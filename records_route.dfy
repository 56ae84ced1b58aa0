/**
 * `GET /api/records` and `POST /api/records`. The request body arrives as the
 * value `request.json()` produced, or `None` when the body was not JSON.
 */
module RecordsRoute {
  import opened Wrappers
  import opened Text
  import opened Json
  import opened Http
  import opened Consts
  import opened Records

  datatype RecordsData = RecordList(records: seq<Record>) | CreatedRecord(record: Record)

  /** One problem reported by the request schema: where, and what. */
  datatype Issue = Issue(path: seq<string>, message: string)

  const TitleEmptyMessage := "Title cannot be empty"
  const DescriptionEmptyMessage := "Description cannot be empty"

  /** The schema's verdict on one string field: missing, of the wrong type,
      blank once trimmed, or fine. */
  function FieldIssue(members: map<string, Json>, key: string, emptyMessage: string): (r: Option<string>)
    ensures r.None? <==> key in members && members[key].JString? && Trim(members[key].s) != []
  {
    if key !in members then Some("Required")
    else if !members[key].JString? then Some("Expected string, received " + TypeName(members[key]))
    else if Trim(members[key].s) == [] then Some(emptyMessage)
    else None
  }

  function IssueAt(key: string, message: Option<string>): seq<Issue> {
    if message.Some? then [Issue([key], message.value)] else []
  }

  /** The issues the create schema reports for a body, in field order; a body
      that is not an object gets one issue with an empty path. */
  function Issues(body: Json): (r: seq<Issue>)
    ensures r == [] <==>
              body.JObject?
              && FieldIssue(body.members, TitleKey, TitleEmptyMessage).None?
              && FieldIssue(body.members, DescriptionKey, DescriptionEmptyMessage).None?
    ensures !body.JObject? ==> |r| == 1 && r[0].path == []
  {
    if !body.JObject? then [Issue([], "Expected object, received " + TypeName(body))]
    else
      IssueAt(TitleKey, FieldIssue(body.members, TitleKey, TitleEmptyMessage))
      + IssueAt(DescriptionKey, FieldIssue(body.members, DescriptionKey, DescriptionEmptyMessage))
  }

  /** The field-error map: each issue with a path records its message under
      the first path element; a later issue overwrites an earlier one. */
  function FieldErrorsOf(issues: seq<Issue>): (m: map<string, string>)
    ensures forall k :: k in m <==> exists i :: 0 <= i < |issues| && issues[i].path != [] && issues[i].path[0] == k
  {
    if issues == [] then map[]
    else
      var n := |issues| - 1;
      var m := FieldErrorsOf(issues[..n]);
      assert forall i :: 0 <= i < n ==> issues[..n][i] == issues[i];
      if issues[n].path != [] then m[issues[n].path[0] := issues[n].message] else m
  }

  /** The message kept for a field is that of the last issue naming it. */
  lemma {:induction false} FieldErrorsLastWins(issues: seq<Issue>, i: nat)
    requires i < |issues| && issues[i].path != []
    requires forall j :: i < j < |issues| ==> issues[j].path == [] || issues[j].path[0] != issues[i].path[0]
    ensures issues[i].path[0] in FieldErrorsOf(issues)
    ensures FieldErrorsOf(issues)[issues[i].path[0]] == issues[i].message
  {
    var n := |issues| - 1;
    if i < n {
      var prefix := issues[..n];
      assert forall j :: i < j < n ==> prefix[j] == issues[j];
      FieldErrorsLastWins(prefix, i);
    }
  }

  /** The `forEach` that fills `fieldErrors`. */
  method CollectFieldErrors(issues: seq<Issue>) returns (fieldErrors: map<string, string>)
    ensures fieldErrors == FieldErrorsOf(issues)
  {
    fieldErrors := map[];
    var i := 0;
    while i < |issues|
      invariant 0 <= i <= |issues|
      invariant fieldErrors == FieldErrorsOf(issues[..i])
    {
      var err := issues[i];
      if err.path != [] {
        fieldErrors := fieldErrors[err.path[0] := err.message];
      }
      assert issues[..i + 1][..i] == issues[..i];
      i := i + 1;
    }
    assert issues[..i] == issues;
  }

  /** Both fields blank: the error map names both, with their messages. */
  lemma BlankFieldsBothReported(body: Json)
    requires body.JObject?
    requires TitleKey in body.members && body.members[TitleKey].JString? && Trim(body.members[TitleKey].s) == []
    requires DescriptionKey in body.members && body.members[DescriptionKey].JString?
    requires Trim(body.members[DescriptionKey].s) == []
    ensures FieldErrorsOf(Issues(body)) == map[TitleKey := TitleEmptyMessage, DescriptionKey := DescriptionEmptyMessage]
  {
    var first := Issue([TitleKey], TitleEmptyMessage);
    var second := Issue([DescriptionKey], DescriptionEmptyMessage);
    assert Issues(body) == [first] + [second];
    FieldErrorsAppend([], first);
    assert [] + [first] == [first];
    FieldErrorsAppend([first], second);
  }

  /** For an object body, the error map has an entry for a field exactly when
      that field fails the schema, and the entry is that field's message. */
  lemma ObjectFieldErrors(body: Json)
    requires body.JObject?
    ensures var fields := FieldErrorsOf(Issues(body));
            var title := FieldIssue(body.members, TitleKey, TitleEmptyMessage);
            && (TitleKey in fields <==> title.Some?)
            && (title.Some? ==> fields[TitleKey] == title.value)
    ensures var fields := FieldErrorsOf(Issues(body));
            var description := FieldIssue(body.members, DescriptionKey, DescriptionEmptyMessage);
            && (DescriptionKey in fields <==> description.Some?)
            && (description.Some? ==> fields[DescriptionKey] == description.value)
    ensures FieldErrorsOf(Issues(body)).Keys <= {TitleKey, DescriptionKey}
  {
    var t := IssueAt(TitleKey, FieldIssue(body.members, TitleKey, TitleEmptyMessage));
    var d := IssueAt(DescriptionKey, FieldIssue(body.members, DescriptionKey, DescriptionEmptyMessage));
    assert Issues(body) == t + d;
    if t != [] {
      FieldErrorsAppend([], t[0]);
      assert [] + [t[0]] == t;
    }
    if d != [] {
      FieldErrorsAppend(t, d[0]);
      assert t + [d[0]] == t + d;
    } else {
      assert t + d == t;
    }
    assert TitleKey != DescriptionKey;
  }

  /** One more issue updates the map at its field, when it names one. */
  lemma FieldErrorsAppend(issues: seq<Issue>, issue: Issue)
    ensures FieldErrorsOf(issues + [issue]) ==
              if issue.path != [] then FieldErrorsOf(issues)[issue.path[0] := issue.message] else FieldErrorsOf(issues)
  {
    assert (issues + [issue])[..|issues|] == issues;
  }

  /** A body that is not an object is rejected with an empty error map. */
  lemma NonObjectHasNoFieldErrors(body: Json)
    requires !body.JObject?
    ensures Issues(body) != [] && FieldErrorsOf(Issues(body)) == map[]
  {
    assert Issues(body)[..0] == [];
  }

  /** The record a valid body asks for: each field trimmed, then cut to its limit. */
  function RequestedFields(body: Json, lim: Limits): (r: (string, string))
    requires Issues(body) == []
    ensures |r.0| <= lim.maxTitleChars && r.0 <= Trim(body.members[TitleKey].s)
    ensures lim.maxTitleChars > 0 ==> r.0 != []
    ensures lim.maxDescriptionChars > 0 ==> r.1 != []
    ensures |r.1| <= lim.maxDescriptionChars && r.1 <= Trim(body.members[DescriptionKey].s)
    ensures |Trim(body.members[TitleKey].s)| <= lim.maxTitleChars ==> r.0 == Trim(body.members[TitleKey].s)
    ensures |Trim(body.members[DescriptionKey].s)| <= lim.maxDescriptionChars ==> r.1 == Trim(body.members[DescriptionKey].s)
  {
    (Cut(Trim(body.members[TitleKey].s), lim.maxTitleChars),
     Cut(Trim(body.members[DescriptionKey].s), lim.maxDescriptionChars))
  }

  /** `GET`: the current records, in order. */
  method Get(table: RecordTable) returns (resp: Response<RecordsData>)
    requires table.Valid()
    ensures resp == Ok(RecordList(table.rows), NoInit)
    ensures resp.status == 200
  {
    var records := table.List();
    resp := Ok(RecordList(records), NoInit);
  }

  /** `POST`: 400 for a body that is not JSON, 422 with the field-error map
      for a body the schema rejects, otherwise one record appended and 201. */
  method Post(body: Option<Json>, table: RecordTable, lim: Limits, now: int, errorId: string)
    returns (resp: Response<RecordsData>)
    requires table.Valid()
    modifies table
    ensures table.Valid()
    ensures body.None? ==>
              && resp == Problem(400, "Bad request", "Invalid JSON in request body", NoExtras, errorId)
              && table.rows == old(table.rows) && table.nextId == old(table.nextId)
    ensures body.Some? && Issues(body.value) != [] ==>
              && resp == Problem(422, "Validation error", "Invalid record data",
                                 Extras(Some(FieldErrorsOf(Issues(body.value))), None), errorId)
              && table.rows == old(table.rows) && table.nextId == old(table.nextId)
    ensures body.Some? && Issues(body.value) == [] ==>
              var fields := RequestedFields(body.value, lim);
              var rec := Record(old(table.nextId), fields.0, fields.1, now, now);
              && table.rows == old(table.rows) + [rec]
              && table.nextId == old(table.nextId) + 1
              && resp == Ok(CreatedRecord(rec), Init(Some(201), None))
  {
    if body.None? {
      resp := Problem(400, "Bad request", "Invalid JSON in request body", NoExtras, errorId);
      return;
    }
    var issues := Issues(body.value);
    if issues != [] {
      var fieldErrors := CollectFieldErrors(issues);
      resp := Problem(422, "Validation error", "Invalid record data", Extras(Some(fieldErrors), None), errorId);
      return;
    }
    var title := Trim(body.value.members[TitleKey].s);
    var description := Trim(body.value.members[DescriptionKey].s);
    var truncatedTitle := if |title| > lim.maxTitleChars then title[..lim.maxTitleChars] else title;
    var truncatedDescription :=
      if |description| > lim.maxDescriptionChars then description[..lim.maxDescriptionChars] else description;
    var record := table.Create(truncatedTitle, truncatedDescription, now);
    resp := Ok(CreatedRecord(record), Init(Some(201), None));
  }
}
