/**
 * The LLM side of a run: the chat messages sent upstream, the schema check of
 * the structured reply, and the guards (record cap, field truncation) applied
 * before anything is stored. The HTTPS call itself is not part of this module:
 * a run receives its outcome as input.
 */
module Llm {
  import opened Wrappers
  import opened Text
  import opened Json
  import opened Consts

  datatype Role = System | User

  datatype Message = Message(role: Role, content: string)

  /** `buildMessages`: the system prompt, then the user prompt. */
  function BuildMessages(systemPrompt: string, userPrompt: string): (r: seq<Message>)
    ensures |r| == 2
    ensures r[0] == Message(System, systemPrompt)
    ensures r[1] == Message(User, userPrompt)
  {
    [Message(System, systemPrompt), Message(User, userPrompt)]
  }

  datatype ProcessedRecord = ProcessedRecord(title: string, description: string)

  /** The two ways `parseAndValidate` throws: the text is not JSON, or the
      parsed value does not match the response schema. */
  datatype ParseError = InvalidJson | ValidationFailed

  const RecordsKey := "records"

  /** The schema of one record field: present, a string, non-empty once trimmed. */
  predicate NonBlankString(members: map<string, Json>, key: string) {
    key in members && members[key].JString? && Trim(members[key].s) != []
  }

  /** The schema of one record: an object with both fields; other keys are allowed. */
  predicate ValidRecordItem(j: Json) {
    j.JObject? && NonBlankString(j.members, TitleKey) && NonBlankString(j.members, DescriptionKey)
  }

  /** The schema of the whole reply: an object whose only key is `records`,
      holding a non-empty array of valid records. */
  predicate ValidEnvelope(j: Json) {
    && j.JObject?
    && j.members.Keys == {RecordsKey}
    && j.members[RecordsKey].JArray?
    && |j.members[RecordsKey].items| >= 1
    && forall i :: 0 <= i < |j.members[RecordsKey].items| ==> ValidRecordItem(j.members[RecordsKey].items[i])
  }

  /** A record as the schema outputs it: both fields trimmed and non-empty. */
  predicate IsCleanRecord(r: ProcessedRecord) {
    r.title != [] && Trim(r.title) == r.title && r.description != [] && Trim(r.description) == r.description
  }

  /** The schema's output for one record: the trimmed fields, every other key dropped. */
  function CleanRecord(j: Json): (r: ProcessedRecord)
    requires ValidRecordItem(j)
    ensures IsCleanRecord(r)
    ensures r.title == Trim(j.members[TitleKey].s)
    ensures r.description == Trim(j.members[DescriptionKey].s)
  {
    var title := Trim(j.members[TitleKey].s);
    var description := Trim(j.members[DescriptionKey].s);
    TrimIdempotent(j.members[TitleKey].s);
    TrimIdempotent(j.members[DescriptionKey].s);
    ProcessedRecord(title, description)
  }

  /** `parseAndValidate`, on the value `JSON.parse` produced (`None` when it threw). */
  function ParseAndValidate(parsed: Option<Json>): (r: Result<seq<ProcessedRecord>, ParseError>)
    ensures parsed.None? <==> r == Failure(InvalidJson)
    ensures r.Success? ==> |r.value| >= 1
    ensures r.Success? ==> forall i :: 0 <= i < |r.value| ==> IsCleanRecord(r.value[i])
    ensures r.Success? ==> parsed.Some? && parsed.value.JObject? && parsed.value.members.Keys == {RecordsKey}
    ensures r.Success? ==>
              && parsed.value.members[RecordsKey].JArray?
              && |r.value| == |parsed.value.members[RecordsKey].items|
              && forall i :: 0 <= i < |r.value| ==>
                   var item := parsed.value.members[RecordsKey].items[i];
                   && item.JObject? && TitleKey in item.members && DescriptionKey in item.members
                   && item.members[TitleKey].JString? && item.members[DescriptionKey].JString?
                   && r.value[i].title == Trim(item.members[TitleKey].s)
                   && r.value[i].description == Trim(item.members[DescriptionKey].s)
  {
    if parsed.None? then Failure(InvalidJson)
    else if !ValidEnvelope(parsed.value) then Failure(ValidationFailed)
    else
      var items := parsed.value.members[RecordsKey].items;
      Success(seq(|items|, i requires 0 <= i < |items| => CleanRecord(items[i])))
  }

  /** Every reply that matches the schema is accepted. */
  lemma AcceptsValidEnvelope(items: seq<Json>)
    requires |items| >= 1
    requires forall i :: 0 <= i < |items| ==> ValidRecordItem(items[i])
    ensures ParseAndValidate(Some(JObject(map[RecordsKey := JArray(items)]))).Success?
  {
    assert map[RecordsKey := JArray(items)].Keys == {RecordsKey};
  }

  /** A top-level key besides `records` makes the reply invalid. */
  lemma RejectsExtraTopLevelKey(members: map<string, Json>, extra: string)
    requires extra in members && extra != RecordsKey
    ensures ParseAndValidate(Some(JObject(members))) == Failure(ValidationFailed)
  {
    assert extra in members.Keys;
  }

  /** An empty `records` array makes the reply invalid. */
  lemma RejectsEmptyRecords()
    ensures ParseAndValidate(Some(JObject(map[RecordsKey := JArray([])]))) == Failure(ValidationFailed)
  {
  }

  /** Two record objects that agree on `title` and `description`. */
  predicate SameFields(a: Json, b: Json) {
    && a.JObject? && b.JObject?
    && (TitleKey in a.members <==> TitleKey in b.members)
    && (TitleKey in a.members ==> a.members[TitleKey] == b.members[TitleKey])
    && (DescriptionKey in a.members <==> DescriptionKey in b.members)
    && (DescriptionKey in a.members ==> a.members[DescriptionKey] == b.members[DescriptionKey])
  }

  /** Extra keys inside a record change nothing: replies whose records agree
      on `title` and `description` are validated to the same result. */
  lemma ExtraRecordKeysIgnored(items: seq<Json>, items': seq<Json>)
    requires |items| == |items'|
    requires forall i :: 0 <= i < |items| ==> SameFields(items[i], items'[i])
    ensures ParseAndValidate(Some(JObject(map[RecordsKey := JArray(items)])))
         == ParseAndValidate(Some(JObject(map[RecordsKey := JArray(items')])))
  {
    var e := JObject(map[RecordsKey := JArray(items)]);
    var e' := JObject(map[RecordsKey := JArray(items')]);
    assert forall i :: 0 <= i < |items| ==> (ValidRecordItem(items[i]) <==> ValidRecordItem(items'[i]));
    assert ValidEnvelope(e) <==> ValidEnvelope(e');
    if ValidEnvelope(e) {
      var a := ParseAndValidate(Some(e)).value;
      var b := ParseAndValidate(Some(e')).value;
      assert |a| == |b|;
      forall i | 0 <= i < |a| ensures a[i] == b[i] {
        assert a[i] == CleanRecord(items[i]);
        assert b[i] == CleanRecord(items'[i]);
      }
      assert a == b;
    }
  }

  /** A guard warning; `WarningText` gives the string the source pushes. */
  datatype Warning = RecordsDropped(dropped: nat, max: nat) | FieldsTruncated(count: nat)

  function WarningText(w: Warning): (r: string)
    ensures w.RecordsDropped? ==> NatToString(w.dropped) <= r
    ensures w.FieldsTruncated? ==> NatToString(w.count) <= r
  {
    match w
    case RecordsDropped(dropped, max) =>
      NatToString(dropped) + " records dropped (max=" + NatToString(max) + ")"
    case FieldsTruncated(count) =>
      NatToString(count) + " fields truncated"
  }

  function WarningTexts(ws: seq<Warning>): (r: seq<string>)
    ensures |r| == |ws|
    ensures forall i :: 0 <= i < |ws| ==> r[i] == WarningText(ws[i])
  {
    seq(|ws|, i requires 0 <= i < |ws| => WarningText(ws[i]))
  }

  /** The drop warning as the message reads for five records and a cap of three. */
  lemma DropWarningExample()
    ensures WarningText(RecordsDropped(2, 3)) == "2 records dropped (max=3)"
  {
    assert NatToString(2) == "2";
    assert NatToString(3) == "3";
    var prefix := "2 records dropped (max=";
    assert "2" + " records dropped (max=" == prefix;
    assert prefix + "3" + ")" == "2 records dropped (max=3)";
  }

  /** The truncation warning as the message reads for six cut fields. */
  lemma TruncationWarningExample()
    ensures WarningText(FieldsTruncated(6)) == "6 fields truncated"
  {
    assert NatToString(6) == "6";
  }

  /** The guarded records and the warnings, in structured form. */
  datatype Guarded = Guarded(records: seq<ProcessedRecord>, warnings: seq<Warning>)

  /** What `applyGuards` returns: the records and the warning strings. */
  datatype ProcessingResult = ProcessingResult(records: seq<ProcessedRecord>, warnings: seq<string>)

  /** One record with both fields cut to their limits. */
  function GuardRecord(r: ProcessedRecord, lim: Limits): (g: ProcessedRecord)
    ensures |g.title| <= lim.maxTitleChars && g.title <= r.title
    ensures |g.description| <= lim.maxDescriptionChars && g.description <= r.description
    ensures |r.title| <= lim.maxTitleChars ==> g.title == r.title
    ensures |r.description| <= lim.maxDescriptionChars ==> g.description == r.description
  {
    ProcessedRecord(Cut(r.title, lim.maxTitleChars), Cut(r.description, lim.maxDescriptionChars))
  }

  /** How many of a record's two fields are over their limits. */
  function OverLimitFields(r: ProcessedRecord, lim: Limits): nat {
    (if |r.title| > lim.maxTitleChars then 1 else 0)
    + (if |r.description| > lim.maxDescriptionChars then 1 else 0)
  }

  /** The number of over-limit fields in a sequence of records. */
  function TruncationCount(rs: seq<ProcessedRecord>, lim: Limits): nat {
    if rs == [] then 0
    else TruncationCount(rs[..|rs| - 1], lim) + OverLimitFields(rs[|rs| - 1], lim)
  }

  /** The records the cap keeps: a leading slice of at most `maxRecordsPerRun`. */
  function Kept(rs: seq<ProcessedRecord>, lim: Limits): seq<ProcessedRecord> {
    if |rs| > lim.maxRecordsPerRun then rs[..lim.maxRecordsPerRun] else rs
  }

  /** The guards as a function: cap, then cut every kept field, then warn. */
  function Guard(rs: seq<ProcessedRecord>, lim: Limits): Guarded {
    var kept := Kept(rs, lim);
    var count := TruncationCount(kept, lim);
    Guarded(
      seq(|kept|, i requires 0 <= i < |kept| => GuardRecord(kept[i], lim)),
      (if |rs| > lim.maxRecordsPerRun then [RecordsDropped(|rs| - lim.maxRecordsPerRun, lim.maxRecordsPerRun)] else [])
      + (if count > 0 then [FieldsTruncated(count)] else []))
  }

  /** `applyGuards`: the record cap, then a pass over the kept records that
      cuts over-long fields and counts the cuts. */
  method ApplyGuards(records: seq<ProcessedRecord>, lim: Limits) returns (result: ProcessingResult)
    ensures result.records == Guard(records, lim).records
    ensures result.warnings == WarningTexts(Guard(records, lim).warnings)
  {
    var warnings: seq<string> := [];
    var processed := records;
    if |processed| > lim.maxRecordsPerRun {
      var dropped := |processed| - lim.maxRecordsPerRun;
      processed := processed[..lim.maxRecordsPerRun];
      warnings := warnings + [WarningText(RecordsDropped(dropped, lim.maxRecordsPerRun))];
    }
    var out, truncatedCount := TruncateFields(processed, lim);
    if truncatedCount > 0 {
      warnings := warnings + [WarningText(FieldsTruncated(truncatedCount))];
    }
    result := ProcessingResult(out, warnings);
    GuardMatches(records, lim, processed, out, truncatedCount);
  }

  /** The `map` pass of `applyGuards`: cut each over-long field and count the cuts. */
  method TruncateFields(records: seq<ProcessedRecord>, lim: Limits) returns (out: seq<ProcessedRecord>, truncatedCount: nat)
    ensures |out| == |records|
    ensures forall j :: 0 <= j < |out| ==> out[j] == GuardRecord(records[j], lim)
    ensures truncatedCount == TruncationCount(records, lim)
  {
    truncatedCount := 0;
    out := [];
    var i := 0;
    while i < |records|
      invariant 0 <= i <= |records|
      invariant |out| == i
      invariant forall j :: 0 <= j < i ==> out[j] == GuardRecord(records[j], lim)
      invariant truncatedCount == TruncationCount(records[..i], lim)
    {
      var title := records[i].title;
      var description := records[i].description;
      if |title| > lim.maxTitleChars {
        title := title[..lim.maxTitleChars];
        truncatedCount := truncatedCount + 1;
      }
      if |description| > lim.maxDescriptionChars {
        description := description[..lim.maxDescriptionChars];
        truncatedCount := truncatedCount + 1;
      }
      TruncationCountStep(records, i, lim);
      out := out + [ProcessedRecord(title, description)];
      i := i + 1;
    }
    assert records[..i] == records;
  }

  /** One more record adds its over-limit fields to the count. */
  lemma TruncationCountStep(rs: seq<ProcessedRecord>, i: nat, lim: Limits)
    requires i < |rs|
    ensures TruncationCount(rs[..i + 1], lim) == TruncationCount(rs[..i], lim) + OverLimitFields(rs[i], lim)
  {
    assert rs[..i + 1][..i] == rs[..i];
  }

  /** The loop's final state is the guard function's value. */
  lemma GuardMatches(records: seq<ProcessedRecord>, lim: Limits, processed: seq<ProcessedRecord>,
                     out: seq<ProcessedRecord>, count: nat)
    requires processed == Kept(records, lim)
    requires |out| == |processed| && forall j :: 0 <= j < |out| ==> out[j] == GuardRecord(processed[j], lim)
    requires count == TruncationCount(processed, lim)
    ensures out == Guard(records, lim).records
    ensures Guard(records, lim).warnings ==
              (if |records| > lim.maxRecordsPerRun then [RecordsDropped(|records| - lim.maxRecordsPerRun, lim.maxRecordsPerRun)] else [])
              + (if count > 0 then [FieldsTruncated(count)] else [])
  {
  }

  /** The cap: the output holds `min(n, max)` records, the first ones, in order,
      each with its fields cut to the limits. */
  lemma GuardKeepsLeadingRecords(rs: seq<ProcessedRecord>, lim: Limits)
    ensures |Guard(rs, lim).records| == if |rs| > lim.maxRecordsPerRun then lim.maxRecordsPerRun else |rs|
    ensures forall i :: 0 <= i < |Guard(rs, lim).records| ==>
              && Guard(rs, lim).records[i] == GuardRecord(rs[i], lim)
              && |Guard(rs, lim).records[i].title| <= lim.maxTitleChars
              && |Guard(rs, lim).records[i].description| <= lim.maxDescriptionChars
              && Guard(rs, lim).records[i].title <= rs[i].title
              && Guard(rs, lim).records[i].description <= rs[i].description
  {
  }

  /** The drop warning is present exactly when records were dropped, is the
      first warning, and counts `n - max`. */
  lemma GuardDropWarning(rs: seq<ProcessedRecord>, lim: Limits)
    ensures (exists i :: 0 <= i < |Guard(rs, lim).warnings| && Guard(rs, lim).warnings[i].RecordsDropped?)
            <==> |rs| > lim.maxRecordsPerRun
    ensures |rs| > lim.maxRecordsPerRun ==>
              Guard(rs, lim).warnings[0] == RecordsDropped(|rs| - lim.maxRecordsPerRun, lim.maxRecordsPerRun)
  {
    var ws := Guard(rs, lim).warnings;
    if |rs| <= lim.maxRecordsPerRun {
      assert forall i :: 0 <= i < |ws| ==> ws[i].FieldsTruncated?;
    } else {
      assert ws[0].RecordsDropped?;
    }
  }

  /** The truncation warning is present exactly when a kept record has an
      over-limit field; it is the last warning, and it counts those fields. */
  lemma GuardTruncationWarning(rs: seq<ProcessedRecord>, lim: Limits)
    ensures var ws := Guard(rs, lim).warnings;
            (exists i :: 0 <= i < |ws| && ws[i].FieldsTruncated?)
            <==> (exists i :: 0 <= i < |Kept(rs, lim)| && OverLimitFields(Kept(rs, lim)[i], lim) > 0)
    ensures var ws := Guard(rs, lim).warnings;
            forall i :: 0 <= i < |ws| && ws[i].FieldsTruncated? ==>
              i == |ws| - 1 && ws[i].count == TruncationCount(Kept(rs, lim), lim)
  {
    var kept := Kept(rs, lim);
    TruncationCountZeroIff(kept, lim);
    var ws := Guard(rs, lim).warnings;
    if TruncationCount(kept, lim) > 0 {
      assert ws[|ws| - 1].FieldsTruncated?;
    }
  }

  /** The truncation count is zero exactly when no field is over its limit. */
  lemma {:induction false} TruncationCountZeroIff(rs: seq<ProcessedRecord>, lim: Limits)
    ensures TruncationCount(rs, lim) == 0 <==> forall i :: 0 <= i < |rs| ==> OverLimitFields(rs[i], lim) == 0
  {
    if rs != [] {
      var init := rs[..|rs| - 1];
      TruncationCountZeroIff(init, lim);
      assert forall i :: 0 <= i < |init| ==> init[i] == rs[i];
    }
  }

  /** The set of positions whose field of one kind is over its limit. */
  function OverTitles(rs: seq<ProcessedRecord>, lim: Limits): set<nat> {
    set i: nat | i < |rs| && |rs[i].title| > lim.maxTitleChars
  }

  function OverDescriptions(rs: seq<ProcessedRecord>, lim: Limits): set<nat> {
    set i: nat | i < |rs| && |rs[i].description| > lim.maxDescriptionChars
  }

  /** The truncation count is the number of over-limit titles plus the number
      of over-limit descriptions. */
  lemma {:induction false} TruncationCountCountsFields(rs: seq<ProcessedRecord>, lim: Limits)
    ensures TruncationCount(rs, lim) == |OverTitles(rs, lim)| + |OverDescriptions(rs, lim)|
  {
    if rs != [] {
      TruncationCountCountsFields(rs[..|rs| - 1], lim);
      OverTitlesStep(rs, lim);
      OverDescriptionsStep(rs, lim);
    }
  }

  lemma OverTitlesStep(rs: seq<ProcessedRecord>, lim: Limits)
    requires rs != []
    ensures |OverTitles(rs, lim)| ==
              |OverTitles(rs[..|rs| - 1], lim)| + if |rs[|rs| - 1].title| > lim.maxTitleChars then 1 else 0
  {
    var n := |rs| - 1;
    var init := rs[..n];
    var extra := if |rs[n].title| > lim.maxTitleChars then {n} else {};
    forall i: nat
      ensures i in OverTitles(rs, lim) <==> i in OverTitles(init, lim) + extra
    {
      if i < n {
        assert init[i] == rs[i];
      }
    }
    assert OverTitles(rs, lim) == OverTitles(init, lim) + extra;
    assert n !in OverTitles(init, lim);
  }

  lemma OverDescriptionsStep(rs: seq<ProcessedRecord>, lim: Limits)
    requires rs != []
    ensures |OverDescriptions(rs, lim)| ==
              |OverDescriptions(rs[..|rs| - 1], lim)| + if |rs[|rs| - 1].description| > lim.maxDescriptionChars then 1 else 0
  {
    var n := |rs| - 1;
    var init := rs[..n];
    var extra := if |rs[n].description| > lim.maxDescriptionChars then {n} else {};
    forall i: nat
      ensures i in OverDescriptions(rs, lim) <==> i in OverDescriptions(init, lim) + extra
    {
      if i < n {
        assert init[i] == rs[i];
      }
    }
    assert OverDescriptions(rs, lim) == OverDescriptions(init, lim) + extra;
    assert n !in OverDescriptions(init, lim);
  }

  /** Guarding a guarded result changes nothing and warns of nothing. */
  lemma GuardIdempotent(rs: seq<ProcessedRecord>, lim: Limits)
    ensures Guard(Guard(rs, lim).records, lim) == Guarded(Guard(rs, lim).records, [])
  {
    var out := Guard(rs, lim).records;
    assert Kept(out, lim) == out;
    assert forall i :: 0 <= i < |out| ==> OverLimitFields(out[i], lim) == 0;
    TruncationCountZeroIff(out, lim);
    assert forall i :: 0 <= i < |out| ==> GuardRecord(out[i], lim) == out[i];
  }
}
