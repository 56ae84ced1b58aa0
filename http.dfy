/**
 * The response helpers of the HTTP layer: `problem` builds an RFC 7807
 * problem-details response, `ok` a JSON response. A response is modelled as
 * the status, the header object handed to `new Response`, and the (not yet
 * serialised) body. The content type the response finally carries is
 * `SentContentType` of that header object: the `Response` constructor adds
 * `text/plain;charset=UTF-8` to a string body when the headers name none.
 */
module Http {
  import opened Wrappers
  import opened Text

  datatype ProblemDetails = ProblemDetails(
    typ: string,
    title: string,
    status: int,
    detail: string,
    errorId: string,
    fields: Option<map<string, string>>)

  datatype Body<T> = ProblemBody(problem: ProblemDetails) | JsonBody(data: T)

  datatype Response<T> = Response(status: int, headers: map<string, string>, body: Body<T>)

  /** The optional `extras` argument of `problem`. */
  datatype Extras = Extras(fields: Option<map<string, string>>, typ: Option<string>)

  const NoExtras := Extras(None, None)

  /** The part of `ResponseInit` a caller of `ok` may override. */
  datatype Init = Init(status: Option<int>, headers: Option<map<string, string>>)

  const NoInit := Init(None, None)

  const ContentType := "Content-Type"
  const ProblemJson := "application/problem+json"
  const ApplicationJson := "application/json"
  const TextPlainUtf8 := "text/plain;charset=UTF-8"
  const ErrorTypeBase := "https://errors.local/"

  /** The problem type derived from a title: the base URL, then the title
      lower-cased with each white-space run replaced by a dash. */
  function DefaultType(title: string): (r: string)
    ensures |r| >= |ErrorTypeBase| && r[..|ErrorTypeBase|] == ErrorTypeBase
    ensures |r| - |ErrorTypeBase| <= |title|
  {
    ErrorTypeBase + DashWhitespaceRuns(ToLower(title))
  }

  /** The part after the base is a slug: no white space and no upper-case letter. */
  lemma DefaultTypeIsSlug(title: string)
    ensures NoWhitespace(DefaultType(title)[|ErrorTypeBase|..])
    ensures forall i :: |ErrorTypeBase| <= i < |DefaultType(title)| ==> !('A' <= DefaultType(title)[i] <= 'Z')
  {
    var slug := DashWhitespaceRuns(ToLower(title));
    DashWhitespaceRunsNoWhitespace(ToLower(title));
    LowerCaseSurvivesDashing(ToLower(title));
    assert DefaultType(title)[|ErrorTypeBase|..] == slug;
  }

  /** Replacing white space by dashes introduces no upper-case letter. */
  lemma {:induction false} LowerCaseSurvivesDashing(s: string)
    requires forall i :: 0 <= i < |s| ==> !('A' <= s[i] <= 'Z')
    ensures forall i :: 0 <= i < |DashWhitespaceRuns(s)| ==> !('A' <= DashWhitespaceRuns(s)[i] <= 'Z')
    decreases |s|
  {
    if s != [] {
      if IsWhitespace(s[0]) {
        var t := TrimStart(s);
        TrimStartShape(s);
        assert forall i :: 0 <= i < |t| ==> t[i] == s[|s| - |t| + i];
        LowerCaseSurvivesDashing(t);
      } else {
        LowerCaseSurvivesDashing(s[1..]);
      }
    }
  }

  /** A title of two words separated by a white-space run gets the type
      `base + word1 + "-" + word2`, both words lower-cased. */
  lemma DefaultTypeOfTwoWords(w1: string, run: string, w2: string)
    requires NoWhitespace(w1) && NoWhitespace(w2) && w1 != [] && w2 != []
    requires run != [] && AllWhitespace(run)
    ensures DefaultType(w1 + run + w2) == ErrorTypeBase + ToLower(w1) + "-" + ToLower(w2)
  {
    LowerCaseKeepsWhitespace(w1, run, w2);
    DashTwoWords(ToLower(w1), ToLower(run), ToLower(w2));
  }

  /** Lower-casing acts piecewise and keeps each piece's white space. */
  lemma LowerCaseKeepsWhitespace(w1: string, run: string, w2: string)
    requires NoWhitespace(w1) && NoWhitespace(w2) && AllWhitespace(run)
    ensures ToLower(w1 + run + w2) == ToLower(w1) + ToLower(run) + ToLower(w2)
    ensures NoWhitespace(ToLower(w1)) && NoWhitespace(ToLower(w2)) && AllWhitespace(ToLower(run))
  {
    ToLowerAppend(w1 + run, w2);
    ToLowerAppend(w1, run);
  }

  lemma ToLowerAppend(a: string, b: string)
    ensures ToLower(a + b) == ToLower(a) + ToLower(b)
  {
    assert forall i :: 0 <= i < |a + b| ==> ToLower(a + b)[i] == (ToLower(a) + ToLower(b))[i];
  }

  /** `problem(status, title, detail, extras)`, with the random error id given. */
  function Problem<T>(status: int, title: string, detail: string, extras: Extras, errorId: string): (r: Response<T>)
    ensures r.status == status
    ensures r.headers == map[ContentType := ProblemJson]
    ensures r.body.ProblemBody?
    ensures r.body.problem.status == status && r.body.problem.title == title
    ensures r.body.problem.detail == detail && r.body.problem.errorId == errorId
    ensures r.body.problem.fields.Some? <==> extras.fields.Some?
    ensures extras.fields.Some? ==> r.body.problem.fields.value == extras.fields.value
    ensures extras.typ.Some? ==> r.body.problem.typ == extras.typ.value
    ensures extras.typ.None? ==> r.body.problem.typ == DefaultType(title)
  {
    var details := ProblemDetails(
      if extras.typ.Some? then extras.typ.value else DefaultType(title),
      title, status, detail, errorId, extras.fields);
    Response(status, map[ContentType := ProblemJson], ProblemBody(details))
  }

  /** `ok(data, initOverrides)` as written: the trailing spread of the
      overrides replaces the merged header object wholesale. `Init` carries
      only the status and the headers; a `statusText` override, which the
      spread would also pass on, is not modelled. */
  function OkAsWritten<T>(data: T, init: Init): (r: Response<T>)
    ensures r.status == init.status.GetOr(200)
    ensures r.body == JsonBody(data)
    ensures init.headers.Some? ==> r.headers == init.headers.value
  {
    var merged := map[ContentType := ApplicationJson] + init.headers.GetOr(map[]);
    var headers := if init.headers.Some? then init.headers.value else merged;
    Response(init.status.GetOr(200), headers, JsonBody(data))
  }

  /** The content type a response built from a string body and these
      headers goes out with: the one the headers name, else the constructor's
      default for strings. */
  function SentContentType(headers: map<string, string>): (r: string)
    ensures ContentType in headers ==> r == headers[ContentType]
    ensures ContentType !in headers ==> r == TextPlainUtf8
  {
    if ContentType in headers then headers[ContentType] else TextPlainUtf8
  }

  /** Passing an unrelated header override to the as-written `ok` drops the
      JSON content type from the init headers, so the response goes out as
      plain text. */
  lemma OkAsWrittenDropsContentType()
    ensures ContentType !in OkAsWritten(0, Init(None, Some(map["X-Request-Id" := "r1"]))).headers
    ensures SentContentType(OkAsWritten(0, Init(None, Some(map["X-Request-Id" := "r1"]))).headers) == TextPlainUtf8
  {
  }

  /** The corrected `ok` goes out as JSON unless a header override names
      another content type. */
  lemma OkSendsJson<T>(data: T, init: Init)
    requires init.headers.None? || ContentType !in init.headers.value
    ensures SentContentType(Ok(data, init).headers) == ApplicationJson
  {
  }

  /** `ok(data, initOverrides)`: status 200 unless overridden, the JSON content
      type unless a header override replaces it, and every header override kept. */
  function Ok<T>(data: T, init: Init): (r: Response<T>)
    ensures r.status == init.status.GetOr(200)
    ensures r.body == JsonBody(data)
    ensures ContentType in r.headers
    ensures init.headers.None? ==> r.headers == map[ContentType := ApplicationJson]
    ensures init.headers.Some? ==> r.headers.Keys == init.headers.value.Keys + {ContentType}
    ensures init.headers.Some? ==> forall k :: k in init.headers.value ==> r.headers[k] == init.headers.value[k]
    ensures init.headers.Some? && ContentType !in init.headers.value ==> r.headers[ContentType] == ApplicationJson
  {
    var headers := map[ContentType := ApplicationJson] + init.headers.GetOr(map[]);
    Response(init.status.GetOr(200), headers, JsonBody(data))
  }

  /** The two versions agree on every call that overrides no header, which is
      every call the routes make. */
  lemma OkAgreesWithoutHeaderOverride<T>(data: T, status: Option<int>)
    ensures Ok(data, Init(status, None)) == OkAsWritten(data, Init(status, None))
  {
  }
}
