/**
 * `POST /api/run`: validate the prompt, ask the model for records, validate
 * and guard its reply, then replace the stored records and prompt. The
 * model's reply and the JSON parser are inputs; the handler also returns the
 * request it sent upstream, or `None` when it sent none.
 */
module RunRoute {
  import opened Wrappers
  import opened Text
  import opened Json
  import opened Http
  import opened Consts
  import opened Llm
  import opened Records
  import opened Prompts
  import opened SystemPrompt

  /** The success body: the stored prompt, the inserted records, the warnings. */
  datatype RunData = RunData(prompt: Prompt, records: seq<Record>, warnings: seq<string>)

  /** What `callLlm` is asked for. */
  datatype LlmRequest = LlmRequest(messages: seq<Message>, model: string)

  /** How the upstream call ended: it threw with a message, or it returned text. */
  datatype LlmOutcome = LlmFailed(message: string) | LlmReplied(content: string)

  const PromptKey := "prompt"
  const UpstreamType := "https://errors.local/upstream"

  /** Whether the request schema accepts the body: an object whose `prompt` is a string. */
  predicate HasPromptString(body: Json) {
    body.JObject? && PromptKey in body.members && body.members[PromptKey].JString?
  }

  function PromptTooLongDetail(max: nat): string {
    "Prompt exceeds maximum length of " + NatToString(max) + " characters"
  }

  function PromptTooLongField(max: nat): string {
    "Max " + NatToString(max) + " chars"
  }

  /** The checks before any upstream call: the body parses, matches the
      schema, and its trimmed prompt is neither empty nor too long. The
      success value is the trimmed prompt. */
  function CheckPrompt(body: Option<Json>, maxPromptChars: nat, errorId: string): (r: Result<string, Response<RunData>>)
    ensures r.Success? <==>
              && body.Some? && HasPromptString(body.value)
              && 1 <= |Trim(body.value.members[PromptKey].s)| <= maxPromptChars
    ensures r.Success? ==> r.value == Trim(body.value.members[PromptKey].s)
    ensures body.None? ==>
              r == Failure(Problem(400, "Bad request", "Invalid JSON in request body", NoExtras, errorId))
    ensures body.Some? && !HasPromptString(body.value) ==>
              r == Failure(Problem(422, "Validation error", "Invalid request format",
                                   Extras(Some(map[PromptKey := "Required field"]), None), errorId))
    ensures body.Some? && HasPromptString(body.value) && Trim(body.value.members[PromptKey].s) == [] ==>
              r == Failure(Problem(422, "Validation error", "Prompt cannot be empty",
                                   Extras(Some(map[PromptKey := "Cannot be empty"]), None), errorId))
    ensures body.Some? && HasPromptString(body.value) && |Trim(body.value.members[PromptKey].s)| > maxPromptChars ==>
              r == Failure(Problem(422, "Validation error", PromptTooLongDetail(maxPromptChars),
                                   Extras(Some(map[PromptKey := PromptTooLongField(maxPromptChars)]), None), errorId))
  {
    if body.None? then
      Failure(Problem(400, "Bad request", "Invalid JSON in request body", NoExtras, errorId))
    else if !HasPromptString(body.value) then
      Failure(Problem(422, "Validation error", "Invalid request format",
                      Extras(Some(map[PromptKey := "Required field"]), None), errorId))
    else
      var trimmed := Trim(body.value.members[PromptKey].s);
      if |trimmed| == 0 then
        Failure(Problem(422, "Validation error", "Prompt cannot be empty",
                        Extras(Some(map[PromptKey := "Cannot be empty"]), None), errorId))
      else if |trimmed| > maxPromptChars then
        Failure(Problem(422, "Validation error", PromptTooLongDetail(maxPromptChars),
                        Extras(Some(map[PromptKey := PromptTooLongField(maxPromptChars)]), None), errorId))
      else Success(trimmed)
  }

  /** Leading and trailing white space around the prompt is ignored, whatever
      runs of it stand on either side. */
  lemma CheckPromptIgnoresSurroundingSpace(body: Json, maxPromptChars: nat, errorId: string, before: string, after: string)
    requires HasPromptString(body) && AllWhitespace(before) && AllWhitespace(after)
    ensures var padded := body.(members := body.members[PromptKey := JString(before + body.members[PromptKey].s + after)]);
            CheckPrompt(Some(padded), maxPromptChars, errorId) == CheckPrompt(Some(body), maxPromptChars, errorId)
  {
    var text := body.members[PromptKey].s;
    var padded := body.(members := body.members[PromptKey := JString(before + text + after)]);
    assert HasPromptString(padded) && padded.members[PromptKey].s == before + text + after;
    TrimIgnoresPadding(text, before, after);
    assert Trim(padded.members[PromptKey].s) == Trim(body.members[PromptKey].s);
  }

  /** The configuration the handler reads: the cached one, or a fresh selection. */
  function ConfigFor(cached: Option<Config>, env: PromptEnv): (r: Result<Config, ConfigError>)
    ensures cached.Some? ==> r == Success(cached.value)
    ensures cached.None? ==> r == SelectConfig(env)
  {
    if cached.Some? then Success(cached.value) else SelectConfig(env)
  }

  /** `parseAndValidate` on the model's text, with `JSON.parse` as a parameter. */
  function ParseReply(content: string, parseJson: string -> Option<Json>): (r: Result<seq<ProcessedRecord>, ParseError>)
    ensures parseJson(content).None? <==> r == Failure(InvalidJson)
    ensures r.Success? ==> |r.value| >= 1 && forall i :: 0 <= i < |r.value| ==> IsCleanRecord(r.value[i])
  {
    ParseAndValidate(parseJson(content))
  }

  /** The leading part of the message `parseAndValidate` throws. */
  function ParseErrorMessage(e: ParseError): string {
    match e
    case InvalidJson => "Invalid JSON response from LLM"
    case ValidationFailed => "LLM response validation failed"
  }

  /** The rows the insert loop leaves after a truncate: the guarded records
      in order, with consecutive ids from `firstId` and both stamps `now`. */
  function Inserted(rs: seq<ProcessedRecord>, firstId: nat, now: int): (r: seq<Record>)
    ensures |r| == |rs|
    ensures forall i :: 0 <= i < |r| ==> r[i].id == firstId + i && r[i].title == rs[i].title
    ensures forall i :: 0 <= i < |r| ==> r[i].description == rs[i].description
    ensures forall i :: 0 <= i < |r| ==> r[i].createdAt == now && r[i].updatedAt == now
  {
    seq(|rs|, i requires 0 <= i < |rs| => Record(firstId + i, rs[i].title, rs[i].description, now, now))
  }

  /** The writes of a run: clear the records, upsert the prompt, then insert
      the processed records one by one. */
  method Store(records: RecordTable, prompts: PromptSlot, processedRecords: seq<ProcessedRecord>,
               trimmedPrompt: string, now: int)
    returns (updatedPrompt: Prompt, insertedRecords: seq<Record>)
    requires records.Valid() && prompts.Valid()
    modifies records, prompts
    ensures records.Valid() && prompts.Valid()
    ensures insertedRecords == Inserted(processedRecords, old(records.nextId), now)
    ensures records.rows == insertedRecords
    ensures records.nextId == old(records.nextId) + |processedRecords|
    ensures updatedPrompt == Upserted(old(prompts.row), trimmedPrompt, now)
    ensures prompts.row == Some(updatedPrompt)
  {
    records.Truncate();
    updatedPrompt := prompts.Upsert(trimmedPrompt, now);

    var firstId := records.nextId;
    insertedRecords := [];
    var i := 0;
    while i < |processedRecords|
      invariant 0 <= i <= |processedRecords|
      invariant records.Valid()
      invariant records.rows == insertedRecords
      invariant records.nextId == firstId + i
      invariant |insertedRecords| == i
      invariant forall j :: 0 <= j < i ==>
                  insertedRecords[j] == Record(firstId + j, processedRecords[j].title, processedRecords[j].description, now, now)
      invariant prompts.row == Some(updatedPrompt)
    {
      var inserted := records.Create(processedRecords[i].title, processedRecords[i].description, now);
      insertedRecords := insertedRecords + [inserted];
      i := i + 1;
    }
    assert insertedRecords == Inserted(processedRecords, firstId, now);
  }

  /** The handler. The stores change only when every check before the writes
      passed; then the records are exactly the guarded reply, renumbered
      after the ids used so far, and the prompt is the trimmed request prompt. */
  method Post(body: Option<Json>, records: RecordTable, prompts: PromptSlot, cache: ConfigCache,
              env: PromptEnv, lim: Limits, reply: LlmOutcome, parseJson: string -> Option<Json>,
              now: int, errorId: string)
    returns (resp: Response<RunData>, sent: Option<LlmRequest>)
    requires records.Valid() && prompts.Valid()
    modifies records, prompts, cache
    ensures records.Valid() && prompts.Valid()
    ensures var check := CheckPrompt(body, lim.maxPromptChars, errorId);
            check.Failure? ==>
              && resp == check.error && sent == None
              && cache.cached == old(cache.cached)
    ensures sent.Some? <==>
              CheckPrompt(body, lim.maxPromptChars, errorId).Success? && ConfigFor(old(cache.cached), env).Success?
    ensures sent.Some? ==>
              var config := ConfigFor(old(cache.cached), env).value;
              var trimmed := CheckPrompt(body, lim.maxPromptChars, errorId).value;
              && 1 <= |trimmed| <= lim.maxPromptChars
              && sent.value == LlmRequest(BuildMessages(config.systemPromptText, trimmed), config.model)
              && cache.cached == Some(config)
    ensures CheckPrompt(body, lim.maxPromptChars, errorId).Success? && ConfigFor(old(cache.cached), env).Failure? ==>
              && resp == Problem(500, "Internal server error", "An unexpected error occurred", NoExtras, errorId)
              && cache.cached == old(cache.cached)
    ensures sent.Some? && reply.LlmFailed? ==>
              resp == Problem(502, "LLM request failed", "OpenAI error: " + reply.message,
                              Extras(None, Some(UpstreamType)), errorId)
    ensures sent.Some? && reply.LlmReplied? && ParseReply(reply.content, parseJson).Failure? ==>
              resp == Problem(502, "LLM response validation failed",
                              "Invalid response from LLM: " + ParseErrorMessage(ParseReply(reply.content, parseJson).error),
                              Extras(None, Some(UpstreamType)), errorId)
    ensures !(sent.Some? && reply.LlmReplied? && ParseReply(reply.content, parseJson).Success?) ==>
              && records.rows == old(records.rows) && records.nextId == old(records.nextId)
              && prompts.row == old(prompts.row)
    ensures sent.Some? && reply.LlmReplied? && ParseReply(reply.content, parseJson).Success? ==>
              var guarded := Guard(ParseReply(reply.content, parseJson).value, lim);
              var trimmed := CheckPrompt(body, lim.maxPromptChars, errorId).value;
              && records.rows == Inserted(guarded.records, old(records.nextId), now)
              && records.nextId == old(records.nextId) + |guarded.records|
              && prompts.row == Some(Upserted(old(prompts.row), trimmed, now))
              && resp == Ok(RunData(prompts.row.value, records.rows, WarningTexts(guarded.warnings)), NoInit)
    ensures sent.Some? && reply.LlmReplied? && ParseReply(reply.content, parseJson).Success? ==>
              && 1 <= |ParseReply(reply.content, parseJson).value|
              && |records.rows| <= lim.maxRecordsPerRun
              && forall i :: 0 <= i < |records.rows| ==>
                   |records.rows[i].title| <= lim.maxTitleChars && |records.rows[i].description| <= lim.maxDescriptionChars
  {
    var prepared := Prepare(body, cache, env, lim, errorId);
    if prepared.Failure? {
      resp, sent := prepared.error, None;
      return;
    }
    var (trimmedPrompt, request) := prepared.value;
    sent := Some(request);
    resp := HandleReply(records, prompts, trimmedPrompt, lim, reply, parseJson, now, errorId);
  }

  /** The handler up to the upstream call: check the prompt, read the
      configuration through the cache and build the request. The success
      value is the trimmed prompt and the request. */
  method Prepare(body: Option<Json>, cache: ConfigCache, env: PromptEnv, lim: Limits, errorId: string)
    returns (r: Result<(string, LlmRequest), Response<RunData>>)
    modifies cache
    ensures var check := CheckPrompt(body, lim.maxPromptChars, errorId);
            check.Failure? ==> r == Failure(check.error) && cache.cached == old(cache.cached)
    ensures r.Success? <==>
              CheckPrompt(body, lim.maxPromptChars, errorId).Success? && ConfigFor(old(cache.cached), env).Success?
    ensures r.Success? ==>
              var config := ConfigFor(old(cache.cached), env).value;
              var trimmed := CheckPrompt(body, lim.maxPromptChars, errorId).value;
              && r.value == (trimmed, LlmRequest(BuildMessages(config.systemPromptText, trimmed), config.model))
              && cache.cached == Some(config)
    ensures CheckPrompt(body, lim.maxPromptChars, errorId).Success? && ConfigFor(old(cache.cached), env).Failure? ==>
              && r == Failure(Problem(500, "Internal server error", "An unexpected error occurred", NoExtras, errorId))
              && cache.cached == old(cache.cached)
  {
    var check := CheckPrompt(body, lim.maxPromptChars, errorId);
    if check.Failure? {
      return Failure(check.error);
    }
    var trimmedPrompt := check.value;

    var systemPromptText := cache.GetSystemPromptText(env);
    if systemPromptText.Failure? {
      return Failure(Problem(500, "Internal server error", "An unexpected error occurred", NoExtras, errorId));
    }
    var model := cache.GetModel(env);
    if model.Failure? {
      return Failure(Problem(500, "Internal server error", "An unexpected error occurred", NoExtras, errorId));
    }
    var messages := BuildMessages(systemPromptText.value, trimmedPrompt);
    r := Success((trimmedPrompt, LlmRequest(messages, model.value)));
  }

  /** The handler after the upstream call: map a failed call or an invalid
      reply to 502 and leave the stores alone, otherwise guard the reply,
      store it and answer with what was stored. */
  method HandleReply(records: RecordTable, prompts: PromptSlot, trimmedPrompt: string, lim: Limits,
                     reply: LlmOutcome, parseJson: string -> Option<Json>, now: int, errorId: string)
    returns (resp: Response<RunData>)
    requires records.Valid() && prompts.Valid()
    modifies records, prompts
    ensures records.Valid() && prompts.Valid()
    ensures reply.LlmFailed? ==>
              resp == Problem(502, "LLM request failed", "OpenAI error: " + reply.message,
                              Extras(None, Some(UpstreamType)), errorId)
    ensures reply.LlmReplied? && ParseReply(reply.content, parseJson).Failure? ==>
              resp == Problem(502, "LLM response validation failed",
                              "Invalid response from LLM: " + ParseErrorMessage(ParseReply(reply.content, parseJson).error),
                              Extras(None, Some(UpstreamType)), errorId)
    ensures !(reply.LlmReplied? && ParseReply(reply.content, parseJson).Success?) ==>
              && records.rows == old(records.rows) && records.nextId == old(records.nextId)
              && prompts.row == old(prompts.row)
    ensures reply.LlmReplied? && ParseReply(reply.content, parseJson).Success? ==>
              var guarded := Guard(ParseReply(reply.content, parseJson).value, lim);
              && records.rows == Inserted(guarded.records, old(records.nextId), now)
              && records.nextId == old(records.nextId) + |guarded.records|
              && prompts.row == Some(Upserted(old(prompts.row), trimmedPrompt, now))
              && resp == Ok(RunData(prompts.row.value, records.rows, WarningTexts(guarded.warnings)), NoInit)
    ensures reply.LlmReplied? && ParseReply(reply.content, parseJson).Success? ==>
              && 1 <= |ParseReply(reply.content, parseJson).value|
              && |records.rows| <= lim.maxRecordsPerRun
              && forall i :: 0 <= i < |records.rows| ==>
                   |records.rows[i].title| <= lim.maxTitleChars && |records.rows[i].description| <= lim.maxDescriptionChars
  {
    if reply.LlmFailed? {
      resp := Problem(502, "LLM request failed", "OpenAI error: " + reply.message,
                      Extras(None, Some(UpstreamType)), errorId);
      return;
    }

    var parsedRecords := ParseReply(reply.content, parseJson);
    if parsedRecords.Failure? {
      resp := Problem(502, "LLM response validation failed",
                      "Invalid response from LLM: " + ParseErrorMessage(parsedRecords.error),
                      Extras(None, Some(UpstreamType)), errorId);
      return;
    }

    var guarded := ApplyGuards(parsedRecords.value, lim);
    var updatedPrompt, insertedRecords := Store(records, prompts, guarded.records, trimmedPrompt, now);
    GuardKeepsLeadingRecords(parsedRecords.value, lim);
    resp := Ok(RunData(updatedPrompt, insertedRecords, guarded.warnings), NoInit);
  }
}
