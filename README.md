# Record generator: guard pipeline, stores and routes in Dafny

The system is a small web service that turns a user prompt into a list of
records with the help of a language model. `POST /api/run` checks the prompt
and picks a system prompt and a model name. It sends both to the model, then
parses and validates the reply as `{records: [{title, description}, …]}` and
applies its guards (a record cap, field-length caps, warnings). Only then does
it replace the stored records and the stored prompt. `GET`/`POST
/api/records` list the records and add one. Errors are RFC 7807
problem-details responses.

The Dafny model has one module per source file:

- `Text` (text.dfy) holds the JavaScript string operations the code relies on:
  - `trim` over the exact ECMAScript white-space and line-terminator set;
  - ASCII lower-casing;
  - the `/\s+/g` → `-` rewrite;
  - `substring(0, n)`;
  - decimal rendering of numbers in template strings.
- `Json` (json.dfy) is the value `JSON.parse` produces.
- `Http` (http.dfy) is `lib/http.ts`: `problem` and `ok` as functions building a response value.
- `Consts` (consts.dfy) holds the four limits and their defaults.
- `Llm` (llm.dfy) is `lib/llm.ts`:
  - `buildMessages`;
  - `parseAndValidate` on an already parsed value;
  - `applyGuards` as a method with its loop, proved against the specification function `Guard`.
- `Records` (records.dfy) is `lib/records.ts`: the records table as a class whose
  methods change its rows and its auto-increment counter.
- `Prompts` (prompts.dfy) is `lib/prompts.ts`: the one-row prompt table as a class.
- `SystemPrompt` (system_prompt.dfy) is `lib/systemPrompt.ts`:
  - the selection rule as a function;
  - the module-level cache as a class.
- `RecordsRoute` (records_route.dfy) is `app/api/records/route.ts`.
- `RunRoute` (run_route.dfy) is `app/api/run/route.ts`. It returns the response and
  the request it sent to the model (`None` when it sent none).

Several things are inputs rather than computed:
- the model's answer, as `LlmFailed(message)` or `LlmReplied(text)`;
- `JSON.parse`, as a function parameter;
- the clock, as `now`;
- the random error id, as `errorId`;
- the configured prompt list and the environment settings.

## Model

| member | source | states |
|---|---|---|
| Text.Trim | lib/llm.ts:6-7 | the result is empty or starts and ends with a non-white-space character, and is no longer than the input |
| Text.TrimIsSlice | lib/llm.ts:6-7 | the trim is a contiguous slice of the input with only white space before and after it |
| Text.TrimEmptyIff | lib/llm.ts:6-7 | trimming gives the empty string exactly when the input is all white space, which is what the non-empty check after trimming rejects |
| Text.TrimIdempotent | app/api/run/route.ts:41 | trimming a trimmed string changes nothing |
| Text.TrimIgnoresPadding | app/api/run/route.ts:41 | any white space added before and any added after a string, independently, does not change its trim |
| Text.DashWhitespaceRuns | lib/http.ts:21 | the `/\s+/g` → `-` rewrite never lengthens the string |
| Text.DashWhitespaceRunsNoWhitespace | lib/http.ts:21 | the rewrite leaves no white space |
| Text.DashWhitespaceRunsIdentity | lib/http.ts:21 | a string without white space is left as it is |
| Text.DashWhitespaceRunsAppend | lib/http.ts:21 | split at a point that is not inside a white-space run, the rewrite acts on each side independently |
| Text.DashTwoWords | lib/http.ts:21 | two words around a white-space run come out joined by exactly one dash |
| Text.LowerChar | lib/http.ts:21 | an upper-case ASCII letter maps to its lower-case letter (32 code points up); every other character is kept |
| Text.ToLower | lib/http.ts:21 | `toLowerCase` keeps the length, lower-cases each character in place, leaves no upper-case ASCII letter and keeps exactly the white-space positions |
| Text.Cut | lib/llm.ts:117-125 | `substring(0, n)` when longer than `n`: a prefix of at most `n` characters, the whole string when it fits, exactly `n` characters otherwise |
| Text.CutIdempotent | lib/llm.ts:117-125 | cutting twice to the same limit equals cutting once |
| Text.NatToString | lib/llm.ts:108 | the decimal rendering of a count: digits only, non-empty, no leading zero |
| Text.NatToStringRoundTrip | lib/llm.ts:108 | reading the rendered digits back gives the number |
| Json.TypeName | app/api/records/route.ts:9-12 | the type word used in schema messages is "string" exactly for string values |
| Http.DefaultType | lib/http.ts:21 | the default problem type is the base URL followed by a slug no longer than the title |
| Http.DefaultTypeIsSlug | lib/http.ts:21 | the part after the base URL has no white space and no upper-case letter |
| Http.DefaultTypeOfTwoWords | lib/http.ts:21 | two words around any white-space run give base + word1 + "-" + word2, lower-cased |
| Http.Problem | lib/http.ts:14-35 | status, title, detail and error id are the arguments; the content type is `application/problem+json`; `fields` is present exactly when given and then equals it; an explicit type replaces the default type |
| Http.OkAsWritten | lib/http.ts:37-45 | as written, a header override replaces the whole header object |
| Http.SentContentType | lib/http.ts:37-45 | the content type a string-bodied response goes out with: the one the init headers name, else `text/plain;charset=UTF-8` |
| Http.OkAsWrittenDropsContentType | lib/http.ts:37-45 | as written, passing one unrelated header drops the JSON content type from the init headers, so the response goes out as `text/plain;charset=UTF-8` |
| Http.Ok | lib/http.ts:37-45 | status 200 unless overridden, the body is the data, the JSON content type is kept unless overridden, and every header override is kept |
| Http.OkSendsJson | lib/http.ts:37-45 | the corrected `ok` goes out as `application/json` unless a header override names another content type |
| Http.OkAgreesWithoutHeaderOverride | lib/http.ts:37-45 | without header overrides the corrected and the as-written `ok` agree, which covers every call the routes make |
| Llm.BuildMessages | lib/llm.ts:21-32 | exactly two messages: the system prompt with role system, then the user prompt with role user |
| Llm.CleanRecord | lib/llm.ts:80-84 | a validated record keeps only its title and description, each trimmed and non-empty |
| Llm.ParseAndValidate | lib/llm.ts:67-93 | text that is not JSON fails with the invalid-JSON error, and only then; a success has at least one record, came from an object whose only key is `records`, and holds each item's trimmed title and description in order |
| Llm.AcceptsValidEnvelope | lib/llm.ts:4-9 | every reply of the shape `{records: [...]}` with at least one valid record is accepted |
| Llm.RejectsExtraTopLevelKey | lib/llm.ts:9 | any top-level key besides `records` fails validation |
| Llm.RejectsEmptyRecords | lib/llm.ts:8 | an empty `records` array fails validation |
| Llm.ExtraRecordKeysIgnored | lib/llm.ts:80-84 | replies whose records agree on title and description validate to the same result, whatever other keys the records carry |
| Llm.WarningText | lib/llm.ts:108 | each warning message starts with its count |
| Llm.DropWarningExample | lib/llm.ts:108 | five records against a cap of three read "2 records dropped (max=3)" |
| Llm.TruncationWarningExample | lib/llm.ts:131 | six cut fields read "6 fields truncated" |
| Llm.GuardRecord | lib/llm.ts:113-128 | each field is a prefix of the input field within its limit, unchanged when it already fits |
| Llm.WarningTexts | lib/llm.ts:104-132 | the `warnings` list: one message per warning, in the same order |
| Llm.TruncateFields | lib/llm.ts:111-128 | the mapping loop cuts every record's fields to their limits, in order, and counts exactly the over-limit fields it met |
| Llm.ApplyGuards | lib/llm.ts:95-137 | the loop's records and warning strings are those of the specification `Guard` |
| Llm.GuardKeepsLeadingRecords | lib/llm.ts:104-109 | the output holds min(n, max) records, the first ones in order, each field cut to its limit and a prefix of the input field |
| Llm.GuardDropWarning | lib/llm.ts:104-109 | the drop warning is present if and only if n > max, comes first and counts n − max |
| Llm.GuardTruncationWarning | lib/llm.ts:111-132 | the truncation warning is present if and only if a kept record has an over-limit field, comes last, and carries the count over the kept records only |
| Llm.TruncationCountZeroIff | lib/llm.ts:112-125 | the count is zero if and only if no field is over its limit |
| Llm.TruncationCountCountsFields | lib/llm.ts:112-125 | the count is the number of over-limit titles plus the number of over-limit descriptions |
| Llm.GuardIdempotent | lib/llm.ts:105-125 | guarding a guarded output returns the same records and no warnings |
| Records.NotFoundMessage | lib/records.ts:45 | the not-found message names the id: "Record with id N not found" |
| Records.IndexOf | lib/records.ts:41 | finds the position of the row with the id, or reports that there is none |
| Records.IndexOfUnique | lib/records.ts:41 | in a well-formed table at most one row has a given id |
| Records.ApplyPatch | lib/records.ts:37-40 | only the fields present in the patch change; id and creation time are kept; the update time becomes `now` |
| Records.WithoutId | lib/records.ts:52 | removing by id leaves no row with that id and never adds rows |
| Records.WithoutIdMembers | lib/records.ts:52 | removing by id keeps exactly the rows whose id differs |
| Records.RemoveAtIsWithoutId | lib/records.ts:51-56 | removing the one row found by id is the same as removing every row with that id |
| Records.RecordTable.constructor | lib/records.ts:6-8 | a new table is empty and its first id will be 1 |
| Records.RecordTable.List | lib/records.ts:6-8 | returns every row, in insertion (id) order |
| Records.RecordTable.Create | lib/records.ts:10-28 | appends exactly one row with a fresh, larger id, the given fields and both times `now`; earlier rows are unchanged |
| Records.RecordTable.Update | lib/records.ts:30-49 | a missing id fails with not-found and changes nothing; otherwise the one matching row is patched in place |
| Records.RecordTable.Delete | lib/records.ts:51-56 | a missing id fails with not-found and changes nothing; otherwise exactly the row with that id is removed |
| Records.RecordTable.Truncate | lib/records.ts:58-59 | the table is left empty and ids are not reused |
| Prompts.Upserted | lib/prompts.ts:11-38 | the stored prompt has id 1, the new text and update time `now`; a first insert is created at `now`, a later one keeps its creation time |
| Prompts.PromptSlot.constructor | lib/prompts.ts:6-9 | no prompt is stored at first |
| Prompts.PromptSlot.GetLatest | lib/prompts.ts:6-9 | returns the stored prompt (id 1) or nothing |
| Prompts.PromptSlot.Upsert | lib/prompts.ts:11-38 | the slot afterwards holds exactly the upserted prompt, which is also returned |
| SystemPrompt.SelectConfig | lib/systemPrompt.ts:33-50 | an empty list fails; an index at or past the end fails as out of range; success happens exactly for an index inside the list; the text is the selected entry's prompt; the model is the override when non-empty, else the entry's model |
| SystemPrompt.ConfigCache.constructor | lib/systemPrompt.ts:54 | the cache starts empty |
| SystemPrompt.ConfigCache.GetConfig | lib/systemPrompt.ts:56-61 | a cached configuration is returned unchanged whatever the settings; otherwise the selection is computed and cached only when it succeeds |
| SystemPrompt.ConfigCache.GetSystemPromptText | lib/systemPrompt.ts:64-66 | the prompt text of the cached or newly selected configuration |
| SystemPrompt.ConfigCache.GetModel | lib/systemPrompt.ts:68-70 | the model of the cached or newly selected configuration |
| SystemPrompt.ConfigCache.Reset | lib/systemPrompt.ts:73-75 | empties the cache |
| RecordsRoute.FieldIssue | app/api/records/route.ts:10-11 | a field passes exactly when it is present, a string, and non-empty once trimmed |
| RecordsRoute.Issues | app/api/records/route.ts:9-12 | no issue exactly when the body is an object whose title and description both pass; a non-object body gets one issue without a path |
| RecordsRoute.FieldErrorsOf | app/api/records/route.ts:45-50 | the error map has a key exactly for the first path element of some issue |
| RecordsRoute.FieldErrorsLastWins | app/api/records/route.ts:45-50 | the message kept for a field is that of the last issue naming it |
| RecordsRoute.CollectFieldErrors | app/api/records/route.ts:45-50 | the `forEach` loop builds exactly the error map |
| RecordsRoute.ObjectFieldErrors | app/api/records/route.ts:45-50 | for any object body the error map has an entry for a field exactly when that field fails the schema, the entry is that field's message, and no other key appears |
| RecordsRoute.BlankFieldsBothReported | app/api/records/route.ts:9-12 | blank title and description give an error map naming both with their messages |
| RecordsRoute.NonObjectHasNoFieldErrors | app/api/records/route.ts:46-48 | a body that is not an object is rejected with an empty error map |
| RecordsRoute.RequestedFields | app/api/records/route.ts:60-71 | the stored fields are the trimmed fields cut to their limits, unchanged when they fit, non-empty when the limit is positive |
| RecordsRoute.Get | app/api/records/route.ts:14-18 | status 200 with exactly the current records |
| RecordsRoute.Post | app/api/records/route.ts:28-79 | non-JSON gives 400 and invalid data gives 422 with the error map, both leaving the table unchanged; otherwise exactly one record with the trimmed and cut fields is appended and returned with 201 |
| RunRoute.CheckPrompt | app/api/run/route.ts:19-60 | the ladder: non-JSON gives 400; no string prompt gives 422 "Required field"; a blank prompt gives 422 "Cannot be empty"; an over-long prompt gives 422 with the maximum; success exactly for a trimmed prompt of 1 to max characters, which is the value |
| RunRoute.CheckPromptIgnoresSurroundingSpace | app/api/run/route.ts:41 | any white space before and any after the prompt, independently, changes neither the verdict nor the trimmed prompt |
| RunRoute.ConfigFor | lib/systemPrompt.ts:56-61 | the configuration a call reads: the cached one, else the selection |
| RunRoute.ParseReply | app/api/run/route.ts:84 | the reply fails with the invalid-JSON error exactly when the parser rejects it; a success holds at least one clean record |
| RunRoute.Inserted | app/api/run/route.ts:107-114 | the inserted rows: one per guarded record, in order, ids consecutive from the next free id, fields copied, both times `now` |
| RunRoute.Store | app/api/run/route.ts:99-114 | after truncate, upsert and the insert loop, the table holds exactly the inserted rows and the prompt slot holds the upserted prompt |
| RunRoute.Prepare | app/api/run/route.ts:19-65 | the checks before the upstream call: a failed prompt check is returned unchanged and leaves the cache alone; a missing configuration gives 500 and leaves the cache as it was, so the next request selects again; otherwise the request holds the system text with the trimmed prompt and the configured model, and the configuration is now cached |
| RunRoute.HandleReply | app/api/run/route.ts:67-121 | a failed call gives 502 "LLM request failed" and an invalid reply 502 "LLM response validation failed", both leaving the stores unchanged; a valid reply is guarded and stored, and the response carries the stored prompt, the stored records and the warnings |
| RunRoute.Post | app/api/run/route.ts:16-139 | the model is called exactly when the prompt checks pass and a configuration is available, with the system text, the trimmed prompt and the model; config failure gives 500 and leaves the cache empty, a failed call 502 "LLM request failed", an invalid reply 502 "LLM response validation failed"; on every error path the records and the prompt are unchanged; on success the records are exactly the guarded reply (at most the cap, fields within limits), the prompt is the trimmed prompt, and the response carries both and the warnings |

Some functions have no row of their own. They carry no contract; they define what the rows above state things about:
- `Llm.NonBlankString`, `Llm.ValidRecordItem` and `Llm.ValidEnvelope` are the reply schema (lib/llm.ts:4-9): a trimmed non-empty string field, a record with two such fields, and a strict object whose only key is `records`, holding a non-empty array of records. `Llm.ParseAndValidate`, `Llm.AcceptsValidEnvelope`, `Llm.RejectsExtraTopLevelKey` and `Llm.RejectsEmptyRecords` state what is accepted.
- `Llm.OverLimitFields` and `Llm.TruncationCount` are `truncatedCount` (lib/llm.ts:112-125): the over-limit fields of one record, summed over the kept records. `Llm.TruncateFields` is proved to compute the count, and `Llm.TruncationCountZeroIff` and `Llm.TruncationCountCountsFields` state its meaning.
- `Llm.Kept` is the `slice(0, MAX_RECORDS_PER_RUN)` cap (lib/llm.ts:104-109) inside `Guard`. `Llm.GuardKeepsLeadingRecords` states its effect.
- `Llm.Guard` is the specification of `applyGuards` (lib/llm.ts:95-137). `Llm.ApplyGuards` is proved equal to it, and the `Guard*` lemmas state what it promises.
- `RunRoute.HasPromptString` is `RunRequestSchema` (app/api/run/route.ts:12-14, applied at 30-31): an object whose `prompt` is a string. `RunRoute.CheckPrompt` states the 422 it leads to.
- `RunRoute.PromptTooLongDetail` and `RunRoute.PromptTooLongField` are the two over-length messages (app/api/run/route.ts:57-58). `RunRoute.CheckPrompt` states when they are used.
- `RunRoute.ParseErrorMessage` maps the two failure kinds of `parseAndValidate` to the message prefixes it throws (lib/llm.ts:73, 89). `RunRoute.HandleReply` states the 502 detail built from it.

## Left out

- The database layer (`lib/db.ts`: connection, pragmas, lazy proxies) is not part of this model. The tables are modelled directly as classes.
- Database failures are not modelled. This covers the run route's 500 "Database error" and the 500 responses the outer `catch` blocks give when a table operation throws. The run route's outer `catch` also turns a failed system-prompt selection into a 500; that path is modelled (`RunRoute.Prepare`).
- The run route's writes are not atomic: the comment calls them transactional, but no transaction is opened. The model assumes each write succeeds, so it says nothing about partial states after a failure.
- `callLlm` (an HTTPS request) is not modelled. Its outcome is an input: a failure with a message, or the reply text.
- `JSON.parse` is a function parameter, in both `request.json()` and `parseAndValidate`.
- The exact messages are not modelled for:
  - the parser's errors;
  - the schema issues listed after `parseAndValidate`'s error prefixes;
  - the system-prompt loader's errors.
- RunRoute.Post and RunRoute.HandleReply: the 502 validation detail holds only the fixed prefix of `parseAndValidate`'s message ("Invalid JSON response from LLM" or "LLM response validation failed"), not the parser or schema text after it.
- Reading `config/system-prompts.json` from disk is not modelled. The list is an input, and a list the loader rejects is modelled only as the empty list.
- The `Object.defineProperty` export shims (lib/systemPrompt.ts:82-90) are left out.
- `generateErrorId` uses `Math.random`, so the error id is a parameter. The clock (`nowMs`) is the parameter `now`, and one request uses one `now` throughout. The strictly increasing update times that real delays give are not modelled.
- The limits are natural numbers handed in. `parseInt` of the environment (NaN, negative values) is not modelled. `SYSTEM_PROMPT_INDEX` is an integer, and a negative index is modelled as the failing entry lookup.
- The response headers are the header object handed to `new Response`. The `Headers` class itself is not modelled: names are compared exactly rather than case-insensitively. The default content type the constructor adds to a string body is modelled only through `Http.SentContentType`.
- Http.OkAsWritten and Http.Ok: `Init` holds only the status and the headers; a `statusText` override is not modelled.
- The `console.error` logging in the routes (for example app/api/run/route.ts:72, 86, 124, 133) is left out: it changes no response and no stored state.
- Records.WithoutId: the contract states which rows are kept, not that they keep their relative order; the order follows from the definition, which keeps the rows in place.
- Strings are sequences of characters, not UTF-16 code units. Lengths count characters.
- Text.LowerChar and Text.ToLower: `toLowerCase` is modelled for ASCII letters only. This does not affect the routes: every title they pass to `problem` is an ASCII literal.
- The `/api/records/[id]` and `/api/prompt` routes and the React UI are not part of this model. The table operations they call (`updateRecord`, `deleteRecord`, `getLatestPrompt`) are modelled.
- Zod's "Required" and "Expected string, received <type>" messages in the records route are modelled for the two fields. Other zod behaviour is not.

## Findings

| source | as written | input that shows it | evidently intended | confidence | as-written member | corrected member |
|---|---|---|---|---|---|---|
| lib/http.ts:37-45 | `...initOverrides` is spread after the merged `headers`, so any `headers` override replaces the whole header object | `ok(data, { headers: { "X-Request-Id": "r1" } })` drops `Content-Type` from the init headers, so the response goes out as `text/plain;charset=UTF-8` instead of `application/json` | header overrides are merged over `Content-Type: application/json` | high; not executed | Http.OkAsWrittenDropsContentType | Http.Ok |
