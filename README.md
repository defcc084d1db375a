# Family Health Copilot — a Dafny model of its deterministic core

This project models the deterministic logic of the family-health-copilot
repository in Dafny and proves properties about it. That repository is a
FastAPI backend plus a Next.js frontend. Family members submit medical
reports (radiology and similar free text). A language model extracts
structured findings from each report. A rule engine triages the report as
ROUTINE, URGENT or EMERGENT. The apps show the reports under owner/shared
visibility rules and offer an "AI doctor" chat.

The model takes each core file's own form:

- **Pure code** becomes datatypes, functions and lemmas: triage, the JSON
  block locator, the schemas, the display tables and the dashboard metrics.
- **Code that updates state** becomes methods with loops, arrays and
  classes: span search and merging, the in-place evidence fix, the retry
  loop, the reports table, prompt flattening and the page state machines.
  Each method is proved against a specification function, and the
  properties are proved about that function.

The model is split into these modules:

- `Highlight` (utils/highlight.py)
  - `FindSpans`: a cursor loop.
  - `MergeSpans`: rewrites the last merged span in place.
  - `RenderHighlight`: appends escaped slices and `<mark>` pieces.
  - Each is proved against `Merged` and `BodyFrom`. The lemmas cover
    coverage, order, idempotence and the escape/unescape round trip.
- `Triage` (backend/app/services/triage.py): a first-match search over the
  critical flags, then a count of the entities whose certainty is exactly
  "present".
- `Extractor` (backend/app/services/extractor.py)
  - The evidence fix runs on arrays of entities and flags.
  - The two-attempt retry loop and the quality-check update come next.
  - The generator (`_generate`), `json.loads` and `jsonschema.validate` are
    parameters.
- `JsonBlock` (utils/json_utils/json_utils.py): the two regular expressions,
  modelled as the searches they perform.
- `Db` (utils/db.py)
  - The reports table is a class holding its rows, in ascending id order,
    plus the next AUTOINCREMENT id.
  - `list_reports_for_user` is a loop over the id-descending rows.
  - `get_report` returns `None` for a missing id, and fails with the
    `json.loads` error when a row's non-empty stored JSON does not decode.
- `ReportsApi` (backend/app/api/v1/reports.py): the five endpoints over that
  table.
  - The admin listing and the non-admin listing, each with `LIMIT 100`.
  - The 404 on a missing id, and the 500 when get_report's decoding error
    goes uncaught.
  - The listing order (newest id first) and which rows `LIMIT 100` keeps.
  - The placeholder row inserted by `create_report`.
  - The three outcomes of the background processing task.
  - Deletion.
- `ModelService` (backend/app/services/model_service.py)
  - `is_loaded`.
  - `_generate_response`: the flattening loop, the echo removal, the
    stop-phrase loop and the apology fallback.
- `Chat` (backend/app/api/v1/chat.py): the conversation assembly and the
  error mapping of `chat_consult`.
- `Schemas` (backend/app/models/schemas.py): the enums and the field
  constraints, as validators returning `Result`.
- Frontend pieces:
  - `Display` (frontend/src/lib/utils.ts): the lookup tables.
  - `HomeMetrics` (frontend/src/app/page.tsx): the metrics and the count
    label.
  - `AiDoctor` (frontend/src/app/ai-doctor/page.tsx).
  - `AddReport` (frontend/src/app/add/page.tsx).
  - `AnalyzeImage` (frontend/src/app/analyze-image/page.tsx).
  - `PageErrors`: the shared `detail || message || default` error text.

Handlers that `await` are split in two:

- a `Begin…` method runs the guard and the state updates made before the
  call, and returns the request it would send;
- a `Settle…` method applies the updates made once the call has returned or
  thrown. The outcome is a parameter.

Shared helpers:

- `Wrappers`: `Option` and `Result`.
- `Text`: the Python and JavaScript string operations the code relies on.
  These are `str.strip`, `trim`, `find`/`in`/`includes`, `replace(x, "")`,
  `split(x)[0]`, `startswith`, lower-casing and `str(n)`.
- `ExtractedData`: the extracted-JSON record, as far as the code reads it.
- `Http`: `HTTPException`.

Observations the proofs make precise:

- `chat_consult` copies the roles of the client-supplied history unchanged.
  A history message with role "system" therefore replaces the fixed system
  prompt (`Chat.HistorySystemMessageWins`).
- `_generate_response` never returns an empty string. So the
  endpoint's 500 "Failed to generate AI response" cannot occur
  (`Chat.ConsultOutcomes`).
- The API's admin listing ignores visibility. `list_reports_for_user` in
  utils/db.py has no admin rule: an admin sees another owner's PRIVATE
  report through the API but not through the helper
  (`ReportsApi.AdminSeesOthersPrivate`).
- The urgency stored by the background task is the triage level (ROUTINE,
  URGENT or EMERGENT). None of these is a key of the frontend's urgency
  tables, so all three render with the UNKNOWN style and icon
  (`Display.TriageLevelsLookUnknown`).

## Model

| member | source | states |
|---|---|---|
| Highlight.FindSpans | utils/highlight.py:4-16 | no spans for an empty needle; every span is an occurrence `[i, i+len(needle))`; starts strictly ascending; every occurrence, overlapping ones included, is reported |
| Highlight.SortByStart | utils/highlight.py:22 | `sorted(spans, key=start)` is a permutation of the spans that is ordered by start |
| Highlight.InsertSorted | utils/highlight.py:22 | inserting into a start-ordered list keeps it ordered |
| Highlight.SortSortedIsIdentity | utils/highlight.py:22 | sorting an already start-ordered list returns it unchanged |
| Highlight.Merged | utils/highlight.py:18-30 | the merge is empty exactly when its input is empty |
| Highlight.MergePrefix | utils/highlight.py:23-29 | after `n` input spans the merged list is non-empty and no longer than `n` |
| Highlight.MergePrefixOrder | utils/highlight.py:24-29 | each loop step keeps the merged list ordered and separated (touching spans are merged) |
| Highlight.MergePrefixCovers | utils/highlight.py:24-29 | after `n` steps the merged list covers exactly the positions covered by the first `n` sorted spans |
| Highlight.MergePrefixWithin | utils/highlight.py:24-29 | spans inside the text stay inside the text when merged |
| Highlight.MergedProps | utils/highlight.py:18-30 | the merge is ordered, each span starts strictly after the previous one ends, it covers exactly the union of the input spans, and it stays within the text |
| Highlight.MergeSeparatedIsIdentity | utils/highlight.py:24-29 | merging an already separated list returns it unchanged |
| Highlight.MergedIdempotent | utils/highlight.py:18-30 | merging twice equals merging once |
| Highlight.MergeSpans | utils/highlight.py:18-30 | the in-place loop computes the merge and so is ordered, separated and covers exactly its input |
| Highlight.PySlice | utils/highlight.py:43-46 | Python slicing agrees with the plain slice for in-range bounds |
| Highlight.Escape | utils/highlight.py:37 | `html.escape` output contains no `<` |
| Highlight.EscapeConcat | utils/highlight.py:43-46 | escaping distributes over concatenation, so escaping slice by slice equals escaping the whole |
| Highlight.UnescapeEscape | utils/highlight.py:37 | unescaping an escaped text gives it back |
| Highlight.RenderHighlight | utils/highlight.py:32-48 | the output is the `<pre style=...>` prefix, the body built from the merged spans, and `</pre>`; with no spans the body is the escaped text |
| Highlight.BodyMarkCount | utils/highlight.py:42-45 | the body has one `<mark>` per merged span |
| Highlight.BodyWithoutTags | utils/highlight.py:41-46 | removing the `<mark>` tags from the body of separated in-text spans leaves the escaped rest of the text |
| Highlight.RenderRoundTrip | utils/highlight.py:41-46 | for spans within the text, stripping the tags and unescaping gives back the text, and the tag count equals the number of merged spans |
| Triage.FirstFrom | backend/app/services/triage.py:16-23 | the index found is the first flag satisfying the test; none is found only when no flag satisfies it |
| Triage.CountPresent | backend/app/services/triage.py:26-29 | the number of entities with certainty "present" is at most the number of entities |
| Triage.TriageRisk | backend/app/services/triage.py:10-39 | EMERGENT exactly when some flag is emergent, with the rationale of the first such flag; URGENT exactly when no flag is emergent and at least two entities are present, with the count in the rationale; otherwise ROUTINE with the fixed rationale |
| Triage.AbsentNeverEmergent | backend/app/services/triage.py:17-18 | a missing or null flag name or status is never emergent |
| Triage.CountPresentAtLeastTwo | backend/app/services/triage.py:26-30 | the count reaches two exactly when two distinct entities are present |
| Triage.CountPresentPositive | backend/app/services/triage.py:26-29 | the count is positive exactly when some entity is present |
| Triage.EmergentPrecedence | backend/app/services/triage.py:15-34 | an emergent flag decides the result whatever the entities are |
| Triage.UpperCaseFlagIsEmergent | backend/app/services/triage.py:17-19 | names and statuses are lower-cased before the comparison |
| Triage.CertaintyIsCaseSensitive | backend/app/services/triage.py:28 | certainty "Present" does not count as present |
| Extractor.ValidateAndFixEvidence | backend/app/services/extractor.py:67-85 | the loops over the entity and flag arrays leave them equal to the fixed lists |
| Extractor.FixEntitiesEffect | backend/app/services/extractor.py:72-77 | an entity whose evidence is empty, missing or not in the report gets certainty "uncertain" and evidence ""; one whose evidence is in the report is unchanged; length and order are kept |
| Extractor.FixFlagsEffect | backend/app/services/extractor.py:79-83 | the same for critical flags, with status "uncertain" |
| Extractor.FixEvidenceSound | backend/app/services/extractor.py:67-85 | after the fix every evidence is cleared or a non-empty substring of the report |
| Extractor.FixEvidenceIdempotent | backend/app/services/extractor.py:67-85 | applying the fix twice equals applying it once |
| Extractor.UpdateQualityChecks | backend/app/services/extractor.py:106-110 | `json_valid` becomes True; `missing_sections` and `notes` default to `[]` and `""` only when absent |
| Extractor.AttemptOn | backend/app/services/extractor.py:97-113 | a record exactly when the block is non-empty and decodes and validates; it then has `json_valid` True and evidence that is cleared or in the report |
| Extractor.AttemptSuccess | backend/app/services/extractor.py:100-111 | a successful attempt has `json_valid` True and sound evidence |
| Extractor.FixAndCheck | backend/app/services/extractor.py:104-111 | the success path computes the fixed record with the updated quality checks |
| Extractor.TryAttempt | backend/app/services/extractor.py:95-114 | one pass of the loop body computes the attempt's outcome for the located block |
| Extractor.ExtractLoop | backend/app/services/extractor.py:94-116 | the generator is called once or twice, the second time only when the first attempt fails; the result is the last attempt's outcome with the last generation (None and raw when both fail) |
| Extractor.Extract | backend/app/services/extractor.py:87-116 | the same with the repository's block locator |
| JsonBlock.SkipWs | utils/json_utils/json_utils.py:11 | the greedy `\s*` stops at the first non-whitespace character |
| JsonBlock.FirstClose | utils/json_utils/json_utils.py:11 | the lazy `.*?` ends at the first position where `\}\s*```` matches |
| JsonBlock.FencedAt | utils/json_utils/json_utils.py:11 | a fenced match at a position is the fence, whitespace, `{`, and the first closing `}` that ticks follow |
| JsonBlock.SearchFenced | utils/json_utils/json_utils.py:11 | `re.search` finds the leftmost start where the fenced pattern matches |
| JsonBlock.IndexFrom | utils/json_utils/json_utils.py:16 | the first `{` |
| JsonBlock.LastIndexBelow | utils/json_utils/json_utils.py:16 | the last `}` (greedy `.*`) |
| JsonBlock.FencedPiece | utils/json_utils/json_utils.py:11-13 | the captured group of a fenced match starts with `{` and ends with `}` |
| JsonBlock.BraceBlock | utils/json_utils/json_utils.py:16-18 | a fallback result starts with `{` and ends with `}` |
| JsonBlock.ExtractJsonBlock | utils/json_utils/json_utils.py:5-20 | any result starts with `{` and ends with `}`; which piece it is, is stated by FencedWins, BraceFallback and NoneIff |
| JsonBlock.FencedWins | utils/json_utils/json_utils.py:11-13 | when a fenced match exists, the result is the captured group of the leftmost one |
| JsonBlock.BraceFallback | utils/json_utils/json_utils.py:15-18 | without a fenced match, the result is the first `{` through the last `}` |
| JsonBlock.PieceBounds | utils/json_utils/json_utils.py:11-18 | a result is the slice of the input from a `{` to a later `}` |
| JsonBlock.ResultShape | utils/json_utils/json_utils.py:5-20 | any result is a substring of the input that starts with `{` and ends with `}` |
| JsonBlock.NoneIff | utils/json_utils/json_utils.py:11-20 | the result is None exactly when no `{` is followed later by a `}` |
| Db.ReverseSameMembers | utils/db.py:176 | `ORDER BY id DESC` reorders the rows and keeps the same ones |
| Db.VisibleRows | utils/db.py:181-188 | a row is kept exactly when the viewer owns it or it is shared (SHARED_SUMMARY or CAREGIVER) |
| Db.ReportTable.ListReportsForUser | utils/db.py:169-188 | the loop returns the summaries of the visible rows, id descending |
| Db.ListedExactly | utils/db.py:181-188 | a row's summary is listed exactly when the viewer may see it |
| Db.OwnerAndPrivate | utils/db.py:183-187 | the viewer's own PRIVATE rows are included and other owners' PRIVATE rows are excluded; "admin" gets no special case |
| Db.VisibleRowsDescending | utils/db.py:173-188 | filtering keeps id-descending order |
| Db.ListedNewestFirst | utils/db.py:173-188 | the rows in `ORDER BY id DESC` order, and the visible ones, are newest id first |
| Db.DetailOf | utils/db.py:201-208 | `extracted` is None exactly when the stored JSON is missing or empty |
| Db.ReportTable.GetReport | utils/db.py:190-208 | `None` exactly for a missing id; for the one row with that id, its detail when the stored JSON is NULL, empty or decodes, and the `json.loads` error otherwise |
| ReportsApi.Candidates | backend/app/api/v1/reports.py:43-61 | a row is ordered for selection exactly when it is in the table and the viewer is the admin or may see it |
| ReportsApi.Take | backend/app/api/v1/reports.py:50 | `LIMIT 100` keeps a prefix of at most 100 rows, and all rows when there are fewer |
| ReportsApi.Selected | backend/app/api/v1/reports.py:43-61 | the selection is the first 100 candidates in id-descending order, or all of them when there are fewer |
| ReportsApi.Listed | backend/app/api/v1/reports.py:66-88 | the loop's result has no more responses than rows |
| ReportsApi.ListReports | backend/app/api/v1/reports.py:21-88 | the loop builds the responses of the selected rows, skipping rows whose JSON does not decode |
| ReportsApi.ListedShape | backend/app/api/v1/reports.py:66-86 | every response comes from a decodable selected row, and every decodable selected row gives a response; when all decode, none is skipped |
| ReportsApi.ListedDescending | backend/app/api/v1/reports.py:66-86 | skipping rows keeps the responses in the rows' id-descending order |
| ReportsApi.TakeHighest | backend/app/api/v1/reports.py:43-61 | `LIMIT` keeps id-descending order, and a row it leaves out has a lower id than all 100 rows it keeps |
| ReportsApi.ListReportsProps | backend/app/api/v1/reports.py:43-84 | at most 100 responses, all "completed"; an admin receives every row when there are at most 100 and all decode; any other viewer only rows they own or that are shared |
| ReportsApi.ListReportsSelection | backend/app/api/v1/reports.py:21-88 | over an id-ordered table: responses come newest id first; a response is listed exactly for a decodable selected row; a row is left unselected only when 100 selected rows have higher ids, so the admin gets the decodable rows among the 100 highest ids and any other viewer those among the 100 highest visible ids |
| ReportsApi.AdminSeesOthersPrivate | backend/app/api/v1/reports.py:43-51 | an admin lists another owner's PRIVATE report, while `list_reports_for_user` hides it |
| ReportsApi.GetReportDetail | backend/app/api/v1/reports.py:97-124 | 404 "Report not found" exactly for a missing id; 500 when the row's non-empty stored JSON does not decode, since get_report's error is not caught; otherwise the row's detail with status "completed" |
| ReportsApi.DetailAgreesWithListing | backend/app/api/v1/reports.py:74-124 | a decodable row shows the same response on its detail page as in the listing |
| ReportsApi.CreateReport | backend/app/api/v1/reports.py:127-186 | appends the row with text "[PROCESSING]" and urgency "UNKNOWN" under the next id, schedules `_process_report_task` with the original text, and answers "processing" with "[Processing in progress...]" |
| ReportsApi.Processed | backend/app/api/v1/reports.py:215-272 | id, owner, visibility and creation time never change; after an exception text, JSON and urgency are kept; a completed stage stores the redacted text |
| ReportsApi.UpdateWhere | backend/app/api/v1/reports.py:234-249 | the UPDATE changes the rows with that id and no others |
| ReportsApi.ProcessReportTask | backend/app/api/v1/reports.py:189-277 | the table afterwards is the UPDATE of the stage's outcome on that id; the next id is unchanged |
| ReportsApi.ProcessedOutcomes | backend/app/api/v1/reports.py:215-272 | failed extraction: urgency "UNKNOWN", no JSON and the failure message in both views; success: redacted text and a triage urgency; exception: only the two views change, to "⚠️ Processing Error: ..."; id, owner, visibility and creation time never change |
| ReportsApi.UpdateWhereFrame | backend/app/api/v1/reports.py:234-249 | rows with other ids are unchanged, and an absent id changes nothing |
| ReportsApi.RemoveId | backend/app/api/v1/reports.py:297 | `DELETE ... WHERE id = ?` keeps exactly the rows with another id |
| ReportsApi.RemoveIdAscending | backend/app/api/v1/reports.py:297 | deleting keeps the rows in id order |
| ReportsApi.RemoveIdAbsent | backend/app/api/v1/reports.py:297-301 | deleting an absent id changes nothing |
| ReportsApi.RemoveIdPresent | backend/app/api/v1/reports.py:297-306 | deleting a present id removes exactly one row |
| ReportsApi.DeleteReport | backend/app/api/v1/reports.py:280-306 | 404 with the table unchanged exactly when no row has the id; otherwise that row alone is removed and the message is "Report {id} deleted successfully" |
| ModelService.Service.GenerateResponse | backend/app/services/model_service.py:147-200 | a missing synthesizer raises "Synthesizer model not loaded"; otherwise the result is the cleaned generation for the flattened prompt, or the wrapped generation error |
| ModelService.FlattenConversation | backend/app/services/model_service.py:163-172 | the loop yields the last system content and the user and assistant messages in order, assistant ones prefixed |
| ModelService.SystemPromptIsLast | backend/app/services/model_service.py:166-168 | the system prompt is the content of the last system message, and "" without one |
| ModelService.KeptConcat | backend/app/services/model_service.py:169-172 | kept messages follow conversation order |
| ModelService.KeptSingle | backend/app/services/model_service.py:169-172 | a user message is kept as is, an assistant one prefixed "Assistant: ", a message with any other role is dropped |
| ModelService.FullPrompt | backend/app/services/model_service.py:174-180 | the prompt ends with the last kept message |
| ModelService.FullPromptCases | backend/app/services/model_service.py:175-180 | the prompt is system, "\n\n", last kept message; without a system prompt just that message; "" for an empty conversation |
| ModelService.PromptEndsWithLatest | backend/app/services/model_service.py:175-180 | a conversation ending with a user message gives a prompt ending with that message |
| ModelService.CutStopPhrases | backend/app/services/model_service.py:190-192 | the loop cuts at each stop phrase in order |
| ModelService.CutProps | backend/app/services/model_service.py:191-192 | a cut leaves no occurrence of its phrase and introduces no other |
| ModelService.CutAllFree | backend/app/services/model_service.py:190-192 | after all cuts none of the phrases occurs |
| ModelService.ApologyHasNoStopPhrase | backend/app/services/model_service.py:194 | the apology contains none of the stop phrases |
| ModelService.Cleaned | backend/app/services/model_service.py:185-194 | the cleaned answer is never empty |
| ModelService.Generated | backend/app/services/model_service.py:174-200 | a result exactly when the generation succeeds, and then a non-empty one |
| ModelService.CleanedProps | backend/app/services/model_service.py:185-194 | the cleaned answer is never empty and contains no stop phrase |
| ModelService.EmptiedIsApology | backend/app/services/model_service.py:186-194 | an answer emptied by the echo removal becomes the apology |
| ModelService.EchoOnlyIsApology | backend/app/services/model_service.py:186-194 | a generation that is exactly the stripped prompt is emptied and becomes the apology |
| Chat.BuildConversation | backend/app/api/v1/chat.py:92-105 | the fixed system message, then the history in order with roles passed through, then the user message; length history + 2 |
| Chat.ChatConsult | backend/app/api/v1/chat.py:48-130 | 503 when the models are not loaded; otherwise the outcome of generating for that conversation |
| Chat.ConversationSplit | backend/app/api/v1/chat.py:92-105 | the conversation is exactly system message + history + user message |
| Chat.PromptEndsWithMessage | backend/app/api/v1/chat.py:101-108 | the flattened prompt ends with the current message |
| Chat.Outcome | backend/app/api/v1/chat.py:108-130 | a response exactly when the generation succeeded with a non-empty text, carrying that text and the timestamp |
| Chat.ConsultOutcomes | backend/app/api/v1/chat.py:108-130 | the empty-response 500 never happens; a generation error becomes 500 "Error processing consultation: Failed to generate response: ..." |
| Chat.HistorySystemMessageWins | backend/app/api/v1/chat.py:95-99 | the last "system" message of the history becomes the system prompt |
| Chat.LastSystemIn | backend/app/api/v1/chat.py:92-105 | the system prompt is the content of the last system message of the conversation |
| Schemas.ParseVisibility | backend/app/models/schemas.py:10-14 | a parsed visibility renders back as its input |
| Schemas.VisibilityValues | backend/app/models/schemas.py:10-14 | exactly PRIVATE, SHARED_SUMMARY and CAREGIVER parse, and every level round-trips |
| Schemas.ParseUrgency | backend/app/models/schemas.py:17-23 | a parsed urgency renders back as its input |
| Schemas.UrgencyValues | backend/app/models/schemas.py:17-23 | exactly LOW, MEDIUM, HIGH, EMERGENCY and UNKNOWN parse, and every level round-trips |
| Schemas.ValidateReportCreate | backend/app/models/schemas.py:26-30 | accepted exactly when the visibility is absent or valid and the text has at least 10 characters; visibility defaults to SHARED_SUMMARY |
| Schemas.ValidateExtractRequest | backend/app/models/schemas.py:50-52 | accepted exactly when the text has at least 10 characters |
| Schemas.ValidateImageAnalysisRequest | backend/app/models/schemas.py:84-95 | accepted exactly when `max_new_tokens` is absent or within [100, 4000]; defaults 2000 and the fixed prompt |
| Display.UrgencyColor | frontend/src/lib/utils.ts:19-28 | the five levels map to their classes and anything else to UNKNOWN's gray class |
| Display.UrgencyIcon | frontend/src/lib/utils.ts:30-39 | the five levels map to their icons and anything else to "❓" |
| Display.VisibilityLabel | frontend/src/lib/utils.ts:41-48 | known visibilities map to their labels and anything else to itself |
| Display.UnknownKeysLookLikeUnknown | frontend/src/lib/utils.ts:19-39 | a key outside the table renders exactly as UNKNOWN |
| Display.TriageLevelsLookUnknown | frontend/src/lib/utils.ts:20-38 | ROUTINE, URGENT and EMERGENT render with the UNKNOWN class and icon |
| HomeMetrics.Count | frontend/src/app/page.tsx:69-71 | a filtered count is at most the length |
| HomeMetrics.CountDisjoint | frontend/src/app/page.tsx:69-70 | two disjoint filters count at most the length together |
| HomeMetrics.CountAll | frontend/src/app/page.tsx:71 | a filter every element passes counts the length |
| HomeMetrics.MetricsOf | frontend/src/app/page.tsx:67-72 | urgent + routine <= total and shared <= total; total is the number of reports, 0 while they are undefined |
| HomeMetrics.MetricsBounds | frontend/src/app/page.tsx:67-72 | urgent + routine <= total and shared <= total; all zero when reports are undefined; total is the report count |
| HomeMetrics.AllSharedWithoutPrivate | frontend/src/app/page.tsx:71 | without PRIVATE reports every report counts as shared |
| HomeMetrics.CountLabel | frontend/src/app/page.tsx:190 | the label is "1 report found" exactly when one report was fetched |
| HomeMetrics.CountLabelPlural | frontend/src/app/page.tsx:190 | "1 report found" for exactly one report, "{n} reports found" otherwise |
| AiDoctor.HistoryOf | frontend/src/app/ai-doctor/page.tsx:77-80 | the history is the transcript without its first message, roles and contents kept |
| AiDoctor.TemplatesDiffer | frontend/src/app/ai-doctor/page.tsx:120-196 | the fever and general templates are different texts |
| AiDoctor.FallbackResponse | frontend/src/app/ai-doctor/page.tsx:116-197 | the fallback answer is never empty; FallbackCases says which template it is |
| AiDoctor.FallbackCases | frontend/src/app/ai-doctor/page.tsx:116-197 | the fever template exactly when the lower-cased input mentions "发烧", "fever" or "发热", otherwise the general template; never empty |
| AiDoctor.UpperCaseFeverRecognised | frontend/src/app/ai-doctor/page.tsx:118-120 | "FEVER" is recognised after lower-casing |
| AiDoctor.ReplyText | frontend/src/app/ai-doctor/page.tsx:88-110 | the appended reply is never empty |
| AiDoctor.ReplyTextCases | frontend/src/app/ai-doctor/page.tsx:88-110 | a non-empty response is the reply; a missing or empty one gives the apology; a failed call gives the fallback |
| AiDoctor.ReplyTextNonEmpty | frontend/src/app/ai-doctor/page.tsx:88-110 | the reply is never empty |
| AiDoctor.AiDoctorPage.constructor | frontend/src/app/ai-doctor/page.tsx:20-43 | the transcript is exactly the welcome message, input empty, not loading |
| AiDoctor.AiDoctorPage.BeginSend | frontend/src/app/ai-doctor/page.tsx:54-82 | blank input or a pending reply changes nothing; otherwise the user message is appended, input cleared, loading set, and the request carries the input and the pre-send history |
| AiDoctor.AiDoctorPage.Settle | frontend/src/app/ai-doctor/page.tsx:84-113 | exactly one assistant message with the reply is appended and loading is cleared |
| AiDoctor.AiDoctorPage.KeyPress | frontend/src/app/ai-doctor/page.tsx:199-204 | Enter without Shift sends as the send button does; any other key, or Shift+Enter, changes nothing |
| AddReport.ReportPath | frontend/src/app/add/page.tsx:45 | the redirect path is "/reports/" followed by decimal digits that read back as the id |
| Text.NatToStringValue | backend/app/api/v1/reports.py:306 | the decimal rendering of an id reads back as that id |
| Text.NatToStringInjective | backend/app/api/v1/reports.py:306 | distinct ids render as distinct texts |
| AddReport.AddReportPage.constructor | frontend/src/app/add/page.tsx:16-21 | owner "alice", visibility "SHARED_SUMMARY", empty text, no error, not submitting |
| AddReport.AddReportPage.BeginSubmit | frontend/src/app/add/page.tsx:23-39 | the previous error is cleared; blank text sets the validation message and sends nothing; otherwise submitting starts and the request carries the form |
| AddReport.AddReportPage.Settle | frontend/src/app/add/page.tsx:41-51 | success sets `success` and schedules "/reports/{id}" after 2000 ms; failure sets the preferred error text; submitting ends either way |
| AddReport.BlankIff | frontend/src/app/add/page.tsx:27 | text is blank exactly when every character is JavaScript whitespace |
| PageErrors.ErrorText | frontend/src/app/add/page.tsx:48 | the text is the default, or a non-empty detail or message; it is never empty when the default is not |
| PageErrors.ErrorTextPreference | frontend/src/app/add/page.tsx:48 | the server detail wins, then the error message, then the default text |
| AnalyzeImage.FileError | frontend/src/app/analyze-image/page.tsx:24-34 | the type check comes first; files over 10 MiB are refused; accepted exactly when an image of at most 10 MiB |
| AnalyzeImage.FileErrorBoundary | frontend/src/app/analyze-image/page.tsx:31-34 | exactly 10485760 bytes is accepted and one byte more is refused |
| AnalyzeImage.AnalyzeImagePage.constructor | frontend/src/app/analyze-image/page.tsx:12-18 | nothing selected, the default prompt, no error |
| AnalyzeImage.AnalyzeImagePage.FileSelect | frontend/src/app/analyze-image/page.tsx:20-45 | no file changes nothing; a refused file only sets the error; an accepted one is selected and clears the error |
| AnalyzeImage.AnalyzeImagePage.BeginAnalyze | frontend/src/app/analyze-image/page.tsx:47-59 | without a file only the error is set and nothing is sent; otherwise error, analysis and time are cleared and analyzing starts |
| AnalyzeImage.AnalyzeImagePage.SettleAnalyze | frontend/src/app/analyze-image/page.tsx:58-67 | success stores the analysis and time; failure sets the preferred error text; analyzing ends |
| AnalyzeImage.AnalyzeImagePage.Reset | frontend/src/app/analyze-image/page.tsx:70-76 | file, preview, analysis, error and time are cleared and the prompt is kept |
| AnalyzeImage.AnalyzeImagePage.ChoosePrompt | frontend/src/app/analyze-image/page.tsx:181 | only the prompt changes |
| AnalyzeImage.QuickPromptLabel | frontend/src/app/analyze-image/page.tsx:188-190 | labels of at most 30 characters are kept; longer ones become their first 30 characters plus "..." |
| AnalyzeImage.PredefinedLabelsShortened | frontend/src/app/analyze-image/page.tsx:78-83 | every predefined prompt is longer than 30 characters, so each button shows its first 30 characters plus "..." |

## Left out

- Language-model inference and model loading (`_generate`, `_prompt`, `_gen`, the synthesizer, the image analyzer). These are foreign torch/transformers calls, so generation is a function parameter.
- `json.loads`, `json.dumps` and `jsonschema.validate` are library calls. They appear as parameters. `parse` is extraction's decode and schema check and gives a record or nothing. `decodes` says whether stored JSON text decodes, for `list_reports` and `get_report`. `dumps` renders a record.
- The decoded value of `extracted_json` is not modelled. Responses carry the stored JSON text.
- PII redaction (`redact_pii`) and the patient and family explanation generators. The background task receives what they produced, as a `Stage` value.
- SQLite I/O, connections, `init_db`, `check_db_health` and `insert_report`; the table is in memory.
- The reports table is an id-ordered sequence of rows rather than a map. Ids are ascending, so the sequence is the map's ordered view.
- The outer `try` of `list_reports` that turns a database error into `[]`. No database error exists in the model.
- `ReportsApi.ProcessReportTask`: does not model a failure of the error-status UPDATE itself. That failure is only printed.
- Inside the background task, any exception is one `Raised(message)` stage: the traceback text is not modelled.
- Clocks: `datetime.utcnow()`, `Date.now()` ids and timestamps are parameters.
- The processing time is an uninterpreted `real`.
- The `setTimeout` delay is recorded as a `Redirect` intent value.
- The FileReader preview of the image page: `preview` is never set by the model.
- HTTP clients and data fetching (`lib/api.ts`, `use-reports.ts`). The call outcome is a parameter.
- The login, dashboard, diagnose and test-api pages, the presentational components, `formatDate` and `cn`.
- Lower-casing is modelled on ASCII letters only. Every comparison that follows it is against ASCII words or against CJK words that lower-casing leaves alone.
- JavaScript string lengths count UTF-16 code units; the model counts code points. The predefined prompts are ASCII, so their labels do not differ.
- JSON values are modelled only as far as the code reads them. A field is missing, null or a string. A non-string `flag`, `status`, `evidence` or `certainty`, and the falsiness of an empty dict, are not modelled.
- A `quality_checks` that is present but null is treated as absent. In the source, `qc["json_valid"] = True` on `None` raises a `TypeError` (backend/app/services/extractor.py:106-107), which the `except` at line 112 does not catch, so `extract` raises. A null `missing_sections` or `notes` is also treated as absent, while `setdefault` keeps the null.
- Report ids in `get_report_detail` and `delete_report` are `nat`. FastAPI's `int` also accepts negative ids; no row has one, so those requests get 404 like any other missing id.
- A 422 `detail` that is a list of field errors is not modelled. Error details are strings.
- Pydantic validation errors are modelled as the list of offending field names, not pydantic's error objects.
- The `ModelService` singleton (`get_instance`) is not modelled. The service is passed in.
- JavaScript prototype keys (`"toString"` and the like) in the lookup tables are excluded. Inputs are ordinary keys.
- `AnalyzeImage.QuickPromptLabel`: states no converse ("the label equals the prompt only when it has at most 30 characters"), because that converse is false. A 33-character prompt that ends in "..." is its own label.
- `AddReport.AddReportPage.ControlsDisabled` and `ModelService.Service.IsLoaded` are predicates whose definitions are the source conditions (`isSubmitting || success`, all three models present). No separate contract is stated for them.
