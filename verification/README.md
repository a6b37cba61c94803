# AI Career Gap Analyzer — a verified model of its client core

The analyzer is a single-page client. A user uploads a résumé (a PDF, or the
built-in plain-text sample profile) and types a target role. One request goes
to a generative-AI service, and the structured gap analysis it returns is
rendered as a score gauge, a skill radar, a critical-gaps list, interview
questions and a numbered action plan.

This project models the deterministic part of that client in Dafny:

- `app.dfy`, module `App`: the session state controller. Class `Session` holds
  the page's state slots (`fileState`, `targetRole`, `isAnalyzing`,
  `loadingStep`, `analysis`, `error`). Its methods are the handlers that update
  them: file selection with the PDF gate, the sample profile, submit with
  validation, the loading-interval tick, settlement, and the enabled test of
  the submit button. The module also holds the pure projections the page
  derives: role trimming and validation, the loading progression and
  progress width, the critical-gaps list, and section visibility.
- `gemini_service.dfy`, module `GeminiService`: the analysis client.
  - How the file becomes a payload: JavaScript `split(',')` on a data URL, and
    text passed through unchanged.
  - The prompt, and the content parts pushed onto the request.
  - The ladder of named failures: missing key, read failure, transport failure,
    empty reply, parse failure.
- `score_gauge.dfy`, `skill_radar.dfy`, `action_plan.dfy`: the view models of
  the three result components.
- `types.dfy`, `wrappers.dfy`: the records of the service reply, the uploaded
  file, thrown values, `Option` and `Result`.

Some things cannot be computed locally: the browser file reader, the service
call, `JSON.parse`, `encodeURIComponent` and `URL.createObjectURL`. These
enter as parameters:
- `reader: ReadMode -> ReadOutcome`
- `service: Request -> ServiceReply`
- `parse: string -> Option<AnalysisResult>`
- `encode: string -> string`
- `objectUrl: string`

The service credential is an `apiKey: Option<string>` parameter rather than
process-wide configuration.

Behaviours of the code worth noting:

- The PDF payload is `dataUrl.split(',')[1]`. This is the segment between the
  first comma and the next one, or `undefined` (`None`) when the string has no
  comma. For a base64 data URL as section 3 of RFC 2397 lays it out
  (`data:<mediatype>;base64,<data>`), that segment is exactly the base64 data.
- When the file reader fails, the promise rejects with the reader's error
  event. That event is not an `Error` instance, so the page shows the generic
  "An unexpected error occurred during analysis." The "Failed to read …"
  messages are reached only when the read ends with a result that is not a
  string.
- An empty text document produces no content parts at all. The prompt is then
  not sent either, because the empty string is falsy in the test that guards
  the text part.
- The content type is checked only when a file is selected. Submit checks only
  that a file is present and that the trimmed role is non-empty. The sample
  profile is `text/plain` and bypasses the check.
- The submit button tests the raw role, but validation tests the trimmed role.
  A blank but non-empty role therefore enables the button, and the submit then
  fails validation.
- The critical-gaps filter keeps every skill whose current level is below
  the required one, however small the difference. For example, take the
  skills (required 80, current 20), (required 90, current 85) and (required
  60, current 10). The list shows all three, in order.
- On success the settlement stores the result and does not touch `error`. The
  submit clears `error` first. So when the reply parses to a JSON object, an
  uninterrupted submit ends with exactly one of `analysis` and `error` set.
  Replies that parse to `null` or to another non-object value are not
  represented (see "Left out").
- The error banner is guarded by `{error && …}`, so a failure whose message
  is the empty string stores that message but shows no banner.

## Model

| member | source | states |
|---|---|---|
| GeminiService.Split | services/geminiService.ts:14 | `split` always yields at least one piece, yields exactly one piece iff the separator is absent, and no piece contains the separator |
| GeminiService.JoinSplit | services/geminiService.ts:14 | joining the pieces of a split with the separator restores the original string |
| GeminiService.SplitJoin | services/geminiService.ts:14 | splitting a join of separator-free pieces gives back those pieces (split and join are inverse) |
| GeminiService.SplitWithoutSeparator | services/geminiService.ts:14 | a string without a comma splits into itself alone |
| GeminiService.SplitAtFirstSeparator | services/geminiService.ts:14 | the first piece ends at the first separator; the remaining pieces are the split of what follows |
| GeminiService.DataUrlPayload | services/geminiService.ts:14 | `split(',')[1]` is defined iff the data URL contains a comma, and it never contains a comma itself |
| GeminiService.PayloadAfterFirstComma | services/geminiService.ts:14 | for a comma-free prefix, the payload is the text after the first comma, up to the next comma |
| GeminiService.PayloadOfPrefixedData | services/geminiService.ts:9-17 | for `prefix,payload` where neither part has a comma, the inline data is exactly `payload` |
| GeminiService.PayloadStripsDataUrlPrefix | services/geminiService.ts:9-17 | for a base64 data URL (section 3 of RFC 2397), the inline data is the base64 data without the `data:…;base64,` prefix |
| GeminiService.FileToGenerativePart | services/geminiService.ts:5-36 | a PDF is read as a data URL and becomes inline data tagged `application/pdf`; any other file is read as text and passed through verbatim; a non-string result rejects with "Failed to read PDF file" or "Failed to read text file"; a reader error rejects with a non-`Error` value |
| GeminiService.TextPayloadIsVerbatim | services/geminiService.ts:23-28 | when the text read returns the file's contents, the text payload equals those contents |
| GeminiService.Prompt | services/geminiService.ts:48-58 | the prompt starts with the fixed instruction head and is longer than the quoted role |
| GeminiService.PromptQuotesRole | services/geminiService.ts:48-58 | the prompt is exactly the fixed head, then the target role verbatim in double quotes, then the fixed tail, with the length of the three together |
| GeminiService.PromptDeterminesRole | services/geminiService.ts:50 | the prompt determines the role: equal prompts come from equal roles |
| GeminiService.ContentParts | services/geminiService.ts:61-68 | at most two parts; a PDF gives exactly inline data then the prompt; a text part exists iff the text is non-empty, and then it is the only part |
| GeminiService.TextPartLayout | services/geminiService.ts:66-67 | the single text part is "RESUME CONTENT:\n", then the résumé text, then a blank line ("\n\n"), then the prompt |
| GeminiService.BuildContentParts | services/geminiService.ts:61-68 | the list built by successive pushes equals `ContentParts` for the same file data and prompt |
| GeminiService.InterpretReply | services/geminiService.ts:127-137 | a transport failure propagates unchanged; an absent or empty reply raises "No response received from Gemini"; text that does not parse raises "Failed to process analysis results"; a parsed value is returned as parsed, with no range or emptiness checks |
| GeminiService.Analysis | services/geminiService.ts:38-137 | a missing or empty key fails with "API Key is missing" and sends nothing; otherwise a read failure is returned and nothing is sent; otherwise exactly one request (the model and the content parts for the file and the prompt) is sent and its reply is interpreted; nothing is sent iff the call fails before the service |
| GeminiService.AnalyzeResume | services/geminiService.ts:38-137 | the imperative flow with early exits returns the outcome and the request that `Analysis` gives |
| GeminiService.PdfRequestShape | services/geminiService.ts:61-65 | a PDF request carries exactly two parts: the inline data split from the data URL with MIME type `application/pdf`, then the prompt |
| ScoreGauge.GaugeColor | components/ScoreGauge.tsx:10-12 | red iff score < 50, yellow iff 50 ≤ score < 75, emerald iff score ≥ 75 (the bands partition all scores) |
| ScoreGauge.Caption | components/ScoreGauge.tsx:59-61 | "Excellent fit…" iff score > 80, "Good potential…" iff 50 < score ≤ 80, "Significant gaps…" iff score ≤ 50 |
| ScoreGauge.ColorAndCaptionDisagree | components/ScoreGauge.tsx:59-61 | at 50 the colour is yellow but the caption says "Significant gaps"; from 75 to 80 the colour is emerald but the caption says "Good potential" |
| ScoreGauge.Gauge | components/ScoreGauge.tsx:10-61 | the chart has exactly one row with value = score; the row fill and the top bar both take the banded gauge colour; the caption is the banded caption; the displayed number and bar width are the score unclamped |
| SkillRadar.Rows | components/SkillRadar.tsx:20-25 | one row per skill, in order, each derived from the skill at the same index |
| SkillRadar.ChartData | components/SkillRadar.tsx:20-25 | the chart has min(6, number of skills) rows; row i has subject = skills[i].skillName, You = current, Target = required, fullMark = 100 |
| SkillRadar.ChartIgnoresTail | components/SkillRadar.tsx:20 | skills after the sixth do not affect the chart |
| ActionPlan.Decimal | components/ActionPlan.tsx:37 | the step number prints as a non-empty string of decimal digits with no leading zero |
| ActionPlan.DecimalValueOfDecimal | components/ActionPlan.tsx:37 | reading the printed number back gives the number |
| ActionPlan.DecimalInjective | components/ActionPlan.tsx:37 | different numbers print differently |
| ActionPlan.StepLabelsDistinct | components/ActionPlan.tsx:37 | cards at different positions carry different "Step n" labels |
| ActionPlan.SearchUrl | components/ActionPlan.tsx:15-17 | the search target is the Google search prefix followed by the encoded query |
| ActionPlan.CardsFrom | components/ActionPlan.tsx:29-37 | one card per item, in order; the card at offset i is numbered from its absolute position |
| ActionPlan.Cards | components/ActionPlan.tsx:29-66 | one card per item, in input order, labelled "Step 1" to "Step n"; the search button appears iff the query is non-empty and opens the search URL for it; the copy payload is the project prompt verbatim |
| App.TrimStart | App.tsx:101 | removing leading white space leaves the empty string exactly for a blank input, and otherwise starts with a non-white-space character |
| App.TrimEnd | App.tsx:101 | removing trailing white space leaves the empty string exactly for a blank input, and otherwise ends with a non-white-space character |
| App.TrimStartIsSuffix | App.tsx:101 | what TrimStart leaves is a suffix of the input, and everything it removed is white space |
| App.TrimEndIsPrefix | App.tsx:101 | what TrimEnd leaves is a prefix of the input, and everything it removed is white space |
| App.Trim | App.tsx:101 | `trim()` is empty iff the role consists of white space only |
| App.InputsValid | App.tsx:101 | a submit passes validation iff a file is held and the role has a non-white-space character |
| App.SubmitEnabled | App.tsx:227 | the button is enabled exactly when idle with a file and a non-empty raw role: every input that passes validation enables it, an enabled button implies idle with a file, and an enabled button whose inputs fail validation has a non-empty blank role |
| App.BlankRoleEnablesButFailsValidation | App.tsx:227 | a blank but non-empty role enables the button, and the submit it triggers then fails validation (line 101) |
| App.ErrorMessage | App.tsx:114 | an `Error`'s own message is stored as it is; any other thrown value stores the non-empty generic fallback |
| App.Resolution | App.tsx:110-117 | a settled analysis leaves exactly one of the result and the error message: the result on success, the thrown message (or the generic fallback for a non-`Error`) on failure |
| App.NextLoadingStep | App.tsx:55-58 | from a valid step the interval moves exactly one step forward, and stays put only at the last step, so the step stays within 0..4 |
| App.StepAfterTicksClamps | App.tsx:53-59 | after k ticks from step s, the step is min(s + k, 4) |
| App.ProgressWidth | App.tsx:269 | the progress width `(loadingStep + 1) * 20` lies in 20..100, and is 100 only at the last step |
| App.LoadingMessage | App.tsx:264 | every valid step shows one of the five captions, and none of them is empty |
| App.LoadingMessagesDistinct | App.tsx:120-126 | the five captions are pairwise different, so each step shows its own caption |
| App.Gaps | App.tsx:311 | the filter keeps exactly the skills with current < required, and every kept skill is such a gap |
| App.GapsAppend | App.tsx:311 | the filter preserves order: the gaps of a concatenation are the concatenated gaps |
| App.CriticalGaps | App.tsx:311-323 | the list shown is the first min(4, number of gaps) gaps in original order, and each shown gap size `required - current` is strictly positive |
| App.CriticalGapsOfThreeSkills | App.tsx:311 | for skills (80, 20), (90, 85) and (60, 10), given as (required, current), all three are shown, in order |
| App.Session.constructor | App.tsx:30-38 | the initial state: no file, empty role, not analysing, step 0, no result, no error |
| App.Session.SetTargetRole | App.tsx:215 | typing sets the role and nothing else |
| App.Session.HandleFileChange | App.tsx:75-88 | no file in the event changes nothing; a non-PDF sets "Please upload a valid PDF file." and leaves the held file (and the result and role) unchanged; a PDF is stored with its preview URL and clears the error |
| App.Session.LoadSampleData | App.tsx:90-98 | the file becomes the built-in text/plain sample without a preview; the role becomes "Senior Full Stack Engineer"; the error is cleared; the analysis slots are untouched; the inputs then pass validation |
| App.Session.StartAnalysis | App.tsx:100-108 | an invalid submit sets "Please upload a resume and enter a target role." and changes nothing else; a valid one sets analysing, clears the result and the error, and restarts the loading step at 0 |
| App.Session.Tick | App.tsx:54-59 | while analysing, one interval firing advances the step by the clamped rule, and the caption shown changes unless the step is already the last; otherwise nothing changes |
| App.Session.WaitTicks | App.tsx:54-61 | k firings while analysing leave the step as k applications of the clamped rule |
| App.Session.FinishAnalysis | App.tsx:110-117 | afterwards nothing is in flight; success stores the result and leaves the error slot as it was; failure stores the error message and leaves the result slot as it was |
| App.Session.AwaitAnalysis | App.tsx:110-117 | the awaited call sends the request that `analyzeResume` makes for the held file and the raw role; the slots end as its outcome's resolution |
| App.Session.HandleAnalyze | App.tsx:100-118 | an invalid submit only sets the validation error and sends nothing; a valid submit sends exactly the request `analyzeResume` makes, ends not analysing with exactly one of result and error set and shows the results iff it succeeded (for replies that parse to an object), and leaves the step at the clamped tick count |
| App.Session.ClickSubmit | App.tsx:225-227 | a disabled button (analysing, no file, or empty role) changes nothing and sends nothing, so at most one request is in flight; an enabled button with a blank role only sets the validation error, leaving the result and the loading step as they were; an enabled button with valid inputs runs the submit to settlement |
| App.Session.ResultsVisible | App.tsx:277 | the results section is shown exactly when a result is held and no request is in flight |
| App.Session.InterviewPrepVisible | App.tsx:332 | interview preparation is shown exactly when a result is held, nothing is in flight and its question list is non-empty; it is shown only inside visible results |
| App.Session.ErrorVisible | App.tsx:248 | the error banner is shown exactly when a non-empty message is held; an empty message is falsy and hidden |

The `Session.Valid` invariant is kept by every handler. It says:
- the loading step always names one of the five captions;
- no result is held while a request is in flight;
- a preview URL exists only with a file;
- the held file is always a PDF upload or the built-in sample.

The last point follows from `HandleFileChange`: a rejected selection leaves
the upload slot as it was.
Values in Dafny are immutable, so `slice` and `filter` cannot modify the skill
list; that needs no separate statement.

## Left out

- Rendering: all JSX, CSS classes and the chart widgets (`RadialBarChart`, `RadarChart`, legends, tooltips). The model stops at the data they receive.
- File reading is not asynchronous here. `FileReader` becomes the `reader` parameter, which gives the outcome of the one read the encoder asks for.
- The service is reduced to its reply. The `GoogleGenAI` client, the network and the response-schema literal (services/geminiService.ts:77-123) become the `service` parameter. The schema is data for the service and is never checked locally.
- `JSON.parse` becomes the `parse` parameter. The console logging on a parse failure is left out.
- App.Resolution: `parse` yields an `AnalysisResult` record or nothing, so replies that parse to JSON `null`, `0`, `false` or another non-object value are not represented. In the source, a reply text "null" makes `setAnalysis(null)` run with `error` already cleared (App.tsx:108, 112). Neither slot is then set. A falsy result is never shown by App.tsx:277, although the call succeeded. The claims that a submit ends with exactly one slot set, and that results are visible iff the call succeeded (`Resolution`, `Session.AwaitAnalysis`, `Session.HandleAnalyze`), hold only for replies that parse to an object.
- GeminiService.InterpretReply: a reply that parses but lacks fields cannot be represented, because `parse` yields a complete `AnalysisResult`. The source would pass such a value through with `undefined` fields. The `analysis.interviewPrep &&` guard at App.tsx:332 therefore reduces to the length test.
- Timers are reduced to a count. `setInterval`/`clearInterval` become a number of `Tick` calls: `ticks` in `HandleAnalyze`, or `Tick` called between `StartAnalysis` and `FinishAnalysis`. The auto-scroll `setTimeout`/`scrollIntoView` effect (App.tsx:66-73) has no state effect and is not modelled.
- Browser I/O is reduced to parameters or payloads:
  - `URL.createObjectURL` becomes the `objectUrl` parameter.
  - `window.print` is not modelled.
  - `navigator.clipboard.writeText` and `window.open` are represented only by the payloads they receive (`copyPayload`, `search`).
  - `encodeURIComponent` becomes the `encode` parameter.
- `process.env.API_KEY` becomes the `apiKey` parameter.
- Scores and proficiencies are `int`, not JavaScript floating-point numbers. A fractional or non-finite score is not modelled.
- Strings are sequences of Unicode characters, not UTF-16 code units. The white space `trim` removes is the ECMAScript set: tab, line feed, vertical tab, form feed, carriage return, space, U+00A0, U+1680, U+2000–U+200A, U+2028, U+2029, U+202F, U+205F, U+3000 and U+FEFF.
- React state batching and re-rendering are not modelled. Each handler updates its slots in sequence. `HandleAnalyze` runs a submit to settlement in one call. An interleaving with other handlers is expressed by calling `StartAnalysis`, the handlers, `Tick` and `FinishAnalysis` separately.
- The result hero, summary text, print button and role-field indicator are plain renderings of held values and are not modelled.
