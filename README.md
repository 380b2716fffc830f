# AI Insights Dashboard — a verified model of its core

The dashboard asks three text-generation providers (OpenAI, Perplexity, Gemini) for a trend report
on one topic, has each provider critique the other two, and has OpenAI act as referee, fusing the
three reports and six critiques into one summary. The client shows that summary and keeps a history
of saved reports, one per (topic, research depth, update interval).

This project models, in Dafny:

- **the server's `/api/generate-fused` pipeline** (`server/index.js`):
  - `buildPrompt`, the two research templates;
  - the critique prompt and the referee's fusion prompt;
  - text extraction from the chat-completions and generate-content response shapes;
  - the three `validateWith*` helpers;
  - the handler itself, as step-by-step methods (`Orchestrator.GenerateFused` with its two phases,
    `RunGenerations` and `RunCritiquesAndFusion`). They are proved equal to a reference definition
    of the reply (`Orchestrator.Handle`, `Respond`, `Assemble`) and of the calls they make, in
    order (`Orchestrator.Calls`, `RespondCalls`, `AssembleCalls`);
- **the client's generate action** (`client/src/PromptInput.tsx`):
  - the component state as a class (`Dashboard.Dashboard`), with `handleGenerate` split at its one
    `await`;
  - the depth-to-detail-level mapping;
  - the summary and error fallback chains;
  - the saved-report update;
  - the `Section` visibility rule.

Provider calls are not executed. They are an input `net: Request -> Outcome`: every provider call
is a `Request` (provider, role, prompt), and its `Outcome` is a response body or a rejection. The
client's POST is likewise an input, `api: RequestBody -> Fetch`. `Dashboard.Deliver` relates the
server's reply to what the client receives, and two lemmas state the end-to-end behaviour.

A failed generation call does not degrade: `Promise.all` rejects, or an extraction throws, and
the outer `catch` answers 500 with no partial data (server/index.js:92-98, 195-197); see
`Orchestrator.ServerErrorIff`.

Modules, one per file: `Wrappers` (Option), `Text` (trim, join, lower-casing), `Prompts`,
`Providers`, `Orchestrator`, `Reports` (the client's pure rules and the history), `Dashboard`
(the component).

## Model

| member | source | states |
|---|---|---|
| `Text.SkipSpace` | server/index.js:97-98 | the leading scan of `trim`: the first index from the start on that does not hold whitespace, everything before it being whitespace |
| `Text.SkipSpaceBack` | server/index.js:97-98 | the trailing scan of `trim`: the start of the whitespace run that ends the string, not going below the leading scan's index |
| `Text.Trim` | server/index.js:97-98 | `trim` with ECMAScript's whitespace set: the result is the input with a whitespace prefix and a whitespace suffix cut off; it neither starts nor ends with whitespace, and it is empty exactly when the input is all whitespace |
| `Text.TrimIdempotent` | server/index.js:97-98 | trimming twice is trimming once |
| `Text.Join` | server/index.js:102 | `join`: the empty list gives "", a single part gives that part itself |
| `Text.JoinAppend` | server/index.js:102 | joining two non-empty lists one after the other is joining each and putting one separator between them, so every neighbouring two parts are separated by exactly one separator |
| `Text.Lower` | client/src/PromptInput.tsx:103 | lower-casing keeps the length and maps each character by itself (ASCII letters) |
| `Text.LowerIdempotent` | client/src/PromptInput.tsx:103 | lower-casing a lower-cased topic changes nothing |
| `Prompts.BuildPrompt` | server/index.js:25-37 | the in-depth template exactly when the detail level is "high" or absent (the default parameter); the high-level template otherwise; the topic, or "undefined" when it is missing, can be read back verbatim from between the quotes |
| `Prompts.CritiquePrompt` | server/index.js:205 | the critique prompt starts with the fixed instruction `CritiqueHead` and continues with the subject text, verbatim, and nothing else |
| `Prompts.CritiquePromptInjective` | server/index.js:203-205 | different subject texts give different critique prompts |
| `Prompts.FusionPrompt` | server/index.js:123-158 | the `mergedPrompt` template, as a reference definition: each of the nine labels followed by its text, then one "\n"; its properties are stated by `FusionPromptEmbeds` and `FusionPromptEnd` |
| `Prompts.FusionPromptEnd` | server/index.js:157-158 | after the last validation the prompt has exactly one "\n" and ends: its length is where the last text starts plus that text's length plus one, and its last character is "\n" |
| `Prompts.FusionPromptEmbeds` | server/index.js:123-158 | the referee prompt carries each of the nine texts verbatim right after its own label, in the order OpenAI, Perplexity and Gemini outputs, then the six validations; each text ends before the next label |
| `Providers.TemperatureTenths` | server/index.js:45-89 | OpenAI and Perplexity calls set a temperature, Gemini calls set none; only OpenAI is ever the referee, so a Perplexity referee request has none either |
| `Providers.MaxTokens` | server/index.js:45-89 | OpenAI and Perplexity calls set an output budget, Gemini calls set none; likewise none for a Perplexity referee request |
| `Providers.BudgetsByRole` | server/index.js:45-241 | for OpenAI and Perplexity the output budget of a critique call (700) is below that of a generation call (1200); the OpenAI referee call's (1500) is above its generation call's |
| `Providers.ReviewSamplesCooler` | server/index.js:159-169 | for OpenAI and Perplexity critique calls sample cooler than generation calls; the OpenAI referee call samples cooler than its critique calls |
| `Providers.FirstContent` | server/index.js:97 | `data.choices[0].message.content`: present exactly when the body is a chat completion with a non-empty `choices` whose first element has a message with a content, and then that content |
| `Providers.ChatText` | server/index.js:97-98 | `choices[0].message.content.trim()` gives a text exactly when the call settled and every step of that path exists (otherwise it throws); the text is the content with its whitespace ends cut off (`Text.Trim` of the content) |
| `Providers.GeminiParts` | server/index.js:101 | the guard on `candidates[0].content.parts` passes only with a non-empty parts array |
| `Providers.PartTexts` | server/index.js:102 | `parts.map(p => p.text)`: one text per part, in order; a missing text joins as "" |
| `Providers.GeminiExtract` | server/index.js:100-105 | Gemini extraction: no parts exactly when the guard fails; throws exactly when a part is `null`; otherwise the text is `Text.Trim` of the parts' texts (`PartTexts`) joined with "\n" |
| `Providers.GeminiGenerationText` | server/index.js:99-105 | the Gemini main output is the extracted text, or "(No Gemini output)" when there are no parts; it is missing only when the extraction throws |
| `Providers.ValidateWithOpenAI` | server/index.js:203-227 | the critic's trimmed reply; "(Validation unavailable from OpenAI.)" when the call is rejected or the reply lacks the content path |
| `Providers.ValidateWithPerplexity` | server/index.js:229-254 | the same against Perplexity, with its own placeholder |
| `Providers.ValidateWithGemini` | server/index.js:256-272 | the joined, trimmed parts; the Gemini placeholder when the call is rejected, when there are no parts, and when the extraction throws |
| `Providers.ValidateDependsOnlyOnItsCall` | server/index.js:203-205 | a critique is decided by the critic's reply to the critique prompt about the target alone; the helper's first argument is never used |
| `Providers.ValidateIsReplyOrPlaceholder` | server/index.js:203-272 | every critique helper is total: for OpenAI and Perplexity its result is that critic's placeholder or the trimmed content of its reply to the critique call (`ChatText`); for Gemini it is the Gemini placeholder or the text extracted from its reply (`GeminiExtract`); either way it is trimmed |
| `Orchestrator.CritiquePairs` | server/index.js:107-118 | exactly six cross-validations, in the awaited order, no provider reviewing itself |
| `Orchestrator.CritiquePairsDistinct` | server/index.js:107-118 | no pair is listed twice |
| `Orchestrator.CritiquePairsComplete` | server/index.js:107-118 | every ordered pair of distinct providers is among the six |
| `Orchestrator.Validations.List` | server/index.js:186-193 | the response's `validations` object has one field per pair, in the order of the pairs |
| `Orchestrator.MainOutputs` | server/index.js:91-105 | the generation phase succeeds exactly when all three calls settle and all three extractions succeed, and then yields the three extracted texts in order |
| `Orchestrator.CrossValidationsUnfold` | server/index.js:107-118 | the six critiques, one per pair in the order of the pairs, are the six helper calls the handler makes, with the handler's arguments, in its order |
| `Orchestrator.FusedSummary` | server/index.js:176-179 | the referee call's extraction with its local `catch`: the trimmed content when the call settled and the content path exists, otherwise "Error generating unified summary." |
| `Orchestrator.Assemble` | server/index.js:107-194 | reference definition of the critique phase and `res.json`: the response built from the three outputs, the six critiques and the fused summary; its properties are stated by `AssembleContents`, `AssembleWithoutReferee` and `CritiqueFailureIsLocal`, and `RunCritiquesAndFusion` is proved equal to it |
| `Orchestrator.Handle` | server/index.js:39-41 | reference definition of the whole handler from `req.body`: the prompt `buildPrompt` makes of the body's topic and detail level, answered by `Respond`; `GenerateFused` is proved equal to it, and `ServerErrorIff` and `CompositeFromMainOutputs` state its two outcomes |
| `Orchestrator.Respond` | server/index.js:43-198 | the handler's only error answer is status 500 with the fixed message |
| `Orchestrator.RunGenerations` | server/index.js:45-105 | the generation phase, step by step, yields exactly the main outputs `MainOutputs` defines (none on a rejection or throw) after exactly the three generation calls |
| `Orchestrator.RunCritiquesAndFusion` | server/index.js:107-194 | the six awaited critiques, the referee call in its own try/catch and the response assembly give exactly the reply `Assemble` defines, after exactly the calls `AssembleCalls` defines |
| `Orchestrator.GenerateFused` | server/index.js:39-199 | the whole handler returns the reply `Handle` defines and makes exactly the calls `Calls` defines, in that order |
| `Orchestrator.ServerErrorIff` | server/index.js:92-197 | 500 exactly when a generation call is rejected, an OpenAI or Perplexity extraction throws, or the Gemini extraction throws; it then carries only the fixed message, and no call follows the three generation calls |
| `Orchestrator.CompositeFromMainOutputs` | server/index.js:92-194 | a successful request is the response assembled from the three extracted outputs, after the three generation calls and then the calls of the assembly |
| `Orchestrator.AssembleContents` | server/index.js:181-194 | a composite carries the three extracted outputs; for every ordered pair of distinct providers, the critic's critique of the subject's output; and the referee's reply to the fusion prompt over those nine texts, or the fixed error text |
| `Orchestrator.AssembleCallsInOrder` | server/index.js:107-175 | after the generation phase, seven calls: the k-th critique call sends the k-th pair's subject output to its critic, then one referee call over the nine texts |
| `Orchestrator.AssembleCallsRoles` | server/index.js:107-175 | after the generation phase, six critique calls, one referee call and no generation call |
| `Orchestrator.RefereeCalledOnce` | server/index.js:45-175 | three generation calls always; six critique calls and exactly one referee call on success; none of either on failure |
| `Orchestrator.MainOutputsReadGenerationOnly` | server/index.js:91-105 | the generation phase depends on the replies to generation calls alone |
| `Orchestrator.OnlyGenerationCanFail` | server/index.js:107-197 | no reply to a critique or referee call can decide whether the request fails, or change the three main outputs |
| `Orchestrator.CritiqueOfReadsItsCall` | server/index.js:107-118 | each of the six critiques depends on its own call's reply alone |
| `Orchestrator.CritiqueOfUnderFailure` | server/index.js:203-272 | a critique whose own call fails is its critic's placeholder; a critique whose call does not fail is unaffected |
| `Orchestrator.FusionFailureIsLocal` | server/index.js:121-194 | when the referee call fails, the request succeeds or fails as before, and a composite keeps all three outputs and all six validations, with "Error generating unified summary." as its summary |
| `Orchestrator.AssembleWithoutReferee` | server/index.js:121-194 | the same for the assembled response: only the summary changes, to the fixed error text |
| `Orchestrator.CritiqueFailureIsLocal` | server/index.js:107-118 | a failing call turns only the critiques that make that very call into their critic's placeholder; every other critique and all three outputs stay as they were |
| `Reports.FirstTruthy` | client/src/PromptInput.tsx:88-93 | a chain of `or` operators over optional strings gives its first truthy (present, non-empty) operand, or the fallback when there is none |
| `Reports.FirstTruthyNonEmpty` | client/src/PromptInput.tsx:88-93 | a chain ending in a non-empty fallback never gives "" |
| `Reports.SummaryOf` | client/src/PromptInput.tsx:88-93 | the summary is the first truthy of `summary`, `insights`, `result` and `text`, else "No summary found."; it is never empty |
| `Reports.ErrorOf` | client/src/PromptInput.tsx:117-122 | the error is the server's `error` field, else the rejection's message, else "Failed to fetch insights."; it is never empty |
| `Reports.DetailLevelFor` | client/src/PromptInput.tsx:84 | "high" exactly for the "in-depth" research depth, "low" for every other |
| `Reports.SectionVisible` | client/src/PromptInput.tsx:237 | a section renders exactly when its text is present and has a character other than whitespace |
| `Reports.KeyOf` | client/src/PromptInput.tsx:102-105 | the key the filter compares: lower-cased topic, research depth and interval; `KeyIgnoresTopicCase` and `UpdateReportsContents` state what it decides |
| `Reports.WithoutKey` | client/src/PromptInput.tsx:101-106 | the filter keeps exactly the reports whose key (lower-cased topic, depth, interval) differs from the new one |
| `Reports.WithoutKeyConcat` | client/src/PromptInput.tsx:101-106 | the filter distributes over concatenation, so kept reports keep their relative order |
| `Reports.WithoutKeySingle` | client/src/PromptInput.tsx:101-106 | a single report is kept exactly when its key differs |
| `Reports.WithoutKeyAbsent` | client/src/PromptInput.tsx:101-106 | a history without the key passes the filter unchanged |
| `Reports.WithoutKeyUnique` | client/src/PromptInput.tsx:101-106 | the filter keeps keys unique |
| `Reports.UpdateReports` | client/src/PromptInput.tsx:100-115 | the new report is last; before it are the old reports without its key, in order; the length grows by at most one |
| `Reports.UpdateReportsContents` | client/src/PromptInput.tsx:100-115 | exactly one report has the new report's key; a report is in the result exactly when it is the new one or an old one with another key |
| `Reports.UpdatePreservesUnique` | client/src/PromptInput.tsx:100-115 | a history with unique keys keeps them unique |
| `Reports.UpdateReplacesSameKey` | client/src/PromptInput.tsx:100-115 | updating with a report and then with another of the same key equals updating with the second alone |
| `Reports.UpdateIdempotent` | client/src/PromptInput.tsx:100-115 | updating twice with the same report equals updating once |
| `Reports.KeyIgnoresTopicCase` | client/src/PromptInput.tsx:103 | in any history, a report whose topic differs from an earlier one's only in letter case (same depth and interval) replaces it: updating with both equals updating with the later one alone |
| `Dashboard.RequestFor` | client/src/PromptInput.tsx:82-85 | the POST body: the topic and the detail level mapped from the research depth; `RequestSelectsTemplate` states what the server makes of it |
| `Dashboard.RequestSelectsTemplate` | client/src/PromptInput.tsx:80-86 | the request the client posts makes the server use the in-depth template exactly when the research depth is "in-depth", and the topic is quoted verbatim |
| `Dashboard.NewReport` | client/src/PromptInput.tsx:107-114 | the saved report carries the captured topic, depth and interval verbatim (so their key), the summary chain's result, the response body and the timestamp |
| `Dashboard.Dashboard.constructor` | client/src/PromptInput.tsx:45-54 | the initial state: empty topic, "daily", "highlevel", nothing shown, not loading, no history |
| `Dashboard.Dashboard.BeginGenerate` | client/src/PromptInput.tsx:73-86 | loading starts; error, summary and details are cleared and the details panel hidden; the request carries the topic and the mapped detail level; the topic, depth, interval and history are captured |
| `Dashboard.Dashboard.FinishGenerate` | client/src/PromptInput.tsx:88-125 | on a response: the summary chain's result, the body as details, and the captured history updated with the new report; on a rejection: the error chain's result and the history unchanged; loading ends false either way |
| `Dashboard.Dashboard.HandleGenerate` | client/src/PromptInput.tsx:73-126 | a whole generate: the new state follows from the response to the request the old state makes, as above |
| `Dashboard.Deliver` | server/index.js:181-197 | a composite reaches the client as a response body, a 500 as a rejection |
| `Dashboard.GenerationFailureShown` | client/src/PromptInput.tsx:117-122 | when generation fails on the server, the user sees "Failed to fetch insights from OpenAI, Perplexity, or Gemini" |
| `Dashboard.CompositeSummaryShown` | client/src/PromptInput.tsx:88-96 | on success the user sees the referee's summary, or "No summary found." when it is empty, and the details carry the six validations |

## Left out

- HTTP: the axios calls, endpoint URLs, API keys, dotenv, and the Express and CORS setup. Each provider call is a `Request` answered by the `net` input, and a failed one is simply `Fail` (network error, non-2xx status).
- The network is a function, so identical requests within one request handling get identical outcomes. Two critiques with equal subject texts and the same critic therefore always agree.
- `Promise.all` concurrency. The three generation calls are issued together, and any failure rejects the join. Which call settles first is not observable in the reply.
- Model names, system prompts and the `console.error` logging.
- Providers.TemperatureTenths: the temperatures 0.5, 0.4 and 0.3 are recorded in tenths, only to state their order.
- Text.Lower: `toLowerCase` is modelled for ASCII letters only; other characters are left unchanged.
- `localStorage`: loading the history on mount, saving it, JSON (de)serialisation, and the theme. `saveReports` is the `savedReports` assignment.
- `new Date().toISOString()`: the timestamp is an input.
- React rendering, styling, the dark-mode toggle, the `DetailsPanel` markup and the summary's HTML rendering. Of the rendering, only the `Section` guard is modelled.
- The input handlers that set topic, interval and depth are plain assignments and are not modelled.
- The disabled state of the Generate button is not modelled. The Enter key calls `handleGenerate` even while a generate is running or the topic is empty.
- Overlapping generates. With `BeginGenerate` and `FinishGenerate` they can be interleaved. Each one updates the history it captured at its start, so the one that finishes last overwrites the other's update. `HandleGenerate` states only the sequential case.
- A topic or detail level of a type other than string, and a non-string text in a Gemini part or a chat message, which the source passes through or on which it throws.
