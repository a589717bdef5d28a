# Resilience pipeline of the drug-repurposing backend, in Dafny

This project models the part of the backend that turns unreliable text from
a remote generator into string-normalised dictionaries, and proves what each
step promises:

- `GeminiClient` — `_build_url` and `call_gemini`: prompt assembly, the
  bounded retry loop (only HTTP 429 is retried, with backoffs of 2 s and
  4 s, at most 3 requests) and the parsing of the nested-candidate and flat
  response shapes, including the removal of code fences.
- `JsonSanitizer` — `safe_json_load`: the whole text, then the first fenced
  block, then the span from the first `{` to the brace that brings the
  depth back to zero (braces inside string literals count too).
- `Normalizer` — `normalize_list`: one output element per visited item.
- `Refiner` — `refine_with_trm`: one generator call at temperature 0.1 on
  the printed checklist followed by the draft.
- `Stages` — what the plan, clinical and patent stages share: the statement
  `d[key] = normalize_list(d.get(key, []))` and the chain
  generate → refine → extract.
- `Master`, `Clinical`, `Patent` — `master_plan`, `master_synthesis`,
  `run_clinical_agent`, `run_patent_agent`.
- `Orchestrator` — `run_analysis`.
- `PyJson` and `Common` — the Python values and behaviours the code relies
  on: JSON values, `in`, subscripting, `.get`, iteration, truthiness,
  `str.strip()`, `int()`, and the exceptions as an `Error` datatype with a
  `Result` wrapper.

The generator service is a value `Net` that every operation takes and
returns: `script` is the outcome of each HTTP request in the order they are
sent (a body that decodes, a body that does not, an HTTP status, a transport
failure), `requests` logs the requests sent, `delays` logs every
`time.sleep`, and `calls` logs each invocation of the client with its system
prompt, user prompt, temperature tag and what it returned. Each stage is
specified by a predicate over the calls it appended and its result
(`Master.PlanStage`, `Master.SynthesisStage`, `Clinical.ClinicalStage`,
`Patent.PatentStage`, `Orchestrator.AnalysisLog`). Each operation that the
source writes as a loop or as in-place updates is a method proved equal to a
specification function (`NormalizeList` and `NormalizedList`,
`SafeJsonLoad` and `Extracted`, `CallGemini` and `CallSpec`, and so on).
The properties are then proved about those functions.
`refine_with_trm` and `run_analysis` only call the client and the stages, so
they are methods over `Net` too.

`json.loads`, `json.dumps`, Python's `str()` and the order in which a dict
yields its keys are the fields of a `PyJson.Lib` value. They are not given
an implementation.

Behaviours of the code that the model keeps:

- Three 429 answers in a row do not lead to a fourth request or to a success.
  The third attempt is the last one, and it re-raises the HTTP error
  (`GeminiClient.RateLimitedThrice`), so the "failed after retries" raise
  after the loop is unreachable (`GeminiClient.AttemptsSettled`,
  `GeminiClient.CallShape`).
- `normalize_list` raises TypeError on None, a boolean or a number
  (`Normalizer.FailsOnlyOnScalars`). A string is iterated character by
  character. The `description` value of a dict is appended as it is, even
  when it is not a string.
- The plan, clinical and patent stages send the raw draft straight to the
  refiner and extract JSON only from the refined text (`Stages.Draft`).
- The clinical and patent stages are awaited one after the other.

## Model

| member | source | states |
|---|---|---|
| GeminiClient.BuildUrl | backend/app/core/gemini_client.py:12-14 | the URL is GEMINI_BASE_URL, or the public v1beta endpoint when it is unset, followed by `/models/gemini-flash-latest:generateContent` |
| GeminiClient.FencesRemoved | backend/app/core/gemini_client.py:86-87 | after `StripFences`, the model of the substitution, no three consecutive backticks remain anywhere in the text |
| GeminiClient.FenceFreeUnchanged | backend/app/core/gemini_client.py:87 | a text without fences passes through the substitution unchanged |
| GeminiClient.KeepsPrefix | backend/app/core/gemini_client.py:87 | text without backticks is kept as it stands in front of whatever the substitution makes of the rest |
| GeminiClient.FenceStep | backend/app/core/gemini_client.py:87 | one match removes three backticks, the optional `json` tag and all the whitespace after them, and nothing else; the substitution resumes at the first character that is not whitespace |
| GeminiClient.FencedReply | backend/app/core/gemini_client.py:86-88 | a reply of the form ```` ```json ````, newline, body, newline, ```` ``` ```` comes back as the body and one newline, which `strip()` then removes |
| GeminiClient.NestedResponse | backend/app/core/gemini_client.py:79-88 | `ParseResponse`, through `CandidateText`: when the first candidate's first part has a non-empty `text`, the result is that text with its fences removed and then stripped; it holds no fence and has no whitespace at either end |
| GeminiClient.StrippedFenceFree | backend/app/core/gemini_client.py:87-88 | stripping after the substitution leaves the text fence-free |
| GeminiClient.FlatResponse | backend/app/core/gemini_client.py:90-98 | `ParseResponse`, through `FlatText`: without a usable candidate text, a top-level string `text` (checked first), else a string `content`, is returned verbatim; with neither, the unexpected-format error is raised |
| GeminiClient.AttemptsShape | backend/app/core/gemini_client.py:53-70 | `Attempts`, the loop: from attempt `a` on, the loop sends the same request `k` times with 1 <= k <= 3 - a; the request before each retry got a 429 and was followed by the backoff `2 * 2^attempt`; the loop ends with the last outcome and never runs out |
| GeminiClient.AttemptsTrace | backend/app/core/gemini_client.py:53-65 | the requests are `k` copies of the one request, the delays are the backoffs of the retried attempts, and the call log and the script are untouched |
| GeminiClient.BackoffDoubles | backend/app/core/gemini_client.py:62-64 | the sleep after a 429 starts at two seconds and doubles with each attempt, so the loop sleeps 2 and then 4 seconds |
| GeminiClient.AttemptsRateLimited | backend/app/core/gemini_client.py:59-65 | every request but the last was answered with HTTP 429 |
| GeminiClient.AttemptsSettled | backend/app/core/gemini_client.py:53-100 | the last outcome was not retried, and the loop ends with that outcome inside its body, so the raise after the loop (line 100) is never reached |
| GeminiClient.CallShape | backend/app/core/gemini_client.py:17-100 | `CallSpec`, the whole call: a missing or empty key raises before any request or sleep; otherwise 1 to 3 identical requests go to the built URL with the prompt `system + "\n\n" + user`, the delays are a prefix of [2, 4], only 429 answers were retried, a non-429 outcome before the third attempt ends the call, the last outcome decides the result, and the retries-exhausted error never occurs |
| GeminiClient.RateLimitedTwiceThenReply | backend/app/core/gemini_client.py:53-88 | two 429 answers and then a response give three requests, the delays [2, 4], and the parsed text |
| GeminiClient.RateLimitedThrice | backend/app/core/gemini_client.py:59-67 | three 429 answers give three requests, the delays [2, 4], and the HTTP 429 error re-raised |
| GeminiClient.CallGemini | backend/app/core/gemini_client.py:17-100 | the loop, run against the scripted service, computes `CallSpec` and appends exactly one entry, holding its inputs and result, to the call log |
| PyJson.Strip | backend/app/core/gemini_client.py:88 | `strip()` gives the empty string exactly on a whitespace-only text, and otherwise a text that neither starts nor ends with whitespace |
| PyJson.Index | backend/app/agents/master.py:112-113 | subscripting with a string key succeeds exactly on a dict holding the key and gives its value; otherwise KeyError on a dict and TypeError on anything else |
| PyJson.IterItems | backend/app/utils/normalizer.py:7 | iteration succeeds exactly on a list, a string or a dict; a list yields its elements, a string or a dict yields strings |
| PyJson.DictIteration | backend/app/utils/normalizer.py:7 | for a library that yields each dict key exactly once, iterating a dict visits every key once as a string and an empty dict visits nothing |
| PyJson.IntOf | backend/app/agents/master.py:112-114 | `int()` keeps an integer, truncates a float toward zero, turns `true`/`false` into 1/0, raises TypeError on None, a list or a dict, and on a string either succeeds or raises ValueError |
| PyJson.Truncate | backend/app/agents/master.py:112-114 | `int()` of a float truncates toward zero |
| PyJson.QuotedScoreCoerces | backend/app/agents/master.py:111-114 | a score written as a quoted decimal, with or without a minus sign, is coerced to the number it spells |
| PyJson.IntRejectsBlank | backend/app/agents/master.py:112-114 | `int()` of a blank string raises ValueError |
| PyJson.IntRejectsForeign | backend/app/agents/master.py:112-114 | `int()` of a string holding a character other than an ASCII digit, an underscore, a sign or whitespace raises ValueError, so "7.5", "7/10" and "high" are rejected |
| JsonSanitizer.FindChar | backend/app/utils/json_sanitizer.py:29 | the result is the first index holding the character, or none when no index holds it |
| JsonSanitizer.ScanFinds | backend/app/utils/json_sanitizer.py:33-41 | `ScanFrom`: the brace scan from the first `{` stops exactly where the depth of the span first returns to zero, or reports that it never does |
| JsonSanitizer.ClosesAtUnique | backend/app/utils/json_sanitizer.py:33-41 | an opening brace closes at one position at most |
| JsonSanitizer.FenceMatchShape | backend/app/utils/json_sanitizer.py:20 | `FenceMatchAt` matches at `p` only on three backticks there; after them and an optional `json` tag, the body starts after the longest whitespace run that ends in a newline and is still followed by a newline and three backticks, and it ends at the first such closer; when no such run exists there is no match |
| JsonSanitizer.LeftmostFence | backend/app/utils/json_sanitizer.py:20-21 | `FirstFencedBlock`, like `re.search`, returns the match at the leftmost position where the pattern matches, and none when it matches nowhere |
| JsonSanitizer.FirstCloser | backend/app/utils/json_sanitizer.py:20 | the lazy body ends at the first newline followed by three backticks, and at no earlier one |
| JsonSanitizer.Extracted | backend/app/utils/json_sanitizer.py:4-47 | the result is the empty-response error exactly on a blank text; a text that parses as a whole gives its value, whatever kind of JSON value it is; otherwise, when the first fenced block parses, its value is returned; every error is one of the four the extractor raises; every value returned is the parse of some span of the text |
| JsonSanitizer.BraceStrategy | backend/app/utils/json_sanitizer.py:27-47 | once the first two strategies fail: no `{` raises "No JSON object found"; otherwise the only span tried runs from the first `{` to where it closes, a parse failure there raises "Invalid extracted JSON" with no other span tried, and a depth that never returns to zero raises "No valid JSON object found" |
| JsonSanitizer.FirstBalancedSpan | backend/app/utils/json_sanitizer.py:27-43 | after a prefix without `{`, a balanced object is exactly the span the scan selects, whatever follows it and however deeply it nests |
| JsonSanitizer.FencedAsUnwrapped | backend/app/utils/json_sanitizer.py:19-25 | a JSON text inside a json-tagged fence yields the same value as the bare text |
| JsonSanitizer.SafeJsonLoad | backend/app/utils/json_sanitizer.py:4-47 | the three strategies, with the brace loop written out, return or raise what `Extracted` specifies |
| JsonSanitizer.BraceScan | backend/app/utils/json_sanitizer.py:29-47 | the depth-counting loop from the first `{` computes the third strategy, `BraceExtracted` |
| Normalizer.NormalizeList | backend/app/utils/normalizer.py:1-17 | the loop builds, in a fresh list, the value `NormalizedList` specifies, or raises its TypeError |
| Normalizer.ListShape | backend/app/utils/normalizer.py:6-17 | `NormalizeItem` on each element: on a list, one element per input element in order: a string is kept, a dict with `description` gives that value uncoerced, anything else gives `str(item)` |
| Normalizer.FailsOnlyOnScalars | backend/app/utils/normalizer.py:7 | it fails exactly on None, a boolean or a number, and then with TypeError |
| Normalizer.Concatenation | backend/app/utils/normalizer.py:6-17 | normalising a concatenation is the concatenation of the normalised parts, so no element is dropped, added or reordered |
| Normalizer.StringsUnchanged | backend/app/utils/normalizer.py:8-9 | a list of strings comes back equal |
| Normalizer.Idempotent | backend/app/utils/normalizer.py:8-16 | when every `description` value is a string, the output is all strings and normalising it again changes nothing |
| Normalizer.StringExplodes | backend/app/utils/normalizer.py:7-9 | a string is iterated character by character, giving one-character strings |
| Normalizer.DictKeys | backend/app/utils/normalizer.py:7-16 | a dict given to `normalize_list` comes back as the list of its keys, each exactly once |
| Refiner.PromptLayout | backend/app/trm/refiner.py:12-18 | the user prompt is the checklist heading, the printed checklist, the output heading, the draft verbatim and a final newline, in that order |
| Refiner.DraftRecoverable | backend/app/trm/refiner.py:12-18 | different drafts give different prompts, so the draft is embedded whole |
| Refiner.RefineWithTrm | backend/app/trm/refiner.py:4-22 | exactly one client call, with the validator instructions, that prompt and temperature 0.1; its answer is returned unchanged |
| Stages.NormalizeField | backend/app/agents/master.py:47 | `d[key] = normalize_list(d.get(key, []))` computes `NormalizedField` |
| Stages.FieldsEffect | backend/app/agents/master.py:47-50 | normalising distinct keys one after another succeeds exactly when every prior value can be iterated (TypeError otherwise); then each key holds its normalised prior value (`[]` when absent), the keys are the old ones plus the named ones, and every other key keeps its value |
| Stages.FieldsByKey | backend/app/agents/patent.py:52-55 | the same, with the keys named by membership |
| Stages.Draft | backend/app/agents/clinical.py:36-48 | one generation call with the stage's instructions, input and temperature; when it returns text, exactly one refine call on that text; extraction runs on the refined text only, and the first error propagates |
| Master.PlanEffect | backend/app/agents/master.py:44-52 | `objectives`, `assumptions`, `constraints` and `required_sources` hold their normalised prior value and every other key keeps its value; a plan that is not a dict raises AttributeError, a field that cannot be iterated raises TypeError |
| Master.NormalizePlan | backend/app/agents/master.py:47-50 | the four statements compute `PlanNormalized` |
| Master.MasterPlan | backend/app/agents/master.py:8-52 | the planner call at temperature 0.3 on "Query: " + query, one refine with the plan checklist, extraction of the refined text, then the plan normalisation; the first error is the result |
| Master.ScoreEffect | backend/app/agents/master.py:111-118 | `ScoreCoerced`: a missing score or `value` raises KeyError, a score that is not a dict raises TypeError, an `int()` failure raises its error, a rationale that cannot be iterated raises TypeError; otherwise the score holds `int(value)` and the normalised rationale, and nothing else changes |
| Master.SynthesisEffect | backend/app/agents/master.py:95-109 | the five list fields hold their normalised prior value, every key but the score keeps its value, and a synthesis that is not a dict raises AttributeError |
| Master.ScoreOnly | backend/app/agents/master.py:111-118 | the score statements touch no key but the score |
| Master.QuotedScore | backend/app/agents/master.py:111-114 | a score written as a quoted decimal ends up as that integer |
| Master.NormalizeSynthesis | backend/app/agents/master.py:95-118 | the statements compute `SynthesisNormalized` |
| Master.CoerceScore | backend/app/agents/master.py:111-118 | the score statements compute `ScoreCoerced` |
| Master.MasterSynthesis | backend/app/agents/master.py:55-120 | the synthesis call at temperature 0.25 on the dump of plan, clinical and patent; when its text cannot be extracted, exactly one more call with the strict instructions at 0.1 and no other call; no refine; the result is the normalisation of the last extracted value, or the first error |
| Clinical.EachEffect | backend/app/agents/clinical.py:56-57 | `EachNormalized`, the evidence loop: the evidence loop succeeds exactly when every item can be updated; then it keeps length and order and updates each item; otherwise its error is that of the first item that fails |
| Clinical.EvidenceEffect | backend/app/agents/clinical.py:57 | an item's `limitations` holds its normalised prior value and its other keys are unchanged; an item that is not a dict raises AttributeError |
| Clinical.ReportEffect | backend/app/agents/clinical.py:48-59 | the stage succeeds exactly when `confidence_notes` normalises, iterating `evidence` succeeds and every visited item can be updated, and otherwise raises the error of the first of these to fail; `confidence_notes` holds its normalised prior value, an `evidence` list keeps its length and order with each item updated, and every other key keeps its value |
| Clinical.EvidenceFailures | backend/app/agents/clinical.py:56-57 | an `evidence` that is None or a number raises TypeError; a non-empty string, or a list with an item that is not a dict, raises AttributeError |
| Clinical.EvidenceDict | backend/app/agents/clinical.py:56-57 | an `evidence` dict is iterated over its keys: an empty one leaves the report as it is after `confidence_notes`, any other raises AttributeError on `str.get` |
| Clinical.NormalizeReport | backend/app/agents/clinical.py:50-59 | the statements and the in-place loop compute `ReportNormalized` |
| Clinical.EachFailsFrom | backend/app/agents/clinical.py:56-57 | once the loop fails on an item, it ends with that error |
| Clinical.RunClinicalAgent | backend/app/agents/clinical.py:8-59 | the clinical call at temperature 0.2 on the plan's dump, one refine with the clinical checklist, extraction of the refined text with no fallback, then the report normalisation |
| Patent.FtoEffect | backend/app/agents/patent.py:57-60 | `FtoFixed`: the unwrapping keeps every key and changes only `freedom_to_operate` |
| Patent.ReportEffect | backend/app/agents/patent.py:49-62 | `risks` and `whitespace_opportunities` hold their normalised prior value; `freedom_to_operate` is replaced by its `status` exactly when it is a dict holding one, and otherwise keeps its value or stays absent; every other key keeps its value |
| Patent.RunPatentAgent | backend/app/agents/patent.py:8-62 | the patent call at temperature 0.2 on the plan's dump, one refine with the patent checklist, extraction of the refined text with no fallback, then the report normalisation |
| Orchestrator.RunAnalysis | backend/app/core/orchestrator.py:6-19 | the stages run in the order plan, clinical, patent, synthesis; clinical and patent each receive the plan, and synthesis receives the three outputs; the result has exactly the keys `master`, `clinical`, `patent` and `synthesis` bound to them; the first stage that fails ends the run with its error and no later stage is called |
| Orchestrator.Completed | backend/app/core/orchestrator.py:14-19 | a completed run returns the four outputs under their four keys |
| Orchestrator.StagesCompose | backend/app/core/orchestrator.py:7-12 | the calls of the four stages, one after another, form the log of a completed run |

## Left out

- The network, the environment, the clock and logging are not modelled as such. `requests.post` and its timeout become the scripted outcomes in `Net`. `os.getenv` becomes the `Config` value. `time.sleep` becomes the `delays` log. `time.time` and every `print` are dropped.
- The wording of the role instructions is a `Stages.Prompts` parameter, not the literal prompt text. The model does not decide whether a checklist is satisfied, since nothing in the code checks it.
- The refiner's system prompt is also a parameter (`validator`). The checklists, the headings of the refine prompt, "Query: " and the strict suffix are spelled out.
- `json.loads`, `json.dumps` (with `ensure_ascii=False`), `str()` and `res.json()` are abstract. A body that `res.json()` rejects is its own outcome.
- Python dicts are maps, and insertion order is not modelled.
- PyJson.IterItems: iterating a dict yields `lib.keyOrder(m)`, and `Lib` itself does not constrain it, so for an arbitrary `Lib` it may repeat, omit or add keys. `PyJson.ValidLib` states Python's guarantee that each key comes exactly once. `PyJson.DictIteration`, `Normalizer.DictKeys` and `Clinical.EvidenceDict` assume it. Every other lemma holds for any key order.
- Temperatures are tags (0.1, 0.2, 0.25, 0.3), and the float and int conversions of the payload are not modelled.
- PyJson.IntOf: floats are exact reals, not IEEE doubles. Python's `json.loads` accepts `NaN`, `Infinity` and literals such as `1e400` that overflow to infinity, and `int()` of such a score raises ValueError or OverflowError. The model has no such values, so it cannot produce them and never raises those errors.
- PyJson.IntOf: for strings it accepts ASCII digits with single underscores and surrounding whitespace. Non-ASCII digits are not accepted.
- GeminiClient.CallGemini: a None system or user prompt (`or ""`) is not modelled, because prompts are strings.
- The `async` stages run strictly in sequence, as the code awaits them. No concurrency is modelled.
- The HTTP routing, PDF rendering, pydantic schemas, the frontend and the stub local-model client are not part of this model.
- Normalizer.NormalizeList: the input is a value, so not mutating it holds trivially and is not stated.
- Clinical.NormalizeReport: evidence items are updated in a copy that is stored back under `evidence` when that key holds a list. Aliasing between items is not modelled, because values returned by `json.loads` share no objects.
