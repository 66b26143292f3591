# Lucky By Birthday, modelled in Dafny

Lucky By Birthday turns a birth date, and optionally a birth time, into six "lucky"
lottery numbers and a bonus number. The numbers come from a deterministic linear
congruential generator seeded from the date. Two HTTP handlers for `/api/fortune` build a
Korean prompt from the same fields and forward it to a language-model service. One is the
development-server middleware in `vite.config.ts`; the other is the Cloudflare Pages
function in `functions/api/fortune.ts`. Both then collect the answer's text into a JSON
reply.

The Dafny modules:

- `JsValues` (`js_values.dfy`) covers the JavaScript values a request body carries.
  - Truthiness and template-literal text.
  - `parseInt` on digit strings.
  - `indexOf` for one character.
- `Lotto` (`lotto.dfy`) is the number generator.
  - The step function and the candidates.
  - The insertion-ordered set as a sequence with `Add`.
  - The proof that the first seven candidates always differ: modulo 45 the generator is
    `r -> (31 r + 22) mod 45`, and no power of it below the seventh has a fixed point.
  - That proof means the loop `while (generated.size < 7)` runs exactly seven times for every
    non-negative integer seed (see Left out for the limits of JavaScript's number arithmetic).
  - The loop itself as the method `DrawLotto`.
  - The ascending sort and the colour bands.
- `LottoApp` (`lotto_app.dfy`) holds the seed formula and the component state as the class
  `App`, with the actions `Enter`, `GenerateLottoNumbers` and `Reset`.
- `DevVars` (`dev_vars.dfy`) is the `.dev.vars` reader: `trim`, `split('\n')`, the per-line
  rule, and the loop `LoadDevVars` that fills the record.
- `FortuneCommon` (`fortune_common.dfy`) holds what both handlers share.
  - The prompt `birthInfo`.
  - The answer envelope and the nested loop that extracts the text (`ExtractOutputText`).
  - The datatypes for request bodies, upstream answers and replies.
- `ViteFortune` (`vite_middleware.dfy`) is the development-server middleware, written as a
  function from its inputs to its outcome.
- `PagesFortune` (`pages_function.dfy`) is `onRequestPost`, as written and corrected (see
  Findings).

I/O is replaced by parameters:
- reading `.dev.vars` gives `Option<string>`;
- the parsed body is a `RequestBody`;
- the environment key is an `Option<string>`;
- the model service's answer is an `Upstream`.

A handler's `Outcome` records its reply and the upstream request it sent, if any.

Behaviours of the code worth noting:
- The development server puts CORS headers only on its OPTIONS reply (`vite.config.ts:33`).
  Every other reply carries only `Content-Type`.
- The Pages function answers OPTIONS with status 200, the default of `new Response(null, { headers })`, not 204.
- In the development server, a body that is not JSON, or is `null`, gets 500, not 400. The exception is caught by the surrounding `try`.

## Model

| member | source | states |
|---|---|---|
| Lotto.Step | src/App.tsx:28 | for the non-negative states the app produces, every generator state lies in [0, 233280) |
| Lotto.Candidate | src/App.tsx:29 | every candidate lies in [1, 45] |
| Lotto.Add | src/App.tsx:30 | `Set.add` on an insertion-ordered set: the members are the old ones plus the new value, the old order is kept as a prefix, the size grows by at most one, and distinctness is preserved |
| Lotto.Generated | src/App.tsx:24-31 | after k iterations the set holds distinct values in [1, 45], at most k of them |
| Lotto.StepModPool | src/App.tsx:28-29 | reduced modulo 45, a generator step is the residue step r -> (31 r + 22) mod 45 |
| Lotto.NoShortCycle | src/App.tsx:27-31 | the residue generator returns to no residue within six steps |
| Lotto.CandidatesDistinct | src/App.tsx:27-31 | any two of the first seven candidates differ, whatever the non-negative seed (the model's `%` is JavaScript's only there) |
| Lotto.GeneratedAreFirstCandidates | src/App.tsx:27-31 | no candidate is dropped in the first seven iterations, so the set after n <= 7 iterations is exactly the first n candidates |
| Lotto.GeneratedStep | src/App.tsx:27-31 | each iteration advances the state by one step and adds exactly one new value, so the loop ends exactly when the set reaches seven values |
| Lotto.Arrivals | src/App.tsx:33 | `Array.from(generated)` is seven distinct values, the i-th being the i-th candidate |
| Lotto.InsertAscending | src/App.tsx:34 | inserting into an ascending sequence keeps it ascending and adds exactly that element |
| Lotto.SortAscending | src/App.tsx:34 | the sort with comparator `a - b` yields an ascending permutation of its input |
| Lotto.DrawIsValid | src/App.tsx:33-35 | for a non-negative seed, the main numbers are six strictly ascending values in [1, 45] that are exactly the first six arrivals; the bonus is the seventh arrival, in [1, 45] and not among them |
| Lotto.DrawLotto | src/App.tsx:24-35 | the loop and split compute the specified main numbers and bonus, and these form a valid draw |
| Lotto.DrawOfNewYear1990 | src/App.tsx:24-35 | for the seed 19900101 the arrivals are 44, 6, 43, 20, 27, 19, 41, the main numbers 6, 19, 20, 27, 43, 44 and the bonus 41 |
| Lotto.GetBallColor | src/App.tsx:53-59 | each number gets exactly one band: up to 10 yellow, 11-20 blue, 21-30 red, 31-40 gray, above 40 green |
| LottoApp.SeedOfTypedNumbers | src/App.tsx:17-22 | the seed is year*10000 + month*100 + day + hour*60 + minute, an empty hour or minute counting as 0 |
| LottoApp.EmptyTimeCountsAsZero | src/App.tsx:21-22 | leaving the hour or minute empty gives the same seed as entering 0 |
| LottoApp.TimeCanMatchAnotherDate | src/App.tsx:17-22 | 1 February 1990 01:00 and 1 January 1990 02:40 give the same seed, 19900261 |
| LottoApp.NewYear1990 | src/App.tsx:14-39 | entering 1990, 1, 1 without a time gives the seed 19900101 and the numbers 6, 19, 20, 27, 43, 44 with bonus 41 |
| LottoApp.App.constructor | src/App.tsx:5-12 | the initial state: empty fields, no numbers, no bonus, form view |
| LottoApp.App.Enter | src/App.tsx:77-140 | typing into one input changes that field only and keeps the form view |
| LottoApp.App.GenerateLottoNumbers | src/App.tsx:14-40 | without year, month and day nothing changes; otherwise the result view shows the draw for the seed of the entered fields, which is a valid draw; the fields never change |
| LottoApp.App.Reset | src/App.tsx:42-51 | every field returns to its initial value |
| DevVars.TrimStartDropsLeadingWhitespace | vite.config.ts:12 | trimming the front drops exactly the leading ECMAScript whitespace |
| DevVars.TrimEndDropsTrailingWhitespace | vite.config.ts:12 | trimming the end drops exactly the trailing ECMAScript whitespace |
| DevVars.TrimDropsSurroundingWhitespace | vite.config.ts:12 | `trim` leaves no whitespace at either end, and the input is the result with whitespace before and after |
| DevVars.TrimOfSurrounded | vite.config.ts:12 | a trimmed string with whitespace around it trims to itself |
| DevVars.TrimIdempotent | vite.config.ts:12 | trimming twice is trimming once |
| JsValues.IndexOfIsFirst | vite.config.ts:14 | `indexOf` gives -1 exactly when the character is absent, and otherwise its first position |
| DevVars.LinesJoinBack | vite.config.ts:11 | `split('\n')` gives lines without line feeds that join back into the content |
| DevVars.Lines | vite.config.ts:11 | `split('\n')` always yields at least one line, even for empty content |
| DevVars.SplitOfJoinLines | vite.config.ts:11 | splitting lines that were joined with line feeds gives the same lines |
| DevVars.ParseLineMeaning | vite.config.ts:12-17 | a line adds nothing exactly when, once trimmed, it is blank, a `#` comment, has no `=` or starts with `=`; otherwise the key is the text before the first `=` and the value everything after it |
| DevVars.ParseLineOfAssignment | vite.config.ts:12-17 | conversely, `KEY=VALUE` with surrounding whitespace defines exactly that key and value |
| DevVars.SpacesAroundEqualsAreKept | vite.config.ts:16 | `KEY = v` defines the key `"KEY "` with the value `" v"` |
| DevVars.LoadDevVars | vite.config.ts:7-23 | the loop computes the record the lines define, and an unreadable file gives the empty record |
| DevVars.VarsOfKeys | vite.config.ts:11-18 | a key is in the record exactly when some line defines it |
| DevVars.LastDefinitionWins | vite.config.ts:16 | the last line defining a key decides its value |
| DevVars.IgnoredLineHasNoEffect | vite.config.ts:13-15 | a line that defines nothing can be removed from anywhere without changing the record |
| JsValues.TemplateText | vite.config.ts:55 | template interpolation renders a string as itself; a non-negative integer as digits that read back as its value, with no leading zero except for 0 itself; a negative one as a minus followed by such digits for its magnitude (JavaScript's rendering for integers below 2^53 in magnitude) |
| JsValues.CanonicalNumeral | vite.config.ts:55 | digits without a leading zero are exactly the decimal text of their value, so the rendering of an integer is unique |
| JsValues.TemplateTextEmpty | vite.config.ts:109 | only the empty string renders as nothing |
| FortuneCommon.BirthInfoText | vite.config.ts:55 | the prompt is the date text `나는 {year}년 {month}월 {day}일`, then ` {hour}시` exactly when the hour is truthy, then ` {minute}분` exactly when the minute is truthy, then ` 생이다`, with each piece at its position and nothing else in between (the deployed handler builds the same prompt, functions/api/fortune.ts line 51) |
| FortuneCommon.BirthInfoTimeClauses | vite.config.ts:55 | for fields whose text holds neither 시 nor 분, the character 시 occurs in the prompt iff the hour is truthy and 분 iff the minute is truthy; the first 시 stands right after the date and the hour text, before the first 분 |
| FortuneCommon.ExtractOutputText | vite.config.ts:96-107 | the nested loop yields the in-order text of the `output_text` blocks of the `message` items (the same loop stands at functions/api/fortune.ts lines 97-108) |
| FortuneCommon.AppendItemText | vite.config.ts:99-105 | the inner loop appends one item's text |
| FortuneCommon.BlocksTextAppend | vite.config.ts:100-104 | the text of concatenated block lists is the concatenation of their texts |
| FortuneCommon.ItemsTextAppend | vite.config.ts:98-106 | the text of concatenated item lists is the concatenation of their texts |
| FortuneCommon.OtherItemsAddNothing | vite.config.ts:99 | an item that is not a message with content contributes nothing, wherever it stands |
| FortuneCommon.OutputTextEmpty | vite.config.ts:96-109 | the text is empty exactly when there is no output, or no message holds an `output_text` block with non-empty text |
| ViteFortune.ResolveApiKey | vite.config.ts:57 | a key is found exactly when the environment or `.dev.vars` holds a non-empty one; a non-empty environment value wins, and otherwise the key is the `.dev.vars` value |
| ViteFortune.HandleFortune | vite.config.ts:31-122 | the middleware always replies, with one of 200, 204, 400, 405, 500, 502; only the 200 reply carries content and only the 204 reply has no body |
| ViteFortune.DevVarsSupplyKey | vite.config.ts:57 | without the environment variable, the last `OPENAI_API_KEY=` line of `.dev.vars` supplies the key |
| ViteFortune.RequestSentOnlyWhenReady | vite.config.ts:47-85 | the model service is called exactly for a POST with a date and a key, with that key and the prompt |
| ViteFortune.EarlyStatuses | vite.config.ts:32-53 | 204 iff OPTIONS, 405 iff another method than POST, 400 iff a POST body lacks the date, which is checked before the key; only the 204 reply has CORS headers; the 405 reply says "Method not allowed" and the 400 reply "생년월일은 필수입니다." |
| ViteFortune.ServerErrorStatus | vite.config.ts:47-121 | 500 iff the body is not usable JSON, the key is missing, `fetch` throws, or the answer is not JSON; the missing-key message (pointing at `.dev.vars`) is given exactly for a dated POST without a key, and every other 500 says "서버 오류가 발생했습니다." |
| ViteFortune.UpstreamStatuses | vite.config.ts:87-116 | 502 iff the service fails or answers without text, with "AI 서비스에 문제가 발생했습니다." exactly for the failed status and "AI 응답을 받지 못했습니다." exactly for the missing text; 200 with the text otherwise |
| ViteFortune.ErrorTextNotForwarded | vite.config.ts:87-92 | the upstream error text never reaches the reply |
| PagesFortune.OnRequestPost | functions/api/fortune.ts:13-127 | every reply the handler builds carries the CORS headers and has status 200, 400, 500 or 502 |
| PagesFortune.OnRequestPostCorrected | functions/api/fortune.ts:32-49 | with the `null` body rejected like an unparsable one, the handler always replies, with the CORS headers |
| PagesFortune.RequestSentOnlyWhenReady | functions/api/fortune.ts:20-83 | the model service is called exactly for a non-OPTIONS request with a key and a body with a date, with that key and the prompt |
| PagesFortune.StatusMeaning | functions/api/fortune.ts:20-126 | 200 iff OPTIONS or text came back; 400 iff key present and the body is not JSON or lacks the date; 500 iff the key is missing (checked first) or `fetch`/`json()` throws; 502 iff the service fails or answers without text; each error condition has its own message: "잘못된 요청입니다." for a body that is not JSON, "생년월일은 필수입니다." for a missing date, the `OPENAI_API_KEY` message for a missing key, "서버 오류가 발생했습니다." when `fetch`/`json()` throws, the retry message for a failed status and "AI 응답을 받지 못했습니다." for a missing text |
| PagesFortune.NullBodyEscapesCors | functions/api/fortune.ts:32-44 | every reply carries the CORS headers, but a JSON `null` body throws out of the handler |
| PagesFortune.CorrectedAlwaysRepliesWithCors | functions/api/fortune.ts:14-49 | corrected, the handler always replies with CORS headers, and 400 "잘못된 요청입니다." is given exactly for unusable bodies |
| PagesFortune.ErrorTextNotForwarded | functions/api/fortune.ts:85-92 | the upstream error text never reaches the reply |
| PagesFortune.SameStatusesAsDevServer | functions/api/fortune.ts:53-119 | for a POST with a date and a key, both handlers send the same request and give the same status |

## Left out

- Lotto.Step: `Step`, `Candidate`, `CandidatesDistinct`, `DrawIsValid` and the other generator lemmas are stated for every Dafny integer, but they describe JavaScript only for non-negative seeds. For a negative seed Dafny's Euclidean `%` differs from JavaScript's truncating `%`: the seed -9899 (year `-1`) gives the JavaScript state -108982 and the candidate -36.
- DrawLotto: requires a non-negative seed. A field typed as `-5` would give a negative seed, and JavaScript's `%` truncates toward zero where Dafny's is Euclidean.
- LottoApp.App.GenerateLottoNumbers: the seed and the generator are computed on unbounded integers, so the model agrees with JavaScript's double arithmetic only while `seed * 9301 + 49297` stays below 2^53 (a year field up to about 96841191). Beyond that JavaScript rounds the product and draws other numbers. For fields so long that `parseInt` or the product overflows to `Infinity`, the state becomes `NaN` and `while (generated.size < 7)` never ends. The model promises a draw for every digit string and so does not capture either effect.
- LottoApp.App.Enter: accepts only text that is empty or all digits. `parseInt` on other number-input text (a sign, a decimal point, an exponent) is not modelled, and neither is `NaN`.
- HTML `min`/`max` hints, JSX rendering (including the date line and the ball markup), CSS, and the asynchrony of React state updates are not modelled. Setters are direct assignments.
- Strings are sequences of code points. JavaScript's `trim`, `indexOf` and `split` work on UTF-16 code units, which differ only for characters outside the Basic Multilingual Plane.
- A `.dev.vars` key `__proto__` is not modelled; the JavaScript object record treats it specially.
- `readFileSync`, `JSON.parse`, `request.json()`, `fetch`, `response.json()`, `console.error` and the platform's routing are parameters or left out. Cloudflare Pages only calls `onRequestPost` for POST, so its OPTIONS branch is modelled as written, with the method as a parameter.
- `apiRes.text()` throwing on a failed upstream status is not modelled. Both handlers would answer 500 from their `catch`.
- The upstream request is modelled as its key and prompt only. The stored prompt id, `store`, `include` and the headers are left out.
- The answer envelope: `output` and `content` are arrays or absent. Other JSON values there are left out, and so are objects or arrays as `text`. A `null` answer, or a `null` element of `output` or `content`, is not representable either. In both handlers reading `data.output`, `item.type` or `content.type` on it throws, and the reply is the generic 500.
- JsValues.TemplateText: numbers are unbounded integers. This is exact only for integers below 2^53 in magnitude. Beyond that, JavaScript's doubles round the parsed value (`12345678901234567891` renders as `12345678901234567000`), and from 10^21 on `${}` writes exponent form (`1e+21`). `Infinity` (from `1e400`) and fractional numbers are not modelled.
- Request bodies hold only the five date properties, as strings, integers, booleans, `null` or absent. Fractional numbers, objects and arrays in those properties are not modelled.
- The development server's body streaming (`data`/`end` events) is left out. The whole body is one parsed value.

## Findings

| source | as written | input that shows it | evidently intended | confidence | as-written member | corrected member |
|---|---|---|---|---|---|---|
| functions/api/fortune.ts:42 | the body is destructured outside any `try`, so a body that parses to `null` throws out of the handler and the platform's error reply lacks the CORS headers | a POST with a key configured and the body `null` | a 400 "잘못된 요청입니다." reply with CORS headers, like any other body that is not a request | medium, not executed | PagesFortune.NullBodyEscapesCors | PagesFortune.CorrectedAlwaysRepliesWithCors |
