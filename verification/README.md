# G6PD substance safety checker — a Dafny model

The application lets a person with G6PD deficiency type the name of a food,
medicine or product and get a verdict (`safe`, `unsafe` or `caution`) from a
language model. This project models the logic of that path:

* the serverless handler `api/check-safety.js` — method routing, the input
  guard, the prompt template, one call to the completion service, the
  code-fence cleaner `text.replace(/```json|```/g, '').trim()`, `JSON.parse`,
  and the success or fixed "caution" fallback response;
* the pure parts of `src/App.jsx` — `handleCheck` with its guard and client
  fallback, the classification of a result for display, `handleSubscribe`,
  `handleSubmitMessage`, and the filter-and-sort of `loadMessages`;
* the two together: the checker page posting to the handler.

Modules, one per concern:

| file | module | what it holds |
|---|---|---|
| `wrappers.dfy` | `Wrappers` | `Option`, for `undefined` and failed foreign calls |
| `http.dfy` | `Http` | the `response.ok` status test both sides use |
| `text.dfy` | `Text` | ECMAScript whitespace, `trim`, infix search |
| `decimal.dfy` | `Decimal` | decimal rendering of integers and its inverse |
| `json.dfy` | `Json` | JSON values, truthiness, property access, `${v}` conversion |
| `fences.dfy` | `Fences` | the fence-removing replace and the cleaner |
| `check_safety.dfy` | `CheckSafety` | the handler, prompt, fallback |
| `checker.dfy` | `Checker` | `handleCheck` and the display classification |
| `newsletter.dfy` | `Newsletter` | `handleSubscribe` |
| `community.dfy` | `Community` | posting and loading board messages |
| `end_to_end.dfy` | `EndToEnd` | the checker page answered by the handler |

The remote completion call, `response.json()`, `JSON.parse` and the key-value
store are foreign code: they appear as function or value parameters (oracles),
so every property holds for every behaviour of them. The handler returns an
`Exchange` recording the response, the completion request it sent (if any)
and the text it gave to `JSON.parse` (if any), so "no remote call is made" is
stated as `call == None`.

The server does not trim its input: a blank but non-empty string is sent to
the model (`CheckSafety.BlankInputReachesModel`). It does not check the parsed
reply against the five-field schema or the value sets of `safety` and
`severity` (`CheckSafety.NoSchemaValidation`). It has no timeout and no retry.
The blank-input check exists only on the client (`Checker.HandleCheck`).

The input is written into the prompt with a template literal, inside the
`try`. An object input with its own `toString` member (or an array holding
one) makes that conversion throw, so the handler answers with the 500
fallback and sends nothing (`CheckSafety.UnprintableInputFallsBack`).

## Model

| member | source | states |
|---|---|---|
| `Text.Trim` | api/check-safety.js:55 | `trim` yields an infix of its input that is empty or starts and ends with non-whitespace, and only whitespace is cut on either side |
| `Text.TrimUnique` | api/check-safety.js:55 | any trimmed text surrounded by whitespace trims back to exactly itself, which pins down `trim` completely |
| `Text.TrimIdempotent` | api/check-safety.js:55 | trimming twice is trimming once |
| `Text.TrimIgnoresPadding` | api/check-safety.js:55 | whitespace added on either side does not change the trimmed text |
| `Text.TrimEmptyIffBlank` | src/App.jsx:84 | trimming gives the empty string exactly when every character of the input is whitespace |
| `Fences.HasFenceIffContains` | api/check-safety.js:55 | the character-wise fence test is exactly "the text contains ```" |
| `Fences.StripFencesLeavesNoFence` | api/check-safety.js:55 | after the global replace no triple backtick remains, not even one a removal brings together |
| `Fences.StripFencesIdentity` | api/check-safety.js:55 | text without a triple backtick passes the replace unchanged |
| `Fences.StripFencesKeepsPrefix` | api/check-safety.js:55 | a fence-free prefix not ending in a backtick is kept as is and the replace continues after it |
| `Fences.Clean` | api/check-safety.js:55 | the cleaned text has no triple backtick and no surrounding whitespace |
| `Fences.CleanIdempotent` | api/check-safety.js:55 | cleaning cleaned text changes nothing |
| `Fences.CleanUnwrapsFence` | api/check-safety.js:55 | a payload wrapped as a ```json block cleans to the same text as the bare payload, which is the payload trimmed |
| `Decimal.NatToDecimal` | src/App.jsx:57 | `Date.now().toString()` is a non-empty string of digits without a leading zero |
| `Decimal.DecimalRoundTrip` | src/App.jsx:57 | reading the decimal text back gives the number |
| `Decimal.NatToDecimalInjective` | src/App.jsx:57 | different times give different ids |
| `Decimal.IntToDecimalInjective` | api/check-safety.js:33 | different numeric inputs render differently in the prompt |
| `Json.Lookup` | src/App.jsx:237 | property access finds a member exactly when one has the key, and then the last such member |
| `Json.VerdictFields` | api/check-safety.js:61-67 | each of the five fields of a verdict object reads back as the value it was built with |
| `Json.ToJsString` | api/check-safety.js:33 | the template conversion fails exactly for an unprintable value (an object with a `toString` member, or an array holding one at any depth); a string is placed as it is, any other object as "[object Object]" |
| `CheckSafety.Prompt` | api/check-safety.js:33-44 | the prompt is the fixed head, the input verbatim between double quotes, and the fixed instructions |
| `CheckSafety.PromptRoundTrip` | api/check-safety.js:33-44 | the input is recoverable from the prompt whatever it contains, so nothing is escaped or dropped |
| `CheckSafety.PromptInjective` | api/check-safety.js:33 | different inputs give different prompts |
| `CheckSafety.Respond` | api/check-safety.js:49-67 | text is given to `JSON.parse` exactly when the fetch answered with a 2xx status and a readable envelope, and it is then the cleaned reply text (fence-free, trimmed); the outcome is 200 with exactly the parsed value when that text parses, and otherwise the 500 fallback |
| `CheckSafety.Handle` | api/check-safety.js:6-67 | a completion request is sent exactly for a POST with a truthy input that converts to text, and it carries the prompt for that text; parsing happens only after a request; a 500 always carries the fallback for the input |
| `CheckSafety.OptionsShortCircuits` | api/check-safety.js:6-8 | OPTIONS gets 200 with no body, no call and no parse, whatever the input |
| `CheckSafety.OtherMethodsRefused` | api/check-safety.js:10-12 | every method but POST and OPTIONS gets 405 "Method not allowed" and no call |
| `CheckSafety.FalsyInputRefused` | api/check-safety.js:14-18 | a missing or falsy input gets 400 "Input is required" and no call |
| `CheckSafety.BlankInputReachesModel` | api/check-safety.js:16-18 | every blank non-empty string is truthy and is sent to the model as it is |
| `CheckSafety.UnprintableInputFallsBack` | api/check-safety.js:20-33 | an input whose conversion to text throws gets the 500 fallback, with no request sent and nothing parsed |
| `CheckSafety.FailuresFallBack` | api/check-safety.js:20-67 | an unprintable input, a rejected fetch, a non-2xx status, an unreadable envelope or unparsable text all give 500 with the fixed caution verdict naming the input |
| `CheckSafety.FallbackIsCaution` | api/check-safety.js:61-67 | the fallback's `safety` is "caution" (never "safe"), its `item` the input, its `reason` the fixed message, its `severity` "medium" |
| `CheckSafety.ParsedReplyPassedThrough` | api/check-safety.js:53-58 | for a printable input, any value JSON.parse returns is sent with 200 unchanged |
| `CheckSafety.NoSchemaValidation` | api/check-safety.js:56-58 | for any reply text and any parser, a parsed value whose `safety` is none of "safe", "unsafe", "caution" is returned with 200 as it is |
| `CheckSafety.FencedReplyAnsweredAlike` | api/check-safety.js:54-58 | a reply wrapped in a ```json block gets the same response as the bare reply, for every parser |
| `Checker.HandleCheck` | src/App.jsx:83-118 | a blank input is ignored; otherwise the untrimmed input is posted, the result is cleared while loading, and the check ends not loading with either the client fallback or the body of a 2xx reply |
| `Checker.FailedCheckShowsClientFallback` | src/App.jsx:100-114 | a failed fetch, a non-2xx status or an unreadable body show the client fallback with the untrimmed input |
| `Checker.OkCheckShowsBody` | src/App.jsx:104-105 | a 2xx reply's body is shown as it is |
| `Checker.Display` | src/App.jsx:235-258 | no verdict box is drawn exactly when the result is falsy |
| `Checker.DisplayCautionByDefault` | src/App.jsx:237-258 | every drawn result gets a style: safe exactly for "safe", unsafe exactly for "unsafe", caution for everything else |
| `Checker.ClientFallbackDrawnAsCaution` | src/App.jsx:108-114 | the client fallback is drawn as caution |
| `Newsletter.AcceptsEmailIffAt` | src/App.jsx:74 | `email && email.includes('@')` holds exactly when the address has an '@' |
| `Newsletter.Subscribe` | src/App.jsx:73-81 | subscribes exactly for an address with an '@', and otherwise changes nothing |
| `Community.KeysDistinct` | src/App.jsx:56-63 | messages whose ids were read from the clock at different times are stored under different keys, whatever their timestamps |
| `Community.SubmitMessage` | src/App.jsx:51-71 | a blank name or message is ignored; otherwise the message (untrimmed, its id the decimal text of the first clock reading, its timestamp the second reading) is written under `message:<id>`, and on success it is put first, the older messages keep their order and the form is emptied; on failure only `submitting` changes |
| `Community.Present` | src/App.jsx:32-40 | the loaded list holds each non-null entry as often as it was read, and nothing else |
| `Community.PresentConcat` | src/App.jsx:32-40 | the entries read in two parts give the messages of the first part followed by those of the second, so the read order is kept |
| `Community.PresentSingle` | src/App.jsx:32-40 | a single read entry gives its message, or nothing when the read failed |
| `Community.Insert` | src/App.jsx:41 | inserting adds one message and keeps a newest-first list newest first |
| `Community.SortNewestFirst` | src/App.jsx:41 | the sorted list is a permutation of its input with timestamps never increasing |
| `Community.SortStable` | src/App.jsx:41 | messages with equal timestamps keep their loaded order |
| `Community.LoadMessages` | src/App.jsx:27-49 | a failed listing empties the list, a listing without keys leaves it, and a listing replaces it by its present entries newest first, messages with equal timestamps in read order |
| `EndToEnd.ServerFallbackNeverShown` | src/App.jsx:100-114 | when the handler falls back (status 500), the user sees the client fallback, drawn as caution |
| `EndToEnd.FallbacksDiffer` | src/App.jsx:108-114 | the client fallback differs from the server fallback, so the server's reason is never shown |
| `EndToEnd.ParsedReplyShown` | src/App.jsx:104-105 | when the cleaned reply parses, the page's result is set to exactly the parsed value |

## Left out

- The outbound request's URL, headers, API key and the CORS headers are not modelled; the request is reduced to model name, token limit, API version and prompt.
- The remote call, `response.json()` and `JSON.parse` are oracles: their internals, and the serialisation of bodies by `res.json` and `JSON.stringify`, are taken as exact round trips.
- A request without a body (the destructuring of `req.body` outside the `try`) is not modelled; `input` is the body's field or `undefined`.
- `console.error`/`console.log` logging and `alert` are left out: they do not affect state.
- Text: JavaScript strings are sequences of UTF-16 code units and may hold lone surrogates; the model's strings are sequences of Unicode scalar values, so lone surrogates and the code-unit length of astral characters are not modelled.
- Json: numbers are integers; fractions, exponent notation, `-0` and `NaN` are not modelled, so `Decimal.IntToDecimal` covers only the integral `toString` form.
- Checker.HandleCheck: the asynchronous interleaving of React state updates (for example the text field edited while the request is in flight) is not modelled; the run sees one state before and one after.
- Checker.Display: only the choice among the three styles is modelled, not the CSS classes, icons or label texts; a falsy result that React renders as text (the number `0`) is treated as drawing nothing. A truthy result whose `item`, `reason` or an alternative is an object, or whose `alternatives` is a non-array with a positive `length`, makes the render throw and draws nothing; this is not modelled.
- Newsletter.Subscribe: the `setTimeout` that resets `subscribed` and `email` after three seconds is a timer and is not modelled.
- EndToEnd.ParsedReplyShown: states what the result is set to, not what is drawn; a parsed reply whose `item`, `reason` or an alternative is an object, or whose `alternatives` is a non-array with a positive `length`, makes the render throw, so nothing is shown for it.
- Community.SubmitMessage: the two `Date.now()` readings are parameters with no assumed order, since the clock may be adjusted between them; the intermediate `submitting == true` state is not modelled.
- Community.LoadMessages: the per-key reads and `Promise.all` are reduced to the sequence of read results; stored values are taken to be well-formed messages with integral timestamps, so a comparator returning `NaN` is not modelled.
- The JSX markup, the static tabs, icons and the `knownTriggers`/`tabs` tables are presentation only.
- Timeouts, retries and schema or enumeration checks are absent from the code and are not modelled.
