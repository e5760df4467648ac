# CalorieM analysis core, modelled in Dafny

CalorieM (칼로리M) is a browser application. The user photographs or picks a food image. The
page shrinks the image and sends it to a generative vision API. It then shows the estimated
calories and the exercise needed to burn them. Almost all of `script.js` is DOM, camera,
canvas and network wiring. This project models the deterministic decisions around that
wiring and proves what they guarantee:

- **File validation** (`FileValidation`): the 10 MiB size limit and the `image/` MIME-type
  check of `handleFileSelect`.
- **Resize arithmetic** (`ImageResize`): the uniform down-scaling into an 800 × 600 box done
  by `getImageBase64FromCanvas`, over real numbers.
- **Readiness gate** (`Readiness.CheckApiKey`): the bounded poll for the API key. It makes at
  most 30 checks. Each check observes one key value.
- **Reply clean-up** (`Fences`): the chain `replace(/```json\n?/g,'')`,
  `replace(/```\n?/g,'')`, `trim()` applied to the model's answer before parsing.
- **Result record and fallback** (`AnalysisResults`): the record, and the fixed result
  `createFallbackResult` returns when parsing fails.
- **Messages** (`Messages`): the user-facing error texts. This covers the catch-block mapping
  in `analyzeImage` and the message composition in `showError`.
- **Analysis decisions** (`Analysis`):
  - extracting the base64 payload from the data URI;
  - classifying the response;
  - clean-up, then parse-or-fallback.
  The network call is given as its outcome (`FetchOutcome`). `JSON.parse` is an oracle
  `parse: string -> Option<AnalysisResult>`, where `None` means the parse throws.
- **Clipboard text** (`Clipboard`): the template `copyResult` fills, as a function of the
  result.
- **Page state** (`CalorieApp.App`): a class with the four section visibility flags, the error
  element's text, and the two global slots `currentImageData` and `analysisResult`. Every
  show/hide/reset operation, the file-selection and image-load callbacks and `analyzeImage`
  are methods updating these fields in place. `copyResult` is a method that reads the stored
  result and builds the copy text with loops.

The comments of `checkApiKey` (script.js:112 and script.js:115) speak of waiting up to three
seconds, 100 ms × 30. The code makes 30 checks with 29 timer waits between them, so 2900 ms
of waits are scheduled before it gives up. The model follows the code: `CheckApiKey` returns
`waits == checks - 1`, and `waits · 100 == 2900` when the key never becomes valid.

A response lacking `candidates[0].content` throws (script.js:214-215), and the catch block
shows the generic error message for it (script.js:242-243). Only a reply text that does not
parse gets the fallback result (script.js:223-229).

## Model

| member | source | states |
|---|---|---|
| FileValidation.ValidateFile | script.js:58-68 | A file over 10·1024·1024 bytes is `TooLarge`. One within the limit whose MIME type does not start with "image/" is `NotAnImage`. All others are `Accepted`. Each is an if-and-only-if. |
| FileValidation.OversizeIgnoresType | script.js:59-68 | An oversized file gets the size error whatever its MIME type: the type is never examined. |
| FileValidation.ExactLimitPassesSize | script.js:59 | A file of exactly 10 MiB passes the size check. It is accepted exactly when its type starts with "image/". |
| ImageResize.ScaledSize | script.js:90-99 | A size within 800 × 600 is returned unchanged. Any other size becomes positive and fits the box. The aspect ratio is kept (`w'·h == h'·w`) and neither dimension grows. When scaling happens, one side touches the box. |
| ImageResize.ScaledSizeIsLargestFit | script.js:95-99 | No uniform factor k ≤ 1 that fits the box gives a larger width or height than the computed size. |
| Readiness.KeyValid | script.js:118 | Defined by its body: the key is set, non-empty and not "YOUR_API_KEY_HERE". `CheckApiKey` states what the poll does with it. |
| Readiness.CheckApiKey | script.js:111-134 | Makes 1 to 30 checks, with one wait fewer than checks. Returns true at the first check whose key is set, non-empty and not "YOUR_API_KEY_HERE"; every earlier check failed. Returns false only after 30 failing checks. A valid first key means one check and no wait. True iff some check in the poll sees a valid key. The 100 ms waits add up to at most 2900 ms, and to exactly 2900 ms when it returns false. |
| Strings.Trim | script.js:221 | Defined by its body as `TrimEnd(TrimStart(s))`. `TrimStartKeepsSuffix` and `TrimEndKeepsPrefix` state that each half drops only spaces and leaves a non-space at its end. `TrimIsTrimmedSlice` and `TrimOfTrimmed` state what `trim()` returns. |
| Strings.TrimStartKeepsSuffix | script.js:221 | The left half of `trim()` returns a suffix of its input. Every character it drops is a space, and the result is empty or starts with a non-space. |
| Strings.TrimEndKeepsPrefix | script.js:221 | The right half of `trim()` returns a prefix of its input. Every character it drops is a space, and the result is empty or ends with a non-space. |
| Strings.TrimIsTrimmedSlice | script.js:221 | `trim()` returns a contiguous slice of its input with no white space at either end. |
| Fences.RemoveAll | script.js:221 | One global `replace` of a marker and an optional following newline: never lengthens the text. `RemoveAllWithoutMatch`, `RemoveAllCopiesPrefix` and `RemoveFenceLeavesNoFence` state what it removes. |
| Fences.StripFences | script.js:221 | Defined by its body as the chain of the two replaces and `trim()`. `StripFencesClean`, `StripFencesIdempotent`, `UnfencedReplyOnlyTrimmed` and `FencedReplyYieldsBody` state its properties. |
| Fences.RemoveAllWithoutMatch | script.js:221 | A global replace of a marker that does not occur leaves the text unchanged. |
| Fences.RemoveAllCopiesPrefix | script.js:221 | A prefix in which no match starts is copied through unchanged; replacing continues after it. |
| Fences.OccursAtShift | script.js:221 | A match inside the text after its first character is a match in the whole text, one position later. |
| Fences.RemoveFenceLeavesNoFence | script.js:221 | After every "```" (with an optional newline) is removed, no "```" remains. Removal cannot splice a new one together. |
| Fences.FenceFromParts | script.js:221 | A backtick followed by a text starting with two backticks starts with "```". |
| Fences.ConsNoFence | script.js:221 | One character put in front of a text without "```" creates one only if it is a backtick and the text starts with two. |
| Fences.StripFencesClean | script.js:221 | The cleaned reply contains no "```" and has no white space at either end. |
| Fences.StripFencesIdempotent | script.js:221 | Cleaning a reply twice gives the same text as cleaning it once. |
| Fences.UnfencedReplyOnlyTrimmed | script.js:221 | A reply without "```" is only trimmed. |
| Fences.FencedReplyYieldsBody | script.js:221 | "```json\n" + body + "\n```" cleans to exactly `body`, for a body without "```" and without surrounding white space. A backtick or two at the end of the body does not join the closing fence. |
| AnalysisResults.CreateFallbackResult | script.js:249-277 | The fallback has exactly one food, "인식된 음식" / 300 / "1인분". Its total is 300, which equals the sum of its food calories. It has three calculation steps and two exercises, of 45분 and 25분. |
| AnalysisResults.FallbackIgnoresText | script.js:249-250 | The fallback is the same record whatever reply text it is given. |
| Messages.HttpErrorText | script.js:208-210 | The error thrown for a non-ok response starts with "API 요청 실패". `HttpErrorCarriesStatus` states that it carries the status and the status text. |
| Messages.HttpErrorCarriesStatus | script.js:209 | The error text of a non-ok response contains the rendered status code and the status text. |
| Messages.UserMessageFor | script.js:238-244 | The catch block shows the network message iff the thrown text contains "API 요청 실패". Otherwise it shows the invalid-key message iff the text contains "API 키", and otherwise the generic message. |
| Messages.HttpFailureReportedAsNetwork | script.js:208-239 | Every HTTP failure, whatever its status and status text, is reported as a connection problem. |
| Messages.MissingContentReportedAsGeneric | script.js:214-244 | The missing-content error contains neither "API 요청 실패" nor "API 키", so it is reported with the generic message. |
| Messages.DiagnosticsText | script.js:436 | Defined by its body: the "[디버그 정보]" block reporting the key's presence, the configuration, the URL and the agent kind. Its contract states it is never empty; `DiagnosticsAreSupplementary` states how it joins the message. |
| Messages.ComposeErrorMessage | script.js:428-438 | The displayed text always starts with the base message. It equals the base message iff that message lacks "API 키". |
| Messages.DiagnosticsAreSupplementary | script.js:435-437 | With debug mode on, the text only extends the text shown with debug mode off. |
| Messages.ShownMessages | script.js:424-438 | The missing-key message is shown followed by the mobile hints. The network, generic and no-image messages are shown unchanged. |
| Messages.KeyMissingShownWithHelp | script.js:428-432 | The missing-key message is shown with the mobile hints right after it. |
| Messages.NetworkMessageLacksKeyMarker | script.js:430-431 | The connection message does not contain "API 키", so no hints are added to it. |
| Messages.GenericMessageLacksKeyMarker | script.js:430-431 | The generic failure message does not contain "API 키". |
| Messages.NoImageMessageLacksKeyMarker | script.js:430-431 | The no-image message does not contain "API 키". |
| Analysis.Base64Payload | script.js:153 | `split(',')[1]`: absent iff the data URI has no comma. Otherwise the result contains no comma. |
| Analysis.PayloadOfDataUri | script.js:153 | A data URI "header,payload" (no comma in either part) yields exactly `payload`. |
| Analysis.ParseOrFallback | script.js:223-229 | Defined by its body: the parsed record, or `createFallbackResult` when `JSON.parse` throws. `UnparsedTextFallsBack` and `FencedReplyParsedFromBody` state its properties. |
| Analysis.RunRequest | script.js:208-229 | Defined by its body: the try block's outcome for a fetch outcome. `NotOkReportsNetworkFailure`, `MissingContentReportsGenericFailure`, `TextReplySucceeds`, `UnparseableReplyFallsBack` and `ParserSeesOnlyCleanText` state its properties. |
| Analysis.NotOkReportsNetworkFailure | script.js:208-239 | A response that is not ok throws, whatever its body, and the user sees the network-failure message. |
| Analysis.MissingContentReportsGenericFailure | script.js:212-244 | An ok response without `candidates[0].content` throws, and the user sees the generic message. |
| Analysis.TextReplySucceeds | script.js:218-229 | An ok response with a reply text never throws: it succeeds with the parse-or-fallback of the cleaned reply. |
| Analysis.UnparsedTextFallsBack | script.js:223-229 | A cleaned text that `JSON.parse` rejects becomes the fallback record. |
| Analysis.UnparseableReplyFallsBack | script.js:218-229 | When the cleaned reply does not parse, the result is exactly the fallback record, whatever the reply was. |
| Analysis.ParserSeesOnlyCleanText | script.js:218-224 | The parser only ever receives a text with no "```" and no surrounding white space: two parsers that agree on all such texts give the same outcome for every response. |
| Analysis.FencedReplyParsedFromBody | script.js:218-229 | A reply fenced as a JSON block, whose body has no "```", is parsed from its body alone. A body that parses is taken over unchanged. |
| Strings.IntToString | script.js:343 | `${n}` for an integer: never empty, and it starts with "-" iff the number is negative. `IntToStringValue` states that the digits denote the number, and `IntToStringCanonical` that there is no leading zero. |
| Strings.IntToStringCanonical | script.js:343 | The rendering has no leading zero: a non-negative number renders as "0" or starts with a non-zero digit, and a negative one has a non-zero digit right after the "-". |
| Strings.NatToStringValue | script.js:343 | The decimal digits produced for a natural number denote that number (`DigitsValue`, most significant digit first). |
| Strings.IntToStringValue | script.js:343 | A non-negative integer renders as decimal digits denoting it. A negative one renders as "-" followed by decimal digits denoting its magnitude. This rendering is used for the status (script.js:209), the calories (343) and the total (348). |
| Clipboard.FoodLine | script.js:343 | Defined by its body: "• name portion: calories kcal", with a missing portion rendered as nothing. `FallbackFoodLines` gives one instance. |
| Clipboard.ExerciseLine | script.js:353 | Defined by its body: "• name: duration". `FallbackExerciseLines` gives the instances of the fallback. |
| Clipboard.TotalLine | script.js:348 | Defined by its body: the total, or "undefined" when the total is missing. `FallbackTotalLine` gives one instance. |
| Clipboard.CopyText | script.js:338-355 | Defined by its body as header, food block, total line and exercise block. The `CopyText*` lemmas state its shape; `CalorieApp.App.CopyResult` is proved to build it. |
| Clipboard.LinesAppend | script.js:342-344 | The lines of a concatenated list are the concatenated lines: one line per element, in order. |
| Clipboard.CopyTextStartsWithHeader | script.js:338 | The copied text always starts with "🍽️ 칼로리 분석 결과\n\n". |
| Clipboard.CopyTextWithoutFoods | script.js:340-348 | Without foods, the total line directly follows the header (no food block). |
| Clipboard.CopyTextWithFoods | script.js:340-346 | With foods, the header is followed by the food heading and the first food's line. |
| Clipboard.CopyTextWithoutExercises | script.js:348-355 | Without exercises, the text ends with the total line (no exercise block). |
| Clipboard.CopyTextIgnoresSteps | script.js:338-355 | Changing the calculation steps does not change the copied text. |
| Clipboard.FallbackCopyText | script.js:338-355 | The exact text copied for the fallback result. |
| CalorieApp.App.constructor | script.js:458-460 | On page load no slot is set and every section is hidden. |
| CalorieApp.App.HideAllSections | script.js:445-450 | No section is visible afterwards. The slots and the error text are untouched. |
| CalorieApp.App.ShowPreview | script.js:405-408 | Exactly the preview section is visible. |
| CalorieApp.App.ShowLoading | script.js:410-413 | Exactly the loading section is visible. |
| CalorieApp.App.HideLoading | script.js:415-417 | Only the loading flag changes: the visible set loses Loading. At most one section stays visible. |
| CalorieApp.App.ShowResult | script.js:419-422 | Exactly the result section is visible. |
| CalorieApp.App.ShowError | script.js:424-443 | Exactly the error section is visible. Its text is the composed message. |
| CalorieApp.App.ResetApp | script.js:392-402 | Both slots are cleared and no section is visible. |
| CalorieApp.App.SelectFile | script.js:54-68 | No file changes nothing. An oversized or non-image file shows its own error. An accepted file goes to the reader and nothing visible changes. |
| CalorieApp.App.ImageLoaded | script.js:73-76 | The encoded image is staged and exactly the preview is visible. |
| CalorieApp.App.ReadFailed | script.js:78-80 | Exactly the error section is visible, with the read-failure message. |
| CalorieApp.App.DisplayResult | script.js:280-331 | With a result, exactly the result section is visible. Without one, nothing changes. |
| CalorieApp.App.AnalyzeImage | script.js:137-246 | With no staged image, the no-image error appears, with no key check and no request. With no valid key in 30 checks, the missing-key error appears and no request is sent. Otherwise exactly one request carries the data URI's payload. The staged image never changes. |
| CalorieApp.App.SendRequest | script.js:150-245 | On success the new result is stored and shown. On failure the mapped message is shown and the previous result is kept. |
| CalorieApp.App.Settle | script.js:231-245 | Stores and shows a successful result, or shows the mapped message for an error, keeping the previous result. |
| CalorieApp.App.ShowAnalysis | script.js:231-232 | The result is stored and exactly the result section is visible. |
| CalorieApp.App.ReportFailure | script.js:234-244 | Exactly the error section is visible, with the user message the error maps to. |
| CalorieApp.AppendLines | script.js:342-344 | The loop appends one line per element: the text is the prefix followed by `Clipboard.Lines` of the elements. |
| CalorieApp.App.CopyResult | script.js:335-355 | With no result, nothing is produced. Otherwise the loop-built text equals `Clipboard.CopyText` of the result. |

## Left out

- The network call itself is not modelled; it is represented by its outcome. This covers
  `fetch`, the URL carrying the key, the request headers and `response.json()`.
- The fixed instruction text of the request is not modelled; `Request` holds only the declared
  MIME type and the payload.
- `JSON.parse` is an oracle parameter. No schema check is modelled, because the code makes
  none.
- A reply that parses to a falsy JSON value (`null`, `0`, `""`, `false`) is not modelled. The
  oracle yields a result record or nothing.
- Fields of a parsed reply:
  - A missing array is modelled as an empty one, since every consumer treats the two alike.
  - Names, portions, durations and calories are modelled as strings and integers. A reply
    with other JSON types, or with non-integral calories, is not modelled.
- `FileReader`, `Image` load events, `loadSampleImage`, canvas `drawImage` and JPEG encoding
  are browser I/O and codecs. `ImageLoaded` takes the encoded data URI as a parameter.
- `Strings.IntToString`: renders every integer in plain decimal. A template literal renders a
  number of magnitude 10^21 or more in exponent form ("1e+21"); calories that large are not
  modelled.
- Canvas dimensions are integers in the browser and are truncated on assignment.
  `ImageResize` works over reals and does not model this rounding.
- The `setTimeout` timing and the promise machinery of the readiness poll are not modelled.
  Neither is the start-up handler's logging-only use of it. Only the counting of checks and
  waits is kept.
- Overlapping analyses and stale writes are not modelled. The code has no in-flight guard.
  `AnalyzeImage` runs to completion as one step.
- Rendering is not modelled. This covers the HTML templates of `displayResult`, the
  clipboard APIs, `execCommand` and `alert` in `copyResult`/`fallbackCopyToClipboard`,
  `handleImageError`, and the reset of the file inputs in `resetApp`.
- The debug-mode flag and the four diagnostic facts (key present, configuration loaded, page
  URL, mobile agent) are read from the browser. They are passed to `ShowError` as a
  `Diagnostics` value, `None` when debug mode is off.
- Console logging is not modelled: the parse-failure warning (script.js:227), the error log
  of the catch block (script.js:236) and the other `console` calls have no visible effect.
- `CalorieApp.App.AnalyzeImage`: does not state that the loading section is never shown on
  the two early exits. The model shows it only inside `SendRequest`, the only path that sends
  a request, but no postcondition records intermediate visibility.
