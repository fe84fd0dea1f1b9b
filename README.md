# Image question answering: a Dafny model

This project models the core of a small web application. A user uploads an
image (or gives its URL) and asks a question about it. The backend sends both
to a multimodal chat model. When the failure is image-related it falls back
to a text-only model. It then pulls bounding-box coordinates out of the
model's free-text answer. The frontend draws those boxes over the image and
lists them beside it.

Six modules:

- `JsBuiltins` (`js_builtins.dfy`): the JavaScript built-ins the core relies
  on, restricted to the inputs it hands them.
  - truthiness of optional strings;
  - the `\d` and `\s` character classes;
  - `Number#toString` on non-negative integers;
  - `includes`, `startsWith`, `endsWith`, `trim`, `split` and `replace` with
    a one-character pattern;
  - `parseFloat` on unsigned decimals;
  - Node's POSIX `path.extname`.
- `QATypes` (`types.dfy`): the bounding box and the response record shared by
  the backend and the frontend.
- `BoxExtraction` (`extraction.dfy`): `extractBoundingBoxes`.
  - The global regular expression becomes a deterministic matcher `MatchAt`,
    proved to accept exactly the texts of the pattern's language
    (`TupleText`).
  - `exec` with its `lastIndex` becomes a class `GlobalTupleRegex`.
  - The `while` loop becomes a method proved equal to the specification
    function `Boxes`.
  - `Boxes` is the list of leftmost, non-overlapping matches in order.
- `Gateway` (`gateway.dfy`): `processImageQuestion`, `processWithGPT4o` and
  `fallbackToTextOnly`.
  - The outside world enters as parameters: the API keys, a `readFile`
    function and an `api` function from chat request to outcome.
  - Each run returns its outcome together with the chat requests it issued,
    in order.
- `Routes` (`routes.dfy`): the two POST handlers `/image-upload` and
  `/image-url` and the upload configuration.
  - The upload configuration covers the image-only file filter, the 10 MB
    limit and the stored file name.
- `Overlay` (`overlay.dfy`): the response view.
  - The 2-D canvas context is a class. Each drawing call appends to the
    commands drawn so far, recorded with the style in force when it was
    issued.
  - The `onload` drawing loop is a method proved against the function
    `BoxesOverlay`.
  - Also modelled: the hue per index, the 1-based labels, the context
    truncation in the "Detected Areas" list, and the model badge.

Three behaviours of the code are worth stating up front:

- A successful GPT-4o response has no `fallback` field
  (backend/services/qaService.js:99-103); `QAResponse.fallback` is then `None`.
- The fallback decision is a case-sensitive substring test of the error
  message for `image` or `vision` (backend/services/qaService.js:36). So the
  service's own "No image provided" error triggers the text-only fallback
  (`Gateway.NoImageTriggersFallback`). So does any error reading the uploaded
  file whose message mentions "image".
- The question is only tested for truthiness (backend/routes/qa.js:51). A
  question of blanks is passed to the model (`Routes.BlankQuestionPasses`).

## Model

| member | source | states |
|---|---|---|
| JsBuiltins.DigitRun | backend/services/qaService.js:146 | the greedy `\d*` run from a position: every character in it is a digit and the next one is not |
| JsBuiltins.SpaceRun | backend/services/qaService.js:146 | the greedy `\s*` run from a position: every character in it is white space and the next one is not |
| JsBuiltins.DecimalString | backend/routes/qa.js:19 | `n.toString()` is a non-empty digit string with a leading `0` exactly when n is 0 |
| JsBuiltins.DecimalStringRoundTrip | backend/routes/qa.js:19 | reading back the digits of `n.toString()` gives n |
| JsBuiltins.DecimalStringInjective | backend/routes/qa.js:19 | different numbers print differently |
| JsBuiltins.FractionValue | backend/services/qaService.js:155 | the digits after a decimal point are worth a fraction in [0, 1) |
| JsBuiltins.ParseFloatInteger | backend/services/qaService.js:155 | `parseFloat` of a digit string is the integer it spells |
| JsBuiltins.ParseFloatDecimal | backend/services/qaService.js:155 | `parseFloat("a.b")` is a plus the fraction b, for digit strings a and b with at least one digit between them |
| JsBuiltins.IncludesIff | backend/services/qaService.js:36 | `includes` holds exactly when the substring occurs at some position |
| JsBuiltins.IncludesOnlyOwnChars | backend/services/qaService.js:36 | a string that includes a substring contains each of its characters |
| JsBuiltins.IncludesSplit | backend/services/qaService.js:36 | an occurrence in `x + y` lies in y or in x extended by fewer than the substring's length |
| JsBuiltins.TrimStart | backend/services/qaService.js:155 | the result is a suffix, what was removed is all white space, and the result does not start with white space |
| JsBuiltins.TrimEnd | backend/services/qaService.js:155 | the result is a prefix, what was removed is all white space, and the result does not end with white space |
| JsBuiltins.TrimStartSpaces | backend/services/qaService.js:155 | trimming a run of white space before text that starts with a non-space leaves exactly that text |
| JsBuiltins.SplitJoin | backend/services/qaService.js:154 | joining the parts of `split(sep)` with sep gives back the string |
| JsBuiltins.SplitPartsAvoidSeparator | backend/services/qaService.js:154 | no part of `split(sep)` contains the separator |
| JsBuiltins.SplitAtSeparator | backend/services/qaService.js:154 | splitting `a + sep + b` with no sep in a gives a followed by the parts of b |
| JsBuiltins.RemoveFirstAfter | backend/services/qaService.js:152-153 | `replace(c, '')` removes exactly the first occurrence of c |
| JsBuiltins.LastIndexOf | backend/routes/qa.js:20 | the last position holding the character, or -1, with no occurrence after it |
| JsBuiltins.BaseName | backend/routes/qa.js:20 | the base name of a path contains no `/` |
| JsBuiltins.ExtName | backend/routes/qa.js:20 | `path.extname` is empty or a `.` followed by no further `.` or `/`, and it ends the base name |
| JsBuiltins.ExtNameOf | backend/routes/qa.js:20 | `path.extname("name.ext")` is `".ext"` for a name segment that is not `.` alone with an empty extension |
| JsBuiltins.ExtNameWithoutDot | backend/routes/qa.js:20 | a name without `.` has no extension |
| JsBuiltins.ParseFloat | backend/services/qaService.js:155 | `parseFloat`: skip leading white space, then read the longest unsigned decimal prefix, or NaN without a digit |
| JsBuiltins.Includes | backend/services/qaService.js:36 | `String#includes`: the substring occurs at some position |
| JsBuiltins.Trim | backend/services/qaService.js:155 | `String#trim`: `TrimEnd` of `TrimStart` |
| JsBuiltins.Split | backend/services/qaService.js:154 | `String#split` with a one-character separator: the pieces between separators |
| JsBuiltins.RemoveFirst | backend/services/qaService.js:152-153 | `replace(c, '')`: the string without its first occurrence of c |
| BoxExtraction.TokenValue | backend/services/qaService.js:146 | every alternative of `(0\.\d+\|1\.0\|0\|1)` denotes a value in [0, 1] |
| BoxExtraction.TokenEnd | backend/services/qaService.js:146 | a recognised token ends after its start and within the text |
| BoxExtraction.TokenEndSound | backend/services/qaService.js:146 | what the token recogniser accepts is an alternative of the pattern's group |
| BoxExtraction.TokenEndExact | backend/services/qaService.js:146 | a token followed by `,` or `]` is recognised with exactly its own length |
| BoxExtraction.SkipSpaces | backend/services/qaService.js:146 | `\s*` skips the whole run of white space before the next field |
| BoxExtraction.MatchAt | backend/services/qaService.js:146 | a match found at i starts at i and ends within the text |
| BoxExtraction.FieldsEndSound | backend/services/qaService.js:146 | the fields the matcher accepted are tokens separated by a comma and white space and end in `]` |
| BoxExtraction.MatchAtSound | backend/services/qaService.js:146 | whatever `MatchAt` accepts spells out a tuple of the pattern's language |
| BoxExtraction.FieldsEndComplete | backend/services/qaService.js:146 | text that spells out fields ending in `]` is recognised exactly to its end |
| BoxExtraction.MatchAtComplete | backend/services/qaService.js:146 | wherever the text spells out a tuple of the pattern's language, `MatchAt` reports exactly that match |
| BoxExtraction.TokenParses | backend/services/qaService.js:155 | `parseFloat` of every token is the token's value |
| BoxExtraction.TrimSpacesToken | backend/services/qaService.js:155 | trimming the white space before a token leaves the token |
| BoxExtraction.FieldsHaveNoPunctuation | backend/services/qaService.js:152-153 | the fields between the brackets contain no `[` or `]` |
| BoxExtraction.StripBrackets | backend/services/qaService.js:151-153 | removing the first `[` and then the first `]` of a match leaves its fields |
| BoxExtraction.SplitFields | backend/services/qaService.js:154 | splitting the fields at commas gives the first token, then each run of white space followed by its token |
| BoxExtraction.FieldsParse | backend/services/qaService.js:154-155 | the four comma-separated parts trim and parse to the four token values |
| BoxExtraction.TupleParses | backend/services/qaService.js:151-155 | the coordinates parsed from a matched tuple are exactly its four token values, in order |
| BoxExtraction.ParsedCoordinates | backend/services/qaService.js:151-155 | the coordinates of a matched text: strip the brackets, split at commas, trim and `parseFloat` each part |
| BoxExtraction.ContextStart | backend/services/qaService.js:158 | `Math.max(0, index - 50)`: the window starts 50 characters before the match, or at 0 when the match is nearer the start |
| BoxExtraction.ContextEnd | backend/services/qaService.js:159 | `Math.min(text.length, end + 50)`: the window ends 50 characters after the match, or at the end of the text when the match is nearer it |
| BoxExtraction.Context | backend/services/qaService.js:158-160 | the context is exactly `text[ContextStart..ContextEnd]`. It holds the match, preceded by min(50, index) characters and followed by min(50, characters after the match) |
| BoxExtraction.ContextFullRadius | backend/services/qaService.js:158-160 | away from the text's ends, the context is the match with exactly 50 characters on each side |
| BoxExtraction.FirstMatch | backend/services/qaService.js:149 | what `exec` finds from `lastIndex` is a match at or after it |
| BoxExtraction.FirstMatchLeftmost | backend/services/qaService.js:149 | `exec` finds the leftmost match: none starts before it, and none exists at all when it finds nothing |
| BoxExtraction.Matches | backend/services/qaService.js:149 | each reported match lies within the text after the starting position |
| BoxExtraction.MatchesAreMatches | backend/services/qaService.js:149 | every reported match is a match of the pattern at its index |
| BoxExtraction.MatchesOrdered | backend/services/qaService.js:149 | the reported matches are in text order and do not overlap |
| BoxExtraction.MatchesCover | backend/services/qaService.js:149 | every position where the pattern matches lies inside some reported match, so no match is skipped |
| BoxExtraction.BoxesOf | backend/services/qaService.js:162-165 | one box per match, in order |
| BoxExtraction.BoxOf | backend/services/qaService.js:151-165 | the box pushed for one match: its parsed coordinates and its context |
| BoxExtraction.Boxes | backend/services/qaService.js:142-169 | what `extractBoundingBoxes(text)` returns: the boxes of the matches found from position 0 |
| BoxExtraction.BoxesStep | backend/services/qaService.js:149-166 | the boxes are the first match's box followed by the boxes of the scan from its end |
| BoxExtraction.BoxesEmptyIff | backend/services/qaService.js:142-169 | no boxes are returned exactly when the pattern matches nowhere in the text |
| BoxExtraction.BoxOfMatch | backend/services/qaService.js:151-165 | each box built for a match has exactly the four token values as coordinates |
| BoxExtraction.BoxesNormalised | backend/services/qaService.js:142-169 | every extracted box has four finite coordinates between 0 and 1 |
| BoxExtraction.GlobalTupleRegex.constructor | backend/services/qaService.js:146 | a fresh global regular expression starts at `lastIndex` 0 |
| BoxExtraction.GlobalTupleRegex.Exec | backend/services/qaService.js:149 | `exec` returns the leftmost match from `lastIndex` and moves `lastIndex` to its end. It returns null and resets `lastIndex` to 0 when there is none or `lastIndex` is past the end |
| BoxExtraction.ExtractBoundingBoxes | backend/services/qaService.js:142-169 | the loop returns exactly `Boxes(text)` |
| BoxExtraction.ScanStep | backend/services/qaService.js:149-166 | pushing the current match's box keeps the loop invariant |
| BoxExtraction.ScanDone | backend/services/qaService.js:149-168 | when `exec` finds nothing, the boxes pushed so far are all of them |
| BoxExtraction.ExampleAccepts | backend/services/qaService.js:146-155 | `[0.1,  0.25,1, 0]` is matched whole and gives the coordinates 0.1, 0.25, 1 and 0 |
| Gateway.ImageFor | backend/services/qaService.js:51-60 | an uploaded file wins over a URL. The file's bytes are sent as a JPEG data URL, and a read error propagates. Without either image it fails with "No image provided" |
| Gateway.ProcessWithGPT4o | backend/services/qaService.js:47-104 | no request is made when the image cannot be prepared. Otherwise exactly one GPT-4o request is made with the question and the image. It succeeds exactly when that call answers: the answer, the boxes extracted from it, model `gpt-4o`, no fallback flag. A failed call's message propagates |
| Gateway.FallbackToTextOnly | backend/services/qaService.js:109-137 | exactly one text-only request. On an answer: no boxes, the fallback model name and `fallback: true`. On failure: "Both image analysis and text fallback failed" |
| Gateway.SelectBackend | backend/services/qaService.js:21-31 | with an OpenAI key the GPT-4o path runs; otherwise it fails without any request |
| Gateway.VisionRequest | backend/services/qaService.js:63-93 | the GPT-4o request: the system prompt, then one user message with the question and the image, at most 1000 tokens |
| Gateway.FallbackRequest | backend/services/qaService.js:111-125 | the GPT-4 request: the fallback system prompt and the question quoted after the fixed preamble, at most 500 tokens |
| Gateway.TriggersFallback | backend/services/qaService.js:36 | the message includes `image` or `vision`, case-sensitive |
| Gateway.ProcessImageQuestion | backend/services/qaService.js:18-42 | the selected backend's run. On a caught error mentioning "image" or "vision", the fallback's outcome after both runs' requests; otherwise that run unchanged (stated by FallbackExactlyWhen, ResponseShape, ErrorsThatEscape, WithoutOpenAIKey, OpenAIFirst and NoImageFallsBack) |
| Gateway.NoFallbackWithoutGOrS | backend/services/qaService.js:36 | a message without `g` or `s` mentions neither "image" nor "vision" |
| Gateway.UnimplementedMessagesDoNotTriggerFallback | backend/services/qaService.js:25-36 | the Gemini and Claude "not available" errors do not trigger the fallback |
| Gateway.NoKeysMessageDoesNotTriggerFallback | backend/services/qaService.js:30-36 | the "No valid API keys" error does not trigger the fallback |
| Gateway.NoImageTriggersFallback | backend/services/qaService.js:36-59 | the "No image provided" error does trigger the fallback |
| Gateway.WithoutOpenAIKey | backend/services/qaService.js:21-40 | without an OpenAI key no request is made, and the error names Gemini, Claude or the missing keys, in that order of precedence |
| Gateway.FallbackExactlyWhen | backend/services/qaService.js:18-42 | the text-only request is appended exactly when the primary path threw an error mentioning "image" or "vision", and then the call's outcome is the fallback's outcome. Otherwise the primary run is the result, and at most two requests are ever made |
| Gateway.ResponseShape | backend/services/qaService.js:18-42 | a successful response is a fallback exactly when its model is the fallback model. A fallback response has no boxes and carries the text-only answer. Any other response is GPT-4o's, with the boxes extracted from its answer. All boxes are normalised |
| Gateway.ErrorsThatEscape | backend/services/qaService.js:32-41 | an escaping error is the double-failure message or one that does not mention "image" or "vision" |
| Gateway.OpenAIFirst | backend/services/qaService.js:21-93 | with an OpenAI key and a readable image, the first request is the GPT-4o request carrying that image |
| Gateway.NoImageFallsBack | backend/services/qaService.js:36-59 | with an OpenAI key but no image, the result is exactly the text-only fallback |
| Routes.FileFilter | backend/routes/qa.js:28-35 | a part is accepted exactly when its mimetype starts with `image/`; otherwise it fails with "Only image files are allowed!" |
| Routes.SizeLimitBoundary | backend/routes/qa.js:27 | 10485760 bytes are accepted and 10485761 are not |
| Routes.WithinSizeLimit | backend/routes/qa.js:27 | an upload is accepted when it has at most 10 * 1024 * 1024 bytes |
| Routes.SplitAtFirstDash | backend/routes/qa.js:21 | a dash-joined name splits uniquely at its first dash when the head has no dash |
| Routes.DecimalStringHasNoDash | backend/routes/qa.js:19 | the printed timestamp and random number contain no dash |
| Routes.DashedNameParts | backend/routes/qa.js:21 | two names `field-a-b+ext` with dash-free a are equal only with equal a and b |
| Routes.FilenameInjective | backend/routes/qa.js:18-22 | for one upload, different (timestamp, random) pairs give different stored names |
| Routes.Filename | backend/routes/qa.js:18-22 | `fieldname-timestamp-random` followed by the original name's `path.extname` (stated by FilenameInjective and FilenameKeepsExtension) |
| Routes.FilenameKeepsExtension | backend/routes/qa.js:18-22 | the stored name is `fieldname-timestamp-random.ext` for an original name `stem.ext` |
| Routes.Respond | backend/routes/qa.js:65-74 | status 200 with the result exactly when the service returned. Otherwise 500 with the error's message, or "Error processing your request" when the message is empty |
| Routes.UrlOrNull | backend/routes/qa.js:61 | `imageUrl \|\| null`: a falsy URL becomes null, a truthy one is kept |
| Routes.PathOf | backend/routes/qa.js:60 | `imageFile ? imageFile.path : null` |
| Routes.ImageUpload | backend/routes/qa.js:39-76 | 400 without a file or URL, then 400 without a question, else the service's outcome with the stored path and the URL or null |
| Routes.ImageUrl | backend/routes/qa.js:79-115 | 400 without a URL, then 400 without a question, else the service's outcome with no file |
| Routes.ValidationIsExactlyTheBadRequests | backend/routes/qa.js:44-95 | each route answers 400 exactly when its required fields are missing or empty |
| Routes.BlankQuestionPasses | backend/routes/qa.js:51-63 | a question of blanks is not rejected and reaches the service |
| Routes.EmptyUrlBecomesNull | backend/routes/qa.js:59-63 | with a file, an empty URL is passed to the service as null |
| Routes.SuccessfulResponsesHaveNormalisedBoxes | backend/routes/qa.js:65-68 | every box in a 200 response has four coordinates in [0, 1] |
| Routes.UrlRouteWithoutOpenAIKey | backend/routes/qa.js:98-113 | without an OpenAI key the URL route answers 500 with the key-selection error |
| Overlay.Canvas.constructor | frontend/src/components/ResponseDisplay.tsx:24-25 | a fresh canvas context has the default size and styles and nothing drawn |
| Overlay.Canvas.SetWidth | frontend/src/components/ResponseDisplay.tsx:34 | setting the width clears the canvas and resets the styles |
| Overlay.Canvas.SetHeight | frontend/src/components/ResponseDisplay.tsx:35 | setting the height clears the canvas and resets the styles |
| Overlay.Canvas.DrawImageAt | frontend/src/components/ResponseDisplay.tsx:38 | `drawImage` appends the image and changes nothing else |
| Overlay.Canvas.StrokeRect | frontend/src/components/ResponseDisplay.tsx:52 | `strokeRect` appends an outline in the current stroke style and line width |
| Overlay.Canvas.FillRect | frontend/src/components/ResponseDisplay.tsx:56 | `fillRect` appends a rectangle in the current fill style |
| Overlay.Canvas.FillText | frontend/src/components/ResponseDisplay.tsx:59 | `fillText` appends text in the current fill style and font |
| Overlay.Hue | frontend/src/components/ResponseDisplay.tsx:47 | the hue `(index * 137) % 360` is a degree below 360 |
| Overlay.HueConsecutiveDistinct | frontend/src/components/ResponseDisplay.tsx:47 | neighbouring boxes get different hues |
| Overlay.HueDistinctWithinPeriod | frontend/src/components/ResponseDisplay.tsx:47 | any 360 consecutive boxes get pairwise different hues |
| Overlay.HuePeriodic | frontend/src/components/ResponseDisplay.tsx:47 | the hues repeat every 360 boxes |
| Overlay.Label | frontend/src/components/ResponseDisplay.tsx:59 | the label is a non-empty digit string |
| Overlay.LabelOneBased | frontend/src/components/ResponseDisplay.tsx:59 | the label of box i reads i + 1, and different boxes get different labels |
| Overlay.DisplayContext | frontend/src/components/ResponseDisplay.tsx:123 | a context of up to 100 characters is shown whole. A longer one shows its first 100 characters followed by `...` |
| Overlay.DisplayContextIdempotent | frontend/src/components/ResponseDisplay.tsx:123 | truncating a shown context again changes nothing |
| Overlay.ModelBadge | frontend/src/components/ResponseDisplay.tsx:70 | the badge starts with the model name and a space, and ends with `(Fallback)` exactly when the response is a fallback |
| Overlay.BoxGeometry | frontend/src/components/ResponseDisplay.tsx:42-59 | the outline spans the box scaled to the image corner to corner. The 20-pixel tile sits on its top-left corner, and the number is written inside the tile |
| Overlay.BoxCommands | frontend/src/components/ResponseDisplay.tsx:42-59 | one box's outline, colour tile and number, with the styles the loop body sets |
| Overlay.Outline | frontend/src/components/ResponseDisplay.tsx:42-52 | the outline starts at the box's first corner and spans its extent, both scaled to the image |
| Overlay.BoxInsideImage | frontend/src/components/ResponseDisplay.tsx:42-52 | a normalised box with ordered corners is outlined inside the image |
| Overlay.Commands | frontend/src/components/ResponseDisplay.tsx:41-60 | the first n boxes draw three commands each |
| Overlay.CommandsInOrder | frontend/src/components/ResponseDisplay.tsx:41-60 | the commands of box k are at positions 3k to 3k+2, in list order |
| Overlay.OverlayPerBox | frontend/src/components/ResponseDisplay.tsx:41-60 | box k is outlined in hue `Hue(k)` and numbered `k + 1` in white 14px Arial, 6 pixels right of and 5 above its corner |
| Overlay.BoxesOverlay | frontend/src/components/ResponseDisplay.tsx:41-60 | the commands of every box, in list order |
| Overlay.DrawBox | frontend/src/components/ResponseDisplay.tsx:42-59 | one `forEach` iteration appends exactly the box's outline, tile and number, and leaves the box's hue as stroke style, width 3, white fill and the label font |
| Overlay.DrawOnLoad | frontend/src/components/ResponseDisplay.tsx:32-61 | the canvas takes the image's size, and its drawing is the image followed by the overlay of every box in order; the styles left are the defaults without boxes, otherwise those of the last box |
| Overlay.DrawBoxes | frontend/src/components/ResponseDisplay.tsx:21-61 | without a canvas, a preview or boxes the canvas is left entirely unchanged (size, styles and drawing); otherwise the canvas shows the image and the whole overlay |
| Overlay.DrawsOverlay | frontend/src/components/ResponseDisplay.tsx:22 | the effect draws only with a canvas, a preview and at least one box |
| Overlay.DetectedAreas | frontend/src/components/ResponseDisplay.tsx:101-124 | one list entry per box, in order. Entry k has border and badge colour `Hue(k)`, badge `Label(k)` and shown context `DisplayContext` of box k's context, at most 103 characters |
| Overlay.ListMatchesCanvas | frontend/src/components/ResponseDisplay.tsx:101-116 | list entry k has the colour of box k's outline and tile on the canvas and the same number as its label |

## Left out

- I/O is not modelled: the file system, the OpenAI client, the environment
  variables and the console logging. The keys, `readFile` and the chat `api`
  are parameters. `console.error` calls have no effect in the model.
- The exact data URL is not modelled. An uploaded file's bytes are sent as
  `JpegData(bytes)`, and the base64 encoding is not spelled out.
- The async/await ordering is not modelled. Each service call is one
  sequential run.
- Gateway.ProcessImageQuestion carries no `ensures` of its own. Its
  behaviour is stated by `FallbackExactlyWhen` (which requests are made,
  and that a triggered fallback's outcome is the call's outcome),
  `ResponseShape`, `ErrorsThatEscape`, `WithoutOpenAIKey`, `OpenAIFirst`
  and `NoImageFallsBack`.
- Routes.Filename carries no `ensures` of its own. It is stated by
  `FilenameInjective` and `FilenameKeepsExtension`.
- Gateway.ProcessWithGPT4o: a `null` message content, or a response
  without choices, is not modelled. The answer is always a string.
- Routes.ImageUpload assumes `question` and `imageUrl` are strings or
  absent. Non-string body fields are not modelled.
- Routes.ImageUpload leaves out multer's own rejections. A wrong mimetype or
  a file over 10 MB is answered by the global error handler, which is not
  part of this model. Only the filter's and the limit's decisions are
  modelled.
- Routes.SizeLimitBoundary states the 10 MB limit as a predicate on the
  size. The streaming cut-off is not modelled.
- `Math.random` and `Date.now` are not modelled. The timestamp and the
  rounded random number are parameters (non-negative integers).
- JsBuiltins.DecimalString models `Number#toString` for integers only.
  The exponent notation above 1e21 is not modelled.
- JsBuiltins.ParseFloat handles unsigned decimals `d* [. d*]` only.
  Signs, exponents and `Infinity` are not modelled, since the pattern's
  tokens never contain them. Results are exact reals, not IEEE doubles.
- Strings are sequences of Unicode code points, not UTF-16 code units.
  The lengths used for the 50-character context and the 100-character
  truncation agree with JavaScript only for text in the Basic Multilingual
  Plane.
- Overlay.DrawBoxes requires every box to have four finite coordinates.
  The TypeScript type promises that, and the backend's boxes always have
  them (`BoxesNormalised`). A NaN coordinate on the canvas is not modelled.
- Overlay.DrawBoxes leaves out browser behaviour. Image loading and the
  asynchronous `onload`, a null `getContext`, and the effect's re-run on
  dependency changes are not modelled. The image's size is a parameter,
  and the drawing is the `onload` handler run once.
- Coordinates are shown in the list with `toFixed(2)`. That formatting is
  not modelled.
- The rest of the JSX markup and styling is not modelled. The model covers
  only the badge text, the list entries' colours, numbers and shown
  context, and the canvas.
- The server setup (CORS, static files, the global error handler) is not
  part of this model.
- The frontend's request service and the uploader component are not part
  of this model.
