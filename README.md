# flows-alpha-video: the request normalisers and task-polling loops, in Dafny

This project models the logic of flows-alpha-video, an ad-video generator. The repository has a browser form controller (`app.js`) and four serverless handlers that relay requests to a media-generation REST API. Two of those handlers are at the root (`image_to_video.js`, `text_to_image.js`) and two are under `api/runway/`. Most of each handler is plumbing. What is modelled is the decision logic:

- **Input normalisers.**
  - The root `inferRatio`, which maps free-text aspect labels and raw `W:H` / `WxH` pairs to one of six allowed tokens. It is defined once in module `Normalize`; the two root copies are the same code.
  - `normalizeModel`.
  - The duration clamp.
  - The `api/runway` handlers' own ratio rules and their seed-image ratio remap.
  - `buildScript`, which assembles the ad script.
- **The bounded task-polling loop.**
  - The four handlers share it (module `Polling`): at most 36 status reads. A non-ok HTTP answer is relayed. SUCCEEDED with a non-empty output yields `output[0]`. FAILED or CANCELED is a provider failure. Otherwise the loop tries again, and after the last try it times out.
  - The browser has its own loop with a 60-read ceiling and a success-or-failure decision (`App.PollTask`, `App.AwaitVideo`).
- **The handlers themselves.** Each is a `method` over its request fields, its environment answers and its status answers. Its contract covers:
  - the status code and body of every path: preflight, 405, missing key, 400, relayed provider errors, 500, 504, success;
  - the requests it sends to the provider.
- **The browser page.**
  - Its one piece of state, the URL of the last uploaded image, is a field of class `App.VideoPage`.
  - The page builds the video request body field by field, then polls and decides.

External calls are parameters: the provider's answer to each task creation (`Relay.Created`), and the sequence of status-endpoint answers in the order the loop reads them (`Relay.StatusRead`). Each loop's method requires at least as many answers as its ceiling, so the environment can always answer a read. The API key is a parameter; the empty string stands for an absent key.

JavaScript's string operations are modelled in module `JsText`:
- `a || b` on strings: empty is falsy.
- `toLowerCase` on ASCII letters.
- `trim`, and the `\s` class, which uses the same white-space set.
- `includes`.
- `filter(Boolean)` and `join`.

The regular expression `(\d{3,4})\s*[:x]\s*(\d{3,4})` is modelled as a leftmost scan, `Normalize.SearchPair`. At each start index:
- The digit run must have exactly 3 or 4 digits. With 5 or more, both ways of taking the first group leave a digit where `\s*[:x]` is needed.
- White space is taken greedily.
- The second group takes 4 digits when there are at least 4, and 3 when there are exactly 3.

The scan is tied to a description of a match that does not scan (`Normalize.PairShape`): the text at the index is the first group, white space, `:` or `x`, white space, the second group and the rest, with each group of 3 or 4 digits and a 3-digit second group not followed by a digit. `Normalize.MatchAtIff` proves the two agree at every index.

## Model

| member | source | states |
|---|---|---|
| JsText.Or | image_to_video.js:57-58 | `a \|\| b` on strings is one of its operands; it is empty exactly when both are; a non-empty left operand is kept, and an empty right operand changes nothing |
| JsText.ToLower | image_to_video.js:21 | lower-casing keeps the length and maps every character through the ASCII lower-case map |
| JsText.ToLowerAppend | image_to_video.js:21 | lower-casing distributes over concatenation |
| JsText.ContainsAt | image_to_video.js:25-27 | `includes` holds exactly when the needle occurs at some index |
| JsText.ContainsMiddle | image_to_video.js:25-27 | a string built around a part includes that part |
| JsText.Trim | app.js:46-51 | the trimmed text starts and ends with a non-white-space character; it is empty exactly when the input is all white space |
| JsText.TrimIsSlice | app.js:46-51 | the input is white space, then the trimmed text, then white space; with `Trim`'s contract this fixes the result |
| JsText.NonEmpty | app.js:59 | `filter(Boolean)` keeps no empty line and never adds one |
| JsText.NonEmptyMembers | app.js:59 | a line is kept exactly when it is one of the input lines and is non-empty |
| JsText.NonEmptyOne | app.js:59 | a single line is kept exactly when it is non-empty |
| JsText.NonEmptyAppend | app.js:53-59 | filtering distributes over concatenation |
| JsText.JoinShape | app.js:61 | the joined text starts with the first line and ends with the last; its length is the lines' lengths plus one separator between neighbours |
| Normalize.DigitRunMaximal | image_to_video.js:30 | the run of `\d` the scan takes at an index is maximal: all digits, followed by a non-digit or the end |
| Normalize.SkipSpaceMaximal | image_to_video.js:30 | `\s*` taken greedily: everything skipped is white space, and the next character is not |
| Normalize.MatchAtIff | image_to_video.js:30 | the scan at an index reports `W` and `H` exactly when the text there is `W`, white space, `:` or `x`, white space, `H` and the rest, with `W` and `H` of 3 or 4 digits and a 3-digit `H` not followed by a digit |
| Normalize.MatchAtComplete | image_to_video.js:30 | every text of that shape at an index is found by the scan there, with its two groups |
| Normalize.MatchAtSound | image_to_video.js:30 | everything the scan reports at an index has that shape |
| Normalize.FirstMatch | image_to_video.js:30 | `match` finds the leftmost index at which the pattern matches; no earlier index matches |
| Normalize.SearchPair | image_to_video.js:30 | there is no match exactly when the scan matches at no index; a match is the scan's report at an index before which it matches nowhere |
| Normalize.FirstMatchIs | image_to_video.js:30 | the search reports the match at the first index where the scan succeeds |
| Normalize.PairAfterPlainText | image_to_video.js:30 | after text with no digit, the search reports the pattern that follows it |
| Normalize.InferRatio | image_to_video.js:20-38 | the ratio is always one of the six allowed tokens, whatever the input |
| Normalize.PortraitWins | image_to_video.js:25-26 | an input holding `9:16`, `reel`, `story` or `portrait` anywhere gives `720:1280`, even next to a landscape label |
| Normalize.LandscapeBeatsSquare | image_to_video.js:26-27 | with no portrait label, an input holding `16:9`, `landscape`, `youtube` or `tiktok` gives `1280:720`, over square labels and pairs |
| Normalize.SquareBeatsPair | image_to_video.js:27-30 | with no portrait or landscape label, `1:1` or `square` gives `1024:1024`, over any raw pair |
| Normalize.LabelsNeedForeignChar | image_to_video.js:25-27 | text made only of digits and `x` holds no label |
| Normalize.RawPairUsesColonForm | image_to_video.js:30-37 | a raw pair `W:H`, `WxH` or `WXH`, with any white space around the separator, after text with no digit and with no label anywhere, gives the colon form `W:H` when that is allowed, and `720:1280` otherwise |
| Normalize.BarePairUsesColonForm | image_to_video.js:30-37 | a bare `WxH` holds no label, so it gives `W:H` when that is allowed, and `720:1280` otherwise |
| Normalize.UnrecognisedIsVertical | image_to_video.js:36-37 | with no label and no raw pair, the answer is `720:1280` |
| Normalize.PairHasNoLabel | image_to_video.js:22-27 | a digit pair `W:H` whose `W` does not end in 1, 6 or 9 holds none of the labels |
| Normalize.ColonPairIsFixed | image_to_video.js:22-34 | an allowed `W:H` with such a `W` is read back as itself |
| Normalize.AllowedIsFixedPoint | image_to_video.js:22-34 | every allowed token is a fixed point of `inferRatio` |
| Normalize.InferRatioIdempotent | image_to_video.js:20-38 | normalising a ratio twice gives the same as once |
| Normalize.NormalizeModel | image_to_video.js:40-45 | every model name, gen3 variants included, becomes `gen4_turbo` |
| Normalize.NormalizeModelIdempotent | image_to_video.js:40-45 | normalising a model twice gives the same as once |
| Normalize.ClampDuration | image_to_video.js:60 | a positive duration is capped at 10; a missing, non-numeric or non-positive one is 5; the result is always in (0, 10] |
| Polling.FirstDecisive | image_to_video.js:86-105 | the index of the first read that ends the loop; every earlier read asked to go on |
| Polling.Poll | image_to_video.js:86-106 | the `while (tries < 36)` loop ends as the specification `Outcome` says, after `ReadsMade` reads, never more than the ceiling |
| Polling.ReadCount | text_to_image.js:66-85 | at most `limit` reads; a timeout uses all of them; any other ending is decided by its last read, and all reads before it went on |
| Polling.TimeoutIffNoDecision | text_to_image.js:66-85 | the loop times out exactly when none of the reads within the ceiling is a non-ok answer, a success with output or a failure |
| Polling.SuccessIsFirstOutput | text_to_image.js:76-77 | a success carries `output[0]` and the status of an ok SUCCEEDED read with a non-empty output |
| Polling.FailureCauses | text_to_image.js:74-80 | a provider failure comes from an ok FAILED/CANCELED read and carries its status; a relayed error carries the non-ok read's code and text |
| Polling.LaterReadsIgnored | text_to_image.js:76-81 | reads after the deciding one are never looked at: streams that agree up to it end the same way |
| ImageToVideo.PromptOf | image_to_video.js:57 | the prompt is `promptText` when that is non-empty, and `prompt` otherwise; it is empty exactly when both are |
| ImageToVideo.Handle | image_to_video.js:47-128 | OPTIONS 200, other methods 405, missing key 500; no image and no prompt is 400 before any call; a given image is forwarded without a seed task; otherwise the seed request is `gen4_image` with the prompt and inferred ratio; the seed poll's ending maps to the video request, 500 `text_to_image failed`, the relayed error or 504; every video request has an allowed ratio, `gen4_turbo` and the clamped duration; the creation answer is relayed or its id returned |
| TextToImage.RatioPriority | text_to_image.js:45 | corollary of the label-priority lemmas for this handler's `ratio \|\| aspect` input: portrait labels win over everything, landscape labels over square labels and pairs |
| TextToImage.Handle | text_to_image.js:32-85 | OPTIONS 200, other methods 405, missing key 500; an empty prompt after the `prompt` fallback is 400 before any call; the request carries an allowed ratio; success answers `{imageUrl: output[0], taskId, status}`, failure 500 with the status, a non-ok read is relayed, and 36 undecided reads give 504 |
| ApiImageToVideo.Handle | api/runway/image_to_video.js:7-82 | the final ratio is a listed one or `768:1280`; the model is `gen4_turbo`; a numeric duration passes unchanged, else 5; no `prompt` fallback, so empty image and text is 400; a given image is forwarded with no seed task; the seed ratio keeps `1280:720` and `1024:1024` and is `768:1280` otherwise; the seed poll maps as in the root handler; a missing key is the caught error's 500 |
| ApiTextToImage.Handle | api/runway/text_to_image.js:7-51 | an empty prompt after the `prompt` fallback is 400; the ratio defaults to `768:1280`, `1080:1080` becomes `1024:1024`, and any other text passes unchanged; the poll's ending maps to 200 with `output[0]`, 500 with the status, the relayed error or 504 |
| App.ScriptLines | app.js:53-59 | the kept lines are the product line followed by the non-empty ones among audience, visual notes, goal and CTA, in that order |
| App.FilterKeepsOrder | app.js:53-59 | filtering five candidate lines keeps each non-empty one in its place in the order |
| App.KeptLines | app.js:53-59 | a leading non-empty line plus the kept candidates: count, order, first and last line |
| App.DefaultCtaLine | app.js:51 | an empty CTA field gives the line `Shop now!` |
| App.ScriptLinesShape | app.js:46-59 | 1 to 5 lines, none empty; the first is the trimmed product or `Amazing product for your day.`; `Made for <a>.` is the second line exactly when the trimmed audience is non-empty; the CTA (default `Shop now!`) is last |
| App.BuildScript | app.js:45-62 | the script is never empty, starts with the product line and ends with the CTA line, `Shop now!` when the field is empty |
| App.ToneIgnored | app.js:48-58 | the tone field has no effect on the script |
| App.ScriptLength | app.js:61 | the script's length is the kept lines' lengths plus one newline between neighbours |
| App.FirstStop | app.js:159-167 | the index of the first read that stops the browser loop; no earlier read stops it |
| App.ClientReads | app.js:159 | the browser makes between 1 and 60 reads |
| App.PollTask | app.js:158-168 | the `for` loop makes `ClientReads` reads and leaves the status and output of the last one |
| App.ShownExactlyOnSuccess | app.js:166-179 | a video is shown exactly when some read within 60 is SUCCEEDED with an output and no read before it stopped the loop; it shows that read's `output[0]` |
| App.FailureStopsAtOnce | app.js:167-179 | a FAILED or CANCELED read stops the loop at once, and the page reports that status |
| App.PromptFor | app.js:136 | the prompt is the script field, or a freshly built script when that is empty; it is never empty |
| App.ImageFor | app.js:144-146 | the uploaded image's URL wins over the trimmed URL field; no image when both are empty |
| App.VideoPage.constructor | app.js:104 | a fresh page has no uploaded image |
| App.VideoPage.UploadDone | app.js:120 | a finished upload records the returned URL as the page's image |
| App.VideoPage.BuildBody | app.js:136-146 | the body's prompt, ratio (default `720:1280`), duration (default `"5"`), model (default `gen4_turbo`) and image choice |
| App.VideoPage.GenerateVideo | app.js:132-185 | the body sent has the prompt, the ratio, duration and model with their defaults, and the image choice of `BuildBody`; a refused start reports `Video failed: <text>`; otherwise the page polls and shows `output[0]` with `Video ready ✓`, or reports `Video failed: <status>` |
| App.AwaitVideo | app.js:157-180 | after `ClientReads` reads, a success shows `output[0]` and every other ending reports the last status |

## Left out

- `upload.js` and `task.js` are not part of this model. They are I/O relays: one streams an upload to blob storage, the other fetches a task status once.
- HTTP, JSON and the environment are not modelled as such:
  - `fetch`, `parseBody` and `r.json()` are replaced by parameters;
  - CORS headers are not modelled;
  - reading `RUNWAY_API_KEY` from the environment is a parameter.
  - A rejected `fetch` or a malformed JSON answer, which reaches the handlers' `catch` branch, is not modelled. The one exception is the `api/runway` handlers' missing-key `throw`: it becomes the 500 with the error's message.
- Delays and their random jitter are not modelled. Each poll loop is modelled over its attempt count only.
- app.js:161-162 parses every status answer as JSON without checking `pr.ok`. A status answer that is not JSON (`task.js` sends its errors as plain text) makes the page's loop throw into the click handler's `catch`, which reports `Video failed: <parse error>` after fewer reads than `App.ClientReads`. This ending is not modelled: every read is a `App.TaskView` with a status and an output.
- In `app.js`, these are not modelled: DOM access, event listeners, the voice-over button, the "Generate Script" button's copy into the text fields, `alert`, video playback, and the intermediate `Video status: …` lines.
- The upload handler's file picker is not modelled. `App.VideoPage.UploadDone` stands for its successful end, and a failed upload leaves the page unchanged.
- Request fields are typed as the handlers use them: strings, with the empty string for an absent field. A `promptImage` that is not a string is not modelled.
- Normalize.ClampDuration: durations are integers. `Number(...)` coercion of text and fractional durations are not modelled; a field that is absent or not a number is `None`, and any number, zero and negative ones included, is `Some` of it; zero and negative numbers get the default 5.
- ApiImageToVideo.Handle: the duration is an integer; a non-integer JSON number is not modelled.
- JsText.ToLower: lower-cases ASCII letters only. JavaScript also maps non-ASCII letters, a few of them to ASCII (the Kelvin sign becomes `k`), which could complete a label that this model does not see.
- The JavaScript regular-expression engine is not modelled in general; only this one pattern is, as a scan (see above).
- The model keeps two edge cases of the source as written:
  - A status read that succeeds with an empty-string `output[0]` leaves the seed image empty. Both video handlers then answer 504 "Timeout waiting for seed image".
  - A CTA field of only white space trims to the empty string and is dropped; the `Shop now!` default applies only to an empty field.
