# emobot: emotion-annotation core, modelled in Dafny

The bot takes a photograph, posts it to a remote emotion-recognition service and draws the
result on the image. Its logic lives in `app/emotions.py`. This project models the three
functions there:

- `processRequest` is the request dispatcher. It posts, retries after HTTP 429 while
  `retries <= MAX_NUM_RETRIES`, stops on any other status, and sorts a 200/201 answer into
  nothing, parsed JSON, or raw image bytes.
- `renderResultOnImage` is the annotator. It makes one pass drawing a red rectangle over every
  face. A second pass then writes, above each face, the Russian name of its top-scoring emotion.
- `process_file` is the intake controller. It annotates only when a result came back. It then
  either saves the image and returns `None`, or returns the image.

Modules, one per component:

- `Basics` (basics.dfy): Option and byte.
- `Strings` (strings.dfy): `str.lower()` and the substring test `in`.
- `Detection` (detection.dfy): faces, scores, and Python's `max` with its first-maximal choice.
- `Dispatcher` (dispatcher.dfy): `processRequest`.
- `Annotator` (annotator.dfy): `renderResultOnImage`, and the image as a class whose `marks`
  field records every drawing call.
- `Intake` (intake.dfy): `process_file`.

How the outside world is abstracted:

- The service is a parameter `post: nat -> Response`, giving the answer to the n-th post of one call.
- `ProcessRequest` is a `while true` loop with `break`/`continue`, as in the source. It is proved
  against the specification functions `StopIndex`, `PostCount` and `RequestOutcome`.
- Drawing appends `Rectangle`/`PutText` marks to `Image.marks`.
- `RenderResultOnImage` keeps the source's two `for` loops. It is proved to append exactly
  `AnnotationPlan(result)`.

Behaviour of the code worth knowing, each stated and proved in the model:

- Retries: `MAX_NUM_RETRIES` is 10, but the guard `retries <= MAX_NUM_RETRIES` admits 11
  retries, so a run of 429 answers makes 12 posts (`RateLimitedRunExhausts`).
- Label position: the anchor `top - 10` is not clamped. It is negative for faces near the
  top edge (`LabelAnchorUnclamped`).
- No result: `process_file` writes nothing and returns `None` (`Intake.ProcessFile`).
- Ties: the label goes to the first maximal entry in the order of the score mapping
  (`Detection.ArgMax`, `Annotator.TieGoesToFirst`).
- Empty image answer: an image answer with an empty body is a non-`None` result that draws
  nothing. `process_file` then saves or returns the plain image (`Intake.EmptyImageAnswerDrawsNothing`).

## Model

| member | source | states |
|---|---|---|
| `Strings.LowerChar` | app/emotions.py:58 | definition of ASCII lower-casing of one character; properties in `LowerLeavesNoUpper` |
| `Strings.Lower` | app/emotions.py:58 | definition of `.lower()`; properties in `LowerLeavesNoUpper`, `LowerKeepsLowerCase`, `LowerIdempotent` |
| `Strings.LowerLeavesNoUpper` | app/emotions.py:58 | `.lower()` keeps the length and leaves no capital letter |
| `Strings.LowerKeepsLowerCase` | app/emotions.py:58 | a string without capitals is unchanged by `.lower()` |
| `Strings.LowerIdempotent` | app/emotions.py:58 | lower-casing twice equals lower-casing once |
| `Strings.Contains` | app/emotions.py:58-60 | definition of `pat in s` as a left-to-right scan; properties in `ContainsIff` |
| `Strings.ContainsIff` | app/emotions.py:58-60 | the left-to-right substring scan succeeds exactly when some start position matches the pattern (both directions) |
| `Strings.OccurrenceIsFound` | app/emotions.py:58-60 | a pattern occurring at any position makes `in` true |
| `Detection.ArgMaxPrefix` | app/emotions.py:96 | the left fold of `max` lands on an index whose score is at least every score seen, and strictly above every earlier one |
| `Detection.ArgMax` | app/emotions.py:96 | `max(..., key=itemgetter(1))` picks the first entry with the highest score |
| `Detection.TopEmotion` | app/emotions.py:96 | definition: the key of the `ArgMax` entry; properties in `Annotator.FaceLabelIsTopScore` |
| `Detection.ArgMaxUnique` | app/emotions.py:96 | that first maximal entry is the only index with both properties |
| `Dispatcher.ClassifySuccess` | app/emotions.py:52-61 | definition of the 200/201 classification; properties in `ZeroLengthYieldsNothing`, `JsonTypeYieldsParsedBody`, `ImageTypeYieldsRawBytes`, `UnknownTypeYieldsNothing` |
| `Dispatcher.Verdict` | app/emotions.py:52-66 | definition of the result given the last answer; properties in `FirstOtherAnswerDecides`, `ErrorStatusIsFinal` |
| `Dispatcher.PostCount` | app/emotions.py:25-68 | definition of the number of posts; connected to the loop by `ProcessRequest` |
| `Dispatcher.RequestOutcome` | app/emotions.py:25-68 | definition of the call's result; connected to the loop by `ProcessRequest` |
| `Dispatcher.StopIndex` | app/emotions.py:37-50 | the call stops at the first non-429 answer, or at the 12th post; every earlier answer was a 429 |
| `Dispatcher.ProcessRequest` | app/emotions.py:25-68 | the loop ends after 1 to 12 posts; all but the last answer were 429; the last is a non-429 unless 12 posts were made; the result is the last answer's verdict; the retry counter is posts - 1; posts and result equal `PostCount` and `RequestOutcome` |
| `Dispatcher.StopIndexIsFirstStop` | app/emotions.py:37-66 | any index preceded only by 429s, and itself non-429 unless it is the 12th post, is where the call stops |
| `Dispatcher.RateLimitedRunExhausts` | app/emotions.py:40-50 | under an unbroken run of 429s the call posts exactly `MAX_NUM_RETRIES + 2` = 12 times and returns `None` |
| `Dispatcher.FirstOtherAnswerDecides` | app/emotions.py:37-66 | after k 429s, the first other answer ends the call after k + 1 posts; a 200/201 answer is classified, any other answer gives `None` |
| `Dispatcher.ErrorStatusIsFinal` | app/emotions.py:62-66 | a status other than 200, 201 or 429 ends the call after one post with `None`, with no retry |
| `Dispatcher.StopIndexReadsPrefix` | app/emotions.py:37-50 | where the call stops depends only on answers from the current post up to the 12th |
| `Dispatcher.OnlyTwelveAnswersMatter` | app/emotions.py:37-50 | two servers that agree on the first 12 answers give the same post count and result |
| `Dispatcher.ParsedComesFromJsonAnswer` | app/emotions.py:52-59 | a parsed result comes only from a final 200/201 answer that has a non-zero or absent length, a JSON content-type and a non-empty body; the result is that answer's parsed body |
| `Dispatcher.ZeroLengthYieldsNothing` | app/emotions.py:54-55 | a content-length of 0 gives `None` whatever the content-type says |
| `Dispatcher.JsonTypeYieldsParsedBody` | app/emotions.py:56-59 | a lower-cased content-type containing `application/json` gives the parsed body when the body is non-empty, otherwise `None` |
| `Dispatcher.ImageTypeYieldsRawBytes` | app/emotions.py:60-61 | a content-type containing `image` but not `application/json` gives the raw body bytes |
| `Dispatcher.UnknownTypeYieldsNothing` | app/emotions.py:54-61 | a missing content-type, or one containing neither pattern, leaves the result `None` |
| `Dispatcher.MixedCaseJsonIsParsed` | app/emotions.py:58-59 | `Application/JSON; charset=utf-8` is recognised as JSON, because the test lower-cases first |
| `Annotator.Image.Decode` | app/emotions.py:125 | a decoded image keeps its source bytes and has nothing drawn on it |
| `Annotator.Image.DrawRectangle` | app/emotions.py:86-92 | `cv2.rectangle` appends one rectangle mark and changes nothing else |
| `Annotator.Image.DrawText` | app/emotions.py:99-107 | `cv2.putText` appends one text mark and changes nothing else |
| `Annotator.Russian` | app/emotions.py:73-82 | definition of the `emotion_rus` table; properties in `RussianInjective` |
| `Annotator.Corners` | app/emotions.py:88-89 | definition of the rectangle's corners; properties in `AnnotationPlanShape` |
| `Annotator.LabelAnchor` | app/emotions.py:102 | definition of the label anchor; properties in `LabelAnchorUnclamped` |
| `Annotator.FaceLabel` | app/emotions.py:96 | definition of the label text; properties in `FaceLabelIsTopScore` |
| `Annotator.FaceBox` | app/emotions.py:86-92 | definition of one face's rectangle mark; properties in `AnnotationPlanShape` |
| `Annotator.FaceCaption` | app/emotions.py:99-107 | definition of one face's label mark; properties in `AnnotationPlanShape` |
| `Annotator.BoxPass` | app/emotions.py:84-92 | definition of the first loop's marks; properties in `BoxPassAt`, `BoxPassLength` |
| `Annotator.CaptionPass` | app/emotions.py:94-107 | definition of the second loop's marks; properties in `CaptionPassAt`, `CaptionPassLength` |
| `Annotator.AnnotationPlan` | app/emotions.py:84-107 | definition of the whole trace; properties in `AnnotationPlanShape`, `RectanglesBeforeLabels` |
| `Annotator.FaceLabelIsTopScore` | app/emotions.py:96 | a face's label is `emotion_rus[e]`, where `e` has the highest score and comes first among equal scores |
| `Annotator.RenderResultOnImage` | app/emotions.py:71-107 | the image's marks become the old marks followed by `AnnotationPlan(result)` |
| `Annotator.BoxPassExtend` | app/emotions.py:84-92 | one more iteration of the first loop appends the next face's rectangle |
| `Annotator.CaptionPassExtend` | app/emotions.py:94-107 | one more iteration of the second loop appends the next face's label |
| `Annotator.BoxPassAt` | app/emotions.py:84-92 | the first pass draws one rectangle per face, the i-th over the i-th face |
| `Annotator.BoxPassLength` | app/emotions.py:84-92 | the first pass draws as many rectangles as there are faces |
| `Annotator.CaptionPassAt` | app/emotions.py:94-107 | the second pass draws one label per face, the i-th for the i-th face |
| `Annotator.CaptionPassLength` | app/emotions.py:94-107 | the second pass draws as many labels as there are faces |
| `Annotator.AnnotationPlanShape` | app/emotions.py:84-107 | the trace has 2n marks; mark i is face i's rectangle from `(left, top)` to `(left+width, top+height)`, red, thickness 5; mark n+i is face i's label at `(left, top-10)` in the Hershey complex font, scale 1, red, thickness 1 |
| `Annotator.RectanglesBeforeLabels` | app/emotions.py:84-107 | no label precedes a rectangle; a mark is a rectangle exactly when it is among the first n |
| `Annotator.LabelAnchorUnclamped` | app/emotions.py:102 | the label is anchored 10 pixels above the rectangle's top-left corner, and is negative when `top < 10` |
| `Annotator.HappinessWins` | app/emotions.py:96 | scores happiness 90 and neutral 10 give the label `Радость` |
| `Annotator.TieGoesToFirst` | app/emotions.py:96 | with two equal scores, the emotion listed first is chosen |
| `Annotator.RussianInjective` | app/emotions.py:73-82 | the fixed 8-entry table gives different emotions different labels |
| `Annotator.EmptyResultDrawsNothing` | app/emotions.py:84-107 | an empty face list draws nothing |
| `Intake.Truthy` | app/emotions.py:129 | definition of `if saveto:`; used by `ProcessFile` |
| `Intake.DrawnFaces` | app/emotions.py:123-127 | definition of the faces drawn for a non-`None` result; used by `ProcessFile` |
| `Intake.EmptyImageAnswerDrawsNothing` | app/emotions.py:123-133 | an image answer with an empty body passes the requires of `ProcessFile` and draws nothing |
| `Intake.ProcessFile` | app/emotions.py:110-133 | with no result: returns `None` and writes nothing; with any other result and a truthy `saveto`: writes the annotated image there and returns `None`; otherwise: returns a fresh image of the submitted bytes carrying exactly the annotation plan |

## Left out

- `app/bot.py`: Telegram transport glue (handlers, polling, download, `sendPhoto`). It has no logic of its own.
- `requests.post` is the oracle `post`. The URL, the `json`, `params` and `data` arguments, and the headers built in `process_file` (app/emotions.py:117-119) are not modelled, because the oracle does not depend on them.
- Network exceptions raised by `requests.post` are not modelled.
- `time.sleep(1)` is represented only by the retry counter `ProcessRequest` returns.
- Logging, `print`, and the `response.json()['error']['message']` lookups on the 429 and error paths are left out. They are diagnostic only; an exception raised in them is not modelled.
- `int(response.headers['content-length'])` is taken as already parsed: `contentLength` is an `Option<int>`. A non-numeric header, which raises in Python, is not modelled.
- The `isinstance(..., str)` test always holds, because header values are strings in the model.
- `Strings.Lower`: only ASCII `A`–`Z` are lower-cased. Python's `str.lower` also maps non-ASCII letters.
- `response.json()` is given as the `parsed` field, a list of faces. JSON parsing, and the exception on a malformed body, are not modelled.
- Scores are floats in the source. Here they are integers, because only their order matters.
- Score keys are the closed `Emotion` type, so the `KeyError` of an unknown key cannot arise.
- `Annotator.RenderResultOnImage` requires every face to have at least one score. On an empty score mapping Python's `max` raises.
- `Intake.ProcessFile` requires that the service's result is not a non-empty byte string. On that path `renderResultOnImage` iterates over the bytes as if they were faces, and `currFace['faceRectangle']` fails at runtime (app/emotions.py:61, app/emotions.py:84-85, app/emotions.py:127). An empty byte string is modelled: it draws nothing.
- `Image.open`, `thumbnail((800, 800))` and the JPEG encoding (app/emotions.py:111-115) are foreign library calls. `ProcessFile` takes the encoded bytes `data` as input.
- `cv2.imdecode` keeps the bytes it decodes.
- `cv2.imwrite` is recorded as a `Written` value holding the path, the source bytes and the marks.
- Pixels, rendering, fonts and clipping are not modelled; drawing is a trace of marks.
