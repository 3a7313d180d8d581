# Callable speech and transcript handlers, modelled in Dafny

The repository is a small web application on Firebase. It exposes two
callable server functions, and this project models their decision logic:

- `synthesizeSpeech` (`functions/src/ttsProcessor.ts`, compiled to
  `functions/lib/ttsProcessor.js`). It checks that the caller is signed in
  and that there is text to speak. It fills in the voice defaults and checks
  that the server holds a Google Cloud API key. It then sends one request to
  the Cloud Text-to-Speech API and returns the audio as a
  `data:audio/mp3;base64,` URL, or a classified error.
- `processTranscript` (`gemini_example.ts`). It checks that an image was
  sent and obtains a bearer token. It sends the image and a prompt to a
  Gemini model, joins the text of the streamed chunks, removes markdown code
  fences, and parses the result as JSON.

Both handlers are pure chains of early-exit checks, so they are modelled as
functions. Outside effects become inputs:

- the secret's value is `apiKey`;
- the credential provider's answer is `credential`;
- each HTTP exchange is a function `upstream` from the request that would be
  sent to the reply that would come back;
- `JSON.parse` is a partial function `parse` that returns None where it
  would throw.

So "this check runs before the upstream call" is stated as "the result is the
same for every upstream" (and the same for every credential).

Modules:

- `Wrappers` (wrappers.dfy): `Option` (None is JavaScript's `undefined`) and `Result`.
- `Callable` (callable.dfy): `HttpsError` and its codes, the values foreign
  code can throw, JavaScript truthiness of an optional string, and the outer
  `catch` shared by both handlers.
- `TtsProcessor` (tts_processor.dfy): `synthesizeSpeech`.
- `ResponseText` (response_text.dfy): chunk-text extraction and fence stripping.
- `TranscriptProcessor` (transcript_processor.dfy): `processTranscript`.

The compiled `functions/lib/ttsProcessor.js` has the same branches, messages
and constants as the TypeScript file. One model covers both, and some rows
below cite the compiled lines.

Two behaviours of the speech handler are easy to misread:

- Defaults come from destructuring, so they apply only to `undefined`.
  `speakingRate: 0` and `languageCode: ""` are kept (`DefaultsOnlyForUndefined`).
- `pitch` is never read from the request and is always sent as 0. The file
  name is always `speech.mp3`.

## Model

| member | source | states |
|---|---|---|
| `Callable.OrElse` | functions/src/ttsProcessor.ts:85 | `s \|\| fallback` for an optional string: the value when it is defined and non-empty, otherwise the fallback |
| `Callable.Catch` | functions/src/ttsProcessor.ts:105-113 | the outer catch: a returned value passes through; a classified error is rethrown unchanged; an `Error` instance becomes `internal` with its message; any other thrown value becomes `internal` with the fallback message |
| `TtsProcessor.Destructure` | functions/src/ttsProcessor.ts:29 | each of `languageCode`, `voiceName` and `speakingRate` gets its default ("en-GB", "en-GB-Journey-F", 1.0) exactly when it is undefined, and otherwise keeps the value sent |
| `TtsProcessor.RequestBody` | functions/src/ttsProcessor.ts:46-59 | the request body carries the text, language and voice name, gender "FEMALE", encoding "MP3", pitch 0, the speaking rate and effects profile ["headphone-class-device"] |
| `TtsProcessor.DataUrlRoundTrip` | functions/src/ttsProcessor.ts:101 | the audio payload can be taken back out of the data URL unchanged: it is carried verbatim |
| `TtsProcessor.DataUrl` | functions/src/ttsProcessor.ts:101 | definition: the URL is the prefix `data:audio/mp3;base64,` followed by the audio, and nothing else |
| `TtsProcessor.DataUrlPayload` | functions/src/ttsProcessor.ts:101 | the inverse of `DataUrl`: any payload it finds rebuilds the URL it came from |
| `TtsProcessor.Interpret` | functions/src/ttsProcessor.ts:73-103 | definition of the reply classification: it returns exactly for an OK reply with non-empty audio; what it raises is `permission-denied` or `internal`; an unclassified exception is the one the exchange threw |
| `TtsProcessor.SynthesizeBody` | functions/src/ttsProcessor.ts:22-103 | definition of the handler body inside its `try`: a call stopped by a check raises a classified error; a forwarded call gives the classification of the reply to the body it sends |
| `TtsProcessor.SynthesizeSpeech` | functions/src/ttsProcessor.ts:21-115 | the checks run in order: no auth gives `unauthenticated`; then missing or empty text gives `invalid-argument` "Text content is required"; then a missing or empty key gives `failed-precondition`; a success implies that all three passed |
| `TtsProcessor.UnauthenticatedIgnoresRest` | functions/lib/ttsProcessor.js:11-14 | an unauthenticated call gets the same result whatever its data, the key and the upstream |
| `TtsProcessor.RejectedCallsIgnoreUpstream` | functions/src/ttsProcessor.ts:24-65 | a call stopped by any of the three checks fails, and its result does not depend on the upstream: no request is sent |
| `TtsProcessor.TextCheckedBeforeKey` | functions/src/ttsProcessor.ts:31-41 | a call with missing or empty text fails the same way whatever the key and the upstream; whitespace-only text is not rejected as missing |
| `TtsProcessor.ForwardedBody` | functions/lib/ttsProcessor.js:28-41 | the body sent carries the caller's text, the defaulted language, voice name and rate, and pitch 0 |
| `TtsProcessor.DefaultsOnlyForUndefined` | functions/lib/ttsProcessor.js:15 | a request with only `text` is sent with every default; an explicit rate of 0 and an explicit empty language are sent unchanged |
| `TtsProcessor.PermissionDeniedReclassified` | functions/src/ttsProcessor.ts:73-83 | a non-OK reply whose `error.status` is PERMISSION_DENIED gives `permission-denied` with the fixed remediation message |
| `TtsProcessor.OtherRefusalInternal` | functions/src/ttsProcessor.ts:85 | any other non-OK reply gives `internal` "Failed to synthesize speech: " followed by the upstream message, or by "Unknown error" when that message is missing or empty |
| `TtsProcessor.DeliveredOutcome` | functions/src/ttsProcessor.ts:88-103 | an OK reply without non-empty `audioContent` gives `internal` "No audio content received from TTS API"; with it, the result has success true, file name "speech.mp3" and a data URL whose payload is the audio verbatim |
| `TtsProcessor.SuccessExactly` | functions/lib/ttsProcessor.js:60-72 | the handler succeeds if and only if the call passes the checks and the upstream's OK reply carries non-empty audio |
| `TtsProcessor.CrashWrapped` | functions/lib/ttsProcessor.js:74-79 | an exception from the HTTP exchange becomes `internal` with its message, or with "An unknown error occurred" when it is not an `Error` |
| `ResponseText.FirstText` | gemini_example.ts:137 | definition of the optional chain `candidates?.[0]?.content?.parts?.[0]?.text`; a text implies a first candidate, and the two lemmas below pin down the whole shape |
| `ResponseText.FirstTextOfShape` | gemini_example.ts:137 | a chunk whose first candidate has content whose first part is present yields exactly that part's `text` |
| `ResponseText.FirstTextShape` | gemini_example.ts:137 | conversely, a text is yielded only by a chunk of that shape, and it is that part's `text`; a break anywhere in the chain yields none |
| `ResponseText.ChunkText` | gemini_example.ts:137 | a chunk contributes its first-candidate first-part text, or "" when the chain breaks anywhere |
| `ResponseText.Combine` | gemini_example.ts:136-138 | definition of map-then-join; a joined text implies that no array element is null |
| `ResponseText.CombineIsJoin` | gemini_example.ts:136-138 | joining succeeds if and only if no array element is null; then the result is the concatenation of the chunk texts in chunk order |
| `ResponseText.CombineAppend` | gemini_example.ts:136-138 | the join of two runs of chunks is the join of the first followed by the join of the second |
| `ResponseText.StripFences` | gemini_example.ts:139 | definition of the global replace of `/```json\|```/g` by "": a left-to-right scan trying "```json" before "```"; it never lengthens the text |
| `ResponseText.StripLeavesNoFence` | gemini_example.ts:139 | after the left-to-right removal of "```json" and "```", no "```" remains anywhere |
| `ResponseText.FenceFreeUnchanged` | gemini_example.ts:139 | text that contains no "```" is left unchanged |
| `ResponseText.StripIdempotent` | gemini_example.ts:139 | stripping the fences a second time changes nothing |
| `ResponseText.UnwrapsJsonBlock` | gemini_example.ts:139 | text without "```" wrapped as "```json" … "```" comes back exactly |
| `TranscriptProcessor.BuildRequest` | gemini_example.ts:66-105 | one "user" turn with exactly two parts in order, the inline image (the request's MIME type and base64 data) and then the prompt; four safety settings for the four harm categories, each "OFF"; text modality and 8192 output tokens |
| `TranscriptProcessor.RejectionMessage` | gemini_example.ts:128 | definition: the status text stands right after "Gemini API error: ", and the raw error body ends the message |
| `TranscriptProcessor.Fetch` | gemini_example.ts:45-131 | definition of the body up to `response.json()`: it yields a response body only for a forwarded call whose reply is OK, and then exactly that body |
| `TranscriptProcessor.ParseResponse` | gemini_example.ts:134-152 | definition of the inner `try` (corrected: without line 143): anything it throws is exactly the fixed parse-failure error; a value it returns is the parse of the stripped join of a null-free chunk array |
| `TranscriptProcessor.RejectionMessageCarriesBoth` | gemini_example.ts:128 | the error message for a rejected call contains both the status text and the raw error body |
| `TranscriptProcessor.TranscriptBody` | gemini_example.ts:44-152 | definition of the body of the outer `try` (corrected: without line 143): a call stopped by a check throws; an unclassified exception is the one the credential provider or the generation call threw; a returned value is the inner `try`'s result on the body of an OK reply |
| `TranscriptProcessor.ProcessTranscript` | gemini_example.ts:42-160 | (corrected: without line 143) a missing or empty image gives `invalid-argument` "No image data provided"; then an issued but missing or empty token gives `internal` "Failed to get access token"; a success implies that both checks passed |
| `TranscriptProcessor.NoImageNoCredential` | gemini_example.ts:45-59 | without an image the result does not depend on the credential provider or the upstream: no credential is requested |
| `TranscriptProcessor.RejectedCallsIgnoreUpstream` | gemini_example.ts:45-117 | a call stopped before the request is sent fails, whatever the upstream would answer |
| `TranscriptProcessor.RejectedCallInternal` | gemini_example.ts:121-129 | a non-OK reply gives `internal`, with a message that contains the status text and the raw error body |
| `TranscriptProcessor.UnparsableReplyHidden` | gemini_example.ts:134-152 | a body that is not an array, has a null chunk, or whose stripped text does not parse gives exactly `internal` "Failed to parse transcript data", with no part of the raw reply |
| `TranscriptProcessor.ReturnsParsedChunks` | gemini_example.ts:136-144 | a reply of non-null chunks whose joined, fence-stripped text parses to `v` returns `v` (the corrected handler) |
| `TranscriptProcessor.ForeignFailuresWrapped` | gemini_example.ts:153-158 | an exception from the credential provider or the HTTP exchange becomes `internal` with its message, or "Unexpected error occurred" when it is not an `Error` |
| `TranscriptProcessor.ParseResponseAsWritten` | gemini_example.ts:141-151 | the inner `try` as written always ends in the parse-failure error, because line 143 throws after any successful parse |
| `TranscriptProcessor.ProcessTranscriptAsWritten` | gemini_example.ts:42-160 | the handler as written fails on every input |
| `TranscriptProcessor.AsWrittenNeverSucceeds` | gemini_example.ts:141-151 | as written, the handler fails on every input; where the intended handler would return a value, it gives the parse-failure error instead |
| `TranscriptProcessor.AsWrittenDiffersFromIntended` | gemini_example.ts:143-144 | for one chunk holding "```json{}```" and a parser that accepts "{}", the intended handler returns the parsed value and the handler as written fails |

## Findings

| source | as written | input that shows it | evidently intended | confidence | as-written member | corrected member |
|---|---|---|---|---|---|---|
| gemini_example.ts:143 | after a successful `JSON.parse`, the log line reads the undeclared `subjects`; the ReferenceError is caught by the inner `catch` and replaced by "Failed to parse transcript data" | one chunk whose text is "```json{}```", any image, MIME type and token | return the parsed value (line 144) | not executed; the file also fails to type-check as written | `TranscriptProcessor.AsWrittenNeverSucceeds` | `TranscriptProcessor.ReturnsParsedChunks` |

## Left out

- Logging (`console.log` and `console.error`) is left out: it does not affect results.
- The `onCall` registration, region and secret declaration are left out. They are platform configuration.
- The API URLs, the model and endpoint identifiers and `PROJECT_ID` are left out. They only address the request.
- `fetch`, `response.json()`, `response.text()`, `GoogleAuth`, `getAccessToken()`, the secret's `value()` and
  `JSON.parse` are foreign code, and their results are inputs. An exception from `fetch`, a body reader or the
  credential provider is a `Foreign` value. The secret's `value()` is modelled as never throwing: it is the input
  `apiKey`. A `JSON.parse` failure is `parse` returning None, which the inner `catch` turns into the parse-failure
  error.
- A `request.data` that is null or undefined is not modelled. Reading a field of it throws a TypeError, which surfaces
  as `internal` with an engine-defined message (in the speech handler, only after the authentication check). A
  primitive `request.data` reads every field as undefined and behaves like a request whose fields are all None.
- JSON values of unexpected types are not modelled. A number in `audioContent`, `error.message` or a chunk's text
  would be converted to a string by the template literals and by `join`. A number in `text` would be sent as a JSON
  number. A null error body would throw when `.error` is read. Strings are the only payloads modelled.
- The numbers `speakingRate`, `pitch`, `temperature` (1.0) and `topP` (0.95) are exact decimals (`real`). They are
  passed through and never computed with, so floating point does not matter here.
- The React client (`src/App.tsx`, `src/components/Login.tsx`, `src/components/TextToSpeech.tsx`) is UI state and is
  not modelled. Two mismatches with the server are worth noting. The client reads `audioContent` from the result
  (src/components/TextToSpeech.tsx:40), but the server returns `url`. It also sends a `pitch` that the server never reads.
- Concurrency and timing are left out: each call is independent, and there is no shared state.
