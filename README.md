# mindscribe backend: the decision layer, in Dafny

mindscribe's backend is an Express server with four JSON routes and an upload route:

- `POST /api/transcribe` takes an uploaded audio file and returns its transcript.
- `POST /api/summarize` takes a transcript and returns a summary.
- `POST /api/tts` synthesizes speech and uploads the audio to cloud storage.
- `POST /api/saveNote` and `GET /api/notes` store and list a user's notes.

All real work happens in external services: Gemini, Cloud Text-to-Speech, Firestore and Cloud Storage. This project models the deterministic code around those calls:

- the request guards, with JavaScript truthiness, `typeof` and `trim` made explicit;
- the JSON envelopes each route answers with;
- which external calls each route makes, and in what order;
- the multer upload filter and size limit;
- the extension-to-MIME table behind `getMimeType`, with Node's `path.extname` rules;
- the temporary-file discipline of the transcribe handler;
- the error and 404 middlewares.

Every external call is a function-valued parameter that resolves with a value or rejects with an error. Each JSON route returns a `Run`: the handler's own response or the error it passes to `next`, together with the calls it made, in order. The transcribe handler and route are methods on the upload directory; they return the same outcome together with a ghost sequence of the calls they made. This makes properties such as "no synthesis on a 400 path" or "the upload receives exactly the synthesized buffer" statable.

Modules, one per file:

- `JsValues`: JavaScript values and truthiness, `a || b`, thrown errors and `new Error(msg)`.
- `JsStrings`: `toLowerCase` and `trim`.
- `NodePath`: POSIX `path.extname`, written as the three index scans Node performs: trailing slashes, then the start of the last component, then its last dot.
- `Http`: responses, envelopes, outcomes and recorded calls.
- `FileHandler`: `getMimeType`, plus an `UploadDir` class, the upload directory on disk, with `readFile`, `readAudioFile`, `cleanupFile` and multer's write. Its fields are updated in place. It also keeps a ghost log of every cleanup.
- `Guards`: the two guard shapes the JSON routes share.
- `SummarizeRoute`, `TtsRoute`, `NotesRoute`: the JSON handlers, written as pure functions.
- `TranscribeRoute`: the multer filter predicate and the 10 MiB limit (`MaxFileSize` = 10485760), plus two imperative methods:
  - the handler, which mirrors the `tempFilePath` variable (null, then the path, then null again) and its try/catch;
  - the whole route: filter, size limit, write, handler.
- `ErrorHandler`: `errorHandler`, `notFoundHandler`, and `Deliver`, which composes a handler's outcome with the error middleware.

Two observations come out of the proofs:

- **Filter and MIME table can disagree.** A dot-file such as `.webm` passes the upload filter, because its name ends in `.webm`. Under `path.extname`, though, it has no extension, so it is transcribed as `audio/mpeg` (`TranscribeRoute.DotFileAcceptedAsDefault`).
- **Rejected uploads are answered with 500, not 400.** The filter refuses a file by passing a plain `Error` to multer, and multer's "File too large" is a plain error too. Neither carries a status, so the error middleware answers with 500 (`ErrorHandler.PlainErrorIs500`). A client would usually expect a 400 for a refused upload; the code answers 500, and the model follows the code.

## Model

| member | source | states |
|---|---|---|
| JsValues.Truthy | backend/src/routes/summarize.js:14 | `!x` holds exactly for `undefined`, `null`, `false`, `0` and `""` |
| JsValues.Or | backend/src/middleware/errorHandler.js:8-9 | `a \|\| b` yields `a` when it is truthy and `b` otherwise; the result is truthy iff either operand is |
| JsValues.PlainError | backend/src/routes/transcribe.js:21 | `new Error(msg)` has the message `msg` and neither a truthy `status` nor a truthy `statusCode` |
| JsStrings.LowerStr | backend/src/utils/fileHandler.js:28 | lower-casing keeps the length and maps each character on its own |
| JsStrings.LowerStrIdempotent | backend/src/utils/fileHandler.js:28 | lower-casing twice is lower-casing once |
| JsStrings.EndsWithIgnoringCase | backend/src/routes/transcribe.js:18 | the `$`-anchored `/i` match: the text is at least as long as the suffix, and its last characters equal the suffix's, character by character, up to case |
| JsStrings.IsWhitespace | backend/src/routes/summarize.js:21 | the characters `trim` removes: the ECMAScript WhiteSpace and LineTerminator code points |
| JsStrings.TrimStart | backend/src/routes/summarize.js:21 | the result is the suffix left after the longest all-whitespace prefix: what it drops is whitespace, it starts with a non-whitespace character, and it is empty iff the text is all whitespace |
| JsStrings.TrimEnd | backend/src/routes/summarize.js:21 | the same, mirrored, for the end of the text |
| JsStrings.Trim | backend/src/routes/summarize.js:21 | a trimmed text is no longer than the input, and neither starts nor ends with whitespace |
| JsStrings.TrimEmptyIffBlank | backend/src/routes/summarize.js:21 | `s.trim().length === 0` holds exactly when every character of `s` is whitespace |
| NodePath.TrimmedEnd | backend/src/utils/fileHandler.js:28 | `extname` ignores exactly the trailing run of `/` characters |
| NodePath.SegmentStart | backend/src/utils/fileHandler.js:28 | the last component starts just after the last `/` before its end, and holds no `/` |
| NodePath.LastDotIn | backend/src/utils/fileHandler.js:28 | the extension starts at the last dot of the component, when there is one |
| NodePath.ComponentExt | backend/src/utils/fileHandler.js:28 | an extension is empty, or a dot followed by dot-free text that ends the component |
| NodePath.ExtName | backend/src/utils/fileHandler.js:28 | `path.extname` yields `""`, or a dot followed by text holding no dot and no `/` |
| NodePath.ExtNameOfSuffix | backend/src/utils/fileHandler.js:28 | only the final extension counts: `stem + ext` has extension `ext` (so `x.wav.mp3` has `.mp3`) |
| NodePath.DotFileHasNoExtension | backend/src/utils/fileHandler.js:28 | a component that starts with its only dot (`.ogg`, `dir/.ogg`) has no extension |
| NodePath.DotlessHasNoExtension | backend/src/utils/fileHandler.js:28 | a path without a dot has no extension |
| NodePath.ExtNameIsSuffix | backend/src/utils/fileHandler.js:28 | for a name that does not end in `/`, the extension is a suffix of the name |
| NodePath.TrimmedEndSame | backend/src/utils/fileHandler.js:28 | the trailing-slash scan depends only on where the `/` characters are |
| NodePath.SegmentStartSame | backend/src/utils/fileHandler.js:28 | the component scan depends only on where the `/` characters are |
| NodePath.LastDotInSame | backend/src/utils/fileHandler.js:28 | the dot scan depends only on where the `.` characters are |
| NodePath.ExtNameLower | backend/src/utils/fileHandler.js:28 | the extension of the lower-cased name is the lower-cased extension |
| Http.Ok | backend/src/routes/summarize.js:33-36 | `res.json` without a status answers 200 with exactly the envelope it was given, a success envelope |
| Http.BadRequest | backend/src/routes/summarize.js:15-18 | a guard's answer is a 400 whose envelope carries the message and no stack |
| FileHandler.GetMimeType | backend/src/utils/fileHandler.js:27-37 | the MIME type is always one of the five table values, never empty |
| FileHandler.MimeKeyShape | backend/src/utils/fileHandler.js:29-35 | every table key is a dot followed by dot-free, slash-free text |
| FileHandler.ExtensionShapeOfKey | backend/src/utils/fileHandler.js:28-35 | a text that lower-cases to a table key has a key's shape |
| FileHandler.KnownExtensionMapsExactly | backend/src/utils/fileHandler.js:29-35 | a name ending in a table extension, in any case and after any non-empty stem, gets exactly that extension's MIME type |
| FileHandler.MimeIgnoresCase | backend/src/utils/fileHandler.js:28 | names equal up to case get the same MIME type (`A.WAV` and `a.wav`) |
| FileHandler.DotFileGetsDefault | backend/src/utils/fileHandler.js:36 | a dot-file (`.ogg`) gets the default `audio/mpeg` |
| FileHandler.DotlessNameGetsDefault | backend/src/utils/fileHandler.js:36 | a name without an extension gets the default `audio/mpeg` |
| FileHandler.NoSuchFile | backend/src/utils/fileHandler.js:15 | the error for a missing file has a message but no status |
| FileHandler.AfterCleanup | backend/src/utils/fileHandler.js:45 | unlink removes the path unless the removal fails, and leaves every other file as it was |
| FileHandler.CleanupEntry | backend/src/utils/fileHandler.js:46-48 | cleanup logs `Cleaned` exactly when the file is present and its removal is not refused, and otherwise `CleanupFailed` with the failure's message |
| FileHandler.UploadDir.ReadFile | backend/src/routes/transcribe.js:45 | a read resolves with the stored bytes exactly when the file is present and readable; otherwise it rejects with the failure's error or with ENOENT |
| FileHandler.UploadDir.ReadAudioFile | backend/src/utils/fileHandler.js:13-20 | the same read, but a failure is rethrown as a new error whose message is `Failed to read audio file: ` followed by the original message |
| FileHandler.UploadDir.CleanupFile | backend/src/utils/fileHandler.js:43-50 | it always completes: the file is removed when that can be done, a failed removal is only logged, exactly one log entry is appended, and the call is recorded once |
| FileHandler.UploadDir.Store | backend/src/routes/transcribe.js:12 | multer's disk storage writes the part under the path it chose |
| Guards.IsNonEmptyString | backend/src/routes/notes.js:14 | a field passes `!x \|\| typeof x !== 'string'` exactly when this holds |
| Guards.IsText | backend/src/routes/summarize.js:14-26 | a field passes both guards exactly when it is a non-empty string whose `trim()` is not empty |
| Guards.RequireString | backend/src/routes/notes.js:14-19 | `!x \|\| typeof x !== 'string'` refuses exactly the values that are not non-empty strings, with the given message |
| Guards.RequireText | backend/src/routes/summarize.js:14-26 | the presence guard first, then the whitespace guard; `""` gets the first message; a field is accepted iff it is a string with a non-whitespace character, and is returned untrimmed |
| SummarizeRoute.Summarize | backend/src/routes/summarize.js:10-40 | the two guard answers in order; no summarizer call on any 400 path; a valid transcript is summarized untrimmed; the summary is returned as `{success:true, summary}` or the failure goes to `next` |
| TtsRoute.TtsFileName | backend/src/routes/tts.js:36 | the object name is `tts_`, then the identifier, then `.mp3` |
| TtsRoute.TtsFileNameInjective | backend/src/routes/tts.js:36 | distinct identifiers give distinct object names |
| TtsRoute.TtsFileNameIsMp3 | backend/src/routes/tts.js:36 | for a slash-free identifier, the object name has the extension `.mp3` |
| TtsRoute.Tts | backend/src/routes/tts.js:12-46 | the two guard answers; nothing is called on a 400 path; synthesis comes first, then the upload of exactly the synthesized buffer under `tts_<uuid>.mp3`; either `{success:true, audioUrl}` or the failure goes to `next` |
| TtsRoute.UploadFollowsSynthesis | backend/src/routes/tts.js:33-37 | any upload is the second call, after a successful synthesis of the request's text, and carries that synthesis's audio |
| NotesRoute.TranscriptOrEmpty | backend/src/routes/notes.js:31 | a falsy transcript becomes `""`, and a truthy one is passed as sent |
| NotesRoute.SaveNote | backend/src/routes/notes.js:10-41 | `userId` is checked before `summary`; the store is called iff both are non-empty strings; the answer is `{success:true, status:'saved', note}` with the store's note, or the failure goes to `next` |
| NotesRoute.ListNotes | backend/src/routes/notes.js:47-71 | a query value that is not a non-empty string (an array, say) gets the 400; otherwise the store is called once, and `count` always equals the length of `notes` |
| NotesRoute.WhitespaceSummaryAccepted | backend/src/routes/notes.js:21 | a whitespace-only summary is stored, where the same text is refused by `/api/summarize` |
| TranscribeRoute.MaxFileSize | backend/src/routes/transcribe.js:14 | the upload limit, 10 * 1024 * 1024 = 10485760 bytes |
| TranscribeRoute.HasAudioExtension | backend/src/routes/transcribe.js:18 | the pattern `/\.(mp3\|wav\|m4a\|ogg\|webm)$/i`: the name ends, up to case, in one of the five extensions |
| TranscribeRoute.AcceptsFile | backend/src/routes/transcribe.js:16-23 | the `fileFilter` accepts exactly when the declared mimetype is one of the six allowed ones, or the name ends, up to case, in a key of the MIME table |
| TranscribeRoute.HasAudioExtensionIffTableKey | backend/src/routes/transcribe.js:18 | the filter's name pattern matches iff the name ends, up to case, in a key of the MIME table |
| TranscribeRoute.EndsWithItsSuffix | backend/src/routes/transcribe.js:18 | a name ending with an extension ends with it up to case |
| TranscribeRoute.TableKeysAreLowerCase | backend/src/utils/fileHandler.js:29-35 | the table keys are already lower-case |
| TranscribeRoute.AcceptedNameGetsItsMime | backend/src/routes/transcribe.js:18 | a name ending in a table extension is accepted whatever its declared mimetype, and is transcribed with that extension's MIME type |
| TranscribeRoute.DotFileAcceptedAsDefault | backend/src/routes/transcribe.js:18 | a dot-file such as `.webm` is accepted but transcribed as `audio/mpeg` |
| TranscribeRoute.NameEndsWithItsExtension | backend/src/routes/transcribe.js:18 | a name not ending in `/` ends, up to case, in its lower-cased extension |
| TranscribeRoute.UnrecognisedNameGetsDefault | backend/src/routes/transcribe.js:18 | a name the filter's pattern does not recognise gets the default `audio/mpeg` |
| TranscribeRoute.TranscribeHandler | backend/src/routes/transcribe.js:30-66 | with no file: a 400, and nothing read, transcribed or cleaned. With a file: it is cleaned up exactly once on every path, with exactly one log entry, a read error goes to `next` without transcription, and a readable file is transcribed once with `getMimeType(originalname)`, answering `{success:true, transcript}` or forwarding the failure |
| TranscribeRoute.PostTranscribe | backend/src/routes/transcribe.js:11-24 | with no part: the 400 and nothing changed. A refused or oversized part gets the plain error and is never written, cleaned or transcribed. An accepted one is written, cleaned up exactly once and no other file is touched; an unreadable write gives its read error; otherwise it is transcribed with its own bytes and `getMimeType(originalname)`, answering `{success:true, transcript}` or forwarding the failure |
| ErrorHandler.ResolveStatus | backend/src/middleware/errorHandler.js:8 | the status is `err.status` if truthy, else `err.statusCode` if truthy, else 500 |
| ErrorHandler.ResolveMessage | backend/src/middleware/errorHandler.js:9 | the message is `err.message` if truthy, else `Internal Server Error` |
| ErrorHandler.HandleError | backend/src/middleware/errorHandler.js:4-19 | the envelope always has `success:false`, a truthy status and a message; the stack is present iff `NODE_ENV` is `development`, and is then `err.stack` |
| ErrorHandler.NotFoundMessage | backend/src/middleware/errorHandler.js:28 | the message is `Route `, then the URL, then ` not found` |
| ErrorHandler.NotFoundMessageRoundTrip | backend/src/middleware/errorHandler.js:28 | the URL can be read back from the 404 message |
| ErrorHandler.NotFoundMessageInjective | backend/src/middleware/errorHandler.js:28 | distinct URLs give distinct 404 messages |
| ErrorHandler.NotFound | backend/src/middleware/errorHandler.js:24-31 | an unmatched route always gets 404, `success:false`, the route in the message and no stack |
| ErrorHandler.Deliver | backend/src/middleware/errorHandler.js:4-19 | a handler's own response reaches the client unchanged; a forwarded error reaches it as the middleware's envelope |
| ErrorHandler.PlainErrorIs500 | backend/src/middleware/errorHandler.js:8-9 | a plain `Error` passed to `next`, such as the filter's refusal, reaches the client as a 500 carrying its message |

## Left out

- External services are abstract parameters that either resolve or reject: Gemini transcription, summarization and speech synthesis; Firestore `saveNote` and `getNotes`; Cloud Storage upload. Their prompts, HTTP calls and base64 handling are not modelled. The same goes for the note shape Firestore returns, including the spread of `noteData` over `id`.
- `randomUUID()` is a parameter of `TtsRoute.Tts`, and the random file name multer picks is a parameter of `TranscribeRoute.PostTranscribe`.
- TranscribeRoute.PostTranscribe: requires a non-empty storage path, because multer always generates a non-empty random name.
- The file system is the `UploadDir` map. Which reads and unlinks fail beyond a missing file is given up front, with the message each failure raises. Error codes other than ENOENT are not distinguished.
- FileHandler.UploadDir.Store: multer's disk write always succeeds here. A failed write, which multer forwards to `next` before the handler runs, is not modelled.
- Console logging is left out, except the cleanup step's log entries. The `console.log` lines of the handlers are not modelled.
- Concurrency and the interleaving of awaits are not modelled. Each handler runs to completion on its own.
- Multer's other checks are not modelled: a part under a name other than `audio` (`LIMIT_UNEXPECTED_FILE`), and multipart parsing errors.
- The Express wiring (CORS, JSON body parsing, router mounting, process-level handlers) and the environment loading are not modelled.
- JsValues.JsValue: numbers are integers. NaN, fractions and `-0` are not modelled. `NaN` and `-0` are falsy in JavaScript, so a `status` holding one of them is not covered.
- JsValues.Err: a thrown error is reduced to `status`, `statusCode`, `message` and `stack`. A thrown non-object, and getters with side effects, are not modelled.
- JsValues.PlainError: the stack is `Error: ` followed by the message. The call-site frames after that first line are not modelled.
- JsStrings.LowerStr: maps only `A`–`Z`. No other character's lower-case form is a dot, a `/` or one of the letters of the table keys, so table lookups come out the same as with the full Unicode `toLowerCase`. Lower-cased names as such are not modelled beyond ASCII.
- JsStrings.IsWhitespace: lists the ECMAScript WhiteSpace and LineTerminator code points; every property is stated through it.
- NodePath.ExtName: models the POSIX variant of `path`; the Windows variant is not modelled.

