# Video upload and HLS transcoding, modelled in Dafny

The system takes a video file from a browser widget and checks it. The
upload route stores the file and inserts a `videos` row in phase
`processing`. It then schedules a transcode. The transcoder runs ffmpeg
through a cascade of five audio modes to produce one HLS playlist
(`hls/{id}/index.m3u8`). It then probes the file for its duration and size
and grabs a thumbnail. Finally it writes the row's terminal status, `ready`
with paths and metadata, or `error`. The widget polls the status until it
is ready and then plays the stream.

The model has one Dafny file per source file, plus three supporting
files:

| file | module | models |
|---|---|---|
| `wrappers.dfy` | `Wrappers` | `Option` and `Result` |
| `js_string.dfy` | `JsString` | the JavaScript string built-ins the code relies on: `includes`, `lastIndexOf`, one-argument `slice`, `toLowerCase` |
| `schema.dfy` | `Schema` | the `videos` row, the patches the transcoder applies, and the server state as a class: rows by id, raw files, scheduled transcodes |
| `ffmpeg.dfy` | `Ffmpeg` | `lib/ffmpeg.ts`: codec choice, `getMeta`, the option lists of `runFfmpeg`, the fallback cascade (a spec function and the loop proved equal to it), and `transcodeToHLS` updating the row |
| `upload_route.dfy` | `UploadExtension`, `UploadRoute` | `app/api/video/upload/route.ts`: the extension rule, the ordered validation chain, the raw path, and the handler that writes the file, inserts the row and schedules the transcode |
| `video_uploader.dfy` | `VideoUploader` | `components/VideoUploader.tsx`: `validateFile` and the upload state machine as a class, with one method per event |
| `video_player.dfy` | `VideoPlayer` | `toAbsoluteUrl` of `components/VideoPlayer.tsx` |

How the environment is represented:

- **ffmpeg, ffprobe and the thumbnail grab** are oracles in `Ffmpeg.Environment`:
  - which audio modes encode successfully, as a function;
  - the probe output;
  - whether the thumbnail succeeds;
  - the binary path that start-up resolved, if any.
- **`randomUUID()`** is a parameter of `UploadRoute.Post`.
- **The file-system and database errors** are parameters of `UploadRoute.Post` (save, unlink and insert) and fields of `Ffmpeg.Environment` (the ready and error updates).
- **The browser** is the caller of the `VideoUploader.Uploader` methods, one call per XHR event or poll tick.

## Model

| member | source | states |
|---|---|---|
| JsString.Includes | app/api/video/upload/route.ts:22 | `includes` is true exactly when some position of the string starts an occurrence of the needle |
| JsString.LastIndexOf | app/api/video/upload/route.ts:71 | the result is a position holding the character with none after it, or -1 when no position holds it |
| JsString.LastIndexOfUnique | app/api/video/upload/route.ts:71 | those facts determine `lastIndexOf` uniquely |
| JsString.LastIndexOfAppend | app/api/video/upload/route.ts:71 | when the tail holds the character, the last occurrence in a concatenation is the tail's, shifted by the head's length |
| JsString.Slice | app/api/video/upload/route.ts:71 | `slice(start)` returns a suffix. A negative start counts from the end and is clamped at the whole string; a start past the end gives "" |
| JsString.LowerChar | app/api/video/upload/route.ts:71 | lower-casing keeps one character per character except U+0130, and yields '.' only from '.' |
| JsString.ToLowerCase | app/api/video/upload/route.ts:71 | `toLowerCase` never shortens a string and keeps '.' in it exactly when the original had one |
| JsString.ToLowerCaseAt | app/api/video/upload/route.ts:71 | without U+0130, lower-casing keeps the length and maps each position on its own |
| JsString.ToLowerCaseKeeps | app/api/video/upload/route.ts:71 | a string with no capitals is its own lower case |
| JsString.ToLowerCaseAppend | app/api/video/upload/route.ts:71 | lower-casing distributes over concatenation |
| Schema.NewRecord | app/api/video/upload/route.ts:103-107 | the inserted row has the new id, the original name, status `processing`, and every nullable column null |
| Schema.Apply | lib/ffmpeg.ts:230-248 | the error patch changes only `status`. The ready patch sets status `ready`, both paths, duration, width and height, and keeps id and name |
| Schema.UpdateWhere | lib/ffmpeg.ts:92 | update-where-id patches only the row with that id and creates none. The set of keys is unchanged and rows stay stored under their own id |
| Schema.Server.WriteRawFile | app/api/video/upload/route.ts:89-100 | the raw file exists afterwards exactly when no error was raised; rows and jobs are untouched |
| Schema.Server.Insert | app/api/video/upload/route.ts:102-114 | the insert fails with the database error or on a duplicate key and then changes nothing; otherwise it adds exactly the row |
| Schema.Server.Update | lib/ffmpeg.ts:92 | a database error is returned and changes no row; otherwise the rows become `UpdateWhere` of the old rows |
| Schema.Server.Schedule | app/api/video/upload/route.ts:116-120 | the job is queued after those already scheduled |
| Ffmpeg.VideoCodec | lib/ffmpeg.ts:48-60 | `libx264` is chosen exactly off darwin and linux; darwin gets `h264_videotoolbox` and linux gets `h264_vaapi` |
| Ffmpeg.FirstVideoStream | lib/ffmpeg.ts:75 | `find` returns the first stream whose codec type is "video", or none when no stream is a video stream |
| Ffmpeg.GetMeta | lib/ffmpeg.ts:68-82 | a probe error rejects with that error. Otherwise the duration defaults to 0, and width and height come from the first video stream (0 when it has none or there is none) |
| Ffmpeg.OutputOptionList | lib/ffmpeg.ts:111-144 | the output options of one mode in the order they are built: the literal array, then the filter or graph pushes, then the software quality options; its properties are the `Output…` lemmas below |
| Ffmpeg.OutputOptions | lib/ffmpeg.ts:111-144 | the pushed list equals `OutputOptionList`, so order and every entry are fixed. It starts with the codec option. `-an` appears only for none and `-c:a copy` only for copy. Each of `-c:a aac`, `-b:a 128k`, `-ac 2` and `-ar 48000` appears exactly for the re-encoding modes. The HLS options, the segment pattern, `-max_muxing_queue_size 1024`, `-threads 4` and `-y` are always present. The `-af` filter appears exactly for filtered, `-filter_complex` exactly for aggressive, and each of `-crf 28` and `-preset superfast` exactly for `libx264` |
| Ffmpeg.OutputAlwaysHolds | lib/ffmpeg.ts:112-121 | every mode's list starts with the codec option and holds `-hls_time 10`, `-hls_list_size 0`, `-f hls` and the segment pattern |
| Ffmpeg.LiteralInOutput | lib/ffmpeg.ts:111-144 | a fixed option is in the output list exactly when one of the fixed pieces holds it; it is never the codec, segment or filter entry |
| Ffmpeg.FilterNotElsewhere | lib/ffmpeg.ts:124-144 | the `-af` entry occurs in no other piece of the list |
| Ffmpeg.OutputNoAudioFlag | lib/ffmpeg.ts:113 | `-an` is in the list exactly in mode none |
| Ffmpeg.OutputCopyFlag | lib/ffmpeg.ts:113 | `-c:a copy` is in the list exactly in mode copy |
| Ffmpeg.OutputAacFlag | lib/ffmpeg.ts:113 | `-c:a aac` is in the list exactly in the re-encoding modes |
| Ffmpeg.OutputBitrateFlag | lib/ffmpeg.ts:114 | `-b:a 128k` is in the list exactly in the re-encoding modes |
| Ffmpeg.OutputChannelsFlag | lib/ffmpeg.ts:114 | `-ac 2` is in the list exactly in the re-encoding modes |
| Ffmpeg.OutputRateFlag | lib/ffmpeg.ts:114 | `-ar 48000` is in the list exactly in the re-encoding modes |
| Ffmpeg.OutputFilterFlag | lib/ffmpeg.ts:125-129 | the `-af` filter is in the list exactly in mode filtered |
| Ffmpeg.OutputGraphFlag | lib/ffmpeg.ts:130-139 | `-filter_complex` is in the list exactly in mode aggressive |
| Ffmpeg.OutputCrfFlag | lib/ffmpeg.ts:142-144 | `-crf 28` is in the list exactly for the software codec |
| Ffmpeg.OutputPresetFlag | lib/ffmpeg.ts:142-144 | `-preset superfast` is in the list exactly for the software codec |
| Ffmpeg.InputOptions | lib/ffmpeg.ts:146-165 | none gives the empty list, and every other mode starts with `+discardcorrupt`. Each of copy, normal, filtered and aggressive gets its exact list. `-copyts` and `-start_at_zero` appear exactly for aggressive |
| Ffmpeg.Cascade | lib/ffmpeg.ts:193-223 | the nested try/catch chain: the modes in order up to and including the first that encodes; its properties are the `Cascade…` lemmas below |
| Ffmpeg.CascadeIsPrefix | lib/ffmpeg.ts:193-223 | the attempted modes are a prefix of the fallback order, and never empty |
| Ffmpeg.CascadeStopsAtFirstSuccess | lib/ffmpeg.ts:193-223 | every attempt before the last failed; a cascade shorter than the order ended in a success, so no mode runs after a success |
| Ffmpeg.CascadeFailsIffAllFail | lib/ffmpeg.ts:193-223 | the cascade fails exactly when every mode fails, and then all five were attempted |
| Ffmpeg.FilteredRescues | lib/ffmpeg.ts:193-212 | when normal and copy fail and filtered succeeds, exactly normal, copy and filtered run |
| Ffmpeg.CascadeStep | lib/ffmpeg.ts:193-223 | each step attempts the current mode and continues only on failure |
| Ffmpeg.CascadeSkipsFailures | lib/ffmpeg.ts:193-223 | a run of failing modes at the front is attempted in full before the rest of the cascade |
| Ffmpeg.RunCascade | lib/ffmpeg.ts:193-223 | the nested try/catch loop attempts exactly the cascade's modes and reports success exactly when the last attempt succeeded |
| Ffmpeg.HlsPlaylistPath | lib/ffmpeg.ts:233 | the stored playlist path is `hls/`, then exactly the video id, then `/index.m3u8` |
| Ffmpeg.ThumbPath | lib/ffmpeg.ts:234 | the stored thumbnail path is `thumbs/`, then exactly the video id, then `.jpg` |
| Ffmpeg.TranscodeToHLS | lib/ffmpeg.ts:84-249 | with no binary, no mode runs, the row gets `error` and the call rejects; if that update throws, the call throws and no row changes. The call resolves exactly when a mode encodes, the probe and the thumbnail succeed and the ready row is written with both paths and the probed metadata. Any failure among these, a failed ready write included, writes only `status = error` and rejects with that failure, carrying the probe's or the database's own error; if that write throws, the promise never settles and no row changes. Unless the error write fails, a row that existed ends up not `processing` |
| UploadExtension.ExtensionAsWritten | app/api/video/upload/route.ts:71 | the extension as the code computes it: the last '.' is found in the name as sent, the slice taken from the lower-cased name; its properties are `ExtensionAsWrittenAgrees` and `DottedCapitalIShiftsExtension` |
| UploadExtension.Extension | app/api/video/upload/route.ts:71 | the extension the check means: the lower-cased name from its own last '.' on; its properties are the lemmas below |
| UploadExtension.ExtensionAsWrittenAgrees | app/api/video/upload/route.ts:71 | for names without U+0130, the extension as written equals the lower-cased suffix from the last '.' |
| UploadExtension.DottedCapitalIShiftsExtension | app/api/video/upload/route.ts:71 | as written, "İ.mp4" gets the extension U+0307 ".mp4" and is refused; the intended extension is ".mp4" |
| UploadExtension.ExtensionIsLastDotSuffix | app/api/video/upload/route.ts:71 | for a name with a '.', the extension starts at the last '.', holds no other '.', and ends the lower-cased name |
| UploadExtension.ExtensionAllowedIff | app/api/video/upload/route.ts:71-72 | the extension is allowed exactly when the lower-cased name ends with `.mp4`, `.webm` or `.mov` |
| UploadExtension.NoDotRejected | app/api/video/upload/route.ts:70-77 | a name without '.' yields at most one character and is refused, as written and as intended |
| UploadExtension.LoweredPartDot | app/api/video/upload/route.ts:71 | a part with only a leading '.' keeps that '.' as its only one when lower-cased |
| UploadExtension.ExtensionOfLastPart | app/api/video/upload/route.ts:71 | the extension of a name is its last dotted part, lower-cased, whatever precedes it |
| UploadExtension.UpperCaseExtensionAccepted | app/api/video/upload/route.ts:71-72 | any name ending in `.MOV` has extension `.mov` and passes |
| UploadExtension.DoubleExtensionRejected | app/api/video/upload/route.ts:71-72 | any name ending in `.mp4.exe` has extension `.exe` and is refused |
| UploadExtension.UnknownNameRejected | app/api/video/upload/route.ts:70-77 | the default name "unknown" is refused |
| UploadRoute.IsMultipart | app/api/video/upload/route.ts:21-22 | the content-type header, "" when absent, contains `multipart/form-data`; the first check of `Validate` |
| UploadRoute.TooLarge | app/api/video/upload/route.ts:79 | only a size strictly above 500·1024·1024 is refused; 0 and exactly that size pass |
| UploadRoute.Validate | app/api/video/upload/route.ts:21-84 | the checks run in order: content type, body, parse, file present, extension, size. Each check, when it is the first to fail, gives its own 400 message, and each message arises only from its check. Acceptance holds exactly when all pass, and yields the original name (default "unknown") and an allowed extension |
| UploadRoute.ExtensionCheckedBeforeSize | app/api/video/upload/route.ts:72-84 | the size error is reported only for a file whose extension is allowed |
| UploadRoute.RawPath | app/api/video/upload/route.ts:86-87 | the raw path is the raw directory, '/', exactly the id, and the extension, in that order |
| UploadRoute.Post | app/api/video/upload/route.ts:18-125 | a validation failure gives 400 and changes nothing. A read or write error during the save gives 500 and changes nothing. An unlink error after the raw file is written gives 500 too, with the raw file left on disk and no row or job. An insert error or duplicate id gives 500: the raw file stays and nothing is scheduled. Status 200 is returned exactly when every step succeeds. Then the response is `{videoId, "processing"}`, exactly the `processing` row was added, and exactly one transcode of that id and raw path was scheduled. The lifecycle invariant is kept (every queued job's row is `processing`, no id is queued twice), and no row already in `ready` or `error` changes |
| UploadRoute.RunScheduled | app/api/video/upload/route.ts:116-120 | the oldest scheduled transcode runs and its rejection is dropped; only its row changes. A successful transcode writes the `ready` patch with both paths and the probed metadata. A failing one writes `status = error`, or leaves the row as it was when that write fails. The transcoder's synchronous throw escapes the callback. Under the lifecycle invariant the job's row was `processing` before, so a `ready` or `error` row is never written again. No other terminal row changes, and the invariant is kept for the remaining jobs |
| VideoUploader.ValidateFile | components/VideoUploader.tsx:26-34 | a file is accepted exactly when its type is one of the three and its size is at most 500·1024·1024. The type error takes precedence over the size error |
| VideoUploader.UploadErrorMessage | components/VideoUploader.tsx:65-73 | a failed upload shows the body's `error` when it is truthy, otherwise "Upload failed" |
| VideoUploader.DefaultDownloadUrl | components/VideoUploader.tsx:105 | the fallback download link is `/api/video/`, then exactly the video id, then `/download` |
| VideoUploader.Uploader.TerminalPhasesAreFinal | components/VideoUploader.tsx:46-116 | in ready and error no request is outstanding and no poll runs, so no event handler applies; only reset leaves them |
| VideoUploader.Uploader.UploadFile | components/VideoUploader.tsx:36-44 | an invalid file gives error with the check's message and sends nothing; a valid file gives uploading at 0% with a request in flight |
| VideoUploader.Uploader.OnProgress | components/VideoUploader.tsx:50-55 | a computable progress event sets the uploading percentage; any other leaves the state |
| VideoUploader.Uploader.OnLoad | components/VideoUploader.tsx:57-75 | a 2xx with a JSON body gives processing and polls the returned id. A 2xx with an unparsable body leaves the phase. Any other status gives error with the body's message |
| VideoUploader.Uploader.OnNetworkError | components/VideoUploader.tsx:77-79 | the phase becomes error with "Network error" |
| VideoUploader.Uploader.OnPollTick | components/VideoUploader.tsx:87-116 | ready with a truthy `hlsUrl` stops the poll and gives the ready state, with the download link defaulting. "error" stops it with "Transcoding failed", and a failed fetch stops it with "Failed to fetch status". Anything else changes nothing |
| VideoUploader.Uploader.Reset | components/VideoUploader.tsx:146-148 | the phase becomes idle from any phase; the invariant survives when reset comes from a phase where the widget offers it |
| VideoPlayer.ToAbsoluteUrl | components/VideoPlayer.tsx:11-14 | http(s) URLs come back unchanged. A URL starting with '/' gets the origin in front, and any other gets origin + '/'. The input is always a suffix of the result |
| VideoPlayer.NoWindowGivesRootRelative | components/VideoPlayer.tsx:13 | without `window`, a relative URL becomes one starting with '/' |
| VideoPlayer.ToAbsoluteUrlIdempotent | components/VideoPlayer.tsx:11-14 | applying it twice equals applying it once when the origin is empty or absolute |
| VideoPlayer.NullOriginNotIdempotent | components/VideoPlayer.tsx:11-14 | with the opaque origin "null", a second application prefixes the origin again |

## Left out

- **Running ffmpeg and ffprobe:**
  - binary discovery (`which`, `existsSync`, `ffmpeg-static`);
  - the fluent-ffmpeg invocation and its events;
  - the thumbnail's own options (`seekInput(1)`, `-vframes 1`, `-vf scale=640:-1`).

  Their outcomes arrive as oracles in `Ffmpeg.Environment`. Which modes succeed does not depend on the option lists in the model, because ffmpeg decides that.
- **`mkdirSync` and the working-directory prefix of the output paths.** Failures of `mkdirSync` are not modelled. Paths are joined with '/', without normalisation.
- **The filter-graph strings.** The `-af` filter chain is an opaque constant, `Ffmpeg.AudioFilterChain`. The aggressive graph's entries are kept exactly.
- **Asynchrony.**
  - Promises, `setImmediate` and `setInterval` are sequential steps. The transcode runs when `UploadRoute.RunScheduled` is called, and one poll tick is one `OnPollTick` call.
  - Interleavings of several uploads are not modelled.
  - The 3-second period of the poll is not modelled.
  - What Node does with an exception that escapes a `setImmediate` callback, or with the unobserved rejection of `executeTranscode`, is not modelled. `UploadRoute.RunScheduled` returns the escaped exception, and `Ffmpeg.TranscodeToHLS` reports the promise that never settles.
- **Upload transport.**
  - formidable's parsing is an oracle (`FormParse`), including its own `maxFileSize` refusal.
  - The temporary file formidable leaves in the raw directory when a later check refuses the upload is not modelled.
  - Reading that temporary file and writing the raw file share one error (`saveFault`). Removing the temporary file has its own (`unlinkFault`), which answers 500 with the raw file already on disk.
- **The status route.** It is not part of this model: the poll's replies are inputs of `OnPollTick`.
- **Rendering and UI plumbing:** JSX, drag and drop, and hls.js in the player. The progress percentage (`Math.round` over floating point) is an input of `OnProgress`.
- **Row columns.** The per-resolution playlist columns, `createdAt` and the `RESOLUTIONS` ladder of `db/schema.ts` are never written by this code.
- **No resolution ladder.** The code has no resolution selection, no per-resolution output and no master playlist. It probes after encoding, and a thumbnail failure ends in `error`.
- JsString.ToLowerCase: only ASCII capitals and U+0130 are mapped. Other characters keep their case, which changes neither the length nor where a '.' is.
- JsString.Slice and JsString.LastIndexOf: indices count characters, while JavaScript counts UTF-16 code units. `lastIndexOf` and `slice` shift alike, so the extension is the same.
- VideoUploader.Uploader.UploadFile: requires the idle phase, the only phase in which the widget renders its file input and drop zone (components/VideoUploader.tsx:152-178).
- VideoUploader.Uploader.OnLoad: a missing `videoId` becomes the text "undefined". That is what the status URL is built from; in JavaScript the ready state would hold `undefined` itself.
- VideoUploader.Uploader.OnLoad: a 2xx body that parses to a non-object such as `null` throws after the phase has become processing, and no poll starts. This is not modelled.
- VideoUploader.Uploader.Reset: states the invariant only when called from idle, ready or error, the phases in which the widget offers it. From uploading or processing, the request or interval would keep running.
- UploadRoute.Validate: uses the corrected extension (see Findings). The code as written is `UploadExtension.ExtensionAsWritten`.

## Findings

| source | as written | input that shows it | evidently intended | confidence | as-written member | corrected member |
|---|---|---|---|---|---|---|
| app/api/video/upload/route.ts:71 | the last '.' is located in the original name, but the slice is taken from the lower-cased name; U+0130 lower-cases to two characters, shifting every later position | a file named "İ.mp4" gets the extension U+0307 ".mp4" and is refused with 400 "Invalid file type" | the extension is the lower-cased name from its last '.', here ".mp4", and the file is accepted | high, not executed | UploadExtension.DottedCapitalIShiftsExtension | UploadExtension.ExtensionAllowedIff |
