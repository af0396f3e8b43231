# Camera panel core, modelled in Dafny

The system is a Node.js panel for RTMP security cameras:
- It records each live stream to `.mp4` segments and keeps a SQLite catalog of them. Rows marked `salvar = 1` are exempt from retention.
- It serves a bearer-token-protected web panel, plus a JSON API for recordings, photos and camera selection.
- It can locate an ffmpeg binary.
- Two maintenance scripts come with it: one empties the HLS cache, one diagnoses a camera from the server's status endpoint.

This project models the deterministic core of that system and proves properties of the model.

Modules, one per source file:

- `Catalog` (`catalog.dfy`, `src/services/database.js`)
  - The `videos` table as a class over a row sequence, with an AUTOINCREMENT counter.
  - Each SQL statement is a filter or map over the rows.
- `Recording` (`recording.dfy`, `src/services/recording.js`)
  - The module-level `recordingTimers` map, the output file names, and the rows a finished capture adds.
  - The outcome of the ffmpeg subprocess is an input.
- `Auth` (`auth.dfy`, `src/middleware/auth.js`): the bearer-token middleware as a decision on path and header.
- `Api` (`api.dfy`, `src/routes/api.js`)
  - The answers of `/files`, `/photos`, `/salvar/:filename`, `/save/:camera`, `POST /photo-cameras` and `POST /updates`.
  - Each answer is a function of the directory listing, the catalog or the request body.
- `FFmpegLocator` (`ffmpeg_manager.dfy`, `src/utils/ffmpeg-manager.js`)
  - The `FFmpegManager` state (`ffmpegPath`, `isInitialized`).
  - The static module, `fs.existsSync` and `execSync` become inputs and oracles.
- `Cleanup` (`cleanup.dfy`, `cleanup.js`): `cleanHLSFiles` as nested loops over an abstract two-level directory tree. Failing unlinks and unreadable entries are oracle inputs.
- `CameraCheck` (`camera_check.dfy`, `check-camera.js`): the elapsed-time line, the diagnosis cascade, the suggestion blocks and the error classification.
- `Basics`, `Seqs`, `Text`: shared helpers, not tied to one source file.
  - Option and Result.
  - Filter and a stable insertion sort.
  - The JavaScript string operations the core uses: `startsWith`, `endsWith`, `includes`, `indexOf`, `split(sep)[0]` and `[1]`, `replace` with a string pattern, `toLowerCase`, and `localeCompare` taken as code-point order.

## Model

| member | source | states |
|---|---|---|
| Catalog.VideoCatalog.constructor | src/services/database.js:10-19 | a fresh table is empty and the first id handed out is 1 |
| Catalog.VideoCatalog.SaveVideo | src/services/database.js:22-27 | appends exactly one row with the given filename, path and timestamp; `salvar` is the flag, false by default; the new id exceeds every existing id; ids stay increasing |
| Catalog.VideoCatalog.MarkAsImportant | src/services/database.js:50-58 | the rows become `MarkImportant` of the old rows; the returned change count is the number of rows with that filename, and it is 0 iff no row has it |
| Catalog.VideoCatalog.GetOldVideos | src/services/database.js:63-67 | exactly the rows with `salvar = 0` and `timestamp < t`; in id order when the ids increase along the table, so each such row appears once and the result is fixed |
| Catalog.VideoCatalog.GetImportantVideos | src/services/database.js:36-40 | a permutation (as a multiset) of the rows with `salvar = 1`, in non-increasing timestamp order |
| Catalog.VideoCatalog.DeleteVideo | src/services/database.js:76-79 | the rows become the old rows without that id; the count drops by one iff the id is present |
| Catalog.OldVideos | src/services/database.js:63-67 | membership iff `!salvar && timestamp < t`; id order is kept |
| Catalog.ImportantVideos | src/services/database.js:36-40 | a permutation of the saved rows, membership iff `salvar`, sorted by timestamp descending |
| Catalog.MarkImportant | src/services/database.js:50-53 | same length; each row has `salvar` set iff it was set or the filename matches, and nothing else changes |
| Catalog.Named | src/services/database.js:52-57 | the rows the `WHERE filename = ?` matches; empty iff no row has that filename |
| Catalog.WithoutId | src/services/database.js:76-78 | membership iff the id differs; id order is kept |
| Catalog.MarkImportantEffect | src/services/database.js:50-53 | marking changes only `salvar`, only on rows with that name, and sets it there |
| Catalog.MarkImportantIdempotent | src/services/database.js:50-58 | a second mark leaves the table unchanged and reports the same count |
| Catalog.MarkedNeverOld | src/services/database.js:63-67 | after marking a name, no row of that name is a retention candidate at any cutoff |
| Catalog.WithoutIdRemovesOne | src/services/database.js:76-79 | with AUTOINCREMENT ids, deleting an id removes exactly one row if present, none otherwise |
| Catalog.WithoutAbsentId | src/services/database.js:76-79 | deleting an absent id is a no-op |
| Catalog.DeletingOldKeepsSaved | src/services/database.js:63-79 | deleting any retention candidate keeps every saved row |
| Recording.SanitizeTimestamp | src/services/recording.js:15 | every `:` and `.` becomes `-` and every other character is kept, so neither character remains |
| Recording.ContinuousFileName | src/services/recording.js:15-16 | the name is `<stream>-<sanitized ts>.mp4` |
| Recording.ManualFileName | src/services/recording.js:38-39 | the name is `<camera>-manual-<sanitized ts>.mp4` |
| Recording.Basename | src/services/recording.js:24 | the result is a `/`-free suffix of the path, preceded by `/` unless it is the whole path |
| Recording.BasenameOfJoin | src/services/recording.js:16-24 | the basename of `dir/name` is `name` when `name` has no `/` |
| Recording.Started | src/services/recording.js:8-14 | the stream gets a timer unless `recordingTimers[stream]` is already truthy, which an existing timer or a name inherited from `Object.prototype` (`constructor`, `toString`, `__proto__`, …) makes it; no other entry changes |
| Recording.OwnStreamsOnly | src/services/recording.js:8-14 | no inherited property name ever holds a timer, and starting or stopping a stream with such a name changes nothing |
| Recording.Stopped | src/services/recording.js:30-35 | the stream has no timer; every other entry is unchanged |
| Recording.StartIdempotent | src/services/recording.js:12 | starting twice equals starting once |
| Recording.StopUndoesStart | src/services/recording.js:30-35 | stopping an absent stream is a no-op, and stopping undoes a fresh start |
| Recording.RecordingService.constructor | src/services/recording.js:8 | no stream has a timer |
| Recording.RecordingService.StartContinuousRecording | src/services/recording.js:11-28 | the timer map becomes `Started` of the old map; a stream whose lookup is already truthy consumes no handle |
| Recording.RecordingService.StopRecording | src/services/recording.js:30-35 | the timer map becomes `Stopped` of the old map |
| Recording.RecordingService.RecordSegment | src/services/recording.js:14-26 | a successful capture appends one row with `salvar = false` and the file's basename and advances the id counter; a failed one changes nothing |
| Recording.RecordingService.SaveManualRecording | src/services/recording.js:37-52 | on success, appends one row with `salvar = true`, advances the id counter and resolves to the basename; on error, rejects with the message and adds no row |
| Recording.ManualNameRoundTrip | src/services/recording.js:39-48 | the resolved name is exactly `<camera>-manual-<ts>.mp4` when neither part has `/` |
| Auth.Authorize | src/middleware/auth.js:3-12 | passes iff the path is unprotected or the header is exactly `Bearer <token>`; every refusal is 401 with `Bearer realm="Painel"` and `Não autorizado`; a missing or empty header on a protected path is refused |
| Auth.ProtectionExamples | src/middleware/auth.js:4-6 | `/recordingsX` is protected; `/files/x` is not; a lower-case `bearer` is refused |
| Auth.DefaultTokenExamples | src/middleware/auth.js:1-6 | with the default token `painel123`, `Bearer painel123` opens the panel and the bare token does not |
| Api.RecordingFiles | src/routes/api.js:8-15 | 500 `Erro ao ler arquivos` iff the directory cannot be read; otherwise exactly the `.mp4` entries |
| Api.RecordingFilesKeepOrder | src/routes/api.js:11 | the listing keeps directory order: the answer for `a + b` is the answer for `a`, then for `b` |
| Api.RecordingsAreListed | src/routes/api.js:11 | every continuous or manual recording name ends in `.mp4`, so `/files` lists it |
| Api.PhotoCamera | src/routes/api.js:92 | the camera is the `_`-free prefix up to the first `_`, or the whole name |
| Text.SecondField | src/routes/api.js:93 | `split(sep)[1]`: undefined iff `sep` does not occur; otherwise the prefix of the text after the first `sep` that runs up to the first `sep` in that text, or to its end |
| Text.RemoveFirst | src/routes/api.js:93 | `replace(p, '')` with a string pattern: unchanged when `p` does not occur; otherwise exactly the first occurrence is cut out |
| Api.PhotoTimestamp | src/routes/api.js:93 | undefined iff the name has no `_`; otherwise the field after `_TEST_` (if the name has one) or after the first `_`, minus its first `.jpg` |
| Api.ToPhotos | src/routes/api.js:89-94 | one photo object per file, in order |
| Api.NewerOrSameIsTotalPreorder | src/routes/api.js:99 | the newest-first order is total and transitive, so the sort is well defined |
| Api.PhotosResponse | src/routes/api.js:78-104 | 500 with the error iff the directory cannot be read; otherwise exactly the image files; `count` equals the number of photos; the photos are a permutation of the parsed files, newest first |
| Api.UndatedPhotosLast | src/routes/api.js:93-99 | every photo after an undated one has an empty sort key |
| Api.CompareAsWritten | src/routes/api.js:99 | the comparator throws iff `b` has no timestamp |
| Api.UndatedPhotosBreakListing | src/routes/api.js:93-99 | for `a.jpg` and `b.jpg`, every comparison throws |
| Api.JpgIsPhotoFile | src/routes/api.js:86 | a `.jpg` name is a photo file |
| Api.CameraBeforeUnderscore | src/routes/api.js:92 | the camera of `<camera>_<rest>` is `<camera>` |
| Api.TimestampField | src/routes/api.js:93 | `<ts>.jpg` loses its `.jpg` and nothing else |
| Api.NoTestMarker | src/routes/api.js:93 | a name with a single `_` has no `_TEST_` |
| Api.PhotoNameRoundTrip | src/routes/api.js:86-93 | `<camera>_<ts>.jpg` is listed and parses back to its camera and timestamp |
| Api.TestPhotoNameRoundTrip | src/routes/api.js:86-93 | `<camera>_TEST_<ts>.jpg` parses back the same way |
| Api.SalvarReply | src/routes/api.js:29-33 | 404 iff zero changes; 200 with `success` for any positive count; success iff 200 |
| Api.Salvar | src/routes/api.js:27-37 | marks the rows; 404 iff the catalog had no row with that name, and 200 with `success` when it had one; on 200 every row with that name is saved |
| Api.Save | src/routes/api.js:17-25 | success iff the capture succeeded; then 200, the catalog gains exactly the row of the manual file with `salvar = 1`, and the answer is `/recordings/` followed by the basename of the written path, which is `<camera>-manual-<ts>.mp4` when neither part holds a `/`; otherwise 500 with the error message and the catalog is unchanged |
| Api.PhotoCameras | src/routes/api.js:54-66 | 500 when the body cannot be destructured; the selection is handed to `setSelectedCameras` iff `cameras` is an array, otherwise 400; after the call, 200 iff it returned, and the catch's 500 with its message iff it threw |
| Api.NewUpdate | src/routes/api.js:183-208 | 500 when the body cannot be destructured; 400 iff `type`, `title` or `description` is falsy; when all three are truthy always `Ok`, with the entry with id `now`, `version` defaulting to `dev`, and `description` wrapped into an array unless it is one |
| FFmpegLocator.SystemFFmpegPaths | src/utils/ffmpeg-manager.js:98-116 | five non-empty candidates, starting with `ffmpeg.exe` on Windows and `ffmpeg` elsewhere |
| FFmpegLocator.FirstFound | src/utils/ffmpeg-manager.js:77-95 | the first candidate whose probe succeeds; none iff every probe fails |
| FFmpegLocator.QuoteStatic | src/utils/ffmpeg-manager.js:53-55 | quoted iff on Windows and the path has a space |
| FFmpegLocator.StripQuotes | src/utils/ffmpeg-manager.js:58 | no `"` remains, and a quote-free path is unchanged |
| FFmpegLocator.StripQuotesUndoesQuote | src/utils/ffmpeg-manager.js:53-58 | the existence check looks at the path the module gave |
| FFmpegLocator.TryStatic | src/utils/ffmpeg-manager.js:40-70 | found iff the module gave a non-empty path whose unquoted form exists; the result is the possibly-quoted path |
| FFmpegLocator.Locate | src/utils/ffmpeg-manager.js:16-23 | the static path if there is one; otherwise the system search; never empty |
| FFmpegLocator.CodecsIn | src/utils/ffmpeg-manager.js:140-141 | H.264 iff the listing mentions `libx264` or `h264`; AAC iff it mentions `aac` |
| FFmpegLocator.Validate | src/utils/ffmpeg-manager.js:118-152 | succeeds iff both the `-version` and the `-codecs` commands succeed; missing codecs do not fail it |
| FFmpegLocator.CommandPath | src/utils/ffmpeg-manager.js:161-170 | quoted iff on Windows, with a space, and not already starting with `"` |
| FFmpegLocator.CommandPathKeepsQuotedStatic | src/utils/ffmpeg-manager.js:161-170 | a static path is never quoted twice |
| FFmpegLocator.ProgramFilesPathIsQuoted | src/utils/ffmpeg-manager.js:161-170 | the `Program Files` candidate is quoted on use |
| FFmpegLocator.FFmpegManager.constructor | src/utils/ffmpeg-manager.js:7-11 | no path; not initialised |
| FFmpegLocator.FFmpegManager.TrySystemFFmpeg | src/utils/ffmpeg-manager.js:72-96 | the loop returns exactly `FirstFound` over the platform's candidates |
| FFmpegLocator.FFmpegManager.Initialize | src/utils/ffmpeg-manager.js:13-38 | `ffmpegPath` becomes `Locate`; the result is true iff a path was found and validated; `isInitialized` is never reset |
| FFmpegLocator.FFmpegManager.Create | src/utils/ffmpeg-manager.js:195-199 | a fresh manager, initialised iff a path was found and validated |
| FFmpegLocator.FFmpegManager.GetFFmpegPath | src/utils/ffmpeg-manager.js:154-159 | throws iff not initialised; otherwise the stored path |
| FFmpegLocator.FFmpegManager.GetFFmpegCommand | src/utils/ffmpeg-manager.js:161-170 | throws when not initialised; on Windows also when the path is null; otherwise `CommandPath` of the path |
| Cleanup.Remaining | cleanup.js:39-49 | the names left in a folder: every non-HLS name, and the HLS names whose unlink failed, and nothing else; left plus unlinked equals the listing |
| Cleanup.FirstBroken | cleanup.js:33-36 | where the outer loop stops: the first entry whose stat or listing throws |
| Cleanup.Swept | cleanup.js:21-57 | same entries, same names; folders before the first broken entry are cleaned |
| Cleanup.HlsCache.CleanHlsFiles | cleanup.js:21-57 | the nested loops leave exactly `Swept` of the old entries; the count is `TotalRemoved` when no entry throws, and the sweep is aborted otherwise; a missing base directory changes nothing |
| Cleanup.CleanEntryOf | cleanup.js:34-50 | one outer step: a folder is cleaned, anything else is skipped |
| Cleanup.CleanFolder | cleanup.js:37-49 | the inner loop keeps `Remaining` and counts the successful unlinks |
| Cleanup.NoHlsFileLeft | cleanup.js:39-49 | with no failure and no broken entry, no folder keeps a `.ts` or `.m3u8` file |
| Cleanup.OnlyHlsFilesGo | cleanup.js:36-50 | plain entries are untouched; folders keep their names and every non-HLS file, and gain nothing |
| Cleanup.CountMatchesRemovals | cleanup.js:31-53 | when no entry throws, the printed count plus the files left equals the files there were |
| CameraCheck.CameraName | check-camera.js:5 | the argument, or `camera5` when it is missing or empty |
| CameraCheck.StatusUrl | check-camera.js:15 | `http://localhost:8000/api/camera-status/<camera>` |
| CameraCheck.SecondsSince | check-camera.js:41 | the floor of the elapsed milliseconds over 1000 |
| CameraCheck.ElapsedSince | check-camera.js:37-51 | "Nunca" iff `lastSeen` is falsy; seconds below 60, floor minutes below 3600, floor hours otherwise |
| CameraCheck.ElapsedGrowsWithTime | check-camera.js:41-48 | asking later never shows a smaller unit, nor a smaller amount in the same unit |
| CameraCheck.Diagnose | check-camera.js:68-76 | each message with its exact condition, so at most one is printed; streaming with recent activity is normal whatever the connection; connected and streaming without activity prints none |
| CameraCheck.Suggestions | check-camera.js:80-90 | the camera-side block iff disconnected; the transcoder block iff connected without recent activity; never both |
| CameraCheck.CheckCameraStatus | check-camera.js:10-105 | a refused connection and a 404 are classified first; any other failure reports the error's own message; `success: false` reports the API's error without reading the status; otherwise the report is built from the status |
| CameraCheck.HealthyCameraReport | check-camera.js:37-90 | a streaming camera seen 90 s ago shows "1 minutos", the normal diagnosis and no next steps |

## Left out

- SQLite itself is not modelled: its errors (every rejected promise of `database.js`), persistence across restarts, and the `data_hora` column that `getImportantVideos` computes with `datetime(..., 'localtime')`. The model keeps the rows and the ordering key.
- Catalog.VideoCatalog.GetImportantVideos: returns whole rows instead of the `filename, path, data_hora` projection, and does not fix the order of rows with equal timestamps. SQLite leaves that order unspecified.
- The clock: `Date.now()`, `new Date().toISOString()` and `toLocaleDateString('pt-BR')` are parameters (`now`, `iso`, `date`).
- Timer cadence is left out: the 60 s `setInterval` and the order in which async completions interleave. `RecordSegment` models one tick.
- The ffmpeg command lines, the `which ffmpeg` run when `recording.js` loads, and all console output are left out.
- `path.join` is concatenation with `/`, and `path.basename` is the text after the last `/`. Normalisation of `..`, doubled separators and Windows separators is not modelled.
- `toLowerCase` is modelled for ASCII letters only.
- `localeCompare` is modelled as code-point lexicographic order, not locale collation.
- Api.PhotosResponse: models the corrected route (see Findings). As written, a photo without a timestamp can make the sort throw, depending on which pairs the engine compares. That is stated through `CompareAsWritten` rather than as a whole-route answer.
- Api.PhotosResponse: does not state sort stability, which `Array.prototype.sort` guarantees.
- Request bodies are JSON values with integer numbers. `NaN`, floats and prototype-inherited properties are not modelled.
- The handlers not named in the core are left out: `GET /importantes` passes the catalog result through, `GET /photo-cameras` and `POST /capture-photos` call into `server.js` (for `POST /photo-cameras` the outcome of its `setSelectedCameras` call is a parameter, returned or thrown), and `GET /updates` returns constant data. `server.js`, `src/config/mediaServer.js` and `src/config/environment.js` are not part of this model; only `BEARER_TOKEN`'s default `painel123` appears, as `Auth.DefaultToken` (used in `Auth.DefaultTokenExamples`).
- `printTroubleshootingTips` only prints.
- The `args` parameter of `getFFmpegCommand` is accepted and unused by the source, so the model has no such parameter.
- `killOrphanFFmpegProcesses` and `checkPorts` in `cleanup.js` are shell calls whose errors are swallowed.
- Cleanup.HlsCache.CleanHlsFiles: the listing of the base directory itself is assumed to succeed. A base path that exists but cannot be listed is not modelled.
- Cleanup.HlsCache.CleanHlsFiles: the directory tree is two levels deep, and deeper contents are not represented. Unlink failures are an oracle.
- CameraCheck: `lastSeen` is a number of milliseconds. A date string that `new Date` cannot parse (giving `NaN` in the elapsed line) is not modelled.
- CameraCheck: the status flags are booleans, not arbitrary truthy values.
- CameraCheck: lines printed before an exception thrown inside the `try` are not part of the report, and neither are the metric and HLS-count lines.
- The self-installation of `axios` in `check-camera.js` is left out.
- Codec probing scripts (`codec-test.js`, `test-ffmpeg-recording.js`) are process plumbing and are not part of this model.

## Findings

| source | as written | input that shows it | evidently intended | confidence | as-written member | corrected member |
|---|---|---|---|---|---|---|
| src/routes/api.js:93-99 | A photo whose name has no `_` gets `timestamp: undefined` (the `?.` on line 93 expects this). The sort comparator then calls `b.timestamp.localeCompare`, which throws a TypeError, so the whole `GET /photos` answers 500. | the directory `["a.jpg", "b.jpg"]`: both are listed photos, and every comparison between them throws | list every photo, the undated ones after the dated ones | medium, not executed | Api.UndatedPhotosBreakListing | Api.PhotosResponse |
