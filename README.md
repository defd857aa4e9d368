# Voice transcription: recorder, upload validator and transcription gate

This project models three stateful pieces of the voice-transcription app and proves properties about them:

- **The microphone recorder** (`AudioRecorder`, `audio_capture.dfy`). The class `AudioCapture.Recorder` holds the component's state: the permission flag, the stream, the recording status (`idle`, `recording` or `paused`), the current MediaRecorder, the chunk buffer, the playback URL, every object URL created, and the set of revoked URLs. The user actions and the two recorder events (`dataavailable`, `stop`) are its methods. Each method states the component's whole new state and keeps the invariant `Valid()`. Proved facts include:
  - The status is `recording` or `paused` only while a MediaRecorder exists that has not been stopped.
  - Every buffered chunk is non-empty.
  - The playback URL is always the newest object URL.
  - When `onstop` publishes a URL after a `stopRecording` that ran since the last URL was published, the URL it replaces was revoked by that `stopRecording`.
- **The upload validator** (`FileDrop`, `file_drop.dfy`). The pure functions cover:
  - extension extraction, with JavaScript's `lastIndexOf`/`substring`/`toLowerCase` semantics;
  - the format test (an allowed MIME type *or* an allowed extension);
  - the verdict, with the format check first, then the inclusive 10 MiB check;
  - display-name truncation;
  - the unit `formatFileSize` picks.

  The class `FileDrop.Dropzone` models the `selectedFile`/`error` state. It also keeps the list of files handed to `onFileSelect`, and its methods are proved against the verdict.
- **The transcription endpoint** (`transcribe`, `transcription.dfy`). The class `Transcription.Server` holds the disk, as the set of path strings that exist, and a journal of disk effects. The speech model's outcome is a parameter. The response, the effects and the final disk are proved equal to specification functions. Lemmas about those functions show:
  - an oversized upload touches nothing;
  - the model reads a file that exists;
  - on every path, the temporary path string is gone from the disk when the request returns, and no other path string was added or removed.

`upload_limits.dfy` relates the two size limits. The front end accepts up to 10,485,760 bytes and the back end up to 10,000,000. Every allowed file in between passes the drop zone and gets the back end's size error.

Two behaviours of the code, shown by client methods in `audio_capture.dfy`:

- `RestartDiscardsChunks`: `startRecording` has no status guard. Starting while recording replaces the recorder and empties the buffer. Only the UI's choice of buttons hides this.
- `TwoPendingStops`: this covers the case where a stop event is still pending when a second recording is started and stopped. The second `onstop` then replaces a URL that nothing revoked. The revoke sits in `stopRecording`, not in `onstop`.

Behaviour of the code worth noting:

- Stopping returns to `idle`; there is no separate stopped state.
- Starting while recording is not a no-op: it starts over.
- The stream's tracks are never stopped.
- The format test accepts a file by MIME type *or* by extension.
- There is no elapsed-time counter, and no call to the transcription service from these components.

## Model

| member | source | states |
|---|---|---|
| AudioCapture.Recorder.constructor | frontend/src/AudioRecorder.tsx:6-11 | Initial state: no permission, no stream, `idle`, no recorder, empty buffer, no playback URL |
| AudioCapture.Recorder.RequestPermission | frontend/src/AudioRecorder.tsx:21-29 | A granted stream is stored and permission becomes true; a failed request changes nothing |
| AudioCapture.Recorder.Start | frontend/src/AudioRecorder.tsx:32-46 | Without a stream nothing changes. With one, from any status, the status becomes `recording`, a new recorder instance is installed and the buffer is emptied |
| AudioCapture.Recorder.OnDataAvailable | frontend/src/AudioRecorder.tsx:49-53 | An undefined or zero-size fragment is dropped; any other is appended at the end of the buffer, so buffer order is arrival order |
| AudioCapture.Recorder.Stop | frontend/src/AudioRecorder.tsx:58-68 | No-op without a recorder; otherwise the status becomes `idle` from `recording` or `paused`, a live recorder owes one stop event, and the held playback URL is revoked |
| AudioCapture.Recorder.OnStop | frontend/src/AudioRecorder.tsx:70-82 | The new blob is the in-order join of the buffered chunks, typed `audio/webm`, behind a fresh unrevoked URL that becomes the playback URL; the buffer is emptied; when a `stopRecording` ran since the last URL was published, the replaced URL was already revoked |
| AudioCapture.Recorder.Pause | frontend/src/AudioRecorder.tsx:86-91 | Takes effect only from `recording` with a recorder, and then sets `paused`; otherwise nothing changes |
| AudioCapture.Recorder.Resume | frontend/src/AudioRecorder.tsx:94-99 | Takes effect only from `paused` with a recorder, and then sets `recording`; otherwise nothing changes |
| AudioCapture.Kept | frontend/src/AudioRecorder.tsx:49-53 | The buffer built from a run of fragments is no longer than the run and holds only non-empty chunks |
| AudioCapture.KeptSnoc | frontend/src/AudioRecorder.tsx:49-53 | One more fragment adds at most that fragment, at the end of the buffer |
| AudioCapture.ConcatAppend | frontend/src/AudioRecorder.tsx:72 | Joining chunks into a blob is compatible with splitting the buffer at any point |
| AudioCapture.Concat | frontend/src/AudioRecorder.tsx:72 | The blob is exactly as long as the buffered chunks together |
| AudioCapture.Buffered | frontend/src/AudioRecorder.tsx:50-51 | An undefined fragment and a zero-size fragment are not buffered; a buffered fragment is defined and non-empty |
| AudioCapture.Deliver | frontend/src/AudioRecorder.tsx:49-53 | Delivering a run of fragments appends exactly the run's non-empty fragments, in order, to the buffer when a recorder exists, and changes nothing else |
| AudioCapture.RecordOnce | frontend/src/AudioRecorder.tsx:21-82 | Permission, start, pause, resume, fragments of 10, 0 and 20 bytes, stop and the stop event publish the two non-empty fragments joined in order, typed `audio/webm` |
| AudioCapture.RestartDiscardsChunks | frontend/src/AudioRecorder.tsx:32-46 | Starting while recording with one buffered chunk leaves the status `recording`, a different recorder and an empty buffer |
| AudioCapture.TwoPendingStops | frontend/src/AudioRecorder.tsx:58-82 | Stop, start and stop before the first stop event: the URL the first event publishes is replaced by the second and never revoked |
| AudioCapture.DroppingEmptyKeepsPayload | frontend/src/AudioRecorder.tsx:49-72 | Dropping empty fragments never changes the assembled payload |
| AudioCapture.ScenarioTenZeroTwenty | frontend/src/AudioRecorder.tsx:49-72 | Fragments of 10, 0 and 20 bytes leave two chunks (10 and 20 bytes) that join into a 30-byte payload |
| FileDrop.LastIndexOf | frontend/src/components/FileDrop.tsx:60 | The result is -1 exactly when the character is absent, and otherwise its last position |
| FileDrop.Substring | frontend/src/components/FileDrop.tsx:60 | The result is always a suffix of the string: a negative start is clamped to 0 and one past the end gives the empty string |
| FileDrop.ToLower | frontend/src/components/FileDrop.tsx:60 | Same length, each character lower-cased in place |
| FileDrop.Extension | frontend/src/components/FileDrop.tsx:60 | With a `.` in the name: the lower-cased suffix from the last `.`, which starts with `.` and has no other `.`. Without one: the whole name lower-cased |
| FileDrop.LastDotStartsTail | frontend/src/components/FileDrop.tsx:60 | When the name has a `.`, the suffix taken from `lastIndexOf('.')` starts with that `.` and holds no other |
| FileDrop.IsAllowedFormat | frontend/src/components/FileDrop.tsx:61 | An allowed MIME type passes on its own; a file passing without one has a `.` in its name |
| FileDrop.Check | frontend/src/components/FileDrop.tsx:57-72 | Accept iff the format test passes and size is at most 10 MiB; format rejection iff the format test fails; size rejection iff the format passes and size is over 10 MiB |
| FileDrop.Message | frontend/src/components/FileDrop.tsx:63-71 | An error message is shown exactly for a rejection |
| FileDrop.UpperCaseExtensionAccepted | frontend/src/components/FileDrop.tsx:57-61 | `x.MP3` with an empty MIME type passes |
| FileDrop.ExecutableRefused | frontend/src/components/FileDrop.tsx:57-66 | `setup.exe` with the non-audio MIME type `application/x-msdownload` is refused for its format, whatever its size |
| FileDrop.FormatCheckedFirst | frontend/src/components/FileDrop.tsx:63-72 | A disallowed file over 10 MiB gets the format error, not the size error |
| FileDrop.SizeLimitInclusive | frontend/src/components/FileDrop.tsx:69 | For a file with an allowed MIME type, 10 * 1024 * 1024 bytes is accepted and one byte more is refused |
| FileDrop.ElevenMebibyteMp3Refused | frontend/src/components/FileDrop.tsx:69-71 | An 11 MiB MP3 is refused for its size |
| FileDrop.DisplayName | frontend/src/components/FileDrop.tsx:146-149 | At most 30 characters; a name of 30 or fewer is shown unchanged; a longer one becomes its first 27 characters plus `...` |
| FileDrop.DisplayNameIsPrefix | frontend/src/components/FileDrop.tsx:146-149 | The shown name is the real name, or a prefix of it followed by `...` exactly when the name was cut |
| FileDrop.SizeUnitOf | frontend/src/components/FileDrop.tsx:87-91 | Bytes below 1024, KB below 1024 * 1024, MB from there on |
| FileDrop.SizeUnitMonotone | frontend/src/components/FileDrop.tsx:87-91 | A larger size is never shown in a smaller unit |
| FileDrop.Dropzone.constructor | frontend/src/components/FileDrop.tsx:12-13 | No file selected and no error |
| FileDrop.Dropzone.ValidateAndSetFile | frontend/src/components/FileDrop.tsx:53-76 | The error becomes the verdict's message. On rejection the selection is unchanged and `onFileSelect` is not called. On acceptance the file is selected and `onFileSelect` is called exactly once with it |
| FileDrop.Dropzone.RemoveFile | frontend/src/components/FileDrop.tsx:78-85 | Both the selection and the error are cleared |
| FileDrop.Dropzone.HandleDrop | frontend/src/components/FileDrop.tsx:28-38 | The error is cleared; only the first dropped file, if any, is validated |
| FileDrop.Dropzone.HandleFileChange | frontend/src/components/FileDrop.tsx:40-45 | The first picked file, if any, is validated; an empty pick leaves everything, including the error, as it was |
| Transcription.TempPath | backend/main.py:28 | The temporary path string is `/tmp/` followed by the client's file name, unresolved |
| Transcription.TempPathInjective | backend/main.py:28 | Different file-name strings never give the same path string |
| Transcription.WithinLimit | backend/main.py:24 | The gate passes exactly the sizes up to 10,000,000 bytes, inclusive, all of them below 10 MiB |
| Transcription.Json | backend/main.py:24-46 | The response object has the single key `error` with the message, or the single key `text` with the text |
| Transcription.Answer | backend/main.py:22-46 | Over 10,000,000 bytes: the size error. When the model raises: `Transcription failed`. Otherwise the model's text, unchanged |
| Transcription.EffectsOf | backend/main.py:24-43 | An oversized upload has no disk effects; any other is written first and removed last |
| Transcription.RequestEffectsOnDisk | backend/main.py:31-43 | The model reads an existing file; after the request the temporary path string is gone and no other path string was added or removed; an oversized upload leaves the disk as it was |
| Transcription.GateBoundary | backend/main.py:24-25 | Exactly 10,000,000 bytes passes the gate and one byte more is refused |
| Transcription.Server.constructor | backend/main.py:22 | The server starts with the given disk and an empty journal |
| Transcription.Server.Transcribe | backend/main.py:22-46 | The response is `Answer`; the journal grows by write, run, remove (nothing for an oversized upload); the disk ends as before minus the temporary path on both the failure and the success path |
| UploadLimits.FrontEndLimitIsLarger | frontend/src/components/FileDrop.tsx:69 | The front-end limit exceeds the back-end limit of backend/main.py by 485,760 bytes |
| UploadLimits.AcceptedThenRefused | backend/main.py:24-25 | An allowed file of size in (10,000,000, 10,485,760] passes the drop zone and gets the back end's size error |
| UploadLimits.GapIsInhabited | backend/main.py:24-25 | A concrete MP3 of 10,000,001 bytes is accepted by the drop zone and refused by the endpoint |

## Left out

- Browser media: `getUserMedia`, `MediaRecorder`, `Blob`, `URL.createObjectURL`/`revokeObjectURL`. A stream is a handle passed in, a recorder a numbered instance, a URL a numbered token. No audio is encoded.
- The `isTypeSupported` alert (frontend/src/AudioRecorder.tsx:14-18): it only shows a message.
- React's asynchronous state updates and stale closures: every handler reads the current state. Events are methods called in order on one thread.
- Events a replaced recorder might still deliver when it was never stopped: its `dataavailable` would land in the shared buffer. The model delivers data events only through the current recorder.
- A `new MediaRecorder` or `start()` that throws (frontend/src/AudioRecorder.tsx:38-44): the model assumes both succeed.
- AudioCapture.Recorder.OnStop: "the replaced URL was already revoked" is promised only when a `stopRecording` ran since the last publish. With two stop events pending, the code does not revoke the first published URL, as `TwoPendingStops` shows.
- FileDrop.ToLower: lower-cases ASCII `A`-`Z` only, not the full Unicode mapping of `toLowerCase`.
- FileDrop.DisplayName: counts characters, whereas JavaScript counts UTF-16 code units.
- The number that `formatFileSize` prints (float division and `toFixed(1)`, frontend/src/components/FileDrop.tsx:89-90): floating point. Only the unit choice is modelled.
- The extension badge (frontend/src/components/FileDrop.tsx:157), drag-hover state, CSS, the hidden input's click and reset, and all JSX rendering.
- frontend/src/components/UploadBox.tsx and frontend/src/App.tsx: they forward a file or render the recorder, and they validate nothing.
- Speech-model loading and inference, FastAPI routing and CORS (backend/main.py:1-18): the model's outcome is a parameter.
- Exceptions from `open`, `write` or `read` (backend/main.py:31-32): these are uncaught. A missing `size` or `filename` on the upload is also left out. The model takes both as present.
- Concurrent requests that share a temporary path: requests run one at a time.
- Path resolution (`.`, `..`, `/` inside the name, symlinks): paths are compared as strings, so "nothing else on the disk changed" speaks of path strings. A client-sent name such as `../x` puts the temporary file outside `/tmp`, where it overwrites whatever was there and is then deleted.
