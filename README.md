# Cheating Daddy (AgentCluely): a Dafny model of the audio and response core

This project models the core of an Electron desktop assistant. The assistant streams the user's screen, system audio and typed text to a realtime Gemini session and shows the model's answers in an overlay window. It can also transcribe microphone recordings locally with FFmpeg and whisper.

The model covers two processes:

- **Main process** (`src/index.js`):
  - the stereo-to-mono conversion of captured PCM;
  - the system-audio capture pipeline, which cuts the audio-dump child's standard output into 0.1-second chunks and caps the residue;
  - the aggregation of streamed model text into one response per completed generation;
  - the outbound relay handlers with their guards (`send-audio-content`, `send-image-content`, `send-text-message`);
  - the session lifecycle handlers (`initialize-gemini`, `close-session`, `start-macos-audio`, `stop-macos-audio`, `quit-application`);
  - the `transcribe-audio` orchestration: URI validation, temporary files, FFmpeg, the model-file check, whisper, result formatting and cleanup in `finally`.
- **Renderer** (`src/components/app/CheatingDaddyApp.js`), the root component:
  - the response list and its auto-follow index;
  - the view transitions on start and close;
  - the microphone transcription state: the recorder, the recorded chunks, and the transcript the component appends status lines to;
  - the export of the transcript.

Files:

| file | module | what it holds |
|---|---|---|
| `options.dfy` | `Options` | `Option` |
| `js_string.dfy` | `JsString` | the JavaScript string operations the core relies on: `trim` (ECMAScript white space and line terminators), `join`, `split` on one character, decimal rendering of numbers |
| `pcm.dfy` | `Pcm` | bytes, the left channel of interleaved 16-bit stereo, `convertStereoToMono` as an array loop |
| `capture.dfy` | `Capture` | chunking functions and their lemmas; class `SystemAudio` (process reference, rolling buffer, ghost logs of chunks and dispatched payloads) |
| `aggregator.dfy` | `Aggregator` | the step function of `onmessage` and its lemmas; class `ResponseAggregator` (the process-wide `messageBuffer`) |
| `relay.dfy` | `Relay` | the send handlers as functions of the session reference; class `Host` (session reference, capture, quit flag) |
| `transcription.dfy` | `Transcription` | `transcribe-audio` as a method over a set-of-paths file system with supplied outcomes |
| `renderer_app.dfy` | `RendererApp` | class `CheatingDaddyApp` and the pure rules it uses |

The outside world enters as parameters:

- the realtime session's answers to `sendRealtimeInput` and `close` (`Transport`);
- the outcome of `connect`;
- the platform and whether the child process got an id;
- the base64 decoding: the decoded length for the image check, and the encoded text of a captured chunk;
- `Date.now()`;
- the outcomes of directory creation, file writing, FFmpeg and whisper;
- the microphone request;
- the answers of `ipcRenderer.invoke`.

Behaviour worth noting:

- A missing whisper model is reported at once with `Model file not found: ggml-base.en.bin. Please download it.`, and nothing is downloaded (src/index.js:479-482).
- The temporary files are `ffmpeg_temp/ffmpeg_input_<timestamp>.webm` and `ffmpeg_output_<timestamp>.wav` (src/index.js:30, 439-440).
- `sessionActive` is never set to true in the component: the constructor initialises it to false (src/components/app/CheatingDaddyApp.js:114), `handleStart` does not touch it, and `handleClose` sets it to false again (src/components/app/CheatingDaddyApp.js:220).

## Model

| member | source | states |
|---|---|---|
| Pcm.LeftChannel | src/index.js:306-316 | the mono buffer is half the length of the stereo buffer, and mono frame i holds exactly the two bytes of stereo frame i's left sample (no averaging with the right channel) |
| Pcm.LeftChannelAppend | src/index.js:306-316 | converting two whole-frame buffers laid end to end gives their conversions laid end to end |
| Pcm.ConvertStereoToMono | src/index.js:306-316 | the loop fills a newly allocated array of half the length with the left sample of every frame, equal to `LeftChannel` |
| Capture.Chunks | src/index.js:269-272 | every chunk cut from the buffer is exactly 9600 bytes (24000 Hz × 2 bytes × 2 channels × 0.1 s) |
| Capture.Residue | src/index.js:269-271 | what is left after cutting is shorter than one chunk and never longer than the buffer |
| Capture.ResidueIsTail | src/index.js:269-271 | what is left after cutting is the newest bytes: the tail of the buffer |
| Capture.MonoPayloads | src/index.js:273 | one payload per chunk, in chunk order, each the left channel of its chunk and 4800 bytes long |
| Capture.CapTail | src/index.js:283-286 | the capped buffer keeps the newest bytes: exactly the cap when over it, and all of them (unchanged) when under it |
| Capture.ChunkCount | src/index.js:262-271 | a buffer of n bytes yields ⌊n / 9600⌋ chunks and n mod 9600 residual bytes |
| Capture.ChunksThenResidue | src/index.js:266-272 | the chunks followed by the residue are the buffer: no byte is lost, repeated or reordered |
| Capture.ChunksAcrossEvent | src/index.js:266-272 | cutting a buffer that grew by a new event gives the chunks of the old buffer followed by the chunks of its residue plus the event, and the same residue |
| Capture.Feed | src/index.js:266-287 | feeding data events one by one dispatches only 9600-byte chunks |
| Capture.FeedIsChunksOfStream | src/index.js:266-287 | however the stream is split into data events, the chunks dispatched are the chunks of the whole stream in stream order, and the residue is its residue |
| Capture.FiveSmallEvents | src/index.js:266-287 | five 2400-byte events dispatch one chunk with a 4800-byte mono payload and leave 2400 bytes buffered |
| Capture.SystemAudio.constructor | src/index.js:18 | at module load no child process is referenced and nothing is buffered or dispatched |
| Capture.SystemAudio.Start | src/index.js:233-264 | off macOS nothing changes and the result is false; on macOS the process reference is kept even without a process id, and the result is whether there was one; a started capture has an empty buffer |
| Capture.SystemAudio.OnData | src/index.js:266-287 | the loop appends exactly the chunks of old buffer + data to the chunk log, dispatches their mono payloads in order, and leaves exactly the residue, which stays below the chunk size and hence below the 48000-byte cap |
| Capture.SystemAudio.Stop | src/index.js:318-324 | the reference is dropped; buffer and logs are unchanged |
| Capture.SystemAudio.OnProcessEnded | src/index.js:293-301 | the child's close or error drops the reference |
| Aggregator.StepSpec | src/index.js:180-198 | one message appends its truthy text parts in order; with generationComplete, exactly one response carrying the whole buffer is sent and the buffer is emptied, otherwise no response is sent; the listening status is sent iff turnComplete; nothing else is sent, and the response comes before the status |
| Aggregator.StepConservesText | src/index.js:180-198 | the response text sent by one message, followed by the new buffer, is the old buffer followed by the message's text |
| Aggregator.RunConservesText | src/index.js:180-198 | over any message stream, the responses sent followed by the final buffer are the initial buffer followed by all message text in arrival order |
| Aggregator.RunFlushesOncePerGeneration | src/index.js:190-194 | over any message stream, the number of responses sent equals the number of generationComplete messages |
| Aggregator.ResponseAggregator.constructor | src/index.js:21 | the process-wide buffer starts empty |
| Aggregator.ResponseAggregator.OnOpen | src/index.js:177-179 | only the connected status is sent |
| Aggregator.ResponseAggregator.OnMessage | src/index.js:180-198 | the loop over the parts leaves the buffer and the sent events exactly as the step function says |
| Aggregator.ResponseAggregator.OnError | src/index.js:200-203 | an error status is sent and the buffer is kept |
| Aggregator.ResponseAggregator.OnClose | src/index.js:204-207 | a closed status is sent and the buffer is kept |
| Relay.SendAudioContent | src/index.js:365-377 | without a session the no-session error and nothing sent; otherwise the audio is sent as given; success iff the send returned, and a thrown error's message is the reply's error |
| Relay.SendImageContent | src/index.js:532-558 | the session check, then non-empty string data, then at least 1000 decoded bytes; the image is sent (as JPEG) iff all hold; success iff it was sent and the send returned, and a thrown error's message is the reply's error |
| Relay.SendTextMessage | src/index.js:560-575 | the session check, then a non-blank string; exactly then the trimmed text is sent, which is non-empty and has no edge white space; success iff the send returned, and a thrown error's message is the reply's error |
| Relay.ForwardCapturedAudio | src/index.js:326-341 | a captured chunk is sent, with the capture's MIME type, iff there is a session |
| Relay.Host.constructor | src/index.js:16 | at module load there is no session |
| Relay.Host.InitializeGemini | src/index.js:173-223 | a successful connect replaces the session reference and reports true; a failed one reports false and keeps the old reference |
| Relay.Host.CloseSession | src/index.js:604-619 | capture is always stopped first; the session is forgotten when close returns, kept when close throws (and the error is reported); the capture's buffer, chunk log and payloads are kept |
| Relay.Host.StartMacOSAudio | src/index.js:577-592 | refused off macOS with the macOS-only error; on macOS the success is whether the process got an id; a started capture has a fresh buffer, otherwise the buffer is kept, and the chunk log and payloads are kept |
| Relay.Host.StopMacOSAudio | src/index.js:594-602 | capture stopped and success reported; buffer, chunk log and payloads kept |
| Relay.Host.QuitApplication | src/index.js:621-630 | capture stopped, quit requested, session reference kept; the capture's buffer, chunk log and payloads kept |
| JsString.Trim | src/index.js:566-569 | the trimmed text has no edge white space, is empty iff the text is blank, and is what is left after removing a blank prefix and a blank suffix |
| JsString.Split | src/index.js:431 | `split` with a one-character separator gives at least one piece, and no piece contains the separator |
| JsString.JoinSplit | src/index.js:431 | joining the pieces of a split with the separator gives the string back |
| JsString.SplitJoin | src/index.js:431 | comma-free fields joined with commas (`Join`, also the `join(' ')` of src/index.js:498) split back into the same fields |
| Transcription.UriPayload | src/index.js:431-434 | there is a payload iff the URI contains a comma, and it contains no comma |
| Transcription.UriPayloadOfDataUri | src/index.js:431 | a data URI `header,payload` yields exactly its payload |
| Transcription.ErrorText | src/index.js:508-510 | a caught error's non-empty message is reported as is, an empty one as the generic message |
| Transcription.FfmpegFailureCarriesDiagnostics | src/index.js:463-470 | the FFmpeg failure message is never replaced by the generic one, carries the exit code right after its prefix (readable back as a number when non-negative) and ends with the whole standard error |
| Transcription.FormatTranscription | src/index.js:496-504 | segments give their speech joined with single spaces and trimmed, a string gives itself trimmed (kept as is when already trimmed), so the text has no edge white space; any other shape gives the fixed notice |
| Transcription.SegmentsRecoverable | src/index.js:497-498 | when every segment is a non-empty word, splitting the transcription at spaces gives the segments back |
| Transcription.Produced | src/index.js:442-476 | the temporary files left on disk: the input iff it was written, the output iff FFmpeg left one |
| Transcription.Attempt | src/index.js:430-510 | the `try` block assigns the temporary paths unless directory creation threw; whisper runs only after the input was written, FFmpeg exited with 0 and the model exists; each failure gets its own error and success carries the formatted transcription; the files afterwards are the old ones plus exactly the temporary files produced |
| Transcription.TranscribeAudio | src/index.js:423-530 | no URI and a payload-less URI return early with no file written or removed; once the temporary paths are set, both are unlinked on every path, a successful unlink removes its path and a failing one is swallowed and leaves the file as it was; no other file changes; on every path the reply and the effects are given by the other outcomes alone, whatever the unlinks do; whisper runs only after the input was written, FFmpeg exited with 0 and the model exists; each failure gets its own error and success carries the formatted transcription |
| RendererApp.StoredOr | src/components/app/CheatingDaddyApp.js:115-118 | a stored setting is used when it is a non-empty string, the default otherwise |
| RendererApp.FollowIndex | src/components/app/CheatingDaddyApp.js:161-164 | after an append the index points at the newest response iff it was -1 or at the previous latest; otherwise it is unchanged, and an index in range stays in range |
| RendererApp.TotalOfNonEmptyChunks | src/components/app/CheatingDaddyApp.js:361-370 | since only non-empty chunks are kept, the reported blob size is at least the number of chunks |
| RendererApp.ExpireNotice | src/components/app/CheatingDaddyApp.js:452-456 | the timer leaves a transcript with no edge white space and never longer |
| RendererApp.ExpireRightAfterNotice | src/components/app/CheatingDaddyApp.js:450-456 | when nothing was appended after the nothing-to-export notice, the timer removes exactly that notice |
| RendererApp.CheatingDaddyApp.constructor | src/components/app/CheatingDaddyApp.js:108-129 | main view, no session, no responses with index -1, not transcribing, empty transcript, stored settings or their defaults |
| RendererApp.CheatingDaddyApp.SetResponse | src/components/app/CheatingDaddyApp.js:158-166 | exactly one response appended at the end; a user at the latest (or at -1) follows to the new one, a user at an older one stays on it |
| RendererApp.CheatingDaddyApp.HandleResponseIndexChanged | src/components/app/CheatingDaddyApp.js:300-302 | the index becomes the one reported |
| RendererApp.CheatingDaddyApp.HandleStart | src/components/app/CheatingDaddyApp.js:243-252 | Gemini initialized and capture started when the helper exists; empty responses, index -1, start time set, assistant view |
| RendererApp.CheatingDaddyApp.HandleClose | src/components/app/CheatingDaddyApp.js:185-232 | from customize, help or transcription: main view, nothing else; from assistant: transcription stopped, capture stopped, close-session requested, session inactive, main view; from main: transcription stopped, quit requested, no close-session; the recorder is stopped only when it was recording; settings, responses, chunks and start time untouched |
| RendererApp.CheatingDaddyApp.StartLocalTranscription | src/components/app/CheatingDaddyApp.js:338-421 | nothing happens while transcribing; otherwise chunks cleared and the started line appended, then the missing-IPC error, or recording with the microphone held, or the error line and the alert chosen by the error's name |
| RendererApp.CheatingDaddyApp.OnDataAvailable | src/components/app/CheatingDaddyApp.js:360-364 | only chunks with a positive size are kept |
| RendererApp.CheatingDaddyApp.OnRecorderStop | src/components/app/CheatingDaddyApp.js:366-404 | with chunks, the processing line with the blob's (positive) size and a read of the blob; without, the no-audio line |
| RendererApp.CheatingDaddyApp.OnReaderLoadEnd | src/components/app/CheatingDaddyApp.js:373-390 | the sending line, one transcribe-audio request for the reader's result (null after a failed read), the line for its answer, and the chunks cleared |
| RendererApp.CheatingDaddyApp.OnReaderError | src/components/app/CheatingDaddyApp.js:391-395 | the read-error line, which reads `undefined` because the handler's progress event has no message, and the chunks cleared |
| RendererApp.CheatingDaddyApp.ReadFailed | src/components/app/CheatingDaddyApp.js:372-396 | a failed read runs the error handler and then the loadend handler: the read-error line, the sending line, a transcribe-audio request without data and its answer line, which for the main process's no-audio reply is the no-audio error |
| RendererApp.CheatingDaddyApp.StopLocalTranscription | src/components/app/CheatingDaddyApp.js:423-440 | not transcribing, microphone released, stopped line appended; the recorder is stopped only if it was recording |
| RendererApp.CheatingDaddyApp.HandleExportTranscription | src/components/app/CheatingDaddyApp.js:442-470 | no IPC: error line; absent or blank text: the notice and no request; otherwise the exporting line, one export request and the line for its answer; the transcript only grows |
| RendererApp.CheatingDaddyApp.ExpireNothingToExport | src/components/app/CheatingDaddyApp.js:453-456 | the transcript becomes its expired form |

Across its methods, `CheatingDaddyApp` keeps an invariant (`Valid`): the microphone is held exactly while transcribing, a recorder exists only where the main process is reachable, and no kept chunk is empty. `SystemAudio` keeps the invariant that every logged chunk is 9600 bytes and every dispatched payload is the left channel of the chunk at the same position.

## Left out

- Pcm.ConvertStereoToMono: requires a whole number of 4-byte frames. The capture only ever passes 9600-byte chunks. For other lengths the JavaScript loop runs once more than there are whole frames and throws: with one spare byte the last `readInt16LE` is past the end of the input, and with two or three the read succeeds but the `writeInt16LE` is past the end of the (rounded-down) output.
- Relay.SendImageContent: base64 decoding is not modelled. The decoded length is a parameter, and only the non-empty-string and 1000-byte guards are modelled.
- Relay.ForwardCapturedAudio: the base64 encoding of the mono chunk is a parameter. Its pairing with `Capture.SystemAudio.OnData` (each dispatched payload is encoded and sent) is not stated as one member.
- Capture.SystemAudio.Start: a second start while a child is still running orphans the first child, whose own closure and buffer keep running. The model has one buffer and one reference.
- Aggregator.ResponseAggregator: `sendToRenderer` drops an event when no window exists (src/index.js:226-231), while the buffer is still emptied on generationComplete. The model logs every event the callbacks pass to `sendToRenderer`; whether a window received it is not represented.
- Capture.SystemAudio: the `DEBUG_AUDIO` logging and debug-file saving, and the child's stderr logging, are left out (logging only).
- Transcription.TranscribeAudio: FFmpeg, whisper, directory creation, file writing and each unlink are outcomes given as parameters. A write that throws is taken to leave no input file behind. The contents of the files and the base64 decoding are not modelled.
- Transcription.FormatTranscription: a segment whose `speech` is missing renders as an empty string in JavaScript's `join`. Segments are modelled as strings, so this case is not represented.
- Transcription.TranscribeAudio: a URI argument that is neither absent nor a string (on which `split` would throw) is not represented.
- RendererApp.CheatingDaddyApp: every `await` is modelled as completing before the next event. Interleavings, such as a new recording starting while a transcription request is outstanding, are not modelled.
- RendererApp.CheatingDaddyApp.StartLocalTranscription: the microphone request and the recorder construction are one outcome. A recorder constructor that throws after the microphone was granted (leaving the stream held) is not represented.
- RendererApp.CheatingDaddyApp.HandleStart: `parseInt` of the screenshot interval is not modelled; the interval is passed on as the stored text.
- The remaining component handlers are not part of this model, because they only set a field or forward to IPC: the header view switches, profile and language setters, hide toggle, external links, text sending, status updates, listener registration, and persistence to `localStorage` in `updated`.
- Window creation, global shortcuts, the window-moving and visibility handlers, `open-external`, `export-transcription-txt` on the main side, `ensureDataDirectories` and the system prompt are not part of this model (window system and file-system plumbing).
- `src/components/views/TranscriptionView.js` is not part of this model (presentational).
- Strings are sequences of code points. UTF-16 surrogate pairs, and the byte-level encodings of base64 and UTF-8, are not modelled.
