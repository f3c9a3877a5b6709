# Voice assistant core, modelled in Dafny

This project models the local logic of a small Python voice assistant. The
assistant records speech, has it transcribed, asks a chat model for an
answer and speaks the answer. The model covers:

- **voicerecorder.py**
  - `record_audio_vad`. A per-frame state machine keeps three variables: a
    trailing-silence counter, the list of recorded frames and a
    `recording_active` flag. Two nested callbacks update them. Recording
    stops on a silence threshold or a duration limit. A device error is
    re-raised as `AssertionError`.
  - `array_to_pcm_bytes`. It writes the frames one by one into an in-memory
    `BytesIO` buffer and rewinds the buffer to 0.
- **iat_ws.py, iat_ws_python3.py and stt-xinghuo.py**, the three websocket
  dictation clients.
  - The upload loop of each client's `run` thread. It cuts the audio into
    8000- or 1280-byte chunks and tags the first with status 0, the others
    with 1 and a final empty read with 2.
  - Each client's `on_message` handler. It joins the `ws[*].cw[*].w` words
    of a reply and folds them into `final_result`. The rule differs by
    client: append, append only for statuses 0 to 2, or replace on status 1
    and append on status 2.
- **tts.py**
  - `convert_to_ssml`. The regular expression that recognises an SSML shell
    is a deterministic parser into a `Shell` value, with a renderer back to
    text. The f-string wrapper is modelled too.
  - The environment check of `TextToSpeech()`.
  - The guard and error wrapping of `synthesize_speech`.
- **app.py**
  - The setting checks of `create_openai_client`.
  - `transcribe_speech_to_text`.
  - The prompt validator and error wrapping of `interact_with_openai`.
  - The guards of `synthesize_and_play_speech`.
  - The control flow of `main`.

Parameters stand in for every service the code calls: the voice-activity
classifier, the audio device, the chat completion, the speech service and
playback. Base64 is an abstract injective encoding, and JSON replies are
datatypes. Python's `io.BytesIO` (and a binary file opened for reading) is
a class with a buffer and a position.

Imperative code is imperative in the model:

- the closure state of `record_audio_vad` is the class
  `VoiceRecorder.CaptureState`;
- the recorder, the buffer and the recogniser are classes;
- the upload loops, the write loop, the word-collecting loops and the
  prompt scan are methods with loop invariants.

Each method is proved against a specification function: `Update`/`Replay`,
`Flatten`, `UploadFrames`, `HandleMessage`, `JoinWords` or
`ValidationError`. The properties the code promises are then proved about
those functions as lemmas.

Where the code and its documentation disagree, the model follows the code:

- stt-xinghuo.py:144-146 comments that a status-1 reply is appended, but
  the code replaces `final_result` with it.
- The test files expect behaviour the code does not have. Examples: a
  `RuntimeError` from the recorder, `None` for empty text to speech, and
  helpers that app.py does not define.

## Model

| member | source | states |
|---|---|---|
| VoiceRecorder.Trunc | voicerecorder.py:78 | Python's `int()` on a float truncates toward zero, from either side. |
| VoiceRecorder.FrameBudgetIsLeast | voicerecorder.py:100 | The frame budget is the least `n` with `n * 160 >= max_duration * rate`. |
| VoiceRecorder.SilentFramesToStop | voicerecorder.py:78 | For a non-negative silence limit, the threshold is the number of whole 160-sample frames in `max_silence_duration * rate` samples; a negative limit gives 0 or less. `ShortSilenceLimitIsZeroThreshold` and `DefaultsStopAfterOneSecondOfSilence` use it. |
| VoiceRecorder.DurationReached | voicerecorder.py:100 | The duration test holds exactly when the recorded frames hold at least `max_duration * rate` samples. `DurationReachedIff` turns it into the frame budget. |
| VoiceRecorder.DurationReachedIff | voicerecorder.py:100-101 | The duration test `len(frames) * (160 / rate) >= max_duration` holds exactly when the frame count has reached the budget. |
| VoiceRecorder.Update | voicerecorder.py:89-101 | Every frame is appended at the end, the earlier frames are untouched, and an inactive flag is never set active again. |
| VoiceRecorder.CaptureState.UpdateRecordingStatus | voicerecorder.py:81-101 | A silent frame adds exactly 1 to the counter and a speech frame resets it to 0. The frame is appended unconditionally. The flag becomes false exactly when it was false already, or the counter is `>=` the threshold, or the duration is reached. |
| VoiceRecorder.CaptureState.ProcessFrame | voicerecorder.py:103-119 | The classifier's verdict on the frame drives one `update_recording_status` step. |
| VoiceRecorder.CaptureState.constructor | voicerecorder.py:76-79 | The session starts with no frames, a zero counter and the flag true. |
| VoiceRecorder.Live | voicerecorder.py:81-119 | Feeding frames through the live callback keeps every delivered frame, in arrival order, even after recording stopped. `StoppedStaysStopped` and `ReplayStopsAtTrigger` relate it to the flag and to the replay driver. |
| VoiceRecorder.StoppedStaysStopped | voicerecorder.py:79-101 | Once `recording_active` is false no later frame makes it true. |
| VoiceRecorder.Replay | voicerecorder.py:121-134 | The replay driver changes nothing once recording stopped, consumes at most the input, and while still active has consumed all of it. `ReplayFrames`, `ReplayStopsAtTrigger` and `ReplayWithinBudget` relate it to the input, the live callback and the budget. |
| VoiceRecorder.ReplayFrames | voicerecorder.py:98 | Under the replay driver the recording is the earlier frames followed by a prefix of the input. |
| VoiceRecorder.ReplayStopsAtTrigger | voicerecorder.py:95-101 | Replay returns what the live callback built for the frames it consumed, and stops early only when the flag fell. The frame that set the flag to false is kept. |
| VoiceRecorder.ReplayWithinBudget | voicerecorder.py:100-101 | A replay never grows the recording past the frame budget (at least one frame). |
| VoiceRecorder.RecordingWithinBudget | voicerecorder.py:100-101 | A recording from the initial state has at most `max(1, budget)` frames. |
| VoiceRecorder.SilentPrefixStops | voicerecorder.py:90-96 | Leading silent frames that bring the counter to the threshold end the recording within them. |
| VoiceRecorder.SilentRunStops | voicerecorder.py:90-96 | Any run of at least threshold-many silent frames ends the recording by the end of the run. |
| VoiceRecorder.SilentInputStopsAtThreshold | voicerecorder.py:90-98 | On all-silent input the recording ends exactly on the frame that brings the counter to the threshold, and that frame is kept. |
| VoiceRecorder.DefaultsStopAfterOneSecondOfSilence | voicerecorder.py:78 | At 16 kHz with 1.0 s of silence and a duration of at least 1 s, silent input returns exactly its first 100 frames. |
| VoiceRecorder.ZeroThresholdStopsAtFirstFrame | voicerecorder.py:93-96 | With a threshold of 0 or less the first frame, speech or not, stops the recording and is returned alone. |
| VoiceRecorder.ShortSilenceLimitIsZeroThreshold | voicerecorder.py:78 | At 16 kHz a silence limit strictly between -0.01 s and 0.01 s truncates to a threshold of 0. |
| VoiceRecorder.NoRepeatedSilenceStopsOnDuration | voicerecorder.py:90-101 | With a threshold of at least 2 and never two silent frames in a row, only the duration limit or the end of input ends the recording, at `min(input, budget)` frames. |
| VoiceRecorder.FirstNonBinary | voicerecorder.py:44-45 | The index found is the first element that is not bytes-like, or the length when there is none. |
| VoiceRecorder.WriteNextFrame | voicerecorder.py:44-45 | Writing the next bytes-like frame at the end of the buffer extends the concatenation of the frames written so far by exactly that frame. |
| VoiceRecorder.Recorder.constructor | voicerecorder.py:19-23 | The recorder's sample rate is 16000. |
| VoiceRecorder.Recorder.ArrayToPcmBytes | voicerecorder.py:25-50 | It succeeds exactly when every frame is bytes-like. The buffer is then the in-order concatenation of the frames, its length is the sum of theirs, and the position is 0. Otherwise the first failing write's own exception escapes. |
| VoiceRecorder.Recorder.RecordAudioVad | voicerecorder.py:74-134 | A device error becomes `AssertionError("Error occurred during recording: …")`. Otherwise the frames the replay driver recorded, with the truncated silence threshold, are returned. |
| BytesIo.FlattenLength | voicerecorder.py:44-45 | The concatenation of the frames is as long as the sum of their lengths. |
| BytesIo.FlattenAppend | voicerecorder.py:44-45 | Concatenating one more frame appends it. |
| BytesIo.Overwrite | voicerecorder.py:45 | An empty `write` leaves the buffer alone, wherever the position is. Any other `write` overwrites from the position, grows the buffer when needed, zero-fills a gap past the old end and keeps the other bytes. |
| BytesIo.OverwriteAtEnd | voicerecorder.py:45 | Writing at the end of the buffer appends. |
| BytesIo.BytesIO.constructor | voicerecorder.py:42 | A new buffer is empty at position 0. |
| BytesIo.BytesIO.OfContents | iat_ws_python3.py:203 | A file opened for reading is its contents at position 0. |
| BytesIo.BytesIO.Write | voicerecorder.py:45 | The buffer becomes the overwritten one (unchanged for empty data), the position moves past the data, and the number of bytes written is returned. |
| BytesIo.BytesIO.Seek | voicerecorder.py:46 | Seeking moves only the position. |
| BytesIo.BytesIO.Read | iat_ws.py:133 | Reading returns the next chunk, advances past it and leaves the buffer alone. |
| Base64.DecodeEncode | iat_ws.py:142 | Decoding the base64 text of the audio gives the audio back. |
| Base64.EncodeInjective | iat_ws.py:142 | Different audio chunks have different base64 texts. |
| AudioChunks.ChunksSizes | iat_ws.py:126-133 | Every chunk is non-empty and at most the frame size, all but the last are full, and there are none for an empty stream. |
| AudioChunks.ChunksFlatten | iat_ws.py:132-133 | The chunks concatenated in order are the stream. |
| AudioChunks.ReadNextChunk | iat_ws.py:133-137 | A read is empty exactly at the end of the stream. Otherwise it is the next chunk. |
| AudioChunks.PieceAt | iat_ws.py:147-159 | Message `k` carries chunk `k` with status 0 or 1, and the message after the last chunk is the empty status-2 one. |
| AudioChunks.PiecesShape | iat_ws.py:136-159 | Status 2 is sent once, last, with empty audio. Status 0 is sent exactly on the first message of a non-empty stream. Every other chunk has 1 to size bytes. |
| AudioChunks.PiecesRoundTrip | iat_ws.py:132-144 | The audio of the messages, concatenated in order, is the stream. |
| IatProtocol.UploadFrames | iat_ws.py:132-159 | The messages the loop sends: one per piece of the 8000-byte chunking, in order. `UploadShape` gives their statuses, sizes and arguments, and `UploadRoundTrip` gives their audio back. |
| IatProtocol.UploadShape | iat_ws.py:125-161 | Status 2 comes once and last with empty audio, and status 0 exactly on the first message of a non-empty stream. Only that message carries `common` and `business`. Other chunks are status 1 with at most 8000 bytes. An empty stream gives one message. |
| IatProtocol.UploadRoundTrip | iat_ws.py:133-144 | Decoding the audio fields in order and concatenating them reproduces the stream. |
| IatProtocol.JoinCw | iat_ws.py:96 | The words of one `cw` list are joined when every entry has a `w`. |
| IatProtocol.JoinWords | iat_ws.py:96 | The joined words exist exactly when every `cw` entry has a `w` (otherwise `KeyError`). |
| IatProtocol.JoinCwConcat | iat_ws.py:96 | Joining two runs of entries is joining each and concatenating. |
| IatProtocol.JoinWordsConcat | iat_ws.py:96 | Joining two lists of `cw` lists is joining each and concatenating. |
| IatWs.WsParam.constructor | iat_ws.py:30-46 | `common` carries the app id and `business` the fixed IAT settings. |
| IatWs.HandleMessage | iat_ws.py:83-105 | A reply with code 0, an `sid`, a `data.status` and all words appends the joined words, whatever the status. Every other reply leaves `final_result` as it is. The return value is `final_result` or None. A malformed reply returns None. An error reply returns a value exactly when it has a `message`. |
| IatWs.FinalAfterIsTranscript | iat_ws.py:83-105 | Over any sequence of replies `final_result` gains exactly the words of the accepted ones, in order. |
| IatWs.SpeechRecognizer.constructor | iat_ws.py:75-80 | The recogniser starts with an empty `final_result`. |
| IatWs.SpeechRecognizer.OnMessage | iat_ws.py:83-105 | The attribute and the return value are those of `HandleMessage`. |
| IatWs.SpeechRecognizer.OnOpenRun | iat_ws.py:121-161 | After rewinding, the messages sent are exactly `UploadFrames` of the stream, and the stream contents are unchanged. |
| IatWs.SpeechRecognizer.RunRecognition | iat_ws.py:165-191 | A recording error sends nothing. Otherwise the decoded uploaded audio is the concatenation of the recorded frames. |
| IatWsPython3.HandleMessage | iat_ws_python3.py:116-152 | A reply with code 0, an `sid`, all words and a status of 0, 1 or 2 appends the words. Any other status, a missing status, an error code or a parse failure leaves `final_result` unchanged. |
| IatWsPython3.FinalAfterIsTranscript | iat_ws_python3.py:116-152 | Over any sequence of replies `final_result` gains exactly the words of the accepted replies, in order. |
| IatWsPython3.StatusOutsideRangeOnlyHere | iat_ws_python3.py:130-148 | This handler and the one of iat_ws.py agree on every reply except a successful one whose status is outside 0 to 2, which only iat_ws.py appends. |
| IatWsPython3.Globals.constructor | iat_ws_python3.py:115 | `final_result` starts empty. |
| IatWsPython3.Globals.OnMessage | iat_ws_python3.py:116-152 | The global becomes `HandleMessage` of its old value. |
| IatWsPython3.OnOpenRun | iat_ws_python3.py:193-265 | The messages sent for the file are exactly `UploadFrames` of its contents. |
| SttXinghuo.UploadFrames | stt-xinghuo.py:210-273 | The messages the loop sends: one per piece of the 1280-byte chunking, in order. `UploadShape` gives their statuses, sizes and parameters, and `UploadRoundTrip` gives their audio back. |
| SttXinghuo.UploadShape | stt-xinghuo.py:190-276 | Header status 0 comes exactly on the first message of a non-empty file, then 1, then 2 once and last with empty audio. Chunks are at most 1280 bytes. Every message carries the app id, the `iat` parameters, 16000 and "raw". An empty file gives one message. |
| SttXinghuo.UploadRoundTrip | stt-xinghuo.py:205-266 | The decoded audio of the messages, concatenated, is the file. |
| SttXinghuo.OnOpenRun | stt-xinghuo.py:190-279 | The messages sent for the file are exactly `UploadFrames` of its contents. |
| SttXinghuo.HandleMessage | stt-xinghuo.py:110-151 | A readable status-1 reply replaces `final_result` and a status-2 reply appends and closes. A non-zero code closes and changes nothing. A reply without payload changes nothing. It raises, and changes and closes nothing, exactly when the reply is not JSON, lacks `header`, `code` or `status`, or has code 0 with a payload whose text does not decode or has a word entry without `w`. |
| SttXinghuo.FinalAfterSplit | stt-xinghuo.py:110-151 | Handling a sequence of replies is handling a prefix and then the rest. |
| SttXinghuo.StatusOneForgetsHistory | stt-xinghuo.py:145-146 | A status-1 reply erases everything before it: the result depends only on its words and the replies after it. |
| SttXinghuo.IgnoredRepliesKeepResult | stt-xinghuo.py:125-151 | Replies that are not readable with status 1 or 2 (status 0 included) leave `final_result` unchanged. |
| SttXinghuo.CollectCw | stt-xinghuo.py:141-143 | The inner loop joins the `w` of each entry, or fails at an entry without one. |
| SttXinghuo.CollectWords | stt-xinghuo.py:139-143 | The nested loops produce exactly the joined words of all `cw` lists, or fail when a `w` is missing. |
| SttXinghuo.Globals.constructor | stt-xinghuo.py:109 | `final_result` starts empty. |
| SttXinghuo.Globals.OnMessage | stt-xinghuo.py:110-151 | The global, the close and the exception are those of `HandleMessage`. |
| Tts.SpanRun | tts.py:83 | The leading run of a character class is all in the class and cannot be extended. |
| Tts.TrailingSpanRun | tts.py:83 | The trailing run of a character class is all in the class and cannot be extended. |
| Tts.SpanOf | tts.py:83 | A class run followed by a character outside the class is measured exactly. |
| Tts.TrailingSpanOf | tts.py:83 | A class run preceded by a character outside the class is measured exactly as the trailing run. |
| Tts.MatchTemplateFill | tts.py:83 | A fixed stretch of the pattern, with any admissible characters in its slots, is matched and gives those characters back. |
| Tts.MatchTemplateSound | tts.py:83 | Whatever a fixed stretch matches is that stretch filled with the matched characters, followed by the rest. |
| Tts.SplitTailSound | tts.py:83 | The tail split finds a body, `</voice>`, whitespace, `</speak>` and whitespace that make up the text. |
| Tts.SplitTailComplete | tts.py:83 | Any body followed by `</voice>`, whitespace, `</speak>` and whitespace splits back into those parts. |
| Tts.ParseShell | tts.py:82-88 | An accepted text has a non-empty language and a non-empty voice name, as the `+` quantifiers demand. `ParseShellSound` and `ParseShellComplete` characterise it both ways. |
| Tts.ParseShellSound | tts.py:82-88 | Every text the pattern accepts is a valid shell that renders back to exactly that text. |
| Tts.ParseShellComplete | tts.py:82-88 | Every valid shell is accepted and parses back to itself. This covers whitespace around and between the tags, either quote in each attribute, any character between `1` and `0`, a `[a-zA-Z-]+` language, a `[\w-]+` name and any body. |
| Tts.Wrap | tts.py:92-103 | The wrapper embeds the text as it is, followed directly by `</voice></speak>`. `WrapIsShell` and `WrapParses` show that its output is the wrapper's shell. |
| Tts.WrapIsShell | tts.py:92-103 | With a `[\w-]+` voice name, the wrapper's output is a valid shell: single quotes, `en-US`, no extra whitespace and the text as body. |
| Tts.ConvertToSsml | tts.py:66-104 | Text the pattern accepts is returned unchanged, and any other text is wrapped. For a `[\w-]+` voice name, any other text is parsed by the pattern back to the wrapper's shell: that voice, `en-US`, and the text as body. `ConvertKeepsShell` and `ConvertIdempotent` follow from it. |
| Tts.WrapParses | tts.py:92-103 | For a `[\w-]+` voice name, the wrapped text parses to the wrapper's shell. |
| Tts.ConvertKeepsShell | tts.py:87-89 | Text the pattern accepts is returned unchanged. |
| Tts.ConvertIdempotent | tts.py:82-104 | With a `[\w-]+` voice name the output is always accepted, so converting twice is converting once. |
| Tts.NewTextToSpeech | tts.py:17-31 | Construction fails with `EnvironmentError` exactly when the key or the region is unset or empty. The voice name defaults to `zh-CN-XiaoxiaoMultilingualNeural` only when unset. |
| Tts.SynthesizeSpeech | tts.py:34-64 | Empty text raises `ValueError("Text cannot be empty")` before the service is asked. Otherwise the call succeeds exactly on a completed synthesis of the converted SSML and returns its audio. Every other outcome is a `RuntimeError` with the "Exception occurred during speech synthesis: " prefix. |
| App.CreateOpenAIClient | app.py:26-50 | The client is built exactly when all three settings are set and non-empty. The first missing one, checked in the order key, version, endpoint, raises `ValueError` naming it. |
| App.TranscribeSpeechToText | app.py:53-63 | Without a given instance, an exception from constructing `WhisperSTT()` escapes, because it happens before the `try`. Otherwise any exception from recording or transcribing becomes the empty transcript, and a transcription is passed through. |
| App.PromptError | app.py:76-86 | A dictionary passes exactly when it has both keys and a `system` or `user` role. A missing key is reported before the role. A string role outside the two, or any other hashable role, gives the "Role must be either 'system' or 'user', but got '…'." `AssertionError`. An unhashable role is the `TypeError` "unhashable type: '…'". |
| App.FirstPromptError | app.py:78-86 | The scan over the dictionaries raises only `AssertionError` or the `TypeError` of an unhashable role. |
| App.ValidationError | app.py:70-86 | Anything but a list, and a list holding anything but dictionaries, raises the format `AssertionError`. No other exception than `AssertionError` or an unhashable role's `TypeError` comes out of validation. `ValidationAcceptsExactly` characterises exactly what it accepts, and `FirstOffenderDecides` gives the error for a list of dictionaries. |
| App.FirstPromptErrorNone | app.py:78-86 | The scan finds no error exactly when every dictionary is well formed. |
| App.ValidationAcceptsExactly | app.py:70-86 | Validation passes exactly for lists whose every element is a dictionary with both keys and a valid role. |
| App.FirstOffenderDecides | app.py:78-86 | In a list of dictionaries the first ill-formed one determines the error raised. |
| App.CheckPrompts | app.py:70-86 | The type check and then the in-order scan raise exactly the validation error. |
| App.InteractWithOpenAI | app.py:66-106 | Every failure escapes as `AssertionError` starting with "Error in the AI response: ". Invalid prompts fail before the client is asked. A client error is wrapped. Otherwise the first choice's content is returned, or "No response returned." when there is none. |
| App.SynthesizeAndPlaySpeech | app.py:109-132 | A missing speech setting escapes even for a missing script, and a missing script then does nothing. An empty script raises `ValueError`. Success means non-empty audio that was played without error. |
| App.Conversation | app.py:143-154 | `main` builds two well-formed messages, the second a `user` message whose content is the transcript. `ConversationIsValid` shows they pass the validator. |
| App.ConversationIsValid | app.py:143-154 | The system and user messages built by `main` always pass the validator. |
| App.ConversationTurn | app.py:135-157 | Client errors escape first, then errors constructing the recogniser. An empty transcript ends the turn without asking the model. Otherwise the model's answer to exactly the two messages is spoken, and its errors escape. |

## Left out

- The live audio device, its callback thread and the `asyncio.sleep(0.1)` poll (voicerecorder.py:121-130). They are I/O and concurrency. `RecordAudioVad` replays a finite list of frames and stops when the flag falls. In live mode frames that arrive before the poll notices are still appended. `VoiceRecorder.Live` states that (`ensures t.frames == s.frames + input`), and no claim is made that live recording stops at the decision.
- A `PortAudioError` raised mid-stream, after some frames were recorded. The model raises it only as a property of the whole source.
- The `webrtcvad` classifier is a function parameter, not modelled.
- Durations are Dafny `real`s, which are exact rationals, not IEEE doubles. Rounding in `max_silence_duration * 16000 / 160` and `len * (160 / rate)` is not modelled.
- `VoiceRecorder.Recorder.RecordAudioVad`: requires a positive sample rate. The source always uses 16000.
- `array_to_wav_bytes` and its WAV header. The tests use it, but voicerecorder.py does not define it.
- The test files are not modelled: they target other versions of the code (other exception types, `None` for empty text, helpers app.py lacks), and tests/test-tts.py is not valid Python.
- Logging, `print` and the printed cancellation details in `synthesize_speech`.
- URL signing (HMAC, dates, `urlencode`), `ws.send`, `ws.close`, `run_forever`, threads and the sleeps between messages. Only the messages sent and the result accumulation are modelled. The socket close of stt-xinghuo.py is a flag.
- JSON parsing and base64 are abstract. Reply fields are `Option`s, and a non-JSON reply is a separate case. Non-integer JSON values (a string `status`, say) and comparisons of mixed types are not modelled.
- `\w` in the voice-name class is ASCII letters, digits and `_`. Python's Unicode letters and digits are not included.
- `IatWs.SpeechRecognizer.RunRecognition`: it assumes that `create_url` succeeds, that the socket opens and that `on_open` runs. The signing reads `XH_APISecret`, which may be unset, and the connection may fail. In either case iat_ws.py sends nothing, while the model promises the upload.
- `App.TranscribeSpeechToText`: a given `whisper_instance` is taken as truthy, as any ordinary object is. An instance that Python treats as false would be replaced by a new `WhisperSTT()`.
- The Azure speech SDK, the Whisper recogniser and the OpenAI client are parameters returning outcomes. Their internal behaviour is not modelled.
- `play_speech` is not defined in tts.py. `App.SynthesizeAndPlaySpeech` takes it as a parameter. With the tts.py shown, `tts_processor.play_speech(stream)` (app.py:128) raises `AttributeError`, so the modelled success path needs a `play_speech` that tts.py does not supply.
- The `MODEL_NAME`, `max_tokens` and sampling arguments of the chat call are not modelled. A transcript of `None` is treated like the empty string.
