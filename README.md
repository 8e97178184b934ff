# Jarvis native core — a Dafny model

This project models the voice-assistant core of the Jarvis native repository and proves
properties of it:

- **The server session** (`app/api/websocket_endpoint.py`). One WebSocket connection runs
  three flows:
  - the client reader forwards microphone frames to the model and raises the interrupt
    flag when the client asks for it;
  - the model reader queues each text part of the model's responses, and raises the flag
    when a response is marked `interrupted`;
  - the synthesis loop appends queued text to a buffer, splits it with
    `re.split(r'([.!?]+)', …)`, synthesizes each complete sentence and sends the audio.
    On an interrupt it clears the buffer, drains the queue and tells the client to stop.
- **The burst assistant** (`scripts/test_burst_multimodal.py`). It sleeps until the wake
  word and collects the frames of one command. After 1.3 s of silence it sends them as one
  burst, unless the burst is shorter than 3200 bytes. If no speech comes within 3 s of the
  wake word it goes back to sleep.
- **The wake-word debounce** (`scripts/test_wakeword.py`). A score above 0.5 is accepted
  only if more than 1.0 s has passed since the last accepted one. A score in (0.1, 0.5] is
  reported as low confidence.
- **The microphone client** (`scripts/audio_loop.py`). It parses the output device, reads
  the RMS threshold from the environment, and runs the sender with barge-in interrupts.
  Its playback queue is flushed on an interrupt and closed by a `None` sentinel.
- **The tool registry** (`app/services/tools_manager.py`).

Modules:

| module | what it holds |
|---|---|
| `Base` | `Option` and `byte` |
| `PyStr` | Python's `str.isspace`, `str.strip`, `int(str)` and `str(int)` |
| `SentenceSplit` | `re.split` with one capturing group, and its uniqueness |
| `Control` | JSON values and the `{"type": "interrupt"}` control message |
| `TtsPipeline` | the server `Session` class |
| `BurstListener` | the burst assistant |
| `WakeDebounce` | the wake-word debounce |
| `AudioClient` | the microphone client |
| `Tools` | the tool registry |

How concurrency is modelled:

- Each flow is a group of step methods on one object (`TtsPipeline.Session`,
  `AudioClient.Playback`).
- Each step is the stretch of code between two `await`s, except
  `AudioClient.Playback.PlayAvailable`, which runs several turns of the player's loop
  (across the awaits at lines 107 and 110 of `scripts/audio_loop.py`) as one step; the
  receiver's steps can still be called between two of its calls.
- The synthesis loop records where it is suspended in `stage`, so its steps can only run
  in the order the loop allows.
- The other flows' steps may be called between any two of them.
- External results are parameters of the step that receives them: the synthesized
  audio, whether a send succeeded, the model's reply chunks, the clock readings and the
  RMS levels.

Behaviour of the code worth noting:

- **No wake state on the server.** The server forwards every binary frame to the model.
  It keeps no awake or asleep state and never discards text on that account. The
  `interrupted` marker of a model response only raises the interrupt flag.
- **Strict thresholds.** Both wake-word scripts accept a score strictly above 0.5. The
  low-confidence band is (0.1, 0.5].
- **Stranded synthesis loop.** The interrupt drain (lines 38-42 of the server) removes
  every queued item, the `None` sentinel included; see "## Findings".

## Model

| member | source | states |
|---|---|---|
| PyStr.Strip | scripts/audio_loop.py:29 | `strip()` returns the empty string exactly when the text is whitespace only; otherwise the result starts and ends with non-space characters |
| PyStr.StripMeaning | scripts/audio_loop.py:29 | `strip()` returns a slice of the text with only whitespace before and after it |
| PyStr.ParseIntToString | scripts/audio_loop.py:29-32 | `int(str(n)) == n` for every integer of at most 4300 digits; with more digits `int()` raises `ValueError` |
| PyStr.ParseIntRejectsForeignChar | scripts/audio_loop.py:29-32 | a character other than a space, digit, sign or underscore makes `int()` fail (the `ValueError` path) |
| SentenceSplit.PyListIndex | app/api/websocket_endpoint.py:69-74 | the split as Python's list has odd length; position `2j` is chunk `j`'s text, `2j+1` its run, and the last is the trailing fragment |
| SentenceSplit.SplitIsSplitOf | app/api/websocket_endpoint.py:69 | the split spells the buffer; each chunk is a terminator-free text and a non-empty run; only the first text may be empty; the tail has no terminator |
| SentenceSplit.SplitUnique | app/api/websocket_endpoint.py:69 | any parts of that shape that spell the buffer are what `re.split` returns |
| SentenceSplit.SplitSingle | app/api/websocket_endpoint.py:69-70 | `len(sentences) > 1` exactly when the buffer holds a terminator; otherwise the list is the buffer alone |
| SentenceSplit.SplitOfCons | app/api/websocket_endpoint.py:69 | a text piece, a maximal run of terminators and the rest split as that chunk followed by the split of the rest |
| SentenceSplit.SentencesOfSplit | app/api/websocket_endpoint.py:71-74 | every sentence the loop visits ends with a terminator |
| SentenceSplit.BufferDecomposition | app/api/websocket_endpoint.py:69-81 | the sentences followed by `sentences[-1]` are exactly the buffer; the new buffer has no terminator |
| SentenceSplit.NoBlankSentence | app/api/websocket_endpoint.py:69-75 | no sentence the loop visits is whitespace only |
| SentenceSplit.NoTerminatorNoSentence | app/api/websocket_endpoint.py:69-70 | a buffer without terminator splits into itself alone |
| TtsPipeline.PartTexts | app/api/websocket_endpoint.py:147-150 | only non-empty texts are queued, never more than there are parts |
| TtsPipeline.PartTextsAppend | app/api/websocket_endpoint.py:147-150 | texts are queued in the order of the parts |
| TtsPipeline.PartTextsAllText | app/api/websocket_endpoint.py:147-150 | when every part carries text, every text is queued, in order |
| TtsPipeline.RoutedTexts | app/api/websocket_endpoint.py:142-150 | an interrupted response, or one without content or model turn, queues nothing; only non-empty texts are queued |
| TtsPipeline.TurnCompleteIgnored | app/api/websocket_endpoint.py:152-156 | `turn_complete` changes neither the flag nor the queue |
| TtsPipeline.NextSpeakable | app/api/websocket_endpoint.py:71-75 | the next sentence to synthesize is the first one at or after `j` that is not whitespace only; all the ones skipped are |
| TtsPipeline.FindSpeakable | app/api/websocket_endpoint.py:71-75 | the skipping loop stops at exactly that sentence |
| TtsPipeline.ContinueMeaning | app/api/websocket_endpoint.py:72-81 | a set flag breaks the loop and line 81 empties the buffer; otherwise the loop speaks the next non-blank sentence or keeps the trailing fragment |
| TtsPipeline.ResumeKeepsInv | app/api/websocket_endpoint.py:71-81 | resuming the loop keeps it in step with the split of the buffer and never sends a blank sentence to synthesis |
| TtsPipeline.UnterminatedIsKept | app/api/websocket_endpoint.py:69-81 | a buffer with no terminator is kept whole and nothing is synthesized |
| TtsPipeline.SynthesizedMeaning | app/api/websocket_endpoint.py:77-79 | the loop sends exactly when the audio is non-empty and the flag is clear, and then sends that audio; a set flag ends the pass with an empty buffer |
| TtsPipeline.SentMeaning | app/api/websocket_endpoint.py:79-85 | a send that raises leaves the buffer intact for the next iteration; after a completed send a set flag empties it |
| TtsPipeline.PassKeepsText | app/api/websocket_endpoint.py:62-81 | a pass without interrupt loses no text: the sentences plus the new buffer are the old buffer plus the new text |
| TtsPipeline.NothingSkipped | app/api/websocket_endpoint.py:71-75 | over the split of a buffer the whitespace test of line 75 never skips a sentence |
| TtsPipeline.PassStep | app/api/websocket_endpoint.py:71-81 | whatever synthesis returns, with the flag clear the loop moves on to the next sentence |
| TtsPipeline.PassFrom | app/api/websocket_endpoint.py:71-81 | from chunk `j` on, an uninterrupted pass requests the remaining sentences in order and keeps the tail |
| TtsPipeline.PassSpeaksEverySentence | app/api/websocket_endpoint.py:69-81 | with the flag clear and every send succeeding, the texts sent to synthesis are exactly the split's sentences, in order, and the buffer becomes the trailing fragment |
| TtsPipeline.SynthesizedKeepsInv | app/api/websocket_endpoint.py:77-81 | handling the synthesis result keeps the loop invariants |
| TtsPipeline.SentKeepsInv | app/api/websocket_endpoint.py:79-85 | finishing a send keeps the loop invariants |
| TtsPipeline.Session.constructor | app/api/websocket_endpoint.py:23-29 | an empty buffer and queue, a clear flag, nothing sent, all three flows running |
| TtsPipeline.Session.CheckInterrupt | app/api/websocket_endpoint.py:34-49 | with the flag set the buffer and queue are emptied, the flag is cleared and the notice is sent if delivery succeeds; otherwise nothing changes |
| TtsPipeline.Session.CheckInterruptKeepingSentinel | app/api/websocket_endpoint.py:34-49 | the corrected drain: as `CheckInterrupt`, but a drained sentinel is put back, so the queue is `[None]` if it held one and empty otherwise |
| TtsPipeline.Session.GetTimesOut | app/api/websocket_endpoint.py:53-56 | an empty queue times out and the loop starts over |
| TtsPipeline.Session.TakeItem | app/api/websocket_endpoint.py:54-70 | the sentinel ends the loop; text is appended to the buffer; a set flag restarts the loop; otherwise the sentence loop runs over the split of the buffer |
| TtsPipeline.Session.SynthesisReturns | app/api/websocket_endpoint.py:77-78 | the new loop state is what line 78's test selects, and the invariants hold |
| TtsPipeline.Session.SendFinishes | app/api/websocket_endpoint.py:79-85 | the audio frame is sent exactly when the send succeeds; the loop state moves on as `Sent` says |
| TtsPipeline.Session.Proceed | app/api/websocket_endpoint.py:71-81 | the loop runs on to the next synthesis call or to line 81, as `Continue` says |
| TtsPipeline.Session.Receive | app/api/websocket_endpoint.py:94-114 | the flag is raised exactly by an interrupt request; every binary frame is forwarded, and nothing else is |
| TtsPipeline.Session.ReceiverStops | app/api/websocket_endpoint.py:116-126 | a disconnect ends the reader |
| TtsPipeline.Session.ModelResponse | app/api/websocket_endpoint.py:134-156 | the flag is raised exactly by the `interrupted` marker; the queue grows by the response's texts, in order |
| TtsPipeline.Session.QueueTexts | app/api/websocket_endpoint.py:147-150 | the queue grows by exactly the parts' non-empty texts, in order |
| TtsPipeline.Session.ProducerStops | app/api/websocket_endpoint.py:161-168 | the model reader always queues the sentinel when it ends |
| TtsPipeline.OneSentence | app/api/websocket_endpoint.py:69 | a terminator-free text and a full stop split into one chunk and an empty tail |
| TtsPipeline.OneSentenceResumes | app/api/websocket_endpoint.py:71-81 | such a buffer sends its one sentence to synthesis and is then left empty |
| TtsPipeline.AccumulateFragment | app/api/websocket_endpoint.py:33-81 | a text after which the buffer still has no terminator is appended, and nothing is synthesized or sent |
| TtsPipeline.DeltasQueued | app/api/websocket_endpoint.py:147-150 | three text deltas of one turn are queued in order |
| TtsPipeline.DeltasBuffered | app/api/websocket_endpoint.py:54-81 | two fragments without a terminator accumulate in the buffer |
| TtsPipeline.SentenceCompleted | app/api/websocket_endpoint.py:62-77 | the delta ending in a full stop sends the whole sentence to synthesis |
| TtsPipeline.SentenceScenario | app/api/websocket_endpoint.py:54-81 | fragments followed by a full stop give one synthesis call, one audio frame and an empty buffer |
| TtsPipeline.BonjourScenario | app/api/websocket_endpoint.py:54-81 | "Bonjour", " le", " monde." give one synthesis call for "Bonjour le monde." and one audio frame |
| TtsPipeline.SentinelDrainedScenario | app/api/websocket_endpoint.py:34-59 | a sentinel queued before a pending interrupt is drained: the queue is empty, the model reader has stopped and the loop waits on the queue |
| TtsPipeline.SentinelKeptExits | app/api/websocket_endpoint.py:34-59 | with the corrected drain, a pending interrupt with a queued sentinel leads to the loop's exit at the next read |
| TtsPipeline.SentinelKeptScenario | app/api/websocket_endpoint.py:34-59 | the steps of `SentinelDrainedScenario` with the corrected drain end with the loop exited |
| BurstListener.Initial | scripts/test_burst_multimodal.py:63-66 | the assistant starts asleep with no command and an empty buffer |
| BurstListener.AsleepFrame | scripts/test_burst_multimodal.py:128-136 | asleep, a frame wakes the assistant exactly when some score is above 0.5, and then resets it; otherwise it changes nothing; nothing is buffered or sent |
| BurstListener.AwakeFrameBuffered | scripts/test_burst_multimodal.py:137-138 | a frame that leaves the assistant awake is appended to the buffer |
| BurstListener.LoudFrame | scripts/test_burst_multimodal.py:140-142 | a loud frame starts the command and restarts the silence clock |
| BurstListener.QuietFrame | scripts/test_burst_multimodal.py:140-142 | a quiet frame changes neither the command flag nor the silence clock |
| BurstListener.EndOfSpeechFrame | scripts/test_burst_multimodal.py:148-151 | after speech and more than 1.3 s of silence the assistant sleeps; the burst is sent and cleared only if it holds at least 3200 bytes, else it is kept |
| BurstListener.TimeoutFrame | scripts/test_burst_multimodal.py:153-156 | no speech more than 3 s after the wake word: asleep with an empty buffer, nothing sent |
| BurstListener.AwakeFrameStays | scripts/test_burst_multimodal.py:144-156 | otherwise the assistant stays awake with the frame buffered |
| BurstListener.BurstIsLongEnough | scripts/test_burst_multimodal.py:85-91 | a burst that is sent holds at least 3200 bytes and leaves the buffer empty |
| BurstListener.AwakeRunBuffers | scripts/test_burst_multimodal.py:120-138 | while awake, the buffer holds every frame's bytes in arrival order |
| BurstListener.AsleepRunIgnored | scripts/test_burst_multimodal.py:120-136 | without the wake word any run of frames changes nothing |
| BurstListener.ReplyTextAppend | scripts/test_burst_multimodal.py:103-108 | the reply is assembled chunk by chunk; splitting the stream splits the text |
| BurstListener.ReplyTextOfTexts | scripts/test_burst_multimodal.py:103-108 | the reply is the concatenation of the chunks' texts, in order |
| BurstListener.CollectReply | scripts/test_burst_multimodal.py:103-108 | the loop builds exactly that reply |
| BurstListener.BurstAssistant.constructor | scripts/test_burst_multimodal.py:63-66 | the fields start as `Initial` says, with nothing sent or spoken |
| BurstListener.BurstAssistant.Speak | scripts/test_burst_multimodal.py:68-69 | whitespace-only text is not spoken, anything else is |
| BurstListener.BurstAssistant.ProcessBurst | scripts/test_burst_multimodal.py:85-113 | a buffer under 3200 bytes is kept and nothing is sent; otherwise it is sent and cleared, and a non-blank reply is spoken |
| BurstListener.BurstAssistant.OnFrame | scripts/test_burst_multimodal.py:128-156 | the fields change as `Step` says; the burst `BurstOf` names is sent and its reply spoken |
| WakeDebounce.DetectAccepts | scripts/test_wakeword.py:52-56 | a detection is accepted exactly when its score is above 0.5 and more than 1.0 s has passed; only then does `last_wake_time` move |
| WakeDebounce.WeakScores | scripts/test_wakeword.py:57-58 | a score in (0.1, 0.5] only adds a low-confidence report; a lower one does nothing |
| WakeDebounce.DetectKeepsSpacing | scripts/test_wakeword.py:52-56 | one detection keeps accepted wakes spaced and below `last_wake_time` |
| WakeDebounce.ScanSpaced | scripts/test_wakeword.py:51-56 | any run of detections keeps that invariant |
| WakeDebounce.ListenSpaced | scripts/test_wakeword.py:43-58 | from the start, accepted wakes are pairwise more than 1.0 s apart |
| WakeDebounce.QuietScan | scripts/test_wakeword.py:52-55 | without a score above 0.5, `last_wake_time` never moves |
| WakeDebounce.FirstWakeAccepted | scripts/test_wakeword.py:43-56 | `last_wake_time` starts at 0, so the first confident detection after 1.0 s is accepted |
| WakeDebounce.ScanAppend | scripts/test_wakeword.py:46-58 | scanning two runs of detections is scanning one, then the other |
| WakeDebounce.ExamineFrame | scripts/test_wakeword.py:51-58 | the loop over one prediction does what `Scan` says |
| WakeDebounce.Listen | scripts/test_wakeword.py:43-58 | the loop over the frames does what `Scan` says on all their detections, from `last_wake_time = 0` |
| AudioClient.SelectBlank | scripts/audio_loop.py:28-29 | blank input picks the default device |
| AudioClient.SelectNumber | scripts/audio_loop.py:27-32 | a number of at most 4300 digits picks that device; a longer one makes `int()` raise and picks the default |
| AudioClient.SelectFallsBack | scripts/audio_loop.py:27-32 | input `int()` rejects falls back to the default device |
| AudioClient.RmsThresholdMeaning | scripts/audio_loop.py:67-70 | the threshold is the variable's number when it parses (at most 4300 digits), and 1000 when it is unset or not a number |
| AudioClient.EveryFrameSent | scripts/audio_loop.py:98 | every captured frame is sent, in order, whatever interrupts are sent between them |
| AudioClient.SendStepMeaning | scripts/audio_loop.py:90-98 | an interrupt precedes a frame exactly when it is loud and more than 1.0 s has passed since the last one, which then moves to the second clock reading |
| AudioClient.SendAudio | scripts/audio_loop.py:74-99 | the sender, with the variable bound before the loop, sends what `SendAll` says |
| AudioClient.QuietPrefix | scripts/audio_loop.py:90-93 | the frames before the first loud one |
| AudioClient.SendAudioAsWritten | scripts/audio_loop.py:74-101 | as written, the sender sends only the frames before the first loud one, and fails exactly when some frame is loud |
| AudioClient.LoudFrameCounterexample | scripts/audio_loop.py:90-98 | one loud frame: as written nothing is sent; corrected, an interrupt and the frame |
| AudioClient.BeforeSentinelPrefix | scripts/audio_loop.py:106-108 | the chunks played are the queue's first entries up to the first `None` |
| AudioClient.SentinelEnds | scripts/audio_loop.py:106-108 | a queue closed by the sentinel plays all its chunks and leaves nothing |
| AudioClient.Playback.constructor | scripts/audio_loop.py:56 | an empty queue, nothing played, both tasks running |
| AudioClient.Playback.Receive | scripts/audio_loop.py:119-151 | an interrupt empties the queue and counts what it dropped; other text changes nothing; audio is queued |
| AudioClient.Playback.ReceiverStops | scripts/audio_loop.py:153-156 | the receiver's end always queues the sentinel |
| AudioClient.Playback.PlayAvailable | scripts/audio_loop.py:105-110 | chunks are played in FIFO order up to the first `None`, where the player stops |
| AudioClient.Playback.PlayerFails | scripts/audio_loop.py:110-113 | a write that raises ends the player, and the chunk it took is lost |
| AudioClient.ShutdownScenario | scripts/audio_loop.py:105-156 | after the receiver stops, every queued chunk is played in order and the player stops |
| Tools.RegisterChangesOneName | app/services/tools_manager.py:14-17 | registering adds or replaces one name and leaves every other name as it was |
| Tools.DispatchAfterRegister | app/services/tools_manager.py:24-35 | a registered tool is what its name calls; other names are unaffected |
| Tools.DispatchUnknown | app/services/tools_manager.py:26-28 | an unknown name gives `None` |
| Tools.ToolsManager.constructor | app/services/tools_manager.py:11-12 | the registry starts empty |
| Tools.ToolsManager.RegisterTool | app/services/tools_manager.py:14-17 | the name now maps to the function |
| Tools.ToolsManager.GetToolDefinitions | app/services/tools_manager.py:19-22 | the list of definitions is always empty |
| Tools.ToolsManager.ExecuteTool | app/services/tools_manager.py:24-35 | an unknown name returns `None` and calls nothing; a known name calls its tool once, returns its value and re-raises its exception |
| Tools.FreshManagerScenario | app/services/tools_manager.py:11-35 | a fresh manager lists no tools, and every call to it gives `None` |

## Left out

- asyncio scheduling: the order in which flows run is the caller's choice of step methods. The 0.1 s queue timeout is a step (`GetTimesOut`) allowed only on an empty queue. The sleeps are not modelled.
- Google Cloud Text-to-Speech and Gemini calls: synthesized audio, model responses and reply chunks are inputs. `tts_service.synthesize` returns `None` on failure and never raises, so synthesis is an `Option`.
- RMS computation (`struct.unpack`, `math.sqrt`): the level of each frame is an input. Floating point is modelled as `real`.
- WAV conversion, PyAudio streams and the device listing: these are I/O.
- Logging and console output.
- The configuration and logging modules, the Gemini client and the diagnostic scripts: they are not part of this model.
- Connection errors in the sender and when sending the server's interrupt notice: the notice's delivery is a parameter, and the sender stops only through the modelled interrupt failure.
- PyStr.ParseInt: digits are ASCII only; Python's `int()` also accepts other Unicode decimal digits.
- PyStr.ParseInt: the digit limit is CPython's default of 4300 (3.11 and later); earlier versions have none, and `sys.set_int_max_str_digits` or `PYTHONINTMAXSTRDIGITS` can change it.
- Tools.ToolsManager.ExecuteTool: a synchronous tool, whose result cannot be awaited and raises `TypeError`, is not modelled; every tool is a function from arguments to an outcome.
- BurstListener.BurstAssistant.OnFrame: one clock reading per frame, where the source reads `time.time()` at lines 136, 141 and 146 separately. A frame with no samples, where line 126 divides by zero, is not modelled: the level is an input.
- AudioClient.SendAudio: the clock is read twice per frame (lines 93 and 96), as two inputs of the frame.
- BurstListener.BurstAssistant.ProcessBurst: a stream that fails part way is modelled as no reply at all, as the source then speaks nothing.

## Findings

| source | as written | input that shows it | evidently intended | confidence | as-written member | corrected member |
|---|---|---|---|---|---|---|
| scripts/audio_loop.py:93-96 | `last_interrupt_time` is assigned only at line 96, so Python treats it as a local of `send_audio`, and line 93 reads it before any assignment; the first loud frame raises `UnboundLocalError`, and the handler at line 100 ends the sender | one frame `MicFrame([0, 64], 2000.0, 5.0, 5.0)` with threshold 1000: nothing is sent | `last_interrupt_time = 0` before the loop: the frame is sent after an interrupt notice | not executed | AudioClient.SendAudioAsWritten, AudioClient.LoudFrameCounterexample | AudioClient.SendAudio, AudioClient.EveryFrameSent |
| app/api/websocket_endpoint.py:38-42 | the interrupt drain removes every queued item, including the `None` that line 168 queues when the model reader ends; once that reader has stopped nothing queues another, so the loop of lines 32-85 never reaches the `break` at line 59 and only times out | the model reader stops, then the client sends `{"type": "interrupt"}`, then the loop reaches line 34: the queue is empty and the loop waits forever | drop only the text, so that the sentinel still ends the loop | not executed | TtsPipeline.Session.CheckInterrupt, TtsPipeline.SentinelDrainedScenario | TtsPipeline.Session.CheckInterruptKeepingSentinel, TtsPipeline.SentinelKeptExits |
