# PadDrawBoard: a verified model

PadDrawBoard turns an Android tablet into a pen display for a Windows desktop.
This project models the parts of it that do not depend on a platform, in the
form the program gives them, and proves what they are for.

- **Decoder recovery** (`VideoInbox`, `AvcDecoding`, `DecoderRuns`,
  `DecoderOutcomes`, `DecoderDriver`): a network
  thread offers encoded frames, one handler thread delivers them to a codec
  that may fail, stall, or be replaced.  Runs are arbitrary interleavings of
  the synchronized inbox methods and the handler's commands; each read of the
  volatile `closed` flag is a sample of its own.
- **Wire protocol** (`Bytes`, `Utf8`, `WireFormat`, `WireCodec`, `WireBytes`): the
  format as functions, the encoder and decoder with their cursors and loops, and
  the documented tables byte by byte.
- **Framed streams** (`FramedStream`): the resumable writer and the reader over
  a byte stream that answers every call by an arbitrary schedule.
- **Configuration** (`Json`, `JsonGrammar`, `PrintedJson`, `Config`,
  `ConfigStore`, `ConfigShape`, `ConfigRoundTrip`): the JSON parser and its
  grammar, the printer, and their composition.
- **Encode pipeline** (`EncodePipeline`, `EncodeRuns`, `FrameFates`,
  `VideoPipelining`): the latest-frame queue, the asynchronous transform, and the
  telemetry record.
- **ADB session** (`AdbSession`, `AdbRuns`, `AdbOutcomes`): token authentication
  and reconnection under every interleaving of one connector thread with any
  other threads.
- **Smaller machines**: `CommandLine`, `TouchGrouping`, `ResolutionLadder` with
  `LadderPolicy` and `EncodeSize`, `InputAdapter` with `InputStream`,
  `ProfileActions`, `AnnexB`.

## How to read it

State that the program updates in place is a class; each of its methods is
proved to leave the object in the state a function on values gives.  The
theorems are about those functions: over all inputs, or over all runs of steps.
A method `Drive` takes the objects through any schedule and ends where the run
ends.
A step its thread cannot take leaves a run unchanged, so a schedule is just a
sequence of steps.  What a codec, a transform, a socket, ADB, the clock or the
token generator answers is a parameter of the step.

What each step must leave behind is stated once more, independently of those
functions, in `DecoderOutcomes`, `FrameFates`, `AdbOutcomes`, `LadderPolicy`,
`InputStream`, `WireBytes`, `JsonGrammar` and `ConfigShape`: by the history of the
run, the answers of the environment, and the documented constants alone.

Histories that exist only in the model, such as the frames queued so far or the
tokens revoked so far, are fields of the state on values.

`dafny verify dfyconfig.toml` checks everything.

## What the code does otherwise than one might expect

- `ReadFrame` throws away a partial frame on a would-block and the loops go on
  reading (desktop/src/app/framed_stream.cpp:26-30, 62-64, 74-76;
  desktop/src/app/desktop_server.cpp:853): `FramedStream.Receive` is in step
  if and only if would-blocks come at frame boundaries.  Out of step, no frame
  can be read (`FramedStream.TornReadLosesStep`), or one that was never sent
  (`FramedStream.ReadsUnsentFrame`).
- `EscapeJson` copies most control characters and `ParseString` rejects them:
  `ConfigRoundTrip.SavedLoads` gives the exact condition.
- The Annex-B scan resumes after the header byte: `AnnexB.MissedSlice`.
- The path of an executable is quoted like an argument, which the rule for the
  program name does not undo: `CommandLine.ProgramRead` gives the exact condition.
- `configure` and `reconfigure` discard a pending frame without reporting it:
  `DecoderRuns.DiscardsAreReconfigurations` says exactly when, and
  `DecoderRuns.PendingFrameVanishes` shows it.
- A command already past its check of `closed` finishes after `close` has raised
  the flag: `DecoderRuns.OnlyTheRunningCommandFinishes` says exactly what it
  still does, and `DecoderRuns.FrameQueuedAfterFlag` shows it.
- That a token of an earlier attempt is never accepted rests on the generator
  alone, which is not checked: `AdbRuns.AcceptedAgainIffArmedTwice`.
- A key that two profile buttons press goes up when the first of them is
  released: `ProfileActions.StateFitsExactlyWhenExclusive` gives the exact
  condition.
- "Not accepting" is not a failure to the pipeline, so an encoder that faulted
  with that code stays so until the next call: `EncodeRuns.EncodeLatestFaults`.
- A synchronous transform that takes a frame and gives nothing answers like one
  that took none, and the frame is gone: `FrameFates.NotTakenStays` names the case.
- A frame too large for its rung can come out two pixels short of it, because
  the scale is rounded: `EncodeSize.LongestEdgeIsTheRung` says exactly when.

## Model

| member | source | states |
|---|---|---|
| DecoderRuns.ReferenceChainSafety | android/app/src/main/java/io/paddrawboard/client/video/AvcDecoder.kt:66-208 | Every interleaving, wherever close raises its flag: each frame queued to a codec instance is a key frame or the immediate successor, in offer order, of the frame queued just before it to the same instance, and the successors lead back to a key frame of that instance |
| DecoderRuns.NoLostWakeup | android/app/src/main/java/io/paddrawboard/client/video/VideoFrameInbox.kt:12-34 | Until close: frames in the inbox imply scheduled; scheduled holds exactly when one delivery task is owed, queued or running; at most four frames are held; the frames dropped unreported are exactly those between the frame last taken and the head |
| DecoderRuns.DeliveryTellsTheGap | android/app/src/main/java/io/paddrawboard/client/video/VideoFrameInbox.kt:24-29 | A delivery reports as dropped exactly the frames between the frame taken before it and its own |
| DecoderRuns.GapIsBeforeHead | android/app/src/main/java/io/paddrawboard/client/video/VideoFrameInbox.kt:12-29 | Frames offered = serial after the frame last taken + dropped + held, in every state before close |
| DecoderRuns.FramesConserved | android/app/src/main/java/io/paddrawboard/client/video/AvcDecoder.kt:61-102 | Before close: frames accepted = queued to a codec + reported dropped + discarded by a new configuration + pending + in the inbox + unreported drops + in delivery |
| DecoderRuns.DiscardsAreReconfigurations | android/app/src/main/java/io/paddrawboard/client/video/AvcDecoder.kt:34-59 | A pending frame vanishes unreported if and only if a configure/reconfigure that is not refused, or the final close command, runs while one is pending; one frame at a time |
| DecoderRuns.PendingFrameVanishes | android/app/src/main/java/io/paddrawboard/client/video/AvcDecoder.kt:39 | A run in which a key frame is neither queued nor reported nor pending: the codec was configured again while it waited |
| DecoderRuns.NeverWaitingSilently | android/app/src/main/java/io/paddrawboard/client/video/AvcDecoder.kt:171-198 | After every command: waiting for an IDR implies a request with no key frame queued since; running implies none is outstanding and a codec exists; idrRequested is exactly an outstanding request |
| DecoderRuns.PendingIsNeverReplaced | android/app/src/main/java/io/paddrawboard/client/video/AvcDecoder.kt:87-96 | A delivered frame never meets a pending one: the replace-pending code is unreachable |
| DecoderRuns.OnlyTheRunningCommandFinishes | android/app/src/main/java/io/paddrawboard/client/video/AvcDecoder.kt:61-219 | From the last state with the flag down to the end of any run: exactly as many frames are queued and IDRs requested as the command running when the flag goes up still does, by its own check, the codec, the slot and the phase; none when no command is running |
| DecoderRuns.WhenTheRunningCommandActs | android/app/src/main/java/io/paddrawboard/client/video/AvcDecoder.kt:61-219 | After that state something is queued, or requested, if and only if the running command passed its own check and its frame, slot and codec ask for it; never more than one frame and two requests |
| DecoderRuns.StepDoes | android/app/src/main/java/io/paddrawboard/client/video/AvcDecoder.kt:34-208 | In every state of every run, what a step queues and requests, exactly, wherever in it the flag goes up |
| DecoderRuns.QuietOnceClosed | android/app/src/main/java/io/paddrawboard/client/video/AvcDecoder.kt:66-76 | Commands that begin with the flag up queue nothing and request nothing, for the rest of the run |
| DecoderRuns.FrameQueuedAfterFlag | android/app/src/main/java/io/paddrawboard/client/video/AvcDecoder.kt:76-98 | A run in which the flag goes up after the delivery has passed its own check, and the frame is queued all the same |
| DecoderRuns.NothingAfterDone | android/app/src/main/java/io/paddrawboard/client/video/AvcDecoder.kt:214-217 | After the final command the decoder does not change for the rest of the run: it has no codec, nothing pending, and stays closed |
| DecoderRuns.RunHolds | android/app/src/main/java/io/paddrawboard/client/video/AvcDecoder.kt:34-219 | The invariant over inbox, handler and codec that every run keeps |
| DecoderOutcomes.EveryStepLeaves | android/app/src/main/java/io/paddrawboard/client/video/AvcDecoder.kt:34-219 | After any steps, one more leaves the decoder with exactly this codec instance, phase, pending frame, input slots, size and queued frames, told by the state before and the answers of the codec alone |
| DecoderOutcomes.ErrorBringsNewCodec | android/app/src/main/java/io/paddrawboard/client/video/AvcDecoder.kt:171-181 | A handled error of the live codec leaves a new instance if and only if the flag stays down and the instance starts; always without slots or a pending frame, waiting for an IDR |
| DecoderOutcomes.ConfigureBringsCodec | android/app/src/main/java/io/paddrawboard/client/video/AvcDecoder.kt:34-59 | configure leaves a codec if and only if its size is positive, the flag stays down and the instance starts |
| DecoderOutcomes.KeyFrameBringsCodec | android/app/src/main/java/io/paddrawboard/client/video/AvcDecoder.kt:81-98 | A key frame that meets no codec brings one back under the same condition, and waits for its first slot |
| DecoderOutcomes.BurstsOfFour | android/app/src/main/java/io/paddrawboard/client/video/VideoFrameInbox.kt:12-29 | Before close, with n frames accepted since the one last taken: the newest (n - 1) mod 4 + 1 are held, as offered and in order, and all others are counted as dropped |
| DecoderOutcomes.InboxLeaves | android/app/src/main/java/io/paddrawboard/client/video/VideoFrameInbox.kt:12-29 | An offer to a full inbox leaves the new frame alone and adds four to the gap, otherwise it is appended; taking removes the oldest frame and the gap; nothing else changes either |
| DecoderOutcomes.OverflowLosesAll | android/app/src/main/java/io/paddrawboard/client/video/VideoFrameInbox.kt:14-17 | Every increase of the gap loses all that waited, up to the new frame |
| DecoderOutcomes.FramesAreAsOffered | android/app/src/main/java/io/paddrawboard/client/video/AvcDecoder.kt:61-98 | Whatever waits, is pending or was queued to a codec is a frame exactly as it was offered |
| VideoInbox.VideoFrameInbox.Offer | android/app/src/main/java/io/paddrawboard/client/video/VideoFrameInbox.kt:12-22 | New state and answer, including the overflow that drops all four frames and the single scheduling |
| VideoInbox.VideoFrameInbox.Take | android/app/src/main/java/io/paddrawboard/client/video/VideoFrameInbox.kt:24-29 | Head frame with the drops before it, which are cleared; nothing on an empty inbox |
| VideoInbox.VideoFrameInbox.FinishDelivery | android/app/src/main/java/io/paddrawboard/client/video/VideoFrameInbox.kt:31-34 | Scheduled, and to be posted again, exactly when frames remain |
| VideoInbox.VideoFrameInbox.Close | android/app/src/main/java/io/paddrawboard/client/video/VideoFrameInbox.kt:36 | Closed and empty |
| AvcDecoding.DecoderRecoveryState.AcceptFrame | android/app/src/main/java/io/paddrawboard/client/video/DecoderRecoveryState.kt:14-18 | Accepted exactly when running, or waiting and given a key frame |
| AvcDecoding.DecoderRecoveryState.OnFrameQueued | android/app/src/main/java/io/paddrawboard/client/video/DecoderRecoveryState.kt:27-31 | A key frame starts running; idle and closed refuse |
| AvcDecoding.DecoderRecoveryState.CodecError | android/app/src/main/java/io/paddrawboard/client/video/DecoderRecoveryState.kt:33-37 | Waits for an IDR unless closed |
| AvcDecoding.AvcDecoder.Configure | android/app/src/main/java/io/paddrawboard/client/video/AvcDecoder.kt:34-59 | The whole new decoder state: codec released and recreated, phase, outstanding request |
| AvcDecoding.AvcDecoder.CheckDelivery | android/app/src/main/java/io/paddrawboard/client/video/AvcDecoder.kt:66-72 | A closed decoder ends the delivery, a pending frame postpones it |
| AvcDecoding.AvcDecoder.Deliver | android/app/src/main/java/io/paddrawboard/client/video/AvcDecoder.kt:75-98 | Gap reported and recovered before the frame is judged; every read of the flag is its own, so it may go up at any point of the command |
| AvcDecoding.AvcDecoder.AdmitFrame | android/app/src/main/java/io/paddrawboard/client/video/AvcDecoder.kt:82-98 | Refused with a request, lost with a pending frame it may not replace, replacing it, or pending and drained |
| DecoderDriver.Drive | android/app/src/main/java/io/paddrawboard/client/video/AvcDecoder.kt:34-219 | Any schedule run on the objects themselves ends in the state of the run, so what holds of runs holds of them |
| AvcDecoding.AvcDecoder.CreateCodecOnThread | android/app/src/main/java/io/paddrawboard/client/video/AvcDecoder.kt:108-148 | Nothing when closed or unsized; a failing start leaves no codec and requests an IDR |
| AvcDecoding.AvcDecoder.DrainInputOnThread | android/app/src/main/java/io/paddrawboard/client/video/AvcDecoder.kt:150-169 | Queues the pending frame into the oldest free slot and settles the request on a key frame; a slot that does not fit is a codec error |
| AvcDecoding.AvcDecoder.HandleCodecErrorOnThread | android/app/src/main/java/io/paddrawboard/client/video/AvcDecoder.kt:171-181 | Pending frame reported, codec replaced, IDR requested anew |
| AvcDecoding.AvcDecoder.RecoverReferencesOnThread | android/app/src/main/java/io/paddrawboard/client/video/AvcDecoder.kt:183-191 | Same without touching the codec or its slots |
| AvcDecoding.AvcDecoder.OnInputBufferAvailable | android/app/src/main/java/io/paddrawboard/client/video/AvcDecoder.kt:120-124 | A slot of the current codec is remembered and used; stale callbacks change nothing |
| AvcDecoding.AvcDecoder.OnOutputBufferAvailable | android/app/src/main/java/io/paddrawboard/client/video/AvcDecoder.kt:126-130 | Only a failing release of the current codec is an error |
| AvcDecoding.AvcDecoder.CloseOnThread | android/app/src/main/java/io/paddrawboard/client/video/AvcDecoder.kt:214-217 | Codec released, phase closed |
| WireFormat.DecodeEncode | protocol/cpp/paddraw_protocol.cpp:189-221 | decodeFrame(encodeFrame(f)) = f for every frame the encoder accepts |
| WireFormat.EncodeDecode | protocol/cpp/paddraw_protocol.cpp:189-221 | encodeFrame(decodeFrame(b)) = b, and the frame is encodable, for every byte string the decoder accepts |
| WireFormat.PayloadSizes | protocol/cpp/paddraw_protocol.cpp:203 | Every valid payload fits the maximum, so the test for an oversized one never fails |
| WireBytes.FrameReads | protocol/cpp/paddraw_protocol.cpp:208-221 | For all bytes: they parse as a frame if and only if they are that frame by the offset tables and limits of the protocol, byte position by byte position |
| WireBytes.HeaderJudged | protocol/README.md:10-26 | For all bytes: the header is accepted exactly if it is as documented, and otherwise the first fault in the order of the fields is named |
| WireBytes.EncodableIs | protocol/cpp/paddraw_protocol.cpp:196-206 | What the encoder writes is the frame by the tables, and it writes every frame that some bytes are |
| WireBytes.HelloReads | protocol/README.md:44-61 | ClientHello by its table: offsets, limits, lengths of both strings |
| WireBytes.ConfigReads | protocol/README.md:63-80 | ServerConfig by its table |
| WireBytes.VideoReads | protocol/README.md:82-93 | VideoFrame by its table |
| WireBytes.InputReads | protocol/README.md:95-116 | InputBatch by its table: every sample at its offset, deltas that never decrease |
| WireBytes.ControlReads | protocol/README.md:118-138 | All eight control messages by their table |
| WireBytes.GoldenClientHello | protocol/golden/packets.json:5-7 | The golden hello: encoded to these bytes and read back from them |
| WireBytes.GoldenServerConfig | protocol/golden/packets.json:10-12 | The golden configuration |
| WireBytes.GoldenVideoIdr | protocol/golden/packets.json:15-17 | The golden key frame, with its flag |
| WireBytes.GoldenInputBatch | protocol/golden/packets.json:20-22 | The golden batch of two samples |
| WireBytes.GoldenControlClockSyncResponse | protocol/golden/packets.json:30-32 | A golden control message of three timestamps |
| WireBytes.GoldenControlOrientation | protocol/golden/packets.json:40-42 | The golden change of orientation |
| WireBytes.GoldenControlTelemetry | protocol/golden/packets.json:50-52 | The golden telemetry |
| WireBytes.GoldenControlDisconnect | protocol/golden/packets.json:55-57 | The golden disconnect with its text |
| WireCodec.EncodeFrame | protocol/cpp/paddraw_protocol.cpp:196-206 | Accepts exactly the encodable frames, yields the layout, and says which check failed |
| WireCodec.DecodeFrame | protocol/cpp/paddraw_protocol.cpp:208-221 | Accepts and rejects, with the same error, exactly as the format does |
| WireCodec.Writer.Number | protocol/cpp/paddraw_protocol.cpp:13-18 | Appends the little-endian bytes of the value |
| WireCodec.Reader.Number | protocol/cpp/paddraw_protocol.cpp:35-40 | Reads them back and advances, or fails on too few bytes |
| WireCodec.CheckHello | protocol/cpp/paddraw_protocol.cpp:75-81 | Decides validity of a hello |
| WireCodec.CheckInput | protocol/cpp/paddraw_protocol.cpp:88-98 | Decides validity of a batch: counts, flags, tilts, and deltas that never decrease |
| WireCodec.CheckControl | protocol/cpp/paddraw_protocol.cpp:99-106 | Decides validity of a control message |
| WireCodec.EncodeHello | protocol/cpp/paddraw_protocol.cpp:137 | Bytes of a valid hello, refusal of any other |
| WireCodec.EncodeVideo | protocol/cpp/paddraw_protocol.cpp:139 | Bytes of a valid video frame, refusal of any other |
| WireCodec.EncodeInput | protocol/cpp/paddraw_protocol.cpp:140 | Bytes of a valid batch, sample by sample |
| WireCodec.EncodeControl | protocol/cpp/paddraw_protocol.cpp:108-130 | Envelope and body of a valid control message |
| WireCodec.DecodeHello | protocol/cpp/paddraw_protocol.cpp:147-151 | Agrees with the format on every byte string, errors included |
| WireCodec.DecodeConfig | protocol/cpp/paddraw_protocol.cpp:152-156 | Agrees with the format on every byte string, errors included |
| WireCodec.DecodeVideo | protocol/cpp/paddraw_protocol.cpp:157-161 | Agrees with the format on every byte string, errors included |
| WireCodec.DecodeInput | protocol/cpp/paddraw_protocol.cpp:162-168 | Agrees with the format on every byte string, errors included |
| WireCodec.DecodeControl | protocol/cpp/paddraw_protocol.cpp:169-184 | Agrees with the format on every byte string, all eight opcodes |
| Utf8.Validate | protocol/cpp/paddraw_protocol.cpp:49-66 | True exactly for the byte strings of the grammar in section 4 of RFC 3629 |
| Utf8.DecodedCharacter | protocol/cpp/paddraw_protocol.cpp:57-63 | For a complete sequence the range tests on the code point and the grammar agree: no overlong form, surrogate or value above 10FFFF |
| FramedStream.Relay | desktop/src/app/framed_stream.cpp:59-129 | Writer to reader over arbitrary schedules: unless a read blocks inside a frame, what is received is a prefix of the accepted frames, whatever the chunks; every finished frame with a steady reading side; and a steady writing side refuses none |
| FramedStream.Send | desktop/src/app/framed_stream.cpp:95-129 | Any calls over any stream: sent = encodings of the finished frames and a prefix of the pending one; accepted frames are those whose start succeeded |
| FramedStream.Receive | desktop/src/app/framed_stream.cpp:22-85 | Repeated reads that go on after a would-block and end on anything else: as long as the loop runs the reader is in step, with the sent frames in order and the rest on the stream, if and only if no read blocked inside a frame |
| FramedStream.ReadFrame | desktop/src/app/framed_stream.cpp:59-85 | The first answer of the stream that is not fine is the answer of the read; otherwise the bytes decide: header and announced payload are consumed, and a frame is returned exactly when they are one; a steady stream yields any frame that is there |
| FramedStream.ReadExact | desktop/src/app/framed_stream.cpp:22-34 | Consumed bytes are the front of the stream; success means all of them; any other status is that of the first answer that was not fine, an empty one counting as closed and too long a one as an error |
| FramedStream.ResumableFrameWriter.Start | desktop/src/app/framed_stream.cpp:95-105 | Takes an encodable frame when idle, otherwise changes nothing |
| FramedStream.ResumableFrameWriter.Continue | desktop/src/app/framed_stream.cpp:107-129 | Keeps the sent bytes a prefix, resumes where it stopped, reports the bytes sent and the first answer that was not fine, and finishes exactly on success |
| FramedStream.PrefixFree | desktop/src/app/framed_stream.cpp:65-72 | No encoding is a prefix of another: frame boundaries are unambiguous |
| FramedStream.TornReadLosesStep | desktop/src/app/framed_stream.cpp:26-30 | A would-block inside a frame, within its first eleven bytes, leaves bytes from which no frame can be read |
| FramedStream.ReadsUnsentFrame | desktop/src/app/framed_stream.cpp:26-30 | After a would-block twenty-eight bytes into a frame the reader hands out a frame that was never sent |
| FramedStream.CarriedFrame | desktop/src/app/framed_stream.cpp:74-79 | The text of a disconnect can hold any short frame that is UTF-8, at its end |
| ConfigRoundTrip.SavedLoads | desktop/src/app/config.cpp:441-490 | For every valid configuration: the saved text loads as that configuration when its strings are storable, and does not load at all when one holds a control character other than \b \f \n \r \t |
| ConfigRoundTrip.SavedFits | desktop/src/app/config.cpp:449 | The text of a valid configuration never exceeds the 256 KiB that Load accepts |
| ConfigRoundTrip.LoadedStorable | desktop/src/app/config.cpp:441-463 | Whatever loads is valid and storable |
| ConfigRoundTrip.LoadedSurvivesSaving | desktop/src/app/config.cpp:441-468 | Whatever text a configuration came from, saving and loading gives it back |
| ConfigRoundTrip.ControlCharacterIsLost | desktop/src/app/config.cpp:263-278 | A concrete valid configuration whose saved text does not load |
| ConfigShape.LoadsExactly | desktop/src/app/config.cpp:441-463 | For every text: it loads as a configuration if and only if it has at most 256 KiB and is the text of a JSON tree whose fields, by name and limit, are those of the configuration |
| ConfigShape.ConfigReads | desktop/src/app/config.cpp:307-356 | For every value: what is read from it, spelled out by field names, names of kinds and buttons, and limits |
| JsonGrammar.AcceptsExactly | desktop/src/app/config.cpp:33-155 | For every text: the parser accepts it with a value if and only if it is the text of a tree of the grammar with that value: white space anywhere between tokens, eight escapes, unsigned 64-bit numbers, no key twice, no trailing comma |
| PrintedJson.PrintedReads | desktop/src/app/config.cpp:42-145 | The parser gives every printed document back, with its rest, exactly when all its strings are writable, and rejects it otherwise |
| PrintedJson.DocumentReads | desktop/src/app/config.cpp:33-39 | The same for a whole text between white space |
| PrintedJson.EscapedReads | desktop/src/app/config.cpp:96-121 | Unescaping inverts escaping, exactly on writable text |
| PrintedJson.EscapedIsLegal | desktop/src/app/config.cpp:263-278 | What is written between the quotes is a string of section 7 of RFC 8259 exactly when the text is writable |
| PrintedJson.DigitsRead | desktop/src/app/config.cpp:123-134 | Printed digits are digits and read back as their number |
| Json.JsonParser.Parse | desktop/src/app/config.cpp:33-39 | Accepts exactly the documents and yields their value |
| Json.JsonParser.ParseValue | desktop/src/app/config.cpp:42-56 | Consumes what the grammar consumes, or fails with it |
| Json.JsonParser.ParseObject | desktop/src/app/config.cpp:58-77 | Members in order, duplicate keys and missing separators rejected |
| Json.JsonParser.ParseArray | desktop/src/app/config.cpp:79-94 | Items in order, missing separators rejected |
| Json.JsonParser.ParseString | desktop/src/app/config.cpp:96-121 | Escapes resolved; raw control characters and unknown escapes rejected |
| Json.JsonParser.ParseNumber | desktop/src/app/config.cpp:123-134 | Longest run of digits; empty runs, signs and 64-bit overflow rejected |
| Json.JsonParser.ParseLiteral | desktop/src/app/config.cpp:136-145 | The literal at the cursor, or failure |
| Json.JsonParser.SkipWhitespace | desktop/src/app/config.cpp:147-149 | Advances over all leading white space |
| Json.JsonParser.Consume | desktop/src/app/config.cpp:150-155 | Advances over the expected character when it comes next |
| ConfigStore.SerializeConfig | desktop/src/app/config.cpp:358-385 | The printed document of the configuration, character for character |
| ConfigStore.EscapeJson | desktop/src/app/config.cpp:263-278 | Appends the quoted, escaped text |
| Config.ParseAction | desktop/src/app/config.cpp:280-305 | Action read from the value, or nothing, for every value |
| Config.ParseConfig | desktop/src/app/config.cpp:307-356 | Configuration read from the value and validated, or nothing, for every value |
| Config.Load | desktop/src/app/config.cpp:441-463 | Size limit, parsing and reading together |
| Config.NamesReadBack | desktop/src/app/config.cpp:225-261 | Names of action kinds and mouse buttons read back as themselves |
| ConfigRoundTrip.ConfigRead | desktop/src/app/config.cpp:307-356 | The value a configuration is printed for is read as that configuration |
| EncodeRuns.EncoderAndTelemetryAgree | desktop/src/video/video_pipeline.cpp:120-246 | For any transform behaviour, between calls a non-faulted encoder and the telemetry record hold the same sequence number, or both none |
| EncodeRuns.NoMismatch | desktop/src/video/video_pipeline.cpp:53-59 | No call ever completes a frame without its record or with another one's |
| EncodeRuns.UnitsAreOrderedAndTimed | desktop/src/video/video_pipeline.cpp:120-246 | Between Start and Stop the units returned have strictly increasing sequence numbers, each with the capture time of its own frame |
| EncodeRuns.FaultsAreReset | desktop/src/video/video_pipeline.cpp:128-142 | A fault that outlives a call carries the code taken for "not accepting", and the next call resets the encoder |
| EncodeRuns.EncodeLatestFaults | desktop/src/video/video_pipeline.cpp:120-246 | A call leaves the encoder faulted if and only if it hands a frame to a transform whose event queue or output then answers "not accepting" |
| EncodeRuns.FaultedAfter | desktop/src/video/video_pipeline.cpp:25-265 | For every kind of call, exactly when it leaves the encoder faulted |
| EncodeRuns.FaultOutlivesCall | desktop/src/video/h264_encoder.cpp:970-1002 | A run that ends faulted: capture, then an encode that meets that answer |
| FrameFates.EveryFrameHasItsPlace | desktop/src/video/video_pipeline.cpp:98-265 | Between Start and Stop every captured number is in exactly one place: waiting, in flight, returned, replaced by a newer capture, absorbed by a synchronous transform, or lost in a call that fails |
| FrameFates.EveryLatestCall | desktop/src/video/video_pipeline.cpp:120-246 | For every call, exactly what becomes of the frame that waits and of the one in flight, when the call fails, and when the encoder is started anew; told by the answers of driver and transform alone |
| FrameFates.NotTakenStays | desktop/src/video/video_pipeline.cpp:187-230 | A call that returns S_FALSE with nothing in flight leaves the waiting frame where it was, unless a synchronous transform took it and gave nothing |
| FrameFates.BlockedIs | desktop/src/video/video_pipeline.cpp:248-265 | Congestion: the action, the reset, the wish remembered and what is given up, exactly |
| FrameFates.ReplacedAreCounted | desktop/include/pdb/video/latest_frame_queue.h:15-21 | The count of replaced frames is the number of captures that met a waiting frame |
| EncodeRuns.EncodeLatestKeeps | desktop/src/video/video_pipeline.cpp:120-246 | One call: a unit is handed out exactly on success, in order and with its own time, and the agreement is kept on every path |
| EncodeRuns.BlockedKeeps | desktop/src/video/video_pipeline.cpp:248-265 | Congestion handling keeps the agreement and hands out nothing |
| EncodeRuns.PollKeeps | desktop/src/video/h264_encoder.cpp:931-964 | A poll leaves the encode in flight alone, hands it out, or faults and asks for a restart |
| EncodeRuns.EncodeKeeps | desktop/src/video/h264_encoder.cpp:970-1018 | After an encode the frame is in flight, handed out, or forgotten with a failure |
| VideoPipelining.VideoPipeline.EncodeLatest | desktop/src/video/video_pipeline.cpp:120-144 | The new state, result and unit of the call, over all objects of the pipeline |
| VideoPipelining.VideoPipeline.EncodeFromQueue | desktop/src/video/video_pipeline.cpp:146-202 | Pop, reconfigure or reset, put back when the encoder cannot take the frame |
| VideoPipelining.VideoPipeline.PrepareEncoder | desktop/src/video/video_pipeline.cpp:152-186 | Shutdown and fresh encoder on a new size, or the reset the policy asked for |
| VideoPipelining.VideoPipeline.SubmitFrame | desktop/src/video/video_pipeline.cpp:203-246 | Record filed with the accepted input, all failure paths |
| VideoPipelining.VideoPipeline.CompleteEncodedFrame | desktop/src/video/video_pipeline.cpp:53-71 | Unit tied to its record, mismatches refused |
| VideoPipelining.VideoPipeline.ResetEncoderAndRequestIdr | desktop/src/video/video_pipeline.cpp:41-51 | Record cleared before the encoder is reset |
| VideoPipelining.VideoPipeline.CaptureOnce | desktop/src/video/video_pipeline.cpp:98-118 | No capture while an encode is in flight; otherwise the newest frame waits; the result of every case |
| VideoPipelining.Drive | desktop/src/video/video_pipeline.cpp:9-265 | Any calls on the pipeline object end in the state of their run, so what holds of runs holds of it |
| VideoPipelining.VideoPipeline.NotifyTransportWouldBlock | desktop/src/video/video_pipeline.cpp:248-265 | At most one reset, the policy's wish remembered, and the action returned |
| VideoPipelining.VideoPipeline.Stop | desktop/src/video/video_pipeline.cpp:28-39 | Everything cleared |
| VideoPipelining.AsyncMftStateMachine.OnEvent | desktop/include/pdb/video/async_mft_state.h:31-46 | Which flag each event sets, and when it is ignored |
| VideoPipelining.AsyncMftStateMachine.OnInputAccepted | desktop/include/pdb/video/async_mft_state.h:63-68 | Only a requested input with nothing in flight is taken |
| VideoPipelining.AsyncMftStateMachine.OnOutputProduced | desktop/include/pdb/video/async_mft_state.h:72-77 | Hands out and clears the sequence in flight |
| VideoPipelining.AsyncMftStateMachine.MarkFatal | desktop/include/pdb/video/async_mft_state.h:86-91 | Faulted, restart requested, the sequence in flight kept |
| VideoPipelining.PendingEncodeTelemetryState.Begin | desktop/include/pdb/video/telemetry.h:51-55 | One record at a time |
| VideoPipelining.PendingEncodeTelemetryState.Complete | desktop/include/pdb/video/telemetry.h:61-87 | Uses the record up; stamps and reports the unit, with all durations, exactly when the sequence numbers agree |
| EncodePipeline.DurationsAddUp | desktop/include/pdb/video/telemetry.h:76-85 | Queue age and encode duration make up the time from capture to encode, to one microsecond |
| VideoPipelining.LatestFrameQueue.Push | desktop/include/pdb/video/latest_frame_queue.h:15-21 | Newest item wins and replacements are counted |
| VideoPipelining.LatestFrameQueue.PushIfEmpty | desktop/include/pdb/video/latest_frame_queue.h:25-30 | A waiting item wins |
| VideoPipelining.LatestFrameQueue.TryPop | desktop/include/pdb/video/latest_frame_queue.h:32-38 | Takes the item out |
| VideoPipelining.HardwareH264Encoder.PumpAsyncEvents | desktop/src/video/h264_encoder.cpp:893-929 | All queued events applied in order, a failure becomes a fault |
| VideoPipelining.HardwareH264Encoder.ProcessAsyncOutput | desktop/src/video/h264_encoder.cpp:931-953 | Output handed out for the sequence in flight; stale or failing output |
| VideoPipelining.HardwareH264Encoder.Poll | desktop/src/video/h264_encoder.cpp:955-964 | Not initialised, synchronous, faulted, and the pumped cases |
| VideoPipelining.HardwareH264Encoder.Encode | desktop/src/video/h264_encoder.cpp:970-1018 | New state and result on every path, synchronous and asynchronous |
| VideoPipelining.HardwareH264Encoder.MarkAsyncFatal | desktop/src/video/h264_encoder.cpp:886-891 | Fault remembered with its code |
| VideoPipelining.HardwareH264Encoder.TakeFatalRestartRequest | desktop/src/video/h264_encoder.cpp:1163-1168 | The request is handed out once |
| VideoPipelining.HardwareH264Encoder.ResetAndRequestIdr | desktop/src/video/h264_encoder.cpp:1170-1203 | A fresh instance when asynchronous, a cleared one otherwise |
| VideoPipelining.HardwareH264Encoder.Shutdown | desktop/src/video/h264_encoder.cpp:545-578 | Everything forgotten |
| AdbRuns.AcceptedTokenIsCurrent | desktop/src/adb/session.cpp:44-250 | Every interleaving: bytes that authenticate are the token armed by the current attempt, which is launching or connected, with no shutdown requested |
| AdbRuns.ConnectedIsArmed | desktop/src/adb/session.cpp:221-233 | Connected implies an armed token |
| AdbRuns.RevokedIsNeverAccepted | desktop/src/adb/session.cpp:148-166 | With fresh tokens, a token dropped at any point of a run never authenticates afterwards |
| AdbRuns.ArmedTokens | desktop/src/adb/session.cpp:148-213 | Whatever the generator does: a token is held or was dropped exactly when some step armed it; held, it was dropped before exactly when it was armed twice |
| AdbRuns.AcceptedAgainIffArmedTwice | desktop/src/adb/session.cpp:148-213 | A token that authenticates was revoked earlier if and only if it was armed more than once |
| AdbRuns.RepeatedTokenReturns | desktop/src/adb/session.cpp:201-213 | That can happen: for every token a run in which it authenticates after its revocation |
| AdbOutcomes.TickDoes | desktop/src/adb/session.cpp:60-84 | A tick with the connector idle begins an attempt if and only if the session is reconnecting and the time set by the last failing step has come; a health check if and only if it is connected and a second has passed since the last; otherwise nothing changes |
| AdbOutcomes.SessionComesBack | desktop/src/adb/session.cpp:60-250 | From any state of any run in which the session must retry, wherever its connector is: a tick at the retry time with a listing, mappings and a launch that succeed ends connected, with exactly the new token accepted |
| AdbOutcomes.EveryStepLeaves | desktop/src/adb/session.cpp:44-250 | After any steps, one more leaves the session with exactly this state, token, serial and failure count, and the connector at exactly this place |
| AdbOutcomes.AcceptedIsTheTokenHeld | desktop/src/adb/session.cpp:148-166 | In every state exactly the token held authenticates |
| AdbRuns.ShutdownIsFinal | desktop/src/adb/session.cpp:96-118 | From the first Stop on: stopping or stopped, no attempt begins, nothing authenticates, and stopped once every Stop has returned |
| AdbRuns.IdleIsNotStarting | desktop/src/adb/session.cpp:168-250 | Between attempts the session is never left in the starting state |
| AdbRuns.Drive | desktop/src/adb/session.cpp:44-250 | Any schedule run on the session object ends in the state of the run, so what holds of runs holds of it |
| AdbSession.AdbSession.ValidateSessionToken | desktop/src/adb/session.cpp:148-166 | The loop over all 32 bytes accepts exactly the armed token, in the two states that allow it |
| AdbSession.AdbSession.BeginStart | desktop/src/adb/session.cpp:44-56 | When an attempt begins, and that it revokes the token |
| AdbSession.AdbSession.BeginTick | desktop/src/adb/session.cpp:60-84 | Health check, retry when due, or nothing |
| AdbSession.AdbSession.BeginStop | desktop/src/adb/session.cpp:96-109 | First region of Stop: new state, and exactly which clean-up is left to do |
| AdbSession.AdbSession.EndStop | desktop/src/adb/session.cpp:111-117 | Second region of Stop |
| AdbSession.AdbSession.NotifyChannelLoss | desktop/src/adb/session.cpp:120-136 | Token revoked and retry scheduled unless shut down or stopped |
| AdbSession.AdbSession.Arm | desktop/src/adb/session.cpp:206-213 | The token is armed only in a live attempt |
| AdbSession.AdbSession.CompleteConnect | desktop/src/adb/session.cpp:221-233 | Connected only from a live, armed attempt |
| AdbSession.AdbSession.ScheduleReconnect | desktop/src/adb/session.cpp:237-250 | Token revoked; stopped after a shutdown, retry otherwise |
| CommandLine.SplitBuilt | desktop/src/adb/process.cpp:78-144 | Splitting the built line gives exactly the executable and the arguments if and only if none holds a NUL and the path holds no quote and, when it must be quoted, does not end in a backslash |
| CommandLine.QuotedRead | desktop/src/adb/process.cpp:78-116 | Every argument, whatever it holds, is read back from its quoted form |
| CommandLine.ProgramRead | desktop/src/adb/process.cpp:136-138 | The program name survives exactly under the stated condition on the path |
| CommandLine.TrailingBackslashDoubles | desktop/src/adb/process.cpp:113-114 | A path with a blank that ends in a backslash arrives with one backslash more |
| CommandLine.BodyRead | desktop/src/adb/process.cpp:95-115 | Backslash for backslash, from any state of the quoting loop |
| CommandLine.QuotedWhenNeeded | desktop/src/adb/process.cpp:78-93 | An argument is left as it is exactly when it is not empty and has no blank, tab, line feed, vertical tab or quote |
| CommandLine.QuoteWindowsArgument | desktop/src/adb/process.cpp:78-116 | The loop with its backslash counter yields the quoted form |
| CommandLine.BuildWindowsCommandLine | desktop/src/adb/process.cpp:136-144 | Quoted executable and arguments, separated by blanks |
| TouchGrouping.GroupBatch | desktop/src/input/input_system.cpp:105-131 | The loop cuts a batch into legal groups, each the longest possible, and no other partition into legal groups has fewer |
| TouchGrouping.NextTouchInjectionGroupEnd | desktop/include/pdb/input/touch_grouping.h:13-30 | The longest group from here: one instant, each pointer once, at most ten |
| TouchGrouping.FewestInjections | desktop/src/input/input_system.cpp:105-131 | Greedy groups are fewest among all partitions |
| TouchGrouping.NothingLost | desktop/src/input/input_system.cpp:105-131 | The groups one after the other are the samples |
| ResolutionLadder.BoundedOscillation | desktop/src/video/resolution_ladder.cpp:43-114 | Over a run spanning T the rung changes at most 2 * floor(T / 10 s) + 2 times, with geometry changes anywhere |
| ResolutionLadder.RunStaysOnLadder | desktop/src/video/resolution_ladder.cpp:43-114 | The rung is 1920, 2560 or 3200 and never above the initial one |
| ResolutionLadder.DowngradeAfterThree | desktop/src/video/resolution_ladder.cpp:51-101 | A downgrade comes at the third breach in a row, all since the previous downgrade and since the last change of geometry |
| ResolutionLadder.EncodedFitsRung | desktop/src/video/resolution_ladder.cpp:23-114 | After any events a native size is encoded with even edges, at least 2 and at most the rung; without one nothing is |
| ResolutionLadder.ChangesAreActions | desktop/src/video/resolution_ladder.cpp:84-114 | Each change is one upgrade or downgrade of one rung, and they add up |
| ResolutionLadder.UpgradesTakeTime | desktop/src/video/resolution_ladder.cpp:105-112 | Each upgrade needs a stable window of its own |
| LadderPolicy.MovesExactlyWhen | desktop/src/video/resolution_ladder.cpp:84-114 | After any events the rung moves exactly when the observations alone say so: down with the third over the budget in a row since the last change, above the lowest rung; up after ten calm seconds, below the first; every field of the decision follows |
| ResolutionLadder.AdaptiveResolutionController.Observe | desktop/src/video/resolution_ladder.cpp:67-114 | New state and decision, encode size included |
| ResolutionLadder.AdaptiveResolutionController.SetNativeSize | desktop/src/video/resolution_ladder.cpp:51-58 | A new geometry clears the history and keeps the rung |
| ResolutionLadder.AdaptiveResolutionController.Start | desktop/src/video/resolution_ladder.cpp:43-49 | Initial rung clamped to the ladder |
| ResolutionLadder.Drive | desktop/src/video/resolution_ladder.cpp:43-114 | Any events on the controller object end in the state of their run |
| EncodeSize.ScaledEdgeIs | desktop/src/video/resolution_ladder.cpp:15-17 | The product of an edge and the binary64 scale, cut down, is the exact edge cut down, except that a whole one comes out one less: if and only if the rounded scale leaves the product short by more than half a unit in its last place |
| EncodeSize.LongestEdgeIsTheRung | desktop/src/video/resolution_ladder.cpp:23-32 | A larger native size comes down to the rung exactly where that product reaches it, and to two pixels less otherwise |
| EncodeSize.RungMissed | desktop/src/video/resolution_ladder.cpp:15-18 | It can: a native edge of 2162 is encoded as 1918 on the lowest rung |
| EncodeSize.RungIsTheLargest | desktop/src/video/resolution_ladder.cpp:28-30 | A larger native size is scaled to the largest rung within the maximum |
| EncodeSize.SizeFitsEncoder | desktop/src/video/resolution_ladder.cpp:8-32 | For any maximum: even edges of at least 2 and at most the maximum, or no size, and exactly when |
| InputAdapter.PhaseLanguage | desktop/src/app/input_adapter.cpp:74-135 | Over any batches and resets, for each tool and pointer: Down only out of contact, Move and Up only in contact, Hover only out of contact and never for a touch |
| InputAdapter.TimeNeverDecreases | desktop/src/app/input_adapter.cpp:72-83 | Until the clock is reset, time stamps never decrease within or across batches |
| InputAdapter.TimeNeverAhead | desktop/src/app/input_adapter.cpp:72-83 | For batches the decoder accepts, received in order, no sample is dated after its receipt |
| InputAdapter.RunInLanguage | desktop/src/app/input_adapter.cpp:46-127 | The adapter's contacts are exactly what a consumer of its output knows |
| InputStream.RunIsTelling | desktop/src/app/input_adapter.cpp:34-135 | Over any calls: what is handed out is exactly what the stream of wire samples tells, with phase, time, axes and settings computed from the samples heard before; nothing is withheld but a touch that was never in contact |
| InputAdapter.KeysAreDistinct | desktop/src/app/input_adapter.cpp:138-140 | Contact keys tell tools and pointers apart |
| InputAdapter.InputBatchAdapter.Adapt | desktop/src/app/input_adapter.cpp:56-127 | The loop's pens, touches with all their axes, and new state; refusal of an empty or oversized batch |
| InputAdapter.InputBatchAdapter.Take | desktop/src/app/input_adapter.cpp:75-127 | One sample: contact, phase, clamped time, axes |
| InputAdapter.InputBatchAdapter.SetOrientationEpoch | desktop/src/app/input_adapter.cpp:46-49 | Contacts forgotten, clock kept |
| InputAdapter.InputBatchAdapter.Reset | desktop/src/app/input_adapter.cpp:51-54 | Contacts and clock forgotten |
| InputAdapter.InputBatchAdapter.Configure | desktop/src/app/input_adapter.cpp:34-40 | Everything forgotten; capabilities, maximum pressure (at least one) and epoch set |
| InputAdapter.InputBatchAdapter.SetCapabilities | desktop/src/app/input_adapter.cpp:42-44 | Only the capabilities change |
| InputAdapter.Drive | desktop/src/app/input_adapter.cpp:34-127 | Any calls on the adapter object end in the state of their run and hand out the frames of the run, one for each batch that is taken |
| InputAdapter.EachListInOrder | desktop/src/app/input_adapter.cpp:56-135 | What is handed out, pens and touches each on their own: the phase language, and time stamps that never decrease until the clock is reset |
| InputAdapter.DeliveredIsFiltered | desktop/src/app/input_adapter.cpp:56-127 | The frames' pens, or touches, are the run's samples of that kind, none lost and none moved |
| InputAdapter.AxesInRange | desktop/src/app/input_adapter.cpp:92-127 | For every sample the decoder accepts: tilts within 90 degrees either way, distance between 0 and 1, and full pressure exactly from the maximum on |
| ProfileActions.KeysAreBalanced | desktop/src/input/input_system.cpp:157-185 | Over any run, for every key and mouse button: downs minus ups is its multiplicity over the actions of the held buttons, and never negative on the way |
| ProfileActions.NothingEverStuck | desktop/src/input/input_system.cpp:157-185 | Over any run, whatever the profiles: a control whose last event is a down is pressed by the action of a held button |
| ProfileActions.StateFitsExactlyWhenExclusive | desktop/src/input/input_system.cpp:157-176 | In every run of a profile a control is down exactly while a held button presses it, if and only if no two buttons of the profile press it |
| ProfileActions.ChangeFits | desktop/src/input/input_system.cpp:160-175 | One button: down and pressed agree afterwards exactly unless its release lets go of a control that another held button presses |
| ProfileActions.SharedKeyGoesUp | desktop/src/input/input_system.cpp:166-169 | The run: two buttons share a control, one is released, and the control is up while the other holds it |
| ProfileActions.NothingHeldAfterRelease | desktop/src/input/input_system.cpp:178-185 | After ReleaseProfileActions every balance is zero |
| ProfileActions.EventsOnRecord | desktop/src/input/input_system.cpp:157-185 | The events sent, call by call: what a call adds is, button by button, the events of its press or the mirror image of that button's own press on record |
| ProfileActions.ReleaseUndoesItsPress | desktop/src/input/input_system.cpp:166-174 | Whatever profiles came since, the release of a held button mirrors what its own press sent, in reverse |
| ProfileActions.Drive | desktop/src/input/input_system.cpp:157-185 | Any calls on the object end in the state of their run, events included |
| ProfileActions.ReleaseMirrorsPress | desktop/src/input/input_system.cpp:34-54 | A release is the press of the same action backwards |
| ProfileActions.SentInOrder | desktop/src/input/input_system.cpp:34-54 | Position by position: a press sends the keys first to last and then the button, a release the button and then the keys last to first; disabled and eraser send nothing |
| ProfileActions.ModifiersHeldAroundClick | desktop/src/input/input_system.cpp:34-54 | Around a click every key of the action is down before the mouse button and stays down until it is up |
| ProfileActions.ErasesExactlyWhenAsked | desktop/src/input/input_system.cpp:157-176 | Erasing exactly when the pen's eraser is down or a held button was pressed as eraser |
| ProfileActions.InputSystem.SendAction | desktop/src/input/input_system.cpp:34-54 | The events sent, in order |
| ProfileActions.InputSystem.ApplyProfileButton | desktop/src/input/input_system.cpp:160-175 | One button: release, press, or nothing |
| ProfileActions.InputSystem.ApplyProfileButtons | desktop/src/input/input_system.cpp:157-176 | All three buttons of a sample |
| ProfileActions.InputSystem.ReleaseProfileActions | desktop/src/input/input_system.cpp:178-185 | Held buttons released in order |
| AnnexB.AnnexBAccessUnitContainsIdr | desktop/src/video/h264_encoder.cpp:147-174 | True exactly when a start code the scan sees is followed by a header with forbidden bit 0 and nal_unit_type 5; it sees every start code that does not begin at the header byte of one it saw |
| AnnexB.SeesAll | desktop/src/video/h264_encoder.cpp:147-174 | When no start code directly follows another, the answer is exact |
| AnnexB.SeesEveryOther | desktop/src/video/h264_encoder.cpp:170 | Of start codes directly following one another the scan sees the first, the third, and so on |
| AnnexB.ExactUnlessAllAreHidden | desktop/src/video/h264_encoder.cpp:147-174 | The answer is exact if and only if there is no IDR slice or one stands after an even number of directly preceding start codes |
| AnnexB.MissedSlice | desktop/src/video/h264_encoder.cpp:170 | 00 00 01 00 00 01 65 holds an IDR slice the scan misses |

## Left out

- DecoderRuns.OnlyTheRunningCommandFinishes: does not model two threads calling `close` at the same time, which may both pass its first line; the application has one owner of the decoder.
- AvcDecoding.AvcDecoder.CreateCodecOnThread: does not model the surface and the codec's format settings, which never influence the recovery.
- Json.JsonParser.Parse: does not model the texts of the error messages; a failure is just a failure.
- WireCodec.DecodeFrame: does not model the texts of the error messages; each is a named error.
- Config.ParseConfig: does not model the conversion between UTF-8 and UTF-16, a Windows call; strings are kept in UTF-8, conversion is taken as a bijection on well-formed text, and only the number of UTF-16 units is computed.
- FramedStream.ResumableFrameWriter.Start: does not model the reused scratch buffer, and `WriteFrame`, which is one start and one continue.
- WireCodec.Writer.Append: does not model the limit of the vector's size.
- VideoPipelining.VideoPipeline.NotifyTransportWouldBlock: does not model when the back-pressure policy asks for a reset; its answer is a parameter.
- VideoPipelining.VideoPipeline.Start: does not model opening the capture, whose failure leaves the same state.
- VideoPipelining.HardwareH264Encoder.Initialize: does not model the choice, benchmark and set-up of a transform; it succeeds with a fresh state and some events, or fails.
- VideoPipelining.HardwareH264Encoder.Shutdown: does not model the drain and flush messages to the transform; whatever they cause is forgotten by the reset of the state.
- VideoPipelining.VideoPipeline.EncodeLatest: does not claim that the first unit after congestion is an IDR, which the video loop does not enforce.
- AdbSession.AdbSession.ScheduleReconnect: does not model the length of the back-off; the time of the retry is a parameter.
- AdbSession.AdbSession.NotifyChannelLoss: does not model the remote clean-up or the stop token, which only influence what ADB answers.
- AdbSession.AdbSession.ValidateSessionToken: does not model time; that the loop does not stop early is visible, that it takes constant time is not claimed.
- CommandLine.QuoteWindowsArgument: does not model the UTF-8 overload, which converts and calls this one.
- TouchGrouping.GroupBatch: does not model mapping, palm rejection and the injector, which may drop samples of a group or abandon a batch.
- InputAdapter.InputBatchAdapter.Adapt: does not model the rounding of single-precision quotients; axes, pressure and tilt are exact reals.
- EncodeSize.SizeFitsEncoder: does not model `NextLowerResolution`, which nothing but its test calls.
- ProfileActions.InputSystem.ApplyProfileButtons: does not model which profile the foreground window selects; the profile is a parameter.
- Counters of 64 bits (sequence numbers, dropped frames, replaced frames) are unbounded in the model.
- Rendering, capture, colour conversion, coordinate mapping, palm guard, gesture routing, user interfaces, telemetry files, packaging and build are not part of this model.
