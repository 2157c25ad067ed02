# Softphone audio and signalling core, in Dafny

A model of the browser softphone's audio and signalling core, with proofs about it.
The browser exchanges G.711 µ-law audio frames and JSON control messages with a call
service over one WebSocket. The model has ten modules.

- **JsBits**: the ECMAScript operators the code relies on, written out on unbounded integers.
  They are the 32-bit `>>`, `<<`, `&`, `|` and `~`, and the stores into `Uint8Array` and `Int16Array`.
- **Mulaw**: `Mulaw.encode` and `Mulaw.decode`, statement by statement.
  Beside them are a closed-form reference code (`Code`, `CodeValue`) and the codec's properties.
  The properties are range, sign, silence, clipping, byte round-trip and quantisation error.
- **Ieee**: the float/int16 conversions, with floats as exact reals.
- **SampleQueue**: the FIFO drain of one render quantum, zero-filled on underrun.
  It also has the broadcast of one buffer to every output channel, and the algebra of draining.
- **AudioWorklet**: `SoftPhoneAudioWorklet`, covering playback, mute-gated capture and the frame sequence numbers.
- **WorkletProcessor**: the older, playback-only `SoftPhoneAudioWorkletProcessor`, and the finding below.
- **InboundProcessor** and **OutboundProcessor**: the two processors under `public/call-service-client/`.
  One has a duplicate µ-law decoder and single-channel playback. The other has the big-endian 16-bit packer.
- **Messages**: the message-type vocabulary, the message and TakeOver records, and the JSON text the client sends.
- **Signaling**: `SoftPhoneWebSocket`.
  - It covers the connection-attempt cap, `connected`, sending only while OPEN, the commands and the dispatch of inbound messages.
  - The browser `WebSocket` is a small class with a `readyState`, a log of sent messages and a log of close requests.
  - Listener calls, emitter events and log lines are one appended trace, `events`.

The code is followed where it and the surrounding documentation disagree. Three cases:

- The older worklet processor converts its queued samples with `Ieee.decode` (see Findings).
- `WebSocketMessageType` lacks three names the dispatcher uses.
- `Ieee.decode` stores into an `Int16Array`, so an out-of-range product wraps modulo 2^16 instead of saturating.

## Model

| member | source | states |
|---|---|---|
| Mulaw.Encode | src/audio/codecs/Mulaw.ts:25-48 | `Mulaw.encode` as written, returning the JavaScript number before the Uint8Array store; no ensures of its own, its meaning is in Mulaw.EncodeFields, Mulaw.EncodeRange, Mulaw.ByteRoundTrip and Mulaw.Quantization |
| Mulaw.Decode | src/audio/codecs/Mulaw.ts:55-72 | `Mulaw.decode` as written; no ensures of its own, its meaning is in Mulaw.DecodeFields, Mulaw.DecodeRange and Mulaw.DecodeSign |
| Mulaw.EncodeByte | src/audio/SoftPhoneAudioWorklet.ts:94-95 | the byte a Uint8Array keeps when `Mulaw.encode`'s result is stored into it (the value mod 256); no ensures of its own, its meaning is in Mulaw.EncodeRange and Mulaw.EncodeSign |
| Mulaw.EncodeFields | src/audio/codecs/Mulaw.ts:25-48 | `encode(x)` equals `-Code(x) - 1`, where Code is the arithmetic G.711 code `128·sign + 16·segment + mantissa` (the complement of the packed fields) |
| Mulaw.EncodeTableIsHighBit | src/audio/codecs/Mulaw.ts:6-14 | entry i of the 256-entry segment table is the position of i's highest set bit (0 for 0 and 1) |
| Mulaw.DecodeFields | src/audio/codecs/Mulaw.ts:55-72 | `decode(b)` equals the closed form of code `~b & 0xFF`: the segment base plus mantissa·2^(e+3), negated when the sign bit is set |
| Mulaw.DecodeRange | src/audio/codecs/Mulaw.ts:61-65 | every byte decodes within ±32124, so the result is an int16 |
| Mulaw.DecodeSign | src/audio/codecs/Mulaw.ts:62-69 | bytes below 0x80 decode to ≤ 0, the others to ≥ 0; only 0x7F and 0xFF decode to 0 |
| Mulaw.DecodeKnownValues | src/audio/codecs/Mulaw.ts:61-71 | decode(0xFF) = decode(0x7F) = 0, decode(0x80) = 32124, decode(0x00) = -32124 |
| Mulaw.EncodeRange | src/audio/codecs/Mulaw.ts:31-47 | for every int16, encode lies in [-256, -1], and its Uint8Array byte is 255 − Code(x) |
| Mulaw.EncodeSilence | src/audio/codecs/Mulaw.ts:37-47 | samples 0..3 encode to byte 0xFF (so encode(0) & 0xFF = 0xFF) and -3..-1 to 0x7F |
| Mulaw.EncodeSign | src/audio/codecs/Mulaw.ts:31-45 | bit 7 of the byte is clear exactly when the int16 sample is negative |
| Mulaw.EncodeClip | src/audio/codecs/Mulaw.ts:37-47 | every sample whose biased magnitude exceeds 32635 encodes to the clip code: 0x80 if positive, 0x00 if negative |
| Mulaw.DecodeCode | src/audio/codecs/Mulaw.ts:25-72 | decoding the byte sent for a sample is evaluating the sample's arithmetic code |
| Mulaw.CodeValueOfCode | src/audio/codecs/Mulaw.ts:25-72 | the code of a sample evaluates to its segment base plus the mantissa's steps of 2^(e+3), with the sample's sign |
| Mulaw.CodeQuantization | src/audio/codecs/Mulaw.ts:25-72 | the value of an unclipped sample's code is within 2^(e+2) of the sample |
| Mulaw.ByteRoundTrip | src/audio/codecs/Mulaw.ts:25-72 | every byte other than 0x7F survives decode then encode; 0x7F comes back as 0xFF |
| Mulaw.CodeValueRoundTrip | src/audio/codecs/Mulaw.ts:25-72 | the reference encoding inverts the reference decoding on every code except negative zero |
| Mulaw.Quantization | src/audio/codecs/Mulaw.ts:25-72 | an unclipped int16 sample comes back from encode and decode within 2^(e+2), half its segment's step |
| Mulaw.ClippedDecode | src/audio/codecs/Mulaw.ts:39-72 | a clipped sample comes back as ±32124 with its sign |
| Mulaw.SegmentOfMagnitude | src/audio/codecs/Mulaw.ts:43-65 | every (segment, mantissa) pair's decoded magnitude is at most 32124, stays below the clip after biasing, and is mapped back to the same segment and mantissa |
| Ieee.Decode | src/audio/codecs/Ieee.ts:12-20 | `Ieee.decode` as written, the Float32 sample scaled and stored into an Int16Array; no ensures of its own, its meaning is in Ieee.Trunc, Ieee.DecodeInRange, Ieee.DecodeWraps and Ieee.DecodeEncode |
| Ieee.Encode | src/audio/codecs/Ieee.ts:27-33 | `Ieee.encode` as written; no ensures of its own, its meaning is in Ieee.EncodeRange and Ieee.DecodeEncode |
| Ieee.Trunc | src/audio/codecs/Ieee.ts:12-20 | the integer a Float32 to Int16Array store keeps is the product truncated toward zero |
| Ieee.EncodeRange | src/audio/codecs/Ieee.ts:27-33 | every int16 encodes into [-1, 1] with its sign; only 0 encodes to 0 |
| Ieee.DecodeEncode | src/audio/codecs/Ieee.ts:12-33 | decode inverts encode on every int16 |
| Ieee.DecodeInRange | src/audio/codecs/Ieee.ts:12-20 | on [-1, 1] the Int16Array store does not wrap, and the sign is kept |
| Ieee.DecodeWraps | src/audio/codecs/Ieee.ts:1-20 | for every sample, decode is the int16 congruent modulo 2^16 to the truncated product, so outside [-1, 1] the store wraps instead of saturating: decode(2.0) = -2 |
| SampleQueue.Taken | src/audio/SoftPhoneAudioWorklet.ts:63-65 | a quantum of n takes min(n, queue length) samples off the queue |
| SampleQueue.DrainConserves | src/audio/SoftPhoneAudioWorklet.ts:63-65 | the samples taken, followed by the rest of the queue, are the old queue; the rest of the buffer is zeros |
| SampleQueue.DrainFifo | src/audio/SoftPhoneAudioWorklet.ts:43-65 | samples pushed behind a queue at least one quantum long leave the quantum unchanged and end up at the back of the rest |
| SampleQueue.DrainTwice | src/audio/SoftPhoneAudioWorklet.ts:63-65 | two quanta of n and m play the same samples as one quantum of n + m and leave the same queue |
| SampleQueue.DrainEmpty | src/audio/SoftPhoneAudioWorklet.ts:64 | an empty queue plays silence and stays empty |
| SampleQueue.DrainQuantum | src/audio/SoftPhoneAudioWorklet.ts:60-65 | the loop's new buffer holds the drained quantum and the queue keeps what is left |
| SampleQueue.Broadcast | src/audio/SoftPhoneAudioWorklet.ts:67-78 | every channel of every output device ends up holding the buffer |
| AudioWorklet.Playback | src/audio/SoftPhoneAudioWorklet.ts:44-45 | one queued sample, `Ieee.encode(Mulaw.decode(b))`; no ensures of its own, its meaning is in AudioWorklet.PlaybackRange and AudioWorklet.PlaybackSilence |
| AudioWorklet.PlaybackSamples | src/audio/SoftPhoneAudioWorklet.ts:43-47 | one queued sample per payload byte |
| AudioWorklet.PlaybackRange | src/audio/SoftPhoneAudioWorklet.ts:44-45 | every queued sample lies in [-1, 1] and converts back to the byte's PCM value |
| AudioWorklet.PlaybackSilence | src/audio/SoftPhoneAudioWorklet.ts:44-45 | the two silence codes are queued as 0 |
| AudioWorklet.IsMuted | src/audio/SoftPhoneAudioWorklet.ts:93 | the mute gate of one sample, `param[0]` or `param[i]` compared with `=== 1`; no ensures of its own, its meaning is in AudioWorklet.CaptureBytes |
| AudioWorklet.CaptureSample16 | src/audio/SoftPhoneAudioWorklet.ts:94 | the PCM value captured for one sample, 0 when muted and `Ieee.decode` otherwise; no ensures of its own, its meaning is in AudioWorklet.CaptureBytes and AudioWorklet.CaptureQuantization |
| AudioWorklet.CapturedBytes | src/audio/SoftPhoneAudioWorklet.ts:90-96 | the outbound frame has one byte per input sample |
| AudioWorklet.CaptureBytes | src/audio/SoftPhoneAudioWorklet.ts:93-95 | each frame entry is a byte; where the mute value (`param[0]` for a length-1 parameter, else `param[i]`) is 1 it is 0xFF, otherwise the µ-law byte of the sample's PCM value |
| AudioWorklet.CaptureQuantization | src/audio/SoftPhoneAudioWorklet.ts:94-95 | an unmuted, unclipped sample's frame byte decodes to within 2^(e+2) of its PCM value |
| AudioWorklet.EncodeFrame | src/audio/SoftPhoneAudioWorklet.ts:90-96 | the capture loop fills a new array with exactly the captured bytes |
| AudioWorklet.SoftPhoneAudioWorklet.constructor | src/audio/SoftPhoneAudioWorklet.ts:14-15 | the queue starts empty and the sequence number at 0 |
| AudioWorklet.SoftPhoneAudioWorklet.HandleMessage | src/audio/SoftPhoneAudioWorklet.ts:39-48 | the decoded samples are appended after the existing queue, one per byte in byte order; nothing else changes |
| AudioWorklet.SoftPhoneAudioWorklet.Process | src/audio/SoftPhoneAudioWorklet.ts:53-109 | with a first output channel of length N, every channel gets the first min(N, queue) samples then zeros, and the queue loses exactly those; without one, the queue and the channels are unchanged; with a first input channel, one frame is posted carrying the current sequence number, which then grows by 1; without one, nothing is posted; the result is always true |
| WorkletProcessor.QueuedAsWritten | src/audio/SoftphoneAudioWorkletProcessor.ts:24-26 | the queued sample as the line is written, `Ieee.decode(Mulaw.decode(b))`; no ensures of its own, its meaning is in WorkletProcessor.QueuedSampleOutOfRange |
| WorkletProcessor.QueuedSampleOutOfRange | src/audio/SoftphoneAudioWorkletProcessor.ts:24-26 | as written, byte 0xFE (PCM 8) is queued as -8.0, far outside [-1, 1], where 8/32767 was meant |
| WorkletProcessor.QueuedSampleCorrected | src/audio/SoftphoneAudioWorkletProcessor.ts:24-26 | with `Ieee.encode`, every queued sample lies in [-1, 1] and keeps the PCM value exactly |
| WorkletProcessor.SoftPhoneAudioWorkletProcessor.constructor | src/audio/SoftphoneAudioWorkletProcessor.ts:9 | the queue starts empty |
| WorkletProcessor.SoftPhoneAudioWorkletProcessor.HandleMessage | src/audio/SoftphoneAudioWorkletProcessor.ts:19-28 | one (corrected) sample is appended per element of `bytes`, in order |
| WorkletProcessor.SoftPhoneAudioWorkletProcessor.Process | src/audio/SoftphoneAudioWorkletProcessor.ts:33-57 | the first min(N, queue) samples then zeros go to every channel of every output; the queue loses exactly those and keeps the rest in order; the result is always true |
| InboundProcessor.DecodeSample | public/call-service-client/inbound-audio-processor.js:4-16 | the processor's own copy of the µ-law decoder; no ensures of its own, its meaning is in InboundProcessor.DecodeSampleAgrees and InboundProcessor.DecodeSampleRange |
| InboundProcessor.Sample32 | public/call-service-client/inbound-audio-processor.js:18-25 | `getSample32(decodeSample(b))`, the sample queued for one byte; no ensures of its own, its meaning is in InboundProcessor.Sample32Range |
| InboundProcessor.Sample32Range | public/call-service-client/inbound-audio-processor.js:18-25 | the queued sample equals `Ieee.encode(Mulaw.decode(b))`, lies in [-1, 1] and converts back to the byte's PCM value |
| InboundProcessor.DecodeSampleAgrees | public/call-service-client/inbound-audio-processor.js:2-16 | the duplicate `decodeSample` equals `Mulaw.decode` on every input |
| InboundProcessor.DecodeSampleRange | public/call-service-client/inbound-audio-processor.js:2-15 | `decodeSample` stays within ±32124, and 0xFF decodes to 0 |
| InboundProcessor.InboundAudioProcessor.constructor | public/call-service-client/inbound-audio-processor.js:33 | the queue starts empty |
| InboundProcessor.InboundAudioProcessor.HandleMessage | public/call-service-client/inbound-audio-processor.js:43-55 | `bytes.length` samples are appended, in byte order |
| InboundProcessor.InboundAudioProcessor.Process | public/call-service-client/inbound-audio-processor.js:57-72 | exactly `output[0].length` values are written into `output[0]`: queued samples while the queue lasts, then zeros; the queue shrinks by min(N, queue); nothing else is modified; the result is true |
| OutboundProcessor.HighOrderByte | public/call-service-client/outbound-audio-processor.js:14-16 | `getHighOrderByte`; no ensures of its own, its meaning is in OutboundProcessor.ByteSplit |
| OutboundProcessor.LowOrderByte | public/call-service-client/outbound-audio-processor.js:18-20 | `getLowOrderByte`; no ensures of its own, its meaning is in OutboundProcessor.ByteSplit |
| OutboundProcessor.ByteSplit | public/call-service-client/outbound-audio-processor.js:14-20 | both bytes of an int16 are in [0, 255], high·256 + low equals s mod 65536, and reassembling gives s |
| OutboundProcessor.BigEndianBytes | public/call-service-client/outbound-audio-processor.js:36 | the buffer has two bytes per sample |
| OutboundProcessor.FrameRoundTrip | public/call-service-client/outbound-audio-processor.js:39-49 | bytes 2i and 2i + 1 are the big-endian halves of sample i's int16 |
| OutboundProcessor.InterleavePair | public/call-service-client/outbound-audio-processor.js:39-49 | byte 2i of the interleaved buffer comes from the high-byte sequence and byte 2i + 1 from the low-byte sequence, both at index i |
| OutboundProcessor.InterleaveOf | public/call-service-client/outbound-audio-processor.js:36-49 | a buffer of twice the length whose byte pairs are the elements of the high and low sequences is their interleaving |
| OutboundProcessor.PackFrame | public/call-service-client/outbound-audio-processor.js:36-49 | the packing loop fills a new array with exactly those bytes |
| OutboundProcessor.OutboundAudioProcessor.constructor | public/call-service-client/outbound-audio-processor.js:23-27 | the sequence number starts at 0 |
| OutboundProcessor.OutboundAudioProcessor.Process | public/call-service-client/outbound-audio-processor.js:29-59 | with no input channel nothing is posted and the counter is unchanged; otherwise one frame is posted carrying the current counter, which then grows by 1; the result is always true |
| Messages.ParseTypeIsInverse | src/audio/WebSocketMessageType.ts:1-13 | a string is a type's wire name exactly when it denotes that type, so distinct types have distinct names |
| Messages.NameParses | src/audio/WebSocketMessageType.ts:1-13 | every type's wire name parses back to that type |
| Messages.Command | src/audio/SoftPhoneWebSocket.ts:93-166 | a command has the given type and payload, sequence number 0 and null participant fields |
| Messages.TakeOverJson | src/audio/SoftPhoneWebSocket.ts:162 | `JSON.stringify` of a takeover with keys `type` then `phoneNumber`; no ensures of its own, its meaning is in Messages.TakeOverJsonRoundTrip and Messages.BrowserTakeOverJson |
| Messages.BrowserTakeOverJson | src/audio/ITakeOver.ts:17-20 | the default takeover is sent as `{"type":"browser","phoneNumber":null}` |
| Messages.ReadStringRoundTrip | src/audio/SoftPhoneWebSocket.ts:162 | a JSON string literal produced by escaping reads back as the original string |
| Messages.TakeOverJsonRoundTrip | src/audio/SoftPhoneWebSocket.ts:162-177 | parsing the JSON text of any takeover gives that takeover back |
| Messages.PhoneNumberRoundTrip | src/audio/ITakeOver.ts:7-10 | the `phoneNumber` value of a takeover, `null` or a JSON string, reads back as the number or its absence |
| Messages.DecimalRoundTrip | src/audio/SoftPhoneWebSocket.ts:68 | the retry count in the log line is written in decimal digits that read back as the count |
| Signaling.Stamped | src/audio/SoftPhoneWebSocket.ts:240 | a sent message carries the clock reading and is otherwise the message given |
| Signaling.Echo | src/audio/SoftPhoneWebSocket.ts:212-218 | the health reply has type ConnectionHealth and the probe's sequence number, payload, participant id and type |
| Signaling.UnrecognizedExactly | src/audio/SoftPhoneWebSocket.ts:176-223 | a message falls through to the "unrecognized" log exactly when its type is none of the six handled ones, or it is a TakeOver whose payload is null or empty |
| Signaling.TranscriptNeverUnrecognized | src/audio/SoftPhoneWebSocket.ts:182-188 | a Transcript message never reaches the unrecognized branch |
| Signaling.ConnectUrl | src/audio/SoftPhoneWebSocket.ts:63 | the URL template `${hostname}/api/v1/jobs/${jobId}/browser`; no ensures of its own, its meaning is in Signaling.SoftPhoneWebSocket.Connect and Signaling.SoftPhoneWebSocket.HandleError (the attempt log and the new socket's URL) |
| Signaling.WebSocket.constructor | src/audio/SoftPhoneWebSocket.ts:73 | `new WebSocket(url, protocols)` keeps its URL, subprotocols and the job and token it was created for, starts CONNECTING, and has sent and closed nothing |
| Signaling.SoftPhoneWebSocket.constructor | src/audio/SoftPhoneWebSocket.ts:18-49 | disconnected, no socket, takeover NoTakeOver, no listeners, zero attempts, no audio seen |
| Signaling.SoftPhoneWebSocket.Connect | src/audio/SoftPhoneWebSocket.ts:60-86 | every call logs the attempt and adds 1 to the count; past 5 it logs the end of retries and changes nothing else; otherwise it stores a new CONNECTING socket for the job's URL with the token as subprotocol and sets connected at once; at most 5 sockets are ever created |
| Signaling.SoftPhoneWebSocket.HandleError | src/audio/SoftPhoneWebSocket.ts:79-82 | the current socket (the latest one, not necessarily the one that failed) is closed normally with nothing sent, and becomes CLOSING if it was CONNECTING or OPEN; then `connect` is re-entered with the failed socket's job and token: one more attempt is counted and logged, within 5 attempts a new CONNECTING socket for that job's URL and token becomes current and connected is set, past 5 the end of retries is logged and socket and connected are kept; the takeover, the audio flag and the four listener flags are unchanged |
| Signaling.SoftPhoneWebSocket.Disconnect | src/audio/SoftPhoneWebSocket.ts:133-137 | a close with code 1000 and reason "closed by user request" is requested only when a socket exists |
| Signaling.SoftPhoneWebSocket.SendMessage | src/audio/SoftPhoneWebSocket.ts:236-243 | the stamped message is sent only when a socket exists and is OPEN; otherwise nothing is sent |
| Signaling.SoftPhoneWebSocket.Hangup | src/audio/SoftPhoneWebSocket.ts:144-152 | a Hangup command with a null payload is sent if the socket is OPEN, and nothing else is sent or closed |
| Signaling.SoftPhoneWebSocket.SynthesizeSpeech | src/audio/SoftPhoneWebSocket.ts:93-101 | a SynthesizeSpeech command carrying the text is sent if the socket is OPEN, and nothing else is sent or closed |
| Signaling.SoftPhoneWebSocket.SynthesizeTouchTones | src/audio/SoftPhoneWebSocket.ts:104-112 | a SynthesizeTouchTone command carrying the digits is sent if the socket is OPEN, and nothing else is sent or closed |
| Signaling.SoftPhoneWebSocket.AgentTakeOver | src/audio/SoftPhoneWebSocket.ts:158-166 | an AgentTakeOver command carrying the takeover's JSON text (BrowserTakeOver by default) is sent if the socket is OPEN, and nothing else is sent or closed |
| Signaling.SoftPhoneWebSocket.HandleOutboundAudio | src/audio/SoftPhoneWebSocket.ts:232-234 | an outbound audio frame is forwarded under the same OPEN guard, and nothing else is sent or closed |
| Signaling.SoftPhoneWebSocket.TakeOverState | src/audio/SoftPhoneWebSocket.ts:88-90 | the getter `takeOverState()`; no ensures of its own, the value it returns is fixed by the constructor (NoTakeOver) and by Signaling.SoftPhoneWebSocket.HandleMessage (replaced only on a TakeOver with a truthy payload) |
| Signaling.SoftPhoneWebSocket.IsAudioExist | src/audio/SoftPhoneWebSocket.ts:139-141 | the getter `isAudioExist()`; no ensures of its own, the value it returns is fixed by the constructor (false) and by Signaling.SoftPhoneWebSocket.HandleMessage (latched on the first InboundAudio message, never reset) |
| Signaling.SoftPhoneWebSocket.SetConnectionStateListener | src/audio/SoftPhoneWebSocket.ts:115-117 | sets that listener and changes nothing else |
| Signaling.SoftPhoneWebSocket.SetTakeOverStateListener | src/audio/SoftPhoneWebSocket.ts:120-122 | sets that listener and changes nothing else |
| Signaling.SoftPhoneWebSocket.SetHoldForHumanListener | src/audio/SoftPhoneWebSocket.ts:124-126 | sets that listener and changes nothing else |
| Signaling.SoftPhoneWebSocket.SetTranscriptListener | src/audio/SoftPhoneWebSocket.ts:128-130 | sets that listener and changes nothing else |
| Signaling.SoftPhoneWebSocket.HandleOpen | src/audio/SoftPhoneWebSocket.ts:168-171 | connected becomes true and the listener, if set, is told true; nothing else changes |
| Signaling.SoftPhoneWebSocket.HandleClose | src/audio/SoftPhoneWebSocket.ts:226-230 | connected becomes false, the listener, if set, is told false, and "connection closed" is logged; nothing else changes |
| Signaling.SoftPhoneWebSocket.HandleMessage | src/audio/SoftPhoneWebSocket.ts:173-224 | TakeOver with a truthy payload replaces the takeover and notifies the listener; Transcript notifies only with a listener and truthy id, type and payload; InboundAudio latches the audio flag and emits the message; HoldForHuman emits the payload and notifies on a truthy one; TranscriptEventDetection emits its notice; ConnectionHealth sends the echo only if the socket is OPEN; anything else only logs "unrecognized message: " and the text; no branch changes the connection, the attempt count, the socket's state or close requests, or any of the four listener flags, and the notifications depend on the listeners set before the call; the audio flag is never reset |
| Signaling.WebSocket.Close | src/audio/SoftPhoneWebSocket.ts:135 | each close request is recorded; a CONNECTING or OPEN socket becomes CLOSING |
| Signaling.WebSocket.Send | src/audio/SoftPhoneWebSocket.ts:241 | a sent message is appended to the socket's log |

## Left out

- Floating point: samples are exact reals, so Float32 rounding of `Float32Array` stores and of the divisions is not modelled. `Ieee.Decode` truncates the exact product; the ECMAScript ToInt16 of a rounded float can differ at a rounding boundary.
- Base64 (`src/audio/codecs/Base64.ts`) wraps `atob`/`btoa` from a package that is not part of this model. Messages carry the decoded bytes and posted frames carry the bytes before encoding. The class declares instance methods that the worklet calls statically; the model assumes the static call works.
- JSON: parsing an inbound frame and a TakeOver payload is not modelled. `Signaling.SoftPhoneWebSocket.HandleMessage` receives the parsed record and the parsed takeover as parameters, and a parse that throws is not modelled. `JSON.stringify` of an outbound message is not modelled either: the socket's log holds the message record. Only the TakeOver payload's text is modelled (`Messages.TakeOverJson`, with its parser and round-trip).
- The clock: `new Date().toISOString()` is the `utcNow` parameter.
- Signaling.SoftPhoneWebSocket.SendMessage: the source stamps `utcNow` onto the caller's own object. The model sends a stamped copy, so that aliasing is not captured.
- The browser's EventEmitter wiring: the constructor's subscription to OutboundAudio, and the `addEventListener` calls that bind open, message, close and error to this object. The environment calls the Handle* methods directly.
- Listener callbacks and emitter events are entries in one trace. Their effects on other objects are not modelled.
- The `connected` getter is the `connected` field.
- Concurrency: each handler and `process` call is one atomic step. The worklet thread and the main thread are not interleaved.
- The audio thread's plumbing: `registerProcessor`, `parameterDescriptors` (mute default 1, a-rate), the port binding, and `postMessage` (posted frames are a sequence).
- AudioWorklet.SoftPhoneAudioWorklet.Process and WorkletProcessor.SoftPhoneAudioWorkletProcessor.Process require every output channel to have the length of the first one. When lengths differ, the source copies `undefined` (stored as NaN) into longer channels; that case is not modelled.
- InboundProcessor.InboundAudioProcessor.Process, WorkletProcessor.SoftPhoneAudioWorkletProcessor.Process and OutboundProcessor.OutboundAudioProcessor.Process: each requires what its source reads without a guard. The first two need a first output with a first channel, because the source reads `output[0].length` (public/call-service-client/inbound-audio-processor.js:58-59) and `channel.length` (src/audio/SoftphoneAudioWorkletProcessor.ts:34-36). The third needs a first input, because the source reads `inputs[0][0]` (public/call-service-client/outbound-audio-processor.js:30). Without these the source throws a TypeError. That throw is not modelled, because the audio platform always supplies them for a node created with default options. AudioWorklet.SoftPhoneAudioWorklet.Process models its source's guards (src/audio/SoftPhoneAudioWorklet.ts:56-59) instead.
- AudioWorklet.IsMuted: a mute parameter shorter than the channel reads `undefined`, which the model treats as not muted, as the source's `=== 1` comparison does.
- The `|| 0` in the drain loops also maps a queued NaN or -0 to 0. With real samples the model cannot produce either, so this is not modelled.
- WorkletProcessor.SoftPhoneAudioWorkletProcessor.HandleMessage: the source assigns `this.port.onmessage = this.handleMessage` without binding (src/audio/SoftphoneAudioWorkletProcessor.ts:13). On a real port, `this` in the handler would not be the processor. The model runs the handler on the processor instance. It also queues the corrected samples; the as-written sample is `WorkletProcessor.QueuedAsWritten` (see Findings).
- OutboundProcessor.OutboundAudioProcessor.Process: the `samples16` copy and the `console.log` calls every 1000 frames have no observable effect in the model and are left out.
- InboundProcessor.InboundAudioProcessor: the unused `_buffer` and `_index` fields and the empty `getSamples` function are left out.
- Message vocabulary: src/audio/WebSocketMessageType.ts declares `HoldForHuman` twice and no `TakeOver`, `AgentTakeOver` or `ConnectionHealth`. At run time those three names would be `undefined`, so the dispatcher's comparisons could never match a string type, and the reply and the takeover request would be sent without a type. The model assumes each is the string of the same name.
- Messages.TakeOverJson assumes the takeover object's keys are in `type`, `phoneNumber` order, as in the source's literals. It does not cover objects built with another key order.
- `src/core/*`, `src/audio/SoftPhoneAudioContext.ts`, `src/audio/SoftphoneAudioContext.ts`, `src/audio/WebSocketMessage.ts` and `src/index.ts` are not part of this model. They are media-device setup, singletons, timers and delegation.

## Findings

| source | as written | input that shows it | evidently intended | confidence | as-written member | corrected member |
|---|---|---|---|---|---|---|
| src/audio/SoftphoneAudioWorkletProcessor.ts:25 | each decoded PCM sample is converted with `Ieee.decode` (float to int16, multiplying by 32767 and storing into an Int16Array) before it is queued for playback | byte 0xFE decodes to PCM 8 and is queued as 8·32767 = 262136, which wraps to -8; a sample outside [-1, 1] reaches the output | `Ieee.encode`, as the line's own comment says and as SoftPhoneAudioWorklet.ts:45 does: 8 is queued as 8/32767 | not executed | WorkletProcessor.QueuedSampleOutOfRange | WorkletProcessor.QueuedSampleCorrected |
