# PersonaPlex client and launcher, modelled in Dafny

This project models the parts of the PersonaPlex deployment that do real work on bytes, samples and state:

- **Protocol** (`protocol.dfy`): the custom client's binary WebSocket codec. Byte 0 is a type tag from 0x00 (handshake) to 0x06 (ping), and the bytes after it are the payload. The module covers the encoders, `decodeMessage`'s dispatch and the control-action table with its reverse.
- **SphnFraming** (`sphn.dfy`): the "sphn" framing of Opus packets. Each packet is preceded by a 24-bit little-endian length. `decodeSphnFrames` is modelled as its offset loop, proved against a recursive specification. Round trips, in-order decoding of concatenated frames and dropping of a truncated tail are proved about that specification.
- **PcmWorklet** (`pcm_worklet.dfy`): the microphone worklet `PCMProcessor`. It re-chunks input blocks into frames of exactly 480 samples, using a 480-slot array and an `_off` cursor.
- **JitterBuffer** (`jitter_buffer.dfy`): the playback worklet `MoshiProcessor`. It holds a FIFO of frames, a cursor into the head frame, overflow trimming down to an exact target, FIFO copying into the output block, and adaptive thresholds that grow up to their caps on overflow and underrun.
- **MoshiChat** (`chat_status.dfy`): the `useMoshiChat` hook. Its `ConnectionStatus`, transcript and error form a transition function over an event sequence. The module also covers the incoming tag/payload split, the outgoing audio message layout and the query parameters.
- **CustomClient** (`custom_client.dfy`): the custom client page. It holds `setStatus`'s view, `appendText`'s transcript merge rule, and the connect/disconnect lifecycle over the module-level `ws`, `connected` and decoder-worker state.
- **WarmupPage** (`warmup_page.dfy`): the constant beginning-of-stream Ogg page (section 6 of RFC 3533) carrying an OpusHead identification header (section 5.1 of RFC 7845). Its fields are checked field by field.
- **Launcher** (`launcher.dfy`): the argument vector `server.py` builds from the certificate directory and `CPU_OFFLOAD`.
- `wrappers.dfy`, `bytes.dfy` and `seqs.dfy` hold shared helpers: `Option`, the `byte` type with little-endian readers, and sequence flattening.

Two modelling choices are worth knowing up front:

- Other revisions of this launcher add `--port`, `--half`, `--hf-repo` and `--cfg-coef`. This `server.py` adds only `--cpu-offload`, and the model follows it.
- `decodeMessage` is modelled as total. On an empty message, `data[0]` is `undefined`, which falls to the default branch and yields `{type: 'unknown', rawType: undefined}`. The model returns `Unknown(None)` for it rather than excluding empty input with a precondition.

## Model

| member | source | states |
|---|---|---|
| Protocol.ActionCode | services/frontend/custom/src/protocol.js:24-29 | every action's code is one of 0x00..0x03 |
| Protocol.ActionOfCode | services/frontend/custom/src/protocol.js:31-33 | the reverse table finds an action exactly for a present byte 0x00..0x03, and that action's code is the byte |
| Protocol.ActionCodeInjective | services/frontend/custom/src/protocol.js:24-33 | distinct actions have distinct codes, so the reverse table is a true inverse |
| Protocol.EncodeHandshake | services/frontend/custom/src/protocol.js:35-37 | the handshake is three bytes and decodes to `handshake` |
| Protocol.EncodeControl | services/frontend/custom/src/protocol.js:46-48 | a control message is two bytes and decodes back to its own action |
| Protocol.EncodePing | services/frontend/custom/src/protocol.js:58-60 | the ping is one byte and decodes to `ping` |
| Protocol.Decode | services/frontend/custom/src/protocol.js:62-91 | the decoded kind is the one byte 0 names (none for an empty message), and a control message carries the reverse-table action of byte 1, or none when it is missing |
| Protocol.EncodeAudio | services/frontend/custom/src/protocol.js:39-44 | the message is one byte longer than the data, starts with 0x01 and carries the data unchanged after it |
| Protocol.EncodeMetadata | services/frontend/custom/src/protocol.js:50-56 | the message is 0x04 followed by the encoded JSON bytes |
| Protocol.HandshakeRoundTrip | services/frontend/custom/src/protocol.js:35-68 | the handshake is exactly [0x00, 0x00, 0x00] and decodes to `handshake` |
| Protocol.AudioRoundTrip | services/frontend/custom/src/protocol.js:39-71 | decoding an encoded audio message gives `audio` with the same data |
| Protocol.MetadataRoundTrip | services/frontend/custom/src/protocol.js:50-80 | decoding an encoded metadata message gives `metadata` with the same bytes |
| Protocol.PingRoundTrip | services/frontend/custom/src/protocol.js:58-86 | the ping is exactly [0x06] and decodes to `ping` |
| Protocol.ControlRoundTrip | services/frontend/custom/src/protocol.js:46-77 | each of the four actions encodes to [0x03, code] and decodes back to itself |
| Protocol.UnknownControlAction | services/frontend/custom/src/protocol.js:76-77 | a control message with no action byte, or one above 0x03, decodes to action 'unknown' |
| Protocol.UnknownTag | services/frontend/custom/src/protocol.js:88-90 | every first byte above 0x06 decodes to `unknown` carrying that byte |
| Protocol.DecodeKeepsPayload | services/frontend/custom/src/protocol.js:64-83 | audio, text, metadata and error messages carry exactly the bytes after the tag |
| SphnFraming.HeaderValue | services/frontend/src/lib/audio.ts:34-35 | a 3-byte header reads as a length below 2^24 |
| SphnFraming.Header | services/frontend/src/lib/audio.ts:23-25 | the header is three bytes (their value is stated by `HeaderEncodesLength`) |
| SphnFraming.HeaderEncodesLength | services/frontend/src/lib/audio.ts:21-25 | the three header bytes hold the length modulo 2^24, little-endian |
| SphnFraming.HeaderOfHeaderValue | services/frontend/src/lib/audio.ts:23-35 | reading a header and writing it again gives the same three bytes |
| SphnFraming.EncodeFrame | services/frontend/src/lib/audio.ts:20-27 | the frame is 3 bytes longer than the packet, carries the packet from index 3, and its header reads as the packet's length when that is below 2^24 |
| SphnFraming.DecodeFrom | services/frontend/src/lib/audio.ts:30-42 | the recursive specification of the loop from a given offset; every packet consumes at least its 3-byte header, so at most one packet per 3 remaining bytes |
| SphnFraming.DecodeFrames | services/frontend/src/lib/audio.ts:30-42 | decoding from offset 0 returns at most one packet per 3 input bytes |
| SphnFraming.DecodeSphnFrames | services/frontend/src/lib/audio.ts:30-42 | the offset loop returns exactly the packets of the recursive decoding specification |
| SphnFraming.DecodeFrameRoundTrip | services/frontend/src/lib/audio.ts:20-42 | decoding one encoded packet shorter than 2^24 gives back exactly that packet |
| SphnFraming.DecodeAllRoundTrip | services/frontend/src/lib/audio.ts:30-42 | decoding concatenated frames gives back all their packets, in order |
| SphnFraming.DecodeEncodeAll | services/frontend/src/lib/audio.ts:30-42 | decoding frames followed by any tail gives the packets, then whatever the tail decodes to |
| SphnFraming.TruncatedTailDropped | services/frontend/src/lib/audio.ts:33-37 | a tail shorter than a header, or whose header overruns it, is dropped, and every packet before it is still returned |
| SphnFraming.DecodedPacketsFit | services/frontend/src/lib/audio.ts:33-38 | every decoded packet is shorter than 2^24, because its length came from a header |
| SphnFraming.DecodedStopsTruncated | services/frontend/src/lib/audio.ts:33-37 | decoding stops exactly at the first frame that does not fit |
| SphnFraming.DecodedIsPrefix | services/frontend/src/lib/audio.ts:30-42 | re-framing the decoded packets rebuilds a prefix of the input (so each packet's length is its header's value), and what is left over is truncated |
| PcmWorklet.PCMProcessor.constructor | services/frontend/src/lib/audio.ts:48-52 | a fresh 480-slot buffer and nothing pending |
| PcmWorklet.PCMProcessor.Process | services/frontend/src/lib/audio.ts:53-69 | every posted frame has exactly 480 samples; posted frames followed by `_buf[0.._off)` are the old pending samples followed by the input; the frame count and the new cursor are the quotient and remainder by 480; a missing input changes nothing |
| PcmWorklet.PCMProcessor.Rechunk | services/frontend/src/lib/audio.ts:56-67 | the copying loop keeps every input sample, in order, in posted frames or the pending buffer |
| PcmWorklet.PCMProcessor.Absorb | services/frontend/src/lib/audio.ts:57-66 | one pass copies at least one sample and posts at most one full frame |
| PcmWorklet.PCMProcessor.CopyIn | services/frontend/src/lib/audio.ts:60-61 | the buffer's pending part grows by exactly the copied slice |
| JitterBuffer.AsSamples | services/frontend/custom/public/audio-processor.js:1-3 | the result is `ms * sampleRate / 1000` rounded to the nearest integer, halves up |
| JitterBuffer.AsSamplesMonotone | services/frontend/custom/public/audio-processor.js:9-16 | a longer duration never gives fewer samples, so the initial thresholds sit below their caps |
| JitterBuffer.MoshiProcessor.constructor | services/frontend/custom/public/audio-processor.js:6-18 | the tuning constants are derived from the sample rate and the state is the initial one |
| JitterBuffer.MoshiProcessor.InitState | services/frontend/custom/public/audio-processor.js:64-77 | empty queue, cursor 0, not started, thresholds back to 10 ms |
| JitterBuffer.MoshiProcessor.TotalMaxBufferSamples | services/frontend/custom/public/audio-processor.js:79-81 | the overflow threshold is never below the trimming target |
| JitterBuffer.MoshiProcessor.CurrentSamples | services/frontend/custom/public/audio-processor.js:83-89 | the summing loop returns the number of queued samples: the frame lengths' sum minus the cursor |
| JitterBuffer.MoshiProcessor.Start | services/frontend/custom/public/audio-processor.js:91-95 | playback starts, with the pre-roll counter set to the partial buffer size |
| JitterBuffer.MoshiProcessor.CanPlay | services/frontend/custom/public/audio-processor.js:97-99 | playback may proceed only when started, with a frame queued and the pre-roll counter run out; `Process` branches on it |
| JitterBuffer.MoshiProcessor.Advance | services/frontend/custom/public/audio-processor.js:41-46 | moving the cursor k samples drops exactly the oldest k queued samples; when that exhausts the head frame it is shifted and the cursor goes back to 0, otherwise the frames stay and the cursor moves by k |
| JitterBuffer.MoshiProcessor.TrimTo | services/frontend/custom/public/audio-processor.js:34-47 | the trimming loop leaves exactly `target` samples, the newest suffix of the queued stream |
| JitterBuffer.MoshiProcessor.Enqueue | services/frontend/custom/public/audio-processor.js:27-27 | a received frame goes to the tail, so the queued samples grow by exactly that frame |
| JitterBuffer.MoshiProcessor.TrimIfOverflowing | services/frontend/custom/public/audio-processor.js:33-52 | on overflow the queue keeps only its newest `initial + partial` samples and the allowance grows to at most its cap; otherwise nothing changes |
| JitterBuffer.MoshiProcessor.OnFrame | services/frontend/custom/public/audio-processor.js:26-52 | the frame is queued; playback starts once the initial buffer is reached; on overflow the queue is trimmed to its newest `initial + partial` samples and `maxBufferSamples` becomes min(old + increment, cap) |
| JitterBuffer.MoshiProcessor.OnMessage | services/frontend/custom/public/audio-processor.js:20-61 | a reset restores the initial state; a frame leaves either the whole pushed stream or its newest `initial + partial` samples queued |
| JitterBuffer.MoshiProcessor.Drain | services/frontend/custom/public/audio-processor.js:117-134 | min(output length, queued samples) samples are written in FIFO order, the rest of the block is untouched, and exactly those samples leave the queue |
| JitterBuffer.MoshiProcessor.CopyFromHead | services/frontend/custom/public/audio-processor.js:119-133 | one pass copies the next queued samples that fit and removes them from the queue |
| JitterBuffer.CopyOut | services/frontend/custom/public/audio-processor.js:124-127 | the output block receives the head frame's slice at the given index and nothing else changes |
| JitterBuffer.MoshiProcessor.Process | services/frontend/custom/public/audio-processor.js:101-159 | if playback may not proceed, only the pre-roll counter drops by the block length; otherwise the FIFO samples are copied out, and an underrun stops playback, zeroes the pre-roll counter and raises `partialBufferSamples` to min(old + increment, cap) |
| MoshiChat.MountedIsConsistent | services/frontend/src/hooks/useMoshiChat.ts:30-32 | the hook starts disconnected with no error |
| MoshiChat.Classify | services/frontend/src/hooks/useMoshiChat.ts:109-135 | a message is acted on exactly when it is non-empty and its tag is 0x00, 0x01 or 0x02 |
| MoshiChat.Step | services/frontend/src/hooks/useMoshiChat.ts:59-160 | the hook's transition on one event: only `connect` can shorten the transcript, and a detached socket's events change nothing |
| MoshiChat.IgnoredMessagesChangeNothing | services/frontend/src/hooks/useMoshiChat.ts:110-135 | an empty message, or one whose tag is above 0x02, leaves the state unchanged |
| MoshiChat.AudioKeepsState | services/frontend/src/hooks/useMoshiChat.ts:125-129 | an audio message changes no status, transcript or error |
| MoshiChat.ConnectClears | services/frontend/src/hooks/useMoshiChat.ts:59-64 | `connect` drops the old socket, clears error and transcript, and shows "connecting" |
| MoshiChat.WaitingOnlyOnOpen | services/frontend/src/hooks/useMoshiChat.ts:107-107 | the status becomes "waiting" exactly when the live socket opens |
| MoshiChat.ReadyOnlyOnHandshake | services/frontend/src/hooks/useMoshiChat.ts:117-118 | the status becomes "ready" exactly on a 0x00 message from the live socket |
| MoshiChat.TextAppends | services/frontend/src/hooks/useMoshiChat.ts:130-133 | received text is decoded and appended at the transcript's end, without changing the status |
| MoshiChat.TranscriptOnlyGrows | services/frontend/src/hooks/useMoshiChat.ts:109-135 | every event other than `connect` keeps the old transcript as a prefix |
| MoshiChat.SocketErrorReports | services/frontend/src/hooks/useMoshiChat.ts:138-142 | a socket error sets status "error" with "WebSocket connection failed.", and a later close keeps "error" |
| MoshiChat.CloseKeepsError | services/frontend/src/hooks/useMoshiChat.ts:144-147 | closing keeps "error" and turns any other status into "disconnected" |
| MoshiChat.DisconnectAlwaysDisconnects | services/frontend/src/hooks/useMoshiChat.ts:157-160 | `disconnect` always yields "disconnected" and detaches the socket |
| MoshiChat.DetachedSocketIsSilent | services/frontend/src/hooks/useMoshiChat.ts:40-48 | once `cleanup` has nulled the handlers, nothing the old socket does changes the state |
| MoshiChat.DisconnectIsFinal | services/frontend/src/hooks/useMoshiChat.ts:157-160 | after `disconnect` the status stays "disconnected" whatever the old socket still delivers |
| MoshiChat.StepKeepsConsistent | services/frontend/src/hooks/useMoshiChat.ts:59-160 | every transition keeps an error status paired with a message, and "waiting"/"ready" only with a live socket |
| MoshiChat.RunKeepsConsistent | services/frontend/src/hooks/useMoshiChat.ts:59-160 | the same holds after any sequence of events |
| MoshiChat.ClassifyAgreesWithDecode | services/frontend/src/hooks/useMoshiChat.ts:109-135 | the hook's tag/payload split agrees with `decodeMessage` on handshake, audio and text, and an audio payload goes through sphn deframing |
| MoshiChat.OutgoingAudio | services/frontend/src/hooks/useMoshiChat.ts:97-104 | a message is sent exactly when the socket is open; it is 0x01, a 3-byte header, then the packet |
| MoshiChat.OutgoingAudioRoundTrip | services/frontend/src/hooks/useMoshiChat.ts:97-129 | a packet the hook sends is received by the same dispatch as exactly that one packet |
| MoshiChat.QueryParams | services/frontend/src/hooks/useMoshiChat.ts:87-90 | `voice_prompt` and `text_prompt` are present exactly when their prompts are non-empty, in that order |
| WarmupPage.OpusHead | services/frontend/custom/src/main.js:20-24 | the OpusHead packet is 19 bytes |
| WarmupPage.OpusHeadIdentity | services/frontend/custom/src/main.js:20-22 | magic "OpusHead", version 1, one channel |
| WarmupPage.OpusHeadParameters | services/frontend/custom/src/main.js:21-23 | pre-skip 0x0138, input sample rate 48000 little-endian, output gain 0, mapping family 0 |
| WarmupPage.PageHeader | services/frontend/custom/src/main.js:25-32 | the page header is 27 fixed bytes plus a one-entry segment table |
| WarmupPage.PageHeaderIdentity | services/frontend/custom/src/main.js:26-26 | capture pattern "OggS", version 0, header_type 0x02 (beginning of stream) |
| WarmupPage.PageHeaderGranule | services/frontend/custom/src/main.js:27-27 | granule position 0 |
| WarmupPage.PageHeaderNumbers | services/frontend/custom/src/main.js:28-29 | serial number 1, page sequence number 0 |
| WarmupPage.PageHeaderChecksum | services/frontend/custom/src/main.js:30-30 | the CRC field is left zero |
| WarmupPage.PageHeaderSegments | services/frontend/custom/src/main.js:31-31 | one segment whose lacing value 0x13 is below 255 |
| WarmupPage.WarmupBosPage | services/frontend/custom/src/main.js:19-37 | the page is 47 bytes: the 28-byte header then the 19-byte OpusHead |
| WarmupPage.WarmupPageIsWellFormed | services/frontend/custom/src/main.js:19-37 | the single lacing value equals the length of the rest of the page, and that rest is the whole OpusHead |
| CustomClient.Label | services/frontend/custom/src/main.js:69-74 | each known status has its fixed label, and any other status is its own label |
| CustomClient.Render | services/frontend/custom/src/main.js:66-87 | the view `setStatus` draws, corrected: the button is disabled exactly while connecting and offers "Disconnect" exactly while connected |
| CustomClient.RenderAsWritten | services/frontend/custom/src/main.js:66-87 | `setStatus` as written: dot, label and orb follow the status; the button is disabled exactly while connecting except in the "connected" branch, which keeps the previous `disabled` |
| CustomClient.DisconnectButtonStaysDisabled | services/frontend/custom/src/main.js:79-86 | as written, "connecting" then "connected" leaves a disabled "Disconnect" button |
| CustomClient.RenderCorrectsOnlyDisabled | services/frontend/custom/src/main.js:79-86 | the as-written view differs from the corrected one only in the button's `disabled` flag while connected |
| CustomClient.AppendedText | services/frontend/custom/src/main.js:89-100 | the transcript's text gains exactly the appended text at its end |
| CustomClient.Appended | services/frontend/custom/src/main.js:89-100 | the merge rule: the last paragraph is model text and ends with the appended text, and the paragraphs before the old last one are untouched |
| CustomClient.AppendedShape | services/frontend/custom/src/main.js:89-100 | a model-text last paragraph grows by exactly `text` in place; otherwise every old paragraph is kept unchanged and one model-text paragraph holding exactly `text` is appended |
| CustomClient.Client.constructor | services/frontend/custom/src/main.js:376-376 | the page starts disconnected with no socket, decoder or microphone |
| CustomClient.Client.SetStatus | services/frontend/custom/src/main.js:66-87 | the view becomes the corrected view of the status |
| CustomClient.Client.AppendText | services/frontend/custom/src/main.js:89-100 | the transcript follows the merge rule and its text gains exactly `text` |
| CustomClient.Client.ClearTranscript | services/frontend/custom/src/main.js:102-104 | the transcript is emptied |
| CustomClient.Client.Connect | services/frontend/custom/src/main.js:274-286 | the transcript is cleared, "connecting" is shown, a decoder is started and a socket is opening |
| CustomClient.Client.OnOpen | services/frontend/custom/src/main.js:288-290 | opening shows "connecting" again |
| CustomClient.Client.OnMessage | services/frontend/custom/src/main.js:292-324 | a handshake connects and starts the microphone; audio goes to the decoder if there is one; text and errors are appended; anything else changes nothing |
| CustomClient.Client.OnClose | services/frontend/custom/src/main.js:326-334 | closing disconnects, stops the microphone and drops the decoder |
| CustomClient.Client.Disconnect | services/frontend/custom/src/main.js:341-353 | afterwards `ws` and the decoder are gone, `connected` is false and the status is "disconnected" |
| CustomClient.Client.OnConnectClick | services/frontend/custom/src/main.js:356-362 | the button disconnects (stopping the microphone) exactly when connected or while the socket is connecting, and connects otherwise, leaving the microphone as it was |
| CustomClient.Client.OnRecorderData | services/frontend/custom/src/main.js:246-252 | a chunk is sent as an audio message exactly while the socket is open, and decodes back to that chunk |
| CustomClient.ButtonDisabledOnlyWhileConnecting | services/frontend/custom/src/main.js:79-86 | with the corrected view, a "Disconnect" button is never disabled |
| Launcher.Lower | services/personaplex/server.py:8-8 | ASCII lowercasing keeps the length and lowercases each letter |
| Launcher.CpuOffloadSetting | services/personaplex/server.py:8-8 | the value of `CPU_OFFLOAD`, or "false" when it is unset |
| Launcher.BuildCommand | services/personaplex/server.py:5-9 | the vector is the seven base tokens with the ssl directory at index 4, then `--cpu-offload` exactly when the setting lowercases to "true", and nothing else |
| Launcher.LowerIsTrue | services/personaplex/server.py:8-8 | a value turns offloading on exactly when it spells "true" in any mix of cases |
| Launcher.UnsetMeansNoOffload | services/personaplex/server.py:8-8 | an unset `CPU_OFFLOAD` defaults to "false": no flag |
| Launcher.OtherValuesMeanNoOffload | services/personaplex/server.py:8-8 | "1", "yes", "", "on" and "true " give no flag |
| Launcher.AnyCaseOfTrueMeansOffload | services/personaplex/server.py:8-8 | "true", "True", "TRUE" and "tRuE" give the flag |

## Left out

- Text, error and metadata payloads are kept as raw bytes. UTF-8 decoding is a function parameter where a string is needed. `JSON.parse`/`JSON.stringify` are not modelled, so neither is a metadata payload that fails to parse.
- `encodeControl` takes one of the four known actions. An unknown action name (stored as 0 by `Uint8Array`, so it would decode as `start`) cannot be expressed.
- `console.warn`/`console.error` logging is left out.
- `MicCapture`, `OpusEncoder`, `OpusDecoder`, `AudioPlayer` and `checkBrowserSupport` in `audio.ts` call into Web Audio and WebCodecs. In the hook they appear only as a possible `SetupFailed` event.
- PCMProcessor: samples are an opaque type because they are only copied. The `true` that `process` returns is not modelled.
- MoshiProcessor: the float timing and statistics fields (`timeInStream`, `totalAudioPlayed`, `actualAudioPlayed`, `minDelay`, `maxDelay`, the posted `delay`) are not modelled. The fade-in/out gain multiplication and `postMessage` are not modelled either. Samples are copied, never scaled.
- JitterBuffer.AsSamples: computed as exact rational rounding, not in floating point. `sampleRate` is a whole number given to the constructor rather than the worklet global.
- JitterBuffer.MoshiProcessor.OnMessage: a frame message says only that the queue is either the whole pushed stream or its newest `initial + partial` samples. The exact condition and the threshold updates are stated by `OnFrame`.
- MoshiChat: React's `useState`/`useRef`/`useEffect` and the awaits in `connect` become an explicit event sequence. The socket's handlers being installed is its own `SocketAttached` event, so a `disconnect` that lands during `connect`'s awaits is followed by an attach, as in the code. The microphone start on handshake and the decoder calls on audio are not state in the model.
- MoshiChat.Step: the state has one `attached` flag, so it cannot express two live sockets at once. Two overlapping `connect` calls can each install handlers after the other's `cleanup` found no socket; the first socket then stays live, unclosed, and a later `disconnect` detaches only the second. The model treats the newest attach as the only live socket, so it does not capture the old socket's events (an `onopen` setting "waiting", an `onerror` whose `cleanup` closes the newer socket) after that point.
- MoshiChat: after `cleanup` calls `close()` the socket's `onopen` is not expected to fire, so a late open is ignored like the nulled handlers.
- MoshiChat.QueryParams: percent-encoding and the `wsUrl` prefix are not modelled.
- CustomClient: Workers, `getUserMedia`, opus-recorder, the orb animation and DOM styling are left out. The decoder worker and the microphone are booleans. `buildWSUrl` uses `Math.random` and is not modelled. `micDuration` is a float and is not modelled.
- CustomClient.Client.Connect: the two awaits at the start of `connect` (`initAudio` and `audioContext.resume`) are taken to succeed and to finish before the next click. The model therefore does not capture a rejected `initAudio`, which leaves everything unchanged. Nor does it capture a second click landing during the awaits: that click starts a second `connect` and a second live socket, whose handshake starts a second microphone. On the very first session that second `connect` instead throws at `workletNode.port.postMessage`, because `workletNode` is still null. In the model, `Connect` is atomic, so a second click sees the connecting socket and disconnects.
- CustomClient.Label: `setStatus` is only ever called with "disconnected", "connecting" and "connected". For other strings the model returns the status itself. It does not capture JavaScript's inherited `Object.prototype` names in `labels` (such as "constructor"), or `classList.add` throwing on an empty or whitespace-containing status.
- CustomClient.Client.OnClose: the close listener is modelled as acting on the current socket. The model does not capture an old socket's late close acting on a newer connection.
- CustomClient.Client: the model keeps the corrected `setStatus` (see Findings). The as-written one is `RenderAsWritten`.
- Launcher: `tempfile.mkdtemp` gives the `sslDir` parameter. `subprocess.run`, process creation and exit codes are not modelled.
- `services/personaplex/main.py` (constant health/readiness responses), `vite.config.js` and `App.tsx` have no logic beyond their frameworks and are not part of this model.

## Findings

| source | as written | input that shows it | evidently intended | confidence | as-written member | corrected member |
|---|---|---|---|---|---|---|
| services/frontend/custom/src/main.js:79-86 | the "connected" branch of `setStatus` never assigns `connectBtn.disabled` | `setStatus('connecting')` (which disables the button) followed by `setStatus('connected')` on the handshake: the button reads "Disconnect" but stays disabled, so the user cannot disconnect | the button is enabled while connected and disabled only while connecting | medium, not executed | CustomClient.RenderAsWritten, CustomClient.DisconnectButtonStaysDisabled | CustomClient.Render, CustomClient.ButtonDisabledOnlyWhileConnecting |
