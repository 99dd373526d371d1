# VBAN header codec, receiver and sender — a Dafny model

This project models the core of a small VBAN audio-over-UDP tool written in
Rust. The model has three parts:

- **The VBAN header codec** (`vban.dfy`, module `Vban`). It covers:
  - the 28-byte header: magic `"VBAN"`, sub-protocol byte, sample count,
    channels, data format, a 16-byte stream name and a little-endian `u32`
    frame counter;
  - `to_bytes` / `from_bytes`;
  - the sub-protocol and bit-format conversions;
  - the accessors (`get_sr`, `get_protocol`, `is_audio`, `get_bit_format`,
    `is_pcm`, `get_channels`, `get_frame_count`, `get_seq_num`,
    `get_stream_name`);
  - `make_audio_packet`.
- **The receive loop** (`recv.dfy`, module `Receive`; properties in
  `recv_props.dfy`, module `ReceiveProperties`). It takes one datagram at a
  time through these steps:
  - the filters (length, magic, PCM, audio);
  - the log of foreign stream names;
  - admission to the reordering cache of at most 32 frames;
  - the three selection rules: bootstrap, contiguous-next, and the forced
    skip to the closest later frame;
  - the open/reopen decision for the output stream;
  - the byte slice pushed to the device, and eviction of everything up to
    the played sequence number;
  - the device write callback in `push_audio_buffer`, which decodes the
    slice into samples and panics when it needs more bytes than the slice
    holds. `ReceiveSession.CommitFrame` runs it as the loop `DecodeSamples`.
- **The sender loop** (`transmit.dfy`, module `Transmit`). It covers:
  - the 16-byte name field, with at most 14 bytes copied;
  - the chunk size `min(256, available)`;
  - the little-endian `i16` payload;
  - the arguments handed to `make_audio_packet`;
  - the sequence counter, which starts at 1.

`interop.dfy` (module `Interop`) puts sender and receiver together: the
sample bytes round-trip, a sent datagram passes the receiver's filters, and
whether it is then played or makes the receiver panic.

`wire.dfy` (module `Wire`) holds what the rest shares:
- the Rust integer ranges as subset types over `int`;
- checked `u8` addition and unsigned subtraction;
- little-endian byte codecs;
- `Option` / `Result`.

The receive and send loops are stated twice. Each has a pure step function
over a state datatype (`Receive.StepSpec` over `SessionState`,
`Transmit.SendSpec` over `SenderState`) and a class that performs the step
on mutable fields (`Receive.ReceiveSession`, `Transmit.Sender`). The class
methods are proved to compute exactly the step function, and the properties
are lemmas about the step function.

A Rust panic ends the process, so the model handles one this way:
- the step reports a `Crashed` or `Halted` outcome;
- it marks the state `halted`;
- the class methods require a session that has not halted.

Bit masks on header bytes are written as arithmetic: `b & 0x1F` as
`b % 32`, `b & 0xE0` as `b - b % 32`, `b & 0x07` as `b % 8` and `b & 0xF8`
as `b - b % 8`.

Both loops follow the code as written, panics included. Rust arithmetic
that can overflow is modelled as checked, which is how a debug build
behaves:
- `u8 + 1` in `get_channels` and `get_frame_count`, reached from the
  receive step (`Receive.StreamAfter`, `Receive.Push`);
- `u16 - 1` and `u8 - 1` in `make_audio_packet`;
- `u16 * u16` for the sample count and `u32 += 1` for the counter, both in
  the send step (`Transmit.SendSpec`).

The receive step also panics at `get_sr`'s table access for rate index 21,
and in the device write callback when it reads past the slice. Where the
code is wrong, the corrected definitions stand beside the as-written ones
(see "## Findings"). The sender-side interop lemmas use the corrected
sample count.

The signed sequence delta `seq as i32 - last as i32` is modelled as wrapping
`i32` subtraction. A lemma shows it equals the plain difference when both
numbers are below 2^31, which is where the signed test and the unsigned
eviction test agree.

**The last played sequence number can go backwards.** When 32 frames are
cached and none has a positive delta,
the code commits the datagram just received, because `header` and
`bytes_data` still hold it. That datagram can be older than the last one
played, e.g. after the sender restarted its counter.

The model follows the code:
- `ReceiveProperties.StaleBurstMovesLastBackwards` shows the number going
  from 100 back to 3;
- `ReceiveProperties.PlayedFrameAdvances` states when it does advance:
  below 2^31, and when some cached frame is numbered after the last one.

The counter's top value is a second exception.
`ReceiveProperties.CounterWrapReentersBootstrap` shows that sequence 0
after 0xFFFF_FFFF counts as contiguous. Committing it sets the last played
number to 0, so the next commit takes the first cached frame, as at the
start of a session.

## Model

| member | source | states |
|---|---|---|
| `Wire.FromLeOfLeBytes` | src/vban.rs:178 | reading back the `n` little-endian bytes of a number below 256^n gives the number |
| `Wire.LeBytesOfFromLe` | src/vban.rs:246 | any byte string is the little-endian encoding of the number it denotes |
| `Wire.I16RoundTrip` | src/transmit.rs:73 | `read_i16` little-endian of `to_le_bytes(v)` is `v` for every `i16` |
| `Wire.I16BytesRoundTrip` | src/recv.rs:153 | every 2-byte string is `to_le_bytes` of the `i16` read from it |
| `Vban.ProtocolFromByte` | src/vban.rs:43-57 | on multiples of 0x20 the protocol is `AUDIO` exactly for byte 0 |
| `Vban.ProtocolToByte` | src/vban.rs:59-72 | every protocol maps to a multiple of 0x20 that converts back to it |
| `Vban.ProtocolByteRoundTrip` | src/vban.rs:43-72 | byte → protocol → byte is the identity on multiples of 0x20 |
| `Vban.BitFormatFromByte` | src/vban.rs:87-101 | on 0..7 the format is `I16` exactly for 1 |
| `Vban.BitFormatToByte` | src/vban.rs:103-116 | every format maps into 0..7 and converts back to itself |
| `Vban.BitFormatByteRoundTrip` | src/vban.rs:87-116 | byte → format → byte is the identity on 0..7 |
| `Vban.GetProtocol` | src/vban.rs:197-202 | always `Some` (the masked byte is a multiple of 0x20, so the panic arm is unreachable), and `AUDIO` exactly when the byte is below 0x20 |
| `Vban.IsAudio` | src/vban.rs:193-195 | audio exactly when the sub-protocol byte is below 0x20 |
| `Vban.GetBitFormat` | src/vban.rs:204-207 | the format's byte is the data-format byte modulo 8, so the panic arm is unreachable; `I16` exactly when that is 1 |
| `Vban.IsPcm` | src/vban.rs:209-212 | PCM exactly when the data-format byte is below 8 |
| `Vban.GetSrAsWritten` | src/vban.rs:184-191 | the `>` guard: index 21 indexes past the table, indices 22..31 are the error |
| `Vban.GetSr` | src/vban.rs:184-191 | `Ok(VBAN_SRLIST[i])` exactly for indices 0..20, an error otherwise |
| `Vban.GetSrAgreesOffIndex21` | src/vban.rs:184-191 | both versions agree on every index but 21 |
| `Vban.GetSrIndex21Panics` | src/vban.rs:186-189 | an audio header with sub-protocol byte 21 reaches the out-of-bounds access |
| `Vban.GetChannels` | src/vban.rs:214-216 | the channel count is the byte plus one, 1..256 |
| `Vban.GetChannelsAsWritten` | src/vban.rs:214-216 | `channels + 1` on a `u8`: overflows exactly at byte 255, and equals the wide count elsewhere |
| `Vban.GetFrameCount` | src/vban.rs:228-230 | the frame count is the byte plus one, 1..256 |
| `Vban.GetFrameCountAsWritten` | src/vban.rs:228-230 | `smp_count + 1` on a `u8`: overflows exactly at byte 255, and equals the wide count elsewhere |
| `Vban.FirstNul` | src/vban.rs:222-224 | the position of the first NUL, or the length when there is none |
| `Vban.GetStreamName` | src/vban.rs:221-227 | the name is the longest NUL-free prefix of the 16-byte field, ended by a NUL or by the field's end |
| `Vban.ToBytes` | src/vban.rs:169-181 | 28 bytes: magic, sub-protocol, sample count, channels, format, name, little-endian counter, at their offsets |
| `Vban.FromBytes` | src/vban.rs:232-258 | each field is read from its offset of the 28 bytes |
| `Vban.FromBytesOfToBytes` | src/vban.rs:169-258 | decoding an encoded header gives the header back |
| `Vban.ToBytesOfFromBytes` | src/vban.rs:169-258 | encoding a decoded 28-byte string gives the string back |
| `Vban.FiltersOnWire` | src/recv.rs:47 | the magic, PCM and audio tests and the `I16` test, stated on the raw header bytes |
| `Vban.SeqNumOnWire` | src/vban.rs:218-220 | `get_seq_num` is the little-endian `u32` in bytes 24..27 of the datagram, and `to_bytes` writes the counter there |
| `Vban.FirstIndexOf` | src/vban.rs:136-140 | the first position of the rate in the table, or none |
| `Vban.MakeAudioPacket` | src/vban.rs:126-166 | panics exactly for a rate outside the table, a zero sample count or zero channels; otherwise the header followed by the data, 28 + data bytes |
| `Vban.AudioPacketHeader` | src/vban.rs:146-159 | a built packet decodes as VBAN audio PCM with the given format, rate, channels, name and counter, and the sample count minus one truncated to a byte |
| `Vban.PacketStartsWithHeader` | src/vban.rs:160-165 | the first 28 bytes of a built packet decode to the header it was built from |
| `Vban.AudioHeaderReads` | src/vban.rs:146-159 | a header with the magic, a table index and a format byte passes the magic, audio and PCM tests and reads back that rate and format |
| `Vban.AudioPacketRoundTrip` | src/vban.rs:126-166 | for sample counts 1..256 rate, channels, frame count and counter all round-trip |
| `Vban.SmpCountByte` | src/vban.rs:152 | a built `I16` packet's sample-count byte is the argument minus one, truncated to a byte |
| `Vban.AudioPacketSmpCountHazards` | src/vban.rs:152 | sample count 256 encodes byte 255, where `get_frame_count` overflows; 257 reads back as 1 |
| `Receive.SeqDelta` | src/recv.rs:71 | the wrapping `i32` difference is congruent to `seq - last` modulo 2^32, and equals it below 2^31 |
| `Receive.FirstNext` | src/recv.rs:69-78 | the first cache position whose delta is 1 (or any, in bootstrap), or none when no position qualifies |
| `Receive.FirstNextIsFirst` | src/recv.rs:69-78 | a qualifying position with no qualifying position before it is the one found |
| `Receive.FindNext` | src/recv.rs:69-78 | the scan loop with `break` finds exactly `FirstNext` |
| `Receive.Closest` | src/recv.rs:82-93 | a chosen position lies in the cache with delta in 1..`i32::MAX`-1 |
| `Receive.ClosestNoneIff` | src/recv.rs:82-93 | the scan keeps nothing exactly when no delta is in 1..`i32::MAX`-1 |
| `Receive.ClosestLeastDelta` | src/recv.rs:86-90 | the kept delta is at most every delta in range |
| `Receive.ClosestFirstLeast` | src/recv.rs:86-90 | the kept delta is strictly below those of earlier positions in range, so ties go to the first |
| `Receive.ClosestIsLeast` | src/recv.rs:82-93 | the chosen delta is the least positive one, strictly below those of earlier positions, and none is chosen only when no delta is in 1..`i32::MAX`-1 |
| `Receive.FindClosest` | src/recv.rs:82-93 | the scan with the running `delta_min` finds `Closest`, and keeps the just-received datagram when it finds nothing |
| `Receive.Select` | src/recv.rs:66-98 | nothing is chosen exactly when no entry is contiguous and fewer than 32 are cached |
| `Receive.Evict` | src/recv.rs:137-143 | keeps exactly the entries numbered above the last played, no more than before |
| `Receive.EvictAppend` | src/recv.rs:137-141 | filtering a concatenation filters each part |
| `Receive.EvictDrops` | src/recv.rs:137-143 | an entry at or below the last played number shrinks the cache |
| `Receive.StreamAfter` | src/recv.rs:102-119 | rate index 21 panics; with no stream a channels byte of 255 panics, else a table rate opens a stream with the frame's rate and channels and any other rate opens none; with a stream, a rate outside the table panics on `unwrap`, the same rate keeps the stream, and a new rate reopens it (a channels byte of 255 panics) |
| `Receive.ExpectedBytes` | src/recv.rs:123-124 | the declared bytes are (count byte + 1) × (channels byte + 1) × 2, between 2 and 131072 |
| `Receive.ExpectedBytesAsWritten` | src/recv.rs:123-124 | `max_bytes` overflows exactly when either count byte is 255, and is the declared bytes otherwise |
| `Receive.Push` | src/recv.rs:122-133 | pushes `payload[..declared]` exactly when neither byte is 255, the payload holds the declared bytes and the callback stays inside them; otherwise the count overflow, the slice panic or the callback panic, in that order |
| `Receive.Commit` | src/recv.rs:100-143 | always records the chosen number; either plays, evicting exactly up to it and pushing at most one slice, or panics and halts |
| `Receive.Admit` | src/recv.rs:63-143 | waits with the frame appended, plays or panics; a wait changes nothing else |
| `Receive.StepSpec` | src/recv.rs:36-143 | halts exactly on a panic; an ignored datagram changes nothing; a foreign one only adds its name; a play records its number; at most one slice is pushed |
| `Receive.Received` | src/recv.rs:36-43 | a datagram longer than the 1472-byte buffer is cut to it |
| `Receive.ReceivedKeepsHeader` | src/recv.rs:22 | the buffer keeps a datagram's 28-byte header whole and the first 1444 bytes of its payload |
| `Receive.ReceiveSession.constructor` | src/recv.rs:29-34 | a new session: nothing played, empty cache, no names seen, no stream |
| `Receive.ReceiveSession.Step` | src/recv.rs:35-66 | one loop iteration on the fields computes exactly `StepSpec` and keeps the cache below 32 |
| `Receive.ReceiveSession.AdmitFrame` | src/recv.rs:66-98 | caching and the two scans compute exactly `Admit` |
| `Receive.ReceiveSession.CommitFrame` | src/recv.rs:100-143 | commit, stream decision, push with the device callback, and eviction compute exactly `Commit` |
| `Receive.ReceiveSession.OpenOrReopen` | src/recv.rs:102-119 | the open and reopen steps on the fields compute `StreamAfter`; a panic leaves the stream as it was |
| `Receive.PushSlice` | src/recv.rs:122-133 | `max_bytes`, the slice and the callback loop compute exactly `Push` |
| `Receive.SamplesOf` | src/recv.rs:151-154 | one `i16` per two bytes |
| `Receive.SamplesOfAt` | src/recv.rs:151-154 | sample `k` of the decode is the `i16` read from bytes `2k`, `2k+1` |
| `Receive.SamplesOfPointwise` | src/recv.rs:150-155 | a buffer holding the `i16` of bytes `2k`, `2k+1` at each slot `k` is the decode of the bytes it covers |
| `Receive.DecodeSamples` | src/recv.rs:150-155 | the callback loop fills the buffer with the little-endian samples, and panics exactly when the data holds fewer than two bytes per slot |
| `Receive.WriteFrameCount` | src/recv.rs:148-149 | the frames asked for, times the channels, never exceed the samples available |
| `Receive.WriteFrameCountAsWritten` | src/recv.rs:148-149 | `samples / 2` is the number of whole two-channel frames in the slice |
| `Receive.MonoWriteDropsHalf` | src/recv.rs:148-153 | for every mono slice of 2 or more bytes the write as written takes fewer samples than were pushed, at most half, and never reads past the slice |
| `Receive.NarrowWriteStaysInSlice` | src/recv.rs:148-153 | with one or two channels the callback as written never reads past the slice |
| `Receive.WideWriteReadsPastEnd` | src/recv.rs:148-153 | with three or more channels and a slice of 8 or more bytes the callback as written reads past the slice, which is where `DecodeSamples` fails |
| `Receive.WriteCoversWholeFrames` | src/recv.rs:148-150 | dividing by the channel count, a pushed slice fills the device buffer exactly |
| `ReceiveProperties.RejectedDatagramChangesNothing` | src/recv.rs:39-47 | short, non-VBAN, non-PCM and non-audio datagrams leave the session unchanged |
| `ReceiveProperties.ForeignDatagramOnlyRecordsName` | src/recv.rs:50-57 | a foreign datagram only adds its name to the seen set and is logged only on first sight |
| `ReceiveProperties.NonI16DatagramCrashes` | src/recv.rs:59-60 | a target-stream datagram that passes the filters in a format other than `I16` stops the receiver at the format assertion |
| `ReceiveProperties.AcceptedDatagramIsAdmitted` | src/recv.rs:39-66 | an `I16` datagram of the target stream that passes the filters is cached as its header and payload |
| `ReceiveProperties.CommitKeepsCacheBound` | src/recv.rs:137-143 | a commit leaves fewer than 32 entries and pushes at most one slice |
| `ReceiveProperties.StepKeepsCacheBound` | src/recv.rs:66-143 | every iteration keeps the cache below 32 entries and pushes at most one slice |
| `ReceiveProperties.BootstrapTakesFirst` | src/recv.rs:72 | with nothing played the first cache entry is chosen |
| `ReceiveProperties.FirstFrameOfSessionPlays` | src/recv.rs:66-134 | the first frame that passes the filters is committed, and its outcome is given for every header: panic at rate index 21 or a channels byte of 255, play without a stream at an invalid rate, panic on a count byte of 255, a short payload or a callback past the slice, otherwise play and push the declared bytes |
| `ReceiveProperties.ContiguousTakesFirstSuccessor` | src/recv.rs:69-78 | the first entry with delta 1 is chosen, and below 2^31 it is numbered last + 1 |
| `ReceiveProperties.WaitKeepsLast` | src/recv.rs:94-97 | with no contiguous entry and fewer than 32 cached, the frame waits and nothing else changes |
| `ReceiveProperties.ForcedSkipTakesClosest` | src/recv.rs:83-93 | with 32 cached, the least positive delta is chosen, the earliest among equals |
| `ReceiveProperties.CommitEvictsUpToChosen` | src/recv.rs:100-143 | after a play the last number is the chosen one, and the cache keeps exactly the later-numbered entries in order |
| `ReceiveProperties.SignedDeltaMatchesUnsignedBelowWrap` | src/recv.rs:71-139 | below 2^31 a positive delta means numbered after, and delta 1 means the successor |
| `ReceiveProperties.CounterWrapReentersBootstrap` | src/recv.rs:71-139 | at 0xFFFF_FFFF → 0 the signed delta is 1 while the unsigned test says "not after"; the commit sets the last played number to 0, so the next commit takes the first cached frame |
| `ReceiveProperties.CommitRecordsChosen` | src/recv.rs:100 | the last played number becomes the chosen entry's |
| `ReceiveProperties.SelectAdvances` | src/recv.rs:66-98 | below 2^31, with a later-numbered entry cached, the chosen entry is later-numbered |
| `ReceiveProperties.PlayedFrameAdvances` | src/recv.rs:66-100 | below 2^31, with a later-numbered frame cached, the last played number only grows |
| `ReceiveProperties.StaleBurstMovesLastBackwards` | src/recv.rs:80-100 | with 32 older frames cached, the just-received older frame is played and the number goes back |
| `ReceiveProperties.CommitPushesDeclaredBytes` | src/recv.rs:121-134 | with a stream open: a count byte of 255 overflows; a payload shorter than declared panics; a callback past the slice panics; otherwise exactly `payload[..frames*channels*2]` is pushed, and a longer payload warns |
| `ReceiveProperties.RateChangeReopensOnce` | src/recv.rs:113-119 | the same rate keeps the stream; a new rate reopens it once with the frame's channels, or panics on a channels byte of 255 |
| `ReceiveProperties.RunFrames` | src/recv.rs:35-144 | a run of frames yields at most one outcome per frame |
| `ReceiveProperties.CommitPlayable` | src/recv.rs:100-143 | a frame with a table rate, one or two channels, a count byte below 255 and enough bytes, on a stream of at most two channels, is played, pushed and evicted up to |
| `ReceiveProperties.InOrderFramePlays` | src/recv.rs:66-143 | a contiguous frame on an empty cache is played and the cache stays empty |
| `ReceiveProperties.InOrderDelivery` | src/recv.rs:66-143 | consecutive frames in order are each played on arrival, in order |
| `ReceiveProperties.SwapFirstWaits` | src/recv.rs:94-97 | L+2 arriving first waits |
| `ReceiveProperties.SwapSecondPlays` | src/recv.rs:69-78 | L+1 arriving next is played and L+2 stays cached |
| `ReceiveProperties.SwapThirdReleasesHeld` | src/recv.rs:69-78 | the next arrival releases the held L+2 |
| `ReceiveProperties.RunFramesStep` | src/recv.rs:35-144 | one step of a run on a live session |
| `ReceiveProperties.RunThree` | src/recv.rs:35-144 | three frames on a session the first two do not halt give the three outcomes in order |
| `ReceiveProperties.AdjacentSwapDeliveredInOrder` | src/recv.rs:66-143 | arrivals L+2, L+1, L+3 give wait, play L+1, play L+2 |
| `ReceiveProperties.PermanentLossSkipped` | src/recv.rs:80-93 | with L+1 lost and L+2..L+33 arriving, L+2 is played when the cache reaches 32 |
| `Transmit.NameField` | src/transmit.rs:43-47 | the first `min(14, len)` bytes are the name's, the rest are zero |
| `Transmit.PackStreamName` | src/transmit.rs:43-47 | the copy loop yields `NameField`, and panics exactly when the slice end is not a character boundary |
| `Transmit.NameFieldPadding` | src/transmit.rs:43-44 | bytes 14 and 15 are always NUL |
| `Transmit.StreamNameRoundTrip` | src/transmit.rs:43-47 | a name with no NUL in its first 14 bytes is read back by `get_stream_name` as those bytes |
| `Transmit.FramesToWrite` | src/transmit.rs:56-60 | at most 256, zero only for zero available, `min(256, available)` otherwise |
| `Transmit.SamplesToBytes` | src/transmit.rs:72-75 | two bytes per sample |
| `Transmit.SampleBytesAt` | src/transmit.rs:72-75 | sample `k` is `to_le_bytes` at bytes `2k`, `2k+1` |
| `Transmit.ChannelsArg` | src/transmit.rs:81 | the `as u8` channel count equals the device's when that is below 256 |
| `Transmit.SmpCountArgAsWritten` | src/transmit.rs:80 | the argument is frames × channels, and overflows `u16` exactly when that product reaches 65536 |
| `Transmit.BuildPacketAsWritten` | src/transmit.rs:77-85 | fails exactly when frames × channels overflows `u16` (that panic first) or is zero, the rate is outside the table or the channels are zero; otherwise header plus the sample bytes |
| `Transmit.BuildPacket` | src/transmit.rs:77-85 | the fix to transmit.rs:80, with the frame count as the sample-count argument: fails exactly for a rate outside the table, zero frames or zero channels; otherwise header plus two bytes per sample |
| `Transmit.MadePacketOk` | src/transmit.rs:77-85 | a packet built from the sender's configuration reads back as its name, rate, channels and counter, with the sample-count argument minus one in its count byte |
| `Transmit.BuiltPacketOk` | src/transmit.rs:77-85 | the datagram as written decodes as I16 audio of the configured name, rate, channels and counter, with sample-count byte frames × channels − 1 mod 256, i.e. a frame count of frames × channels when that is at most 256 |
| `Transmit.CorrectedPacketOk` | src/transmit.rs:77-85 | with the fix to transmit.rs:80, the header's frame count is the number of frames sent |
| `Transmit.SendKeepsInvariant` | src/transmit.rs:42-90 | the counter stays one past the datagrams sent, and datagram k carries sequence k+1 |
| `Transmit.SendAdvancesOnlyOnSend` | src/transmit.rs:52-87 | no chunk, an empty chunk or a failed read sends nothing and keeps the counter; a send advances it by one |
| `Transmit.SendSpec` | src/transmit.rs:49-91 | halts exactly on a panic (the `u16` product, `make_audio_packet`, the counter), and only ever appends at most one datagram |
| `Transmit.SentPayloadIsSamples` | src/transmit.rs:72-90 | a sent datagram's payload is exactly the samples read, little-endian |
| `Transmit.Sender.constructor` | src/transmit.rs:42 | the counter starts at 1 with nothing sent |
| `Transmit.Sender.SendIteration` | src/transmit.rs:49-91 | one loop pass on the fields computes exactly `SendSpec` and keeps the invariant |
| `Interop.SamplesRoundTrip` | src/recv.rs:151-154 | the receiver decodes exactly the samples the sender encoded |
| `Interop.BytesRoundTrip` | src/transmit.rs:72-75 | every even-length byte string is the encoding of its decode |
| `Interop.SenderPacketReachesCache` | src/recv.rs:36-66 | a sent datagram, as the receiver's 1472-byte buffer keeps it (whole header, at most 1444 payload bytes), passes every filter of a receiver tuned to its name and is admitted with its counter |
| `Interop.CorrectedCountMatchesPayload` | src/recv.rs:123-131 | with the frame count as argument, the header announces exactly the payload's bytes, with count byte frames − 1 and the sender's channels |
| `Interop.ExactFirstFramePlays` | src/recv.rs:100-155 | a fresh receiver's first frame at a table rate, with no count byte of 255 and exactly the announced payload, is played and pushed whole unless the callback reads past the slice |
| `Interop.FirstSentPacketPlaysSamples` | src/recv.rs:36-155 | for up to 255 frames a fresh receiver that reads the first sent datagram into its buffer panics on the slice when there are more than 722 samples (the buffer cut them), else panics in the callback when the device has three or more channels and it reads past the slice, else plays the datagram and pushes its sample bytes, which decode to the samples that were read |
| `Interop.FullChunkOverflowsReceiver` | src/vban.rs:228-230 | a full 256-frame chunk with the frame count as argument writes count byte 255, and a fresh receiver that reads it into its buffer panics in `get_frame_count` |
| `Interop.FullChunkAsWrittenOverflowsReceiver` | src/transmit.rs:80 | a full 256-frame chunk as written (count argument 256 × channels) also writes count byte 255, and a fresh receiver that reads it panics in `get_frame_count` |
| `Interop.AsWrittenFullChunkHeader` | src/transmit.rs:80 | the header of that chunk is the configured stream's, with count byte 255 |
| `Interop.ShortFirstFrameCrashes` | src/recv.rs:131 | a first frame at a table rate, with no count byte of 255, shorter than its header announces panics on the slice |
| `Interop.AsWrittenStereoPacket` | src/transmit.rs:80 | 100 stereo frames as written announce 200 frames of 2 channels, 800 bytes, for a 400-byte payload |
| `Interop.AsWrittenStereoPacketCrashesReceiver` | src/transmit.rs:80 | that datagram, read into the receiver's buffer, makes a fresh receiver panic |
| `Interop.CorrectedStereoPacketPlays` | src/transmit.rs:80 | with the frame count as argument the same input is played |
| `Interop.SenderPacketFitsBuffer` | src/recv.rs:22 | up to 722 samples a sent datagram fits the receiver's buffer whole |
| `Interop.FourChannelChunkIsCut` | src/recv.rs:22 | a full four-channel chunk is cut to 1472 bytes, short of what its header announces |

## Left out

- UDP sockets (`bind`, `connect`, `recv_from`, `send`) are I/O. The
  receiver's datagram is the argument of `Step`, cut to the buffer by
  `Received`. A sent datagram is appended to `Sender.sent`.
- The PortAudio devices are a foreign library. They are modelled as follows:
  - the receiver's stream is its `(rate, channels)`;
  - each push is recorded in the ghost log `pushed`;
  - the sender's `read_available` / `read` results are parameters of
    `SendIteration`;
  - the write callback's buffer length is `frames × channels` by
    assumption (`DeviceBufferLen`);
  - device errors in `push_audio_buffer` are only logged by the source, so
    they are not modelled.
- The receiver's sample-rate comparison is done in `f64`; the model compares
  integer rates. Every table rate is an integer.
- The sender converts the device rate `as i32`; the model takes that integer
  as `SenderConfig.rate`.
- `String::from_utf8_lossy`: stream names are byte sequences. Two byte
  strings that decode lossily to the same text are treated as different
  names.
- Console output is not modelled, except where it depends on state: the
  `logged` flag of `Foreign` and the `warnedLong` flag of `Played`.
- `sequential_last_received_seq` is written but never read.
- src/main.rs, an earlier receiver, is not part of this model.
- Release builds wrap where debug builds panic. The model follows the debug
  build for `u8 + 1`, `u16 - 1`, `u8 - 1`, `u16 * u16` and `u32 += 1`.
- Receive.SeqDelta: a debug build panics on the `i32` subtraction when the
  two numbers are 2^31 or more apart. The model wraps there instead, as a
  release build does.
- A negative frame count from `read_available` is modelled as the wrap
  `as usize` gives on a 64-bit target, so `FramesToWrite` yields 256.
- Receive.ReceiveSession.Step: requires a session that has not panicked. A
  panic ends the process, so no datagram follows it.

## Findings

| source | as written | input that shows it | evidently intended | confidence | as-written member | corrected member |
|---|---|---|---|---|---|---|
| src/vban.rs:186 | `get_sr` rejects an index only when it is `> VBAN_SRLIST.len()`, so index 21 passes and indexes past the 21-entry table | a header with sub-protocol byte 21 (audio, rate index 21) | reject indices `>= len()` with the error | high, not executed | `Vban.GetSrIndex21Panics` | `Vban.GetSr` |
| src/vban.rs:229 | `get_frame_count` computes `smp_count + 1` in `u8` | sample-count byte 255, which is what `make_audio_packet` writes for 256 samples | a count of 256 | high, not executed | `Interop.FullChunkOverflowsReceiver` | `Vban.GetFrameCount` |
| src/vban.rs:215 | `get_channels` computes `channels + 1` in `u8` | channels byte 255 (256 channels) | a count of 256 | medium, not executed | `Vban.GetChannelsAsWritten` | `Vban.GetChannels` |
| src/transmit.rs:80 | the sample-count argument is `frames_to_write × channels`, while the header field holds frames − 1 and the receiver multiplies it by the channels again | 100 frames from a 2-channel device at 48 kHz: the header announces 800 bytes for a 400-byte payload, and the receiver's slice panics | pass `frames_to_write` | high, not executed | `Interop.AsWrittenStereoPacketCrashesReceiver` | `Interop.CorrectedStereoPacketPlays` |
| src/recv.rs:149 | `push_audio_buffer` asks the device for `samples / 2` frames, which is right only for stereo | a 4-byte slice on a mono stream writes 1 of its 2 samples; a 16-byte slice on a 4-channel stream reads past the data | `samples / channels` frames | medium, not executed | `Receive.WideWriteReadsPastEnd` | `Receive.WriteCoversWholeFrames` |
