/** The sender loop (`do_send`): the stream-name field packed once, then, per
    iteration, the chunk size, the little-endian sample bytes, the arguments
    handed to `make_audio_packet` and the sequence counter.

    The audio device and the socket are parameters: each iteration receives
    what `read_available` and `read` returned, and the datagrams sent are
    recorded in `sent`. `SendSpec` states one iteration as a function of the
    sender state; `Sender.SendIteration` is the object that does it. */
module Transmit {
  import opened Wire
  import opened Vban

  // ---------------------------------------------------------------------------
  // Stream name (transmit.rs:43-47)

  /** Longest prefix of the name copied into the 16-byte field; the last two
      bytes are never written. */
  const NAME_COPY_MAX: nat := 14

  /** `str::is_char_boundary` on the UTF-8 bytes of a string: the ends, or a
      byte that does not continue a multi-byte character. */
  predicate IsCharBoundary(s: seq<u8>, i: nat) {
    i == 0 || i == |s| || (i < |s| && (s[i] < 0x80 || s[i] >= 0xC0))
  }

  function Zeros(n: nat): (z: seq<u8>)
    ensures |z| == n && forall j :: 0 <= j < n ==> z[j] == 0
  {
    seq(n, _ => 0)
  }

  /** The name field the sender puts in every header. */
  function NameField(name: seq<u8>): (r: NameBytes)
    ensures var m := Min(NAME_COPY_MAX, |name|);
      && r[..m] == name[..m]
      && forall j :: m <= j < 16 ==> r[j] == 0
  {
    var m := Min(NAME_COPY_MAX, |name|);
    name[..m] + Zeros(16 - m)
  }

  datatype NamePanic = NotCharBoundary

  /** The packing before the send loop: slice the name at `min(14, len)`,
      which panics off a character boundary, and copy the bytes of the slice
      into a zeroed 16-byte array. */
  method PackStreamName(name: seq<u8>) returns (r: Result<NameBytes, NamePanic>)
    ensures r.Ok? <==> IsCharBoundary(name, Min(NAME_COPY_MAX, |name|))
    ensures r.Ok? ==> r.value == NameField(name)
  {
    var max := Min(NAME_COPY_MAX, |name|);
    if !IsCharBoundary(name, max) {
      return Err(NotCharBoundary);
    }
    var buf := new u8[16](_ => 0);
    for index := 0 to max
      invariant forall j :: 0 <= j < index ==> buf[j] == name[j]
      invariant forall j :: index <= j < 16 ==> buf[j] == 0
    {
      buf[index] := name[index];
    }
    assert buf[..] == NameField(name);
    r := Ok(buf[..]);
  }

  /** Bytes 14 and 15 of the field are always NUL, so the receiver finds a
      terminator within the field. */
  lemma NameFieldPadding(name: seq<u8>)
    ensures NameField(name)[14] == 0 && NameField(name)[15] == 0
    ensures 0 in NameField(name)
  {
    assert NameField(name)[15] == 0;
  }

  /** A name whose first 14 bytes hold no NUL is read back by the receiver
      as those 14 bytes (or the whole name when shorter). */
  lemma StreamNameRoundTrip(name: seq<u8>, h: Header)
    requires 0 !in name[..Min(NAME_COPY_MAX, |name|)]
    requires h.streamName == NameField(name)
    ensures GetStreamName(h) == name[..Min(NAME_COPY_MAX, |name|)]
  {
    var m := Min(NAME_COPY_MAX, |name|);
    var got := GetStreamName(h);
    var field := h.streamName;
    assert forall j :: 0 <= j < m ==> field[j] != 0 by {
      forall j | 0 <= j < m ensures field[j] != 0 {
        assert field[j] == name[..m][j];
      }
    }
    assert field[m] == 0;
    assert got == field[..m];
  }

  // ---------------------------------------------------------------------------
  // Chunk and payload (transmit.rs:56-60, transmit.rs:72-75)

  /** `256.min(read_frames as usize)`: a negative count from the device
      becomes a huge `usize` on a 64-bit target, so it yields 256. */
  function FramesToWrite(available: int): (n: nat)
    ensures n <= 256
    ensures n == 0 <==> available == 0
    ensures available >= 0 ==> n == Min(256, available)
  {
    if available < 0 then 256 else Min(256, available)
  }

  /** `iter().map(to_le_bytes).flatten()`: each sample as two little-endian
      bytes, in order. */
  function SamplesToBytes(s: seq<i16>): (b: seq<u8>)
    ensures |b| == 2 * |s|
    decreases |s|
  {
    if s == [] then [] else SamplesToBytes(s[..|s| - 1]) + I16ToLe(s[|s| - 1])
  }

  /** Sample `k` sits at bytes `2k` and `2k + 1`. */
  lemma {:induction false} SampleBytesAt(s: seq<i16>, k: nat)
    requires k < |s|
    ensures SamplesToBytes(s)[2 * k..2 * k + 2] == I16ToLe(s[k])
    decreases |s|
  {
    var init := s[..|s| - 1];
    if k < |s| - 1 {
      SampleBytesAt(init, k);
      assert init[k] == s[k];
    }
  }

  // ---------------------------------------------------------------------------
  // The arguments of make_audio_packet (transmit.rs:77-85)

  /** What the sender knows about its device and its stream: the packed name,
      the stream's rate (integral) and the device's input channel count. */
  datatype SenderConfig = SenderConfig(name: NameBytes, rate: int, deviceChannels: nat)

  /** `max_input_channels as u8`: the channel count handed to the codec. */
  function ChannelsArg(cfg: SenderConfig): (c: u8)
    ensures cfg.deviceChannels < 0x100 ==> c == cfg.deviceChannels
  {
    cfg.deviceChannels % 0x100
  }

  /** The sample count argument as written: `frames as u16 * channels as
      u16`, `None` when the product overflows `u16` (a debug-build panic). */
  function SmpCountArgAsWritten(frames: nat, cfg: SenderConfig): (r: Option<u16>)
    requires frames <= 256
    ensures r.Some? <==> frames * (cfg.deviceChannels % 0x1_0000) < 0x1_0000
    ensures r.Some? ==> r.value == frames * (cfg.deviceChannels % 0x1_0000)
  {
    var p := frames * (cfg.deviceChannels % 0x1_0000);
    if p < 0x1_0000 then Some(p) else None
  }

  datatype SendPanic = PacketPanicked(reason: PacketPanic) | SmpCountOverflow | SeqOverflow

  /** The datagram as written: the sample count argument is the sample
      total across channels. */
  function BuildPacketAsWritten(cfg: SenderConfig, frames: nat, samples: seq<i16>, seqNum: u32)
    : (r: Result<seq<u8>, SendPanic>)
    requires frames <= 256
    ensures var count := frames * (cfg.deviceChannels % 0x1_0000);
      r.Err? <==> count >= 0x1_0000 || cfg.rate !in VBAN_SRLIST || count == 0 || ChannelsArg(cfg) == 0
    ensures frames * (cfg.deviceChannels % 0x1_0000) >= 0x1_0000 ==> r == Err(SmpCountOverflow)
    ensures r.Ok? ==> |r.value| == HEADER_SIZE + 2 * |samples|
    ensures r.Ok? ==> r.value[HEADER_SIZE..] == SamplesToBytes(samples)
  {
    match SmpCountArgAsWritten(frames, cfg)
    case None => Err(SmpCountOverflow)
    case Some(count) =>
      match MakeAudioPacket(cfg.rate, cfg.name, count, ChannelsArg(cfg), SamplesToBytes(samples), I16, seqNum)
      case Err(p) => Err(PacketPanicked(p))
      case Ok(p) => Ok(p)
  }

  /** The datagram with the sample count argument the header format needs:
      the frame count. */
  function BuildPacket(cfg: SenderConfig, frames: nat, samples: seq<i16>, seqNum: u32)
    : (r: Result<seq<u8>, SendPanic>)
    requires frames <= 256
    ensures r.Err? <==> cfg.rate !in VBAN_SRLIST || frames == 0 || ChannelsArg(cfg) == 0
    ensures r.Ok? ==> |r.value| == HEADER_SIZE + 2 * |samples|
    ensures r.Ok? ==> r.value[HEADER_SIZE..] == SamplesToBytes(samples)
  {
    match MakeAudioPacket(cfg.rate, cfg.name, frames, ChannelsArg(cfg), SamplesToBytes(samples), I16, seqNum)
    case Err(p) => Err(PacketPanicked(p))
    case Ok(p) => Ok(p)
  }

  /** What a receiver reads from a datagram the sender built: an `I16` audio
      packet of the configured name, rate and channels, with sequence number
      `seqNum`. */
  ghost predicate PacketOk(p: seq<u8>, cfg: SenderConfig, seqNum: u32) {
    && |p| >= HEADER_SIZE
    && var h := FromBytes(p[..HEADER_SIZE]);
    && IsVban(h) && IsAudio(h) && IsPcm(h) && GetBitFormat(h) == I16
    && GetSr(h) == Ok(cfg.rate)
    && GetChannels(h) == ChannelsArg(cfg)
    && h.streamName == cfg.name
    && GetSeqNum(h) == seqNum
  }

  /** A packet the codec builds from the configuration with sample count
      argument `count` reads back as the configured stream, its
      sample-count byte holding `count - 1` truncated to a byte. */
  lemma MadePacketOk(cfg: SenderConfig, count: u16, samples: seq<i16>, seqNum: u32)
    requires MakeAudioPacket(cfg.rate, cfg.name, count, ChannelsArg(cfg), SamplesToBytes(samples), I16, seqNum).Ok?
    ensures var p := MakeAudioPacket(cfg.rate, cfg.name, count, ChannelsArg(cfg), SamplesToBytes(samples), I16, seqNum).value;
      && PacketOk(p, cfg, seqNum)
      && FromBytes(p[..HEADER_SIZE]).smpCount == (count - 1) % 0x100
  {
    AudioPacketHeader(cfg.rate, cfg.name, count, ChannelsArg(cfg), SamplesToBytes(samples), I16, seqNum);
  }

  /** The datagram as written decodes as `I16` audio of the configured name,
      rate and channels with the given counter; its sample-count byte holds
      frames × channels − 1, truncated to a byte, so the receiver reads a
      frame count of frames × channels whenever that is at most 256. */
  lemma BuiltPacketOk(cfg: SenderConfig, frames: nat, samples: seq<i16>, seqNum: u32)
    requires frames <= 256
    requires BuildPacketAsWritten(cfg, frames, samples, seqNum).Ok?
    ensures var p := BuildPacketAsWritten(cfg, frames, samples, seqNum).value;
      var count := frames * (cfg.deviceChannels % 0x1_0000);
      var h := FromBytes(p[..HEADER_SIZE]);
      && PacketOk(p, cfg, seqNum)
      && h.smpCount == (count - 1) % 0x100
      && (count <= 256 ==> GetFrameCount(h) == count)
  {
    var count := SmpCountArgAsWritten(frames, cfg).value;
    MadePacketOk(cfg, count, samples, seqNum);
  }

  /** With the frame count as the argument, the header's frame count is
      the number of frames sent. */
  lemma CorrectedPacketOk(cfg: SenderConfig, frames: nat, samples: seq<i16>, seqNum: u32)
    requires 1 <= frames <= 256
    requires BuildPacket(cfg, frames, samples, seqNum).Ok?
    ensures var p := BuildPacket(cfg, frames, samples, seqNum).value;
      && PacketOk(p, cfg, seqNum)
      && GetFrameCount(FromBytes(p[..HEADER_SIZE])) == frames
  {
    MadePacketOk(cfg, frames, samples, seqNum);
  }

  // ---------------------------------------------------------------------------
  // One iteration (transmit.rs:49-91)

  datatype SenderState = SenderState(nextSeq: u32, sent: seq<seq<u8>>, halted: bool)

  datatype SendOutcome = NotReady | Sent(frames: nat) | Halted(reason: SendPanic)

  function InitialSender(): SenderState {
    SenderState(1, [], false)
  }

  /** The counter is one past the number of datagrams sent, and datagram `k`
      (from 0) carries sequence number `k + 1`. */
  ghost predicate SenderInvariant(st: SenderState, cfg: SenderConfig) {
    && st.nextSeq == |st.sent| + 1
    && forall k :: 0 <= k < |st.sent| ==> PacketOk(st.sent[k], cfg, k + 1)
  }

  /** One pass of the loop. `available` is what `read_available` returned
      (`None` for an error), `read` what `read` returned. An error or an
      empty chunk continues without sending; a packing panic or the
      counter's overflow ends the sender. */
  function SendSpec(st: SenderState, cfg: SenderConfig, available: Option<int>, read: Option<seq<i16>>)
    : (r: (SenderState, SendOutcome))
    requires !st.halted
    ensures r.0.halted <==> r.1.Halted?
    ensures st.sent <= r.0.sent && |r.0.sent| <= |st.sent| + 1
  {
    if available.None? then (st, NotReady)
    else
      var frames := FramesToWrite(available.value);
      if frames == 0 || read.None? then (st, NotReady)
      else match BuildPacketAsWritten(cfg, frames, read.value, st.nextSeq)
        case Err(p) => (st.(halted := true), Halted(p))
        case Ok(packet) =>
          if st.nextSeq == 0xFFFF_FFFF then (st.(halted := true), Halted(SeqOverflow))
          else (st.(nextSeq := st.nextSeq + 1, sent := st.sent + [packet]), Sent(frames))
  }

  /** Every iteration keeps the sequence invariant. */
  lemma SendKeepsInvariant(st: SenderState, cfg: SenderConfig, available: Option<int>, read: Option<seq<i16>>)
    requires !st.halted && SenderInvariant(st, cfg)
    ensures SenderInvariant(SendSpec(st, cfg, available, read).0, cfg)
  {
    var r := SendSpec(st, cfg, available, read);
    if r.1.Sent? {
      var frames := FramesToWrite(available.value);
      BuiltPacketOk(cfg, frames, read.value, st.nextSeq);
      var sent := r.0.sent;
      assert sent == st.sent + [BuildPacketAsWritten(cfg, frames, read.value, st.nextSeq).value];
      forall k | 0 <= k < |sent|
        ensures PacketOk(sent[k], cfg, k + 1)
      {
        if k < |st.sent| {
          assert sent[k] == st.sent[k];
        }
      }
    }
  }

  /** Nothing is sent and the counter stays put unless a non-empty chunk was
      read; a send advances the counter by exactly one. */
  lemma SendAdvancesOnlyOnSend(st: SenderState, cfg: SenderConfig, available: Option<int>, read: Option<seq<i16>>)
    requires !st.halted
    ensures var r := SendSpec(st, cfg, available, read);
      && (available.None? || available.value == 0 || read.None? ==> r == (st, NotReady))
      && (r.1.Sent? ==> r.0.nextSeq == st.nextSeq + 1 && |r.0.sent| == |st.sent| + 1)
      && (!r.1.Sent? ==> r.0.nextSeq == st.nextSeq && r.0.sent == st.sent)
  {
  }

  /** A sent datagram holds the header and, after it, exactly the bytes of
      the samples read, two per sample. */
  lemma SentPayloadIsSamples(st: SenderState, cfg: SenderConfig, available: Option<int>, read: Option<seq<i16>>)
    requires !st.halted
    requires SendSpec(st, cfg, available, read).1.Sent?
    ensures var p := SendSpec(st, cfg, available, read).0.sent[|st.sent|];
      && |p| == HEADER_SIZE + 2 * |read.value|
      && p[HEADER_SIZE..] == SamplesToBytes(read.value)
  {
  }

  // ---------------------------------------------------------------------------
  // The sender object

  class Sender {
    const config: SenderConfig
    var nextSeq: u32
    var sent: seq<seq<u8>>
    var halted: bool

    function State(): SenderState
      reads this
    {
      SenderState(nextSeq, sent, halted)
    }

    ghost predicate Valid()
      reads this
    {
      SenderInvariant(State(), config)
    }

    constructor(cfg: SenderConfig)
      ensures config == cfg && State() == InitialSender() && Valid()
    {
      config := cfg;
      nextSeq := 1;
      sent := [];
      halted := false;
    }

    /** One pass of the send loop. */
    method SendIteration(available: Option<int>, read: Option<seq<i16>>) returns (outcome: SendOutcome)
      requires Valid() && !halted
      modifies this
      ensures Valid()
      ensures (State(), outcome) == SendSpec(old(State()), config, available, read)
    {
      SendKeepsInvariant(State(), config, available, read);
      if available.None? {
        return NotReady;
      }
      var framesToWrite := FramesToWrite(available.value);
      if framesToWrite == 0 {
        return NotReady;
      }
      if read.None? {
        return NotReady;
      }
      var packet := BuildPacketAsWritten(config, framesToWrite, read.value, nextSeq);
      if packet.Err? {
        halted := true;
        return Halted(packet.error);
      }
      if nextSeq == 0xFFFF_FFFF {
        halted := true;
        return Halted(SeqOverflow);
      }
      nextSeq := nextSeq + 1;
      sent := sent + [packet.value];
      outcome := Sent(framesToWrite);
    }
  }
}
