/** Sender against receiver: the sample bytes round-trip, a datagram the
    sender builds passes the receiver's filters and reaches the cache, and
    whether its payload matches what the header announces. */
module Interop {
  import opened Wire
  import opened Vban
  import opened Receive
  import opened Transmit
  import opened ReceiveProperties

  /** The receiver's decode reads back exactly the samples the sender
      encoded. */
  lemma {:induction false} SamplesRoundTrip(s: seq<i16>)
    ensures SamplesOf(SamplesToBytes(s)) == s
    decreases |s|
  {
    if s != [] {
      var init := s[..|s| - 1];
      var b := SamplesToBytes(s);
      SamplesRoundTrip(init);
      assert b[..|b| - 2] == SamplesToBytes(init);
      assert b[|b| - 2..] == I16ToLe(s[|s| - 1]);
      I16RoundTrip(s[|s| - 1]);
      assert s == init + [s[|s| - 1]];
    }
  }

  /** And any even-length byte string is the encoding of its decode. */
  lemma {:induction false} BytesRoundTrip(b: seq<u8>)
    requires |b| % 2 == 0
    ensures SamplesToBytes(SamplesOf(b)) == b
    decreases |b|
  {
    if b != [] {
      var s := SamplesOf(b);
      var init := b[..|b| - 2];
      BytesRoundTrip(init);
      assert s[..|s| - 1] == SamplesOf(init);
      I16BytesRoundTrip(b[|b| - 2..]);
      assert b == init + b[|b| - 2..];
    }
  }

  /** `b` is a whole number of little-endian `i16`s and they are `s`. */
  ghost predicate DecodesTo(b: seq<u8>, s: seq<i16>) {
    |b| % 2 == 0 && SamplesOf(b) == s
  }

  /** A datagram the sender built, as the receiver's buffer holds it, passes
      every filter of a receiver tuned to its stream name and is admitted to
      the cache as its header plus the sample bytes that fit the buffer. */
  lemma SenderPacketReachesCache(s: SessionState, cfg: SenderConfig, frames: nat, samples: seq<i16>, seqNum: u32)
    requires !s.halted && 1 <= frames <= 256
    requires BuildPacket(cfg, frames, samples, seqNum).Ok?
    ensures var p := BuildPacket(cfg, frames, samples, seqNum).value;
      var d := Received(p);
      var h := FromBytes(p[..HEADER_SIZE]);
      var kept := SamplesToBytes(samples)[..Min(2 * |samples|, VBAN_MAX_PACKET_SIZE - HEADER_SIZE)];
      && |d| >= HEADER_SIZE && d[..HEADER_SIZE] == p[..HEADER_SIZE] && d[HEADER_SIZE..] == kept
      && SeqOf(Frame(h, kept)) == seqNum
      && StepSpec(s, GetStreamName(h), d) == Admit(s, Frame(h, kept))
  {
    var p := BuildPacket(cfg, frames, samples, seqNum).value;
    CorrectedPacketOk(cfg, frames, samples, seqNum);
    ReceivedKeepsHeader(p);
    AcceptedDatagramIsAdmitted(s, Received(p));
  }

  /** With the frame count as the sample count argument and one sample per
      channel per frame, the header announces exactly the payload's bytes. */
  lemma CorrectedCountMatchesPayload(cfg: SenderConfig, frames: nat, samples: seq<i16>, seqNum: u32)
    requires 1 <= frames <= 256
    requires BuildPacket(cfg, frames, samples, seqNum).Ok?
    requires |samples| == frames * ChannelsArg(cfg)
    ensures var p := BuildPacket(cfg, frames, samples, seqNum).value;
      var h := FromBytes(p[..HEADER_SIZE]);
      && ExpectedBytes(h) == |p| - HEADER_SIZE
      && h.smpCount == frames - 1 && GetChannels(h) == ChannelsArg(cfg)
  {
    CorrectedPacketOk(cfg, frames, samples, seqNum);
  }

  /** A fresh receiver's first frame, at a table rate, with no count byte
      of 255 and exactly the payload its header announces, is played whole
      unless the write callback reads past the slice. */
  lemma ExactFirstFramePlays(f: Frame)
    requires GetSr(f.header).Ok? && f.header.smpCount != 255 && f.header.channels != 255
    requires ExpectedBytes(f.header) == |f.payload|
    ensures var r := Admit(Initial(), f);
      && r.1 == (if CallbackReadsPastEnd(|f.payload|, GetChannels(f.header)) then Crashed(CallbackReadPastEnd)
                 else Played(SeqOf(f), true, false))
      && (r.1.Played? ==> r.0.pushed == [f.payload])
  {
    FirstFrameOfSessionPlays(f);
    assert f.payload[..|f.payload|] == f.payload;
  }

  /** The first datagram a fresh receiver gets from the sender, with fewer
      than 256 frames, is played and the device receives the samples that
      were read, unless the samples overflow the receive buffer, which cuts
      the payload short of what the header announces, or the device has
      three or more channels and the write callback as written reads past
      the slice. */
  lemma FirstSentPacketPlaysSamples(target: seq<u8>, cfg: SenderConfig, frames: nat, samples: seq<i16>, seqNum: u32)
    requires 1 <= frames <= 255
    requires BuildPacket(cfg, frames, samples, seqNum).Ok?
    requires |samples| == frames * ChannelsArg(cfg)
    requires target == GetStreamName(FromBytes(BuildPacket(cfg, frames, samples, seqNum).value[..HEADER_SIZE]))
    ensures var r := StepSpec(Initial(), target, Received(BuildPacket(cfg, frames, samples, seqNum).value));
      && r.1 == (if 2 * |samples| > VBAN_MAX_PACKET_SIZE - HEADER_SIZE then Crashed(ShortPayload)
                 else if CallbackReadsPastEnd(2 * |samples|, ChannelsArg(cfg)) then Crashed(CallbackReadPastEnd)
                 else Played(seqNum, true, false))
      && (r.1.Played? ==> r.0.pushed == [SamplesToBytes(samples)] && DecodesTo(r.0.pushed[0], samples))
  {
    var p := BuildPacket(cfg, frames, samples, seqNum).value;
    var h := FromBytes(p[..HEADER_SIZE]);
    var kept := SamplesToBytes(samples)[..Min(2 * |samples|, VBAN_MAX_PACKET_SIZE - HEADER_SIZE)];
    var f := Frame(h, kept);
    SenderPacketReachesCache(Initial(), cfg, frames, samples, seqNum);
    assert StepSpec(Initial(), target, Received(p)) == Admit(Initial(), f);
    CorrectedPacketOk(cfg, frames, samples, seqNum);
    CorrectedCountMatchesPayload(cfg, frames, samples, seqNum);
    assert GetChannels(h) == ChannelsArg(cfg) && ExpectedBytes(h) == 2 * |samples|;
    if 2 * |samples| > VBAN_MAX_PACKET_SIZE - HEADER_SIZE {
      assert |kept| == VBAN_MAX_PACKET_SIZE - HEADER_SIZE;
      FirstFrameOfSessionPlays(f);
    } else {
      assert kept == SamplesToBytes(samples);
      ExactFirstFramePlays(f);
      SamplesRoundTrip(samples);
    }
  }

  /** A full 256-frame chunk, the sender's usual one, carries sample-count
      byte 255 even with the frame count as argument, and `get_frame_count`
      as written overflows on it in a fresh receiver. */
  lemma FullChunkOverflowsReceiver(target: seq<u8>, cfg: SenderConfig, samples: seq<i16>, seqNum: u32)
    requires BuildPacket(cfg, 256, samples, seqNum).Ok?
    requires target == GetStreamName(FromBytes(BuildPacket(cfg, 256, samples, seqNum).value[..HEADER_SIZE]))
    ensures StepSpec(Initial(), target, Received(BuildPacket(cfg, 256, samples, seqNum).value)).1 == Crashed(CountOverflow)
  {
    var p := BuildPacket(cfg, 256, samples, seqNum).value;
    var kept := SamplesToBytes(samples)[..Min(2 * |samples|, VBAN_MAX_PACKET_SIZE - HEADER_SIZE)];
    SenderPacketReachesCache(Initial(), cfg, 256, samples, seqNum);
    CorrectedPacketOk(cfg, 256, samples, seqNum);
    FirstFrameOfSessionPlays(Frame(FromBytes(p[..HEADER_SIZE]), kept));
  }

  /** The sender as written reaches the same overflow: a full chunk from a
      device of `c` channels announces 256 × `c` samples, whose count byte
      `(256 × c − 1) % 256` is 255 whatever `c` is. */
  lemma FullChunkAsWrittenOverflowsReceiver(target: seq<u8>, cfg: SenderConfig, samples: seq<i16>, seqNum: u32)
    requires BuildPacketAsWritten(cfg, 256, samples, seqNum).Ok?
    requires target == GetStreamName(FromBytes(BuildPacketAsWritten(cfg, 256, samples, seqNum).value[..HEADER_SIZE]))
    ensures StepSpec(Initial(), target, Received(BuildPacketAsWritten(cfg, 256, samples, seqNum).value)).1
            == Crashed(CountOverflow)
  {
    var p := BuildPacketAsWritten(cfg, 256, samples, seqNum).value;
    AsWrittenFullChunkHeader(cfg, samples, seqNum);
    var h := FromBytes(p[..HEADER_SIZE]);
    ReceivedKeepsHeader(p);
    var d := Received(p);
    AcceptedDatagramIsAdmitted(Initial(), d);
    FirstFrameOfSessionPlays(Frame(h, d[HEADER_SIZE..]));
  }

  /** The header of a full chunk as written: the configured stream, with
      count byte 255. */
  lemma AsWrittenFullChunkHeader(cfg: SenderConfig, samples: seq<i16>, seqNum: u32)
    requires BuildPacketAsWritten(cfg, 256, samples, seqNum).Ok?
    ensures var p := BuildPacketAsWritten(cfg, 256, samples, seqNum).value;
      PacketOk(p, cfg, seqNum) && FromBytes(p[..HEADER_SIZE]).smpCount == 255
  {
    var k := cfg.deviceChannels % 0x1_0000;
    BuiltPacketOk(cfg, 256, samples, seqNum);
    WholeChunksEndIn255(k);
  }

  /** One less than a positive multiple of 256 ends in the byte 255. */
  lemma WholeChunksEndIn255(k: nat)
    requires k >= 1
    ensures (256 * k - 1) % 0x100 == 255
  {
    assert 256 * k - 1 == 256 * (k - 1) + 255;
  }

  /** A fresh receiver's first frame, at a table rate but shorter than its
      header announces, panics on the push. */
  lemma ShortFirstFrameCrashes(f: Frame)
    requires GetSr(f.header).Ok? && f.header.smpCount != 255 && f.header.channels != 255
    requires ExpectedBytes(f.header) > |f.payload|
    ensures Admit(Initial(), f).1 == Crashed(ShortPayload)
  {
    BootstrapTakesFirst([f]);
    assert Initial().pending + [f] == [f];
  }

  /** The as-written datagram for 100 stereo frames at 48 kHz: it passes the
      filters, and its header announces 200 frames, 800 bytes, for a payload
      of 400. */
  lemma AsWrittenStereoPacket(name: NameBytes, samples: seq<i16>)
    requires |samples| == 200
    ensures var r := BuildPacketAsWritten(SenderConfig(name, 48000, 2), 100, samples, 1);
      && r.Ok?
      && var h := FromBytes(r.value[..HEADER_SIZE]);
      && GetSr(h).Ok? && GetFrameCount(h) == 200 && GetChannels(h) == 2
      && ExpectedBytes(h) == 800 && |r.value| - HEADER_SIZE == 400
      && StepSpec(Initial(), GetStreamName(h), Received(r.value)) == Admit(Initial(), Frame(h, r.value[HEADER_SIZE..]))
  {
    var cfg := SenderConfig(name, 48000, 2);
    var data := SamplesToBytes(samples);
    assert VBAN_SRLIST[3] == 48000;
    assert SmpCountArgAsWritten(100, cfg) == Some(200);
    assert ChannelsArg(cfg) == 2;
    var built := MakeAudioPacket(48000, name, 200, 2, data, I16, 1);
    assert built.Ok?;
    assert BuildPacketAsWritten(cfg, 100, samples, 1) == Ok(built.value);
    assert (200 - 1) % 0x100 == 199;
    AudioPacketHeader(48000, name, 200, 2, data, I16, 1);
    var h := FromBytes(built.value[..HEADER_SIZE]);
    assert GetFrameCount(h) == 200 && GetChannels(h) == 2;
    assert Received(built.value) == built.value;
    AcceptedDatagramIsAdmitted(Initial(), built.value);
  }

  /** The sender as written, two channels and 100 frames at 48 kHz: the
      receiver's first push slices past the payload. */
  lemma AsWrittenStereoPacketCrashesReceiver(name: NameBytes, samples: seq<i16>)
    requires |samples| == 200
    ensures var r := BuildPacketAsWritten(SenderConfig(name, 48000, 2), 100, samples, 1);
      && r.Ok?
      && StepSpec(Initial(), GetStreamName(FromBytes(r.value[..HEADER_SIZE])), Received(r.value)).1 == Crashed(ShortPayload)
  {
    AsWrittenStereoPacket(name, samples);
    var p := BuildPacketAsWritten(SenderConfig(name, 48000, 2), 100, samples, 1).value;
    ShortFirstFrameCrashes(Frame(FromBytes(p[..HEADER_SIZE]), p[HEADER_SIZE..]));
  }

  /** The corrected sender on the same input: the frame is played and all
      400 payload bytes are pushed. */
  lemma CorrectedStereoPacketPlays(name: NameBytes, samples: seq<i16>)
    requires |samples| == 200
    ensures var cfg := SenderConfig(name, 48000, 2);
      var r := BuildPacket(cfg, 100, samples, 1);
      && r.Ok?
      && var h := FromBytes(r.value[..HEADER_SIZE]);
      && StepSpec(Initial(), GetStreamName(h), Received(r.value)).1 == Played(1, true, false)
  {
    var cfg := SenderConfig(name, 48000, 2);
    assert VBAN_SRLIST[3] == 48000;
    var p := BuildPacket(cfg, 100, samples, 1).value;
    var h := FromBytes(p[..HEADER_SIZE]);
    NarrowWriteStaysInSlice(2 * |samples|, 2);
    FirstSentPacketPlaysSamples(GetStreamName(h), cfg, 100, samples, 1);
  }

  /** Up to 722 samples (256 stereo frames, say) the datagram fits the
      receiver's 1472-byte buffer whole. */
  lemma SenderPacketFitsBuffer(cfg: SenderConfig, frames: nat, samples: seq<i16>, seqNum: u32)
    requires frames <= 256
    requires BuildPacket(cfg, frames, samples, seqNum).Ok?
    requires |samples| <= (VBAN_MAX_PACKET_SIZE - HEADER_SIZE) / 2
    ensures Received(BuildPacket(cfg, frames, samples, seqNum).value) == BuildPacket(cfg, frames, samples, seqNum).value
  {
  }

  /** A full chunk from a four-channel device does not fit: the receiver
      keeps 1444 of its 2048 payload bytes, while its header announces all
      2048, so the push would slice past what was kept. */
  lemma FourChannelChunkIsCut(name: NameBytes, samples: seq<i16>)
    requires |samples| == 256 * 4
    ensures var r := BuildPacket(SenderConfig(name, 48000, 4), 256, samples, 1);
      && r.Ok?
      && |Received(r.value)| == VBAN_MAX_PACKET_SIZE < |r.value|
      && ExpectedBytes(FromBytes(r.value[..HEADER_SIZE])) > |Received(r.value)| - HEADER_SIZE
  {
    assert VBAN_SRLIST[3] == 48000;
    CorrectedCountMatchesPayload(SenderConfig(name, 48000, 4), 256, samples, 1);
  }
}
