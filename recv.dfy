/** The receive loop of src/recv.rs, one datagram at a time: the header
    filters, the foreign-name log, the reordering cache (admit, select,
    evict), the output-stream open/reopen decision and the byte slice pushed
    to the device.

    `StepSpec` states one loop iteration as a function of the session state;
    `ReceiveSession.Step` is the loop body over mutable fields and is proved
    to compute exactly `StepSpec`. The lemmas below are about `StepSpec` and
    its parts. A panic ends the process, so a session that panicked is
    `halted` and takes no more datagrams. */
module Receive {
  import opened Wire
  import opened Vban

  const MAX_CACHED_PACKETS: nat := 32

  /** A cached datagram: its decoded header and its own copy of the payload. */
  datatype Frame = Frame(header: Header, payload: seq<u8>)

  /** What the model keeps of an open output stream. */
  datatype StreamParams = StreamParams(rate: int, channels: nat)

  datatype Panic =
    | NotI16                // the `assert_eq!` on the sample format
    | RateIndexOutOfBounds  // `VBAN_SRLIST[21]` inside `get_sr`
    | CountOverflow         // `+ 1` on a `u8` in `get_channels` or `get_frame_count`
    | InvalidRateUnwrap     // `get_sr().unwrap()` while a stream is open
    | ShortPayload          // `bytes_data[0..max_bytes]` past the payload
    | CallbackReadPastEnd   // `read_i16().unwrap()` in the device write callback

  datatype Outcome =
    | Ignored                                        // too short, not VBAN, not PCM or not audio
    | Foreign(name: seq<u8>, logged: bool)           // another stream's name; `logged` on first sight
    | Waiting                                        // cached, nothing selected
    | Played(seqNum: u32, pushed: bool, warnedLong: bool)
    | Crashed(reason: Panic)

  datatype SessionState = SessionState(
    lastPlayedSeq: u32,
    pending: seq<Frame>,
    seenStreamNames: set<seq<u8>>,
    stream: Option<StreamParams>,
    pushed: seq<seq<u8>>,
    halted: bool)

  function Initial(): SessionState {
    SessionState(0, [], {}, None, [], false)
  }

  /** The cache bound kept from one iteration to the next. */
  predicate Bounded(s: SessionState) {
    !s.halted ==> |s.pending| < MAX_CACHED_PACKETS
  }

  // ---------------------------------------------------------------------------
  // Sequence arithmetic

  /** `x as i32` on a `u32`: the same 32 bits read as two's complement. */
  function AsI32(x: u32): (r: i32)
    ensures (r - x) % 0x1_0000_0000 == 0
  {
    if x < 0x8000_0000 then x else x - 0x1_0000_0000
  }

  /** `a - b` on `i32` with wrap-around. */
  function WrapI32(x: int): (r: i32)
    ensures (r - x) % 0x1_0000_0000 == 0
  {
    var m := x % 0x1_0000_0000;
    if m < 0x8000_0000 then m else m - 0x1_0000_0000
  }

  /** `seq as i32 - last as i32`: the i32 congruent to `seq - last` modulo
      2^32, which is the plain difference while both are below 2^31. */
  function SeqDelta(s: u32, last: u32): (d: i32)
    ensures (d - (s - last)) % 0x1_0000_0000 == 0
    ensures s < 0x8000_0000 && last < 0x8000_0000 ==> d == s - last
  {
    WrapI32(AsI32(s) - AsI32(last))
  }

  function SeqOf(f: Frame): u32 {
    GetSeqNum(f.header)
  }

  function DeltaOf(f: Frame, last: u32): i32 {
    SeqDelta(SeqOf(f), last)
  }

  // ---------------------------------------------------------------------------
  // Selection (recv.rs:66-98)

  /** The test of the first scan: the contiguous-next frame, or any frame
      while nothing has been played. */
  predicate IsNext(f: Frame, last: u32) {
    DeltaOf(f, last) == 1 || last == 0
  }

  /** The first scan: index of the first frame that `IsNext` accepts. */
  function FirstNext(cache: seq<Frame>, last: u32): (r: Option<nat>)
    ensures r.Some? ==> r.value < |cache| && IsNext(cache[r.value], last)
    ensures r.Some? ==> forall j :: 0 <= j < r.value ==> !IsNext(cache[j], last)
    ensures r.None? ==> forall j :: 0 <= j < |cache| ==> !IsNext(cache[j], last)
  {
    if cache == [] then None
    else if IsNext(cache[0], last) then Some(0)
    else match FirstNext(cache[1..], last)
      case None => None
      case Some(i) => Some(i + 1)
  }

  /** The smallest delta the second scan has kept so far (`i32::MAX` when it
      has kept nothing). */
  function DeltaMin(cache: seq<Frame>, best: Option<nat>, last: u32): int
    requires best.Some? ==> best.value < |cache|
  {
    if best.None? then I32_MAX else DeltaOf(cache[best.value], last)
  }

  /** The second scan: the frame the loop at recv.rs:85-93 keeps after
      looking at all of `cache`, i.e. the first frame with the smallest
      delta among those with `0 < delta < i32::MAX`. */
  function Closest(cache: seq<Frame>, last: u32): (r: Option<nat>)
    ensures r.Some? ==> r.value < |cache| && 0 < DeltaOf(cache[r.value], last) < I32_MAX
  {
    if cache == [] then None
    else
      var prefix := cache[..|cache| - 1];
      var r0 := Closest(prefix, last);
      assert r0.Some? ==> prefix[r0.value] == cache[r0.value];
      var d := DeltaOf(cache[|cache| - 1], last);
      if 0 < d < DeltaMin(cache, r0, last) then Some(|cache| - 1) else r0
  }

  /** The second scan keeps nothing exactly when no delta is in
      1..`i32::MAX`-1. */
  lemma {:induction false} ClosestNoneIff(cache: seq<Frame>, last: u32)
    ensures Closest(cache, last).None? <==>
      forall j :: 0 <= j < |cache| ==> !(0 < DeltaOf(cache[j], last) < I32_MAX)
  {
    if cache != [] {
      var n := |cache| - 1;
      var prefix := cache[..n];
      ClosestNoneIff(prefix, last);
      assert forall j :: 0 <= j < n ==> prefix[j] == cache[j];
    }
  }

  /** The delta the second scan keeps is the least one in range. */
  lemma {:induction false} ClosestLeastDelta(cache: seq<Frame>, last: u32)
    ensures var r := Closest(cache, last);
      r.Some? ==> forall j :: 0 <= j < |cache| && 0 < DeltaOf(cache[j], last) < I32_MAX ==>
        DeltaOf(cache[r.value], last) <= DeltaOf(cache[j], last)
  {
    if cache != [] {
      var n := |cache| - 1;
      var prefix := cache[..n];
      ClosestLeastDelta(prefix, last);
      ClosestNoneIff(prefix, last);
      assert forall j :: 0 <= j < n ==> prefix[j] == cache[j];
    }
  }

  /** Every earlier position in range has a strictly larger delta, so ties
      go to the first. */
  lemma {:induction false} ClosestFirstLeast(cache: seq<Frame>, last: u32)
    ensures var r := Closest(cache, last);
      r.Some? ==> forall j :: 0 <= j < r.value && 0 < DeltaOf(cache[j], last) < I32_MAX ==>
        DeltaOf(cache[r.value], last) < DeltaOf(cache[j], last)
  {
    if cache != [] {
      var n := |cache| - 1;
      var prefix := cache[..n];
      ClosestFirstLeast(prefix, last);
      ClosestLeastDelta(prefix, last);
      ClosestNoneIff(prefix, last);
      assert forall j :: 0 <= j < n ==> prefix[j] == cache[j];
    }
  }

  /** The three facts about the second scan together. */
  lemma ClosestIsLeast(cache: seq<Frame>, last: u32)
    ensures var r := Closest(cache, last);
      r.Some? ==> forall j :: 0 <= j < |cache| && 0 < DeltaOf(cache[j], last) < I32_MAX ==>
        DeltaOf(cache[r.value], last) <= DeltaOf(cache[j], last)
    ensures var r := Closest(cache, last);
      r.Some? ==> forall j :: 0 <= j < r.value && 0 < DeltaOf(cache[j], last) < I32_MAX ==>
        DeltaOf(cache[r.value], last) < DeltaOf(cache[j], last)
    ensures Closest(cache, last).None? <==>
      forall j :: 0 <= j < |cache| ==> !(0 < DeltaOf(cache[j], last) < I32_MAX)
  {
    ClosestNoneIff(cache, last);
    ClosestLeastDelta(cache, last);
    ClosestFirstLeast(cache, last);
  }

  /** recv.rs:66-98: which cached frame is played, if any. When the forced
      skip finds no frame ahead of the last played one, `header` and
      `bytes_data` still hold the datagram just received, which is the last
      cache entry. */
  function Select(cache: seq<Frame>, last: u32): (r: Option<nat>)
    requires |cache| > 0
    ensures r.Some? ==> r.value < |cache|
    ensures r.None? <==> FirstNext(cache, last).None? && |cache| < MAX_CACHED_PACKETS
  {
    match FirstNext(cache, last)
    case Some(i) => Some(i)
    case None =>
      if |cache| < MAX_CACHED_PACKETS then None
      else match Closest(cache, last)
        case Some(i) => Some(i)
        case None => Some(|cache| - 1)
  }

  // ---------------------------------------------------------------------------
  // Eviction (recv.rs:137-143)

  /** The frames strictly after `last` in unsigned order, in cache order. */
  function Evict(cache: seq<Frame>, last: u32): (r: seq<Frame>)
    ensures |r| <= |cache|
    ensures forall f :: f in r <==> f in cache && SeqOf(f) > last
  {
    if cache == [] then []
    else (if SeqOf(cache[0]) > last then [cache[0]] else []) + Evict(cache[1..], last)
  }

  /** Eviction keeps the cache order: it distributes over concatenation. */
  lemma {:induction false} EvictAppend(a: seq<Frame>, b: seq<Frame>, last: u32)
    ensures Evict(a + b, last) == Evict(a, last) + Evict(b, last)
  {
    if a == [] {
      assert a + b == b;
    } else {
      assert (a + b)[1..] == a[1..] + b;
      EvictAppend(a[1..], b, last);
    }
  }

  /** Removing a frame at or before `last` shrinks the cache. */
  lemma {:induction false} EvictDrops(cache: seq<Frame>, last: u32, i: nat)
    requires i < |cache| && SeqOf(cache[i]) <= last
    ensures |Evict(cache, last)| < |cache|
  {
    if i > 0 {
      EvictDrops(cache[1..], last, i - 1);
    }
  }

  // ---------------------------------------------------------------------------
  // Output stream (recv.rs:102-119) and push (recv.rs:121-134)

  /** The open step (recv.rs:103-111) and the reopen step (recv.rs:114-119):
      the stream afterwards, or the panic that stops them. Off the two
      accessor hazards (rate index 21, channels byte 255) this is the plain
      open/reopen rule over the wide accessors. */
  function StreamAfter(stream: Option<StreamParams>, h: Header): (r: Result<Option<StreamParams>, Panic>)
    ensures SrIndex(h) == |VBAN_SRLIST| ==> r == Err(RateIndexOutOfBounds)
    ensures SrIndex(h) != |VBAN_SRLIST| && stream.None? ==>
      r == (if h.channels == 255 then Err(CountOverflow)
            else if GetSr(h).Err? then Ok(None)
            else Ok(Some(StreamParams(GetSr(h).value, GetChannels(h)))))
    ensures SrIndex(h) != |VBAN_SRLIST| && stream.Some? && GetSr(h).Err? ==> r == Err(InvalidRateUnwrap)
    ensures stream.Some? && GetSr(h).Ok? && GetSr(h).value == stream.value.rate ==> r == Ok(stream)
    ensures stream.Some? && GetSr(h).Ok? && GetSr(h).value != stream.value.rate ==>
      r == (if h.channels == 255 then Err(CountOverflow)
            else Ok(Some(StreamParams(GetSr(h).value, GetChannels(h)))))
  {
    var afterOpen: Result<Option<StreamParams>, Panic> :=
      if stream.Some? then Ok(stream)
      else match GetSrAsWritten(h)
        case IndexOutOfBounds => Err(RateIndexOutOfBounds)
        case InvalidSubprotocol =>
          (match GetChannelsAsWritten(h)
           case None => Err(CountOverflow)
           case Some(_) => Ok(None))
        case Rate(sr) =>
          match GetChannelsAsWritten(h)
          case None => Err(CountOverflow)
          case Some(chans) => Ok(Some(StreamParams(sr, chans)));
    if afterOpen.Err? || afterOpen.value.None? then afterOpen
    else match GetSrAsWritten(h)
      case IndexOutOfBounds => Err(RateIndexOutOfBounds)
      case InvalidSubprotocol => Err(InvalidRateUnwrap)
      case Rate(sr) =>
        if afterOpen.value.value.rate == sr then afterOpen
        else match GetChannelsAsWritten(h)
          case None => Err(CountOverflow)
          case Some(chans) => Ok(Some(StreamParams(sr, chans)))
  }

  /** The bytes a header declares, `frame_count * channels * size_of::<i16>()`,
      computed in a wide type. */
  function ExpectedBytes(h: Header): (n: nat)
    ensures n == (h.smpCount + 1) * (h.channels + 1) * 2
    ensures 2 <= n <= 256 * 256 * 2
  {
    GetFrameCount(h) * GetChannels(h) * 2
  }

  /** `max_bytes` as recv.rs:123-124 computes it: `None` where one of the two
      `u8` accessors overflows, the declared bytes otherwise. */
  function ExpectedBytesAsWritten(h: Header): (r: Option<nat>)
    ensures r.None? <==> h.smpCount == 255 || h.channels == 255
    ensures r.Some? ==> r.value == ExpectedBytes(h)
  {
    match GetFrameCountAsWritten(h)
    case None => None
    case Some(frames) =>
      match GetChannelsAsWritten(h)
      case None => None
      case Some(chans) => Some(frames * chans * 2)
  }

  /** The push (recv.rs:122-133) on an open stream: the slice handed to
      `push_audio_buffer`, or the panic on the way. */
  function Push(h: Header, payload: seq<u8>, st: StreamParams): (r: Result<seq<u8>, Panic>)
    ensures r.Ok? <==> && h.smpCount != 255 && h.channels != 255
                       && ExpectedBytes(h) <= |payload|
                       && !CallbackReadsPastEnd(ExpectedBytes(h), st.channels)
    ensures r.Ok? ==> r.value == payload[..ExpectedBytes(h)]
    ensures h.smpCount == 255 || h.channels == 255 ==> r == Err(CountOverflow)
    ensures h.smpCount != 255 && h.channels != 255 && ExpectedBytes(h) > |payload| ==> r == Err(ShortPayload)
    ensures (&& h.smpCount != 255 && h.channels != 255 && ExpectedBytes(h) <= |payload|
             && CallbackReadsPastEnd(ExpectedBytes(h), st.channels)) ==> r == Err(CallbackReadPastEnd)
  {
    match ExpectedBytesAsWritten(h)
    case None => Err(CountOverflow)
    case Some(n) =>
      if n > |payload| then Err(ShortPayload)
      else if CallbackReadsPastEnd(n, st.channels) then Err(CallbackReadPastEnd)
      else Ok(payload[..n])
  }

  // ---------------------------------------------------------------------------
  // One iteration

  /** recv.rs:100-143 once cache entry `i` has been selected: commit its
      sequence number, open or reopen the stream, push the frame's bytes and
      evict everything up to the committed number. */
  function Commit(s: SessionState, i: nat): (r: (SessionState, Outcome))
    requires !s.halted && i < |s.pending|
    ensures r.1.Played? || r.1.Crashed?
    ensures r.0.halted <==> r.1.Crashed?
    ensures r.0.lastPlayedSeq == SeqOf(s.pending[i])
    ensures r.1.Played? ==> r.1.seqNum == SeqOf(s.pending[i]) && r.0.pending == Evict(s.pending, SeqOf(s.pending[i]))
    ensures r.0.seenStreamNames == s.seenStreamNames
    ensures r.0.pushed == s.pushed ||
      (r.1.Played? && r.1.pushed && |r.0.pushed| == |s.pushed| + 1 && r.0.pushed[..|s.pushed|] == s.pushed)
  {
    var chosen := s.pending[i];
    var last := SeqOf(chosen);
    var s1 := s.(lastPlayedSeq := last);
    match StreamAfter(s.stream, chosen.header)
    case Err(p) => (s1.(halted := true), Crashed(p))
    case Ok(None) => (s1.(pending := Evict(s.pending, last)), Played(last, false, false))
    case Ok(Some(st)) =>
      var s2 := s1.(stream := Some(st));
      match Push(chosen.header, chosen.payload, st)
      case Err(p) => (s2.(halted := true), Crashed(p))
      case Ok(bytes) =>
        (s2.(pending := Evict(s.pending, last), pushed := s.pushed + [bytes]),
         Played(last, true, |bytes| < |chosen.payload|))
  }

  /** recv.rs:63-143 for a frame that passed the filters: cache it, then
      commit the selected entry if there is one. */
  function Admit(s: SessionState, f: Frame): (r: (SessionState, Outcome))
    requires !s.halted
    ensures r.1.Waiting? || r.1.Played? || r.1.Crashed?
    ensures r.0.halted <==> r.1.Crashed?
    ensures r.1.Waiting? ==> r.0 == s.(pending := s.pending + [f])
    ensures r.0.seenStreamNames == s.seenStreamNames
    ensures r.1.Played? ==> r.0.lastPlayedSeq == r.1.seqNum
  {
    var cache := s.pending + [f];
    match Select(cache, s.lastPlayedSeq)
    case None => (s.(pending := cache), Waiting)
    case Some(i) => Commit(s.(pending := cache), i)
  }

  /** recv.rs:39-143: one received datagram. */
  function StepSpec(s: SessionState, target: seq<u8>, d: seq<u8>): (r: (SessionState, Outcome))
    requires !s.halted
    ensures r.0.halted <==> r.1.Crashed?
    ensures r.1.Ignored? ==> r.0 == s
    ensures r.1.Foreign? ==> r.0 == s.(seenStreamNames := s.seenStreamNames + {r.1.name}) && r.1.name != target
    ensures !r.1.Foreign? ==> r.0.seenStreamNames == s.seenStreamNames
    ensures r.1.Played? ==> r.0.lastPlayedSeq == r.1.seqNum
    ensures r.0.pushed == s.pushed || (r.1.Played? && r.1.pushed && |r.0.pushed| == |s.pushed| + 1)
  {
    if |d| < HEADER_SIZE then (s, Ignored)
    else
      var h := FromBytes(d[..HEADER_SIZE]);
      if !IsVban(h) || !IsPcm(h) || !IsAudio(h) then (s, Ignored)
      else
        var name := GetStreamName(h);
        if target != name then
          (s.(seenStreamNames := s.seenStreamNames + {name}), Foreign(name, name !in s.seenStreamNames))
        else if GetBitFormat(h) != I16 then (s.(halted := true), Crashed(NotI16))
        else Admit(s, Frame(h, d[HEADER_SIZE..]))
  }

  // ---------------------------------------------------------------------------
  // The two scans as loops

  /** The first scan (recv.rs:69-78), breaking at the first match. */
  method FindNext(cache: seq<Frame>, last: u32) returns (found: bool, index: nat)
    ensures found <==> FirstNext(cache, last).Some?
    ensures found ==> index == FirstNext(cache, last).value
  {
    found, index := false, 0;
    var i := 0;
    while i < |cache|
      invariant 0 <= i <= |cache|
      invariant forall j :: 0 <= j < i ==> !IsNext(cache[j], last)
    {
      var delta := SeqDelta(SeqOf(cache[i]), last);
      if delta == 1 || last == 0 {
        found, index := true, i;
        FirstNextIsFirst(cache, last, i);
        return;
      }
      i := i + 1;
    }
  }

  /** The forced-skip scan (recv.rs:82-93) with its running `delta_min`;
      `fallback` is the index `header` holds when no frame qualifies. */
  method FindClosest(cache: seq<Frame>, last: u32, fallback: nat) returns (index: nat)
    ensures index == match Closest(cache, last) case Some(i) => i case None => fallback
  {
    index := fallback;
    var deltaMin: int := I32_MAX;
    var best: Option<nat> := None;
    for k := 0 to |cache|
      invariant best == Closest(cache[..k], last)
      invariant best.Some? ==> best.value < k
      invariant deltaMin == DeltaMin(cache, best, last)
      invariant index == if best.Some? then best.value else fallback
    {
      assert cache[..k + 1][..k] == cache[..k];
      assert best.Some? ==> cache[..k][best.value] == cache[best.value];
      var delta := SeqDelta(SeqOf(cache[k]), last);
      if delta > 0 && delta < deltaMin {
        index := k;
        best := Some(k);
        deltaMin := delta;
      }
    }
    assert cache[..|cache|] == cache;
  }

  // ---------------------------------------------------------------------------
  // push_audio_buffer (recv.rs:147-156)

  /** The samples of a little-endian `i16` byte string, in order. */
  function SamplesOf(b: seq<u8>): (r: seq<i16>)
    requires |b| % 2 == 0
    ensures |r| == |b| / 2
    decreases |b|
  {
    if b == [] then [] else SamplesOf(b[..|b| - 2]) + [ReadLeI16(b[|b| - 2..])]
  }

  /** Sample `k` of a decode is the `i16` at bytes `2k`, `2k+1`. */
  lemma {:induction false} SamplesOfAt(b: seq<u8>, k: nat)
    requires |b| % 2 == 0 && k < |b| / 2
    ensures SamplesOf(b)[k] == ReadLeI16(b[2 * k..2 * k + 2])
    decreases |b|
  {
    var init := b[..|b| - 2];
    assert SamplesOf(b) == SamplesOf(init) + [ReadLeI16(b[|b| - 2..])];
    if k < |b| / 2 - 1 {
      SamplesOfAt(init, k);
      assert init[2 * k..2 * k + 2] == b[2 * k..2 * k + 2];
    } else {
      assert |SamplesOf(init)| == k && b[2 * k..2 * k + 2] == b[|b| - 2..];
    }
  }

  /** A sequence that holds the `i16` at bytes `2k`, `2k+1` at each
      position `k` is the decode of the bytes it covers. */
  lemma SamplesOfPointwise(data: seq<u8>, n: nat, s: seq<i16>)
    requires 2 * n <= |data| && |s| == n
    requires forall k :: 0 <= k < n ==> s[k] == ReadLeI16(data[2 * k..2 * k + 2])
    ensures s == SamplesOf(data[..2 * n])
  {
    var b := data[..2 * n];
    forall k | 0 <= k < n
      ensures s[k] == SamplesOf(b)[k]
    {
      SamplesOfAt(b, k);
      assert b[2 * k..2 * k + 2] == data[2 * k..2 * k + 2];
    }
  }

  /** The frame count handed to the device write as written: the sample
      count halved, i.e. the whole two-channel frames in the data. */
  function WriteFrameCountAsWritten(dataLen: nat): (n: nat)
    ensures 4 * n <= dataLen < 4 * (n + 1)
  {
    dataLen / 2 / 2
  }

  /** The frame count the write needs: the sample count over the channels. */
  function WriteFrameCount(dataLen: nat, channels: nat): (n: nat)
    requires channels > 0
    ensures n * channels <= dataLen / 2
  {
    dataLen / 2 / channels
  }

  /** The device buffer the write callback fills: one `i16` per channel per
      frame (the output library's layout for interleaved streams). */
  function DeviceBufferLen(frames: nat, channels: nat): nat {
    frames * channels
  }

  /** The callback as written fills more slots than `dataLen` bytes hold, so
      `DecodeSamples` on those bytes fails. */
  predicate CallbackReadsPastEnd(dataLen: nat, channels: nat) {
    2 * DeviceBufferLen(WriteFrameCountAsWritten(dataLen), channels) > dataLen
  }

  datatype DecodePanic = ReadPastEnd

  /** The callback's loop: fill `outLen` slots with consecutive little-endian
      `i16`s of `data`; `read_i16().unwrap()` panics once `data` runs out. */
  method DecodeSamples(data: seq<u8>, outLen: nat) returns (r: Result<seq<i16>, DecodePanic>)
    ensures r.Ok? <==> 2 * outLen <= |data|
    ensures r.Ok? ==> r.value == SamplesOf(data[..2 * outLen])
  {
    var out := new i16[outLen];
    var i := 0;
    while i < outLen
      invariant 0 <= i <= outLen
      invariant 2 * i <= |data|
      invariant forall k :: 0 <= k < i ==> out[k] == ReadLeI16(data[2 * k..2 * k + 2])
    {
      if 2 * i + 2 > |data| {
        return Err(ReadPastEnd);
      }
      out[i] := ReadLeI16(data[2 * i..2 * i + 2]);
      i := i + 1;
    }
    r := Ok(out[..]);
    SamplesOfPointwise(data, outLen, out[..]);
  }

  /** Mono: for every slice of two or more bytes the write as written takes
      fewer samples than were pushed, at most half of them. */
  lemma MonoWriteDropsHalf(dataLen: nat)
    requires dataLen >= 2
    ensures DeviceBufferLen(WriteFrameCountAsWritten(dataLen), 1) < dataLen / 2
    ensures 2 * DeviceBufferLen(WriteFrameCountAsWritten(dataLen), 1) <= dataLen / 2
    ensures !CallbackReadsPastEnd(dataLen, 1)
  {
  }

  /** One or two channels: the callback as written never reads past the
      slice. */
  lemma NarrowWriteStaysInSlice(dataLen: nat, channels: nat)
    requires channels <= 2
    ensures !CallbackReadsPastEnd(dataLen, channels)
  {
    var n := WriteFrameCountAsWritten(dataLen);
    assert DeviceBufferLen(n, channels) <= 2 * n;
  }

  /** Three or more channels: for every slice of eight or more bytes the
      callback as written needs more bytes than the slice holds, so its
      `unwrap` panics. */
  lemma WideWriteReadsPastEnd(dataLen: nat, channels: nat)
    requires channels >= 3 && dataLen >= 8
    ensures CallbackReadsPastEnd(dataLen, channels)
  {
    var n := WriteFrameCountAsWritten(dataLen);
    assert DeviceBufferLen(n, channels) >= 3 * n;
    assert 6 * n > dataLen;
  }

  /** With the frame count divided by the channel count, a slice of whole
      frames (what a commit pushes) fills the device buffer exactly. */
  lemma WriteCoversWholeFrames(frames: nat, channels: nat)
    requires channels > 0
    ensures var len := frames * channels * 2;
      2 * DeviceBufferLen(WriteFrameCount(len, channels), channels) == len
  {
    var len := frames * channels * 2;
    assert len / 2 == frames * channels;
    assert (frames * channels) / channels == frames;
  }

  /** What `recv_from` leaves in the 1472-byte buffer: a longer datagram is
      cut to the buffer's length. */
  function Received(datagram: seq<u8>): (r: seq<u8>)
    ensures |r| == Min(|datagram|, VBAN_MAX_PACKET_SIZE) && r == datagram[..|r|]
    ensures |datagram| <= VBAN_MAX_PACKET_SIZE ==> r == datagram
  {
    if |datagram| <= VBAN_MAX_PACKET_SIZE then datagram else datagram[..VBAN_MAX_PACKET_SIZE]
  }

  /** The cut keeps the 28-byte header and the first 1444 payload bytes. */
  lemma ReceivedKeepsHeader(d: seq<u8>)
    requires |d| >= HEADER_SIZE
    ensures |Received(d)| >= HEADER_SIZE
    ensures Received(d)[..HEADER_SIZE] == d[..HEADER_SIZE]
    ensures Received(d)[HEADER_SIZE..] == d[HEADER_SIZE..][..Min(|d| - HEADER_SIZE, VBAN_MAX_PACKET_SIZE - HEADER_SIZE)]
  {
    var r := Received(d);
    assert r[HEADER_SIZE..] == d[HEADER_SIZE..|r|];
  }

  // ---------------------------------------------------------------------------
  // The session object

  class ReceiveSession {
    const targetName: seq<u8>
    var lastPlayedSeq: u32
    var pendingFrames: seq<Frame>
    var seenStreamNames: set<seq<u8>>
    var stream: Option<StreamParams>
    var halted: bool
    /** Every byte slice handed to the output device, oldest first. */
    ghost var pushed: seq<seq<u8>>

    ghost function State(): SessionState
      reads this
    {
      SessionState(lastPlayedSeq, pendingFrames, seenStreamNames, stream, pushed, halted)
    }

    ghost predicate Valid()
      reads this
    {
      Bounded(State())
    }

    constructor (streamName: seq<u8>)
      ensures Valid() && targetName == streamName && State() == Initial()
    {
      targetName := streamName;
      lastPlayedSeq := 0;
      pendingFrames := [];
      seenStreamNames := {};
      stream := None;
      halted := false;
      pushed := [];
    }

    method Step(datagram: seq<u8>) returns (outcome: Outcome)
      requires Valid() && !halted
      modifies this
      ensures Valid()
      ensures (State(), outcome) == StepSpec(old(State()), targetName, Received(datagram))
    {
      var buffer := Received(datagram);
      if |buffer| < HEADER_SIZE {
        return Ignored;
      }
      var header := FromBytes(buffer[..HEADER_SIZE]);
      var bytesData := buffer[HEADER_SIZE..];
      if !IsVban(header) || !IsPcm(header) || !IsAudio(header) {
        return Ignored;
      }
      var packetStreamName := GetStreamName(header);
      if targetName != packetStreamName {
        var firstSight := packetStreamName !in seenStreamNames;
        if firstSight {
          seenStreamNames := seenStreamNames + {packetStreamName};
        } else {
          assert seenStreamNames + {packetStreamName} == seenStreamNames;
        }
        return Foreign(packetStreamName, firstSight);
      }
      if GetBitFormat(header) != I16 {
        halted := true;
        return Crashed(NotI16);
      }

      outcome := AdmitFrame(Frame(header, bytesData));
    }

    /** recv.rs:63-98: cache the frame and run the two scans. */
    method AdmitFrame(f: Frame) returns (outcome: Outcome)
      requires Valid() && !halted
      modifies this
      ensures Valid()
      ensures (State(), outcome) == Admit(old(State()), f)
    {
      pendingFrames := pendingFrames + [f];
      var chosen := |pendingFrames| - 1;
      var found, index := FindNext(pendingFrames, lastPlayedSeq);
      if found {
        chosen := index;
      } else if |pendingFrames| >= MAX_CACHED_PACKETS {
        chosen := FindClosest(pendingFrames, lastPlayedSeq, chosen);
      } else {
        return Waiting;
      }
      assert Select(pendingFrames, lastPlayedSeq) == Some(chosen);
      outcome := CommitFrame(chosen);
    }

    /** recv.rs:102-119: open a stream when none is open, reopen it on a
        rate change. A panic leaves the stream as it was. */
    method OpenOrReopen(header: Header) returns (panic: Option<Panic>)
      modifies this
      ensures StreamAfter(old(stream), header).Err? ==>
        panic == Some(StreamAfter(old(stream), header).error) && stream == old(stream)
      ensures StreamAfter(old(stream), header).Ok? ==>
        panic.None? && stream == StreamAfter(old(stream), header).value
      ensures lastPlayedSeq == old(lastPlayedSeq) && pendingFrames == old(pendingFrames)
      ensures seenStreamNames == old(seenStreamNames) && pushed == old(pushed) && halted == old(halted)
    {
      panic := None;
      if stream.None? {
        var srOpt := GetSrAsWritten(header);
        if srOpt.IndexOutOfBounds? {
          return Some(RateIndexOutOfBounds);
        }
        var chans := GetChannelsAsWritten(header);
        if chans.None? {
          return Some(CountOverflow);
        }
        if srOpt.Rate? {
          stream := Some(StreamParams(srOpt.rate, chans.value));
        }
      }
      if stream.Some? {
        var sr := GetSrAsWritten(header);
        if sr.IndexOutOfBounds? {
          return Some(RateIndexOutOfBounds);
        }
        if sr.InvalidSubprotocol? {
          return Some(InvalidRateUnwrap);
        }
        if stream.value.rate != sr.rate {
          var chans := GetChannelsAsWritten(header);
          if chans.None? {
            return Some(CountOverflow);
          }
          stream := Some(StreamParams(sr.rate, chans.value));
        }
      }
    }

    /** recv.rs:100-143. */
    method CommitFrame(chosen: nat) returns (outcome: Outcome)
      requires !halted && chosen < |pendingFrames| <= MAX_CACHED_PACKETS
      modifies this
      ensures Valid()
      ensures (State(), outcome) == Commit(old(State()), chosen)
    {
      var header := pendingFrames[chosen].header;
      var bytesData := pendingFrames[chosen].payload;
      lastPlayedSeq := GetSeqNum(header);

      var panic := OpenOrReopen(header);
      if panic.Some? {
        halted := true;
        return Crashed(panic.value);
      }

      var didPush, warnedLong := false, false;
      if stream.Some? {
        var slice := PushSlice(header, bytesData, stream.value);
        if slice.Err? {
          halted := true;
          return Crashed(slice.error);
        }
        warnedLong := |slice.value| < |bytesData|;
        pushed := pushed + [slice.value];
        didPush := true;
      }

      EvictDrops(pendingFrames, lastPlayedSeq, chosen);
      pendingFrames := Evict(pendingFrames, lastPlayedSeq);
      outcome := Played(lastPlayedSeq, didPush, warnedLong);
    }
  }

  /** recv.rs:122-133 on an open stream: `max_bytes` from the two `u8`
      accessors, the slice, and `push_audio_buffer`'s write callback run on
      it. */
  method PushSlice(header: Header, bytesData: seq<u8>, st: StreamParams) returns (r: Result<seq<u8>, Panic>)
    ensures r == Push(header, bytesData, st)
  {
    var frameCount := GetFrameCountAsWritten(header);
    if frameCount.None? {
      return Err(CountOverflow);
    }
    var chans := GetChannelsAsWritten(header);
    if chans.None? {
      return Err(CountOverflow);
    }
    var maxBytes := frameCount.value * chans.value * 2;
    if maxBytes > |bytesData| {
      return Err(ShortPayload);
    }
    var slice := bytesData[..maxBytes];
    var written := DecodeSamples(slice, DeviceBufferLen(WriteFrameCountAsWritten(|slice|), st.channels));
    if written.Err? {
      return Err(CallbackReadPastEnd);
    }
    r := Ok(slice);
  }

  lemma FirstNextIsFirst(cache: seq<Frame>, last: u32, i: nat)
    requires i < |cache| && IsNext(cache[i], last)
    requires forall j :: 0 <= j < i ==> !IsNext(cache[j], last)
    ensures FirstNext(cache, last) == Some(i)
  {
    var r := FirstNext(cache, last);
    assert r.Some?;
  }
}
