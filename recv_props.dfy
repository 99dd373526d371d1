/** What one iteration of the receive loop, and a run of them, guarantees:
    the filters, the cache bound, the three selection rules, eviction, the
    stream lifecycle, the pushed bytes, and delivery order for in-order,
    reordered and lossy arrivals. */
module ReceiveProperties {
  import opened Wire
  import opened Vban
  import opened Receive

  const WRAP: nat := 0x8000_0000

  // ---------------------------------------------------------------------------
  // Filters (recv.rs:39-60)

  /** A datagram that is too short, lacks the magic, is not PCM or is not
      audio leaves every part of the session as it was. */
  lemma RejectedDatagramChangesNothing(s: SessionState, target: seq<u8>, d: seq<u8>)
    requires !s.halted
    requires |d| < HEADER_SIZE || d[..4] != VBAN_MAGIC || d[7] >= 8 || d[4] >= 0x20
    ensures StepSpec(s, target, d) == (s, Ignored)
  {
    if |d| >= HEADER_SIZE {
      FiltersOnWire(d[..HEADER_SIZE]);
      assert d[..HEADER_SIZE][..4] == d[..4];
    }
  }

  /** A datagram of another stream is neither cached nor played: only its
      name joins the seen set, and it is logged only on first sight. */
  lemma ForeignDatagramOnlyRecordsName(s: SessionState, target: seq<u8>, d: seq<u8>)
    requires !s.halted && |d| >= HEADER_SIZE
    requires var h := FromBytes(d[..HEADER_SIZE]);
      IsVban(h) && IsPcm(h) && IsAudio(h) && GetStreamName(h) != target
    ensures var name := GetStreamName(FromBytes(d[..HEADER_SIZE]));
      StepSpec(s, target, d) ==
        (s.(seenStreamNames := s.seenStreamNames + {name}), Foreign(name, name !in s.seenStreamNames))
  {
  }

  /** A datagram of the target stream whose sample format is not `I16`
      passes the filters and stops the receiver at the format assertion. */
  lemma NonI16DatagramCrashes(s: SessionState, d: seq<u8>)
    requires !s.halted && |d| >= HEADER_SIZE
    requires var h := FromBytes(d[..HEADER_SIZE]);
      IsVban(h) && IsPcm(h) && IsAudio(h) && GetBitFormat(h) != I16
    ensures StepSpec(s, GetStreamName(FromBytes(d[..HEADER_SIZE])), d) == (s.(halted := true), Crashed(NotI16))
  {
  }

  /** A commit on a cache of at most 32 entries leaves fewer than 32 (the
      chosen entry is always evicted) and pushes at most one slice. */
  lemma CommitKeepsCacheBound(s: SessionState, i: nat)
    requires !s.halted && i < |s.pending| <= MAX_CACHED_PACKETS
    ensures var r := Commit(s, i);
      && Bounded(r.0)
      && (r.0.pushed == s.pushed || (r.1.Played? && r.1.pushed && |r.0.pushed| == |s.pushed| + 1))
  {
    EvictDrops(s.pending, SeqOf(s.pending[i]), i);
  }

  /** A datagram of the target stream in `I16` format that passes the
      filters goes to the cache as its header and payload. */
  lemma AcceptedDatagramIsAdmitted(s: SessionState, d: seq<u8>)
    requires !s.halted && |d| >= HEADER_SIZE
    requires var h := FromBytes(d[..HEADER_SIZE]);
      IsVban(h) && IsPcm(h) && IsAudio(h) && GetBitFormat(h) == I16
    ensures var h := FromBytes(d[..HEADER_SIZE]);
      StepSpec(s, GetStreamName(h), d) == Admit(s, Frame(h, d[HEADER_SIZE..]))
  {
  }

  /** One iteration keeps the cache below 32 entries and pushes at most one
      slice. */
  lemma StepKeepsCacheBound(s: SessionState, target: seq<u8>, d: seq<u8>)
    requires !s.halted && Bounded(s)
    ensures var r := StepSpec(s, target, d);
      && Bounded(r.0)
      && (r.0.pushed == s.pushed || (r.1.Played? && r.1.pushed && |r.0.pushed| == |s.pushed| + 1))
  {
    if |d| >= HEADER_SIZE {
      var h := FromBytes(d[..HEADER_SIZE]);
      if IsVban(h) && IsPcm(h) && IsAudio(h) && GetStreamName(h) == target && GetBitFormat(h) == I16 {
        var f := Frame(h, d[HEADER_SIZE..]);
        var cache := s.pending + [f];
        var sel := Select(cache, s.lastPlayedSeq);
        if sel.Some? {
          CommitKeepsCacheBound(s.(pending := cache), sel.value);
        }
      }
    }
  }

  // ---------------------------------------------------------------------------
  // Selection rules (recv.rs:66-98)

  /** Bootstrap: while nothing has been played, the first cache entry is
      taken, whatever its sequence number. */
  lemma BootstrapTakesFirst(cache: seq<Frame>)
    requires |cache| > 0
    ensures Select(cache, 0) == Some(0)
  {
  }

  /** The first frame of a session that passes the filters is committed at
      once. It is played, and pushed when its rate is in the table, unless
      one of the panics on the way stops the receiver: rate index 21, a
      count byte of 255, a payload shorter than declared, or a write
      callback that needs more bytes than the slice holds. */
  lemma FirstFrameOfSessionPlays(f: Frame)
    ensures var h := f.header; var n := ExpectedBytes(h); var r := Admit(Initial(), f);
      && r.0.lastPlayedSeq == SeqOf(f)
      && r.1 ==
        (if SrIndex(h) == |VBAN_SRLIST| then Crashed(RateIndexOutOfBounds)
         else if h.channels == 255 then Crashed(CountOverflow)
         else if GetSr(h).Err? then Played(SeqOf(f), false, false)
         else if h.smpCount == 255 then Crashed(CountOverflow)
         else if n > |f.payload| then Crashed(ShortPayload)
         else if CallbackReadsPastEnd(n, GetChannels(h)) then Crashed(CallbackReadPastEnd)
         else Played(SeqOf(f), true, n < |f.payload|))
      && (r.1.Played? && r.1.pushed ==> r.0.pushed == [f.payload[..n]])
  {
    BootstrapTakesFirst([f]);
    assert Initial().pending + [f] == [f];
  }

  /** Contiguous-next: when something has been played, the first entry whose
      delta is exactly 1 is taken; below 2^31 that is the entry numbered
      one past the last played. */
  lemma ContiguousTakesFirstSuccessor(cache: seq<Frame>, last: u32, i: nat)
    requires last != 0 && i < |cache| && DeltaOf(cache[i], last) == 1
    requires forall j :: 0 <= j < i ==> DeltaOf(cache[j], last) != 1
    ensures Select(cache, last) == Some(i)
    ensures last < WRAP && SeqOf(cache[i]) < WRAP ==> SeqOf(cache[i]) == last + 1
  {
    FirstNextIsFirst(cache, last, i);
  }

  /** Wait: without a contiguous entry and with fewer than 32 entries,
      nothing is played and the last played number stays put. */
  lemma WaitKeepsLast(s: SessionState, f: Frame)
    requires !s.halted
    requires FirstNext(s.pending + [f], s.lastPlayedSeq).None?
    requires |s.pending| + 1 < MAX_CACHED_PACKETS
    ensures Admit(s, f) == (s.(pending := s.pending + [f]), Waiting)
  {
  }

  /** Forced skip: with 32 entries and none contiguous, the entry with the
      smallest positive delta is taken, the earliest of equals. */
  lemma ForcedSkipTakesClosest(cache: seq<Frame>, last: u32, i: nat)
    requires |cache| >= MAX_CACHED_PACKETS
    requires FirstNext(cache, last).None?
    requires i < |cache| && Select(cache, last) == Some(i)
    requires exists j :: 0 <= j < |cache| && 0 < DeltaOf(cache[j], last) < I32_MAX
    ensures 0 < DeltaOf(cache[i], last)
    ensures forall j :: 0 <= j < |cache| && 0 < DeltaOf(cache[j], last) < I32_MAX ==>
      DeltaOf(cache[i], last) <= DeltaOf(cache[j], last)
    ensures forall j :: 0 <= j < i && 0 < DeltaOf(cache[j], last) < I32_MAX ==>
      DeltaOf(cache[i], last) < DeltaOf(cache[j], last)
  {
    ClosestIsLeast(cache, last);
  }

  // ---------------------------------------------------------------------------
  // Commit and eviction (recv.rs:100, recv.rs:137-143)

  /** After a commit the last played number is the chosen entry's, and the
      cache keeps exactly the entries numbered after it, in cache order. */
  lemma CommitEvictsUpToChosen(s: SessionState, i: nat)
    requires !s.halted && i < |s.pending|
    requires Commit(s, i).1.Played?
    ensures var r := Commit(s, i);
      && r.0.lastPlayedSeq == SeqOf(s.pending[i]) == r.1.seqNum
      && r.0.pending == Evict(s.pending, r.0.lastPlayedSeq)
      && (forall f :: f in r.0.pending <==> f in s.pending && SeqOf(f) > r.0.lastPlayedSeq)
      && s.pending[i] !in r.0.pending
  {
  }

  /** Below 2^31 the signed delta and the unsigned comparison agree. */
  lemma SignedDeltaMatchesUnsignedBelowWrap(x: u32, last: u32)
    requires x < WRAP && last < WRAP
    ensures SeqDelta(x, last) > 0 <==> x > last
    ensures SeqDelta(x, last) == 1 <==> x == last + 1
  {
  }

  /** At the top of the `u32` range they disagree: sequence 0 after
      0xFFFF_FFFF is contiguous-next by the signed delta, yet it is not after
      it by the unsigned comparison. Committing it sets the last played
      number to 0, the bootstrap value, so the next commit takes whatever
      frame is first in the cache. */
  lemma CounterWrapReentersBootstrap(s: SessionState, f: Frame, next: seq<Frame>)
    requires !s.halted && s.lastPlayedSeq == 0xFFFF_FFFF && s.pending == [] && SeqOf(f) == 0
    requires |next| > 0
    ensures SeqDelta(SeqOf(f), s.lastPlayedSeq) == 1 && !(SeqOf(f) > s.lastPlayedSeq)
    ensures Select([f], s.lastPlayedSeq) == Some(0)
    ensures var r := Admit(s, f);
      && r.0.lastPlayedSeq == 0
      && Select(next, r.0.lastPlayedSeq) == Some(0)
  {
    assert s.pending + [f] == [f];
    assert IsNext([f][0], s.lastPlayedSeq);
  }

  predicate AllBelowWrap(s: SessionState, f: Frame) {
    && s.lastPlayedSeq < WRAP && SeqOf(f) < WRAP
    && forall g :: g in s.pending ==> SeqOf(g) < WRAP
  }

  /** Every committed outcome names the chosen entry and records it as the
      last played number. */
  lemma CommitRecordsChosen(s: SessionState, i: nat)
    requires !s.halted && i < |s.pending|
    ensures Commit(s, i).0.lastPlayedSeq == SeqOf(s.pending[i])
    ensures Commit(s, i).1.Played? ==> Commit(s, i).1.seqNum == SeqOf(s.pending[i])
  {
  }

  /** Below 2^31, once something has been played, the selected entry is
      numbered after the last played one whenever some cached entry is. */
  lemma SelectAdvances(cache: seq<Frame>, last: u32, j: nat)
    requires |cache| > 0 && last != 0 && last < WRAP
    requires forall k :: 0 <= k < |cache| ==> SeqOf(cache[k]) < WRAP
    requires j < |cache| && SeqOf(cache[j]) > last
    ensures var sel := Select(cache, last); sel.Some? ==> SeqOf(cache[sel.value]) > last
  {
    match FirstNext(cache, last)
    case Some(k) =>
    case None =>
      if |cache| >= MAX_CACHED_PACKETS {
        assert 0 < DeltaOf(cache[j], last) < I32_MAX;
        ClosestIsLeast(cache, last);
      }
  }

  /** Below 2^31, once something has been played, a played frame is
      numbered after the last one whenever some cached frame is. */
  lemma PlayedFrameAdvances(s: SessionState, f: Frame, j: nat)
    requires !s.halted && s.lastPlayedSeq != 0 && s.lastPlayedSeq < WRAP
    requires forall k :: 0 <= k < |s.pending| ==> SeqOf(s.pending[k]) < WRAP
    requires SeqOf(f) < WRAP
    requires j < |s.pending| + 1 && SeqOf((s.pending + [f])[j]) > s.lastPlayedSeq
    ensures Admit(s, f).0.lastPlayedSeq >= s.lastPlayedSeq
    ensures Admit(s, f).1.Played? ==> Admit(s, f).1.seqNum > s.lastPlayedSeq
  {
    var cache := s.pending + [f];
    assert forall k :: 0 <= k < |cache| ==> SeqOf(cache[k]) < WRAP by {
      forall k | 0 <= k < |cache| ensures SeqOf(cache[k]) < WRAP {
        if k < |s.pending| { assert cache[k] == s.pending[k]; }
      }
    }
    SelectAdvances(cache, s.lastPlayedSeq, j);
    var sel := Select(cache, s.lastPlayedSeq);
    if sel.Some? {
      CommitRecordsChosen(s.(pending := cache), sel.value);
    }
  }

  /** The last played number can move backwards: when 32 frames are cached and none is ahead of the last played one,
      the datagram just received is committed even though it is older. */
  lemma StaleBurstMovesLastBackwards(s: SessionState, f: Frame)
    requires !s.halted && s.lastPlayedSeq == 100
    requires |s.pending| == MAX_CACHED_PACKETS - 1
    requires forall j :: 0 <= j < |s.pending| ==> SeqOf(s.pending[j]) == 5
    requires SeqOf(f) == 3
    ensures Admit(s, f).0.lastPlayedSeq == 3
  {
    var cache := s.pending + [f];
    assert forall j :: 0 <= j < |cache| ==> SeqOf(cache[j]) < 100;
    assert forall j :: 0 <= j < |cache| ==> !IsNext(cache[j], 100);
    ClosestIsLeast(cache, 100);
    assert Closest(cache, 100).None?;
    assert Select(cache, 100) == Some(|cache| - 1);
  }

  // ---------------------------------------------------------------------------
  // Stream lifecycle and push (recv.rs:102-134)

  /** A frame committed with a stream open: a count byte of 255 overflows;
      otherwise a payload shorter than frame_count * channels * 2 bytes
      panics on the slice, and a write callback that needs more bytes than
      that panics in the device; otherwise exactly those first bytes are
      pushed, and a longer payload only warns. */
  lemma CommitPushesDeclaredBytes(s: SessionState, i: nat)
    requires !s.halted && i < |s.pending|
    requires var h := s.pending[i].header; StreamAfter(s.stream, h).Ok? && StreamAfter(s.stream, h).value.Some?
    ensures var f := s.pending[i]; var h := f.header; var n := ExpectedBytes(h); var r := Commit(s, i);
      var st := StreamAfter(s.stream, h).value.value;
      && (h.smpCount == 255 || h.channels == 255 ==> r.1 == Crashed(CountOverflow))
      && (h.smpCount != 255 && h.channels != 255 ==>
            && (r.1 == Crashed(ShortPayload) <==> n > |f.payload|)
            && (n <= |f.payload| && CallbackReadsPastEnd(n, st.channels) ==> r.1 == Crashed(CallbackReadPastEnd))
            && (n <= |f.payload| && !CallbackReadsPastEnd(n, st.channels) ==>
                  && r.1 == Played(SeqOf(f), true, n < |f.payload|)
                  && r.0.pushed == s.pushed + [f.payload[..n]]
                  && r.0.stream == Some(st)))
  {
  }

  /** Frames at one rate leave the stream as it is; the first frame at a new
      rate reopens it once with that frame's rate and channels. */
  lemma RateChangeReopensOnce(st: StreamParams, h1: Header, h2: Header)
    requires GetSr(h1) == Ok(st.rate)
    requires GetSr(h2).Ok? && GetSr(h2).value != st.rate
    ensures StreamAfter(Some(st), h1) == Ok(Some(st))
    ensures StreamAfter(Some(st), h2) ==
      if h2.channels == 255 then Err(CountOverflow)
      else Ok(Some(StreamParams(GetSr(h2).value, GetChannels(h2))))
    ensures StreamAfter(Some(st), h2).Ok? ==>
      StreamAfter(StreamAfter(Some(st), h2).value, h2) == StreamAfter(Some(st), h2)
  {
  }

  // ---------------------------------------------------------------------------
  // Runs of frames

  /** The loop fed with frames that pass the filters, until it panics. */
  function RunFrames(s: SessionState, fs: seq<Frame>): (r: (SessionState, seq<Outcome>))
    ensures |r.1| <= |fs|
    decreases |fs|
  {
    if fs == [] || s.halted then (s, [])
    else
      var step := Admit(s, fs[0]);
      var rest := RunFrames(step.0, fs[1..]);
      (rest.0, [step.1] + rest.1)
  }

  /** A frame the receiver as written can take: its rate is in the table,
      it has one or two channels, its sample-count byte is not 255, and its
      payload holds the samples its header declares. */
  predicate Playable(f: Frame) {
    && GetSr(f.header).Ok? && GetChannels(f.header) <= 2 && f.header.smpCount != 255
    && ExpectedBytes(f.header) <= |f.payload|
  }

  /** No stream is open, or the open one has one or two channels, so the
      write callback as written stays inside the slice. */
  predicate StreamFits(s: SessionState) {
    s.stream.None? || s.stream.value.channels <= 2
  }

  /** Committing a playable entry plays and pushes it, opening or reopening
      the stream as needed, and evicts up to its number. */
  lemma CommitPlayable(s: SessionState, i: nat)
    requires !s.halted && i < |s.pending| && Playable(s.pending[i]) && StreamFits(s)
    ensures var f := s.pending[i]; var r := Commit(s, i);
      && r.1 == Played(SeqOf(f), true, ExpectedBytes(f.header) < |f.payload|)
      && !r.0.halted && r.0.lastPlayedSeq == SeqOf(f) && StreamFits(r.0)
      && r.0.pending == Evict(s.pending, SeqOf(f))
      && r.0.pushed == s.pushed + [f.payload[..ExpectedBytes(f.header)]]
  {
    var h := s.pending[i].header;
    var st := StreamAfter(s.stream, h).value.value;
    NarrowWriteStaysInSlice(ExpectedBytes(h), st.channels);
  }

  /** One in-order frame on an empty cache is played and pushed, and the
      cache stays empty. */
  lemma InOrderFramePlays(s: SessionState, f: Frame)
    requires !s.halted && s.pending == [] && Playable(f) && StreamFits(s)
    requires SeqOf(f) == s.lastPlayedSeq + 1 < WRAP
    ensures var r := Admit(s, f);
      && r.1.Played? && r.1.seqNum == SeqOf(f) && r.1.pushed
      && !r.0.halted && r.0.pending == [] && r.0.lastPlayedSeq == SeqOf(f) && StreamFits(r.0)
  {
    var cache := [f];
    assert s.pending + [f] == cache;
    assert IsNext(cache[0], s.lastPlayedSeq);
    assert Select(cache, s.lastPlayedSeq) == Some(0);
    CommitPlayable(s.(pending := cache), 0);
    assert Evict(cache, SeqOf(f)) == [];
  }

  /** Frames numbered consecutively after the last played one, arriving in
      order, are each played on arrival, in that order. */
  lemma {:induction false} InOrderDelivery(s: SessionState, fs: seq<Frame>)
    requires !s.halted && s.pending == [] && StreamFits(s)
    requires s.lastPlayedSeq + |fs| < WRAP
    requires forall k :: 0 <= k < |fs| ==> Playable(fs[k]) && SeqOf(fs[k]) == s.lastPlayedSeq + 1 + k
    ensures var r := RunFrames(s, fs);
      && |r.1| == |fs|
      && (forall k :: 0 <= k < |fs| ==> r.1[k].Played? && r.1[k].pushed && r.1[k].seqNum == s.lastPlayedSeq + 1 + k)
      && !r.0.halted && r.0.pending == [] && r.0.lastPlayedSeq == s.lastPlayedSeq + |fs|
    decreases |fs|
  {
    if fs != [] {
      InOrderFramePlays(s, fs[0]);
      var (s1, o1) := Admit(s, fs[0]);
      var tail := fs[1..];
      forall k | 0 <= k < |tail|
        ensures Playable(tail[k]) && SeqOf(tail[k]) == s1.lastPlayedSeq + 1 + k
      {
        assert tail[k] == fs[k + 1];
      }
      InOrderDelivery(s1, tail);
      var rest := RunFrames(s1, tail);
      var outs := [o1] + rest.1;
      assert RunFrames(s, fs) == (rest.0, outs);
      forall k | 0 <= k < |fs|
        ensures outs[k].Played? && outs[k].pushed && outs[k].seqNum == s.lastPlayedSeq + 1 + k
      {
        if k > 0 {
          assert outs[k] == rest.1[k - 1];
        }
      }
    }
  }

  /** L+2 arriving first on an empty cache waits. */
  lemma SwapFirstWaits(s: SessionState, a: Frame)
    requires !s.halted && s.pending == [] && s.lastPlayedSeq != 0
    requires s.lastPlayedSeq + 2 < WRAP && SeqOf(a) == s.lastPlayedSeq + 2
    ensures Admit(s, a) == (s.(pending := [a]), Waiting)
  {
    assert s.pending + [a] == [a];
    assert !IsNext([a][0], s.lastPlayedSeq);
  }

  /** L+1 arriving behind L+2 is played, and L+2 stays cached. */
  lemma SwapSecondPlays(s: SessionState, a: Frame, b: Frame)
    requires !s.halted && s.pending == [a] && s.lastPlayedSeq != 0 && StreamFits(s)
    requires s.lastPlayedSeq + 2 < WRAP
    requires SeqOf(a) == s.lastPlayedSeq + 2 && SeqOf(b) == s.lastPlayedSeq + 1 && Playable(b)
    ensures var r := Admit(s, b);
      && r.1.Played? && r.1.seqNum == s.lastPlayedSeq + 1
      && !r.0.halted && r.0.pending == [a] && r.0.lastPlayedSeq == s.lastPlayedSeq + 1 && StreamFits(r.0)
  {
    var last := s.lastPlayedSeq;
    var cache := [a, b];
    assert s.pending + [b] == cache;
    assert !IsNext(cache[0], last) && IsNext(cache[1], last);
    FirstNextIsFirst(cache, last, 1);
    CommitPlayable(s.(pending := cache), 1);
    assert Evict(cache, last + 1) == [a] by {
      assert cache[1..] == [b];
      assert Evict([b], last + 1) == [];
    }
  }

  /** L+3 arriving behind the cached L+2 releases L+2 and is cached. */
  lemma SwapThirdReleasesHeld(s: SessionState, a: Frame, c: Frame)
    requires !s.halted && s.pending == [a] && s.lastPlayedSeq != 0 && StreamFits(s)
    requires s.lastPlayedSeq + 2 < WRAP
    requires SeqOf(a) == s.lastPlayedSeq + 1 && SeqOf(c) == s.lastPlayedSeq + 2 && Playable(a)
    ensures var r := Admit(s, c);
      && r.1.Played? && r.1.seqNum == s.lastPlayedSeq + 1 && r.0.pending == [c]
  {
    var cache := [a, c];
    assert s.pending + [c] == cache;
    assert IsNext(cache[0], s.lastPlayedSeq);
    CommitPlayable(s.(pending := cache), 0);
    assert Evict(cache, s.lastPlayedSeq + 1) == [c] by {
      assert cache[1..] == [c];
      assert Evict([c], s.lastPlayedSeq + 1) == [c];
    }
  }

  /** One step of `RunFrames` on a live session. */
  lemma RunFramesStep(s: SessionState, f: Frame, rest: seq<Frame>, next: SessionState, o: Outcome)
    requires !s.halted && Admit(s, f) == (next, o)
    ensures RunFrames(s, [f] + rest) == (RunFrames(next, rest).0, [o] + RunFrames(next, rest).1)
  {
    assert ([f] + rest)[1..] == rest;
  }

  /** A single adjacent swap (L+2 arrives before L+1) with the cache below
      32: L+2 waits, L+1 is played on its arrival, and L+2 on the next. */
  lemma AdjacentSwapDeliveredInOrder(s: SessionState, a: Frame, b: Frame, c: Frame)
    requires !s.halted && s.pending == [] && s.lastPlayedSeq != 0 && StreamFits(s)
    requires s.lastPlayedSeq + 3 < WRAP
    requires SeqOf(a) == s.lastPlayedSeq + 2 && SeqOf(b) == s.lastPlayedSeq + 1
    requires SeqOf(c) == s.lastPlayedSeq + 3
    requires Playable(a) && Playable(b) && Playable(c)
    ensures var r := RunFrames(s, [a, b, c]);
      && |r.1| == 3 && r.1[0] == Waiting
      && r.1[1].Played? && r.1[1].seqNum == s.lastPlayedSeq + 1
      && r.1[2].Played? && r.1[2].seqNum == s.lastPlayedSeq + 2
      && r.0.pending == [c]
  {
    SwapFirstWaits(s, a);
    var s1 := Admit(s, a).0;
    SwapSecondPlays(s1, a, b);
    var s2 := Admit(s1, b).0;
    SwapThirdReleasesHeld(s2, a, c);
    RunThree(s, a, b, c);
  }

  /** Three frames on a session that none of the first two halts. */
  lemma RunThree(s: SessionState, a: Frame, b: Frame, c: Frame)
    requires !s.halted && !Admit(s, a).0.halted && !Admit(Admit(s, a).0, b).0.halted
    ensures var s1 := Admit(s, a).0; var s2 := Admit(s1, b).0;
      RunFrames(s, [a, b, c]) == (Admit(s2, c).0, [Admit(s, a).1, Admit(s1, b).1, Admit(s2, c).1])
  {
    var (s1, o1) := Admit(s, a);
    var (s2, o2) := Admit(s1, b);
    var (s3, o3) := Admit(s2, c);
    assert RunFrames(s3, []) == (s3, []);
    RunFramesStep(s2, c, [], s3, o3);
    assert [c] + [] == [c];
    RunFramesStep(s1, b, [c], s2, o2);
    assert [b] + [c] == [b, c];
    RunFramesStep(s, a, [b, c], s1, o1);
    assert [a] + [b, c] == [a, b, c];
    assert [o1] + ([o2] + ([o3] + [])) == [o1, o2, o3];
  }

  /** A permanently lost L+1 with L+2 .. L+32 cached and L+33 arriving: the
      cache reaches 32 and L+2 is played, skipping the gap. */
  lemma PermanentLossSkipped(s: SessionState, f: Frame)
    requires !s.halted && s.lastPlayedSeq != 0
    requires s.lastPlayedSeq + 33 < WRAP
    requires |s.pending| == MAX_CACHED_PACKETS - 1
    requires forall k :: 0 <= k < |s.pending| ==> SeqOf(s.pending[k]) == s.lastPlayedSeq + 2 + k
    requires SeqOf(f) == s.lastPlayedSeq + 33
    ensures Select(s.pending + [f], s.lastPlayedSeq) == Some(0)
    ensures Admit(s, f).0.lastPlayedSeq == s.lastPlayedSeq + 2
  {
    var cache := s.pending + [f];
    var last := s.lastPlayedSeq;
    assert forall j :: 0 <= j < |cache| ==> SeqOf(cache[j]) == last + 2 + j;
    assert forall j :: 0 <= j < |cache| ==> DeltaOf(cache[j], last) == 2 + j;
    assert FirstNext(cache, last).None?;
    ClosestIsLeast(cache, last);
    var i := Closest(cache, last).value;
    assert DeltaOf(cache[i], last) <= DeltaOf(cache[0], last);
  }
}
