/**
  Which numbers the jitter buffer gives to missingBetween: every operation that takes packets off the
  list measures the entries that are not marked discontinuous from the entry before them. Measuring
  goes wrong exactly when such an entry is at or behind the one before it, and it never does while
  every packet placed out of range of its predecessor is a partition head.
 */
module JitterLoss {
  import opened Options
  import opened Seq16
  import opened JitterLines
  import opened JitterTypes
  import opened JitterList
  import opened JitterModel
  import S = JitterSafety
  import W = JitterWindow

  predicate Ahead(m: Measure) {
    1 <= Sub(m.sn, m.prevSN) < RANGE
  }

  predicate AtOrBehind(m: Measure) {
    Before(m.sn, m.prevSN)
  }

  /** The number that comes before entry i: that of the entry before it, or the playing position. */
  function Prev(list: seq<Entry>, prevSN: u16, i: nat): u16
    requires i <= |list|
  {
    if i == 0 then prevSN else list[i - 1].SN()
  }

  /** Entry i measured from what comes before it. */
  function At(list: seq<Entry>, prevSN: u16, i: nat): Measure
    requires i < |list|
  {
    Measure(list[i].SN(), Prev(list, prevSN, i))
  }

  // ----- taking packets off

  /** m is the measure of one of the first n entries, which may be measured. */
  ghost predicate Stems(s: Play, n: nat, m: Measure)
    requires n <= |s.list|
  {
    exists i :: 0 <= i < n && !s.list[i].discont && (i > 0 || s.initialized) && m == At(s.list, s.prevSN, i)
  }

  /** Entry i is not marked and does not follow immediately on what comes before it. */
  predicate Gap(s: Play, i: nat)
    requires i < |s.list|
  {
    !s.list[i].discont && s.list[i].SN() != Next(Prev(s.list, s.prevSN, i))
  }

  /** t is s with its first n entries taken off, ms having been measured. */
  ghost predicate Took(s: Play, t: Play, n: nat, ms: seq<Measure>) {
    && n <= |s.list| && t.list == s.list[n..] && t.prevSN == Prev(s.list, s.prevSN, n)
    && (if n == 0 then t.initialized == s.initialized else s.initialized ==> t.initialized)
    && t.log.measured == s.log.measured + ms
    && (forall k :: 0 <= k < |ms| ==> Stems(s, n, ms[k]))
    && (s.initialized ==> forall i :: 0 <= i < n && Gap(s, i) ==> At(s.list, s.prevSN, i) in ms)
  }

  lemma TookNone(s: Play)
    ensures Took(s, s, 0, [])
  {
    assert s.log.measured + [] == s.log.measured;
  }

  lemma Shift(s: Play, t: Play, n: nat, i: nat)
    requires n <= |s.list| && t.list == s.list[n..] && t.prevSN == Prev(s.list, s.prevSN, n) && i < |t.list|
    ensures t.list[i] == s.list[n + i] && Prev(t.list, t.prevSN, i) == Prev(s.list, s.prevSN, n + i)
    ensures At(t.list, t.prevSN, i) == At(s.list, s.prevSN, n + i)
  {
  }

  lemma TookBoth(s: Play, t: Play, u: Play, n: nat, m: nat, ms: seq<Measure>, ns: seq<Measure>)
    requires Took(s, t, n, ms) && Took(t, u, m, ns)
    ensures Took(s, u, n + m, ms + ns)
  {
    hide At, Prev;
    assert s.list[n..][m..] == s.list[n + m..];
    assert (s.log.measured + ms) + ns == s.log.measured + (ms + ns);
    assert u.prevSN == Prev(s.list, s.prevSN, n + m) by { PrevShift(s, t, n, m); }
    forall k | 0 <= k < |ms + ns| ensures Stems(s, n + m, (ms + ns)[k]) {
      if k < |ms| {
        assert Stems(s, n, ms[k]);
      } else {
        assert Stems(t, m, ns[k - |ms|]);
        var i :| 0 <= i < m && !t.list[i].discont && (i > 0 || t.initialized) && ns[k - |ms|] == At(t.list, t.prevSN, i);
        Shift(s, t, n, i);
      }
    }
    if s.initialized {
      forall i | 0 <= i < n + m && Gap(s, i) ensures At(s.list, s.prevSN, i) in ms + ns {
        if i >= n {
          Shift(s, t, n, i - n);
          assert Gap(t, i - n);
        }
      }
    }
  }

  lemma PrevShift(s: Play, t: Play, n: nat, m: nat)
    requires n <= |s.list| && t.list == s.list[n..] && t.prevSN == Prev(s.list, s.prevSN, n) && m <= |t.list|
    ensures Prev(t.list, t.prevSN, m) == Prev(s.list, s.prevSN, n + m)
  {
  }

  lemma DropHeadTakes(s: Play) returns (ms: seq<Measure>)
    requires |s.list| > 0
    ensures Took(s, DropHead(s), 1, ms)
  {
    ms := if s.initialized && !s.list[0].discont then [At(s.list, s.prevSN, 0)] else [];
    assert s.log.measured + [] == s.log.measured;
  }

  /** The play as it is handed to PopSample: measured unless it is in sequence. */
  function Prepared(s: Play): Play
    requires |s.list| > 0
  {
    if InSequence(s) then s else MeasureHead(s)
  }

  lemma SampleTakes(s: Play, expiry: Option<int>) returns (ms: seq<Measure>)
    requires RunLength(s.list) > 0
    ensures Took(s, PopSample(Prepared(s), expiry), RunLength(s.list), ms)
  {
    var k := RunLength(s.list);
    ms := if InSequence(s) then [] else [At(s.list, s.prevSN, 0)];
    assert s.log.measured + [] == s.log.measured;
    forall i | 0 < i < k ensures !Gap(s, i) { assert Succeeds(s.list[i - 1], s.list[i]); }
  }

  lemma {:induction false} DropIncompleteTakes(s: Play, limit: Option<int>) returns (n: nat, ms: seq<Measure>)
    ensures Took(s, DropIncomplete(s, limit), n, ms)
    decreases |s.list|
  {
    hide Took, DropHead;
    n, ms := 0, [];
    TookNone(s);
    if DropIncomplete(s, limit) != s {
      var ks := DropHeadTakes(s);
      n, ms := DropIncompleteTakes(DropHead(s), limit);
      TookBoth(s, DropHead(s), DropIncomplete(s, limit), 1, n, ks, ms);
      n, ms := 1 + n, ks + ms;
    }
  }

  lemma {:induction false} ReleaseTakes(s: Play, expiry: int) returns (n: nat, ms: seq<Measure>)
    ensures Took(s, Release(s, expiry).0, n, ms)
    decreases |s.list|
  {
    hide Took, PopSample;
    n, ms := 0, [];
    TookNone(s);
    if RunLength(s.list) > 0 && (InSequence(s) || s.list[0].ext.receivedAt <= expiry) {
      var t := PopSample(Prepared(s), Some(expiry));
      var ks := SampleTakes(s, Some(expiry));
      n, ms := ReleaseTakes(t, expiry);
      TookBoth(s, t, Release(s, expiry).0, RunLength(s.list), n, ks, ms);
      n, ms := RunLength(s.list) + n, ks + ms;
    }
  }

  lemma {:induction false} DrainTakes(s: Play) returns (n: nat, ms: seq<Measure>)
    ensures Took(s, Drain(s).0, n, ms)
    decreases |s.list|
  {
    hide Took, PopSample, DropIncomplete;
    n, ms := 0, [];
    TookNone(s);
    if RunLength(s.list) > 0 {
      var k, t := RunLength(s.list), PopSample(Prepared(s), None);
      var d := DropIncomplete(t, None);
      var ks := SampleTakes(s, None);
      var m, ns := DropIncompleteTakes(t, None);
      TookBoth(s, t, d, k, m, ks, ns);
      n, ms := DrainTakes(d);
      TookBoth(s, d, Drain(s).0, k + m, n, ks + ns, ms);
      n, ms := k + m + n, ks + ns + ms;
    }
  }

  lemma ReportTakes(s: Play, t: Play, n: nat, ms: seq<Measure>)
    requires Took(s, t, n, ms)
    ensures Took(s, Report(t), n, ms)
  {
  }

  lemma {:induction false} DrainEmpties(s: Play)
    requires |s.list| > 0 ==> RunLength(s.list) > 0
    ensures |Drain(s).0.list| == 0
    decreases |s.list|
  {
    if |s.list| > 0 {
      var t := PopSample(Prepared(s), None);
      S.DropAllStops(t);
      DrainEmpties(DropIncomplete(t, None));
    }
  }

  lemma FlushTakes(s: Play) returns (ms: seq<Measure>)
    ensures Took(s, Flush(s), |s.list|, ms)
  {
    hide Took, DropIncomplete, Drain, RunLength;
    var d := DropIncomplete(s, None);
    var n, ks := DropIncompleteTakes(s, None);
    var m, ns := DrainTakes(d);
    var t := Drain(d).0;
    TookBoth(s, d, t, n, m, ks, ns);
    S.DropAllStops(s);
    DrainEmpties(d);
    ms := ks + ns;
    AllTaken(s, t, n + m, ms);
    ReportTakes(s, t, |s.list|, ms);
  }

  lemma AllTaken(s: Play, t: Play, n: nat, ms: seq<Measure>)
    requires Took(s, t, n, ms) && |t.list| == 0
    ensures n == |s.list|
  {
  }

  lemma PopReadyTakes(s: State, now: int) returns (n: nat, ms: seq<Measure>)
    ensures Took(s.play, PopReady(s, now).play, n, ms)
  {
    hide Took, DropIncomplete, Release, Report;
    var p, expiry := s.play, now - s.latency;
    var d := DropExpired(p, expiry);
    var k, ks := DropIncompleteTakes(p, Some(expiry));
    ReportTakes(p, DropIncomplete(p, Some(expiry)), k, ks);
    var m, ns := ReleaseTakes(d, expiry);
    ReportTakes(d, Release(d, expiry).0, m, ns);
    n, ms := k + m, ks + ns;
    TookBoth(p, d, ReleaseReady(d, expiry), k, m, ks, ns);
  }

  // ----- when a number at or behind is measured

  /** Among the first n entries, one that is not marked is at or behind what comes before it. */
  ghost predicate Backward(s: Play, n: nat)
    requires n <= |s.list|
  {
    exists i :: 0 <= i < n && !s.list[i].discont && AtOrBehind(At(s.list, s.prevSN, i))
  }

  ghost predicate AnyBehind(ms: seq<Measure>) {
    exists m :: m in ms && AtOrBehind(m)
  }

  lemma TookBehind(s: Play, t: Play, n: nat, ms: seq<Measure>)
    requires Took(s, t, n, ms) && s.initialized
    ensures AnyBehind(ms) <==> Backward(s, n)
  {
    if AnyBehind(ms) {
      var m :| m in ms && AtOrBehind(m);
      var k :| 0 <= k < |ms| && ms[k] == m;
      assert Stems(s, n, ms[k]);
    }
    if Backward(s, n) {
      var i :| 0 <= i < n && !s.list[i].discont && AtOrBehind(At(s.list, s.prevSN, i));
      assert Gap(s, i);
    }
  }

  /** Of an initialised buffer a flush measures a number at or behind exactly when an entry of the list is. */
  lemma FlushMeasures(s: Play, t: Play)
    requires s.initialized && t == Flush(s)
    ensures s.log.measured <= t.log.measured
    ensures AnyBehind(t.log.measured[|s.log.measured|..]) <==> Backward(s, |s.list|)
  {
    hide Flush, Backward, AnyBehind;
    var ms := FlushTakes(s);
    TookBehind(s, t, |s.list|, ms);
    assert t.log.measured[|s.log.measured|..] == ms;
  }

  /** The same of popReady, for the entries that it takes off. */
  lemma PopReadyMeasures(s: State, now: int, t: State)
    requires s.play.initialized && t == PopReady(s, now)
    ensures s.play.log.measured <= t.play.log.measured && |t.play.list| <= |s.play.list|
    ensures AnyBehind(t.play.log.measured[|s.play.log.measured|..]) <==> Backward(s.play, |s.play.list| - |t.play.list|)
  {
    hide PopReady, Backward, AnyBehind;
    var n, ms := PopReadyTakes(s, now);
    TookBehind(s.play, t.play, n, ms);
    assert t.play.log.measured[|s.play.log.measured|..] == ms;
  }

  /** Dropping a head measures it exactly when it is neither marked nor the first; then it may be behind. */
  lemma DropHeadMeasures(s: Play, t: Play)
    requires |s.list| > 0 && t == DropHead(s)
    ensures s.log.measured <= t.log.measured
    ensures AnyBehind(t.log.measured[|s.log.measured|..]) <==> s.initialized && Backward(s, 1)
  {
    var ms := DropHeadTakes(s);
    assert t.log.measured[|s.log.measured|..] == ms;
    if s.initialized {
      TookBehind(s, t, 1, ms);
    }
  }

  /** Releasing the sample at the head of an initialised buffer measures a number at or behind exactly when the head is. */
  lemma SampleMeasures(s: Play, expiry: Option<int>, t: Play)
    requires s.initialized && RunLength(s.list) > 0 && t == PopSample(Prepared(s), expiry)
    ensures s.log.measured <= t.log.measured
    ensures AnyBehind(t.log.measured[|s.log.measured|..]) <==> Backward(s, 1)
  {
    var k := RunLength(s.list);
    var ms := SampleTakes(s, expiry);
    assert t.log.measured[|s.log.measured|..] == ms;
    TookBehind(s, t, k, ms);
    forall i | 0 < i < k ensures !AtOrBehind(At(s.list, s.prevSN, i)) { assert Succeeds(s.list[i - 1], s.list[i]); }
  }

  // ----- runs in which every jump is marked

  /** Every entry is marked or 1..2999 ahead of what comes before it; the first of a new stream needs neither. */
  ghost predicate Forward(s: Play) {
    forall i :: 0 <= i < |s.list| && (i > 0 || s.initialized) ==> s.list[i].discont || Ahead(At(s.list, s.prevSN, i))
  }

  /** Forward, and every number measured since the first from measures was 1..2999 ahead. */
  ghost predicate Exact(s: Play, from: nat) {
    && Forward(s)
    && from <= |s.log.measured|
    && forall k :: from <= k < |s.log.measured| ==> Ahead(s.log.measured[k])
  }

  lemma TookExact(s: Play, t: Play, n: nat, ms: seq<Measure>, from: nat)
    requires Took(s, t, n, ms) && Exact(s, from)
    ensures Exact(t, from)
  {
    forall k | from <= k < |t.log.measured| ensures Ahead(t.log.measured[k]) {
      if k >= |s.log.measured| { assert Stems(s, n, ms[k - |s.log.measured|]); }
    }
    forall i | 0 <= i < |t.list| && (i > 0 || t.initialized) ensures t.list[i].discont || Ahead(At(t.list, t.prevSN, i)) {
      Shift(s, t, n, i);
    }
  }

  /** The packet is placed out of range of its predecessor: the packet before it, or the playing position. */
  predicate Jumps(s: Play, sn: u16) {
    if |s.list| == 0 then s.initialized && !WithinRange(sn, s.prevSN)
    else
      var spot := Place(s.list, sn, !s.initialized || !WithinRange(sn, s.prevSN));
      spot.Insert? && spot.discont && (spot.index > 0 || s.initialized)
  }

  /** The packet is discarded on arrival as behind the playing position, or as a duplicate of the first or last waiting. */
  predicate Discarded(s: Play, sn: u16) {
    (s.initialized && Sub(s.prevSN, sn) < 0x8000) || (|s.list| > 0 && (sn == s.list[0].SN() || sn == s.list[|s.list| - 1].SN()))
  }

  lemma {:induction false} FromTailForward(s: Play, sn: u16, i: int)
    requires -1 <= i < |s.list| - 1 && Ahead(Measure(s.list[i + 1].SN(), sn))
    ensures var spot := FromTail(s.list, sn, i);
            spot.Insert? ==>
              && (spot.discont || Ahead(Measure(sn, s.list[spot.index - 1].SN())))
              && Ahead(Measure(s.list[spot.index].SN(), sn))
    decreases i + 1
  {
    if i >= 0 {
      var c := s.list[i].SN();
      if sn != c && Before(sn, c) && WithinRange(sn, c) { FromTailForward(s, sn, i - 1); }
    }
  }

  lemma {:induction false} FromHeadForward(s: Play, sn: u16, i: nat)
    requires Forward(s) && 1 <= i <= |s.list| && Ahead(Measure(sn, s.list[i - 1].SN()))
    ensures var spot := FromHead(s.list, sn, i);
            spot.Insert? ==>
              && Ahead(Measure(sn, s.list[spot.index - 1].SN()))
              && (s.list[spot.index].discont || Ahead(Measure(s.list[spot.index].SN(), sn)))
    decreases |s.list| - i
  {
    if i < |s.list| {
      var c := s.list[i].SN();
      assert s.list[i].discont || Ahead(At(s.list, s.prevSN, i));
      if sn != c && !Before(sn, c) && WithinRange(sn, c) { FromHeadForward(s, sn, i + 1); }
    }
  }

  /** Where a packet goes, what comes before it and what comes after it. */
  lemma PlaceForward(s: Play, sn: u16)
    requires Forward(s) && |s.list| > 0 && !Discarded(s, sn)
    ensures var discont := !s.initialized || !WithinRange(sn, s.prevSN);
            var spot := Place(s.list, sn, discont);
            spot.Insert? ==>
              && (spot.index > 0 || s.initialized ==> spot.discont || Ahead(Measure(sn, Prev(s.list, s.prevSN, spot.index))))
              && (spot.index < |s.list| ==> s.list[spot.index].discont || Ahead(Measure(s.list[spot.index].SN(), sn)))
  {
    var head, tail := s.list[0].SN(), s.list[|s.list| - 1].SN();
    if Before(sn, head) && WithinRange(sn, head) {
    } else if !Before(sn, tail) && WithinRange(sn, tail) {
    } else if WithinRange(sn, tail) {
      FromTailForward(s, sn, |s.list| - 2);
    } else if WithinRange(sn, head) {
      FromHeadForward(s, sn, 1);
    }
  }

  lemma InsertForward(s: Play, i: nat, e: Entry)
    requires Forward(s) && i <= |s.list|
    requires i > 0 || s.initialized ==> e.discont || Ahead(Measure(e.SN(), Prev(s.list, s.prevSN, i)))
    requires i < |s.list| ==> s.list[i].discont || Ahead(Measure(s.list[i].SN(), e.SN()))
    ensures Forward(s.(list := InsertAt(s.list, i, e)))
  {
    var t := s.(list := InsertAt(s.list, i, e));
    forall j | 0 <= j < |t.list| && (j > 0 || t.initialized) ensures t.list[j].discont || Ahead(At(t.list, t.prevSN, j)) {
      if j < i {
        assert s.list[j].discont || Ahead(At(s.list, s.prevSN, j));
      } else if j > i + 1 {
        assert s.list[j - 1].discont || Ahead(At(s.list, s.prevSN, j - 1));
      }
    }
  }

  lemma EnqueueExact(s: Play, pkt: Packet, at: int, from: nat)
    requires Exact(s, from) && !Discarded(s, pkt.sn) && (Jumps(s, pkt.sn) ==> pkt.partitionHead)
    ensures Exact(Enqueue(s, pkt, at), from)
  {
    hide Place, InsertAt;
    var discont := !s.initialized || !WithinRange(pkt.sn, s.prevSN);
    if |s.list| > 0 {
      PlaceForward(s, pkt.sn);
      var spot := Place(s.list, pkt.sn, discont);
      if spot.Insert? { InsertForward(s, spot.index, NewEntry(pkt, at, spot.discont)); }
    }
  }

  /** The play that a packet pushed is admitted to, if it is. */
  function Admitting(s: State, pkt: Packet, at: int): Option<Play> {
    var u := FollowSSRC(s.(play := Arrive(s.play, pkt)), pkt.ssrc);
    if pkt.padding && !s.play.initialized then None
    else if !s.detectRestarts then Some(u.play)
    else if Vote(u.cur, u.alt, pkt.sn, at).accept then Some(AcceptLine(u, pkt.sn, at).play)
    else None
  }

  /** If the packet is placed out of range of its predecessor, it is a partition head. */
  predicate MarksJump(s: State, pkt: Packet, at: int) {
    var p := Admitting(s, pkt, at);
    p.Some? && !Discarded(p.value, pkt.sn) && Jumps(p.value, pkt.sn) ==> pkt.partitionHead
  }

  ghost predicate MarksJumps(s: State, ops: seq<Op>) {
    |ops| > 0 ==>
      var n := |ops| - 1;
      MarksJumps(s, ops[..n]) && (ops[n].PushAt? ==> MarksJump(Steps(s, ops[..n]), ops[n].pkt, ops[n].receivedAt))
  }

  lemma ResetExact(s: Play, from: nat)
    requires Exact(s, from)
    ensures Exact(ResetStream(s), from) && Exact(Flush(s), from)
  {
    var ms := FlushTakes(s);
    TookExact(s, Flush(s), |s.list|, ms, from);
    hide Flush;
  }

  lemma PushExact(s: State, pkt: Packet, at: int, from: nat)
    requires Exact(s.play, from) && MarksJump(s, pkt, at)
    ensures Exact(Push(s, pkt, at).play, from)
  {
    var s0 := s.(play := Arrive(s.play, pkt));
    assert Exact(s0.play, from);
    SameExact(s.play, pkt, from);
    if !(pkt.padding && !s.play.initialized) {
      FollowExact(s0, pkt.ssrc, from);
      hide Exact, FollowSSRC, AcceptLine, Vote, Arrive, Admit, Discarded, Jumps;
      var u := FollowSSRC(s0, pkt.ssrc);
      AcceptExact(u, pkt.sn, at, from);
      var p := Admitting(s, pkt, at);
      if p.Some? { AdmitExact(p.value, pkt, at, from); }
      if u.detectRestarts { StrayExact(AcceptLine(u, pkt.sn, at).play, pkt, from); }
    }
  }

  lemma SameExact(s: Play, pkt: Packet, from: nat)
    requires Exact(s, from)
    ensures Exact(DiscardPadding(Arrive(s, pkt)), from)
  {
  }

  lemma StrayExact(s: Play, pkt: Packet, from: nat)
    requires Exact(s, from)
    ensures Exact(DiscardStray(s, pkt), from)
  {
  }

  lemma FollowExact(s: State, ssrc: int, from: nat)
    requires Exact(s.play, from)
    ensures Exact(FollowSSRC(s, ssrc).play, from)
  {
    hide ResetStream;
    ResetExact(s.play, from);
  }

  lemma AcceptExact(s: State, sn: u16, at: int, from: nat)
    requires Exact(s.play, from)
    ensures Exact(AcceptLine(s, sn, at).play, from)
  {
    hide ResetStream, Vote;
    ResetExact(s.play, from);
  }

  lemma AdmitExact(s: Play, pkt: Packet, at: int, from: nat)
    requires Exact(s, from) && (!Discarded(s, pkt.sn) && Jumps(s, pkt.sn) ==> pkt.partitionHead)
    ensures Exact(Admit(s, pkt, at), from)
  {
    hide Enqueue, Jumps;
    if !Discarded(s, pkt.sn) { EnqueueExact(s, pkt, at, from); }
  }

  lemma StepExact(s: State, op: Op, from: nat)
    requires Exact(s.play, from) && (op.PushAt? ==> MarksJump(s, op.pkt, op.receivedAt))
    ensures Exact(Step(s, op).play, from)
  {
    hide Exact, Push, PopReady, Flush, MarksJump;
    match op
    case PushAt(pkt, at, now) =>
      PushExact(s, pkt, at, from);
      PopReadyExact(Push(s, pkt, at), now, from);
    case Timer(now) => PopReadyExact(s, now, from);
    case FlushAll => ResetExact(s.play, from);
    case UpdateLatency(_) =>
  }

  lemma PopReadyExact(s: State, now: int, from: nat)
    requires Exact(s.play, from)
    ensures Exact(PopReady(s, now).play, from)
  {
    hide Exact, PopReady;
    var n, ms := PopReadyTakes(s, now);
    TookExact(s.play, PopReady(s, now).play, n, ms, from);
  }

  lemma {:induction false} StepsExact(s: State, ops: seq<Op>, from: nat)
    requires Exact(s.play, from) && MarksJumps(s, ops)
    ensures Exact(Steps(s, ops).play, from)
  {
    if |ops| > 0 {
      hide Exact, Step, MarksJump;
      var n := |ops| - 1;
      StepsExact(s, ops[..n], from);
      StepExact(Steps(s, ops[..n]), ops[n], from);
    }
  }

  /**
    In every run in which each packet placed out of range of its predecessor is a partition head, every
    number given to missingBetween is 1..2999 ahead of the playing position.
   */
  lemma MeasuresAhead(latency: int, detectRestarts: bool, ops: seq<Op>, s: State)
    requires MarksJumps(NewBuffer(latency, detectRestarts), ops) && s == Steps(NewBuffer(latency, detectRestarts), ops)
    ensures forall m :: m in s.play.log.measured ==> Ahead(m)
  {
    hide Steps, MarksJumps;
    StepsExact(NewBuffer(latency, detectRestarts), ops, 0);
  }

  lemma {:induction false} HeadsMarkJumps(s: State, ops: seq<Op>)
    requires forall op :: op in ops && op.PushAt? ==> op.pkt.partitionHead
    ensures MarksJumps(s, ops)
  {
    if |ops| > 0 {
      hide Steps, Admitting, Discarded, Jumps;
      HeadsMarkJumps(s, ops[..|ops| - 1]);
      assert ops[|ops| - 1] in ops;
    }
  }

  /** For audio every packet is a partition head, so no run measures a number at or behind the playing position. */
  lemma AudioMeasuresAhead(latency: int, detectRestarts: bool, ops: seq<Op>, s: State)
    requires forall op :: op in ops && op.PushAt? ==> op.pkt.partitionHead
    requires s == Steps(NewBuffer(latency, detectRestarts), ops)
    ensures forall m :: m in s.play.log.measured ==> Ahead(m)
  {
    HeadsMarkJumps(NewBuffer(latency, detectRestarts), ops);
    MeasuresAhead(latency, detectRestarts, ops, s);
  }

  // ----- the window

  lemma WindowForward(s: Play, base: int, tracked: bool)
    requires W.Windowed(s, base, tracked)
    ensures Exact(s, |s.log.measured|)
  {
    forall i | 0 < i < |s.list| ensures Ahead(At(s.list, s.prevSN, i)) {
      W.Compare(s.list[i - 1].SN(), s.list[i].SN(), s.prevSN);
    }
  }

  lemma WindowMarks(s: State, base: int, tracked: bool, pkt: Packet, at: int)
    requires W.InWindow(s, base, tracked) && s.ssrc == Some(pkt.ssrc) && W.Arrives(s.play, base, tracked, pkt)
    ensures MarksJump(s, pkt, at)
  {
    var p := s.play;
    if !Discarded(p, pkt.sn) {
      W.ArrivalPosition(p, base, tracked, pkt);
      if |p.list| > 0 { W.PlaceOrders(p.list, pkt.sn, p.prevSN); }
    }
  }

  lemma {:induction false} WindowMarksJumps(s: State, base: int, tracked: bool, ops: seq<Op>)
    requires W.InWindow(s, base, tracked) && W.StaysInWindow(s, base, tracked, ops)
    ensures MarksJumps(s, ops)
  {
    if |ops| > 0 {
      hide MarksJump, W.InWindow, W.Arrives;
      var n := |ops| - 1;
      WindowMarksJumps(s, base, tracked, ops[..n]);
      W.StepsInWindow(s, base, tracked, ops[..n]);
      if ops[n].PushAt? { WindowMarks(Steps(s, ops[..n]), base, tracked, ops[n].pkt, ops[n].receivedAt); }
    }
  }

  /** So it is in every run in the window, for all that is measured from its start on. */
  lemma WindowMeasuresAhead(s: State, base: int, tracked: bool, ops: seq<Op>, t: State)
    requires W.InWindow(s, base, tracked) && W.StaysInWindow(s, base, tracked, ops) && t == Steps(s, ops)
    ensures forall k :: |s.play.log.measured| <= k < |t.play.log.measured| ==> Ahead(t.play.log.measured[k])
  {
    WindowForward(s.play, base, tracked);
    hide Steps, MarksJumps, W.StaysInWindow, W.InWindow;
    WindowMarksJumps(s, base, tracked, ops);
    StepsExact(s, ops, |s.play.log.measured|);
  }
}
