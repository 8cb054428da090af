/**
  Exact accounting and ordering of the jitter buffer while the stream stays in a window: one SSRC,
  line detection off, and every packet either expired on arrival or 1..2999 ahead of the playing position.
 */
module JitterWindow {
  import opened Options
  import opened Seq16
  import opened JitterTypes
  import opened JitterList
  import opened JitterModel

  /** Every entry is ahead of the playing position, each further ahead than the one before it. */
  ghost predicate Ascending(list: seq<Entry>, from: u16) {
    && (forall i :: 0 <= i < |list| ==> !list[i].discont && 1 <= Sub(list[i].SN(), from) < RANGE)
    && (forall i, j :: 0 <= i < j < |list| ==> Sub(list[i].SN(), from) < Sub(list[j].SN(), from))
  }

  /** Packets in strictly ascending order of the sender's extended sequence numbers, none beyond top. */
  ghost predicate Climbing(xs: seq<ExtPacket>, top: int) {
    && (forall i :: 0 <= i < |xs| ==> xs[i].packet.origin <= top)
    && (forall i, j :: 0 <= i < j < |xs| ==> xs[i].packet.origin < xs[j].packet.origin)
  }

  function Flatten(xss: seq<seq<ExtPacket>>): seq<ExtPacket> {
    if |xss| == 0 then [] else Flatten(xss[..|xss| - 1]) + xss[|xss| - 1]
  }

  /** Packets carry their position: base + travel is the extended number that prevSN stands for. */
  ghost predicate Positioned(list: seq<Entry>, prevSN: u16, position: int) {
    forall i :: 0 <= i < |list| ==> list[i].ext.packet.origin == position + Sub(list[i].SN(), prevSN)
  }

  /**
    The window invariant. When tracked, the origin of every packet is the extended sequence number
    its sender gave it.
   */
  ghost predicate Windowed(s: Play, base: int, tracked: bool) {
    && s.initialized
    && Ascending(s.list, s.prevSN)
    && Wrap(base + s.log.travel) == s.prevSN
    && (tracked ==> Tracked(s.list, s.prevSN, s.log.delivered, base + s.log.travel))
  }

  ghost predicate Tracked(list: seq<Entry>, prevSN: u16, delivered: seq<seq<ExtPacket>>, position: int) {
    Positioned(list, prevSN, position) && Climbing(Flatten(delivered), position)
  }

  /** Advance of the playing position not explained by packets popped, evicted or lost. */
  function Unexplained(s: Play): int {
    s.log.travel - s.stats.popped - s.log.evicted - s.stats.lost
  }

  // ----- arithmetic of the window

  /** Inside the window the circular comparisons are the linear ones. */
  lemma Compare(a: u16, b: u16, from: u16)
    requires 1 <= Sub(a, from) < RANGE && 1 <= Sub(b, from) < RANGE
    ensures WithinRange(a, b)
    ensures Before(a, b) <==> Sub(a, from) <= Sub(b, from)
    ensures a == b <==> Sub(a, from) == Sub(b, from)
    ensures Sub(a, from) <= Sub(b, from) ==> Sub(b, a) == Sub(b, from) - Sub(a, from)
  {
  }

  lemma AscendingRest(list: seq<Entry>, from: u16, k: nat, position: int)
    requires Ascending(list, from) && 1 <= k <= |list|
    ensures var sn := list[k - 1].SN();
            && Ascending(list[k..], sn)
            && (Positioned(list, from, position) ==> Positioned(list[k..], sn, position + Sub(sn, from)))
  {
    var sn := list[k - 1].SN();
    forall i | 0 <= i < |list[k..]|
      ensures Sub(list[k..][i].SN(), sn) == Sub(list[k + i].SN(), from) - Sub(sn, from)
      ensures !list[k..][i].discont && 1 <= Sub(list[k..][i].SN(), sn) < RANGE
    {
      Compare(sn, list[k + i].SN(), from);
    }
  }

  /** A complete sample covers consecutive positions. */
  lemma {:induction false} RunSpan(list: seq<Entry>, from: u16, k: nat)
    requires Ascending(list, from) && 1 <= k <= |list|
    requires Consecutive(list, k)
    ensures Sub(list[k - 1].SN(), from) == Sub(list[0].SN(), from) + k - 1
  {
    if k > 1 {
      RunSpan(list, from, k - 1);
      assert Succeeds(list[k - 2], list[k - 1]);
      Compare(list[k - 2].SN(), list[k - 1].SN(), from);
    }
  }

  lemma FlattenOne(xss: seq<seq<ExtPacket>>, xs: seq<ExtPacket>)
    ensures Flatten(xss + [xs]) == Flatten(xss) + xs
  {
    assert (xss + [xs])[..|xss|] == xss;
  }

  /** Entries in order of their extended numbers, all beyond low and none beyond top. */
  ghost predicate Rising(es: seq<Entry>, low: int, top: int) {
    && (forall i :: 0 <= i < |es| ==> low < es[i].ext.packet.origin <= top)
    && (forall i, j :: 0 <= i < j < |es| ==> es[i].ext.packet.origin < es[j].ext.packet.origin)
  }

  /** Handing over the non-padding part of entries beyond low keeps the order. */
  lemma {:induction false} NonPaddingClimbs(xs: seq<ExtPacket>, es: seq<Entry>, low: int, top: int)
    requires Climbing(xs, low) && low <= top
    requires Rising(es, low, top)
    ensures Climbing(xs + NonPadding(es), top)
    decreases |es|
  {
    if |es| == 0 {
      assert xs + NonPadding(es) == xs;
    } else {
      var n := |es| - 1;
      var last := es[n].ext;
      NonPaddingClimbs(xs, es[..n], low, if n == 0 then low else es[n - 1].ext.packet.origin);
      var ys := xs + NonPadding(es[..n]);
      assert forall i :: 0 <= i < |ys| ==> ys[i].packet.origin < last.packet.origin;
      assert xs + NonPadding(es) == if last.packet.padding then ys else ys + [last];
    }
  }

  // ----- taking packets off

  lemma WrapAdvances(n: int, a: u16, b: u16)
    requires Wrap(n) == a
    ensures Wrap(n + Sub(b, a)) == b
  {
  }

  lemma MissingAhead(a: u16, b: u16)
    requires 1 <= Sub(a, b)
    ensures MissingBetween(a, b) == Sub(a, b) - 1
  {
  }

  lemma PopSampleInWindow(s: Play, base: int, tracked: bool, expiry: Option<int>)
    requires Windowed(s, base, tracked) && RunLength(s.list) > 0
    ensures Windowed(PopSample(s, expiry), base, tracked)
    ensures Unexplained(PopSample(s, expiry)) == Unexplained(s) + MissingBetween(s.list[0].SN(), s.prevSN)
  {
    var k, last := RunLength(s.list), s.list[RunLength(s.list) - 1].SN();
    RunSpan(s.list, s.prevSN, k);
    MissingAhead(s.list[0].SN(), s.prevSN);
    WrapAdvances(base + s.log.travel, s.prevSN, last);
    AscendingRest(s.list, s.prevSN, k, base + s.log.travel);
    hide NonPadding, Climbing, Flatten, Ascending, Positioned, RunLength, Sub, MissingBetween, Wrap;
    if tracked { PopSampleClimbs(s, base, expiry); }
  }

  lemma PrefixClimbs(list: seq<Entry>, from: u16, k: nat, low: int)
    requires Ascending(list, from) && Positioned(list, from, low) && 1 <= k <= |list|
    ensures Rising(list[..k], low, low + Sub(list[k - 1].SN(), from))
  {
    hide Sub;
  }

  lemma SampleClimbs(delivered: seq<seq<ExtPacket>>, es: seq<Entry>, low: int, top: int)
    requires Climbing(Flatten(delivered), low) && Rising(es, low, top) && low <= top
    ensures var sample := NonPadding(es);
            Climbing(Flatten(if sample == [] then delivered else delivered + [sample]), top)
  {
    FlattenOne(delivered, NonPadding(es));
    NonPaddingClimbs(Flatten(delivered), es, low, top);
    hide NonPadding, Flatten, Climbing, Rising;
    assert Flatten(delivered) + [] == Flatten(delivered);
  }

  lemma PopSampleClimbs(s: Play, base: int, expiry: Option<int>)
    requires Windowed(s, base, true) && RunLength(s.list) > 0
    ensures var t := PopSample(s, expiry); Climbing(Flatten(t.log.delivered), base + t.log.travel)
  {
    var k, low := RunLength(s.list), base + s.log.travel;
    RunSpan(s.list, s.prevSN, k);
    PrefixClimbs(s.list, s.prevSN, k, low);
    hide NonPadding, Flatten, Climbing, RunLength, Rising;
    SampleClimbs(s.log.delivered, s.list[..k], low, low + Sub(s.list[k - 1].SN(), s.prevSN));
  }

  lemma MeasureInWindow(s: Play, base: int, tracked: bool)
    requires Windowed(s, base, tracked) && |s.list| > 0
    ensures Windowed(MeasureHead(s), base, tracked)
    ensures Unexplained(MeasureHead(s)) == Unexplained(s) - MissingBetween(s.list[0].SN(), s.prevSN)
  {
  }

  lemma DropHeadInWindow(s: Play, base: int, tracked: bool)
    requires Windowed(s, base, tracked) && |s.list| > 0
    ensures Windowed(DropHead(s), base, tracked)
    ensures Unexplained(DropHead(s)) == Unexplained(s)
  {
    AscendingRest(s.list, s.prevSN, 1, base + s.log.travel);
  }

  lemma {:induction false} DropIncompleteInWindow(s: Play, base: int, tracked: bool, limit: Option<int>)
    requires Windowed(s, base, tracked)
    ensures var t := DropIncomplete(s, limit);
            Windowed(t, base, tracked) && Unexplained(t) == Unexplained(s)
    decreases |s.list|
  {
    if DropIncomplete(s, limit) != s {
      DropHeadInWindow(s, base, tracked);
      DropIncompleteInWindow(DropHead(s), base, tracked, limit);
    }
  }

  /** In the window only a contiguous head is in sequence. */
  lemma InSequenceMeans(s: Play, base: int, tracked: bool)
    requires Windowed(s, base, tracked) && |s.list| > 0
    ensures InSequence(s) ==> MissingBetween(s.list[0].SN(), s.prevSN) == 0
  {
  }

  lemma {:induction false} ReleaseInWindow(s: Play, base: int, tracked: bool, expiry: int)
    requires Windowed(s, base, tracked)
    ensures var t := Release(s, expiry).0;
            Windowed(t, base, tracked) && Unexplained(t) == Unexplained(s)
    decreases |s.list|
  {
    if RunLength(s.list) > 0 {
      InSequenceMeans(s, base, tracked);
      hide Windowed, Unexplained, PopSample, InSequence, MissingBetween;
      if InSequence(s) {
        PopSampleInWindow(s, base, tracked, Some(expiry));
        ReleaseInWindow(PopSample(s, Some(expiry)), base, tracked, expiry);
      } else if s.list[0].ext.receivedAt <= expiry {
        var c := MeasureHead(s);
        MeasureInWindow(s, base, tracked);
        PopSampleInWindow(c, base, tracked, Some(expiry));
        ReleaseInWindow(PopSample(c, Some(expiry)), base, tracked, expiry);
      }
    }
  }

  lemma {:induction false} DrainInWindow(s: Play, base: int, tracked: bool)
    requires Windowed(s, base, tracked)
    ensures var t := Drain(s).0;
            Windowed(t, base, tracked) && Unexplained(t) == Unexplained(s)
    decreases |s.list|
  {
    if RunLength(s.list) > 0 {
      InSequenceMeans(s, base, tracked);
      MeasureInWindow(s, base, tracked);
      hide Windowed, Unexplained, PopSample, InSequence, MissingBetween, DropIncomplete;
      var e := if InSequence(s) then s else MeasureHead(s);
      PopSampleInWindow(e, base, tracked, None);
      var t := PopSample(e, None);
      DropIncompleteInWindow(t, base, tracked, None);
      DrainInWindow(DropIncomplete(t, None), base, tracked);
    }
  }

  // ----- putting packets on

  /** The place found is the one that keeps the order. */
  ghost predicate Between(list: seq<Entry>, i: nat, sn: u16, from: u16)
    requires i <= |list|
  {
    && (i > 0 ==> Sub(list[i - 1].SN(), from) < Sub(sn, from))
    && (i < |list| ==> Sub(sn, from) < Sub(list[i].SN(), from))
  }

  lemma {:induction false} FromTailOrders(list: seq<Entry>, sn: u16, from: u16, i: int)
    requires Ascending(list, from) && 1 <= Sub(sn, from) < RANGE
    requires -1 <= i < |list| - 1 && Sub(sn, from) < Sub(list[i + 1].SN(), from)
    ensures var spot := FromTail(list, sn, i);
            spot.Insert? ==> !spot.discont && Between(list, spot.index, sn, from)
    decreases i + 1
  {
    if i >= 0 {
      Compare(sn, list[i].SN(), from);
      if sn != list[i].SN() && Before(sn, list[i].SN()) { FromTailOrders(list, sn, from, i - 1); }
    }
  }

  lemma PlaceOrders(list: seq<Entry>, sn: u16, from: u16)
    requires Ascending(list, from) && |list| > 0 && 1 <= Sub(sn, from) < RANGE
    requires sn != list[0].SN() && sn != list[|list| - 1].SN()
    ensures var spot := Place(list, sn, false);
            spot.Insert? ==> !spot.discont && Between(list, spot.index, sn, from)
  {
    Compare(sn, list[0].SN(), from);
    Compare(sn, list[|list| - 1].SN(), from);
    if !Before(sn, list[0].SN()) && Before(sn, list[|list| - 1].SN()) {
      FromTailOrders(list, sn, from, |list| - 2);
    }
  }

  lemma InsertAscends(list: seq<Entry>, i: nat, e: Entry, from: u16)
    requires Ascending(list, from) && i <= |list| && Between(list, i, e.SN(), from)
    requires !e.discont && 1 <= Sub(e.SN(), from) < RANGE
    ensures Ascending(InsertAt(list, i, e), from)
  {
    var r := InsertAt(list, i, e);
    var d := Sub(e.SN(), from);
    assert forall j :: 0 <= j < i ==> Sub(list[j].SN(), from) < d;
    assert forall j :: i <= j < |list| ==> d < Sub(list[j].SN(), from);
    forall j, k | 0 <= j < k < |r| ensures Sub(r[j].SN(), from) < Sub(r[k].SN(), from) { }
  }

  /**
    What the window asks of an arriving packet. Untracked: it is less than half a circle behind or 1..2999 ahead. Tracked: its
    origin is an extended number of its sequence number, that far ahead of the playing position, or
    less than half a circle behind it.
   */
  ghost predicate Arrives(s: Play, base: int, tracked: bool, pkt: Packet) {
    && (tracked ==>
          var ahead := pkt.origin - (base + s.log.travel);
          Wrap(pkt.origin) == pkt.sn && -0x8000 < ahead < RANGE)
    && (!tracked ==> Sub(s.prevSN, pkt.sn) < 0x8000 || 1 <= Sub(pkt.sn, s.prevSN) < RANGE)
  }

  lemma ArrivalPosition(s: Play, base: int, tracked: bool, pkt: Packet)
    requires Windowed(s, base, tracked) && Arrives(s, base, tracked, pkt) && !Expired(s, pkt.sn)
    ensures 1 <= Sub(pkt.sn, s.prevSN) < RANGE
    ensures tracked ==> pkt.origin == base + s.log.travel + Sub(pkt.sn, s.prevSN)
  {
    var position := base + s.log.travel;
    if tracked {
      if pkt.origin <= position {
        WrapDistance(position, pkt.origin);
        assert false;
      }
      WrapDistance(pkt.origin, position);
    }
  }

  lemma InsertInWindow(s: Play, base: int, tracked: bool, i: nat, e: Entry)
    requires Windowed(s, base, tracked) && i <= |s.list| && Between(s.list, i, e.SN(), s.prevSN)
    requires !e.discont && 1 <= Sub(e.SN(), s.prevSN) < RANGE
    requires tracked ==> e.ext.packet.origin == base + s.log.travel + Sub(e.SN(), s.prevSN)
    ensures Windowed(s.(list := InsertAt(s.list, i, e)), base, tracked)
  {
    InsertAscends(s.list, i, e, s.prevSN);
  }

  lemma InsertFirst(e: Entry)
    ensures InsertAt([], 0, e) == [e]
  {
  }

  lemma EnqueueInWindow(s: Play, base: int, tracked: bool, pkt: Packet, at: int)
    requires Windowed(s, base, tracked) && Arrives(s, base, tracked, pkt) && !Expired(s, pkt.sn)
    requires |s.list| > 0 ==> pkt.sn != s.list[0].SN() && pkt.sn != s.list[|s.list| - 1].SN()
    ensures var t := Enqueue(s, pkt, at); Windowed(t, base, tracked) && Unexplained(t) == Unexplained(s)
  {
    hide Place, InsertAt;
    ArrivalPosition(s, base, tracked, pkt);
    assert WithinRange(pkt.sn, s.prevSN);
    var e := NewEntry(pkt, at, false);
    if |s.list| == 0 {
      InsertInWindow(s, base, tracked, 0, e);
      InsertFirst(e);
    } else {
      PlaceOrders(s.list, pkt.sn, s.prevSN);
      var spot := Place(s.list, pkt.sn, false);
      if spot.Insert? {
        InsertInWindow(s, base, tracked, spot.index, e);
        assert Enqueue(s, pkt, at).list == InsertAt(s.list, spot.index, e);
      }
    }
  }

  /** The last part of push, for a packet already counted in. */
  lemma AdmitInWindow(s: Play, base: int, tracked: bool, pkt: Packet, at: int)
    requires Windowed(s, base, tracked) && Arrives(s, base, tracked, pkt)
    ensures var t := Admit(s, pkt, at); Windowed(t, base, tracked) && Unexplained(t) == Unexplained(s)
  {
    if !Expired(s, pkt.sn) && (|s.list| > 0 ==> pkt.sn != s.list[0].SN() && pkt.sn != s.list[|s.list| - 1].SN()) {
      EnqueueInWindow(s, base, tracked, pkt, at);
    }
  }

  // ----- whole runs

  /** One SSRC, line detection off, and the window. */
  ghost predicate InWindow(s: State, base: int, tracked: bool) {
    s.ssrc.Some? && !s.detectRestarts && Windowed(s.play, base, tracked)
  }

  lemma ReportInWindow(s: Play, base: int, tracked: bool)
    requires Windowed(s, base, tracked)
    ensures Windowed(Report(s), base, tracked) && Unexplained(Report(s)) == Unexplained(s)
  {
  }

  lemma DropExpiredInWindow(s: Play, base: int, tracked: bool, expiry: int)
    requires Windowed(s, base, tracked)
    ensures var t := DropExpired(s, expiry); Windowed(t, base, tracked) && Unexplained(t) == Unexplained(s)
  {
    hide Windowed, Unexplained, DropIncomplete, Report;
    DropIncompleteInWindow(s, base, tracked, Some(expiry));
    ReportInWindow(DropIncomplete(s, Some(expiry)), base, tracked);
  }

  lemma ReleaseReadyInWindow(s: Play, base: int, tracked: bool, expiry: int)
    requires Windowed(s, base, tracked)
    ensures var t := ReleaseReady(s, expiry); Windowed(t, base, tracked) && Unexplained(t) == Unexplained(s)
  {
    hide Windowed, Unexplained, Release, Report;
    ReleaseInWindow(s, base, tracked, expiry);
    ReportInWindow(Release(s, expiry).0, base, tracked);
  }

  lemma FlushInWindow(s: Play, base: int, tracked: bool)
    requires Windowed(s, base, tracked)
    ensures var t := Flush(s); Windowed(t, base, tracked) && Unexplained(t) == Unexplained(s)
  {
    hide Windowed, Unexplained, DropIncomplete, Drain, Report;
    DropIncompleteInWindow(s, base, tracked, None);
    var d := DropIncomplete(s, None);
    DrainInWindow(d, base, tracked);
    ReportInWindow(Drain(d).0, base, tracked);
  }

  lemma PopReadyInWindow(s: State, base: int, tracked: bool, now: int)
    requires InWindow(s, base, tracked)
    ensures var t := PopReady(s, now); InWindow(t, base, tracked) && Unexplained(t.play) == Unexplained(s.play)
  {
    var expiry := now - s.latency;
    DropExpiredInWindow(s.play, base, tracked, expiry);
    ReleaseReadyInWindow(DropExpired(s.play, expiry), base, tracked, expiry);
  }

  lemma PushInWindow(s: State, base: int, tracked: bool, pkt: Packet, at: int)
    requires InWindow(s, base, tracked) && s.ssrc == Some(pkt.ssrc) && Arrives(s.play, base, tracked, pkt)
    ensures var t := Push(s, pkt, at); InWindow(t, base, tracked) && Unexplained(t.play) == Unexplained(s.play)
  {
    AdmitInWindow(Arrive(s.play, pkt), base, tracked, pkt, at);
  }

  lemma StepInWindow(s: State, base: int, tracked: bool, op: Op)
    requires InWindow(s, base, tracked)
    requires op.PushAt? ==> s.ssrc == Some(op.pkt.ssrc) && Arrives(s.play, base, tracked, op.pkt)
    ensures var t := Step(s, op); InWindow(t, base, tracked) && Unexplained(t.play) == Unexplained(s.play)
  {
    match op
    case PushAt(pkt, at, now) =>
      PushInWindow(s, base, tracked, pkt, at);
      PopReadyInWindow(Push(s, pkt, at), base, tracked, now);
    case Timer(now) => PopReadyInWindow(s, base, tracked, now);
    case FlushAll => FlushInWindow(s.play, base, tracked);
    case UpdateLatency(latency) =>
  }

  /** Every packet of the run belongs to the SSRC and keeps to the window when it arrives. */
  ghost predicate StaysInWindow(s: State, base: int, tracked: bool, ops: seq<Op>) {
    |ops| > 0 ==>
      var n := |ops| - 1;
      var t := Steps(s, ops[..n]);
      && StaysInWindow(s, base, tracked, ops[..n])
      && (ops[n].PushAt? ==> t.ssrc == Some(ops[n].pkt.ssrc) && Arrives(t.play, base, tracked, ops[n].pkt))
  }

  lemma {:induction false} StepsInWindow(s: State, base: int, tracked: bool, ops: seq<Op>)
    requires InWindow(s, base, tracked) && StaysInWindow(s, base, tracked, ops)
    ensures var t := Steps(s, ops); InWindow(t, base, tracked) && Unexplained(t.play) == Unexplained(s.play)
  {
    if |ops| > 0 {
      var n := |ops| - 1;
      StepsInWindow(s, base, tracked, ops[..n]);
      StepInWindow(Steps(s, ops[..n]), base, tracked, ops[n]);
    }
  }

  /**
    Exact accounting: over any run in the window, the unrolled advance of prevSN is the packets popped
    plus the incomplete packets dropped off the list plus the increase of PacketsLost.
   */
  lemma Accounting(s: State, ops: seq<Op>, t: State)
    requires s.play.initialized && !s.detectRestarts && s.ssrc.Some? && Ascending(s.play.list, s.play.prevSN)
    requires StaysInWindow(s, s.play.prevSN - s.play.log.travel, false, ops) && t == Steps(s, ops)
    ensures var p, q := s.play, t.play;
            var advance := q.log.travel - p.log.travel;
            && advance == (q.stats.popped - p.stats.popped) + (q.log.evicted - p.log.evicted) + (q.stats.lost - p.stats.lost)
            && q.prevSN == Wrap(p.prevSN + advance)
    ensures Ascending(t.play.list, t.play.prevSN)
  {
    hide Steps, StaysInWindow;
    StepsInWindow(s, s.play.prevSN - s.play.log.travel, false, ops);
  }

  /**
    Order: whatever the reordering, duplication and delay of packets in the window, everything handed
    over is in strictly ascending order of the sender's extended sequence numbers, without repeats,
    across any number of wraps.
   */
  lemma InOrderDelivery(s: State, base: int, ops: seq<Op>)
    requires InWindow(s, base, true) && StaysInWindow(s, base, true, ops)
    ensures var xs := Flatten(Steps(s, ops).play.log.delivered);
            forall i, j :: 0 <= i < j < |xs| ==> xs[i].packet.origin < xs[j].packet.origin
  {
    hide StaysInWindow, Steps;
    StepsInWindow(s, base, true, ops);
  }

  // ----- entering the window

  /** A sample of the stream of its first packet, numbered on from there. */
  ghost predicate IsSample(ps: seq<Packet>) {
    && 0 < |ps| <= 0x8000 && ps[0].partitionHead
    && forall i :: 0 <= i < |ps| ==>
         && ps[i].ssrc == ps[0].ssrc && !ps[i].padding && ps[i].partitionTail == (i == |ps| - 1)
         && ps[i].origin == ps[0].origin + i && ps[i].sn == Wrap(ps[i].origin)
  }

  /** The packets pushed one after the other, each with its arrival and clock times. */
  function Pushes(ps: seq<Packet>, ats: seq<int>, nows: seq<int>): seq<Op>
    requires |ps| == |ats| == |nows|
  {
    seq(|ps|, i requires 0 <= i < |ps| => PushAt(ps[i], ats[i], nows[i]))
  }

  function Entries(ps: seq<Packet>, ats: seq<int>): seq<Entry>
    requires |ps| == |ats|
  {
    seq(|ps|, i requires 0 <= i < |ps| => NewEntry(ps[i], ats[i], i == 0))
  }

  function Exts(ps: seq<Packet>, ats: seq<int>): seq<ExtPacket>
    requires |ps| == |ats|
  {
    seq(|ps|, i requires 0 <= i < |ps| => ExtPacket(ats[i], ps[i]))
  }

  /** A new buffer that holds the first n packets of its first sample. */
  ghost predicate Gathering(s: State, latency: int, ps: seq<Packet>, ats: seq<int>, n: nat)
    requires |ps| == |ats| && n <= |ps|
  {
    && s.latency == latency && !s.detectRestarts && (n > 0 ==> s.ssrc == Some(ps[0].ssrc)) && (n == 0 ==> s.ssrc == None)
    && !s.play.initialized && s.play.prevSN == 0 && s.play.log.delivered == [] && s.play.log.travel == 0
    && s.play.list == Entries(ps, ats)[..n]
  }

  /** Each packet of the sample goes to the end of the list. */
  lemma GatherPush(s: State, latency: int, ps: seq<Packet>, ats: seq<int>, n: nat)
    requires |ps| == |ats| && IsSample(ps) && n < |ps| && Gathering(s, latency, ps, ats, n)
    ensures Gathering(Push(s, ps[n], ats[n]), latency, ps, ats, n + 1)
  {
    var list, es, sn := s.play.list, Entries(ps, ats), ps[n].sn;
    assert es[..n + 1] == es[..n] + [es[n]];
    if n == 0 {
      assert list == [];
    } else {
      WrapDistance(ps[n].origin, ps[0].origin);
      WrapDistance(ps[n].origin, ps[n - 1].origin);
      assert list[0].SN() == ps[0].sn && list[n - 1].SN() == ps[n - 1].sn;
      assert Place(list, sn, true) == Insert(n, false, false);
      assert InsertAt(list, n, es[n]) == es[..n + 1];
    }
  }

  /** Until its last packet is there the sample is incomplete. */
  lemma NotYet(list: seq<Entry>)
    requires forall i :: 0 <= i < |list| ==> !list[i].end
    ensures RunLength(list) == 0
  {
  }

  lemma GatherStep(s: State, latency: int, ps: seq<Packet>, ats: seq<int>, n: nat, now: int)
    requires |ps| == |ats| && IsSample(ps) && n < |ps| - 1 && Gathering(s, latency, ps, ats, n)
    requires ats[0] >= now - latency
    ensures Gathering(Step(s, PushAt(ps[n], ats[n], now)), latency, ps, ats, n + 1)
  {
    GatherPush(s, latency, ps, ats, n);
    hide Push;
    NotYet(Push(s, ps[n], ats[n]).play.list);
  }

  lemma StepsMore(s: State, ops: seq<Op>, n: nat)
    requires n < |ops|
    ensures Steps(s, ops[..n + 1]) == Step(Steps(s, ops[..n]), ops[n])
  {
    hide Step;
    assert ops[..n + 1][..n] == ops[..n];
  }

  lemma PushesAt(ps: seq<Packet>, ats: seq<int>, nows: seq<int>, n: nat)
    requires |ps| == |ats| == |nows| && n < |ps|
    ensures |Pushes(ps, ats, nows)| == |ps| && Pushes(ps, ats, nows)[n] == PushAt(ps[n], ats[n], nows[n])
  {
  }

  lemma {:induction false} GatherSteps(s: State, ps: seq<Packet>, ats: seq<int>, nows: seq<int>, n: nat)
    requires |ps| == |ats| == |nows| && IsSample(ps) && n < |ps| && s == NewBuffer(s.latency, false)
    requires forall i :: 0 <= i < |ps| - 1 ==> ats[0] >= nows[i] - s.latency
    ensures Gathering(Steps(s, Pushes(ps, ats, nows)[..n]), s.latency, ps, ats, n)
  {
    var ops := Pushes(ps, ats, nows);
    if n > 0 {
      hide Steps, Step, IsSample, Gathering, Pushes;
      GatherSteps(s, ps, ats, nows, n - 1);
      StepsMore(s, ops, n - 1);
      PushesAt(ps, ats, nows, n - 1);
      GatherStep(Steps(s, ops[..n - 1]), s.latency, ps, ats, n - 1, nows[n - 1]);
    }
  }

  lemma EntriesAreSample(ps: seq<Packet>, ats: seq<int>)
    requires |ps| == |ats| && IsSample(ps)
    ensures RunLength(Entries(ps, ats)) == |ps|
  {
    var es := Entries(ps, ats);
    forall i, j | 0 <= i && j == i + 1 && j < |es| ensures Succeeds(es[i], es[j]) {
      WrapDistance(ps[j].origin, ps[i].origin);
    }
    assert CompleteRun(es, |es|);
    var k := RunLength(es);
    assert es[k - 1].end;
  }

  lemma {:induction false} NoneIsPadding(ps: seq<Packet>, ats: seq<int>)
    requires |ps| == |ats| && forall i :: 0 <= i < |ps| ==> !ps[i].padding
    ensures NonPadding(Entries(ps, ats)) == Exts(ps, ats)
  {
    if |ps| > 0 {
      var n := |ps| - 1;
      NoneIsPadding(ps[..n], ats[..n]);
      assert Entries(ps, ats)[..n] == Entries(ps[..n], ats[..n]);
      assert Exts(ps, ats) == Exts(ps[..n], ats[..n]) + [ExtPacket(ats[n], ps[n])];
    }
  }

  lemma LastPops(s: State, ps: seq<Packet>, ats: seq<int>, now: int, t: State)
    requires |ps| == |ats| && IsSample(ps) && Gathering(s, s.latency, ps, ats, |ps|) && t == PopReady(s, now)
    ensures t.play.list == [] && t.play.initialized && t.play.prevSN == ps[|ps| - 1].sn
    ensures t.play.log.delivered == [Exts(ps, ats)] && t.ssrc == s.ssrc && t.detectRestarts == s.detectRestarts
    ensures t.latency == s.latency
  {
    var es, expiry := Entries(ps, ats), now - s.latency;
    assert es[..|ps|] == es;
    EntriesAreSample(ps, ats);
    NoneIsPadding(ps, ats);
    assert |Exts(ps, ats)| > 0;
    hide RunLength, NonPadding;
    var p := PopSample(s.play, Some(expiry));
    assert p.list == [];
    assert Release(p, expiry).0 == p by { NotYet([]); }
    assert Release(s.play, expiry).0 == p;
  }

  lemma SamplePlays(before: State, ps: seq<Packet>, ats: seq<int>, now: int)
    requires |ps| == |ats| && IsSample(ps) && Gathering(before, before.latency, ps, ats, |ps| - 1)
    ensures var n := |ps| - 1;
            var s := Step(before, PushAt(ps[n], ats[n], now));
            && InWindow(s, ps[n].origin - s.play.log.travel, true) && s.play.log.delivered == [Exts(ps, ats)]
            && s.play.list == [] && s.latency == before.latency
  {
    var n := |ps| - 1;
    assert n >= 0;
    hide Push, PopReady, IsSample, Exts, InWindow;
    GatherPush(before, before.latency, ps, ats, n);
    var t := Push(before, ps[n], ats[n]);
    LastStep(before, ps, ats, now);
    LastPops(t, ps, ats, now, PopReady(t, now));
    Entered(PopReady(t, now), ps, ats);
  }

  lemma LastStep(s: State, ps: seq<Packet>, ats: seq<int>, now: int)
    requires |ps| == |ats| && |ps| > 0
    requires var t := Push(s, ps[|ps| - 1], ats[|ps| - 1]); Gathering(t, t.latency, ps, ats, |ps|)
    ensures var t := Push(s, ps[|ps| - 1], ats[|ps| - 1]);
            Step(s, PushAt(ps[|ps| - 1], ats[|ps| - 1], now)) == PopReady(t, now) && PopReady(t, now).ssrc.Some?
  {
    hide Push;
  }

  lemma Entered(s: State, ps: seq<Packet>, ats: seq<int>)
    requires |ps| == |ats| && IsSample(ps)
    requires s.play.list == [] && s.play.initialized && s.play.prevSN == ps[|ps| - 1].sn
    requires s.play.log.delivered == [Exts(ps, ats)] && s.ssrc.Some? && !s.detectRestarts
    ensures InWindow(s, ps[|ps| - 1].origin - s.play.log.travel, true)
  {
    assert s.play.log.delivered[..0] == [];
    assert Flatten(s.play.log.delivered) == Exts(ps, ats);
  }

  /**
    A first sample of any number of packets, arriving in order and before its head is older than the
    latency, puts a new buffer in the window, with every packet of it handed over.
   */
  lemma {:induction false} FirstSamplePlays(latency: int, ps: seq<Packet>, ats: seq<int>, nows: seq<int>)
    requires |ps| == |ats| == |nows| && IsSample(ps)
    requires forall i :: 0 <= i < |ps| - 1 ==> ats[0] >= nows[i] - latency
    ensures var s := Steps(NewBuffer(latency, false), Pushes(ps, ats, nows));
            && InWindow(s, ps[|ps| - 1].origin - s.play.log.travel, true) && s.play.log.delivered == [Exts(ps, ats)]
            && s.play.list == [] && s.latency == latency
  {
    hide Steps, Step, InWindow, Exts, Pushes, Gathering;
    var n := |ps| - 1;
    assert n >= 0;
    hide IsSample;
    var before := LastButOne(latency, ps, ats, nows);
    SamplePlays(before, ps, ats, nows[n]);
  }

  lemma LastButOne(latency: int, ps: seq<Packet>, ats: seq<int>, nows: seq<int>) returns (before: State)
    requires |ps| == |ats| == |nows| && IsSample(ps)
    requires forall i :: 0 <= i < |ps| - 1 ==> ats[0] >= nows[i] - latency
    ensures var n := |ps| - 1;
            && before.latency == latency && Gathering(before, latency, ps, ats, n)
            && Steps(NewBuffer(latency, false), Pushes(ps, ats, nows)) == Step(before, PushAt(ps[n], ats[n], nows[n]))
  {
    var n, s := |ps| - 1, NewBuffer(latency, false);
    assert n >= 0 && s.latency == latency;
    GatherSteps(s, ps, ats, nows, n);
    var ops := Pushes(ps, ats, nows);
    before := Steps(s, ops[..n]);
    assert before.latency == latency;
    hide Steps, Step, IsSample, Gathering, NewBuffer, Pushes;
    PushesAt(ps, ats, nows, n);
    StepsMore(s, ops, n);
    assert ops[..n + 1] == ops;
  }
}
