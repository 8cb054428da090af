/** A stream in the window whose packets arrive in time is handed over whole. */
module JitterDelivery {
  import opened Options
  import opened Seq16
  import opened JitterTypes
  import opened JitterList
  import opened JitterModel
  import opened JitterWindow
  import JitterArrival
  import JitterRelease

  // ----- what is sent and what arrives

  /** sent(m) is the packet of extended number m; a sample begins where the one before it ended. */
  ghost predicate Stream(sent: int -> Packet) {
    && (forall m :: sent(m).origin == m && sent(m).sn == Wrap(m))
    && (forall m, n :: n == m + 1 && sent(m).partitionTail ==> sent(n).partitionHead)
  }

  ghost predicate Arrived(ops: seq<Op>, m: int) {
    exists i :: 0 <= i < |ops| && ops[i].PushAt? && ops[i].pkt.origin == m
  }

  /** Number m and all before it, back to what was played at low, have arrived, up to the end of its sample. */
  ghost predicate Whole(sent: int -> Packet, ops: seq<Op>, low: int, m: int, end: int) {
    end >= m && sent(end).partitionTail && forall k :: low < k <= end ==> Arrived(ops, k)
  }

  /** A packet held for the latency finds the packets before it, and the rest of its sample, arrived. */
  ghost predicate InTime(sent: int -> Packet, ops: seq<Op>, low: int, expiry: int) {
    forall i :: 0 <= i < |ops| && ops[i].PushAt? && ops[i].pkt.origin > low && ops[i].receivedAt <= expiry ==>
      exists end :: Whole(sent, ops, low, ops[i].pkt.origin, end)
  }

  /** A run of packets of the stream and timer expiries in which every packet is in time. */
  ghost predicate Punctual(sent: int -> Packet, ops: seq<Op>, low: int, latency: int) {
    |ops| > 0 ==>
      var n := |ops| - 1;
      && Punctual(sent, ops[..n], low, latency)
      && (ops[n].PushAt? || ops[n].Timer?)
      && (ops[n].PushAt? ==> ops[n].pkt == sent(ops[n].pkt.origin))
      && InTime(sent, ops, low, ops[n].now - latency)
  }

  // ----- the invariant

  /** The entry is a packet of the stream that has arrived. */
  ghost predicate Heard(e: Entry, sent: int -> Packet, ops: seq<Op>) {
    && e.ext.packet == sent(e.ext.packet.origin)
    && e.start == e.ext.packet.partitionHead && e.end == e.ext.packet.partitionTail
    && exists i :: 0 <= i < |ops| && ops[i].PushAt? && ops[i].pkt == e.ext.packet && ops[i].receivedAt == e.ext.receivedAt
  }

  ghost predicate Waits(list: seq<Entry>, m: int) {
    exists k :: 0 <= k < |list| && list[k].ext.packet.origin == m
  }

  ghost predicate HandedOver(delivered: seq<seq<ExtPacket>>, pkt: Packet) {
    exists x :: x in Flatten(delivered) && x.packet == pkt
  }

  /** What waits, and what was played since low: everything, and nothing was lost. */
  ghost predicate Held(s: Play, position: int, low: int, sent: int -> Packet, ops: seq<Op>) {
    && low <= position && sent(position).partitionTail
    && (forall k :: 0 <= k < |s.list| ==> Heard(s.list[k], sent, ops))
    && (forall m :: position < m && Arrived(ops, m) ==> Waits(s.list, m))
    && (forall m :: low < m <= position && !sent(m).padding ==> HandedOver(s.log.delivered, sent(m)))
  }

  // ----- the head of the list

  lemma OriginsRise(list: seq<Entry>, from: u16, position: int)
    requires Ascending(list, from) && Positioned(list, from, position)
    ensures forall i :: 0 <= i < |list| ==> list[i].ext.packet.origin > position
    ensures forall i, j :: 0 <= i < j < |list| ==> list[i].ext.packet.origin < list[j].ext.packet.origin
  {
    hide Sub;
  }

  /** If the next n numbers wait, they are the first n entries. */
  lemma {:induction false} FirstOnes(list: seq<Entry>, from: u16, position: int, n: nat)
    requires Ascending(list, from) && Positioned(list, from, position)
    requires forall m :: position < m <= position + n ==> Waits(list, m)
    ensures n <= |list| && forall j :: 0 <= j < n ==> list[j].ext.packet.origin == position + 1 + j
  {
    if n > 0 {
      FirstOnes(list, from, position, n - 1);
      assert Waits(list, position + n);
      var k :| 0 <= k < |list| && list[k].ext.packet.origin == position + n;
      OriginsRise(list, from, position);
      hide Ascending, Positioned;
      assert k >= n - 1;
      var next := list[n - 1].ext.packet.origin;
      assert next > position + n - 1 by { if n > 1 { assert list[n - 2].ext.packet.origin == position + n - 1; } }
      assert k == n - 1;
    }
  }

  /** The first tail after low. */
  lemma {:induction false} FirstTail(sent: int -> Packet, low: int, end: int) returns (tail: int)
    requires low < end && sent(end).partitionTail
    ensures low < tail <= end && sent(tail).partitionTail && forall m :: low < m < tail ==> !sent(m).partitionTail
    decreases end - low
  {
    if sent(low + 1).partitionTail { tail := low + 1; } else { tail := FirstTail(sent, low + 1, end); }
  }

  lemma NextNumber(m: int)
    ensures Wrap(m + 1) == Next(Wrap(m))
  {
  }

  /** When everything up to the end of a sample has arrived, the head is the next packet and its sample is complete. */
  lemma HeadIsNext(s: Play, base: int, low: int, sent: int -> Packet, ops: seq<Op>, end: int)
    requires Stream(sent) && Windowed(s, base, true) && Held(s, base + s.log.travel, low, sent, ops)
    requires base + s.log.travel < end && sent(end).partitionTail
    requires forall k :: base + s.log.travel < k <= end ==> Arrived(ops, k)
    ensures |s.list| > 0 && RunLength(s.list) > 0 && s.list[0].SN() == Next(s.prevSN)
  {
    var position := base + s.log.travel;
    var tail := FirstTail(sent, position, end);
    FirstOnes(s.list, s.prevSN, position, tail - position);
    SampleIsRun(s.list, sent, ops, position, tail);
    NextNumber(position);
  }

  lemma SampleIsRun(list: seq<Entry>, sent: int -> Packet, ops: seq<Op>, position: int, tail: int)
    requires Stream(sent) && sent(position).partitionTail && position < tail <= position + |list|
    requires forall k :: 0 <= k < |list| ==> Heard(list[k], sent, ops)
    requires forall j :: 0 <= j < tail - position ==> list[j].ext.packet.origin == position + 1 + j
    requires sent(tail).partitionTail && forall m :: position < m < tail ==> !sent(m).partitionTail
    ensures RunLength(list) > 0 && list[0].ext.packet == sent(position + 1)
  {
    var n := tail - position;
    forall i, j | 0 <= i && j == i + 1 && j < n ensures Succeeds(list[i], list[j]) {
      NextNumber(position + 1 + i);
    }
    assert sent(position + 1).partitionHead;
    assert CompleteRun(list, n);
  }

  // ----- releasing

  /** Every entry is beyond the position, in order. */
  lemma EntryBeyond(s: Play, base: int, k: nat)
    requires Windowed(s, base, true) && k < |s.list|
    ensures s.list[k].ext.packet.origin > base + s.log.travel
    ensures forall j :: 0 <= j <= k ==> s.list[j].ext.packet.origin <= s.list[k].ext.packet.origin
  {
  }

  /** A head held for the latency is the next packet, with its sample complete. */
  lemma HeldHead(s: Play, base: int, low: int, sent: int -> Packet, ops: seq<Op>, expiry: int)
    requires Stream(sent) && Windowed(s, base, true) && Held(s, base + s.log.travel, low, sent, ops)
    requires InTime(sent, ops, low, expiry) && |s.list| > 0 && s.list[0].ext.receivedAt <= expiry
    ensures RunLength(s.list) > 0 && s.list[0].SN() == Next(s.prevSN)
  {
    EntryBeyond(s, base, 0);
    var m := s.list[0].ext.packet.origin;
    assert Heard(s.list[0], sent, ops);
    var end :| Whole(sent, ops, low, m, end);
    HeadIsNext(s, base, low, sent, ops, end);
  }

  lemma {:induction false} NonPaddingHas(es: seq<Entry>, k: nat)
    requires k < |es| && !es[k].ext.packet.padding
    ensures es[k].ext in NonPadding(es)
  {
    if k < |es| - 1 { NonPaddingHas(es[..|es| - 1], k); }
  }

  lemma HandedOverStill(delivered: seq<seq<ExtPacket>>, sample: seq<ExtPacket>, pkt: Packet)
    requires HandedOver(delivered, pkt)
    ensures HandedOver(delivered + [sample], pkt)
  {
    FlattenOne(delivered, sample);
    hide Flatten;
    var x :| x in Flatten(delivered) && x.packet == pkt;
    assert x in Flatten(delivered + [sample]);
  }

  lemma HandedOverNow(delivered: seq<seq<ExtPacket>>, es: seq<Entry>, k: nat)
    requires k < |es| && !es[k].ext.packet.padding
    ensures NonPadding(es) != [] && HandedOver(delivered + [NonPadding(es)], es[k].ext.packet)
  {
    var sample := NonPadding(es);
    FlattenOne(delivered, sample);
    NonPaddingHas(es, k);
    hide NonPadding, Flatten;
    assert es[k].ext in Flatten(delivered) + sample;
  }

  /** A complete sample at the head is made of the next numbers. */
  lemma RunOrigins(s: Play, base: int)
    requires Windowed(s, base, true) && RunLength(s.list) > 0 && s.list[0].SN() == Next(s.prevSN)
    ensures forall j :: 0 <= j < RunLength(s.list) ==> s.list[j].ext.packet.origin == base + s.log.travel + 1 + j
  {
    var k := RunLength(s.list);
    forall j | 0 <= j < k ensures s.list[j].ext.packet.origin == base + s.log.travel + 1 + j {
      assert Consecutive(s.list, j + 1);
      RunSpan(s.list, s.prevSN, j + 1);
    }
  }

  /** What waits beyond the first k entries still waits without them. */
  lemma RestWaits(list: seq<Entry>, k: nat, position: int, ops: seq<Op>)
    requires k <= |list| && forall j :: 0 <= j < k ==> list[j].ext.packet.origin == position + 1 + j
    requires forall m :: position < m && Arrived(ops, m) ==> Waits(list, m)
    ensures forall m :: position + k < m && Arrived(ops, m) ==> Waits(list[k..], m)
  {
    hide Arrived;
    forall m | position + k < m && Arrived(ops, m) ensures Waits(list[k..], m) {
      var j :| 0 <= j < |list| && list[j].ext.packet.origin == m;
      assert list[k..][j - k].ext.packet.origin == m;
    }
  }

  /** The packets of the first k entries are handed over with them. */
  lemma RunHandedOver(list: seq<Entry>, k: nat, position: int, low: int, sent: int -> Packet, delivered: seq<seq<ExtPacket>>)
    requires k <= |list| && forall j :: 0 <= j < k ==> list[j].ext.packet == sent(position + 1 + j)
    requires forall m :: low < m <= position && !sent(m).padding ==> HandedOver(delivered, sent(m))
    ensures var sample := NonPadding(list[..k]);
            var after := if sample == [] then delivered else delivered + [sample];
            forall m :: low < m <= position + k && !sent(m).padding ==> HandedOver(after, sent(m))
  {
    hide HandedOver, NonPadding;
    var sample := NonPadding(list[..k]);
    var after := if sample == [] then delivered else delivered + [sample];
    forall m | low < m <= position + k && !sent(m).padding ensures HandedOver(after, sent(m)) {
      if m <= position {
        HandedOverStill(delivered, sample, sent(m));
      } else {
        assert list[..k][m - position - 1].ext.packet == sent(m);
        HandedOverNow(delivered, list[..k], m - position - 1);
      }
    }
  }

  /** Releasing the next sample keeps everything held. */
  lemma PopSampleHolds(s: Play, base: int, low: int, sent: int -> Packet, ops: seq<Op>, expiry: Option<int>, t: Play)
    requires Stream(sent) && Windowed(s, base, true) && Held(s, base + s.log.travel, low, sent, ops)
    requires RunLength(s.list) > 0 && s.list[0].SN() == Next(s.prevSN) && t == PopSample(s, expiry)
    ensures Held(t, base + t.log.travel, low, sent, ops)
  {
    hide Windowed, Stream, NonPadding, Arrived, Waits, HandedOver, Heard, PopSample, Next, Sub;
    var k, position := RunLength(s.list), base + s.log.travel;
    assert s.list[k - 1].end;
    hide RunLength;
    RunOrigins(s, base);
    PoppedNext(s, expiry, t);
    RunsStream(s.list, k, position, sent, ops);
    RestWaits(s.list, k, position, ops);
    RunHandedOver(s.list, k, position, low, sent, s.log.delivered);
    HeldFrom(t, position + k, low, sent, ops, s.list, k);
  }

  lemma HeldFrom(t: Play, position: int, low: int, sent: int -> Packet, ops: seq<Op>, list: seq<Entry>, k: nat)
    requires low <= position && sent(position).partitionTail && k <= |list| && t.list == list[k..]
    requires forall j :: 0 <= j < |list| ==> Heard(list[j], sent, ops)
    requires forall m :: position < m && Arrived(ops, m) ==> Waits(t.list, m)
    requires forall m :: low < m <= position && !sent(m).padding ==> HandedOver(t.log.delivered, sent(m))
    ensures Held(t, position, low, sent, ops)
  {
    hide Heard, Arrived, Waits, HandedOver;
  }

  lemma PoppedNext(s: Play, expiry: Option<int>, t: Play)
    requires RunLength(s.list) > 0 && s.list[0].SN() == Next(s.prevSN) && t == PopSample(s, expiry)
    ensures t.list == s.list[RunLength(s.list)..] && t.log.travel == s.log.travel + RunLength(s.list)
    ensures var sample := NonPadding(s.list[..RunLength(s.list)]);
            t.log.delivered == if sample == [] then s.log.delivered else s.log.delivered + [sample]
  {
    hide NonPadding, RunLength;
  }

  lemma RunsStream(list: seq<Entry>, k: nat, position: int, sent: int -> Packet, ops: seq<Op>)
    requires 0 < k <= |list| && list[k - 1].end
    requires forall j :: 0 <= j < k ==> list[j].ext.packet.origin == position + 1 + j
    requires forall j :: 0 <= j < |list| ==> Heard(list[j], sent, ops)
    ensures forall j :: 0 <= j < k ==> list[j].ext.packet == sent(position + 1 + j)
    ensures sent(position + k).partitionTail
  {
    assert Heard(list[k - 1], sent, ops);
  }

  /** In time, releasing finds nothing missing. */
  lemma {:induction false} ReleaseHolds(s: Play, base: int, low: int, sent: int -> Packet, ops: seq<Op>, expiry: int, t: Play)
    requires Stream(sent) && Windowed(s, base, true) && Held(s, base + s.log.travel, low, sent, ops)
    requires InTime(sent, ops, low, expiry) && t == Release(s, expiry).0
    ensures Held(t, base + t.log.travel, low, sent, ops)
    ensures t.stats.lost == s.stats.lost && t.log.evicted == s.log.evicted && !Release(s, expiry).1
    decreases |s.list|
  {
    hide Windowed, Held, Stream, InTime, RunLength, PopSample;
    if RunLength(s.list) > 0 {
      if s.list[0].ext.receivedAt <= expiry { HeldHead(s, base, low, sent, ops, expiry); }
      if InSequence(s) {
        NextHead(s, base);
        PopSampleHolds(s, base, low, sent, ops, Some(expiry), PopSample(s, Some(expiry)));
        PopSampleInWindow(s, base, true, Some(expiry));
        PopSampleLoses(s, Some(expiry));
        ReleaseHolds(PopSample(s, Some(expiry)), base, low, sent, ops, expiry, t);
      }
    }
  }

  lemma NextHead(s: Play, base: int)
    requires Windowed(s, base, true) && |s.list| > 0 && InSequence(s)
    ensures s.list[0].SN() == Next(s.prevSN)
  {
  }

  lemma PopSampleLoses(s: Play, expiry: Option<int>)
    requires RunLength(s.list) > 0
    ensures var t := PopSample(s, expiry); t.stats.lost == s.stats.lost && t.log.evicted == s.log.evicted
  {
  }

  /** In time, popReady drops nothing and loses nothing. */
  lemma PopReadyHolds(s: State, base: int, low: int, sent: int -> Packet, ops: seq<Op>, now: int, t: State)
    requires Stream(sent) && Windowed(s.play, base, true) && Held(s.play, base + s.play.log.travel, low, sent, ops)
    requires InTime(sent, ops, low, now - s.latency) && t == PopReady(s, now)
    ensures Held(t.play, base + t.play.log.travel, low, sent, ops)
    ensures t.play.stats.lost == s.play.stats.lost && t.play.log.evicted == s.play.log.evicted
  {
    hide Windowed, Held, Stream, InTime, RunLength, Release;
    var expiry := now - s.latency;
    if |s.play.list| > 0 && s.play.list[0].ext.receivedAt <= expiry {
      HeldHead(s.play, base, low, sent, ops, expiry);
    }
    assert DropExpired(s.play, expiry) == s.play;
    ReleaseHolds(s.play, base, low, sent, ops, expiry, Release(s.play, expiry).0);
  }

  // ----- arriving

  lemma HeardLater(e: Entry, sent: int -> Packet, ops: seq<Op>, op: Op)
    requires Heard(e, sent, ops)
    ensures Heard(e, sent, ops + [op])
  {
    var i :| 0 <= i < |ops| && ops[i].PushAt? && ops[i].pkt == e.ext.packet && ops[i].receivedAt == e.ext.receivedAt;
    assert (ops + [op])[i] == ops[i];
  }

  lemma ArrivedBefore(ops: seq<Op>, op: Op, m: int)
    ensures Arrived(ops + [op], m) <==> Arrived(ops, m) || (op.PushAt? && op.pkt.origin == m)
  {
    if Arrived(ops, m) {
      var i :| 0 <= i < |ops| && ops[i].PushAt? && ops[i].pkt.origin == m;
      assert (ops + [op])[i] == ops[i];
    }
    if op.PushAt? { assert (ops + [op])[|ops|] == op; }
  }

  /** t holds what s does, and the packet of the operation if that is beyond the position. */
  lemma HoldsMore(s: Play, t: Play, position: int, low: int, sent: int -> Packet, ops: seq<Op>, op: Op)
    requires Held(s, position, low, sent, ops) && t.log.delivered == s.log.delivered
    requires forall e :: e in t.list ==> e in s.list || Heard(e, sent, ops + [op])
    requires forall m :: Waits(s.list, m) ==> Waits(t.list, m)
    requires op.PushAt? && op.pkt.origin > position ==> Waits(t.list, op.pkt.origin)
    ensures Held(t, position, low, sent, ops + [op])
  {
    forall k | 0 <= k < |t.list| ensures Heard(t.list[k], sent, ops + [op]) {
      if t.list[k] in s.list { HeardLater(t.list[k], sent, ops, op); }
    }
    forall m | position < m && Arrived(ops + [op], m) ensures Waits(t.list, m) { ArrivedBefore(ops, op, m); }
    hide Arrived, Heard, Waits, HandedOver;
  }

  lemma JoinsWaits(s: Play, t: Play, pkt: Packet, at: int, i: nat)
    requires JitterArrival.Joins(s, t, pkt, at, i)
    ensures Waits(t.list, pkt.origin) && forall m :: Waits(s.list, m) ==> Waits(t.list, m)
    ensures forall e :: e in t.list ==>
              e in s.list || (e.ext == ExtPacket(at, pkt) && e.start == pkt.partitionHead && e.end == pkt.partitionTail)
    ensures t.log == s.log && t.stats.lost == s.stats.lost
  {
    assert t.list[i].ext.packet == pkt;
    forall m | Waits(s.list, m) ensures Waits(t.list, m) {
      var k :| 0 <= k < |s.list| && s.list[k].ext.packet.origin == m;
      assert t.list[if k < i then k else k + 1] == s.list[k];
    }
  }

  /** Pushing a packet of the stream keeps everything held, and holds the packet. */
  lemma PushHolds(s: State, base: int, low: int, sent: int -> Packet, ops: seq<Op>, op: Op, t: State)
    requires Stream(sent) && InWindow(s, base, true) && Held(s.play, base + s.play.log.travel, low, sent, ops)
    requires op.PushAt? && op.pkt == sent(op.pkt.origin) && s.ssrc == Some(op.pkt.ssrc) && Arrives(s.play, base, true, op.pkt)
    requires t == Push(s, op.pkt, op.receivedAt)
    ensures Held(t.play, base + t.play.log.travel, low, sent, ops + [op]) && t.play.log.travel == s.play.log.travel
    ensures t.play.stats.lost == s.play.stats.lost && t.play.log.evicted == s.play.log.evicted
  {
    var pkt, at, position := op.pkt, op.receivedAt, base + s.play.log.travel;
    ArrivesWhere(s.play, base, pkt);
    hide Push, Held, Stream, Tracked, Ascending, Arrives, Sub, Wrap, JitterArrival.Joins;
    if pkt.origin <= position {
      PushesBehind(s, position, low, sent, ops, op, t);
    } else {
      if k: nat :| k < |s.play.list| && s.play.list[k].SN() == pkt.sn {
        WaitsAlready(s.play, base, k, pkt);
        PushesAgain(s, position, low, sent, ops, op, t, k);
      } else {
        var i := JitterArrival.AheadIsKept(s, pkt, at, t);
        JoinsHolds(s.play, t.play, position, low, sent, ops, op, i);
      }
    }
  }

  /** Where the packet stands on the circle and on the line of extended numbers. */
  lemma ArrivesWhere(s: Play, base: int, pkt: Packet)
    requires Windowed(s, base, true) && Arrives(s, base, true, pkt)
    ensures var position := base + s.log.travel;
            if pkt.origin <= position then Sub(s.prevSN, pkt.sn) < 0x8000
            else 1 <= Sub(pkt.sn, s.prevSN) < RANGE && pkt.origin == position + Sub(pkt.sn, s.prevSN)
  {
    var position := base + s.log.travel;
    if pkt.origin <= position { WrapDistance(position, pkt.origin); } else { WrapDistance(pkt.origin, position); }
  }

  lemma PushesBehind(s: State, position: int, low: int, sent: int -> Packet, ops: seq<Op>, op: Op, t: State)
    requires Held(s.play, position, low, sent, ops)
    requires op.PushAt? && JitterArrival.Follows(s, op.pkt) && op.pkt.origin <= position && t == Push(s, op.pkt, op.receivedAt)
    requires s.play.initialized && Sub(s.play.prevSN, op.pkt.sn) < 0x8000
    ensures Held(t.play, position, low, sent, ops + [op]) && t.play.log.travel == s.play.log.travel
    ensures t.play.stats.lost == s.play.stats.lost && t.play.log.evicted == s.play.log.evicted
  {
    JitterArrival.BehindIsDropped(s, op.pkt, op.receivedAt, t);
    hide Push, Held, Waits, Heard;
    HoldsMore(s.play, t.play, position, low, sent, ops, op);
  }

  lemma PushesAgain(s: State, position: int, low: int, sent: int -> Packet, ops: seq<Op>, op: Op, t: State, k: nat)
    requires Held(s.play, position, low, sent, ops)
    requires op.PushAt? && JitterArrival.Follows(s, op.pkt) && Waits(s.play.list, op.pkt.origin) && t == Push(s, op.pkt, op.receivedAt)
    requires s.play.initialized && 1 <= Sub(op.pkt.sn, s.play.prevSN) <= 0x8000 && Ascending(s.play.list, s.play.prevSN)
    requires k < |s.play.list| && s.play.list[k].SN() == op.pkt.sn
    ensures Held(t.play, position, low, sent, ops + [op]) && t.play.log.travel == s.play.log.travel
    ensures t.play.stats.lost == s.play.stats.lost && t.play.log.evicted == s.play.log.evicted
  {
    JitterArrival.DuplicateIsDropped(s, op.pkt, op.receivedAt, t, k);
    hide Push, Held, Waits, Heard, Ascending;
    HoldsMore(s.play, t.play, position, low, sent, ops, op);
  }

  lemma JoinsHolds(s: Play, t: Play, position: int, low: int, sent: int -> Packet, ops: seq<Op>, op: Op, i: nat)
    requires Held(s, position, low, sent, ops) && op.PushAt? && op.pkt == sent(op.pkt.origin)
    requires JitterArrival.Joins(s, t, op.pkt, op.receivedAt, i)
    ensures Held(t, position, low, sent, ops + [op]) && t.log == s.log && t.stats.lost == s.stats.lost
  {
    JoinsWaits(s, t, op.pkt, op.receivedAt, i);
    hide Held, Waits, Heard, JitterArrival.Joins;
    forall e | e in t.list ensures e in s.list || Heard(e, sent, ops + [op]) {
      if e !in s.list { JustHeard(e, sent, ops, op); }
    }
    HoldsMore(s, t, position, low, sent, ops, op);
  }

  /** A packet whose number waits in the window is the one that waits. */
  lemma WaitsAlready(s: Play, base: int, k: nat, pkt: Packet)
    requires Windowed(s, base, true) && k < |s.list| && s.list[k].SN() == pkt.sn
    requires pkt.origin == base + s.log.travel + Sub(pkt.sn, s.prevSN)
    ensures Waits(s.list, pkt.origin)
  {
    WaitsAt(s.list, k);
  }

  lemma WaitsAt(list: seq<Entry>, k: nat)
    requires k < |list|
    ensures Waits(list, list[k].ext.packet.origin)
  {
  }

  lemma JustHeard(e: Entry, sent: int -> Packet, ops: seq<Op>, op: Op)
    requires op.PushAt? && op.pkt == sent(op.pkt.origin) && e.ext == ExtPacket(op.receivedAt, op.pkt)
    requires e.start == op.pkt.partitionHead && e.end == op.pkt.partitionTail
    ensures Heard(e, sent, ops + [op])
  {
    assert (ops + [op])[|ops|] == op;
  }

  // ----- whole runs

  /** No complete sample that is next waits in the list. */
  predicate Caught(s: Play) {
    |s.list| > 0 && RunLength(s.list) > 0 ==> s.list[0].SN() != Next(s.prevSN)
  }

  lemma StepHolds(s: State, base: int, low: int, sent: int -> Packet, ops: seq<Op>, op: Op, t: State)
    requires Stream(sent) && InWindow(s, base, true) && Held(s.play, base + s.play.log.travel, low, sent, ops)
    requires op.PushAt? || op.Timer?
    requires op.PushAt? ==> op.pkt == sent(op.pkt.origin) && s.ssrc == Some(op.pkt.ssrc) && Arrives(s.play, base, true, op.pkt)
    requires InTime(sent, ops + [op], low, op.now - s.latency) && t == Step(s, op)
    ensures Held(t.play, base + t.play.log.travel, low, sent, ops + [op]) && Caught(t.play) && t.latency == s.latency
    ensures t.play.stats.lost == s.play.stats.lost && t.play.log.evicted == s.play.log.evicted
  {
    hide Push, PopReady, Held, Stream, InTime, Windowed, Arrives;
    var u := if op.PushAt? then Push(s, op.pkt, op.receivedAt) else s;
    if op.PushAt? {
      PushHolds(s, base, low, sent, ops, op, u);
      PushInWindow(s, base, true, op.pkt, op.receivedAt);
      PushKeepsLatency(s, op.pkt, op.receivedAt);
    } else {
      HoldsMore(s.play, s.play, base + s.play.log.travel, low, sent, ops, op);
    }
    PopReadyHolds(u, base, low, sent, ops + [op], op.now, PopReady(u, op.now));
    PopReadyCatches(u, op.now);
  }

  lemma PushKeepsLatency(s: State, pkt: Packet, at: int)
    requires !s.detectRestarts && s.ssrc == Some(pkt.ssrc)
    ensures Push(s, pkt, at).latency == s.latency
  {
    hide Admit;
  }

  lemma PopReadyCatches(s: State, now: int)
    ensures Caught(PopReady(s, now).play) && PopReady(s, now).latency == s.latency
  {
    var t := PopReady(s, now);
    if |t.play.list| > 0 && RunLength(t.play.list) > 0 { JitterRelease.NothingReadyWaits(s, now, t); }
    hide RunLength;
  }

  lemma StartsHeld(s: Play, position: int, sent: int -> Packet, ops: seq<Op>)
    requires s.list == [] && ops == [] && sent(position).partitionTail
    ensures Held(s, position, position, sent, ops) && Caught(s)
  {
  }

  lemma {:induction false} StepsHold(s: State, base: int, sent: int -> Packet, ops: seq<Op>, t: State)
    requires Stream(sent) && InWindow(s, base, true) && StaysInWindow(s, base, true, ops) && s.play.list == []
    requires sent(base + s.play.log.travel).partitionTail
    requires Punctual(sent, ops, base + s.play.log.travel, s.latency) && t == Steps(s, ops)
    ensures Held(t.play, base + t.play.log.travel, base + s.play.log.travel, sent, ops)
    ensures Caught(t.play) && t.latency == s.latency
    ensures t.play.stats.lost == s.play.stats.lost && t.play.log.evicted == s.play.log.evicted
  {
    hide Step, Stream, Held, InTime, Windowed, Caught, Arrives;
    if |ops| == 0 {
      StartsHeld(s.play, base + s.play.log.travel, sent, ops);
    } else {
      var n := |ops| - 1;
      var before := Steps(s, ops[..n]);
      StepsHold(s, base, sent, ops[..n], before);
      StepsInWindow(s, base, true, ops[..n]);
      assert ops[..n] + [ops[n]] == ops;
      StepHolds(before, base, base + s.play.log.travel, sent, ops[..n], ops[n], t);
    }
  }

  /**
    Delivery: in the window, when no packet is held for the latency while one before it or one of its
    sample is still to come, nothing is lost or dropped off the list, and every packet up to the end of a
    sample by which all have arrived is handed over, whatever the reordering and duplication.
   */
  lemma DeliveredInTime(s: State, base: int, sent: int -> Packet, ops: seq<Op>, last: int, t: State)
    requires Stream(sent) && InWindow(s, base, true) && StaysInWindow(s, base, true, ops) && s.play.list == []
    requires sent(base + s.play.log.travel).partitionTail
    requires Punctual(sent, ops, base + s.play.log.travel, s.latency) && t == Steps(s, ops)
    requires Whole(sent, ops, base + s.play.log.travel, last, last)
    ensures forall m :: base + s.play.log.travel < m <= last && !sent(m).padding ==>
              exists x :: x in Flatten(t.play.log.delivered) && x.packet == sent(m)
    ensures t.play.stats.lost == s.play.stats.lost && t.play.log.evicted == s.play.log.evicted
    ensures base + t.play.log.travel >= last && t.play.prevSN == Wrap(base + t.play.log.travel)
  {
    hide Steps, Step, StaysInWindow, Punctual, RunLength;
    StepsHold(s, base, sent, ops, t);
    StepsInWindow(s, base, true, ops);
    var low, position := base + s.play.log.travel, base + t.play.log.travel;
    if position < last { HeadIsNext(t.play, base, low, sent, ops, last); }
    forall m | low < m <= last && !sent(m).padding ensures HandedOver(t.play.log.delivered, sent(m)) { }
  }
}
