/**
  The jitter buffer as the program keeps it: a doubly linked list of packets with a free pool, updated
  in place. Every method is proved to compute what JitterModel says of the abstract state.
 */
module JitterBuffer {
  import opened Options
  import opened Seq16
  import opened JitterLines
  import opened JitterTypes
  import opened JitterList
  import opened JitterModel
  import opened PacketList

  class SeqLine {
    var ok: bool
    var high: u16
    var first: int
    var lastAt: int
    var at: seq<int>
    ghost var past: seq<int>

    ghost function View(): Line
      reads this
    {
      Line(ok, high, first, lastAt, at, past)
    }

    constructor ()
      ensures View() == NO_LINE
    {
      ok, high, first, lastAt, at, past := false, 0, 0, 0, [], [];
    }

    predicate Fits(sn: u16)
      reads this
      ensures Fits(sn) == View().Fits(sn)
    {
      ok && (Sub(sn, high) <= LINE_AHEAD || Sub(high, sn) <= LINE_BEHIND)
    }

    predicate Continues(sn: u16, playing: u16)
      reads this
      ensures Continues(sn, playing) == View().Continues(sn, playing)
    {
      var step, jump := Sub(sn, high), Sub(sn, playing);
      ok && step >= 1 && step < jump && jump <= LINE_AHEAD
    }

    method Add(sn: u16, t: int)
      modifies this
      ensures View() == old(View()).Add(sn, t)
    {
      if !ok { first := t; }
      if !ok || Before(high, sn) { high := sn; }
      ok := true;
      lastAt := t;
      at := at + [t];
    }

    method Count(now: int, window: int) returns (n: nat)
      modifies this
      ensures View() == old(View()).Forget(now) && high == old(high)
      ensures n == old(View()).Count(now, window)
    {
      var i := 0;
      while i < |at| && now - at[i] > LINE_PARALLEL
        invariant 0 <= i <= |at|
        invariant forall j :: 0 <= j < i ==> now - at[j] > LINE_PARALLEL
      {
        i := i + 1;
      }
      assert i == LeadingOlder(at, now, LINE_PARALLEL);
      past := past + at[..i];
      at := at[i..];
      i := 0;
      while i < |at| && now - at[i] > window
        invariant 0 <= i <= |at|
        invariant forall j :: 0 <= j < i ==> now - at[j] > window
      {
        i := i + 1;
      }
      assert i == LeadingOlder(at, now, window);
      n := |at| - i;
    }

    method Reset()
      modifies this
      ensures View() == NO_LINE
    {
      ok, high, first, lastAt, at, past := false, 0, 0, 0, [], [];
    }
  }

  class Buffer {
    var latency: int
    const detectRestarts: bool
    var initialized: bool
    var prevSN: u16
    var ssrc: int
    var hasSSRC: bool
    var cur: SeqLine
    var alt: SeqLine
    const q: PacketList             // head, tail, pool and size
    var stats: Stats
    var timer: int
    ghost var log: Log

    ghost function Core(): Play
      reads this, q
    {
      Play(initialized, prevSN, q.entries, stats, log)
    }

    ghost function Abs(): State
      reads this, cur, alt, q
    {
      State(latency, detectRestarts, if hasSSRC then Some(ssrc) else None, cur.View(), alt.View(), timer, Core())
    }

    ghost predicate Valid()
      reads this, q, q.Repr
    {
      q.Valid() && cur != alt
    }

    constructor (latency: int, detectRestarts: bool)
      ensures Valid() && fresh(q) && fresh(q.Repr) && fresh(cur) && fresh(alt)
      ensures Abs() == NewBuffer(latency, detectRestarts)
    {
      this.latency, this.detectRestarts := latency, detectRestarts;
      initialized, prevSN, ssrc, hasSSRC := false, 0, 0, false;
      cur := new SeqLine();
      alt := new SeqLine();
      q := new PacketList();
      stats, timer, log := NO_STATS, latency, NO_LOG;
    }

    // ----- taking packets off

    /** Calls the loss handler. */
    ghost method OnPacketLoss()
      modifies this`log
      ensures Core() == Report(old(Core()))
    {
      log := log.(reports := log.reports + [(stats.lost, stats.dropped)]);
    }

    /** Hands over the sample at the head, which is complete. */
    method PopSample(ghost expiry: Option<int>)
      requires q.Valid() && RunLength(q.entries) > 0
      modifies this`initialized, this`prevSN, this`stats, this`log, q, q.Repr
      ensures q.Valid() && q.Repr == old(q.Repr)
      ensures Core() == JitterModel.PopSample(old(Core()), expiry) && |q.entries| < |old(q.entries)|
    {
      hide q.Linked, q.Valid, NonPadding, RunLength;
      ghost var s := Core();
      var sample, n, last := q.TakeSample();
      prevSN := last;
      stats := stats.(popped := stats.popped + n, samples := stats.samples + 1);
      initialized := true;
      // the caller passes the sample to onPacket unless it is empty
      log := log.(travel := log.travel + Sub(s.list[0].SN(), s.prevSN) + n - 1,
                  runs := log.runs + [Run(s.list[..n], !s.initialized, s.prevSN, expiry)],
                  delivered := if sample == [] then log.delivered else log.delivered + [sample]);
    }

    /** Drops the head of the list, counting what is missing before it. */
    method DropHead()
      requires q.Valid() && |q.entries| > 0
      modifies this`prevSN, this`stats, this`log, q, q.Repr
      ensures q.Valid() && q.Repr == old(q.Repr)
      ensures Core() == JitterModel.DropHead(old(Core()))
    {
      hide q.Linked;
      var c := q.TakeHead();
      if initialized && !c.discont {
        stats := stats.(lost := stats.lost + MissingBetween(c.SN(), prevSN));
        log := log.(measured := log.measured + [Measure(c.SN(), prevSN)]);
      }
      log := log.(travel := log.travel + Sub(c.SN(), prevSN), evicted := log.evicted + 1);
      prevSN := c.SN();
      stats := stats.(dropped := stats.dropped + 1);
    }

    /** Drops incomplete heads: those received before expiry, or all of them when forced. */
    method DropIncomplete(expiry: int, force: bool) returns (dropped: bool)
      requires q.Valid()
      modifies this`prevSN, this`stats, this`log, q, q.Repr
      ensures q.Valid() && q.Repr == old(q.Repr)
      ensures Core() == JitterModel.DropIncomplete(old(Core()), if force then None else Some(expiry))
      ensures dropped == (|q.entries| < |old(q.entries)|)
    {
      hide q.Linked;
      ghost var limit := if force then None else Some(expiry);
      ghost var s := Core();
      dropped := false;
      while q.head != null
        invariant q.Valid() && q.Repr == old(q.Repr)
        invariant JitterModel.DropIncomplete(Core(), limit) == JitterModel.DropIncomplete(s, limit)
        invariant |q.entries| <= |s.list| && dropped == (|q.entries| < |s.list|)
        decreases |q.entries|
      {
        var complete := q.HeadIsComplete();
        if complete || !(force || q.head.ext.receivedAt < expiry) { break; }
        DropHead();
        dropped := true;
      }
    }

    /** Whether the head may go without waiting. */
    method HeadInSequence() returns (b: bool)
      requires q.Valid() && |q.entries| > 0
      ensures b == InSequence(Core())
    {
      hide q.Linked;
      b := q.head.ext.packet.sn == Next(prevSN) || q.head.discont || !initialized;
    }

    /** Counts the packets missing before the head as lost. */
    method MeasureHead()
      requires q.Valid() && |q.entries| > 0
      modifies this`stats, this`log
      ensures Core() == JitterModel.MeasureHead(old(Core()))
    {
      hide q.Linked;
      stats := stats.(lost := stats.lost + MissingBetween(q.head.ext.packet.sn, prevSN));
      log := log.(measured := log.measured + [Measure(q.head.ext.packet.sn, prevSN)]);
    }

    /** Drops the incomplete heads that have been held for longer than the latency. */
    method DropIncompleteExpired(expiry: int)
      requires q.Valid()
      modifies this`prevSN, this`stats, this`log, q, q.Repr
      ensures q.Valid() && q.Repr == old(q.Repr)
      ensures Core() == DropExpired(old(Core()), expiry)
    {
      hide q.Linked;
      var dropped := DropIncomplete(expiry, false);
      if dropped { OnPacketLoss(); }
    }

    /** The loop of popReady. */
    method ReleaseReady(expiry: int)
      requires q.Valid()
      modifies this`initialized, this`prevSN, this`stats, this`log, q, q.Repr
      ensures q.Valid() && q.Repr == old(q.Repr)
      ensures Core() == JitterModel.ReleaseReady(old(Core()), expiry)
    {
      hide q.Linked, JitterModel.PopSample, JitterModel.MeasureHead, RunLength;
      ghost var s := Core();
      var loss := false;
      while q.head != null
        invariant q.Valid() && q.Repr == old(q.Repr)
        invariant Release(s, expiry).0 == Release(Core(), expiry).0
        invariant Release(s, expiry).1 == (loss || Release(Core(), expiry).1)
        decreases |q.entries|
      {
        var complete := q.HeadIsComplete();
        if !complete { break; }
        var inSequence := HeadInSequence();
        if inSequence {
        } else if q.head.ext.receivedAt <= expiry {
          loss := true;
          MeasureHead();
        } else {
          break;
        }
        PopSample(Some(expiry));
      }
      if loss { OnPacketLoss(); }
    }

    method PopReady(now: int)
      requires Valid()
      modifies this, q, q.Repr
      ensures Valid() && q.Repr == old(q.Repr) && cur == old(cur) && alt == old(alt)
      ensures Abs() == JitterModel.PopReady(old(Abs()), now)
    {
      hide q.Linked, DropExpired, JitterModel.ReleaseReady, cur.View;
      var expiry := now - latency;
      DropIncompleteExpired(expiry);
      ReleaseReady(expiry);
      if q.head != null {
        timer := q.head.ext.receivedAt + latency;
      }
    }

    /** Flush with the lock held. */
    method FlushLocked()
      requires q.Valid()
      modifies this`initialized, this`prevSN, this`stats, this`log, q, q.Repr
      ensures q.Valid() && q.Repr == old(q.Repr)
      ensures Core() == Flush(old(Core()))
    {
      hide q.Linked, JitterModel.PopSample, JitterModel.MeasureHead, JitterModel.DropIncomplete, InSequence, RunLength;
      var dropped := DropIncomplete(0, true);
      ghost var s, dropped0 := Core(), dropped;
      var loss := false;
      while q.head != null
        invariant q.Valid() && q.Repr == old(q.Repr)
        invariant Drain(s).0 == Drain(Core()).0
        invariant (dropped0 || Drain(s).1) == (loss || dropped || Drain(Core()).1)
        decreases |q.entries|
      {
        var complete := q.HeadIsComplete();
        if !complete { break; }
        var inSequence := HeadInSequence();
        if !inSequence {
          loss := true;
          MeasureHead();
        }
        PopSample(None);
        var more := DropIncomplete(0, true);
        if more { dropped := true; }
      }
      if loss || dropped { OnPacketLoss(); }
    }

    method ResetStream()
      requires q.Valid()
      modifies this`initialized, this`prevSN, this`stats, this`log, q, q.Repr
      ensures q.Valid() && q.Repr == old(q.Repr)
      ensures Core() == JitterModel.ResetStream(old(Core()))
    {
      hide q.Linked, Flush;
      FlushLocked();
      initialized := false;
      prevSN := 0;
    }

    method SwitchStream(ssrc: int)
      requires Valid() && hasSSRC
      modifies this`initialized, this`prevSN, this`stats, this`log, this`ssrc, cur, alt, q, q.Repr
      ensures Valid() && q.Repr == old(q.Repr)
      ensures Abs() == JitterModel.SwitchStream(old(Abs()), ssrc)
    {
      hide q.Linked, JitterModel.ResetStream;
      ResetStream();
      this.ssrc := ssrc;
      cur.Reset();
      alt.Reset();
      stats := stats.(switches := stats.switches + 1);
    }

    // ----- putting packets on

    ghost predicate SameLines(a: SeqLine, b: SeqLine)
      reads this
    {
      (cur == a && alt == b) || (cur == b && alt == a)
    }

    /** Adds the packet to the alternate line, starting that line anew when the packet does not fit it. */
    method AddToAlt(sn: u16, at: int)
      modifies alt
      ensures alt.View() == AltWith(old(alt.View()), sn, at)
    {
      var fits := alt.Fits(sn);
      if !fits { alt.Reset(); }
      alt.Add(sn, at);
    }

    /** Whether the alternate line takes over, and whether because the playing line went quiet. */
    method Outvoted(at: int) returns (over: bool, quiet: bool)
      requires cur != alt
      modifies cur, alt
      ensures var c, a := old(cur.View()), old(alt.View());
              var n, m := a.Count(at, Window(c, a)), c.Count(at, Window(c, a));
              && quiet == Quiet(c, a, at)
              && over == (quiet || (n >= LINE_MIN_PACKETS && n >= 2 * m))
              && alt.View() == (if quiet then a else a.Forget(at))
              && cur.high == old(cur.high)
              && cur.View() == if quiet || n < LINE_MIN_PACKETS then c else c.Forget(at)
    {
      hide Line.Count, Line.Forget;
      var parallel := cur.lastAt - alt.first >= LINE_PARALLEL;
      quiet := !parallel && at - cur.lastAt >= LINE_QUIET;
      if !quiet {
        var window := if parallel then LINE_PARALLEL else LINE_WINDOW;
        var n := alt.Count(at, window);
        if n < LINE_MIN_PACKETS { return false, quiet; }
        var m := cur.Count(at, window);
        if n < 2 * m { return false, quiet; }
      }
      over := true;
    }

    /** The alternate line becomes the playing one. */
    method SwitchLine(sn: u16, quiet: bool)
      requires Valid()
      modifies this, alt, cur, q, q.Repr
      ensures Valid() && q.Repr == old(q.Repr) && SameLines(old(cur), old(alt))
      ensures Abs() == Decided(old(Abs()), TakeOver(old(cur.high), old(alt.View()), sn, quiet))
    {
      hide q.Linked, q.Valid, JitterModel.ResetStream;
      var ahead := Before(cur.high, sn) && WithinRange(sn, cur.high);
      if !ahead { ResetStream(); }
      if !quiet || !ahead {
        stats := stats.(restarts := stats.restarts + 1);
      }
      cur, alt := alt, cur;
      alt.Reset();
    }

    /** Whether sn belongs to the playing line, switching lines first if its line should take over. */
    method AcceptLine(sn: u16, at: int) returns (accepted: bool)
      requires Valid()
      modifies this, cur, alt, q, q.Repr
      ensures Valid() && q.Repr == old(q.Repr) && SameLines(old(cur), old(alt))
      ensures Abs() == JitterModel.AcceptLine(old(Abs()), sn, at)
      ensures accepted == Vote(old(cur.View()), old(alt.View()), sn, at).accept
    {
      hide q.Linked, JitterModel.ResetStream, Line.Count, Line.Forget, Line.Add, AltWith, Quiet, TakeOver;
      var fits := cur.Fits(sn);
      var continues := alt.Continues(sn, cur.high);
      if !cur.ok || (fits && !continues) {
        cur.Add(sn, at);
        return true;
      }
      AddToAlt(sn, at);
      var over, quiet := Outvoted(at);
      if !over { return false; }
      SwitchLine(sn, quiet);
      return true;
    }

    ghost method PaddingGone()
      modifies this`log
      ensures Core() == DiscardPadding(old(Core()))
    {
      log := log.(paddingGone := log.paddingGone + 1);
    }

    method Duplicate(pkt: Packet)
      modifies this`stats, this`log
      ensures Core() == DiscardDuplicate(old(Core()), pkt)
    {
      if pkt.padding {
        PaddingGone();
      } else {
        stats := stats.(duplicate := stats.duplicate + 1);
      }
    }

    method Stray(pkt: Packet)
      modifies this`stats, this`log
      ensures Core() == DiscardStray(old(Core()), pkt)
    {
      if pkt.padding {
        PaddingGone();
      } else {
        stats := stats.(stray := stats.stray + 1, dropped := stats.dropped + 1);
        OnPacketLoss();
      }
    }

    /** Puts a packet on the list that neither its first nor its last packet duplicates. */
    method Enqueue(pkt: Packet, receivedAt: int)
      requires q.Valid()
      requires |q.entries| > 0 ==> pkt.sn != q.entries[0].SN() && pkt.sn != q.entries[|q.entries| - 1].SN()
      modifies this`stats, this`log, q, q.Repr
      ensures q.Valid() && old(q.Repr) <= q.Repr && fresh(q.Repr - old(q.Repr))
      ensures Core() == JitterModel.Enqueue(old(Core()), pkt, receivedAt)
    {
      hide q.Linked, Place, InsertAt, DiscardDuplicate;
      var discont := !initialized || !WithinRange(pkt.sn, prevSN);
      ghost var es := q.entries;
      if |es| > 0 { PlaceFits(es, pkt.sn, discont); }
      var duplicate, reordered := q.Enqueue(pkt, receivedAt, discont);
      if duplicate { Duplicate(pkt); }
      if reordered { stats := stats.(reordered := stats.reordered + 1); }
    }

    method Expire(pkt: Packet)
      modifies this`stats, this`log
      ensures Core() == DiscardExpired(old(Core()), pkt)
    {
      if pkt.padding {
        PaddingGone();
      } else {
        stats := stats.(dropped := stats.dropped + 1);
        OnPacketLoss();
      }
    }

    /** The last part of push, once the packet is known to belong to the playing line. */
    method Admit(pkt: Packet, receivedAt: int)
      requires q.Valid()
      modifies this`stats, this`log, q, q.Repr
      ensures q.Valid() && old(q.Repr) <= q.Repr && fresh(q.Repr - old(q.Repr))
      ensures Core() == JitterModel.Admit(old(Core()), pkt, receivedAt)
    {
      hide q.Linked, JitterModel.Enqueue, DiscardExpired, DiscardDuplicate;
      if initialized && Before(pkt.sn, prevSN) {
        Expire(pkt);
      } else if q.head != null && (pkt.sn == q.head.ext.packet.sn || pkt.sn == q.tail.ext.packet.sn) {
        Duplicate(pkt);
      } else {
        Enqueue(pkt, receivedAt);
      }
    }

    method FollowSSRC(ssrc: int)
      requires Valid()
      modifies this, cur, alt, q, q.Repr
      ensures Valid() && q.Repr == old(q.Repr) && cur == old(cur) && alt == old(alt)
      ensures Abs() == JitterModel.FollowSSRC(old(Abs()), ssrc)
    {
      hide q.Linked, JitterModel.SwitchStream, cur.View;
      if !hasSSRC {
        this.ssrc, hasSSRC := ssrc, true;
      } else if ssrc != this.ssrc {
        SwitchStream(ssrc);
      }
    }

    method Sift(pkt: Packet, receivedAt: int)
      requires Valid()
      modifies this, cur, alt, q, q.Repr
      ensures Valid() && old(q.Repr) <= q.Repr && fresh(q.Repr - old(q.Repr)) && SameLines(old(cur), old(alt))
      ensures Abs() == JitterModel.Sift(old(Abs()), pkt, receivedAt)
    {
      hide q.Linked, JitterModel.AcceptLine, JitterModel.Admit, DiscardStray, Vote, cur.View;
      if detectRestarts {
        var accepted := AcceptLine(pkt.sn, receivedAt);
        if !accepted {
          Stray(pkt);
          return;
        }
      }
      Admit(pkt, receivedAt);
    }

    method Arrive(pkt: Packet)
      modifies this`stats
      ensures Core() == JitterModel.Arrive(old(Core()), pkt)
    {
      stats := stats.(pushed := stats.pushed + 1);
      if pkt.padding {
        stats := stats.(paddingPushed := stats.paddingPushed + 1);
      }
    }

    method Push(pkt: Packet, receivedAt: int)
      requires Valid()
      modifies this, cur, alt, q, q.Repr
      ensures Valid() && old(q.Repr) <= q.Repr && fresh(q.Repr - old(q.Repr)) && SameLines(old(cur), old(alt))
      ensures Abs() == JitterModel.Push(old(Abs()), pkt, receivedAt)
    {
      hide q.Linked, JitterModel.FollowSSRC, JitterModel.Sift, JitterModel.Arrive, DiscardPadding, cur.View;
      Arrive(pkt);
      if pkt.padding && !initialized {
        PaddingGone();
        return;
      }
      FollowSSRC(pkt.ssrc);
      Sift(pkt, receivedAt);
    }

    // ----- the public operations, each holding the lock

    method PushAt(pkt: Packet, receivedAt: int, now: int)
      requires Valid()
      modifies this, cur, alt, q, q.Repr
      ensures Valid() && old(q.Repr) <= q.Repr && fresh(q.Repr - old(q.Repr)) && SameLines(old(cur), old(alt))
      ensures Abs() == Step(old(Abs()), Op.PushAt(pkt, receivedAt, now))
    {
      hide q.Linked, JitterModel.Push, JitterModel.PopReady;
      Push(pkt, receivedAt);
      if q.head == null { return; }
      PopReady(now);
    }

    method OnTimer(now: int)
      requires Valid()
      modifies this, q, q.Repr
      ensures Valid() && q.Repr == old(q.Repr) && cur == old(cur) && alt == old(alt)
      ensures Abs() == Step(old(Abs()), Timer(now))
    {
      PopReady(now);
    }

    /** Flush, and the part of Close that is not about the timer. */
    method FlushAll()
      requires Valid()
      modifies this`initialized, this`prevSN, this`stats, this`log, q, q.Repr
      ensures Valid() && q.Repr == old(q.Repr)
      ensures Abs() == Step(old(Abs()), Op.FlushAll)
    {
      hide q.Linked, Flush;
      FlushLocked();
    }

    method UpdateLatency(latency: int)
      requires Valid()
      modifies this`latency, this`timer
      ensures Valid()
      ensures Abs() == Step(old(Abs()), Op.UpdateLatency(latency))
    {
      hide q.Linked;
      this.latency := latency;
      if q.head != null {
        timer := q.head.ext.receivedAt + latency;
      }
    }

    method Size() returns (n: int)
      requires Valid()
      ensures n == |Abs().play.list|
    {
      n := q.size;
    }
  }
}
