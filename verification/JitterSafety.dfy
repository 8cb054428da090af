/** What every operation of the jitter buffer keeps, for arbitrary packets, clocks and operation orders. */
module JitterSafety {
  import opened Options
  import opened Seq16
  import opened JitterLines
  import opened JitterTypes
  import opened JitterList
  import opened JitterModel

  // ----- the invariant

  ghost predicate Adjoining(list: seq<Entry>) {
    forall i, j :: 0 <= i && j == i + 1 && j < |list| ==> Adjacent(list[i].SN(), list[j].SN())
  }

  /** Every packet pushed is accounted for once; pending packets are counted in but not yet placed. */
  predicate Conserved(s: Play, pending: nat) {
    s.stats.pushed == s.stats.popped + s.stats.dropped + s.stats.duplicate + |s.list| + s.log.paddingGone + pending
  }

  /** A sample is a run from a partition head to the first tail, released for one of four reasons. */
  ghost predicate Justified(run: Run) {
    && CompleteRun(run.entries, |run.entries|)
    && (run.expiry.Some? ==>
          || run.first
          || run.entries[0].SN() == Next(run.prevSN)
          || run.entries[0].discont
          || run.entries[0].ext.receivedAt <= run.expiry.value)
  }

  /** What onPacket is given: the packets of each sample that are not padding, when there are any. */
  function Handed(runs: seq<Run>): seq<seq<ExtPacket>> {
    if |runs| == 0 then []
    else
      var sample := NonPadding(runs[|runs| - 1].entries);
      Handed(runs[..|runs| - 1]) + (if sample == [] then [] else [sample])
  }

  ghost predicate Sound(runs: seq<Run>, delivered: seq<seq<ExtPacket>>) {
    && (forall run :: run in runs ==> Justified(run))
    && delivered == Handed(runs)
  }

  ghost predicate Kept(s: Play, pending: nat) {
    && Adjoining(s.list)
    && Conserved(s, pending)
    && Sound(s.log.runs, s.log.delivered)
  }

  /** The loss handler last heard the current counters. */
  predicate Reported(s: Play) {
    LastReport(s.log.reports) == (s.stats.lost, s.stats.dropped)
  }

  function LastReport(reports: seq<(nat, nat)>): (nat, nat) {
    if |reports| == 0 then (0, 0) else reports[|reports| - 1]
  }

  /** A waiting packet always has the timer set for the moment it reaches the latency. */
  predicate Armed(s: State) {
    |s.play.list| > 0 ==> s.timer == s.play.list[0].ext.receivedAt + s.latency
  }

  ghost predicate Safe(s: State) {
    Kept(s.play, 0) && Reported(s.play) && Armed(s)
  }

  // ----- taking packets off

  lemma PopSampleKeeps(s: Play, expiry: Option<int>, pending: nat)
    requires Kept(s, pending) && RunLength(s.list) > 0
    requires expiry.Some? ==> InSequence(s) || s.list[0].ext.receivedAt <= expiry.value
    ensures Kept(PopSample(s, expiry), pending)
  {
    var t := PopSample(s, expiry);
    var k := RunLength(s.list);
    var run := t.log.runs[|t.log.runs| - 1];
    assert run.entries == s.list[..k];
    assert t.log.runs[..|t.log.runs| - 1] == s.log.runs;
    assert Justified(run);
  }

  lemma {:induction false} DropIncompleteKeeps(s: Play, limit: Option<int>, pending: nat)
    requires Kept(s, pending)
    ensures var t := DropIncomplete(s, limit);
            && Kept(t, pending)
            && t.log.reports == s.log.reports
    decreases |s.list|
  {
    if DropIncomplete(s, limit) != s {
      DropIncompleteKeeps(DropHead(s), limit, pending);
    }
  }

  lemma {:induction false} ReleaseKeeps(s: Play, expiry: int, pending: nat)
    requires Kept(s, pending)
    ensures var (t, loss) := Release(s, expiry);
            && Kept(t, pending)
            && t.log.reports == s.log.reports
            && (!loss ==> t.stats.lost == s.stats.lost && t.stats.dropped == s.stats.dropped)
    decreases |s.list|
  {
    if RunLength(s.list) > 0 {
      if InSequence(s) {
        PopSampleKeeps(s, Some(expiry), pending);
        ReleaseKeeps(PopSample(s, Some(expiry)), expiry, pending);
      } else if s.list[0].ext.receivedAt <= expiry {
        PopSampleKeeps(MeasureHead(s), Some(expiry), pending);
        ReleaseKeeps(PopSample(MeasureHead(s), Some(expiry)), expiry, pending);
      }
    }
  }

  lemma DropExpiredKeeps(s: Play, expiry: int)
    requires Kept(s, 0) && Reported(s)
    ensures var t := DropExpired(s, expiry); Kept(t, 0) && Reported(t)
  {
    DropIncompleteKeeps(s, Some(expiry), 0);
  }

  lemma ReleaseReadyKeeps(s: Play, expiry: int)
    requires Kept(s, 0) && Reported(s)
    ensures var t := ReleaseReady(s, expiry); Kept(t, 0) && Reported(t)
  {
    ReleaseKeeps(s, expiry, 0);
  }

  lemma {:induction false} DrainKeeps(s: Play, pending: nat)
    requires Kept(s, pending) && (|s.list| > 0 ==> RunLength(s.list) > 0)
    ensures var (t, report) := Drain(s);
            && Kept(t, pending)
            && |t.list| == 0
            && t.log.reports == s.log.reports
            && (!report ==> t.stats.lost == s.stats.lost && t.stats.dropped == s.stats.dropped)
    decreases |s.list|
  {
    if RunLength(s.list) > 0 {
      var e := if InSequence(s) then s else MeasureHead(s);
      PopSampleKeeps(e, None, pending);
      var t := PopSample(e, None);
      DropIncompleteKeeps(t, None, pending);
      DropAllStops(t);
      DrainKeeps(DropIncomplete(t, None), pending);
    }
  }

  /** Dropping without a limit stops only at a complete sample or an empty list. */
  lemma {:induction false} DropAllStops(s: Play)
    ensures var t := DropIncomplete(s, None); |t.list| == 0 || RunLength(t.list) > 0
    decreases |s.list|
  {
    if |s.list| > 0 && RunLength(s.list) == 0 { DropAllStops(DropHead(s)); }
  }

  /** A flush empties the list, and has reported every loss when it returns. */
  lemma FlushKeeps(s: Play, pending: nat)
    requires Kept(s, pending) && Reported(s)
    ensures var t := Flush(s); Kept(t, pending) && Reported(t) && |t.list| == 0
  {
    DropIncompleteKeeps(s, None, pending);
    DropAllStops(s);
    DrainKeeps(DropIncomplete(s, None), pending);
  }

  // ----- putting packets on

  lemma InsertAdjoins(list: seq<Entry>, i: nat, e: Entry)
    requires Adjoining(list) && i <= |list|
    requires i > 0 ==> Adjacent(list[i - 1].SN(), e.SN())
    requires i < |list| ==> Adjacent(e.SN(), list[i].SN())
    ensures Adjoining(InsertAt(list, i, e))
  {
  }

  lemma EnqueueKeeps(s: Play, pkt: Packet, at: int)
    requires Kept(s, 1)
    requires |s.list| > 0 ==> pkt.sn != s.list[0].SN() && pkt.sn != s.list[|s.list| - 1].SN()
    ensures Kept(Enqueue(s, pkt, at), 0)
  {
    if |s.list| > 0 {
      var discont := !s.initialized || !WithinRange(pkt.sn, s.prevSN);
      PlaceFits(s.list, pkt.sn, discont);
      var spot := Place(s.list, pkt.sn, discont);
      if spot.Insert? { InsertAdjoins(s.list, spot.index, NewEntry(pkt, at, spot.discont)); }
    }
  }

  lemma AdmitKeeps(s: Play, pkt: Packet, at: int)
    requires Kept(s, 1) && Reported(s)
    ensures Kept(Admit(s, pkt, at), 0) && Reported(Admit(s, pkt, at))
  {
    if !Expired(s, pkt.sn) && (|s.list| > 0 ==> pkt.sn != s.list[0].SN() && pkt.sn != s.list[|s.list| - 1].SN()) {
      EnqueueKeeps(s, pkt, at);
    }
  }

  // ----- the whole buffer

  lemma PopReadyKeeps(s: State, now: int)
    requires Kept(s.play, 0) && Reported(s.play)
    ensures Safe(PopReady(s, now)) && PopReady(s, now).latency == s.latency
  {
    var expiry := now - s.latency;
    DropExpiredKeeps(s.play, expiry);
    ReleaseReadyKeeps(DropExpired(s.play, expiry), expiry);
  }

  lemma FollowSSRCKeeps(s: State, ssrc: int)
    requires Kept(s.play, 1) && Reported(s.play)
    ensures var t := FollowSSRC(s, ssrc).play; Kept(t, 1) && Reported(t)
  {
    FlushKeeps(s.play, 1);
  }

  lemma SiftKeeps(s: State, pkt: Packet, at: int)
    requires Kept(s.play, 1) && Reported(s.play)
    ensures var t := Sift(s, pkt, at).play; Kept(t, 0) && Reported(t)
  {
    if s.detectRestarts {
      FlushKeeps(s.play, 1);
      var t := AcceptLine(s, pkt.sn, at).play;
      assert Kept(t, 1) && Reported(t);
      AdmitKeeps(t, pkt, at);
    } else {
      AdmitKeeps(s.play, pkt, at);
    }
  }

  lemma PushKeeps(s: State, pkt: Packet, at: int)
    requires Kept(s.play, 0) && Reported(s.play)
    ensures var t := Push(s, pkt, at).play; Kept(t, 0) && Reported(t)
  {
    var s0 := s.(play := Arrive(s.play, pkt));
    if !(pkt.padding && !s.play.initialized) {
      FollowSSRCKeeps(s0, pkt.ssrc);
      SiftKeeps(FollowSSRC(s0, pkt.ssrc), pkt, at);
    }
  }

  // ----- whole runs

  lemma StepKeeps(s: State, op: Op)
    requires Safe(s)
    ensures Safe(Step(s, op))
  {
    match op
    case PushAt(pkt, at, now) =>
      PushKeeps(s, pkt, at);
      var t := Push(s, pkt, at);
      if |t.play.list| > 0 { PopReadyKeeps(t, now); }
    case Timer(now) => PopReadyKeeps(s, now);
    case FlushAll => FlushKeeps(s.play, 0);
    case UpdateLatency(latency) =>
  }

  /** Every state reachable from a new buffer, by any packets in any order at any times, is safe. */
  lemma {:induction false} AlwaysSafe(latency: int, detectRestarts: bool, ops: seq<Op>, s: State)
    requires s == Steps(NewBuffer(latency, detectRestarts), ops)
    ensures Safe(s)
  {
    if |ops| > 0 {
      hide Step;
      var n := |ops| - 1;
      var before := Steps(NewBuffer(latency, detectRestarts), ops[..n]);
      AlwaysSafe(latency, detectRestarts, ops[..n], before);
      StepKeeps(before, ops[n]);
    }
  }

  // ----- progress

  /** The head, if any, has not yet been held for longer than the latency. */
  predicate Settled(s: State, now: int) {
    |s.play.list| > 0 ==> s.play.list[0].ext.receivedAt >= now - s.latency
  }

  /** A head held too long is taken off by one call, whether complete or not. */
  lemma PopReadyAdvances(s: State, now: int)
    requires !Settled(s, now)
    ensures |PopReady(s, now).play.list| < |s.play.list|
  {
    var expiry := now - s.latency;
    if RunLength(s.play.list) == 0 {
      assert |DropIncomplete(DropHead(s.play), Some(expiry)).list| < |s.play.list|;
    } else {
      assert DropIncomplete(s.play, Some(expiry)) == s.play;
    }
  }

  function PopTimes(s: State, now: int, n: nat): State
    decreases n
  {
    if n == 0 then s else PopTimes(PopReady(s, now), now, n - 1)
  }

  /** With the clock standing still, as many calls as there are packets settle the buffer. */
  lemma {:induction false} Settles(s: State, now: int)
    ensures exists n: nat :: n <= |s.play.list| && Settled(PopTimes(s, now, n), now)
    decreases |s.play.list|
  {
    if Settled(s, now) {
      assert Settled(PopTimes(s, now, 0), now);
    } else {
      PopReadyAdvances(s, now);
      var t := PopReady(s, now);
      Settles(t, now);
      var n: nat :| n <= |t.play.list| && Settled(PopTimes(t, now, n), now);
      assert PopTimes(s, now, n + 1) == PopTimes(t, now, n);
    }
  }

  // ----- switching streams and lines

  /** A packet of another SSRC is not rejected: it finds no playing line. */
  lemma NotSwitched(s: State, ssrc: int, sn: u16, at: int)
    requires var u := FollowSSRC(s, ssrc); !Vote(u.cur, u.alt, sn, at).accept
    ensures FollowSSRC(s, ssrc) == s.(ssrc := Some(ssrc))
  {
    hide ResetStream;
  }

  lemma RejectedSift(u: State, pkt: Packet, at: int)
    requires u.detectRestarts && !Vote(u.cur, u.alt, pkt.sn, at).accept
    ensures var t := Sift(u, pkt, at);
            && t.play == DiscardStray(u.play, pkt) && t == u.(cur := t.cur, alt := t.alt, play := t.play)
            && t.cur.(at := u.cur.at, past := u.cur.past) == u.cur && t.cur.History() == u.cur.History()
  {
    VerdictBounds(u.cur, u.alt, pkt.sn, at);
    VoteCases(u.cur, u.alt, pkt.sn, at);
    hide Vote, Belongs, Quiet, AltWith, Admit, DiscardStray, Line.Count, Line.Forget, Line.Add;
  }

  /**
    Pushing a packet of a line that is not playing leaves the list, the playing position and the playing
    line alone, but for old arrivals it forgets, and does nothing but count the packet and report it.
   */
  lemma RejectionIsHarmless(s: State, pkt: Packet, at: int, t: State)
    requires s.detectRestarts && (pkt.padding ==> s.play.initialized) && t == Push(s, pkt, at)
    requires var u := FollowSSRC(s.(play := Arrive(s.play, pkt)), pkt.ssrc); !Vote(u.cur, u.alt, pkt.sn, at).accept
    ensures t.play.list == s.play.list && t.play.prevSN == s.play.prevSN && t.play.initialized == s.play.initialized
    ensures t.cur.(at := s.cur.at, past := s.cur.past) == s.cur && t.cur.History() == s.cur.History()
    ensures var arrived := Arrive(s.play, pkt).stats;
            if pkt.padding then
              t.play.stats == arrived && t.play.log == s.play.log.(paddingGone := s.play.log.paddingGone + 1)
            else
              && t.play.stats == arrived.(dropped := arrived.dropped + 1, stray := arrived.stray + 1)
              && t.play.log == s.play.log.(reports := s.play.log.reports + [(t.play.stats.lost, t.play.stats.dropped)])
    ensures t.ssrc == Some(pkt.ssrc) && t.timer == s.timer && t.latency == s.latency
  {
    var u := FollowSSRC(s.(play := Arrive(s.play, pkt)), pkt.ssrc);
    NotSwitched(s.(play := Arrive(s.play, pkt)), pkt.ssrc, pkt.sn, at);
    RejectedSift(u, pkt, at);
    hide Vote, FollowSSRC, Sift;
  }

  /**
    The first packet of another SSRC, or of a line that takes over without being 0..2999 ahead of the
    playing one, is never expired: what was waiting is handed over or dropped, the packet starts an
    empty list, and the switch or the restart is counted.
   */
  lemma NewStreamStarts(s: State, pkt: Packet, at: int, t: State)
    requires Kept(s.play, 0) && Reported(s.play) && t == Push(s, pkt, at)
    requires !(pkt.padding && !s.play.initialized)
    requires s.ssrc.Some?
    requires s.ssrc == Some(pkt.ssrc) ==>
               s.detectRestarts && Vote(s.cur, s.alt, pkt.sn, at).takeover && Sub(pkt.sn, s.cur.high) >= 3000
    ensures t.play.list == [NewEntry(pkt, at, true)]
    ensures t.ssrc == Some(pkt.ssrc)
    ensures !t.play.initialized && t.play.prevSN == 0
    ensures s.ssrc != Some(pkt.ssrc) ==>
              t.play.stats.switches == s.play.stats.switches + 1 && t.play.stats.restarts == s.play.stats.restarts
    ensures s.ssrc == Some(pkt.ssrc) ==>
              t.play.stats.switches == s.play.stats.switches && t.play.stats.restarts == s.play.stats.restarts + 1
  {
    var p := Arrive(s.play, pkt);
    FlushKeeps(p, 1);
    FlushCounts(p);
    if s.ssrc == Some(pkt.ssrc) {
      TakeoverMeans(s.cur, s.alt, pkt.sn, at, Vote(s.cur, s.alt, pkt.sn, at));
    } else {
      BelongsMeans(NO_LINE, NO_LINE, pkt.sn, at, Vote(NO_LINE, NO_LINE, pkt.sn, at));
      NoTakeover(NO_LINE, NO_LINE, pkt.sn, at, Vote(NO_LINE, NO_LINE, pkt.sn, at));
    }
    hide Vote, Flush, Kept, Place;
  }

  /**
    Any other packet that the vote accepts is taken as if lines were not told apart: the list, the playing
    position and the counters are those of such a buffer, but for a restart counted when the takeover
    did not follow a silence.
   */
  lemma AcceptedIsPlain(s: State, pkt: Packet, at: int, t: State, v: Verdict)
    requires s.detectRestarts && (s.ssrc == None || s.ssrc == Some(pkt.ssrc)) && t == Push(s, pkt, at)
    requires !(pkt.padding && !s.play.initialized)
    requires v == Vote(s.cur, s.alt, pkt.sn, at) && v.accept && (v.takeover ==> Sub(pkt.sn, s.cur.high) < 3000)
    ensures var plain := Push(s.(detectRestarts := false), pkt, at).play;
            var restart := v.takeover && !Silent(s.cur, if Near(s.alt, pkt.sn) then s.alt.first else at, at);
            t.play == if restart then Restarted(plain) else plain
    ensures t.ssrc == Some(pkt.ssrc)
  {
    if v.takeover { TakeoverMeans(s.cur, s.alt, pkt.sn, at, v); } else { NoTakeover(s.cur, s.alt, pkt.sn, at, v); }
    hide Vote, Admit, Silent, Near, Arrive, Push, Sift, Restarted;
    PushSifts(s, pkt, at);
    PushSifts(s.(detectRestarts := false), pkt, at);
    var p := Arrive(s.play, pkt);
    AcceptedSift(s.(play := p, ssrc := Some(pkt.ssrc)), pkt, at, v);
    PlainSift(s.(play := p, ssrc := Some(pkt.ssrc), detectRestarts := false), pkt, at);
    AdmitIgnoresRestarts(p, pkt, at);
  }

  /** One more restart counted. */
  function Restarted(s: Play): Play {
    s.(stats := s.stats.(restarts := s.stats.restarts + 1))
  }

  /** A packet of the buffer's SSRC is counted in and goes to the vote. */
  lemma PushSifts(s: State, pkt: Packet, at: int)
    requires (s.ssrc == None || s.ssrc == Some(pkt.ssrc)) && !(pkt.padding && !s.play.initialized)
    ensures Push(s, pkt, at) == Sift(s.(play := Arrive(s.play, pkt), ssrc := Some(pkt.ssrc)), pkt, at)
  {
    hide Sift, Arrive;
  }

  lemma PlainSift(u: State, pkt: Packet, at: int)
    requires !u.detectRestarts
    ensures Sift(u, pkt, at) == u.(play := Admit(u.play, pkt, at))
  {
  }

  lemma AcceptedSift(u: State, pkt: Packet, at: int, v: Verdict)
    requires u.detectRestarts && v == Vote(u.cur, u.alt, pkt.sn, at) && v.accept && (v.takeover ==> v.ahead)
    ensures var t, p := Sift(u, pkt, at), u.play;
            && t.play == Admit(if v.restart then Restarted(p) else p, pkt, at)
            && t.ssrc == u.ssrc
  {
    hide Vote, Admit, DiscardStray, ResetStream;
  }

  /** Admitting a packet does not look at the restarts counted. */
  lemma AdmitIgnoresRestarts(p: Play, pkt: Packet, at: int)
    ensures Admit(Restarted(p), pkt, at) == Restarted(Admit(p, pkt, at))
    ensures Admit(p, pkt, at).stats.restarts == p.stats.restarts
  {
    hide Place, InsertAt;
  }

  lemma {:induction false} DropIncompleteCounts(s: Play, limit: Option<int>)
    ensures var t := DropIncomplete(s, limit); (t.stats.switches, t.stats.restarts) == (s.stats.switches, s.stats.restarts)
    decreases |s.list|
  {
    if DropIncomplete(s, limit) != s { DropIncompleteCounts(DropHead(s), limit); }
  }

  lemma {:induction false} DrainCounts(s: Play)
    ensures var t := Drain(s).0; (t.stats.switches, t.stats.restarts) == (s.stats.switches, s.stats.restarts)
    decreases |s.list|
  {
    if RunLength(s.list) > 0 {
      var t := PopSample(if InSequence(s) then s else MeasureHead(s), None);
      DropIncompleteCounts(t, None);
      DrainCounts(DropIncomplete(t, None));
    }
  }

  lemma FlushCounts(s: Play)
    ensures (Flush(s).stats.switches, Flush(s).stats.restarts) == (s.stats.switches, s.stats.restarts)
  {
    DropIncompleteCounts(s, None);
    DrainCounts(DropIncomplete(s, None));
  }

  // ----- sequence lines over whole runs

  /** Arrival times do not decrease, and none is later than clock. */
  ghost predicate ArrivalsInOrder(ops: seq<Op>, clock: int) {
    |ops| > 0 ==>
      var n := |ops| - 1;
      if ops[n].PushAt? then ops[n].receivedAt <= clock && ArrivalsInOrder(ops[..n], ops[n].receivedAt)
      else ArrivalsInOrder(ops[..n], clock)
  }

  lemma PopReadyLines(s: State, now: int)
    ensures var t := PopReady(s, now); t.cur == s.cur && t.alt == s.alt
  {
  }

  lemma SiftLines(s: State, pkt: Packet, at: int)
    ensures var t, v := Sift(s, pkt, at), Vote(s.cur, s.alt, pkt.sn, at);
            (t.cur, t.alt) == if s.detectRestarts then (v.cur, v.alt) else (s.cur, s.alt)
  {
    hide Vote, Admit, DiscardStray, Flush;
  }

  lemma FollowLines(s: State, ssrc: int)
    ensures var t := FollowSSRC(s, ssrc);
            (t.cur == s.cur && t.alt == s.alt) || (t.cur == NO_LINE && t.alt == NO_LINE)
  {
    hide ResetStream;
  }

  lemma SiftLinesOrdered(s: State, pkt: Packet, at: int)
    requires Ordered(s.cur, at) && Ordered(s.alt, at)
    ensures var t := Sift(s, pkt, at); Ordered(t.cur, at) && Ordered(t.alt, at)
  {
    hide Sift, Vote, Ordered;
    SiftLines(s, pkt, at);
    VoteKeepsOrder(s.cur, s.alt, pkt.sn, at, at);
  }

  lemma PushLinesOrdered(s: State, pkt: Packet, clock: int, at: int)
    requires Ordered(s.cur, clock) && Ordered(s.alt, clock) && clock <= at
    ensures var t := Push(s, pkt, at); Ordered(t.cur, at) && Ordered(t.alt, at)
  {
    OrderedLater(s.cur, clock, at);
    OrderedLater(s.alt, clock, at);
    assert Ordered(NO_LINE, at);
    hide Sift, FollowSSRC, Arrive, Ordered;
    var s0 := s.(play := Arrive(s.play, pkt));
    FollowLines(s0, pkt.ssrc);
    var t := FollowSSRC(s0, pkt.ssrc);
    assert Ordered(t.cur, at) && Ordered(t.alt, at);
    SiftLinesOrdered(t, pkt, at);
  }

  lemma StepLinesOrdered(s: State, op: Op, clock: int, later: int)
    requires Ordered(s.cur, clock) && Ordered(s.alt, clock) && clock <= later
    requires op.PushAt? ==> op.receivedAt == clock
    ensures var t := Step(s, op); Ordered(t.cur, later) && Ordered(t.alt, later)
  {
    hide Push, PopReady, Flush, Ordered;
    OrderedLater(s.cur, clock, later);
    OrderedLater(s.alt, clock, later);
    match op
    case PushAt(pkt, at, now) =>
      PushLinesOrdered(s, pkt, at, at);
      var t := Push(s, pkt, at);
      PopReadyLines(t, now);
      OrderedLater(t.cur, at, later);
      OrderedLater(t.alt, at, later);
    case Timer(now) => PopReadyLines(s, now);
    case _ =>
  }

  /** When arrivals come in order, both lines keep exact histories, so every count is exact. */
  lemma {:induction false} LinesStayOrdered(latency: int, detectRestarts: bool, ops: seq<Op>, clock: int)
    requires ArrivalsInOrder(ops, clock)
    ensures var s := Steps(NewBuffer(latency, detectRestarts), ops); Ordered(s.cur, clock) && Ordered(s.alt, clock)
  {
    if |ops| > 0 {
      hide Step, Ordered;
      var n := |ops| - 1;
      var before := if ops[n].PushAt? then ops[n].receivedAt else clock;
      LinesStayOrdered(latency, detectRestarts, ops[..n], before);
      StepLinesOrdered(Steps(NewBuffer(latency, detectRestarts), ops[..n]), ops[n], before, clock);
    }
  }

  /**
    In any run with arrivals in order, the playing line changes hands only to a line that outdoes it,
    told over the full histories of both lines since they began.
   */
  lemma TakeoverInRuns(latency: int, ops: seq<Op>, s: State, sn: u16, clock: int, at: int, v: Verdict, rival: Line)
    requires ArrivalsInOrder(ops, clock) && clock <= at && s == Steps(NewBuffer(latency, true), ops)
    requires v == Vote(s.cur, s.alt, sn, at) && rival == AltWith(s.alt, sn, at)
    ensures v.takeover <==> !Belongs(s.cur, s.alt, sn) && Outdone(s.cur.History(), rival.History(), at)
  {
    hide Steps, Vote, Belongs, Outdone, AltWith;
    LinesStayOrdered(latency, true, ops, clock);
    TakeoverCondition(s.cur, s.alt, sn, clock, at);
  }
}
