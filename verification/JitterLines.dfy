/** Values of the sequence lines tracked on one SSRC, and the vote between them. */
module JitterLines {
  import opened Seq16

  // Times and durations are in nanoseconds.
  const MILLISECOND: int := 1_000_000

  const LINE_AHEAD: int := 50
  const LINE_BEHIND: int := 100
  const LINE_QUIET: int := 60 * MILLISECOND
  const LINE_WINDOW: int := 300 * MILLISECOND
  const LINE_MIN_PACKETS: int := 5
  const LINE_PARALLEL: int := 1000 * MILLISECOND

  /**
    A sequence line. The field past is not stored by the program: it keeps the arrivals that
    Forget removed, so that past + at is the full arrival history since the line was reset.
   */
  datatype Line = Line(ok: bool, high: u16, first: int, lastAt: int, at: seq<int>, past: seq<int>) {
    function History(): seq<int> { past + at }

    predicate Fits(sn: u16) {
      ok && (Sub(sn, high) <= LINE_AHEAD || Sub(high, sn) <= LINE_BEHIND)
    }

    predicate Continues(sn: u16, playing: u16) {
      var step, jump := Sub(sn, high), Sub(sn, playing);
      ok && step >= 1 && step < jump && jump <= LINE_AHEAD
    }

    function Add(sn: u16, t: int): Line {
      Line(true, if !ok || Before(high, sn) then sn else high, if ok then first else t, t, at + [t], past)
    }

    /** Drops the leading arrivals older than LINE_PARALLEL. */
    function Forget(now: int): Line {
      var k := LeadingOlder(at, now, LINE_PARALLEL);
      this.(at := at[k..], past := past + at[..k])
    }

    /** What count returns: arrivals left after Forget, less the leading ones older than the window. */
    function Count(now: int, window: int): nat {
      var kept := Forget(now).at;
      |kept| - LeadingOlder(kept, now, window)
    }
  }

  const NO_LINE := Line(false, 0, 0, 0, [], [])

  /** Length of the longest prefix of arrivals older than the window. */
  function LeadingOlder(at: seq<int>, now: int, window: int): (k: nat)
    ensures k <= |at|
    ensures forall i :: 0 <= i < k ==> now - at[i] > window
    ensures k < |at| ==> now - at[k] <= window
  {
    if |at| == 0 || now - at[0] <= window then 0 else 1 + LeadingOlder(at[1..], now, window)
  }

  /** The outcome of a vote, with both lines as they stand afterwards. */
  datatype Verdict = Verdict(accept: bool, takeover: bool, ahead: bool, restart: bool, cur: Line, alt: Line)

  /** The alternate line as it stands once the packet has been added to it. */
  function AltWith(alt: Line, sn: u16, at: int): Line {
    (if alt.Fits(sn) then alt else NO_LINE).Add(sn, at)
  }

  predicate Parallel(cur: Line, alt: Line) {
    cur.lastAt - alt.first >= LINE_PARALLEL
  }

  predicate Quiet(cur: Line, alt: Line, at: int) {
    !Parallel(cur, alt) && at - cur.lastAt >= LINE_QUIET
  }

  function Window(cur: Line, alt: Line): int {
    if Parallel(cur, alt) then LINE_PARALLEL else LINE_WINDOW
  }

  function Vote(cur: Line, alt: Line, sn: u16, at: int): Verdict {
    if Belongs(cur, alt, sn) then
      Verdict(true, false, false, false, cur.Add(sn, at), alt)
    else
      var alt1 := AltWith(alt, sn, at);
      if Quiet(cur, alt1, at) then
        TakeOver(cur.high, alt1, sn, true)
      else
        var window := Window(cur, alt1);
        var n := alt1.Count(at, window);
        var alt2 := alt1.Forget(at);
        if n < LINE_MIN_PACKETS then
          Verdict(false, false, false, false, cur, alt2)
        else if n < 2 * cur.Count(at, window) then
          Verdict(false, false, false, false, cur.Forget(at), alt2)
        else
          TakeOver(cur.high, alt2, sn, false)
  }

  /** The alternate line takes over from one whose highest number is high. */
  function TakeOver(high: u16, alt: Line, sn: u16, quiet: bool): (v: Verdict)
    ensures v.accept && v.takeover
  {
    var ahead := Before(high, sn) && WithinRange(sn, high);
    Verdict(true, true, ahead, !quiet || !ahead, alt, NO_LINE)
  }

  // ----- what the counts mean

  /** Arrivals within the window, over a whole history. */
  function Within(history: seq<int>, now: int, window: int): nat {
    if |history| == 0 then 0
    else Within(history[..|history| - 1], now, window) + (if now - history[|history| - 1] <= window then 1 else 0)
  }

  ghost predicate Nondecreasing(ts: seq<int>) {
    forall i, j :: 0 <= i < j < |ts| ==> ts[i] <= ts[j]
  }

  /** What holds of a line whose arrivals came in order, the latest call having been made at time clock. */
  ghost predicate Ordered(l: Line, clock: int) {
    && OrderedHistory(l.History(), clock)
    && LongPast(l.past, clock)
    && (l.ok <==> |l.History()| > 0)
    && (l.ok ==> l.first == l.History()[0] && l.lastAt == l.History()[|l.History()| - 1])
  }

  ghost predicate OrderedHistory(ts: seq<int>, clock: int) {
    Nondecreasing(ts) && (|ts| > 0 ==> ts[|ts| - 1] <= clock)
  }

  ghost predicate LongPast(ts: seq<int>, now: int) {
    forall i :: 0 <= i < |ts| ==> now - ts[i] > LINE_PARALLEL
  }

  lemma {:induction false} WithinConcat(a: seq<int>, b: seq<int>, now: int, window: int)
    ensures Within(a + b, now, window) == Within(a, now, window) + Within(b, now, window)
  {
    if |b| == 0 {
      assert a + b == a;
    } else {
      var n := |b| - 1;
      assert (a + b)[..|a + b| - 1] == a + b[..n];
      WithinConcat(a, b[..n], now, window);
    }
  }

  lemma {:induction false} WithinNone(ts: seq<int>, now: int, window: int)
    requires forall i :: 0 <= i < |ts| ==> now - ts[i] > window
    ensures Within(ts, now, window) == 0
  {
    if |ts| > 0 { WithinNone(ts[..|ts| - 1], now, window); }
  }

  lemma {:induction false} WithinAll(ts: seq<int>, now: int, window: int)
    requires forall i :: 0 <= i < |ts| ==> now - ts[i] <= window
    ensures Within(ts, now, window) == |ts|
  {
    if |ts| > 0 { WithinAll(ts[..|ts| - 1], now, window); }
  }

  /** Skipping the leading old arrivals leaves those within the window when arrivals are in order. */
  lemma LeadingIsAllOlder(ts: seq<int>, now: int, window: int)
    requires Nondecreasing(ts)
    ensures |ts| - LeadingOlder(ts, now, window) == Within(ts, now, window)
  {
    var k := LeadingOlder(ts, now, window);
    assert ts == ts[..k] + ts[k..];
    WithinConcat(ts[..k], ts[k..], now, window);
    WithinNone(ts[..k], now, window);
    WithinAll(ts[k..], now, window);
  }

  lemma NondecreasingTail(a: seq<int>, b: seq<int>)
    requires Nondecreasing(a + b)
    ensures Nondecreasing(b)
  {
    forall i, j | 0 <= i < j < |b| ensures b[i] <= b[j] {
      assert (a + b)[|a| + i] == b[i] && (a + b)[|a| + j] == b[j];
    }
  }

  lemma MoveBoundary(p: seq<int>, a: seq<int>, k: nat)
    requires k <= |a|
    ensures (p + a[..k]) + a[k..] == p + a
  {
  }

  lemma LongPastConcat(a: seq<int>, b: seq<int>, clock: int, now: int)
    requires LongPast(a, clock) && LongPast(b, now) && clock <= now
    ensures LongPast(a + b, now)
  {
  }

  lemma ForgetKeepsOrder(l: Line, clock: int, now: int)
    requires Ordered(l, clock) && clock <= now
    ensures l.Forget(now).History() == l.History()
    ensures Ordered(l.Forget(now), now)
  {
    var k := LeadingOlder(l.at, now, LINE_PARALLEL);
    MoveBoundary(l.past, l.at, k);
    LongPastConcat(l.past, l.at[..k], clock, now);
  }

  /** Forgetting old arrivals does not change the answer: count is exact over the whole history. */
  lemma CountIsExact(l: Line, clock: int, now: int, window: int)
    requires Ordered(l, clock) && clock <= now && window <= LINE_PARALLEL
    ensures l.Count(now, window) == Within(l.History(), now, window)
  {
    ForgetKeepsOrder(l, clock, now);
    var f := l.Forget(now);
    NondecreasingTail(f.past, f.at);
    LeadingIsAllOlder(f.at, now, window);
    WithinNone(f.past, now, window);
    WithinConcat(f.past, f.at, now, window);
  }

  lemma AddKeepsOrder(l: Line, clock: int, sn: u16, at: int)
    requires Ordered(l, clock) && clock <= at
    ensures Ordered(l.Add(sn, at), at)
    ensures l.Add(sn, at).History() == l.History() + [at]
  {
    assert l.Add(sn, at).History() == l.History() + [at];
  }

  lemma OrderedLater(l: Line, clock: int, now: int)
    requires Ordered(l, clock) && clock <= now
    ensures Ordered(l, now)
  {
  }

  lemma RivalKeepsOrder(alt: Line, clock: int, sn: u16, at: int)
    requires Ordered(alt, clock) && clock <= at
    ensures Ordered(AltWith(alt, sn, at), at)
  {
    AddKeepsOrder(if alt.Fits(sn) then alt else NO_LINE, clock, sn, at);
  }

  predicate Belongs(cur: Line, alt: Line, sn: u16) {
    !cur.ok || (cur.Fits(sn) && !alt.Continues(sn, cur.high))
  }

  /** The four ways a vote can end. */
  lemma VoteCases(cur: Line, alt: Line, sn: u16, at: int)
    ensures var v := Vote(cur, alt, sn, at);
            var rival := AltWith(alt, sn, at);
            var window := Window(cur, rival);
            var outdone := rival.Count(at, window) >= LINE_MIN_PACKETS && rival.Count(at, window) >= 2 * cur.Count(at, window);
            && (Belongs(cur, alt, sn) ==> v.accept && !v.takeover && v.cur == cur.Add(sn, at) && v.alt == alt)
            && (!Belongs(cur, alt, sn) ==>
                && v.accept == v.takeover == (Quiet(cur, rival, at) || outdone) && (v.restart ==> v.takeover)
                && v.cur in (if v.takeover then {rival, rival.Forget(at)} else {cur, cur.Forget(at)})
                && v.alt == if v.takeover then NO_LINE else rival.Forget(at))
  {
  }

  /** The vote keeps both lines in order, so the exactness of counts carries over to every later vote. */
  lemma VoteKeepsOrder(cur: Line, alt: Line, sn: u16, clock: int, at: int)
    requires Ordered(cur, clock) && Ordered(alt, clock) && clock <= at
    ensures Ordered(Vote(cur, alt, sn, at).cur, at)
    ensures Ordered(Vote(cur, alt, sn, at).alt, at)
  {
    VoteCases(cur, alt, sn, at);
    if Belongs(cur, alt, sn) {
      AddKeepsOrder(cur, clock, sn, at);
      OrderedLater(alt, clock, at);
    } else {
      var rival := AltWith(alt, sn, at);
      RivalKeepsOrder(alt, clock, sn, at);
      ForgetKeepsOrder(rival, at, at);
      ForgetKeepsOrder(cur, clock, at);
      OrderedLater(cur, clock, at);
    }
  }

  /** The arrival counts and silences that hand the playing line over, told over full histories. */
  ghost predicate Outdone(playing: seq<int>, rival: seq<int>, at: int) {
    && |playing| > 0 && |rival| > 0
    && var last := playing[|playing| - 1];
       var parallel := last - rival[0] >= 1_000_000_000;
       var window := if parallel then 1_000_000_000 else 300_000_000;
    || (!parallel && at - last >= 60_000_000)
    || (&& Within(rival, at, window) >= 5
        && Within(rival, at, window) >= 2 * Within(playing, at, window))
  }

  /**
    When the playing line changes hands: exactly when the packet does not belong to it and either it
    was silent for 60 ms and the alternate has not run beside it for a second, or the alternate has five
    arrivals in the window and twice those of the playing line, over all arrivals.
   */
  lemma TakeoverCondition(cur: Line, alt: Line, sn: u16, clock: int, at: int)
    requires Ordered(cur, clock) && Ordered(alt, clock) && clock <= at
    ensures var v := Vote(cur, alt, sn, at);
            && (v.takeover <==> !Belongs(cur, alt, sn) && Outdone(cur.History(), AltWith(alt, sn, at).History(), at))
            && (v.accept <==> Belongs(cur, alt, sn) || v.takeover)
  {
    VoteCases(cur, alt, sn, at);
    if !Belongs(cur, alt, sn) {
      var rival := AltWith(alt, sn, at);
      assert cur.ok && rival.ok;
      RivalKeepsOrder(alt, clock, sn, at);
      OutdoneMeans(cur, rival, clock, at);
      hide Vote, Belongs, Ordered, Outdone, AltWith, Line.Count, Line.History, Quiet, Window;
    }
  }

  lemma OutdoneMeans(cur: Line, rival: Line, clock: int, at: int)
    requires Ordered(cur, clock) && Ordered(rival, at) && clock <= at && cur.ok && rival.ok
    ensures var w := Window(cur, rival);
            Outdone(cur.History(), rival.History(), at) <==>
              || Quiet(cur, rival, at)
              || (rival.Count(at, w) >= LINE_MIN_PACKETS && rival.Count(at, w) >= 2 * cur.Count(at, w))
  {
    hide Within, OrderedHistory, LongPast, Line.Count, Line.History;
    var w := Window(cur, rival);
    CountIsExact(rival, at, at, w);
    CountIsExact(cur, clock, at, w);
  }

  /** An accepted packet is at most LINE_BEHIND behind the playing line; a rejected one leaves that line alone. */
  lemma VerdictBounds(cur: Line, alt: Line, sn: u16, at: int)
    ensures var v := Vote(cur, alt, sn, at);
            && (v.accept ==> v.cur.ok && Sub(v.cur.high, sn) <= LINE_BEHIND)
            && (!v.accept ==> v.cur.(at := cur.at, past := cur.past) == cur && v.cur.History() == cur.History())
  {
    assert cur.Forget(at).History() == cur.History();
  }

  // ----- what the vote means, in numbers

  /** Up to 50 past the highest number of a line or 100 behind it. */
  predicate Near(l: Line, sn: u16) {
    l.ok && (Sub(sn, l.high) <= 50 || Sub(l.high, sn) <= 100)
  }

  /**
    A packet belongs to the playing line when there is none yet, or when it is near that line and the
    highest number of the alternate does not lie between the two.
   */
  lemma BelongsMeans(cur: Line, alt: Line, sn: u16, at: int, v: Verdict)
    requires v == Vote(cur, alt, sn, at)
    ensures v.accept && !v.takeover <==>
              || !cur.ok
              || (Near(cur, sn) && !(alt.ok && 0 < Sub(sn, alt.high) < Sub(sn, cur.high) <= 50))
    ensures v.accept && !v.takeover ==> v.alt == alt && v.cur.History() == cur.History() + [at]
    ensures v.accept && !v.takeover && cur.ok ==> Highest(v.cur.high, cur.high, sn)
    ensures v.accept && !v.takeover && !cur.ok ==> v.cur.high == sn && v.cur.first == at
  {
    VoteCases(cur, alt, sn, at);
    hide Vote, Line.Count, Quiet, AltWith, Window, Line.Forget;
    assert cur.Add(sn, at).History() == cur.History() + [at];
  }

  /** h is the number that is ahead of the other on the circle. */
  predicate Highest(h: u16, before: u16, sn: u16) {
    if Sub(sn, before) < 0x8000 then h == sn else h == before
  }

  /** The alternate takes the packet when it is near, else begins anew with it. */
  lemma RivalIs(alt: Line, sn: u16, at: int, rival: Line)
    requires rival == AltWith(alt, sn, at)
    ensures rival.ok && rival.lastAt == at
    ensures if Near(alt, sn) then
              rival.History() == alt.History() + [at] && rival.first == alt.first && Highest(rival.high, alt.high, sn)
            else
              rival.History() == [at] && rival.first == at && rival.high == sn
  {
    assert rival.History() == (if alt.Fits(sn) then alt.History() else []) + [at];
  }

  /** The playing line has been silent for 60 ms, and the alternate had not run beside it for a second. */
  predicate Silent(cur: Line, first: int, at: int) {
    at - cur.lastAt >= 60_000_000 && cur.lastAt - first < 1_000_000_000
  }

  /**
    A takeover continues the stream exactly when the packet is 0..2999 ahead of the playing line, and it
    is not a restart exactly when it continues the stream after a silence. The alternate then plays.
   */
  lemma TakeoverMeans(cur: Line, alt: Line, sn: u16, at: int, v: Verdict)
    requires v == Vote(cur, alt, sn, at) && v.takeover
    ensures v.accept
    ensures v.ahead <==> Sub(sn, cur.high) < 3000
    ensures !v.restart <==> Sub(sn, cur.high) < 3000 && Silent(cur, if Near(alt, sn) then alt.first else at, at)
    ensures var rival := AltWith(alt, sn, at);
            && (v.cur.high, v.cur.first, v.cur.lastAt) == (rival.high, rival.first, at)
            && v.cur.History() == rival.History() && v.alt == NO_LINE
  {
    var rival := AltWith(alt, sn, at);
    RivalIs(alt, sn, at, rival);
    TakenOver(cur, alt, sn, at, v);
    hide Vote, AltWith, Line.Count, Line.History, Near;
  }

  lemma TakenOver(cur: Line, alt: Line, sn: u16, at: int, v: Verdict)
    requires v == Vote(cur, alt, sn, at) && v.takeover
    ensures var rival := AltWith(alt, sn, at);
            && v.cur in {rival, rival.Forget(at)} && v.cur.History() == rival.History()
            && v == TakeOver(cur.high, v.cur, sn, Quiet(cur, rival, at))
  {
    var rival := AltWith(alt, sn, at);
    assert rival.Forget(at).History() == rival.History();
    hide AltWith, Line.Count, Line.History, Line.Forget, Belongs, Quiet;
  }

  /** Without a takeover nothing restarts. */
  lemma NoTakeover(cur: Line, alt: Line, sn: u16, at: int, v: Verdict)
    requires v == Vote(cur, alt, sn, at) && !v.takeover
    ensures !v.restart && !v.ahead
  {
    hide AltWith, Line.Count, Belongs;
  }
}
