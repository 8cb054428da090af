/** When the jitter buffer lets a sample go, what it hands over, and when it reports a loss. */
module JitterRelease {
  import opened Options
  import opened Seq16
  import opened JitterTypes
  import opened JitterList
  import opened JitterModel
  import JitterSafety

  // ----- what waits

  /** The head needs no waiting for: nothing was played before it, it is the next packet, or it starts a segment. */
  predicate Contiguous(s: Play)
    requires |s.list| > 0
  {
    !s.initialized || Sub(s.list[0].SN(), s.prevSN) == 1 || s.list[0].discont
  }

  /** A complete sample that must not wait: contiguous, or held for the latency. */
  predicate Ready(s: Play, expiry: int) {
    |s.list| > 0 && RunLength(s.list) > 0 && (Contiguous(s) || s.list[0].ext.receivedAt <= expiry)
  }

  /** An incomplete head held for longer than the latency. */
  predicate Overdue(s: Play, expiry: int) {
    |s.list| > 0 && RunLength(s.list) == 0 && s.list[0].ext.receivedAt < expiry
  }

  lemma {:induction false} ReleaseEnds(s: Play, expiry: int)
    ensures !Ready(Release(s, expiry).0, expiry)
    ensures Release(s, expiry).0 == s <==> !Ready(s, expiry)
    ensures |Release(s, expiry).0.list| < |s.list| <==> Ready(s, expiry)
    decreases |s.list|
  {
    if RunLength(s.list) > 0 {
      NextIsOne(s.list[0].SN(), s.prevSN);
      if InSequence(s) {
        ReleaseEnds(PopSample(s, Some(expiry)), expiry);
      } else if s.list[0].ext.receivedAt <= expiry {
        ReleaseEnds(PopSample(MeasureHead(s), Some(expiry)), expiry);
      }
      hide RunLength, PopSample, MeasureHead;
    }
  }

  lemma NextIsOne(a: u16, b: u16)
    ensures a == Next(b) <==> Sub(a, b) == 1
  {
  }

  lemma {:induction false} DropIncompleteEnds(s: Play, expiry: int)
    ensures !Overdue(DropIncomplete(s, Some(expiry)), expiry)
    ensures |DropIncomplete(s, Some(expiry)).list| < |s.list| <==> Overdue(s, expiry)
    decreases |s.list|
  {
    if Overdue(s, expiry) { DropIncompleteEnds(DropHead(s), expiry); }
  }

  /** No complete sample is left waiting that is contiguous with what was played, or has been held for the latency. */
  lemma NothingReadyWaits(s: State, now: int, t: State)
    requires t == PopReady(s, now) && |t.play.list| > 0 && RunLength(t.play.list) > 0
    ensures t.play.initialized && t.play.list[0].SN() != Next(t.play.prevSN) && !t.play.list[0].discont
    ensures t.play.list[0].ext.receivedAt > now - t.latency
  {
    PopReadyEnds(s, now);
    NextIsOne(t.play.list[0].SN(), t.play.prevSN);
    hide RunLength, PopReady;
  }

  lemma PopReadyEnds(s: State, now: int)
    ensures var t := PopReady(s, now); !Ready(t.play, now - s.latency) && t.latency == s.latency
  {
    ReleaseEnds(DropExpired(s.play, now - s.latency), now - s.latency);
    hide RunLength, DropExpired, Release;
  }

  /** A call takes packets off exactly when the head is ready or overdue; else it changes nothing that is played. */
  lemma ReleasesWhen(s: State, now: int, t: State)
    requires t == PopReady(s, now)
    ensures var due := Ready(s.play, now - s.latency) || Overdue(s.play, now - s.latency);
            (!due ==> t.play == s.play) && (due ==> |t.play.list| < |s.play.list|)
  {
    var expiry := now - s.latency;
    DropIncompleteEnds(s.play, expiry);
    ReleaseEnds(DropExpired(s.play, expiry), expiry);
    assert |Release(DropExpired(s.play, expiry), expiry).0.list| <= |DropExpired(s.play, expiry).list|;
    hide RunLength, Release, DropIncomplete, Contiguous;
  }

  // ----- what is handed over

  /** The complete samples of a list, from its head on. */
  ghost function Samples(list: seq<Entry>): seq<seq<Entry>>
    decreases |list|
  {
    if |list| == 0 then []
    else if RunLength(list) == 0 then Samples(list[1..])
    else [list[..RunLength(list)]] + Samples(list[RunLength(list)..])
  }

  function Released(runs: seq<Run>): seq<seq<Entry>> {
    if |runs| == 0 then [] else Released(runs[..|runs| - 1]) + [runs[|runs| - 1].entries]
  }

  /** The samples released and those still to be. */
  ghost function Promised(s: Play): seq<seq<Entry>> {
    Released(s.log.runs) + Samples(s.list)
  }

  lemma PopSamplePromise(s: Play, expiry: Option<int>)
    requires RunLength(s.list) > 0
    ensures Promised(PopSample(s, expiry)) == Promised(s)
  {
    var t, k := PopSample(s, expiry), RunLength(s.list);
    assert t.log.runs[..|s.log.runs|] == s.log.runs;
    assert Released(t.log.runs) == Released(s.log.runs) + [s.list[..k]];
    hide RunLength, Released;
    assert Released(s.log.runs) + [s.list[..k]] + Samples(s.list[k..]) == Released(s.log.runs) + ([s.list[..k]] + Samples(s.list[k..]));
  }

  lemma {:induction false} DropIncompletePromise(s: Play, limit: Option<int>)
    ensures Promised(DropIncomplete(s, limit)) == Promised(s)
    decreases |s.list|
  {
    hide RunLength, Released;
    if DropIncomplete(s, limit) != s { DropIncompletePromise(DropHead(s), limit); }
  }

  lemma {:induction false} ReleasePromise(s: Play, expiry: int)
    ensures Promised(Release(s, expiry).0) == Promised(s)
    decreases |s.list|
  {
    if RunLength(s.list) > 0 {
      hide RunLength, PopSample, Promised;
      assert Promised(MeasureHead(s)) == Promised(s) by { MeasurePromise(s); }
      if InSequence(s) {
        PopSamplePromise(s, Some(expiry));
        ReleasePromise(PopSample(s, Some(expiry)), expiry);
      } else if s.list[0].ext.receivedAt <= expiry {
        PopSamplePromise(MeasureHead(s), Some(expiry));
        ReleasePromise(PopSample(MeasureHead(s), Some(expiry)), expiry);
      }
    }
  }

  lemma MeasurePromise(s: Play)
    requires |s.list| > 0
    ensures Promised(MeasureHead(s)) == Promised(s)
  {
  }

  lemma {:induction false} DrainPromise(s: Play)
    ensures Promised(Drain(s).0) == Promised(s)
    decreases |s.list|
  {
    if RunLength(s.list) > 0 {
      hide RunLength, PopSample, Promised, DropIncomplete;
      MeasurePromise(s);
      var e := if InSequence(s) then s else MeasureHead(s);
      PopSamplePromise(e, None);
      DropIncompletePromise(PopSample(e, None), None);
      DrainPromise(DropIncomplete(PopSample(e, None), None));
    }
  }

  /** No complete sample is broken up: each is released whole, in order, or still waits whole. */
  lemma PopReadyHandsOver(s: State, now: int, t: State)
    requires t == PopReady(s, now)
    ensures Promised(t.play) == Promised(s.play)
  {
    var expiry := now - s.latency;
    DropIncompletePromise(s.play, Some(expiry));
    ReleasePromise(DropExpired(s.play, expiry), expiry);
    hide Samples, Released, DropIncomplete, Release;
  }

  /** A flush releases every complete sample that waits, in order, and drops the rest. */
  lemma FlushHandsOver(s: Play, t: Play)
    requires t == Flush(s)
    ensures Released(t.log.runs) + Samples(t.list) == Released(s.log.runs) + Samples(s.list) && t.list == []
  {
    DropIncompletePromise(s, None);
    DrainPromise(DropIncomplete(s, None));
    FlushEmpties(s);
    hide Samples, Released, DropIncomplete, Drain;
  }

  lemma {:induction false} DrainEmpties(s: Play)
    requires |s.list| > 0 ==> RunLength(s.list) > 0
    ensures Drain(s).0.list == []
    decreases |s.list|
  {
    if RunLength(s.list) > 0 {
      hide RunLength, PopSample, DropIncomplete;
      var t := PopSample(if InSequence(s) then s else MeasureHead(s), None);
      JitterSafety.DropAllStops(t);
      DrainEmpties(DropIncomplete(t, None));
    }
  }

  lemma FlushEmpties(s: Play)
    ensures Flush(s).list == []
  {
    JitterSafety.DropAllStops(s);
    DrainEmpties(DropIncomplete(s, None));
  }

  // ----- when a loss is reported

  /** From s to t neither counter fell, and one of them grew exactly when changed. */
  predicate Grew(s: Play, t: Play, changed: bool) {
    && t.stats.lost >= s.stats.lost && t.stats.dropped >= s.stats.dropped
    && (changed <==> t.stats.lost > s.stats.lost || t.stats.dropped > s.stats.dropped)
    && t.log.reports == s.log.reports
  }

  lemma {:induction false} DropIncompleteGrew(s: Play, limit: Option<int>)
    ensures var t := DropIncomplete(s, limit); Grew(s, t, |t.list| < |s.list|)
    decreases |s.list|
  {
    if DropIncomplete(s, limit) != s { DropIncompleteGrew(DropHead(s), limit); }
  }

  lemma {:induction false} ReleaseGrew(s: Play, expiry: int)
    ensures var (t, loss) := Release(s, expiry); Grew(s, t, loss)
    decreases |s.list|
  {
    if RunLength(s.list) > 0 {
      hide RunLength;
      if InSequence(s) {
        ReleaseGrew(PopSample(s, Some(expiry)), expiry);
      } else if s.list[0].ext.receivedAt <= expiry {
        MissingSome(s.list[0].SN(), s.prevSN);
        ReleaseGrew(PopSample(MeasureHead(s), Some(expiry)), expiry);
      }
    }
  }

  lemma MissingSome(a: u16, b: u16)
    requires a != Next(b)
    ensures MissingBetween(a, b) > 0
  {
  }

  lemma {:induction false} DrainGrew(s: Play)
    ensures var (t, report) := Drain(s); Grew(s, t, report)
    decreases |s.list|
  {
    if RunLength(s.list) > 0 {
      hide RunLength, MissingBetween, DropIncomplete;
      if !InSequence(s) { MissingSome(s.list[0].SN(), s.prevSN); }
      var t := PopSample(if InSequence(s) then s else MeasureHead(s), None);
      DropIncompleteGrew(t, None);
      DrainGrew(DropIncomplete(t, None));
    }
  }

  /** The loss handler is called exactly when packets were counted lost or dropped. */
  predicate ReportsChange(s: Play, t: Play) {
    && t.stats.lost >= s.stats.lost && t.stats.dropped >= s.stats.dropped
    && s.log.reports <= t.log.reports
    && (t.log.reports != s.log.reports <==> t.stats.lost > s.stats.lost || t.stats.dropped > s.stats.dropped)
  }

  lemma PopReadyReports(s: State, now: int, t: State)
    requires t == PopReady(s, now)
    ensures ReportsChange(s.play, t.play)
  {
    var expiry := now - s.latency;
    DropIncompleteGrew(s.play, Some(expiry));
    ReleaseGrew(DropExpired(s.play, expiry), expiry);
    hide DropIncomplete, Release;
  }

  lemma FlushReports(s: Play, t: Play)
    requires t == Flush(s)
    ensures ReportsChange(s, t)
    ensures |t.log.reports| <= |s.log.reports| + 1
  {
    DropIncompleteGrew(s, None);
    DrainGrew(DropIncomplete(s, None));
    hide DropIncomplete, Drain;
  }
}
