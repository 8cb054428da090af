/**
  Loss counting outside the window: when the count of missing packets is right, and a run in which the
  playing position goes backwards and it is not.
 */
module JitterJumps {
  import opened Options
  import opened Seq16
  import opened JitterTypes
  import opened JitterList
  import opened JitterModel

  /**
    What MissingBetween gives for two extended numbers: the packets between them exactly when the
    first is ahead of the second by at most one turn of the circle.
   */
  lemma MissingIsExact(m: int, n: int)
    ensures MissingBetween(Wrap(m), Wrap(n)) == m - n - 1 <==> 1 <= m - n <= MODULUS
  {
    if 1 <= m - n < MODULUS { WrapDistance(m, n); }
  }

  function Single(sn: u16, head: bool): Packet {
    Packet(sn, 0, sn, false, head, true)
  }

  /** Packets 100, 102, 30000 and 10000, the last one not a partition head, and then a flush. */
  function JumpsBack(): seq<Op> {
    [PushAt(Single(100, true), 0, 0), PushAt(Single(102, true), 0, 0), PushAt(Single(30000, true), 0, 0),
     PushAt(Single(10000, false), 0, 0), FlushAll]
  }

  function Jump(sn: u16, discont: bool): Entry {
    NewEntry(Single(sn, sn != 10000), 0, discont)
  }

  /** The flush measures 10000 from 30000, behind it, and counts 45535 packets lost for that one jump. */
  lemma MissingWrapsOutsideWindow()
    ensures var s := Steps(NewBuffer(1, false), JumpsBack()).play;
            s.stats.lost == 1 + 45535 && Measure(10000, 30000) in s.log.measured && Before(10000, 30000)
  {
    var ops := JumpsBack();
    StepsAre(NewBuffer(1, false), ops);
    var s1 := Step(NewBuffer(1, false), ops[0]);
    FirstIsAlone();
    JumpsWait(s1, 0);
    var s4 := Step(Step(Step(s1, ops[1]), ops[2]), ops[3]);
    hide Step;
    JumpsFlush(s4.play);
    assert Step(s4, FlushAll).play == Flush(s4.play) by { StepFlushes(s4); }
  }

  lemma StepFlushes(s: State)
    ensures Step(s, FlushAll).play == Flush(s.play)
  {
  }

  lemma StepsAre(s: State, ops: seq<Op>)
    requires |ops| == 5
    ensures Steps(s, ops) == Step(Step(Step(Step(Step(s, ops[0]), ops[1]), ops[2]), ops[3]), ops[4])
  {
    hide Step;
    assert ops[..4][..3] == ops[..3] && ops[..3][..2] == ops[..2] && ops[..2][..1] == ops[..1] && ops[..1][..0] == [];
    assert Steps(s, ops[..1]) == Step(s, ops[0]);
    assert Steps(s, ops[..2]) == Step(Step(s, ops[0]), ops[1]);
    assert Steps(s, ops[..3]) == Step(Step(Step(s, ops[0]), ops[1]), ops[2]);
  }

  lemma FirstIsAlone()
    ensures var s := Step(NewBuffer(1, false), PushAt(Single(100, true), 0, 0));
            Waiting(s, [], 0)
  {
    var e := Jump(100, true);
    var t := Push(NewBuffer(1, false), Single(100, true), 0).play;
    assert t.list == [e];
    assert RunLength([e]) == 1;
    assert [e][1..] == [];
    assert Release(t, -1).0 == PopSample(t, Some(-1));
  }

  /** A complete head after a gap, received at the clock's own time, waits. */
  lemma HeadWaits(s: State, rest: seq<Entry>)
    requires s.latency == 1 && s.play.initialized && s.play.prevSN == 100
    requires s.play.list == [Jump(102, false)] + rest
    ensures PopReady(s, 0).(timer := s.timer) == s
  {
    assert s.play.list[0].start && s.play.list[0].end;
    assert RunLength(s.play.list) == 1;
  }

  ghost predicate Waiting(s: State, list: seq<Entry>, lost: nat) {
    && s.latency == 1 && !s.detectRestarts && s.ssrc == Some(0)
    && s.play.initialized && s.play.prevSN == 100 && s.play.stats.lost == lost && s.play.list == list
  }

  lemma FirstWaits(s: State, lost: nat)
    requires Waiting(s, [], lost)
    ensures Waiting(Step(s, PushAt(Single(102, true), 0, 0)), [Jump(102, false)], lost)
  {
    hide PopReady;
    HeadWaits(Push(s, Single(102, true), 0), []);
  }

  /** A packet out of range of both ends of the list goes to its end. */
  lemma JumpAppends(s: State, rest: seq<Entry>, sn: u16, lost: nat)
    requires var list := [Jump(102, false)] + rest;
             && Waiting(s, list, lost) && !Before(sn, 100)
             && !WithinRange(sn, 102) && !WithinRange(sn, list[|list| - 1].SN())
    ensures Waiting(Step(s, PushAt(Single(sn, sn != 10000), 0, 0)), [Jump(102, false)] + rest + [Jump(sn, true)], lost)
  {
    hide PopReady;
    var list := [Jump(102, false)] + rest;
    var t := Push(s, Single(sn, sn != 10000), 0);
    assert Place(list, sn, true) == Insert(|list|, true, false);
    assert t.play.list == list + [Jump(sn, true)] == [Jump(102, false)] + (rest + [Jump(sn, true)]);
    HeadWaits(t, rest + [Jump(sn, true)]);
  }

  lemma JumpsWait(s: State, lost: nat)
    requires Waiting(s, [], lost)
    ensures var ops := JumpsBack();
            Waiting(Step(Step(Step(s, ops[1]), ops[2]), ops[3]), [Jump(102, false), Jump(30000, true), Jump(10000, false)], lost)
  {
    var ops := JumpsBack();
    hide Step;
    FirstWaits(s, lost);
    var s1 := Step(s, ops[1]);
    assert [Jump(102, false)] + [] == [Jump(102, false)];
    JumpAppends(s1, [], 30000, lost);
    var s2 := Step(s1, ops[2]);
    JumpAppends(s2, [Jump(30000, true)], 10000, lost);
  }

  lemma JumpsFlush(s: Play)
    requires s.list == [Jump(102, false), Jump(30000, true), Jump(10000, false)] && s.initialized && s.prevSN == 100
    ensures Flush(s).stats.lost == s.stats.lost + 1 + 45535 && Measure(10000, 30000) in Flush(s).log.measured
  {
    assert RunLength(s.list) == 1;
    var a := PopSample(MeasureHead(s), None);
    assert a.list == [Jump(30000, true), Jump(10000, false)] && a.stats.lost == s.stats.lost + 1;
    assert RunLength(a.list) == 1;
    var b := PopSample(a, None);
    assert b.list == [Jump(10000, false)] && b.prevSN == 30000 && b.stats.lost == a.stats.lost;
    assert RunLength(b.list) == 0;
    var c := DropHead(b);
    assert c.list == [] && c.stats.lost == b.stats.lost + 45535;
    assert c.log.measured == b.log.measured + [Measure(10000, 30000)];
    assert DropIncomplete(b, None) == c;
    assert Drain(a).0 == Drain(c).0 == c;
  }
}
