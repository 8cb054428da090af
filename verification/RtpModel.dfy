/**
  The sequence and timestamp clock of one SSRC over values. Every function takes a flag that says
  whether timestamps wrap: with it set they are the program's 32-bit numbers, compared by signed
  difference; without it they are unbounded, the ideal the program stands for.
 */
module RtpModel {
  import opened Options

  const M32: int := 0x1_0000_0000
  const HALF: int := 0x8000_0000

  const FRAME_DUR: int := 20_000_000
  const RESET_FRAMES: int := 10
  const TIMESTAMP_OFFSET: int := 48000

  function Norm(x: int, wrap: bool): (y: int)
    ensures wrap ==> 0 <= y < M32
  {
    if wrap then x % M32 else x
  }

  /** The difference a - b, as a signed 32-bit number when timestamps wrap. */
  function Diff(a: int, b: int, wrap: bool): int {
    if !wrap then a - b
    else
      var d := (a - b) % M32;
      if d < HALF then d else d - M32
  }

  /** A duration in whole frames, rounding half a frame away from zero. */
  function Frames(d: int): int {
    if d >= 0 then (d + FRAME_DUR / 2) / FRAME_DUR else -((-d + FRAME_DUR / 2) / FRAME_DUR)
  }

  datatype Anchor = Anchor(time: int, ts: int)

  /** A packet that was written: by the automatic stream or by a manual one. */
  datatype Sent = Sent(auto: bool, ts: int, seqNo: int, typ: int, marker: bool)

  datatype Writer = Writer(frameTS: nat, seqNo: int, maxTS: int, anchor: Option<Anchor>, auto: bool, log: seq<Sent>)

  function NewWriter(frameTS: nat): Writer {
    Writer(frameTS, 0, TIMESTAMP_OFFSET, None, false, [])
  }

  /** The timestamp of the wall clock, in whole frames since the anchor. */
  function Wall(w: Writer, now: int, wrap: bool): int
    requires w.anchor.Some?
  {
    var k := Norm(Frames(now - w.anchor.value.time), wrap);
    Norm(w.anchor.value.ts + Norm(k * w.frameTS, wrap), wrap)
  }

  function Project(w: Writer, now: int, wrap: bool): int {
    if w.anchor.None? then w.maxTS else Wall(w, now, wrap)
  }

  /** How far a timestamp may fall behind the wall clock. */
  function Reset(w: Writer, wrap: bool): int {
    Diff(Norm(RESET_FRAMES * w.frameTS, wrap), 0, wrap)
  }

  /** A stream's timestamp, not behind the latest one written. */
  function NotBehind(w: Writer, ts: int, wrap: bool): int {
    if Diff(w.maxTS, ts, wrap) > 0 then w.maxTS else ts
  }

  function CurTS(w: Writer, ts: int, now: int, wrap: bool): int {
    var t := NotBehind(w, ts, wrap);
    if w.anchor.Some? && Diff(Wall(w, now, wrap), t, wrap) > Reset(w, wrap) then Wall(w, now, wrap) else t
  }

  function AnchorAt(w: Writer, ts: int, now: int): Writer {
    if w.anchor.None? then w.(anchor := Some(Anchor(now, ts))) else w
  }

  /** Writing a packet; ok is whether the writer downstream took it. */
  function WriteEvent(w: Writer, auto: bool, typ: int, marker: bool, ts: int, now: int, ok: bool, wrap: bool): Writer {
    var a := AnchorAt(w, ts, now);
    if !ok then a
    else a.(log := a.log + [Sent(auto, ts, a.seqNo, typ, marker)],
            seqNo := (a.seqNo + 1) % 0x1_0000,
            maxTS := if Diff(ts, a.maxTS, wrap) > 0 then ts else a.maxTS)
  }

  // ----- all streams of the SSRC, step by step

  /** The automatic stream; between CurTS and WriteEvent it holds the corrected timestamp. */
  datatype Auto = Absent | Idle(ts: int) | Holding(ts: int, cur: int)

  datatype System = System(w: Writer, auto: Auto, manual: seq<int>)

  function NewSystem(frameTS: nat): System {
    System(NewWriter(frameTS), Absent, [])
  }

  /** A step holds the writer's lock once; a step whose stream is not there changes nothing. */
  datatype Act =
    | NewAuto
    | NewManual
    | AutoCur(now: int)
    | AutoWrite(typ: int, marker: bool, now: int, ok: bool)
    | Sync(k: nat, now: int)
    | ManualWrite(k: nat, typ: int, marker: bool, now: int, ok: bool)

  function Step(s: System, a: Act, wrap: bool): System {
    match a
    case NewAuto => if s.auto.Absent? then s.(w := s.w.(auto := true), auto := Idle(s.w.maxTS)) else s
    case NewManual => s.(manual := s.manual + [s.w.maxTS])
    case AutoCur(now) => if s.auto.Idle? then s.(auto := Holding(s.auto.ts, CurTS(s.w, s.auto.ts, now, wrap))) else s
    case AutoWrite(typ, marker, now, ok) =>
      if s.auto.Holding? then
        var cur := s.auto.cur;
        System(WriteEvent(s.w, true, typ, marker, cur, now, ok, wrap),
               Idle(if ok then Norm(cur + s.w.frameTS, wrap) else s.auto.ts), s.manual)
      else s
    case Sync(k, now) => if k < |s.manual| then s.(manual := s.manual[k := Project(s.w, now, wrap)]) else s
    case ManualWrite(k, typ, marker, now, ok) =>
      if k < |s.manual| then s.(w := WriteEvent(s.w, false, typ, marker, s.manual[k], now, ok, wrap)) else s
  }

  function Steps(s: System, acts: seq<Act>, wrap: bool): System {
    if |acts| == 0 then s else Step(Steps(s, acts[..|acts| - 1], wrap), acts[|acts| - 1], wrap)
  }

  // ----- sequence numbers

  ghost predicate Consecutive(w: Writer) {
    && (forall i :: 0 <= i < |w.log| ==> w.log[i].seqNo == i % 0x1_0000)
    && w.seqNo == |w.log| % 0x1_0000
  }

  lemma StepConsecutive(s: System, a: Act, wrap: bool)
    requires Consecutive(s.w)
    ensures Consecutive(Step(s, a, wrap).w)
  {
    hide CurTS, Project, Diff, Norm;
    assert (|s.w.log| % 0x1_0000 + 1) % 0x1_0000 == (|s.w.log| + 1) % 0x1_0000;
  }

  /** Whatever the interleaving and the failures, packets written carry consecutive sequence numbers. */
  lemma {:induction false} SequenceNumbers(frameTS: nat, acts: seq<Act>, wrap: bool)
    ensures Consecutive(Steps(NewSystem(frameTS), acts, wrap).w)
  {
    if |acts| > 0 {
      SequenceNumbers(frameTS, acts[..|acts| - 1], wrap);
      StepConsecutive(Steps(NewSystem(frameTS), acts[..|acts| - 1], wrap), acts[|acts| - 1], wrap);
    }
  }

  // ----- timestamps of the ideal clock

  /** Timestamps of the packets of the automatic stream. */
  function AutoTimes(log: seq<Sent>): seq<int> {
    if |log| == 0 then []
    else
      var last := log[|log| - 1];
      AutoTimes(log[..|log| - 1]) + (if last.auto then [last.ts] else [])
  }

  ghost predicate Spaced(ts: seq<int>, gap: int) {
    forall i, j :: 0 <= i && j == i + 1 && j < |ts| ==> ts[j] - ts[i] >= gap
  }

  /** The automatic stream's own timestamp is a frame after its last packet. */
  ghost predicate Advancing(s: System) {
    var ts := AutoTimes(s.w.log);
    && Spaced(ts, s.w.frameTS)
    && (s.auto.Absent? ==> ts == [])
    && (!s.auto.Absent? && |ts| > 0 ==> s.auto.ts == ts[|ts| - 1] + s.w.frameTS)
    && (s.auto.Holding? ==> s.auto.cur >= s.auto.ts)
  }

  lemma AutoTimesMore(log: seq<Sent>, x: Sent)
    ensures AutoTimes(log + [x]) == if x.auto then AutoTimes(log) + [x.ts] else AutoTimes(log)
  {
    assert (log + [x])[..|log|] == log;
  }

  lemma CurTSForward(w: Writer, ts: int, now: int)
    ensures CurTS(w, ts, now, false) >= ts
  {
    hide Frames;
  }

  lemma AutoWriteAdvances(s: System, typ: int, marker: bool, now: int, ok: bool)
    requires Advancing(s) && s.auto.Holding?
    ensures Advancing(Step(s, AutoWrite(typ, marker, now, ok), false))
  {
    hide AutoTimes;
    AutoTimesMore(s.w.log, Sent(true, s.auto.cur, s.w.seqNo, typ, marker));
  }

  lemma StepAdvances(s: System, a: Act)
    requires Advancing(s)
    ensures Advancing(Step(s, a, false)) && Step(s, a, false).w.frameTS == s.w.frameTS
  {
    hide CurTS, Project, AutoTimes, Spaced;
    match a
    case AutoCur(now) => if s.auto.Idle? { CurTSForward(s.w, s.auto.ts, now); }
    case AutoWrite(typ, marker, now, ok) => if s.auto.Holding? { AutoWriteAdvances(s, typ, marker, now, ok); }
    case ManualWrite(k, typ, marker, now, ok) =>
      if k < |s.manual| { AutoTimesMore(s.w.log, Sent(false, s.manual[k], s.w.seqNo, typ, marker)); }
    case _ =>
  }

  /** In the ideal clock each automatic packet is at least one frame after the one before. */
  lemma {:induction false} IdealAdvances(frameTS: nat, acts: seq<Act>)
    ensures Advancing(Steps(NewSystem(frameTS), acts, false))
    ensures Steps(NewSystem(frameTS), acts, false).w.frameTS == frameTS
  {
    if |acts| > 0 {
      IdealAdvances(frameTS, acts[..|acts| - 1]);
      StepAdvances(Steps(NewSystem(frameTS), acts[..|acts| - 1], false), acts[|acts| - 1]);
    }
  }

  // ----- the 32-bit clock follows the ideal one

  function WrapSent(x: Sent): Sent {
    x.(ts := Norm(x.ts, true))
  }

  function WrapLog(log: seq<Sent>): (r: seq<Sent>)
    ensures |r| == |log|
  {
    seq(|log|, i requires 0 <= i < |log| => WrapSent(log[i]))
  }

  function WrapWriter(w: Writer): Writer {
    w.(maxTS := Norm(w.maxTS, true),
       anchor := if w.anchor.None? then None else Some(w.anchor.value.(ts := Norm(w.anchor.value.ts, true))),
       log := WrapLog(w.log))
  }

  function WrapAuto(a: Auto): Auto {
    match a
    case Absent => Absent
    case Idle(ts) => Idle(Norm(ts, true))
    case Holding(ts, cur) => Holding(Norm(ts, true), Norm(cur, true))
  }

  /** The program's state for an ideal state. */
  function WrapSystem(s: System): System {
    System(WrapWriter(s.w), WrapAuto(s.auto), seq(|s.manual|, i requires 0 <= i < |s.manual| => Norm(s.manual[i], true)))
  }

  /** Two timestamps less than half the circle apart. */
  predicate Near(a: int, b: int) {
    -HALF <= a - b < HALF
  }

  /** No correction or comparison of the step spans half the circle. */
  predicate SmallGaps(s: System, a: Act) {
    match a
    case AutoCur(now) =>
      s.auto.Idle? ==>
        && Near(s.w.maxTS, s.auto.ts)
        && (s.w.anchor.Some? ==> Near(Wall(s.w, now, false), NotBehind(s.w, s.auto.ts, false)))
    case AutoWrite(_, _, _, _) => s.auto.Holding? ==> Near(s.auto.cur, s.w.maxTS)
    case ManualWrite(k, _, _, _, _) => k < |s.manual| ==> Near(s.manual[k], s.w.maxTS)
    case _ => true
  }

  ghost predicate SmallGapsThroughout(s: System, acts: seq<Act>) {
    |acts| > 0 ==>
      var n := |acts| - 1;
      SmallGapsThroughout(s, acts[..n]) && SmallGaps(Steps(s, acts[..n], false), acts[n])
  }

  lemma DiffWraps(a: int, b: int)
    requires Near(a, b)
    ensures Diff(Norm(a, true), Norm(b, true), true) == a - b
  {
    var m, n := a / M32, b / M32;
    assert a % M32 == a - m * M32 && b % M32 == b - n * M32;
    ModShift(a - b, n - m);
  }

  lemma ModShift(x: int, k: int)
    ensures (x + k * M32) % M32 == x % M32
  {
    var q := x / M32;
    assert x + k * M32 == (q + k) * M32 + x % M32;
    ModUnique(x + k * M32, q + k, x % M32);
  }

  lemma ModUnique(x: int, q: int, r: int)
    requires x == q * M32 + r && 0 <= r < M32
    ensures x % M32 == r
  {
  }

  lemma NormAdds(x: int, y: int)
    ensures Norm(Norm(x, true) + y, true) == Norm(x + y, true)
  {
    var q := x / M32;
    assert x % M32 + y == (x + y) + (-q) * M32;
    ModShift(x + y, -q);
  }

  lemma NormMultiplies(x: int, y: int)
    ensures Norm(Norm(x, true) * y, true) == Norm(x * y, true)
  {
    var q := x / M32;
    assert x == q * M32 + x % M32;
    Distribute(q, x % M32, y);
    ModShift(x % M32 * y, q * y);
  }

  lemma Distribute(q: int, r: int, y: int)
    ensures (q * M32 + r) * y == r * y + q * y * M32
  {
  }

  lemma WallWraps(w: Writer, now: int)
    requires w.anchor.Some?
    ensures Wall(WrapWriter(w), now, true) == Norm(Wall(w, now, false), true)
  {
    var a, k := w.anchor.value.ts, Frames(now - w.anchor.value.time);
    NormMultiplies(k, w.frameTS);
    NormAdds(a, Norm(k * w.frameTS, true));
    NormAdds(k * w.frameTS, a);
  }

  lemma ResetWraps(w: Writer)
    requires RESET_FRAMES * w.frameTS < HALF
    ensures Reset(WrapWriter(w), true) == Reset(w, false) == RESET_FRAMES * w.frameTS
  {
  }

  lemma NotBehindWraps(w: Writer, ts: int)
    requires Near(w.maxTS, ts)
    ensures NotBehind(WrapWriter(w), Norm(ts, true), true) == Norm(NotBehind(w, ts, false), true)
  {
    DiffWraps(w.maxTS, ts);
  }

  lemma CurTSWraps(w: Writer, ts: int, now: int)
    requires RESET_FRAMES * w.frameTS < HALF && Near(w.maxTS, ts)
    requires w.anchor.Some? ==> Near(Wall(w, now, false), NotBehind(w, ts, false))
    ensures CurTS(WrapWriter(w), Norm(ts, true), now, true) == Norm(CurTS(w, ts, now, false), true)
  {
    ResetWraps(w);
    NotBehindWraps(w, ts);
    if w.anchor.Some? {
      WallWraps(w, now);
      DiffWraps(Wall(w, now, false), NotBehind(w, ts, false));
      assert Diff(Wall(w, now, false), NotBehind(w, ts, false), false) == Wall(w, now, false) - NotBehind(w, ts, false);
    }
    hide Diff, Norm, Wall, Reset, NotBehind;
  }

  lemma WriteEventWraps(w: Writer, auto: bool, typ: int, marker: bool, ts: int, now: int, ok: bool)
    requires Near(ts, w.maxTS)
    ensures WriteEvent(WrapWriter(w), auto, typ, marker, Norm(ts, true), now, ok, true)
         == WrapWriter(WriteEvent(w, auto, typ, marker, ts, now, ok, false))
  {
    DiffWraps(ts, w.maxTS);
    var x := Sent(auto, ts, w.seqNo, typ, marker);
    assert WrapLog(w.log + [x]) == WrapLog(w.log) + [WrapSent(x)];
  }

  lemma StepWraps(s: System, a: Act)
    requires RESET_FRAMES * s.w.frameTS < HALF && SmallGaps(s, a)
    ensures Step(WrapSystem(s), a, true) == WrapSystem(Step(s, a, false))
  {
    match a
    case NewAuto =>
    case NewManual => assert WrapSystem(Step(s, a, false)).manual == WrapSystem(s).manual + [Norm(s.w.maxTS, true)];
    case AutoCur(now) => if s.auto.Idle? { CurTSWraps(s.w, s.auto.ts, now); }
    case AutoWrite(typ, marker, now, ok) =>
      if s.auto.Holding? {
        WriteEventWraps(s.w, true, typ, marker, s.auto.cur, now, ok);
        NormAdds(s.auto.cur, s.w.frameTS);
      }
    case Sync(k, now) =>
      if k < |s.manual| {
        if s.w.anchor.Some? { WallWraps(s.w, now); }
        assert WrapSystem(Step(s, a, false)).manual == WrapSystem(s).manual[k := Norm(Project(s.w, now, false), true)];
      }
    case ManualWrite(k, typ, marker, now, ok) =>
      if k < |s.manual| { WriteEventWraps(s.w, false, typ, marker, s.manual[k], now, ok); }
  }

  /**
    As long as no correction spans half the circle, the 32-bit clock is the ideal clock modulo 2^32,
    in every interleaving of the streams' steps and with any failures.
   */
  lemma {:induction false} FollowsIdeal(frameTS: nat, acts: seq<Act>)
    requires RESET_FRAMES * frameTS < HALF && SmallGapsThroughout(NewSystem(frameTS), acts)
    ensures Steps(NewSystem(frameTS), acts, true) == WrapSystem(Steps(NewSystem(frameTS), acts, false))
  {
    if |acts| > 0 {
      var n := |acts| - 1;
      FollowsIdeal(frameTS, acts[..n]);
      IdealAdvances(frameTS, acts[..n]);
      StepWraps(Steps(NewSystem(frameTS), acts[..n], false), acts[n]);
    } else {
      assert WrapLog([]) == [];
    }
  }

  /**
    The program's automatic stream advances: its timestamps are the 32-bit images of numbers that grow
    by at least one frame each.
   */
  lemma AutoStreamAdvances(frameTS: nat, acts: seq<Act>, s: System, t: System)
    requires RESET_FRAMES * frameTS < HALF && SmallGapsThroughout(NewSystem(frameTS), acts)
    requires s == Steps(NewSystem(frameTS), acts, true) && t == Steps(NewSystem(frameTS), acts, false)
    ensures var ts, ideal := AutoTimes(s.w.log), AutoTimes(t.w.log);
            && Spaced(ideal, frameTS) && |ts| == |ideal|
            && (forall i :: 0 <= i < |ts| ==> ts[i] == Norm(ideal[i], true))
  {
    hide Step, SmallGapsThroughout;
    FollowsIdeal(frameTS, acts);
    IdealAdvances(frameTS, acts);
    WrapAutoTimes(t.w.log);
  }

  lemma {:induction false} WrapAutoTimes(log: seq<Sent>)
    ensures var ts, ws := AutoTimes(log), AutoTimes(WrapLog(log));
            |ws| == |ts| && forall i :: 0 <= i < |ts| ==> ws[i] == Norm(ts[i], true)
  {
    if |log| > 0 {
      var n := |log| - 1;
      WrapAutoTimes(log[..n]);
      assert WrapLog(log)[..n] == WrapLog(log[..n]);
    }
  }

  // ----- the wall clock

  /** The whole frames nearest to a duration; of two equally near, the one farther from zero. */
  lemma FramesRounds(d: int, k: int)
    requires k == Frames(d)
    ensures -FRAME_DUR <= 2 * (k * FRAME_DUR - d) <= FRAME_DUR
    ensures 2 * (k * FRAME_DUR - d) == FRAME_DUR ==> d >= 0
    ensures 2 * (k * FRAME_DUR - d) == -FRAME_DUR ==> d < 0
  {
  }

  /** ts is within half a frame of what passed since the anchor, at frameTS units a frame. */
  predicate OnWallClock(ts: int, anchor: Anchor, frameTS: nat, now: int) {
    var error := (ts - anchor.ts) * FRAME_DUR - (now - anchor.time) * frameTS;
    -FRAME_DUR * frameTS <= 2 * error <= FRAME_DUR * frameTS
  }

  lemma Scale(x: int, bound: int, f: nat)
    requires -bound <= x <= bound
    ensures -bound * f <= x * f <= bound * f
  {
  }

  /** The projection of the wall clock is the anchor and whole frames, within half a frame of the time passed. */
  lemma WallIs(w: Writer, now: int)
    requires w.anchor.Some?
    ensures OnWallClock(Wall(w, now, false), w.anchor.value, w.frameTS, now)
    ensures exists k :: Wall(w, now, false) == w.anchor.value.ts + k * w.frameTS
  {
    var d, f := now - w.anchor.value.time, w.frameTS;
    var k := Frames(d);
    FramesRounds(d, k);
    Scale(2 * (k * FRAME_DUR - d), FRAME_DUR, f);
    assert Wall(w, now, false) == w.anchor.value.ts + k * f;
    hide Frames, Wall;
    Regroup(k, d, f);
  }

  lemma Regroup(k: int, d: int, f: int)
    ensures 2 * (k * FRAME_DUR - d) * f == 2 * ((k * f) * FRAME_DUR - d * f)
  {
  }

  /** Syncing sets that stream's timestamp to the wall clock, or before any write to the latest timestamp; no other moves. */
  lemma SyncIs(s: System, k: nat, now: int, t: System)
    requires k < |s.manual| && t == Step(s, Sync(k, now), false)
    ensures |t.manual| == |s.manual| && t.w == s.w && t.auto == s.auto
    ensures forall i :: 0 <= i < |s.manual| && i != k ==> t.manual[i] == s.manual[i]
    ensures if s.w.anchor.None? then t.manual[k] == s.w.maxTS
            else OnWallClock(t.manual[k], s.w.anchor.value, s.w.frameTS, now)
  {
    if s.w.anchor.Some? { WallIs(s.w, now); }
    hide Wall, OnWallClock;
  }

  // ----- what is written

  /** A packet offered to the writer downstream, which took it or not. */
  datatype Try = Try(time: int, auto: bool, ts: int, typ: int, marker: bool, ok: bool)

  /** The packet a step offers: the automatic stream's at the timestamp it holds, a manual stream's at its own. */
  function Tried(s: System, a: Act): seq<Try> {
    match a
    case AutoWrite(typ, marker, now, ok) =>
      if s.auto.Holding? then [Try(now, true, s.auto.cur, typ, marker, ok)] else []
    case ManualWrite(k, typ, marker, now, ok) =>
      if k < |s.manual| then [Try(now, false, s.manual[k], typ, marker, ok)] else []
    case _ => []
  }

  function Tries(s: System, acts: seq<Act>, wrap: bool): seq<Try> {
    if |acts| == 0 then []
    else
      var n := |acts| - 1;
      Tries(s, acts[..n], wrap) + Tried(Steps(s, acts[..n], wrap), acts[n])
  }

  /** The packets taken, numbered from 0. */
  function Taken(tries: seq<Try>): seq<Sent> {
    if |tries| == 0 then []
    else
      var before, x := Taken(tries[..|tries| - 1]), tries[|tries| - 1];
      before + if x.ok then [Sent(x.auto, x.ts, |before| % 0x1_0000, x.typ, x.marker)] else []
  }

  /** The latest of a first timestamp and those of the packets. */
  function Latest(log: seq<Sent>, first: int): int {
    if |log| == 0 then first
    else
      var before, ts := Latest(log[..|log| - 1], first), log[|log| - 1].ts;
      if ts > before then ts else before
  }

  lemma TakenMore(tries: seq<Try>, x: Try)
    ensures Taken(tries + [x]) == Taken(tries) + if x.ok then [Sent(x.auto, x.ts, |Taken(tries)| % 0x1_0000, x.typ, x.marker)] else []
  {
    assert (tries + [x])[..|tries|] == tries;
  }

  ghost predicate WrittenAs(w: Writer, tries: seq<Try>, wrap: bool) {
    && Consecutive(w)
    && w.log == Taken(tries)
    && w.anchor == (if tries == [] then None else Some(Anchor(tries[0].time, tries[0].ts)))
    && (!wrap ==> w.maxTS == Latest(w.log, TIMESTAMP_OFFSET))
  }

  lemma LatestMore(log: seq<Sent>, x: Sent, first: int)
    ensures Latest(log + [x], first) == if x.ts > Latest(log, first) then x.ts else Latest(log, first)
  {
    assert (log + [x])[..|log|] == log;
  }

  lemma WriteIsTried(w: Writer, x: Try, tries: seq<Try>, wrap: bool)
    requires WrittenAs(w, tries, wrap)
    ensures WrittenAs(WriteEvent(w, x.auto, x.typ, x.marker, x.ts, x.time, x.ok, wrap), tries + [x], wrap)
  {
    hide Taken, Latest, Norm;
    TakenMore(tries, x);
    LatestMore(w.log, Sent(x.auto, x.ts, w.seqNo, x.typ, x.marker), TIMESTAMP_OFFSET);
    assert (|w.log| % 0x1_0000 + 1) % 0x1_0000 == (|w.log| + 1) % 0x1_0000;
  }

  lemma StepIsTried(s: System, a: Act, tries: seq<Try>, wrap: bool)
    requires WrittenAs(s.w, tries, wrap)
    ensures WrittenAs(Step(s, a, wrap).w, tries + Tried(s, a), wrap)
  {
    hide WrittenAs, WriteEvent, CurTS, Project;
    assert tries + [] == tries;
    match a
    case AutoWrite(typ, marker, now, ok) =>
      if s.auto.Holding? { WriteIsTried(s.w, Try(now, true, s.auto.cur, typ, marker, ok), tries, wrap); }
    case ManualWrite(k, typ, marker, now, ok) =>
      if k < |s.manual| { WriteIsTried(s.w, Try(now, false, s.manual[k], typ, marker, ok), tries, wrap); }
    case NewAuto => NewAutoIsTried(s, tries, wrap);
    case _ =>
  }

  lemma NewAutoIsTried(s: System, tries: seq<Try>, wrap: bool)
    requires WrittenAs(s.w, tries, wrap)
    ensures WrittenAs(s.w.(auto := true), tries, wrap)
  {
  }

  /**
    Whatever the interleaving and the failures: the packets written are those the writer downstream took,
    in order; the first try, even a failed one, anchors its timestamp to its time for good; and the ideal
    clock's latest timestamp is that of the packets written.
   */
  lemma {:induction false} WritesAreTries(frameTS: nat, acts: seq<Act>, wrap: bool, s: System)
    requires s == Steps(NewSystem(frameTS), acts, wrap)
    ensures WrittenAs(s.w, Tries(NewSystem(frameTS), acts, wrap), wrap)
  {
    if |acts| > 0 {
      hide Step, WrittenAs, Tried;
      var n := |acts| - 1;
      var before := Steps(NewSystem(frameTS), acts[..n], wrap);
      WritesAreTries(frameTS, acts[..n], wrap, before);
      StepIsTried(before, acts[n], Tries(NewSystem(frameTS), acts[..n], wrap), wrap);
    }
  }

  // ----- how CurTS corrects

  /** The corrected timestamp is not behind the latest written, nor too far behind the wall clock. */
  lemma CurTSBounds(w: Writer, ts: int, now: int)
    requires RESET_FRAMES * w.frameTS < HALF && Near(w.maxTS, ts)
    requires w.anchor.Some? ==> Near(Wall(w, now, false), NotBehind(w, ts, false))
    ensures var r := CurTS(w, ts, now, false);
            && r >= w.maxTS && r >= ts
            && (w.anchor.Some? ==> Wall(w, now, false) - r <= RESET_FRAMES * w.frameTS)
            && (r > w.maxTS && r > ts ==> w.anchor.Some? && OnWallClock(r, w.anchor.value, w.frameTS, now))
            && CurTS(WrapWriter(w), Norm(ts, true), now, true) == Norm(r, true)
  {
    CurTSWraps(w, ts, now);
    if w.anchor.Some? { WallIs(w, now); }
    hide Wall, OnWallClock;
  }

  /**
    The corrected timestamp is strictly ahead of the latest one written exactly when the stream's own
    timestamp already was, or the wall clock has run away from it; otherwise it repeats that timestamp.
   */
  lemma CurTSAheadWhen(w: Writer, ts: int, now: int)
    ensures CurTS(w, ts, now, false) > w.maxTS <==>
              ts > w.maxTS || (w.anchor.Some? && Wall(w, now, false) - w.maxTS > Reset(w, false))
  {
    hide Wall;
  }

  /**
    A manual stream syncs k frames after the first automatic packet and writes; the automatic stream is
    then corrected at the same instant.
   */
  function RepeatingRun(k: nat): seq<Act> {
    [NewAuto, NewManual, AutoCur(0), AutoWrite(0, false, 0, true), Sync(0, k * FRAME_DUR),
     ManualWrite(0, 101, true, k * FRAME_DUR, true), AutoCur(k * FRAME_DUR)]
  }

  lemma StepsAre(s: System, acts: seq<Act>, wrap: bool)
    requires |acts| == 7
    ensures var t := Step(Step(Step(Step(s, acts[0], wrap), acts[1], wrap), acts[2], wrap), acts[3], wrap);
            Steps(s, acts, wrap) == Step(Step(Step(t, acts[4], wrap), acts[5], wrap), acts[6], wrap)
  {
    hide Step;
    forall n | 0 <= n < 7 ensures Steps(s, acts[..n + 1], wrap) == Step(Steps(s, acts[..n], wrap), acts[n], wrap) {
      assert acts[..n + 1][..n] == acts[..n];
    }
    assert acts[..7] == acts && acts[..0] == [];
    assert Steps(s, acts[..4], wrap) == Step(Step(Step(Step(s, acts[0], wrap), acts[1], wrap), acts[2], wrap), acts[3], wrap);
  }

  /** A timestamp that is not ahead of the latest packet written: it is that packet's own. */
  lemma CurTSRepeats(frameTS: nat, k: nat, wrap: bool, s: System)
    requires frameTS > 0 && k > 0 && TIMESTAMP_OFFSET + k * frameTS < HALF && RESET_FRAMES * frameTS < HALF
    requires s == Steps(NewSystem(frameTS), RepeatingRun(k), wrap)
    ensures s.auto.Holding? && s.auto.cur == s.w.maxTS
    ensures |s.w.log| == 2 && !s.w.log[1].auto && s.w.log[1].ts == s.auto.cur && s.w.log[0].ts < s.auto.cur
  {
    hide Steps;
    var acts := RepeatingRun(k);
    StepsAre(NewSystem(frameTS), acts, wrap);
    var first := Step(Step(Step(Step(NewSystem(frameTS), acts[0], wrap), acts[1], wrap), acts[2], wrap), acts[3], wrap);
    AtLeastOne(k, frameTS);
    FirstWritten(frameTS, acts, wrap);
    WallAfter(first.w, k, wrap);
    hide Step, Wall;
    SecondWritten(first, k * FRAME_DUR, TIMESTAMP_OFFSET + k * frameTS, wrap);
  }

  lemma AtLeastOne(k: nat, f: nat)
    requires k > 0
    ensures k * f >= f
  {
  }

  /** The rest of the run, the wall clock standing at ts. */
  lemma SecondWritten(s: System, now: int, ts: int, wrap: bool)
    requires s.w.anchor.Some? && Wall(s.w, now, wrap) == ts && s.auto.Idle? && |s.manual| == 1
    requires 0 <= s.w.maxTS < ts < HALF && s.w.maxTS <= s.auto.ts <= ts && RESET_FRAMES * s.w.frameTS < HALF
    ensures var t := Step(Step(Step(s, Sync(0, now), wrap), ManualWrite(0, 101, true, now, true), wrap), AutoCur(now), wrap);
            && t.auto == Holding(s.auto.ts, ts) && t.w.maxTS == ts
            && t.w.log == s.w.log + [Sent(false, ts, s.w.seqNo, 101, true)]
  {
    var u := Step(Step(s, Sync(0, now), wrap), ManualWrite(0, 101, true, now, true), wrap);
    assert Wall(u.w, now, wrap) == ts;
    assert u.w.maxTS == ts;
    hide Wall;
  }

  lemma FirstWritten(frameTS: nat, acts: seq<Act>, wrap: bool)
    requires TIMESTAMP_OFFSET + frameTS < HALF
    requires |acts| >= 4 && acts[0] == NewAuto && acts[1] == NewManual && acts[2] == AutoCur(0) && acts[3] == AutoWrite(0, false, 0, true)
    ensures var s := Step(Step(Step(Step(NewSystem(frameTS), acts[0], wrap), acts[1], wrap), acts[2], wrap), acts[3], wrap);
            && s.w == NewWriter(frameTS).(seqNo := 1, anchor := Some(Anchor(0, TIMESTAMP_OFFSET)), auto := true,
                                          log := [Sent(true, TIMESTAMP_OFFSET, 0, 0, false)])
            && s.auto == Idle(TIMESTAMP_OFFSET + frameTS) && s.manual == [TIMESTAMP_OFFSET]
  {
  }

  lemma WholeFrames(k: nat)
    ensures Frames(k * FRAME_DUR) == k
  {
  }

  lemma Small(x: int, wrap: bool)
    requires 0 <= x < HALF
    ensures Norm(x, wrap) == x
  {
  }

  lemma WallAfter(w: Writer, k: nat, wrap: bool)
    requires w.anchor == Some(Anchor(0, TIMESTAMP_OFFSET)) && w.frameTS > 0 && TIMESTAMP_OFFSET + k * w.frameTS < HALF
    ensures Wall(w, k * FRAME_DUR, wrap) == TIMESTAMP_OFFSET + k * w.frameTS
  {
    hide Frames, Norm;
    WholeFrames(k);
    AtLeastOne(w.frameTS, k);
    Small(k, wrap);
    Small(k * w.frameTS, wrap);
    Small(TIMESTAMP_OFFSET + k * w.frameTS, wrap);
  }

  // ----- jitter does not move timestamps

  /** While the step finds the stream neither behind another stream nor ten frames behind the wall clock. */
  predicate Calm(s: System, a: Act, wrap: bool) {
    a.AutoCur? && s.auto.Idle? ==>
      && Diff(s.w.maxTS, s.auto.ts, wrap) <= 0
      && (s.w.anchor.Some? ==> Diff(Wall(s.w, a.now, wrap), s.auto.ts, wrap) <= Reset(s.w, wrap))
  }

  ghost predicate CalmThroughout(s: System, acts: seq<Act>, wrap: bool) {
    |acts| > 0 ==>
      var n := |acts| - 1;
      CalmThroughout(s, acts[..n], wrap) && Calm(Steps(s, acts[..n], wrap), acts[n], wrap)
  }

  /** The automatic packets so far are exactly one frame apart, and the next one will be too. */
  ghost predicate Steady(s: System, start: int, wrap: bool) {
    var ts := AutoTimes(s.w.log);
    && (forall i :: 0 <= i < |ts| ==> ts[i] == Norm(start + i * s.w.frameTS, wrap))
    && !s.auto.Absent?
    && s.auto.ts == Norm(start + |ts| * s.w.frameTS, wrap)
    && (s.auto.Holding? ==> s.auto.cur == s.auto.ts)
  }

  lemma OneMore(n: int, f: int)
    ensures (n + 1) * f == n * f + f
  {
  }

  lemma CalmKeeps(s: System, now: int, wrap: bool)
    requires s.auto.Idle? && Calm(s, AutoCur(now), wrap)
    ensures CurTS(s.w, s.auto.ts, now, wrap) == s.auto.ts
  {
    hide Wall, Reset, Diff;
  }

  lemma AutoWriteSteady(s: System, typ: int, marker: bool, now: int, ok: bool, start: int, wrap: bool)
    requires Steady(s, start, wrap)
    ensures Steady(Step(s, AutoWrite(typ, marker, now, ok), wrap), start, wrap)
  {
    hide AutoTimes, CurTS, Project, Diff;
    if s.auto.Holding? && ok {
      AutoTimesMore(s.w.log, Sent(true, s.auto.cur, s.w.seqNo, typ, marker));
      var n := |AutoTimes(s.w.log)|;
      if wrap { NormAdds(start + n * s.w.frameTS, s.w.frameTS); }
      OneMore(n, s.w.frameTS);
    }
  }

  lemma StepSteady(s: System, a: Act, start: int, wrap: bool)
    requires Steady(s, start, wrap) && Calm(s, a, wrap)
    ensures Steady(Step(s, a, wrap), start, wrap)
  {
    hide CurTS, Project, AutoTimes, Calm, Diff, Norm;
    match a
    case AutoCur(now) => if s.auto.Idle? { CalmKeeps(s, now, wrap); }
    case AutoWrite(typ, marker, now, ok) => AutoWriteSteady(s, typ, marker, now, ok, start, wrap);
    case ManualWrite(k, typ, marker, now, ok) =>
      if k < |s.manual| { AutoTimesMore(s.w.log, Sent(false, s.manual[k], s.w.seqNo, typ, marker)); }
    case _ =>
  }

  /**
    Jitter immunity: from the creation of the automatic stream at timestamp start, while every
    correction finds the rounded wall clock at most ten frames ahead of the stream and no other
    stream has written ahead of it, the n-th automatic packet has timestamp start + n frames exactly.
   */
  lemma {:induction false} JitterImmunity(s: System, acts: seq<Act>, start: int, wrap: bool)
    requires Steady(s, start, wrap) && CalmThroughout(s, acts, wrap)
    ensures Steady(Steps(s, acts, wrap), start, wrap)
  {
    if |acts| > 0 {
      var n := |acts| - 1;
      JitterImmunity(s, acts[..n], start, wrap);
      StepSteady(Steps(s, acts[..n], wrap), acts[n], start, wrap);
    }
  }

  /** The automatic stream starts out steady, at the latest timestamp written when it is created. */
  lemma StartsSteady(s: System, wrap: bool)
    requires s.auto.Absent? && AutoTimes(s.w.log) == [] && s.w.maxTS == Norm(s.w.maxTS, wrap)
    ensures Steady(Step(s, NewAuto, wrap), s.w.maxTS, wrap)
  {
  }
}
