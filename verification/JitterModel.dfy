/**
  The jitter buffer as a state machine over values: what every operation of the linked-list
  implementation (module JitterBuffer) computes. The list is a sequence, head first.
 */
module JitterModel {
  import opened Options
  import opened Seq16
  import opened JitterLines
  import opened JitterTypes
  import opened JitterList

  datatype Stats = Stats(pushed: nat, paddingPushed: nat, lost: nat, dropped: nat, popped: nat, samples: nat,
                         switches: nat, reordered: nat, restarts: nat, stray: nat, duplicate: nat)

  const NO_STATS := Stats(0, 0, 0, 0, 0, 0, 0, 0, 0, 0, 0)

  /**
    A sample as it left the list: all of its packets, and what justified releasing it. expiry is
    None when a flush released it, otherwise the clock less the latency.
   */
  datatype Run = Run(entries: seq<Entry>, first: bool, prevSN: u16, expiry: Option<int>)

  /** A call of missingBetween: its arguments. */
  datatype Measure = Measure(sn: u16, prevSN: u16)

  /** History of a buffer; no branch looks at it. */
  datatype Log = Log(
    runs: seq<Run>,                // samples taken off the list
    delivered: seq<seq<ExtPacket>>,// arguments of the onPacket calls
    reports: seq<(nat, nat)>,      // arguments of the onPacketLoss calls: lost, dropped
    travel: nat,                   // unrolled advance of prevSN over all packets taken off the list
    measured: seq<Measure>,        // calls of missingBetween
    evicted: nat,                  // incomplete packets dropped off the list
    paddingGone: nat               // padding packets discarded on arrival
  )

  const NO_LOG := Log([], [], [], 0, [], 0, 0)

  /** The list and the playing position. */
  datatype Play = Play(initialized: bool, prevSN: u16, list: seq<Entry>, stats: Stats, log: Log)

  datatype State = State(
    latency: int,
    detectRestarts: bool,
    ssrc: Option<int>,
    cur: Line,
    alt: Line,
    timer: int,                    // when the timer was last set to fire
    play: Play
  )

  /** Times count from the creation of the buffer, which sets the timer for the first time. */
  function NewBuffer(latency: int, detectRestarts: bool): State {
    State(latency, detectRestarts, None, NO_LINE, NO_LINE, latency, Play(false, 0, [], NO_STATS, NO_LOG))
  }

  // ----- taking packets off the list

  function Report(s: Play): Play {
    s.(log := s.log.(reports := s.log.reports + [(s.stats.lost, s.stats.dropped)]))
  }

  /** Takes the sample of length k off the head of the list and hands it over. */
  function PopSample(s: Play, expiry: Option<int>): (t: Play)
    requires RunLength(s.list) > 0
    ensures |t.list| < |s.list|
  {
    var k := RunLength(s.list);
    var sample := NonPadding(s.list[..k]);
    s.(initialized := true,
       list := s.list[k..],
       prevSN := s.list[k - 1].SN(),
       stats := s.stats.(popped := s.stats.popped + k, samples := s.stats.samples + 1),
       log := s.log.(travel := s.log.travel + Sub(s.list[0].SN(), s.prevSN) + k - 1,
                     runs := s.log.runs + [Run(s.list[..k], !s.initialized, s.prevSN, expiry)],
                     delivered := if sample == [] then s.log.delivered else s.log.delivered + [sample]))
  }

  /** Counts the packets missing before the head as lost. */
  function MeasureHead(s: Play): Play
    requires |s.list| > 0
  {
    var sn := s.list[0].SN();
    s.(stats := s.stats.(lost := s.stats.lost + MissingBetween(sn, s.prevSN)),
       log := s.log.(measured := s.log.measured + [Measure(sn, s.prevSN)]))
  }

  /** Drops the head of the list, counting the packets missing before it. */
  function DropHead(s: Play): Play
    requires |s.list| > 0
  {
    var sn := s.list[0].SN();
    var m := if s.initialized && !s.list[0].discont then MeasureHead(s) else s;
    m.(list := m.list[1..],
       prevSN := sn,
       stats := m.stats.(dropped := m.stats.dropped + 1),
       log := m.log.(travel := m.log.travel + Sub(sn, m.prevSN), evicted := m.log.evicted + 1))
  }

  /** Drops incomplete heads: those received before the limit, or all of them when there is none. */
  function DropIncomplete(s: Play, limit: Option<int>): (t: Play)
    ensures |t.list| <= |s.list|
    ensures |t.list| == |s.list| ==> t == s
    decreases |s.list|
  {
    if |s.list| > 0 && RunLength(s.list) == 0 && (limit.None? || s.list[0].ext.receivedAt < limit.value)
    then DropIncomplete(DropHead(s), limit)
    else s
  }

  /** The head may go without waiting: it is the first, contiguous, or starts a new segment. */
  predicate InSequence(s: Play)
    requires |s.list| > 0
  {
    s.list[0].SN() == Next(s.prevSN) || s.list[0].discont || !s.initialized
  }

  /** Releases complete samples until one must wait; also says whether any packet was found lost. */
  function Release(s: Play, expiry: int): (r: (Play, bool))
    ensures |r.0.list| <= |s.list|
    decreases |s.list|
  {
    if RunLength(s.list) == 0 then (s, false)
    else if InSequence(s) then Release(PopSample(s, Some(expiry)), expiry)
    else if s.list[0].ext.receivedAt <= expiry then
      (Release(PopSample(MeasureHead(s), Some(expiry)), expiry).0, true)
    else (s, false)
  }

  /** Drops the incomplete heads that have been held for longer than the latency. */
  function DropExpired(s: Play, expiry: int): Play {
    var t := DropIncomplete(s, Some(expiry));
    if |t.list| < |s.list| then Report(t) else t
  }

  function ReleaseReady(s: Play, expiry: int): Play {
    var (t, loss) := Release(s, expiry);
    if loss then Report(t) else t
  }

  /** Releases every complete sample, dropping what is incomplete after it; also says whether any was lost or dropped. */
  function Drain(s: Play): (r: (Play, bool))
    ensures |r.0.list| <= |s.list|
    decreases |s.list|
  {
    if RunLength(s.list) == 0 then (s, false)
    else
      var lossy := !InSequence(s);
      var t := PopSample(if lossy then MeasureHead(s) else s, None);
      var d := DropIncomplete(t, None);
      var (u, rest) := Drain(d);
      (u, lossy || |d.list| < |t.list| || rest)
  }

  function Flush(s: Play): Play {
    var d := DropIncomplete(s, None);
    var (t, report) := Drain(d);
    if report || |d.list| < |s.list| then Report(t) else t
  }

  function ResetStream(s: Play): Play {
    Flush(s).(initialized := false, prevSN := 0)
  }

  // ----- putting packets on the list

  function DiscardDuplicate(s: Play, pkt: Packet): Play {
    if pkt.padding then DiscardPadding(s)
    else s.(stats := s.stats.(duplicate := s.stats.duplicate + 1))
  }

  function DiscardPadding(s: Play): Play {
    s.(log := s.log.(paddingGone := s.log.paddingGone + 1))
  }

  function Enqueue(s: Play, pkt: Packet, receivedAt: int): Play {
    var discont := !s.initialized || !WithinRange(pkt.sn, s.prevSN);
    if |s.list| == 0 then s.(list := [NewEntry(pkt, receivedAt, discont)])
    else match Place(s.list, pkt.sn, discont)
      case Duplicate => DiscardDuplicate(s, pkt)
      case Insert(i, d, reordered) =>
        s.(list := InsertAt(s.list, i, NewEntry(pkt, receivedAt, d)),
           stats := s.stats.(reordered := s.stats.reordered + if reordered then 1 else 0))
      case Lost => s
  }

  /** A packet behind the playing position. */
  function DiscardExpired(s: Play, pkt: Packet): Play {
    if pkt.padding then DiscardPadding(s)
    else Report(s.(stats := s.stats.(dropped := s.stats.dropped + 1)))
  }

  function DiscardStray(s: Play, pkt: Packet): Play {
    if pkt.padding then DiscardPadding(s)
    else Report(s.(stats := s.stats.(dropped := s.stats.dropped + 1, stray := s.stats.stray + 1)))
  }

  function Expired(s: Play, sn: u16): bool {
    s.initialized && Before(sn, s.prevSN)
  }

  /** Counts the packet in. */
  function Arrive(s: Play, pkt: Packet): Play {
    s.(stats := s.stats.(pushed := s.stats.pushed + 1,
                         paddingPushed := s.stats.paddingPushed + if pkt.padding then 1 else 0))
  }

  /** The last part of push, once the packet is known to belong to the playing line. */
  function Admit(s: Play, pkt: Packet, receivedAt: int): Play {
    if Expired(s, pkt.sn) then DiscardExpired(s, pkt)
    else if |s.list| > 0 && (pkt.sn == s.list[0].SN() || pkt.sn == s.list[|s.list| - 1].SN()) then
      DiscardDuplicate(s, pkt)
    else Enqueue(s, pkt, receivedAt)
  }

  // ----- the whole buffer

  function PopReady(s: State, now: int): State {
    var expiry := now - s.latency;
    ArmTimer(s.(play := ReleaseReady(DropExpired(s.play, expiry), expiry)))
  }

  function ArmTimer(s: State): State {
    if |s.play.list| > 0 then s.(timer := s.play.list[0].ext.receivedAt + s.latency) else s
  }

  function SwitchStream(s: State, ssrc: int): State {
    var t := ResetStream(s.play);
    s.(ssrc := Some(ssrc), cur := NO_LINE, alt := NO_LINE,
       play := t.(stats := t.stats.(switches := t.stats.switches + 1)))
  }

  function FollowSSRC(s: State, ssrc: int): State {
    if s.ssrc == None then s.(ssrc := Some(ssrc))
    else if s.ssrc != Some(ssrc) then SwitchStream(s, ssrc)
    else s
  }

  /** The outcome of a vote between sequence lines. */
  function Decided(s: State, v: Verdict): State {
    var t := if v.takeover && !v.ahead then ResetStream(s.play) else s.play;
    s.(cur := v.cur, alt := v.alt,
       play := if v.restart then t.(stats := t.stats.(restarts := t.stats.restarts + 1)) else t)
  }

  function AcceptLine(s: State, sn: u16, at: int): State {
    Decided(s, Vote(s.cur, s.alt, sn, at))
  }

  /** Keeps the packet if it belongs to the playing line, or if lines are not told apart. */
  function Sift(s: State, pkt: Packet, receivedAt: int): State {
    if !s.detectRestarts then s.(play := Admit(s.play, pkt, receivedAt))
    else
      var t := AcceptLine(s, pkt.sn, receivedAt);
      var accepted := Vote(s.cur, s.alt, pkt.sn, receivedAt).accept;
      t.(play := if accepted then Admit(t.play, pkt, receivedAt) else DiscardStray(t.play, pkt))
  }

  function Push(s: State, pkt: Packet, receivedAt: int): State {
    var s0 := s.(play := Arrive(s.play, pkt));
    if pkt.padding && !s.play.initialized then s0.(play := DiscardPadding(s0.play))
    else Sift(FollowSSRC(s0, pkt.ssrc), pkt, receivedAt)
  }

  // ----- runs

  /** One critical section of the buffer. Timer is a timer expiry; Close flushes. */
  datatype Op =
    | PushAt(pkt: Packet, receivedAt: int, now: int)
    | Timer(now: int)
    | FlushAll
    | UpdateLatency(latency: int)

  function Step(s: State, op: Op): State {
    match op
    case PushAt(pkt, at, now) => var t := Push(s, pkt, at); if |t.play.list| == 0 then t else PopReady(t, now)
    case Timer(now) => PopReady(s, now)
    case FlushAll => s.(play := Flush(s.play))
    case UpdateLatency(latency) => ArmTimer(s.(latency := latency))
  }

  function Steps(s: State, ops: seq<Op>): State {
    if |ops| == 0 then s else Step(Steps(s, ops[..|ops| - 1]), ops[|ops| - 1])
  }
}
