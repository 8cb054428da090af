/**
  The read stream of an RTP session as a protocol: one reader, which stops at its first error, and
  writers serialised by the session's read lock, meeting over the stream's mutex, its queue and an
  unbuffered channel. A step is one lock, channel or copy operation.
 */
module Session {
  import opened Options

  const QUEUE: nat := 10

  datatype Packet = Packet(hdr: int, payload: seq<int>)

  /** The caller's header and payload buffers of one call of ReadRTP. */
  datatype Buffers = Buffers(hdr: int, payload: seq<int>)

  /** The call of write in progress, if any; p is the index of its packet among those written. */
  datatype Writer =
    | WIdle
    | WWant(p: nat)                        // waiting for the mutex
    | WCopyHdr(p: nat, call: nat)          // holds it; copies to the buffers offered
    | WCopyPayload(p: nat, call: nat)
    | WQueue(p: nat)                       // holds it; no buffers offered
    | WNotify(p: nat, n: nat)              // has let go; sending n on copied

  datatype Outcome = Got(p: nat, n: nat) | Eof

  /** The call of ReadRTP in progress, if any. deferred says that an offer is to be withdrawn on return. */
  datatype Reader =
    | RIdle
    | RWant                                // waiting for the mutex
    | RLocked                              // holds it; looks at the queue
    | RCopyHdr(p: nat, deferred: bool)     // has taken a packet off the queue
    | RCopyPayload(p: nat, deferred: bool)
    | RWait                                // at the last select
    | RReturn(outcome: Outcome)            // the deferred withdrawal

  datatype Owner = Nobody | TheWriter | TheReader

  /** A packet returned: which call, which packet was written, and what the buffers held on return. */
  datatype Returned = Returned(call: nat, src: nat, hdr: int, payload: seq<int>)

  /** written, and bufs of past calls, are history. */
  datatype State = State(written: seq<Packet>, bufs: seq<Buffers>, queue: seq<nat>, offer: Option<nat>, mu: Owner,
                         closed: bool, writer: Writer, reader: Reader, stopped: bool, returned: seq<Returned>)

  const NEW := State([], [], [], None, Nobody, false, WIdle, RIdle, false, [])

  datatype Act =
    | Write(pkt: Packet) | WriterLock | WriterCopyHdr | WriterCopyPayload | WriterQueue | WriterSeesClosed
    | Read(bufs: Buffers) | ReaderLock | ReaderLook | ReaderCopyHdr | ReaderCopyPayload
    | ReaderTakes | ReaderSeesClosed | ReaderReturns
    | Notify                               // copied: the writer sends, the reader receives
    | Close

  function Min(a: nat, b: nat): nat { if a <= b then a else b }

  /** copy(dst, src) */
  function Copy(dst: seq<int>, src: seq<int>): (r: seq<int>)
    ensures |r| == |dst|
    ensures r[..Min(|dst|, |src|)] == src[..Min(|dst|, |src|)]
  {
    var n := Min(|dst|, |src|);
    src[..n] + dst[n..]
  }

  predicate Enabled(s: State, a: Act) {
    match a
    case Write(_) => s.writer.WIdle?
    case WriterLock => s.writer.WWant? && s.mu.Nobody?
    case WriterCopyHdr => s.writer.WCopyHdr?
    case WriterCopyPayload => s.writer.WCopyPayload?
    case WriterQueue => s.writer.WQueue?
    case WriterSeesClosed => s.writer.WNotify? && s.closed
    case Read(_) => s.reader.RIdle? && !s.stopped
    case ReaderLock => s.reader.RWant? && s.mu.Nobody?
    case ReaderLook => s.reader.RLocked?
    case ReaderCopyHdr => s.reader.RCopyHdr?
    case ReaderCopyPayload => s.reader.RCopyPayload?
    case ReaderTakes => s.reader.RWait? && |s.queue| > 0
    case ReaderSeesClosed => s.reader.RWait? && s.closed
    case ReaderReturns => s.reader.RReturn? && s.mu.Nobody?
    case Notify => s.writer.WNotify? && s.reader.RWait?
    case Close => true
  }

  /** The call in progress, or the last one. */
  function Call(s: State): int { |s.bufs| - 1 }

  function SetHdr(s: State, call: nat, hdr: int): State {
    if call < |s.bufs| then s.(bufs := s.bufs[call := s.bufs[call].(hdr := hdr)]) else s
  }

  function SetPayload(s: State, call: nat, src: seq<int>): State {
    if call < |s.bufs| then s.(bufs := s.bufs[call := s.bufs[call].(payload := Copy(s.bufs[call].payload, src))]) else s
  }

  function PayloadOf(s: State, p: nat): seq<int> { if p < |s.written| then s.written[p].payload else [] }
  function HdrOf(s: State, p: nat): int { if p < |s.written| then s.written[p].hdr else 0 }

  /** ReadRTP gives the packet to its caller. */
  function Finish(s: State, p: nat, n: nat): State {
    if Call(s) < 0 then s
    else
      var b := s.bufs[Call(s)];
      s.(reader := RIdle, returned := s.returned + [Returned(Call(s), p, b.hdr, b.payload[..Min(n, |b.payload|)])])
  }

  function Copied(s: State, call: int, p: nat): nat {
    if 0 <= call < |s.bufs| then Min(|s.bufs[call].payload|, |PayloadOf(s, p)|) else 0
  }

  /** A step that is not enabled changes nothing. */
  function Step(s: State, a: Act): State {
    if !Enabled(s, a) then s
    else match a
      case Write(pkt) => s.(written := s.written + [pkt], writer := WWant(|s.written|))
      case WriterLock =>
        s.(mu := TheWriter,
           writer := if s.offer.Some? then WCopyHdr(s.writer.p, s.offer.value) else WQueue(s.writer.p))
      case WriterCopyHdr =>
        SetHdr(s, s.writer.call, HdrOf(s, s.writer.p)).(writer := WCopyPayload(s.writer.p, s.writer.call))
      case WriterCopyPayload =>
        var n := Copied(s, s.writer.call, s.writer.p);
        SetPayload(s, s.writer.call, PayloadOf(s, s.writer.p)).(offer := None, mu := Nobody, writer := WNotify(s.writer.p, n))
      case WriterQueue =>
        s.(queue := if |s.queue| < QUEUE then s.queue + [s.writer.p] else s.queue, mu := Nobody, writer := WIdle)
      case WriterSeesClosed => s.(writer := WIdle)
      case Read(bufs) => s.(bufs := s.bufs + [bufs], reader := RWant)
      case ReaderLock => s.(mu := TheReader, reader := RLocked)
      case ReaderLook =>
        if |s.queue| > 0 then s.(mu := Nobody, queue := s.queue[1..], reader := RCopyHdr(s.queue[0], false))
        else s.(mu := Nobody, offer := if s.offer.None? && Call(s) >= 0 then Some(Call(s)) else s.offer, reader := RWait)
      case ReaderCopyHdr =>
        var t := if Call(s) >= 0 then SetHdr(s, Call(s), HdrOf(s, s.reader.p)) else s;
        t.(reader := RCopyPayload(s.reader.p, s.reader.deferred))
      case ReaderCopyPayload =>
        var p, n := s.reader.p, Copied(s, Call(s), s.reader.p);
        var t := if Call(s) >= 0 then SetPayload(s, Call(s), PayloadOf(s, p)) else s;
        if s.reader.deferred then t.(reader := RReturn(Got(p, n))) else Finish(t, p, n)
      case ReaderTakes => s.(queue := s.queue[1..], reader := RCopyHdr(s.queue[0], true))
      case ReaderSeesClosed => s.(reader := RReturn(Eof))
      case ReaderReturns =>
        var t := if s.offer == Some(Call(s)) then s.(offer := None) else s;
        if s.reader.outcome.Eof? then t.(reader := RIdle, stopped := true)
        else Finish(t, s.reader.outcome.p, s.reader.outcome.n)
      case Notify => s.(writer := WIdle, reader := RReturn(Got(s.writer.p, s.writer.n)))
      case Close => s.(closed := true)
  }

  function Steps(s: State, acts: seq<Act>): State {
    if |acts| == 0 then s else Step(Steps(s, acts[..|acts| - 1]), acts[|acts| - 1])
  }

  // ----- the invariant

  /** The packets returned. */
  function Sources(rs: seq<Returned>): (r: seq<nat>)
    ensures |r| == |rs|
  {
    seq(|rs|, i requires 0 <= i < |rs| => rs[i].src)
  }

  /** The packet that is on its way to the caller, if any. */
  function InHand(s: State): seq<nat> {
    match s.reader
    case RCopyHdr(p, _) => [p]
    case RCopyPayload(p, _) => [p]
    case RReturn(Got(p, _)) => [p]
    case _ => []
  }

  function BeingWritten(s: State): seq<nat> {
    if s.writer.WIdle? then [] else [s.writer.p]
  }

  /** Every packet the stream still knows of: returned, in the caller's hand, queued, being written. */
  function Pipeline(s: State): seq<nat> {
    Sources(s.returned) + InHand(s) + s.queue + BeingWritten(s)
  }

  ghost predicate LockOK(s: State) {
    && (s.mu.TheWriter? <==> s.writer.WCopyHdr? || s.writer.WCopyPayload? || s.writer.WQueue?)
    && (s.mu.TheReader? <==> s.reader.RLocked?)
  }

  /** Whom the buffers of the current call belong to. */
  ghost predicate OfferOK(s: State) {
    && (s.offer.Some? ==> s.offer.value == Call(s) && s.queue == []
                          && (s.reader.RWait? || s.reader == RReturn(Eof)))
    && (s.writer.WCopyHdr? || s.writer.WCopyPayload? ==> s.offer == Some(s.writer.call))
    && (s.writer.WQueue? ==> s.offer.None?)
    && (s.writer.WNotify? ==> s.offer.None? && (s.reader.RWait? || s.reader == RReturn(Eof) || s.stopped)
                              && (s.reader.RWait? ==> s.queue == []))
    && (!s.reader.RIdle? ==> |s.bufs| > 0 && !s.stopped)
    && (s.reader == RReturn(Eof) || s.stopped ==> s.closed)
  }

  ghost predicate Increasing(xs: seq<nat>, bound: nat) {
    && (forall i, j :: 0 <= i < j < |xs| ==> xs[i] < xs[j])
    && (forall i :: 0 <= i < |xs| ==> xs[i] < bound)
  }

  /** Buffers b hold packet p, cut to the payload buffer. */
  predicate Holds(s: State, b: Buffers, p: nat, n: nat) {
    && p < |s.written|
    && b.hdr == s.written[p].hdr
    && n == Min(|b.payload|, |s.written[p].payload|)
    && b.payload[..n] == s.written[p].payload[..n]
  }

  ghost predicate DataOK(s: State)
    requires OfferOK(s)
  {
    && (s.writer.WCopyPayload? && s.writer.p < |s.written| ==> s.bufs[Call(s)].hdr == s.written[s.writer.p].hdr)
    && (s.writer.WNotify? && s.reader.RWait? ==> Holds(s, s.bufs[Call(s)], s.writer.p, s.writer.n))
    && (s.reader.RCopyPayload? && s.reader.p < |s.written| ==> s.bufs[Call(s)].hdr == s.written[s.reader.p].hdr)
    && (s.reader.RReturn? && s.reader.outcome.Got? ==> Holds(s, s.bufs[Call(s)], s.reader.outcome.p, s.reader.outcome.n))
    && (forall i :: 0 <= i < |s.returned| ==> Faithful(s, s.returned[i]))
  }

  /** What was returned is the header and payload of one packet written, the payload cut to its buffer. */
  predicate Faithful(s: State, r: Returned) {
    && r.src < |s.written|
    && r.hdr == s.written[r.src].hdr
    && r.payload <= s.written[r.src].payload
    && r.call < |s.bufs|
    && |r.payload| == Min(|s.bufs[r.call].payload|, |s.written[r.src].payload|)
  }

  ghost predicate Inv(s: State) {
    LockOK(s) && OfferOK(s) && Increasing(Pipeline(s), |s.written|) && DataOK(s)
  }

  lemma StepOffer(s: State, a: Act)
    requires Inv(s)
    ensures LockOK(Step(s, a)) && OfferOK(Step(s, a))
  {
  }

  lemma FinishPipeline(s: State, p: nat, n: nat)
    requires Call(s) >= 0 && InHand(s) == [p]
    ensures Pipeline(Finish(s, p, n)) == Pipeline(s) && Finish(s, p, n).written == s.written
  {
    var t := Finish(s, p, n);
    assert Sources(t.returned) == Sources(s.returned) + [p];
  }

  lemma TakingPipeline(s: State, deferred: bool)
    requires |s.queue| > 0 && InHand(s) == []
    ensures Pipeline(s.(queue := s.queue[1..], reader := RCopyHdr(s.queue[0], deferred))) == Pipeline(s)
  {
    assert s.queue == [s.queue[0]] + s.queue[1..];
  }

  /** Steps that hand a packet on. */
  predicate Moves(s: State, a: Act) {
    Enabled(s, a) && (a.ReaderCopyPayload? || a.ReaderReturns? || a.ReaderLook? || a.ReaderTakes?)
  }

  lemma MovingPipeline(s: State, a: Act)
    requires LockOK(s) && OfferOK(s) && Moves(s, a)
    ensures Pipeline(Step(s, a)) == Pipeline(s) && Step(s, a).written == s.written
  {
    hide Copy, Copied, HdrOf, PayloadOf, Finish, Sources;
    match a
    case ReaderCopyPayload =>
      if !s.reader.deferred {
        var u := SetPayload(s, Call(s), PayloadOf(s, s.reader.p));
        FinishPipeline(u, s.reader.p, Copied(s, Call(s), s.reader.p));
      }
    case ReaderReturns =>
      if s.reader.outcome.Got? {
        var u := if s.offer == Some(Call(s)) then s.(offer := None) else s;
        FinishPipeline(u, s.reader.outcome.p, s.reader.outcome.n);
      }
    case ReaderLook => if |s.queue| > 0 { TakingPipeline(s, false); TakingUnlocked(s); }
    case ReaderTakes => TakingPipeline(s, true);
  }

  lemma TakingUnlocked(s: State)
    requires |s.queue| > 0
    ensures var t := s.(queue := s.queue[1..], reader := RCopyHdr(s.queue[0], false));
            Pipeline(t.(mu := Nobody)) == Pipeline(t)
  {
  }

  /** The packet a step begins to write. */
  function Begun(s: State, a: Act): seq<nat> {
    if s.writer.WIdle? && a.Write? then [|s.written|] else []
  }

  /** The packet a step gives up: one that finds ten queued, or whose reader the close took away. */
  function GivenUp(s: State, a: Act): seq<nat> {
    if s.writer.WQueue? && a.WriterQueue? && |s.queue| >= 10 then [s.writer.p]
    else if s.writer.WNotify? && a.WriterSeesClosed? && s.closed then [s.writer.p]
    else []
  }

  /** A packet leaves the pipeline only at its end, and only when it is given up. */
  lemma StepPipeline(s: State, a: Act)
    requires LockOK(s) && OfferOK(s)
    ensures Pipeline(Step(s, a)) + GivenUp(s, a) == Pipeline(s) + Begun(s, a)
    ensures |Step(s, a).written| == |s.written| + |Begun(s, a)|
  {
    hide Step, Pipeline, LockOK, OfferOK, Enabled;
    if Moves(s, a) {
      MovingPipeline(s, a);
    } else if a.WriterQueue? || a.WriterSeesClosed? || a.Notify? || a.Write? {
      WritingPipeline(s, a);
    } else {
      StillPipeline(s, a);
    }
  }

  lemma SameParts(s: State, t: State)
    requires t.returned == s.returned && InHand(t) == InHand(s) && t.queue == s.queue && BeingWritten(t) == BeingWritten(s)
    ensures Pipeline(t) == Pipeline(s)
  {
  }

  lemma StillPipeline(s: State, a: Act)
    requires LockOK(s) && OfferOK(s) && !Moves(s, a) && !(a.WriterQueue? || a.WriterSeesClosed? || a.Notify? || a.Write?)
    ensures Pipeline(Step(s, a)) == Pipeline(s) && Step(s, a).written == s.written
  {
    hide Copy, Copied, HdrOf, PayloadOf, Finish, Pipeline;
    SameParts(s, Step(s, a));
  }

  lemma WritingPipeline(s: State, a: Act)
    requires LockOK(s) && OfferOK(s) && (a.WriterQueue? || a.WriterSeesClosed? || a.Notify? || a.Write?)
    ensures Pipeline(Step(s, a)) + GivenUp(s, a) == Pipeline(s) + Begun(s, a)
    ensures |Step(s, a).written| == |s.written| + |Begun(s, a)|
  {
    hide Sources;
    match a
    case Write(_) => assert s.writer.WIdle? ==> Pipeline(s) == Sources(s.returned) + InHand(s) + s.queue;
    case Notify => assert Enabled(s, a) ==> s.queue == [];
    case _ =>
  }

  lemma StepOrder(s: State, a: Act)
    requires Inv(s)
    ensures Increasing(Pipeline(Step(s, a)), |Step(s, a).written|)
  {
    StepPipeline(s, a);
    hide Pipeline, Step, OfferOK, DataOK, Enabled;
    var xs, ys := Pipeline(s) + Begun(s, a), Pipeline(Step(s, a));
    assert forall i :: 0 <= i < |ys| ==> ys[i] == xs[i];
  }

  /** Packets known of are packets written. */
  predicate InRange(s: State) {
    && (!s.writer.WIdle? ==> s.writer.p < |s.written|)
    && (|InHand(s)| > 0 ==> InHand(s)[0] < |s.written|)
    && (forall i :: 0 <= i < |s.queue| ==> s.queue[i] < |s.written|)
  }

  lemma PipelineInRange(s: State)
    requires Increasing(Pipeline(s), |s.written|)
    ensures InRange(s)
  {
    var xs, n := Pipeline(s), |s.returned|;
    var h := |InHand(s)|;
    if h > 0 { assert xs[n] == InHand(s)[0]; }
    forall i | 0 <= i < |s.queue| ensures s.queue[i] < |s.written| { assert xs[n + h + i] == s.queue[i]; }
    if !s.writer.WIdle? { assert xs[n + h + |s.queue|] == s.writer.p; }
  }

  /** Steps that copy. */
  predicate Copies(a: Act) {
    a.WriterCopyHdr? || a.WriterCopyPayload? || a.ReaderCopyHdr? || a.ReaderCopyPayload?
  }

  lemma CopyStepData(s: State, a: Act)
    requires OfferOK(s) && DataOK(s) && InRange(s) && OfferOK(Step(s, a)) && Copies(a)
    ensures DataOK(Step(s, a))
  {
  }

  lemma OtherStepData(s: State, a: Act)
    requires OfferOK(s) && DataOK(s) && InRange(s) && OfferOK(Step(s, a)) && !Copies(a)
    ensures DataOK(Step(s, a))
  {
    hide Copy;
  }

  lemma StepData(s: State, a: Act)
    requires Inv(s) && OfferOK(Step(s, a))
    ensures DataOK(Step(s, a))
  {
    PipelineInRange(s);
    hide DataOK, OfferOK, Step, Pipeline, Increasing;
    if Copies(a) { CopyStepData(s, a); } else { OtherStepData(s, a); }
  }

  lemma {:induction false} AlwaysInv(acts: seq<Act>)
    ensures Inv(Steps(NEW, acts))
  {
    if |acts| > 0 {
      var n := |acts| - 1;
      AlwaysInv(acts[..n]);
      StepOffer(Steps(NEW, acts[..n]), acts[n]);
      StepOrder(Steps(NEW, acts[..n]), acts[n]);
      StepData(Steps(NEW, acts[..n]), acts[n]);
    }
  }

  // ----- what the reader is promised

  /**
    Packets returned are an in-order subsequence of those written, without repeats, and each return
    has the header and payload of one packet, the payload cut to the caller's buffer.
   */
  lemma ReturnsInOrder(acts: seq<Act>, s: State)
    requires s == Steps(NEW, acts)
    ensures forall i, j :: 0 <= i < j < |s.returned| ==> s.returned[i].src < s.returned[j].src
    ensures forall i :: 0 <= i < |s.returned| ==> Faithful(s, s.returned[i])
  {
    AlwaysInv(acts);
    forall i, j | 0 <= i < j < |s.returned| ensures s.returned[i].src < s.returned[j].src {
      assert Pipeline(s)[i] == s.returned[i].src && Pipeline(s)[j] == s.returned[j].src;
    }
  }

  /** The packets given up along a run. */
  function Lost(acts: seq<Act>): seq<nat> {
    if |acts| == 0 then []
    else
      var n := |acts| - 1;
      Lost(acts[..n]) + GivenUp(Steps(NEW, acts[..n]), acts[n])
  }

  lemma Loses(xs: seq<nat>, ys: seq<nat>, out: seq<nat>, begun: seq<nat>, lost: seq<nat>, n: nat)
    requires Increasing(xs, n) && (begun == [] || begun == [n]) && |out| <= 1 && ys + out == xs + begun
    requires forall p: nat :: p < n ==> (p in xs <==> p !in lost)
    requires forall p :: p in lost ==> p < n
    ensures forall p: nat :: p < n + |begun| ==> (p in ys <==> p !in lost + out)
    ensures forall p :: p in lost + out ==> p < n + |begun|
  {
    var all := xs + begun;
    assert forall i, j :: 0 <= i < j < |all| ==> all[i] < all[j];
    assert forall p :: p in all <==> p in ys || p in out;
    if |out| > 0 {
      assert all[|ys|] == out[0];
      assert forall i :: 0 <= i < |ys| ==> all[i] == ys[i] && ys[i] < out[0];
      assert out[0] in all && out[0] !in ys;
    }
  }

  /**
    What a run loses: a packet written is returned, on its way to the reader, queued or being written,
    exactly unless it found ten packets queued, or was copied for a reader that the close took away.
   */
  lemma {:induction false} OnlyTheseAreLost(acts: seq<Act>, s: State)
    requires s == Steps(NEW, acts)
    ensures forall p: nat :: p < |s.written| ==> (p in Pipeline(s) <==> p !in Lost(acts))
    ensures forall p :: p in Lost(acts) ==> p < |s.written|
  {
    if |acts| > 0 {
      var n := |acts| - 1;
      var before := Steps(NEW, acts[..n]);
      OnlyTheseAreLost(acts[..n], before);
      AlwaysInv(acts[..n]);
      AlwaysInv(acts);
      StepPipeline(before, acts[n]);
      hide Step, Steps, LockOK, OfferOK, DataOK, Pipeline, Enabled;
      assert acts[..n] + [acts[n]] == acts;
      Loses(Pipeline(before), Pipeline(s), GivenUp(before, acts[n]), Begun(before, acts[n]), Lost(acts[..n]),
            |before.written|);
    }
  }

  /**
    Nobody waits for nothing: in every reachable state some call in progress can take a step, unless the
    only one is a read that waits on an empty queue of an open stream.
   */
  lemma NeverStuck(acts: seq<Act>, s: State)
    requires s == Steps(NEW, acts)
    requires !(s.writer.WIdle? && (s.reader.RIdle? || (s.reader.RWait? && s.queue == [] && !s.closed)))
    ensures exists a: Act :: !a.Write? && !a.Read? && !a.Close? && Step(s, a) != s
  {
    AlwaysInv(acts);
    var a := Next(s);
    hide Steps, Pipeline, Copied, Copy, HdrOf, PayloadOf;
    assert Step(s, a) != s;
  }

  /** A step that some call in progress can take. */
  function Next(s: State): Act {
    match s.writer
    case WCopyHdr(_, _) => WriterCopyHdr
    case WCopyPayload(_, _) => WriterCopyPayload
    case WQueue(_) => WriterQueue
    case _ =>
      match s.reader
      case RIdle => if s.writer.WWant? then WriterLock else WriterSeesClosed
      case RWant => ReaderLock
      case RLocked => ReaderLook
      case RCopyHdr(_, _) => ReaderCopyHdr
      case RCopyPayload(_, _) => ReaderCopyPayload
      case RReturn(_) => ReaderReturns
      case RWait =>
        if s.writer.WNotify? then Notify
        else if s.writer.WWant? then WriterLock
        else if |s.queue| > 0 then ReaderTakes
        else ReaderSeesClosed
  }

  /** A call of ReadRTP that has returned. */
  predicate Over(s: State, call: nat) {
    call < |s.bufs| && (call < |s.bufs| - 1 || s.reader.RIdle?)
  }

  lemma OverIsCall(s: State, call: nat)
    requires Over(s, call)
    ensures call < |s.bufs|
  {
  }

  lemma StepLeavesBuffers(s: State, a: Act, call: nat)
    requires Inv(s) && Over(s, call)
    ensures Over(Step(s, a), call) && call < |s.bufs| && call < |Step(s, a).bufs|
    ensures Step(s, a).bufs[call] == s.bufs[call]
  {
    hide Copy, Copied, HdrOf, PayloadOf;
  }

  /** Once ReadRTP has returned, the caller's buffers are never written again, whatever happens next. */
  lemma {:induction false} BuffersAreLeftAlone(acts: seq<Act>, more: seq<Act>, call: nat)
    requires Over(Steps(NEW, acts), call)
    ensures var s, t := Steps(NEW, acts), Steps(NEW, acts + more);
            Over(t, call) && call < |s.bufs| && call < |t.bufs| && t.bufs[call] == s.bufs[call]
  {
    hide Step, Inv, Over;
    OverIsCall(Steps(NEW, acts), call);
    if |more| == 0 {
      assert acts + more == acts;
    } else {
      var n := |more| - 1;
      BuffersAreLeftAlone(acts, more[..n], call);
      AlwaysInv(acts + more[..n]);
      assert (acts + more)[..|acts| + n] == acts + more[..n];
      StepLeavesBuffers(Steps(NEW, acts + more[..n]), more[n], call);
    }
  }

  /** Buffers on offer are those of the call in progress, and while they are, the queue is empty. */
  lemma OfferMeansEmptyQueue(acts: seq<Act>, s: State, call: nat)
    requires s == Steps(NEW, acts) && s.offer == Some(call)
    ensures s.queue == [] && call == Call(s)
  {
    AlwaysInv(acts);
  }
}
