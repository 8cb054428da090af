/**
  The synchronous pipe as a protocol: calls of read and write, run by any number of goroutines, meet
  over two unbuffered channels, under the writers' lock, while the pipe may be closed at either end.
  A step is one channel operation, lock operation, or store or load of an error; a call that returns
  gives the lock back in its last step.
 */
module Pipe {
  import opened Options

  datatype Error = EOF | ClosedPipe | Custom(code: int)

  /**
    A call of write. data is its argument, rest what is left of it, n how much was acknowledged. reader
    and chunk are history: the reader that received and what it copied. A write waits for any reply.
   */
  datatype Writer =
    | WStart(data: seq<int>)                                  // before the first look at done
    | WLock(data: seq<int>)                                   // waiting for the lock
    | WSend(data: seq<int>, rest: seq<int>, n: nat)           // at the select, holding the lock
    | WAwait(data: seq<int>, rest: seq<int>, n: nat, reader: nat, chunk: seq<int>) // waiting on rdCh
    | WSaw(data: seq<int>, n: nat)                            // saw done
    | WClosing(data: seq<int>, n: nat, werr: Option<Error>)   // has loaded werr
    | WDone(data: seq<int>, n: nat, err: Option<Error>)

  /** A call of read into a buffer of size cap. */
  datatype Reader =
    | RStart(cap: nat)
    | RSelect(cap: nat)
    | RReply(chunk: seq<int>)                                 // has copied; sending its count on rdCh
    | RSaw                                                    // saw done
    | RClosing(rerr: Option<Error>)                           // has loaded rerr
    | RDone(chunk: seq<int>, err: Option<Error>)

  datatype Receipt = Receipt(writer: nat, reader: nat, chunk: seq<int>)

  /**
    order is the history of writers taking the lock, received that of receives, and late says whether
    a write took the lock after the close.
   */
  datatype State = State(writers: seq<Writer>, readers: seq<Reader>, lock: Option<nat>, done: bool,
                         rerr: Option<Error>, werr: Option<Error>,
                         order: seq<nat>, received: seq<Receipt>, late: bool)

  const NEW := State([], [], None, false, None, None, [], [], false)

  datatype Act =
    | CallWrite(data: seq<int>)
    | CallRead(cap: nat)
    | LookWrite(i: nat)            // first select of write
    | Acquire(i: nat)
    | Meet(i: nat, j: nat)         // wrCh: writer i sends, reader j receives and copies
    | Reply(i: nat, j: nat)        // rdCh: reader j sends its count, writer i receives
    | SeeDoneWrite(i: nat)         // select of the loop
    | LoadWrite(i: nat)            // first load of writeCloseError
    | LeaveWrite(i: nat)           // second load, and return
    | LookRead(j: nat)
    | SeeDoneRead(j: nat)
    | LoadRead(j: nat)
    | LeaveRead(j: nat)
    | StoreReadError(err: Option<Error>)   // first half of closeRead
    | StoreWriteError(err: Option<Error>)  // first half of closeWrite
    | CloseDone                            // second half of either

  predicate Writes(s: State, i: nat) { i < |s.writers| }
  predicate Reads(s: State, j: nat) { j < |s.readers| }

  predicate Enabled(s: State, a: Act) {
    match a
    case CallWrite(_) => true
    case CallRead(_) => true
    case LookWrite(i) => Writes(s, i) && s.writers[i].WStart?
    case Acquire(i) => Writes(s, i) && s.writers[i].WLock? && s.lock == None
    case Meet(i, j) => Writes(s, i) && s.writers[i].WSend? && Reads(s, j) && s.readers[j].RSelect?
    case Reply(i, j) => Writes(s, i) && s.writers[i].WAwait? && Reads(s, j) && s.readers[j].RReply?
    case SeeDoneWrite(i) => Writes(s, i) && s.writers[i].WSend? && s.done
    case LoadWrite(i) => Writes(s, i) && s.writers[i].WSaw?
    case LeaveWrite(i) => Writes(s, i) && s.writers[i].WClosing?
    case LookRead(j) => Reads(s, j) && s.readers[j].RStart?
    case SeeDoneRead(j) => Reads(s, j) && s.readers[j].RSelect? && s.done
    case LoadRead(j) => Reads(s, j) && s.readers[j].RSaw?
    case LeaveRead(j) => Reads(s, j) && s.readers[j].RClosing?
    case StoreReadError(_) => true
    case StoreWriteError(_) => true
    case CloseDone => s.rerr.Some? || s.werr.Some?
  }

  function Min(a: nat, b: nat): nat { if a <= b then a else b }

  function Or(e: Option<Error>, default: Error): Option<Error> {
    if e.None? then Some(default) else e
  }

  /** The error of a call that found the pipe closed: the other end's, if only that end was closed. */
  function CloseError(own: Option<Error>, other: Option<Error>): Error {
    if own.None? && other.Some? then other.value else ClosedPipe
  }

  function SetW(s: State, i: nat, w: Writer): State
    requires Writes(s, i)
  {
    s.(writers := s.writers[i := w])
  }

  function SetR(s: State, j: nat, r: Reader): State
    requires Reads(s, j)
  {
    s.(readers := s.readers[j := r])
  }

  function DoMeet(s: State, i: nat, j: nat): State
    requires Enabled(s, Meet(i, j))
  {
    var w := s.writers[i];
    var chunk := w.rest[..Min(s.readers[j].cap, |w.rest|)];
    SetR(SetW(s, i, WAwait(w.data, w.rest, w.n, j, chunk)), j, RReply(chunk))
      .(received := s.received + [Receipt(i, j, chunk)])
  }

  function DoReply(s: State, i: nat, j: nat): State
    requires Enabled(s, Reply(i, j))
  {
    var w, chunk := s.writers[i], s.readers[j].chunk;
    var rest := if |chunk| <= |w.rest| then w.rest[|chunk|..] else [];
    var n := w.n + |chunk|;
    var t := SetR(s, j, RDone(chunk, None));
    if |rest| > 0 then SetW(t, i, WSend(w.data, rest, n))
    else SetW(t, i, WDone(w.data, n, None)).(lock := None)
  }

  /** A step that is not enabled changes nothing. */
  function Step(s: State, a: Act): State {
    if !Enabled(s, a) then s
    else match a
      case CallWrite(data) => s.(writers := s.writers + [WStart(data)])
      case CallRead(cap) => s.(readers := s.readers + [RStart(cap)])
      case LookWrite(i) =>
        var d := s.writers[i].data;
        SetW(s, i, if s.done then WSaw(d, 0) else WLock(d))
      case Acquire(i) =>
        var d := s.writers[i].data;
        SetW(s, i, WSend(d, d, 0)).(lock := Some(i), order := s.order + [i], late := s.late || s.done)
      case Meet(i, j) => DoMeet(s, i, j)
      case Reply(i, j) => DoReply(s, i, j)
      case SeeDoneWrite(i) => var w := s.writers[i]; SetW(s, i, WSaw(w.data, w.n))
      case LoadWrite(i) => var w := s.writers[i]; SetW(s, i, WClosing(w.data, w.n, s.werr))
      case LeaveWrite(i) =>
        var w := s.writers[i];
        SetW(s, i, WDone(w.data, w.n, Some(CloseError(w.werr, s.rerr))))
          .(lock := if s.lock == Some(i) then None else s.lock)
      case LookRead(j) => SetR(s, j, if s.done then RSaw else RSelect(s.readers[j].cap))
      case SeeDoneRead(j) => SetR(s, j, RSaw)
      case LoadRead(j) => SetR(s, j, RClosing(s.rerr))
      case LeaveRead(j) => SetR(s, j, RDone([], Some(CloseError(s.readers[j].rerr, s.werr))))
      case StoreReadError(e) => if s.rerr.None? then s.(rerr := Or(e, ClosedPipe)) else s
      case StoreWriteError(e) => if s.werr.None? then s.(werr := Or(e, EOF)) else s
      case CloseDone => s.(done := true)
  }

  function Steps(s: State, acts: seq<Act>): State {
    if |acts| == 0 then s else Step(Steps(s, acts[..|acts| - 1]), acts[|acts| - 1])
  }

  // ----- the invariant

  /** What readers have taken of a call's data, counting a copy not yet acknowledged. */
  function Taken(w: Writer): seq<int> {
    match w
    case WStart(_) => []
    case WLock(_) => []
    case WSend(data, _, n) => data[..Min(n, |data|)]
    case WAwait(data, _, n, _, chunk) => data[..Min(n, |data|)] + chunk
    case WSaw(data, n) => data[..Min(n, |data|)]
    case WClosing(data, n, _) => data[..Min(n, |data|)]
    case WDone(data, n, _) => data[..Min(n, |data|)]
  }

  ghost predicate Indices(ws: seq<Writer>, order: seq<nat>) {
    forall k :: 0 <= k < |order| ==> order[k] < |ws|
  }

  /** What readers have taken, write by write in the order of the lock. */
  function TakenInOrder(ws: seq<Writer>, order: seq<nat>): seq<int>
    requires Indices(ws, order)
  {
    if |order| == 0 then []
    else TakenInOrder(ws, order[..|order| - 1]) + Taken(ws[order[|order| - 1]])
  }

  /** What was written, write by write in the order of the lock. */
  function WrittenInOrder(ws: seq<Writer>, order: seq<nat>): seq<int>
    requires Indices(ws, order)
  {
    if |order| == 0 then []
    else WrittenInOrder(ws, order[..|order| - 1]) + ws[order[|order| - 1]].data
  }

  function Chunks(received: seq<Receipt>): seq<int> {
    if |received| == 0 then [] else Chunks(received[..|received| - 1]) + received[|received| - 1].chunk
  }

  /** What readers received from one call of write. */
  function ChunksFrom(received: seq<Receipt>, i: nat): seq<int> {
    if |received| == 0 then []
    else
      var r := received[|received| - 1];
      ChunksFrom(received[..|received| - 1], i) + (if r.writer == i then r.chunk else [])
  }

  ghost predicate WriterOK(s: State, i: nat)
    requires Writes(s, i)
  {
    match s.writers[i]
    case WStart(_) => i !in s.order
    case WLock(_) => i !in s.order
    case WSend(data, rest, n) => n <= |data| && rest == data[n..] && s.lock == Some(i)
    case WAwait(data, rest, n, j, chunk) =>
      && n <= |data| && rest == data[n..] && s.lock == Some(i)
      && chunk <= rest && Reads(s, j) && s.readers[j] == RReply(chunk)
    case WSaw(data, n) => n <= |data| && s.done && (if i in s.order then s.lock == Some(i) else n == 0)
    case WClosing(data, n, werr) =>
      && n <= |data| && s.done && (if i in s.order then s.lock == Some(i) else n == 0)
      && (werr.Some? ==> s.werr == werr)
    case WDone(data, n, err) =>
      && n <= |data| && (i !in s.order ==> n == 0) && s.lock != Some(i)
      && (err.None? ==> n == |data| && i in s.order)
      && (err.Some? ==> s.done && (err.value == ClosedPipe || s.rerr == err))
  }

  ghost predicate ReaderOK(s: State, j: nat)
    requires Reads(s, j)
  {
    match s.readers[j]
    case RReply(chunk) =>
      s.lock.Some? && Writes(s, s.lock.value) && s.writers[s.lock.value].WAwait? && s.writers[s.lock.value].reader == j
    case RSaw => s.done
    case RClosing(rerr) => s.done && (rerr.Some? ==> s.rerr == rerr)
    case RDone(chunk, err) => err.Some? ==> chunk == [] && s.done && (err.value == ClosedPipe || s.werr == err)
    case _ => true
  }

  /** Each receive is one call of read, which returns what it copied. */
  ghost predicate ReceiptOK(s: State, k: nat)
    requires k < |s.received|
  {
    var r := s.received[k];
    && Writes(s, r.writer) && Reads(s, r.reader)
    && (|| s.readers[r.reader] == RDone(r.chunk, None)
        || (s.readers[r.reader] == RReply(r.chunk) && s.writers[r.writer].WAwait? && s.writers[r.writer].reader == r.reader))
  }

  /** A call of read receives once. */
  ghost predicate OneEach(received: seq<Receipt>) {
    forall k, l :: 0 <= k < l < |received| ==> received[k].reader != received[l].reader
  }

  ghost predicate LockOK(s: State) {
    && Indices(s.writers, s.order)
    && (forall k, l :: 0 <= k < l < |s.order| ==> s.order[k] != s.order[l])
    && (s.lock.Some? ==> |s.order| > 0 && s.order[|s.order| - 1] == s.lock.value)
    && (forall k :: 0 <= k < |s.order| && s.lock != Some(s.order[k]) ==> s.writers[s.order[k]].WDone?)
    && (s.lock.Some? ==> !s.writers[s.lock.value].WDone?)
  }

  ghost predicate CallsOK(s: State) {
    && (forall i :: 0 <= i < |s.writers| ==> WriterOK(s, i))
    && (forall j :: 0 <= j < |s.readers| ==> ReaderOK(s, j))
    && (forall k :: 0 <= k < |s.received| ==> ReceiptOK(s, k))
    && OneEach(s.received)
    && (s.done ==> s.rerr.Some? || s.werr.Some?)
  }

  ghost predicate DataOK(s: State)
    requires Indices(s.writers, s.order)
  {
    && Chunks(s.received) == TakenInOrder(s.writers, s.order)
    && (forall i :: 0 <= i < |s.writers| ==> ChunksFrom(s.received, i) == Taken(s.writers[i]))
  }

  predicate Whole(w: Writer) {
    w.WDone? && w.n == |w.data|
  }

  /** Until a write takes the lock after the close, all but the last to take it were taken whole. */
  ghost predicate TurnsOK(s: State)
    requires Indices(s.writers, s.order)
  {
    && (s.late ==> s.done)
    && (!s.late ==> forall k :: 0 <= k < |s.order| - 1 ==> Whole(s.writers[s.order[k]]))
  }

  ghost predicate Inv(s: State) {
    LockOK(s) && CallsOK(s) && DataOK(s) && TurnsOK(s)
  }

  // ----- it holds in every run

  lemma {:induction false} OthersTaken(ws: seq<Writer>, order: seq<nat>, i: nat, w: Writer)
    requires Indices(ws, order) && i < |ws| && i !in order
    ensures Indices(ws[i := w], order)
    ensures TakenInOrder(ws[i := w], order) == TakenInOrder(ws, order)
    ensures WrittenInOrder(ws[i := w], order) == WrittenInOrder(ws, order)
  {
    if |order| > 0 {
      assert order[|order| - 1] in order;
      OthersTaken(ws, order[..|order| - 1], i, w);
    }
  }

  /** Changing the last writer in the order changes only its own share. */
  lemma LastTaken(ws: seq<Writer>, order: seq<nat>, w: Writer)
    requires Indices(ws, order) && |order| > 0
    requires forall k, l :: 0 <= k < l < |order| ==> order[k] != order[l]
    requires w.data == ws[order[|order| - 1]].data
    ensures var i, before := order[|order| - 1], order[..|order| - 1];
            && Indices(ws[i := w], order) && Indices(ws, before)
            && TakenInOrder(ws[i := w], order) == TakenInOrder(ws, before) + Taken(w)
            && WrittenInOrder(ws[i := w], order) == WrittenInOrder(ws, order)
  {
    OthersTaken(ws, order[..|order| - 1], order[|order| - 1], w);
  }

  lemma {:induction false} MoreWriters(ws: seq<Writer>, order: seq<nat>, w: Writer)
    requires Indices(ws, order)
    ensures Indices(ws + [w], order)
    ensures TakenInOrder(ws + [w], order) == TakenInOrder(ws, order)
    ensures WrittenInOrder(ws + [w], order) == WrittenInOrder(ws, order)
  {
    if |order| > 0 { MoreWriters(ws, order[..|order| - 1], w); }
  }

  lemma ChunksMore(received: seq<Receipt>, r: Receipt)
    ensures Chunks(received + [r]) == Chunks(received) + r.chunk
  {
    assert (received + [r])[..|received|] == received;
  }

  lemma ChunksFromMore(received: seq<Receipt>, r: Receipt, i: nat)
    ensures ChunksFrom(received + [r], i) == ChunksFrom(received, i) + (if r.writer == i then r.chunk else [])
  {
    assert (received + [r])[..|received|] == received;
  }

  lemma {:induction false} ChunksFromNone(received: seq<Receipt>, i: nat)
    requires forall k :: 0 <= k < |received| ==> received[k].writer != i
    ensures ChunksFrom(received, i) == []
  {
    if |received| > 0 { ChunksFromNone(received[..|received| - 1], i); }
  }

  lemma MeetCalls(s: State, i: nat, j: nat)
    requires LockOK(s) && CallsOK(s) && Enabled(s, Meet(i, j))
    ensures LockOK(DoMeet(s, i, j)) && CallsOK(DoMeet(s, i, j))
  {
    var t := DoMeet(s, i, j);
    assert WriterOK(s, i);
    forall k | 0 <= k < |t.writers| ensures WriterOK(t, k) { assert WriterOK(s, k); }
    forall k | 0 <= k < |t.readers| ensures ReaderOK(t, k) { assert ReaderOK(s, k); }
    forall k | 0 <= k < |t.received| ensures ReceiptOK(t, k) {
      if k < |s.received| {
        assert ReceiptOK(s, k);
        assert WriterOK(s, s.received[k].writer);
      }
    }
    forall k | 0 <= k < |s.received| ensures s.received[k].reader != j { assert ReceiptOK(s, k); }
  }

  /** The holder's share grows by a chunk. */
  lemma ShareGrows(ws: seq<Writer>, order: seq<nat>, received: seq<Receipt>, v: Writer, r: Receipt)
    requires Indices(ws, order) && |order| > 0 && r.writer == order[|order| - 1]
    requires forall k, l :: 0 <= k < l < |order| ==> order[k] != order[l]
    requires Chunks(received) == TakenInOrder(ws, order)
    requires forall i :: 0 <= i < |ws| ==> ChunksFrom(received, i) == Taken(ws[i])
    requires v.data == ws[r.writer].data && Taken(v) == Taken(ws[r.writer]) + r.chunk
    ensures Indices(ws[r.writer := v], order)
    ensures Chunks(received + [r]) == TakenInOrder(ws[r.writer := v], order)
    ensures forall i :: 0 <= i < |ws| ==> ChunksFrom(received + [r], i) == Taken(ws[r.writer := v][i])
  {
    var before := order[..|order| - 1];
    LastTaken(ws, order, v);
    ChunksMore(received, r);
    Concatenates(TakenInOrder(ws, before), Taken(ws[r.writer]), r.chunk);
    forall i | 0 <= i < |ws| ensures ChunksFrom(received + [r], i) == Taken(ws[r.writer := v][i]) {
      ChunksFromMore(received, r, i);
    }
  }

  lemma MeetFacts(s: State, i: nat, j: nat)
    requires LockOK(s) && CallsOK(s) && Enabled(s, Meet(i, j))
    ensures |s.order| > 0 && s.order[|s.order| - 1] == i
    ensures var t, w := DoMeet(s, i, j), s.writers[i];
            var v := t.writers[i];
            && v.WAwait? && v.data == w.data && Taken(v) == Taken(w) + v.chunk
            && t.writers == s.writers[i := v] && t.order == s.order && t.received == s.received + [Receipt(i, j, v.chunk)]
  {
    assert WriterOK(s, i);
  }

  lemma MeetData(s: State, i: nat, j: nat)
    requires LockOK(s) && CallsOK(s) && DataOK(s) && Enabled(s, Meet(i, j))
    ensures DataOK(DoMeet(s, i, j))
  {
    MeetFacts(s, i, j);
    var v := DoMeet(s, i, j).writers[i];
    hide CallsOK, TakenInOrder, WrittenInOrder, Chunks, ChunksFrom, Taken, DoMeet;
    ShareGrows(s.writers, s.order, s.received, v, Receipt(i, j, v.chunk));
  }

  lemma Concatenates(a: seq<int>, b: seq<int>, c: seq<int>)
    ensures (a + b) + c == a + (b + c)
  {
  }

  lemma ReplyMatches(s: State, i: nat, j: nat)
    requires LockOK(s) && CallsOK(s) && Enabled(s, Reply(i, j))
    ensures s.lock == Some(i) && s.writers[i].reader == j && s.writers[i].chunk == s.readers[j].chunk
    ensures WriterOK(s, i) && s.readers[j].chunk <= s.writers[i].rest
    ensures forall k :: 0 <= k < |s.readers| && k != j ==> !s.readers[k].RReply?
    ensures forall k :: 0 <= k < |s.writers| && k != i ==> !s.writers[k].WAwait?
  {
    assert WriterOK(s, i) && ReaderOK(s, j);
    forall k | 0 <= k < |s.readers| && k != j ensures !s.readers[k].RReply? { assert ReaderOK(s, k); }
    forall k | 0 <= k < |s.writers| && k != i ensures !s.writers[k].WAwait? { assert WriterOK(s, k); }
  }

  lemma ReplyWriter(s: State, i: nat, j: nat, k: nat)
    requires LockOK(s) && CallsOK(s) && Enabled(s, Reply(i, j)) && Writes(s, k)
    ensures WriterOK(DoReply(s, i, j), k)
  {
    ReplyMatches(s, i, j);
    assert WriterOK(s, k);
    hide CallsOK, ReaderOK, ReceiptOK;
  }

  lemma ReplyReader(s: State, i: nat, j: nat, k: nat)
    requires LockOK(s) && CallsOK(s) && Enabled(s, Reply(i, j)) && Reads(s, k)
    ensures ReaderOK(DoReply(s, i, j), k)
  {
    ReplyMatches(s, i, j);
    assert ReaderOK(s, k);
    hide CallsOK, WriterOK, ReceiptOK;
  }

  lemma ReplyReceipt(s: State, i: nat, j: nat, k: nat)
    requires LockOK(s) && CallsOK(s) && Enabled(s, Reply(i, j)) && k < |s.received|
    ensures ReceiptOK(DoReply(s, i, j), k)
  {
    ReplyMatches(s, i, j);
    assert ReceiptOK(s, k);
    hide CallsOK, WriterOK, ReaderOK;
  }

  lemma ReplyLock(s: State, i: nat, j: nat)
    requires LockOK(s) && CallsOK(s) && Enabled(s, Reply(i, j))
    ensures LockOK(DoReply(s, i, j))
  {
    ReplyMatches(s, i, j);
    hide CallsOK, WriterOK;
  }

  lemma ReplyCalls(s: State, i: nat, j: nat)
    requires LockOK(s) && CallsOK(s) && Enabled(s, Reply(i, j))
    ensures LockOK(DoReply(s, i, j)) && CallsOK(DoReply(s, i, j))
  {
    var t := DoReply(s, i, j);
    ReplyLock(s, i, j);
    hide WriterOK, ReaderOK, ReceiptOK, LockOK;
    forall k | 0 <= k < |t.received| ensures ReceiptOK(t, k) { ReplyReceipt(s, i, j, k); }
    forall k | 0 <= k < |t.writers| ensures WriterOK(t, k) { ReplyWriter(s, i, j, k); }
    forall k | 0 <= k < |t.readers| ensures ReaderOK(t, k) { ReplyReader(s, i, j, k); }
  }

  lemma ReplyFacts(s: State, i: nat, j: nat)
    requires LockOK(s) && CallsOK(s) && Enabled(s, Reply(i, j))
    ensures s.lock == Some(i)
    ensures var t, w := DoReply(s, i, j), s.writers[i];
            var v := t.writers[i];
            && v.data == w.data && Taken(v) == Taken(w)
            && t.writers == s.writers[i := v] && t.order == s.order && t.received == s.received
  {
    ReplyMatches(s, i, j);
    var w := s.writers[i];
    assert w.data[..w.n + |w.chunk|] == w.data[..w.n] + w.chunk;
  }

  /** A step that leaves the holder's share alone leaves all shares alone. */
  lemma ShareStays(ws: seq<Writer>, order: seq<nat>, v: Writer)
    requires Indices(ws, order) && |order| > 0
    requires forall k, l :: 0 <= k < l < |order| ==> order[k] != order[l]
    requires var w := ws[order[|order| - 1]]; v.data == w.data && Taken(v) == Taken(w)
    ensures var i := order[|order| - 1];
            && Indices(ws[i := v], order)
            && TakenInOrder(ws[i := v], order) == TakenInOrder(ws, order)
            && WrittenInOrder(ws[i := v], order) == WrittenInOrder(ws, order)
  {
    LastTaken(ws, order, v);
  }

  lemma ReplyData(s: State, i: nat, j: nat)
    requires LockOK(s) && CallsOK(s) && DataOK(s) && Enabled(s, Reply(i, j))
    ensures DataOK(DoReply(s, i, j))
  {
    ReplyFacts(s, i, j);
    hide CallsOK, TakenInOrder, WrittenInOrder, Chunks, Taken, DoReply;
    ShareStays(s.writers, s.order, DoReply(s, i, j).writers[i]);
  }

  /** A step of one write that moves no data and does not take the lock. */
  predicate Quiet(s: State, a: Act) {
    Enabled(s, a) && (a.LookWrite? || a.SeeDoneWrite? || a.LoadWrite? || a.LeaveWrite?)
  }

  lemma QuietWriter(s: State, a: Act, k: nat)
    requires LockOK(s) && CallsOK(s) && Quiet(s, a) && Writes(s, k)
    ensures WriterOK(Step(s, a), k)
  {
    assert WriterOK(s, a.i) && WriterOK(s, k);
    hide CallsOK, ReaderOK, ReceiptOK;
  }

  lemma QuietLock(s: State, a: Act)
    requires LockOK(s) && CallsOK(s) && Quiet(s, a)
    ensures LockOK(Step(s, a))
    ensures var w, v := s.writers[a.i], Step(s, a).writers[a.i];
            Taken(v) == Taken(w) && v.data == w.data && (a.i in s.order ==> s.lock == Some(a.i))
  {
    assert WriterOK(s, a.i);
    hide CallsOK;
  }

  lemma QuietCalls(s: State, a: Act)
    requires LockOK(s) && CallsOK(s) && Quiet(s, a)
    ensures LockOK(Step(s, a)) && CallsOK(Step(s, a))
    ensures var w, v := s.writers[a.i], Step(s, a).writers[a.i];
            Taken(v) == Taken(w) && v.data == w.data && (a.i in s.order ==> s.lock == Some(a.i))
  {
    var t := Step(s, a);
    QuietLock(s, a);
    hide LockOK, WriterOK, Taken;
    forall k | 0 <= k < |t.writers| ensures WriterOK(t, k) { QuietWriter(s, a, k); }
    forall k | 0 <= k < |t.readers| ensures ReaderOK(t, k) { assert ReaderOK(s, k); }
    forall k | 0 <= k < |t.received| ensures ReceiptOK(t, k) { assert ReceiptOK(s, k); }
  }

  lemma QuietData(s: State, a: Act)
    requires LockOK(s) && DataOK(s) && Quiet(s, a)
    requires var w, v := s.writers[a.i], Step(s, a).writers[a.i];
             Taken(v) == Taken(w) && v.data == w.data && (a.i in s.order ==> s.lock == Some(a.i))
    ensures DataOK(Step(s, a))
  {
    var t := Step(s, a);
    assert t.writers == s.writers[a.i := t.writers[a.i]] && t.order == s.order && t.received == s.received;
    hide Step, Taken, TakenInOrder, WrittenInOrder;
    if a.i in s.order {
      ShareStays(s.writers, s.order, t.writers[a.i]);
    } else {
      OthersTaken(s.writers, s.order, a.i, t.writers[a.i]);
    }
  }

  lemma AcquireCalls(s: State, i: nat)
    requires LockOK(s) && CallsOK(s) && Enabled(s, Acquire(i))
    ensures LockOK(Step(s, Acquire(i))) && CallsOK(Step(s, Acquire(i))) && i !in s.order
  {
    var t := Step(s, Acquire(i));
    assert WriterOK(s, i);
    forall k | 0 <= k < |t.writers| ensures WriterOK(t, k) { assert WriterOK(s, k); }
    forall k | 0 <= k < |t.readers| ensures ReaderOK(t, k) { assert ReaderOK(s, k); }
    forall k | 0 <= k < |t.received| ensures ReceiptOK(t, k) { assert ReceiptOK(s, k); }
  }

  lemma OrderMore(ws: seq<Writer>, order: seq<nat>, i: nat)
    requires Indices(ws, order) && i < |ws|
    ensures Indices(ws, order + [i]) && TakenInOrder(ws, order + [i]) == TakenInOrder(ws, order) + Taken(ws[i])
  {
    assert (order + [i])[..|order|] == order;
  }

  lemma AcquireData(s: State, i: nat)
    requires LockOK(s) && DataOK(s) && Enabled(s, Acquire(i)) && i !in s.order
    requires Indices(Step(s, Acquire(i)).writers, Step(s, Acquire(i)).order)
    ensures DataOK(Step(s, Acquire(i)))
  {
    var t := Step(s, Acquire(i));
    var v := t.writers[i];
    assert Taken(v) == [] == Taken(s.writers[i]);
    assert t.writers == s.writers[i := v] && t.order == s.order + [i] && t.received == s.received;
    hide Step, LockOK, Taken, TakenInOrder, WrittenInOrder, Chunks, ChunksFrom;
    OthersTaken(s.writers, s.order, i, v);
    OrderMore(t.writers, s.order, i);
  }

  /** A write that has returned is never changed again. */
  lemma DoneStays(s: State, a: Act, i: nat)
    requires Writes(s, i) && s.writers[i].WDone?
    ensures Writes(Step(s, a), i) && Step(s, a).writers[i] == s.writers[i]
  {
  }

  lemma TurnsKeep(s: State, a: Act)
    requires LockOK(s) && CallsOK(s) && TurnsOK(s) && Enabled(s, a)
    requires Indices(Step(s, a).writers, Step(s, a).order)
    ensures TurnsOK(Step(s, a))
  {
    var t := Step(s, a);
    if !t.late {
      forall k | 0 <= k < |t.order| - 1 ensures Whole(t.writers[t.order[k]]) {
        assert WriterOK(s, s.order[k]);
        DoneStays(s, a, s.order[k]);
        hide Step;
      }
    }
  }

  lemma ReadStepKeeps(s: State, a: Act)
    requires LockOK(s) && CallsOK(s) && DataOK(s) && Enabled(s, a) && (a.LookRead? || a.SeeDoneRead? || a.LoadRead? || a.LeaveRead?)
    ensures var t := Step(s, a); LockOK(t) && CallsOK(t) && DataOK(t)
  {
    hide TakenInOrder, WrittenInOrder, Chunks, Taken;
    var t := Step(s, a);
    assert ReaderOK(s, a.j);
    forall k | 0 <= k < |t.writers| ensures WriterOK(t, k) { assert WriterOK(s, k); }
    forall k | 0 <= k < |t.readers| ensures ReaderOK(t, k) { assert ReaderOK(s, k); }
    forall k | 0 <= k < |t.received| ensures ReceiptOK(t, k) { assert ReceiptOK(s, k); }
  }

  lemma CloseStepKeeps(s: State, a: Act)
    requires LockOK(s) && CallsOK(s) && DataOK(s) && Enabled(s, a) && (a.StoreReadError? || a.StoreWriteError? || a.CloseDone?)
    ensures var t := Step(s, a); LockOK(t) && CallsOK(t) && DataOK(t)
  {
    hide TakenInOrder, WrittenInOrder, Chunks, Taken;
    var t := Step(s, a);
    forall k | 0 <= k < |t.writers| ensures WriterOK(t, k) { assert WriterOK(s, k); }
    forall k | 0 <= k < |t.readers| ensures ReaderOK(t, k) { assert ReaderOK(s, k); }
    forall k | 0 <= k < |t.received| ensures ReceiptOK(t, k) { assert ReceiptOK(s, k); }
  }

  lemma NothingTaken(data: seq<int>)
    ensures Taken(WStart(data)) == []
  {
  }

  lemma CallKeeps(s: State, a: Act)
    requires LockOK(s) && CallsOK(s) && DataOK(s) && (a.CallRead? || a.CallWrite?)
    ensures var t := Step(s, a); LockOK(t) && CallsOK(t) && DataOK(t)
  {
    hide TakenInOrder, WrittenInOrder, Chunks, Taken;
    var t := Step(s, a);
    forall k | 0 <= k < |t.writers| ensures WriterOK(t, k) { if k < |s.writers| { assert WriterOK(s, k); } }
    forall k | 0 <= k < |t.readers| ensures ReaderOK(t, k) { if k < |s.readers| { assert ReaderOK(s, k); } }
    forall k | 0 <= k < |t.received| ensures ReceiptOK(t, k) { assert ReceiptOK(s, k); }
    if a.CallWrite? {
      MoreWriters(s.writers, s.order, WStart(a.data));
      forall k | 0 <= k < |s.received| ensures s.received[k].writer != |s.writers| { assert ReceiptOK(s, k); }
      ChunksFromNone(s.received, |s.writers|);
      NothingTaken(a.data);
    }
  }

  lemma StepKeepsData(s: State, a: Act)
    requires LockOK(s) && CallsOK(s) && DataOK(s) && Enabled(s, a)
    ensures var t := Step(s, a); LockOK(t) && CallsOK(t) && DataOK(t)
  {
    match a
    case Meet(i, j) => MeetCalls(s, i, j); MeetData(s, i, j);
    case Reply(i, j) => ReplyCalls(s, i, j); ReplyData(s, i, j);
    case Acquire(i) => AcquireCalls(s, i); AcquireData(s, i);
    case LookWrite(_) => QuietCalls(s, a); QuietData(s, a);
    case SeeDoneWrite(_) => QuietCalls(s, a); QuietData(s, a);
    case LoadWrite(_) => QuietCalls(s, a); QuietData(s, a);
    case LeaveWrite(_) => QuietCalls(s, a); QuietData(s, a);
    case CallRead(_) => CallKeeps(s, a);
    case CallWrite(_) => CallKeeps(s, a);
    case LookRead(_) => ReadStepKeeps(s, a);
    case SeeDoneRead(_) => ReadStepKeeps(s, a);
    case LoadRead(_) => ReadStepKeeps(s, a);
    case LeaveRead(_) => ReadStepKeeps(s, a);
    case _ => CloseStepKeeps(s, a);
  }

  lemma StepKeeps(s: State, a: Act)
    requires Inv(s)
    ensures Inv(Step(s, a))
  {
    if Enabled(s, a) {
      StepKeepsData(s, a);
      TurnsKeep(s, a);
    }
  }

  lemma {:induction false} AlwaysInv(acts: seq<Act>)
    ensures Inv(Steps(NEW, acts))
  {
    if |acts| > 0 {
      AlwaysInv(acts[..|acts| - 1]);
      StepKeeps(Steps(NEW, acts[..|acts| - 1]), acts[|acts| - 1]);
    }
  }

  // ----- what the pipe promises

  /** The places, in all that was written, of what readers have taken, write by write in the order of the lock. */
  function Places(ws: seq<Writer>, order: seq<nat>): (p: seq<nat>)
    requires Indices(ws, order)
    ensures |p| == |TakenInOrder(ws, order)|
  {
    if |order| == 0 then []
    else
      var before, w := order[..|order| - 1], ws[order[|order| - 1]];
      Places(ws, before) + Run(|WrittenInOrder(ws, before)|, |Taken(w)|)
  }

  ghost predicate Prefixes(ws: seq<Writer>, order: seq<nat>)
    requires Indices(ws, order)
  {
    forall k :: 0 <= k < |order| ==> Taken(ws[order[k]]) <= ws[order[k]].data
  }

  /** Each element taken is the one written at its place, and places only go up. */
  ghost predicate InPlace(p: seq<nat>, taken: seq<int>, written: seq<int>) {
    && |p| == |taken|
    && (forall i :: 0 <= i < |p| ==> p[i] < |written| && taken[i] == written[p[i]])
    && (forall i, j :: 0 <= i < j < |p| ==> p[i] < p[j])
  }

  function Run(from: nat, n: nat): seq<nat> {
    seq(n, j requires 0 <= j < n => from + j)
  }

  lemma InPlaceMore(p: seq<nat>, taken: seq<int>, written: seq<int>, chunk: seq<int>, data: seq<int>)
    requires InPlace(p, taken, written) && chunk <= data
    ensures InPlace(p + Run(|written|, |chunk|), taken + chunk, written + data)
  {
  }

  lemma {:induction false} PlacesMean(ws: seq<Writer>, order: seq<nat>)
    requires Indices(ws, order) && Prefixes(ws, order)
    ensures InPlace(Places(ws, order), TakenInOrder(ws, order), WrittenInOrder(ws, order))
  {
    if |order| > 0 {
      hide InPlace, Run, Taken;
      var before, w := order[..|order| - 1], ws[order[|order| - 1]];
      PlacesMean(ws, before);
      InPlaceMore(Places(ws, before), TakenInOrder(ws, before), WrittenInOrder(ws, before), Taken(w), w.data);
    } else {
      assert Places(ws, order) == [];
    }
  }

  /** Taken from the first element on, leaving nothing out. */
  ghost predicate FromTheFirst(p: seq<nat>) {
    forall i :: 0 <= i < |p| ==> p[i] == i
  }

  predicate Cut(w: Writer) {
    |Taken(w)| < |w.data|
  }

  /** Some write was cut short, and one that took the lock after it delivered an element. */
  ghost predicate Skips(ws: seq<Writer>, order: seq<nat>)
    requires Indices(ws, order)
  {
    exists k, l :: 0 <= k < l < |order| && Cut(ws[order[k]]) && |Taken(ws[order[l]])| > 0
  }

  ghost predicate AnyCut(ws: seq<Writer>, order: seq<nat>)
    requires Indices(ws, order)
  {
    exists k :: 0 <= k < |order| && Cut(ws[order[k]])
  }

  lemma AnyCutMore(ws: seq<Writer>, order: seq<nat>)
    requires Indices(ws, order) && |order| > 0
    ensures AnyCut(ws, order) <==> AnyCut(ws, order[..|order| - 1]) || Cut(ws[order[|order| - 1]])
  {
    hide Cut;
    var before := order[..|order| - 1];
    assert forall k :: 0 <= k < |before| ==> before[k] == order[k];
  }

  lemma PrefixesLess(ws: seq<Writer>, order: seq<nat>)
    requires Indices(ws, order) && |order| > 0 && Prefixes(ws, order)
    ensures Prefixes(ws, order[..|order| - 1]) && Taken(ws[order[|order| - 1]]) <= ws[order[|order| - 1]].data
  {
  }

  lemma {:induction false} AllTakenUnlessCut(ws: seq<Writer>, order: seq<nat>)
    requires Indices(ws, order) && Prefixes(ws, order)
    ensures |TakenInOrder(ws, order)| <= |WrittenInOrder(ws, order)|
    ensures |TakenInOrder(ws, order)| == |WrittenInOrder(ws, order)| <==> !AnyCut(ws, order)
  {
    if |order| > 0 {
      hide AnyCut, Prefixes, Taken;
      PrefixesLess(ws, order);
      AllTakenUnlessCut(ws, order[..|order| - 1]);
      AnyCutMore(ws, order);
    }
  }

  lemma FromTheFirstMore(p: seq<nat>, from: nat, n: nat)
    ensures FromTheFirst(p + Run(from, n)) <==> FromTheFirst(p) && (n == 0 || from == |p|)
  {
    var q := p + Run(from, n);
    assert forall i :: 0 <= i < |p| ==> q[i] == p[i];
    assert forall i :: |p| <= i < |q| ==> q[i] == from + i - |p|;
    if n > 0 { assert q[|p|] == from; }
  }

  lemma {:induction false} FromTheFirstUnlessSkips(ws: seq<Writer>, order: seq<nat>)
    requires Indices(ws, order) && Prefixes(ws, order)
    ensures FromTheFirst(Places(ws, order)) <==> !Skips(ws, order)
  {
    if |order| > 0 {
      hide FromTheFirst, Run, Taken, Skips, AnyCut, TakenInOrder, WrittenInOrder, Prefixes;
      var before, w := order[..|order| - 1], ws[order[|order| - 1]];
      PrefixesLess(ws, order);
      FromTheFirstUnlessSkips(ws, before);
      AllTakenUnlessCut(ws, before);
      FromTheFirstMore(Places(ws, before), |WrittenInOrder(ws, before)|, |Taken(w)|);
      SkipsMore(ws, order);
    } else {
      assert Places(ws, order) == [];
    }
  }

  lemma SkipsMore(ws: seq<Writer>, order: seq<nat>)
    requires Indices(ws, order) && |order| > 0
    ensures var before, w := order[..|order| - 1], ws[order[|order| - 1]];
            Skips(ws, order) <==> Skips(ws, before) || (|Taken(w)| > 0 && AnyCut(ws, before))
  {
    hide Cut, Taken;
    var n := |order| - 1;
    var before := order[..n];
    assert forall k :: 0 <= k < n ==> before[k] == order[k];
  }

  lemma TakenIsPrefix(s: State)
    requires LockOK(s) && CallsOK(s)
    ensures Prefixes(s.writers, s.order)
  {
    forall k | 0 <= k < |s.order| ensures Taken(s.writers[s.order[k]]) <= s.writers[s.order[k]].data {
      assert WriterOK(s, s.order[k]);
    }
  }

  /**
    In every run, what readers received, in the order of the receives, is what each write delivered, in
    the order the writes took the lock; every element is the one written at its place, and places only
    go up. Nothing is left out exactly when no write that took the lock after one that was cut short
    delivered an element.
   */
  lemma ReceivedInPlace(acts: seq<Act>, s: State, p: seq<nat>)
    requires s == Steps(NEW, acts) && Indices(s.writers, s.order) && p == Places(s.writers, s.order)
    ensures Chunks(s.received) == TakenInOrder(s.writers, s.order)
    ensures InPlace(p, Chunks(s.received), WrittenInOrder(s.writers, s.order))
    ensures FromTheFirst(p) <==> !Skips(s.writers, s.order)
  {
    hide Steps, Taken, TakenInOrder, WrittenInOrder, Places, Chunks, Skips, FromTheFirst, InPlace;
    AlwaysInv(acts);
    TakenIsPrefix(s);
    PlacesMean(s.writers, s.order);
    FromTheFirstUnlessSkips(s.writers, s.order);
  }

  lemma AllOfPrefix(p: seq<nat>, taken: seq<int>, written: seq<int>)
    requires InPlace(p, taken, written) && FromTheFirst(p)
    ensures taken <= written
  {
    if |p| > 0 { assert p[|p| - 1] == |p| - 1; }
    assert forall i :: 0 <= i < |taken| ==> taken[i] == written[p[i]] == written[i];
  }

  /**
    In every run in which no write took the lock after the close, however many receives came after it,
    what was received is a prefix of what was written, in the order of the lock.
   */
  lemma ChunksArePrefix(acts: seq<Act>, s: State)
    requires s == Steps(NEW, acts) && !s.late
    ensures Indices(s.writers, s.order) && !Skips(s.writers, s.order)
    ensures Chunks(s.received) <= WrittenInOrder(s.writers, s.order)
  {
    hide Steps;
    AlwaysInv(acts);
    forall k | 0 <= k < |s.order| - 1 ensures !Cut(s.writers[s.order[k]]) { assert Whole(s.writers[s.order[k]]); }
    ReceivedInPlace(acts, s, Places(s.writers, s.order));
    AllOfPrefix(Places(s.writers, s.order), Chunks(s.received), WrittenInOrder(s.writers, s.order));
  }

  // ----- closing while no write waits for the lock

  /** The pipe is closed and no write can take the lock any more. */
  ghost predicate Settled(s: State) {
    s.done && !s.late && forall i :: 0 <= i < |s.writers| ==> !s.writers[i].WLock?
  }

  lemma SettledStays(s: State, a: Act)
    requires Settled(s)
    ensures Settled(Step(s, a))
  {
  }

  lemma {:induction false} SettledThroughout(before: seq<Act>, after: seq<Act>)
    requires Settled(Steps(NEW, before))
    ensures Settled(Steps(NEW, before + after))
  {
    hide Step, Settled;
    if |after| == 0 {
      assert before + after == before;
    } else {
      var n := |after| - 1;
      SettledThroughout(before, after[..n]);
      assert (before + after)[..|before| + n] == before + after[..n];
      SettledStays(Steps(NEW, before + after[..n]), after[n]);
    }
  }

  /** If no write waits for the lock when the pipe is closed, the prefix holds in every continuation. */
  lemma CloseWithoutWaiters(before: seq<Act>, after: seq<Act>, s: State, t: State)
    requires s == Steps(NEW, before) && Enabled(s, CloseDone) && !s.done
    requires forall i :: 0 <= i < |s.writers| ==> !s.writers[i].WLock?
    requires t == Steps(NEW, before + [CloseDone] + after)
    ensures Indices(t.writers, t.order) && Chunks(t.received) <= WrittenInOrder(t.writers, t.order)
  {
    AlwaysInv(before);
    assert (before + [CloseDone])[..|before|] == before;
    assert Settled(Steps(NEW, before + [CloseDone]));
    hide Steps, Chunks, WrittenInOrder;
    SettledThroughout(before + [CloseDone], after);
    ChunksArePrefix(before + [CloseDone] + after, t);
  }

  // ----- the outcome of each call

  /**
    A write that has returned reports exactly how much readers took: what was received from it is the
    first n elements of its data, each chunk returned by the read that received it. Without an error
    that is all of its data; the error is the readers' or ErrClosedPipe.
   */
  lemma WriteOutcome(acts: seq<Act>, s: State, i: nat, w: Writer)
    requires s == Steps(NEW, acts) && Writes(s, i) && w == s.writers[i] && w.WDone?
    ensures w.n <= |w.data| && ChunksFrom(s.received, i) == w.data[..w.n]
    ensures forall k :: 0 <= k < |s.received| && s.received[k].writer == i ==>
              Reads(s, s.received[k].reader) && s.readers[s.received[k].reader] == RDone(s.received[k].chunk, None)
    ensures forall k, l :: 0 <= k < l < |s.received| ==> s.received[k].reader != s.received[l].reader
    ensures w.err == None ==> w.n == |w.data|
    ensures w.err.Some? ==> s.done && (w.err.value == ClosedPipe || s.rerr == w.err)
  {
    hide Steps;
    AlwaysInv(acts);
    assert WriterOK(s, i);
    forall k | 0 <= k < |s.received| && s.received[k].writer == i
      ensures Reads(s, s.received[k].reader) && s.readers[s.received[k].reader] == RDone(s.received[k].chunk, None)
    {
      assert ReceiptOK(s, k);
    }
  }

  /** A read that ends with an error has data from no one, and the error is the writers' or ErrClosedPipe. */
  lemma ReadOutcome(acts: seq<Act>, j: nat)
    requires var s := Steps(NEW, acts); Reads(s, j) && s.readers[j].RDone? && s.readers[j].err.Some?
    ensures var s := Steps(NEW, acts);
            var r := s.readers[j];
            && r.chunk == [] && s.done && (r.err.value == ClosedPipe || s.werr == r.err)
            && (forall k :: 0 <= k < |s.received| ==> s.received[k].reader != j)
  {
    AlwaysInv(acts);
    var s := Steps(NEW, acts);
    assert ReaderOK(s, j);
    forall k | 0 <= k < |s.received| ensures s.received[k].reader != j { assert ReceiptOK(s, k); }
  }

  /** A write waiting for a reply and a read about to reply always come in exactly one pair. */
  lemma OnePair(acts: seq<Act>, i: nat, j: nat)
    requires var s := Steps(NEW, acts); Writes(s, i) && Reads(s, j) && (s.writers[i].WAwait? || s.readers[j].RReply?)
    ensures var s := Steps(NEW, acts);
            && (s.writers[i].WAwait? ==> Reads(s, s.writers[i].reader) && s.readers[s.writers[i].reader].RReply?
                                         && (s.readers[j].RReply? ==> j == s.writers[i].reader))
            && (s.readers[j].RReply? ==> s.lock.Some? && Writes(s, s.lock.value) && s.writers[s.lock.value].WAwait?
                                         && (s.writers[i].WAwait? ==> s.lock == Some(i)))
  {
    AlwaysInv(acts);
    var s := Steps(NEW, acts);
    assert WriterOK(s, i) && ReaderOK(s, j);
  }
}
