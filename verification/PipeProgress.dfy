/** Reads and writes of the pipe do not get stuck, and a meeting hands over as much as the read can hold. */
module PipeProgress {
  import opened Options
  import opened Pipe

  /** The read takes the longest prefix of what is left of the write that its buffer holds. */
  lemma MeetMoves(s: State, i: nat, j: nat, t: State)
    requires Writes(s, i) && s.writers[i].WSend? && Reads(s, j) && s.readers[j].RSelect? && t == Step(s, Meet(i, j))
    ensures Writes(t, i) && Reads(t, j) && t.writers[i].WAwait? && t.readers[j].RReply?
    ensures var left, chunk := s.writers[i].rest, t.readers[j].chunk;
            && chunk <= left && |chunk| <= s.readers[j].cap && (|chunk| == |left| || |chunk| == s.readers[j].cap)
            && t.received == s.received + [Receipt(i, j, chunk)]
    ensures forall k :: 0 <= k < |s.writers| && k != i ==> t.writers[k] == s.writers[k]
    ensures forall k :: 0 <= k < |s.readers| && k != j ==> t.readers[k] == s.readers[k]
  {
  }

  /** A call of read that has not returned. */
  predicate Reading(s: State, j: nat) { Reads(s, j) && !s.readers[j].RDone? }
  predicate Writing(s: State, i: nat) { Writes(s, i) && !s.writers[i].WDone? }

  /** A step of a call in progress, not a new call nor a close. */
  predicate Inner(a: Act) {
    !(a.CallWrite? || a.CallRead? || a.StoreReadError? || a.StoreWriteError? || a.CloseDone?)
  }

  /** What writer i can do, or the read j if the writer waits for it. */
  function WriterStep(s: State, i: nat, j: nat): Act {
    if !Writes(s, i) then CloseDone
    else match s.writers[i]
      case WStart(_) => LookWrite(i)
      case WLock(_) => Acquire(i)
      case WSend(_, _, _) => if s.done then SeeDoneWrite(i) else ReaderStep(s, i, j)
      case WAwait(_, _, _, r, _) => Reply(i, r)
      case WSaw(_, _) => LoadWrite(i)
      case WClosing(_, _, _) => LeaveWrite(i)
      case WDone(_, _, _) => CloseDone
  }

  /** What read j can do when it might meet writer i. */
  function ReaderStep(s: State, i: nat, j: nat): Act {
    if !Reads(s, j) then CloseDone
    else match s.readers[j]
      case RStart(_) => LookRead(j)
      case RSelect(_) => if s.done then SeeDoneRead(j) else Meet(i, j)
      case RReply(_) => if s.lock.Some? then Reply(s.lock.value, j) else CloseDone
      case RSaw => LoadRead(j)
      case RClosing(_) => LeaveRead(j)
      case RDone(_, _) => CloseDone
  }

  lemma EnabledMoves(s: State, a: Act)
    requires Enabled(s, a) && Inner(a)
    ensures Step(s, a) != s
  {
  }

  lemma WriterGoes(s: State, i: nat, j: nat)
    requires Inv(s) && Writing(s, i) && (s.done || Reading(s, j)) && (s.writers[i].WLock? ==> s.lock == None)
    ensures var a := WriterStep(s, i, j); Enabled(s, a) && Inner(a)
  {
    assert WriterOK(s, i);
    if s.writers[i].WSend? && !s.done { ReaderGoes(s, i, j); }
    hide DataOK, TurnsOK;
  }

  lemma ReaderGoes(s: State, i: nat, j: nat)
    requires Inv(s) && Reading(s, j) && (s.done || (Writes(s, i) && s.writers[i].WSend?))
    ensures var a := ReaderStep(s, i, j); Enabled(s, a) && Inner(a)
  {
    assert ReaderOK(s, j);
    if s.readers[j].RReply? { assert WriterOK(s, s.lock.value); }
    hide DataOK, TurnsOK;
  }

  /** The writer that holds the lock is past waiting for it. */
  lemma HolderWrites(s: State)
    requires Inv(s) && s.lock.Some?
    ensures Writing(s, s.lock.value) && !s.writers[s.lock.value].WLock?
  {
    var k := s.lock.value;
    assert k in s.order;
    assert WriterOK(s, k);
    hide DataOK, TurnsOK;
  }

  /**
    In every reachable state with a write and a read in progress, or with either in progress once the
    pipe is closed, some call in progress can take a step.
   */
  lemma NeverStuck(acts: seq<Act>, s: State, i: nat, j: nat)
    requires s == Steps(NEW, acts)
    requires (Writing(s, i) && Reading(s, j)) || (s.done && (Writing(s, i) || Reading(s, j)))
    ensures exists a: Act :: Inner(a) && Step(s, a) != s
  {
    AlwaysInv(acts);
    hide Steps, Inv;
    if Writing(s, i) {
      var k := i;
      if s.writers[i].WLock? && s.lock.Some? {
        HolderWrites(s);
        k := s.lock.value;
      }
      WriterGoes(s, k, j);
      EnabledMoves(s, WriterStep(s, k, j));
    } else {
      ReaderGoes(s, i, j);
      EnabledMoves(s, ReaderStep(s, i, j));
    }
  }
}
