/**
  A run of the pipe in which what was received is not a prefix of what was written: a write that was
  already waiting for the lock when the pipe was closed meets a read that was already waiting for data.
 */
module PipeRace {
  import opened Options
  import opened Pipe

  lemma Then(acts: seq<Act>, s: State, a: Act, t: State) returns (more: seq<Act>, u: State)
    requires Steps(NEW, acts) == s && Step(s, a) == t
    ensures Steps(NEW, more) == u == t
  {
    hide Step;
    more, u := acts + [a], t;
    assert (acts + [a])[..|acts|] == acts;
  }

  /** Two writes and two reads of one element each are called and wait, then the first pair meets. */
  lemma Opening() returns (acts: seq<Act>, s: State)
    ensures Steps(NEW, acts) == s
    ensures s == NEW.(writers := [WSend([1, 2], [2], 1), WLock([9])], readers := [RDone([1], None), RSelect(1)],
                      lock := Some(0), order := [0], received := [Receipt(0, 0, [1])])
  {
    acts, s := Waiting();
    assert [1, 2][..1] == [1] && [1, 2][1..] == [2];
    acts, s := Then(acts, s, Meet(0, 0),
                    s.(writers := [WAwait([1, 2], [1, 2], 0, 0, [1]), WLock([9])], readers := [RReply([1]), RSelect(1)],
                      received := [Receipt(0, 0, [1])]));
    acts, s := Then(acts, s, Reply(0, 0),
                    s.(writers := [WSend([1, 2], [2], 1), WLock([9])], readers := [RDone([1], None), RSelect(1)]));
  }

  lemma Waiting() returns (acts: seq<Act>, s: State)
    ensures Steps(NEW, acts) == s
    ensures s == NEW.(writers := [WSend([1, 2], [1, 2], 0), WLock([9])], readers := [RSelect(1), RSelect(1)],
                      lock := Some(0), order := [0])
  {
    acts, s := Calls();
    acts, s := Then(acts, s, LookRead(0),
                    s.(readers := [RSelect(1), RStart(1)]));
    acts, s := Then(acts, s, LookRead(1),
                    s.(readers := [RSelect(1), RSelect(1)]));
    acts, s := Then(acts, s, Acquire(0),
                    s.(writers := [WSend([1, 2], [1, 2], 0), WLock([9])], lock := Some(0), order := [0]));
  }

  lemma Calls() returns (acts: seq<Act>, s: State)
    ensures Steps(NEW, acts) == s
    ensures s == NEW.(writers := [WLock([1, 2]), WLock([9])], readers := [RStart(1), RStart(1)])
  {
    acts, s := [], NEW;
    acts, s := Then(acts, s, CallWrite([1, 2]),
                    s.(writers := [WStart([1, 2])]));
    acts, s := Then(acts, s, CallWrite([9]),
                    s.(writers := [WStart([1, 2]), WStart([9])]));
    acts, s := Then(acts, s, CallRead(1),
                    s.(readers := [RStart(1)]));
    acts, s := Then(acts, s, CallRead(1),
                    s.(readers := [RStart(1), RStart(1)]));
    acts, s := Then(acts, s, LookWrite(0),
                    s.(writers := [WLock([1, 2]), WStart([9])]));
    acts, s := Then(acts, s, LookWrite(1),
                    s.(writers := [WLock([1, 2]), WLock([9])]));
  }

  /** The pipe is closed, and the first write leaves with half of its data taken. */
  lemma Closing() returns (acts: seq<Act>, s: State)
    ensures Steps(NEW, acts) == s
    ensures s == NEW.(writers := [WDone([1, 2], 1, Some(ClosedPipe)), WLock([9])], readers := [RDone([1], None), RSelect(1)],
                      order := [0], received := [Receipt(0, 0, [1])], done := true, werr := Some(EOF))
  {
    acts, s := Opening();
    acts, s := Then(acts, s, StoreWriteError(None),
                    s.(werr := Some(EOF)));
    acts, s := Then(acts, s, CloseDone,
                    s.(done := true));
    acts, s := Then(acts, s, SeeDoneWrite(0),
                    s.(writers := [WSaw([1, 2], 1), WLock([9])]));
    acts, s := Then(acts, s, LoadWrite(0),
                    s.(writers := [WClosing([1, 2], 1, Some(EOF)), WLock([9])]));
    acts, s := Then(acts, s, LeaveWrite(0),
                    s.(writers := [WDone([1, 2], 1, Some(ClosedPipe)), WLock([9])], lock := None));
  }

  /** The second write takes the lock, and the second pair meets. */
  lemma Ending() returns (acts: seq<Act>, s: State)
    ensures Steps(NEW, acts) == s && s.late
    ensures s.order == [0, 1] && s.received == [Receipt(0, 0, [1]), Receipt(1, 1, [9])]
    ensures s.writers == [WDone([1, 2], 1, Some(ClosedPipe)), WAwait([9], [9], 0, 1, [9])]
  {
    acts, s := Closing();
    acts, s := Then(acts, s, Acquire(1),
                    s.(writers := [WDone([1, 2], 1, Some(ClosedPipe)), WSend([9], [9], 0)], lock := Some(1), order := [0, 1], late := true));
    assert [9][..1] == [9] && [Receipt(0, 0, [1])] + [Receipt(1, 1, [9])] == [Receipt(0, 0, [1]), Receipt(1, 1, [9])];
    acts, s := Then(acts, s, Meet(1, 1),
                    s.(writers := [WDone([1, 2], 1, Some(ClosedPipe)), WAwait([9], [9], 0, 1, [9])],
                      readers := [RDone([1], None), RReply([9])],
                      received := [Receipt(0, 0, [1]), Receipt(1, 1, [9])]));
  }

  /** Received is 1, 9; written, in the order of the lock, is 1, 2, 9. */
  lemma LateWriteBreaksPrefix()
    ensures exists acts :: var s := Steps(NEW, acts);
              s.late && Indices(s.writers, s.order) && !(Chunks(s.received) <= WrittenInOrder(s.writers, s.order))
  {
    var acts, s := Ending();
    hide Steps;
    assert s.received[..1] == [Receipt(0, 0, [1])] && s.received[..1][..0] == [];
    assert Chunks(s.received[..1]) == [1];
    assert Chunks(s.received) == [1] + [9];
    assert s.order[..1] == [0] && s.order[..1][..0] == [];
    assert WrittenInOrder(s.writers, s.order[..1]) == [1, 2];
    assert WrittenInOrder(s.writers, s.order) == [1, 2] + [9];
    assert Chunks(s.received)[1] == 9 && WrittenInOrder(s.writers, s.order)[1] == 2;
  }
}
