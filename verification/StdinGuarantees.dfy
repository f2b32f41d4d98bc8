/** internal/tracker/tracker.go: what follows from the invariant of StdinProtocol for the writers
    handed over, and for those who wait for a lock. */
module StdinGuarantees {
  import opened Prelude
  import opened StdinProtocol

  // ----- What follows -----

  /** No writer is written to after the tracker closed it or it was given up; none is closed
      twice; no onClose runs twice. */
  lemma NeverTwice(run: seq<State>, i: nat, w: Writer)
    requires IsRun(run) && i < |run| && w in run[i].threads
    ensures run[i].badWrites == 0
    ensures run[i].threads[w].closes <= 1 && run[i].threads[w].runs <= 1
  {
    RunKeepsInv(run, i);
    assert WriterOk(run[i], w);
  }

  /** Closed by the tracker or, if not, given up by MarkStdinClosed, never both; and its onClose
      has run exactly once. */
  predicate Released(writer: Thread) {
    writer.runs == 1 && writer.closes == if writer.marked then 0 else 1
  }

  /** Once Remove's close goroutine is done, the last writer attached to its entry has been
      released and nothing of it is left in the entry.  Of several writers attached to one entry
      it is the only one released: the others were overwritten. */
  lemma RemovedIsReleased(run: seq<State>, i: nat, remover: Tid, w: Writer)
    requires IsRun(run) && i < |run| && remover in run[i].threads && w in run[i].threads
    requires run[i].threads[remover].pc.Removed?
    requires run[i].threads[w].home == Some(run[i].threads[remover].pc.e)
    ensures var e := run[i].threads[remover].pc.e;
            && e in run[i].entries && run[i].entries[e].writer.None? && run[i].entries[e].onClose.None?
            && (Released(run[i].threads[w]) <==> run[i].entries[e].current == Some(w))
  {
    var s := run[i];
    RunKeepsInv(run, i);
    assert PcOk(s, remover) && WriterOk(s, w) && EntryOk(s, s.threads[remover].pc.e);
  }

  /** With one attach to the entry, that writer is the last. */
  lemma OnlyAttachedIsLast(run: seq<State>, i: nat, w: Writer)
    requires IsRun(run) && i < |run| && w in run[i].threads && run[i].threads[w].home.Some?
    requires forall w' :: w' in run[i].threads && run[i].threads[w'].home == run[i].threads[w].home ==> w' == w
    ensures var e := run[i].threads[w].home.value;
            e in run[i].entries && run[i].entries[e].current == Some(w)
  {
    var s := run[i];
    RunKeepsInv(run, i);
    assert WriterOk(s, w) && EntryOk(s, s.threads[w].home.value);
  }

  /** A SetStdin call that finishes has either attached its writer to an entry or, finding no
      entry, closed it and run its onClose, each exactly once. */
  lemma NoWriterIsDropped(run: seq<State>, i: nat, t: Tid)
    requires IsRun(run) && i < |run| && t in run[i].threads
    requires run[i].threads[t].op.SetStdin? && (run[i].threads[t].pc.Done? || run[i].threads[t].pc.LateDone?)
    ensures run[i].threads[t].home.None? <==> run[i].threads[t].pc.LateDone?
    ensures run[i].threads[t].pc.LateDone? ==> run[i].threads[t].closes == 1 && run[i].threads[t].runs == 1
  {
    RunKeepsInv(run, i);
    assert WriterOk(run[i], t);
  }

  predicate HoldsTracker(s: State, t: Tid) {
    s.writeLock == Some(t) || t in s.readLocks
  }

  /** Inside a call that may block for as long as the other side pleases. */
  predicate InCall(pc: Pc) {
    pc.Writing? || pc.Closing? || pc.LateClose? || pc.LateOnClose? || pc.RunCancel? || pc.RunOnClose? || pc.Cancelling?
  }

  /** Steps left until tracker.mu is released. */
  function StepsToRelease(pc: Pc): nat {
    match pc
    case In(_, _) => 4
    case Lock(_, _) => 3
    case Held(_, _) => 2
    case Attached(_) => 1
    case _ => 0
  }

  ghost predicate NeverAttached(s: State, e: EntryId) {
    forall w :: w in s.threads ==> s.threads[w].home != Some(e)
  }

  /** A thread holding tracker.mu is never inside a call that may block, and can take its next
      step now, whatever the other threads are doing, exactly if it is not about to attach to an
      entry whose stdin.mu is taken.  That lock is free whenever no writer was attached to the
      entry before. */
  lemma HolderCanStep(run: seq<State>, i: nat, t: Tid)
    requires IsRun(run) && i < |run| && HoldsTracker(run[i], t)
    ensures t in run[i].threads && !InCall(run[i].threads[t].pc) && Named(run[i], t)
    ensures var s, pc := run[i], run[i].threads[t].pc;
            Enabled(s, t) <==> (pc.Lock? ==> s.entries[pc.e].mu.None?)
    ensures var s, pc := run[i], run[i].threads[t].pc;
            (pc.Lock? ==> NeverAttached(s, pc.e)) ==> Enabled(s, t)
  {
    var s := run[i];
    RunKeepsInv(run, i);
    assert PcOk(s, t);
    NamesExist(s, t);
    if s.threads[t].pc.Lock? && s.entries[s.threads[t].pc.e].mu.Some? {
      var e := s.threads[t].pc.e;
      assert EntryOk(s, e) && HolderOk(s, e);
      assert PcOk(s, s.entries[e].mu.value);
    }
  }

  /** And after at most four steps of its own it has released the lock. */
  lemma HolderReleases(run: seq<State>, i: nat, t: Tid)
    requires IsRun(run) && i < |run| && HoldsTracker(run[i], t)
    requires t in run[i].threads && Enabled(run[i], t) && Named(run[i], t)
    ensures var s, s' := run[i], Do(run[i], t);
            HoldsTracker(s', t) ==>
              t in s'.threads && StepsToRelease(s'.threads[t].pc) < StepsToRelease(s.threads[t].pc)
  {
    RunKeepsInv(run, i);
    assert PcOk(run[i], t);
  }

  /** Thread b holds the lock thread t waits for. */
  predicate Blocks(s: State, t: Tid, b: Tid) {
    && t in s.threads
    && var pc := s.threads[t].pc;
       || (pc.Wait? && HoldsTracker(s, b))
       || (pc.Lock? && pc.e in s.entries && s.entries[pc.e].mu == Some(b))
  }

  /** Whoever holds the lock that t waits for, or holds the one that holder waits for, can go on. */
  predicate Runnable(s: State, b: Tid) {
    b in s.threads && Enabled(s, b) && Named(s, b)
  }

  lemma StdinHolderRuns(s: State, t: Tid) returns (b: Tid)
    requires Inv(s) && t in s.threads && s.threads[t].pc.Lock? && !Enabled(s, t)
    ensures Blocks(s, t, b) && Runnable(s, b)
  {
    var e := s.threads[t].pc.e;
    assert PcOk(s, t) && HolderOk(s, e);
    b := s.entries[e].mu.value;
    NamesExist(s, b);
  }

  /** The lock order: no chain of waiting is longer than two.  A thread that waits for either
      lock waits for a thread that can take its next step, or for one that itself waits for the
      stdin.mu of a thread that can. */
  lemma WaitsForARunner(run: seq<State>, i: nat, t: Tid) returns (b: Tid, c: Tid)
    requires IsRun(run) && i < |run| && t in run[i].threads && !Enabled(run[i], t)
    requires run[i].threads[t].pc.Wait? || run[i].threads[t].pc.Lock?
    ensures Blocks(run[i], t, b) && (b == c || Blocks(run[i], b, c)) && Runnable(run[i], c)
  {
    var s := run[i];
    RunKeepsInv(run, i);
    assert PcOk(s, t);
    if s.threads[t].pc.Lock? {
      b := StdinHolderRuns(s, t);
      c := b;
    } else {
      b := if s.writeLock.Some? then s.writeLock.value else var r :| r in s.readLocks; r;
      HolderCanStep(run, i, b);
      if Enabled(s, b) {
        c := b;
      } else {
        c := StdinHolderRuns(s, b);
      }
    }
  }

  predicate Ended(pc: Pc) {
    pc.Done? || pc.LateDone? || pc.Removed?
  }

  /** So there is no deadlock: in every reachable state some thread can go on or all have ended.
      (A thread inside a call into a writer or callback can go on as far as locks are concerned.) */
  lemma NeverDeadlocked(run: seq<State>, i: nat, t: Tid) returns (c: Tid)
    requires IsRun(run) && i < |run| && t in run[i].threads && !Ended(run[i].threads[t].pc)
    ensures Runnable(run[i], c)
  {
    RunKeepsInv(run, i);
    NamesExist(run[i], t);
    if Enabled(run[i], t) {
      c := t;
    } else {
      var b;
      b, c := WaitsForARunner(run, i, t);
    }
  }

  // ----- A second attach can block tracker.mu -----

  lemma Extend(run: seq<State>, s': State)
    requires IsRun(run) && Next(run[|run| - 1], s')
    ensures IsRun(run + [s'])
  {
    var longer := run + [s'];
    forall i | 0 < i < |longer| ensures Follows(longer, i) {
      if i < |run| {
        assert Follows(run, i);
      }
    }
  }

  lemma ExtendByCall(run: seq<State>, t: Tid, key: string, op: Op) returns (longer: seq<State>)
    requires IsRun(run) && t !in run[|run| - 1].threads
    ensures IsRun(longer) && longer[|longer| - 1] == Call(run[|run| - 1], t, key, op)
  {
    Extend(run, Call(run[|run| - 1], t, key, op));
    longer := run + [Call(run[|run| - 1], t, key, op)];
  }

  lemma ExtendByStep(run: seq<State>, t: Tid) returns (longer: seq<State>)
    requires IsRun(run) && t in run[|run| - 1].threads
    requires Enabled(run[|run| - 1], t) && Named(run[|run| - 1], t)
    ensures IsRun(longer) && longer[|longer| - 1] == Do(run[|run| - 1], t)
  {
    Extend(run, Do(run[|run| - 1], t));
    longer := run + [Do(run[|run| - 1], t)];
  }

  /** Call 0 added an entry and call 1 attached a writer to it. */
  predicate AttachedState(s: State, key: string) {
    && key in s.containers && s.containers[key] == 0 && 0 in s.entries && s.threads.Keys == {0, 1}
    && s.entries[0].mu.None? && s.entries[0].current == Some(1) && s.entries[0].writer == Some(1)
    && s.writeLock.None? && s.readLocks == {}
  }

  lemma ReachAttached(key: string) returns (run: seq<State>)
    ensures IsRun(run) && AttachedState(run[|run| - 1], key)
  {
    run := [Init];
    run := ExtendByCall(run, 0, key, Add);
    run := ExtendByStep(run, 0);
    run := ExtendByStep(run, 0);
    run := ExtendByCall(run, 1, key, SetStdin);
    run := ExtendByStep(run, 1);
    run := ExtendByStep(run, 1);
    run := ExtendByStep(run, 1);
    run := ExtendByStep(run, 1);
    run := ExtendByStep(run, 1);
  }

  /** And call 2 is inside Write, holding stdin.mu. */
  predicate WritingState(s: State, key: string) {
    && key in s.containers && s.containers[key] == 0 && 0 in s.entries && s.threads.Keys == {0, 1, 2}
    && s.entries[0].mu == Some(2) && s.entries[0].current == Some(1) && s.entries[0].writer == Some(1)
    && s.threads[2].pc == Writing(0, 1) && s.writeLock.None? && s.readLocks == {}
  }

  lemma ReachWriting(key: string) returns (run: seq<State>)
    ensures IsRun(run) && WritingState(run[|run| - 1], key)
  {
    run := ReachAttached(key);
    run := ExtendByCall(run, 2, key, WriteStdin);
    run := ExtendByStep(run, 2);
    run := ExtendByStep(run, 2);
    run := ExtendByStep(run, 2);
    run := ExtendByStep(run, 2);
  }

  /** While a Write to the first writer hangs, a second SetStdin for the same entry holds
      tracker.mu and cannot go on: the condition of HolderCanStep does fail in a reachable state. */
  lemma SecondAttachWaitsForWrite(key: string) returns (run: seq<State>)
    ensures IsRun(run)
    ensures var s := run[|run| - 1];
            && HoldsTracker(s, 3) && 3 in s.threads && !Enabled(s, 3)
            && 2 in s.threads && s.threads[2].pc.Writing? && 0 in s.entries && s.entries[0].mu == Some(2)
  {
    run := ReachWriting(key);
    run := ExtendByCall(run, 3, key, SetStdin);
    run := ExtendByStep(run, 3);
    run := ExtendByStep(run, 3);
  }
}
