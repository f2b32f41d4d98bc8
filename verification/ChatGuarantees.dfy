/** What follows from the invariant of ChatResume: what becomes of a chat's resume directory, its
    secrets and its container, whatever fails. */
module ChatGuarantees {
  import opened Prelude
  import opened ChatResume

  // ----- What follows -----

  /** No directory is ever removed twice. */
  lemma RemovedAtMostOnce(run: seq<State>, i: nat, d: Dir)
    requires IsRun(run) && i < |run| && d in run[i].dirs
    ensures run[i].dirs[d] <= 1
  {
    RunKeepsInv(run, i);
    assert StartOk(run[i], d);
  }

  /** Once the handler has returned and its wait goroutine, if it spawned one, is done, the
      directory it made has been removed exactly once and neither map holds its container. */
  lemma NothingIsLeft(run: seq<State>, i: nat, h: Tid)
    requires IsRun(run) && i < |run| && h in run[i].starts
    requires run[i].starts[h].pc.Returned?
    requires run[i].starts[h].waiter.NotSpawned? || run[i].starts[h].waiter.WaitDone?
    ensures h in run[i].dirs ==> run[i].dirs[h] == 1
    ensures h !in run[i].chatCleanup && h !in run[i].chatSecrets
  {
    RunKeepsInv(run, i);
    assert StartOk(run[i], h);
  }

  /** What the calls report can be relied on: a container runs only if none of those made on its
      behalf has worked. */
  lemma RunsOnlyIfNothingWorked(run: seq<State>, i: nat, h: Tid)
    requires IsRun(run) && i < |run| && h in run[i].starts
    ensures run[i].starts[h].runs ==> run[i].starts[h].MayRun()
  {
    RunKeepsInv(run, i);
    assert StartOk(run[i], h);
  }

  /** The directory is removed behind the container's back: it was mounted into a container that
      was started and, for all that any call has reported, still runs. */
  predicate RemovedUnderContainer(s: State, h: Tid)
    requires h in s.starts
  {
    s.starts[h].mounted && s.starts[h].MayRun() && h in s.dirs && s.dirs[h] > 0
  }

  /** A mounted directory is there as long as anyone still has to deal with the container: from
      its start until the rollback has made both its attempts to end it, or until the wait
      goroutine has tried to remove it. */
  lemma MountedDirStays(run: seq<State>, i: nat, h: Tid)
    requires IsRun(run) && i < |run| && h in run[i].starts && run[i].starts[h].mounted && run[i].starts[h].ran
    requires var start := run[i].starts[h];
             if start.waiter.NotSpawned? then start.forced.Untried? else start.removal.Untried?
    ensures h in run[i].dirs && run[i].dirs[h] == 0
  {
    RunKeepsInv(run, i);
    assert StartOk(run[i], h);
  }

  /** It is removed under a container that may still run exactly when nothing that was tried
      worked: on the rollback of a chat that could not be tracked, neither the stop nor the forced
      removal; after the wait, neither that nor a kill at the deadline nor the removal, nor stop
      and forced removal if the attach was rolled back. */
  lemma RemovedUnderContainerExactly(run: seq<State>, i: nat, h: Tid)
    requires IsRun(run) && i < |run| && h in run[i].starts
    ensures var start := run[i].starts[h];
            RemovedUnderContainer(run[i], h) <==>
              && start.mounted && start.ran
              && if start.waiter.NotSpawned? then start.pc.Returned? && start.stop.Failed? && start.forced.Failed?
                 else
                   && (start.waiter.WaitSecrets? || start.waiter.WaitDone?)
                   && start.wait.Failed? && !start.kill.Worked? && start.removal.Failed?
                   && !start.stop.Worked? && !start.forced.Worked?
  {
    RunKeepsInv(run, i);
    assert StartOk(run[i], h);
  }

  /** A rollback does not take from the wait goroutine what it will look for: while the goroutine
      has not popped the delivery, it is still in the map. */
  lemma WaiterFindsDelivery(run: seq<State>, i: nat, h: Tid)
    requires IsRun(run) && i < |run| && h in run[i].starts && run[i].starts[h].waiter.WaitPop?
    ensures h in run[i].chatCleanup
    ensures run[i].chatCleanup[h] == if run[i].starts[h].mounted then Some(h) else None
  {
    RunKeepsInv(run, i);
    assert StartOk(run[i], h);
  }

  /** The log stream finds the secrets it is to mask, unless the container has already ended and
      been cleaned up. */
  lemma StreamFindsSecrets(run: seq<State>, i: nat, h: Tid)
    requires IsRun(run) && i < |run| && h in run[i].starts && run[i].starts[h].pc.PopSecrets?
    ensures h in run[i].chatSecrets <==> !run[i].starts[h].waiter.WaitDone?
  {
    RunKeepsInv(run, i);
    assert StartOk(run[i], h);
  }

  /** The wait goroutine gets past the wait only with its outcome, and to the directory only once it
      has tried to remove the container. */
  lemma WaiterTries(run: seq<State>, i: nat, h: Tid)
    requires IsRun(run) && i < |run| && h in run[i].starts
    ensures var start := run[i].starts[h];
            && (start.waiter.WaitDrop? || start.waiter.WaitSecrets? || start.waiter.WaitDone? ==>
                  !start.removal.Untried?)
            && (Cleaning(start.waiter) || start.waiter.WaitDone? ==> !start.wait.Untried?)
            && (start.wait.Worked? ==> start.kill.Untried?)
  {
    RunKeepsInv(run, i);
    assert StartOk(run[i], h);
  }

  ghost predicate WaiterStep(s: State, s': State, h: Tid, ok: bool) {
    h in s.starts && s' == DoWaiter(s, h, ok)
  }

  /** After a wait that failed because of the deadline it goes on only once it has tried to stop the
      container; after one that failed otherwise it does not try that. */
  lemma DeadlineIsKilled(run: seq<State>, k: nat, n: nat, h: Tid, deadline: bool)
    requires IsRun(run) && k < n < |run| && h in run[k].starts && run[k].starts[h].waiter.WaitError?
    requires WaiterStep(run[k], run[k + 1], h, deadline)
    ensures h in run[n].starts && Killed(run[n].starts[h], deadline)
  {
    NotKilledYet(run, k, h);
    DeadlineGoesOn(run[k], run[k + 1], h, deadline);
    StaysKilled(run, k + 1, n, h, deadline);
  }

  lemma {:induction false} StaysKilled(run: seq<State>, m: nat, n: nat, h: Tid, deadline: bool)
    requires IsRun(run) && m <= n < |run| && h in run[m].starts && Killed(run[m].starts[h], deadline)
    ensures h in run[n].starts && Killed(run[n].starts[h], deadline)
  {
    if m < n {
      StaysKilled(run, m, n - 1, h, deadline);
      RunKeepsKill(run, n - 1, h, deadline);
    }
  }

  lemma RunKeepsKill(run: seq<State>, i: nat, h: Tid, deadline: bool)
    requires IsRun(run) && i + 1 < |run| && h in run[i].starts && Killed(run[i].starts[h], deadline)
    ensures h in run[i + 1].starts && Killed(run[i + 1].starts[h], deadline)
  {
    RunKeepsInv(run, i);
    assert Follows(run, i + 1);
    NextKeepsKill(run[i], run[i + 1], h, deadline);
  }

  /** About to be stopped after the deadline, or past the attempt; or past the wait without one. */
  predicate Killed(start: Start, deadline: bool) {
    && !start.waiter.NotSpawned?
    && if deadline then start.waiter.Kill? || (!AtWait(start.waiter) && !start.kill.Untried?)
       else !AtWait(start.waiter) && start.kill.Untried?
  }

  lemma NotKilledYet(run: seq<State>, i: nat, h: Tid)
    requires IsRun(run) && i < |run| && h in run[i].starts && AtWait(run[i].starts[h].waiter)
    ensures run[i].starts[h].kill.Untried?
  {
    RunKeepsInv(run, i);
    assert StartOk(run[i], h);
  }

  lemma DeadlineGoesOn(s: State, s': State, h: Tid, deadline: bool)
    requires h in s.starts && s.starts[h].waiter.WaitError? && s.starts[h].kill.Untried?
    requires WaiterStep(s, s', h, deadline)
    ensures h in s'.starts && Killed(s'.starts[h], deadline)
  {
  }

  lemma NextKeepsKill(s: State, s': State, h: Tid, deadline: bool)
    requires Inv(s) && Next(s, s') && h in s.starts
    requires Killed(s.starts[h], deadline)
    ensures h in s'.starts && Killed(s'.starts[h], deadline)
  {
    assert StartOk(s, h);
    if g, ok :| g in s.starts && s' == DoHandler(s, g, ok) {
      if g == h {
        HandlerKeepsKill(s, h, ok, deadline);
      } else {
        HandlerLeaves(s, g, ok, h);
      }
    } else if g, ok :| g in s.starts && s' == DoWaiter(s, g, ok) {
      if g == h {
        WaiterKeepsKill(s, h, ok, deadline);
      } else {
        WaiterLeaves(s, g, ok, h);
      }
    }
  }

  lemma HandlerKeepsKill(s: State, h: Tid, ok: bool, deadline: bool)
    requires h in s.starts && Ending(s.starts[h].pc) && Killed(s.starts[h], deadline)
    ensures h in DoHandler(s, h, ok).starts && Killed(DoHandler(s, h, ok).starts[h], deadline)
  {
    EndKeepsKill(s, h, ok);
  }

  lemma EndKeepsKill(s: State, h: Tid, ok: bool)
    requires h in s.starts && Ending(s.starts[h].pc)
    ensures var s' := DoEnd(s, h, ok);
            && h in s'.starts && s'.starts[h].waiter == s.starts[h].waiter && s'.starts[h].kill == s.starts[h].kill
  {
  }

  lemma KillIsTried(s: State, h: Tid, ok: bool, deadline: bool)
    requires h in s.starts && s.starts[h].waiter.Kill? && Killed(s.starts[h], deadline)
    ensures h in DoWait(s, h, ok).starts && Killed(DoWait(s, h, ok).starts[h], deadline)
  {
  }

  lemma RemoveKeepsKill(s: State, h: Tid, ok: bool, deadline: bool)
    requires h in s.starts && (s.starts[h].waiter.WaitRemove? || s.starts[h].waiter.WaitDrop?)
    requires Killed(s.starts[h], deadline)
    ensures h in DoCleanup(s, h, ok).starts && Killed(DoCleanup(s, h, ok).starts[h], deadline)
  {
  }

  lemma ForgetKeepsKill(s: State, h: Tid, ok: bool, deadline: bool)
    requires h in s.starts && s.starts[h].waiter.WaitSecrets? && Killed(s.starts[h], deadline)
    ensures h in DoCleanup(s, h, ok).starts && Killed(DoCleanup(s, h, ok).starts[h], deadline)
  {
  }

  lemma WaiterKeepsKill(s: State, h: Tid, ok: bool, deadline: bool)
    requires h in s.starts && Killed(s.starts[h], deadline)
    ensures h in DoWaiter(s, h, ok).starts && Killed(DoWaiter(s, h, ok).starts[h], deadline)
  {
    var waiter := s.starts[h].waiter;
    if waiter.Kill? {
      KillIsTried(s, h, ok, deadline);
    } else if waiter.WaitSecrets? {
      ForgetKeepsKill(s, h, ok, deadline);
    } else if Cleaning(waiter) {
      RemoveKeepsKill(s, h, ok, deadline);
    }
  }

  // ----- What the handler does about a failure -----

  /** Preparing goes on to creating, and does not spawn. */
  lemma DoPrepareGoes(s: State, h: Tid, ok: bool)
    requires h in s.starts && Preparing(s.starts[h].pc)
    ensures var s' := DoPrepare(s, h, ok);
            && h in s'.starts && s'.starts[h].waiter == s.starts[h].waiter
            && match s.starts[h].pc
               case MakeDir => s'.starts[h].pc.WriteFiles? || s'.starts[h].pc.Create?
               case WriteFiles(_) => s'.starts[h].pc.DropDir? || s'.starts[h].pc.Create?
               case DropDir(_) => s'.starts[h].pc.Create?
               case _ => true
  {
  }

  lemma DoStartGoes(s: State, h: Tid, ok: bool)
    requires h in s.starts && Starting(s.starts[h].pc)
    ensures h in DoStart(s, h, ok).starts && DoStart(s, h, ok).starts[h].waiter == s.starts[h].waiter
  {
  }

  lemma DoStopGoes(s: State, h: Tid, ok: bool)
    requires h in s.starts
    ensures var s' := DoStop(s, h, ok);
            h in s'.starts && (s'.starts[h].waiter == s.starts[h].waiter || (s.starts[h].pc.AddChat? && ok))
  {
  }

  lemma DoDiscardGoes(s: State, h: Tid)
    requires h in s.starts
    ensures h in DoDiscard(s, h).starts && DoDiscard(s, h).starts[h].waiter == s.starts[h].waiter
  {
  }

  lemma DoEndGoes(s: State, h: Tid, ok: bool)
    requires h in s.starts && Ending(s.starts[h].pc)
    ensures h in DoEnd(s, h, ok).starts && DoEnd(s, h, ok).starts[h].waiter == s.starts[h].waiter
  {
  }

  /** Only a tracked chat gets a wait goroutine. */
  lemma DoHandlerGoes(s: State, h: Tid, ok: bool)
    requires h in s.starts
    ensures var s' := DoHandler(s, h, ok);
            h in s'.starts && (s'.starts[h].waiter == s.starts[h].waiter || (s.starts[h].pc.AddChat? && ok))
  {
    var pc := s.starts[h].pc;
    if Preparing(pc) {
      DoPrepareGoes(s, h, ok);
    } else if Starting(pc) {
      DoStartGoes(s, h, ok);
    } else if Stopping(pc) {
      DoStopGoes(s, h, ok);
    } else if Discarding(pc) {
      DoDiscardGoes(s, h);
    } else {
      DoEndGoes(s, h, ok);
    }
  }

  /** The handler's part of the record. */
  predicate Rests(a: Start, b: Start) {
    b.pc == a.pc && b.stop == a.stop && b.forced == a.forced && (b.waiter.NotSpawned? <==> a.waiter.NotSpawned?)
  }

  lemma WaitRests(s: State, h: Tid, ok: bool)
    requires h in s.starts && (s.starts[h].waiter.WaitPop? || s.starts[h].waiter.Waiting?)
    ensures h in DoWait(s, h, ok).starts && Rests(s.starts[h], DoWait(s, h, ok).starts[h])
  {
  }

  lemma KillRests(s: State, h: Tid, ok: bool)
    requires h in s.starts && (s.starts[h].waiter.WaitError? || s.starts[h].waiter.Kill?)
    ensures h in DoWait(s, h, ok).starts && Rests(s.starts[h], DoWait(s, h, ok).starts[h])
  {
  }

  lemma RemoveRests(s: State, h: Tid, ok: bool)
    requires h in s.starts && (s.starts[h].waiter.WaitRemove? || s.starts[h].waiter.WaitDrop?)
    ensures h in DoCleanup(s, h, ok).starts && Rests(s.starts[h], DoCleanup(s, h, ok).starts[h])
  {
  }

  lemma ForgetRests(s: State, h: Tid, ok: bool)
    requires h in s.starts && s.starts[h].waiter.WaitSecrets?
    ensures h in DoCleanup(s, h, ok).starts && Rests(s.starts[h], DoCleanup(s, h, ok).starts[h])
  {
  }

  lemma DoWaiterRests(s: State, h: Tid, ok: bool)
    requires h in s.starts
    ensures h in DoWaiter(s, h, ok).starts && Rests(s.starts[h], DoWaiter(s, h, ok).starts[h])
  {
    var waiter := s.starts[h].waiter;
    if waiter.WaitPop? || waiter.Waiting? {
      WaitRests(s, h, ok);
    } else if AtWait(waiter) {
      KillRests(s, h, ok);
    } else if waiter.WaitSecrets? {
      ForgetRests(s, h, ok);
    } else if Cleaning(waiter) {
      RemoveRests(s, h, ok);
    }
  }

  /** Only the handler's own steps move it, and only the wait goroutine ends itself. */
  lemma NextMoves(s: State, s': State, h: Tid)
    requires Inv(s) && Next(s, s') && h in s.starts
    ensures h in s'.starts && (HandlerSteps(s, s', h) || Rests(s.starts[h], s'.starts[h]))
  {
    if g, ok :| g in s.starts && s' == DoHandler(s, g, ok) {
      if g == h {
        DoHandlerGoes(s, h, ok);
        assert HandlerStep(s, s', h, ok);
      } else {
        HandlerLeaves(s, g, ok, h);
      }
    } else if g, ok :| g in s.starts && s' == DoWaiter(s, g, ok) {
      if g == h {
        DoWaiterRests(s, h, ok);
      } else {
        WaiterLeaves(s, g, ok, h);
      }
    }
  }

  lemma HandlerLeaves(s: State, g: Tid, ok: bool, h: Tid)
    requires Inv(s) && g in s.starts && h in s.starts && g != h
    ensures h in DoHandler(s, g, ok).starts && DoHandler(s, g, ok).starts[h] == s.starts[h]
  {
    assert StartOk(s, g);
    HandlerKeeps(s, g, ok);
    assert Untouched(s, DoHandler(s, g, ok), h);
  }

  lemma WaiterLeaves(s: State, g: Tid, ok: bool, h: Tid)
    requires Inv(s) && g in s.starts && h in s.starts && g != h
    ensures h in DoWaiter(s, g, ok).starts && DoWaiter(s, g, ok).starts[h] == s.starts[h]
  {
    assert StartOk(s, g);
    WaiterKeeps(s, g, ok);
    assert Untouched(s, DoWaiter(s, g, ok), h);
  }

  ghost predicate HandlerStep(s: State, s': State, h: Tid, ok: bool) {
    h in s.starts && s' == DoHandler(s, h, ok)
  }

  ghost predicate HandlerSteps(s: State, s': State, h: Tid) {
    exists ok :: HandlerStep(s, s', h, ok)
  }

  lemma RunMoves(run: seq<State>, i: nat, h: Tid)
    requires IsRun(run) && i + 1 < |run| && h in run[i].starts
    ensures h in run[i + 1].starts
    ensures HandlerSteps(run[i], run[i + 1], h) || Rests(run[i].starts[h], run[i + 1].starts[h])
  {
    RunKeepsInv(run, i);
    assert Follows(run, i + 1);
    NextMoves(run[i], run[i + 1], h);
  }

  /** A chat that the tracker refuses is rolled back: no wait goroutine, and the handler does not
      return before it has made both calls of Manager.Stop and removed the directory. */
  lemma {:induction false} RefusedIsRolledBack(run: seq<State>, k: nat, n: nat, h: Tid)
    requires IsRun(run) && k < n < |run| && h in run[k].starts && run[k].starts[h].pc.AddChat?
    requires HandlerStep(run[k], run[k + 1], h, false)
    ensures h in run[n].starts && run[n].starts[h].waiter.NotSpawned? && RollsBack(run[n].starts[h].pc)
    ensures run[n].starts[h].pc.Returned? ==>
              && !run[n].starts[h].stop.Untried? && !run[n].starts[h].forced.Untried?
              && (h in run[n].dirs ==> run[n].dirs[h] == 1)
  {
    RunKeepsInv(run, n - 1);
    assert StartOk(run[n - 1], h);
    if k < n - 1 {
      RefusedIsRolledBack(run, k, n - 1, h);
      RunMoves(run, n - 1, h);
      var s, s' := run[n - 1], run[n];
      if ok :| HandlerStep(s, s', h, ok) {
        DoHandlerGoes(run[n - 1], h, ok);
        RollbackGoesOn(run[n - 1], h, ok);
      }
    }
    RunKeepsInv(run, n);
    assert StartOk(run[n], h);
  }

  predicate RollsBack(pc: Pc) {
    !pc.AddChat? && (Stopping(pc) || Discarding(pc) || pc.Returned?)
  }

  lemma StoppingGoesOn(s: State, h: Tid, ok: bool)
    requires h in s.starts && Stopping(s.starts[h].pc) && !s.starts[h].pc.AddChat?
    ensures h in DoStop(s, h, ok).starts && RollsBack(DoStop(s, h, ok).starts[h].pc)
  {
  }

  lemma DiscardingGoesOn(s: State, h: Tid)
    requires h in s.starts && Discarding(s.starts[h].pc)
    ensures h in DoDiscard(s, h).starts && RollsBack(DoDiscard(s, h).starts[h].pc)
  {
  }

  lemma RollbackGoesOn(s: State, h: Tid, ok: bool)
    requires h in s.starts && RollsBack(s.starts[h].pc)
    ensures h in DoHandler(s, h, ok).starts && RollsBack(DoHandler(s, h, ok).starts[h].pc)
  {
    if Stopping(s.starts[h].pc) {
      StoppingGoesOn(s, h, ok);
    } else if Discarding(s.starts[h].pc) {
      DiscardingGoesOn(s, h);
    }
  }

  /** One that it accepts is waited for. */
  lemma {:induction false} TrackedIsWaitedFor(run: seq<State>, k: nat, n: nat, h: Tid)
    requires IsRun(run) && k < n < |run| && h in run[k].starts && run[k].starts[h].pc.AddChat?
    requires HandlerStep(run[k], run[k + 1], h, true)
    ensures h in run[n].starts && !run[n].starts[h].waiter.NotSpawned? && Ending(run[n].starts[h].pc)
  {
    RunKeepsInv(run, n - 1);
    assert StartOk(run[n - 1], h);
    if k < n - 1 {
      TrackedIsWaitedFor(run, k, n - 1, h);
      RunMoves(run, n - 1, h);
      var s, s' := run[n - 1], run[n];
      if ok :| HandlerStep(s, s', h, ok) {
        DoHandlerGoes(run[n - 1], h, ok);
      }
    }
    RunKeepsInv(run, n);
    assert StartOk(run[n], h);
  }

  /** And if stdin cannot be attached the handler returns only after both calls of Manager.Stop. */
  lemma {:induction false} UnattachedIsStopped(run: seq<State>, k: nat, n: nat, h: Tid)
    requires IsRun(run) && k < n < |run| && h in run[k].starts && run[k].starts[h].pc.Attach?
    requires HandlerStep(run[k], run[k + 1], h, false)
    ensures h in run[n].starts
    ensures var start := run[n].starts[h];
            || start.pc.StopDetached? || (start.pc.RemoveDetached? && !start.stop.Untried?)
            || (start.pc.Returned? && !start.stop.Untried? && !start.forced.Untried?)
  {
    if k < n - 1 {
      UnattachedIsStopped(run, k, n - 1, h);
      RunMoves(run, n - 1, h);
      var s, s' := run[n - 1], run[n];
      if ok :| HandlerStep(s, s', h, ok) {
        DetachedGoesOn(run[n - 1], h, ok);
      }
    }
  }

  lemma DetachedGoesOn(s: State, h: Tid, ok: bool)
    requires h in s.starts
    requires s.starts[h].pc.StopDetached? || s.starts[h].pc.RemoveDetached? || s.starts[h].pc.Returned?
    ensures var start, start' := s.starts[h], DoHandler(s, h, ok).starts[h];
            match start.pc
            case StopDetached => start'.pc.RemoveDetached? && !start'.stop.Untried?
            case RemoveDetached => start'.pc.Returned? && start'.stop == start.stop && !start'.forced.Untried?
            case _ => start' == start
  {
  }

  /** A preparation that fails does not fail the start: it goes on to create the container. */
  lemma PreparationIsNotFatal(run: seq<State>, i: nat, h: Tid)
    requires IsRun(run) && i + 1 < |run| && h in run[i].starts
    requires var pc := run[i].starts[h].pc; pc.MakeDir? || pc.WriteFiles? || pc.DropDir?
    ensures h in run[i + 1].starts
    ensures var pc := run[i + 1].starts[h].pc; pc.MakeDir? || pc.WriteFiles? || pc.DropDir? || pc.Create?
  {
    RunKeepsInv(run, i);
    assert StartOk(run[i], h);
    RunMoves(run, i, h);
    var s, s' := run[i], run[i + 1];
    if ok :| HandlerStep(s, s', h, ok) {
      DoPrepareGoes(s, h, ok);
    }
  }

  // ----- Runs that get there -----

  lemma Extend(run: seq<State>, s': State)
    requires IsRun(run) && Next(run[|run| - 1], s')
    ensures IsRun(run + [s'])
  {
    var longer := run + [s'];
    forall i | 0 < i < |longer| ensures Follows(longer, i) {
      if i < |run| {
        assert Follows(run, i);
      }
    }
  }

  lemma ThenHandler(run: seq<State>, ok: bool) returns (longer: seq<State>)
    requires IsRun(run) && 0 in run[|run| - 1].starts
    ensures IsRun(longer) && longer[|longer| - 1] == DoHandler(run[|run| - 1], 0, ok)
  {
    longer := run + [DoHandler(run[|run| - 1], 0, ok)];
    Extend(run, longer[|run|]);
  }

  lemma ThenWaiter(run: seq<State>, ok: bool) returns (longer: seq<State>)
    requires IsRun(run) && 0 in run[|run| - 1].starts
    ensures IsRun(longer) && longer[|longer| - 1] == DoWaiter(run[|run| - 1], 0, ok)
  {
    longer := run + [DoWaiter(run[|run| - 1], 0, ok)];
    Extend(run, longer[|run|]);
  }

  /** Start 0 at AddChat, its directory mounted into a running container. */
  predicate StartedState(s: State) {
    && 0 in s.starts && 0 in s.dirs && s.dirs[0] == 0 && 0 in s.chatCleanup && s.chatCleanup[0] == Some(0)
    && s.starts[0] == Start(true, AddChat, NotSpawned, true, true, true, Untried, Untried, Untried, Untried, Untried)
  }

  lemma ReachCreated() returns (run: seq<State>)
    ensures IsRun(run) && 0 in run[|run| - 1].starts
    ensures var s := run[|run| - 1];
            && s.starts[0] == Start(true, StartContainer(Some(0)), NotSpawned, true, false, false,
                                    Untried, Untried, Untried, Untried, Untried)
            && 0 in s.dirs && s.dirs[0] == 0
  {
    run := [Init, Call(Init, 0, true)];
    assert Follows(run, 1);
    run := ThenHandler(run, true);
    run := ThenHandler(run, true);
    run := ThenHandler(run, true);
    run := ThenHandler(run, true);
  }

  lemma ReachStarted() returns (run: seq<State>)
    ensures IsRun(run) && StartedState(run[|run| - 1])
  {
    run := ReachCreated();
    run := ThenHandler(run, true);
    run := ThenHandler(run, true);
    run := ThenHandler(run, true);
  }

  /** The chat cannot be tracked and Manager.Stop makes its two calls. */
  lemma ReachStopped(stopped: bool, removed: bool) returns (run: seq<State>)
    ensures IsRun(run) && 0 in run[|run| - 1].starts
    ensures var s := run[|run| - 1];
            && s.starts[0] == Start(true, PopCleanup, NotSpawned, true, true, !stopped && !removed,
                                    Tried(stopped), Tried(removed), Untried, Untried, Untried)
            && 0 in s.dirs && s.dirs[0] == 0 && 0 in s.chatCleanup && s.chatCleanup[0] == Some(0)
  {
    run := ReachStarted();
    run := ThenHandler(run, false);
    run := ThenHandler(run, stopped);
    run := ThenHandler(run, removed);
  }

  /** And the delivery is discarded. */
  lemma ReachRolledBack(stopped: bool, removed: bool) returns (run: seq<State>)
    ensures IsRun(run) && 0 in run[|run| - 1].starts
    ensures var s := run[|run| - 1];
            && s.starts[0] == Start(true, Returned, NotSpawned, true, true, !stopped && !removed,
                                    Tried(stopped), Tried(removed), Untried, Untried, Untried)
            && 0 in s.dirs && s.dirs[0] == 1
  {
    run := ReachStopped(stopped, removed);
    run := ThenHandler(run, true);
    run := ThenHandler(run, true);
    run := ThenHandler(run, true);
  }

  /** Docker answers neither call: the directory is removed under a running container. */
  lemma RollbackRemovesUnderContainer() returns (run: seq<State>)
    ensures IsRun(run) && 0 in run[|run| - 1].starts
    ensures RemovedUnderContainer(run[|run| - 1], 0) && run[|run| - 1].starts[0].runs
  {
    run := ReachRolledBack(false, false);
  }

  /** The stop takes too long and the forced removal works: Manager.Stop reports an error, yet
      the container is gone. */
  lemma FailedStopIsNotEnough() returns (run: seq<State>)
    ensures IsRun(run) && 0 in run[|run| - 1].starts
    ensures var start := run[|run| - 1].starts[0];
            start.pc.Returned? && start.mounted && start.stop.Failed? && !start.MayRun()
    ensures !RemovedUnderContainer(run[|run| - 1], 0)
  {
    run := ReachRolledBack(false, true);
  }

  /** The attach fails, and so do both calls of Manager.Stop. */
  lemma ReachDetached() returns (run: seq<State>)
    ensures IsRun(run) && 0 in run[|run| - 1].starts
    ensures var s := run[|run| - 1];
            && s.starts[0] == Start(true, Returned, WaitPop, true, true, true,
                                    Failed, Failed, Untried, Untried, Untried)
            && 0 in s.dirs && s.dirs[0] == 0 && 0 in s.chatCleanup && s.chatCleanup[0] == Some(0)
  {
    run := ReachStarted();
    run := ThenHandler(run, true);
    run := ThenHandler(run, false);
    run := ThenHandler(run, false);
    run := ThenHandler(run, false);
  }

  /** After the deadline neither the kill nor the removal works, and the attach had failed and
      neither of its two calls worked. */
  lemma WaitRemovesUnderContainer() returns (run: seq<State>)
    ensures IsRun(run) && 0 in run[|run| - 1].starts
    ensures RemovedUnderContainer(run[|run| - 1], 0) && run[|run| - 1].starts[0].runs
    ensures run[|run| - 1].starts[0].waiter.WaitSecrets?
  {
    run := ReachDetached();
    run := ThenWaiter(run, true);
    run := ThenWaiter(run, false);
    run := ThenWaiter(run, true);
    run := ThenWaiter(run, false);
    run := ThenWaiter(run, false);
    run := ThenWaiter(run, true);
  }
}
