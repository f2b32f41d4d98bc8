/** internal/tracker/tracker.go: where a call of StdinProtocol can be, by what it found when it looked
    its key up, and that every step of its own or of others leaves it there. */
module StdinSteps {
  import opened Prelude
  import opened StdinProtocol

  predicate UsesStdin(op: Op) {
    op.WriteStdin? || op.CloseStdin? || op.MarkStdinClosed?
  }

  /** Where a call on an attached stdin can be. */
  predicate AtStdin(pc: Pc, e: EntryId, op: Op) {
    || pc == Lock(e, op) || pc == Held(e, op)
    || (op.WriteStdin? && pc.Writing? && pc.e == e)
    || (op.CloseStdin? && (pc.Closing? || pc.Closed?) && pc.e == e && pc.op == op)
    || (!op.MarkStdinClosed? && pc == Done(StdinClosed))
    || pc == Done(Finished)
  }

  predicate Cancels(thread: Thread, e: EntryId) {
    || (thread.pc == Cancelling(e) && thread.cancelled == [])
    || (thread.pc == Done(Finished) && thread.cancelled == [e])
  }

  predicate CallsCancel(op: Op) {
    op.Cancel? || op.CancelWithReason? || op.Remove?
  }

  /** Where a call can be that did not find its key. */
  predicate Missed(thread: Thread) {
    && thread.cancelled == []
    && match thread.op
       case Add => thread.pc == Done(Finished)
       case SetStdin => thread.pc.LateClose? || thread.pc.LateOnClose? || thread.pc.LateDone?
       case _ => thread.pc == Done(NotTracked)
  }

  predicate Attaches(thread: Thread, e: EntryId) {
    var pc := thread.pc;
    && thread.cancelled == []
    && (pc == Lock(e, SetStdin) || pc == Held(e, SetStdin) || pc == Attached(e) || pc == Done(Finished))
  }

  predicate Removes(thread: Thread, e: EntryId) {
    && IsRemover(thread.pc) && thread.pc.e == e
    && thread.cancelled == if thread.pc.RunCancel? then [] else [e]
  }

  /** And one that found entry e, to which somebody had attached or not. */
  predicate Found(thread: Thread, e: EntryId, attached: bool) {
    match thread.op
    case Add => thread.pc == Done(AlreadyTracked) && thread.cancelled == []
    case SetStdin => Attaches(thread, e)
    case Cancel => Cancels(thread, e)
    case CancelWithReason => Cancels(thread, e)
    case Remove => Removes(thread, e)
    case _ =>
      && thread.cancelled == []
      && if attached then AtStdin(thread.pc, e, thread.op) else thread.pc == Done(NoStdinAttached)
  }

  /** Where a call can be that looked its key up in state s. */
  predicate Decided(s: State, thread: Thread) {
    if thread.key !in s.containers then Missed(thread)
    else
      var e := s.containers[thread.key];
      Found(thread, e, e !in s.entries || s.entries[e].current.Some?)
  }

  predicate Starting(thread: Thread) {
    && (thread.pc == Wait(thread.key, thread.op) || thread.pc == In(thread.key, thread.op))
    && thread.cancelled == []
  }

  /** What never changes of a thread, and what never goes back. */
  predicate SameCall(a: Thread, b: Thread) {
    && b.key == a.key && b.op == a.op && (a.marked ==> b.marked) && b.closes >= a.closes
    && (a.home.Some? ==> b.home == a.home)
  }

  predicate StaysPut(a: Thread, b: Thread) {
    b.pc == a.pc && b.wrote == a.wrote && b.cancelled == a.cancelled
  }

  lemma StepMisses(s: State, t: Tid)
    requires t in s.threads && Enabled(s, t) && Named(s, t) && s.threads[t].pc == In(s.threads[t].key, s.threads[t].op)
    requires s.threads[t].cancelled == []
    requires s.threads[t].key !in s.containers
    ensures var s' := Do(s, t); t in s'.threads && Missed(s'.threads[t]) && SameCall(s.threads[t], s'.threads[t])
  {
  }

  lemma StepFindsStdin(s: State, t: Tid)
    requires t in s.threads && Enabled(s, t) && Named(s, t) && s.threads[t].pc == In(s.threads[t].key, s.threads[t].op)
    requires s.threads[t].cancelled == []
    requires s.threads[t].key in s.containers && UsesStdin(s.threads[t].op)
    ensures var s', e := Do(s, t), s.containers[s.threads[t].key];
            && t in s'.threads && SameCall(s.threads[t], s'.threads[t])
            && Found(s'.threads[t], e, s.entries[e].current.Some?)
  {
  }

  lemma StepFinds(s: State, t: Tid)
    requires t in s.threads && Enabled(s, t) && Named(s, t) && s.threads[t].pc == In(s.threads[t].key, s.threads[t].op)
    requires s.threads[t].cancelled == []
    requires s.threads[t].key in s.containers && !UsesStdin(s.threads[t].op)
    ensures var s', e := Do(s, t), s.containers[s.threads[t].key];
            && t in s'.threads && SameCall(s.threads[t], s'.threads[t])
            && Found(s'.threads[t], e, s.entries[e].current.Some?)
  {
  }

  lemma StepLooksUp(s: State, t: Tid)
    requires t in s.threads && Enabled(s, t) && Named(s, t) && s.threads[t].pc == In(s.threads[t].key, s.threads[t].op)
    requires s.threads[t].cancelled == []
    ensures t in Do(s, t).threads && Decided(s, Do(s, t).threads[t])
  {
    if s.threads[t].key !in s.containers {
      StepMisses(s, t);
    } else if UsesStdin(s.threads[t].op) {
      StepFindsStdin(s, t);
    } else {
      StepFinds(s, t);
    }
  }

  lemma LookupChangesMap(s: State, t: Tid)
    requires t in s.threads && Enabled(s, t) && Named(s, t) && s.threads[t].pc.In?
    ensures var key, op := s.threads[t].pc.key, s.threads[t].pc.op;
            Do(s, t).containers == if op.Add? && key !in s.containers then s.containers[key := t]
                                   else if op.Remove? then s.containers - {key} else s.containers
  {
  }

  lemma StepStaysMissed(s: State, t: Tid)
    requires t in s.threads && Enabled(s, t) && Named(s, t) && Missed(s.threads[t])
    ensures var s' := Do(s, t); t in s'.threads && Missed(s'.threads[t]) && SameCall(s.threads[t], s'.threads[t])
  {
  }

  lemma StepStaysCancelling(s: State, t: Tid, e: EntryId)
    requires t in s.threads && Enabled(s, t) && Named(s, t) && Cancels(s.threads[t], e)
    ensures var s' := Do(s, t); t in s'.threads && Cancels(s'.threads[t], e) && SameCall(s.threads[t], s'.threads[t])
  {
  }

  lemma StepStaysAttaching(s: State, t: Tid, e: EntryId)
    requires t in s.threads && Enabled(s, t) && Named(s, t) && Attaches(s.threads[t], e)
    requires s.threads[t].pc.Held? ==> s.threads[t].home.None?
    ensures var s' := Do(s, t); t in s'.threads && Attaches(s'.threads[t], e) && SameCall(s.threads[t], s'.threads[t])
  {
  }

  lemma HeldStaysRemoving(s: State, t: Tid, e: EntryId)
    requires t in s.threads && Enabled(s, t) && Named(s, t) && Removes(s.threads[t], e)
    requires s.threads[t].pc.Held? || s.threads[t].pc.RunCancel? || s.threads[t].pc.Lock?
    ensures var s' := Do(s, t); t in s'.threads && Removes(s'.threads[t], e) && SameCall(s.threads[t], s'.threads[t])
  {
  }

  lemma StepStaysRemoving(s: State, t: Tid, e: EntryId)
    requires t in s.threads && Enabled(s, t) && Named(s, t) && Removes(s.threads[t], e)
    ensures var s' := Do(s, t); t in s'.threads && Removes(s'.threads[t], e) && SameCall(s.threads[t], s'.threads[t])
  {
    if s.threads[t].pc.Held? || s.threads[t].pc.RunCancel? || s.threads[t].pc.Lock? {
      HeldStaysRemoving(s, t, e);
    }
  }

  lemma HeldStaysAtStdin(s: State, t: Tid, e: EntryId, op: Op)
    requires t in s.threads && Enabled(s, t) && Named(s, t) && UsesStdin(op) && s.threads[t].pc == Held(e, op)
    ensures var s' := Do(s, t);
            && t in s'.threads && AtStdin(s'.threads[t].pc, e, op)
            && s'.threads[t].cancelled == s.threads[t].cancelled && SameCall(s.threads[t], s'.threads[t])
  {
  }

  lemma StepStaysAtStdin(s: State, t: Tid, e: EntryId, op: Op)
    requires t in s.threads && Enabled(s, t) && Named(s, t) && UsesStdin(op) && AtStdin(s.threads[t].pc, e, op)
    ensures var s' := Do(s, t);
            && t in s'.threads && AtStdin(s'.threads[t].pc, e, op)
            && s'.threads[t].cancelled == s.threads[t].cancelled && SameCall(s.threads[t], s'.threads[t])
  {
    if s.threads[t].pc.Held? {
      HeldStaysAtStdin(s, t, e, op);
    }
  }

  lemma StepStaysFound(s: State, t: Tid, e: EntryId, attached: bool)
    requires t in s.threads && Enabled(s, t) && Named(s, t) && Found(s.threads[t], e, attached)
    requires s.threads[t].pc.Held? && s.threads[t].pc.op.SetStdin? ==> s.threads[t].home.None?
    ensures t in Do(s, t).threads && Found(Do(s, t).threads[t], e, attached)
  {
    match s.threads[t].op
    case Add =>
    case SetStdin => StepStaysAttaching(s, t, e);
    case Cancel => StepStaysCancelling(s, t, e);
    case CancelWithReason => StepStaysCancelling(s, t, e);
    case Remove => StepStaysRemoving(s, t, e);
    case _ =>
      if attached {
        StepStaysAtStdin(s, t, e, s.threads[t].op);
      }
  }

  lemma StepStaysDecided(s: State, t: Tid, look: State)
    requires t in s.threads && Enabled(s, t) && Named(s, t) && Decided(look, s.threads[t])
    requires s.threads[t].pc.Held? && s.threads[t].pc.op.SetStdin? ==> s.threads[t].home.None?
    ensures t in Do(s, t).threads && Decided(look, Do(s, t).threads[t])
  {
    var thread := s.threads[t];
    StepKeepsCalls(s, t, t);
    if thread.key !in look.containers {
      StepStaysMissed(s, t);
    } else {
      var e := look.containers[thread.key];
      StepStaysFound(s, t, e, e !in look.entries || look.entries[e].current.Some?);
    }
  }

  /** Most steps change their own thread only. */
  predicate OnlyOwn(s: State, s': State, t: Tid)
    requires t in s.threads
  {
    t in s'.threads && s'.threads == s.threads[t := s'.threads[t]] && SameCall(s.threads[t], s'.threads[t])
  }

  lemma OwnKeepsCalls(s: State, s': State, t: Tid, u: Tid)
    requires t in s.threads && u in s.threads && OnlyOwn(s, s', t)
    ensures u in s'.threads && SameCall(s.threads[u], s'.threads[u])
    ensures u != t ==> StaysPut(s.threads[u], s'.threads[u])
  {
  }

  lemma LookupForWritingIsOwn(s: State, t: Tid)
    requires t in s.threads && Enabled(s, t) && Named(s, t) && s.threads[t].pc.In? && Writes(s.threads[t].pc.op)
    ensures OnlyOwn(s, Do(s, t), t)
  {
  }

  lemma LookupForReadingIsOwn(s: State, t: Tid)
    requires t in s.threads && Enabled(s, t) && Named(s, t) && s.threads[t].pc.In? && !Writes(s.threads[t].pc.op)
    ensures OnlyOwn(s, Do(s, t), t)
  {
  }

  lemma RestIsOwn(s: State, t: Tid)
    requires t in s.threads && Enabled(s, t) && Named(s, t)
    requires var pc := s.threads[t].pc; !pc.In? && !pc.Held? && !pc.Closing? && !pc.RunOnClose?
    ensures OnlyOwn(s, Do(s, t), t)
  {
  }

  lemma HeldIsOwn(s: State, t: Tid)
    requires t in s.threads && Enabled(s, t) && Named(s, t) && s.threads[t].pc.Held?
    requires var op := s.threads[t].pc.op; !op.SetStdin? && !op.MarkStdinClosed?
    ensures OnlyOwn(s, Do(s, t), t)
  {
  }

  lemma MarkKeepsCalls(s: State, t: Tid, u: Tid)
    requires t in s.threads && Enabled(s, t) && Named(s, t) && u in s.threads && s.threads[t].pc.Held?
    requires s.threads[t].pc.op.MarkStdinClosed?
    ensures u in Do(s, t).threads && SameCall(s.threads[u], Do(s, t).threads[u])
    ensures u != t ==> StaysPut(s.threads[u], Do(s, t).threads[u])
  {
  }

  lemma AttachKeepsCalls(s: State, t: Tid, u: Tid)
    requires t in s.threads && Enabled(s, t) && Named(s, t) && u in s.threads && s.threads[t].pc.Held?
    requires s.threads[t].pc.op.SetStdin? && s.threads[t].home.None?
    ensures u in Do(s, t).threads && SameCall(s.threads[u], Do(s, t).threads[u])
    ensures u != t ==> StaysPut(s.threads[u], Do(s, t).threads[u])
  {
  }

  lemma CallbackKeepsCalls(s: State, t: Tid, u: Tid)
    requires t in s.threads && Enabled(s, t) && Named(s, t) && u in s.threads
    requires s.threads[t].pc.Closing? || s.threads[t].pc.RunOnClose?
    ensures u in Do(s, t).threads && SameCall(s.threads[u], Do(s, t).threads[u])
    ensures u != t ==> StaysPut(s.threads[u], Do(s, t).threads[u])
  {
  }

  lemma StepKeepsCalls(s: State, t: Tid, u: Tid)
    requires t in s.threads && Enabled(s, t) && Named(s, t) && u in s.threads
    requires s.threads[t].pc.Held? && s.threads[t].pc.op.SetStdin? ==> s.threads[t].home.None?
    ensures u in Do(s, t).threads && SameCall(s.threads[u], Do(s, t).threads[u])
    ensures u != t ==> StaysPut(s.threads[u], Do(s, t).threads[u])
  {
    var pc := s.threads[t].pc;
    if pc.In? {
      if Writes(pc.op) { LookupForWritingIsOwn(s, t); } else { LookupForReadingIsOwn(s, t); }
      OwnKeepsCalls(s, Do(s, t), t, u);
    } else if pc.Held? && pc.op.SetStdin? {
      AttachKeepsCalls(s, t, u);
    } else if pc.Held? && pc.op.MarkStdinClosed? {
      MarkKeepsCalls(s, t, u);
    } else if pc.Held? {
      HeldIsOwn(s, t);
      OwnKeepsCalls(s, Do(s, t), t, u);
    } else if pc.Closing? || pc.RunOnClose? {
      CallbackKeepsCalls(s, t, u);
    } else {
      RestIsOwn(s, t);
      OwnKeepsCalls(s, Do(s, t), t, u);
    }
  }

  /** Another thread's step, or a new call, leaves a thread where it is. */
  lemma NextKeeps(s: State, s': State, u: Tid)
    requires Inv(s) && Next(s, s') && u in s.threads
    ensures u in s'.threads && SameCall(s.threads[u], s'.threads[u])
    ensures StepsAlone(s, s', u) || StaysPut(s.threads[u], s'.threads[u])
  {
    if t :| t in s.threads && Enabled(s, t) && Named(s, t) && s' == Do(s, t) {
      assert WriterOk(s, t);
      StepKeepsCalls(s, t, u);
    }
  }

  /** The step is u's own. */
  ghost predicate StepsAlone(s: State, s': State, u: Tid) {
    u in s.threads && Enabled(s, u) && Named(s, u) && s' == Do(s, u)
  }

  lemma RunKeeps(run: seq<State>, i: nat, u: Tid)
    requires IsRun(run) && i + 1 < |run| && u in run[i].threads
    ensures u in run[i + 1].threads && SameCall(run[i].threads[u], run[i + 1].threads[u])
    ensures StepsAlone(run[i], run[i + 1], u) || StaysPut(run[i].threads[u], run[i + 1].threads[u])
  {
    RunKeepsInv(run, i);
    assert Follows(run, i + 1);
    NextKeeps(run[i], run[i + 1], u);
  }

  lemma NewIsStarting(run: seq<State>, i: nat, u: Tid)
    requires IsRun(run) && i < |run| && u in run[i].threads && (i == 0 || u !in run[i - 1].threads)
    ensures i > 0 && Starting(run[i].threads[u]) && run[i].threads[u].wrote == []
  {
    if i > 0 {
      assert Follows(run, i);
      NewIsCalled(run[i - 1], run[i], u);
    }
  }

  lemma NewIsCalled(s: State, s': State, u: Tid)
    requires Next(s, s') && u !in s.threads && u in s'.threads
    ensures Starting(s'.threads[u]) && s'.threads[u].wrote == []
  {
    if t :| t in s.threads && Enabled(s, t) && Named(s, t) && s' == Do(s, t) {
      NobodyCalls(s, t, u);
    }
  }

  lemma NobodyCalls(s: State, t: Tid, u: Tid)
    requires t in s.threads && Enabled(s, t) && Named(s, t)
    requires s.threads[t].pc.Held? ==>
               var e := s.threads[t].pc.e;
               e in s.entries && (s.entries[e].current.Some? ==> s.entries[e].current.value in s.threads)
    ensures u in Do(s, t).threads ==> u in s.threads
  {
  }
}
