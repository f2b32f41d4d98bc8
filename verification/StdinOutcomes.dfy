/** internal/tracker/tracker.go: what the calls of StdinProtocol answer, over every interleaving.

    A call looks its key up once, under tracker.mu, and a call on stdin looks at the writer once,
    under stdin.mu; its answer says what it found there. */
module StdinOutcomes {
  import opened Prelude
  import opened StdinProtocol
  import opened StdinGuarantees
  import opened StdinSteps

  // ----- Over a run -----

  lemma {:induction false} CallStays(run: seq<State>, i: nat, j: nat, u: Tid)
    requires IsRun(run) && i <= j < |run| && u in run[i].threads
    ensures u in run[j].threads && SameCall(run[i].threads[u], run[j].threads[u])
  {
    if i < j {
      CallStays(run, i, j - 1, u);
      RunKeeps(run, j - 1, u);
    }
  }

  /** Step j is the one at which the call looked its key up. */
  ghost predicate LooksUpAt(run: seq<State>, j: nat, t: Tid) {
    && j + 1 < |run| && t in run[j].threads && StepsAlone(run[j], run[j + 1], t)
    && run[j].threads[t].pc == In(run[j].threads[t].key, run[j].threads[t].op) && run[j].threads[t].cancelled == []
  }

  lemma HasNoHomeYet(run: seq<State>, i: nat, t: Tid)
    requires IsRun(run) && i < |run| && t in run[i].threads
    ensures run[i].threads[t].pc.Held? && run[i].threads[t].pc.op.SetStdin? ==> run[i].threads[t].home.None?
  {
    RunKeepsInv(run, i);
    assert WriterOk(run[i], t);
  }

  lemma {:induction false} LookedUp(run: seq<State>, i: nat, t: Tid) returns (j: nat)
    requires IsRun(run) && i < |run| && t in run[i].threads
    ensures Starting(run[i].threads[t]) || (j < i && LooksUpAt(run, j, t) && Decided(run[j], run[i].threads[t]))
  {
    j := 0;
    if i == 0 || t !in run[i - 1].threads {
      NewIsStarting(run, i, t);
    } else {
      RunKeeps(run, i - 1, t);
      j := LookedUp(run, i - 1, t);
      if StepsAlone(run[i - 1], run[i], t) {
        if Starting(run[i - 1].threads[t]) {
          if run[i - 1].threads[t].pc.In? {
            j := i - 1;
            StepLooksUp(run[i - 1], t);
          }
        } else {
          HasNoHomeYet(run, i - 1, t);
          StepStaysDecided(run[i - 1], t, run[j]);
        }
      }
    }
  }

  lemma {:induction false} StaysDecided(run: seq<State>, i: nat, n: nat, t: Tid, look: State)
    requires IsRun(run) && i <= n < |run| && t in run[i].threads && Decided(look, run[i].threads[t])
    ensures t in run[n].threads && Decided(look, run[n].threads[t])
  {
    if i < n {
      StaysDecided(run, i, n - 1, t, look);
      RunKeeps(run, n - 1, t);
      if StepsAlone(run[n - 1], run[n], t) {
        HasNoHomeYet(run, n - 1, t);
        StepStaysDecided(run[n - 1], t, look);
      }
    }
  }

  lemma NeverAttachedExactly(s: State, e: EntryId)
    requires Inv(s) && e in s.entries
    ensures NeverAttached(s, e) <==> s.entries[e].current.None?
  {
    assert EntryOk(s, e);
    if s.entries[e].current.None? {
      forall w | w in s.threads ensures s.threads[w].home != Some(e) {
        assert WriterOk(s, w);
      }
    }
  }

  predicate Over(pc: Pc) {
    pc.Done? || pc.LateDone? || pc.Removed?
  }

  /** What a call answers, by what was there at its lookup. */
  ghost predicate AnswersBy(s: State, call: Thread) {
    var found := call.key in s.containers;
    && (call.pc == Done(NotTracked) <==> !found && !call.op.Add? && !call.op.SetStdin?)
    && (call.pc == Done(AlreadyTracked) <==> found && call.op.Add?)
    && (call.pc.LateDone? <==> !found && call.op.SetStdin?)
    && (call.pc.Removed? <==> found && call.op.Remove?)
    && (call.pc == Done(NoStdinAttached) <==>
          found && UsesStdin(call.op) && NeverAttached(s, s.containers[call.key]))
    && (call.pc == Done(StdinClosed) ==> found && (call.op.WriteStdin? || call.op.CloseStdin?))
    && call.cancelled == (if found && CallsCancel(call.op) then [s.containers[call.key]] else [])
  }

  lemma DecidedAnswers(s: State, call: Thread)
    requires Decided(s, call) && Over(call.pc)
    requires call.key in s.containers ==>
               var e := s.containers[call.key]; e in s.entries && (NeverAttached(s, e) <==> s.entries[e].current.None?)
    ensures AnswersBy(s, call)
  {
  }

  /** Every call that is over answers exactly what it found when it looked its key up, has called
      the cancel function it found there, once, if that is its job, and has changed the tracker's
      map there if that is. */
  lemma CallAnswers(run: seq<State>, i: nat, t: Tid) returns (j: nat)
    requires IsRun(run) && i < |run| && t in run[i].threads && Over(run[i].threads[t].pc)
    ensures j < i && t in run[j].threads && run[j].threads[t].pc.In?
    ensures t in run[j + 1].threads && !run[j + 1].threads[t].pc.In?
    ensures AnswersBy(run[j], run[i].threads[t])
    ensures var before, call := run[j].containers, run[i].threads[t];
            run[j + 1].containers == if call.op.Add? && call.key !in before then before[call.key := t]
                                     else if call.op.Remove? then before - {call.key} else before
  {
    j := LookedUp(run, i, t);
    CallStays(run, j, i, t);
    StepLooksUp(run[j], t);
    LookupChangesMap(run[j], t);
    var s, key := run[j], run[i].threads[t].key;
    if key in s.containers {
      RunKeepsInv(run, j);
      NeverAttachedExactly(s, s.containers[key]);
    }
    DecidedAnswers(s, run[i].threads[t]);
  }

  // ----- Calls on an attached stdin -----

  /** Where a call can be that found this writer, or none, under stdin.mu. */
  ghost predicate Acted(s: State, t: Tid, e: EntryId, writer: Option<Writer>)
    requires t in s.threads
  {
    var call := s.threads[t];
    && (writer.Some? ==> writer.value in s.threads)
    && match call.op
       case WriteStdin =>
         if writer.None? then call.pc == Done(StdinClosed) && call.wrote == []
         else
           || (call.pc == Writing(e, writer.value) && call.wrote == [])
           || (call.pc == Done(Finished) && call.wrote == [writer.value])
       case CloseStdin =>
         && call.wrote == []
         && if writer.None? then call.pc == Done(StdinClosed)
            else
              || call.pc == Closing(e, writer.value, CloseStdin)
              || (call.pc == Closed(e, writer.value, CloseStdin) && s.threads[writer.value].closes >= 1)
              || (call.pc == Done(Finished) && s.threads[writer.value].closes >= 1)
       case MarkStdinClosed =>
         && call.wrote == [] && call.pc == Done(Finished)
         && (writer.Some? ==> s.threads[writer.value].marked)
       case _ => false
  }

  lemma StepActs(s: State, t: Tid)
    requires t in s.threads && Enabled(s, t) && Named(s, t) && UsesStdin(s.threads[t].op)
    requires s.threads[t].pc.Held? && s.threads[t].pc.op == s.threads[t].op && s.threads[t].wrote == []
    ensures var s', e := Do(s, t), s.threads[t].pc.e;
            t in s'.threads && Acted(s', t, e, s.entries[e].writer)
  {
  }

  lemma StepStaysActed(s: State, t: Tid, e: EntryId, writer: Option<Writer>)
    requires t in s.threads && Enabled(s, t) && Named(s, t) && Acted(s, t, e, writer)
    ensures t in Do(s, t).threads && Acted(Do(s, t), t, e, writer)
  {
  }

  /** Step k is the one at which the call looked at the writer of entry e. */
  ghost predicate LooksAtWriter(run: seq<State>, k: nat, t: Tid, e: EntryId) {
    && k + 1 < |run| && t in run[k].threads && StepsAlone(run[k], run[k + 1], t)
    && run[k].threads[t].pc == Held(e, run[k].threads[t].op) && e in run[k].entries
  }

  /** Before that it has written nothing. */
  predicate Waiting(thread: Thread) {
    thread.wrote == [] && (Starting(thread) || ((thread.pc.Lock? || thread.pc.Held?) && thread.pc.op == thread.op)
                           || thread.pc == Done(NotTracked) || thread.pc == Done(NoStdinAttached))
  }

  lemma StepWaits(s: State, t: Tid)
    requires t in s.threads && Enabled(s, t) && Named(s, t) && UsesStdin(s.threads[t].op) && Waiting(s.threads[t])
    ensures t in Do(s, t).threads && (s.threads[t].pc.Held? || Waiting(Do(s, t).threads[t]))
  {
  }

  lemma ActedStays(run: seq<State>, i: nat, t: Tid, e: EntryId, writer: Option<Writer>)
    requires IsRun(run) && i + 1 < |run| && t in run[i].threads && Acted(run[i], t, e, writer)
    ensures t in run[i + 1].threads && Acted(run[i + 1], t, e, writer)
  {
    RunKeeps(run, i, t);
    if StepsAlone(run[i], run[i + 1], t) {
      StepStaysActed(run[i], t, e, writer);
    }
    if writer.Some? {
      RunKeeps(run, i, writer.value);
    }
  }

  lemma {:induction false} LookedAtWriter(run: seq<State>, i: nat, t: Tid) returns (k: nat, e: EntryId)
    requires IsRun(run) && i < |run| && t in run[i].threads && UsesStdin(run[i].threads[t].op)
    ensures Waiting(run[i].threads[t])
         || (k < i && LooksAtWriter(run, k, t, e) && Acted(run[i], t, e, run[k].entries[e].writer))
  {
    k, e := 0, 0;
    if i == 0 || t !in run[i - 1].threads {
      NewIsStarting(run, i, t);
    } else {
      RunKeeps(run, i - 1, t);
      k, e := LookedAtWriter(run, i - 1, t);
      if !Waiting(run[i - 1].threads[t]) {
        ActedStays(run, i - 1, t, e, run[k].entries[e].writer);
      } else if StepsAlone(run[i - 1], run[i], t) {
        StepWaits(run[i - 1], t);
        if run[i - 1].threads[t].pc.Held? {
          k, e := i - 1, run[i - 1].threads[t].pc.e;
          StepActs(run[i - 1], t);
        }
      }
    }
  }

  /** A call on stdin that is over, and was not refused at its lookup, looked at the writer of the
      entry it had found, once.  A write answers StdinClosed if there was none and has then written
      nothing; otherwise it has made exactly one write, to that writer.  A close answers
      StdinClosed if there was none and has otherwise closed that one; MarkStdinClosed has given it
      up. */
  lemma StdinAnswers(run: seq<State>, i: nat, t: Tid) returns (j: nat, k: nat)
    requires IsRun(run) && i < |run| && t in run[i].threads && run[i].threads[t].pc.Done?
    requires UsesStdin(run[i].threads[t].op)
    ensures var call := run[i].threads[t];
            if call.pc == Done(NotTracked) || call.pc == Done(NoStdinAttached) then call.wrote == []
            else
              && j < k < i && t in run[j].threads && run[j].threads[t].pc.In? && call.key in run[j].containers
              && t in run[k].threads && run[k].threads[t].pc == Held(run[j].containers[call.key], call.op)
              && run[j].containers[call.key] in run[k].entries
              && var writer := run[k].entries[run[j].containers[call.key]].writer;
                 && (writer.Some? ==> writer.value in run[i].threads)
                 && call.pc == (if writer.None? && !call.op.MarkStdinClosed? then Done(StdinClosed) else Done(Finished))
                 && call.wrote == (if call.op.WriteStdin? && writer.Some? then [writer.value] else [])
                 && (call.op.CloseStdin? && writer.Some? ==> run[i].threads[writer.value].closes == 1)
                 && (call.op.MarkStdinClosed? && writer.Some? ==> run[i].threads[writer.value].marked)
  {
    var e;
    k, e := LookedAtWriter(run, i, t);
    j := 0;
    if !Waiting(run[i].threads[t]) {
      CallStays(run, k, i, t);
      j := LookedUp(run, k, t);
      CallStays(run, j, k, t);
      if run[k].entries[e].writer.Some? {
        NeverTwice(run, i, run[k].entries[e].writer.value);
      }
    }
  }

  // ----- Once the writer is gone -----

  /** Thread w has attached its writer to the entry. */
  predicate AttachedTo(s: State, w: Tid, e: EntryId) {
    w in s.threads && s.threads[w].home == Some(e)
  }

  /** Nobody has attached to the entry in between. */
  ghost predicate NoAttach(run: seq<State>, m: nat, n: nat, e: EntryId)
    requires m <= n < |run|
  {
    forall w :: AttachedTo(run[n], w, e) ==> AttachedTo(run[m], w, e)
  }

  lemma NoAttachUntil(run: seq<State>, m: nat, k: nat, n: nat, e: EntryId)
    requires IsRun(run) && m <= k <= n < |run| && NoAttach(run, m, n, e)
    ensures NoAttach(run, m, k, e)
  {
    forall w | AttachedTo(run[k], w, e) ensures AttachedTo(run[m], w, e) {
      CallStays(run, k, n, w);
    }
  }

  lemma LookupKeepsEntries(s: State, t: Tid, e: EntryId)
    requires t in s.threads && Enabled(s, t) && Named(s, t) && e in s.entries && s.threads[t].pc.In?
    requires s.threads[t].pc.op.Add? ==> t !in s.entries
    ensures e in Do(s, t).entries
    ensures s.entries[e].writer.None? && Do(s, t).entries[e].writer.Some? ==>
              s.threads[t].pc == Held(e, SetStdin) && AttachedTo(Do(s, t), t, e)
  {
  }

  lemma HeldKeepsEntries(s: State, t: Tid, e: EntryId)
    requires t in s.threads && Enabled(s, t) && Named(s, t) && e in s.entries && s.threads[t].pc.Held?
    ensures e in Do(s, t).entries
    ensures s.entries[e].writer.None? && Do(s, t).entries[e].writer.Some? ==>
              s.threads[t].pc == Held(e, SetStdin) && AttachedTo(Do(s, t), t, e)
  {
  }

  lemma StepKeepsEntries(s: State, t: Tid, e: EntryId)
    requires t in s.threads && Enabled(s, t) && Named(s, t) && e in s.entries
    requires s.threads[t].pc.In? && s.threads[t].pc.op.Add? ==> t !in s.entries
    ensures e in Do(s, t).entries
    ensures s.entries[e].writer.None? && Do(s, t).entries[e].writer.Some? ==>
              s.threads[t].pc == Held(e, SetStdin) && AttachedTo(Do(s, t), t, e)
  {
    if s.threads[t].pc.In? {
      LookupKeepsEntries(s, t, e);
    } else if s.threads[t].pc.Held? {
      HeldKeepsEntries(s, t, e);
    }
  }

  /** Only an attach brings a writer back. */
  lemma WriterComesByAttach(run: seq<State>, i: nat, e: EntryId)
    requires IsRun(run) && i + 1 < |run| && e in run[i].entries && NoAttach(run, i, i + 1, e)
    ensures e in run[i + 1].entries
    ensures run[i].entries[e].writer.None? ==> run[i + 1].entries[e].writer.None?
  {
    RunKeepsInv(run, i);
    assert Follows(run, i + 1);
    NextKeepsNone(run[i], run[i + 1], e);
  }

  lemma NextKeepsNone(s: State, s': State, e: EntryId)
    requires Inv(s) && Next(s, s') && e in s.entries
    requires forall w :: AttachedTo(s', w, e) ==> AttachedTo(s, w, e)
    ensures e in s'.entries && (s.entries[e].writer.None? ==> s'.entries[e].writer.None?)
  {
    if t :| t in s.threads && Enabled(s, t) && Named(s, t) && s' == Do(s, t) {
      assert EntryOk(s, t) && WriterOk(s, t);
      StepKeepsEntries(s, t, e);
    }
  }

  lemma {:induction false} WriterStaysGone(run: seq<State>, m: nat, n: nat, e: EntryId)
    requires IsRun(run) && m <= n < |run| && e in run[m].entries && run[m].entries[e].writer.None?
    requires NoAttach(run, m, n, e)
    ensures e in run[n].entries && run[n].entries[e].writer.None?
  {
    if m < n {
      NoAttachUntil(run, m, n - 1, n, e);
      WriterStaysGone(run, m, n - 1, e);
      forall w | AttachedTo(run[n], w, e) ensures AttachedTo(run[n - 1], w, e) {
        CallStays(run, m, n - 1, w);
      }
      WriterComesByAttach(run, n - 1, e);
    }
  }

  /** Step m is the one with which a CloseStdin or MarkStdinClosed of the entry's writer ends. */
  ghost predicate EndsWriter(run: seq<State>, m: nat, t: Tid, e: EntryId) {
    && m + 1 < |run| && t in run[m].threads && t in run[m + 1].threads
    && (run[m].threads[t].op.CloseStdin? || run[m].threads[t].op.MarkStdinClosed?)
    && !run[m].threads[t].pc.Done? && run[m + 1].threads[t].pc == Done(Finished)
    && HasEntry(run[m].threads[t].pc) && run[m].threads[t].pc.e == e
  }

  lemma StepEndsWriter(s: State, t: Tid)
    requires t in s.threads && Enabled(s, t) && Named(s, t) && !s.threads[t].pc.Done? && HasEntry(s.threads[t].pc)
    requires s.threads[t].op.CloseStdin? || s.threads[t].op.MarkStdinClosed?
    requires Starting(s.threads[t]) || AtStdin(s.threads[t].pc, s.threads[t].pc.e, s.threads[t].op)
    ensures t in Do(s, t).threads
    ensures var e := s.threads[t].pc.e;
            Do(s, t).threads[t].pc == Done(Finished) ==> e in Do(s, t).entries && Do(s, t).entries[e].writer.None?
  {
  }

  lemma EndedWriterIsGone(run: seq<State>, m: nat, t: Tid, e: EntryId)
    requires IsRun(run) && EndsWriter(run, m, t, e)
    ensures e in run[m].entries && run[m].entries[e].current.Some?
    ensures e in run[m + 1].entries && run[m + 1].entries[e].writer.None?
  {
    RunKeeps(run, m, t);
    RunKeepsInv(run, m);
    assert PcOk(run[m], t);
    var j := LookedUp(run, m, t);
    StepEndsWriter(run[m], t);
  }

  /** Once a CloseStdin or MarkStdinClosed has ended, the entry has no writer until another one is
      attached. */
  lemma NoWriterUntilAttach(run: seq<State>, m: nat, n: nat, t: Tid, e: EntryId)
    requires IsRun(run) && m < n < |run| && EndsWriter(run, m, t, e) && NoAttach(run, m + 1, n, e)
    ensures e in run[n].entries && run[n].entries[e].writer.None?
  {
    EndedWriterIsGone(run, m, t, e);
    WriterStaysGone(run, m + 1, n, e);
  }

  /** And every WriteStdin or CloseStdin called later that finds this entry is refused as closed and
      writes nothing. */
  lemma LaterCallsAreRefused(run: seq<State>, m: nat, n: nat, t: Tid, e: EntryId, u: Tid) returns (j: nat)
    requires IsRun(run) && m < n < |run| && EndsWriter(run, m, t, e) && NoAttach(run, m + 1, n, e)
    requires u !in run[m + 1].threads && u in run[n].threads && run[n].threads[u].pc.Done?
    requires run[n].threads[u].op.WriteStdin? || run[n].threads[u].op.CloseStdin?
    ensures m < j < n && u in run[j].threads && run[j].threads[u].pc.In?
    ensures u in run[j + 1].threads && !run[j + 1].threads[u].pc.In?
    ensures var call := run[n].threads[u];
            call.key in run[j].containers && run[j].containers[call.key] == e ==>
              call.pc == Done(StdinClosed) && call.wrote == []
  {
    var k, f := LookedAtWriter(run, n, u);
    if Waiting(run[n].threads[u]) {
      j := LookedUp(run, n, u);
      LookupWasLater(run, m, j, n, u);
      FoundIsNotWaiting(run, m, j, n, t, e, u);
    } else {
      j := LookedUp(run, k, u);
      CallStays(run, k, n, u);
      LookupWasLater(run, m, j, n, u);
      if run[n].threads[u].key in run[j].containers && run[j].containers[run[n].threads[u].key] == e {
        LookedAtFound(run, m, j, k, t, e, f, u);
        NoWriterThen(run, m, k, n, t, e);
      }
    }
  }

  lemma LookupWasLater(run: seq<State>, m: nat, j: nat, n: nat, u: Tid)
    requires IsRun(run) && m < n < |run| && u !in run[m + 1].threads && j < n && LooksUpAt(run, j, u)
    ensures m < j && u in run[j + 1].threads && !run[j + 1].threads[u].pc.In?
    ensures u in run[n].threads && run[n].threads[u].key == run[j].threads[u].key
  {
    LookedUpLater(run, m, n, u, j);
    StepLooksUp(run[j], u);
    CallStays(run, j, n, u);
  }

  /** Whoever finds an entry that had a writer is not refused at the lookup. */
  lemma FoundIsNotWaiting(run: seq<State>, m: nat, j: nat, n: nat, t: Tid, e: EntryId, u: Tid)
    requires IsRun(run) && m < j < n < |run| && EndsWriter(run, m, t, e) && u in run[n].threads
    requires run[n].threads[u].pc.Done? && UsesStdin(run[n].threads[u].op) && Decided(run[j], run[n].threads[u])
    requires Waiting(run[n].threads[u])
    ensures var key := run[n].threads[u].key; key in run[j].containers ==> run[j].containers[key] != e
  {
    EndedWriterIsGone(run, m, t, e);
    HadAttach(run, m, j, e);
  }

  /** And looks at the writer of that entry. */
  lemma LookedAtFound(run: seq<State>, m: nat, j: nat, k: nat, t: Tid, e: EntryId, f: EntryId, u: Tid)
    requires IsRun(run) && m < j < k < |run| && EndsWriter(run, m, t, e) && LooksAtWriter(run, k, u, f)
    requires UsesStdin(run[k].threads[u].op) && Decided(run[j], run[k].threads[u])
    requires var key := run[k].threads[u].key; key in run[j].containers && run[j].containers[key] == e
    ensures f == e
  {
  }

  lemma NoWriterThen(run: seq<State>, m: nat, k: nat, n: nat, t: Tid, e: EntryId)
    requires IsRun(run) && m < k <= n < |run| && EndsWriter(run, m, t, e) && NoAttach(run, m + 1, n, e)
    ensures e in run[k].entries && run[k].entries[e].writer.None?
  {
    NoAttachUntil(run, m + 1, k, n, e);
    NoWriterUntilAttach(run, m, k, t, e);
  }

  lemma LookedUpLater(run: seq<State>, m: nat, n: nat, u: Tid, j: nat)
    requires IsRun(run) && m < n < |run| && u !in run[m + 1].threads && j < n && LooksUpAt(run, j, u)
    ensures m < j
  {
    if j <= m {
      CallStays(run, j, m + 1, u);
    }
  }

  lemma HadAttach(run: seq<State>, m: nat, j: nat, e: EntryId)
    requires IsRun(run) && m <= j < |run| && e in run[m].entries && run[m].entries[e].current.Some?
    ensures e in run[j].entries ==> run[j].entries[e].current.Some?
  {
    RunKeepsInv(run, m);
    assert EntryOk(run[m], e);
    CallStays(run, m, j, run[m].entries[e].current.value);
    RunKeepsInv(run, j);
    assert WriterOk(run[j], run[m].entries[e].current.value);
  }
}
