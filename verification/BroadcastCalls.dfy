/** What the calls of internal/logbroadcast/broadcaster.go answer for: whom Publish reaches, what
    Subscribe hands out, what unsubscribe leaves, and what Close puts an end to. */
module BroadcastCalls {
  import opened Prelude
  import opened Broadcast
  import opened BroadcastGuarantees

  // ----- One step -----

  predicate Publishes(pc: Pc) {
    pc.Publish? || pc.Snapshot? || pc.Loop? || pc.Check? || pc.Offer? || pc.Drop?
  }

  /** Thread v goes on with its call. */
  predicate GoesOn(s: State, s': State, v: Tid)
    requires v in s.threads && v in s'.threads
  {
    var before, after := s.threads[v], s'.threads[v];
    && after.call == before.call && after.entry == before.entry
    && (before.pc.Done? ==> after == before)
    && (after.pc.Subscribe? || after.pc.Unsubscribe? ==> after.pc == before.pc)
    && (Publishes(before.pc) ==> Publishes(after.pc) || after.pc.Done?)
    && (before.pc.Publish? ==> after.pc.Publish? || (if s.shut then after.pc.Done? else after.pc.Snapshot?))
    && (before.pc.Snapshot? && !after.pc.Snapshot? ==> after.pc.Loop? && after.snap == s.registered)
    && (!before.pc.Snapshot? || after.pc.Snapshot? ==> after.snap == before.snap)
    && (before.pc.Unsubscribe? && !after.pc.Unsubscribe? ==> before.pc.u !in s'.registered)
    && (before.pc.Subscribe? && !after.pc.Subscribe? ==>
          && v in s'.subs && s'.subs[v].project == before.pc.project && s'.subs[v].sessionId == before.pc.sessionId
          && if s.shut then after.pc == WantClose(v) && s'.subs[v].closer == Some(v) && v !in s'.registered
             else after.pc.Done? && v in s'.registered)
  }

  /** Subscriber u comes by its own Subscribe only, and once gone stays away. */
  predicate ComesAndGoes(s: State, s': State, u: SubId) {
    && (u in s'.registered && u !in s.registered ==> u in s.threads && s.threads[u].pc.Subscribe? && !s.shut)
    && (u in s'.subs && u !in s.subs ==> u in s.threads && s.threads[u].pc.Subscribe?)
    && (u in s.subs ==>
          && u in s'.subs && s'.subs[u].project == s.subs[u].project && s'.subs[u].sessionId == s.subs[u].sessionId
          && (s.subs[u].closer.Some? ==> s'.subs[u].closer == s.subs[u].closer))
  }

  lemma StepGoesOn(s: State, t: Tid, next: SubId)
    requires Enabled(s, t, next)
    requires s.threads[t].pc.Subscribe? ==> t !in s.registered
    requires s.threads[t].pc.Unsubscribe? && s.threads[t].pc.u in s.registered ==> s.threads[t].pc.u in s.subs
    ensures t in Do(s, t, next).threads && GoesOn(s, Do(s, t, next), t)
  {
  }

  lemma OthersStay(s: State, t: Tid, next: SubId, v: Tid)
    requires Enabled(s, t, next) && v in s.threads && v != t
    ensures v in Do(s, t, next).threads && Do(s, t, next).threads[v] == s.threads[v]
  {
  }

  lemma DoGoesOn(s: State, t: Tid, next: SubId, v: Tid)
    requires Enabled(s, t, next) && v in s.threads
    requires s.threads[t].pc.Subscribe? ==> t !in s.registered
    requires s.threads[t].pc.Unsubscribe? && s.threads[t].pc.u in s.registered ==> s.threads[t].pc.u in s.subs
    ensures v in Do(s, t, next).threads && GoesOn(s, Do(s, t, next), v)
  {
    if v == t {
      StepGoesOn(s, t, next);
    } else {
      OthersStay(s, t, next, v);
    }
  }

  lemma DoComesAndGoes(s: State, t: Tid, next: SubId, u: SubId)
    requires Enabled(s, t, next)
    requires s.threads[t].pc.Subscribe? ==> t !in s.subs
    requires u in s.registered ==> u in s.subs && s.subs[u].closer.None?
    ensures ComesAndGoes(s, Do(s, t, next), u)
  {
  }

  /** What any step does to thread v and subscriber u. */
  predicate Moves(s: State, s': State, v: Tid, u: SubId) {
    && (s.shut ==> s'.shut)
    && (v in s.threads ==> v in s'.threads && GoesOn(s, s', v))
    && (v in s'.threads && v !in s.threads ==> s'.threads[v].pc == s'.threads[v].call && s'.threads[v].snap == {})
    && ComesAndGoes(s, s', u)
  }

  lemma StepMoves(s: State, t: Tid, next: SubId, v: Tid, u: SubId)
    requires Inv(s) && Enabled(s, t, next)
    ensures Moves(s, Do(s, t, next), v, u)
  {
    assert SubOk(s, u) && ThreadOk(s, t) && SubOk(s, t);
    if s.threads[t].pc.Unsubscribe? {
      assert SubOk(s, s.threads[t].pc.u);
    }
    if v in s.threads {
      DoGoesOn(s, t, next, v);
    }
    DoComesAndGoes(s, t, next, u);
    EntriesStay(s, t, next);
    NobodyCalls(s, t, next, v);
  }

  lemma NobodyCalls(s: State, t: Tid, next: SubId, v: Tid)
    requires Enabled(s, t, next)
    ensures v in Do(s, t, next).threads ==> v in s.threads
    ensures s.shut ==> Do(s, t, next).shut
  {
  }

  lemma CallMoves(s: State, t: Tid, pc: Pc, entry: LogEntry, v: Tid, u: SubId)
    requires t !in s.threads
    ensures Moves(s, Call(s, t, pc, entry), v, u)
  {
  }

  lemma ReceiveMoves(s: State, w: SubId, v: Tid, u: SubId)
    requires w in s.subs && s.subs[w].ch != []
    ensures Moves(s, Receive(s, w), v, u)
  {
  }

  lemma OutsideMoves(s: State, s': State, v: Tid, u: SubId)
    requires s' == FlushDrops(s) || s' == s.(shut := true)
    ensures Moves(s, s', v, u)
  {
  }

  lemma NextMoves(s: State, s': State, v: Tid, u: SubId)
    requires Inv(s) && Next(s, s')
    ensures Moves(s, s', v, u)
  {
    if t, pc: Pc, entry :|
      t !in s.threads && (pc.Subscribe? || pc.Unsubscribe? || pc.Publish?) && s' == Call(s, t, pc, entry)
    {
      CallMoves(s, t, pc, entry, v, u);
    } else if t, next :| Enabled(s, t, next) && s' == Do(s, t, next) {
      StepMoves(s, t, next, v, u);
    } else if w :| w in s.subs && s.subs[w].ch != [] && s' == Receive(s, w) {
      ReceiveMoves(s, w, v, u);
    } else {
      OutsideMoves(s, s', v, u);
    }
  }

  lemma RunMoves(run: seq<State>, i: nat, v: Tid, u: SubId)
    requires IsRun(run) && i + 1 < |run|
    ensures Moves(run[i], run[i + 1], v, u)
  {
    RunKeepsInv(run, i);
    assert Follows(run, i + 1);
    NextMoves(run[i], run[i + 1], v, u);
  }

  // ----- Over a run -----

  lemma {:induction false} StaysShut(run: seq<State>, i: nat, j: nat)
    requires IsRun(run) && i <= j < |run| && run[i].shut
    ensures run[j].shut
  {
    if i < j {
      StaysShut(run, i, j - 1);
      RunMoves(run, j - 1, 0, 0);
    }
  }

  lemma {:induction false} ReturnedStays(run: seq<State>, i: nat, j: nat, t: Tid)
    requires IsRun(run) && i <= j < |run| && Returned(run[i], t)
    ensures t in run[j].threads && run[j].threads[t] == run[i].threads[t]
  {
    if i < j {
      ReturnedStays(run, i, j - 1, t);
      RunMoves(run, j - 1, t, 0);
    }
  }

  /** A call never becomes another, and a Publish is at one of its own steps or done. */
  lemma {:induction false} CallStays(run: seq<State>, i: nat, j: nat, t: Tid)
    requires IsRun(run) && i <= j < |run| && t in run[i].threads
    ensures t in run[j].threads
    ensures run[j].threads[t].call == run[i].threads[t].call && run[j].threads[t].entry == run[i].threads[t].entry
  {
    if i < j {
      CallStays(run, i, j - 1, t);
      RunMoves(run, j - 1, t, 0);
    }
  }

  lemma {:induction false} PublishIsAtItsSteps(run: seq<State>, i: nat, t: Tid)
    requires IsRun(run) && i < |run| && t in run[i].threads && run[i].threads[t].call.Publish?
    ensures Publishes(run[i].threads[t].pc) || run[i].threads[t].pc.Done?
  {
    if i > 0 {
      RunMoves(run, i - 1, t, 0);
      if t in run[i - 1].threads {
        PublishIsAtItsSteps(run, i - 1, t);
      }
    }
  }

  /** The snapshot a Publish works on is the set of subscribers at one moment of the call. */
  lemma {:induction false} SnapshotWasTaken(run: seq<State>, i: nat, t: Tid) returns (k: nat)
    requires IsRun(run) && i < |run| && t in run[i].threads && run[i].threads[t].call.Publish?
    requires !run[i].threads[t].pc.Publish? && !run[i].threads[t].pc.Snapshot? && !run[i].shut
    ensures k < i && t in run[k].threads && run[i].threads[t].snap == run[k].registered
  {
    assert i > 0;
    RunMoves(run, i - 1, t, 0);
    PublishIsAtItsSteps(run, i - 1, t);
    if run[i - 1].threads[t].pc.Snapshot? {
      k := i - 1;
    } else {
      k := SnapshotWasTaken(run, i - 1, t);
    }
  }

  /** And whatever is in it was registered during the call. */
  lemma {:induction false} SnapshotWasRegistered(run: seq<State>, i: nat, t: Tid, u: SubId) returns (k: nat)
    requires IsRun(run) && i < |run| && t in run[i].threads && u in run[i].threads[t].snap
    ensures k < i && t in run[k].threads && u in run[k].registered
  {
    assert i > 0;
    RunMoves(run, i - 1, t, 0);
    assert t in run[i - 1].threads;
    if u in run[i - 1].threads[t].snap {
      k := SnapshotWasRegistered(run, i - 1, t, u);
    } else {
      k := i - 1;
    }
  }

  /** A subscriber that is still registered was so ever since its Subscribe returned. */
  lemma {:induction false} RegisteredSince(run: seq<State>, b: nat, k: nat, j: nat, u: SubId)
    requires IsRun(run) && b <= k <= j < |run| && Returned(run[b], u) && u in run[j].registered
    ensures u in run[k].registered
    decreases j - k
  {
    if k < j {
      RegisteredSince(run, b, k + 1, j, u);
      RunMoves(run, k, u, u);
      ReturnedStays(run, b, k, u);
    }
  }

  /** A call not yet begun knows what it was called with. */
  lemma {:induction false} StartsAsCalled(run: seq<State>, i: nat, t: Tid)
    requires IsRun(run) && i < |run| && t in run[i].threads
    requires run[i].threads[t].pc.Subscribe? || run[i].threads[t].pc.Unsubscribe?
    ensures run[i].threads[t].pc == run[i].threads[t].call
  {
    if i > 0 {
      RunMoves(run, i - 1, t, 0);
      if t in run[i - 1].threads {
        StartsAsCalled(run, i - 1, t);
      }
    }
  }

  /** What a subscriber is registered with is what was passed to Subscribe. */
  lemma {:induction false} FilterWasPassed(run: seq<State>, i: nat, u: SubId)
    requires IsRun(run) && i < |run| && u in run[i].subs
    ensures u in run[i].threads
    ensures run[i].threads[u].call == Subscribe(run[i].subs[u].project, run[i].subs[u].sessionId)
  {
    if i > 0 {
      RunMoves(run, i - 1, u, u);
      RunKeepsInv(run, i);
      assert SubOk(run[i], u);
      if u in run[i - 1].subs {
        FilterWasPassed(run, i - 1, u);
      } else {
        StartsAsCalled(run, i - 1, u);
        SubscribeHasLeft(run, i, u);
      }
    }
  }

  lemma SubscribeHasLeft(run: seq<State>, i: nat, u: SubId)
    requires IsRun(run) && i < |run| && u in run[i].subs
    ensures u in run[i].threads && !run[i].threads[u].pc.Subscribe?
  {
    RunKeepsInv(run, i);
    assert SubOk(run[i], u) && ThreadOk(run[i], u);
  }

  // ----- Whom Publish reaches -----

  /** The filter, written out: by session if one was asked for, else by project, if one was. */
  predicate Wants(call: Pc, entry: LogEntry) {
    && call.Subscribe?
    && if call.sessionId != "" then entry.sessionId == call.sessionId
       else call.project == "" || entry.project == call.project
  }

  predicate Sent(s: State, t: Tid, u: SubId) {
    u in s.subs && t in s.subs[u].sentBy
  }

  predicate Dropped(s: State, t: Tid, u: SubId) {
    (t, u) in s.counted
  }

  /** A subscriber whose Subscribe had returned before Publish was called, and that is registered
      still when it returns on an open broadcaster, was either sent the entry or counted as a drop
      if its filter lets the entry through, and neither if not. */
  lemma PublishReaches(run: seq<State>, b: nat, j: nat, t: Tid, u: SubId)
    requires IsRun(run) && b <= j < |run|
    requires Returned(run[b], u) && t !in run[b].threads && u in run[j].registered
    requires Returned(run[j], t) && run[j].threads[t].call.Publish? && !run[j].shut
    ensures u in run[j].threads
    ensures var wanted := Wants(run[j].threads[u].call, run[j].threads[t].entry);
            && (wanted <==> Sent(run[j], t, u) || Dropped(run[j], t, u))
            && !(Sent(run[j], t, u) && Dropped(run[j], t, u))
  {
    var s := run[j];
    var k := SnapshotWasTaken(run, j, t);
    if k < b {
      CallStays(run, k, b, t);
    }
    RegisteredSince(run, b, k, j, u);
    RunKeepsInv(run, j);
    assert ThreadOk(s, t) && PairOk(s, t, u) && GlobalOk(s);
    FilterWasPassed(run, j, u);
  }

  /** One that was not registered at any moment of the call has neither. */
  lemma PublishSpares(run: seq<State>, j: nat, t: Tid, u: SubId)
    requires IsRun(run) && j < |run| && t in run[j].threads && run[j].threads[t].call.Publish?
    requires forall k :: 0 <= k < j && t in run[k].threads ==> u !in run[k].registered
    ensures !Sent(run[j], t, u) && !Dropped(run[j], t, u)
  {
    var s := run[j];
    if u in s.threads[t].snap {
      var k := SnapshotWasRegistered(run, j, t, u);
    }
    RunKeepsInv(run, j);
    assert ThreadOk(s, t) && PairOk(s, t, u) && GlobalOk(s);
  }

  /** Nor has anyone if Close had been called before. */
  lemma ShutPublishesNothing(run: seq<State>, b: nat, j: nat, t: Tid, u: SubId)
    requires IsRun(run) && b <= j < |run| && run[b].shut && t !in run[b].threads
    requires t in run[j].threads && run[j].threads[t].call.Publish?
    ensures !Sent(run[j], t, u) && !Dropped(run[j], t, u)
  {
    ShutTakesNoSnapshot(run, b, j, t);
    RunKeepsInv(run, j);
    assert ThreadOk(run[j], t) && PairOk(run[j], t, u) && GlobalOk(run[j]);
  }

  lemma {:induction false} ShutTakesNoSnapshot(run: seq<State>, b: nat, j: nat, t: Tid)
    requires IsRun(run) && b <= j < |run| && run[b].shut && t !in run[b].threads
    requires t in run[j].threads && run[j].threads[t].call.Publish?
    ensures run[j].threads[t].snap == {} && (run[j].threads[t].pc.Publish? || run[j].threads[t].pc.Done?)
  {
    RunMoves(run, j - 1, t, 0);
    StaysShut(run, b, j - 1);
    if t in run[j - 1].threads {
      ShutTakesNoSnapshot(run, b, j - 1, t);
    }
  }

  /** At this moment the subscriber cannot take another entry. */
  predicate CannotTake(s: State, u: SubId) {
    u in s.subs && (s.subs[u].closed || |s.subs[u].ch| == 256)
  }

  lemma StepDropsOnlyIf(s: State, t: Tid, next: SubId, v: Tid, u: SubId)
    requires Enabled(s, t, next) && u in s.subs && |s.subs[u].ch| <= 256
    requires s.threads[t].pc.Subscribe? ==> t !in s.subs
    ensures u in Do(s, t, next).subs
    ensures v in Do(s, t, next).subs[u].failed ==> v in s.subs[u].failed || CannotTake(s, u)
  {
  }

  lemma NextDropsOnlyIf(s: State, s': State, v: Tid, u: SubId)
    requires Inv(s) && Next(s, s') && u in s'.subs && v in s'.subs[u].failed
    ensures u in s.subs && (v in s.subs[u].failed || CannotTake(s, u))
  {
    assert SubOk(s, u);
    if t, next :| Enabled(s, t, next) && s' == Do(s, t, next) {
      assert ThreadOk(s, t);
      if u in s.subs {
        StepDropsOnlyIf(s, t, next, v, u);
      } else {
        NewHasNoDrops(s, t, next, u);
      }
    }
  }

  lemma NewHasNoDrops(s: State, t: Tid, next: SubId, u: SubId)
    requires Enabled(s, t, next) && u !in s.subs && u in Do(s, t, next).subs
    ensures Do(s, t, next).subs[u].failed == {}
  {
  }

  /** An entry is dropped for a subscriber only because its channel was closed, or full with 256
      entries, at some moment of the call. */
  lemma {:induction false} DroppedOnlyIfFullOrClosed(run: seq<State>, i: nat, t: Tid, u: SubId) returns (k: nat)
    requires IsRun(run) && i < |run| && u in run[i].subs && t in run[i].subs[u].failed
    ensures k < i && t in run[k].threads && CannotTake(run[k], u)
  {
    assert i > 0;
    RunKeepsInv(run, i - 1);
    assert Follows(run, i);
    NextDropsOnlyIf(run[i - 1], run[i], t, u);
    if t in run[i - 1].subs[u].failed {
      k := DroppedOnlyIfFullOrClosed(run, i - 1, t, u);
    } else {
      k := i - 1;
      DropperWasThere(run, i, t, u);
    }
  }

  lemma DropperWasThere(run: seq<State>, i: nat, t: Tid, u: SubId)
    requires IsRun(run) && 0 < i < |run| && u in run[i].subs && t in run[i].subs[u].failed
    ensures t in run[i - 1].threads
  {
    RunKeepsInv(run, i);
    assert PairOk(run[i], t, u) && SubOk(run[i], u);
    RunMoves(run, i - 1, t, u);
  }

  // ----- What Subscribe and unsubscribe leave -----

  /** The step at which a Subscribe or unsubscribe takes effect. */
  lemma {:induction false} TookEffect(run: seq<State>, i: nat, t: Tid) returns (k: nat)
    requires IsRun(run) && i < |run| && t in run[i].threads && !run[i].threads[t].pc.Subscribe?
    requires var thread := run[i].threads[t]; !thread.pc.Unsubscribe? && !thread.call.Publish?
    ensures k < i && t in run[k].threads && t in run[k + 1].threads && run[k].threads[t].pc == run[i].threads[t].call
    ensures var pc := run[k + 1].threads[t].pc; !pc.Subscribe? && !pc.Unsubscribe?
  {
    CallsAreThree(run, i, t);
    assert i > 0;
    RunMoves(run, i - 1, t, 0);
    StartedOnCall(run, i, t);
    var before := run[i - 1].threads[t].pc;
    if before.Subscribe? || before.Unsubscribe? {
      k := i - 1;
      StartsAsCalled(run, i - 1, t);
    } else {
      k := TookEffect(run, i - 1, t);
    }
  }

  lemma {:induction false} CallsAreThree(run: seq<State>, i: nat, t: Tid)
    requires IsRun(run) && i < |run| && t in run[i].threads
    ensures var call := run[i].threads[t].call; call.Subscribe? || call.Unsubscribe? || call.Publish?
  {
    if i > 0 {
      RunMoves(run, i - 1, t, 0);
      if t in run[i - 1].threads {
        CallsAreThree(run, i - 1, t);
      } else {
        assert Follows(run, i);
        NewIsCalled(run[i - 1], run[i], t);
      }
    }
  }

  lemma NewIsCalled(s: State, s': State, t: Tid)
    requires Next(s, s') && t !in s.threads && t in s'.threads
    ensures var call := s'.threads[t].call; call.Subscribe? || call.Unsubscribe? || call.Publish?
  {
    if v, next :| Enabled(s, v, next) && s' == Do(s, v, next) {
      NobodyCalls(s, v, next, t);
    }
  }

  lemma StartedOnCall(run: seq<State>, i: nat, t: Tid)
    requires IsRun(run) && 0 < i < |run| && t in run[i].threads
    requires !run[i].threads[t].pc.Subscribe? && !run[i].threads[t].pc.Unsubscribe? && !run[i].threads[t].call.Publish?
    ensures t in run[i - 1].threads
  {
    RunMoves(run, i - 1, t, 0);
    CallsAreThree(run, i, t);
  }

  lemma {:induction false} GoneStays(run: seq<State>, i: nat, j: nat, u: SubId)
    requires IsRun(run) && i <= j < |run| && u in run[i].threads && !run[i].threads[u].pc.Subscribe?
    requires u !in run[i].registered
    ensures u in run[j].threads && !run[j].threads[u].pc.Subscribe? && u !in run[j].registered
  {
    if i < j {
      GoneStays(run, i, j - 1, u);
      RunMoves(run, j - 1, u, u);
    }
  }

  lemma {:induction false} SubStays(run: seq<State>, i: nat, j: nat, u: SubId)
    requires IsRun(run) && i <= j < |run| && u in run[i].subs
    ensures u in run[j].subs && (run[i].subs[u].closer.Some? ==> run[j].subs[u].closer == run[i].subs[u].closer)
  {
    if i < j {
      SubStays(run, i, j - 1, u);
      RunMoves(run, j - 1, u, u);
    }
  }

  /** A Subscribe that has returned either was registered, with the filter it was given, and is so
      until some unsubscribe; or it found the broadcaster closed and has handed out a channel that
      is closed, once. */
  lemma SubscribeAnswers(run: seq<State>, i: nat, u: SubId) returns (k: nat)
    requires IsRun(run) && i < |run| && Returned(run[i], u) && run[i].threads[u].call.Subscribe?
    ensures k < i && u in run[k].threads && run[k].threads[u].pc == run[i].threads[u].call
    ensures u in run[i].subs && (u in run[k + 1].registered <==> !run[k].shut)
    ensures run[i].threads[u].call == Subscribe(run[i].subs[u].project, run[i].subs[u].sessionId)
    ensures run[k].shut ==> u !in run[i].registered && run[i].subs[u].closed && run[i].subs[u].closes == 1
    ensures u in run[i].registered || run[i].subs[u].closer.Some?
  {
    k := TookEffect(run, i, u);
    RunMoves(run, k, u, u);
    SubStays(run, k + 1, i, u);
    RunKeepsInv(run, i);
    assert SubOk(run[i], u);
    FilterWasPassed(run, i, u);
    if run[k].shut {
      GoneStays(run, k + 1, i, u);
    }
  }

  /** Once unsubscribe has returned the subscriber is out of the set for good, and its channel is
      closed, once, as soon as whoever was first to unsubscribe has returned. */
  lemma UnsubscribeAnswers(run: seq<State>, b: nat, i: nat, x: Tid)
    requires IsRun(run) && b <= i < |run| && x !in run[b].threads
    requires Returned(run[i], x) && run[i].threads[x].call.Unsubscribe?
    requires Returned(run[b], run[i].threads[x].call.u) && run[i].threads[x].call.u in run[b].subs
    ensures var u := run[i].threads[x].call.u;
            && u in run[i].subs && u !in run[i].registered && run[i].subs[u].closer.Some?
            && (Returned(run[i], run[i].subs[u].closer.value) ==> run[i].subs[u].closed && run[i].subs[u].closes == 1)
  {
    var u := run[i].threads[x].call.u;
    var k := TookEffect(run, i, x);
    if k < b {
      CallStays(run, k, b, x);
    }
    RunMoves(run, k, x, u);
    ReturnedStays(run, b, k + 1, u);
    GoneStays(run, k + 1, i, u);
    SubStays(run, b, i, u);
    RunKeepsInv(run, i);
    assert SubOk(run[i], u);
  }
}
