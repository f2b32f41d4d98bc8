/** Triggers, card runs and maintenance sweeps, interleaved in every way: CleanupOrphans in
    internal/container/manager.go, handleTrigger in internal/webhook/handler.go.

    The sweep lists Docker's containers first and asks the tracker about them one by one
    afterwards, and it stops and removes the orphans later still, while runs go on. */
module OrphanSweep {
  import opened Prelude

  type RunId = nat
  type SweepId = nat
  type Cid = nat   // Docker never uses an ID again

  datatype Key = Key(project: string, cardId: string) {
    /** Validated fields are not empty. */
    predicate Valid() {
      project != "" && cardId != ""
    }
  }

  /** A container with the runner's label, and the run that created it; None for one left by an
      earlier process or created for a chat. */
  datatype Container = Container(labels: Key, sessionId: string, owner: Option<RunId>)

  datatype RunPc =
    | Reserved           // tracked; the container is not created yet
    | Live(c: Cid)       // created, starting or running
    | CleaningUp         // start failed, or the wait has ended: its own cleanup has begun
    | Untracked          // tracker.Remove has run
    | Finished

  datatype CardRun = CardRun(key: Key, pc: RunPc)

  datatype Sweep = Sweep(
    listed: set<Cid>,      // what ContainerList returned
    unchecked: set<Cid>,   // of these, those the filter loop has not come to
    skipped: set<Cid>,     // found in the tracker
    orphans: set<Cid>,     // not found there; to be stopped and removed
    swept: set<Cid>        // Stop and Remove were called
  )

  datatype State = State(
    tracker: map<Key, RunId>,      // which run's entry it is
    chats: set<string>,            // tracked chat sessions
    containers: map<Cid, Container>,   // every container there ever was
    existing: set<Cid>,
    runs: map<RunId, CardRun>,
    sweeps: map<SweepId, Sweep>,
    harmed: set<Cid>               // stopped or removed by a sweep before the owner's own cleanup
  )

  datatype Step =
    | Trigger(r: RunId, key: Key)          // AddIfUnderLimit succeeded; one that fails changes nothing
    | Create(r: RunId, c: Cid)
    | BeginCleanup(r: RunId)               // from any point: create or start failure, exit, kill, timeout
    | Untrack(r: RunId)
    | Finish(r: RunId)                     // the final container removal, if there is one
    | List(t: SweepId)
    | Check(t: SweepId, c: Cid)
    | Remove(t: SweepId, c: Cid)           // Stop, then Remove
    | Appear(c: Cid, container: Container) // a container that belongs to no card run
    | Vanish(c: Cid)                       // a container goes away, whoever removed it
    | Chats(chats: set<string>)            // the tracked chats change

  ghost predicate Enabled(s: State, step: Step) {
    match step
    case Trigger(r, key) => r !in s.runs && key.Valid() && key !in s.tracker
    case Create(r, c) => r in s.runs && s.runs[r].pc.Reserved? && c !in s.containers
    case BeginCleanup(r) => r in s.runs && (s.runs[r].pc.Reserved? || s.runs[r].pc.Live?)
    case Untrack(r) => r in s.runs && s.runs[r].pc.CleaningUp?
    case Finish(r) => r in s.runs && s.runs[r].pc.Untracked?
    case List(t) => t !in s.sweeps
    case Check(t, c) => t in s.sweeps && c in s.sweeps[t].unchecked && c in s.containers
    case Remove(t, c) => t in s.sweeps && s.sweeps[t].unchecked == {} && c in s.sweeps[t].orphans && c in s.containers
    case Appear(c, container) => c !in s.containers && container.owner.None?
    case Vanish(c) => true
    case Chats(_) => true
  }

  /** The two lookups of the filter loop. */
  predicate IsTracked(s: State, container: Container) {
    || (container.labels.Valid() && container.labels in s.tracker)
    || (container.sessionId != "" && container.sessionId in s.chats)
  }

  /** The run's own cleanup has begun. */
  predicate PastCleanup(s: State, r: RunId) {
    r in s.runs && (s.runs[r].pc.CleaningUp? || s.runs[r].pc.Untracked? || s.runs[r].pc.Finished?)
  }

  function SetPc(s: State, r: RunId, pc: RunPc): State
    requires r in s.runs
  {
    s.(runs := s.runs[r := s.runs[r].(pc := pc)])
  }

  function SetSweep(s: State, t: SweepId, sweep: Sweep): State {
    s.(sweeps := s.sweeps[t := sweep])
  }

  ghost function Do(s: State, step: Step): State
    requires Enabled(s, step)
  {
    match step
    case Trigger(r, key) => s.(tracker := s.tracker[key := r], runs := s.runs[r := CardRun(key, Reserved)])
    case Create(r, c) =>
      SetPc(s, r, Live(c)).(containers := s.containers[c := Container(s.runs[r].key, "", Some(r))],
                            existing := s.existing + {c})
    case BeginCleanup(r) => SetPc(s, r, CleaningUp)
    case Untrack(r) =>
      // By key, whoever added the entry that is there.
      SetPc(s, r, Untracked).(tracker := s.tracker - {s.runs[r].key})
    case Finish(r) => SetPc(s, r, Finished)
    case List(t) => SetSweep(s, t, Sweep(s.existing, s.existing, {}, {}, {}))
    case Check(t, c) =>
      var sweep := s.sweeps[t].(unchecked := s.sweeps[t].unchecked - {c});
      SetSweep(s, t, if IsTracked(s, s.containers[c]) then sweep.(skipped := sweep.skipped + {c})
                     else sweep.(orphans := sweep.orphans + {c}))
    case Remove(t, c) =>
      var sweep := s.sweeps[t];
      var owner := s.containers[c].owner;
      SetSweep(s, t, sweep.(orphans := sweep.orphans - {c}, swept := sweep.swept + {c}))
      .(harmed := if owner.Some? && !PastCleanup(s, owner.value) then s.harmed + {c} else s.harmed)
    case Appear(c, container) => s.(containers := s.containers[c := container], existing := s.existing + {c})
    case Vanish(c) => s.(existing := s.existing - {c})
    case Chats(chats) => s.(chats := chats)
  }

  // ----- The invariant -----

  /** A run's entry is in the tracker from before its container exists until it removes it
      itself, and the entry found under its key is its own. */
  ghost predicate RunOk(s: State, r: RunId) {
    r in s.runs ==>
      var run := s.runs[r];
      && run.key.Valid()
      && (!run.pc.Untracked? && !run.pc.Finished? ==> run.key in s.tracker && s.tracker[run.key] == r)
  }

  ghost predicate EntryOk(s: State, key: Key) {
    key in s.tracker ==>
      && s.tracker[key] in s.runs
      && s.runs[s.tracker[key]].key == key
      && !s.runs[s.tracker[key]].pc.Untracked? && !s.runs[s.tracker[key]].pc.Finished?
  }

  ghost predicate ContainerOk(s: State, c: Cid) {
    c in s.containers && s.containers[c].owner.Some? ==>
      var r := s.containers[c].owner.value;
      r in s.runs && s.containers[c].labels == s.runs[r].key && !s.runs[r].pc.Reserved?
  }

  /** Whatever a sweep takes for an orphan has no owner, or one that has removed its entry. */
  ghost predicate OrphanOk(s: State, c: Cid) {
    && c in s.containers
    && (s.containers[c].owner.Some? ==>
          var r := s.containers[c].owner.value;
          r in s.runs && (s.runs[r].pc.Untracked? || s.runs[r].pc.Finished?))
  }

  ghost predicate SweepOk(s: State, t: SweepId) {
    t in s.sweeps ==>
      var sweep := s.sweeps[t];
      && sweep.listed <= s.containers.Keys
      && (forall c :: c in sweep.listed <==>
            c in sweep.unchecked || c in sweep.skipped || c in sweep.orphans || c in sweep.swept)
      && (forall c :: c in sweep.orphans || c in sweep.swept ==> OrphanOk(s, c))
  }

  ghost predicate Inv(s: State) {
    && s.existing <= s.containers.Keys
    && s.harmed == {}
    && (forall r {:trigger RunOk(s, r)} :: RunOk(s, r))
    && (forall key {:trigger EntryOk(s, key)} :: EntryOk(s, key))
    && (forall c {:trigger ContainerOk(s, c)} :: ContainerOk(s, c))
    && (forall t {:trigger SweepOk(s, t)} :: SweepOk(s, t))
  }

  // ----- Every step keeps it -----

  lemma StepRuns(s: State, step: Step, r: RunId)
    requires Inv(s) && Enabled(s, step)
    ensures RunOk(Do(s, step), r)
  {
    assert RunOk(s, r);
    if step.Untrack? {
      assert RunOk(s, step.r);
    }
  }

  lemma StepEntries(s: State, step: Step, key: Key)
    requires Inv(s) && Enabled(s, step)
    ensures EntryOk(Do(s, step), key)
  {
    assert EntryOk(s, key);
    match step
    case Create(r, _) => assert RunOk(s, r);
    case BeginCleanup(r) => assert RunOk(s, r);
    case Untrack(r) => assert RunOk(s, r);
    case Finish(r) => assert RunOk(s, r);
    case _ =>
  }

  lemma StepContainers(s: State, step: Step, c: Cid)
    requires Inv(s) && Enabled(s, step)
    ensures ContainerOk(Do(s, step), c)
  {
    assert ContainerOk(s, c);
  }

  /** An owner that has removed its entry has done so for good. */
  lemma OrphanStays(s: State, step: Step, c: Cid)
    requires Enabled(s, step) && OrphanOk(s, c)
    ensures OrphanOk(Do(s, step), c)
  {
  }

  lemma CheckFindsOrphan(s: State, t: SweepId, c: Cid)
    requires Inv(s) && Enabled(s, Check(t, c)) && !IsTracked(s, s.containers[c])
    ensures OrphanOk(s, c)
  {
    assert ContainerOk(s, c);
    if s.containers[c].owner.Some? {
      assert RunOk(s, s.containers[c].owner.value);
    }
  }

  lemma StepSweeps(s: State, step: Step, t: SweepId)
    requires Inv(s) && Enabled(s, step)
    ensures SweepOk(Do(s, step), t)
  {
    assert SweepOk(s, t);
    var s' := Do(s, step);
    if t in s'.sweeps {
      forall c | c in s'.sweeps[t].orphans || c in s'.sweeps[t].swept ensures OrphanOk(s', c) {
        if step == Check(t, c) && !IsTracked(s, s.containers[c]) {
          CheckFindsOrphan(s, t, c);
        }
        OrphanStays(s, step, c);
      }
    }
  }

  lemma StepHarmsNobody(s: State, step: Step)
    requires Inv(s) && Enabled(s, step)
    ensures Do(s, step).harmed == {} && Do(s, step).existing <= Do(s, step).containers.Keys
  {
    if step.Remove? {
      assert SweepOk(s, step.t);
      assert OrphanOk(s, step.c);
    }
  }

  lemma StepKeepsInv(s: State, step: Step)
    requires Inv(s) && Enabled(s, step)
    ensures Inv(Do(s, step))
  {
    var s' := Do(s, step);
    forall r ensures RunOk(s', r) { StepRuns(s, step, r); }
    forall key ensures EntryOk(s', key) { StepEntries(s, step, key); }
    forall c ensures ContainerOk(s', c) { StepContainers(s, step, c); }
    forall t ensures SweepOk(s', t) { StepSweeps(s, step, t); }
    StepHarmsNobody(s, step);
  }

  // ----- Runs of the whole system -----

  /** Containers left over by an earlier process may be there at the start. */
  ghost predicate IsInit(s: State) {
    && s.tracker == map[] && s.runs == map[] && s.sweeps == map[] && s.harmed == {}
    && s.existing <= s.containers.Keys
    && (forall c :: c in s.containers ==> s.containers[c].owner.None?)
  }

  ghost predicate IsTrace(states: seq<State>, steps: seq<Step>) {
    && |states| == |steps| + 1 && IsInit(states[0])
    && (forall i :: 0 <= i < |steps| ==> StepAt(states, steps, i))
  }

  ghost predicate StepAt(states: seq<State>, steps: seq<Step>, i: nat)
    requires i < |steps| && i + 1 < |states|
  {
    Enabled(states[i], steps[i]) && states[i + 1] == Do(states[i], steps[i])
  }

  lemma {:induction false} TraceKeepsInv(states: seq<State>, steps: seq<Step>, n: nat)
    requires IsTrace(states, steps) && n < |states|
    ensures Inv(states[n])
  {
    if n > 0 {
      TraceKeepsInv(states, steps, n - 1);
      assert StepAt(states, steps, n - 1);
      StepKeepsInv(states[n - 1], steps[n - 1]);
    }
  }

  /** No sweep ever stops or removes a container whose run has not reached its own cleanup. */
  lemma SweepHarmsNobody(states: seq<State>, steps: seq<Step>, n: nat)
    requires IsTrace(states, steps) && n < |states|
    ensures states[n].harmed == {}
  {
    TraceKeepsInv(states, steps, n);
  }

  /** A run's container is out of every sweep's reach for as long as the run is tracked. */
  lemma LiveContainerIsNotSwept(states: seq<State>, steps: seq<Step>, n: nat, c: Cid, t: SweepId)
    requires IsTrace(states, steps) && n < |states| && c in states[n].containers && t in states[n].sweeps
    requires states[n].containers[c].owner.Some? && !PastCleanup(states[n], states[n].containers[c].owner.value)
    ensures c !in states[n].sweeps[t].orphans && c !in states[n].sweeps[t].swept
  {
    TraceKeepsInv(states, steps, n);
    assert SweepOk(states[n], t) && ContainerOk(states[n], c);
  }

  /** The entry a run removes is its own: nobody else's container loses its protection. */
  lemma UntrackIsOwn(states: seq<State>, steps: seq<Step>, n: nat, r: RunId)
    requires IsTrace(states, steps) && n < |steps| && steps[n] == Untrack(r)
    ensures r in states[n].runs && states[n].runs[r].key in states[n].tracker
    ensures states[n].tracker[states[n].runs[r].key] == r
  {
    TraceKeepsInv(states, steps, n);
    assert StepAt(states, steps, n) && RunOk(states[n], r);
  }

  // ----- What a sweep finds -----

  /** The tracker's answer, written out: the card's key, if both labels are there, or the chat's. */
  ghost predicate FoundIn(s: State, c: Cid) {
    && c in s.containers
    && var container := s.containers[c];
       || (container.labels.project != "" && container.labels.cardId != "" && container.labels in s.tracker)
       || (container.sessionId != "" && container.sessionId in s.chats)
  }

  ghost predicate ListsAt(states: seq<State>, steps: seq<Step>, i: nat, t: SweepId)
    requires IsTrace(states, steps)
  {
    i < |steps| && steps[i] == List(t)
  }

  /** A sweep lists what exists at its one List step. */
  lemma {:induction false} ListedWhatExisted(states: seq<State>, steps: seq<Step>, n: nat, t: SweepId)
      returns (i: nat)
    requires IsTrace(states, steps) && n < |states| && t in states[n].sweeps
    ensures i < n && ListsAt(states, steps, i, t) && states[n].sweeps[t].listed == states[i].existing
    ensures t !in states[i].sweeps
  {
    assert n > 0 && StepAt(states, steps, n - 1);
    if t in states[n - 1].sweeps {
      i := ListedWhatExisted(states, steps, n - 1, t);
    } else {
      i := n - 1;
    }
  }

  /** Container c was looked up by sweep t at step i and, as `found` says, found or not. */
  ghost predicate ChecksAt(states: seq<State>, steps: seq<Step>, i: nat, t: SweepId, c: Cid, found: bool)
    requires IsTrace(states, steps)
  {
    i < |steps| && steps[i] == Check(t, c) && t in states[i].sweeps && (FoundIn(states[i], c) <==> found)
  }

  /** What a sweep skips it has found in the tracker, and what it takes for an orphan it has not. */
  lemma {:induction false} CheckedBefore(states: seq<State>, steps: seq<Step>, n: nat, t: SweepId, c: Cid)
      returns (i: nat)
    requires IsTrace(states, steps) && n < |states| && t in states[n].sweeps
    requires var sweep := states[n].sweeps[t]; c in sweep.skipped || c in sweep.orphans || c in sweep.swept
    ensures i < n
    ensures ChecksAt(states, steps, i, t, c, true) || ChecksAt(states, steps, i, t, c, false)
    ensures c in states[n].sweeps[t].skipped ==> exists k :: 0 <= k < n && ChecksAt(states, steps, k, t, c, true)
    ensures c in states[n].sweeps[t].orphans || c in states[n].sweeps[t].swept ==>
              exists k :: 0 <= k < n && ChecksAt(states, steps, k, t, c, false)
  {
    assert n > 0 && StepAt(states, steps, n - 1);
    if steps[n - 1] == Check(t, c) {
      i := n - 1;
      if t in states[n - 1].sweeps {
        var before := states[n - 1].sweeps[t];
        if c in before.skipped || c in before.orphans || c in before.swept {
          var _ := CheckedBefore(states, steps, n - 1, t, c);
        }
      }
      assert ChecksAt(states, steps, i, t, c, FoundIn(states[i], c));
    } else {
      i := CheckedBefore(states, steps, n - 1, t, c);
    }
  }

  /** And what it has swept it has stopped and removed. */
  lemma {:induction false} SweptBefore(states: seq<State>, steps: seq<Step>, n: nat, t: SweepId, c: Cid)
      returns (i: nat)
    requires IsTrace(states, steps) && n < |states| && t in states[n].sweeps && c in states[n].sweeps[t].swept
    ensures i < n && steps[i] == Remove(t, c)
  {
    assert n > 0 && StepAt(states, steps, n - 1);
    if steps[n - 1] == Remove(t, c) {
      i := n - 1;
    } else {
      i := SweptBefore(states, steps, n - 1, t, c);
    }
  }

  /** A finished sweep has dealt with everything it listed: each container was found in the tracker
      at its check, or Stop and Remove were called for it. */
  lemma SweepMissesNothing(states: seq<State>, steps: seq<Step>, n: nat, t: SweepId)
    requires IsTrace(states, steps) && n < |states| && t in states[n].sweeps
    requires states[n].sweeps[t].unchecked == {} && states[n].sweeps[t].orphans == {}
    ensures states[n].sweeps[t].listed == states[n].sweeps[t].skipped + states[n].sweeps[t].swept
    ensures exists i :: 0 <= i < n && ListsAt(states, steps, i, t) && states[n].sweeps[t].listed == states[i].existing
    ensures forall c :: c in states[n].sweeps[t].skipped ==>
              exists i :: 0 <= i < n && ChecksAt(states, steps, i, t, c, true)
    ensures forall c :: c in states[n].sweeps[t].swept ==>
              exists i :: 0 <= i < n && steps[i] == Remove(t, c)
  {
    TraceKeepsInv(states, steps, n);
    assert SweepOk(states[n], t);
    var sweep := states[n].sweeps[t];
    assert forall c :: c in sweep.listed <==> c in sweep.skipped || c in sweep.swept;
    var i := ListedWhatExisted(states, steps, n, t);
    forall c | c in sweep.skipped ensures exists i :: 0 <= i < n && ChecksAt(states, steps, i, t, c, true) {
      var k := CheckedBefore(states, steps, n, t, c);
    }
    forall c | c in sweep.swept ensures exists i :: 0 <= i < n && steps[i] == Remove(t, c) {
      var k := SweptBefore(states, steps, n, t, c);
    }
  }

  /** So a leftover, a container whose card and chat are tracked at no time from its listing on,
      is stopped and removed by a finished sweep; and one tracked all the time is not. */
  lemma LeftoverIsSwept(states: seq<State>, steps: seq<Step>, from: nat, n: nat, t: SweepId, c: Cid)
    requires IsTrace(states, steps) && from < n < |states| && ListsAt(states, steps, from, t)
    requires t in states[n].sweeps && states[n].sweeps[t].unchecked == {} && states[n].sweeps[t].orphans == {}
    requires c in states[from].existing
    ensures (forall k :: from < k < n ==> !FoundIn(states[k], c)) ==>
              c in states[n].sweeps[t].swept && c !in states[n].sweeps[t].skipped
    ensures (forall k :: from < k < n ==> FoundIn(states[k], c)) ==>
              c in states[n].sweeps[t].skipped && c !in states[n].sweeps[t].swept
  {
    SweepMissesNothing(states, steps, n, t);
    var i := ListedWhatExisted(states, steps, n, t);
    ListedOnce(states, steps, from, i, t);
    var sweep := states[n].sweeps[t];
    if c in sweep.skipped {
      var _ := CheckedBefore(states, steps, n, t, c);
      var k :| 0 <= k < n && ChecksAt(states, steps, k, t, c, true);
      ListedFirst(states, steps, from, k, t);
    }
    if c in sweep.swept {
      var _ := CheckedBefore(states, steps, n, t, c);
      var k :| 0 <= k < n && ChecksAt(states, steps, k, t, c, false);
      ListedFirst(states, steps, from, k, t);
    }
  }

  lemma {:induction false} SweepStays(states: seq<State>, steps: seq<Step>, i: nat, j: nat, t: SweepId)
    requires IsTrace(states, steps) && i <= j < |states| && t in states[i].sweeps
    ensures t in states[j].sweeps
  {
    if i < j {
      SweepStays(states, steps, i, j - 1, t);
      assert StepAt(states, steps, j - 1);
    }
  }

  /** Before it lists, a sweep has not begun. */
  lemma ListedFirst(states: seq<State>, steps: seq<Step>, i: nat, k: nat, t: SweepId)
    requires IsTrace(states, steps) && ListsAt(states, steps, i, t) && k < |states| && t in states[k].sweeps
    ensures i < k
  {
    assert StepAt(states, steps, i);
    if k <= i {
      SweepStays(states, steps, k, i, t);
    }
  }

  lemma ListedOnce(states: seq<State>, steps: seq<Step>, i: nat, j: nat, t: SweepId)
    requires IsTrace(states, steps) && ListsAt(states, steps, i, t) && ListsAt(states, steps, j, t)
    ensures i == j
  {
    assert StepAt(states, steps, i) && StepAt(states, steps, j);
    if i < j {
      ListedFirst(states, steps, j, i + 1, t);
    } else if j < i {
      ListedFirst(states, steps, i, j + 1, t);
    }
  }
}
