/** internal/container/manager.go: one card run, from its start to the removal of its container.

    The run's own actions and the events around it (container exit, cancellation, deadline,
    Docker errors) go into one trace in the order they happen; any number of outside events may
    come before each action of the run. */
module CardRuns {
  import opened Prelude

  type Id = string

  datatype Status = Completed | Failed

  datatype Outcome = Success | Failure | Timeout | Killed | IdleTimeout

  datatype Event =
    // Outside
    | Cancel                       // the run's context is cancelled: kill, shutdown or idle kill
    | IdleReason                   // CancelWithReason recorded the idle reason
    | Deadline                     // the container timeout elapsed
    | Exit(code: int)              // ContainerWait delivered a result
    | WaitFailed                   // ContainerWait delivered an error of its own
    // The run
    | Created(id: Id, image: string)
    | Attached(id: Id)             // stdin attached and handed to the tracker
    | SetId(id: Id)                // UpdateContainerID
    | KillTried(id: Id)
    | RemovalTried(id: Id)         // ContainerRemove was called, whether or not it succeeded
    | Report(status: Status)       // terminal status callback
    | Untrack                      // tracker.Remove

  type Trace = seq<Event>

  predicate IsOutside(e: Event) {
    e.Cancel? || e.IdleReason? || e.Deadline? || e.Exit? || e.WaitFailed?
  }

  predicate AllOutside(trace: Trace) {
    forall i :: 0 <= i < |trace| ==> IsOutside(trace[i])
  }

  /** The run's own actions in a trace. */
  function Own(trace: Trace): Trace {
    if trace == [] then []
    else
      var e := trace[|trace| - 1];
      Own(trace[..|trace| - 1]) + if IsOutside(e) then [] else [e]
  }

  lemma OwnPush(trace: Trace, e: Event)
    ensures Own(trace + [e]) == Own(trace) + if IsOutside(e) then [] else [e]
  {
    assert (trace + [e])[..|trace|] == trace;
  }

  lemma {:induction false} OwnOutside(trace: Trace, more: Trace)
    requires AllOutside(more)
    ensures Own(trace + more) == Own(trace)
  {
    if more == [] {
      assert trace + more == trace;
    } else {
      var front, e := more[..|more| - 1], more[|more| - 1];
      assert trace + more == (trace + front) + [e];
      OwnPush(trace + front, e);
      OwnOutside(trace, front);
    }
  }

  lemma {:induction false} OwnConcat(a: Trace, b: Trace)
    ensures Own(a + b) == Own(a) + Own(b)
  {
    if b == [] {
      assert a + b == a;
    } else {
      var front, e := b[..|b| - 1], b[|b| - 1];
      assert a + b == (a + front) + [e] && b == front + [e];
      OwnPush(a + front, e);
      OwnPush(front, e);
      OwnConcat(a, front);
    }
  }

  lemma {:induction false} OwnHas(trace: Trace, k: nat)
    requires k < |trace| && !IsOutside(trace[k])
    ensures trace[k] in Own(trace)
  {
    var front := trace[..|trace| - 1];
    if k < |front| {
      OwnHas(front, k);
    }
  }

  /** What the run has not done is not in its trace. */
  lemma NotDone(trace: Trace, e: Event)
    requires !IsOutside(e) && e !in Own(trace)
    ensures e !in trace
  {
    if e in trace {
      var k :| 0 <= k < |trace| && trace[k] == e;
      OwnHas(trace, k);
    }
  }

  lemma DoneSince(before: Trace, now: Trace) returns (since: Trace)
    requires before <= now
    ensures now == before + since && Own(now) == Own(before) + Own(since)
  {
    since := now[|before|..];
    OwnConcat(before, since);
  }

  // ----- Contexts -----

  /** waitCtx.Err(): whichever of cancellation and deadline came first. */
  datatype CtxErr = Alive | Canceled | DeadlineExceeded

  function WaitCtxErr(trace: Trace): CtxErr {
    if trace == [] then Alive
    else
      var before := WaitCtxErr(trace[..|trace| - 1]);
      if before != Alive then before
      else if trace[|trace| - 1].Cancel? then Canceled
      else if trace[|trace| - 1].Deadline? then DeadlineExceeded
      else Alive
  }

  lemma {:induction false} WaitCtxErrSays(trace: Trace)
    ensures WaitCtxErr(trace) == Canceled ==> Cancel in trace
    ensures WaitCtxErr(trace) == DeadlineExceeded ==> Deadline in trace
    ensures Cancel in trace || Deadline in trace ==> WaitCtxErr(trace) != Alive
  {
    if trace != [] {
      WaitCtxErrSays(trace[..|trace| - 1]);
      assert trace == trace[..|trace| - 1] + [trace[|trace| - 1]];
    }
  }

  lemma {:induction false} WaitCtxErrStays(trace: Trace, n: nat)
    requires n <= |trace| && WaitCtxErr(trace[..n]) != Alive
    ensures WaitCtxErr(trace) == WaitCtxErr(trace[..n])
  {
    if n < |trace| {
      assert trace[..|trace| - 1][..n] == trace[..n];
      WaitCtxErrStays(trace[..|trace| - 1], n);
    } else {
      assert trace[..n] == trace;
    }
  }

  // ----- How a run can end -----

  datatype Ending =
    | NotCreated
    | NotStarted(id: Id)           // ContainerStart or ContainerAttach failed
    | Exited(id: Id, code: int)
    | TimedOut(id: Id)
    | CanceledRun(id: Id, idle: bool)
    | WaitError(id: Id)
  {
    function Outcome(): Outcome {
      match this
      case NotCreated => Failure
      case NotStarted(_) => Failure
      case Exited(_, code) => if code == 0 then Success else Failure
      case TimedOut(_) => Timeout
      case CanceledRun(_, idle) => if idle then IdleTimeout else Killed
      case WaitError(_) => Failure
    }

    /** What must have happened by the time the run chose this ending. */
    predicate Justified(before: Trace) {
      match this
      case NotCreated => true
      case NotStarted(_) => true
      case Exited(_, code) => Exit(code) in before
      case TimedOut(_) => WaitCtxErr(before) == DeadlineExceeded && Cancel !in before
      case CanceledRun(_, idle) => Cancel in before && (idle <==> IdleReason in before)
      case WaitError(_) => WaitFailed in before && Cancel !in before
    }
  }

  predicate ImageAllowed(image: string, allowed: seq<string>, base: string) {
    if |allowed| > 0 then image in allowed else image == base
  }

  /** What a finished run owes, whatever happened around it. */
  ghost predicate Settled(own: Trace, outcome: Outcome) {
    // One terminal status, "completed" exactly on success.
    && (exists r :: ReportsAt(own, r, outcome))
    // The tracker entry is dropped once, and the status was sent while it was still there.
    && (exists u :: UntracksAt(own, u))
    // Each container it created is removed at the end or as soon as starting it failed.
    && (forall i :: 0 <= i < |own| && own[i].Created? ==> RemovedAfter(own, i))
    // Whatever is removed after the wait is removed once the entry is gone.
    && (forall i, j :: 0 <= i < j < |own| && own[i].SetId? && own[j].RemovalTried? ==> Untrack in own[i..j])
  }

  ghost predicate ReportsAt(own: Trace, r: nat, outcome: Outcome) {
    && r < |own| && own[r] == Report(if outcome.Success? then Completed else Failed)
    && (forall k :: 0 <= k < |own| && own[k].Report? ==> k == r)
  }

  ghost predicate UntracksAt(own: Trace, u: nat) {
    && u < |own| && own[u].Untrack?
    && (forall k :: 0 <= k < |own| && own[k].Untrack? ==> k == u)
    && (forall k :: 0 <= k < |own| && (own[k].Report? || own[k].KillTried? || own[k].Attached?) ==> k < u)
  }

  ghost predicate RemovedAfter(own: Trace, i: nat)
    requires i < |own| && own[i].Created?
  {
    exists j :: i < j < |own| && own[j] == RemovalTried(own[i].id)
  }

  /** The run's actions, given how it ends. */
  function RunEffects(ending: Ending, image: string, interactive: bool): Trace {
    match ending
    case NotCreated => [Report(Failed), Untrack]
    case NotStarted(id) => [Created(id, image), RemovalTried(id), Report(Failed), Untrack]
    case _ =>
      [Created(ending.id, image)] + (if interactive then [Attached(ending.id)] else []) + [SetId(ending.id)]
      + WaitEffects(ending) + [Untrack, RemovalTried(ending.id)]
  }

  /** Only a container that did not exit by itself is killed. */
  function WaitEffects(ending: Ending): Trace
    requires !ending.NotCreated? && !ending.NotStarted?
  {
    match ending
    case Exited(_, code) => [Report(if code == 0 then Completed else Failed)]
    case TimedOut(id) => [KillTried(id), Report(Failed)]
    case CanceledRun(id, _) => [KillTried(id), Report(Failed)]
    case WaitError(id) => [KillTried(id), Report(Failed)]
  }

  /** A run that got as far as waiting ends in report, untrack, removal. */
  lemma WaitedIsSettled(ending: Ending, image: string, interactive: bool)
    requires !ending.NotCreated? && !ending.NotStarted?
    ensures Settled(RunEffects(ending, image, interactive), ending.Outcome())
  {
    var own, outcome := RunEffects(ending, image, interactive), ending.Outcome();
    var n := |own|;
    assert own[n - 3].Report? && own[n - 2] == Untrack && own[n - 1] == RemovalTried(ending.id);
    assert own[0] == Created(ending.id, image);
    assert ReportsAt(own, n - 3, outcome) && UntracksAt(own, n - 2) && RemovedAfter(own, 0);
    forall i, j | 0 <= i < j < n && own[i].SetId? && own[j].RemovalTried? ensures Untrack in own[i..j] {
      assert j == n - 1 && own[i..j][n - 2 - i] == Untrack;
    }
  }

  /** Every ending settles what the run owes. */
  lemma RunIsSettled(ending: Ending, image: string, interactive: bool)
    ensures Settled(RunEffects(ending, image, interactive), ending.Outcome())
  {
    var own, outcome := RunEffects(ending, image, interactive), ending.Outcome();
    if ending.NotCreated? {
      assert ReportsAt(own, 0, outcome) && UntracksAt(own, 1);
    } else if ending.NotStarted? {
      assert own[1] == RemovalTried(own[0].id);
      assert ReportsAt(own, 2, outcome) && UntracksAt(own, 3) && RemovedAfter(own, 0);
    } else {
      WaitedIsSettled(ending, image, interactive);
    }
  }

  /** The pieces of a run that got as far as waiting, put together. */
  lemma RunEffectsInOrder(ending: Ending, image: string, interactive: bool,
                          start: Trace, created: Trace, named: Trace, end: Trace)
    requires !ending.NotCreated? && !ending.NotStarted?
    requires created == start + [Created(ending.id, image)] + if interactive then [Attached(ending.id)] else []
    requires named == created + [SetId(ending.id)]
    requires end == named + WaitEffects(ending) + [Untrack, RemovalTried(ending.id)]
    ensures end == start + RunEffects(ending, image, interactive)
  {
  }

  /** The first result ContainerWait delivered. */
  function ExitCode(trace: Trace): (code: Option<int>)
    ensures code.Some? ==> Exit(code.value) in trace
    ensures code.None? ==> forall i :: 0 <= i < |trace| ==> !trace[i].Exit?
  {
    if trace == [] then None
    else
      var before := ExitCode(trace[..|trace| - 1]);
      if before.Some? then before
      else if trace[|trace| - 1].Exit? then Some(trace[|trace| - 1].code)
      else None
  }

  /** Some case of the select in waitAndCleanup can be taken. */
  predicate IsReady(trace: Trace) {
    ExitCode(trace).Some? || WaitFailed in trace || WaitCtxErr(trace) != Alive
  }

  lemma ArrivalIsReady(trace: Trace, arrival: Event)
    requires IsOutside(arrival) && !arrival.IdleReason?
    ensures IsReady(trace + [arrival])
  {
    var now := trace + [arrival];
    assert now[|trace|] == arrival && arrival in now;
    WaitCtxErrSays(now);
  }

  datatype Config = Config(
    runnerImage: string, baseImage: string, allowedImages: seq<string>, interactive: bool)
  {
    function Image(): string {
      if runnerImage == "" then baseImage else runnerImage
    }
  }

  /** What Docker and the steps before it answer while the container is started. */
  datatype Docker = Docker(
    prepared: bool,   // image pull, token, secrets
    created: bool, id: Id, started: bool, attached: bool)
  {
    predicate Creates() {
      prepared && created
    }

    predicate Starts(interactive: bool) {
      started && (interactive ==> attached)
    }
  }

  datatype Choice = WaitCh(code: int) | ErrCh | Done

  /** What the run does before it waits. */
  function Begun(id: Id, config: Config): Trace {
    [Created(id, config.Image())] + (if config.interactive then [Attached(id)] else []) + [SetId(id)]
  }

  /** "Completed" is sent only for a container seen to exit with code 0. */
  ghost predicate CompletedIsTrue(before: Trace, now: Trace) {
    forall k :: |before| <= k < |now| && now[k] == Report(Completed) ==> Exit(0) in now[..k]
  }

  lemma NeverCompleted(before: Trace, now: Trace, acts: Trace)
    requires before <= now && Own(now) == Own(before) + acts && Report(Completed) !in acts
    ensures CompletedIsTrue(before, now)
  {
    var since := DoneSince(before, now);
    assert Own(now)[|Own(before)|..] == acts && Own(now)[|Own(before)|..] == Own(since);
    NotDone(since, Report(Completed));
    assert forall k :: |before| <= k < |now| ==> now[k] == since[k - |before|];
  }

  lemma CompletedComesLate(before: Trace, decided: Trace, now: Trace, begun: Trace)
    requires before <= decided <= now && Exit(0) in decided
    requires Own(decided) == Own(before) + begun && Report(Completed) !in begun
    ensures CompletedIsTrue(before, now)
  {
    NeverCompleted(before, decided, begun);
    var i :| 0 <= i < |decided| && decided[i] == Exit(0);
    forall k | |before| <= k < |now| && now[k] == Report(Completed) ensures Exit(0) in now[..k] {
      if k < |decided| {
        assert decided[k] == Report(Completed) && now[..k] == decided[..k];
      } else {
        assert now[..k][i] == Exit(0);
      }
    }
  }

  /** The outcome by what happened, written out. */
  lemma EndingSays(ending: Ending, seen: Trace)
    requires ending.Justified(seen)
    ensures ending.Outcome() == Success <==> ending.Exited? && ending.code == 0
    ensures ending.Outcome() == Timeout <==> ending.TimedOut?
    ensures ending.Outcome() == IdleTimeout <==> ending.CanceledRun? && IdleReason in seen
    ensures ending.Outcome() == Killed <==> ending.CanceledRun? && IdleReason !in seen
    ensures ending.Exited? ==> Exit(ending.code) in seen
    ensures ending.TimedOut? ==> Deadline in seen && Cancel !in seen
    ensures ending.CanceledRun? ==> Cancel in seen
    ensures ending.WaitError? ==> WaitFailed in seen && Cancel !in seen
  {
    WaitCtxErrSays(seen);
  }

  /** What it does, in order, written out. */
  lemma EffectsSay(before: Trace, now: Trace, ending: Ending, config: Config)
    requires Own(now) == Own(before) + RunEffects(ending, config.Image(), config.interactive)
    ensures match ending
            case NotCreated => Own(now) == Own(before) + [Report(Failed), Untrack]
            case NotStarted(id) =>
              Own(now) == Own(before) + [Created(id, config.Image()), RemovalTried(id), Report(Failed), Untrack]
            case Exited(id, code) =>
              Own(now) == Own(before) + Begun(id, config)
                          + [Report(if code == 0 then Completed else Failed), Untrack, RemovalTried(id)]
            case _ =>
              Own(now) == Own(before) + Begun(ending.id, config)
                          + [KillTried(ending.id), Report(Failed), Untrack, RemovalTried(ending.id)]
  {
  }

  lemma CompletedIsTrueAfter(before: Trace, now: Trace, at: nat, ending: Ending, config: Config)
    requires before <= now && |before| <= at <= |now| && ending.Justified(now[..at])
    requires Own(now) == Own(before) + RunEffects(ending, config.Image(), config.interactive)
    requires ending.Exited? ==> Own(now[..at]) == Own(before) + Begun(ending.id, config)
    ensures CompletedIsTrue(before, now)
  {
    if ending.Exited? && ending.code == 0 {
      CompletedComesLate(before, now[..at], now, Begun(ending.id, config));
    } else {
      NeverCompleted(before, now, RunEffects(ending, config.Image(), config.interactive));
    }
  }

  class CardRun {
    var trace: Trace
    var waiting: bool      // waitCtx exists, so its deadline may pass

    constructor ()
      ensures trace == [] && !waiting
    {
      trace, waiting := [], false;
    }

    /** Time passes: anything outside may happen, any number of times. */
    method Outside()
      modifies this`trace
      ensures old(trace) <= trace
      ensures Own(trace) == Own(old(trace))
      ensures !waiting && Deadline !in old(trace) ==> Deadline !in trace
    {
      var events: Trace := *;
      if AllOutside(events) && (waiting || Deadline !in events) {
        OwnOutside(trace, events);
        trace := trace + events;
      }
    }

    /** The run does something itself. */
    method Act(e: Event)
      requires !IsOutside(e)
      modifies this`trace
      ensures old(trace) <= trace
      ensures Own(trace) == Own(old(trace)) + [e]
      ensures !waiting && Deadline !in old(trace) ==> Deadline !in trace
    {
      Outside();
      OwnPush(trace, e);
      trace := trace + [e];
    }

    /** Run, short of a panic.  `at` is how long the trace was when the outcome was decided. */
    method Run(config: Config, docker: Docker) returns (outcome: Outcome, ghost ending: Ending, ghost at: nat)
      requires !waiting && Deadline !in trace
      modifies this
      ensures old(trace) <= trace && |old(trace)| <= at <= |trace|
      // The outcome returned, by what happened.
      ensures outcome == Success <==> ending.Exited? && ending.code == 0
      ensures outcome == Timeout <==> ending.TimedOut?
      ensures outcome == IdleTimeout <==> ending.CanceledRun? && IdleReason in trace[..at]
      ensures outcome == Killed <==> ending.CanceledRun? && IdleReason !in trace[..at]
      ensures ending.Exited? ==> Exit(ending.code) in trace[..at]
      ensures ending.TimedOut? ==> Deadline in trace[..at] && Cancel !in trace[..at]
      ensures ending.CanceledRun? ==> Cancel in trace[..at]
      ensures ending.WaitError? ==> WaitFailed in trace[..at] && Cancel !in trace[..at]
      ensures outcome == ending.Outcome() && ending.Justified(trace[..at])
      // How far it gets.
      ensures ending.NotCreated? <==>
                !ImageAllowed(config.Image(), config.allowedImages, config.baseImage) || !docker.Creates()
      ensures !ending.NotCreated? ==>
                && ending.id == docker.id
                && (ending.NotStarted? <==> !docker.Starts(config.interactive))
      // What it does, in order.
      ensures ending.NotCreated? ==> Own(trace) == Own(old(trace)) + [Report(Failed), Untrack]
      ensures ending.NotStarted? ==>
                Own(trace) == Own(old(trace)) + [Created(docker.id, config.Image()), RemovalTried(docker.id),
                                                 Report(Failed), Untrack]
      ensures ending.Exited? ==>
                Own(trace) == Own(old(trace)) + Begun(docker.id, config)
                              + [Report(if ending.code == 0 then Completed else Failed), Untrack,
                                 RemovalTried(docker.id)]
      ensures ending.TimedOut? || ending.CanceledRun? || ending.WaitError? ==>
                Own(trace) == Own(old(trace)) + Begun(docker.id, config)
                              + [KillTried(docker.id), Report(Failed), Untrack, RemovalTried(docker.id)]
      ensures Settled(RunEffects(ending, config.Image(), config.interactive), outcome)
      ensures CompletedIsTrue(old(trace), trace)
    {
      outcome, ending, at := Perform(config, docker);
      RunIsSettled(ending, config.Image(), config.interactive);
      EndingSays(ending, trace[..at]);
      EffectsSay(old(trace), trace, ending, config);
      CompletedIsTrueAfter(old(trace), trace, at, ending, config);
    }

    method Perform(config: Config, docker: Docker) returns (outcome: Outcome, ghost ending: Ending, ghost at: nat)
      requires !waiting && Deadline !in trace
      modifies this
      ensures old(trace) <= trace && |old(trace)| <= at <= |trace|
      ensures outcome == ending.Outcome() && ending.Justified(trace[..at])
      ensures ending.NotCreated? <==>
                !ImageAllowed(config.Image(), config.allowedImages, config.baseImage) || !docker.Creates()
      ensures !ending.NotCreated? ==>
                && ending.id == docker.id
                && (ending.NotStarted? <==> !docker.Starts(config.interactive))
      ensures ending.Exited? ==> Own(trace[..at]) == Own(old(trace)) + Begun(ending.id, config)
      ensures Own(trace) == Own(old(trace)) + RunEffects(ending, config.Image(), config.interactive)
    {
      ghost var before := trace;
      var id;
      id, ending := StartContainer(config, docker);
      if id.None? {
        outcome, at := ReportUnstarted(ending);
      } else {
        outcome, ending, at := RunStarted(config, id.value, before);
      }
    }

    /** The rest of it, once the container has started. */
    method RunStarted(config: Config, id: Id, ghost before: Trace)
      returns (outcome: Outcome, ghost ending: Ending, ghost at: nat)
      requires !waiting && Deadline !in trace
      requires before <= trace && Own(trace) == Own(before) + [Created(id, config.Image())]
                                                + if config.interactive then [Attached(id)] else []
      modifies this
      ensures old(trace) <= trace && |old(trace)| <= at <= |trace|
      ensures !ending.NotCreated? && !ending.NotStarted? && ending.id == id
      ensures outcome == ending.Outcome() && ending.Justified(trace[..at])
      ensures ending.Exited? ==> Own(trace[..at]) == Own(before) + Begun(id, config)
      ensures Own(trace) == Own(before) + RunEffects(ending, config.Image(), config.interactive)
    {
      ghost var start, created := Own(before), Own(trace);
      Act(SetId(id));
      ghost var named := Own(trace);
      assert named == start + Begun(id, config);
      outcome, ending, at := WaitAndCleanup(id);
      RunEffectsInOrder(ending, config.Image(), config.interactive, start, created, named, Own(trace));
    }

    /** The error branch of run. */
    method ReportUnstarted(ghost ending: Ending) returns (outcome: Outcome, ghost at: nat)
      modifies this`trace
      ensures old(trace) <= trace && |old(trace)| == at
      ensures outcome == Failure && Own(trace) == Own(old(trace)) + [Report(Failed), Untrack]
    {
      at := |trace|;
      Act(Report(Failed));
      Act(Untrack);
      outcome := Failure;
    }

    method StartContainer(config: Config, docker: Docker) returns (id: Option<Id>, ghost failure: Ending)
      requires !waiting && Deadline !in trace
      modifies this`trace
      ensures old(trace) <= trace && Deadline !in trace
      ensures id == (if ImageAllowed(config.Image(), config.allowedImages, config.baseImage)
                        && docker.Creates() && docker.Starts(config.interactive) then Some(docker.id) else None)
      ensures id.Some? ==> Own(trace) == Own(old(trace)) + [Created(docker.id, config.Image())]
                                        + if config.interactive then [Attached(docker.id)] else []
      ensures id.None? ==>
                if ImageAllowed(config.Image(), config.allowedImages, config.baseImage) && docker.Creates() then
                  && failure == NotStarted(docker.id)
                  && Own(trace) == Own(old(trace)) + [Created(docker.id, config.Image()), RemovalTried(docker.id)]
                else failure.NotCreated? && Own(trace) == Own(old(trace))
    {
      failure := NotCreated;
      var image := config.Image();
      if |config.allowedImages| > 0 {
        if image !in config.allowedImages {
          return None, failure;
        }
      } else if image != config.baseImage {
        return None, failure;
      }
      Outside();
      if !docker.prepared || !docker.created {
        return None, failure;
      }
      Act(Created(docker.id, image));
      Outside();
      if !docker.started {
        Act(RemovalTried(docker.id));
        return None, NotStarted(docker.id);
      }
      if config.interactive {
        Outside();
        if !docker.attached {
          Act(RemovalTried(docker.id));
          return None, NotStarted(docker.id);
        }
        Act(Attached(docker.id));
      }
      id := Some(docker.id);
    }

    /** The deferred calls run in reverse order once the body has returned. */
    method WaitAndCleanup(id: Id) returns (outcome: Outcome, ghost ending: Ending, ghost at: nat)
      requires !waiting && Deadline !in trace
      modifies this
      ensures old(trace) <= trace && |old(trace)| <= at <= |trace|
      ensures !ending.NotCreated? && !ending.NotStarted? && ending.id == id
      ensures outcome == ending.Outcome() && ending.Justified(trace[..at])
      ensures ending.Exited? ==> Own(trace[..at]) == Own(old(trace))
      ensures Own(trace) == Own(old(trace)) + WaitEffects(ending) + [Untrack, RemovalTried(id)]
    {
      outcome, ending, at := WaitForEnd(id);
      ghost var decided := trace[..at];
      Act(Untrack);
      assert trace[..at] == decided;
      Act(RemovalTried(id));
      assert trace[..at] == decided;
    }

    method WaitForEnd(id: Id) returns (outcome: Outcome, ghost ending: Ending, ghost at: nat)
      requires !waiting && Deadline !in trace
      modifies this
      ensures old(trace) <= trace && |old(trace)| <= at <= |trace|
      ensures !ending.NotCreated? && !ending.NotStarted? && ending.id == id
      ensures outcome == ending.Outcome() && ending.Justified(trace[..at])
      ensures ending.Exited? ==> Own(trace[..at]) == Own(old(trace))
      ensures Own(trace) == Own(old(trace)) + WaitEffects(ending)
    {
      waiting := true;
      var choice := Select();
      match choice
      case WaitCh(code) =>
        at := |trace|;
        ghost var decided := trace;
        Act(Report(if code == 0 then Completed else Failed));
        assert trace[..at] == decided;
        return if code == 0 then Success else Failure, Exited(id, code), at;
      case ErrCh =>
        outcome, ending, at := HandleWaitErr(id);
      case Done =>
        outcome, ending, at := HandleCanceled(id);
    }

    /** The select over the two channels of ContainerWait and the run's context: it returns when
        one of them is ready, and if several are, with any of those. */
    method Select() returns (choice: Choice)
      modifies this`trace
      ensures old(trace) <= trace && Own(trace) == Own(old(trace))
      ensures match choice
              case WaitCh(code) => Exit(code) in trace
              case ErrCh => WaitFailed in trace || WaitCtxErr(trace) != Alive
              case Done => Cancel in trace
    {
      Outside();
      if !IsReady(trace) {
        var arrival: Event := *;
        if !IsOutside(arrival) || arrival.IdleReason? {
          arrival := Cancel;
        }
        OwnPush(trace, arrival);
        ArrivalIsReady(trace, arrival);
        trace := trace + [arrival];
      }
      if
      case ExitCode(trace).Some? => choice := WaitCh(ExitCode(trace).value);
      case WaitFailed in trace || WaitCtxErr(trace) != Alive => choice := ErrCh;
      case Cancel in trace => choice := Done;
    }

    /** The errCh branch, which tells apart a timeout, a cancellation and an error of Docker's. */
    method HandleWaitErr(id: Id) returns (outcome: Outcome, ghost ending: Ending, ghost at: nat)
      requires WaitFailed in trace || WaitCtxErr(trace) != Alive
      modifies this`trace
      ensures old(trace) <= trace && |old(trace)| <= at <= |trace|
      ensures !ending.NotCreated? && !ending.NotStarted? && !ending.Exited? && ending.id == id
      ensures outcome == ending.Outcome() && ending.Justified(trace[..at])
      ensures WaitCtxErr(old(trace)) == DeadlineExceeded && Cancel !in trace[..at] ==> ending.TimedOut?
      ensures Own(trace) == Own(old(trace)) + [KillTried(id), Report(Failed)]
    {
      ghost var fired := trace;
      Outside();
      var waitErr := WaitCtxErr(trace);   // read before the run's own context
      ghost var read := trace;
      ErrChSays(fired, fired, read);
      Outside();
      var cancelled := Cancel in trace;
      at := |trace|;
      ghost var decided := trace;
      if waitErr == DeadlineExceeded && !cancelled {
        ErrChSays(fired, read, trace);
        outcome, ending := HandleWaitTimeout(id);
        assert trace[..at] == decided;
        return;
      }
      Outside();
      cancelled := Cancel in trace;
      if cancelled {
        outcome, ending, at := HandleCanceled(id);
        return;
      }
      at, decided := |trace|, trace;
      ErrChSays(fired, read, trace);
      outcome, ending := HandleWaitError(id);
      assert trace[..at] == decided;
    }

    method HandleWaitTimeout(id: Id) returns (outcome: Outcome, ghost ending: Ending)
      modifies this`trace
      ensures old(trace) <= trace
      ensures outcome == Timeout && ending == TimedOut(id)
      ensures Own(trace) == Own(old(trace)) + [KillTried(id), Report(Failed)]
    {
      Act(KillTried(id));
      Act(Report(Failed));
      return Timeout, TimedOut(id);
    }

    method HandleWaitError(id: Id) returns (outcome: Outcome, ghost ending: Ending)
      modifies this`trace
      ensures old(trace) <= trace
      ensures outcome == Failure && ending == WaitError(id)
      ensures Own(trace) == Own(old(trace)) + [KillTried(id), Report(Failed)]
    {
      Act(KillTried(id));
      Act(Report(Failed));
      return Failure, WaitError(id);
    }

    method HandleCanceled(id: Id) returns (outcome: Outcome, ghost ending: Ending, ghost at: nat)
      requires Cancel in trace
      modifies this`trace
      ensures old(trace) <= trace && |old(trace)| <= at <= |trace|
      ensures ending.CanceledRun? && ending.id == id
      ensures outcome == if IdleReason in trace[..at] then IdleTimeout else Killed
      ensures outcome == ending.Outcome() && ending.Justified(trace[..at])
      ensures Cancel in trace[..at]
      ensures Own(trace) == Own(old(trace)) + [KillTried(id), Report(Failed)]
    {
      Outside();
      var idle := IdleReason in trace;   // tracker.Reason, while the entry is still there
      at := |trace|;
      ghost var decided := trace;
      Act(KillTried(id));
      Act(Report(Failed));
      assert trace[..at] == decided;
      outcome := if idle then IdleTimeout else Killed;
      ending := CanceledRun(id, idle);
    }
  }

  /** What a ready error channel means, once both contexts have been looked at. */
  lemma ErrChSays(fired: Trace, read: Trace, now: Trace)
    requires fired <= read <= now
    requires WaitFailed in fired || WaitCtxErr(fired) != Alive
    ensures WaitCtxErr(read) == DeadlineExceeded ==> WaitCtxErr(now) == DeadlineExceeded
    ensures Cancel !in now && WaitCtxErr(read) != DeadlineExceeded ==> WaitFailed in now
  {
    assert read == now[..|read|] && fired == read[..|fired|];
    if WaitCtxErr(read) != Alive {
      WaitCtxErrStays(now, |read|);
    }
    if WaitCtxErr(fired) != Alive {
      WaitCtxErrStays(read, |fired|);
      WaitCtxErrSays(fired);
    }
  }
}
