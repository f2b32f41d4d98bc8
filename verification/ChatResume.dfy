/** Who owns a chat's resume directory and redaction secrets: handleChatStart in
    internal/webhook/chat.go, StartChat, DeleteChatCleanup, WaitAndCleanupChat and StreamChatLogs in
    internal/container/manager.go.

    Any number of chat starts and their wait goroutines interleave; each lock of chatCleanup or
    chatSecrets, each Docker call and each directory removal is a step of its own. */
module ChatResume {
  import opened Prelude

  type Tid = nat   // a call of handleChatStart
  type Cid = Tid   // the container it creates; Docker's IDs are unique
  type Dir = Tid   // the directory it makes; the random nonce keeps them apart

  /** chatResumeDelivery: None is the empty DirPath. */
  type Delivery = Option<Dir>

  datatype Pc =
    | Begin                      // image pull and secrets
    | MakeDir                    // prepareChatResume: before the directory exists
    | WriteFiles(d: Dir)
    | DropDir(d: Dir)            // prepareChatResume failed: RemoveAll
    | Create(rd: Delivery)
    | StartContainer(rd: Delivery)
    | DropResume(rd: Delivery)   // create or start failed: removeChatResume
    | Stash(rd: Delivery)        // the container runs
    | StashSecrets
    | AddChat
    | StopContainer              // rollback: Manager.Stop, first ContainerStop
    | RemoveContainer            // then ContainerRemove, by force
    | PopCleanup                 // DeleteChatCleanup
    | DropSecrets(rd: Delivery, found: bool)
    | DropDelivery(rd: Delivery, found: bool)
    | Attach                     // WaitAndCleanupChat was called
    | StopDetached               // rollback of a failed attach: the two calls of Manager.Stop
    | RemoveDetached
    | PopSecrets                 // StreamChatLogs
    | Returned

  datatype Waiter =
    | NotSpawned
    | WaitPop
    | Waiting(rd: Delivery, found: bool)     // in ContainerWait
    | WaitError(rd: Delivery, found: bool)   // which failed: was it the deadline?
    | Kill(rd: Delivery, found: bool)        // it was: killContainer
    | WaitRemove(rd: Delivery, found: bool)  // about to remove the container
    | WaitDrop(rd: Delivery, found: bool)    // about to remove the directory
    | WaitSecrets
    | WaitDone

  /** How a call that ends the container, or waits for its end, went. */
  datatype Attempt = Untried | Worked | Failed

  datatype Start = Start(
    resume: bool,      // the request asks for rehydration
    pc: Pc,
    waiter: Waiter,
    mounted: bool,     // the container was created with the directory mounted
    ran: bool,         // ContainerStart succeeded
    runs: bool,        // the container runs, whether or not anyone knows
    stop: Attempt,     // Manager.Stop of a rollback: ContainerStop
    forced: Attempt,   // and ContainerRemove
    wait: Attempt,     // ContainerWait
    kill: Attempt,     // ContainerStop after the deadline
    removal: Attempt   // ContainerRemove after the wait
  ) {
    predicate NothingWorked() {
      !stop.Worked? && !forced.Worked? && !wait.Worked? && !kill.Worked? && !removal.Worked?
    }

    /** The container runs for all that any call has reported. */
    predicate MayRun() {
      ran && NothingWorked()
    }
  }

  datatype State = State(
    starts: map<Tid, Start>,
    dirs: map<Dir, nat>,              // for each directory ever made, how often it was removed
    chatCleanup: map<Cid, Delivery>,
    chatSecrets: set<Cid>
  )

  const Init := State(map[], map[], map[], {})

  // ----- Steps -----

  function Put(s: State, h: Tid, start: Start): State {
    s.(starts := s.starts[h := start])
  }

  function Goto(s: State, h: Tid, pc: Pc): State
    requires h in s.starts
  {
    Put(s, h, s.starts[h].(pc := pc))
  }

  function GotoWaiter(s: State, h: Tid, waiter: Waiter): State
    requires h in s.starts
  {
    Put(s, h, s.starts[h].(waiter := waiter))
  }

  function RemoveChatResume(s: State, rd: Delivery): State {
    if rd.None? || rd.value !in s.dirs then s else s.(dirs := s.dirs[rd.value := s.dirs[rd.value] + 1])
  }

  function Found(s: State, c: Cid): Delivery {
    if c in s.chatCleanup then s.chatCleanup[c] else None
  }

  function Tried(ok: bool): Attempt {
    if ok then Worked else Failed
  }

  predicate Preparing(pc: Pc) {
    pc.Begin? || pc.MakeDir? || pc.WriteFiles? || pc.DropDir? || pc.Create?
  }

  predicate Starting(pc: Pc) {
    pc.StartContainer? || pc.DropResume? || pc.Stash? || pc.StashSecrets?
  }

  predicate Stopping(pc: Pc) {
    pc.AddChat? || pc.StopContainer? || pc.RemoveContainer?
  }

  predicate Discarding(pc: Pc) {
    pc.PopCleanup? || pc.DropSecrets? || pc.DropDelivery?
  }

  /** The wait goroutine has been spawned, or never will be. */
  predicate Ending(pc: Pc) {
    pc.Attach? || pc.StopDetached? || pc.RemoveDetached? || pc.PopSecrets? || pc.Returned?
  }

  /** The handler's next step; `ok` says whether whatever may fail in it succeeds. */
  function DoHandler(s: State, h: Tid, ok: bool): State
    requires h in s.starts
  {
    var pc := s.starts[h].pc;
    if Preparing(pc) then DoPrepare(s, h, ok)
    else if Starting(pc) then DoStart(s, h, ok)
    else if Stopping(pc) then DoStop(s, h, ok)
    else if Discarding(pc) then DoDiscard(s, h)
    else DoEnd(s, h, ok)
  }

  /** StartChat up to ContainerCreate. */
  function DoPrepare(s: State, h: Tid, ok: bool): State
    requires h in s.starts
  {
    match s.starts[h].pc
    case Begin => Goto(s, h, if !ok then Returned else if s.starts[h].resume then MakeDir else Create(None))
    case MakeDir =>
      // A failed preparation is not fatal: the container starts without rehydration.
      if !ok || h in s.dirs then Goto(s, h, Create(None)) else Goto(s, h, WriteFiles(h)).(dirs := s.dirs[h := 0])
    case WriteFiles(d) => Goto(s, h, if ok then Create(Some(d)) else DropDir(d))
    case DropDir(d) => Goto(RemoveChatResume(s, Some(d)), h, Create(None))
    case Create(rd) =>
      if ok then Put(s, h, s.starts[h].(pc := StartContainer(rd), mounted := rd.Some?))
      else Goto(s, h, DropResume(rd))
    case _ => s
  }

  /** The rest of StartChat. */
  function DoStart(s: State, h: Tid, ok: bool): State
    requires h in s.starts
  {
    match s.starts[h].pc
    case StartContainer(rd) =>
      if ok then Put(s, h, s.starts[h].(pc := Stash(rd), ran := true, runs := true)) else Goto(s, h, DropResume(rd))
    case DropResume(rd) => Goto(RemoveChatResume(s, rd), h, Returned)
    case Stash(rd) => Goto(s, h, StashSecrets).(chatCleanup := s.chatCleanup[h := rd])
    case StashSecrets => Goto(s, h, AddChat).(chatSecrets := s.chatSecrets + {h})
    case _ => s
  }

  /** AddChatIfUnderLimit and, if it fails, Manager.Stop, both of whose calls are made whatever
      becomes of the first, and whose failure is only logged. */
  function DoStop(s: State, h: Tid, ok: bool): State
    requires h in s.starts
  {
    var start := s.starts[h];
    match start.pc
    case AddChat => if ok then Put(s, h, start.(pc := Attach, waiter := WaitPop)) else Goto(s, h, StopContainer)
    case StopContainer => Put(s, h, start.(pc := RemoveContainer, stop := Tried(ok), runs := start.runs && !ok))
    case RemoveContainer => Put(s, h, start.(pc := PopCleanup, forced := Tried(ok), runs := start.runs && !ok))
    case _ => s
  }

  /** DeleteChatCleanup. */
  function DoDiscard(s: State, h: Tid): State
    requires h in s.starts
  {
    match s.starts[h].pc
    case PopCleanup =>
      Goto(s, h, DropSecrets(Found(s, h), h in s.chatCleanup)).(chatCleanup := s.chatCleanup - {h})
    case DropSecrets(rd, found) => Goto(s, h, DropDelivery(rd, found)).(chatSecrets := s.chatSecrets - {h})
    case DropDelivery(rd, found) => Goto(if found then RemoveChatResume(s, rd) else s, h, Returned)
    case _ => s
  }

  /** The handler beside the wait goroutine. */
  function DoEnd(s: State, h: Tid, ok: bool): State
    requires h in s.starts
  {
    var start := s.starts[h];
    match start.pc
    case Attach => Goto(s, h, if ok then PopSecrets else StopDetached)
    case StopDetached => Put(s, h, start.(pc := RemoveDetached, stop := Tried(ok), runs := start.runs && !ok))
    case RemoveDetached => Put(s, h, start.(pc := Returned, forced := Tried(ok), runs := start.runs && !ok))
    case PopSecrets => Goto(s, h, Returned).(chatSecrets := s.chatSecrets - {h})
    case _ => s
  }

  predicate AtWait(waiter: Waiter) {
    waiter.WaitPop? || waiter.Waiting? || waiter.WaitError? || waiter.Kill?
  }

  predicate Cleaning(waiter: Waiter) {
    waiter.WaitRemove? || waiter.WaitDrop? || waiter.WaitSecrets?
  }

  /** The wait goroutine's next step; `ok` as above.  ContainerWait does not report the end of a
      container that runs; it may fail at any time. */
  function DoWaiter(s: State, h: Tid, ok: bool): State
    requires h in s.starts
  {
    var waiter := s.starts[h].waiter;
    if AtWait(waiter) then DoWait(s, h, ok) else if Cleaning(waiter) then DoCleanup(s, h, ok) else s
  }

  function DoWait(s: State, h: Tid, ok: bool): State
    requires h in s.starts
  {
    var start := s.starts[h];
    match start.waiter
    case WaitPop =>
      GotoWaiter(s, h, Waiting(Found(s, h), h in s.chatCleanup)).(chatCleanup := s.chatCleanup - {h})
    case Waiting(rd, found) =>
      if !ok then Put(s, h, start.(waiter := WaitError(rd, found), wait := Failed))
      else if start.runs then s
      else Put(s, h, start.(waiter := WaitRemove(rd, found), wait := Worked))
    case WaitError(rd, found) => GotoWaiter(s, h, if ok then Kill(rd, found) else WaitRemove(rd, found))
    case Kill(rd, found) =>
      Put(s, h, start.(waiter := WaitRemove(rd, found), kill := Tried(ok), runs := start.runs && !ok))
    case _ => s
  }

  function DoCleanup(s: State, h: Tid, ok: bool): State
    requires h in s.starts
  {
    var start := s.starts[h];
    match start.waiter
    case WaitRemove(rd, found) =>
      Put(s, h, start.(waiter := WaitDrop(rd, found), removal := Tried(ok), runs := start.runs && !ok))
    case WaitDrop(rd, found) => GotoWaiter(if found then RemoveChatResume(s, rd) else s, h, WaitSecrets)
    case WaitSecrets => GotoWaiter(s, h, WaitDone).(chatSecrets := s.chatSecrets - {h})
    case _ => s
  }

  function Call(s: State, h: Tid, resume: bool): State {
    Put(s, h, Start(resume, Begin, NotSpawned, false, false, false, Untried, Untried, Untried, Untried, Untried))
  }

  /** The container comes to its end by itself or by another hand, /chat/end's for one. */
  function Exit(s: State, h: Tid): State
    requires h in s.starts
  {
    Put(s, h, s.starts[h].(runs := false))
  }

  ghost predicate Next(s: State, s': State) {
    || (exists h, resume :: h !in s.starts && s' == Call(s, h, resume))
    || (exists h, ok :: h in s.starts && s' == DoHandler(s, h, ok))
    || (exists h, ok :: h in s.starts && s' == DoWaiter(s, h, ok))
    || (exists h :: h in s.starts && s' == Exit(s, h))
  }

  // ----- The invariant: one owner at a time -----

  /** Where the delivery of a start is: not made yet, in the hands of the handler or the wait
      goroutine, in chatCleanup, or done with. */
  datatype Custody = Unmade | InHand(rd: Delivery) | Stashed | Released

  function CustodyOf(start: Start): Custody {
    match start.waiter
    case NotSpawned => HandlersCustody(start.pc)
    case WaitPop => Stashed
    case WaitSecrets => Released
    case WaitDone => Released
    case _ => InHand(start.waiter.rd)
  }

  function HandlersCustody(pc: Pc): Custody {
    match pc
    case WriteFiles(d) => InHand(Some(d))
    case DropDir(d) => InHand(Some(d))
    case Create(rd) => InHand(rd)
    case StartContainer(rd) => InHand(rd)
    case DropResume(rd) => InHand(rd)
    case Stash(rd) => InHand(rd)
    case DropSecrets(rd, _) => InHand(rd)
    case DropDelivery(rd, _) => InHand(rd)
    case _ => if pc.Begin? || pc.MakeDir? then Unmade else if Ending(pc) then Released else Stashed
  }

  /** Whoever holds this delivery holds the only reference to a directory not yet removed, and
      the container, once created, has just that mounted. */
  predicate Held(s: State, h: Tid, rd: Delivery)
    requires h in s.starts
  {
    && (match rd
        case Some(d) => d == h && h in s.dirs && s.dirs[h] == 0
        case None => h in s.dirs ==> s.dirs[h] == 1)
    && (s.starts[h].mounted ==> rd.Some?)
    && (Created(s.starts[h].pc) && rd.Some? ==> s.starts[h].mounted)
  }

  predicate Created(pc: Pc) {
    !Preparing(pc) && !pc.DropResume?
  }

  ghost predicate CustodyOk(s: State, h: Tid) {
    if h !in s.starts then h !in s.chatCleanup && h !in s.dirs
    else
      && (h in s.chatCleanup <==> CustodyOf(s.starts[h]).Stashed?)
      && match CustodyOf(s.starts[h])
         case Unmade => h !in s.dirs && !s.starts[h].mounted
         case InHand(rd) => Held(s, h, rd)
         case Stashed => Held(s, h, s.chatCleanup[h])
         case Released => if h in s.dirs then s.dirs[h] == 1 else !s.starts[h].mounted
  }

  /** What was found in chatCleanup is not forgotten. */
  predicate FoundOk(start: Start) {
    && (start.pc.DropSecrets? || start.pc.DropDelivery? ==> start.pc.found)
    && (AtWait(start.waiter) && !start.waiter.WaitPop? ==> start.waiter.found)
    && (start.waiter.WaitRemove? || start.waiter.WaitDrop? ==> start.waiter.found)
    && if start.waiter.NotSpawned? then Ending(start.pc) ==> start.pc.Returned? else Ending(start.pc)
  }

  /** Secrets are put aside after StartChat's last failure, and are there until the log stream
      takes them or whoever comes last drops them. */
  predicate SecretsOk(s: State, h: Tid) {
    h in s.chatSecrets <==> h in s.starts && HasSecrets(s.starts[h])
  }

  predicate HasSecrets(start: Start) {
    if start.waiter.NotSpawned? then Stopping(start.pc) || start.pc.PopCleanup? || start.pc.DropSecrets?
    else !start.waiter.WaitDone? && (start.pc.Returned? ==> !start.stop.Untried?)
  }

  /** Which calls have been made by now on the container's behalf. */
  predicate CallsOk(start: Start) {
    && (start.runs ==> start.MayRun())
    && (start.mounted ==> !Preparing(start.pc))
    && (start.ran ==> !Preparing(start.pc) && !start.pc.StartContainer? && !start.pc.DropResume?)
    && (start.pc.Stash? || start.pc.StashSecrets? || Stopping(start.pc) || Discarding(start.pc) ==> start.ran)
    && if start.waiter.NotSpawned? then HandlerCallsOk(start) else start.ran && Ending(start.pc) && WaiterCallsOk(start)
  }

  predicate HandlerCallsOk(start: Start) {
    && (Ending(start.pc) ==> start.pc.Returned?)
    && start.wait.Untried? && start.kill.Untried? && start.removal.Untried?
    && (start.stop.Untried? <==>
          !start.pc.RemoveContainer? && !Discarding(start.pc) && !(start.pc.Returned? && start.ran))
    && (start.forced.Untried? <==> !Discarding(start.pc) && !(start.pc.Returned? && start.ran))
  }

  predicate WaiterCallsOk(start: Start) {
    && (start.pc.Attach? || start.pc.StopDetached? || start.pc.PopSecrets? ==> start.stop.Untried?)
    && (start.pc.RemoveDetached? ==> !start.stop.Untried?)
    && (start.wait.Untried? <==> start.waiter.WaitPop? || start.waiter.Waiting?)
    && (start.wait.Worked? ==> !AtWait(start.waiter) && start.kill.Untried?)
    && (AtWait(start.waiter) ==> start.kill.Untried?)
    && (start.removal.Untried? <==> AtWait(start.waiter) || start.waiter.WaitRemove?)
  }

  ghost predicate StartOk(s: State, h: Tid) {
    CustodyOk(s, h) && SecretsOk(s, h) && (h in s.starts ==> FoundOk(s.starts[h]) && CallsOk(s.starts[h]))
  }

  ghost predicate Inv(s: State) {
    forall h {:trigger StartOk(s, h)} :: StartOk(s, h)
  }

  /** Nothing of start g differs between the two states. */
  predicate Untouched(s: State, s': State, g: Tid) {
    && (g in s.starts <==> g in s'.starts) && (g in s.starts ==> s.starts[g] == s'.starts[g])
    && (g in s.dirs <==> g in s'.dirs) && (g in s.dirs ==> s.dirs[g] == s'.dirs[g])
    && (g in s.chatCleanup <==> g in s'.chatCleanup)
    && (g in s.chatCleanup ==> s.chatCleanup[g] == s'.chatCleanup[g])
    && (g in s.chatSecrets <==> g in s'.chatSecrets)
  }

  ghost predicate OnlyTouched(s: State, s': State, h: Tid) {
    forall g :: g != h ==> Untouched(s, s', g)
  }

  /** What a step of start h has to see to. */
  ghost predicate Keeps(s: State, s': State, h: Tid) {
    StartOk(s', h) && OnlyTouched(s, s', h)
  }

  lemma BeginCustody(s: State, s': State, h: Tid, ok: bool)
    requires h in s.starts && s' == DoPrepare(s, h, ok) && StartOk(s, h)
    requires var pc := s.starts[h].pc; pc.Begin? || pc.MakeDir?
    ensures CustodyOk(s', h) && OnlyTouched(s, s', h)
  {
  }

  lemma BeginCalls(s: State, s': State, h: Tid, ok: bool)
    requires h in s.starts && s' == DoPrepare(s, h, ok) && StartOk(s, h)
    requires var pc := s.starts[h].pc; pc.Begin? || pc.MakeDir?
    ensures SecretsOk(s', h) && h in s'.starts && FoundOk(s'.starts[h]) && CallsOk(s'.starts[h])
  {
  }

  lemma PrepareCustody(s: State, s': State, h: Tid, ok: bool)
    requires h in s.starts && s' == DoPrepare(s, h, ok) && StartOk(s, h)
    requires var pc := s.starts[h].pc; pc.WriteFiles? || pc.DropDir? || pc.Create?
    ensures CustodyOk(s', h) && OnlyTouched(s, s', h)
  {
  }

  lemma PrepareCalls(s: State, s': State, h: Tid, ok: bool)
    requires h in s.starts && s' == DoPrepare(s, h, ok) && StartOk(s, h)
    requires var pc := s.starts[h].pc; pc.WriteFiles? || pc.DropDir? || pc.Create?
    ensures SecretsOk(s', h) && h in s'.starts && FoundOk(s'.starts[h]) && CallsOk(s'.starts[h])
  {
  }

  lemma StartCustody(s: State, s': State, h: Tid, ok: bool)
    requires h in s.starts && s' == DoStart(s, h, ok) && StartOk(s, h)
    requires var pc := s.starts[h].pc; pc.StartContainer? || pc.DropResume?
    ensures CustodyOk(s', h) && OnlyTouched(s, s', h)
  {
  }

  lemma StartCalls(s: State, s': State, h: Tid, ok: bool)
    requires h in s.starts && s' == DoStart(s, h, ok) && StartOk(s, h)
    requires var pc := s.starts[h].pc; pc.StartContainer? || pc.DropResume?
    ensures SecretsOk(s', h) && h in s'.starts && FoundOk(s'.starts[h]) && CallsOk(s'.starts[h])
  {
  }

  lemma StashCustody(s: State, s': State, h: Tid, ok: bool)
    requires h in s.starts && s' == DoStart(s, h, ok) && StartOk(s, h)
    requires var pc := s.starts[h].pc; pc.Stash? || pc.StashSecrets?
    ensures CustodyOk(s', h) && OnlyTouched(s, s', h)
  {
  }

  lemma StashCalls(s: State, s': State, h: Tid, ok: bool)
    requires h in s.starts && s' == DoStart(s, h, ok) && StartOk(s, h)
    requires var pc := s.starts[h].pc; pc.Stash? || pc.StashSecrets?
    ensures SecretsOk(s', h) && h in s'.starts && FoundOk(s'.starts[h]) && CallsOk(s'.starts[h])
  {
  }

  lemma TrackCustody(s: State, s': State, h: Tid, ok: bool)
    requires h in s.starts && s' == DoStop(s, h, ok) && StartOk(s, h)
    requires var pc := s.starts[h].pc; pc.AddChat?
    ensures CustodyOk(s', h) && OnlyTouched(s, s', h)
  {
  }

  lemma TrackCalls(s: State, s': State, h: Tid, ok: bool)
    requires h in s.starts && s' == DoStop(s, h, ok) && StartOk(s, h)
    requires var pc := s.starts[h].pc; pc.AddChat?
    ensures SecretsOk(s', h) && h in s'.starts && FoundOk(s'.starts[h]) && CallsOk(s'.starts[h])
  {
  }

  lemma StopCustody(s: State, s': State, h: Tid, ok: bool)
    requires h in s.starts && s' == DoStop(s, h, ok) && StartOk(s, h)
    requires var pc := s.starts[h].pc; pc.StopContainer? || pc.RemoveContainer?
    ensures CustodyOk(s', h) && OnlyTouched(s, s', h)
  {
  }

  lemma StopCalls(s: State, s': State, h: Tid, ok: bool)
    requires h in s.starts && s' == DoStop(s, h, ok) && StartOk(s, h)
    requires var pc := s.starts[h].pc; pc.StopContainer? || pc.RemoveContainer?
    ensures SecretsOk(s', h) && h in s'.starts && FoundOk(s'.starts[h]) && CallsOk(s'.starts[h])
  {
  }

  lemma DiscardCustody(s: State, s': State, h: Tid)
    requires h in s.starts && s' == DoDiscard(s, h) && StartOk(s, h)
    requires var pc := s.starts[h].pc; pc.PopCleanup? || pc.DropSecrets?
    ensures CustodyOk(s', h) && OnlyTouched(s, s', h)
  {
  }

  lemma DiscardCalls(s: State, s': State, h: Tid)
    requires h in s.starts && s' == DoDiscard(s, h) && StartOk(s, h)
    requires var pc := s.starts[h].pc; pc.PopCleanup? || pc.DropSecrets?
    ensures SecretsOk(s', h) && h in s'.starts && FoundOk(s'.starts[h]) && CallsOk(s'.starts[h])
  {
  }

  lemma DropCustody(s: State, s': State, h: Tid)
    requires h in s.starts && s' == DoDiscard(s, h) && StartOk(s, h)
    requires var pc := s.starts[h].pc; pc.DropDelivery?
    ensures CustodyOk(s', h) && OnlyTouched(s, s', h)
  {
  }

  lemma DropCalls(s: State, s': State, h: Tid)
    requires h in s.starts && s' == DoDiscard(s, h) && StartOk(s, h)
    requires var pc := s.starts[h].pc; pc.DropDelivery?
    ensures SecretsOk(s', h) && h in s'.starts && FoundOk(s'.starts[h]) && CallsOk(s'.starts[h])
  {
  }

  lemma AttachCustody(s: State, s': State, h: Tid, ok: bool)
    requires h in s.starts && s' == DoEnd(s, h, ok) && StartOk(s, h)
    requires var pc := s.starts[h].pc; pc.Attach?
    ensures CustodyOk(s', h) && OnlyTouched(s, s', h)
  {
  }

  lemma AttachCalls(s: State, s': State, h: Tid, ok: bool)
    requires h in s.starts && s' == DoEnd(s, h, ok) && StartOk(s, h)
    requires var pc := s.starts[h].pc; pc.Attach?
    ensures SecretsOk(s', h) && h in s'.starts && FoundOk(s'.starts[h]) && CallsOk(s'.starts[h])
  {
  }

  lemma DetachCustody(s: State, s': State, h: Tid, ok: bool)
    requires h in s.starts && s' == DoEnd(s, h, ok) && StartOk(s, h)
    requires var pc := s.starts[h].pc; pc.StopDetached? || pc.RemoveDetached?
    ensures CustodyOk(s', h) && OnlyTouched(s, s', h)
  {
  }

  lemma DetachCalls(s: State, s': State, h: Tid, ok: bool)
    requires h in s.starts && s' == DoEnd(s, h, ok) && StartOk(s, h)
    requires var pc := s.starts[h].pc; pc.StopDetached? || pc.RemoveDetached?
    ensures SecretsOk(s', h) && h in s'.starts && FoundOk(s'.starts[h]) && CallsOk(s'.starts[h])
  {
  }

  lemma ReturnCustody(s: State, s': State, h: Tid, ok: bool)
    requires h in s.starts && s' == DoEnd(s, h, ok) && StartOk(s, h)
    requires var pc := s.starts[h].pc; pc.PopSecrets? || pc.Returned?
    ensures CustodyOk(s', h) && OnlyTouched(s, s', h)
  {
  }

  lemma ReturnCalls(s: State, s': State, h: Tid, ok: bool)
    requires h in s.starts && s' == DoEnd(s, h, ok) && StartOk(s, h)
    requires var pc := s.starts[h].pc; pc.PopSecrets? || pc.Returned?
    ensures SecretsOk(s', h) && h in s'.starts && FoundOk(s'.starts[h]) && CallsOk(s'.starts[h])
  {
  }

  lemma WaitCustody(s: State, s': State, h: Tid, ok: bool)
    requires h in s.starts && s' == DoWait(s, h, ok) && StartOk(s, h)
    requires var waiter := s.starts[h].waiter; waiter.WaitPop? || waiter.Waiting?
    ensures CustodyOk(s', h) && OnlyTouched(s, s', h)
  {
  }

  lemma WaitCalls(s: State, s': State, h: Tid, ok: bool)
    requires h in s.starts && s' == DoWait(s, h, ok) && StartOk(s, h)
    requires var waiter := s.starts[h].waiter; waiter.WaitPop? || waiter.Waiting?
    ensures SecretsOk(s', h) && h in s'.starts && FoundOk(s'.starts[h]) && CallsOk(s'.starts[h])
  {
  }

  lemma KillCustody(s: State, s': State, h: Tid, ok: bool)
    requires h in s.starts && s' == DoWait(s, h, ok) && StartOk(s, h)
    requires var waiter := s.starts[h].waiter; waiter.WaitError? || waiter.Kill?
    ensures CustodyOk(s', h) && OnlyTouched(s, s', h)
  {
  }

  lemma KillCalls(s: State, s': State, h: Tid, ok: bool)
    requires h in s.starts && s' == DoWait(s, h, ok) && StartOk(s, h)
    requires var waiter := s.starts[h].waiter; waiter.WaitError? || waiter.Kill?
    ensures SecretsOk(s', h) && h in s'.starts && FoundOk(s'.starts[h]) && CallsOk(s'.starts[h])
  {
  }

  lemma RemoveCustody(s: State, s': State, h: Tid, ok: bool)
    requires h in s.starts && s' == DoCleanup(s, h, ok) && StartOk(s, h)
    requires var waiter := s.starts[h].waiter; waiter.WaitRemove? || waiter.WaitDrop?
    ensures CustodyOk(s', h) && OnlyTouched(s, s', h)
  {
  }

  lemma RemoveCalls(s: State, s': State, h: Tid, ok: bool)
    requires h in s.starts && s' == DoCleanup(s, h, ok) && StartOk(s, h)
    requires var waiter := s.starts[h].waiter; waiter.WaitRemove? || waiter.WaitDrop?
    ensures SecretsOk(s', h) && h in s'.starts && FoundOk(s'.starts[h]) && CallsOk(s'.starts[h])
  {
  }

  lemma ForgetCustody(s: State, s': State, h: Tid, ok: bool)
    requires h in s.starts && s' == DoCleanup(s, h, ok) && StartOk(s, h)
    requires var waiter := s.starts[h].waiter; waiter.WaitSecrets?
    ensures CustodyOk(s', h) && OnlyTouched(s, s', h)
  {
  }

  lemma ForgetCalls(s: State, s': State, h: Tid, ok: bool)
    requires h in s.starts && s' == DoCleanup(s, h, ok) && StartOk(s, h)
    requires var waiter := s.starts[h].waiter; waiter.WaitSecrets?
    ensures SecretsOk(s', h) && h in s'.starts && FoundOk(s'.starts[h]) && CallsOk(s'.starts[h])
  {
  }

  lemma CallKeeps(s: State, h: Tid, resume: bool)
    requires StartOk(s, h) && h !in s.starts
    ensures Keeps(s, Call(s, h, resume), h)
  {
  }

  lemma ExitKeeps(s: State, h: Tid)
    requires h in s.starts && StartOk(s, h)
    ensures Keeps(s, Exit(s, h), h)
  {
  }

  lemma HandlerKeeps(s: State, h: Tid, ok: bool)
    requires h in s.starts && StartOk(s, h)
    ensures Keeps(s, DoHandler(s, h, ok), h)
  {
    var pc, s' := s.starts[h].pc, DoHandler(s, h, ok);
    if pc.Begin? || pc.MakeDir? {
      BeginCustody(s, s', h, ok);
      BeginCalls(s, s', h, ok);
    } else if Preparing(pc) {
      PrepareCustody(s, s', h, ok);
      PrepareCalls(s, s', h, ok);
    } else if pc.StartContainer? || pc.DropResume? {
      StartCustody(s, s', h, ok);
      StartCalls(s, s', h, ok);
    } else if Starting(pc) {
      StashCustody(s, s', h, ok);
      StashCalls(s, s', h, ok);
    } else if pc.AddChat? {
      TrackCustody(s, s', h, ok);
      TrackCalls(s, s', h, ok);
    } else if Stopping(pc) {
      StopCustody(s, s', h, ok);
      StopCalls(s, s', h, ok);
    } else if pc.DropDelivery? {
      DropCustody(s, s', h);
      DropCalls(s, s', h);
    } else if Discarding(pc) {
      DiscardCustody(s, s', h);
      DiscardCalls(s, s', h);
    } else if pc.PopSecrets? || pc.Returned? {
      ReturnCustody(s, s', h, ok);
      ReturnCalls(s, s', h, ok);
    } else if pc.Attach? {
      AttachCustody(s, s', h, ok);
      AttachCalls(s, s', h, ok);
    } else {
      DetachCustody(s, s', h, ok);
      DetachCalls(s, s', h, ok);
    }
  }

  lemma WaiterKeeps(s: State, h: Tid, ok: bool)
    requires h in s.starts && StartOk(s, h)
    ensures Keeps(s, DoWaiter(s, h, ok), h)
  {
    var waiter, s' := s.starts[h].waiter, DoWaiter(s, h, ok);
    if waiter.WaitPop? || waiter.Waiting? {
      WaitCustody(s, s', h, ok);
      WaitCalls(s, s', h, ok);
    } else if AtWait(waiter) {
      KillCustody(s, s', h, ok);
      KillCalls(s, s', h, ok);
    } else if waiter.WaitSecrets? {
      ForgetCustody(s, s', h, ok);
      ForgetCalls(s, s', h, ok);
    } else if Cleaning(waiter) {
      RemoveCustody(s, s', h, ok);
      RemoveCalls(s, s', h, ok);
    }
  }

  lemma UntouchedKeeps(s: State, s': State, g: Tid)
    requires StartOk(s, g) && Untouched(s, s', g)
    ensures StartOk(s', g)
  {
  }

  lemma KeepsKeepsInv(s: State, s': State, h: Tid)
    requires Inv(s) && Keeps(s, s', h)
    ensures Inv(s')
  {
    forall g ensures StartOk(s', g) {
      assert StartOk(s, g);
      if g != h {
        UntouchedKeeps(s, s', g);
      }
    }
  }

  lemma NextKeepsInv(s: State, s': State)
    requires Inv(s) && Next(s, s')
    ensures Inv(s')
  {
    if h, ok :| h in s.starts && s' == DoHandler(s, h, ok) {
      assert StartOk(s, h);
      HandlerKeeps(s, h, ok);
      KeepsKeepsInv(s, s', h);
    } else if h, ok :| h in s.starts && s' == DoWaiter(s, h, ok) {
      assert StartOk(s, h);
      WaiterKeeps(s, h, ok);
      KeepsKeepsInv(s, s', h);
    } else if h :| h in s.starts && s' == Exit(s, h) {
      assert StartOk(s, h);
      ExitKeeps(s, h);
      KeepsKeepsInv(s, s', h);
    } else {
      var h, resume :| h !in s.starts && s' == Call(s, h, resume);
      assert StartOk(s, h);
      CallKeeps(s, h, resume);
      KeepsKeepsInv(s, s', h);
    }
  }

  ghost predicate IsRun(run: seq<State>) {
    && |run| > 0 && run[0] == Init
    && (forall i :: 0 < i < |run| ==> Follows(run, i))
  }

  ghost predicate Follows(run: seq<State>, i: nat)
    requires 0 < i < |run|
  {
    Next(run[i - 1], run[i])
  }

  lemma {:induction false} RunKeepsInv(run: seq<State>, i: nat)
    requires IsRun(run) && i < |run|
    ensures Inv(run[i])
  {
    if i > 0 {
      RunKeepsInv(run, i - 1);
      assert Follows(run, i);
      NextKeepsInv(run[i - 1], run[i]);
    }
  }
}
