/** internal/tracker/tracker.go: attach, write, close, mark-closed and remove of a
    container's stdin, interleaved in every way.

    Each call runs on its own thread, and so do the goroutines of closeStdinAsync and
    closeWriterAsync, which continue the thread that starts them.  A step of a thread ends
    where the next one could block or become visible: at a lock, or inside Write, Close, a
    cancel function or onClose. */
module StdinProtocol {
  import opened Prelude

  type Tid = nat
  type EntryId = nat   // the thread that added the entry
  type Writer = Tid    // the thread that handed the writer over; its onClose goes by the same name

  datatype Op = Add | SetStdin | WriteStdin | CloseStdin | MarkStdinClosed | Remove | Cancel | CancelWithReason

  datatype Outcome = Finished | AlreadyTracked | NotTracked | NoStdinAttached | StdinClosed

  datatype Pc =
    | Wait(key: string, op: Op)               // wants tracker.mu
    | In(key: string, op: Op)                 // holds tracker.mu, about to look the key up
    | Lock(e: EntryId, op: Op)                // wants stdin.mu; SetStdin still holds tracker.mu
    | Held(e: EntryId, op: Op)                // holds stdin.mu
    | Writing(e: EntryId, w: Writer)          // inside Write, holding stdin.mu
    | Closing(e: EntryId, w: Writer, op: Op)  // inside Close, holding stdin.mu
    | Closed(e: EntryId, w: Writer, op: Op)   // Close has returned, the field not yet cleared
    | Attached(e: EntryId)                    // SetStdin: stdin.mu released, tracker.mu not yet
    | LateClose                               // closeWriterAsync: inside Close
    | LateOnClose                             // closeWriterAsync: inside onClose
    | LateDone
    | RunCancel(e: EntryId)                   // Remove: inside the cancel function, no lock held
    | TakeOnClose(e: EntryId)                 // closeStdinAsync: holds stdin.mu, writer cleared
    | RunOnClose(e: EntryId, w: Writer)       // closeStdinAsync: inside onClose, no lock held
    | Removed(e: EntryId)
    | Cancelling(of: EntryId)                 // Cancel, CancelWithReason: inside the cancel function, no lock held
    | Done(outcome: Outcome)

  /** A call and, for a SetStdin, the record of the writer it hands over. */
  datatype Thread = Thread(
    pc: Pc,
    key: string, op: Op,    // the call
    wrote: seq<Writer>,     // the writers it called Write on
    cancelled: seq<EntryId>,   // the entries whose cancel function it called
    home: Option<EntryId>,  // the entry the writer was attached to
    closes: nat,            // times the tracker closed it
    runs: nat,              // times its onClose ran
    marked: bool,           // given up by MarkStdinClosed
    lost: bool              // overwritten by a later attach to the same entry
  )

  /** A tracker entry.  info.stdin is non-nil exactly when `current` is set. */
  datatype Entry = Entry(
    key: string,
    mu: Option<Tid>,           // holder of stdin.mu
    writer: Option<Writer>,    // stdin.stdin
    closing: bool,             // Close has returned, stdin.stdin is not yet cleared
    onClose: Option<Writer>,   // stdin.onClose
    pending: Option<Writer>,   // the onClose closeStdinAsync has taken and not yet run to its end
    current: Option<Writer>,   // the last writer attached
    removedBy: Option<Tid>     // the Remove call that deleted the entry from the map
  )

  datatype State = State(
    containers: map<string, EntryId>,
    entries: map<EntryId, Entry>,
    threads: map<Tid, Thread>,
    writeLock: Option<Tid>,   // tracker.mu held for writing
    readLocks: set<Tid>,      // tracker.mu held for reading
    badWrites: nat            // writes to a writer already closed by the tracker or given up
  )

  const Init := State(map[], map[], map[], None, {}, 0)

  predicate HasEntry(pc: Pc) {
    pc.Lock? || pc.Held? || pc.Writing? || pc.Closing? || pc.Closed? || pc.Attached? ||
    pc.RunCancel? || pc.TakeOnClose? || pc.RunOnClose? || pc.Removed?
  }

  predicate HasWriter(pc: Pc) {
    pc.Writing? || pc.Closing? || pc.Closed? || pc.RunOnClose?
  }

  /** These take tracker.mu for writing, the others for reading. */
  predicate Writes(op: Op) {
    op.Add? || op.SetStdin? || op.Remove? || op.CancelWithReason?
  }

  // ----- Steps -----

  function Goto(s: State, t: Tid, pc: Pc): State
    requires t in s.threads
  {
    s.(threads := s.threads[t := s.threads[t].(pc := pc)])
  }

  function SetEntry(s: State, e: EntryId, entry: Entry): State {
    s.(entries := s.entries[e := entry])
  }

  function SetThread(s: State, t: Tid, thread: Thread): State {
    s.(threads := s.threads[t := thread])
  }

  /** The thread's next step can be taken now.  Only a lock can be in the way; that a call into
      a writer or callback may take forever is modelled by that step never being taken. */
  predicate Enabled(s: State, t: Tid)
    requires t in s.threads
  {
    match s.threads[t].pc
    case Wait(_, op) => s.writeLock.None? && (Writes(op) ==> s.readLocks == {})
    case Lock(e, _) => e in s.entries && s.entries[e].mu.None?
    case LateDone => false
    case Removed(_) => false
    case Done(_) => false
    case _ => true
  }

  /** Everything the thread refers to exists; NamesExist shows that this is never in the way. */
  predicate Named(s: State, t: Tid)
    requires t in s.threads
  {
    var pc := s.threads[t].pc;
    && (HasEntry(pc) ==> pc.e in s.entries)
    && (HasWriter(pc) ==> pc.w in s.threads)
    && (pc.Held? && s.entries[pc.e].current.Some? ==> s.entries[pc.e].current.value in s.threads)
    && (pc.Held? && s.entries[pc.e].writer.Some? ==> s.entries[pc.e].writer.value in s.threads)
    && (pc.In? && pc.key in s.containers ==> s.containers[pc.key] in s.entries)
  }

  /** One step of thread t. */
  function Do(s: State, t: Tid): State
    requires t in s.threads && Enabled(s, t) && Named(s, t)
  {
    match s.threads[t].pc
    case Wait(key, op) =>
      if Writes(op) then Goto(s, t, In(key, op)).(writeLock := Some(t))
      else Goto(s, t, In(key, op)).(readLocks := s.readLocks + {t})
    case In(key, op) => DoLookup(s, t, key, op)
    case Lock(e, op) => SetEntry(Goto(s, t, Held(e, op)), e, s.entries[e].(mu := Some(t)))
    case Held(e, op) => DoHeld(s, t, e, op)
    case Writing(e, w) =>
      SetEntry(SetThread(s, t, s.threads[t].(pc := Done(Finished), wrote := s.threads[t].wrote + [w])),
               e, s.entries[e].(mu := None))
      .(badWrites := s.badWrites + if s.threads[w].closes > 0 || s.threads[w].marked then 1 else 0)
    case Closing(e, w, op) =>
      SetEntry(Goto(SetThread(s, w, s.threads[w].(closes := s.threads[w].closes + 1)), t, Closed(e, w, op)),
               e, s.entries[e].(closing := true))
    case Closed(e, w, op) =>
      var cleared := s.entries[e].(writer := None, closing := false);
      if op == Remove then SetEntry(Goto(s, t, TakeOnClose(e)), e, cleared)
      else SetEntry(Goto(s, t, Done(Finished)), e, cleared.(mu := None))
    case Attached(e) => Goto(s, t, Done(Finished)).(writeLock := None)
    case LateClose => SetThread(s, t, s.threads[t].(pc := LateOnClose, closes := s.threads[t].closes + 1))
    case LateOnClose => SetThread(s, t, s.threads[t].(pc := LateDone, runs := s.threads[t].runs + 1))
    case RunCancel(e) =>
      SetThread(s, t, s.threads[t].(pc := if s.entries[e].current.Some? then Lock(e, Remove) else Removed(e),
                                    cancelled := s.threads[t].cancelled + [e]))
    case TakeOnClose(e) =>
      var onClose := s.entries[e].onClose;
      SetEntry(Goto(s, t, if onClose.Some? then RunOnClose(e, onClose.value) else Removed(e)),
               e, s.entries[e].(onClose := None, pending := onClose, mu := None))
    case RunOnClose(e, w) =>
      SetEntry(Goto(SetThread(s, w, s.threads[w].(runs := s.threads[w].runs + 1)), t, Removed(e)),
               e, s.entries[e].(pending := None))
    case Cancelling(e) =>
      SetThread(s, t, s.threads[t].(pc := Done(Finished), cancelled := s.threads[t].cancelled + [e]))
    case _ => s
  }

  /** The critical section under tracker.mu. */
  function DoLookup(s: State, t: Tid, key: string, op: Op): State
    requires t in s.threads && (key in s.containers ==> s.containers[key] in s.entries)
  {
    match op
    case Add =>
      if key in s.containers then Goto(s, t, Done(AlreadyTracked)).(writeLock := None)
      else SetEntry(Goto(s, t, Done(Finished)), t, Entry(key, None, None, false, None, None, None, None))
           .(containers := s.containers[key := t], writeLock := None)
    case SetStdin =>
      if key in s.containers then Goto(s, t, Lock(s.containers[key], op))
      else Goto(s, t, LateClose).(writeLock := None)
    case Remove =>
      if key !in s.containers then Goto(s, t, Done(NotTracked)).(writeLock := None)
      else
        var e := s.containers[key];
        SetEntry(Goto(s, t, RunCancel(e)), e, s.entries[e].(removedBy := Some(t)))
        .(containers := s.containers - {key}, writeLock := None)
    case Cancel =>
      Goto(s, t, if key in s.containers then Cancelling(s.containers[key]) else Done(NotTracked))
      .(readLocks := s.readLocks - {t})
    case CancelWithReason =>
      Goto(s, t, if key in s.containers then Cancelling(s.containers[key]) else Done(NotTracked))
      .(writeLock := None)
    case _ =>
      if key !in s.containers then Goto(s, t, Done(NotTracked)).(readLocks := s.readLocks - {t})
      else
        var e := s.containers[key];
        Goto(s, t, if s.entries[e].current.None? then Done(NoStdinAttached) else Lock(e, op))
        .(readLocks := s.readLocks - {t})
  }

  /** The critical section under stdin.mu, up to a call into the writer. */
  function DoHeld(s: State, t: Tid, e: EntryId, op: Op): State
    requires t in s.threads && e in s.entries
    requires s.entries[e].current.Some? ==> s.entries[e].current.value in s.threads
    requires s.entries[e].writer.Some? ==> s.entries[e].writer.value in s.threads
  {
    var writer := s.entries[e].writer;
    match op
    case SetStdin => DoAttach(s, t, e)
    case MarkStdinClosed =>
      var s1 := if writer.Some? then SetThread(s, writer.value, s.threads[writer.value].(marked := true)) else s;
      SetEntry(Goto(s1, t, Done(Finished)), e, s.entries[e].(writer := None, mu := None))
    case WriteStdin =>
      if writer.None? then SetEntry(Goto(s, t, Done(StdinClosed)), e, s.entries[e].(mu := None))
      else Goto(s, t, Writing(e, writer.value))
    case CloseStdin =>
      if writer.None? then SetEntry(Goto(s, t, Done(StdinClosed)), e, s.entries[e].(mu := None))
      else Goto(s, t, Closing(e, writer.value, op))
    case _ =>
      Goto(s, t, if writer.None? then TakeOnClose(e) else Closing(e, writer.value, op))
  }

  /** The assignments under both locks.  A writer attached before is overwritten, not closed. */
  function DoAttach(s: State, t: Tid, e: EntryId): State
    requires t in s.threads && e in s.entries
    requires s.entries[e].current.Some? ==> s.entries[e].current.value in s.threads
  {
    var before := s.entries[e].current;
    var s1 := if before.Some? then SetThread(s, before.value, s.threads[before.value].(lost := true)) else s;
    SetEntry(SetThread(s1, t, s1.threads[t].(pc := Attached(e), home := Some(e))),
             e, s.entries[e].(writer := Some(t), onClose := Some(t), current := Some(t), mu := None))
  }

  function Call(s: State, t: Tid, key: string, op: Op): State {
    SetThread(s, t, Thread(Wait(key, op), key, op, [], [], None, 0, 0, false, false))
  }

  /** Either a new call arrives or some thread takes a step. */
  ghost predicate Next(s: State, s': State) {
    || (exists t, key, op :: t !in s.threads && s' == Call(s, t, key, op))
    || (exists t :: t in s.threads && Enabled(s, t) && Named(s, t) && s' == Do(s, t))
  }

  // ----- The invariant -----

  /** Holds tracker.mu for writing. */
  predicate HoldsWrite(pc: Pc) {
    (pc.In? && Writes(pc.op)) || ((pc.Lock? || pc.Held?) && pc.op.SetStdin?) || pc.Attached?
  }

  /** Holds tracker.mu for reading. */
  predicate HoldsRead(pc: Pc) {
    pc.In? && !Writes(pc.op)
  }

  predicate HoldsStdin(pc: Pc) {
    pc.Held? || pc.Writing? || pc.Closing? || pc.Closed? || pc.TakeOnClose?
  }

  predicate IsRemover(pc: Pc) {
    || pc.RunCancel? || pc.TakeOnClose? || pc.RunOnClose? || pc.Removed?
    || ((pc.Lock? || pc.Held? || pc.Closing? || pc.Closed?) && pc.op == Remove)
  }

  /** Who holds tracker.mu is recorded in both places. */
  ghost predicate LocksOk(s: State, t: Tid) {
    t in s.threads ==>
      && (HoldsWrite(s.threads[t].pc) <==> s.writeLock == Some(t))
      && (HoldsRead(s.threads[t].pc) <==> t in s.readLocks)
  }

  /** A thread inside the critical section of an entry's stdin.mu holds that lock. */
  ghost predicate MutexOk(s: State, t: Tid) {
    t in s.threads && HasEntry(s.threads[t].pc) ==>
      && s.threads[t].pc.e in s.entries
      && (HoldsStdin(s.threads[t].pc) ==> s.entries[s.threads[t].pc.e].mu == Some(t))
  }

  /** And whoever holds it is inside. */
  ghost predicate HolderOk(s: State, e: EntryId) {
    e in s.entries && s.entries[e].mu.Some? ==>
      && s.entries[e].mu.value in s.threads
      && HoldsStdin(s.threads[s.entries[e].mu.value].pc) && s.threads[s.entries[e].mu.value].pc.e == e
  }

  /** Only calls that use a writer get to stdin.mu, and all but SetStdin only once there was one. */
  ghost predicate CallOk(s: State, t: Tid) {
    t in s.threads && HasEntry(s.threads[t].pc) ==>
      var pc := s.threads[t].pc;
      && pc.e in s.entries
      && (pc.Lock? || pc.Held? ==> !pc.op.Add? && !pc.op.Cancel? && !pc.op.CancelWithReason?)
      && (pc.Closing? || pc.Closed? ==> pc.op.CloseStdin? || pc.op.Remove?)
      && (HoldsStdin(pc) || pc.Lock? ==>
            s.entries[pc.e].current.Some? || ((pc.Lock? || pc.Held?) && pc.op.SetStdin?))
  }

  /** The writer a call works on is the entry's, and is not closed unless this call closed it. */
  ghost predicate InUseOk(s: State, t: Tid) {
    t in s.threads && HoldsStdin(s.threads[t].pc) ==>
      var pc := s.threads[t].pc;
      && pc.e in s.entries
      && (pc.Writing? || pc.Closing? || pc.Closed? ==> s.entries[pc.e].writer == Some(pc.w))
      && (s.entries[pc.e].closing <==> pc.Closed?)
  }

  /** Remove owns what it took out of the map: nobody attaches to it any more, and its close
      goroutine leaves nothing behind. */
  ghost predicate RemovalOk(s: State, t: Tid) {
    t in s.threads && HasEntry(s.threads[t].pc) ==>
      var pc := s.threads[t].pc;
      && pc.e in s.entries
      && var entry := s.entries[pc.e];
         && (HoldsWrite(pc) ==> entry.removedBy.None?)
         && (IsRemover(pc) ==> entry.removedBy == Some(t))
         && (IsRemover(pc) && !pc.RunOnClose? ==> entry.pending.None?)
         && (pc.TakeOnClose? || pc.RunOnClose? || pc.Removed? ==> entry.writer.None?)
         && (pc.RunOnClose? || pc.Removed? ==> entry.onClose.None?)
         && (pc.RunOnClose? ==> entry.pending == Some(pc.w))
  }

  /** A SetStdin call that still owns the writer, or owns it again because the entry is gone. */
  predicate OwnsWriter(pc: Pc) {
    || ((pc.Wait? || pc.In? || pc.Lock? || pc.Held?) && pc.op.SetStdin?)
    || pc.LateClose? || pc.LateOnClose? || pc.LateDone?
  }

  /** A writer that was not attached: counted by its own thread's program counter. */
  predicate UnattachedOk(thread: Thread) {
    && (thread.op.SetStdin? <==> OwnsWriter(thread.pc))
    && !thread.marked && !thread.lost
    && thread.closes == (if thread.pc.LateOnClose? || thread.pc.LateDone? then 1 else 0)
    && thread.runs == (if thread.pc.LateDone? then 1 else 0)
  }

  /** An attached writer: its record agrees with its entry. */
  predicate AttachedOk(thread: Thread, w: Writer, entry: Entry)
    requires thread.home.Some?
  {
    && thread.op.SetStdin? && entry.current.Some?
    && (thread.pc == Attached(thread.home.value) || thread.pc == Done(Finished))
    && thread.closes <= 1
    && (thread.lost <==> entry.current != Some(w))
    && (entry.writer == Some(w) ==> !thread.marked && thread.closes == if entry.closing then 1 else 0)
    && (entry.writer != Some(w) && !thread.lost ==> (thread.marked <==> thread.closes == 0))
    && thread.runs == if thread.lost || entry.onClose == Some(w) || entry.pending == Some(w) then 0 else 1
  }

  ghost predicate WriterOk(s: State, w: Writer) {
    w in s.threads ==>
      if s.threads[w].home.None? then UnattachedOk(s.threads[w])
      else s.threads[w].home.value in s.entries && AttachedOk(s.threads[w], w, s.entries[s.threads[w].home.value])
  }

  /** Whatever an entry refers to is its current writer; an entry not removed still has its
      onClose. */
  predicate ShapeOk(entry: Entry) {
    && (entry.writer.Some? ==> entry.writer == entry.current)
    && (entry.onClose.Some? ==> entry.onClose == entry.current)
    && (entry.pending.Some? ==> entry.pending == entry.current)
    && (entry.removedBy.None? ==> entry.onClose == entry.current && entry.pending.None?)
    && (entry.mu.None? ==> !entry.closing)
  }

  ghost predicate EntryOk(s: State, e: EntryId) {
    e in s.entries ==>
      var entry := s.entries[e];
      && ShapeOk(entry)
      && e in s.threads && s.threads[e].pc == Done(Finished)
      && (entry.removedBy.None? <==> entry.key in s.containers && s.containers[entry.key] == e)
      && (entry.current.Some? ==> entry.current.value in s.threads && s.threads[entry.current.value].home == Some(e))
  }

  ghost predicate GlobalOk(s: State) {
    && (forall key :: key in s.containers ==>
          s.containers[key] in s.entries && s.entries[s.containers[key]].key == key)
    && (s.writeLock.Some? ==> s.writeLock.value in s.threads && s.readLocks == {})
    && s.readLocks <= s.threads.Keys
    && s.badWrites == 0
  }

  // ----- Every step keeps it -----

  /** What holds of a thread wherever it is. */
  ghost predicate PcOk(s: State, t: Tid) {
    LocksOk(s, t) && MutexOk(s, t) && CallOk(s, t) && InUseOk(s, t) && RemovalOk(s, t)
  }

  ghost predicate Inv(s: State) {
    && GlobalOk(s)
    && (forall t {:trigger PcOk(s, t)} :: PcOk(s, t))
    && (forall w {:trigger WriterOk(s, w)} :: WriterOk(s, w))
    && (forall e {:trigger EntryOk(s, e)} :: EntryOk(s, e))
    && (forall e {:trigger HolderOk(s, e)} :: HolderOk(s, e))
  }

  /** What one thread relies on while another steps: the entry it works on changes only in
      ways its locks, or its having removed it, do not exclude. */
  predicate EntryRely(a: Entry, b: Entry, u: Tid, writing: bool) {
    && (a.mu == Some(u) ==> b.mu == a.mu && b.writer == a.writer && b.closing == a.closing)
    && (a.current.Some? ==> b.current.Some?)
    && (writing && a.removedBy.None? ==> b.removedBy.None?)
    && (a.removedBy == Some(u) ==>
          && b.removedBy == a.removedBy && b.pending == a.pending
          && (a.writer.None? ==> b.writer.None?) && (a.onClose.None? ==> b.onClose.None?))
  }

  predicate Rely(s: State, s': State, u: Tid) {
    && (u in s.threads <==> u in s'.threads)
    && (u in s.threads ==>
          && s'.threads[u].pc == s.threads[u].pc
          && (s'.writeLock == Some(u) <==> s.writeLock == Some(u))
          && (u in s'.readLocks <==> u in s.readLocks)
          && (HasEntry(s.threads[u].pc) && s.threads[u].pc.e in s.entries ==>
                var e := s.threads[u].pc.e;
                e in s'.entries && EntryRely(s.entries[e], s'.entries[e], u, s.writeLock == Some(u))))
  }

  lemma RelyKeeps(s: State, s': State, u: Tid)
    requires PcOk(s, u) && Rely(s, s', u)
    ensures PcOk(s', u)
  {
  }

  /** What a thread knows as it steps. */
  ghost predicate CanStep(s: State, t: Tid) {
    && t in s.threads && Enabled(s, t) && Named(s, t) && GlobalOk(s) && PcOk(s, t) && EntryOk(s, t) && WriterOk(s, t)
    && var pc := s.threads[t].pc;
       && (pc.In? && pc.key in s.containers ==> EntryOk(s, s.containers[pc.key]))
       && (HasEntry(pc) ==>
             && pc.e in s.entries && EntryOk(s, pc.e)
             && (s.entries[pc.e].current.Some? ==> WriterOk(s, s.entries[pc.e].current.value)))
  }

  /** Thread u, the writer it may have handed over, and entry e. */
  ghost predicate Near(s: State, u: Tid, e: EntryId) {
    && PcOk(s, u) && WriterOk(s, u) && EntryOk(s, e) && HolderOk(s, e)
    && (u in s.threads && s.threads[u].home.Some? ==> EntryOk(s, s.threads[u].home.value))
  }

  /** What a step owes where it happens: its own thread, the locks and the map. */
  ghost predicate Here(s': State, t: Tid) {
    PcOk(s', t) && WriterOk(s', t) && GlobalOk(s')
  }

  /** What it owes every other thread, every other writer and every entry. */
  ghost predicate Elsewhere(s: State, s': State, u: Tid, e: EntryId) {
    Rely(s, s', u) && WriterOk(s', u) && EntryOk(s', e) && HolderOk(s', e)
  }

  lemma WaitHere(s: State, t: Tid)
    requires CanStep(s, t)
    requires s.threads[t].pc.Wait?
    ensures Here(Do(s, t), t)
  {
  }

  lemma WaitElsewhere(s: State, t: Tid, u: Tid, e: EntryId)
    requires CanStep(s, t) && Near(s, u, e) && u != t
    requires s.threads[t].pc.Wait?
    ensures Elsewhere(s, Do(s, t), u, e)
  {
  }

  lemma FindHere(s: State, t: Tid)
    requires CanStep(s, t)
    requires var pc := s.threads[t].pc; pc.In? && pc.op.SetStdin?
    ensures Here(Do(s, t), t)
  {
  }

  lemma FindElsewhere(s: State, t: Tid, u: Tid, e: EntryId)
    requires CanStep(s, t) && Near(s, u, e) && u != t
    requires var pc := s.threads[t].pc; pc.In? && pc.op.SetStdin?
    ensures Elsewhere(s, Do(s, t), u, e)
  {
  }

  lemma LookHere(s: State, t: Tid)
    requires CanStep(s, t)
    requires var pc := s.threads[t].pc; pc.In? && (pc.op.WriteStdin? || pc.op.CloseStdin? || pc.op.MarkStdinClosed?)
    ensures Here(Do(s, t), t)
  {
  }

  lemma LookElsewhere(s: State, t: Tid, u: Tid, e: EntryId)
    requires CanStep(s, t) && Near(s, u, e) && u != t
    requires var pc := s.threads[t].pc; pc.In? && (pc.op.WriteStdin? || pc.op.CloseStdin? || pc.op.MarkStdinClosed?)
    ensures Elsewhere(s, Do(s, t), u, e)
  {
  }

  lemma LookToCancelHere(s: State, t: Tid)
    requires CanStep(s, t)
    requires var pc := s.threads[t].pc; pc.In? && (pc.op.Cancel? || pc.op.CancelWithReason?)
    ensures Here(Do(s, t), t)
  {
  }

  lemma LookToCancelElsewhere(s: State, t: Tid, u: Tid, e: EntryId)
    requires CanStep(s, t) && Near(s, u, e) && u != t
    requires var pc := s.threads[t].pc; pc.In? && (pc.op.Cancel? || pc.op.CancelWithReason?)
    ensures Elsewhere(s, Do(s, t), u, e)
  {
  }

  lemma AddHere(s: State, t: Tid)
    requires CanStep(s, t)
    requires var pc := s.threads[t].pc; pc.In? && pc.op.Add?
    ensures Here(Do(s, t), t)
  {
  }

  lemma AddElsewhere(s: State, t: Tid, u: Tid, e: EntryId)
    requires CanStep(s, t) && Near(s, u, e) && u != t
    requires var pc := s.threads[t].pc; pc.In? && pc.op.Add?
    ensures Elsewhere(s, Do(s, t), u, e)
  {
  }

  lemma DeleteHere(s: State, t: Tid)
    requires CanStep(s, t)
    requires var pc := s.threads[t].pc; pc.In? && pc.op.Remove?
    ensures Here(Do(s, t), t)
  {
  }

  lemma MissElsewhere(s: State, t: Tid, u: Tid, e: EntryId)
    requires CanStep(s, t) && Near(s, u, e) && u != t
    requires var pc := s.threads[t].pc; pc.In? && pc.op.Remove? && pc.key !in s.containers
    ensures Elsewhere(s, Do(s, t), u, e)
  {
  }

  lemma DeleteRely(s: State, t: Tid, u: Tid)
    requires CanStep(s, t) && PcOk(s, u) && u != t
    requires var pc := s.threads[t].pc; pc.In? && pc.op.Remove? && pc.key in s.containers
    ensures Rely(s, Do(s, t), u)
  {
  }

  lemma DeleteElsewhere(s: State, t: Tid, u: Tid, e: EntryId)
    requires CanStep(s, t) && Near(s, u, e) && u != t
    requires var pc := s.threads[t].pc; pc.In? && pc.op.Remove? && pc.key in s.containers
    ensures WriterOk(Do(s, t), u) && EntryOk(Do(s, t), e) && HolderOk(Do(s, t), e)
  {
  }

  lemma LockHere(s: State, t: Tid)
    requires CanStep(s, t)
    requires s.threads[t].pc.Lock?
    ensures Here(Do(s, t), t)
  {
  }

  lemma LockElsewhere(s: State, t: Tid, u: Tid, e: EntryId)
    requires CanStep(s, t) && Near(s, u, e) && u != t
    requires s.threads[t].pc.Lock?
    ensures Elsewhere(s, Do(s, t), u, e)
  {
  }

  lemma AttachHere(s: State, t: Tid)
    requires CanStep(s, t)
    requires var pc := s.threads[t].pc; pc.Held? && pc.op.SetStdin?
    ensures Here(Do(s, t), t)
  {
  }

  lemma AttachElsewhere(s: State, t: Tid, u: Tid, e: EntryId)
    requires CanStep(s, t) && Near(s, u, e) && u != t
    requires var pc := s.threads[t].pc; pc.Held? && pc.op.SetStdin?
    ensures Elsewhere(s, Do(s, t), u, e)
  {
  }

  lemma MarkHere(s: State, t: Tid)
    requires CanStep(s, t)
    requires var pc := s.threads[t].pc; pc.Held? && pc.op.MarkStdinClosed? && s.entries[pc.e].writer.Some?
    ensures Here(Do(s, t), t)
  {
  }

  lemma MarkRely(s: State, t: Tid, u: Tid)
    requires CanStep(s, t) && PcOk(s, u) && u != t
    requires var pc := s.threads[t].pc; pc.Held? && pc.op.MarkStdinClosed? && s.entries[pc.e].writer.Some?
    ensures Rely(s, Do(s, t), u)
  {
  }

  lemma MarkElsewhere(s: State, t: Tid, u: Tid, e: EntryId)
    requires CanStep(s, t) && Near(s, u, e) && u != t
    requires var pc := s.threads[t].pc; pc.Held? && pc.op.MarkStdinClosed? && s.entries[pc.e].writer.Some?
    ensures WriterOk(Do(s, t), u) && EntryOk(Do(s, t), e) && HolderOk(Do(s, t), e)
  {
  }

  lemma RemarkHere(s: State, t: Tid)
    requires CanStep(s, t)
    requires var pc := s.threads[t].pc; pc.Held? && pc.op.MarkStdinClosed? && s.entries[pc.e].writer.None?
    ensures Here(Do(s, t), t)
  {
  }

  lemma RemarkElsewhere(s: State, t: Tid, u: Tid, e: EntryId)
    requires CanStep(s, t) && Near(s, u, e) && u != t
    requires var pc := s.threads[t].pc; pc.Held? && pc.op.MarkStdinClosed? && s.entries[pc.e].writer.None?
    ensures Elsewhere(s, Do(s, t), u, e)
  {
  }

  lemma RefuseHere(s: State, t: Tid)
    requires CanStep(s, t)
    requires var pc := s.threads[t].pc;
             pc.Held? && (pc.op.WriteStdin? || pc.op.CloseStdin?) && s.entries[pc.e].writer.None?
    ensures Here(Do(s, t), t)
  {
  }

  lemma RefuseElsewhere(s: State, t: Tid, u: Tid, e: EntryId)
    requires CanStep(s, t) && Near(s, u, e) && u != t
    requires var pc := s.threads[t].pc;
             pc.Held? && (pc.op.WriteStdin? || pc.op.CloseStdin?) && s.entries[pc.e].writer.None?
    ensures Elsewhere(s, Do(s, t), u, e)
  {
  }

  lemma BeginHere(s: State, t: Tid)
    requires CanStep(s, t)
    requires var pc := s.threads[t].pc;
             pc.Held? && (pc.op.WriteStdin? || pc.op.CloseStdin?) && s.entries[pc.e].writer.Some?
    ensures Here(Do(s, t), t)
  {
  }

  lemma BeginElsewhere(s: State, t: Tid, u: Tid, e: EntryId)
    requires CanStep(s, t) && Near(s, u, e) && u != t
    requires var pc := s.threads[t].pc;
             pc.Held? && (pc.op.WriteStdin? || pc.op.CloseStdin?) && s.entries[pc.e].writer.Some?
    ensures Elsewhere(s, Do(s, t), u, e)
  {
  }

  lemma BeginRemoveHere(s: State, t: Tid)
    requires CanStep(s, t)
    requires var pc := s.threads[t].pc; pc.Held? && pc.op.Remove?
    ensures Here(Do(s, t), t)
  {
  }

  lemma BeginRemoveElsewhere(s: State, t: Tid, u: Tid, e: EntryId)
    requires CanStep(s, t) && Near(s, u, e) && u != t
    requires var pc := s.threads[t].pc; pc.Held? && pc.op.Remove?
    ensures Elsewhere(s, Do(s, t), u, e)
  {
  }

  lemma WriteHere(s: State, t: Tid)
    requires CanStep(s, t)
    requires s.threads[t].pc.Writing?
    ensures Here(Do(s, t), t)
  {
  }

  lemma WriteElsewhere(s: State, t: Tid, u: Tid, e: EntryId)
    requires CanStep(s, t) && Near(s, u, e) && u != t
    requires s.threads[t].pc.Writing?
    ensures Elsewhere(s, Do(s, t), u, e)
  {
  }

  lemma CloseHere(s: State, t: Tid)
    requires CanStep(s, t)
    requires s.threads[t].pc.Closing?
    ensures Here(Do(s, t), t)
  {
  }

  lemma CloseElsewhere(s: State, t: Tid, u: Tid, e: EntryId)
    requires CanStep(s, t) && Near(s, u, e) && u != t
    requires s.threads[t].pc.Closing?
    ensures Elsewhere(s, Do(s, t), u, e)
  {
  }

  lemma ClearHere(s: State, t: Tid)
    requires CanStep(s, t)
    requires var pc := s.threads[t].pc; pc.Closed? && pc.op.CloseStdin?
    ensures Here(Do(s, t), t)
  {
  }

  lemma ClearElsewhere(s: State, t: Tid, u: Tid, e: EntryId)
    requires CanStep(s, t) && Near(s, u, e) && u != t
    requires var pc := s.threads[t].pc; pc.Closed? && pc.op.CloseStdin?
    ensures Elsewhere(s, Do(s, t), u, e)
  {
  }

  lemma ClearRemovedHere(s: State, t: Tid)
    requires CanStep(s, t)
    requires var pc := s.threads[t].pc; pc.Closed? && pc.op.Remove?
    ensures Here(Do(s, t), t)
  {
  }

  lemma ClearRemovedElsewhere(s: State, t: Tid, u: Tid, e: EntryId)
    requires CanStep(s, t) && Near(s, u, e) && u != t
    requires var pc := s.threads[t].pc; pc.Closed? && pc.op.Remove?
    ensures Elsewhere(s, Do(s, t), u, e)
  {
  }

  lemma TakeHere(s: State, t: Tid)
    requires CanStep(s, t)
    requires s.threads[t].pc.TakeOnClose?
    ensures Here(Do(s, t), t)
  {
  }

  lemma TakeElsewhere(s: State, t: Tid, u: Tid, e: EntryId)
    requires CanStep(s, t) && Near(s, u, e) && u != t
    requires s.threads[t].pc.TakeOnClose?
    ensures Elsewhere(s, Do(s, t), u, e)
  {
  }

  lemma RunOnCloseHere(s: State, t: Tid)
    requires CanStep(s, t)
    requires s.threads[t].pc.RunOnClose?
    ensures Here(Do(s, t), t)
  {
  }

  lemma RunOnCloseRely(s: State, t: Tid, u: Tid)
    requires CanStep(s, t) && PcOk(s, u) && u != t
    requires s.threads[t].pc.RunOnClose?
    ensures Rely(s, Do(s, t), u)
  {
  }

  lemma RunOnCloseElsewhere(s: State, t: Tid, u: Tid, e: EntryId)
    requires CanStep(s, t) && Near(s, u, e) && u != t
    requires s.threads[t].pc.RunOnClose?
    ensures WriterOk(Do(s, t), u) && EntryOk(Do(s, t), e) && HolderOk(Do(s, t), e)
  {
  }

  lemma ReturnHere(s: State, t: Tid)
    requires CanStep(s, t)
    requires var pc := s.threads[t].pc; pc.Attached? || pc.Cancelling?
    ensures Here(Do(s, t), t)
  {
  }

  lemma CancelledHere(s: State, t: Tid)
    requires CanStep(s, t)
    requires s.threads[t].pc.RunCancel?
    ensures Here(Do(s, t), t)
  {
  }

  lemma ReturnElsewhere(s: State, t: Tid, u: Tid, e: EntryId)
    requires CanStep(s, t) && Near(s, u, e) && u != t
    requires var pc := s.threads[t].pc; pc.Attached? || pc.Cancelling? || pc.RunCancel?
    ensures Elsewhere(s, Do(s, t), u, e)
  {
  }

  lemma LateHere(s: State, t: Tid)
    requires CanStep(s, t)
    requires var pc := s.threads[t].pc; pc.LateClose? || pc.LateOnClose?
    ensures Here(Do(s, t), t)
  {
  }

  lemma LateElsewhere(s: State, t: Tid, u: Tid, e: EntryId)
    requires CanStep(s, t) && Near(s, u, e) && u != t
    requires var pc := s.threads[t].pc; pc.LateClose? || pc.LateOnClose?
    ensures Elsewhere(s, Do(s, t), u, e)
  {
  }

  lemma LookupHere(s: State, t: Tid)
    requires CanStep(s, t) && s.threads[t].pc.In?
    ensures Here(Do(s, t), t)
  {
    match s.threads[t].pc.op
    case Add => AddHere(s, t);
    case SetStdin => FindHere(s, t);
    case Remove => DeleteHere(s, t);
    case Cancel => LookToCancelHere(s, t);
    case CancelWithReason => LookToCancelHere(s, t);
    case _ => LookHere(s, t);
  }

  lemma HeldHere(s: State, t: Tid)
    requires CanStep(s, t) && s.threads[t].pc.Held?
    ensures Here(Do(s, t), t)
  {
    var op, writer := s.threads[t].pc.op, s.entries[s.threads[t].pc.e].writer;
    if op.SetStdin? {
      AttachHere(s, t);
    } else if op.Remove? {
      BeginRemoveHere(s, t);
    } else if op.MarkStdinClosed? && writer.Some? {
      MarkHere(s, t);
    } else if op.MarkStdinClosed? {
      RemarkHere(s, t);
    } else if writer.Some? {
      BeginHere(s, t);
    } else {
      RefuseHere(s, t);
    }
  }

  lemma ClosingHere(s: State, t: Tid)
    requires CanStep(s, t)
    requires var pc := s.threads[t].pc; pc.Writing? || pc.Closing? || pc.Closed? || pc.TakeOnClose? || pc.RunOnClose?
    ensures Here(Do(s, t), t)
  {
    match s.threads[t].pc
    case Writing(_, _) => WriteHere(s, t);
    case Closing(_, _, _) => CloseHere(s, t);
    case Closed(_, _, op) => if op.Remove? { ClearRemovedHere(s, t); } else { ClearHere(s, t); }
    case TakeOnClose(_) => TakeHere(s, t);
    case RunOnClose(_, _) => RunOnCloseHere(s, t);
  }

  lemma StepHere(s: State, t: Tid)
    requires CanStep(s, t)
    ensures Here(Do(s, t), t)
  {
    match s.threads[t].pc
    case Wait(_, _) => WaitHere(s, t);
    case In(_, _) => LookupHere(s, t);
    case Lock(_, _) => LockHere(s, t);
    case Held(_, _) => HeldHere(s, t);
    case Attached(_) => ReturnHere(s, t);
    case RunCancel(_) => CancelledHere(s, t);
    case Cancelling(_) => ReturnHere(s, t);
    case LateClose => LateHere(s, t);
    case LateOnClose => LateHere(s, t);
    case _ => ClosingHere(s, t);
  }

  lemma LookupElsewhere(s: State, t: Tid, u: Tid, e: EntryId)
    requires CanStep(s, t) && Near(s, u, e) && u != t && s.threads[t].pc.In?
    ensures Elsewhere(s, Do(s, t), u, e)
  {
    match s.threads[t].pc.op
    case Add => AddElsewhere(s, t, u, e);
    case SetStdin => FindElsewhere(s, t, u, e);
    case Remove =>
      if s.threads[t].pc.key in s.containers {
        DeleteRely(s, t, u);
        DeleteElsewhere(s, t, u, e);
      } else {
        MissElsewhere(s, t, u, e);
      }
    case Cancel => LookToCancelElsewhere(s, t, u, e);
    case CancelWithReason => LookToCancelElsewhere(s, t, u, e);
    case _ => LookElsewhere(s, t, u, e);
  }

  lemma HeldElsewhere(s: State, t: Tid, u: Tid, e: EntryId)
    requires CanStep(s, t) && Near(s, u, e) && u != t && s.threads[t].pc.Held?
    ensures Elsewhere(s, Do(s, t), u, e)
  {
    var op, writer := s.threads[t].pc.op, s.entries[s.threads[t].pc.e].writer;
    if op.SetStdin? {
      AttachElsewhere(s, t, u, e);
    } else if op.Remove? {
      BeginRemoveElsewhere(s, t, u, e);
    } else if op.MarkStdinClosed? && writer.Some? {
      MarkRely(s, t, u);
      MarkElsewhere(s, t, u, e);
    } else if op.MarkStdinClosed? {
      RemarkElsewhere(s, t, u, e);
    } else if writer.Some? {
      BeginElsewhere(s, t, u, e);
    } else {
      RefuseElsewhere(s, t, u, e);
    }
  }

  lemma ClosingElsewhere(s: State, t: Tid, u: Tid, e: EntryId)
    requires CanStep(s, t) && Near(s, u, e) && u != t
    requires var pc := s.threads[t].pc; pc.Writing? || pc.Closing? || pc.Closed? || pc.TakeOnClose? || pc.RunOnClose?
    ensures Elsewhere(s, Do(s, t), u, e)
  {
    match s.threads[t].pc
    case Writing(_, _) => WriteElsewhere(s, t, u, e);
    case Closing(_, _, _) => CloseElsewhere(s, t, u, e);
    case Closed(_, _, op) => if op.Remove? { ClearRemovedElsewhere(s, t, u, e); } else { ClearElsewhere(s, t, u, e); }
    case TakeOnClose(_) => TakeElsewhere(s, t, u, e);
    case RunOnClose(_, _) =>
      RunOnCloseRely(s, t, u);
      RunOnCloseElsewhere(s, t, u, e);
  }

  lemma StepElsewhere(s: State, t: Tid, u: Tid, e: EntryId)
    requires CanStep(s, t) && Near(s, u, e) && u != t
    ensures Elsewhere(s, Do(s, t), u, e)
  {
    match s.threads[t].pc
    case Wait(_, _) => WaitElsewhere(s, t, u, e);
    case In(_, _) => LookupElsewhere(s, t, u, e);
    case Lock(_, _) => LockElsewhere(s, t, u, e);
    case Held(_, _) => HeldElsewhere(s, t, u, e);
    case Attached(_) => ReturnElsewhere(s, t, u, e);
    case RunCancel(_) => ReturnElsewhere(s, t, u, e);
    case Cancelling(_) => ReturnElsewhere(s, t, u, e);
    case LateClose => LateElsewhere(s, t, u, e);
    case LateOnClose => LateElsewhere(s, t, u, e);
    case _ => ClosingElsewhere(s, t, u, e);
  }

  // ----- Whole steps and runs -----

  lemma Nearby(s: State, u: Tid, e: EntryId)
    requires Inv(s)
    ensures Near(s, u, e)
  {
    assert PcOk(s, u) && WriterOk(s, u) && EntryOk(s, e) && HolderOk(s, e);
    if u in s.threads && s.threads[u].home.Some? {
      assert EntryOk(s, s.threads[u].home.value);
    }
  }

  lemma EntryKnown(s: State, e: EntryId)
    requires Inv(s) && e in s.entries
    ensures EntryOk(s, e) && (s.entries[e].current.Some? ==> WriterOk(s, s.entries[e].current.value))
  {
    assert EntryOk(s, e);
    if s.entries[e].current.Some? {
      assert WriterOk(s, s.entries[e].current.value);
    }
  }

  /** In a reachable state everything a step refers to exists, so that only locks delay it. */
  lemma NamesExist(s: State, t: Tid)
    requires Inv(s) && t in s.threads
    ensures Named(s, t)
  {
    assert PcOk(s, t);
    if HasEntry(s.threads[t].pc) {
      EntryKnown(s, s.threads[t].pc.e);
    }
  }

  lemma Recall(s: State, t: Tid)
    requires Inv(s) && t in s.threads && Enabled(s, t)
    ensures CanStep(s, t)
  {
    NamesExist(s, t);
    assert PcOk(s, t) && EntryOk(s, t) && WriterOk(s, t);
    var pc := s.threads[t].pc;
    if HasEntry(pc) {
      EntryKnown(s, pc.e);
    }
    if pc.In? && pc.key in s.containers {
      EntryKnown(s, s.containers[pc.key]);
    }
  }

  lemma StepOther(s: State, t: Tid, u: Tid, e: EntryId)
    requires Inv(s) && CanStep(s, t) && u != t
    ensures PcOk(Do(s, t), u) && WriterOk(Do(s, t), u) && EntryOk(Do(s, t), e) && HolderOk(Do(s, t), e)
  {
    Nearby(s, u, e);
    StepElsewhere(s, t, u, e);
    RelyKeeps(s, Do(s, t), u);
  }

  lemma StepKeepsInv(s: State, t: Tid, s': State)
    requires Inv(s) && t in s.threads && Enabled(s, t) && Named(s, t) && s' == Do(s, t)
    ensures Inv(s')
  {
    Recall(s, t);
    StepHere(s, t);
    forall u ensures PcOk(s', u) && WriterOk(s', u) {
      if u != t {
        StepOther(s, t, u, 0);
      }
    }
    forall e ensures EntryOk(s', e) && HolderOk(s', e) {
      StepOther(s, t, t + 1, e);
    }
  }

  lemma CallKeepsInv(s: State, t: Tid, key: string, op: Op)
    requires Inv(s) && t !in s.threads
    ensures Inv(Call(s, t, key, op))
  {
    var s' := Call(s, t, key, op);
    assert LocksOk(s', t) by { assert s.writeLock != Some(t) && t !in s.readLocks; }
    forall u ensures PcOk(s', u) && WriterOk(s', u) {
      assert PcOk(s, u) && WriterOk(s, u);
    }
    forall e ensures EntryOk(s', e) && HolderOk(s', e) {
      assert EntryOk(s, e) && HolderOk(s, e);
    }
  }

  /** Every state the tracker passes through, under any interleaving of any calls. */
  ghost predicate IsRun(run: seq<State>) {
    && |run| > 0 && run[0] == Init
    && (forall i :: 0 < i < |run| ==> Follows(run, i))
  }

  ghost predicate Follows(run: seq<State>, i: nat)
    requires 0 < i < |run|
  {
    Next(run[i - 1], run[i])
  }

  lemma {:induction false} RunKeepsInv(run: seq<State>, i: nat)
    requires IsRun(run) && i < |run|
    ensures Inv(run[i])
  {
    if i > 0 {
      RunKeepsInv(run, i - 1);
      assert Follows(run, i);
      var s, s' := run[i - 1], run[i];
      if t, key, op :| t !in s.threads && s' == Call(s, t, key, op) {
        CallKeepsInv(s, t, key, op);
      } else {
        var t :| t in s.threads && Enabled(s, t) && Named(s, t) && s' == Do(s, t);
        StepKeepsInv(s, t, s');
      }
    }
  }
}
