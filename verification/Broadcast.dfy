/** internal/logbroadcast/broadcaster.go: publishers, subscribers and unsubscribers, interleaved
    in every way.

    Each call runs on its own thread; the critical sections under Broadcaster.mu are short and
    call nothing, so each is one step, while closeMu is taken and released step by step. */
module Broadcast {
  import opened Prelude
  import opened Truncation

  type Tid = nat
  type SubId = Tid   // the thread that subscribed

  const SUBSCRIBER_BUFFER_SIZE := 256

  datatype LogEntry = LogEntry(project: string, sessionId: string, content: Bytes) {
    /** The entry as it is sent out. */
    function Cut(): LogEntry {
      this.(content := Truncated(content))
    }
  }

  datatype Pc =
    | Subscribe(project: string, sessionId: string)
    | Unsubscribe(u: SubId)
    | WantClose(u: SubId)      // wants closeMu for writing
    | HoldClose(u: SubId)      // holds it, about to set closed
    | CloseChannel(u: SubId)   // about to close the channel and unlock
    | Publish                  // about to check that the broadcaster is open and cut the content
    | Snapshot                 // about to snapshot the subscribers
    | Loop                     // about to take the next subscriber of the snapshot
    | Check(u: SubId)          // holds closeMu for reading, about to look at closed
    | Offer(u: SubId)          // saw it unset, about to send
    | Drop(u: SubId)           // trySend returned false
    | Done

  /** `call` is the call the thread makes, by its first step, and `entry` what the caller passed to
      Publish.  A snapshot is in the map's iteration order, which is arbitrary: `todo` is what is
      left of it, and the loop takes any element next. */
  datatype Thread = Thread(pc: Pc, call: Pc, entry: LogEntry, snap: set<SubId>, todo: set<SubId>)

  datatype Subscriber = Subscriber(
    project: string,
    sessionId: string,
    ch: seq<LogEntry>,          // the channel's buffer
    closed: bool,               // sub.closed
    closes: nat,                // times the channel was closed
    writer: Option<Tid>,        // closeMu held for writing
    readers: set<Tid>,          // closeMu held for reading
    received: seq<LogEntry>,    // taken out of the channel so far
    sentBy: seq<Tid>,           // the publishers whose entries were sent, in that order
    failed: set<Tid>,           // the publishers whose trySend returned false
    closer: Option<Tid>         // the thread that goes on to close the channel
  ) {
    /** subscriber.matches */
    predicate Matches(entry: LogEntry) {
      if sessionId != "" then entry.sessionId == sessionId else project == "" || project == entry.project
    }

    function Sent(): seq<LogEntry> {
      received + ch
    }
  }

  datatype State = State(
    subs: map<SubId, Subscriber>,
    registered: set<SubId>,          // Broadcaster.subscribers
    threads: map<Tid, Thread>,
    shut: bool,                      // Close was called
    dropCount: nat,                  // drops pending
    reported: nat,                   // drops reported by flushDrops
    counted: set<(Tid, SubId)>,      // the drops counted in one or the other
    badSends: nat                    // sends on a closed channel
  )

  const Init := State(map[], {}, map[], false, 0, 0, {}, 0)

  // ----- Steps -----

  function Goto(s: State, t: Tid, pc: Pc): State
    requires t in s.threads
  {
    s.(threads := s.threads[t := s.threads[t].(pc := pc)])
  }

  function SetSub(s: State, u: SubId, sub: Subscriber): State {
    s.(subs := s.subs[u := sub])
  }

  predicate HasSub(pc: Pc) {
    pc.WantClose? || pc.HoldClose? || pc.CloseChannel? || pc.Check? || pc.Offer? || pc.Drop?
  }

  /** Thread t can step now, taking subscriber `next` next if it is at its loop. */
  predicate Enabled(s: State, t: Tid, next: SubId) {
    && t in s.threads
    && var thread := s.threads[t];
       && (HasSub(thread.pc) ==> thread.pc.u in s.subs)
       && match thread.pc
          case WantClose(u) => s.subs[u].writer.None? && s.subs[u].readers == {}
          case Loop =>
            thread.todo != {} ==>
              && next in thread.todo && next in s.subs
              && (s.subs[next].Matches(thread.entry) ==> s.subs[next].writer.None?)
          case Done => false
          case _ => true
  }

  function Do(s: State, t: Tid, next: SubId): State
    requires Enabled(s, t, next)
  {
    var thread := s.threads[t];
    match thread.pc
    case Subscribe(project, sessionId) => DoSubscribe(s, t, project, sessionId)
    case Unsubscribe(u) =>
      if u !in s.registered || u !in s.subs then Goto(s, t, Done)
      else SetSub(Goto(s, t, WantClose(u)), u, s.subs[u].(closer := Some(t))).(registered := s.registered - {u})
    case WantClose(u) => SetSub(Goto(s, t, HoldClose(u)), u, s.subs[u].(writer := Some(t)))
    case HoldClose(u) => SetSub(Goto(s, t, CloseChannel(u)), u, s.subs[u].(closed := true))
    case CloseChannel(u) =>
      SetSub(Goto(s, t, Done), u, s.subs[u].(closes := s.subs[u].closes + 1, writer := None))
    case Publish =>
      Goto(s, t, if s.shut then Done else Snapshot)
    case Snapshot => SetThread(s, t, thread.(pc := Loop, snap := s.registered, todo := s.registered))
    case Loop => DoNext(s, t, next)
    case Check(u) =>
      if s.subs[u].closed then
        SetSub(Goto(s, t, Drop(u)), u, s.subs[u].(readers := s.subs[u].readers - {t}, failed := s.subs[u].failed + {t}))
      else Goto(s, t, Offer(u))
    case Offer(u) => DoOffer(s, t, u)
    case Drop(u) => Goto(s, t, Loop).(dropCount := s.dropCount + 1, counted := s.counted + {(t, u)})
    case Done => s
  }

  function SetThread(s: State, t: Tid, thread: Thread): State {
    s.(threads := s.threads[t := thread])
  }

  /** Once Close was called the channel is handed out closed. */
  function DoSubscribe(s: State, t: Tid, project: string, sessionId: string): State
    requires t in s.threads
  {
    var sub := Subscriber(project, sessionId, [], false, 0, None, {}, [], [], {}, None);
    if s.shut then SetSub(Goto(s, t, WantClose(t)), t, sub.(closer := Some(t)))
    else SetSub(Goto(s, t, Done), t, sub).(registered := s.registered + {t})
  }

  function DoNext(s: State, t: Tid, next: SubId): State
    requires Enabled(s, t, next) && s.threads[t].pc.Loop?
  {
    var thread := s.threads[t];
    if thread.todo == {} then Goto(s, t, Done)
    else if !s.subs[next].Matches(thread.entry) then SetThread(s, t, thread.(todo := thread.todo - {next}))
    else
      SetSub(SetThread(s, t, thread.(pc := Check(next), todo := thread.todo - {next})),
             next, s.subs[next].(readers := s.subs[next].readers + {t}))
  }

  /** The non-blocking send, then closeMu is released. */
  function DoOffer(s: State, t: Tid, u: SubId): State
    requires t in s.threads && u in s.subs
  {
    var sub := s.subs[u].(readers := s.subs[u].readers - {t});
    var s1 := s.(badSends := s.badSends + if sub.closes > 0 then 1 else 0);
    if |sub.ch| < SUBSCRIBER_BUFFER_SIZE then
      SetSub(Goto(s1, t, Loop), u, sub.(ch := sub.ch + [s.threads[t].entry.Cut()], sentBy := sub.sentBy + [t]))
    else SetSub(Goto(s1, t, Drop(u)), u, sub.(failed := sub.failed + {t}))
  }

  function Call(s: State, t: Tid, pc: Pc, entry: LogEntry): State {
    SetThread(s, t, Thread(pc, pc, entry, {}, {}))
  }

  function Receive(s: State, u: SubId): State
    requires u in s.subs && s.subs[u].ch != []
  {
    SetSub(s, u, s.subs[u].(ch := s.subs[u].ch[1..], received := s.subs[u].received + [s.subs[u].ch[0]]))
  }

  function FlushDrops(s: State): State {
    s.(reported := s.reported + s.dropCount, dropCount := 0)
  }

  ghost predicate Next(s: State, s': State) {
    || (exists t, pc: Pc, entry ::
          t !in s.threads && (pc.Subscribe? || pc.Unsubscribe? || pc.Publish?) && s' == Call(s, t, pc, entry))
    || (exists t, next :: Enabled(s, t, next) && s' == Do(s, t, next))
    || (exists u :: u in s.subs && s.subs[u].ch != [] && s' == Receive(s, u))
    || s' == FlushDrops(s)
    || s' == s.(shut := true)
  }

  // ----- The invariant -----

  predicate Closes(pc: Pc) {
    pc.WantClose? || pc.HoldClose? || pc.CloseChannel?
  }

  predicate Sends(pc: Pc) {
    pc.Check? || pc.Offer? || pc.Drop?
  }

  /** Where a publisher is in its snapshot. */
  ghost predicate SnapOk(s: State, t: Tid) {
    t in s.threads ==>
      var thread := s.threads[t];
      && thread.todo <= thread.snap <= s.subs.Keys
      && (thread.pc.Done? ==> thread.todo == {})
      && (!thread.pc.Loop? && !Sends(thread.pc) && !thread.pc.Done? ==> thread.snap == {})
      && (thread.pc.Subscribe? ==> t !in s.subs)
      && (Sends(thread.pc) ==>
            && thread.pc.u in thread.snap && thread.pc.u !in thread.todo && thread.pc.u in s.subs
            && s.subs[thread.pc.u].Matches(thread.entry))
  }

  /** What a thread at a subscriber's closeMu has of it. */
  ghost predicate LockOk(s: State, t: Tid) {
    t in s.threads && HasSub(s.threads[t].pc) ==>
      var pc := s.threads[t].pc;
      && pc.u in s.subs
      && var sub := s.subs[pc.u];
         && (Closes(pc) ==> sub.closer == Some(t))
         && (pc.HoldClose? || pc.CloseChannel? ==> sub.writer == Some(t))
         && (pc.Check? || pc.Offer? ==> t in sub.readers)
         && (pc.Offer? ==> !sub.closed)
  }

  /** The channel: closed at most once, by the one thread that took it out of the set. */
  ghost predicate ChannelOk(s: State, u: SubId) {
    u in s.subs ==>
      var sub := s.subs[u];
      && u in s.threads && s.threads[u].pc != Publish
      && |sub.ch| <= SUBSCRIBER_BUFFER_SIZE
      && (sub.closer.None? <==> u in s.registered)
      && (sub.closer.None? ==> !sub.closed && sub.closes == 0)
      && (sub.writer.Some? ==> sub.readers == {} && sub.writer == sub.closer)
      && (forall t :: t in sub.failed || t in sub.readers ==> t in s.threads)
  }

  /** How far that thread has got. */
  ghost predicate CloserOk(s: State, u: SubId) {
    u in s.subs && s.subs[u].closer.Some? ==>
      var sub := s.subs[u];
      && sub.closer.value in s.threads
      && (sub.writer.Some? ==>
            s.threads[sub.closer.value].pc.HoldClose? || s.threads[sub.closer.value].pc.CloseChannel?)
      && match s.threads[sub.closer.value].pc
         case WantClose(v) => v == u && !sub.closed && sub.closes == 0
         case HoldClose(v) => v == u && !sub.closed && sub.closes == 0
         case CloseChannel(v) => v == u && sub.closed && sub.closes == 0
         case Done => sub.closed && sub.closes == 1
         case _ => false
  }

  /** What was sent to a subscriber, whether received or still buffered. */
  ghost predicate LogOk(s: State, u: SubId) {
    u in s.subs ==>
      && |s.subs[u].Sent()| == |s.subs[u].sentBy|
      && (forall k :: 0 <= k < |s.subs[u].sentBy| ==> SentOk(s, u, k))
      && (forall j, k :: 0 <= j < k < |s.subs[u].sentBy| ==> s.subs[u].sentBy[j] != s.subs[u].sentBy[k])
  }

  ghost predicate SentOk(s: State, u: SubId, k: nat)
    requires u in s.subs && k < |s.subs[u].sentBy| == |s.subs[u].Sent()|
  {
    var sub := s.subs[u];
    && sub.sentBy[k] in s.threads
    && sub.Sent()[k] == s.threads[sub.sentBy[k]].entry.Cut()
    && sub.Matches(s.threads[sub.sentBy[k]].entry)
  }

  /** What has become of publisher t's entry as far as subscriber u is concerned. */
  ghost predicate PairOk(s: State, t: Tid, u: SubId) {
    t in s.threads && u in s.subs ==>
      var thread, sub := s.threads[t], s.subs[u];
      && (t in sub.readers <==> thread.pc == Check(u) || thread.pc == Offer(u))
      && (t in sub.sentBy || t in sub.failed <==>
            u in thread.snap && u !in thread.todo && sub.Matches(thread.entry) && t !in sub.readers)
      && !(t in sub.sentBy && t in sub.failed)
      && (thread.pc == Drop(u) ==> t in sub.failed)
      && ((t, u) in s.counted <==> t in sub.failed && thread.pc != Drop(u))
  }

  ghost predicate GlobalOk(s: State) {
    && s.registered <= s.subs.Keys
    && (forall p :: p in s.counted ==> p.0 in s.threads && p.1 in s.subs)
    && |s.counted| == s.dropCount + s.reported
    && s.badSends == 0
  }

  ghost predicate ThreadOk(s: State, t: Tid) {
    SnapOk(s, t) && LockOk(s, t)
  }

  ghost predicate SubOk(s: State, u: SubId) {
    ChannelOk(s, u) && CloserOk(s, u)
  }

  ghost predicate Inv(s: State) {
    && GlobalOk(s)
    && (forall t {:trigger ThreadOk(s, t)} :: ThreadOk(s, t))
    && (forall u {:trigger SubOk(s, u)} :: SubOk(s, u))
    && (forall u {:trigger LogOk(s, u)} :: LogOk(s, u))
    && (forall t, u {:trigger PairOk(s, t, u)} :: PairOk(s, t, u))
  }

  // ----- Every step keeps it -----

  /** What one thread relies on while another steps: of a subscriber it has a hold on, only what
      its hold does not exclude changes. */
  predicate SubRely(a: Subscriber, b: Subscriber, v: Tid) {
    && b.project == a.project && b.sessionId == a.sessionId
    && (a.closer == Some(v) ==> b.closer == a.closer)
    && (a.writer == Some(v) ==> b.writer == a.writer)
    && (v in a.readers ==> v in b.readers && b.closed == a.closed)
  }

  predicate Rely(s: State, s': State, v: Tid) {
    && (v in s.threads <==> v in s'.threads)
    && (v in s.threads ==>
          && s'.threads[v] == s.threads[v]
          && s.subs.Keys <= s'.subs.Keys
          && (v in s'.subs ==> v in s.subs)
          && (HasSub(s.threads[v].pc) && s.threads[v].pc.u in s.subs ==>
                SubRely(s.subs[s.threads[v].pc.u], s'.subs[s.threads[v].pc.u], v)))
  }

  lemma RelyKeeps(s: State, s': State, v: Tid)
    requires ThreadOk(s, v) && Rely(s, s', v)
    ensures ThreadOk(s', v)
  {
  }

  /** What a thread knows as it steps. */
  ghost predicate CanStep(s: State, t: Tid, next: SubId) {
    && Enabled(s, t, next) && GlobalOk(s) && ThreadOk(s, t) && SubOk(s, t) && SubOk(s, next) && PairOk(s, t, next)
    && var pc := s.threads[t].pc;
       (HasSub(pc) || pc.Unsubscribe? ==> SubOk(s, pc.u) && PairOk(s, t, pc.u))
  }

  /** Thread v and subscriber u. */
  ghost predicate Near(s: State, t: Tid, v: Tid, u: SubId) {
    && ThreadOk(s, v) && SubOk(s, u) && PairOk(s, v, u) && PairOk(s, t, u)
    && (v in s.threads && HasSub(s.threads[v].pc) ==> PairOk(s, v, s.threads[v].pc.u))
  }

  ghost predicate Elsewhere(s: State, s': State, t: Tid, v: Tid, u: SubId) {
    Rely(s, s', v) && SubOk(s', u) && PairOk(s', v, u) && PairOk(s', t, u)
  }

  lemma SubscriberHere(s: State, t: Tid, next: SubId)
    requires CanStep(s, t, next)
    requires var pc := s.threads[t].pc; pc.Subscribe? || pc.Unsubscribe?
    ensures ThreadOk(Do(s, t, next), t) && GlobalOk(Do(s, t, next))
  {
  }

  lemma CloserHere(s: State, t: Tid, next: SubId)
    requires CanStep(s, t, next)
    requires Closes(s.threads[t].pc)
    ensures ThreadOk(Do(s, t, next), t) && GlobalOk(Do(s, t, next))
  {
  }

  lemma SnapshotHere(s: State, t: Tid, next: SubId)
    requires CanStep(s, t, next)
    requires var pc := s.threads[t].pc; pc.Publish? || pc.Snapshot?
    ensures ThreadOk(Do(s, t, next), t) && GlobalOk(Do(s, t, next))
  {
  }

  lemma LoopHere(s: State, t: Tid, next: SubId)
    requires CanStep(s, t, next)
    requires s.threads[t].pc.Loop?
    ensures ThreadOk(Do(s, t, next), t) && GlobalOk(Do(s, t, next))
  {
  }

  lemma CheckHere(s: State, t: Tid, next: SubId)
    requires CanStep(s, t, next)
    requires s.threads[t].pc.Check?
    ensures ThreadOk(Do(s, t, next), t) && GlobalOk(Do(s, t, next))
  {
  }

  lemma OfferHere(s: State, t: Tid, next: SubId)
    requires CanStep(s, t, next)
    requires var pc := s.threads[t].pc; pc.Offer? || pc.Drop?
    ensures ThreadOk(Do(s, t, next), t) && GlobalOk(Do(s, t, next))
  {
  }

  /** A new subscriber, open or handed out closed, is nobody else's business yet. */
  lemma NewIsUnseen(s: State, s': State, t: Tid, v: Tid, u: SubId)
    requires Near(s, t, v, u) && v != t && t in s.threads && t !in s.subs && SnapOk(s, t) && GlobalOk(s)
    requires s.threads[t].pc.Subscribe? && t in s'.threads && t in s'.subs && s'.counted == s.counted
    requires s'.threads == s.threads[t := s.threads[t].(pc := s'.threads[t].pc)] && s'.subs == s.subs[t := s'.subs[t]]
    requires var sub := s'.subs[t];
             && sub.ch == [] && sub.sentBy == [] && sub.readers == {} && sub.failed == {}
             && !sub.closed && sub.closes == 0 && sub.writer.None?
             && if sub.closer.None? then s'.threads[t].pc.Done? && s'.registered == s.registered + {t}
                else
                  && sub.closer == Some(t) && s'.threads[t].pc == WantClose(t)
                  && s'.registered == s.registered
    ensures Elsewhere(s, s', t, v, u)
  {
  }

  lemma SubscribeElsewhere(s: State, t: Tid, next: SubId, v: Tid, u: SubId)
    requires CanStep(s, t, next) && Near(s, t, v, u) && v != t
    requires s.threads[t].pc.Subscribe?
    ensures Elsewhere(s, Do(s, t, next), t, v, u)
  {
    NewIsUnseen(s, Do(s, t, next), t, v, u);
  }

  lemma UnsubscribeElsewhere(s: State, t: Tid, next: SubId, v: Tid, u: SubId)
    requires CanStep(s, t, next) && Near(s, t, v, u) && v != t
    requires var pc := s.threads[t].pc; pc.Unsubscribe? && pc.u in s.registered
    ensures Elsewhere(s, Do(s, t, next), t, v, u)
  {
  }

  lemma UnsubscribedElsewhere(s: State, t: Tid, next: SubId, v: Tid, u: SubId)
    requires CanStep(s, t, next) && Near(s, t, v, u) && v != t
    requires var pc := s.threads[t].pc; pc.Unsubscribe? && pc.u !in s.registered
    ensures Elsewhere(s, Do(s, t, next), t, v, u)
  {
  }

  lemma WantCloseElsewhere(s: State, t: Tid, next: SubId, v: Tid, u: SubId)
    requires CanStep(s, t, next) && Near(s, t, v, u) && v != t
    requires s.threads[t].pc.WantClose?
    ensures Elsewhere(s, Do(s, t, next), t, v, u)
  {
  }

  lemma HoldCloseElsewhere(s: State, t: Tid, next: SubId, v: Tid, u: SubId)
    requires CanStep(s, t, next) && Near(s, t, v, u) && v != t
    requires s.threads[t].pc.HoldClose?
    ensures Elsewhere(s, Do(s, t, next), t, v, u)
  {
  }

  lemma CloseChannelElsewhere(s: State, t: Tid, next: SubId, v: Tid, u: SubId)
    requires CanStep(s, t, next) && Near(s, t, v, u) && v != t
    requires s.threads[t].pc.CloseChannel?
    ensures Elsewhere(s, Do(s, t, next), t, v, u)
  {
  }

  lemma BeginElsewhere(s: State, t: Tid, next: SubId, v: Tid, u: SubId)
    requires CanStep(s, t, next) && Near(s, t, v, u) && v != t
    requires var pc := s.threads[t].pc; pc.Publish? || pc.Snapshot?
    ensures Elsewhere(s, Do(s, t, next), t, v, u)
  {
  }

  lemma PassElsewhere(s: State, t: Tid, next: SubId, v: Tid, u: SubId)
    requires CanStep(s, t, next) && Near(s, t, v, u) && v != t
    requires var thread := s.threads[t];
             thread.pc.Loop? && (thread.todo == {} || !s.subs[next].Matches(thread.entry))
    ensures Elsewhere(s, Do(s, t, next), t, v, u)
  {
  }

  lemma TakeElsewhere(s: State, t: Tid, next: SubId, v: Tid, u: SubId)
    requires CanStep(s, t, next) && Near(s, t, v, u) && v != t
    requires var pc := s.threads[t].pc; pc.Loop? && s.threads[t].todo != {} && s.subs[next].Matches(s.threads[t].entry)
    ensures Elsewhere(s, Do(s, t, next), t, v, u)
  {
  }

  /** Others do not notice a publisher giving up its own hold on subscriber w. */
  lemma ReleaseIsUnseen(s: State, s': State, t: Tid, w: SubId, v: Tid)
    requires t in s.threads && w in s.subs && v != t && t in s'.threads && w in s'.subs
    requires s'.threads == s.threads[t := s'.threads[t]] && s'.subs == s.subs[w := s'.subs[w]]
    requires var a, b := s.subs[w], s'.subs[w];
             && b.project == a.project && b.sessionId == a.sessionId && b.closer == a.closer && b.writer == a.writer
             && b.closed == a.closed && a.readers - {t} <= b.readers
    ensures Rely(s, s', v)
  {
  }

  lemma SendRely(s: State, t: Tid, next: SubId, v: Tid)
    requires CanStep(s, t, next) && v != t && s.threads[t].pc.Offer?
    ensures Rely(s, Do(s, t, next), v)
  {
    ReleaseIsUnseen(s, Do(s, t, next), t, s.threads[t].pc.u, v);
  }

  /** A send that fails, whether the channel was closed or full. */
  lemma FailElsewhere(s: State, s': State, t: Tid, w: SubId, v: Tid, u: SubId)
    requires Near(s, t, v, u) && v != t && SubOk(s, w)
    requires t in s.threads && w in s.subs && (s.threads[t].pc == Check(w) || s.threads[t].pc == Offer(w))
    requires SnapOk(s, t) && LockOk(s, t) && PairOk(s, t, w)
    requires s'.threads == s.threads[t := s.threads[t].(pc := Drop(w))]
    requires var sub := s.subs[w];
             s'.subs == s.subs[w := sub.(readers := sub.readers - {t}, failed := sub.failed + {t})]
    requires s'.registered == s.registered && s'.counted == s.counted
    ensures Elsewhere(s, s', t, v, u)
  {
  }

  lemma GoneElsewhere(s: State, t: Tid, next: SubId, v: Tid, u: SubId)
    requires CanStep(s, t, next) && Near(s, t, v, u) && v != t
    requires var pc := s.threads[t].pc; pc.Check? && s.subs[pc.u].closed
    ensures Elsewhere(s, Do(s, t, next), t, v, u)
  {
    FailElsewhere(s, Do(s, t, next), t, s.threads[t].pc.u, v, u);
  }

  lemma OpenElsewhere(s: State, t: Tid, next: SubId, v: Tid, u: SubId)
    requires CanStep(s, t, next) && Near(s, t, v, u) && v != t
    requires var pc := s.threads[t].pc; pc.Check? && !s.subs[pc.u].closed
    ensures Elsewhere(s, Do(s, t, next), t, v, u)
  {
  }

  lemma SendElsewhere(s: State, t: Tid, next: SubId, v: Tid, u: SubId)
    requires CanStep(s, t, next) && Near(s, t, v, u) && v != t
    requires var pc := s.threads[t].pc; pc.Offer? && |s.subs[pc.u].ch| < SUBSCRIBER_BUFFER_SIZE
    ensures SubOk(Do(s, t, next), u) && PairOk(Do(s, t, next), v, u) && PairOk(Do(s, t, next), t, u)
  {
  }

  lemma FullElsewhere(s: State, t: Tid, next: SubId, v: Tid, u: SubId)
    requires CanStep(s, t, next) && Near(s, t, v, u) && v != t
    requires var pc := s.threads[t].pc; pc.Offer? && |s.subs[pc.u].ch| >= SUBSCRIBER_BUFFER_SIZE
    ensures Elsewhere(s, Do(s, t, next), t, v, u)
  {
    FailElsewhere(s, Do(s, t, next), t, s.threads[t].pc.u, v, u);
  }

  lemma DropElsewhere(s: State, t: Tid, next: SubId, v: Tid, u: SubId)
    requires CanStep(s, t, next) && Near(s, t, v, u) && v != t
    requires s.threads[t].pc.Drop?
    ensures Elsewhere(s, Do(s, t, next), t, v, u)
  {
  }

  /** Nothing was sent to the subscriber, and the entries of those who sent to it are the same. */
  lemma LogFrame(s: State, s': State, u: SubId)
    requires LogOk(s, u) && u in s.subs && u in s'.subs
    requires s'.subs[u].Sent() == s.subs[u].Sent() && s'.subs[u].sentBy == s.subs[u].sentBy
    requires s'.subs[u].project == s.subs[u].project && s'.subs[u].sessionId == s.subs[u].sessionId
    requires forall v :: v in s.threads ==> v in s'.threads && s'.threads[v].entry == s.threads[v].entry
    ensures LogOk(s', u)
  {
    var sentBy := s'.subs[u].sentBy;
    forall k | 0 <= k < |sentBy| ensures SentOk(s', u, k) {
      assert SentOk(s, u, k);
    }
    assert forall j, k :: 0 <= j < k < |sentBy| ==> s.subs[u].sentBy[j] != s.subs[u].sentBy[k];
  }

  /** One more entry was sent, by a publisher that had sent none to this subscriber. */
  lemma LogGrows(s: State, s': State, u: SubId, t: Tid)
    requires LogOk(s, u) && u in s.subs && u in s'.subs && t in s.threads && t !in s.subs[u].sentBy
    requires s.subs[u].Matches(s.threads[t].entry)
    requires s'.subs[u].Sent() == s.subs[u].Sent() + [s.threads[t].entry.Cut()]
    requires s'.subs[u].sentBy == s.subs[u].sentBy + [t]
    requires s'.subs[u].project == s.subs[u].project && s'.subs[u].sessionId == s.subs[u].sessionId
    requires forall v :: v in s.threads ==> v in s'.threads && s'.threads[v].entry == s.threads[v].entry
    ensures LogOk(s', u)
  {
    var sentBy := s'.subs[u].sentBy;
    var n := |sentBy| - 1;
    forall k | 0 <= k < |sentBy| ensures SentOk(s', u, k) {
      if k < n {
        assert SentOk(s, u, k);
        assert s'.subs[u].Sent()[k] == s.subs[u].Sent()[k] && sentBy[k] == s.subs[u].sentBy[k];
      } else {
        assert s'.subs[u].Sent()[n] == s.threads[t].entry.Cut() && sentBy[n] == t;
      }
    }
    forall j, k | 0 <= j < k < |sentBy| ensures sentBy[j] != sentBy[k] {
      assert sentBy[j] == s.subs[u].sentBy[j] && s.subs[u].sentBy[j] in s.subs[u].sentBy;
      assert k < n ==> sentBy[k] == s.subs[u].sentBy[k];
    }
  }

  /** Nobody's entry is ever changed. */
  lemma EntriesStay(s: State, t: Tid, next: SubId)
    requires Enabled(s, t, next)
    ensures forall v :: v in s.threads ==>
              v in Do(s, t, next).threads && Do(s, t, next).threads[v].entry == s.threads[v].entry
  {
  }

  /** What the step does to a subscriber's log. */
  lemma SendsAtMostOne(s: State, t: Tid, next: SubId, u: SubId)
    requires Enabled(s, t, next) && u in s.subs && (s.threads[t].pc.Subscribe? ==> t !in s.subs)
    ensures var s' := Do(s, t, next);
            && u in s'.subs && s'.subs[u].project == s.subs[u].project && s'.subs[u].sessionId == s.subs[u].sessionId
            && if s.threads[t].pc == Offer(u) && |s.subs[u].ch| < SUBSCRIBER_BUFFER_SIZE then
                 && s'.subs[u].Sent() == s.subs[u].Sent() + [s.threads[t].entry.Cut()]
                 && s'.subs[u].sentBy == s.subs[u].sentBy + [t]
               else s'.subs[u].Sent() == s.subs[u].Sent() && s'.subs[u].sentBy == s.subs[u].sentBy
  {
    if s.threads[t].pc == Offer(u) && |s.subs[u].ch| < SUBSCRIBER_BUFFER_SIZE {
      var sub, out := s.subs[u], s.threads[t].entry.Cut();
      assert sub.received + (sub.ch + [out]) == (sub.received + sub.ch) + [out];
    }
  }

  lemma StepLog(s: State, t: Tid, next: SubId, u: SubId)
    requires CanStep(s, t, next) && LogOk(s, u) && PairOk(s, t, u)
    ensures LogOk(Do(s, t, next), u)
  {
    var s' := Do(s, t, next);
    if u in s.subs {
      EntriesStay(s, t, next);
      SendsAtMostOne(s, t, next, u);
      if s.threads[t].pc == Offer(u) && |s.subs[u].ch| < SUBSCRIBER_BUFFER_SIZE {
        LogGrows(s, s', u, t);
      } else {
        LogFrame(s, s', u);
      }
    }
  }

  lemma StepHere(s: State, t: Tid, next: SubId)
    requires CanStep(s, t, next)
    ensures ThreadOk(Do(s, t, next), t) && GlobalOk(Do(s, t, next))
  {
    match s.threads[t].pc
    case Subscribe(_, _) => SubscriberHere(s, t, next);
    case Unsubscribe(_) => SubscriberHere(s, t, next);
    case Publish => SnapshotHere(s, t, next);
    case Snapshot => SnapshotHere(s, t, next);
    case Loop => LoopHere(s, t, next);
    case Check(_) => CheckHere(s, t, next);
    case Offer(_) => OfferHere(s, t, next);
    case Drop(_) => OfferHere(s, t, next);
    case _ => CloserHere(s, t, next);
  }

  lemma SendingElsewhere(s: State, t: Tid, next: SubId, v: Tid, u: SubId)
    requires CanStep(s, t, next) && Near(s, t, v, u) && v != t && Sends(s.threads[t].pc)
    ensures Elsewhere(s, Do(s, t, next), t, v, u)
  {
    match s.threads[t].pc
    case Check(to) =>
      if s.subs[to].closed { GoneElsewhere(s, t, next, v, u); } else { OpenElsewhere(s, t, next, v, u); }
    case Offer(to) =>
      if |s.subs[to].ch| < SUBSCRIBER_BUFFER_SIZE {
        SendRely(s, t, next, v);
        SendElsewhere(s, t, next, v, u);
      } else {
        FullElsewhere(s, t, next, v, u);
      }
    case Drop(_) => DropElsewhere(s, t, next, v, u);
  }

  lemma StepElsewhere(s: State, t: Tid, next: SubId, v: Tid, u: SubId)
    requires CanStep(s, t, next) && Near(s, t, v, u) && v != t
    ensures Elsewhere(s, Do(s, t, next), t, v, u)
  {
    match s.threads[t].pc
    case Subscribe(_, _) => SubscribeElsewhere(s, t, next, v, u);
    case Unsubscribe(w) =>
      if w in s.registered { UnsubscribeElsewhere(s, t, next, v, u); } else { UnsubscribedElsewhere(s, t, next, v, u); }
    case WantClose(_) => WantCloseElsewhere(s, t, next, v, u);
    case HoldClose(_) => HoldCloseElsewhere(s, t, next, v, u);
    case CloseChannel(_) => CloseChannelElsewhere(s, t, next, v, u);
    case Publish => BeginElsewhere(s, t, next, v, u);
    case Snapshot => BeginElsewhere(s, t, next, v, u);
    case Loop =>
      if s.threads[t].todo == {} || !s.subs[next].Matches(s.threads[t].entry) {
        PassElsewhere(s, t, next, v, u);
      } else {
        TakeElsewhere(s, t, next, v, u);
      }
    case _ => SendingElsewhere(s, t, next, v, u);
  }

  lemma Known(s: State, t: Tid, next: SubId)
    requires Inv(s) && Enabled(s, t, next)
    ensures CanStep(s, t, next)
  {
    assert ThreadOk(s, t) && SubOk(s, t) && SubOk(s, next) && PairOk(s, t, next);
    var pc := s.threads[t].pc;
    if HasSub(pc) || pc.Unsubscribe? {
      assert SubOk(s, pc.u) && PairOk(s, t, pc.u);
    }
  }

  lemma Nearby(s: State, t: Tid, v: Tid, u: SubId)
    requires Inv(s)
    ensures Near(s, t, v, u)
  {
    assert ThreadOk(s, v) && SubOk(s, u) && PairOk(s, v, u) && PairOk(s, t, u);
    if v in s.threads && HasSub(s.threads[v].pc) {
      assert PairOk(s, v, s.threads[v].pc.u);
    }
  }

  lemma StepOther(s: State, t: Tid, next: SubId, v: Tid, u: SubId)
    requires Inv(s) && CanStep(s, t, next) && v != t
    ensures var s' := Do(s, t, next);
            ThreadOk(s', v) && SubOk(s', u) && PairOk(s', v, u) && PairOk(s', t, u)
  {
    Nearby(s, t, v, u);
    StepElsewhere(s, t, next, v, u);
    RelyKeeps(s, Do(s, t, next), v);
  }

  lemma StepKeepsInv(s: State, t: Tid, next: SubId, s': State)
    requires Inv(s) && Enabled(s, t, next) && s' == Do(s, t, next)
    ensures Inv(s')
  {
    Known(s, t, next);
    StepHere(s, t, next);
    forall v ensures ThreadOk(s', v) {
      if v != t { StepOther(s, t, next, v, 0); }
    }
    forall u ensures SubOk(s', u) && LogOk(s', u) {
      StepOther(s, t, next, t + 1, u);
      assert LogOk(s, u) && PairOk(s, t, u);
      StepLog(s, t, next, u);
    }
    forall v, u ensures PairOk(s', v, u) {
      StepOther(s, t, next, if v == t then t + 1 else v, u);
    }
  }

  function SentBy(s: State, u: SubId): seq<Tid> {
    if u in s.subs then s.subs[u].sentBy else []
  }

  lemma SendersWereCalled(s: State, u: SubId)
    requires Inv(s)
    ensures forall v :: v in SentBy(s, u) ==> v in s.threads
  {
    assert LogOk(s, u);
    forall k | 0 <= k < |SentBy(s, u)| ensures SentBy(s, u)[k] in s.threads {
      assert SentOk(s, u, k);
    }
  }

  lemma CallKeepsInv(s: State, t: Tid, pc: Pc, entry: LogEntry)
    requires Inv(s) && t !in s.threads && (pc.Subscribe? || pc.Unsubscribe? || pc.Publish?)
    ensures Inv(Call(s, t, pc, entry))
  {
    var s' := Call(s, t, pc, entry);
    assert SubOk(s, t);
    forall v ensures ThreadOk(s', v) {
      assert ThreadOk(s, v);
    }
    forall u ensures SubOk(s', u) && LogOk(s', u) {
      assert SubOk(s, u) && LogOk(s, u);
      if u in s.subs {
        LogFrame(s, s', u);
      }
    }
    forall v, u ensures PairOk(s', v, u) {
      assert PairOk(s, v, u) && SubOk(s, u);
      SendersWereCalled(s, u);
    }
  }

  lemma ReceiveKeepsInv(s: State, u: SubId)
    requires Inv(s) && u in s.subs && s.subs[u].ch != []
    ensures Inv(Receive(s, u))
  {
    var s' := Receive(s, u);
    assert s.subs[u].ch == [s.subs[u].ch[0]] + s.subs[u].ch[1..];
    assert s'.subs[u].Sent() == s.subs[u].Sent();
    forall v ensures ThreadOk(s', v) {
      assert ThreadOk(s, v);
    }
    forall w ensures SubOk(s', w) && LogOk(s', w) {
      assert SubOk(s, w) && LogOk(s, w);
      if w in s.subs {
        LogFrame(s, s', w);
      }
    }
    forall v, w ensures PairOk(s', v, w) {
      assert PairOk(s, v, w);
    }
  }

  lemma OutsideKeepsInv(s: State, s': State)
    requires Inv(s) && (s' == FlushDrops(s) || s' == s.(shut := true))
    ensures Inv(s')
  {
    forall v ensures ThreadOk(s', v) {
      assert ThreadOk(s, v);
    }
    forall w ensures SubOk(s', w) && LogOk(s', w) {
      assert SubOk(s, w) && LogOk(s, w);
      if w in s.subs {
        LogFrame(s, s', w);
      }
    }
    forall v, w ensures PairOk(s', v, w) {
      assert PairOk(s, v, w);
    }
  }

  // ----- Runs -----

  ghost predicate IsRun(run: seq<State>) {
    && |run| > 0 && run[0] == Init
    && (forall i :: 0 < i < |run| ==> Follows(run, i))
  }

  ghost predicate Follows(run: seq<State>, i: nat)
    requires 0 < i < |run|
  {
    Next(run[i - 1], run[i])
  }

  lemma NextKeepsInv(s: State, s': State)
    requires Inv(s) && Next(s, s')
    ensures Inv(s')
  {
    if t, pc: Pc, entry :|
      t !in s.threads && (pc.Subscribe? || pc.Unsubscribe? || pc.Publish?) && s' == Call(s, t, pc, entry)
    {
      CallKeepsInv(s, t, pc, entry);
    } else if t, next :| Enabled(s, t, next) && s' == Do(s, t, next) {
      StepKeepsInv(s, t, next, s');
    } else if u :| u in s.subs && s.subs[u].ch != [] && s' == Receive(s, u) {
      ReceiveKeepsInv(s, u);
    } else {
      OutsideKeepsInv(s, s');
    }
  }

  lemma InitLocally(t: Tid, u: SubId)
    ensures ThreadOk(Init, t) && SubOk(Init, u) && LogOk(Init, u) && PairOk(Init, t, u)
  {
  }

  lemma InitHasInv(s: State)
    requires s == Init
    ensures Inv(s)
  {
    forall t ensures ThreadOk(s, t) { InitLocally(t, 0); }
    forall u ensures SubOk(s, u) { InitLocally(0, u); }
    forall u ensures LogOk(s, u) { InitLocally(0, u); }
    forall t, u ensures PairOk(s, t, u) { InitLocally(t, u); }
  }

  lemma {:induction false} RunKeepsInv(run: seq<State>, i: nat)
    requires IsRun(run) && i < |run|
    ensures Inv(run[i])
  {
    if i == 0 {
      InitHasInv(run[0]);
    } else {
      RunKeepsInv(run, i - 1);
      assert Follows(run, i);
      NextKeepsInv(run[i - 1], run[i]);
    }
  }
}
