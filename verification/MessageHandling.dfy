/** internal/webhook/handler.go, handleMessage: look the message up, write it to the
    container's stdin, remember the ack.  Requests here are sequential; the cache's sweeper runs
    on its own and may run between a request's lookup and its store. */
module MessageHandling {
  import opened Prelude
  import opened RecencyList
  import opened CacheHistory
  import opened TimestampedMaps
  import opened Identifiers
  import opened MessageDedup

  datatype WriteResult = Written | NotTracked | StdinClosed | NoStdinAttached | WriteFailed

  /** One request together with what its surroundings decide while it is served. */
  datatype Request = Request(
    target: Target,
    messageId: string,
    refusal: Option<int>,            // draining, bad JSON, oversize or invalid: the status sent
    lookupAt: int,                   // clock at the cache lookup
    tracked: bool,                   // Has / HasChat
    frame: Option<seq<Byte>>,        // BuildUserMessage
    write: WriteResult,              // WriteStdin / WriteStdinChat
    ackBytes: Option<seq<Byte>>,     // json.Marshal of the success response
    sweeps: seq<int>,                // when the sweeper ran before the store
    storeAt: int                     // clock at the cache store
  ) {
    function Key(): string {
      DedupKey(target, messageId)
    }

    /** The request uses the cache. */
    predicate Cached() {
      refusal.None? && messageId != ""
    }
  }

  const ACCEPTED := 202

  datatype Response = Raw(ack: CachedAck) | Error(status: int) | Unmarshalled

  function CachedAnswer(s: seq<Stored>, req: Request, ttl: int): Option<CachedAck> {
    if req.Cached() then Answer(s, req.Key(), req.lookupAt, ttl) else None
  }

  /** The request's frame reached stdin. */
  predicate Wrote(s: seq<Stored>, req: Request, ttl: int) {
    req.refusal.None? && CachedAnswer(s, req, ttl).None? && req.tracked && req.frame.Some? && req.write.Written?
  }

  /** It goes on to store its ack. */
  predicate Stores(s: seq<Stored>, req: Request, ttl: int) {
    req.Cached() && Wrote(s, req, ttl) && req.ackBytes.Some?
  }

  function LookupOp(s: seq<Stored>, req: Request, ttl: int): Op<CachedAck> {
    if req.Cached() then GetOp(s, req.Key(), req.lookupAt, ttl) else Keep
  }

  function SweepOp(now: int, ttl: int): Op<CachedAck> {
    if ttl <= 0 then Keep else Sweep(now - ttl)
  }

  function StoreOp(req: Request): Op<CachedAck> {
    if req.ackBytes.None? then Keep
    else Push(Entry(req.Key(), req.storeAt, CachedAck(ACCEPTED, req.ackBytes.value)))
  }

  function Swept(s: seq<Stored>, sweeps: seq<int>, ttl: int, capacity: int): seq<Stored> {
    if sweeps == [] then s
    else Apply(Swept(s, sweeps[..|sweeps| - 1], ttl, capacity), SweepOp(sweeps[|sweeps| - 1], ttl), capacity)
  }

  /** The cache after the request. */
  function After(s: seq<Stored>, req: Request, ttl: int, capacity: int): seq<Stored> {
    var looked := Apply(s, LookupOp(s, req, ttl), capacity);
    if Stores(s, req, ttl) then Apply(Swept(looked, req.sweeps, ttl, capacity), StoreOp(req), capacity) else looked
  }

  function Respond(s: seq<Stored>, req: Request, ttl: int): Response {
    if req.refusal.Some? then Error(req.refusal.value)
    else
      var cached := CachedAnswer(s, req, ttl);
      if cached.Some? then Raw(cached.value)
      else if !req.tracked then Error(404)
      else if req.frame.None? then Error(500)
      else
        match req.write
        case NotTracked => Error(404)
        case StdinClosed => Error(410)
        case NoStdinAttached => Error(409)
        case WriteFailed => Error(500)
        case Written =>
          if req.ackBytes.None? then Unmarshalled else Raw(CachedAck(ACCEPTED, req.ackBytes.value))
  }

  /** An ack for the key is in the cache and its TTL has not run out. */
  ghost predicate IsFresh(s: seq<Stored>, e: Stored, req: Request, ttl: int) {
    e in s && e.key == req.Key() && (ttl <= 0 || req.lookupAt - e.stamp <= ttl)
  }

  ghost predicate HasFresh(s: seq<Stored>, req: Request, ttl: int) {
    req.messageId != "" && exists e :: IsFresh(s, e, req, ttl)
  }

  lemma AnswerIsFresh(s: seq<Stored>, req: Request, ttl: int)
    requires Distinct(s) && req.Cached()
    ensures HasFresh(s, req, ttl) <==> CachedAnswer(s, req, ttl).Some?
    ensures forall e :: IsFresh(s, e, req, ttl) ==> CachedAnswer(s, req, ttl) == Some(e.value)
  {
    FindFacts(s, req.Key());
    if CachedAnswer(s, req, ttl).Some? {
      assert IsFresh(s, Find(s, req.Key()).value, req, ttl);
    }
  }

  class Handler {
    const dedup: DedupCache
    var stdin: seq<(Target, seq<Byte>)>  // the frames written so far, in order

    constructor (dedup: DedupCache)
      ensures this.dedup == dedup && stdin == []
    {
      this.dedup := dedup;
      stdin := [];
    }

    /** What the client is told says what became of the message: a success if it was written, now
        or, by the cache, before; an error of the right status in every other case. */
    method HandleMessage(req: Request) returns (response: Response)
      requires dedup.Valid()
      modifies this, dedup
      ensures dedup.Valid()
      // Success exactly with an ack in the cache or a frame in stdin.
      ensures response.Raw? || response.Unmarshalled? <==>
                && req.refusal.None?
                && (HasFresh(old(dedup.entries), req, dedup.ttl)
                    || (req.frame.Some? && stdin == old(stdin) + [(req.target, req.frame.value)]))
      ensures stdin == old(stdin) || (req.frame.Some? && stdin == old(stdin) + [(req.target, req.frame.value)])
      ensures stdin != old(stdin) <==>
                && req.refusal.None? && !HasFresh(old(dedup.entries), req, dedup.ttl)
                && req.tracked && req.frame.Some? && req.write == Written
      ensures response.Unmarshalled? <==> stdin != old(stdin) && req.ackBytes.None?
      ensures stdin != old(stdin) && req.ackBytes.Some? ==> response == Raw(CachedAck(202, req.ackBytes.value))
      // The ack in the cache is repeated, a new one is stored.
      ensures forall e :: req.refusal.None? && req.messageId != "" && IsFresh(old(dedup.entries), e, req, dedup.ttl) ==>
                response == Raw(e.value) && dedup.entries == old(dedup.entries)
      ensures stdin != old(stdin) && req.ackBytes.Some? && req.messageId != "" ==>
                && dedup.entries != []
                && dedup.entries[|dedup.entries| - 1]
                   == Entry(req.Key(), req.storeAt, CachedAck(202, req.ackBytes.value))
      // Every refusal has its own status.
      ensures req.refusal.Some? ==> response == Error(req.refusal.value) && dedup.entries == old(dedup.entries)
      ensures req.refusal.None? && !HasFresh(old(dedup.entries), req, dedup.ttl) ==>
                && (!req.tracked ==> response == Error(404))
                && (req.tracked && req.frame.None? ==> response == Error(500))
                && (req.tracked && req.frame.Some? ==>
                      && (req.write == NotTracked ==> response == Error(404))
                      && (req.write == StdinClosed ==> response == Error(410))
                      && (req.write == NoStdinAttached ==> response == Error(409))
                      && (req.write == WriteFailed ==> response == Error(500)))
      ensures response == Respond(old(dedup.entries), req, dedup.ttl)
      ensures stdin == old(stdin) + if Wrote(old(dedup.entries), req, dedup.ttl)
                                    then [(req.target, req.frame.value)] else []
      ensures dedup.entries == After(old(dedup.entries), req, dedup.ttl, dedup.capacity)
    {
      if req.refusal.Some? {
        return Error(req.refusal.value);
      }
      if req.messageId != "" {
        AnswerIsFresh(dedup.entries, req, dedup.ttl);
      }
      if req.messageId != "" {
        var cached := dedup.Get(req.target, req.messageId, req.lookupAt);
        if cached.Some? {
          return Raw(cached.value);
        }
      }
      if !req.tracked {
        return Error(404);
      }
      if req.frame.None? {
        return Error(500);
      }
      match req.write {
        case NotTracked => return Error(404);
        case StdinClosed => return Error(410);
        case NoStdinAttached => return Error(409);
        case WriteFailed => return Error(500);
        case Written =>
      }
      stdin := stdin + [(req.target, req.frame.value)];
      if req.ackBytes.None? {
        return Unmarshalled;
      }
      var ack := CachedAck(ACCEPTED, req.ackBytes.value);
      if req.messageId != "" {
        RunSweeper(req.sweeps);
        dedup.Put(req.target, req.messageId, ack, req.storeAt);
      }
      return Raw(ack);
    }

    /** The sweeper's own runs in the meantime. */
    method RunSweeper(sweeps: seq<int>)
      requires dedup.Valid()
      modifies dedup
      ensures dedup.Valid()
      ensures dedup.entries == Swept(old(dedup.entries), sweeps, dedup.ttl, dedup.capacity)
    {
      for i := 0 to |sweeps|
        invariant dedup.Valid()
        invariant dedup.entries == Swept(old(dedup.entries), sweeps[..i], dedup.ttl, dedup.capacity)
      {
        assert sweeps[..i + 1][..i] == sweeps[..i];
        dedup.SweepExpired(sweeps[i]);
      }
      assert sweeps[..|sweeps|] == sweeps;
    }
  }

  // ----- Runs of requests and sweeps -----

  /** A request looks its message up and, if it is written and acknowledged, stores the ack
      later on; `lookup` is the step at which the storing request did the former. */
  datatype Call = Lookup(req: Request) | Store(req: Request, lookup: nat) | Tick(now: int)

  type Trace = seq<Step<CachedAck, Call>>

  function CallOp(s: seq<Stored>, call: Call, ttl: int): Op<CachedAck> {
    match call
    case Lookup(req) => LookupOp(s, req, ttl)
    case Store(req, _) => StoreOp(req)
    case Tick(now) => SweepOp(now, ttl)
  }

  function At(call: Call): int {
    match call
    case Lookup(req) => req.lookupAt
    case Store(req, _) => req.storeAt
    case Tick(now) => now
  }

  /** A request that gets past validation carries validated fields. */
  predicate WellFormed(call: Call) {
    call.Lookup? && call.req.refusal.None? ==>
      call.req.target.Valid() && (call.req.messageId == "" || IsMessageId(call.req.messageId))
  }

  ghost predicate AnsweredAt(run: Trace, k: nat, ttl: int)
    requires k < |run|
  {
    run[k].op == CallOp(run[k].found, run[k].call, ttl) && WellFormed(run[k].call)
  }

  ghost predicate OnlyTicks(run: Trace, from: nat, to: nat)
    requires to <= |run|
  {
    forall k :: from <= k < to ==> run[k].call.Tick?
  }

  /** A store belongs to the request looked up last. */
  ghost predicate StoreFollows(run: Trace, k: nat, ttl: int)
    requires k < |run|
  {
    run[k].call.Store? ==>
      var p := run[k].call.lookup;
      && p < k && run[p].call == Lookup(run[k].call.req) && Stores(run[p].found, run[p].call.req, ttl)
      && OnlyTicks(run, p + 1, k)
  }

  /** And a request that stores does so before the next one is looked up. */
  ghost predicate StoreComes(run: Trace, p: nat, k: nat, ttl: int)
    requires p < k < |run|
  {
    (run[p].call.Lookup? && Stores(run[p].found, run[p].call.req, ttl) && OnlyTicks(run, p + 1, k)) ==>
      run[k].call.Tick? || run[k].call == Store(run[p].call.req, p)
  }

  /** Sequential requests, and sweeps in between anywhere, under a non-decreasing clock. */
  ghost predicate IsRun(run: Trace, ttl: int, capacity: int) {
    && Linked(run, capacity)
    && (forall k :: 0 <= k < |run| ==> AnsweredAt(run, k, ttl))
    && (forall k :: 0 <= k < |run| ==> StoreFollows(run, k, ttl))
    && (forall p, k :: 0 <= p < k < |run| ==> StoreComes(run, p, k, ttl))
    && (forall a, b :: 0 <= a <= b < |run| ==> At(run[a].call) <= At(run[b].call))
  }

  /** The request looked up at step k wrote its message to stdin. */
  ghost predicate WroteAt(run: Trace, k: nat, ttl: int)
    requires k < |run|
  {
    run[k].call.Lookup? && Wrote(run[k].found, run[k].call.req, ttl)
  }

  /** Step k looks up a message to `target` under `messageId` that got past validation. */
  ghost predicate IsMessage(run: Trace, k: nat, target: Target, messageId: string)
    requires k < |run|
  {
    && run[k].call.Lookup? && run[k].call.req.refusal.None?
    && run[k].call.req.target == target && run[k].call.req.messageId == messageId
  }

  lemma {:induction false} AlwaysSorted(run: Trace, j: nat, ttl: int, capacity: int)
    requires IsRun(run, ttl, capacity) && j < |run|
    ensures Sorted(run[j].found)
    ensures forall n :: 0 <= n < |run[j].found| ==> run[j].found[n].stamp <= At(run[j].call)
  {
    assert LinkedAt(run, j, capacity);
    if j > 0 {
      AlwaysSorted(run, j - 1, ttl, capacity);
      assert AnsweredAt(run, j - 1, ttl);
      ApplyKeepsSorted(run[j - 1].found, run[j - 1].op, capacity, At(run[j - 1].call));
    }
  }

  lemma RunIsChained(run: Trace, ttl: int, capacity: int)
    requires IsRun(run, ttl, capacity)
    ensures Chained(run, capacity)
  {
    forall k | 0 <= k < |run| ensures SweepsSorted(run, k) {
      AlwaysSorted(run, k, ttl, capacity);
    }
  }

  /** A sweep on any run leaves exactly the acks stored after now - ttl. */
  lemma SweepIsComplete(run: Trace, j: nat, ttl: int, capacity: int)
    requires IsRun(run, ttl, capacity) && j + 1 < |run| && run[j].call.Tick? && ttl > 0
    ensures forall e :: e in run[j + 1].found <==> e in run[j].found && e.stamp > run[j].call.now - ttl
  {
    AlwaysSorted(run, j, ttl, capacity);
    assert AnsweredAt(run, j, ttl) && LinkedAt(run, j + 1, capacity);
    FreshIsComplete(run[j].found, run[j].call.now - ttl);
  }

  /** Step i stored `e`: the write of its request had succeeded, and `e` is the ack that request
      was answered with. */
  ghost predicate StoredBy(run: Trace, i: nat, e: Stored, ttl: int)
    requires i < |run|
  {
    && run[i].call.Store? && run[i].op == Push(e)
    && var p, req := run[i].call.lookup, run[i].call.req;
       && p < i && run[p].call == Lookup(req) && WroteAt(run, p, ttl) && req.Cached()
       && e.key == req.Key() && e.stamp == req.storeAt
       && Respond(run[p].found, req, ttl) == Raw(e.value)
  }

  lemma StoresAreStored(run: Trace, i: nat, ttl: int, capacity: int)
    requires IsRun(run, ttl, capacity) && i < |run| && run[i].call.Store?
    ensures run[i].op.Push? && StoredBy(run, i, run[i].op.e, ttl)
  {
    assert AnsweredAt(run, i, ttl) && StoreFollows(run, i, ttl);
  }

  /** Every ack in the cache was put there by an earlier successful write. */
  lemma {:induction false} AcksComeFromWrites(run: Trace, j: nat, ttl: int, capacity: int)
    requires IsRun(run, ttl, capacity) && j < |run|
    ensures forall e :: e in run[j].found ==> exists i: nat :: i < j && StoredBy(run, i, e, ttl)
  {
    assert LinkedAt(run, j, capacity);
    if j > 0 {
      AcksComeFromWrites(run, j - 1, ttl, capacity);
      assert AnsweredAt(run, j - 1, ttl);
      forall e | e in run[j].found ensures exists i: nat :: i < j && StoredBy(run, i, e, ttl) {
        ApplyMembers(run[j - 1].found, run[j - 1].op, capacity, e);
        if run[j - 1].op == Push(e) {
          StoresAreStored(run, j - 1, ttl, capacity);
        }
      }
    }
  }

  lemma SameKeySameMessage(a: Request, b: Request)
    requires a.Cached() && b.Cached() && a.Key() == b.Key()
    requires WellFormed(Lookup(a)) && WellFormed(Lookup(b))
    ensures a.target == b.target && a.messageId == b.messageId
  {
    DedupKeyInjective(a.target, a.messageId, b.target, b.messageId);
  }

  /** A request answered from the cache repeats, byte for byte, the ack of an earlier request
      for the same target and message id whose write succeeded. */
  lemma CachedAnswerIsOwnAck(run: Trace, j: nat, ttl: int, capacity: int) returns (p: nat)
    requires IsRun(run, ttl, capacity) && j < |run| && run[j].call.Lookup?
    requires CachedAnswer(run[j].found, run[j].call.req, ttl).Some?
    ensures p < j && WroteAt(run, p, ttl)
    ensures IsMessage(run, p, run[j].call.req.target, run[j].call.req.messageId)
    ensures Respond(run[j].found, run[j].call.req, ttl) == Respond(run[p].found, run[p].call.req, ttl)
  {
    var req := run[j].call.req;
    AcksComeFromWrites(run, j, ttl, capacity);
    FindFacts(run[j].found, req.Key());
    var e := Find(run[j].found, req.Key()).value;
    var i: nat :| i < j && StoredBy(run, i, e, ttl);
    p := run[i].call.lookup;
    assert AnsweredAt(run, p, ttl) && AnsweredAt(run, j, ttl);
    SameKeySameMessage(run[p].call.req, req);
  }

  /** The exact rule while nothing touches the stored ack: a retry is answered from the cache
      if and only if the ack has not expired and was retained. */
  lemma RetryExact(run: Trace, i: nat, j: nat, e: Stored, ttl: int, capacity: int)
    requires IsRun(run, ttl, capacity) && i < j < |run|
    requires StoredBy(run, i, e, ttl) && Untouched(run, i, j, e.key)
    requires IsMessage(run, j, run[i].call.req.target, run[i].call.req.messageId)
    ensures CachedAnswer(run[j].found, run[j].call.req, ttl)
         == if !Expired(e, run[j].call.req.lookupAt, ttl) && Retained(run, i, j, e.stamp, capacity)
            then Some(e.value) else None
  {
    RunIsChained(run, ttl, capacity);
    RetainedSince(run, i, j, e, capacity);
  }

  /** Step i stored the ack of a written message.  Until the TTL has passed or `capacity` other
      acks were stored, a retry is answered with the same bytes and not written again. */
  lemma {:induction false} RetryIsNotWritten(run: Trace, i: nat, j: nat, e: Stored, ttl: int, capacity: int)
    requires IsRun(run, ttl, capacity) && i < j < |run|
    requires StoredBy(run, i, e, ttl)
    requires IsMessage(run, j, run[i].call.req.target, run[i].call.req.messageId)
    requires ttl <= 0 || run[j].call.req.lookupAt - run[i].call.req.storeAt < ttl
    requires capacity <= 0 || |Pushed(run, i, j)| < capacity
    ensures !WroteAt(run, j, ttl)
    ensures Respond(run[j].found, run[j].call.req, ttl) == Raw(e.value)
    ensures run[j].op == Keep
    decreases j, 0
  {
    var req := run[i].call.req;
    assert AnsweredAt(run, run[i].call.lookup, ttl) && AnsweredAt(run, j, ttl);
    forall k | i < k < j ensures !Touches(run[k].op, e.key) && SweptBefore(run[k], e.stamp) {
      NotTouchedBefore(run, i, k, j, e, ttl, capacity);
    }
    FewRivals(run, i, j, e.stamp, capacity);
    RetryExact(run, i, j, e, ttl, capacity);
  }

  /** Whoever touches the key of a message is a request for it, or stores the ack of one. */
  lemma TouchedByMessage(run: Trace, k: nat, req: Request, ttl: int, capacity: int) returns (p: nat)
    requires IsRun(run, ttl, capacity) && k < |run| && Touches(run[k].op, req.Key())
    requires req.Cached() && WellFormed(Lookup(req))
    ensures p <= k && IsMessage(run, p, req.target, req.messageId) && run[p].call.req.Cached()
    ensures (p == k && run[k].op.Delete?) || (run[k].call == Store(run[p].call.req, p) && WroteAt(run, p, ttl))
    ensures OnlyTicks(run, p + 1, k)
  {
    assert AnsweredAt(run, k, ttl) && StoreFollows(run, k, ttl);
    p := if run[k].call.Lookup? then k else run[k].call.lookup;
    assert AnsweredAt(run, p, ttl);
    SameKeySameMessage(run[p].call.req, req);
  }

  lemma {:induction false} NotTouchedBefore(run: Trace, i: nat, k: nat, j: nat, e: Stored, ttl: int, capacity: int)
    requires IsRun(run, ttl, capacity) && i < k < j < |run|
    requires StoredBy(run, i, e, ttl)
    requires ttl <= 0 || At(run[j].call) - run[i].call.req.storeAt < ttl
    requires capacity <= 0 || |Pushed(run, i, j)| < capacity
    ensures !Touches(run[k].op, e.key) && SweptBefore(run[k], e.stamp)
    decreases k, 1
  {
    assert AnsweredAt(run, k, ttl) && AnsweredAt(run, run[i].call.lookup, ttl);
    assert At(run[k].call) <= At(run[j].call);
    if Touches(run[k].op, e.key) {
      var p := TouchedByMessage(run, k, run[i].call.req, ttl, capacity);
      assert i < p && At(run[p].call) <= At(run[j].call);
      PushedGrows(run, i, p, j);
      RetryIsNotWritten(run, i, p, e, ttl, capacity);
    }
  }

  /** The request of a written message stores its ack before the next request is looked up. */
  lemma {:induction false} StoreOf(run: Trace, p: nat, from: nat, j: nat, ttl: int, capacity: int) returns (i: nat)
    requires IsRun(run, ttl, capacity) && p < from <= j < |run| && run[j].call.Lookup?
    requires run[p].call.Lookup? && Stores(run[p].found, run[p].call.req, ttl) && OnlyTicks(run, p + 1, from)
    ensures p < i < j && run[i].call == Store(run[p].call.req, p)
    decreases j - from
  {
    assert StoreComes(run, p, from, ttl);
    if run[from].call.Tick? {
      i := StoreOf(run, p, from + 1, j, ttl, capacity);
    } else {
      i := from;
    }
  }

  /** The promise, from the write on: a message that was written and acknowledged is not written
      again for any retry looked up within less than the TTL of the store of its ack, unless
      `capacity` other acks were stored in between, and every such retry gets the same bytes. */
  lemma WrittenIsNotRewritten(run: Trace, p: nat, j: nat, ttl: int, capacity: int) returns (i: nat)
    requires IsRun(run, ttl, capacity) && p < j < |run|
    requires WroteAt(run, p, ttl) && run[p].call.req.messageId != "" && run[p].call.req.ackBytes.Some?
    requires IsMessage(run, j, run[p].call.req.target, run[p].call.req.messageId)
    requires ttl <= 0 || run[j].call.req.lookupAt - run[p].call.req.storeAt < ttl
    ensures p < i < j && run[i].call == Store(run[p].call.req, p)
    ensures (capacity <= 0 || |Pushed(run, i, j)| < capacity) ==>
              !WroteAt(run, j, ttl)
              && Respond(run[j].found, run[j].call.req, ttl) == Respond(run[p].found, run[p].call.req, ttl)
  {
    i := StoreOf(run, p, p + 1, j, ttl, capacity);
    StoresAreStored(run, i, ttl, capacity);
    if capacity <= 0 || |Pushed(run, i, j)| < capacity {
      RetryIsNotWritten(run, i, j, run[i].op.e, ttl, capacity);
    }
  }

  // ----- The plain map it implements -----

  function TableAnswer(m: Table<CachedAck>, req: Request, ttl: int): Option<CachedAck> {
    if req.Cached() && req.Key() in m && !Expired(m[req.Key()], req.lookupAt, ttl) then Some(m[req.Key()].value)
    else None
  }

  function TableOp(m: Table<CachedAck>, call: Call, ttl: int): Op<CachedAck> {
    match call
    case Lookup(req) =>
      if req.Cached() && req.Key() in m && Expired(m[req.Key()], req.lookupAt, ttl) then Delete(req.Key()) else Keep
    case Store(req, _) => StoreOp(req)
    case Tick(now) => SweepOp(now, ttl)
  }

  /** The same calls on a timestamped map: a lookup drops what it finds expired, a store puts the
      ack and drops one oldest entry if there are too many, a sweep keeps exactly what is newer
      than its cutoff. */
  ghost predicate IsTableRun(tables: seq<Table<CachedAck>>, run: Trace, ttl: int, capacity: int) {
    && |tables| == |run| && (run != [] ==> tables[0] == map[])
    && (forall j :: 0 <= j < |run| - 1 ==> TableStepAt(tables, run, j, ttl, capacity))
  }

  ghost predicate TableStepAt(tables: seq<Table<CachedAck>>, run: Trace, j: nat, ttl: int, capacity: int)
    requires j + 1 < |run| == |tables|
  {
    TableStep(tables[j], TableOp(tables[j], run[j].call, ttl), tables[j + 1], capacity)
  }

  function Tables(run: Trace): seq<Table<CachedAck>> {
    seq(|run|, j requires 0 <= j < |run| => AsTable(run[j].found))
  }

  lemma SameOp(s: seq<Stored>, call: Call, ttl: int)
    ensures TableOp(AsTable(s), call, ttl) == CallOp(s, call, ttl)
    ensures call.Lookup? ==> TableAnswer(AsTable(s), call.req, ttl) == CachedAnswer(s, call.req, ttl)
  {
    if call.Lookup? {
      AsTableFinds(s, call.req.Key());
    }
  }

  /** Every run of the cache is a run of the map with the same answers. */
  lemma RefinesTable(run: Trace, ttl: int, capacity: int)
    requires IsRun(run, ttl, capacity)
    ensures IsTableRun(Tables(run), run, ttl, capacity)
    ensures forall j :: 0 <= j < |run| && run[j].call.Lookup? ==>
              TableAnswer(Tables(run)[j], run[j].call.req, ttl) == CachedAnswer(run[j].found, run[j].call.req, ttl)
  {
    forall j | 0 <= j < |run| - 1 ensures TableStepAt(Tables(run), run, j, ttl, capacity) {
      AlwaysSorted(run, j, ttl, capacity);
      assert AnsweredAt(run, j, ttl);
      SameOp(run[j].found, run[j].call, ttl);
      RunIsTableStep(run, j, capacity);
    }
    forall j | 0 <= j < |run| && run[j].call.Lookup?
      ensures TableAnswer(Tables(run)[j], run[j].call.req, ttl) == CachedAnswer(run[j].found, run[j].call.req, ttl)
    {
      SameOp(run[j].found, run[j].call, ttl);
    }
    if run != [] {
      assert LinkedAt(run, 0, capacity);
    }
  }
}
