/** internal/webhook/replay_cache.go: the set of request signatures seen within a TTL,
    bounded by a capacity. */
module ReplayCaches {
  import opened RecencyList
  import opened CacheHistory
  import opened TimestampedMaps

  type Sighting = Entry<()>

  datatype Call = Query(sig: string, now: int) | Tick(now: int)

  predicate Hit(s: seq<Sighting>, sig: string, now: int, ttl: int) {
    var found := Find(s, sig);
    found.Some? && (ttl <= 0 || now - found.value.stamp <= ttl)
  }

  /** The list operation one call issues: a new or expired signature is pushed, a hit
      changes nothing, a sweep cuts at now - ttl. */
  function CallOp(s: seq<Sighting>, call: Call, ttl: int): Op<()> {
    match call
    case Query(sig, now) => if sig == "" || Hit(s, sig, now, ttl) then Keep else Push(Entry(sig, now, ()))
    case Tick(now) => if ttl <= 0 then Keep else Sweep(now - ttl)
  }

  class ReplayCache {
    const ttl: int
    const capacity: int
    var entries: seq<Sighting>
    var index: map<string, Sighting>

    ghost predicate Valid()
      reads this
    {
      && Indexed(entries, index)
      && (capacity > 0 ==> |entries| <= capacity)
    }

    constructor (ttl: int, capacity: int)
      ensures Valid() && entries == []
      ensures this.ttl == ttl && this.capacity == capacity
    {
      this.ttl := ttl;
      this.capacity := capacity;
      entries := [];
      index := map[];
    }

    method Seen(sig: string, now: int) returns (replay: bool)
      requires Valid()
      modifies this
      ensures Valid()
      ensures replay == (sig != "" && Hit(old(entries), sig, now, ttl))
      ensures entries == Apply(old(entries), CallOp(old(entries), Query(sig, now), ttl), capacity)
    {
      if sig == "" {
        return false;
      }
      IndexFinds(entries, index, sig);
      WithoutFacts(entries, sig);
      if sig in index {
        var entry := index[sig];
        if ttl <= 0 || now - entry.stamp <= ttl {
          return true;
        }
        IndexedWithout(entries, index, sig);
        entries := Without(entries, sig);
        index := index - {sig};
      }
      var entry := Entry(sig, now, ());
      IndexedAppend(entries, index, entry);
      entries := entries + [entry];
      index := index[sig := entry];
      assert entries == Without(old(entries), sig) + [entry];
      entries, index := Evict(entries, index, capacity);
      return false;
    }

    method SweepExpired(now: int)
      requires Valid()
      modifies this
      ensures Valid()
      ensures entries == Apply(old(entries), CallOp(old(entries), Tick(now), ttl), capacity)
    {
      if ttl <= 0 {
        return;
      }
      entries, index := PopExpired(entries, index, now - ttl);
    }
  }

  // ----- Runs of Seen and sweep -----

  type Trace = seq<Step<(), Call>>

  ghost predicate AnsweredAt(run: Trace, k: nat, ttl: int)
    requires k < |run|
  {
    run[k].op == CallOp(run[k].found, run[k].call, ttl)
  }

  /** A run of calls under a non-decreasing clock, each answered from the list it found. */
  ghost predicate IsRun(run: Trace, ttl: int, capacity: int) {
    && Linked(run, capacity)
    && (forall k :: 0 <= k < |run| ==> AnsweredAt(run, k, ttl))
    && (forall a, b :: 0 <= a <= b < |run| ==> run[a].call.now <= run[b].call.now)
  }

  /** Step k answered false and recorded its signature; so Pushed(run, i, j) is the set of
      signatures recorded strictly between steps i and j. */
  ghost predicate Recorded(run: Trace, k: nat)
    requires k < |run|
  {
    run[k].call.Query? && run[k].op.Push?
  }

  /** Under a non-decreasing clock every step finds the list sorted by first sight, so the
      early return of every sweep is complete. */
  lemma {:induction false} AlwaysSorted(run: Trace, j: nat, ttl: int, capacity: int)
    requires IsRun(run, ttl, capacity) && j < |run|
    ensures Sorted(run[j].found)
    ensures forall n :: 0 <= n < |run[j].found| ==> run[j].found[n].stamp <= run[j].call.now
  {
    assert LinkedAt(run, j, capacity);
    if j > 0 {
      AlwaysSorted(run, j - 1, ttl, capacity);
      assert AnsweredAt(run, j - 1, ttl);
      ApplyKeepsSorted(run[j - 1].found, run[j - 1].op, capacity, run[j - 1].call.now);
    }
  }

  lemma RunIsChained(run: Trace, ttl: int, capacity: int)
    requires IsRun(run, ttl, capacity)
    ensures Chained(run, capacity)
  {
    forall k | 0 <= k < |run| ensures SweepsSorted(run, k) {
      AlwaysSorted(run, k, ttl, capacity);
      assert AnsweredAt(run, k, ttl);
    }
  }

  /** The exact rule.  Signature `sig` was recorded by step i and not recorded again before
      step j asks for it.  Step j answers "replay" if and only if the TTL has not run out,
      fewer than `capacity` other signatures were recorded in between, and no sweep in
      between had a cutoff reaching step i. */
  lemma ReplayExact(run: Trace, i: nat, j: nat, ttl: int, capacity: int)
    requires IsRun(run, ttl, capacity) && i < j < |run|
    requires Recorded(run, i) && run[j].call.Query? && run[j].call.sig == run[i].call.sig
    requires Untouched(run, i, j, run[i].call.sig)
    ensures !Recorded(run, j) <==>
              && (ttl <= 0 || run[j].call.now - run[i].call.now <= ttl)
              && (capacity <= 0 || |Pushed(run, i, j)| < capacity)
              && AllSweptBefore(run, i, j, run[i].call.now)
  {
    var sig, now := run[i].call.sig, run[i].call.now;
    RunIsChained(run, ttl, capacity);
    assert AnsweredAt(run, i, ttl) && AnsweredAt(run, j, ttl);
    forall k | i < k < j ensures !run[k].op.Delete? {
      assert AnsweredAt(run, k, ttl);
    }
    FewRivalsExactly(run, i, j, now, capacity);
    RetainedSince(run, i, j, Entry(sig, now, ()), capacity);
  }

  /** The promise to callers: a recorded signature is answered "replay" every time within
      less than the TTL, unless `capacity` other signatures were recorded since. */
  lemma {:induction false} SeenWithinTtl(run: Trace, i: nat, j: nat, ttl: int, capacity: int)
    requires IsRun(run, ttl, capacity) && i < j < |run|
    requires Recorded(run, i) && run[j].call.Query? && run[j].call.sig == run[i].call.sig
    requires ttl <= 0 || run[j].call.now - run[i].call.now < ttl
    requires capacity <= 0 || |Pushed(run, i, j)| < capacity
    ensures !Recorded(run, j)
    decreases j
  {
    var sig := run[i].call.sig;
    forall k | i < k < j ensures !Touches(run[k].op, sig) && SweptBefore(run[k], run[i].call.now) {
      assert AnsweredAt(run, k, ttl);
      PushedGrows(run, i, k, j);
      if run[k].call.Query? && run[k].call.sig == sig {
        SeenWithinTtl(run, i, k, ttl, capacity);
      }
    }
    ReplayExact(run, i, j, ttl, capacity);
  }

  /** The two boundaries, at any TTL and capacity: at age exactly `ttl` a signature is answered
      "replay", unless a sweep came just before, which finds it expired. */
  lemma BoundaryDependsOnSweep(sig: string, ttl: int, capacity: int) returns (kept: Trace, swept: Trace)
    requires sig != "" && ttl > 0
    ensures IsRun(kept, ttl, capacity) && IsRun(swept, ttl, capacity) && |kept| == 2 && |swept| == 3
    ensures kept[0].call == swept[0].call == Query(sig, 0) && kept[1].call == swept[2].call == Query(sig, ttl)
    ensures swept[1].call == Tick(ttl)
    ensures Recorded(kept, 0) && !Recorded(kept, 1)
    ensures Recorded(swept, 0) && Recorded(swept, 2)
  {
    var e := Entry(sig, 0, ());
    var first := Step(Query(sig, 0), [], Push(e));
    assert Apply([], Push(e), capacity) == [e];
    kept := [first, Step(Query(sig, ttl), [e], Keep)];
    assert LinkedAt(kept, 0, capacity) && LinkedAt(kept, 1, capacity);
    assert [e][1..] == [] && Fresh([e], 0) == [];
    swept := [first, Step(Tick(ttl), [e], Sweep(0)), Step(Query(sig, ttl), [], Push(Entry(sig, ttl, ())))];
    assert LinkedAt(swept, 0, capacity) && LinkedAt(swept, 1, capacity) && LinkedAt(swept, 2, capacity);
  }

  /** A sweep on any run leaves exactly the signatures first seen after now - ttl. */
  lemma SweepIsComplete(run: Trace, j: nat, ttl: int, capacity: int)
    requires IsRun(run, ttl, capacity) && j + 1 < |run| && run[j].call.Tick? && ttl > 0
    ensures forall e :: e in run[j + 1].found <==> e in run[j].found && e.stamp > run[j].call.now - ttl
  {
    AlwaysSorted(run, j, ttl, capacity);
    assert AnsweredAt(run, j, ttl) && LinkedAt(run, j + 1, capacity);
    FreshIsComplete(run[j].found, run[j].call.now - ttl);
  }

  // ----- The plain map it implements -----

  predicate TableHit(m: Table<()>, sig: string, now: int, ttl: int) {
    sig in m && (ttl <= 0 || now - m[sig].stamp <= ttl)
  }

  function TableOp(m: Table<()>, call: Call, ttl: int): Op<()> {
    match call
    case Query(sig, now) => if sig == "" || TableHit(m, sig, now, ttl) then Keep else Push(Entry(sig, now, ()))
    case Tick(now) => if ttl <= 0 then Keep else Sweep(now - ttl)
  }

  /** The same calls on a timestamped map: a hit changes nothing, a miss puts the signature and
      drops one oldest entry if there are too many, a sweep keeps exactly what is newer than its
      cutoff. */
  ghost predicate IsTableRun(tables: seq<Table<()>>, run: Trace, ttl: int, capacity: int) {
    && |tables| == |run| && (run != [] ==> tables[0] == map[])
    && (forall j :: 0 <= j < |run| - 1 ==> TableStepAt(tables, run, j, ttl, capacity))
  }

  ghost predicate TableStepAt(tables: seq<Table<()>>, run: Trace, j: nat, ttl: int, capacity: int)
    requires j + 1 < |run| == |tables|
  {
    TableStep(tables[j], TableOp(tables[j], run[j].call, ttl), tables[j + 1], capacity)
  }

  function Tables(run: Trace): seq<Table<()>> {
    seq(|run|, j requires 0 <= j < |run| => AsTable(run[j].found))
  }

  lemma SameOp(s: seq<Sighting>, call: Call, ttl: int)
    ensures TableOp(AsTable(s), call, ttl) == CallOp(s, call, ttl)
    ensures call.Query? ==> TableHit(AsTable(s), call.sig, call.now, ttl) == Hit(s, call.sig, call.now, ttl)
  {
    if call.Query? {
      AsTableFinds(s, call.sig);
    }
  }

  /** Every run of the cache is a run of the map with the same answers. */
  lemma RefinesTable(run: Trace, ttl: int, capacity: int)
    requires IsRun(run, ttl, capacity)
    ensures IsTableRun(Tables(run), run, ttl, capacity)
    ensures forall j :: 0 <= j < |run| && run[j].call.Query? ==>
              TableHit(Tables(run)[j], run[j].call.sig, run[j].call.now, ttl)
              == Hit(run[j].found, run[j].call.sig, run[j].call.now, ttl)
  {
    forall j | 0 <= j < |run| - 1 ensures TableStepAt(Tables(run), run, j, ttl, capacity) {
      AlwaysSorted(run, j, ttl, capacity);
      assert AnsweredAt(run, j, ttl);
      SameOp(run[j].found, run[j].call, ttl);
      RunIsTableStep(run, j, capacity);
    }
    forall j | 0 <= j < |run| && run[j].call.Query?
      ensures TableHit(Tables(run)[j], run[j].call.sig, run[j].call.now, ttl)
           == Hit(run[j].found, run[j].call.sig, run[j].call.now, ttl)
    {
      SameOp(run[j].found, run[j].call, ttl);
    }
    if run != [] {
      assert LinkedAt(run, 0, capacity);
    }
  }
}
