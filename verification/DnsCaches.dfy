/** internal/container/dns_cache.go: resolved addresses, least recently used host first out. */
module DnsCaches {
  import opened Prelude
  import opened RecencyList
  import opened CacheHistory

  type Addrs = seq<string>
  type Resolution = Entry<Addrs>  // stamp: the instant after which it is stale

  datatype Call = Get(host: string, now: int) | Put(host: string, addrs: Addrs, now: int)

  /** What a lookup answers. */
  function Answer(s: seq<Resolution>, host: string, now: int): Option<Addrs> {
    var found := Find(s, host);
    if found.Some? && now <= found.value.stamp then Some(found.value.value) else None
  }

  function CallOp(s: seq<Resolution>, call: Call, ttl: int): Op<Addrs> {
    match call
    case Put(host, addrs, now) => Push(Entry(host, now + ttl, addrs))
    case Get(host, now) =>
      var found := Find(s, host);
      if found.None? then Keep
      else if now > found.value.stamp then Delete(host)
      else Push(found.value)
  }

  lemma NewestKeepsLast(s: seq<Resolution>, capacity: int)
    requires s != []
    ensures Newest(s, capacity) != [] && Newest(s, capacity)[|Newest(s, capacity)| - 1] == s[|s| - 1]
  {
  }

  class DnsCache {
    const ttl: int
    const capacity: int
    var entries: seq<Resolution>
    var index: map<string, Resolution>

    ghost predicate Valid()
      reads this
    {
      && Indexed(entries, index)
      && (capacity > 0 ==> |entries| <= capacity)
    }

    constructor (ttl: int, capacity: int)
      ensures Valid() && entries == []
      ensures this.ttl == ttl && this.capacity == capacity
    {
      this.ttl := ttl;
      this.capacity := capacity;
      entries := [];
      index := map[];
    }

    method Lookup(host: string, now: int) returns (addrs: Option<Addrs>)
      requires Valid()
      modifies this
      ensures Valid()
      ensures addrs == Answer(old(entries), host, now)
      ensures addrs.Some? <==> exists e :: e in old(entries) && e.key == host && now <= e.stamp
      ensures addrs.Some? ==>
                && entries != [] && entries[|entries| - 1] in old(entries)
                && entries[|entries| - 1].key == host && entries[|entries| - 1].value == addrs.value
      ensures addrs.None? ==> forall e :: e in entries <==> e in old(entries) && e.key != host
      ensures entries == Apply(old(entries), CallOp(old(entries), Get(host, now), ttl), capacity)
    {
      IndexFinds(entries, index, host);
      FindFacts(entries, host);
      WithoutFacts(entries, host);
      if host !in index {
        return None;
      }
      var entry := index[host];
      IndexedWithout(entries, index, host);
      IndexedPut(entries, index, entry);
      if now > entry.stamp {
        entries := Without(entries, host);
        index := index - {host};
        return None;
      }
      assert index[host := entry] == index;
      entries := Without(entries, host) + [entry];
      return Some(entry.value);
    }

    method Store(host: string, addrs: Addrs, now: int)
      requires Valid()
      modifies this
      ensures Valid()
      ensures entries == Apply(old(entries), CallOp(old(entries), Put(host, addrs, now), ttl), capacity)
      ensures entries != [] && entries[|entries| - 1] == Entry(host, now + ttl, addrs)
    {
      var entry := Entry(host, now + ttl, addrs);
      ghost var put := Without(entries, host) + [entry];
      NewestKeepsLast(put, capacity);
      assert CallOp(entries, Put(host, addrs, now), ttl) == Push(entry);
      IndexedPut(entries, index, entry);
      if host in index {
        index := index[host := entry];
        entries := Without(entries, host) + [entry];
        assert Newest(put, capacity) == put;
        return;
      }
      entries := entries + [entry];
      index := index[host := entry];
      assert entries == put;
      entries, index := Evict(entries, index, capacity);
    }
  }

  // ----- Runs of get and put -----

  type Trace = seq<Step<Addrs, Call>>

  ghost predicate AnsweredAt(run: Trace, k: nat, ttl: int)
    requires k < |run|
  {
    run[k].op == CallOp(run[k].found, run[k].call, ttl)
  }

  ghost predicate IsRun(run: Trace, ttl: int, capacity: int) {
    && Linked(run, capacity)
    && (forall k :: 0 <= k < |run| ==> AnsweredAt(run, k, ttl))
    && (forall a, b :: 0 <= a <= b < |run| ==> run[a].call.now <= run[b].call.now)
  }

  /** Step k used the host: it stored it, or a lookup hit it. */
  ghost predicate Uses(run: Trace, k: nat, host: string)
    requires k < |run|
  {
    PushesKey(run[k], host)
  }

  /** Step p is the last store of the host before step j. */
  ghost predicate LastPut(run: Trace, p: nat, j: nat, host: string)
    requires j <= |run|
  {
    && p < j && run[p].call.Put? && run[p].call.host == host
    && forall k :: p < k < j && run[k].call.Put? ==> run[k].call.host != host
  }

  /** The entry is what the last store of its host left. */
  ghost predicate FromLastPut(run: Trace, j: nat, e: Resolution, ttl: int)
    requires j <= |run|
  {
    exists p: nat :: LastPut(run, p, j, e.key) && e.value == run[p].call.addrs && e.stamp == run[p].call.now + ttl
  }

  lemma RunIsChained(run: Trace, ttl: int, capacity: int)
    requires IsRun(run, ttl, capacity)
    ensures Chained(run, capacity)
  {
    forall k | 0 <= k < |run| ensures SweepsSorted(run, k) {
      assert AnsweredAt(run, k, ttl);
    }
  }

  /** Nothing in the cache is ever older than the last store of its host. */
  lemma {:induction false} EntriesAreLastPuts(run: Trace, j: nat, ttl: int, capacity: int)
    requires IsRun(run, ttl, capacity) && j < |run|
    ensures forall e :: e in run[j].found ==> FromLastPut(run, j, e, ttl)
  {
    assert LinkedAt(run, j, capacity);
    if j > 0 {
      EntriesAreLastPuts(run, j - 1, ttl, capacity);
      assert AnsweredAt(run, j - 1, ttl);
      var s, op := run[j - 1].found, run[j - 1].op;
      FindFacts(s, run[j - 1].call.host);
      forall e | e in run[j].found ensures FromLastPut(run, j, e, ttl) {
        ApplyMembers(s, op, capacity, e);
        if run[j - 1].call.Put? && e.key == run[j - 1].call.host {
          assert LastPut(run, j - 1, j, e.key);
        } else {
          assert e in s && FromLastPut(run, j - 1, e, ttl);
          var p: nat :|
            LastPut(run, p, j - 1, e.key) && e.value == run[p].call.addrs && e.stamp == run[p].call.now + ttl;
          assert LastPut(run, p, j, e.key);
        }
      }
    }
  }

  /** A hit only ever returns the addresses of the host's own last store, and only within
      the TTL of that store. */
  lemma HitIsLastPut(run: Trace, j: nat, ttl: int, capacity: int)
    requires IsRun(run, ttl, capacity) && j < |run| && run[j].call.Get?
    requires Answer(run[j].found, run[j].call.host, run[j].call.now).Some?
    ensures exists p: nat :: LastPut(run, p, j, run[j].call.host)
              && Answer(run[j].found, run[j].call.host, run[j].call.now) == Some(run[p].call.addrs)
              && run[j].call.now <= run[p].call.now + ttl
  {
    EntriesAreLastPuts(run, j, ttl, capacity);
    FindFacts(run[j].found, run[j].call.host);
    var e := Find(run[j].found, run[j].call.host).value;
    assert FromLastPut(run, j, e, ttl);
  }

  /** The exact rule.  Step i was the last to touch the host and left the entry `e`.  A later
      lookup answers with `e` if and only if `e` has not expired and at no point in between
      had `capacity` distinct other hosts become more recent; otherwise it misses. */
  lemma LookupExact(run: Trace, i: nat, j: nat, e: Resolution, ttl: int, capacity: int)
    requires IsRun(run, ttl, capacity) && i < j < |run|
    requires run[i].op == Push(e) && Untouched(run, i, j, e.key)
    requires run[j].call.Get? && run[j].call.host == e.key
    ensures Answer(run[j].found, e.key, run[j].call.now)
         == if run[j].call.now <= e.stamp && Retained(run, i, j, e.stamp, capacity) then Some(e.value) else None
  {
    RunIsChained(run, ttl, capacity);
    RetainedSince(run, i, j, e, capacity);
  }

  /** The LRU promise: if step i was the host's last use, its entry has not expired, and fewer
      than `capacity` distinct other hosts were stored or hit since, a lookup answers with the
      addresses of the host's last store. */
  lemma {:induction false} RecentHostHits(run: Trace, i: nat, j: nat, e: Resolution, ttl: int, capacity: int)
    requires IsRun(run, ttl, capacity) && i < j < |run|
    requires run[i].op == Push(e) && forall k :: i < k < j ==> !Uses(run, k, e.key)
    requires run[j].call.Get? && run[j].call.host == e.key && run[j].call.now <= e.stamp
    requires capacity <= 0 || |Pushed(run, i, j)| < capacity
    ensures Answer(run[j].found, e.key, run[j].call.now) == Some(e.value)
    ensures exists p: nat :: LastPut(run, p, j, e.key) && e.value == run[p].call.addrs
    decreases j
  {
    forall k | i < k < j ensures SweptBefore(run[k], e.stamp) && !Touches(run[k].op, e.key) {
      assert AnsweredAt(run, k, ttl) && !Uses(run, k, e.key);
      if run[k].call.Get? && run[k].call.host == e.key {
        PushedGrows(run, i, k, j);
        RecentHostHits(run, i, k, e, ttl, capacity);
        FindFacts(run[k].found, e.key);
        assert false;
      }
    }
    FewRivals(run, i, j, e.stamp, capacity);
    LookupExact(run, i, j, e, ttl, capacity);
    HitIsLastPut(run, j, ttl, capacity);
  }

  /** The same from a store: what was stored is answered until it expires, unless `capacity`
      distinct other hosts were stored or hit since. */
  lemma StoredHostHits(run: Trace, i: nat, j: nat, ttl: int, capacity: int)
    requires IsRun(run, ttl, capacity) && i < j < |run|
    requires run[i].call.Put? && run[j].call.Get? && run[j].call.host == run[i].call.host
    requires forall k :: i < k < j ==> !Uses(run, k, run[i].call.host)
    requires capacity <= 0 || |Pushed(run, i, j)| < capacity
    ensures Answer(run[j].found, run[j].call.host, run[j].call.now)
         == if run[j].call.now <= run[i].call.now + ttl then Some(run[i].call.addrs) else None
  {
    assert AnsweredAt(run, i, ttl);
    var e := Entry(run[i].call.host, run[i].call.now + ttl, run[i].call.addrs);
    if run[j].call.now <= e.stamp {
      RecentHostHits(run, i, j, e, ttl, capacity);
    } else if Answer(run[j].found, e.key, run[j].call.now).Some? {
      HitIsLastPut(run, j, ttl, capacity);
      var p: nat :| LastPut(run, p, j, e.key) && run[j].call.now <= run[p].call.now + ttl;
      assert AnsweredAt(run, p, ttl) && (p > i ==> Uses(run, p, e.key));
    }
  }
}
