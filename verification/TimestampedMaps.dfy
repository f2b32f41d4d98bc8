/** The plain map that the two TTL caches implement with a list and an index: keys with a time,
    of which the oldest goes when there are too many. */
module TimestampedMaps {
  import opened Prelude
  import opened RecencyList
  import opened CacheHistory

  type Table<+V> = map<string, Entry<V>>

  function Lookup<V>(m: Table<V>, key: string): Option<Entry<V>> {
    if key in m then Some(m[key]) else None
  }

  /** `dropped` is one entry no newer than any other if the table is over capacity, and none
      otherwise. */
  predicate DropsOldest<V>(wide: Table<V>, dropped: set<string>, capacity: int) {
    && dropped <= wide.Keys
    && |dropped| == (if 0 < capacity < |wide| then 1 else 0)
    && (forall k, x :: k in dropped && x in wide ==> wide[k].stamp <= wide[x].stamp)
  }

  /** The entries after the cutoff. */
  function Newer<V>(m: Table<V>, cutoff: int): Table<V> {
    map key | key in m && m[key].stamp > cutoff :: m[key]
  }

  ghost predicate PutsAndDrops<V>(m: Table<V>, e: Entry<V>, dropped: set<string>, m': Table<V>, capacity: int) {
    DropsOldest(m[e.key := e], dropped, capacity) && m' == m[e.key := e] - dropped
  }

  /** What an operation does to the table. */
  ghost predicate TableStep<V>(m: Table<V>, op: Op<V>, m': Table<V>, capacity: int) {
    match op
    case Keep => m' == m
    case Push(e) => exists dropped :: PutsAndDrops(m, e, dropped, m', capacity)
    case Delete(key) => m' == m - {key}
    case Sweep(cutoff) => m' == Newer(m, cutoff)
  }

  // ----- The table of a list -----

  function AsTable<V>(s: seq<Entry<V>>): Table<V> {
    if s == [] then map[] else AsTable(s[1..])[s[0].key := s[0]]
  }

  lemma {:induction false} AsTableFinds<V>(s: seq<Entry<V>>, key: string)
    ensures Lookup(AsTable(s), key) == Find(s, key)
  {
    if s != [] {
      AsTableFinds(s[1..], key);
    }
  }

  lemma AsTableIndexes<V>(s: seq<Entry<V>>)
    requires Distinct(s)
    ensures Indexed(s, AsTable(s))
  {
    forall key ensures key in AsTable(s) <==> key in Keys(s) {
      AsTableFinds(s, key);
      FindFacts(s, key);
    }
    forall e | e in s ensures AsTable(s)[e.key] == e {
      AsTableFinds(s, e.key);
      FindFacts(s, e.key);
    }
  }

  /** A list of distinct keys has only one index. */
  lemma IndexIsTable<V>(s: seq<Entry<V>>, index: Table<V>)
    requires Indexed(s, index)
    ensures index == AsTable(s)
  {
    AsTableIndexes(s);
    forall key | key in index ensures index[key] == AsTable(s)[key] {
      var e :| e in s && e.key == key;
    }
  }

  // ----- Every list operation is a step of the table -----

  lemma PushIsTableStep<V>(s: seq<Entry<V>>, e: Entry<V>, capacity: int)
    requires Distinct(s) && Sorted(s) && (capacity > 0 ==> |s| <= capacity)
    requires forall i :: 0 <= i < |s| ==> s[i].stamp <= e.stamp
    ensures TableStep(AsTable(s), Push(e), AsTable(Apply(s, Push(e), capacity)), capacity)
  {
    AsTableIndexes(s);
    var wide, dropped := PushIsMapUpdate(s, AsTable(s), e, capacity);
    IndexIsTable(Apply(s, Push(e), capacity), wide - dropped);
    assert PutsAndDrops(AsTable(s), e, dropped, AsTable(Apply(s, Push(e), capacity)), capacity);
  }

  lemma DeleteIsTableStep<V>(s: seq<Entry<V>>, key: string, capacity: int)
    requires Distinct(s)
    ensures TableStep(AsTable(s), Delete(key), AsTable(Apply(s, Delete(key), capacity)), capacity)
  {
    AsTableIndexes(s);
    IndexedWithout(s, AsTable(s), key);
    IndexIsTable(Without(s, key), AsTable(s) - {key});
  }

  lemma SweepIsTableStep<V>(s: seq<Entry<V>>, cutoff: int, capacity: int)
    requires Distinct(s) && Sorted(s)
    ensures TableStep(AsTable(s), Sweep(cutoff), AsTable(Apply(s, Sweep(cutoff), capacity)), capacity)
  {
    var m, young := AsTable(s), Fresh(s, cutoff);
    AsTableIndexes(s);
    FreshIsComplete(s, cutoff);
    var n := FreshCut(s, cutoff);
    assert Distinct(young);
    forall key ensures key in Newer(m, cutoff) <==> key in Keys(young) {
      if key in m {
        assert m[key] in s && m[key].key == key by {
          var e :| e in s && e.key == key;
        }
      }
      assert key in Newer(m, cutoff) ==> m[key] in young;
    }
    IndexIsTable(young, Newer(m, cutoff));
  }

  lemma ApplyIsTableStep<V>(s: seq<Entry<V>>, op: Op<V>, capacity: int)
    requires Distinct(s) && Sorted(s) && (capacity > 0 ==> |s| <= capacity)
    requires op.Push? ==> forall i :: 0 <= i < |s| ==> s[i].stamp <= op.e.stamp
    ensures TableStep(AsTable(s), op, AsTable(Apply(s, op, capacity)), capacity)
  {
    match op
    case Keep =>
    case Push(e) => PushIsTableStep(s, e, capacity);
    case Delete(key) => DeleteIsTableStep(s, key, capacity);
    case Sweep(cutoff) => SweepIsTableStep(s, cutoff, capacity);
  }

  /** So is every step of a run of either cache, once it is known to keep its list sorted. */
  lemma RunIsTableStep<V, C>(run: seq<Step<V, C>>, j: nat, capacity: int)
    requires Linked(run, capacity) && j + 1 < |run| && Sorted(run[j].found)
    requires run[j].op.Push? ==> forall i :: 0 <= i < |run[j].found| ==> run[j].found[i].stamp <= run[j].op.e.stamp
    ensures TableStep(AsTable(run[j].found), run[j].op, AsTable(run[j + 1].found), capacity)
  {
    FoundShape(run, j, capacity);
    assert LinkedAt(run, j + 1, capacity);
    ApplyIsTableStep(run[j].found, run[j].op, capacity);
  }
}
