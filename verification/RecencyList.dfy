/** The ordered list that the three caches keep beside their index: oldest use at the
    front, newest at the back.  Every cache call issues a few of the list operations
    below, so what a cache remembers over a whole run is decided here once. */
module RecencyList {
  import opened Prelude

  /** One cache entry.  `stamp` is the time the cache orders or expires by. */
  datatype Entry<+V> = Entry(key: string, stamp: int, value: V)

  datatype Op<+V> =
    | Keep                  // leave the list alone
    | Push(e: Entry<V>)     // drop the key if present, append, evict from the front
    | Delete(key: string)   // drop one key
    | Sweep(cutoff: int)    // pop the front while its stamp is not after the cutoff

  ghost function Keys<V>(s: seq<Entry<V>>): set<string> {
    set e | e in s :: e.key
  }

  ghost predicate Distinct<V>(s: seq<Entry<V>>) {
    forall i, j :: 0 <= i < j < |s| ==> s[i].key != s[j].key
  }

  ghost predicate Sorted<V>(s: seq<Entry<V>>) {
    forall i, j :: 0 <= i <= j < |s| ==> s[i].stamp <= s[j].stamp
  }

  function Without<V>(s: seq<Entry<V>>, key: string): seq<Entry<V>> {
    if s == [] then []
    else if s[0].key == key then Without(s[1..], key)
    else [s[0]] + Without(s[1..], key)
  }

  function Newest<V>(s: seq<Entry<V>>, capacity: int): seq<Entry<V>> {
    if 0 < capacity < |s| then s[|s| - capacity..] else s
  }

  function Fresh<V>(s: seq<Entry<V>>, cutoff: int): seq<Entry<V>> {
    if s == [] || s[0].stamp > cutoff then s else Fresh(s[1..], cutoff)
  }

  function Find<V>(s: seq<Entry<V>>, key: string): Option<Entry<V>> {
    if s == [] then None
    else if s[0].key == key then Some(s[0])
    else Find(s[1..], key)
  }

  function Apply<V>(s: seq<Entry<V>>, op: Op<V>, capacity: int): seq<Entry<V>> {
    match op
    case Keep => s
    case Push(e) => Newest(Without(s, e.key) + [e], capacity)
    case Delete(key) => Without(s, key)
    case Sweep(cutoff) => Fresh(s, cutoff)
  }

  // ----- Elementary facts -----

  lemma KeysConcat<V>(a: seq<Entry<V>>, b: seq<Entry<V>>)
    ensures Keys(a + b) == Keys(a) + Keys(b)
  {
    forall k | k in Keys(a) + Keys(b) ensures k in Keys(a + b) {
      var e :| (e in a || e in b) && e.key == k;
      assert e in a + b;
    }
  }

  lemma DistinctConcat<V>(a: seq<Entry<V>>, b: seq<Entry<V>>)
    ensures Distinct(a + b) <==> Distinct(a) && Distinct(b) && Keys(a) !! Keys(b)
  {
    var s := a + b;
    if Distinct(s) {
      forall i, j | 0 <= i < j < |a| ensures a[i].key != a[j].key {
        assert s[i] == a[i] && s[j] == a[j];
      }
      forall i, j | 0 <= i < j < |b| ensures b[i].key != b[j].key {
        assert s[|a| + i] == b[i] && s[|a| + j] == b[j];
      }
      forall k | k in Keys(a) ensures k !in Keys(b) {
        var x :| x in a && x.key == k;
        var i :| 0 <= i < |a| && a[i] == x;
        forall y | y in b ensures y.key != k {
          var j :| 0 <= j < |b| && b[j] == y;
          assert s[i] == x && s[|a| + j] == y;
        }
      }
    } else {
      var i, j :| 0 <= i < j < |s| && s[i].key == s[j].key;
      if i < |a| <= j {
        assert s[i] in a && s[j] in b;
        assert s[i].key in Keys(a) && s[j].key in Keys(b);
      }
    }
  }

  lemma {:induction false} WithoutFacts<V>(s: seq<Entry<V>>, key: string)
    ensures forall e :: e in Without(s, key) <==> e in s && e.key != key
    ensures Keys(Without(s, key)) == Keys(s) - {key}
    ensures |Without(s, key)| <= |s|
    ensures key !in Keys(s) ==> Without(s, key) == s
    ensures key in Keys(s) ==> |Without(s, key)| < |s|
  {
    if s != [] {
      WithoutFacts(s[1..], key);
      assert s == [s[0]] + s[1..];
      KeysConcat([s[0]], s[1..]);
      assert Keys([s[0]]) == {s[0].key};
      KeysConcat([s[0]], Without(s[1..], key));
    }
  }

  lemma WithoutMember<V>(s: seq<Entry<V>>, key: string, e: Entry<V>)
    ensures e in Without(s, key) <==> e in s && e.key != key
  {
    WithoutFacts(s, key);
  }

  lemma {:induction false} WithoutKeepsDistinct<V>(s: seq<Entry<V>>, key: string)
    requires Distinct(s)
    ensures Distinct(Without(s, key))
  {
    if s != [] {
      assert s == [s[0]] + s[1..];
      DistinctConcat([s[0]], s[1..]);
      WithoutKeepsDistinct(s[1..], key);
      WithoutFacts(s[1..], key);
      DistinctConcat([s[0]], Without(s[1..], key));
    }
  }

  lemma {:induction false} WithoutKeepsSorted<V>(s: seq<Entry<V>>, key: string, high: int)
    requires Sorted(s) && forall i :: 0 <= i < |s| ==> s[i].stamp <= high
    ensures Sorted(Without(s, key))
    ensures forall i :: 0 <= i < |Without(s, key)| ==> Without(s, key)[i].stamp <= high
  {
    if s != [] {
      var init, last := s[..|s| - 1], s[|s| - 1];
      WithoutKeepsSorted(init, key, last.stamp);
      WithoutConcat(init, [last], key);
      assert s == init + [last];
    }
  }

  lemma {:induction false} WithoutConcat<V>(a: seq<Entry<V>>, b: seq<Entry<V>>, key: string)
    ensures Without(a + b, key) == Without(a, key) + Without(b, key)
  {
    if a == [] {
      assert a + b == b;
    } else {
      assert (a + b)[1..] == a[1..] + b;
      WithoutConcat(a[1..], b, key);
    }
  }

  /** On a list of distinct keys, dropping a present key cuts out exactly its position. */
  lemma {:induction false} WithoutAt<V>(s: seq<Entry<V>>, k: nat)
    requires Distinct(s) && k < |s|
    ensures Without(s, s[k].key) == s[..k] + s[k + 1..]
  {
    if k == 0 {
      assert s[0].key !in Keys(s[1..]);
      WithoutFacts(s[1..], s[0].key);
    } else {
      WithoutAt(s[1..], k - 1);
      assert s[1..][..k - 1] == s[1..k] && s[1..][k - 1 + 1..] == s[k + 1..];
      assert s[..k] == [s[0]] + s[1..k];
    }
  }

  lemma {:induction false} FindFacts<V>(s: seq<Entry<V>>, key: string)
    ensures Find(s, key).Some? <==> key in Keys(s)
    ensures Find(s, key).Some? ==> Find(s, key).value in s && Find(s, key).value.key == key
    ensures Distinct(s) ==> forall e :: e in s && e.key == key ==> Find(s, key) == Some(e)
  {
    if s != [] {
      FindFacts(s[1..], key);
      assert s == [s[0]] + s[1..];
    }
  }

  /** A sweep cuts the list at the first entry stamped after the cutoff. */
  lemma {:induction false} FreshCut<V>(s: seq<Entry<V>>, cutoff: int) returns (n: nat)
    ensures n <= |s| && Fresh(s, cutoff) == s[n..]
    ensures forall i :: 0 <= i < n ==> s[i].stamp <= cutoff
    ensures n < |s| ==> s[n].stamp > cutoff
  {
    if s != [] && s[0].stamp <= cutoff {
      n := FreshCut(s[1..], cutoff);
      assert s[1..][n..] == s[n + 1..];
      n := n + 1;
    } else {
      n := 0;
    }
  }

  /** On a list sorted by stamp, stopping at the first fresh entry misses nothing: what
      is left is exactly the entries stamped after the cutoff. */
  lemma FreshIsComplete<V>(s: seq<Entry<V>>, cutoff: int)
    requires Sorted(s)
    ensures forall e :: e in Fresh(s, cutoff) <==> e in s && e.stamp > cutoff
  {
    var n := FreshCut(s, cutoff);
    forall i | n <= i < |s| ensures s[i] in s[n..] && s[i].stamp > cutoff {
      assert s[n..][i - n] == s[i];
    }
  }

  lemma PushKeepsShape<V>(s: seq<Entry<V>>, e: Entry<V>, capacity: int)
    requires Distinct(s)
    ensures Distinct(Without(s, e.key) + [e])
    ensures Distinct(Apply(s, Push(e), capacity))
  {
    WithoutFacts(s, e.key);
    WithoutKeepsDistinct(s, e.key);
    assert Keys([e]) == {e.key};
    DistinctConcat(Without(s, e.key), [e]);
  }

  lemma ApplyKeepsDistinct<V>(s: seq<Entry<V>>, op: Op<V>, capacity: int)
    requires Distinct(s)
    ensures Distinct(Apply(s, op, capacity))
  {
    match op
    case Keep =>
    case Push(e) => PushKeepsShape(s, e, capacity);
    case Delete(key) => WithoutKeepsDistinct(s, key);
    case Sweep(cutoff) => var _ := FreshCut(s, cutoff);
  }

  lemma PushKeepsSorted<V>(s: seq<Entry<V>>, e: Entry<V>, capacity: int)
    requires Sorted(s) && forall i :: 0 <= i < |s| ==> s[i].stamp <= e.stamp
    ensures Sorted(Apply(s, Push(e), capacity))
    ensures forall i :: 0 <= i < |Apply(s, Push(e), capacity)| ==> Apply(s, Push(e), capacity)[i].stamp <= e.stamp
  {
    WithoutKeepsSorted(s, e.key, e.stamp);
    var grown := Without(s, e.key) + [e];
    assert Sorted(grown);
  }

  /** Pushing stamps in time order keeps the list sorted, whatever is deleted or swept. */
  lemma ApplyKeepsSorted<V>(s: seq<Entry<V>>, op: Op<V>, capacity: int, high: int)
    requires Sorted(s) && forall i :: 0 <= i < |s| ==> s[i].stamp <= high
    requires op.Push? ==> op.e.stamp == high
    ensures Sorted(Apply(s, op, capacity))
    ensures forall i :: 0 <= i < |Apply(s, op, capacity)| ==> Apply(s, op, capacity)[i].stamp <= high
  {
    match op
    case Keep =>
    case Push(e) => PushKeepsSorted(s, e, capacity);
    case Delete(key) => WithoutKeepsSorted(s, key, high);
    case Sweep(cutoff) => var _ := FreshCut(s, cutoff);
  }

  lemma Subset(a: set<string>, b: set<string>)
    requires a <= b
    ensures |a| <= |b|
  {
    assert b == a + (b - a);
  }

  /** An operation adds nothing but the entry it pushes, and a push supersedes its key. */
  lemma ApplyMembers<V>(s: seq<Entry<V>>, op: Op<V>, capacity: int, x: Entry<V>)
    requires x in Apply(s, op, capacity)
    ensures if op.Push? && x.key == op.e.key then x == op.e else x in s
  {
    match op
    case Keep =>
    case Push(e) =>
      WithoutFacts(s, e.key);
      assert x in Without(s, e.key) + [e];
    case Delete(key) => WithoutFacts(s, key);
    case Sweep(cutoff) => var _ := FreshCut(s, cutoff);
  }

  lemma ApplyKeepsBound<V>(s: seq<Entry<V>>, op: Op<V>, capacity: int)
    requires capacity > 0 && |s| <= capacity
    ensures |Apply(s, op, capacity)| <= capacity
  {
    match op
    case Keep =>
    case Push(e) =>
    case Delete(key) => WithoutFacts(s, key);
    case Sweep(cutoff) => var _ := FreshCut(s, cutoff);
  }

  // ----- What one operation does to an entry and the entries behind it -----

  predicate Touches<V>(op: Op<V>, key: string) {
    (op.Push? && op.e.key == key) || (op.Delete? && op.key == key)
  }

  /** `s` holds `e`, and the entries behind it carry exactly the keys in `rivals`. */
  ghost predicate Holds<V>(s: seq<Entry<V>>, e: Entry<V>, rivals: set<string>) {
    exists k :: 0 <= k < |s| && s[k] == e && Keys(s[k + 1..]) == rivals
  }

  lemma {:induction false} KeysSize<V>(s: seq<Entry<V>>)
    requires Distinct(s)
    ensures |Keys(s)| == |s|
  {
    if s != [] {
      KeysSize(s[1..]);
      assert s == [s[0]] + s[1..];
      assert Keys(s) == {s[0].key} + Keys(s[1..]);
    }
  }

  lemma HoldsIntro<V>(pre: seq<Entry<V>>, e: Entry<V>, post: seq<Entry<V>>)
    ensures Holds(pre + ([e] + post), e, Keys(post))
  {
    var s := pre + ([e] + post);
    assert s[|pre|] == e && s[|pre| + 1..] == post;
  }

  lemma HoldsElim<V>(s: seq<Entry<V>>, e: Entry<V>, rivals: set<string>)
    returns (pre: seq<Entry<V>>, post: seq<Entry<V>>)
    requires Holds(s, e, rivals)
    ensures s == pre + ([e] + post) && Keys(post) == rivals
  {
    var k :| 0 <= k < |s| && s[k] == e && Keys(s[k + 1..]) == rivals;
    pre, post := s[..k], s[k + 1..];
  }

  /** Dropping another key leaves `e` in place and takes that key out of its rivals. */
  lemma HoldsDelete<V>(s: seq<Entry<V>>, e: Entry<V>, rivals: set<string>, key: string)
    requires Holds(s, e, rivals) && key != e.key
    ensures Holds(Without(s, key), e, rivals - {key})
  {
    var pre, post := HoldsElim(s, e, rivals);
    WithoutConcat(pre, [e] + post, key);
    assert ([e] + post)[1..] == post;
    WithoutFacts(post, key);
    HoldsIntro(Without(pre, key), e, Without(post, key));
  }

  lemma HoldsAppend<V>(s: seq<Entry<V>>, e: Entry<V>, rivals: set<string>, x: Entry<V>)
    requires Holds(s, e, rivals)
    ensures Holds(s + [x], e, rivals + {x.key})
  {
    var pre, post := HoldsElim(s, e, rivals);
    assert s + [x] == pre + ([e] + (post + [x]));
    KeysConcat(post, [x]);
    assert Keys([x]) == {x.key};
    HoldsIntro(pre, e, post + [x]);
  }

  /** Eviction from the front takes `e` exactly when `capacity` rivals stand behind it. */
  lemma HoldsNewest<V>(s: seq<Entry<V>>, e: Entry<V>, rivals: set<string>, capacity: int)
    requires Distinct(s) && Holds(s, e, rivals)
    ensures capacity <= 0 || |rivals| < capacity ==> Holds(Newest(s, capacity), e, rivals)
    ensures !(capacity <= 0 || |rivals| < capacity) ==> e.key !in Keys(Newest(s, capacity))
  {
    var pre, post := HoldsElim(s, e, rivals);
    DistinctConcat(pre, [e] + post);
    DistinctConcat([e], post);
    KeysSize(post);
    var out := Newest(s, capacity);
    var cut := |s| - |out|;
    if cut <= |pre| {
      assert out == pre[cut..] + ([e] + post);
      HoldsIntro(pre[cut..], e, post);
    } else {
      assert out == post[cut - |pre| - 1..];
      assert e.key in Keys([e]);
    }
  }

  lemma HoldsPush<V>(s: seq<Entry<V>>, e: Entry<V>, rivals: set<string>, x: Entry<V>, capacity: int)
    requires Distinct(s)
    requires Holds(s, e, rivals) && x.key != e.key
    ensures capacity <= 0 || |rivals + {x.key}| < capacity ==>
              Holds(Apply(s, Push(x), capacity), e, rivals + {x.key})
    ensures !(capacity <= 0 || |rivals + {x.key}| < capacity) ==>
              e.key !in Keys(Apply(s, Push(x), capacity))
  {
    HoldsDelete(s, e, rivals, x.key);
    HoldsAppend(Without(s, x.key), e, rivals - {x.key}, x);
    assert rivals - {x.key} + {x.key} == rivals + {x.key};
    PushKeepsShape(s, x, capacity);
    HoldsNewest(Without(s, x.key) + [x], e, rivals + {x.key}, capacity);
  }

  lemma HoldsSweep<V>(s: seq<Entry<V>>, e: Entry<V>, rivals: set<string>, cutoff: int)
    requires Distinct(s) && Sorted(s) && Holds(s, e, rivals)
    ensures cutoff < e.stamp ==> Holds(Fresh(s, cutoff), e, rivals)
    ensures cutoff >= e.stamp ==> e.key !in Keys(Fresh(s, cutoff))
  {
    var k :| 0 <= k < |s| && s[k] == e && Keys(s[k + 1..]) == rivals;
    var n := FreshCut(s, cutoff);
    if cutoff < e.stamp {
      assert n <= k;
      assert s[n..][k - n] == e && s[n..][k - n + 1..] == s[k + 1..];
    } else {
      assert k < n;
    }
  }

  lemma HoldsAfterPush<V>(s: seq<Entry<V>>, e: Entry<V>, capacity: int)
    requires Distinct(s)
    ensures Holds(Apply(s, Push(e), capacity), e, {})
  {
    var grown := Without(s, e.key) + [e];
    assert grown == Without(s, e.key) + ([e] + []);
    HoldsIntro(Without(s, e.key), e, []);
    PushKeepsShape(s, e, capacity);
    assert Keys<V>([]) == {};
    HoldsNewest(grown, e, {}, capacity);
  }

  /** A key that is gone stays gone until it is pushed again. */
  lemma GoneStaysGone<V>(s: seq<Entry<V>>, key: string, op: Op<V>, capacity: int)
    requires key !in Keys(s) && !Touches(op, key)
    ensures key !in Keys(Apply(s, op, capacity))
  {
    match op
    case Keep =>
    case Push(x) =>
      WithoutFacts(s, x.key);
      var grown := Without(s, x.key) + [x];
      KeysConcat(Without(s, x.key), [x]);
      assert key !in Keys(grown);
      forall y | y in Newest(grown, capacity) ensures y.key != key {
        assert y in grown;
      }
    case Delete(k) => WithoutFacts(s, k);
    case Sweep(cutoff) => var _ := FreshCut(s, cutoff);
  }

  lemma HoldsFind<V>(s: seq<Entry<V>>, e: Entry<V>, rivals: set<string>)
    requires Distinct(s) && Holds(s, e, rivals)
    ensures Find(s, e.key) == Some(e)
  {
    FindFacts(s, e.key);
  }

  // ----- The index kept beside the list -----

  /** Index and list hold the same distinct keys, and the index leads to the list's entry. */
  ghost predicate Indexed<V>(list: seq<Entry<V>>, index: map<string, Entry<V>>) {
    && Distinct(list)
    && index.Keys == Keys(list)
    && forall e :: e in list ==> index[e.key] == e
  }

  lemma IndexFinds<V>(list: seq<Entry<V>>, index: map<string, Entry<V>>, key: string)
    requires Indexed(list, index)
    ensures Find(list, key) == if key in index then Some(index[key]) else None
  {
    FindFacts(list, key);
  }

  lemma IndexedWithout<V>(list: seq<Entry<V>>, index: map<string, Entry<V>>, key: string)
    requires Indexed(list, index)
    ensures Indexed(Without(list, key), index - {key})
  {
    WithoutFacts(list, key);
    WithoutKeepsDistinct(list, key);
    forall e | e in Without(list, key) ensures (index - {key})[e.key] == e {
      WithoutMember(list, key, e);
    }
  }

  lemma IndexedFront<V>(list: seq<Entry<V>>, index: map<string, Entry<V>>)
    requires Indexed(list, index) && list != []
    ensures Indexed(list[1..], index - {list[0].key})
  {
    WithoutAt(list, 0);
    IndexedWithout(list, index, list[0].key);
    assert list[..0] + list[1..] == list[1..];
  }

  lemma IndexedAppend<V>(list: seq<Entry<V>>, index: map<string, Entry<V>>, e: Entry<V>)
    requires Indexed(list, index) && e.key !in index
    ensures Indexed(list + [e], index[e.key := e])
  {
    DistinctConcat(list, [e]);
    KeysConcat(list, [e]);
    assert Keys([e]) == {e.key};
    forall x | x in list ensures x.key != e.key {
      assert x.key in Keys(list);
    }
  }

  /** Superseding a key in both: what a push does to the pair before eviction. */
  lemma IndexedPut<V>(list: seq<Entry<V>>, index: map<string, Entry<V>>, e: Entry<V>)
    requires Indexed(list, index)
    ensures Indexed(Without(list, e.key) + [e], index[e.key := e])
    ensures e.key in index ==> |Without(list, e.key)| < |list|
    ensures e.key !in index ==> Without(list, e.key) == list
  {
    WithoutFacts(list, e.key);
    IndexedWithout(list, index, e.key);
    IndexedAppend(Without(list, e.key), index - {e.key}, e);
    assert (index - {e.key})[e.key := e] == index[e.key := e];
  }

  /** On a list kept in time order the front is an entry no newer than any other. */
  lemma FrontIsOldest<V>(list: seq<Entry<V>>, index: map<string, Entry<V>>)
    requires Indexed(list, index) && Sorted(list)
    ensures |index| == |list|
    ensures list != [] ==> list[0].key in index && index[list[0].key] == list[0]
    ensures list != [] ==> forall x :: x in index ==> list[0].stamp <= index[x].stamp
  {
    KeysSize(list);
    assert |index| == |index.Keys|;
    forall x | x in index ensures list[0].stamp <= index[x].stamp {
      var y :| y in list && y.key == x;
      var i :| 0 <= i < |list| && list[i] == y;
    }
    assert list != [] ==> list[0] in list;
  }

  /** Over capacity the front goes, and it is the one entry that does. */
  lemma FrontIsDropped<V>(list: seq<Entry<V>>, index: map<string, Entry<V>>, capacity: int)
    requires Indexed(list, index) && 0 < capacity && |list| == capacity + 1
    ensures Newest(list, capacity) == list[1..]
    ensures Indexed(Newest(list, capacity), index - {list[0].key})
  {
    IndexedFront(list, index);
  }

  lemma NewestDropsOldest<V>(list: seq<Entry<V>>, index: map<string, Entry<V>>, capacity: int)
    returns (dropped: set<string>)
    requires Indexed(list, index) && Sorted(list) && (capacity > 0 ==> |list| <= capacity + 1)
    ensures Indexed(Newest(list, capacity), index - dropped)
    ensures dropped <= index.Keys && |dropped| == if 0 < capacity < |index| then 1 else 0
    ensures forall k, x :: k in dropped && x in index ==> index[k].stamp <= index[x].stamp
  {
    dropped := {};
    FrontIsOldest(list, index);
    if 0 < capacity < |list| {
      FrontIsDropped(list, index, capacity);
      dropped := {list[0].key};
    } else {
      assert index - dropped == index;
    }
  }

  /** On a list kept in time order a push is a plain map update that drops one entry if the
      map outgrows the capacity, and none of the others is older than the dropped one. */
  lemma PushIsMapUpdate<V>(s: seq<Entry<V>>, index: map<string, Entry<V>>, e: Entry<V>, capacity: int)
    returns (wide: map<string, Entry<V>>, dropped: set<string>)
    requires Indexed(s, index) && Sorted(s) && (capacity > 0 ==> |s| <= capacity)
    requires forall i :: 0 <= i < |s| ==> s[i].stamp <= e.stamp
    ensures wide == index[e.key := e] && Indexed(Apply(s, Push(e), capacity), wide - dropped)
    ensures dropped <= wide.Keys && |dropped| == if 0 < capacity < |wide| then 1 else 0
    ensures forall k, x :: k in dropped && x in wide ==> wide[k].stamp <= wide[x].stamp
  {
    wide := index[e.key := e];
    IndexedPut(s, index, e);
    WithoutKeepsSorted(s, e.key, e.stamp);
    WithoutFacts(s, e.key);
    dropped := NewestDropsOldest(Without(s, e.key) + [e], wide, capacity);
  }

  /** The eviction loop, the same in all three caches: pop the oldest while over capacity. */
  method Evict<V>(list: seq<Entry<V>>, index: map<string, Entry<V>>, capacity: int)
    returns (kept: seq<Entry<V>>, keptIndex: map<string, Entry<V>>)
    requires Indexed(list, index)
    ensures kept == Newest(list, capacity) && Indexed(kept, keptIndex)
  {
    kept, keptIndex := list, index;
    while capacity > 0 && |kept| > capacity
      invariant Indexed(kept, keptIndex)
      invariant Newest(kept, capacity) == Newest(list, capacity)
    {
      var oldest := kept[0];
      IndexedFront(kept, keptIndex);
      assert kept[1..][|kept| - 1 - capacity..] == kept[|kept| - capacity..];
      kept := kept[1..];
      keptIndex := keptIndex - {oldest.key};
    }
  }

  /** The sweep loop of the two TTL caches: pop the front until it is newer than the cutoff. */
  method PopExpired<V>(list: seq<Entry<V>>, index: map<string, Entry<V>>, cutoff: int)
    returns (kept: seq<Entry<V>>, keptIndex: map<string, Entry<V>>)
    requires Indexed(list, index)
    ensures kept == Fresh(list, cutoff) && Indexed(kept, keptIndex) && |kept| <= |list|
  {
    kept, keptIndex := list, index;
    while |kept| > 0
      invariant Indexed(kept, keptIndex) && |kept| <= |list|
      invariant Fresh(kept, cutoff) == Fresh(list, cutoff)
      decreases |kept|
    {
      var front := kept[0];
      if front.stamp > cutoff {
        return;
      }
      IndexedFront(kept, keptIndex);
      kept := kept[1..];
      keptIndex := keptIndex - {front.key};
    }
  }
}
