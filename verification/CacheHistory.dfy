/** Runs of cache calls.  A run is recorded step by step: the call, the list it found, and
    the one list operation it issued.  These lemmas relate the list found by any call to
    what was issued since an earlier one, for every cache at once. */
module CacheHistory {
  import opened Prelude
  import opened RecencyList

  datatype Step<V, C> = Step(call: C, found: seq<Entry<V>>, op: Op<V>)

  /** Step k starts on the list where the step before it ended, the first on the empty one. */
  ghost predicate LinkedAt<V, C>(run: seq<Step<V, C>>, k: nat, capacity: int)
    requires k < |run|
  {
    run[k].found == if k == 0 then [] else Apply(run[k - 1].found, run[k - 1].op, capacity)
  }

  ghost predicate Linked<V, C>(run: seq<Step<V, C>>, capacity: int) {
    forall k :: 0 <= k < |run| ==> LinkedAt(run, k, capacity)
  }

  ghost predicate SweepsSorted<V, C>(run: seq<Step<V, C>>, k: nat)
    requires k < |run|
  {
    run[k].op.Sweep? ==> Sorted(run[k].found)
  }

  /** Also, a sweep always finds the list sorted. */
  ghost predicate Chained<V, C>(run: seq<Step<V, C>>, capacity: int) {
    && Linked(run, capacity)
    && (forall k :: 0 <= k < |run| ==> SweepsSorted(run, k))
  }

  /** Over every run, keys stay distinct and a positive capacity is never exceeded. */
  lemma {:induction false} FoundShape<V, C>(run: seq<Step<V, C>>, j: nat, capacity: int)
    requires Linked(run, capacity) && j < |run|
    ensures Distinct(run[j].found)
    ensures capacity > 0 ==> |run[j].found| <= capacity
  {
    assert LinkedAt(run, j, capacity);
    if j > 0 {
      FoundShape(run, j - 1, capacity);
      ApplyKeepsDistinct(run[j - 1].found, run[j - 1].op, capacity);
      if capacity > 0 {
        ApplyKeepsBound(run[j - 1].found, run[j - 1].op, capacity);
      }
    }
  }

  /** The distinct keys pushed strictly between steps i and j and not deleted again. */
  ghost function Rivals<V, C>(run: seq<Step<V, C>>, i: nat, j: nat): set<string>
    requires i < j <= |run|
  {
    if j == i + 1 then {}
    else
      match run[j - 1].op
      case Push(e) => Rivals(run, i, j - 1) + {e.key}
      case Delete(key) => Rivals(run, i, j - 1) - {key}
      case _ => Rivals(run, i, j - 1)
  }

  /** The condition under which an entry pushed by step i outlives the steps up to j: at no
      point have `capacity` rivals gathered, and every sweep's cutoff was before its stamp. */
  ghost predicate Retained<V, C>(run: seq<Step<V, C>>, i: nat, j: nat, stamp: int, capacity: int)
    requires i < j <= |run|
  {
    j > i + 1 ==>
      && Retained(run, i, j - 1, stamp, capacity)
      && (run[j - 1].op.Push? ==> capacity <= 0 || |Rivals(run, i, j)| < capacity)
      && (run[j - 1].op.Sweep? ==> run[j - 1].op.cutoff < stamp)
  }

  /** No step strictly between i and j pushed or deleted the key. */
  ghost predicate Untouched<V, C>(run: seq<Step<V, C>>, i: nat, j: nat, key: string)
    requires j <= |run|
  {
    forall k :: i < k < j ==> !Touches(run[k].op, key)
  }

  /** Step j finds `e` with exactly its rivals behind it if it was retained, and nothing
      under its key if it was not. */
  ghost predicate Remembers<V, C>(run: seq<Step<V, C>>, i: nat, j: nat, e: Entry<V>, capacity: int)
    requires i < j < |run|
  {
    if Retained(run, i, j, e.stamp, capacity) then Holds(run[j].found, e, Rivals(run, i, j))
    else e.key !in Keys(run[j].found)
  }

  lemma RemembersStep<V, C>(run: seq<Step<V, C>>, i: nat, j: nat, e: Entry<V>, capacity: int)
    requires i < j && j + 1 < |run| && LinkedAt(run, j + 1, capacity)
    requires Distinct(run[j].found) && SweepsSorted(run, j) && !Touches(run[j].op, e.key)
    requires Remembers(run, i, j, e, capacity)
    ensures Remembers(run, i, j + 1, e, capacity)
  {
    if Retained(run, i, j, e.stamp, capacity) {
      match run[j].op
      case Keep =>
      case Push(x) => HoldsPush(run[j].found, e, Rivals(run, i, j), x, capacity);
      case Delete(key) => HoldsDelete(run[j].found, e, Rivals(run, i, j), key);
      case Sweep(cutoff) => HoldsSweep(run[j].found, e, Rivals(run, i, j), cutoff);
    } else {
      GoneStaysGone(run[j].found, e.key, run[j].op, capacity);
    }
  }

  lemma {:induction false} RemembersSince<V, C>(run: seq<Step<V, C>>, i: nat, j: nat, e: Entry<V>, capacity: int)
    requires Chained(run, capacity) && i < j < |run|
    requires run[i].op == Push(e) && Untouched(run, i, j, e.key)
    ensures Remembers(run, i, j, e, capacity)
  {
    assert LinkedAt(run, j, capacity);
    FoundShape(run, j - 1, capacity);
    if j == i + 1 {
      HoldsAfterPush(run[i].found, e, capacity);
    } else {
      RemembersSince(run, i, j - 1, e, capacity);
      assert SweepsSorted(run, j - 1) && !Touches(run[j - 1].op, e.key);
      RemembersStep(run, i, j - 1, e, capacity);
    }
  }

  /** The exact retention rule.  Step i pushed `e` and nothing since touched its key: step j
      finds `e` if it was retained, and nothing under its key if it was not. */
  lemma RetainedSince<V, C>(run: seq<Step<V, C>>, i: nat, j: nat, e: Entry<V>, capacity: int)
    requires Chained(run, capacity) && i < j < |run|
    requires run[i].op == Push(e) && Untouched(run, i, j, e.key)
    ensures Find(run[j].found, e.key)
         == if Retained(run, i, j, e.stamp, capacity) then Some(e) else None
  {
    FoundShape(run, j, capacity);
    RemembersSince(run, i, j, e, capacity);
    FindFacts(run[j].found, e.key);
    if Retained(run, i, j, e.stamp, capacity) {
      HoldsFind(run[j].found, e, Rivals(run, i, j));
    }
  }

  // ----- A sufficient condition in terms of distinct keys -----

  ghost predicate PushesKey<V, C>(step: Step<V, C>, key: string) {
    step.op.Push? && step.op.e.key == key
  }

  /** The keys pushed strictly between steps i and j. */
  ghost function Pushed<V, C>(run: seq<Step<V, C>>, i: nat, j: nat): set<string>
    requires i < j <= |run|
  {
    if j == i + 1 then {}
    else Pushed(run, i, j - 1) + if run[j - 1].op.Push? then {run[j - 1].op.e.key} else {}
  }

  lemma {:induction false} PushedGrows<V, C>(run: seq<Step<V, C>>, i: nat, k: nat, j: nat)
    requires i < k <= j <= |run|
    ensures Pushed(run, i, k) <= Pushed(run, i, j) && |Pushed(run, i, k)| <= |Pushed(run, i, j)|
  {
    if k < j {
      PushedGrows(run, i, k, j - 1);
    }
    Subset(Pushed(run, i, k), Pushed(run, i, j));
  }

  ghost predicate SweptBefore<V, C>(step: Step<V, C>, stamp: int) {
    step.op.Sweep? ==> step.op.cutoff < stamp
  }

  ghost predicate AllSweptBefore<V, C>(run: seq<Step<V, C>>, i: nat, j: nat, stamp: int)
    requires j <= |run|
  {
    forall k :: i < k < j ==> SweptBefore(run[k], stamp)
  }

  lemma {:induction false} RivalsWerePushed<V, C>(run: seq<Step<V, C>>, i: nat, j: nat)
    requires i < j <= |run|
    ensures Rivals(run, i, j) <= Pushed(run, i, j)
    ensures |Rivals(run, i, j)| <= |Pushed(run, i, j)|
  {
    if j > i + 1 {
      RivalsWerePushed(run, i, j - 1);
    }
    Subset(Rivals(run, i, j), Pushed(run, i, j));
  }

  /** An entry is certainly retained while fewer than `capacity` distinct keys were pushed
      and every sweep's cutoff was before its stamp. */
  lemma {:induction false} FewRivals<V, C>(run: seq<Step<V, C>>, i: nat, j: nat, stamp: int, capacity: int)
    requires i < j <= |run| && AllSweptBefore(run, i, j, stamp)
    requires capacity <= 0 || |Pushed(run, i, j)| < capacity
    ensures Retained(run, i, j, stamp, capacity)
  {
    if j > i + 1 {
      PushedGrows(run, i, j - 1, j);
      FewRivals(run, i, j - 1, stamp, capacity);
      assert SweptBefore(run[j - 1], stamp);
      RivalsWerePushed(run, i, j);
    }
  }

  lemma {:induction false} RetainedMeans<V, C>(run: seq<Step<V, C>>, i: nat, j: nat, stamp: int, capacity: int)
    requires i < j <= |run| && Retained(run, i, j, stamp, capacity)
    ensures capacity <= 0 || |Rivals(run, i, j)| < capacity
    ensures AllSweptBefore(run, i, j, stamp)
  {
    if j > i + 1 {
      RetainedMeans(run, i, j - 1, stamp, capacity);
      Subset(Rivals(run, i, j - 1) * Rivals(run, i, j), Rivals(run, i, j - 1));
      if run[j - 1].op.Delete? {
        assert Rivals(run, i, j) == Rivals(run, i, j - 1) * Rivals(run, i, j);
      }
    }
  }

  lemma {:induction false} RivalsArePushed<V, C>(run: seq<Step<V, C>>, i: nat, j: nat)
    requires i < j <= |run| && forall k :: i < k < j ==> !run[k].op.Delete?
    ensures Rivals(run, i, j) == Pushed(run, i, j)
  {
    if j > i + 1 {
      RivalsArePushed(run, i, j - 1);
    }
  }

  /** Without deletions the condition is also necessary. */
  lemma FewRivalsExactly<V, C>(run: seq<Step<V, C>>, i: nat, j: nat, stamp: int, capacity: int)
    requires i < j <= |run| && forall k :: i < k < j ==> !run[k].op.Delete?
    ensures Retained(run, i, j, stamp, capacity) <==>
              (capacity <= 0 || |Pushed(run, i, j)| < capacity) && AllSweptBefore(run, i, j, stamp)
  {
    if Retained(run, i, j, stamp, capacity) {
      RetainedMeans(run, i, j, stamp, capacity);
      RivalsArePushed(run, i, j);
    } else if (capacity <= 0 || |Pushed(run, i, j)| < capacity) && AllSweptBefore(run, i, j, stamp) {
      FewRivals(run, i, j, stamp, capacity);
    }
  }
}
