/** internal/logbroadcast/broadcaster.go: what follows from the invariant of Broadcast for what is
    sent, dropped and received, and for those who wait. */
module BroadcastGuarantees {
  import opened Prelude
  import opened Truncation
  import opened Broadcast

  // ----- What follows -----

  /** No send on a closed channel, no channel closed twice, no buffer over 256 entries. */
  lemma ChannelsAreSafe(run: seq<State>, i: nat, u: SubId)
    requires IsRun(run) && i < |run| && u in run[i].subs
    ensures run[i].badSends == 0
    ensures run[i].subs[u].closes <= 1
    ensures |run[i].subs[u].ch| <= 256
  {
    RunKeepsInv(run, i);
    assert SubOk(run[i], u);
  }

  /** What a subscriber has received, followed by what is still buffered, is entries of distinct
      publishers in the order they were sent.  Each is what its publisher passed to Publish with
      the content cut to 64 KiB, and matches the subscriber's filter. */
  lemma ReceivesWhatWasSent(run: seq<State>, i: nat, u: SubId)
    requires IsRun(run) && i < |run| && u in run[i].subs
    ensures var sub := run[i].subs[u];
            && |sub.received + sub.ch| == |sub.sentBy|
            && (forall j, k :: 0 <= j < k < |sub.sentBy| ==> sub.sentBy[j] != sub.sentBy[k])
            && (forall k :: 0 <= k < |sub.sentBy| ==> IsWhatWasPassed(run[i], u, k))
  {
    var s, sub := run[i], run[i].subs[u];
    RunKeepsInv(run, i);
    assert LogOk(s, u) && sub.received + sub.ch == sub.Sent();
    forall k | 0 <= k < |sub.sentBy| ensures IsWhatWasPassed(s, u, k) {
      assert SentOk(s, u, k);
    }
  }

  predicate IsWhatWasPassed(s: State, u: SubId, k: nat)
    requires u in s.subs && k < |s.subs[u].sentBy| == |s.subs[u].received + s.subs[u].ch|
  {
    var sub := s.subs[u];
    && sub.sentBy[k] in s.threads
    && var out, passed := (sub.received + sub.ch)[k], s.threads[sub.sentBy[k]].entry;
       && out.project == passed.project && out.sessionId == passed.sessionId
       && out.content == Truncated(passed.content) && |out.content| <= MAX_LOG_ENTRY_CONTENT_BYTES
       && sub.Matches(out)
  }

  /** And nobody's entry changes once it has been passed. */
  lemma {:induction false} PassedEntryStays(run: seq<State>, i: nat, j: nat, t: Tid)
    requires IsRun(run) && i <= j < |run| && t in run[i].threads
    ensures t in run[j].threads && run[j].threads[t].entry == run[i].threads[t].entry
  {
    if i < j {
      PassedEntryStays(run, i, j - 1, t);
      assert Follows(run, j);
      var s, s' := run[j - 1], run[j];
      if t', next :| Enabled(s, t', next) && s' == Do(s, t', next) {
        EntriesStay(s, t', next);
      }
    }
  }

  /** The subscribers of a publisher's snapshot that its entry is for. */
  function Matching(s: State, t: Tid): set<SubId>
    requires t in s.threads
  {
    set u | u in s.threads[t].snap && u in s.subs && s.subs[u].Matches(s.threads[t].entry)
  }

  function SentTo(s: State, t: Tid): set<SubId> {
    set u | u in s.subs && t in s.subs[u].sentBy
  }

  function DroppedFor(s: State, t: Tid): set<SubId> {
    set u | u in s.subs && (t, u) in s.counted
  }

  /** When Publish returns, every matching subscriber of its snapshot has been sent the entry or
      counted as a drop, never both, and nobody else has; in numbers, the entries enqueued and
      the entries dropped add up to the matching pairs. */
  lemma PublishIsConserved(run: seq<State>, i: nat, t: Tid)
    requires IsRun(run) && i < |run| && t in run[i].threads && run[i].threads[t].pc.Done?
    ensures SentTo(run[i], t) + DroppedFor(run[i], t) == Matching(run[i], t)
    ensures SentTo(run[i], t) !! DroppedFor(run[i], t)
    ensures |SentTo(run[i], t)| + |DroppedFor(run[i], t)| == |Matching(run[i], t)|
  {
    var s := run[i];
    RunKeepsInv(run, i);
    assert ThreadOk(s, t);
    forall u
      ensures u in SentTo(s, t) || u in DroppedFor(s, t) <==> u in Matching(s, t)
      ensures !(u in SentTo(s, t) && u in DroppedFor(s, t))
    {
      assert PairOk(s, t, u);
    }
    assert SentTo(s, t) + DroppedFor(s, t) == Matching(s, t);
  }

  function FailedSends(s: State): set<(Tid, SubId)> {
    set t, u | t in s.threads && u in s.subs && t in s.subs[u].failed :: (t, u)
  }

  function UncountedDrops(s: State): set<(Tid, SubId)> {
    set t | t in s.threads && s.threads[t].pc.Drop? :: (t, s.threads[t].pc.u)
  }

  lemma FailedPair(s: State, t: Tid, u: SubId)
    requires Inv(s)
    ensures (t, u) in FailedSends(s) <==> (t, u) in s.counted || (t, u) in UncountedDrops(s)
    ensures (t, u) !in s.counted || (t, u) !in UncountedDrops(s)
  {
    assert PairOk(s, t, u) && ThreadOk(s, t) && SubOk(s, u);
    assert (t, u) in UncountedDrops(s) <==> t in s.threads && s.threads[t].pc == Drop(u);
  }

  /** Drops reported, drops pending and drops about to be counted are all the failed sends: none
      is lost between the counter and flushDrops, and none is counted twice. */
  lemma DropsAreConserved(run: seq<State>, i: nat)
    requires IsRun(run) && i < |run|
    ensures run[i].reported + run[i].dropCount + |UncountedDrops(run[i])| == |FailedSends(run[i])|
  {
    RunKeepsInv(run, i);
    FailedAreCounted(run[i]);
  }

  lemma FailedAreCounted(s: State)
    requires Inv(s)
    ensures s.reported + s.dropCount + |UncountedDrops(s)| == |FailedSends(s)|
  {
    var failed, uncounted := FailedSends(s), UncountedDrops(s);
    forall p: (Tid, SubId)
      ensures p in failed <==> p in s.counted || p in uncounted
      ensures p !in s.counted || p !in uncounted
    {
      FailedPair(s, p.0, p.1);
    }
    assert failed == s.counted + uncounted;
    assert s.counted !! uncounted;
  }

  // ----- Nobody waits for a receiver -----

  predicate HoldsCloseMu(s: State, b: Tid, u: SubId) {
    u in s.subs && (s.subs[u].writer == Some(b) || b in s.subs[u].readers)
  }

  /** Neither Publish nor unsubscribe ever waits for a subscriber to receive: a thread that cannot
      go on waits for a closeMu, and whoever holds one can take its next step at once. */
  lemma OnlyCloseMuDelays(run: seq<State>, i: nat, t: Tid, next: SubId) returns (b: Tid, u: SubId)
    requires IsRun(run) && i < |run| && t in run[i].threads && !run[i].threads[t].pc.Done?
    requires run[i].threads[t].pc.Loop? && run[i].threads[t].todo != {} ==> next in run[i].threads[t].todo
    requires !Enabled(run[i], t, next)
    ensures b != t && HoldsCloseMu(run[i], b, u) && Enabled(run[i], b, next)
  {
    var s := run[i];
    RunKeepsInv(run, i);
    assert ThreadOk(s, t);
    u := if s.threads[t].pc.Loop? then next else s.threads[t].pc.u;
    assert SubOk(s, u) && PairOk(s, t, u);
    if s.subs[u].writer.Some? {
      b := s.subs[u].writer.value;
    } else {
      b :| b in s.subs[u].readers;
    }
    assert ThreadOk(s, b) && PairOk(s, b, u);
  }

  // ----- Send order -----

  predicate Returned(s: State, t: Tid) {
    t in s.threads && s.threads[t].pc.Done?
  }

  /** At most one entry more was sent, and not one of a Publish that has returned. */
  predicate Extends(before: seq<Tid>, after: seq<Tid>, done: Tid) {
    after == before || (|after| > 0 && after == before + [after[|after| - 1]] && after[|after| - 1] != done)
  }

  lemma DoExtends(s: State, t: Tid, next: SubId, u: SubId, done: Tid)
    requires Enabled(s, t, next) && ThreadOk(s, t) && Returned(s, done)
    ensures Returned(Do(s, t, next), done) && Extends(SentBy(s, u), SentBy(Do(s, t, next), u), done)
  {
    assert t != done;
  }

  lemma NextExtends(s: State, s': State, u: SubId, done: Tid)
    requires Inv(s) && Next(s, s') && Returned(s, done)
    ensures Returned(s', done) && Extends(SentBy(s, u), SentBy(s', u), done)
  {
    if t, next :| Enabled(s, t, next) && s' == Do(s, t, next) {
      assert ThreadOk(s, t);
      DoExtends(s, t, next, u, done);
    }
  }

  lemma ExtendsSince(start: seq<Tid>, before: seq<Tid>, after: seq<Tid>, done: Tid)
    requires start <= before && done !in before[|start|..] && Extends(before, after, done)
    ensures start <= after && done !in after[|start|..]
  {
    if after != before {
      assert after[|start|..] == before[|start|..] + [after[|after| - 1]];
    }
  }

  lemma {:induction false} NotSentAfterReturn(run: seq<State>, i: nat, j: nat, u: SubId, done: Tid)
    requires IsRun(run) && i <= j < |run| && Returned(run[i], done)
    ensures Returned(run[j], done)
    ensures SentBy(run[i], u) <= SentBy(run[j], u) && done !in SentBy(run[j], u)[|SentBy(run[i], u)|..]
  {
    if i < j {
      NotSentAfterReturn(run, i, j - 1, u, done);
      RunKeepsInv(run, j - 1);
      assert Follows(run, j);
      NextExtends(run[j - 1], run[j], u, done);
      ExtendsSince(SentBy(run[i], u), SentBy(run[j - 1], u), SentBy(run[j], u), done);
    }
  }

  /** Entries published one after the other reach every subscriber in that order: if the first
      Publish had returned before the second was called, the first entry was sent before the
      second to every subscriber that was sent both. */
  lemma SentInPublishOrder(run: seq<State>, i: nat, j: nat, u: SubId, first: Tid, second: Tid, k1: nat, k2: nat)
    requires IsRun(run) && i <= j < |run|
    requires Returned(run[i], first) && second !in run[i].threads
    requires k1 < |SentBy(run[j], u)| && SentBy(run[j], u)[k1] == first
    requires k2 < |SentBy(run[j], u)| && SentBy(run[j], u)[k2] == second
    ensures k1 < k2
  {
    NotSentAfterReturn(run, i, j, u, first);
    RunKeepsInv(run, i);
    SendersWereCalled(run[i], u);
    var n, sent := |SentBy(run[i], u)|, SentBy(run[j], u);
    assert forall k :: n <= k < |sent| ==> sent[k] == sent[n..][k - n];
  }
}
