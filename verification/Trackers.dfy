/** internal/tracker/tracker.go: one string-keyed map for card containers and chat sessions,
    with a limit shared by both. */
module Trackers {
  import opened Identifiers

  datatype Info = Info(containerId: string, cardId: string, project: string, sessionId: string, reason: string)

  datatype Outcome = Added | AlreadyTracked | LimitReached

  type Tracked = map<Target, Info>

  // ----- Keys -----

  function Key(project: string, cardId: string): string {
    project + "/" + cardId
  }

  function ChatKey(sessionId: string): string {
    "\0chat/" + sessionId
  }

  function KeyOf(target: Target): string {
    match target
    case Card(project, cardId) => Key(project, cardId)
    case Chat(sessionId) => ChatKey(sessionId)
  }

  /** For validated fields no two containers share a key, whichever kinds they are. */
  lemma KeyOfInjective(t1: Target, t2: Target)
    requires t1.Valid() && t2.Valid() && KeyOf(t1) == KeyOf(t2)
    ensures t1 == t2
  {
    match (t1, t2)
    case (Card(p1, c1), Card(p2, c2)) => SplitUnique(p1, c1, p2, c2, '/');
    case (Chat(s1), Chat(s2)) => assert ChatKey(s1)[6..] == s1 && ChatKey(s2)[6..] == s2;
    case (Card(_, _), Chat(_)) => KeyKindsDisjoint(t1, t2);
    case (Chat(_), Card(_, _)) => KeyKindsDisjoint(t2, t1);
  }

  lemma KeyKindsDisjoint(card: Target, chat: Target)
    requires card.Card? && card.Valid() && chat.Chat?
    ensures KeyOf(card) != KeyOf(chat)
  {
    assert IsIdentChar(card.project[0]);
    assert KeyOf(card)[0] == card.project[0] && KeyOf(chat)[0] == '\0';
  }

  /** Validation is what keeps them apart: with a slash allowed in a field, two cards clash. */
  lemma UnvalidatedKeysClash()
    ensures Card("a/b", "c") != Card("a", "b/c") && KeyOf(Card("a/b", "c")) == KeyOf(Card("a", "b/c"))
    ensures KeyOf(Card("\0chat", "s")) == KeyOf(Chat("s"))
  {
    assert Key("a/b", "c") == "a/b/c" == Key("a", "b/c");
  }

  // ----- The map by key and the map by container -----

  ghost predicate HasTarget(tracked: Tracked, key: string) {
    exists target :: target in tracked && KeyOf(target) == key
  }

  /** The string-keyed map holds exactly the tracked containers. */
  ghost predicate Represents(containers: map<string, Info>, tracked: Tracked) {
    && (forall target :: target in tracked ==>
          target.Valid() && KeyOf(target) in containers && containers[KeyOf(target)] == tracked[target])
    && (forall key :: key in containers ==> HasTarget(tracked, key))
  }

  lemma LookupAgrees(containers: map<string, Info>, tracked: Tracked, target: Target)
    requires Represents(containers, tracked) && target.Valid()
    ensures target in tracked <==> KeyOf(target) in containers
    ensures target in tracked ==> containers[KeyOf(target)] == tracked[target]
  {
    if KeyOf(target) in containers {
      assert HasTarget(tracked, KeyOf(target));
      var other :| other in tracked && KeyOf(other) == KeyOf(target);
      KeyOfInjective(other, target);
    }
  }

  lemma PutAgrees(containers: map<string, Info>, tracked: Tracked, target: Target, info: Info)
    requires Represents(containers, tracked) && target.Valid()
    ensures Represents(containers[KeyOf(target) := info], tracked[target := info])
  {
    var containers', tracked' := containers[KeyOf(target) := info], tracked[target := info];
    forall other | other in tracked'
      ensures other.Valid() && KeyOf(other) in containers' && containers'[KeyOf(other)] == tracked'[other]
    {
      if other != target && KeyOf(other) == KeyOf(target) {
        KeyOfInjective(other, target);
      }
    }
    forall key | key in containers' ensures HasTarget(tracked', key) {
      if key == KeyOf(target) {
        assert target in tracked';
      } else {
        assert HasTarget(tracked, key);
        var other :| other in tracked && KeyOf(other) == key;
        assert other in tracked';
      }
    }
  }

  lemma RemoveAgrees(containers: map<string, Info>, tracked: Tracked, target: Target)
    requires Represents(containers, tracked) && target.Valid()
    ensures Represents(containers - {KeyOf(target)}, tracked - {target})
  {
    var containers', tracked' := containers - {KeyOf(target)}, tracked - {target};
    forall other | other in tracked'
      ensures other.Valid() && KeyOf(other) in containers' && containers'[KeyOf(other)] == tracked'[other]
    {
      if KeyOf(other) == KeyOf(target) {
        KeyOfInjective(other, target);
      }
    }
    forall key | key in containers' ensures HasTarget(tracked', key) {
      assert HasTarget(tracked, key);
      var other :| other in tracked && KeyOf(other) == key;
      assert other in tracked';
    }
  }

  /** len(containers) is the number of tracked containers. */
  lemma {:induction false} SizeAgrees(containers: map<string, Info>, tracked: Tracked)
    requires Represents(containers, tracked)
    ensures |containers| == |tracked|
    decreases |containers|
  {
    if |containers| == 0 {
      assert forall target :: target in tracked ==> KeyOf(target) in containers;
      assert tracked == map[];
    } else {
      var key :| key in containers;
      assert HasTarget(tracked, key);
      var target :| target in tracked && KeyOf(target) == key;
      RemoveAgrees(containers, tracked, target);
      assert (containers - {key}).Keys == containers.Keys - {key};
      assert (tracked - {target}).Keys == tracked.Keys - {target};
      SizeAgrees(containers - {key}, tracked - {target});
    }
  }

  // ----- What each operation does to the tracked containers -----

  function AddTo(tracked: Tracked, target: Target, info: Info): (Tracked, Outcome) {
    if target in tracked then (tracked, AlreadyTracked) else (tracked[target := info], Added)
  }

  /** The limit is looked at first: a full tracker says so even of a container it tracks. */
  function AddUnderLimit(tracked: Tracked, target: Target, info: Info, limit: int): (Tracked, Outcome) {
    if |tracked| >= limit then (tracked, LimitReached) else AddTo(tracked, target, info)
  }

  function Amend(tracked: Tracked, target: Target, change: Info -> Info): Tracked {
    if target in tracked then tracked[target := change(tracked[target])] else tracked
  }

  class Tracker {
    var containers: map<string, Info>
    ghost var tracked: Tracked

    ghost predicate Valid()
      reads this
    {
      Represents(containers, tracked)
    }

    constructor ()
      ensures Valid() && tracked == map[]
    {
      containers, tracked := map[], map[];
    }

    method Add(info: Info) returns (outcome: Outcome)
      requires Valid() && Card(info.project, info.cardId).Valid()
      modifies this
      ensures Valid()
      ensures (tracked, outcome) == AddTo(old(tracked), Card(info.project, info.cardId), info)
      ensures outcome == if Card(info.project, info.cardId) in old(tracked) then AlreadyTracked else Added
      ensures tracked == if outcome != Added then old(tracked)
                         else old(tracked)[Card(info.project, info.cardId) := info]
    {
      outcome := Insert(Key(info.project, info.cardId), Card(info.project, info.cardId), info);
    }

    method AddChat(info: Info) returns (outcome: Outcome)
      requires Valid() && Chat(info.sessionId).Valid()
      modifies this
      ensures Valid()
      ensures (tracked, outcome) == AddTo(old(tracked), Chat(info.sessionId), info)
      ensures outcome == if Chat(info.sessionId) in old(tracked) then AlreadyTracked else Added
      ensures tracked == if outcome == Added then old(tracked)[Chat(info.sessionId) := info] else old(tracked)
    {
      outcome := Insert(ChatKey(info.sessionId), Chat(info.sessionId), info);
    }

    method AddIfUnderLimit(info: Info, limit: int) returns (outcome: Outcome)
      requires Valid() && Card(info.project, info.cardId).Valid()
      modifies this
      ensures Valid()
      ensures (tracked, outcome) == AddUnderLimit(old(tracked), Card(info.project, info.cardId), info, limit)
      ensures outcome == if |old(tracked)| >= limit then LimitReached
                         else if Card(info.project, info.cardId) in old(tracked) then AlreadyTracked else Added
      ensures tracked == if outcome != Added then old(tracked)
                         else old(tracked)[Card(info.project, info.cardId) := info]
    {
      SizeAgrees(containers, tracked);
      if |containers| >= limit {
        return LimitReached;
      }
      outcome := Insert(Key(info.project, info.cardId), Card(info.project, info.cardId), info);
    }

    method AddChatIfUnderLimit(info: Info, limit: int) returns (outcome: Outcome)
      requires Valid() && Chat(info.sessionId).Valid()
      modifies this
      ensures Valid()
      ensures (tracked, outcome) == AddUnderLimit(old(tracked), Chat(info.sessionId), info, limit)
      ensures outcome == if |old(tracked)| >= limit then LimitReached
                         else if Chat(info.sessionId) in old(tracked) then AlreadyTracked else Added
      ensures tracked == if outcome == Added then old(tracked)[Chat(info.sessionId) := info] else old(tracked)
    {
      SizeAgrees(containers, tracked);
      if |containers| >= limit {
        return LimitReached;
      }
      outcome := Insert(ChatKey(info.sessionId), Chat(info.sessionId), info);
    }

    /** The existence check and assignment that all four adds end with. */
    method Insert(k: string, ghost target: Target, info: Info) returns (outcome: Outcome)
      requires Valid() && target.Valid() && k == KeyOf(target)
      modifies this
      ensures Valid()
      ensures (tracked, outcome) == AddTo(old(tracked), target, info)
    {
      LookupAgrees(containers, tracked, target);
      if k in containers {
        return AlreadyTracked;
      }
      PutAgrees(containers, tracked, target, info);
      containers, tracked := containers[k := info], tracked[target := info];
      outcome := Added;
    }

    method Has(project: string, cardId: string) returns (found: bool)
      requires Valid() && Card(project, cardId).Valid()
      ensures found <==> Card(project, cardId) in tracked
    {
      LookupAgrees(containers, tracked, Card(project, cardId));
      found := Key(project, cardId) in containers;
    }

    method HasChat(sessionId: string) returns (found: bool)
      requires Valid() && Chat(sessionId).Valid()
      ensures found <==> Chat(sessionId) in tracked
    {
      LookupAgrees(containers, tracked, Chat(sessionId));
      found := ChatKey(sessionId) in containers;
    }

    method UpdateContainerId(project: string, cardId: string, containerId: string)
      requires Valid() && Card(project, cardId).Valid()
      modifies this
      ensures Valid()
      ensures tracked == Amend(old(tracked), Card(project, cardId), (i: Info) => i.(containerId := containerId))
      ensures tracked.Keys == old(tracked).Keys
      ensures forall t :: t in tracked ==>
                tracked[t] == if t != Card(project, cardId) then old(tracked)[t]
                              else old(tracked)[t].(containerId := containerId)
    {
      ghost var target := Card(project, cardId);
      var k := Key(project, cardId);
      LookupAgrees(containers, tracked, target);
      if k in containers {
        var info := containers[k].(containerId := containerId);
        PutAgrees(containers, tracked, target, info);
        containers, tracked := containers[k := info], tracked[target := info];
      }
    }

    /** The part of CancelWithReason under the lock. */
    method RecordReason(project: string, cardId: string, reason: string) returns (found: bool)
      requires Valid() && Card(project, cardId).Valid()
      modifies this
      ensures Valid() && (found <==> Card(project, cardId) in old(tracked))
      ensures tracked == Amend(old(tracked), Card(project, cardId), (i: Info) => i.(reason := reason))
      ensures tracked.Keys == old(tracked).Keys
      ensures forall t :: t in tracked ==>
                tracked[t] == if t == Card(project, cardId) then old(tracked)[t].(reason := reason) else old(tracked)[t]
    {
      ghost var target := Card(project, cardId);
      var k := Key(project, cardId);
      LookupAgrees(containers, tracked, target);
      found := k in containers;
      if found {
        var info := containers[k].(reason := reason);
        PutAgrees(containers, tracked, target, info);
        containers, tracked := containers[k := info], tracked[target := info];
      }
    }

    method Reason(project: string, cardId: string) returns (reason: string)
      requires Valid() && Card(project, cardId).Valid()
      ensures reason == if Card(project, cardId) in tracked then tracked[Card(project, cardId)].reason else ""
    {
      var k := Key(project, cardId);
      LookupAgrees(containers, tracked, Card(project, cardId));
      reason := if k in containers then containers[k].reason else "";
    }

    /** The part of Remove under the lock. */
    method Remove(project: string, cardId: string) returns (found: bool)
      requires Valid() && Card(project, cardId).Valid()
      modifies this
      ensures Valid() && (found <==> Card(project, cardId) in old(tracked))
      ensures tracked == old(tracked) - {Card(project, cardId)}
    {
      found := Drop(Key(project, cardId), Card(project, cardId));
    }

    /** The part of RemoveChat under the lock. */
    method RemoveChat(sessionId: string) returns (found: bool)
      requires Valid() && Chat(sessionId).Valid()
      modifies this
      ensures Valid() && (found <==> Chat(sessionId) in old(tracked))
      ensures tracked == old(tracked) - {Chat(sessionId)}
    {
      found := Drop(ChatKey(sessionId), Chat(sessionId));
    }

    method Drop(k: string, ghost target: Target) returns (found: bool)
      requires Valid() && target.Valid() && k == KeyOf(target)
      modifies this
      ensures Valid() && (found <==> target in old(tracked))
      ensures tracked == old(tracked) - {target}
    {
      LookupAgrees(containers, tracked, target);
      RemoveAgrees(containers, tracked, target);
      found := k in containers;
      if found {
        containers := containers - {k};
      } else {
        assert containers - {k} == containers;
      }
      tracked := tracked - {target};
    }

    method Count() returns (count: nat)
      requires Valid()
      ensures count == |tracked|
    {
      SizeAgrees(containers, tracked);
      count := |containers|;
    }
  }

  // ----- The shared limit over whole runs -----

  datatype Request =
    | Reserve(target: Target, info: Info)             // AddIfUnderLimit, AddChatIfUnderLimit
    | Release(target: Target)                         // Remove, RemoveChat
    | Change(target: Target, change: Info -> Info)    // UpdateContainerID, CancelWithReason

  function Serve(tracked: Tracked, request: Request, limit: int): Tracked {
    match request
    case Reserve(target, info) => AddUnderLimit(tracked, target, info, limit).0
    case Release(target) => tracked - {target}
    case Change(target, change) => Amend(tracked, target, change)
  }

  /** What the tracker holds before each request and at the end, the requests being served one
      at a time under its lock. */
  ghost predicate IsRun(states: seq<Tracked>, requests: seq<Request>, limit: int) {
    && |states| == |requests| + 1 && states[0] == map[]
    && (forall n :: 0 <= n < |requests| ==> ServedAt(states, requests, limit, n))
  }

  ghost predicate ServedAt(states: seq<Tracked>, requests: seq<Request>, limit: int, n: nat)
    requires n < |requests| && n + 1 < |states|
  {
    states[n + 1] == Serve(states[n], requests[n], limit)
  }

  /** However adds of cards and of chats alternate with removals, the two together never
      exceed the limit; with a limit of zero or less nothing is ever tracked. */
  lemma {:induction false} NeverOverLimit(states: seq<Tracked>, requests: seq<Request>, limit: int, n: nat)
    requires IsRun(states, requests, limit) && n <= |requests|
    ensures |states[n]| <= if limit > 0 then limit else 0
  {
    if n > 0 {
      NeverOverLimit(states, requests, limit, n - 1);
      assert ServedAt(states, requests, limit, n - 1);
      SizeChange(states[n - 1], requests[n - 1], limit);
    }
  }

  /** Slots are conserved: a request changes the count by one exactly when it reserves a free
      slot for a container not yet tracked, or releases one that is. */
  lemma SizeChange(tracked: Tracked, request: Request, limit: int)
    ensures |Serve(tracked, request, limit)| ==
            |tracked| + (if Reserves(tracked, request, limit) then 1 else 0)
            - (if Releases(tracked, request) then 1 else 0)
  {
    match request
    case Reserve(target, info) =>
      assert tracked[target := info].Keys == tracked.Keys + {target};
    case Release(target) =>
      assert (tracked - {target}).Keys == tracked.Keys - {target};
    case Change(target, change) =>
      if target in tracked {
        assert tracked[target := change(tracked[target])].Keys == tracked.Keys;
      }
  }

  predicate Reserves(tracked: Tracked, request: Request, limit: int) {
    request.Reserve? && |tracked| < limit && request.target !in tracked
  }

  predicate IsRelease(request: Request, target: Target) {
    request.Release? && request.target == target
  }

  predicate Releases(tracked: Tracked, request: Request) {
    request.Release? && request.target in tracked
  }

  /** Request k reserved a slot for the container, and none up to the n-th released it. */
  ghost predicate HeldSince(states: seq<Tracked>, requests: seq<Request>, limit: int, target: Target, n: nat, k: nat)
    requires IsRun(states, requests, limit) && n <= |requests|
  {
    && k < n && requests[k].Reserve? && requests[k].target == target
    && Reserves(states[k], requests[k], limit)
    && (forall j :: k < j < n ==> !IsRelease(requests[j], target))
  }

  lemma ServeTracks(tracked: Tracked, request: Request, limit: int, target: Target)
    ensures target in Serve(tracked, request, limit) <==>
            || (Reserves(tracked, request, limit) && request.target == target)
            || (target in tracked && !IsRelease(request, target))
  {
  }

  lemma {:induction false} TrackedIsHeld(
      states: seq<Tracked>, requests: seq<Request>, limit: int, target: Target, n: nat)
      returns (k: nat)
    requires IsRun(states, requests, limit) && n <= |requests| && target in states[n]
    ensures HeldSince(states, requests, limit, target, n, k)
  {
    assert n > 0 && ServedAt(states, requests, limit, n - 1);
    ServeTracks(states[n - 1], requests[n - 1], limit, target);
    if Reserves(states[n - 1], requests[n - 1], limit) && requests[n - 1].target == target {
      k := n - 1;
    } else {
      k := TrackedIsHeld(states, requests, limit, target, n - 1);
    }
  }

  lemma {:induction false} HeldIsTracked(
      states: seq<Tracked>, requests: seq<Request>, limit: int, target: Target, n: nat, k: nat)
    requires IsRun(states, requests, limit) && n <= |requests| && HeldSince(states, requests, limit, target, n, k)
    ensures target in states[n]
  {
    assert ServedAt(states, requests, limit, n - 1);
    ServeTracks(states[n - 1], requests[n - 1], limit, target);
    if k < n - 1 {
      HeldIsTracked(states, requests, limit, target, n - 1, k);
    }
  }

  /** A container is tracked exactly when some request reserved a slot for it that no later
      one released. */
  lemma TrackedExactly(states: seq<Tracked>, requests: seq<Request>, limit: int, target: Target, n: nat)
    requires IsRun(states, requests, limit) && n <= |requests|
    ensures target in states[n] <==> exists k: nat :: HeldSince(states, requests, limit, target, n, k)
  {
    if target in states[n] {
      var k := TrackedIsHeld(states, requests, limit, target, n);
    }
    if k: nat :| HeldSince(states, requests, limit, target, n, k) {
      HeldIsTracked(states, requests, limit, target, n, k);
    }
  }
}
