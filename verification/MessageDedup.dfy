/** internal/webhook/message_dedup_cache.go: acks of messages already served, so that a
    retry is answered without another write. */
module MessageDedup {
  import opened Prelude
  import opened RecencyList
  import opened Identifiers

  datatype CachedAck = CachedAck(status: int, body: seq<Byte>)

  type Stored = Entry<CachedAck>

  function MessageDedupKey(project: string, cardId: string, messageId: string): string {
    project + "\0" + cardId + "\0" + messageId
  }

  const CHAT_DEDUP_SENTINEL := "\0chat"

  function ChatDedupKey(sessionId: string, messageId: string): string {
    CHAT_DEDUP_SENTINEL + "\0" + sessionId + "\0" + messageId
  }

  function DedupKey(target: Target, messageId: string): string {
    match target
    case Card(project, cardId) => MessageDedupKey(project, cardId, messageId)
    case Chat(sessionId) => ChatDedupKey(sessionId, messageId)
  }

  /** One cache serves both kinds of message: for validated fields no two of them share a key. */
  lemma DedupKeyInjective(t1: Target, m1: string, t2: Target, m2: string)
    requires t1.Valid() && IsMessageId(m1) && t2.Valid() && IsMessageId(m2)
    requires DedupKey(t1, m1) == DedupKey(t2, m2)
    ensures t1 == t2 && m1 == m2
  {
    match (t1, t2)
    case (Card(p1, c1), Card(p2, c2)) =>
      assert MessageDedupKey(p1, c1, m1) == p1 + "\0" + (c1 + "\0" + m1);
      assert MessageDedupKey(p2, c2, m2) == p2 + "\0" + (c2 + "\0" + m2);
      SplitUnique(p1, c1 + "\0" + m1, p2, c2 + "\0" + m2, '\0');
      SplitUnique(c1, m1, c2, m2, '\0');
    case (Chat(s1), Chat(s2)) =>
      assert ChatDedupKey(s1, m1)[6..] == s1 + "\0" + m1;
      assert ChatDedupKey(s2, m2)[6..] == s2 + "\0" + m2;
      SplitUnique(s1, m1, s2, m2, '\0');
    case (Card(_, _), Chat(_)) => KindsDisjoint(t1, m1, t2, m2);
    case (Chat(_), Card(_, _)) => KindsDisjoint(t2, m2, t1, m1);
  }

  lemma KindsDisjoint(t1: Target, m1: string, t2: Target, m2: string)
    requires t1.Card? && t2.Chat? && t1.Valid()
    ensures DedupKey(t1, m1) != DedupKey(t2, m2)
  {
    assert IsIdentChar(t1.project[0]);
    assert DedupKey(t1, m1)[0] == t1.project[0] && DedupKey(t2, m2)[0] == '\0';
  }

  predicate Expired(e: Stored, now: int, ttl: int) {
    ttl > 0 && now - e.stamp > ttl
  }

  /** What a lookup answers. */
  function Answer(s: seq<Stored>, key: string, now: int, ttl: int): Option<CachedAck> {
    var found := Find(s, key);
    if found.Some? && !Expired(found.value, now, ttl) then Some(found.value.value) else None
  }

  /** A lookup drops the entry it finds expired. */
  function GetOp(s: seq<Stored>, key: string, now: int, ttl: int): Op<CachedAck> {
    var found := Find(s, key);
    if found.Some? && Expired(found.value, now, ttl) then Delete(key) else Keep
  }

  class DedupCache {
    const ttl: int
    const capacity: int
    var entries: seq<Stored>
    var index: map<string, Stored>

    ghost predicate Valid()
      reads this
    {
      && Indexed(entries, index)
      && (capacity > 0 ==> |entries| <= capacity)
    }

    constructor (ttl: int, capacity: int)
      ensures Valid() && entries == []
      ensures this.ttl == ttl && this.capacity == capacity
    {
      this.ttl := ttl;
      this.capacity := capacity;
      entries := [];
      index := map[];
    }

    method GetByKey(key: string, now: int) returns (ack: Option<CachedAck>)
      requires Valid()
      modifies this
      ensures Valid()
      ensures ack == Answer(old(entries), key, now, ttl)
      ensures entries == Apply(old(entries), GetOp(old(entries), key, now, ttl), capacity)
    {
      IndexFinds(entries, index, key);
      if key !in index {
        return None;
      }
      var entry := index[key];
      if ttl > 0 && now - entry.stamp > ttl {
        IndexedWithout(entries, index, key);
        WithoutFacts(entries, key);
        entries := Without(entries, key);
        index := index - {key};
        return None;
      }
      return Some(entry.value);
    }

    method PutByKey(key: string, ack: CachedAck, now: int)
      requires Valid()
      modifies this
      ensures Valid()
      ensures entries == Apply(old(entries), Push(Entry(key, now, ack)), capacity)
    {
      var entry := Entry(key, now, ack);
      IndexedPut(entries, index, entry);
      if key in index {
        index := index[key := entry];
        entries := Without(entries, key) + [entry];
        return;
      }
      entries := entries + [entry];
      index := index[key := entry];
      assert entries == Without(old(entries), key) + [entry];
      entries, index := Evict(entries, index, capacity);
    }

    /** Get and GetChat: an empty message id always misses. */
    method Get(target: Target, messageId: string, now: int) returns (ack: Option<CachedAck>)
      requires Valid()
      modifies this
      ensures Valid()
      ensures messageId == "" ==> ack == None && entries == old(entries)
      ensures messageId != "" ==>
                && ack == Answer(old(entries), DedupKey(target, messageId), now, ttl)
                && entries == Apply(old(entries), GetOp(old(entries), DedupKey(target, messageId), now, ttl), capacity)
    {
      if messageId == "" {
        return None;
      }
      ack := GetByKey(DedupKey(target, messageId), now);
    }

    /** Put and PutChat: an empty message id stores nothing. */
    method Put(target: Target, messageId: string, ack: CachedAck, now: int)
      requires Valid()
      modifies this
      ensures Valid()
      ensures messageId == "" ==> entries == old(entries)
      ensures messageId != "" ==>
                entries == Apply(old(entries), Push(Entry(DedupKey(target, messageId), now, ack)), capacity)
    {
      if messageId == "" {
        return;
      }
      PutByKey(DedupKey(target, messageId), ack, now);
    }

    method SweepExpired(now: int)
      requires Valid()
      modifies this
      ensures Valid()
      ensures entries == Apply(old(entries), if ttl <= 0 then Keep else Sweep(now - ttl), capacity)
    {
      if ttl <= 0 {
        return;
      }
      entries, index := PopExpired(entries, index, now - ttl);
    }
  }
}
