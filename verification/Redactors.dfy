/** internal/logparser/parser.go: building the per-container redactor and applying it. */
module Redactors {
  import opened Redaction

  /** The secrets worth masking: long enough, first appearances only, in input order. */
  function KeptSecrets(secrets: seq<string>): seq<string> {
    if secrets == [] then []
    else
      var init, last := KeptSecrets(secrets[..|secrets| - 1]), secrets[|secrets| - 1];
      if |last| < MIN_SECRET_LEN || last in init then init else init + [last]
  }

  lemma {:induction false} KeptSecretsFacts(secrets: seq<string>)
    ensures var kept := KeptSecrets(secrets);
            && (forall s :: s in kept <==> s in secrets && |s| >= 8)
            && (forall i, j :: 0 <= i < j < |kept| ==> kept[i] != kept[j])
  {
    if secrets != [] {
      var init, last := secrets[..|secrets| - 1], secrets[|secrets| - 1];
      KeptSecretsFacts(init);
      assert secrets == init + [last];
    }
  }

  // ----- Insertion sort, longest first -----

  /** Behind everything at least as long, before everything shorter, on a sorted list. */
  function Insert(s: seq<string>, e: string): seq<string> {
    if s == [] || |s[|s| - 1]| >= |e| then s + [e]
    else Insert(s[..|s| - 1], e) + [s[|s| - 1]]
  }

  function LongestFirst(s: seq<string>): seq<string> {
    if s == [] then [] else Insert(LongestFirst(s[..|s| - 1]), s[|s| - 1])
  }

  ghost predicate NonIncreasing(s: seq<string>) {
    forall i, j :: 0 <= i <= j < |s| ==> |s[i]| >= |s[j]|
  }

  function OfLength(s: seq<string>, n: nat): seq<string> {
    if s == [] then []
    else OfLength(s[..|s| - 1], n) + if |s[|s| - 1]| == n then [s[|s| - 1]] else []
  }

  lemma {:induction false} InsertIsPermutation(s: seq<string>, e: string)
    ensures multiset(Insert(s, e)) == multiset(s + [e])
  {
    if s != [] && |s[|s| - 1]| < |e| {
      var init, last := s[..|s| - 1], s[|s| - 1];
      InsertIsPermutation(init, e);
      assert s == init + [last];
    }
  }

  /** The result is sorted, and no shorter than any bound both parts keep. */
  lemma {:induction false} InsertIsSorted(s: seq<string>, e: string, bound: nat)
    requires NonIncreasing(s) && |e| >= bound && forall i :: 0 <= i < |s| ==> |s[i]| >= bound
    ensures NonIncreasing(Insert(s, e)) && forall i :: 0 <= i < |Insert(s, e)| ==> |Insert(s, e)[i]| >= bound
  {
    if s != [] && |s[|s| - 1]| < |e| {
      InsertIsSorted(s[..|s| - 1], e, |s[|s| - 1]|);
    }
  }

  lemma {:induction false} InsertIsStable(s: seq<string>, e: string, n: nat)
    requires NonIncreasing(s)
    ensures OfLength(Insert(s, e), n) == OfLength(s + [e], n)
  {
    assert (s + [e])[..|s|] == s;
    if s != [] && |s[|s| - 1]| < |e| {
      var init, last := s[..|s| - 1], s[|s| - 1];
      InsertIsStable(init, e, n);
      assert (init + [e])[..|init|] == init;
      assert (Insert(init, e) + [last])[..|Insert(init, e)|] == Insert(init, e);
    }
  }

  lemma {:induction false} LongestFirstIsPermutation(s: seq<string>)
    ensures multiset(LongestFirst(s)) == multiset(s)
  {
    if s != [] {
      var init, last := s[..|s| - 1], s[|s| - 1];
      LongestFirstIsPermutation(init);
      InsertIsPermutation(LongestFirst(init), last);
      assert s == init + [last];
    }
  }

  /** No longer secret ends up behind a shorter one, and secrets of equal length keep their
      input order. */
  lemma {:induction false} LongestFirstIsSorted(s: seq<string>, n: nat)
    ensures NonIncreasing(LongestFirst(s))
    ensures OfLength(LongestFirst(s), n) == OfLength(s, n)
  {
    if s != [] {
      var init, last := s[..|s| - 1], s[|s| - 1];
      LongestFirstIsSorted(init, n);
      InsertIsSorted(LongestFirst(init), last, 0);
      InsertIsStable(LongestFirst(init), last, n);
      assert (LongestFirst(init) + [last])[..|LongestFirst(init)|] == LongestFirst(init);
    }
  }

  /** The inner loop: swap the element at i to the left past every shorter one. */
  method SinkLeft(s: array<string>, i: nat)
    requires i < s.Length
    modifies s
    ensures s[..] == Insert(old(s[..i]), old(s[i])) + old(s[i + 1..])
  {
    ghost var sorted, e, tail := s[..i], s[i], s[i + 1..];
    var j := i;
    assert sorted[..i] == sorted && sorted[i..] == [];
    while j > 0 && |s[j]| > |s[j - 1]|
      invariant 0 <= j <= i
      invariant s[..] == sorted[..j] + [e] + sorted[j..] + tail
      invariant Insert(sorted, e) == Insert(sorted[..j], e) + sorted[j..]
    {
      assert s[..][j] == e && s[..][j - 1] == sorted[j - 1];
      InsertUnfolds(sorted, e, j);
      Swapped(sorted, e, tail, j);
      ghost var before := s[..];
      s[j], s[j - 1] := s[j - 1], s[j];
      assert s[..] == before[j := sorted[j - 1]][j - 1 := e];
      j := j - 1;
    }
    assert s[..][j] == e && (j > 0 ==> s[..][j - 1] == sorted[j - 1]);
  }

  method SortLongestFirst(s: array<string>)
    modifies s
    ensures s[..] == LongestFirst(old(s[..]))
  {
    ghost var input := s[..];
    if s.Length == 0 {
      return;
    }
    assert input[..1][..0] == [];
    for i := 1 to s.Length
      invariant s[..i] == LongestFirst(input[..i]) && s[i..] == input[i..]
    {
      assert s[i] == input[i] && s[i + 1..] == input[i + 1..];
      assert input[..i + 1][..i] == input[..i];
      SinkLeft(s, i);
      assert |Insert(LongestFirst(input[..i]), input[i])| == i + 1 by {
        InsertIsPermutation(LongestFirst(input[..i]), input[i]);
        assert |multiset(Insert(LongestFirst(input[..i]), input[i]))|
            == |multiset(LongestFirst(input[..i]) + [input[i]])|;
      }
    }
    assert s[..s.Length] == s[..] && input[..s.Length] == input;
  }

  lemma InsertUnfolds(sorted: seq<string>, e: string, j: nat)
    requires 0 < j <= |sorted| && |e| > |sorted[j - 1]|
    requires Insert(sorted, e) == Insert(sorted[..j], e) + sorted[j..]
    ensures Insert(sorted, e) == Insert(sorted[..j - 1], e) + sorted[j - 1..]
  {
    assert sorted[..j][..j - 1] == sorted[..j - 1];
    assert [sorted[j - 1]] + sorted[j..] == sorted[j - 1..];
  }

  lemma Swapped(sorted: seq<string>, e: string, tail: seq<string>, j: nat)
    requires 0 < j <= |sorted|
    ensures (sorted[..j] + [e] + sorted[j..] + tail)[j := sorted[j - 1]][j - 1 := e]
         == sorted[..j - 1] + [e] + sorted[j - 1..] + tail
  {
  }

  class Redactor {
    const secrets: seq<string>

    constructor (secrets: seq<string>)
      ensures this.secrets == secrets
    {
      this.secrets := secrets;
    }

    predicate Valid() {
      NoneEmpty(secrets)
    }

    /** The literal pass; the pattern passes that follow it are StaysClean's business. */
    method RedactLiterals(input: string) returns (output: string)
      requires Valid()
      ensures output == LiteralPass(input, secrets)
    {
      output := input;
      for i := 0 to |secrets|
        invariant output == LiteralPass(input, secrets[..i])
      {
        output := ReplaceAll(output, secrets[i], MARK);
        assert secrets[..i + 1][..i] == secrets[..i];
      }
      assert secrets[..|secrets|] == secrets;
    }
  }

  method NewRedactor(secrets: seq<string>) returns (r: Redactor)
    ensures fresh(r) && r.Valid() && r.secrets == LongestFirst(KeptSecrets(secrets))
  {
    var seen: set<string> := {};
    var filtered: seq<string> := [];
    for i := 0 to |secrets|
      invariant filtered == KeptSecrets(secrets[..i])
      invariant forall s :: s in seen <==> s in filtered
    {
      var s := secrets[i];
      assert secrets[..i + 1][..i] == secrets[..i];
      if |s| < MIN_SECRET_LEN {
        continue;
      }
      if s in seen {
        continue;
      }
      seen := seen + {s};
      filtered := filtered + [s];
    }
    assert secrets[..|secrets|] == secrets;
    var buffer := new string[|filtered|](i requires 0 <= i < |filtered| => filtered[i]);
    assert buffer[..] == filtered;
    SortLongestFirst(buffer);
    r := new Redactor(buffer[..]);
    KeptSecretsFacts(secrets);
    LongestFirstIsPermutation(filtered);
    forall i | 0 <= i < |r.secrets| ensures r.secrets[i] != "" {
      assert r.secrets[i] in multiset(r.secrets);
    }
  }

  /** What Redact makes of a text: the literal pass, then the patterns, each of which masks some
      disjoint spans. */
  ghost predicate IsRedacted(input: string, secrets: seq<string>, texts: seq<string>)
    requires NoneEmpty(secrets)
  {
    && texts != [] && texts[0] == LiteralPass(input, secrets)
    && (forall i :: 0 < i < |texts| ==> Masks(texts[i - 1], texts[i]))
  }

  lemma KeptAreSecrets(configured: seq<string>)
    ensures NoneEmpty(LongestFirst(KeptSecrets(configured)))
    ensures forall s :: s in configured && |s| >= MIN_SECRET_LEN ==> s in LongestFirst(KeptSecrets(configured))
  {
    var kept, secrets := KeptSecrets(configured), LongestFirst(KeptSecrets(configured));
    KeptSecretsFacts(configured);
    LongestFirstIsPermutation(kept);
    forall i | 0 <= i < |secrets| ensures secrets[i] != "" {
      assert secrets[i] in multiset(secrets);
      assert secrets[i] in kept;
    }
    forall s | s in configured && |s| >= MIN_SECRET_LEN ensures s in secrets {
      assert s in multiset(kept) && s in multiset(secrets);
    }
  }

  /** End to end, from the configured values to the final text: a value of at least 8 bytes that
      cannot overlap the mark is not left in it, whatever the other values are. */
  lemma RedactorIsClean(configured: seq<string>, input: string, texts: seq<string>, s: string)
    requires s in configured && |s| >= 8 && MarkFree(s)
    ensures var secrets := LongestFirst(KeptSecrets(configured));
            NoneEmpty(secrets) && (IsRedacted(input, secrets, texts) ==> !Occurs(s, texts[|texts| - 1]))
  {
    var secrets := LongestFirst(KeptSecrets(configured));
    KeptAreSecrets(configured);
    LiteralPassIsClean(input, secrets, s);
    if IsRedacted(input, secrets, texts) {
      StaysClean(texts, s);
    }
  }

  /** Which is so for tokens and keys: without brackets, and not the word in the mark itself. */
  lemma TokensAreMasked(configured: seq<string>, input: string, texts: seq<string>, s: string)
    requires s in configured && |s| >= 8 && Bracketless(s) && s != "REDACTED"
    ensures var secrets := LongestFirst(KeptSecrets(configured));
            NoneEmpty(secrets) && (IsRedacted(input, secrets, texts) ==> !Occurs(s, texts[|texts| - 1]))
  {
    BracketlessIsMarkFree(s);
    RedactorIsClean(configured, input, texts, s);
  }
}
