/** internal/logparser/parser.go: masking literal secrets in log output.  A Go string is
    its bytes, so one char here stands for one byte. */
module Redaction {

  const MARK := "[REDACTED]"
  const MIN_SECRET_LEN := 8

  ghost predicate OccursAt(p: string, x: string, i: nat) {
    i + |p| <= |x| && x[i..i + |p|] == p
  }

  ghost predicate Occurs(p: string, x: string) {
    exists i: nat :: OccursAt(p, x, i)
  }

  /** Occurrences behind the first `width` characters are occurrences in the rest. */
  lemma OccursBehind(q: string, y: string, width: nat, i: nat)
    requires width <= |y|
    ensures OccursAt(q, y, width + i) <==> OccursAt(q, y[width..], i)
  {
    if width + i + |q| <= |y| {
      assert y[width..][i..i + |q|] == y[width + i..width + i + |q|];
    }
  }

  /** strings.ReplaceAll for a non-empty pattern: leftmost matches, left to right, no overlap. */
  function ReplaceAll(x: string, p: string, replacement: string): string
    requires p != ""
  {
    if x == "" then ""
    else if p <= x then replacement + ReplaceAll(x[|p|..], p, replacement)
    else [x[0]] + ReplaceAll(x[1..], p, replacement)
  }

  predicate NoneEmpty(secrets: seq<string>) {
    forall i :: 0 <= i < |secrets| ==> secrets[i] != ""
  }

  /** The literal pass: every secret in turn. */
  function LiteralPass(x: string, secrets: seq<string>): string
    requires NoneEmpty(secrets)
  {
    if secrets == [] then x
    else ReplaceAll(LiteralPass(x, secrets[..|secrets| - 1]), secrets[|secrets| - 1], MARK)
  }

  // ----- Masking: some disjoint spans become the mark -----

  datatype Item = Kept(c: char) | Span(hidden: string)

  ghost function Original(items: seq<Item>): string {
    if items == [] then ""
    else (match items[0] case Kept(c) => [c] case Span(hidden) => hidden) + Original(items[1..])
  }

  ghost function Masked(items: seq<Item>): string {
    if items == [] then ""
    else (match items[0] case Kept(c) => [c] case Span(_) => MARK) + Masked(items[1..])
  }

  /** y is x with some disjoint spans replaced by the mark: what any one replacement pass,
      literal or by pattern, does. */
  ghost predicate Masks(x: string, y: string) {
    exists items :: Original(items) == x && Masked(items) == y
  }

  predicate Agree(a: string, b: string) {
    a <= b || b <= a
  }

  /** No occurrence of q can overlap an occurrence of the mark. */
  ghost predicate MarkFree(q: string) {
    && (forall k :: 0 <= k < |q| ==> !Agree(q[k..], MARK))
    && (forall k :: 0 <= k < |MARK| ==> !Agree(MARK[k..], q))
  }

  predicate Bracketless(q: string) {
    forall i :: 0 <= i < |q| ==> q[i] != '[' && q[i] != ']'
  }

  /** The secrets in use, tokens and API keys, are bracketless; all of them but one are safe. */
  lemma BracketlessIsMarkFree(q: string)
    requires Bracketless(q) && |q| >= MIN_SECRET_LEN && q != "REDACTED"
    ensures MarkFree(q)
  {
    forall k | 0 <= k < |q| ensures !Agree(q[k..], MARK) {
      assert q[k..][0] == q[k] && MARK[0] == '[';
    }
    forall k | 0 <= k < |MARK| ensures !Agree(MARK[k..], q) {
      var tail := MARK[k..];
      assert MARK[|MARK| - 1] == ']' && tail[|tail| - 1] == ']';
      if k == 0 {
        assert tail[0] == '[';
      } else if k == 1 {
        assert MARK[1..][..8] == "REDACTED";
      }
    }
  }

  /** Reading from the front of a masked text, a string no suffix of which meets the mark is
      read from kept characters only. */
  lemma {:induction false} PrefixIsKept(items: seq<Item>, q: string)
    requires q <= Masked(items) && forall k :: 0 <= k < |q| ==> !Agree(q[k..], MARK)
    ensures q <= Original(items)
  {
    if q != "" {
      assert q[0..] == q;
      match items[0]
      case Span(_) => PrefixesAgree(q, MARK, Masked(items));
      case Kept(c) =>
        assert Masked(items)[1..] == Masked(items[1..]);
        forall k | 0 <= k < |q[1..]| ensures !Agree(q[1..][k..], MARK) {
          assert q[1..][k..] == q[k + 1..];
        }
        PrefixIsKept(items[1..], q[1..]);
        assert q == [c] + q[1..];
    }
  }

  lemma PrefixesAgree(a: string, b: string, whole: string)
    requires a <= whole && b <= whole
    ensures Agree(a, b)
  {
    if |a| <= |b| {
      assert b[..|a|] == whole[..|a|];
    } else {
      assert a[..|b|] == whole[..|b|];
    }
  }

  lemma OverlapAgrees(q: string, rest: string, i: nat)
    requires OccursAt(q, MARK + rest, i)
    ensures i < |MARK| ==> Agree(MARK[i..], q)
  {
    if i < |MARK| {
      var y := MARK + rest;
      assert y[i..] == MARK[i..] + rest;
      PrefixesAgree(MARK[i..], q, y[i..]);
    }
  }

  /** An occurrence in a text that starts with a mark lies behind the mark. */
  lemma OccursBehindMark(q: string, rest: string, i: nat)
    requires MarkFree(q) && OccursAt(q, MARK + rest, i)
    ensures i >= |MARK| && OccursAt(q, rest, i - |MARK|)
  {
    OverlapAgrees(q, rest, i);
    assert (MARK + rest)[|MARK|..] == rest;
    OccursBehind(q, MARK + rest, |MARK|, i - |MARK|);
  }

  /** No masking creates an occurrence of a mark-free string, not even by joining what stands
      on the two sides of a mark. */
  lemma {:induction false} MaskingAddsNothing(items: seq<Item>, q: string, i: nat)
    requires MarkFree(q) && OccursAt(q, Masked(items), i)
    ensures Occurs(q, Original(items))
  {
    var y := Masked(items);
    if i == 0 && (items == [] || items[0].Kept?) {
      PrefixIsKept(items, q);
      assert OccursAt(q, Original(items), 0);
    } else {
      var rest := Masked(items[1..]);
      var at := if items[0].Kept? then i - 1 else i - |MARK|;
      if items[0].Kept? {
        assert y[1..] == rest;
        OccursBehind(q, y, 1, at);
      } else {
        OccursBehindMark(q, rest, i);
      }
      MaskingAddsNothing(items[1..], q, at);
      var j: nat :| OccursAt(q, Original(items[1..]), j);
      var head := |Original(items)| - |Original(items[1..])|;
      assert Original(items)[head..] == Original(items[1..]);
      OccursBehind(q, Original(items), head, j);
    }
  }

  // ----- The literal pass -----

  ghost function Scan(x: string, p: string): seq<Item>
    requires p != ""
  {
    if x == "" then []
    else if p <= x then [Span(p)] + Scan(x[|p|..], p)
    else [Kept(x[0])] + Scan(x[1..], p)
  }

  /** The spans replaced are the secret itself, and nothing else is touched. */
  lemma {:induction false} ReplaceAllMasks(x: string, p: string)
    requires p != ""
    ensures Original(Scan(x, p)) == x && Masked(Scan(x, p)) == ReplaceAll(x, p, MARK)
    ensures forall i :: 0 <= i < |Scan(x, p)| && Scan(x, p)[i].Span? ==> Scan(x, p)[i].hidden == p
  {
    if x == "" {
    } else if p <= x {
      ReplaceAllMasks(x[|p|..], p);
      assert Scan(x, p)[1..] == Scan(x[|p|..], p);
    } else {
      ReplaceAllMasks(x[1..], p);
      assert Scan(x, p)[1..] == Scan(x[1..], p);
    }
  }

  /** Replacing a mark-free secret leaves no occurrence of it. */
  lemma {:induction false} ReplacedIsGone(x: string, p: string, i: nat)
    requires p != "" && MarkFree(p)
    ensures !OccursAt(p, ReplaceAll(x, p, MARK), i)
  {
    var y := ReplaceAll(x, p, MARK);
    if OccursAt(p, y, i) && x != "" {
      if p <= x {
        OccursBehindMark(p, ReplaceAll(x[|p|..], p, MARK), i);
        ReplacedIsGone(x[|p|..], p, i - |MARK|);
      } else if i == 0 {
        ReplaceAllMasks(x, p);
        PrefixIsKept(Scan(x, p), p);
      } else {
        var rest := ReplaceAll(x[1..], p, MARK);
        assert y[1..] == rest;
        OccursBehind(p, y, 1, i - 1);
        ReplacedIsGone(x[1..], p, i - 1);
      }
    }
  }

  /** After the literal pass a mark-free secret occurs nowhere, whatever the input and whatever
      the other secrets are: neither later passes nor the text joined around a mark recreate a
      secret masked earlier. */
  lemma {:induction false} LiteralPassIsClean(x: string, secrets: seq<string>, s: string)
    requires NoneEmpty(secrets) && MarkFree(s) && s in secrets
    ensures !Occurs(s, LiteralPass(x, secrets))
  {
    var init, last := secrets[..|secrets| - 1], secrets[|secrets| - 1];
    var before := LiteralPass(x, init);
    var after := ReplaceAll(before, last, MARK);
    forall i: nat | OccursAt(s, after, i) ensures false {
      if s == last {
        ReplacedIsGone(before, last, i);
      } else {
        ReplaceAllMasks(before, last);
        MaskingAddsNothing(Scan(before, last), s, i);
        LiteralPassIsClean(x, init, s);
      }
    }
  }

  /** Any passes that only mask spans, as the pattern passes do after the literal one, keep
      the text clean. */
  lemma {:induction false} StaysClean(texts: seq<string>, s: string)
    requires texts != [] && !Occurs(s, texts[0]) && MarkFree(s)
    requires forall i :: 0 < i < |texts| ==> Masks(texts[i - 1], texts[i])
    ensures !Occurs(s, texts[|texts| - 1])
  {
    var last := |texts| - 1;
    if last > 0 {
      StaysClean(texts[..last], s);
      forall i: nat | OccursAt(s, texts[last], i) ensures false {
        assert Masks(texts[last - 1], texts[last]);
        var items :| Original(items) == texts[last - 1] && Masked(items) == texts[last];
        MaskingAddsNothing(items, s, i);
      }
    }
  }

  /** y is x with some occurrences of the secrets replaced by the mark. */
  ghost predicate MasksOnly(x: string, y: string, secrets: seq<string>) {
    exists items :: Original(items) == x && Masked(items) == y && HidesOnly(items, secrets)
  }

  ghost predicate HidesOnly(items: seq<Item>, secrets: seq<string>) {
    forall i :: 0 <= i < |items| && items[i].Span? ==> items[i].hidden in secrets
  }

  /** Each pass hides nothing but its secret, so a text without secrets comes through unchanged. */
  lemma PassHidesOnlyItsSecret(x: string, p: string)
    requires p != ""
    ensures MasksOnly(x, ReplaceAll(x, p, MARK), [p])
    ensures !Occurs(p, x) ==> ReplaceAll(x, p, MARK) == x
  {
    ReplaceAllMasks(x, p);
    assert HidesOnly(Scan(x, p), [p]);
    if !Occurs(p, x) {
      Unmatched(x, p);
    }
  }

  lemma {:induction false} Unmatched(x: string, p: string)
    requires p != "" && !Occurs(p, x)
    ensures ReplaceAll(x, p, MARK) == x
  {
    if x != "" {
      assert !OccursAt(p, x, 0);
      forall j: nat ensures !OccursAt(p, x[1..], j) {
        assert !OccursAt(p, x, 1 + j);
        OccursBehind(p, x, 1, j);
      }
      Unmatched(x[1..], p);
    }
  }

  lemma SecretBecomesMark(p: string)
    requires p != ""
    ensures LiteralPass(p, [p]) == "[REDACTED]"
  {
    assert [p][..0] == [] && LiteralPass(p, []) == p;
    assert LiteralPass(p, [p]) == ReplaceAll(LiteralPass(p, []), p, MARK);
    assert p[|p|..] == "" && ReplaceAll("", p, MARK) == "" && MARK + "" == "[REDACTED]";
  }

  lemma {:induction false} TextWithoutSecretsStays(x: string, secrets: seq<string>)
    requires NoneEmpty(secrets) && forall s :: s in secrets ==> !Occurs(s, x)
    ensures LiteralPass(x, secrets) == x
  {
    if secrets != [] {
      TextWithoutSecretsStays(x, secrets[..|secrets| - 1]);
      Unmatched(x, secrets[|secrets| - 1]);
    }
  }

  // ----- The one secret that is never masked -----

  lemma {:induction false} ReplaceAllKeepsWord(x: string, p: string, i: nat)
    requires p != "" && OccursAt("REDACTED", x, i)
    ensures Occurs("REDACTED", ReplaceAll(x, p, MARK))
  {
    var y := ReplaceAll(x, p, MARK);
    if p <= x {
      assert y[1..9] == "REDACTED";
      assert OccursAt("REDACTED", y, 1);
    } else if i == 0 {
      NoMatchKeepsPrefix(x, p, 8);
      if y[..8] == x[..8] {
        assert OccursAt("REDACTED", y, 0);
      }
    } else {
      OccursBehind("REDACTED", x, 1, i - 1);
      ReplaceAllKeepsWord(x[1..], p, i - 1);
      var j: nat :| OccursAt("REDACTED", ReplaceAll(x[1..], p, MARK), j);
      assert y[1..] == ReplaceAll(x[1..], p, MARK);
      OccursBehind("REDACTED", y, 1, j);
    }
  }

  /** Replacing either leaves the first n characters alone or puts a mark in the text. */
  lemma {:induction false} NoMatchKeepsPrefix(x: string, p: string, n: nat)
    requires p != "" && n <= |x|
    ensures var y := ReplaceAll(x, p, MARK);
            (n <= |y| && y[..n] == x[..n]) || Occurs("REDACTED", y)
  {
    var y := ReplaceAll(x, p, MARK);
    if n > 0 {
      if p <= x {
        assert y[1..9] == "REDACTED";
        assert OccursAt("REDACTED", y, 1);
      } else {
        var rest := ReplaceAll(x[1..], p, MARK);
        NoMatchKeepsPrefix(x[1..], p, n - 1);
        if n - 1 <= |rest| && rest[..n - 1] == x[1..][..n - 1] {
          assert y[..n] == [x[0]] + rest[..n - 1];
          assert x[..n] == [x[0]] + x[1..][..n - 1];
        } else {
          var j: nat :| OccursAt("REDACTED", rest, j);
          assert y[1..] == rest;
          OccursBehind("REDACTED", y, 1, j);
        }
      }
    }
  }

  lemma {:induction false} LiteralPassKeepsWord(x: string, secrets: seq<string>)
    requires Occurs("REDACTED", x) && NoneEmpty(secrets)
    ensures Occurs("REDACTED", LiteralPass(x, secrets))
  {
    if secrets != [] {
      var init := secrets[..|secrets| - 1];
      LiteralPassKeepsWord(x, init);
      var i: nat :| OccursAt("REDACTED", LiteralPass(x, init), i);
      ReplaceAllKeepsWord(LiteralPass(x, init), secrets[|secrets| - 1], i);
    }
  }

  ghost predicate Clean(x: string, secrets: seq<string>)
    requires NoneEmpty(secrets)
  {
    forall s :: s in secrets ==> !Occurs(s, LiteralPass(x, secrets))
  }

  /** For bracketless secrets of the kept length the promise has exactly one exception: the
      literal pass is clean on every input if and only if "REDACTED" is not a secret. */
  lemma CleanExactlyWithout(secrets: seq<string>)
    requires forall i :: 0 <= i < |secrets| ==> Bracketless(secrets[i]) && |secrets[i]| >= MIN_SECRET_LEN
    ensures (forall x :: Clean(x, secrets)) <==> "REDACTED" !in secrets
  {
    if "REDACTED" in secrets {
      var word :| word in secrets && word == "REDACTED";
      assert OccursAt(word, word, 0);
      LiteralPassKeepsWord(word, secrets);
      assert !Clean(word, secrets);
    } else {
      forall i | 0 <= i < |secrets| ensures secrets[i] != "" && MarkFree(secrets[i]) {
        BracketlessIsMarkFree(secrets[i]);
      }
      forall x ensures Clean(x, secrets) {
        forall s | s in secrets ensures !Occurs(s, LiteralPass(x, secrets)) {
          LiteralPassIsClean(x, secrets, s);
        }
      }
    }
  }

  /** A secret that overlaps the mark can survive its own masking. */
  lemma BracketedSecretSurvives()
    ensures LiteralPass("REDACTED]", ["REDACTED]"]) == MARK
    ensures Occurs("REDACTED]", MARK)
  {
    var p := "REDACTED]";
    assert ReplaceAll(p[|p|..], p, MARK) == "";
    assert LiteralPass(p, [p]) == ReplaceAll(LiteralPass(p, []), p, MARK);
    assert OccursAt(p, MARK, 1);
  }
}
