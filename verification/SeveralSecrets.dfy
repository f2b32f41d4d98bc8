/** internal/logparser/parser.go: which secrets the literal pass can leave behind when there are
    several, each of which may hold brackets. */
module SeveralSecrets {
  import opened Redaction
  import opened OneSecret

  // ----- Any list: whatever is left was formed by its own pass or a later one -----

  lemma {:induction false} LeftIsFormed(x: string, secrets: seq<string>, k: nat) returns (m: nat)
    requires NoneEmpty(secrets) && k < |secrets| && Occurs(secrets[k], LiteralPass(x, secrets))
    ensures k <= m < |secrets| && CanForm(secrets[k], secrets[m])
  {
    var n := |secrets| - 1;
    var p, q, before := secrets[k], secrets[n], LiteralPass(x, secrets[..n]);
    var i: nat :| OccursAt(p, LiteralPass(x, secrets), i);
    LeftoverIsFormed(before, p, q, i);
    if CanForm(p, q) {
      m := n;
    } else {
      var j: nat :| OccursAt(p, before, j) && !OccursAt(q, before, j);
      assert k < n;
      m := LeftIsFormed(x, secrets[..n], k);
    }
  }

  /** So a secret that neither its own pass nor a later one can form is left nowhere, whatever
      comes before it. */
  lemma NotFormedIsNotLeft(x: string, secrets: seq<string>, k: nat)
    requires NoneEmpty(secrets) && k < |secrets|
    requires forall m :: k <= m < |secrets| ==> !CanForm(secrets[k], secrets[m])
    ensures !Occurs(secrets[k], LiteralPass(x, secrets))
  {
    if Occurs(secrets[k], LiteralPass(x, secrets)) {
      var m := LeftIsFormed(x, secrets, k);
    }
  }

  // ----- A secret with brackets and a shorter one without -----

  function Both(x: string, p: string, q: string): string
    requires p != "" && q != ""
  {
    ReplaceAll(ReplaceAll(x, p, MARK), q, MARK)
  }

  lemma BothArePass(x: string, p: string, q: string)
    requires p != "" && q != ""
    ensures LiteralPass(x, [p, q]) == Both(x, p, q)
  {
    assert [p, q][..1] == [p] && [p][..0] == [];
    assert LiteralPass(x, [p]) == ReplaceAll(LiteralPass(x, []), p, MARK);
  }

  /** A character of p that q has not got keeps p off the part of the text that is q. */
  lemma KeptOff(p: string, at: nat, front: string, q: string, rest: string, j: nat)
    requires at < |p| && p[at] !in q
    ensures OccursAt(p, front + (q + rest), j) && |front| <= j + at ==> j + at >= |front| + |q|
  {
    var x := front + (q + rest);
    assert OccursAt(p, x, j) ==> x[j..j + |p|][at] == p[at];
    assert |front| <= j + at < |front| + |q| ==> x[j + at] == q[j + at - |front|];
  }

  predicate Token(q: string) {
    Bracketless(q) && |q| >= MIN_SECRET_LEN && q != "REDACTED"
  }

  lemma PartHolds(p: string, q: string, lo: nat, hi: nat)
    requires lo <= hi <= |p|
    ensures Occurs(q, p[lo..hi]) ==> Occurs(q, p)
  {
    if i: nat :| OccursAt(q, p[lo..hi], i) {
      assert p[..hi][lo..] == p[lo..hi];
      OccursBehind(q, p[..hi], lo, i);
      assert p[..hi][lo + i..lo + i + |q|] == p[lo + i..lo + i + |q|];
      assert OccursAt(q, p, lo + i);
    }
  }

  /** p starts in the mark: put q in front of what is missing of p. */
  lemma StartsInTokensMark(p: string, q: string, k: nat) returns (x: string)
    requires Token(q) && |q| <= |p| && !Occurs(q, p)
    requires k < |MARK| && Agree(MARK[k..], p)
    ensures Occurs(p, Both(x, p, q))
  {
    if |MARK| - k <= |p| {
      x := StraddlesTokensMark(p, q, k);
    } else {
      x := q;
        assert !OccursAt(q, p, 0) && p[..] == p && q[..] == q;
      forall j: nat ensures !OccursAt(p, q, j) {
        assert |p| == |q| ==> q[0..0 + |p|] == q && p[0..0 + |q|] == p;
      }
      Unmatched(q, p);
      assert q[|q|..] == "" && ReplaceAll(q, q, MARK) == MARK + "" == MARK;
      Inside(MARK, p, k);
    }
  }

  lemma EndOfMark(p: string, k: nat)
    requires k < |MARK| && MARK[k..] <= p
    ensures |MARK| - k <= |p| && p[|MARK| - k - 1] == ']'
  {
    assert MARK[k..][|MARK| - k - 1] == MARK[|MARK| - 1];
  }

  lemma TokenInFront(p: string, q: string, k: nat)
    requires Bracketless(q) && k < |MARK| && MARK[k..] <= p
    ensures !Occurs(p, q + p[|MARK| - k..])
  {
    EndOfMark(p, k);
    var m := |MARK| - k;
    forall j: nat ensures !OccursAt(p, q + p[m..], j) {
      KeptOff(p, m - 1, "", q, p[m..], j);
      assert "" + (q + p[m..]) == q + p[m..];
    }
  }

  lemma StraddlesTokensMark(p: string, q: string, k: nat) returns (x: string)
    requires Token(q) && !Occurs(q, p)
    requires k < |MARK| && |MARK| - k <= |p| && MARK[k..] <= p
    ensures Occurs(p, Both(x, p, q))
  {
    var rest := p[|MARK| - k..];
    x := q + rest;
    TokenInFront(p, q, k);
    Unmatched(x, p);
    assert rest == p[|MARK| - k..|p|];
    PartHolds(p, q, |MARK| - k, |p|);
    MaskedInFront(q, rest);
    Straddles(MARK, p, k);
    assert OccursAt(p, Both(x, p, q), k);
  }

  lemma MaskedInFront(q: string, rest: string)
    requires q != "" && !Occurs(q, rest)
    ensures ReplaceAll(q + rest, q, MARK) == MARK + rest
  {
    Unmatched(rest, q);
    assert (q + rest)[|q|..] == rest;
  }

  /** p runs into the mark of q: put q where the mark is to come. */
  lemma RunsIntoTokensMark(p: string, q: string, i: nat) returns (x: string)
    requires Token(q) && !Occurs(q, p) && RunsIntoMark(p, q, i)
    ensures Occurs(p, Both(x, p, q))
  {
    var front, rest := p[..i], Remainder(p, i);
    x := front + (q + rest);
    assert p[i] == '[' by { assert p[i..][0] == p[i] && MARK[0] == '['; }
    forall j: nat ensures !OccursAt(p, x, j) {
      KeptOff(p, i, front, q, rest, j);
    }
    Unmatched(x, p);
    NoneBeforeStays(q, front, rest);
    KeptFront(front, q + rest, q);
    RestHasNone(p, q, i);
    MaskedInFront(q, rest);
    FrontThenMark(p, i, MARK, rest);
  }

  lemma RestHasNone(p: string, q: string, i: nat)
    requires q != "" && i <= |p| && !Occurs(q, p)
    ensures !Occurs(q, Remainder(p, i))
  {
    if |MARK| < |p| - i {
      assert Remainder(p, i) == p[i + |MARK|..|p|];
      PartHolds(p, q, i + |MARK|, |p|);
    } else {
      assert forall j: nat :: !OccursAt(q, "", j);
    }
  }

  /** A token does not reach into a mark. */
  lemma TokenMissesMark(q: string, front: string, rest: string)
    requires Token(q) && !Occurs(q, front) && !Occurs(q, rest)
    ensures !Occurs(q, front + (MARK + rest))
  {
    var y := front + (MARK + rest);
    BracketlessIsMarkFree(q);
    assert y[|front|..] == MARK + rest && y[|front|] == '[';
    forall j: nat ensures !OccursAt(q, y, j) {
      if j >= |front| {
        OccursBehind(q, y, |front|, j - |front|);
        if OccursAt(q, MARK + rest, j - |front|) {
          OccursBehindMark(q, rest, j - |front|);
        }
      } else if j + |q| <= |front| {
        assert !OccursAt(q, front, j);
        assert y[j..j + |q|] == front[j..j + |q|];
      } else {
        assert j + |q| <= |y| ==> y[j..j + |q|][|front| - j] == y[|front|];
      }
    }
  }

  /** p runs into its own mark: q then finds nothing to mask. */
  lemma RunsIntoOwnMark(p: string, q: string, i: nat) returns (x: string)
    requires Token(q) && !Occurs(q, p) && RunsIntoMark(p, p, i)
    ensures Occurs(p, Both(x, p, q))
  {
    var front, rest := p[..i], Remainder(p, i);
    x := front + (p + rest);
    NoneBeforeStays(p, front, rest);
    KeptFront(front, p + rest, p);
    MaskedOnce(p, rest);
    RestHasNone(p, q, i);
    assert front == p[0..i];
    PartHolds(p, q, 0, i);
    TokenMissesMark(q, front, rest);
    Unmatched(front + (MARK + rest), q);
    FrontThenMark(p, i, MARK, rest);
  }

  ghost predicate LeftBehind(p: string, q: string, x: string)
    requires p != "" && q != ""
  {
    Occurs(p, LiteralPass(x, [p, q]))
  }

  /** The exact condition for a secret masked before a shorter token: something of it is left on
      some input if and only if one of the two passes can form it and it does not hold the token. */
  lemma PairMaskedExactly(p: string, q: string)
    requires Token(q) && |q| <= |p|
    ensures (exists x :: LeftBehind(p, q, x)) <==> (CanForm(p, p) || CanForm(p, q)) && !Occurs(q, p)
  {
    if x :| LeftBehind(p, q, x) {
      var m := LeftIsFormed(x, [p, q], 0);
      HoldersAreMasked(p, q, x);
    }
    if (CanForm(p, p) || CanForm(p, q)) && !Occurs(q, p) {
      var x := FormedIsLeft(p, q);
      BothArePass(x, p, q);
      assert LeftBehind(p, q, x);
    }
  }

  lemma FormedIsLeft(p: string, q: string) returns (x: string)
    requires Token(q) && |q| <= |p| && (CanForm(p, p) || CanForm(p, q)) && !Occurs(q, p)
    ensures Occurs(p, Both(x, p, q))
  {
    if StartsInMark(p) {
      var k: nat :| k < |MARK| && Agree(MARK[k..], p);
      x := StartsInTokensMark(p, q, k);
    } else if i: nat :| RunsIntoMark(p, q, i) {
      x := RunsIntoTokensMark(p, q, i);
    } else {
      var i: nat :| RunsIntoMark(p, p, i);
      x := RunsIntoOwnMark(p, q, i);
    }
  }

  /** What holds a masked token is not left. */
  lemma HoldersAreMasked(p: string, q: string, x: string)
    requires Token(q) && p != "" && Occurs(p, LiteralPass(x, [p, q]))
    ensures !Occurs(q, p)
  {
    BracketlessIsMarkFree(q);
    LiteralPassIsClean(x, [p, q], q);
    var y := LiteralPass(x, [p, q]);
    var i: nat :| OccursAt(p, y, i);
    PartHolds(y, q, i, i + |p|);
  }
}
