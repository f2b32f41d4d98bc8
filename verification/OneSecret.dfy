/** internal/logparser/parser.go: exactly which secrets strings.ReplaceAll can leave behind when it
    masks them, brackets and all. */
module OneSecret {
  import opened Redaction

  /** No occurrence of p in y before position i. */
  ghost predicate NoneBefore(p: string, y: string, i: nat) {
    forall j: nat :: j < i ==> !OccursAt(p, y, j)
  }

  /** The mark can supply the start of the secret, or the whole of it. */
  ghost predicate StartsInMark(p: string) {
    exists k: nat :: k < |MARK| && Agree(MARK[k..], p)
  }

  /** The mark put in for q can supply what follows the first i characters of p, when these can
      stand in front of q without q being found any earlier. */
  ghost predicate RunsIntoMark(p: string, q: string, i: nat) {
    0 < i < |p| && Agree(p[i..], MARK) && NoneBefore(q, p[..i] + q, i)
  }

  /** Masking q can form p. */
  ghost predicate CanForm(p: string, q: string) {
    StartsInMark(p) || exists i: nat :: RunsIntoMark(p, q, i)
  }

  /** Masking p can leave p behind. */
  ghost predicate Survives(p: string) {
    CanForm(p, p)
  }

  // ----- Where a scan finds its first match -----

  lemma {:induction false} TooShort(x: string, p: string)
    requires |x| < |p|
    ensures ReplaceAll(x, p, MARK) == x
  {
    if x != "" {
      TooShort(x[1..], p);
    }
  }

  lemma {:induction false} KeptFront(a: string, b: string, p: string)
    requires p != "" && NoneBefore(p, a + b, |a|)
    ensures ReplaceAll(a + b, p, MARK) == a + ReplaceAll(b, p, MARK)
  {
    if a == "" {
      assert a + b == b;
    } else {
      assert !OccursAt(p, a + b, 0);
      assert (a + b)[1..] == a[1..] + b;
      forall j: nat | j < |a[1..]| ensures !OccursAt(p, a[1..] + b, j) {
        assert !OccursAt(p, a + b, j + 1);
        OccursBehind(p, a + b, 1, j);
      }
      KeptFront(a[1..], b, p);
      assert (a + b)[0] == a[0] && a == [a[0]] + a[1..];
    }
  }

  /** Either nothing matches, or the first match stands behind the kept text `a`. */
  lemma {:induction false} FirstMatch(x: string, p: string) returns (found: bool, a: string, b: string)
    requires p != ""
    ensures !found ==> ReplaceAll(x, p, MARK) == x
    ensures found ==>
              && x == a + (p + b) && NoneBefore(p, x, |a|)
              && ReplaceAll(x, p, MARK) == a + (MARK + ReplaceAll(b, p, MARK))
  {
    if x == "" {
      found, a, b := false, "", "";
    } else if p <= x {
      found, a, b := true, "", x[|p|..];
      assert x == "" + (p + b);
    } else {
      found, a, b := FirstMatch(x[1..], p);
      if found {
        NoneBeforeNext(p, x, |a|);
        FirstMatchNext(x, x[1..], a, p + b);
        FirstMatchNext(ReplaceAll(x, p, MARK), ReplaceAll(x[1..], p, MARK), a, MARK + ReplaceAll(b, p, MARK));
        a := [x[0]] + a;
      }
    }
  }

  lemma NoneBeforeNext(p: string, x: string, i: nat)
    requires x != "" && !(p <= x) && NoneBefore(p, x[1..], i)
    ensures NoneBefore(p, x, i + 1)
  {
    forall j: nat | j < i + 1 ensures !OccursAt(p, x, j) {
      if j > 0 {
        OccursBehind(p, x, 1, j - 1);
      }
    }
  }

  lemma FirstMatchNext(x: string, rest: string, a: string, b: string)
    requires x != "" && x == [x[0]] + rest && rest == a + b
    ensures x == ([x[0]] + a) + b
  {
  }

  // ----- A secret that survives -----

  lemma MaskedOnce(p: string, rest: string)
    requires |rest| < |p|
    ensures ReplaceAll(p + rest, p, MARK) == MARK + rest
  {
    TooShort(rest, p);
    assert (p + rest)[|p|..] == rest;
  }

  /** A string of which the text has the first part in `mark` and what is left behind it. */
  lemma Straddles(mark: string, p: string, k: nat)
    requires k < |mark| && mark[k..] <= p
    ensures OccursAt(p, mark + p[|mark| - k..], k)
  {
    var m := |mark| - k;
    var y := mark + p[m..];
    assert y[k..] == mark[k..] + p[m..];
    assert mark[k..] == p[..m] && p == p[..m] + p[m..];
    assert y[k..k + |p|] == y[k..];
  }

  lemma Inside(mark: string, p: string, k: nat)
    requires k < |mark| && p <= mark[k..]
    ensures OccursAt(p, mark, k)
  {
    assert mark[k..k + |p|] == mark[k..][..|p|];
  }

  lemma StartsInMarkSurvives(p: string, k: nat) returns (x: string)
    requires p != "" && k < |MARK| && Agree(MARK[k..], p)
    ensures OccursAt(p, ReplaceAll(x, p, MARK), k)
  {
    if MARK[k..] <= p {
      x := p + p[|MARK| - k..];
      MaskedOnce(p, p[|MARK| - k..]);
      Straddles(MARK, p, k);
    } else {
      x := p;
      MaskedOnce(p, "");
      assert p + "" == p && MARK + "" == MARK;
      Inside(MARK, p, k);
    }
  }

  /** What follows the secret in the text that makes it survive. */
  function Remainder(p: string, i: nat): string
    requires i <= |p|
  {
    if |MARK| < |p| - i then p[i + |MARK|..] else ""
  }

  lemma FrontThenMark(p: string, i: nat, mark: string, rest: string)
    requires i < |p|
    requires if |mark| < |p| - i then mark <= p[i..] && rest == p[i + |mark|..] else p[i..] <= mark
    ensures OccursAt(p, p[..i] + (mark + rest), 0)
  {
    var y := p[..i] + (mark + rest);
    if |mark| < |p| - i {
      assert p[i..] == mark + p[i..][|mark|..] && p[i..][|mark|..] == rest;
      assert y == p;
    } else {
      assert y[..|p|] == p[..i] + mark[..|p| - i] && mark[..|p| - i] == p[i..];
    }
    assert y[0..0 + |p|] == y[..|p|];
  }

  lemma NoneBeforeStays(q: string, front: string, rest: string)
    requires NoneBefore(q, front + q, |front|)
    ensures NoneBefore(q, front + (q + rest), |front|)
  {
    var x := front + (q + rest);
    forall j: nat | j < |front| ensures !OccursAt(q, x, j) {
      assert !OccursAt(q, front + q, j);
      assert x[..|front| + |q|] == front + q;
      assert x[j..j + |q|] == (front + q)[j..j + |q|];
    }
  }

  lemma RunsIntoMarkSurvives(p: string, i: nat) returns (x: string)
    requires RunsIntoMark(p, p, i)
    ensures OccursAt(p, ReplaceAll(x, p, MARK), 0)
  {
    var front, rest := p[..i], Remainder(p, i);
    x := front + (p + rest);
    NoneBeforeStays(p, front, rest);
    KeptFront(front, p + rest, p);
    MaskedOnce(p, rest);
    FrontThenMark(p, i, MARK, rest);
  }

  // ----- And no other does -----

  lemma StartsInKept(x: string, p: string, q: string)
    requires q != "" && OccursAt(p, ReplaceAll(x, q, MARK), 0) && !OccursAt(p, x, 0) && !(q <= x)
    ensures CanForm(p, q)
  {
    var found, a, b := FirstMatch(x, q);
    assert found;
    var rest := MARK + ReplaceAll(b, q, MARK);
    KeptTooShort(x, p, a, q + b, rest);
    var i := |a|;
    assert a == p[..i] && p[i..] <= rest by {
      assert (a + rest)[..|p|] == p && (a + rest)[..i] == a && (a + rest)[i..] == rest;
      assert p[i..] == rest[..|p| - i];
    }
    PrefixesAgree(p[i..], MARK, rest);
    assert i > 0;
    forall j: nat | j < i ensures !OccursAt(q, p[..i] + q, j) {
      assert !OccursAt(q, x, j);
      assert x[..i + |q|] == a + q;
      assert j + |q| <= i + |q| ==> (a + q)[j..j + |q|] == x[j..j + |q|];
    }
    assert RunsIntoMark(p, q, i);
  }

  /** The secret cannot be all kept text, or it would have been there before. */
  lemma KeptTooShort(x: string, p: string, a: string, b: string, rest: string)
    requires x == a + b && !OccursAt(p, x, 0) && OccursAt(p, a + rest, 0)
    ensures |a| < |p|
  {
    var n := if |p| <= |a| then |p| else |a|;
    assert x[..n] == a[..n] == (a + rest)[..n];
  }

  /** p stands in x, and where it does there is no q. */
  ghost predicate Stands(p: string, q: string, x: string) {
    exists j: nat :: OccursAt(p, x, j) && !OccursAt(q, x, j)
  }

  /** Whatever is found after masking q was there before or can be formed by it. */
  lemma {:induction false} LeftoverIsFormed(x: string, p: string, q: string, i: nat)
    requires q != "" && OccursAt(p, ReplaceAll(x, q, MARK), i)
    ensures CanForm(p, q) || Stands(p, q, x)
  {
    var y := ReplaceAll(x, q, MARK);
    if x == "" {
      assert p == "" && OccursAt(p, x, 0);
    } else if q <= x {
      var rest := ReplaceAll(x[|q|..], q, MARK);
      OverlapAgrees(p, rest, i);
      if i >= |MARK| {
        assert y[|MARK|..] == rest;
        OccursBehind(p, y, |MARK|, i - |MARK|);
        LeftoverIsFormed(x[|q|..], p, q, i - |MARK|);
        StandsBehind(p, q, x, |q|);
      }
    } else if i == 0 {
      if OccursAt(p, x, 0) {
        assert !OccursAt(q, x, 0);
      } else {
        StartsInKept(x, p, q);
      }
    } else {
      assert y[1..] == ReplaceAll(x[1..], q, MARK);
      OccursBehind(p, y, 1, i - 1);
      LeftoverIsFormed(x[1..], p, q, i - 1);
      StandsBehind(p, q, x, 1);
    }
  }

  lemma StandsBehind(p: string, q: string, x: string, width: nat)
    requires width <= |x|
    ensures Stands(p, q, x[width..]) ==> Stands(p, q, x)
  {
    if j: nat :| OccursAt(p, x[width..], j) && !OccursAt(q, x[width..], j) {
      OccursBehind(p, x, width, j);
      OccursBehind(q, x, width, j);
      assert OccursAt(p, x, width + j) && !OccursAt(q, x, width + j);
    }
  }

  /** Something of the secret is left in the masked text. */
  ghost predicate LeftIn(p: string, x: string)
    requires p != ""
  {
    Occurs(p, ReplaceAll(x, p, MARK))
  }

  lemma SurvivorSurvives(p: string) returns (x: string, i: nat)
    requires p != "" && Survives(p)
    ensures OccursAt(p, ReplaceAll(x, p, MARK), i)
  {
    if StartsInMark(p) {
      i :| i < |MARK| && Agree(MARK[i..], p);
      x := StartsInMarkSurvives(p, i);
    } else {
      i :| RunsIntoMark(p, p, i);
      x := RunsIntoMarkSurvives(p, i);
      i := 0;
    }
  }

  /** The exact condition for one secret: masking it leaves no occurrence on any input, if and
      only if the mark can neither start nor continue it. */
  lemma MaskedExactly(p: string)
    requires p != ""
    ensures (forall x :: !LeftIn(p, x)) <==> !Survives(p)
  {
    if Survives(p) {
      var x, i := SurvivorSurvives(p);
      assert LeftIn(p, x);
    } else {
      forall x ensures !LeftIn(p, x) {
        forall i: nat | OccursAt(p, ReplaceAll(x, p, MARK), i) ensures false {
          LeftoverIsFormed(x, p, p, i);
        }
      }
    }
  }

  /** Being free of the mark is enough, whatever is masked, but with brackets not needed. */
  lemma MarkFreeIsEnough(p: string, q: string)
    requires p != "" && MarkFree(p)
    ensures !CanForm(p, q)
  {
  }

  lemma MarkFreeIsNotNeeded()
    ensures !MarkFree("[[[[[[[[") && !Survives("[[[[[[[[")
  {
    var p := "[[[[[[[[";
    assert p[7..] == "[" && Agree(p[7..], MARK);
    forall k: nat | k < |MARK| ensures !Agree(MARK[k..], p) {
      assert MARK[k..][0] == MARK[k] && p[0] == '[' && p[1] == '[' && MARK[1] == 'R';
      if k == 0 {
        assert MARK[0..][1] == 'R';
      }
    }
    forall i: nat ensures !RunsIntoMark(p, p, i) {
      if 0 < i < 7 {
        assert p[i..][1] == '[' && MARK[1] == 'R';
      } else if i == 7 {
        assert OccursAt(p, p[..7] + p, 0);
      }
    }
  }
}
