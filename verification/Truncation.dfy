/** internal/logbroadcast/broadcaster.go, the first half of Publish: cutting over-long
    content at a rune boundary. */
module Truncation {
  import opened Prelude

  const MAX_LOG_ENTRY_CONTENT_BYTES: nat := 65536

  /** An ellipsis and "[truncated]". */
  const TRUNCATED_MARKER: Bytes :=
    [0xE2, 0x80, 0xA6, 0x5B, 0x74, 0x72, 0x75, 0x6E, 0x63, 0x61, 0x74, 0x65, 0x64, 0x5D]

  const HEAD: nat := MAX_LOG_ENTRY_CONTENT_BYTES - |TRUNCATED_MARKER|

  // ----- Valid UTF-8, by the grammar in section 4 of RFC 3629 -----

  predicate IsTail(b: Byte) {
    0x80 <= b <= 0xBF
  }

  /** The second byte a leading byte of a 3- or 4-byte character allows. */
  predicate AllowsSecond(lead: Byte, second: Byte) {
    IsTail(second)
    && (lead == 0xE0 ==> second >= 0xA0)
    && (lead == 0xED ==> second <= 0x9F)
    && (lead == 0xF0 ==> second >= 0x90)
    && (lead == 0xF4 ==> second <= 0x8F)
  }

  /** Length of the character at the front, 0 if there is none. */
  function CharLen(s: Bytes): (n: nat)
    ensures n <= 4 && n <= |s|
    ensures n > 0 ==> !IsTail(s[0]) && forall i :: 0 < i < n ==> IsTail(s[i])
  {
    if s == [] then 0
    else if s[0] <= 0x7F then 1
    else if 0xC2 <= s[0] <= 0xDF && |s| >= 2 && IsTail(s[1]) then 2
    else if 0xE0 <= s[0] <= 0xEF && |s| >= 3 && AllowsSecond(s[0], s[1]) && IsTail(s[2]) then 3
    else if 0xF0 <= s[0] <= 0xF4 && |s| >= 4 && AllowsSecond(s[0], s[1]) && IsTail(s[2]) && IsTail(s[3]) then 4
    else 0
  }

  predicate ValidUtf8(s: Bytes)
    decreases |s|
  {
    s == [] || (CharLen(s) > 0 && ValidUtf8(s[CharLen(s)..]))
  }

  /** utf8.RuneStart. */
  predicate RuneStart(b: Byte) {
    !IsTail(b)
  }

  /** The first character is decided by its own bytes. */
  lemma CharLenLocal(s: Bytes, t: Bytes)
    requires CharLen(s) > 0 && CharLen(s) <= |t| && s[..CharLen(s)] == t[..CharLen(s)]
    ensures CharLen(t) == CharLen(s)
  {
    var n := CharLen(s);
    forall i | 0 <= i < n ensures s[i] == t[i] {
      assert s[i] == s[..n][i] && t[i] == t[..n][i];
    }
  }

  lemma {:induction false} ConcatValid(a: Bytes, b: Bytes)
    requires ValidUtf8(a) && ValidUtf8(b)
    ensures ValidUtf8(a + b)
    decreases |a|
  {
    if a == [] {
      assert a + b == b;
    } else {
      var n := CharLen(a);
      assert (a + b)[..n] == a[..n];
      CharLenLocal(a, a + b);
      assert (a + b)[n..] == a[n..] + b;
      ConcatValid(a[n..], b);
    }
  }

  /** In valid text the positions before a rune start are exactly the cuts that leave valid text. */
  lemma {:induction false} CutIsValidExactly(s: Bytes, cut: nat)
    requires ValidUtf8(s) && cut < |s|
    ensures ValidUtf8(s[..cut]) <==> RuneStart(s[cut])
    decreases |s|
  {
    var n := CharLen(s);
    var p := s[..cut];
    if cut >= n {
      assert p[..n] == s[..n];
      CharLenLocal(s, p);
      assert p[n..] == s[n..][..cut - n] && s[n..][cut - n] == s[cut];
      CutIsValidExactly(s[n..], cut - n);
    } else if cut > 0 {
      ShortIsInvalid(s, p);
    }
  }

  /** A proper part of the first character is not a character. */
  lemma ShortIsInvalid(s: Bytes, p: Bytes)
    requires 0 < |p| < CharLen(s) && p == s[..|p|]
    ensures !ValidUtf8(p)
  {
    assert p[0] == s[0];
  }

  lemma {:induction false} RuneStartNearby(s: Bytes, i: nat)
    requires ValidUtf8(s) && i < |s|
    ensures exists p: nat :: i - 3 <= p <= i && RuneStart(s[p])
    decreases |s|
  {
    var n := CharLen(s);
    if i < n {
      assert i <= 3 && RuneStart(s[0]);
    } else {
      RuneStartNearby(s[n..], i - n);
      var p: nat :| i - n - 3 <= p <= i - n && RuneStart(s[n..][p]);
      assert s[n..][p] == s[n + p];
    }
  }

  // ----- The cut -----

  /** Where backing off from position i ends: the last rune start up to i, or 0. */
  function CutPoint(s: Bytes, i: nat): (cut: nat)
    requires i < |s|
    ensures cut <= i && (cut == 0 || RuneStart(s[cut]))
    ensures forall k :: cut < k <= i ==> !RuneStart(s[k])
  {
    if i == 0 || RuneStart(s[i]) then i else CutPoint(s, i - 1)
  }

  /** What subscribers get to see of an entry's content. */
  function Truncated(content: Bytes): (out: Bytes)
    ensures |out| <= MAX_LOG_ENTRY_CONTENT_BYTES
  {
    if |content| <= MAX_LOG_ENTRY_CONTENT_BYTES then content
    else content[..CutPoint(content, HEAD)] + TRUNCATED_MARKER
  }

  ghost predicate IsCutAt(content: Bytes, out: Bytes, cut: nat) {
    && |content| > 65522 >= cut
    && out == content[..cut] + [0xE2, 0x80, 0xA6, 0x5B, 0x74, 0x72, 0x75, 0x6E, 0x63, 0x61, 0x74, 0x65, 0x64, 0x5D]
    && (cut == 0 || !(0x80 <= content[cut] <= 0xBF))
    && (forall k :: cut < k <= 65522 ==> 0x80 <= content[k] <= 0xBF)
  }

  lemma TruncatedIsCut(content: Bytes)
    requires |content| > 65536
    ensures IsCutAt(content, Truncated(content), CutPoint(content, HEAD))
  {
  }

  /** Content of up to 64 KiB is left alone.  Of longer content the longest part of the first
      65522 bytes is kept that ends before a byte other than a continuation byte; an ellipsis and
      "[truncated]" follow. */
  method TruncateContent(content: Bytes) returns (out: Bytes)
    ensures out == Truncated(content)
    ensures |content| <= 65536 ==> out == content
    ensures |content| > 65536 ==> exists cut :: IsCutAt(content, out, cut)
  {
    if |content| > MAX_LOG_ENTRY_CONTENT_BYTES {
      TruncatedIsCut(content);
    }
    out := content;
    if |content| > MAX_LOG_ENTRY_CONTENT_BYTES {
      if 0 < HEAD < |content| {
        var cut := HEAD;
        while cut > 0 && !RuneStart(content[cut])
          invariant 0 <= cut <= HEAD
          invariant CutPoint(content, cut) == CutPoint(content, HEAD)
        {
          cut := cut - 1;
        }
        out := content[..cut] + TRUNCATED_MARKER;
      } else {
        out := TRUNCATED_MARKER;
      }
    }
  }

  lemma MarkerIsValid()
    ensures ValidUtf8(TRUNCATED_MARKER)
  {
    var ascii := TRUNCATED_MARKER[3..];
    assert CharLen(TRUNCATED_MARKER) == 3;
    AsciiIsValid(ascii);
  }

  lemma {:induction false} AsciiIsValid(s: Bytes)
    requires forall i :: 0 <= i < |s| ==> s[i] <= 0x7F
    ensures ValidUtf8(s)
  {
    if s != [] {
      AsciiIsValid(s[1..]);
    }
  }

  /** Truncating valid UTF-8 gives valid UTF-8; the back-off gives up at most three bytes, and
      no longer prefix of the input that fits would have been valid. */
  lemma TruncationIsValid(content: Bytes)
    requires ValidUtf8(content) && |content| > MAX_LOG_ENTRY_CONTENT_BYTES
    ensures var cut := CutPoint(content, HEAD);
            && Truncated(content) == content[..cut] + TRUNCATED_MARKER
            && ValidUtf8(Truncated(content))
            && HEAD - 3 <= cut <= HEAD
            && forall longer :: cut < longer <= HEAD ==> !ValidUtf8(content[..longer])
  {
    var cut := CutPoint(content, HEAD);
    RuneStartNearby(content, HEAD);
    var p: nat :| HEAD - 3 <= p <= HEAD && RuneStart(content[p]);
    assert p <= cut;
    CutIsValidExactly(content, cut);
    MarkerIsValid();
    ConcatValid(content[..cut], TRUNCATED_MARKER);
    forall longer | cut < longer <= HEAD ensures !ValidUtf8(content[..longer]) {
      CutIsValidExactly(content, longer);
    }
  }
}
