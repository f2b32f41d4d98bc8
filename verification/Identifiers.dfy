/** The validated identifier character set (internal/webhook/validate.go) and what it buys:
    composite string keys can be taken apart again. */
module Identifiers {

  predicate IsIdentChar(c: char) {
    'A' <= c <= 'Z' || 'a' <= c <= 'z' || '0' <= c <= '9' || c == '_' || c == '.' || c == '-'
  }

  /** project, card_id and session_id after validation. */
  predicate IsIdent(s: string) {
    1 <= |s| <= 64 && s[0] != '-' && forall i :: 0 <= i < |s| ==> IsIdentChar(s[i])
  }

  /** A non-empty message_id after validation. */
  predicate IsMessageId(s: string) {
    1 <= |s| <= 128 && forall i :: 0 <= i < |s| ==> IsIdentChar(s[i])
  }

  /** A card's container or a chat session. */
  datatype Target = Card(project: string, cardId: string) | Chat(sessionId: string) {
    predicate Valid() {
      match this
      case Card(project, cardId) => IsIdent(project) && IsIdent(cardId)
      case Chat(sessionId) => IsIdent(sessionId)
    }
  }

  /** A separator that cannot occur before it splits a string in only one way. */
  lemma SplitUnique(a: string, b: string, c: string, d: string, separator: char)
    requires a + [separator] + b == c + [separator] + d
    requires separator !in a && separator !in c
    ensures a == c && b == d
  {
    var s := a + [separator] + b;
    assert s[|a|] == separator && s[|c|] == separator;
    assert s[..|a|] == a && s[..|c|] == c;
    assert s[|a| + 1..] == b && s[|c| + 1..] == d;
  }
}
