/** internal/logparser/boundedline.go and the read loop of internal/logparser/parser.go:
    splitting container output into lines of bounded length. */
module BoundedLines {
  import opened Prelude

  const NEWLINE: Byte := 10
  const RETURN: Byte := 13

  datatype ReadError = BufferFull | Eof | IoFailure

  // ----- What the newline split of a stream is -----

  /** Position of the first newline, or the length if there is none. */
  function LineEnd(s: Bytes): (n: nat)
    ensures n <= |s| && NEWLINE !in s[..n] && (n < |s| ==> s[n] == NEWLINE)
  {
    if s == [] || s[0] == NEWLINE then 0
    else
      assert forall i :: 0 < i < |s| ==> s[i] == s[1..][i - 1];
      var n := LineEnd(s[1..]) + 1;
      assert s[..n] == [s[0]] + s[1..][..n - 1];
      n
  }

  function Lines(s: Bytes): seq<Bytes>
    decreases |s|
  {
    var n := LineEnd(s);
    if n == |s| then [s] else [s[..n]] + Lines(s[n + 1..])
  }

  function Join(lines: seq<Bytes>): Bytes {
    if lines == [] then []
    else if |lines| == 1 then lines[0]
    else lines[0] + [NEWLINE] + Join(lines[1..])
  }

  predicate NewlineFree(lines: seq<Bytes>) {
    forall i :: 0 <= i < |lines| ==> NEWLINE !in lines[i]
  }

  /** Putting one more line in front. */
  lemma ConsRebuilds(first: Bytes, lines: seq<Bytes>)
    requires lines != [] && NewlineFree(lines) && NEWLINE !in first
    ensures NewlineFree([first] + lines) && Join([first] + lines) == first + [NEWLINE] + Join(lines)
  {
    assert ([first] + lines)[1..] == lines;
  }

  /** The split loses nothing and cuts at every newline. */
  lemma {:induction false} LinesRebuildStream(s: Bytes)
    ensures Lines(s) != [] && NewlineFree(Lines(s)) && Join(Lines(s)) == s
    decreases |s|
  {
    var n := LineEnd(s);
    if n < |s| {
      var first, rest := s[..n], s[n + 1..];
      LinesRebuildStream(rest);
      ConsRebuilds(first, Lines(rest));
      assert s == first + [NEWLINE] + rest;
    } else {
      assert s[..n] == s;
    }
  }

  lemma LineEndUnique(s: Bytes, n: nat)
    requires n <= |s| && NEWLINE !in s[..n] && (n < |s| ==> s[n] == NEWLINE)
    ensures LineEnd(s) == n
  {
    var m := LineEnd(s);
    assert forall i :: 0 <= i < n ==> s[..n][i] == s[i];
    assert forall i :: 0 <= i < m ==> s[..m][i] == s[i];
  }

  lemma FirstLine(line: Bytes, rest: Bytes)
    requires NEWLINE !in line
    ensures var s := line + [NEWLINE] + rest;
            LineEnd(s) == |line| < |s| && s[..|line|] == line && s[|line| + 1..] == rest
    ensures LineEnd(line) == |line| && line[..|line|] == line
  {
    var s := line + [NEWLINE] + rest;
    assert s[..|line|] == line && s[|line| + 1..] == rest;
    LineEndUnique(s, |line|);
    assert line[..|line|] == line;
    LineEndUnique(line, |line|);
  }

  /** It is the only such split: joining any newline-free lines and splitting gives them back. */
  lemma {:induction false} SplitOfJoin(lines: seq<Bytes>)
    requires lines != [] && NewlineFree(lines)
    ensures Lines(Join(lines)) == lines
  {
    var s := Join(lines);
    if |lines| == 1 {
      FirstLine(lines[0], []);
    } else {
      SplitOfJoin(lines[1..]);
      FirstLine(lines[0], Join(lines[1..]));
    }
  }

  // ----- The buffered reader -----

  /** What the loop sees of a bufio.Reader: the bytes still to come and how the stream ends.
      How it is cut into chunks is left open. */
  class Reader {
    var pending: Bytes
    const ending: ReadError

    constructor (stream: Bytes, ending: ReadError)
      ensures pending == stream && this.ending == ending
    {
      pending := stream;
      this.ending := ending;
    }

    method ReadSlice() returns (chunk: Bytes, e: Option<ReadError>)
      requires ending != BufferFull
      modifies this
      ensures chunk + pending == old(pending)
      ensures e == None ==> chunk != [] && chunk[|chunk| - 1] == NEWLINE && NEWLINE !in chunk[..|chunk| - 1]
      ensures e != None ==> NEWLINE !in chunk
      ensures e == Some(BufferFull) ==> chunk != []
      ensures e != None && e != Some(BufferFull) ==> e == Some(ending) && pending == []
    {
      var n := LineEnd(pending);
      var cut: nat :| cut <= n;
      if 0 < cut {
        // The buffer filled up before the line ended.
        chunk, e := pending[..cut], Some(BufferFull);
        assert forall b :: b in chunk ==> b in pending[..n];
      } else if n < |pending| {
        cut := n + 1;
        chunk, e := pending[..cut], None;
        assert chunk[..n] == pending[..n];
      } else {
        cut := n;
        chunk, e := pending, Some(ending);
        assert chunk == pending[..n];
      }
      pending := pending[cut..];
    }
  }

  /** The bytes of a line that are kept. */
  function Clip(line: Bytes, maxBytes: int): Bytes {
    line[..Min(|line|, Max(maxBytes, 0))]
  }

  lemma ClipGrows(content: Bytes, piece: Bytes, maxBytes: int)
    ensures |content| > maxBytes >= 0 || (|content| > 0 && maxBytes < 0) ==>
              Clip(content + piece, maxBytes) == Clip(content, maxBytes)
    ensures content == [] || |content| <= maxBytes ==>
              Clip(content + piece, maxBytes)
              == content + piece[..Min(|piece|, Max(maxBytes - |content|, 0))]
  {
  }

  /** A chunk is its line content and perhaps the newline; either way the stream splits there. */
  lemma Regroup(content: Bytes, chunk: Bytes, piece: Bytes, pending: Bytes)
    requires NEWLINE !in content && NEWLINE !in piece
    ensures NEWLINE !in content + piece
    ensures chunk == piece ==> content + (chunk + pending) == (content + piece) + pending
    ensures chunk == piece + [NEWLINE] ==> content + (chunk + pending) == (content + piece) + [NEWLINE] + pending
  {
  }

  /** One call consumes exactly one line of the stream, however it was chunked: `content` is
      the stream up to the first newline (see FirstLine), the result is its first maxBytes
      bytes, flagged if and only if the line is longer. */
  method ReadBoundedLine(r: Reader, maxBytes: int)
    returns (line: Bytes, truncated: bool, err: Option<ReadError>, ghost content: Bytes)
    requires r.ending != BufferFull
    modifies r
    ensures NEWLINE !in content
    ensures err == None ==> old(r.pending) == content + [NEWLINE] + r.pending
    ensures err != None ==> err == Some(r.ending) && old(r.pending) == content && r.pending == []
    ensures line == Clip(content, maxBytes) && (truncated <==> |content| > maxBytes)
    ensures line <= content && |line| == Min(|content|, Max(maxBytes, 0))
  {
    ghost var s := r.pending;
    content := [];
    line, truncated := [], false;
    while true
      invariant s == content + r.pending && NEWLINE !in content
      invariant line == Clip(content, maxBytes)
      invariant if truncated then |content| > maxBytes else line == content && (content == [] || |content| <= maxBytes)
      invariant truncated ==> content != [] || maxBytes < 0
      decreases |r.pending|
    {
      var chunk, e := r.ReadSlice();
      var contentLen := |chunk|;
      if e == None && contentLen > 0 && chunk[contentLen - 1] == NEWLINE {
        contentLen := contentLen - 1;
      }
      ghost var piece := chunk[..contentLen];
      assert if e == None then chunk == piece + [NEWLINE] else chunk == piece;
      ClipGrows(content, piece, maxBytes);
      if !truncated {
        var avail := maxBytes - |line|;
        if contentLen > avail {
          if avail > 0 {
            line := line + chunk[..avail];
          }
          truncated := true;
        } else {
          line := line + chunk[..contentLen];
        }
      }
      Regroup(content, chunk, piece, r.pending);
      content := content + piece;
      match e {
        case None =>
          err := None;
          return;
        case Some(BufferFull) => continue;
        case Some(_) =>
          assert content + r.pending == content;
          err := e;
          return;
      }
    }
  }

  // ----- The parser's read loop -----

  datatype Event =
    | Line(text: Bytes)   // handed to processLine
    | Oversize            // the "dropped oversized line" notice
    | ReadFailed          // the "stream read terminated" notice

  function TrimRight(line: Bytes): Bytes {
    if line != [] && (line[|line| - 1] == NEWLINE || line[|line| - 1] == RETURN)
    then TrimRight(line[..|line| - 1])
    else line
  }

  /** strings.TrimRight(line, "\r\n"): what goes is the longest tail of line ends. */
  lemma {:induction false} TrimRightExactly(line: Bytes)
    ensures var kept := TrimRight(line);
            && kept <= line
            && (forall i :: |kept| <= i < |line| ==> line[i] == 10 || line[i] == 13)
            && (kept != [] ==> kept[|kept| - 1] != 10 && kept[|kept| - 1] != 13)
  {
    if line != [] && (line[|line| - 1] == NEWLINE || line[|line| - 1] == RETURN) {
      TrimRightExactly(line[..|line| - 1]);
    }
  }

  function LineEvents(line: Bytes, maxBytes: int): seq<Event> {
    if |line| > maxBytes then [Oversize]
    else if line == [] then []
    else [Line(TrimRight(line))]
  }

  function AllEvents(lines: seq<Bytes>, maxBytes: int): seq<Event> {
    if lines == [] then [] else LineEvents(lines[0], maxBytes) + AllEvents(lines[1..], maxBytes)
  }

  /** Handling the first line of a stream s and then the rest handles all of s. */
  lemma HandleFirst(s: Bytes, content: Bytes, rest: Bytes, done: seq<Event>, maxBytes: int)
    requires NEWLINE !in content
    ensures s == content + [NEWLINE] + rest ==>
              done + AllEvents(Lines(s), maxBytes)
              == (done + LineEvents(content, maxBytes)) + AllEvents(Lines(rest), maxBytes)
    ensures s == content ==> done + AllEvents(Lines(s), maxBytes) == done + LineEvents(content, maxBytes)
  {
    FirstLine(content, rest);
    assert Lines(content + [NEWLINE] + rest)[1..] == Lines(rest);
    assert Lines(content) == [content] && [content][1..] == [];
    assert AllEvents([], maxBytes) == [];
  }

  /** The loop handles every line of the stream in order, the unterminated last one included,
      and ends with a failure notice exactly when the stream did not end at EOF. */
  method ProcessStream(r: Reader, maxBytes: nat) returns (events: seq<Event>)
    requires r.ending != BufferFull
    modifies r
    ensures events == AllEvents(Lines(old(r.pending)), maxBytes)
                      + if r.ending == Eof then [] else [ReadFailed]
  {
    ghost var all := AllEvents(Lines(r.pending), maxBytes);
    events := [];
    while true
      invariant all == events + AllEvents(Lines(r.pending), maxBytes)
      decreases |r.pending|
    {
      ghost var before, pending := events, r.pending;
      var line, truncated, readErr, content := ReadBoundedLine(r, maxBytes);
      HandleFirst(pending, content, r.pending, before, maxBytes);
      assert !truncated ==> line == content by { assert content[..|content|] == content; }
      if truncated {
        events := events + [Oversize];
      } else if |line| > 0 {
        events := events + [Line(TrimRight(line))];
      }
      assert events == before + LineEvents(content, maxBytes);
      if readErr == None {
        continue;
      }
      if readErr == Some(Eof) {
        return;
      }
      events := events + [ReadFailed];
      return;
    }
  }

  function Count(events: seq<Event>, e: Event): nat {
    if events == [] then 0 else (if events[0] == e then 1 else 0) + Count(events[1..], e)
  }

  function CountLonger(lines: seq<Bytes>, maxBytes: int): nat {
    if lines == [] then 0 else (if |lines[0]| > maxBytes then 1 else 0) + CountLonger(lines[1..], maxBytes)
  }

  function Handed(events: seq<Event>): seq<Bytes> {
    if events == [] then []
    else (if events[0].Line? then [events[0].text] else []) + Handed(events[1..])
  }

  function Readable(lines: seq<Bytes>, maxBytes: int): seq<Bytes> {
    if lines == [] then []
    else (if 0 < |lines[0]| <= maxBytes then [TrimRight(lines[0])] else []) + Readable(lines[1..], maxBytes)
  }

  /** Exactly one oversize notice per over-long line, and every other non-empty line is handed
      to the parser once, in stream order. */
  lemma {:induction false} EventsAccountForLines(lines: seq<Bytes>, maxBytes: nat)
    ensures Count(AllEvents(lines, maxBytes), Oversize) == CountLonger(lines, maxBytes)
    ensures Count(AllEvents(lines, maxBytes), ReadFailed) == 0
    ensures Handed(AllEvents(lines, maxBytes)) == Readable(lines, maxBytes)
  {
    if lines != [] {
      EventsAccountForLines(lines[1..], maxBytes);
      var first, rest := LineEvents(lines[0], maxBytes), AllEvents(lines[1..], maxBytes);
      if first != [] {
        assert (first + rest)[1..] == rest;
      } else {
        assert first + rest == rest;
      }
    }
  }
}
