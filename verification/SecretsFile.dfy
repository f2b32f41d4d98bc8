/** internal/container/secrets_refresher.go: rendering the shared secrets file, and reading
    it the way a POSIX shell does.  One char stands for one byte. */
module SecretsFile {
  import opened Prelude

  datatype Error = StaticCMGitTokenForbidden | InvalidTokenChars | InvalidStaticSecretChars
  datatype Result<+T> = Ok(value: T) | Err(error: Error)

  datatype Binding = Binding(name: string, value: string)

  const CM_GIT_TOKEN := "CM_GIT_TOKEN"
  const QUOTE := '\''
  const BACKSLASH := '\\'
  const NEWLINE := '\n'
  const EXPORT := "export "

  // ----- Rendering -----

  predicate IsTokenChar(c: char) {
    'A' <= c <= 'Z' || 'a' <= c <= 'z' || '0' <= c <= '9' || c == '_' || c == '-'
  }

  predicate IsTokenValid(token: string) {
    forall i :: 0 <= i < |token| ==> IsTokenChar(token[i])
  }

  predicate IsValidStaticSecret(v: string) {
    forall i :: 0 <= i < |v| ==> ' ' <= v[i] <= '~'
  }

  /** Replaces every quote by: close, escaped quote, open. */
  function ShellSingleQuoteEscape(s: string): string {
    if s == "" then ""
    else (if s[0] == QUOTE then [QUOTE, BACKSLASH, QUOTE, QUOTE] else [s[0]]) + ShellSingleQuoteEscape(s[1..])
  }

  function RenderLine(b: Binding): string {
    EXPORT + (b.name + ['='] + ([QUOTE] + ShellSingleQuoteEscape(b.value) + [QUOTE, NEWLINE]))
  }

  function RenderAll(bindings: seq<Binding>): string {
    if bindings == [] then "" else RenderLine(bindings[0]) + RenderAll(bindings[1..])
  }

  // ----- Byte order on names -----

  predicate Less(a: string, b: string) {
    b != "" && (a == "" || a[0] < b[0] || (a[0] == b[0] && Less(a[1..], b[1..])))
  }

  lemma {:induction false} LessTrichotomy(a: string, b: string)
    ensures a == b || Less(a, b) || Less(b, a)
    ensures !Less(a, a)
  {
    if a != "" {
      LessTrichotomy(a[1..], if b == "" then "" else b[1..]);
      if b != "" && a[0] == b[0] {
        assert a == [a[0]] + a[1..] && b == [b[0]] + b[1..];
      }
    }
  }

  lemma {:induction false} LessTransitive(a: string, b: string, c: string)
    requires Less(a, b) && Less(b, c)
    ensures Less(a, c)
  {
    if a != "" && a[0] == b[0] && b[0] == c[0] {
      LessTransitive(a[1..], b[1..], c[1..]);
    }
  }

  ghost predicate Ascending(names: seq<string>) {
    forall i, j :: 0 <= i < j < |names| ==> Less(names[i], names[j])
  }

  /** The sorted list of a set of names is determined by the set. */
  lemma {:induction false} AscendingUnique(a: seq<string>, b: seq<string>)
    requires Ascending(a) && Ascending(b)
    requires forall k :: k in a <==> k in b
    ensures a == b
  {
    assert (a != [] ==> a[0] in a) && (b != [] ==> b[0] in b);
    if a != [] {
      assert a[0] in b;
      var i :| 0 <= i < |b| && b[i] == a[0];
      assert b[0] in a;
      var j :| 0 <= j < |a| && a[j] == b[0];
      if 0 < i && 0 < j {
        LessTransitive(a[0], b[0], a[0]);
        LessTrichotomy(a[0], a[0]);
      }
      assert a[0] == b[0];
      forall k ensures k in a[1..] <==> k in b[1..] {
        TailMembers(a, k);
        TailMembers(b, k);
      }
      AscendingUnique(a[1..], b[1..]);
    }
  }

  lemma TailMembers(names: seq<string>, k: string)
    requires Ascending(names) && names != []
    ensures k in names[1..] <==> k in names && k != names[0]
  {
    LessTrichotomy(names[0], names[0]);
    assert names == [names[0]] + names[1..];
  }

  // ----- Reading the file back -----

  predicate IsName(s: string) {
    && s != "" && !('0' <= s[0] <= '9')
    && forall i :: 0 <= i < |s| ==> 'A' <= s[i] <= 'Z' || 'a' <= s[i] <= 'z' || '0' <= s[i] <= '9' || s[i] == '_'
  }

  function Prepend(c: char, read: Option<(string, string)>): Option<(string, string)> {
    match read
    case None => None
    case Some((value, rest)) => Some(([c] + value, rest))
  }

  /** Reads one word up to its newline, as value and remaining text.  Quoting follows sections
      2.2.1 and 2.2.2 of POSIX.1-2017 Shell Command Language: everything between single quotes
      is literal, an unquoted backslash makes the next character literal.  Text that needs
      any other rule of the shell is refused. */
  function ReadWord(s: string, quoted: bool): (read: Option<(string, string)>)
    ensures read.Some? ==> |read.value.1| < |s|
  {
    if s == "" then None
    else if quoted then
      if s[0] == QUOTE then ReadWord(s[1..], false) else Prepend(s[0], ReadWord(s[1..], true))
    else if s[0] == QUOTE then ReadWord(s[1..], true)
    else if s[0] == NEWLINE then Some(("", s[1..]))
    else if s[0] == BACKSLASH then
      if |s| == 1 || s[1] == NEWLINE then None else Prepend(s[1], ReadWord(s[2..], false))
    else if IsTokenChar(s[0]) then Prepend(s[0], ReadWord(s[1..], false))
    else None
  }

  function EqualsAt(s: string): (n: nat)
    ensures n <= |s|
  {
    if s == "" || s[0] == '=' then 0 else 1 + EqualsAt(s[1..])
  }

  function ReadLine(s: string): (read: Option<(Binding, string)>)
    ensures read.Some? ==> |read.value.1| < |s| && IsName(read.value.0.name)
  {
    if !(EXPORT <= s) then None
    else
      var t := s[|EXPORT|..];
      var n := EqualsAt(t);
      if n == |t| || !IsName(t[..n]) then None
      else
        match ReadWord(t[n + 1..], false)
        case None => None
        case Some((value, rest)) => Some((Binding(t[..n], value), rest))
  }

  function ReadEnv(s: string): (read: Option<seq<Binding>>)
    ensures read.Some? ==> forall i :: 0 <= i < |read.value| ==> IsName(read.value[i].name)
    decreases |s|
  {
    if s == "" then Some([])
    else
      match ReadLine(s)
      case None => None
      case Some((b, rest)) =>
        match ReadEnv(rest)
        case None => None
        case Some(bs) => Some([b] + bs)
  }

  /** The environment a list of assignments leaves behind. */
  function AsEnv(bindings: seq<Binding>): map<string, string> {
    if bindings == [] then map[] else map[bindings[0].name := bindings[0].value] + AsEnv(bindings[1..])
  }

  lemma {:induction false} ReadEscaped(value: string, rest: string)
    ensures ReadWord(ShellSingleQuoteEscape(value) + [QUOTE, NEWLINE] + rest, true) == Some((value, rest))
  {
    var s := ShellSingleQuoteEscape(value) + [QUOTE, NEWLINE] + rest;
    if value == "" {
      assert s[1..] == [NEWLINE] + rest && ([NEWLINE] + rest)[1..] == rest;
      assert ReadWord([NEWLINE] + rest, false) == Some(("", rest));
    } else {
      var tail := ShellSingleQuoteEscape(value[1..]) + [QUOTE, NEWLINE] + rest;
      ReadEscaped(value[1..], rest);
      if value[0] == QUOTE {
        ReadEscapedQuote(s, tail);
        assert [QUOTE] + value[1..] == value;
      } else {
        assert s[0] == value[0] && s[1..] == tail && [value[0]] + value[1..] == value;
      }
    }
  }

  lemma ReadEscapedQuote(s: string, tail: string)
    requires s == [QUOTE, BACKSLASH, QUOTE, QUOTE] + tail
    ensures ReadWord(s, true) == Prepend(QUOTE, ReadWord(tail, true))
  {
    var s1, s3 := s[1..], s[3..];
    assert s1[0] == BACKSLASH && s1[1] == QUOTE && s1[2..] == s3;
    assert s3[0] == QUOTE && s3[1..] == tail;
    assert ReadWord(s3, false) == ReadWord(tail, true);
  }

  lemma {:induction false} EqualsAfterName(name: string, rest: string)
    requires forall i :: 0 <= i < |name| ==> name[i] != '='
    ensures EqualsAt(name + ['='] + rest) == |name|
  {
    var s := name + ['='] + rest;
    if name != "" {
      assert s[1..] == name[1..] + ['='] + rest;
      EqualsAfterName(name[1..], rest);
    }
  }

  lemma ReadLineSplits(s: string, name: string, word: string, value: string, rest: string)
    requires s == EXPORT + (name + ['='] + word) && IsName(name)
    requires ReadWord(word, false) == Some((value, rest))
    ensures ReadLine(s) == Some((Binding(name, value), rest))
  {
    var t := name + ['='] + word;
    assert s[|EXPORT|..] == t;
    EqualsAfterName(name, word);
    assert t[..|name|] == name && t[|name| + 1..] == word;
  }

  lemma Reassociate(a: string, b: string, c: string, d: string)
    ensures (a + (b + c)) + d == a + (b + (c + d))
  {
  }

  lemma ReadRenderedLine(s: string, b: Binding, rest: string)
    requires s == RenderLine(b) + rest && IsName(b.name)
    ensures ReadLine(s) == Some((b, rest))
  {
    var tail := ShellSingleQuoteEscape(b.value) + [QUOTE, NEWLINE] + rest;
    ReadEscaped(b.value, rest);
    assert ([QUOTE] + tail)[1..] == tail;
    assert ReadWord([QUOTE] + tail, false) == ReadWord(tail, true);
    Reassociate(EXPORT, b.name + ['='], [QUOTE] + ShellSingleQuoteEscape(b.value) + [QUOTE, NEWLINE], rest);
    assert [QUOTE] + ShellSingleQuoteEscape(b.value) + [QUOTE, NEWLINE] + rest == [QUOTE] + tail;
    ReadLineSplits(s, b.name, [QUOTE] + tail, b.value, rest);
  }

  lemma {:induction false} RenderAppend(all: seq<Binding>, bs: seq<Binding>, b: Binding)
    requires all == bs + [b]
    ensures RenderAll(all) == RenderAll(bs) + RenderLine(b)
  {
    if bs == [] {
      assert all[1..] == [];
      assert RenderLine(b) + "" == "" + RenderLine(b);
    } else {
      RenderAppend(all[1..], bs[1..], b);
    }
  }

  /** Whatever the values hold, quotes and newlines included, a shell reads back exactly the
      bindings that were rendered.  (A NUL byte no shell keeps; RenderSecretsFile refuses it.) */
  lemma {:induction false} ReadBack(bindings: seq<Binding>)
    requires forall i :: 0 <= i < |bindings| ==> IsName(bindings[i].name)
    ensures ReadEnv(RenderAll(bindings)) == Some(bindings)
  {
    if bindings != [] {
      var b, bs := bindings[0], bindings[1..];
      ReadRenderedLine(RenderAll(bindings), b, RenderAll(bs));
      ReadBack(bs);
      assert bindings == [b] + bs;
    }
  }

  // ----- The file for a map -----

  function BindingsOf(names: seq<string>, m: map<string, string>): (bs: seq<Binding>)
    requires forall i :: 0 <= i < |names| ==> names[i] in m
    ensures |bs| == |names| && forall i :: 0 <= i < |names| ==> bs[i] == Binding(names[i], m[names[i]])
  {
    seq(|names|, i requires 0 <= i < |names| => Binding(names[i], m[names[i]]))
  }

  ghost predicate SortedKeysOf(names: seq<string>, m: map<string, string>) {
    Ascending(names) && forall k :: k in names <==> k in m
  }

  /** The body is the rendering of the map, one line a key in byte order. */
  ghost predicate IsRendering(body: string, m: map<string, string>) {
    exists names :: SortedKeysOf(names, m) && body == RenderAll(BindingsOf(names, m))
  }

  lemma {:induction false} AsEnvAgrees(bs: seq<Binding>, m: map<string, string>)
    requires forall i :: 0 <= i < |bs| ==> bs[i].name in m && bs[i].value == m[bs[i].name]
    ensures forall i :: 0 <= i < |bs| ==> bs[i].name in AsEnv(bs)
    ensures forall k :: k in AsEnv(bs) ==> k in m && AsEnv(bs)[k] == m[k]
  {
    if bs != [] {
      AsEnvAgrees(bs[1..], m);
      forall i | 0 <= i < |bs| ensures bs[i].name in AsEnv(bs) {
        assert i > 0 ==> bs[1..][i - 1] == bs[i];
      }
    }
  }

  lemma AsEnvOfBindings(names: seq<string>, m: map<string, string>)
    requires SortedKeysOf(names, m)
    ensures AsEnv(BindingsOf(names, m)) == m
  {
    var bs := BindingsOf(names, m);
    AsEnvAgrees(bs, m);
    forall k | k in m ensures k in AsEnv(bs) {
      assert k in names;
      var i :| 0 <= i < |names| && names[i] == k;
      assert bs[i].name == k;
    }
  }

  lemma RenderingUnique(b1: string, b2: string, m: map<string, string>)
    requires IsRendering(b1, m) && IsRendering(b2, m)
    ensures b1 == b2
  {
    var n1 :| SortedKeysOf(n1, m) && b1 == RenderAll(BindingsOf(n1, m));
    var n2 :| SortedKeysOf(n2, m) && b2 == RenderAll(BindingsOf(n2, m));
    AscendingUnique(n1, n2);
  }

  lemma {:induction false} EnvNamesAreNames(bindings: seq<Binding>)
    requires forall i :: 0 <= i < |bindings| ==> IsName(bindings[i].name)
    ensures forall k :: k in AsEnv(bindings) ==> IsName(k)
  {
    if bindings != [] {
      EnvNamesAreNames(bindings[1..]);
    }
  }

  /** Every key is a shell name.  The renderer does not check that; the keys the runner gives it
      all are (AuthEnvIsNamed). */
  ghost predicate AllNames(m: map<string, string>) {
    forall k :: k in m ==> IsName(k)
  }

  ghost predicate ReadsAs(body: string, m: map<string, string>) {
    ReadEnv(body).Some? && AsEnv(ReadEnv(body).value) == m
  }

  /** The file reads back as exactly its map if and only if every key is a shell name; then it
      holds one assignment a key. */
  lemma ReadsBackExactly(body: string, m: map<string, string>)
    requires IsRendering(body, m)
    ensures ReadsAs(body, m) <==> AllNames(m)
    ensures AllNames(m) ==> |ReadEnv(body).value| == |m|
  {
    if AllNames(m) {
      NamedReadsBack(body, m);
    }
    if ReadsAs(body, m) {
      EnvNamesAreNames(ReadEnv(body).value);
    }
  }

  lemma NamedReadsBack(body: string, m: map<string, string>)
    requires IsRendering(body, m) && AllNames(m)
    ensures ReadsAs(body, m) && |ReadEnv(body).value| == |m|
  {
    var names :| SortedKeysOf(names, m) && body == RenderAll(BindingsOf(names, m));
    var bs := BindingsOf(names, m);
    forall i | 0 <= i < |bs| ensures IsName(bs[i].name) {
      assert names[i] in names;
    }
    ReadBack(bs);
    AsEnvOfBindings(names, m);
    OneNameEach(names, m);
  }

  lemma {:induction false} OneNameEach(names: seq<string>, m: map<string, string>)
    requires SortedKeysOf(names, m)
    ensures |names| == |m|
  {
    if names == [] {
      assert m.Keys == {};
    } else {
      var rest := m - {names[0]};
      forall k ensures k in names[1..] <==> k in rest {
        TailMembers(names, k);
      }
      assert rest.Keys == m.Keys - {names[0]};
      OneNameEach(names[1..], rest);
    }
  }

  /** With shell names for keys, two files are byte for byte the same if and only if their maps
      are the same, so the refresher's comparison of bytes misses no change and sees none that is
      not there. */
  lemma SameBytesSameMap(b1: string, m1: map<string, string>, b2: string, m2: map<string, string>)
    requires IsRendering(b1, m1) && IsRendering(b2, m2)
    requires AllNames(m1) && AllNames(m2)
    ensures b1 == b2 <==> m1 == m2
  {
    ReadsBackExactly(b1, m1);
    ReadsBackExactly(b2, m2);
    if m1 == m2 {
      RenderingUnique(b1, b2, m1);
    }
  }

  /** One line, byte for byte. */
  lemma LineLooksLike(name: string, before: string, after: string)
    requires '\'' !in before && '\'' !in after
    ensures RenderLine(Binding(name, before + "'" + after))
         == "export " + name + "='" + before + "'\\''" + after + "'\n"
  {
    EscapeKeeps(before, "'" + after);
    assert before + "'" + after == before + ("'" + after) && ("'" + after)[1..] == after;
    EscapeKeeps(after, "");
    assert after + "" == after;
  }

  lemma {:induction false} EscapeKeeps(plain: string, rest: string)
    requires QUOTE !in plain
    ensures ShellSingleQuoteEscape(plain + rest) == plain + ShellSingleQuoteEscape(rest)
  {
    if plain == "" {
      assert plain + rest == rest;
    } else {
      assert (plain + rest)[1..] == plain[1..] + rest;
      EscapeKeeps(plain[1..], rest);
    }
  }

  // ----- The environment the runner delivers -----

  /** What internal/container/manager.go looks at to choose the Claude credential. */
  datatype AuthConfig = AuthConfig(claudeAuthDir: string, claudeOAuthToken: string, anthropicApiKey: string)

  const OAUTH_TOKEN := "CLAUDE_CODE_OAUTH_TOKEN"
  const API_KEY := "ANTHROPIC_API_KEY"

  /** Nothing when the credentials come from a mounted directory. */
  function BuildStaticAuthEnv(config: AuthConfig): map<string, string> {
    if config.claudeAuthDir != "" then map[]
    else if config.claudeOAuthToken != "" then map[OAUTH_TOKEN := config.claudeOAuthToken]
    else if config.anthropicApiKey != "" then map[API_KEY := config.anthropicApiKey]
    else map[]
  }

  function AuthEnv(config: AuthConfig, token: string): map<string, string> {
    BuildStaticAuthEnv(config)[CM_GIT_TOKEN := token]
  }

  /** The token always; at most one Claude credential: none next to a mounted directory, the OAuth
      token if there is one, else the API key if there is one. */
  lemma AuthEnvExactly(config: AuthConfig, token: string, key: string)
    ensures var env := AuthEnv(config, token);
            && "CM_GIT_TOKEN" in env && env["CM_GIT_TOKEN"] == token
            && ("CLAUDE_CODE_OAUTH_TOKEN" in env <==> config.claudeAuthDir == "" && config.claudeOAuthToken != "")
            && ("CLAUDE_CODE_OAUTH_TOKEN" in env ==> env["CLAUDE_CODE_OAUTH_TOKEN"] == config.claudeOAuthToken)
            && ("ANTHROPIC_API_KEY" in env <==>
                  config.claudeAuthDir == "" && config.claudeOAuthToken == "" && config.anthropicApiKey != "")
            && ("ANTHROPIC_API_KEY" in env ==> env["ANTHROPIC_API_KEY"] == config.anthropicApiKey)
            && (key in env ==> key in {"CM_GIT_TOKEN", "CLAUDE_CODE_OAUTH_TOKEN", "ANTHROPIC_API_KEY"})
  {
    assert CM_GIT_TOKEN[1] != OAUTH_TOKEN[1] && CM_GIT_TOKEN[0] != API_KEY[0] && OAUTH_TOKEN[0] != API_KEY[0];
  }

  /** All its keys are shell names, and none is the renderer's own. */
  lemma AuthEnvIsNamed(config: AuthConfig, token: string)
    ensures AllNames(AuthEnv(config, token)) && CM_GIT_TOKEN !in BuildStaticAuthEnv(config)
  {
    assert IsName(CM_GIT_TOKEN) && IsName(OAUTH_TOKEN) && IsName(API_KEY);
    assert CM_GIT_TOKEN[1] != OAUTH_TOKEN[1] && CM_GIT_TOKEN[0] != API_KEY[0];
  }

  /** So what the runner writes always reads back. */
  lemma AuthFileReadsBack(config: AuthConfig, token: string, body: string)
    requires IsRendering(body, AuthEnv(config, token))
    ensures ReadsAs(body, AuthEnv(config, token)) && |ReadEnv(body).value| == |AuthEnv(config, token)|
  {
    AuthEnvIsNamed(config, token);
    ReadsBackExactly(body, AuthEnv(config, token));
  }

  lemma StaticPartStays(static_: map<string, string>, token: string)
    requires CM_GIT_TOKEN !in static_
    ensures static_[CM_GIT_TOKEN := token] - {CM_GIT_TOKEN} == static_
  {
  }

  /** And two files of the runner's are the same bytes if and only if they deliver the same token
      and the same Claude credential. */
  lemma SameAuthFile(body1: string, config1: AuthConfig, token1: string,
                     body2: string, config2: AuthConfig, token2: string)
    requires IsRendering(body1, AuthEnv(config1, token1)) && IsRendering(body2, AuthEnv(config2, token2))
    ensures body1 == body2 <==> token1 == token2 && BuildStaticAuthEnv(config1) == BuildStaticAuthEnv(config2)
  {
    AuthEnvIsNamed(config1, token1);
    AuthEnvIsNamed(config2, token2);
    SameBytesSameMap(body1, AuthEnv(config1, token1), body2, AuthEnv(config2, token2));
    StaticPartStays(BuildStaticAuthEnv(config1), token1);
    StaticPartStays(BuildStaticAuthEnv(config2), token2);
    assert AuthEnv(config1, token1)[CM_GIT_TOKEN] == token1 && AuthEnv(config2, token2)[CM_GIT_TOKEN] == token2;
  }

  // ----- Other environments -----

  /** A key that swallows a whole line of the file and the start of the next. */
  function Fused(a: Binding, b: Binding): string {
    a.name + ['='] + [QUOTE] + ShellSingleQuoteEscape(a.value) + [QUOTE, NEWLINE] + EXPORT + b.name
  }

  lemma FusedRenders(a: Binding, b: Binding)
    ensures RenderLine(Binding(Fused(a, b), b.value)) == RenderLine(a) + RenderLine(b)
  {
  }

  /** The renderer alone takes any keys: without shell names two maps can render to the same
      bytes. */
  lemma UnnamedKeysClash() returns (body: string, one: map<string, string>, two: map<string, string>)
    ensures one != two && IsRendering(body, one) && IsRendering(body, two)
  {
    var a, b := Binding("A", "x"), Binding("B", "y");
    var key := Binding(Fused(a, b), b.value);
    one, two := map[key.name := key.value], map[a.name := a.value, b.name := b.value];
    body := RenderLine(key);
    FusedRenders(a, b);
    RenderOne(key);
    RenderTwo(a, b);
    assert |key.name| > 1 && a.name in two && a.name !in one;
    assert SortedKeysOf([key.name], one) && BindingsOf([key.name], one) == [key];
    assert SortedKeysOf([a.name, b.name], two) && BindingsOf([a.name, b.name], two) == [a, b];
  }

  lemma RenderOne(a: Binding)
    ensures RenderAll([a]) == RenderLine(a)
  {
    assert [a][1..] == [];
  }

  lemma RenderTwo(a: Binding, b: Binding)
    ensures RenderAll([a, b]) == RenderLine(a) + RenderLine(b)
  {
    RenderOne(b);
    assert [a, b][1..] == [b];
  }

  // ----- The renderer -----

  function InsertName(names: seq<string>, k: string): seq<string> {
    if names == [] || Less(names[|names| - 1], k) then names + [k]
    else InsertName(names[..|names| - 1], k) + [names[|names| - 1]]
  }

  lemma {:induction false} InsertNameSorts(names: seq<string>, k: string)
    requires Ascending(names) && k !in names
    ensures Ascending(InsertName(names, k)) && forall x :: x in InsertName(names, k) <==> x in names || x == k
  {
    if names != [] {
      var init, last := names[..|names| - 1], names[|names| - 1];
      assert names == init + [last];
      LessTrichotomy(last, k);
      if Less(last, k) {
        forall i | 0 <= i < |init| ensures Less(names[i], k) {
          LessTransitive(names[i], last, k);
        }
      } else {
        InsertNameSorts(init, k);
        var out := InsertName(init, k);
        forall i | 0 <= i < |out| ensures Less(out[i], last) {
          assert out[i] in out;
        }
      }
    }
  }

  /** slices.Sorted(maps.Keys(m)). */
  method SortedKeys(m: map<string, string>) returns (names: seq<string>)
    ensures SortedKeysOf(names, m)
  {
    var rest := m.Keys;
    names := [];
    while rest != {}
      invariant Ascending(names) && rest <= m.Keys
      invariant forall k :: k in names <==> k in m && k !in rest
      decreases rest
    {
      var k :| k in rest;
      InsertNameSorts(names, k);
      names := InsertName(names, k);
      rest := rest - {k};
    }
  }

  method RenderSecretsFile(gitToken: string, static_: map<string, string>) returns (result: Result<string>)
    ensures result == Err(StaticCMGitTokenForbidden) <==> CM_GIT_TOKEN in static_
    ensures result == Err(InvalidTokenChars) <==> CM_GIT_TOKEN !in static_ && !IsTokenValid(gitToken)
    ensures result == Err(InvalidStaticSecretChars) <==>
              CM_GIT_TOKEN !in static_ && IsTokenValid(gitToken)
              && exists k :: k in static_ && !IsValidStaticSecret(static_[k])
    ensures result.Ok? ==> IsRendering(result.value, static_[CM_GIT_TOKEN := gitToken])
    ensures result.Ok? <==>
              && "CM_GIT_TOKEN" !in static_
              && (forall i :: 0 <= i < |gitToken| ==>
                    var c := gitToken[i];
                    'A' <= c <= 'Z' || 'a' <= c <= 'z' || '0' <= c <= '9' || c == '_' || c == '-')
              && (forall k, i :: k in static_ && 0 <= i < |static_[k]| ==> ' ' <= static_[k][i] <= '~')
  {
    if CM_GIT_TOKEN in static_ {
      return Err(StaticCMGitTokenForbidden);
    }
    for i := 0 to |gitToken|
      invariant forall j :: 0 <= j < i ==> IsTokenChar(gitToken[j])
    {
      if !IsTokenChar(gitToken[i]) {
        return Err(InvalidTokenChars);
      }
    }
    var staticNames := SortedKeys(static_);
    for i := 0 to |staticNames|
      invariant forall j :: 0 <= j < i ==> IsValidStaticSecret(static_[staticNames[j]])
    {
      assert staticNames[i] in static_;
      if !IsValidStaticSecret(static_[staticNames[i]]) {
        return Err(InvalidStaticSecretChars);
      }
    }
    var body := RenderBody(static_[CM_GIT_TOKEN := gitToken]);
    return Ok(body);
  }

  /** The builder loop over the sorted keys. */
  method RenderBody(combined: map<string, string>) returns (body: string)
    ensures IsRendering(body, combined)
  {
    var names := SortedKeys(combined);
    assert forall j :: 0 <= j < |names| ==> names[j] in names;
    body := "";
    for i := 0 to |names|
      invariant body == RenderAll(BindingsOf(names[..i], combined))
    {
      var b := Binding(names[i], combined[names[i]]);
      RenderAppend(BindingsOf(names[..i + 1], combined), BindingsOf(names[..i], combined), b);
      body := body + RenderLine(b);
    }
    assert names[..|names|] == names;
  }
}
