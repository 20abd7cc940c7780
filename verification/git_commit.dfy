/** The string logic of the interactive Conventional Commits helper: the
    padded labels of the type and scope menus, the breaking-change marker,
    the normalised description and the header `type(scope)!: description`
    (items 1, 4 and 13 of the Conventional Commits 1.0.0 specification). The menu
    prompt and the `git commit` subprocess are not modelled. */
module GitCommit {
  import opened Wrappers

  // ---------------------------------------------------------------------
  // JavaScript string primitives used by the helper
  // ---------------------------------------------------------------------

  /** The WhiteSpace and LineTerminator code points of ECMAScript, which
      `String.prototype.trim` removes from both ends. */
  predicate IsJsWhitespace(c: char) {
    c == '\t' || c == '\n' || c == '\U{000B}' || c == '\U{000C}' || c == '\r' || c == ' '
    || c == '\U{00A0}' || c == '\U{1680}' || ('\U{2000}' <= c <= '\U{200A}')
    || c == '\U{2028}' || c == '\U{2029}' || c == '\U{202F}' || c == '\U{205F}'
    || c == '\U{3000}' || c == '\U{FEFF}'
  }

  predicate AllWhitespace(s: string) {
    forall k :: 0 <= k < |s| ==> IsJsWhitespace(s[k])
  }

  /** Drops leading whitespace. */
  function TrimStart(s: string): (r: string)
    ensures |r| <= |s| && r == s[|s| - |r|..]
    ensures r == [] || !IsJsWhitespace(r[0])
  {
    if |s| > 0 && IsJsWhitespace(s[0]) then TrimStart(s[1..]) else s
  }

  /** What TrimStart drops is whitespace only. */
  lemma {:induction false} TrimStartDropsWhitespace(s: string)
    ensures AllWhitespace(s[..|s| - |TrimStart(s)|])
  {
    if |s| > 0 && IsJsWhitespace(s[0]) {
      var n := |s| - |TrimStart(s)|;
      TrimStartDropsWhitespace(s[1..]);
      assert s[..n] == [s[0]] + s[1..][..n - 1];
    }
  }

  /** Drops trailing whitespace. */
  function TrimEnd(s: string): (r: string)
    ensures |r| <= |s| && r == s[..|r|]
    ensures AllWhitespace(s[|r|..])
    ensures r == [] || !IsJsWhitespace(r[|r| - 1])
  {
    if |s| > 0 && IsJsWhitespace(s[|s| - 1]) then
      var r := TrimEnd(s[..|s| - 1]);
      assert s[|r|..] == s[..|s| - 1][|r|..] + [s[|s| - 1]];
      r
    else s
  }

  /** `s.trim()`: whitespace removed from both ends. */
  function Trim(s: string): (r: string)
    ensures r == [] || (!IsJsWhitespace(r[0]) && !IsJsWhitespace(r[|r| - 1]))
  {
    TrimEnd(TrimStart(s))
  }

  /** What Trim removes is whitespace only, and what it keeps is one
      contiguous piece of the input. */
  lemma TrimKeepsInnerPiece(s: string)
    ensures var r := Trim(s);
            exists i :: 0 <= i <= |s| - |r| && r == s[i..i + |r|]
                        && AllWhitespace(s[..i]) && AllWhitespace(s[i + |r|..])
  {
    var t := TrimStart(s);
    var r := TrimEnd(t);
    var i := |s| - |t|;
    TrimStartDropsWhitespace(s);
    assert Trim(s) == r;
    assert s[i..] == t && AllWhitespace(s[..i]);
    assert r == s[i..i + |r|];
    assert s[i + |r|..] == t[|r|..] && AllWhitespace(t[|r|..]);
    assert 0 <= i <= |s| - |r| && r == s[i..i + |r|] && AllWhitespace(s[..i]) && AllWhitespace(s[i + |r|..]);
  }

  lemma TrimIdempotent(s: string)
    ensures Trim(Trim(s)) == Trim(s)
  {
    var r := Trim(s);
    assert TrimStart(r) == r;
    assert TrimEnd(r) == r;
  }

  /** Whitespace in front of a string is exactly what TrimStart removes. */
  lemma {:induction false} TrimStartSkipsWhitespace(w: string, t: string)
    requires AllWhitespace(w)
    ensures TrimStart(w + t) == TrimStart(t)
  {
    if w == [] {
      assert w + t == t;
    } else {
      assert (w + t)[0] == w[0] && IsJsWhitespace(w[0]);
      assert (w + t)[1..] == w[1..] + t;
      assert AllWhitespace(w[1..]) by {
        forall k | 0 <= k < |w[1..]| ensures IsJsWhitespace(w[1..][k]) {
          assert w[1..][k] == w[k + 1];
        }
      }
      TrimStartSkipsWhitespace(w[1..], t);
    }
  }

  /** The number of UTF-16 code units of `s`: the length JavaScript reports
      and `padEnd` pads to. Code points above U+FFFF take two units. */
  function Utf16Length(s: string): nat {
    if s == [] then 0
    else Utf16Length(s[..|s| - 1]) + (if s[|s| - 1] as int > 0xFFFF then 2 else 1)
  }

  lemma {:induction false} Utf16LengthAppend(a: string, b: string)
    ensures Utf16Length(a + b) == Utf16Length(a) + Utf16Length(b)
    decreases |b|
  {
    if b == [] {
      assert a + b == a;
    } else {
      assert (a + b)[..|a + b| - 1] == a + b[..|b| - 1];
      Utf16LengthAppend(a, b[..|b| - 1]);
    }
  }

  lemma {:induction false} Utf16LengthOfSpaces(s: string)
    requires forall k :: 0 <= k < |s| ==> s[k] == ' '
    ensures Utf16Length(s) == |s|
  {
    if s != [] {
      Utf16LengthOfSpaces(s[..|s| - 1]);
    }
  }

  function Max(a: int, b: int): int {
    if a < b then b else a
  }

  function Spaces(n: nat): (r: string)
    ensures |r| == n && forall k :: 0 <= k < n ==> r[k] == ' '
  {
    seq(n, _ => ' ')
  }

  /** `s.padEnd(target)`: `s` followed by spaces up to `target` UTF-16 units,
      or `s` itself when it is already that long. */
  function PadEnd(s: string, target: nat): (r: string)
    ensures |s| <= |r| && r[..|s|] == s
    ensures forall k :: |s| <= k < |r| ==> r[k] == ' '
    ensures Utf16Length(r) == Max(Utf16Length(s), target)
  {
    if Utf16Length(s) >= target then s
    else
      var pad := Spaces(target - Utf16Length(s));
      Utf16LengthAppend(s, pad);
      Utf16LengthOfSpaces(pad);
      s + pad
  }

  // ---------------------------------------------------------------------
  // The menu choices
  // ---------------------------------------------------------------------

  /** One entry of a select prompt: the value it answers with and its label. */
  datatype Choice = Choice(name: string, message: string)

  /** The label of a commit type: `value:` padded to 12 units, then the
      explanation, so that explanations line up in one column. */
  function TypeLabel(value: string, msg: string): (r: string)
    ensures |value| + 1 + |msg| <= |r|
    ensures r[..|value| + 1] == value + ":"
    ensures forall k :: |value| + 1 <= k < |r| - |msg| ==> r[k] == ' '
    ensures r[|r| - |msg|..] == msg
    ensures Utf16Length(r[..|r| - |msg|]) == Max(Utf16Length(value) + 1, 12)
  {
    var head := PadEnd(value + ":", 12);
    Utf16LengthAppend(value, ":");
    assert (head + msg)[..|head|] == head;
    head + msg
  }

  /** The label of a scope: the value padded to 30 units, then the
      explanation in parentheses. */
  function ScopeLabel(value: string, msg: string): (r: string)
    ensures |value| + 3 + |msg| <= |r|
    ensures r[..|value|] == value
    ensures forall k :: |value| <= k < |r| - |msg| - 3 ==> r[k] == ' '
    ensures r[|r| - |msg| - 3..] == " (" + msg + ")"
    ensures Utf16Length(r[..|r| - |msg| - 3]) == Max(Utf16Length(value), 30)
  {
    var head := PadEnd(value, 30);
    assert (head + " (" + msg + ")")[..|head|] == head;
    head + " (" + msg + ")"
  }

  /** The type menu, built from the locale's `[value, msg]` pairs. */
  function TypeChoices(types: seq<(string, string)>): (r: seq<Choice>)
    ensures |r| == |types|
    ensures forall i :: 0 <= i < |types| ==>
              r[i].name == types[i].0 && r[i].message == TypeLabel(types[i].0, types[i].1)
  {
    seq(|types|, i requires 0 <= i < |types| => Choice(types[i].0, TypeLabel(types[i].0, types[i].1)))
  }

  /** The scope menu, built from the locale's `[value, msg]` pairs. */
  function ScopeChoices(scopes: seq<(string, string)>): (r: seq<Choice>)
    ensures |r| == |scopes|
    ensures forall i :: 0 <= i < |scopes| ==>
              r[i].name == scopes[i].0 && r[i].message == ScopeLabel(scopes[i].0, scopes[i].1)
  {
    seq(|scopes|, i requires 0 <= i < |scopes| => Choice(scopes[i].0, ScopeLabel(scopes[i].0, scopes[i].1)))
  }

  /** Every label of either menu begins with the value its choice answers with. */
  lemma LabelsStartWithName(types: seq<(string, string)>, scopes: seq<(string, string)>)
    ensures forall c :: c in TypeChoices(types) ==>
              |c.name| <= |c.message| && c.message[..|c.name|] == c.name
    ensures forall c :: c in ScopeChoices(scopes) ==>
              |c.name| <= |c.message| && c.message[..|c.name|] == c.name
  {
  }

  // ---------------------------------------------------------------------
  // The commit header
  // ---------------------------------------------------------------------

  /** `"!"` when the typed description starts with `!`, else `""`. */
  function BreakingMarker(raw: string): (r: string)
    ensures r == "!" <==> |raw| > 0 && raw[0] == '!'
    ensures r == "" <==> !(|raw| > 0 && raw[0] == '!')
  {
    if |raw| > 0 && raw[0] == '!' then "!" else ""
  }

  /** `raw.replace(/^!/, '')`: at most one `!`, and only at the very start,
      is removed; the marker and the rest give back the typed text. */
  function StripLeadingBang(raw: string): (r: string)
    ensures BreakingMarker(raw) + r == raw
  {
    if |raw| > 0 && raw[0] == '!' then raw[1..] else raw
  }

  /** The description written into the header. */
  function Description(raw: string): (r: string)
    ensures r == [] || (!IsJsWhitespace(r[0]) && !IsJsWhitespace(r[|r| - 1]))
    ensures |r| + |BreakingMarker(raw)| <= |raw|
  {
    Trim(StripLeadingBang(raw))
  }

  /** The message passed to `git commit -m`: the type, the scope in
      parentheses, `!` exactly when the description was typed with a leading
      `!`, then `: ` and the normalised description. */
  function CommitMessage(types: string, scopes: string, raw: string): (r: string)
    ensures |r| == |types| + |scopes| + 4 + |BreakingMarker(raw)| + |Description(raw)|
    ensures r[..|types|] == types && r[|types|..|types| + |scopes| + 2] == "(" + scopes + ")"
    ensures r[|types| + |scopes| + 2] == '!' <==> |raw| > 0 && raw[0] == '!'
    ensures r[|types| + |scopes| + 2 + |BreakingMarker(raw)|..|types| + |scopes| + 4 + |BreakingMarker(raw)|] == ": "
    ensures r[|types| + |scopes| + 4 + |BreakingMarker(raw)|..] == Description(raw)
  {
    var head := types + "(" + scopes + ")";
    assert head[..|types|] == types && head[|types|..] == "(" + scopes + ")";
    head + BreakingMarker(raw) + ": " + Description(raw)
  }

  /** The Conventional Commits 1.0.0 header fields, as a reader of the
      commit log recovers them. */
  datatype Header = Header(kind: string, scope: string, breaking: bool, description: string)

  /** The first index of `c` in `s`. */
  function IndexOf(s: string, c: char): (r: Option<nat>)
    ensures r.Some? ==> r.value < |s| && s[r.value] == c && c !in s[..r.value]
    ensures r.None? ==> c !in s
  {
    if s == [] then None
    else if s[0] == c then Some(0)
    else
      match IndexOf(s[1..], c)
      case None => None
      case Some(i) =>
        assert s[..i + 1] == [s[0]] + s[1..][..i];
        Some(i + 1)
  }

  /** Reads `type(scope)!: description` or `type(scope): description`. */
  function ParseHeader(msg: string): Option<Header> {
    match IndexOf(msg, '(')
    case None => None
    case Some(i) =>
      var rest := msg[i + 1..];
      match IndexOf(rest, ')')
      case None => None
      case Some(j) => ParseSeparator(msg[..i], rest[..j], rest[j + 1..])
  }

  /** Reads what follows `type(scope)`: an optional `!`, then `: `. */
  function ParseSeparator(kind: string, scope: string, tail: string): Option<Header> {
    if |tail| >= 3 && tail[..3] == "!: " then Some(Header(kind, scope, true, tail[3..]))
    else if |tail| >= 2 && tail[..2] == ": " then Some(Header(kind, scope, false, tail[2..]))
    else None
  }

  lemma IndexOfFirst(s: string, c: char, n: nat)
    requires n < |s| && s[n] == c && c !in s[..n]
    ensures IndexOf(s, c) == Some(n)
  {
  }

  /** A header is split at the first `(` and the first `)` after it. */
  lemma SplitHeader(kind: string, scope: string, tail: string)
    requires '(' !in kind && ')' !in scope
    ensures ParseHeader(kind + "(" + scope + ")" + tail) == ParseSeparator(kind, scope, tail)
  {
    var msg := kind + "(" + scope + ")" + tail;
    assert msg[..|kind|] == kind;
    IndexOfFirst(msg, '(', |kind|);
    var rest := msg[|kind| + 1..];
    assert rest == scope + ")" + tail;
    assert rest[..|scope|] == scope;
    IndexOfFirst(rest, ')', |scope|);
    assert rest[|scope| + 1..] == tail;
  }

  /** Headers written with the layout `type(scope)!: description` are read
      back field for field. */
  lemma {:induction false} HeaderRoundTrip(kind: string, scope: string, breaking: bool, description: string)
    requires '(' !in kind && ')' !in scope
    ensures ParseHeader(kind + "(" + scope + ")" + (if breaking then "!" else "") + ": " + description)
            == Some(Header(kind, scope, breaking, description))
  {
    var tail := (if breaking then "!" else "") + ": " + description;
    assert kind + "(" + scope + ")" + (if breaking then "!" else "") + ": " + description
        == kind + "(" + scope + ")" + tail;
    SplitHeader(kind, scope, tail);
    if breaking {
      assert tail[..3] == "!: " && tail[3..] == description;
    } else {
      assert tail[..2] == ": " && tail[2..] == description;
      assert |tail| >= 3 ==> tail[..3][0] == ':';
    }
  }

  /** The message the helper assembles is a well-formed header from which
      the chosen type and scope, the breaking flag and the normalised
      description are read back, provided the type has no `(` and the
      scope no `)`. */
  lemma CommitHeaderRoundTrip(types: string, scopes: string, raw: string)
    requires '(' !in types && ')' !in scopes
    ensures ParseHeader(CommitMessage(types, scopes, raw))
            == Some(Header(types, scopes, BreakingMarker(raw) == "!", Description(raw)))
  {
    var breaking := BreakingMarker(raw) == "!";
    assert BreakingMarker(raw) == if breaking then "!" else "";
    HeaderRoundTrip(types, scopes, breaking, Description(raw));
  }

  /** A space typed before `!` means no breaking marker, and the `!` stays
      at the front of the description. */
  lemma LeadingWhitespaceKeepsBang(w: string, rest: string)
    requires w != [] && AllWhitespace(w)
    ensures BreakingMarker(w + "!" + rest) == ""
    ensures Description(w + "!" + rest) == Trim("!" + rest)
    ensures |Description(w + "!" + rest)| > 0 && Description(w + "!" + rest)[0] == '!'
  {
    var raw := w + "!" + rest;
    assert raw == w + ("!" + rest) && raw[0] == w[0] && IsJsWhitespace(w[0]);
    assert BreakingMarker(raw) == "" && StripLeadingBang(raw) == raw;
    TrimStartSkipsWhitespace(w, "!" + rest);
    assert Description(raw) == TrimEnd(TrimStart("!" + rest)) == Trim("!" + rest);
    TrimKeepsLeadingBang(rest);
  }

  lemma TrimKeepsLeadingBang(rest: string)
    ensures |Trim("!" + rest)| > 0 && Trim("!" + rest)[0] == '!'
  {
  }

  /** The verify hook accepts every message. */
  function GitCommitVerify(): (ok: bool)
    ensures ok
  {
    true
  }
}
