/**
 * The pattern rewrite: every token found by the grammar is replaced by its
 * template fragment wrapped in a capture group, named when the token names
 * one; the text around the tokens is copied through.
 */
module Rewriter {
  import opened Wrappers
  import opened GrokErrors
  import opened Grammar
  import opened Templates

  /**
   * The match evaluator: the replacement text for one token, or the failed
   * table lookup when its TYPE is not a template.
   */
  function Substitute(t: Token): (r: Result<string, GrokError>)
    ensures r.Err? <==> t.kind !in Types
    ensures r.Err? ==> r.error == UndefinedTemplate(t.kind)
  {
    match Lookup(t.kind)
    case None => Err(UndefinedTemplate(t.kind))
    case Some(fragment) =>
      if t.name.Some? then Ok("(?<" + t.name.value + ">" + fragment + ")")
      else Ok("(" + fragment + ")")
  }

  /** The replacement text of one piece: a literal character stands for itself. */
  function RenderPiece(p: Piece): Result<string, GrokError> {
    match p
    case Lit(c) => Ok([c])
    case Ref(t) => Substitute(t)
  }

  /** Concatenates the replacement texts in order; the first failing piece aborts. */
  function Render(ps: seq<Piece>): (r: Result<string, GrokError>)
    ensures r.Err? ==> r.error.UndefinedTemplate? && r.error.name !in Types
  {
    if ps == [] then Ok("")
    else
      var head :- RenderPiece(ps[0]);
      var tail :- Render(ps[1..]);
      Ok(head + tail)
  }

  /** The pattern rewritten into a regular expression. */
  function Rewrite(pattern: string): (r: Result<string, GrokError>)
    ensures r.Err? ==> r.error.UndefinedTemplate? && r.error.name !in Types
  {
    Render(Scan(pattern))
  }

  /** `prefix` put in front of a successful rewrite; a failure passes through. */
  function Prepend(prefix: string, r: Result<string, GrokError>): Result<string, GrokError> {
    match r
    case Ok(s) => Ok(prefix + s)
    case Err(e) => Err(e)
  }

  /** The text of a named group around the fragment of `kind`. */
  function NamedGroup(name: string, kind: string): string
    requires kind in Types
  {
    "(?<" + name + ">" + Types[kind] + ")"
  }

  /** The text of an unnamed group around the fragment of `kind`. */
  function PlainGroup(kind: string): string
    requires kind in Types
  {
    "(" + Types[kind] + ")"
  }

  // ---------------------------------------------------------------------
  // What each token form turns into

  /** `%{T:n}` with T defined becomes exactly `(?<n>` + Types[T] + `)`. */
  lemma NamedTokenRewrite(kind: string, name: string, rest: string)
    requires IsWord(kind) && IsWord(name) && kind in Types
    ensures Rewrite("%{" + kind + ":" + name + "}" + rest) == Prepend(NamedGroup(name, kind), Rewrite(rest))
  {
    var t := Token(kind, Some(name));
    assert TokenText(t) == "%{" + kind + ":" + name + "}";
    ScanToken(t, rest);
    assert Scan(TokenText(t) + rest)[1..] == Scan(rest);
  }

  /** `%{T}` with T defined becomes exactly `(` + Types[T] + `)`: a group without a name. */
  lemma BareTokenRewrite(kind: string, rest: string)
    requires IsWord(kind) && kind in Types
    ensures Rewrite("%{" + kind + "}" + rest) == Prepend(PlainGroup(kind), Rewrite(rest))
  {
    var t := Token(kind, None);
    assert TokenText(t) == "%{" + kind + "}";
    ScanToken(t, rest);
    assert Scan(TokenText(t) + rest)[1..] == Scan(rest);
  }

  /** A token whose TYPE is not in the table makes the rewrite fail, naming that TYPE. */
  lemma UndefinedTokenRewrite(t: Token, rest: string)
    requires WellFormed(t) && t.kind !in Types
    ensures Rewrite(TokenText(t) + rest) == Err(UndefinedTemplate(t.kind))
  {
    ScanToken(t, rest);
  }

  // ---------------------------------------------------------------------
  // Literal text

  /** Text without `%` starts no token, so it is copied verbatim in front of the rest. */
  lemma {:induction false} LiteralRewrite(lit: string, rest: string)
    requires '%' !in lit
    ensures Rewrite(lit + rest) == Prepend(lit, Rewrite(rest))
  {
    if lit != [] {
      var s := lit + rest;
      assert s[0] == lit[0];
      assert s[1..] == lit[1..] + rest;
      assert Scan(s) == [Lit(lit[0])] + Scan(lit[1..] + rest);
      assert ([Lit(lit[0])] + Scan(lit[1..] + rest))[1..] == Scan(lit[1..] + rest);
      LiteralRewrite(lit[1..], rest);
      var ps := [Lit(lit[0])] + Scan(lit[1..] + rest);
      assert Render(ps) == Prepend([lit[0]], Render(Scan(lit[1..] + rest)));
      if Rewrite(rest).Ok? {
        var v := Rewrite(rest).value;
        assert [lit[0]] + (lit[1..] + v) == lit + v;
      }
    } else {
      assert lit + rest == rest;
      if Rewrite(rest).Ok? {
        assert lit + Rewrite(rest).value == Rewrite(rest).value;
      }
    }
  }

  /** A pattern in which no position starts a token is its own rewrite. */
  lemma {:induction false} NoTokenUnchanged(pattern: string)
    requires forall i :: 0 <= i < |pattern| ==> MatchToken(pattern[i..]).None?
    ensures Rewrite(pattern) == Ok(pattern)
  {
    if pattern != [] {
      assert MatchToken(pattern[0..]).None?;
      assert pattern[0..] == pattern;
      var tail := pattern[1..];
      forall i | 0 <= i < |tail| ensures MatchToken(tail[i..]).None? {
        assert tail[i..] == pattern[i + 1..];
      }
      NoTokenUnchanged(tail);
      assert Scan(pattern) == [Lit(pattern[0])] + Scan(tail);
      assert ([Lit(pattern[0])] + Scan(tail))[1..] == Scan(tail);
      assert pattern == [pattern[0]] + tail;
    }
  }

  /** In particular a pattern without `%` is returned unchanged. */
  lemma NoPercentUnchanged(pattern: string)
    requires '%' !in pattern
    ensures Rewrite(pattern) == Ok(pattern)
  {
    LiteralRewrite(pattern, "");
    assert pattern + "" == pattern;
  }

  /** A position that starts no token contributes its character verbatim. */
  lemma LiteralStep(s: string)
    requires s != [] && MatchToken(s).None?
    ensures Rewrite(s) == Prepend([s[0]], Rewrite(s[1..]))
  {
    assert Scan(s) == [Lit(s[0])] + Scan(s[1..]);
    assert Scan(s)[1..] == Scan(s[1..]);
  }

  /** A `%` that starts no token, then text without `%`: both are copied verbatim. */
  lemma StrayPercent(s: string, head: string, rest: string)
    requires s == ['%'] + (head + rest) && MatchToken(s).None? && '%' !in head
    ensures Rewrite(s) == Prepend(['%'] + head, Rewrite(rest))
  {
    assert s[1..] == head + rest;
    LiteralStep(s);
    LiteralRewrite(head, rest);
    if Rewrite(rest).Ok? {
      var v := Rewrite(rest).value;
      assert ['%'] + (head + v) == ['%'] + head + v;
    }
  }

  /**
   * A brace form with two or more `:` segments is not a token: its opening
   * `%{A:b:` is copied verbatim, in front of the rewrite of what follows.
   */
  lemma {:induction false} ColonSegmentsStayLiteral(a: string, b: string, rest: string)
    requires IsWord(a) && IsWord(b)
    ensures Rewrite("%{" + a + ":" + b + ":" + rest) == Prepend("%{" + a + ":" + b + ":", Rewrite(rest))
  {
    var head := "{" + a + ":" + b + ":";
    TwoColonsDoNotMatch(a, b, rest);
    OpeningSplit(a, b, rest);
    StrayPercent("%{" + a + ":" + b + ":" + rest, head, rest);
  }

  /**
   * The opening `%{A:b:` seen as a `%` followed by text without `%`. Kept apart
   * from `ColonSegmentsStayLiteral` so that it is proved without the rewrite's
   * definitions in scope.
   */
  lemma OpeningSplit(a: string, b: string, rest: string)
    requires IsWord(a) && IsWord(b)
    ensures '%' !in "{" + a + ":" + b + ":"
    ensures "%{" + a + ":" + b + ":" + rest == ['%'] + ("{" + a + ":" + b + ":" + rest)
    ensures ['%'] + ("{" + a + ":" + b + ":") == "%{" + a + ":" + b + ":"
  {
    assert '%' !in a && '%' !in b;
  }

  /** `%{A:b:c}` is left exactly as written, wherever it stands in a pattern. */
  lemma {:induction false} TwoColonsStayLiteral(a: string, b: string, c: string, rest: string)
    requires IsWord(a) && IsWord(b) && IsWord(c)
    ensures Rewrite("%{" + a + ":" + b + ":" + c + "}" + rest) == Prepend("%{" + a + ":" + b + ":" + c + "}", Rewrite(rest))
  {
    var opening := "%{" + a + ":" + b + ":";
    var tail := c + "}";
    assert '%' !in tail by {
      assert '%' !in c;
    }
    assert "%{" + a + ":" + b + ":" + c + "}" + rest == opening + (tail + rest);
    assert opening + tail == "%{" + a + ":" + b + ":" + c + "}";
    ColonSegmentsStayLiteral(a, b, tail + rest);
    LiteralRewrite(tail, rest);
    PrependTwice(opening, tail, Rewrite(rest));
  }

  /** Putting `x` and then `y` in front of a result puts `x + y` in front of it. */
  lemma PrependTwice(x: string, y: string, r: Result<string, GrokError>)
    ensures Prepend(x, Prepend(y, r)) == Prepend(x + y, r)
  {
    if r.Ok? {
      assert x + (y + r.value) == x + y + r.value;
    }
  }

  // ---------------------------------------------------------------------
  // Failure

  /** A piece whose TYPE the table lacks. */
  predicate Undefined(p: Piece) {
    p.Ref? && p.token.kind !in Types
  }

  /**
   * Rendering fails exactly when some token is undefined, and then it reports
   * the TYPE of the first undefined token.
   */
  lemma {:induction false} RenderFailsAtFirstUndefined(ps: seq<Piece>)
    ensures Render(ps).Err? <==> exists i :: 0 <= i < |ps| && Undefined(ps[i])
    ensures Render(ps).Err? ==>
      exists i :: 0 <= i < |ps| && Undefined(ps[i]) && Render(ps).error == UndefinedTemplate(ps[i].token.kind)
        && forall j :: 0 <= j < i ==> !Undefined(ps[j])
  {
    if ps != [] {
      RenderFailsAtFirstUndefined(ps[1..]);
      if Undefined(ps[0]) {
        assert Render(ps).error == UndefinedTemplate(ps[0].token.kind);
      } else {
        assert RenderPiece(ps[0]).Ok?;
        if Render(ps[1..]).Err? {
          var i :| 0 <= i < |ps[1..]| && Undefined(ps[1..][i]) && Render(ps[1..]).error == UndefinedTemplate(ps[1..][i].token.kind)
            && forall j :: 0 <= j < i ==> !Undefined(ps[1..][j]);
          assert Undefined(ps[i + 1]);
          forall j | 0 <= j < i + 1 ensures !Undefined(ps[j]) {
            if j > 0 { assert ps[j] == ps[1..][j - 1]; }
          }
        } else {
          forall j | 0 <= j < |ps| ensures !Undefined(ps[j]) {
            if j > 0 { assert ps[j] == ps[1..][j - 1]; }
          }
        }
      }
    }
  }

  /** The rewrite fails exactly when the pattern holds a token with an undefined TYPE, naming the first one. */
  lemma {:induction false} RewriteFailsAtFirstUndefined(pattern: string)
    ensures var ps := Scan(pattern);
      Rewrite(pattern).Err? <==> exists i :: 0 <= i < |ps| && Undefined(ps[i])
    ensures Rewrite(pattern).Err? ==>
      var ps := Scan(pattern);
      exists i :: 0 <= i < |ps| && Undefined(ps[i]) && Rewrite(pattern).error == UndefinedTemplate(ps[i].token.kind)
        && forall j :: 0 <= j < i ==> !Undefined(ps[j])
  {
    var ps := Scan(pattern);
    RenderFailsAtFirstUndefined(ps);
    assert Render(ps).Err? <==> exists i :: 0 <= i < |ps| && Undefined(ps[i]);
    assert Rewrite(pattern) == Render(ps);
  }

  // ---------------------------------------------------------------------
  // The named groups the rewrite introduces

  /** The NAME parts of the named tokens, in order. */
  function CaptureNames(ps: seq<Piece>): seq<string> {
    if ps == [] then []
    else if ps[0].Ref? && ps[0].token.name.Some? then [ps[0].token.name.value] + CaptureNames(ps[1..])
    else CaptureNames(ps[1..])
  }

  /**
   * The names of the named groups `(?<name>...)` written in a regular
   * expression, left to right.
   */
  function GroupNamesIn(rx: string): seq<string>
    decreases |rx|
  {
    if rx == [] then []
    else if |rx| >= 3 && rx[..3] == "(?<" then
      var k := WordRun(rx[3..]);
      if k > 0 && 3 + k < |rx| && rx[3 + k] == '>' then [rx[3..3 + k]] + GroupNamesIn(rx[3 + k + 1..])
      else GroupNamesIn(rx[1..])
    else GroupNamesIn(rx[1..])
  }

  /** A character other than `(` opens no group: the names come from what follows it. */
  lemma NotAGroup(rx: string)
    requires rx != [] && rx[0] != '('
    ensures GroupNamesIn(rx) == GroupNamesIn(rx[1..])
  {
    assert |rx| >= 3 ==> rx[..3][0] == rx[0];
  }

  /** Text without `(` opens no group. */
  lemma {:induction false} NoParenNoGroups(x: string, rest: string)
    requires '(' !in x
    ensures GroupNamesIn(x + rest) == GroupNamesIn(rest)
  {
    if x != [] {
      assert (x + rest)[0] == x[0];
      assert (x + rest)[1..] == x[1..] + rest;
      NotAGroup(x + rest);
      NoParenNoGroups(x[1..], rest);
    } else {
      assert x + rest == rest;
    }
  }

  lemma {:induction false} PlainGroupNoName(kind: string, rest: string)
    requires kind in Types
    ensures GroupNamesIn(PlainGroup(kind) + rest) == GroupNamesIn(rest)
  {
    FragmentsArePlain(kind);
    var s := PlainGroup(kind) + rest;
    var tail := Types[kind] + ")";
    assert s == "(" + (tail + rest);
    assert s[1] == '\\';
    assert s[1..] == tail + rest;
    assert '(' !in tail;
    NoParenNoGroups(tail, rest);
  }

  lemma {:induction false} NamedGroupName(name: string, kind: string, rest: string)
    requires kind in Types && IsWord(name)
    ensures GroupNamesIn(NamedGroup(name, kind) + rest) == [name] + GroupNamesIn(rest)
  {
    FragmentsArePlain(kind);
    var tail := Types[kind] + ")";
    var s := "(?<" + (name + (">" + (tail + rest)));
    assert NamedGroup(name, kind) + rest == s;
    assert s[..3] == "(?<";
    assert s[3..] == name + (">" + (tail + rest));
    WordRunOfWord(name, ">" + (tail + rest));
    assert s[3..3 + |name|] == name;
    assert s[3 + |name|] == '>';
    assert s[3 + |name| + 1..] == tail + rest;
    assert '(' !in tail;
    NoParenNoGroups(tail, rest);
  }

  /**
   * Rendering pieces introduces one named group per named token, in order,
   * provided the literal text puts every emitted group at the top level of the
   * expression: no literal `(` opens a group of its own, no literal `[` opens a
   * character class around a group, and no literal `\` escapes the `(` of the
   * group emitted right after it.
   */
  lemma {:induction false} RenderGroupNames(ps: seq<Piece>, r: string)
    requires Render(ps) == Ok(r)
    requires forall i :: 0 <= i < |ps| ==> ps[i] != Lit('(') && ps[i] != Lit('[')
    requires forall i :: 0 <= i < |ps| - 1 && ps[i] == Lit('\\') ==> ps[i + 1].Lit?
    requires forall i :: 0 <= i < |ps| && ps[i].Ref? ==> WellFormed(ps[i].token)
    ensures GroupNamesIn(r) == CaptureNames(ps)
  {
    if ps != [] {
      var head := RenderPiece(ps[0]).value;
      var tail := Render(ps[1..]).value;
      assert r == head + tail;
      RenderGroupNames(ps[1..], tail);
      match ps[0]
      case Lit(c) =>
        NoParenNoGroups([c], tail);
      case Ref(t) =>
        if t.name.Some? {
          NamedGroupName(t.name.value, t.kind, tail);
        } else {
          PlainGroupNoName(t.kind, tail);
        }
    }
  }

  /**
   * In a pattern whose literal text opens no group, opens no character class
   * and puts no `\` right before a token, the named groups of the rewritten
   * expression are exactly the NAME parts of its named tokens, in order of
   * appearance; a bare token introduces no named group.
   */
  lemma {:induction false} RewriteGroupNames(pattern: string)
    requires '(' !in pattern && '[' !in pattern
    requires forall k :: 0 <= k < |pattern| - 1 ==> !(pattern[k] == '\\' && pattern[k + 1] == '%')
    requires Rewrite(pattern).Ok?
    ensures GroupNamesIn(Rewrite(pattern).value) == CaptureNames(Scan(pattern))
  {
    var ps := Scan(pattern);
    ScanTokensWellFormed(pattern);
    PlainTextPieces(pattern);
    RenderGroupNames(ps, Rewrite(pattern).value);
  }

  /** The scan of a pattern with no `(`, no `[` and no `\` before a `%` holds no such literal piece. */
  lemma PlainTextPieces(pattern: string)
    requires '(' !in pattern && '[' !in pattern
    requires forall k :: 0 <= k < |pattern| - 1 ==> !(pattern[k] == '\\' && pattern[k + 1] == '%')
    ensures forall i :: 0 <= i < |Scan(pattern)| ==> Scan(pattern)[i] != Lit('(') && Scan(pattern)[i] != Lit('[')
    ensures forall i :: 0 <= i < |Scan(pattern)| - 1 && Scan(pattern)[i] == Lit('\\') ==> Scan(pattern)[i + 1].Lit?
  {
    ScanSpellsPattern(pattern);
    LiteralsOfText(Scan(pattern), pattern);
    EscapesOfText(Scan(pattern), pattern);
  }

  /** Pieces spelling a text without `(` or `[` hold no such literal. */
  lemma LiteralsOfText(ps: seq<Piece>, text: string)
    requires Unscan(ps) == text && '(' !in text && '[' !in text
    ensures forall i :: 0 <= i < |ps| ==> ps[i] != Lit('(') && ps[i] != Lit('[')
  {
    forall i | 0 <= i < |ps| ensures ps[i] != Lit('(') && ps[i] != Lit('[') {
      if ps[i].Lit? {
        UnscanHasLit(ps, i);
      }
    }
  }

  /** Pieces spelling a text with no `\` right before a `%` hold no literal `\` right before a token. */
  lemma EscapesOfText(ps: seq<Piece>, text: string)
    requires Unscan(ps) == text
    requires forall k :: 0 <= k < |text| - 1 ==> !(text[k] == '\\' && text[k + 1] == '%')
    ensures forall i :: 0 <= i < |ps| - 1 && ps[i] == Lit('\\') ==> ps[i + 1].Lit?
  {
    forall i | 0 <= i < |ps| - 1 && ps[i] == Lit('\\') ensures ps[i + 1].Lit? {
      if ps[i + 1].Ref? {
        UnscanLitBeforeRef(ps, i);
        assert false;
      }
    }
  }

  /** A literal piece right before a token stands right before a `%` in the text the pieces stand for. */
  lemma {:induction false} UnscanLitBeforeRef(ps: seq<Piece>, i: nat)
    requires i + 1 < |ps| && ps[i].Lit? && ps[i + 1].Ref?
    ensures exists k :: 0 <= k < |Unscan(ps)| - 1 && Unscan(ps)[k] == ps[i].c && Unscan(ps)[k + 1] == '%'
  {
    if i == 0 {
      UnscanLitThenRef(ps[0].c, ps[1].token, Unscan(ps[2..]));
      assert ps[1..][0] == ps[1] && ps[1..][1..] == ps[2..];
      assert Unscan(ps) == [ps[0].c] + (TokenText(ps[1].token) + Unscan(ps[2..]));
      assert Unscan(ps)[0] == ps[0].c && Unscan(ps)[1] == '%';
    } else {
      UnscanLitBeforeRef(ps[1..], i - 1);
      var v := Unscan(ps[1..]);
      var k :| 0 <= k < |v| - 1 && v[k] == ps[1..][i - 1].c && v[k + 1] == '%';
      ShiftedPair(PieceText(ps[0]), v, k);
      assert Unscan(ps) == PieceText(ps[0]) + v;
      var m := |PieceText(ps[0])| + k;
      assert Unscan(ps)[m] == ps[i].c && Unscan(ps)[m + 1] == '%';
    }
  }

  /** A character followed by a token's text: the token's `%` comes right after it. */
  lemma UnscanLitThenRef(c: char, t: Token, rest: string)
    ensures var u := [c] + (TokenText(t) + rest); |u| >= 2 && u[0] == c && u[1] == '%'
  {
  }

  /** Two adjacent characters of `v` stay adjacent once `p` is put in front. */
  lemma ShiftedPair(p: string, v: string, k: nat)
    requires k + 1 < |v|
    ensures (p + v)[|p| + k] == v[k] && (p + v)[|p| + k + 1] == v[k + 1]
  {
  }

  /** A literal piece's character occurs in the text the pieces stand for. */
  lemma {:induction false} UnscanHasLit(ps: seq<Piece>, i: nat)
    requires i < |ps| && ps[i].Lit?
    ensures ps[i].c in Unscan(ps)
  {
    if i == 0 {
      assert Unscan(ps)[0] == ps[0].c;
    } else {
      UnscanHasLit(ps[1..], i - 1);
      var u := Unscan(ps[1..]);
      var k :| 0 <= k < |u| && u[k] == ps[i].c;
      assert Unscan(ps)[|PieceText(ps[0])| + k] == u[k];
    }
  }
}
