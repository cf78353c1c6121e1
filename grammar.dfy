/**
 * The token grammar of grok patterns: the regular expression
 * `%{(\w+)(:(\w+)){0,1}}` matched at one position (MatchToken) and the
 * left-to-right, non-overlapping enumeration of its matches (Scan).
 */
module Grammar {
  import opened Wrappers

  /** The `\w` character class (ASCII letters, digits and underscore). */
  predicate IsWordChar(c: char) {
    ('a' <= c <= 'z') || ('A' <= c <= 'Z') || ('0' <= c <= '9') || c == '_'
  }

  /** A string `\w+` matches in full. */
  predicate IsWord(s: string) {
    |s| > 0 && forall i :: 0 <= i < |s| ==> IsWordChar(s[i])
  }

  /** How many characters a greedy `\w+` takes from the front of `s` (0: it fails). */
  function WordRun(s: string): (n: nat)
    ensures n <= |s|
    ensures forall i :: 0 <= i < n ==> IsWordChar(s[i])
    ensures n < |s| ==> !IsWordChar(s[n])
  {
    if s == [] || !IsWordChar(s[0]) then 0 else 1 + WordRun(s[1..])
  }

  lemma {:induction false} WordRunOfWord(w: string, rest: string)
    requires forall i :: 0 <= i < |w| ==> IsWordChar(w[i])
    requires rest == [] || !IsWordChar(rest[0])
    ensures WordRun(w + rest) == |w|
  {
    if w != [] {
      assert (w + rest)[1..] == w[1..] + rest;
      WordRunOfWord(w[1..], rest);
    }
  }

  /** A template reference: `%{kind}` when `name` is None, `%{kind:name}` otherwise. */
  datatype Token = Token(kind: string, name: Option<string>)

  predicate WellFormed(t: Token) {
    IsWord(t.kind) && (t.name.Some? ==> IsWord(t.name.value))
  }

  /** The text of a token as it is written in a pattern. */
  function TokenText(t: Token): string {
    "%{" + t.kind + (if t.name.Some? then ":" + t.name.value else "") + "}"
  }

  /**
   * Matches `%{(\w+)(:(\w+)){0,1}}` at the start of `s`; on success gives the
   * token and the number of characters matched.
   */
  function MatchToken(s: string): (r: Option<(Token, nat)>)
    ensures r.Some? ==> WellFormed(r.value.0)
    ensures r.Some? ==> r.value.1 == |TokenText(r.value.0)| <= |s| && s[..r.value.1] == TokenText(r.value.0)
  {
    if |s| < 2 || s[0] != '%' || s[1] != '{' then None
    else
      var k := WordRun(s[2..]);
      var after := 2 + k;
      if k == 0 || after >= |s| then None
      else if s[after] == '}' then
        BareTokenText(s, after);
        Some((Token(s[2..after], None), after + 1))
      else if s[after] == ':' then
        var m := WordRun(s[after + 1..]);
        var close := after + 1 + m;
        if m == 0 || close >= |s| || s[close] != '}' then None
        else
          NamedTokenText(s, after, close);
          Some((Token(s[2..after], Some(s[after + 1..close])), close + 1))
      else None
  }

  /** A greedy `\w+` that takes `s[from..to]` has taken a word. */
  lemma {:induction false} WordAt(s: string, from: nat, to: nat)
    requires from < to <= |s| && WordRun(s[from..]) == to - from
    ensures IsWord(s[from..to])
  {
    forall i | 0 <= i < to - from ensures IsWordChar(s[from..to][i]) {
      assert s[from..to][i] == s[from..][i];
    }
  }

  /** The prefix `%{kind}` of `s`, read back as the text of a bare token. */
  lemma {:induction false} BareTokenText(s: string, after: nat)
    requires 2 < after < |s| && s[0] == '%' && s[1] == '{' && s[after] == '}'
    requires WordRun(s[2..]) == after - 2
    ensures var t := Token(s[2..after], None);
      WellFormed(t) && |TokenText(t)| == after + 1 && s[..after + 1] == TokenText(t)
  {
    WordAt(s, 2, after);
    assert s[..after + 1] == "%{" + s[2..after] + "}";
  }

  /** The prefix `%{kind:name}` of `s`, read back as the text of a named token. */
  lemma {:induction false} NamedTokenText(s: string, after: nat, close: nat)
    requires 2 < after && after + 1 < close < |s| && s[0] == '%' && s[1] == '{' && s[after] == ':' && s[close] == '}'
    requires WordRun(s[2..]) == after - 2 && WordRun(s[after + 1..]) == close - after - 1
    ensures var t := Token(s[2..after], Some(s[after + 1..close]));
      WellFormed(t) && |TokenText(t)| == close + 1 && s[..close + 1] == TokenText(t)
  {
    WordAt(s, 2, after);
    WordAt(s, after + 1, close);
    NamedSpelling(s, after, close);
  }

  /** The characters of `%{kind:name}` at the front of `s`, put back together. */
  lemma {:induction false} NamedSpelling(s: string, after: nat, close: nat)
    requires 2 < after && after + 1 < close < |s| && s[0] == '%' && s[1] == '{' && s[after] == ':' && s[close] == '}'
    ensures s[..close + 1] == "%{" + s[2..after] + (":" + s[after + 1..close]) + "}"
  {
    var kind, name := s[2..after], s[after + 1..close];
    assert s[..after] == "%{" + kind;
    assert s[after..close + 1] == ":" + name + "}";
    assert s[..close + 1] == s[..after] + s[after..close + 1];
  }

  /** Every well-formed token written at the front of `s` is what MatchToken finds there. */
  lemma MatchTokenComplete(t: Token, rest: string)
    requires WellFormed(t)
    ensures MatchToken(TokenText(t) + rest) == Some((t, |TokenText(t)|))
  {
    if t.name.Some? {
      var name := t.name.value;
      assert TokenText(t) + rest == "%{" + (t.kind + (":" + (name + ("}" + rest))));
      MatchNamedToken(t.kind, name, rest);
    } else {
      assert TokenText(t) + rest == "%{" + (t.kind + ("}" + rest));
      MatchBareToken(t.kind, rest);
    }
  }

  lemma {:induction false} MatchBareToken(kind: string, rest: string)
    requires IsWord(kind)
    ensures MatchToken("%{" + (kind + ("}" + rest))) == Some((Token(kind, None), |kind| + 3))
  {
    var s := "%{" + (kind + ("}" + rest));
    assert s[2..] == kind + ("}" + rest);
    WordRunOfWord(kind, "}" + rest);
    assert s[2..2 + |kind|] == kind;
    assert s[2 + |kind|] == '}';
  }

  lemma {:induction false} MatchNamedToken(kind: string, name: string, rest: string)
    requires IsWord(kind) && IsWord(name)
    ensures MatchToken("%{" + (kind + (":" + (name + ("}" + rest)))))
         == Some((Token(kind, Some(name)), |kind| + |name| + 4))
  {
    var r3 := name + ("}" + rest);
    var r1 := kind + (":" + r3);
    var s := "%{" + r1;
    assert s[2..] == r1;
    WordRunOfWord(kind, ":" + r3);
    assert s[2 + |kind| + 1..] == r3;
    WordRunOfWord(name, "}" + rest);
    assert s[2..2 + |kind|] == kind;
    assert s[2 + |kind| + 1..2 + |kind| + 1 + |name|] == name;
    MatchNamedShape(s, kind, name);
  }

  /**
   * What MatchToken returns once the two word runs and the punctuation around
   * them are known. Kept apart from `MatchNamedToken` so that `MatchToken` is
   * unfolded over facts about `s` alone, without the concatenations that build
   * `s`, which keeps that proof cheap.
   */
  lemma {:induction false} MatchNamedShape(s: string, kind: string, name: string)
    requires 2 + |kind| + 1 + |name| < |s| && |kind| > 0 && |name| > 0
    requires s[0] == '%' && s[1] == '{' && s[2 + |kind|] == ':' && s[2 + |kind| + 1 + |name|] == '}'
    requires WordRun(s[2..]) == |kind| && WordRun(s[2 + |kind| + 1..]) == |name|
    requires s[2..2 + |kind|] == kind && s[2 + |kind| + 1..2 + |kind| + 1 + |name|] == name
    ensures MatchToken(s) == Some((Token(kind, Some(name)), |kind| + |name| + 4))
  {
  }

  /**
   * A brace form with two or more `:` segments is not a token: once
   * `%{A:b` is followed by a second `:`, nothing that comes after matches.
   */
  lemma TwoColonsDoNotMatch(a: string, b: string, rest: string)
    requires IsWord(a) && IsWord(b)
    ensures MatchToken("%{" + a + ":" + b + ":" + rest) == None
  {
    assert "%{" + a + ":" + b + ":" + rest == "%{" + (a + (":" + (b + (":" + rest))));
    SecondColonNested(a, b, rest);
  }

  /** The same, with the concatenation nested to the right. */
  lemma SecondColonNested(a: string, b: string, rest: string)
    requires IsWord(a) && IsWord(b)
    ensures MatchToken("%{" + (a + (":" + (b + (":" + rest))))) == None
  {
    var r2 := b + (":" + rest);
    var s := "%{" + (a + (":" + r2));
    assert s[2..] == a + (":" + r2);
    WordThenStop(s, 2, a, ':', r2);
    WordThenStop(s, 2 + |a| + 1, b, ':', rest);
    SecondColonShape(s, |a|, |b|);
  }

  /** A word at `s[from..]` followed by the non-word character `c`: the run stops right before `c`. */
  lemma WordThenStop(s: string, from: nat, w: string, c: char, tail: string)
    requires from <= |s| && s[from..] == w + ([c] + tail) && IsWord(w) && !IsWordChar(c)
    ensures WordRun(s[from..]) == |w| && s[from + |w|] == c && s[from + |w| + 1..] == tail
  {
    WordRunOfWord(w, [c] + tail);
    assert s[from + |w|] == s[from..][|w|];
    assert s[from + |w| + 1..] == s[from..][|w| + 1..];
  }

  /**
   * MatchToken fails once the NAME run is followed by `:` rather than `}`.
   * Stated on facts about `s` alone, which keeps the unfolding of MatchToken cheap.
   */
  lemma SecondColonShape(s: string, ka: nat, kb: nat)
    requires 2 + ka + 1 + kb < |s| && s[0] == '%' && s[1] == '{'
    requires WordRun(s[2..]) == ka && s[2 + ka] == ':'
    requires WordRun(s[2 + ka + 1..]) == kb && s[2 + ka + 1 + kb] == ':'
    ensures MatchToken(s) == None
  {
  }

  /** A pattern split into literal characters and tokens. */
  datatype Piece = Lit(c: char) | Ref(token: Token)

  function PieceText(p: Piece): string {
    match p
    case Lit(c) => [c]
    case Ref(t) => TokenText(t)
  }

  /** The pattern text a sequence of pieces stands for. */
  function Unscan(ps: seq<Piece>): string {
    if ps == [] then "" else PieceText(ps[0]) + Unscan(ps[1..])
  }

  /**
   * Splits a pattern the way the regex engine enumerates the matches of the
   * token grammar: left to right, resuming after each match, a character that
   * starts no match being kept as literal text.
   */
  function Scan(s: string): (ps: seq<Piece>)
    ensures |ps| <= |s|
    decreases |s|
  {
    if s == [] then []
    else
      match MatchToken(s)
      case Some((t, n)) => [Ref(t)] + Scan(s[n..])
      case None => [Lit(s[0])] + Scan(s[1..])
  }

  /** Scanning loses nothing: the pieces spell the pattern back, in order. */
  lemma {:induction false} ScanSpellsPattern(s: string)
    ensures Unscan(Scan(s)) == s
    decreases |s|
  {
    if s != [] {
      var ps := Scan(s);
      var n := ScanFront(s);
      ScanSpellsPattern(s[n..]);
      SplitAt(s, n);
    }
  }

  /**
   * `s` is its first `n` characters followed by the rest. Kept apart from
   * `ScanSpellsPattern` so that this step is proved without `Scan` in scope.
   */
  lemma SplitAt(s: string, n: nat)
    requires n <= |s|
    ensures s[..n] + s[n..] == s
  {
  }

  /** The first piece of a scan spells the first `n` characters, and the scan resumes after them. */
  lemma ScanFront(s: string) returns (n: nat)
    requires s != []
    ensures 0 < n <= |s| && n == (if MatchToken(s).Some? then MatchToken(s).value.1 else 1)
    ensures PieceText(Scan(s)[0]) == s[..n] && Scan(s)[1..] == Scan(s[n..])
  {
    n := if MatchToken(s).Some? then MatchToken(s).value.1 else 1;
    assert Scan(s)[1..] == Scan(s[n..]);
  }

  /** Every token the scan finds is well formed. */
  lemma {:induction false} ScanTokensWellFormed(s: string)
    ensures forall i :: 0 <= i < |Scan(s)| && Scan(s)[i].Ref? ==> WellFormed(Scan(s)[i].token)
    decreases |s|
  {
    if s != [] {
      var ps := Scan(s);
      var n := ScanFront(s);
      ScanTokensWellFormed(s[n..]);
      forall i | 1 <= i < |ps| && ps[i].Ref? ensures WellFormed(ps[i].token) {
        assert ps[i] == Scan(s[n..])[i - 1];
      }
    }
  }

  lemma ScanToken(t: Token, rest: string)
    requires WellFormed(t)
    ensures Scan(TokenText(t) + rest) == [Ref(t)] + Scan(rest)
  {
    MatchTokenComplete(t, rest);
    assert (TokenText(t) + rest)[|TokenText(t)|..] == rest;
  }
}
