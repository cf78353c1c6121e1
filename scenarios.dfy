/** The rewrites the repository's tests rely on, derived from the general lemmas. */
module Scenarios {
  import opened Wrappers
  import opened GrokErrors
  import opened Grammar
  import opened Templates
  import opened Rewriter

  /** A separator without `%` followed by a named token, in front of the rest of a pattern. */
  lemma {:induction false} SeparatedNamedToken(sep: string, kind: string, name: string, rest: string)
    requires IsWord(kind) && IsWord(name) && kind in Types && '%' !in sep
    ensures Rewrite(sep + ("%{" + kind + ":" + name + "}" + rest)) == Prepend(sep + NamedGroup(name, kind), Rewrite(rest))
  {
    LiteralRewrite(sep, "%{" + kind + ":" + name + "}" + rest);
    NamedTokenRewrite(kind, name, rest);
    if Rewrite(rest).Ok? {
      var v := Rewrite(rest).value;
      assert sep + (NamedGroup(name, kind) + v) == sep + NamedGroup(name, kind) + v;
    }
  }

  /** The last field ` %{T3:n3}` of the test patterns. */
  lemma OneNamedField(k3: string, n3: string)
    requires IsWord(k3) && IsWord(n3) && k3 in Types
    ensures Rewrite(" " + ("%{" + k3 + ":" + n3 + "}")) == Ok(" " + NamedGroup(n3, k3))
  {
    var empty := "";
    var t3 := "%{" + k3 + ":" + n3 + "}";
    assert t3 + empty == t3;
    SeparatedNamedToken(" ", k3, n3, empty);
    NoPercentUnchanged(empty);
    assert " " + NamedGroup(n3, k3) + empty == " " + NamedGroup(n3, k3);
  }

  /**
   * The tail ` %{T2:n2} %{T3:n3}` regrouped as separator, token, and the last
   * field. Kept apart from `TwoNamedFields` so that the regrouping is proved
   * without the rewrite's definitions in scope, which keeps that proof cheap.
   */
  lemma TwoFieldsSplit(k2: string, n2: string, k3: string, n3: string)
    ensures " %{" + k2 + ":" + n2 + "} %{" + k3 + ":" + n3 + "}"
         == " " + ("%{" + k2 + ":" + n2 + "}" + (" " + ("%{" + k3 + ":" + n3 + "}")))
  {
  }

  /** The tail ` %{T2:n2} %{T3:n3}` shared by the two test pattern shapes below. */
  lemma TwoNamedFields(k2: string, n2: string, k3: string, n3: string)
    requires IsWord(k2) && IsWord(n2) && IsWord(k3) && IsWord(n3) && k2 in Types && k3 in Types
    ensures Rewrite(" %{" + k2 + ":" + n2 + "} %{" + k3 + ":" + n3 + "}")
         == Ok(" " + NamedGroup(n2, k2) + " " + NamedGroup(n3, k3))
  {
    TwoFieldsSplit(k2, n2, k3, n3);
    var last := " " + ("%{" + k3 + ":" + n3 + "}");
    SeparatedNamedToken(" ", k2, n2, last);
    OneNamedField(k3, n3);
    var g2, g3 := NamedGroup(n2, k2), NamedGroup(n3, k3);
    assert " " + g2 + (" " + g3) == " " + g2 + " " + g3;
  }

  /** The named groups of ` (?<n2>f2) (?<n3>f3)`. */
  lemma TwoNamedGroups(k2: string, n2: string, k3: string, n3: string)
    requires IsWord(n2) && IsWord(n3) && k2 in Types && k3 in Types
    ensures GroupNamesIn(" " + NamedGroup(n2, k2) + " " + NamedGroup(n3, k3)) == [n2, n3]
  {
    var rest := " " + (NamedGroup(n3, k3) + "");
    assert " " + NamedGroup(n2, k2) + " " + NamedGroup(n3, k3) == " " + (NamedGroup(n2, k2) + rest);
    NoParenNoGroups(" ", NamedGroup(n2, k2) + rest);
    NamedGroupName(n2, k2, rest);
    NoParenNoGroups(" ", NamedGroup(n3, k3) + "");
    NamedGroupName(n3, k3, "");
    assert GroupNamesIn("") == [];
  }

  /**
   * A first field `head}` split off the tail ` %{T2:n2} %{T3:n3}`. Kept apart
   * from its callers so that the regrouping is proved without the rewrite's
   * definitions in scope.
   */
  lemma FirstFieldSplit(head: string, k2: string, n2: string, k3: string, n3: string)
    ensures head + "} %{" + k2 + ":" + n2 + "} %{" + k3 + ":" + n3 + "}"
         == head + "}" + (" %{" + k2 + ":" + n2 + "} %{" + k3 + ":" + n3 + "}")
  {
  }

  /**
   * The shape `%{T1:n1} %{T2:n2} %{T3:n3}` (`%{WORD:method} %{NUMBER:bytes}
   * %{NUMBER:duration}` in the tests) becomes three named groups.
   */
  lemma ThreeNamedFields(k1: string, n1: string, k2: string, n2: string, k3: string, n3: string)
    requires IsWord(k1) && IsWord(n1) && IsWord(k2) && IsWord(n2) && IsWord(k3) && IsWord(n3)
    requires k1 in Types && k2 in Types && k3 in Types
    ensures Rewrite("%{" + k1 + ":" + n1 + "} %{" + k2 + ":" + n2 + "} %{" + k3 + ":" + n3 + "}")
         == Ok(NamedGroup(n1, k1) + (" " + NamedGroup(n2, k2) + " " + NamedGroup(n3, k3)))
  {
    var q := " %{" + k2 + ":" + n2 + "} %{" + k3 + ":" + n3 + "}";
    FirstFieldSplit("%{" + k1 + ":" + n1, k2, n2, k3, n3);
    NamedTokenRewrite(k1, n1, q);
    TwoNamedFields(k2, n2, k3, n3);
  }

  /** ... and those groups are named n1, n2, n3, in that order. */
  lemma ThreeNamedGroups(k1: string, n1: string, k2: string, n2: string, k3: string, n3: string)
    requires IsWord(n1) && IsWord(n2) && IsWord(n3)
    requires k1 in Types && k2 in Types && k3 in Types
    ensures GroupNamesIn(NamedGroup(n1, k1) + (" " + NamedGroup(n2, k2) + " " + NamedGroup(n3, k3))) == [n1, n2, n3]
  {
    TwoNamedGroups(k2, n2, k3, n3);
    NamedGroupName(n1, k1, " " + NamedGroup(n2, k2) + " " + NamedGroup(n3, k3));
  }

  /**
   * The shape `%{T1} %{T2:n2} %{T3:n3}` (`%{WORD} %{NUMBER:bytes}
   * %{NUMBER:duration}` in the tests): the bare token becomes an unnamed group.
   */
  lemma BareThenTwoNamedFields(k1: string, k2: string, n2: string, k3: string, n3: string)
    requires IsWord(k1) && IsWord(k2) && IsWord(n2) && IsWord(k3) && IsWord(n3)
    requires k1 in Types && k2 in Types && k3 in Types
    ensures Rewrite("%{" + k1 + "} %{" + k2 + ":" + n2 + "} %{" + k3 + ":" + n3 + "}")
         == Ok(PlainGroup(k1) + (" " + NamedGroup(n2, k2) + " " + NamedGroup(n3, k3)))
  {
    var q := " %{" + k2 + ":" + n2 + "} %{" + k3 + ":" + n3 + "}";
    FirstFieldSplit("%{" + k1, k2, n2, k3, n3);
    BareTokenRewrite(k1, q);
    TwoNamedFields(k2, n2, k3, n3);
  }

  /** ... so the only named groups are n2 and n3: the bare token introduces no named group. */
  lemma BareThenTwoNamedGroups(k1: string, k2: string, n2: string, k3: string, n3: string)
    requires IsWord(n2) && IsWord(n3)
    requires k1 in Types && k2 in Types && k3 in Types
    ensures GroupNamesIn(PlainGroup(k1) + (" " + NamedGroup(n2, k2) + " " + NamedGroup(n3, k3))) == [n2, n3]
  {
    TwoNamedGroups(k2, n2, k3, n3);
    PlainGroupNoName(k1, " " + NamedGroup(n2, k2) + " " + NamedGroup(n3, k3));
  }

  /** `%{TEST}` fails, and the failure names `TEST`. */
  lemma UndefinedTemplatePattern()
    ensures Rewrite("%{TEST}") == Err(UndefinedTemplate("TEST"))
  {
    var test := "TEST";
    var t := Token(test, None);
    assert IsWord(test) by { assert forall i :: 0 <= i < |test| ==> IsWordChar(test[i]); }
    assert "%{TEST}" == TokenText(t) + "";
    UndefinedTokenRewrite(t, "");
  }
}
