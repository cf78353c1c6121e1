/**
 * ExtractData: rewrite the pattern, hand the result to the regex engine, and
 * build the field dictionary from the engine's answer. The engine itself
 * (compiling the expression, matching it against the text, listing its group
 * names) is a parameter of the model.
 */
module Extractor {
  import opened Wrappers
  import opened GrokErrors
  import opened Rewriter

  /**
   * What the regex engine reports for one compiled expression and one text:
   * either the expression does not compile, or its group names (in the
   * engine's order, numbered groups included) and the first match, given as
   * the text captured by each group that took part in it.
   */
  datatype RegexRun =
    | Unparsable
    | Ran(groupNames: seq<string>, outcome: Option<map<string, string>>)

  /** The regex engine, as a function of the expression and the text. */
  type RegexEngine = (string, string) -> RegexRun

  /** A group's `Value`: what it captured, or the empty string when it took no part in the match. */
  function CapturedText(captures: map<string, string>, name: string): string {
    if name in captures then captures[name] else ""
  }

  ghost predicate Distinct(names: seq<string>) {
    forall i, j :: 0 <= i < j < |names| ==> names[i] != names[j]
  }

  /** `m` holds one entry per name, each the text that group captured. */
  ghost predicate IsFieldMap(m: map<string, string>, names: seq<string>, captures: map<string, string>) {
    (forall n :: n in m <==> n in names) &&
    (forall n :: n in m ==> m[n] == CapturedText(captures, n))
  }

  /** `name` is the first entry of `names` that repeats an earlier one. */
  ghost predicate IsFirstRepeat(names: seq<string>, name: string) {
    exists j :: 0 <= j < |names| && names[j] == name && name in names[..j] && Distinct(names[..j])
  }

  /**
   * The dictionary-building step: empty when there is no match; otherwise one
   * entry per group name, added in order, where adding a name already present
   * fails as `Dictionary.Add` does.
   */
  method BuildResult(groupNames: seq<string>, outcome: Option<map<string, string>>)
    returns (r: Result<map<string, string>, GrokError>)
    ensures outcome.None? ==> r == Ok(map[])
    ensures outcome.Some? && Distinct(groupNames) ==> r.Ok? && IsFieldMap(r.value, groupNames, outcome.value)
    ensures outcome.Some? && !Distinct(groupNames) ==>
      r.Err? && r.error.DuplicateKey? && IsFirstRepeat(groupNames, r.error.key)
  {
    var result: map<string, string> := map[];
    if outcome.None? {
      return Ok(result);
    }
    var captures := outcome.value;
    var i := 0;
    while i < |groupNames|
      invariant 0 <= i <= |groupNames|
      invariant Distinct(groupNames[..i])
      invariant forall n :: n in result <==> n in groupNames[..i]
      invariant forall n :: n in result ==> result[n] == CapturedText(captures, n)
    {
      var name := groupNames[i];
      if name in result {
        assert groupNames[..i + 1][..i] == groupNames[..i];
        return Err(DuplicateKey(name));
      }
      result := result[name := CapturedText(captures, name)];
      assert groupNames[..i + 1] == groupNames[..i] + [name];
      i := i + 1;
    }
    assert groupNames[..i] == groupNames;
    return Ok(result);
  }

  /**
   * The whole extraction: a rewrite failure (an undefined template) aborts
   * before the engine is consulted; an expression the engine rejects fails;
   * otherwise the result is built from the engine's group names and match.
   */
  method ExtractData(pattern: string, text: string, engine: RegexEngine)
    returns (r: Result<map<string, string>, GrokError>)
    ensures Rewrite(pattern).Err? ==> r == Err(Rewrite(pattern).error)
    ensures Rewrite(pattern).Ok? && engine(Rewrite(pattern).value, text).Unparsable? ==>
      r == Err(InvalidRegex(Rewrite(pattern).value))
    ensures Rewrite(pattern).Ok? && engine(Rewrite(pattern).value, text).Ran? ==>
      var run := engine(Rewrite(pattern).value, text);
      (run.outcome.None? ==> r == Ok(map[])) &&
      (run.outcome.Some? && Distinct(run.groupNames) ==>
        r.Ok? && IsFieldMap(r.value, run.groupNames, run.outcome.value)) &&
      (run.outcome.Some? && !Distinct(run.groupNames) ==>
        r.Err? && r.error.DuplicateKey? && IsFirstRepeat(run.groupNames, r.error.key))
  {
    var rewritten := Rewrite(pattern);
    if rewritten.Err? {
      return Err(rewritten.error);
    }
    var regex := rewritten.value;
    var run := engine(regex, text);
    if run.Unparsable? {
      return Err(InvalidRegex(regex));
    }
    r := BuildResult(run.groupNames, run.outcome);
  }
}
