# Grok pattern rewriter and result builder

A Dafny model of the core of `GrogEngine` (pvivera/Grok, C#). The engine turns a
grok pattern such as `%{WORD:method} %{NUMBER:bytes}` into a .NET regular
expression, runs it against a text, and returns the captured groups as a
dictionary from group name to captured text.

The model has the following parts:

- `Templates` (`templates.dfy`): the fixed template table. `WORD` maps to `\w+`
  and `NUMBER` maps to `\d+`. The table is flat: no template refers to another.
- `Grammar` (`grammar.dfy`): the token grammar `%{(\w+)(:(\w+)){0,1}}`.
  `MatchToken` is that expression matched at one position. It is greedy and
  fully determined, because the character after a maximal `\w+` run is never a
  word character. `Scan` lists the matches left to right without overlap, the
  way `Regex.Replace` does. A character where no match starts is kept as a
  literal `Lit` piece.
- `Rewriter` (`rewriter.dfy`): the match evaluator (`Substitute`) and the
  rewrite (`Rewrite = Render(Scan(pattern))`). A named token becomes
  `(?<NAME>fragment)`. A bare token becomes `(fragment)`. Literal text is copied
  through. The first token whose TYPE is not in the table aborts the rewrite
  with `UndefinedTemplate(TYPE)`; this stands for the failed `Types[...]`
  lookup. `GroupNamesIn` reads the names of the `(?<name>` groups written in a
  regular expression. The lemmas use it to state which named groups the
  rewrite introduces.
- `Extractor` (`extractor.dfy`): `BuildResult` is the loop that fills the
  result dictionary, written as a method with loop invariants. `ExtractData` is
  the whole call. The .NET regex engine is a parameter of type
  `(regex, text) -> RegexRun`. Its answer is either "does not compile", or the
  group names together with the first match, an `Option` of a group-name to
  captured-text map.
- `Scenarios` (`scenarios.dfy`): the pattern shapes the repository's tests use,
  derived from the general lemmas.
- `Wrappers`, `GrokErrors` (`wrappers.dfy`): `Option`, `Result`, and the failure
  kinds `UndefinedTemplate`, `InvalidRegex` and `DuplicateKey`.

Facts about `src/Grok/GrogEngine.cs` that shape the model:

- `NUMBER` is `\d+`, a run of digits with no sign and no fraction.
- Templates are never expanded recursively: a fragment is inserted as it stands.
- A token has at most one `:NAME` segment. A form with a second segment, such
  as `%{NUMBER:n:int}`, is not a token: it stays literal text wherever it
  stands in a pattern (`ColonSegmentsStayLiteral`, `TwoColonsStayLiteral`).
- An undefined TYPE fails through the dictionary lookup itself. The model keeps
  the failing name in `UndefinedTemplate(name)`.
- The result dictionary gets one key per name that `GetGroupNames` lists. For
  .NET that includes `"0"` (the whole match) and one number per unnamed group,
  so a bare token such as `%{WORD}` adds a numbered key (for example `"1"`)
  holding its capture. It adds no named group.

## Model

| member | source | states |
|---|---|---|
| Templates.Lookup | src/Grok/GrogEngine.cs:9-13 | the table defines exactly `WORD` ↦ `\w+` and `NUMBER` ↦ `\d+`; every other name is undefined |
| Templates.FragmentsArePlain | src/Grok/GrogEngine.cs:9-13 | no template fragment contains `(` or `%`, so a fragment opens no group and starts no token |
| Grammar.WordRun | src/Grok/GrogEngine.cs:15 | a greedy `\w+` takes a prefix made only of word characters, and the next character, if any, is not a word character |
| Grammar.MatchToken | src/Grok/GrogEngine.cs:15 | a match at the front of a string is a well-formed token (TYPE and optional NAME are non-empty word runs) whose exact text is the matched prefix |
| Grammar.MatchTokenComplete | src/Grok/GrogEngine.cs:15 | conversely, every well-formed `%{T}` or `%{T:n}` at the front of a string is matched, as exactly that token and length, whatever follows it |
| Grammar.TwoColonsDoNotMatch | src/Grok/GrogEngine.cs:15 | `%{A:b:` (a second colon segment), whatever follows it, does not match the token grammar |
| Grammar.Scan | src/Grok/GrogEngine.cs:23 | the matches `Regex.Replace` visits, left to right without overlap, each piece taking at least one character; `ScanSpellsPattern`, `ScanTokensWellFormed` and `ScanToken` specify it |
| Grammar.ScanSpellsPattern | src/Grok/GrogEngine.cs:23 | the left-to-right, non-overlapping split of a pattern loses nothing: its pieces spell the pattern back, in order |
| Grammar.ScanTokensWellFormed | src/Grok/GrogEngine.cs:15-23 | every token the split finds has a non-empty word-character TYPE and, if present, a non-empty word-character NAME |
| Grammar.ScanToken | src/Grok/GrogEngine.cs:15-23 | a well-formed token at the front of a pattern is split off as one piece and scanning resumes right after it |
| Rewriter.Substitute | src/Grok/GrogEngine.cs:17-19 | the evaluator fails exactly when the token's TYPE is not in the table, and then reports that TYPE |
| Rewriter.Render | src/Grok/GrogEngine.cs:17-23 | the replacement texts of the pieces, concatenated in order; a failure is always an undefined TYPE; `RenderFailsAtFirstUndefined` and `RenderGroupNames` specify it |
| Rewriter.Rewrite | src/Grok/GrogEngine.cs:23 | `MatchValueRegex.Replace` of a pattern; a failure is always an undefined TYPE; the token, literal, failure and group-name lemmas below specify it |
| Rewriter.NamedTokenRewrite | src/Grok/GrogEngine.cs:17-18 | `%{T:n}` with T defined is replaced by exactly `(?<n>` + Types[T] + `)`, in front of the rewrite of the rest |
| Rewriter.BareTokenRewrite | src/Grok/GrogEngine.cs:17-19 | `%{T}` with T defined is replaced by exactly `(` + Types[T] + `)`, a group without a name |
| Rewriter.UndefinedTokenRewrite | src/Grok/GrogEngine.cs:17-19 | a token whose TYPE is undefined makes the whole rewrite fail with `UndefinedTemplate(TYPE)` |
| Rewriter.RenderFailsAtFirstUndefined | src/Grok/GrogEngine.cs:17-23 | rendering pieces fails if and only if some token is undefined, and the failure names the first undefined token from the left |
| Rewriter.RewriteFailsAtFirstUndefined | src/Grok/GrogEngine.cs:17-23 | the rewrite of a pattern fails if and only if it holds a token with an undefined TYPE, and the failure names the leftmost one |
| Rewriter.LiteralRewrite | src/Grok/GrogEngine.cs:23 | text without `%` is copied verbatim, in order, in front of the rewrite of what follows it |
| Rewriter.LiteralStep | src/Grok/GrogEngine.cs:23 | a character where no token starts is copied through unchanged |
| Rewriter.NoTokenUnchanged | src/Grok/GrogEngine.cs:23 | a pattern in which no position starts a token is returned unchanged |
| Rewriter.NoPercentUnchanged | src/Grok/GrogEngine.cs:23 | a pattern without `%` is returned unchanged |
| Rewriter.ColonSegmentsStayLiteral | src/Grok/GrogEngine.cs:15-23 | in any position, `%{A:b:` (two or more colon segments) is copied verbatim in front of the rewrite of what follows |
| Rewriter.TwoColonsStayLiteral | src/Grok/GrogEngine.cs:15-23 | in any position, `%{A:b:c}` is copied exactly as written in front of the rewrite of what follows |
| Rewriter.NamedGroupName | src/Grok/GrogEngine.cs:18 | the text emitted for a named token introduces exactly one named group, the token's NAME |
| Rewriter.PlainGroupNoName | src/Grok/GrogEngine.cs:19 | the text emitted for a bare token introduces no named group |
| Rewriter.RenderGroupNames | src/Grok/GrogEngine.cs:17-23 | rendering pieces with no literal `(` or `[`, and no literal `\` right before a token, yields an expression whose named groups are the NAME parts of the named tokens, in order |
| Rewriter.RewriteGroupNames | src/Grok/GrogEngine.cs:17-23 | for a pattern with no literal `(` or `[`, and no `\` right before a `%`, the named groups of the rewritten expression are exactly the NAME parts of its named tokens, in order of appearance; bare tokens introduce no named group |
| Extractor.BuildResult | src/Grok/GrogEngine.cs:29-40 | no match gives an empty dictionary; a match gives one entry per group name, each `CapturedText` of that name, the model of `groups[name].Value`: the text the group captured, or empty if it took no part; a repeated group name fails as `Dictionary.Add` does, naming the first repeat. .NET's `GetGroupNames` never lists a name twice, so with the real engine `DuplicateKey` cannot occur; the branch exists only because `Dictionary.Add` can throw |
| Extractor.ExtractData | src/Grok/GrogEngine.cs:21-41 | an undefined template aborts before the regex engine is consulted; an expression the engine rejects fails; otherwise the result is the dictionary built from the engine's group names and match |
| Scenarios.ThreeNamedFields | test/Grok.Tests/GrogEngineTests.cs:41-54 | `%{T1:n1} %{T2:n2} %{T3:n3}` rewrites to three named groups separated by the literal spaces |
| Scenarios.ThreeNamedGroups | test/Grok.Tests/GrogEngineTests.cs:41-54 | those three groups are named n1, n2, n3, in order |
| Scenarios.BareThenTwoNamedFields | test/Grok.Tests/GrogEngineTests.cs:56-69 | `%{T1} %{T2:n2} %{T3:n3}` rewrites to an unnamed group followed by two named groups |
| Scenarios.BareThenTwoNamedGroups | test/Grok.Tests/GrogEngineTests.cs:56-69 | the only named groups there are n2 and n3: the bare token introduces no named group |
| Scenarios.UndefinedTemplatePattern | test/Grok.Tests/GrogEngineTests.cs:88-96 | `%{TEST}` fails with `UndefinedTemplate("TEST")`, naming the missing template |

## Left out

- Regex compilation and matching (`new Regex`, `Match`, `GetGroupNames`,
  `Groups[name].Value`). These belong to the .NET regex engine, a foreign
  library. The engine is a parameter of `ExtractData`. Which group names it
  lists is up to the engine: `"0"`, numbers of unnamed groups, and their order.
- `Rewriter.RewriteGroupNames`, `Rewriter.RenderGroupNames`: `GroupNamesIn`
  reads the text of the expression, not its parse. It counts every `(?<name>`
  it sees, while .NET creates no group inside a character class `[...]` or
  after a `\` that escapes the `(`. These lemmas therefore cover only patterns
  whose literal text holds no `(` and no `[`, and puts no `\` right before a
  `%`. That also excludes a harmless escaped backslash `\\` before a token.
- `IsWordChar` models `\w` as ASCII letters, digits and `_`. The Unicode letter,
  mark and connector categories that .NET's `\w` also accepts are not modelled.
- The exception types: a failure is a `GrokError` value rather than a
  `KeyNotFoundException`, an `ArgumentException` or a `GrokException`. The model
  does not include exception messages. The failing template name is kept in the
  error value.
- `src/Grok/GrokException.cs` and `src/Grok/GrokFilter.cs`. They hold only
  constructors and properties, with no logic.
- The configuration/document overload of `ExtractData`, `DataExtracted`,
  multi-pattern merging, break-on-match, and the `int`/`long`/`decimal`/`double`/`boolean`
  conversions the tests exercise. `GrogEngine.cs` does not implement them.
- Recursive template expansion. The table is flat and never expanded.
- Thread safety of the static table and regex. It does not affect sequential
  behaviour.
