/** The fixed table of templates a token's TYPE is looked up in. */
module Templates {
  import opened Wrappers

  /** TYPE name to regular-expression fragment. The table is flat: no fragment refers to another template. */
  const Types: map<string, string> := map["WORD" := "\\w+", "NUMBER" := "\\d+"]

  /** The fragment for `kind`, or None when the table does not define it. */
  function Lookup(kind: string): (r: Option<string>)
    ensures r.Some? <==> kind == "WORD" || kind == "NUMBER"
    ensures kind == "WORD" ==> r == Some("\\w+")
    ensures kind == "NUMBER" ==> r == Some("\\d+")
    ensures r.Some? ==> kind in Types && r.value == Types[kind]
  {
    if kind in Types then Some(Types[kind]) else None
  }

  /** No fragment opens a group or starts a token. */
  lemma FragmentsArePlain(kind: string)
    requires kind in Types
    ensures '(' !in Types[kind] && '%' !in Types[kind]
  {
  }
}
