/**
 A reader for the kind of C++ header that translations/generate_translations_header.c writes. It knows the language and
 not the writer: definitions of strings by identifier, a structure with two members, and a table of pairs of identifiers.
 */
module HeaderReader {

  import opened Options
  import opened Text
  import opened Embedder

  // ---------- Words ----------

  /** The text behind `token`, blanks in front of it aside. */
  function Tok(token: string, s: string): (r: Option<string>)
    ensures r.Some? ==> |r.value| + |token| <= |s|
  {
    var t := LTrim(s);
    if token <= t then Some(t[|token|..]) else None
  }

  predicate InIdentifier(c: char) {
    'a' <= c <= 'z' || 'A' <= c <= 'Z' || '0' <= c <= '9' || c == '_'
  }

  function IdentifierRun(s: string): (x: string)
    ensures x <= s && forall i :: 0 <= i < |x| ==> InIdentifier(x[i])
  {
    if s != "" && InIdentifier(s[0]) then [s[0]] + IdentifierRun(s[1..]) else ""
  }

  datatype Identified = Identified(name: string, rest: string)

  function ReadIdentifier(s: string): (r: Option<Identified>)
    ensures r.Some? ==> |r.value.rest| < |s|
  {
    var t := LTrim(s);
    var x := IdentifierRun(t);
    if x == "" then None else Some(Identified(x, t[|x|..]))
  }

  /** The text behind lines that start with '#'. */
  function SkipDirectives(s: string): string
    decreases |s|
  {
    var t := LTrim(s);
    if t != "" && t[0] == '#' then SkipDirectives(BehindLine(t[1..])) else t
  }

  function BehindLine(s: string): (r: string)
    ensures |r| <= |s|
  {
    if s == "" then "" else if s[0] == '\n' then s[1..] else BehindLine(s[1..])
  }

  // ---------- Definitions ----------

  const STRING_DEFINITION := "static const std::string"
  const STRING_CALL := "std::string("

  /** A literal, or std::string of a literal and a count. */
  function ReadValue(s: string): Read {
    var t := Tok(STRING_CALL, s);
    if t.Some? then ReadArguments(t.value) else ReadLiterals(s)
  }

  datatype Defined = Defined(name: string, value: string, rest: string)

  /** static const std::string X = value; */
  function ReadDefinition(s: string): Option<Defined> {
    var t := Tok(STRING_DEFINITION, s);
    if t.None? then None
    else
      var x := ReadIdentifier(t.value);
      if x.None? then None
      else
        var u := Tok("=", x.value.rest);
        if u.None? then None
        else
          var v := ReadValue(u.value);
          if v.Bad? then None
          else
            var rest := Tok(";", v.rest);
            if rest.None? then None else Some(Defined(x.value.name, v.chars, rest.value))
  }

  lemma LiteralsShrink(s: string)
    ensures var r := ReadLiterals(s); r.Read? ==> |r.rest| <= |s|
  {
    var t := LTrim(s);
    if t != "" {
      InsideShrinks(t[1..]);
    }
  }

  lemma ValueShrinks(s: string)
    ensures var r := ReadValue(s); r.Read? ==> |r.rest| <= |s|
  {
    LiteralsShrink(s);
    var t := Tok(STRING_CALL, s);
    if t.Some? {
      LiteralsShrink(t.value);
    }
  }

  lemma DefinitionShrinks(s: string)
    ensures var r := ReadDefinition(s); r.Some? ==> |r.value.rest| < |s|
  {
    var t := Tok(STRING_DEFINITION, s);
    if t.Some? && ReadIdentifier(t.value).Some? {
      var u := Tok("=", ReadIdentifier(t.value).value.rest);
      if u.Some? { ValueShrinks(u.value); }
    }
  }

  type Environment = map<string, string>

  datatype Scope = Scope(env: Environment, rest: string)

  /** All definitions; no identifier is defined twice. */
  function ReadDefinitions(s: string, env: Environment): Option<Scope>
    decreases |s|
  {
    if Tok(STRING_DEFINITION, s).None? then Some(Scope(env, s))
    else
      var d := ReadDefinition(s);
      DefinitionShrinks(s);
      if d.None? || d.value.name in env then None
      else ReadDefinitions(d.value.rest, env[d.value.name := d.value.value])
  }

  // ---------- The table ----------

  const STRUCTURE := "static const struct embedded_file"
  const MEMBER_TYPE := "const std::string"
  const TABLE_NAME := "embedded_files[]"

  /** const std::string *member; */
  function ReadMember(s: string): (r: Option<Identified>) {
    var t := Tok(MEMBER_TYPE, s);
    if t.None? then None
    else
      var u := Tok("*", t.value);
      if u.None? then None
      else
        var x := ReadIdentifier(u.value);
        if x.None? then None
        else
          var rest := Tok(";", x.value.rest);
          if rest.None? then None else Some(Identified(x.value.name, rest.value))
  }

  datatype Structure = Structure(first: string, second: string, rest: string)

  /** static const struct embedded_file { */
  function ReadStructureStart(s: string): Option<string> {
    var t := Tok(STRUCTURE, s);
    if t.None? then None else Tok("{", t.value)
  }

  /** two members } embedded_files[] = { */
  function ReadMembers(s: string): Option<Structure> {
    var first := ReadMember(s);
    if first.None? then None
    else
      var second := ReadMember(first.value.rest);
      if second.None? then None
      else
        var rest := ReadTableStart(second.value.rest);
        if rest.None? then None else Some(Structure(first.value.name, second.value.name, rest.value))
  }

  function ReadStructure(s: string): Option<Structure> {
    var t := ReadStructureStart(s);
    if t.None? then None else ReadMembers(t.value)
  }

  /** } embedded_files[] = { */
  function ReadTableStart(s: string): Option<string> {
    var t := Tok("}", s);
    if t.None? then None
    else
      var u := Tok(TABLE_NAME, t.value);
      if u.None? || Tok("=", u.value).None? then None else Tok("{", Tok("=", u.value).value)
  }

  /** &X and what follows it */
  function ReadAddress(s: string): (r: Option<Identified>)
    ensures r.Some? ==> |r.value.rest| < |s|
  {
    var t := Tok("&", s);
    if t.None? then None else ReadIdentifier(t.value)
  }

  datatype Pair = Pair(first: string, second: string, rest: string)

  /** {&X, */
  function ReadRowStart(s: string): (r: Option<Identified>)
    ensures r.Some? ==> |r.value.rest| < |s|
  {
    var t := Tok("{", s);
    if t.None? then None
    else
      var x := ReadAddress(t.value);
      if x.None? then None
      else
        var rest := Tok(",", x.value.rest);
        if rest.None? then None else Some(Identified(x.value.name, rest.value))
  }

  /** {&X, &Y}, */
  function ReadRow(s: string): (r: Option<Pair>)
    ensures r.Some? ==> |r.value.rest| < |s|
  {
    var x := ReadRowStart(s);
    if x.None? then None
    else
      var y := ReadAddress(x.value.rest);
      if y.None? then None
      else
        var rest := ReadRowEnd(y.value.rest);
        if rest.None? then None else Some(Pair(x.value.name, y.value.name, rest.value))
  }

  /** }, */
  function ReadRowEnd(s: string): (r: Option<string>)
    ensures r.Some? ==> |r.value| < |s|
  {
    var t := Tok("}", s);
    if t.None? then None else Tok(",", t.value)
  }

  /** {NULL, NULL} */
  function ReadNulls(s: string): Option<string> {
    var t := Tok("{", s);
    if t.None? || Tok("NULL", t.value).None? then None
    else
      var u := Tok(",", Tok("NULL", t.value).value);
      if u.None? || Tok("NULL", u.value).None? then None else Tok("}", Tok("NULL", u.value).value)
  }

  /** }; and nothing else */
  predicate ClosesTable(s: string) {
    var t := Tok("}", s);
    t.Some? && Tok(";", t.value).Some? && LTrim(Tok(";", t.value).value) == ""
  }

  predicate IsTableEnd(s: string) {
    ReadNulls(s).Some? && ClosesTable(ReadNulls(s).value)
  }

  /** The pairs of values that the rows lead to. */
  function ReadRows(s: string, env: Environment): Option<seq<(string, string)>>
    decreases |s|
  {
    if IsTableEnd(s) then Some([])
    else
      var row := ReadRow(s);
      if row.None? || row.value.first !in env || row.value.second !in env then None
      else
        var others := ReadRows(row.value.rest, env);
        if others.None? then None else Some([(env[row.value.first], env[row.value.second])] + others.value)
  }

  /** The pairs as files, by the members that they are for. */
  function AsFiles(pairs: seq<(string, string)>, first: string, second: string): Option<seq<File>> {
    if first == "name" && second == "data" then
      Some(seq(|pairs|, k requires 0 <= k < |pairs| => File(pairs[k].0, pairs[k].1)))
    else if first == "data" && second == "name" then
      Some(seq(|pairs|, k requires 0 <= k < |pairs| => File(pairs[k].1, pairs[k].0)))
    else None
  }

  function ReadTable(s: string, env: Environment): Option<seq<File>> {
    var structure := ReadStructure(s);
    if structure.None? then None
    else
      var pairs := ReadRows(structure.value.rest, env);
      if pairs.None? then None else AsFiles(pairs.value, structure.value.first, structure.value.second)
  }

  /** The files that a header embeds, or None where it is not of this kind. */
  function ReadHeader(s: string): Option<seq<File>> {
    var defined := ReadDefinitions(SkipDirectives(s), map[]);
    if defined.None? then None else ReadTable(defined.value.rest, defined.value.env)
  }

  // ---------- What reading a word takes ----------

  lemma {:induction false} LTrimBehind(gap: string, s: string)
    requires forall i :: 0 <= i < |gap| ==> IsSpace(gap[i])
    ensures LTrim(gap + s) == LTrim(s)
    decreases |gap|
  {
    if gap == "" {
      assert gap + s == s;
    } else {
      assert (gap + s)[1..] == gap[1..] + s;
      LTrimBehind(gap[1..], s);
    }
  }

  lemma TokIsRead(token: string, gap: string, rest: string, s: string)
    requires (forall i :: 0 <= i < |gap| ==> IsSpace(gap[i])) && token != "" && !IsSpace(token[0])
    requires s == gap + (token + rest)
    ensures Tok(token, s) == Some(rest)
  {
    LTrimBehind(gap, token + rest);
    assert (token + rest)[0] == token[0] && (token + rest)[|token|..] == rest;
  }

  lemma {:induction false} RunOfIdentifier(x: string, rest: string, s: string)
    requires (forall i :: 0 <= i < |x| ==> InIdentifier(x[i])) && s == x + rest && (rest == "" || !InIdentifier(rest[0]))
    ensures IdentifierRun(s) == x
    decreases |x|
  {
    if x == "" {
      assert s == rest;
    } else {
      assert s[1..] == x[1..] + rest;
      RunOfIdentifier(x[1..], rest, s[1..]);
    }
  }

  lemma IdentifierIsRead(x: string, gap: string, rest: string, s: string)
    requires (forall i :: 0 <= i < |gap| ==> IsSpace(gap[i])) && x != "" && (forall i :: 0 <= i < |x| ==> InIdentifier(x[i]))
    requires s == gap + (x + rest) && (rest == "" || !InIdentifier(rest[0]))
    ensures ReadIdentifier(s) == Some(Identified(x, rest))
  {
    LTrimBehind(gap, x + rest);
    assert (x + rest)[0] == x[0] && (x + rest)[|x|..] == rest;
    RunOfIdentifier(x, rest, x + rest);
  }
}
