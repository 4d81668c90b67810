/**
 What is read from the header that translations/generate_translations_header.c writes, by a reader that does not know the
 writer, and what the lookup that comes with it finds.
 */
module EmbeddedLookup {

  import opened Options
  import opened Text
  import opened Embedder
  import opened EmbeddedHeader
  import opened HeaderReader
  import opened HeaderTails

  // ---------- Identifiers ----------

  predicate IsIdentifier(x: string) {
    x != "" && forall i :: 0 <= i < |x| ==> InIdentifier(x[i])
  }

  lemma NumbersAreIdentifiers(i: nat)
    ensures IsIdentifier(NameOf(i)) && IsIdentifier(DataOf(i))
  {
    DecimalIsNumber(i);
    NumberedIsIdentifier(NAME_PREFIX, Decimal(i));
    NumberedIsIdentifier(DATA_PREFIX, Decimal(i));
  }

  lemma NumberedIsIdentifier(prefix: string, digits: string)
    requires IsIdentifier(prefix) && forall i :: 0 <= i < |digits| ==> IsDigit(digits[i])
    ensures IsIdentifier(prefix + digits)
  {}

  /** All identifiers of a header are different. */
  lemma IdentifiersDiffer(i: nat, j: nat)
    ensures NameOf(i) != DataOf(j)
    ensures i != j ==> NameOf(i) != NameOf(j) && DataOf(i) != DataOf(j)
  {
    assert NameOf(i)[17] == NAME_PREFIX[17] == 'n' && DataOf(j)[17] == DATA_PREFIX[17] == 'd';
    DecimalIsNumber(i);
    DecimalIsNumber(j);
    assert NameOf(i)[|NAME_PREFIX|..] == Decimal(i) && NameOf(j)[|NAME_PREFIX|..] == Decimal(j);
    assert DataOf(i)[|DATA_PREFIX|..] == Decimal(i) && DataOf(j)[|DATA_PREFIX|..] == Decimal(j);
  }

  // ---------- One definition ----------

  /** A definition up to its value. */
  lemma DefinitionStarts(gap: string, x: string, value: string, s: string)
    requires AreSpaces(gap) && IsIdentifier(x) && s == gap + (DEFINES + (x + (" = " + value)))
    ensures Tok(STRING_DEFINITION, s) == Some(" " + (x + (" = " + value)))
    ensures ReadIdentifier(" " + (x + (" = " + value))) == Some(Identified(x, " = " + value))
    ensures Tok("=", " = " + value) == Some(" " + value)
  {
    var rest := x + (" = " + value);
    assert DEFINES + rest == STRING_DEFINITION + (" " + rest);
    TokIsRead(STRING_DEFINITION, gap, " " + rest, s);
    IdentifierIsRead(x, " ", " = " + value, " " + rest);
    assert " = " + value == " " + ("=" + (" " + value));
    TokIsRead("=", " ", " " + value, " = " + value);
  }

  lemma DefinitionIs(gap: string, x: string, value: string, s: string, v: Read)
    requires AreSpaces(gap) && IsIdentifier(x) && s == gap + (DEFINES + (x + (" = " + value))) && v == ReadValue(" " + value)
    ensures ReadDefinition(s) == if v.Bad? || Tok(";", v.rest).None? then None
                                 else Some(Defined(x, v.chars, Tok(";", v.rest).value))
  {
    DefinitionStarts(gap, x, value, s);
  }

  lemma LiteralValue(value: string)
    requires value != "" && value[0] == '"'
    ensures ReadValue(" " + value) == ReadLiterals(value)
  {
    LTrimBehind(" ", value);
    assert STRING_CALL[0] == 's';
  }

  lemma CalledValue(arguments: string, value: string)
    requires value == "std::string(" + arguments
    ensures ReadValue(" " + value) == ReadArguments(arguments)
  {
    TokIsRead(STRING_CALL, " ", arguments, " " + value);
  }

  lemma NameIsRead(gap: string, name: string, i: nat, more: string, s: string)
    requires AreSpaces(gap) && s == gap + NameDefinition(name, i, more)
    ensures PlainName(name) ==> ReadDefinition(s) == Some(Defined(NameOf(i), name, "\n" + more))
    ensures !PlainName(name) ==>
              ReadDefinition(s).None? || (ReadDefinition(s).value.name == NameOf(i) && ReadDefinition(s).value.value != name)
  {
    var value := NameText(name) + more;
    NumbersAreIdentifiers(i);
    assert value[0] == '"';
    LiteralValue(value);
    DefinitionIs(gap, NameOf(i), value, s, ReadLiterals(value));
    NameCondition(name, more, value);
    if PlainName(name) {
      assert ";\n" + more == "" + (";" + ("\n" + more));
      TokIsRead(";", "", "\n" + more, ";\n" + more);
    }
  }

  lemma DataIsRead(gap: string, data: string, i: nat, more: string, s: string)
    requires AreBytes(data) && AreSpaces(gap) && s == gap + DataDefinition(data, i, more)
    ensures ReadDefinition(s) == if data == "" then None else Some(Defined(DataOf(i), data, "\n\n" + more))
  {
    var end := ";\n\n" + more;
    NumbersAreIdentifiers(i);
    ArgumentsAreRead(data, end, DataText(data) + end, DataOf(i), gap, s);
    assert end == "" + (";" + ("\n\n" + more));
    TokIsRead(";", "", "\n\n" + more, end);
  }

  lemma ArgumentsAreRead(data: string, end: string, arguments: string, x: string, gap: string, s: string)
    requires AreBytes(data) && IsIdentifier(x) && AreSpaces(gap) && arguments == DataText(data) + end
    requires s == gap + (DEFINES + (x + (" = std::string(" + arguments)))
    ensures ReadDefinition(s) == if data == "" || Tok(";", end).None? then None
                                 else Some(Defined(x, data, Tok(";", end).value))
  {
    var value := "std::string(" + arguments;
    assert " = std::string(" + arguments == " = " + value;
    CalledValue(arguments, value);
    DefinitionIs(gap, x, value, s, ReadArguments(arguments));
    DataCondition(data, end, arguments);
  }

  // ---------- The table ----------

  lemma MemberIsRead(gap: string, x: string, rest: string, s: string)
    requires AreSpaces(gap) && IsIdentifier(x) && s == gap + (MEMBER_TYPE + (" " + ("*" + (x + (";" + rest)))))
    ensures ReadMember(s) == Some(Identified(x, rest))
  {
    var named := x + (";" + rest);
    TokIsRead(MEMBER_TYPE, gap, " " + ("*" + named), s);
    TokIsRead("*", " ", named, " " + ("*" + named));
    assert named == "" + named && ";" + rest == "" + (";" + rest);
    IdentifierIsRead(x, "", ";" + rest, named);
    TokIsRead(";", "", rest, ";" + rest);
  }

  lemma TableStartIsRead(rest: string, s: string)
    requires s == "\n" + ("}" + (" " + (TABLE_NAME + (" " + ("=" + (" " + ("{" + rest)))))))
    ensures ReadTableStart(s) == Some(rest)
  {
    var a, b := " " + ("{" + rest), " " + ("=" + (" " + ("{" + rest)));
    TokIsRead("}", "\n", " " + (TABLE_NAME + b), s);
    TokIsRead(TABLE_NAME, " ", b, " " + (TABLE_NAME + b));
    TokIsRead("=", " ", a, b);
    TokIsRead("{", " ", rest, a);
  }

  // The lines of the writer in the words of the reader.

  lemma StructureLine(more: string)
    ensures STRUCTURE_LINE + more == STRUCTURE + (" " + ("{" + ("\n" + more)))
  {}

  lemma NameMember(more: string)
    ensures NAME_MEMBER + more == "  " + (MEMBER_TYPE + (" " + ("*" + ("name" + (";" + ("\n" + more))))))
  {}

  lemma DataMember(more: string)
    ensures DATA_MEMBER + more == "  " + (MEMBER_TYPE + (" " + ("*" + ("data" + (";" + ("\n" + more))))))
  {}

  lemma TableLine(more: string)
    ensures TABLE_LINE + more == "}" + (" " + (TABLE_NAME + (" " + ("=" + (" " + ("{" + ("\n" + more)))))))
  {}

  lemma IndentedMember(x: string, more: string, line: string)
    requires IsIdentifier(x) && line == "  " + (MEMBER_TYPE + (" " + ("*" + (x + (";" + ("\n" + more))))))
    ensures ReadMember("\n" + line) == Some(Identified(x, "\n" + more))
  {
    var rest := MEMBER_TYPE + (" " + ("*" + (x + (";" + ("\n" + more)))));
    assert "\n" + line == "\n  " + rest;
    MemberIsRead("\n  ", x, "\n" + more, "\n" + line);
  }

  lemma StructureIsRead(gap: string, n: nat, s: string)
    requires AreSpaces(gap) && s == gap + Table(n)
    ensures ReadStructure(s) == Some(Structure("name", "data", "\n" + Rows(1, n)))
  {
    var c := NAME_MEMBER + (DATA_MEMBER + (TABLE_LINE + Rows(1, n)));
    StructureStartIsRead(gap, c, s);
    MembersAreRead(Rows(1, n), "\n" + c);
  }

  lemma MembersAreRead(rows: string, s: string)
    requires s == "\n" + (NAME_MEMBER + (DATA_MEMBER + (TABLE_LINE + rows)))
    ensures ReadMembers(s) == Some(Structure("name", "data", "\n" + rows))
  {
    var a := TABLE_LINE + rows;
    var b := DATA_MEMBER + a;
    NameMember(b);
    IndentedMember("name", b, NAME_MEMBER + b);
    DataMember(a);
    IndentedMember("data", a, b);
    TableLine(rows);
    TableStartIsRead("\n" + rows, "\n" + a);
  }

  lemma StructureStartIsRead(gap: string, c: string, s: string)
    requires AreSpaces(gap) && s == gap + (STRUCTURE_LINE + c)
    ensures ReadStructureStart(s) == Some("\n" + c)
  {
    StructureLine(c);
    TokIsRead(STRUCTURE, gap, " " + ("{" + ("\n" + c)), s);
    TokIsRead("{", " ", "\n" + c, " " + ("{" + ("\n" + c)));
  }

  lemma AddressIsRead(gap: string, x: string, rest: string, s: string)
    requires AreSpaces(gap) && IsIdentifier(x) && s == gap + ("&" + (x + rest)) && rest != "" && !InIdentifier(rest[0])
    ensures ReadAddress(s) == Some(Identified(x, rest))
  {
    TokIsRead("&", gap, x + rest, s);
    assert x + rest == "" + (x + rest);
    IdentifierIsRead(x, "", rest, x + rest);
  }

  lemma RowText(x: string, y: string, more: string, s: string)
    requires s == "\n" + ("  {&" + (x + (", &" + (y + ("},\n" + more)))))
    ensures s == "\n  " + ("{" + ("&" + (x + ("," + (" " + ("&" + (y + ("}" + ("," + ("\n" + more))))))))))
  {}

  lemma RowIsRead(i: nat, more: string, s: string)
    requires s == "\n" + Row(i, more)
    ensures ReadRow(s) == Some(Pair(NameOf(i), DataOf(i), "\n" + more)) && !IsTableEnd(s)
  {
    NumbersAreIdentifiers(i);
    RowText(NameOf(i), DataOf(i), more, s);
    PairIsRead(NameOf(i), DataOf(i), more, s);
    AddressIsNoEnd(NameOf(i) + ("," + (" " + ("&" + (DataOf(i) + ("}" + ("," + ("\n" + more))))))), s);
  }

  lemma AddressIsNoEnd(rest: string, s: string)
    requires s == "\n  " + ("{" + ("&" + rest))
    ensures !IsTableEnd(s)
  {
    TokIsRead("{", "\n  ", "&" + rest, s);
    assert LTrim("&" + rest) == "&" + rest && "NULL"[0] == 'N';
  }

  lemma PairIsRead(x: string, y: string, more: string, s: string)
    requires IsIdentifier(x) && IsIdentifier(y)
    requires s == "\n  " + ("{" + ("&" + (x + ("," + (" " + ("&" + (y + ("}" + ("," + ("\n" + more))))))))))
    ensures ReadRow(s) == Some(Pair(x, y, "\n" + more))
  {
    var end := "}" + ("," + ("\n" + more));
    var second := " " + ("&" + (y + end));
    RowStartIsRead(x, second, s);
    AddressIsRead(" ", y, end, second);
    RowEndIsRead(more, end);
  }

  lemma RowStartIsRead(x: string, second: string, s: string)
    requires IsIdentifier(x) && s == "\n  " + ("{" + ("&" + (x + ("," + second))))
    ensures ReadRowStart(s) == Some(Identified(x, second))
  {
    var comma := "," + second;
    var first := "&" + (x + comma);
    TokIsRead("{", "\n  ", first, s);
    assert first == "" + first && comma == "" + comma;
    AddressIsRead("", x, comma, first);
    TokIsRead(",", "", second, comma);
  }

  lemma RowEndIsRead(more: string, end: string)
    requires end == "}" + ("," + ("\n" + more))
    ensures ReadRowEnd(end) == Some("\n" + more)
  {
    var comma := "," + ("\n" + more);
    assert end == "" + end && comma == "" + comma;
    TokIsRead("}", "", comma, end);
    TokIsRead(",", "", "\n" + more, comma);
  }

  lemma NullsAreRead(x: string, s: string)
    requires s == "\n  " + ("{" + ("NULL" + ("," + (" " + ("NULL" + ("}" + x))))))
    ensures ReadNulls(s) == Some(x)
  {
    var w := "}" + x;
    var v := " " + ("NULL" + w);
    var u := "," + v;
    var t := "NULL" + u;
    assert t == "" + t && u == "" + u && w == "" + w;
    TokIsRead("{", "\n  ", t, s);
    TokIsRead("NULL", "", u, t);
    TokIsRead(",", "", v, u);
    TokIsRead("NULL", " ", w, v);
    TokIsRead("}", "", x, w);
  }

  lemma CloseIsRead(s: string)
    requires s == "\n" + ("}" + (";" + "\n\n"))
    ensures ClosesTable(s)
  {
    var y := ";" + "\n\n";
    assert y == "" + y && "\n\n" + "" == "\n\n";
    TokIsRead("}", "\n", y, s);
    TokIsRead(";", "", "\n\n", y);
    LTrimBehind("\n\n", "");
  }

  lemma EndIsRead(s: string)
    requires s == "\n" + (LAST_ROW + TABLE_END)
    ensures IsTableEnd(s)
  {
    var x := "\n" + ("}" + (";" + "\n\n"));
    assert s == "\n  " + ("{" + ("NULL" + ("," + (" " + ("NULL" + ("}" + x))))));
    NullsAreRead(x, s);
    CloseIsRead(x);
  }

  /** The identifiers of the rows from `i` to `n` are defined. */
  predicate AreDefined(env: Environment, i: nat, n: nat)
    decreases n - i
  {
    i > n || (NameOf(i) in env && DataOf(i) in env && AreDefined(env, i + 1, n))
  }

  /** What they are defined as. */
  function Meant(env: Environment, i: nat, n: nat): seq<(string, string)>
    requires AreDefined(env, i, n)
    decreases n - i
  {
    if i > n then [] else [(env[NameOf(i)], env[DataOf(i)])] + Meant(env, i + 1, n)
  }

  /** The rows lead to the values of the identifiers that they name. */
  lemma {:induction false} RowsAreRead(i: nat, n: nat, env: Environment, s: string)
    requires s == "\n" + Rows(i, n)
    ensures ReadRows(s, env) == if AreDefined(env, i, n) then Some(Meant(env, i, n)) else None
    decreases n - i
  {
    if i > n {
      EndIsRead(s);
    } else {
      RowIsRead(i, Rows(i + 1, n), s);
      RowsAreRead(i + 1, n, env, "\n" + Rows(i + 1, n));
    }
  }

  /** The table of a header, with blanks in front. */
  lemma TableIsRead(gap: string, n: nat, env: Environment, s: string)
    requires AreSpaces(gap) && s == gap + Table(n)
    ensures ReadTable(s, env) == if AreDefined(env, 1, n) then AsFiles(Meant(env, 1, n), "name", "data") else None
  {
    StructureIsRead(gap, n, s);
    RowsAreRead(1, n, env, "\n" + Rows(1, n));
  }

  lemma {:induction false} RowsHaveNoStar(i: nat, n: nat, s: string)
    requires s == "\n" + Rows(i, n)
    ensures Count(s, IsStar) == 0
    decreases n - i
  {
    if i > n {
      EndIsRead(s);
      NullsCount(s);
      CloseCounts(ReadNulls(s).value);
    } else {
      RowIsRead(i, Rows(i + 1, n), s);
      RowCounts(s);
      RowsHaveNoStar(i + 1, n, "\n" + Rows(i + 1, n));
    }
  }

  lemma WrittenTableLooksSo(n: nat, t: string)
    requires t == Table(n)
    ensures LooksLikeTable(t) && t != "" && !IsSpace(t[0])
  {
    assert t == "" + t && t[0] == STRUCTURE_LINE[0] == 's';
    StructureIsRead("", n, t);
    WrittenTableCounts(n, t);
    StructureStarts(t);
  }

  lemma WrittenTableCounts(n: nat, t: string)
    requires ReadStructure(t).Some? && ReadStructure(t).value.rest == "\n" + Rows(1, n)
    ensures Count(t, IsStar) == 2
  {
    StructureCounts(t);
    RowsHaveNoStar(1, n, "\n" + Rows(1, n));
  }

  // ---------- All definitions ----------

  /** A file that its header gives back. */
  predicate Survives(file: File) {
    PlainName(file.name) && file.data != ""
  }

  predicate AllSurvive(files: seq<File>) {
    forall k :: 0 <= k < |files| ==> Survives(files[k])
  }

  /** The identifiers numbered from `i` on are not defined yet. */
  ghost predicate IsFreeFrom(env: Environment, i: nat) {
    forall j: nat :: i <= j ==> NameOf(j) !in env && DataOf(j) !in env
  }

  function Extended(env: Environment, files: seq<File>, i: nat): Environment
    decreases |files|
  {
    if files == [] then env
    else Extended(env[NameOf(i) := files[0].name][DataOf(i) := files[0].data], files[1..], i + 1)
  }

  lemma StillFree(env: Environment, i: nat, name: string, data: string)
    requires IsFreeFrom(env, i)
    ensures IsFreeFrom(env[NameOf(i) := name][DataOf(i) := data], i + 1) && DataOf(i) !in env[NameOf(i) := name]
  {
    IdentifiersDiffer(i, i);
    forall j: nat | i < j ensures NameOf(j) !in env[NameOf(i) := name][DataOf(i) := data]
                          ensures DataOf(j) !in env[NameOf(i) := name][DataOf(i) := data] {
      IdentifiersDiffer(i, j);
      IdentifiersDiffer(j, i);
    }
  }

  /** Blanks, and then something that is no definition. */
  lemma NoMoreDefinitions(gap: string, n: nat, s: string)
    requires AreSpaces(gap) && s == gap + Table(n)
    ensures Tok(STRING_DEFINITION, s).None?
  {
    var t := Table(n);
    assert t[0] == STRUCTURE_LINE[0] == 's' && t[15] == STRUCTURE_LINE[15] == 'r' && STRING_DEFINITION[15] == 'd';
    LTrimBehind(gap, t);
  }

  /** What is left of the text behind the definitions, in front of the table. */
  function GapBehind(files: seq<File>, gap: string): string {
    if files == [] then gap else "\n\n"
  }

  /** Both definitions of a file that survives. */
  lemma FileIsDefined(gap: string, file: File, i: nat, more: string, env: Environment, s: string)
    requires AreBytes(file.data) && Survives(file) && AreSpaces(gap) && IsFreeFrom(env, i)
    requires s == gap + NameDefinition(file.name, i, DataDefinition(file.data, i, more))
    ensures ReadDefinitions(s, env) ==
            ReadDefinitions("\n\n" + more, env[NameOf(i) := file.name][DataOf(i) := file.data])
  {
    var second := DataDefinition(file.data, i, more);
    StillFree(env, i, file.name, file.data);
    NameIsRead(gap, file.name, i, second, s);
    DataIsRead("\n", file.data, i, more, "\n" + second);
    ReadOne(s, env, Defined(NameOf(i), file.name, "\n" + second));
    ReadOne("\n" + second, env[NameOf(i) := file.name], Defined(DataOf(i), file.data, "\n\n" + more));
  }

  lemma ReadOne(s: string, env: Environment, d: Defined)
    requires ReadDefinition(s) == Some(d) && d.name !in env
    ensures ReadDefinitions(s, env) == ReadDefinitions(d.rest, env[d.name := d.value])
  {
    DefinitionShrinks(s);
    assert Tok(STRING_DEFINITION, s).Some?;
  }

  lemma {:induction false} AllAreDefined(gap: string, files: seq<File>, i: nat, n: nat, env: Environment, s: string)
    requires AreReadable(files) && AllSurvive(files) && AreSpaces(gap) && IsFreeFrom(env, i)
    requires s == gap + Definitions(files, i, Table(n))
    ensures ReadDefinitions(s, env) == Some(Scope(Extended(env, files, i), GapBehind(files, gap) + Table(n)))
    decreases |files|
  {
    if files == [] {
      NoMoreDefinitions(gap, n, s);
    } else {
      var file, rest := files[0], files[1..];
      var env' := env[NameOf(i) := file.name][DataOf(i) := file.data];
      FileIsDefined(gap, file, i, Definitions(rest, i + 1, Table(n)), env, s);
      StillFree(env, i, file.name, file.data);
      AllAreDefined("\n\n", rest, i + 1, n, env', "\n\n" + Definitions(rest, i + 1, Table(n)));
    }
  }

  // ---------- Names that are misread ----------

  /** Either nothing is read, or some name is wrong in what is. */
  ghost predicate IsMisread(r: Option<Scope>, files: seq<File>, i: nat, s: string) {
    r.Some? ==> IsEnd(r.value.rest, s) && exists k :: IsWrongAt(r.value.env, files, i, k)
  }

  ghost predicate IsWrongAt(env: Environment, files: seq<File>, i: nat, k: int) {
    0 <= k < |files| && NameOf(i + k) in env && env[NameOf(i + k)] != files[k].name
  }

  lemma WrongNameStays(gap: string, name: string, files: seq<File>, i: nat, more: string, env: Environment, s: string)
    requires files != [] && files[0].name == name && !PlainName(name) && AreSpaces(gap) && IsFreeFrom(env, i)
    requires s == gap + NameDefinition(name, i, more)
    ensures IsMisread(ReadDefinitions(s, env), files, i, s)
  {
    NameIsRead(gap, name, i, more, s);
    NumbersAreIdentifiers(i);
    DefinitionStarts(gap, NameOf(i), NameText(name) + more, s);
    var d := ReadDefinition(s);
    if d.Some? && ReadDefinitions(s, env).Some? {
      DefinitionsKeep(s, env);
      ReadOne(s, env, d.value);
      DefinitionsKeep(d.value.rest, env[d.value.name := d.value.value]);
      assert IsWrongAt(ReadDefinitions(s, env).value.env, files, i, 0);
    }
  }

  lemma StopsAt(s: string, env: Environment)
    requires Tok(STRING_DEFINITION, s).Some? && ReadDefinition(s).None?
    ensures ReadDefinitions(s, env).None?
  {}

  lemma EmptyDataStops(data: string, i: nat, more: string, env: Environment, s: string)
    requires data == "" && s == "\n" + DataDefinition(data, i, more)
    ensures ReadDefinitions(s, env).None?
  {
    NumbersAreIdentifiers(i);
    var value := "std::string(" + (DataText(data) + (";\n\n" + more));
    assert " = std::string(" + (DataText(data) + (";\n\n" + more)) == " = " + value;
    DefinitionStarts("\n", DataOf(i), value, s);
    DataIsRead("\n", data, i, more, s);
    StopsAt(s, env);
  }

  lemma EmptyFileStops(gap: string, file: File, i: nat, more: string, env: Environment, s: string)
    requires PlainName(file.name) && file.data == "" && AreSpaces(gap) && IsFreeFrom(env, i)
    requires s == gap + NameDefinition(file.name, i, DataDefinition(file.data, i, more))
    ensures ReadDefinitions(s, env).None?
  {
    var second := DataDefinition(file.data, i, more);
    NameIsRead(gap, file.name, i, second, s);
    ReadOne(s, env, Defined(NameOf(i), file.name, "\n" + second));
    EmptyDataStops(file.data, i, more, env[NameOf(i) := file.name], "\n" + second);
  }

  lemma LaterIsMisread(r: Option<Scope>, files: seq<File>, i: nat, u: string, s: string)
    requires files != [] && IsMisread(r, files[1..], i + 1, u) && IsEnd(u, s)
    ensures IsMisread(r, files, i, s)
  {
    if r.Some? {
      EndOfEnd(r.value.rest, u, s);
      var k :| IsWrongAt(r.value.env, files[1..], i + 1, k);
      assert IsWrongAt(r.value.env, files, i, k + 1);
    }
  }

  lemma {:induction false} SomeAreMisread(gap: string, files: seq<File>, i: nat, n: nat, env: Environment, s: string)
    requires AreReadable(files) && !AllSurvive(files) && AreSpaces(gap) && IsFreeFrom(env, i)
    requires s == gap + Definitions(files, i, Table(n))
    ensures IsMisread(ReadDefinitions(s, env), files, i, s)
    decreases |files|, 0
  {
    var file, rest := files[0], files[1..];
    var more := Definitions(rest, i + 1, Table(n));
    if !PlainName(file.name) {
      WrongNameStays(gap, file.name, files, i, DataDefinition(file.data, i, more), env, s);
    } else if file.data == "" {
      EmptyFileStops(gap, file, i, more, env, s);
    } else {
      assert !AllSurvive(rest) by { assert files == [file] + rest; }
      OthersAreMisread(gap, files, file, rest, i, n, env, more, s);
    }
  }

  lemma {:induction false} OthersAreMisread(gap: string, files: seq<File>, file: File, rest: seq<File>, i: nat, n: nat,
                                            env: Environment, more: string, s: string)
    requires files != [] && file == files[0] && rest == files[1..] && Survives(file) && AreBytes(file.data)
    requires AreReadable(rest) && !AllSurvive(rest) && AreSpaces(gap) && IsFreeFrom(env, i)
    requires more == Definitions(rest, i + 1, Table(n))
    requires s == gap + NameDefinition(file.name, i, DataDefinition(file.data, i, more))
    ensures IsMisread(ReadDefinitions(s, env), files, i, s)
    decreases |rest|, 1
  {
    var next, env' := "\n\n" + more, env[NameOf(i) := file.name][DataOf(i) := file.data];
    StillFree(env, i, file.name, file.data);
    SomeAreMisread("\n\n", rest, i + 1, n, env', next);
    GoesOn(gap, file, i, more, env, s, files, ReadDefinitions(next, env'));
  }

  lemma GoesOn(gap: string, file: File, i: nat, more: string, env: Environment, s: string, files: seq<File>, r: Option<Scope>)
    requires AreBytes(file.data) && Survives(file) && AreSpaces(gap) && IsFreeFrom(env, i) && files != []
    requires s == gap + NameDefinition(file.name, i, DataDefinition(file.data, i, more))
    requires r == ReadDefinitions("\n\n" + more, env[NameOf(i) := file.name][DataOf(i) := file.data])
    requires IsMisread(r, files[1..], i + 1, "\n\n" + more)
    ensures IsMisread(ReadDefinitions(s, env), files, i, s)
  {
    FileIsDefined(gap, file, i, more, env, s);
    BehindFile(gap, file, i, more, s);
    LaterIsMisread(r, files, i, "\n\n" + more, s);
  }

  lemma BehindFile(gap: string, file: File, i: nat, more: string, s: string)
    requires AreBytes(file.data) && s == gap + NameDefinition(file.name, i, DataDefinition(file.data, i, more))
    ensures IsEnd("\n\n" + more, s)
  {
    var second := DataDefinition(file.data, i, more);
    EndBehind("", "\n\n" + more, "\n\n" + more);
    SecondEnds(file.data, i, more);
    EndBehind(gap + (DEFINES + (NameOf(i) + (" = " + NameText(file.name)))), second, s);
    EndOfEnd("\n\n" + more, second, s);
  }

  lemma SecondEnds(data: string, i: nat, more: string)
    requires AreBytes(data)
    ensures IsEnd("\n\n" + more, DataDefinition(data, i, more))
  {
    var front := DEFINES + (DataOf(i) + (" = std::string(" + (DataText(data) + ";")));
    assert DataDefinition(data, i, more) == front + ("\n\n" + more);
  }

  // ---------- The whole header ----------

  lemma {:induction false} ExtendedKeeps(env: Environment, files: seq<File>, i: nat, x: string)
    requires x in env && forall j: nat :: i <= j ==> x != NameOf(j) && x != DataOf(j)
    ensures x in Extended(env, files, i) && Extended(env, files, i)[x] == env[x]
    decreases |files|
  {
    if files != [] {
      ExtendedKeeps(env[NameOf(i) := files[0].name][DataOf(i) := files[0].data], files[1..], i + 1, x);
    }
  }

  /** The pairs of values that belong to the files. */
  function PairsOf(files: seq<File>): seq<(string, string)> {
    if files == [] then [] else [(files[0].name, files[0].data)] + PairsOf(files[1..])
  }

  /** Each identifier of a file has the value that it was defined with. */
  lemma FirstIsKept(env: Environment, files: seq<File>, i: nat, all: Environment)
    requires files != [] && all == Extended(env, files, i)
    ensures NameOf(i) in all && all[NameOf(i)] == files[0].name && DataOf(i) in all && all[DataOf(i)] == files[0].data
  {
    var env' := env[NameOf(i) := files[0].name][DataOf(i) := files[0].data];
    IdentifiersDiffer(i, i);
    forall j: nat | i < j ensures NameOf(i) != NameOf(j) && NameOf(i) != DataOf(j)
                          ensures DataOf(i) != NameOf(j) && DataOf(i) != DataOf(j) {
      IdentifiersDiffer(i, j);
      IdentifiersDiffer(j, i);
    }
    ExtendedKeeps(env', files[1..], i + 1, NameOf(i));
    ExtendedKeeps(env', files[1..], i + 1, DataOf(i));
  }

  lemma {:induction false} FilesAreMeant(env: Environment, files: seq<File>, i: nat, n: nat, all: Environment)
    requires n + 1 == i + |files| && all == Extended(env, files, i)
    ensures AreDefined(all, i, n) && Meant(all, i, n) == PairsOf(files)
    decreases |files|
  {
    if files != [] {
      FirstIsKept(env, files, i, all);
      FilesAreMeant(env[NameOf(i) := files[0].name][DataOf(i) := files[0].data], files[1..], i + 1, n, all);
    }
  }

  lemma {:induction false} PairsAt(files: seq<File>, k: nat)
    requires k < |files|
    ensures |PairsOf(files)| == |files| && PairsOf(files)[k] == (files[k].name, files[k].data)
    decreases |files|
  {
    if |files| > 1 {
      PairsAt(files[1..], if k > 0 then k - 1 else 0);
    }
  }

  lemma PairsAreFiles(files: seq<File>)
    ensures AsFiles(PairsOf(files), "name", "data") == Some(files)
  {
    if files != [] { PairsAt(files, 0); }
    var r := AsFiles(PairsOf(files), "name", "data").value;
    forall k | 0 <= k < |files| ensures r[k] == files[k] { PairsAt(files, k); }
    assert r == files;
  }

  lemma {:induction false} MeantAt(env: Environment, i: nat, n: nat, j: nat)
    requires AreDefined(env, i, n) && i <= j <= n
    ensures NameOf(j) in env && DataOf(j) in env && |Meant(env, i, n)| == n + 1 - i
    ensures Meant(env, i, n)[j - i] == (env[NameOf(j)], env[DataOf(j)])
    decreases n - i
  {
    if i < n {
      MeantAt(env, i + 1, n, if j > i then j else i + 1);
    } else {
      assert Meant(env, i + 1, n) == [];
    }
  }

  lemma DirectiveIsSkipped(line: string, rest: string, s: string)
    requires '\n' !in line && s == "#" + (line + ("\n" + rest))
    ensures SkipDirectives(s) == SkipDirectives(rest)
  {
    assert LTrim(s) == s && s[1..] == line + ("\n" + rest);
    LineIsSkipped(line, rest, s[1..]);
  }

  lemma {:induction false} LineIsSkipped(line: string, rest: string, s: string)
    requires '\n' !in line && s == line + ("\n" + rest)
    ensures BehindLine(s) == rest
    decreases |line|
  {
    if line == "" {
      assert s == "\n" + rest && s[1..] == rest;
    } else {
      assert s[0] == line[0] && s[1..] == line[1..] + ("\n" + rest);
      LineIsSkipped(line[1..], rest, s[1..]);
    }
  }

  lemma BlankLineIsSkipped(rest: string, s: string)
    requires s == "\n" + rest
    ensures SkipDirectives(s) == SkipDirectives(rest)
  {
    assert s[1..] == rest;
  }

  lemma LineIsDirective(line: string, name: string, rest: string)
    requires line == "#" + (name + "\n") && '\n' !in name
    ensures SkipDirectives(line + rest) == SkipDirectives(rest)
  {
    assert line + rest == "#" + (name + ("\n" + rest));
    DirectiveIsSkipped(name, rest, line + rest);
  }

  lemma LinesAreDirectives(line: string, name: string, rest: string)
    requires line == "#" + (name + "\n") + "\n" && '\n' !in name
    ensures SkipDirectives(line + rest) == SkipDirectives(rest)
  {
    var blank := "\n" + rest;
    assert line + rest == "#" + (name + "\n") + blank;
    LineIsDirective("#" + (name + "\n"), name, blank);
    BlankLineIsSkipped(rest, blank);
  }

  lemma ThreeAreSkipped(a: string, x: string, b: string, y: string, c: string, z: string, body: string)
    requires a == "#" + (x + "\n") && b == "#" + (y + "\n") + "\n" && c == "#" + (z + "\n") + "\n"
    requires '\n' !in x && '\n' !in y && '\n' !in z && body != "" && body[0] == 's'
    ensures SkipDirectives(a + (b + (c + body))) == body
  {
    LineIsDirective(a, x, b + (c + body));
    LinesAreDirectives(b, y, c + body);
    LinesAreDirectives(c, z, body);
    assert LTrim(body) == body;
  }

  lemma PreludeIsSkipped(body: string)
    requires body != "" && body[0] == 's'
    ensures SkipDirectives(Guarded(body)) == body
  {
    ThreeAreSkipped(GUARD_LINE, "ifndef TRANSLATION_FILES_H", DEFINE_LINE, "define TRANSLATION_FILES_H",
                    INCLUDE_LINE, "include <string>", body);
  }

  lemma BodyStarts(files: seq<File>)
    requires AreReadable(files)
    ensures var body := Definitions(files, 1, Table(|files|)); body != "" && body[0] == 's'
  {
    var body := Definitions(files, 1, Table(|files|));
    if files == [] {
      assert body[0] == STRUCTURE_LINE[0];
    } else {
      assert body[0] == DEFINES[0];
    }
  }

  lemma {:induction false} TableEnds(files: seq<File>, i: nat, t: string)
    requires AreReadable(files)
    ensures IsEnd(t, Definitions(files, i, t))
    decreases |files|
  {
    if files != [] {
      var more := Definitions(files[1..], i + 1, t);
      TableEnds(files[1..], i + 1, t);
      var s := Definitions(files, i, t);
      assert s == "" + s;
      BehindFile("", files[0], i, more, s);
      EndBehind("\n\n", more, "\n\n" + more);
      EndOfEnd(t, more, "\n\n" + more);
      EndOfEnd(t, "\n\n" + more, s);
    }
  }

  lemma SurvivorsAreRead(files: seq<File>, body: string, env: Environment, r: Option<Scope>)
    requires AreReadable(files) && AllSurvive(files) && body == Definitions(files, 1, Table(|files|)) && IsFreeFrom(env, 1)
    requires r == ReadDefinitions(body, env)
    ensures r.Some? && ReadTable(r.value.rest, r.value.env) == Some(files)
  {
    var all, gap := BodyIsRead(files, body, env, |files|);
    FilesAreRead(files, env, all, gap);
  }

  lemma BodyIsRead(files: seq<File>, body: string, env: Environment, n: nat) returns (all: Environment, gap: string)
    requires AreReadable(files) && AllSurvive(files) && body == Definitions(files, 1, Table(n)) && IsFreeFrom(env, 1)
    ensures all == Extended(env, files, 1) && AreSpaces(gap) && ReadDefinitions(body, env) == Some(Scope(all, gap + Table(n)))
  {
    all, gap := Extended(env, files, 1), GapBehind(files, "");
    assert body == "" + body;
    AllAreDefined("", files, 1, n, env, body);
  }

  lemma FilesAreRead(files: seq<File>, env: Environment, all: Environment, gap: string)
    requires all == Extended(env, files, 1) && AreSpaces(gap)
    ensures ReadTable(gap + Table(|files|), all) == Some(files)
  {
    FilesAreMeant(env, files, 1, |files|, all);
    TableIsRead(gap, |files|, all, gap + Table(|files|));
    PairsAreFiles(files);
  }

  lemma FilesOfPairs(pairs: seq<(string, string)>, files: seq<File>, k: nat)
    requires AsFiles(pairs, "name", "data") == Some(files) && k < |files|
    ensures |pairs| == |files| && pairs[k].0 == files[k].name
  {}

  lemma WrongNameShows(files: seq<File>, env: Environment, gap: string, u: string, k: int)
    requires AreSpaces(gap) && u == gap + Table(|files|) && IsWrongAt(env, files, 1, k)
    ensures ReadTable(u, env) != Some(files)
  {
    TableIsRead(gap, |files|, env, u);
    if AreDefined(env, 1, |files|) { WrongPairShows(files, env, k); }
  }

  lemma WrongPairShows(files: seq<File>, env: Environment, k: int)
    requires IsWrongAt(env, files, 1, k) && AreDefined(env, 1, |files|)
    ensures AsFiles(Meant(env, 1, |files|), "name", "data") != Some(files)
  {
    MeantAt(env, 1, |files|, 1 + k);
    if AsFiles(Meant(env, 1, |files|), "name", "data") == Some(files) {
      FilesOfPairs(Meant(env, 1, |files|), files, k);
      assert false;
    }
  }

  lemma MisreadIsDifferent(files: seq<File>, body: string, env: Environment, r: Option<Scope>)
    requires AreReadable(files) && !AllSurvive(files) && body == Definitions(files, 1, Table(|files|)) && IsFreeFrom(env, 1)
    requires r == ReadDefinitions(body, env)
    ensures r.Some? ==> ReadTable(r.value.rest, r.value.env) != Some(files)
  {
    assert body == "" + body;
    SomeAreMisread("", files, 1, |files|, env, body);
    if r.Some? && ReadTable(r.value.rest, r.value.env).Some? {
      var k :| IsWrongAt(r.value.env, files, 1, k);
      var gap := OnlyTableIsLeft(files, body, r.value.rest, r.value.env);
      WrongNameShows(files, r.value.env, gap, r.value.rest, k);
    }
  }

  lemma OnlyTableIsLeft(files: seq<File>, body: string, u: string, env: Environment) returns (gap: string)
    requires AreReadable(files) && body == Definitions(files, 1, Table(|files|)) && IsEnd(u, body) && ReadTable(u, env).Some?
    ensures AreSpaces(gap) && u == gap + Table(|files|)
  {
    var t := Table(|files|);
    TableLooksSo(u, env);
    WrittenTableLooksSo(|files|, t);
    TableEnds(files, 1, t);
    gap := TableIsAtEnd(body, t, u);
  }

  /** The header reads as exactly the files it was made from where no file is empty and every name is plain. */
  lemma HeaderCondition(files: seq<File>)
    requires AreReadable(files)
    ensures ReadHeader(HeaderText(files)) == Some(files) <==> AllSurvive(files)
  {
    var body := Definitions(files, 1, Table(|files|));
    BodyStarts(files);
    PreludeIsSkipped(body);
    if AllSurvive(files) {
      SurvivorsAreRead(files, body, map[], ReadDefinitions(body, map[]));
    } else {
      MisreadIsDifferent(files, body, map[], ReadDefinitions(body, map[]));
    }
  }

  /** Writing the header, reading it and looking a file up: with different names every file is found with its data, and
      nothing else is found. */
  method FindGenerated(files: seq<File>, name: string, before: string) returns (found: bool, data: string)
    requires AreReadable(files) && AllSurvive(files)
    requires forall j, k :: 0 <= j < k < |files| ==> files[j].name != files[k].name
    ensures found <==> exists k :: 0 <= k < |files| && files[k].name == name
    ensures forall k :: 0 <= k < |files| && files[k].name == name ==> data == files[k].data
    ensures !found ==> data == before
  {
    var text := Generate(files);
    HeaderCondition(files);
    var embedded := ReadHeader(text);
    found, data := FindEmbeddedFile(embedded.value, name, before);
  }

  // ---------- Lines ----------

  predicate IsLineEnd(c: char) {
    c == '\n'
  }

  lemma EscapeHasNoLineEnd(c: char)
    requires IsByte(c)
    ensures Count(Escape(c), IsLineEnd) == 0
  {
    CountNone(Escape(c), IsLineEnd);
  }

  lemma BreaksCount(j: nat)
    ensures Count(LineBreak(j), IsLineEnd) == if j % 16 == 0 then 1 else 0
  {
    var a, b, c := "\"", "\n", "  \"";
    CountNone(a, IsLineEnd);
    CountNone(c, IsLineEnd);
    assert Count(b, IsLineEnd) == 1 by { assert b[1..] == ""; }
    ThreeCount(a, b, c, a + b + c, IsLineEnd);
    CountSplits(b, c, IsLineEnd);
    assert "\"\n  \"" == a + b + c && "\n  \"" == b + c;
  }

  /** Every line holds sixteen bytes, the last one what is left. */
  lemma {:induction false} LinesOfSixteen(data: string, j: nat)
    requires AreBytes(data) && j <= |data|
    ensures Count(Emitted(data, j), IsLineEnd) == (|data| + 15) / 16 - (j + 15) / 16
    decreases |data| - j
  {
    if j < |data| {
      LinesOfSixteen(data, j + 1);
      BreaksCount(j);
      EscapeHasNoLineEnd(data[j]);
      ThreeCount(LineBreak(j), Escape(data[j]), Emitted(data, j + 1), Emitted(data, j), IsLineEnd);
    }
  }
}
