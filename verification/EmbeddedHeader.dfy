/**
 The header that translations/generate_translations_header.c writes, up to the end of its table: two definitions a
 file, numbered from 1, and a table that refers to them. Each piece of text is given with what follows it.
 */
module EmbeddedHeader {

  import opened Text
  import opened Embedder

  const GUARD_LINE := "#" + ("ifndef TRANSLATION_FILES_H" + "\n")
  const DEFINE_LINE := "#" + ("define TRANSLATION_FILES_H" + "\n") + "\n"
  const INCLUDE_LINE := "#" + ("include <string>" + "\n") + "\n"
  const DEFINES := "static const std::string "
  const NAME_PREFIX := "translation_file_name_"
  const DATA_PREFIX := "translation_file_data_"
  const STRUCTURE_LINE := "static const struct embedded_file {\n"
  const NAME_MEMBER := "  const std::string *name;\n"
  const DATA_MEMBER := "  const std::string *data;\n"
  const TABLE_LINE := "} embedded_files[] = {\n"
  const LAST_ROW := "  {NULL, NULL}\n"
  const TABLE_END := "};\n\n"

  predicate AreReadable(files: seq<File>) {
    forall i :: 0 <= i < |files| ==> AreBytes(files[i].data)
  }

  function NameOf(i: nat): string {
    NAME_PREFIX + Decimal(i)
  }

  function DataOf(i: nat): string {
    DATA_PREFIX + Decimal(i)
  }

  function NameDefinition(name: string, i: nat, more: string): string {
    DEFINES + (NameOf(i) + (" = " + (NameText(name) + more)))
  }

  function DataDefinition(data: string, i: nat, more: string): string
    requires AreBytes(data)
  {
    DEFINES + (DataOf(i) + (" = std::string(" + (DataText(data) + (";\n\n" + more))))
  }

  /** The definitions of files that are numbered from `i` on. */
  function Definitions(files: seq<File>, i: nat, more: string): string
    requires AreReadable(files)
  {
    if files == [] then more
    else NameDefinition(files[0].name, i, DataDefinition(files[0].data, i, Definitions(files[1..], i + 1, more)))
  }

  function Row(i: nat, more: string): string {
    "  {&" + (NameOf(i) + (", &" + (DataOf(i) + ("},\n" + more))))
  }

  /** The rows from `i` to `n` and the end of the table. */
  function Rows(i: nat, n: nat): string
    decreases n - i
  {
    if i > n then LAST_ROW + TABLE_END else Row(i, Rows(i + 1, n))
  }

  function Table(n: nat): string {
    STRUCTURE_LINE + (NAME_MEMBER + (DATA_MEMBER + (TABLE_LINE + Rows(1, n))))
  }

  /** The lines in front of the definitions. */
  function Guarded(body: string): string {
    GUARD_LINE + (DEFINE_LINE + (INCLUDE_LINE + body))
  }

  function HeaderText(files: seq<File>): string
    requires AreReadable(files)
  {
    Guarded(Definitions(files, 1, Table(|files|)))
  }

  // ---------- The program ----------

  lemma ThreePieces(a: string, b: string, c: string, more: string)
    ensures a + b + c + more == a + (b + (c + more))
  {}

  lemma FourPieces(text: string, a: string, b: string, c: string, d: string, more: string)
    ensures text + a + b + c + d + more == text + (a + (b + (c + (d + more))))
  {}

  lemma FivePieces(text: string, a: string, b: string, c: string, d: string, e: string, more: string)
    ensures text + a + b + c + d + e + more == text + (a + (b + (c + (d + (e + more)))))
  {}

  /** The definitions of one file, behind what has been written. */
  method EmitDefinitions(before: string, file: File, i: nat, ghost more: string) returns (text: string)
    requires AreBytes(file.data)
    ensures text + more == before + NameDefinition(file.name, i, DataDefinition(file.data, i, more))
  {
    text := before + DEFINES + NameOf(i) + " = " + NameText(file.name);
    FourPieces(before, DEFINES, NameOf(i), " = ", NameText(file.name), DataDefinition(file.data, i, more));
    ghost var half := text;
    var data := EmitData(file.data);
    text := text + DEFINES + DataOf(i) + " = std::string(" + data + ";\n\n";
    FivePieces(half, DEFINES, DataOf(i), " = std::string(", data, ";\n\n", more);
  }

  method EmitRow(before: string, i: nat, ghost more: string) returns (text: string)
    ensures text + more == before + Row(i, more)
  {
    text := before + "  {&" + NameOf(i) + ", &" + DataOf(i) + "},\n";
    FivePieces(before, "  {&", NameOf(i), ", &", DataOf(i), "},\n", more);
  }

  /** The first loop of `main` over the files. */
  method EmitAllDefinitions(before: string, files: seq<File>, ghost table: string) returns (text: string)
    requires AreReadable(files)
    ensures text + table == before + Definitions(files, 1, table)
  {
    text := before;
    assert files[0..] == files;
    for i := 1 to |files| + 1
      invariant text + Definitions(files[i - 1..], i, table) == before + Definitions(files, 1, table)
    {
      assert files[i - 1..][1..] == files[i..] && files[i - 1..][0] == files[i - 1];
      text := EmitDefinitions(text, files[i - 1], i, Definitions(files[i..], i + 1, table));
    }
  }

  /** The table, with the second loop. */
  method EmitTable(before: string, n: nat) returns (text: string)
    ensures text == before + Table(n)
  {
    ghost var all := before + Table(n);
    text := before + STRUCTURE_LINE + NAME_MEMBER + DATA_MEMBER + TABLE_LINE;
    FourPieces(before, STRUCTURE_LINE, NAME_MEMBER, DATA_MEMBER, TABLE_LINE, Rows(1, n));
    for i := 1 to n + 1
      invariant text + Rows(i, n) == all
    {
      text := EmitRow(text, i, Rows(i + 1, n));
    }
    text := text + (LAST_ROW + TABLE_END);
  }

  method Generate(files: seq<File>) returns (text: string)
    requires AreReadable(files)
    ensures text == HeaderText(files)
  {
    text := GUARD_LINE + DEFINE_LINE + INCLUDE_LINE;
    ThreePieces(GUARD_LINE, DEFINE_LINE, INCLUDE_LINE, Definitions(files, 1, Table(|files|)));
    text := EmitAllDefinitions(text, files, Table(|files|));
    text := EmitTable(text, |files|);
  }
}
