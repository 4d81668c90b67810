/**
 What the reader of headers (see HeaderReader) leaves behind: always the end of what it was given; and a table can only be
 read where a text has it at its end.
 */
module HeaderTails {

  import opened Options
  import opened Text
  import opened Embedder
  import opened HeaderReader

  predicate AreSpaces(gap: string) {
    forall i :: 0 <= i < |gap| ==> IsSpace(gap[i])
  }

  // ---------- Words and what is in front of them ----------

  lemma {:induction false} LTrimTakes(s: string) returns (gap: string)
    ensures AreSpaces(gap) && s == gap + LTrim(s)
    decreases |s|
  {
    if s != "" && IsSpace(s[0]) {
      var g := LTrimTakes(s[1..]);
      gap := [s[0]] + g;
      assert s == [s[0]] + s[1..];
    } else {
      gap := "";
    }
  }

  lemma TokTakes(token: string, s: string) returns (gap: string)
    requires Tok(token, s).Some?
    ensures AreSpaces(gap) && s == gap + token + Tok(token, s).value
  {
    gap := LTrimTakes(s);
    assert LTrim(s) == token + LTrim(s)[|token|..];
  }

  lemma IdentifierTakes(s: string) returns (gap: string)
    requires ReadIdentifier(s).Some?
    ensures AreSpaces(gap) && s == gap + ReadIdentifier(s).value.name + ReadIdentifier(s).value.rest
    ensures forall i :: 0 <= i < |ReadIdentifier(s).value.name| ==> InIdentifier(ReadIdentifier(s).value.name[i])
  {
    gap := LTrimTakes(s);
    var t := LTrim(s);
    var x := IdentifierRun(t);
    assert t == x + t[|x|..];
  }

  // ---------- Ends of texts ----------

  predicate IsEnd(u: string, s: string) {
    |u| <= |s| && s[|s| - |u|..] == u
  }

  lemma EndOfEnd(u: string, t: string, s: string)
    requires IsEnd(u, t) && IsEnd(t, s)
    ensures IsEnd(u, s)
  {
    assert s[|s| - |u|..] == s[|s| - |t|..][|t| - |u|..];
  }

  lemma EndBehind(p: string, u: string, s: string)
    requires s == p + u
    ensures IsEnd(u, s)
  {}

  lemma TokIsEnd(token: string, s: string)
    ensures Tok(token, s).Some? ==> IsEnd(Tok(token, s).value, s)
  {
    if Tok(token, s).Some? {
      var gap := TokTakes(token, s);
      EndBehind(gap + token, Tok(token, s).value, s);
    }
  }

  lemma IdentifierIsEnd(s: string)
    ensures ReadIdentifier(s).Some? ==> IsEnd(ReadIdentifier(s).value.rest, s)
  {
    if ReadIdentifier(s).Some? {
      var gap := IdentifierTakes(s);
      EndBehind(gap + ReadIdentifier(s).value.name, ReadIdentifier(s).value.rest, s);
    }
  }

  lemma {:induction false} InsideIsEnd(s: string)
    ensures ReadInside(s).Read? ==> IsEnd(ReadInside(s).rest, s)
    decreases |s|, 0
  {
    HexRunIsHex(if |s| >= 2 then s[2..] else "");
    if ReadInside(s).Read? {
      if s[0] == '"' {
        BesideIsEnd(s[1..]);
        EndOfEnd(ReadInside(s).rest, s[1..], s);
      } else if s[0] != '\\' {
        InsideIsEnd(s[1..]);
        EndOfEnd(ReadInside(s).rest, s[1..], s);
      } else {
        var t := s[2 + |HexRun(s[2..])|..];
        InsideIsEnd(t);
        EndOfEnd(ReadInside(s).rest, t, s);
      }
    }
  }

  lemma {:induction false} BesideIsEnd(s: string)
    ensures ReadBeside(s).Read? ==> IsEnd(ReadBeside(s).rest, s)
    decreases |s|, 1
  {
    var t := LTrim(s);
    TrimmedIsEnd(s);
    if t != "" && t[0] == '"' {
      InsideIsEnd(t[1..]);
      if ReadBeside(s).Read? { EndBehindQuote(ReadBeside(s).rest, t, s); }
    }
  }

  lemma TrimmedIsEnd(s: string)
    ensures IsEnd(LTrim(s), s)
  {
    var gap := LTrimTakes(s);
    EndBehind(gap, LTrim(s), s);
  }

  lemma EndBehindQuote(u: string, t: string, s: string)
    requires t != "" && IsEnd(t, s) && IsEnd(u, t[1..])
    ensures IsEnd(u, s)
  {
    EndOfEnd(u, t[1..], t);
    EndOfEnd(u, t, s);
  }

  lemma LiteralsAreEnd(s: string)
    ensures ReadLiterals(s).Read? ==> IsEnd(ReadLiterals(s).rest, s)
  {
    if ReadLiterals(s).Read? {
      var t := LTrim(s);
      TrimmedIsEnd(s);
      InsideIsEnd(t[1..]);
      EndBehindQuote(ReadLiterals(s).rest, t, s);
    }
  }

  lemma ArgumentsAreEnd(s: string)
    ensures ReadArguments(s).Read? ==> IsEnd(ReadArguments(s).rest, s)
  {
    if ReadArguments(s).Read? {
      LiteralsAreEnd(s);
      var r := ReadLiterals(s).rest;
      var t := LTrim(r[1..]);
      var gap := LTrimTakes(r[1..]);
      EndBehind(gap, t, r[1..]);
      EndOfEnd(ReadArguments(s).rest, t, r[1..]);
      EndOfEnd(ReadArguments(s).rest, r[1..], r);
      EndOfEnd(ReadArguments(s).rest, r, s);
    }
  }

  lemma ValueIsEnd(s: string)
    ensures ReadValue(s).Read? ==> IsEnd(ReadValue(s).rest, s)
  {
    var t := Tok(STRING_CALL, s);
    if t.None? {
      LiteralsAreEnd(s);
    } else if ReadValue(s).Read? {
      TokIsEnd(STRING_CALL, s);
      ArgumentsAreEnd(t.value);
      EndOfEnd(ReadValue(s).rest, t.value, s);
    }
  }

  lemma DefinitionIsEnd(s: string)
    requires ReadDefinition(s).Some?
    ensures IsEnd(ReadDefinition(s).value.rest, s)
  {
    var t := Tok(STRING_DEFINITION, s).value;
    TokIsEnd(STRING_DEFINITION, s);
    IdentifierIsEnd(t);
    var x := ReadIdentifier(t).value.rest;
    TokIsEnd("=", x);
    var u := Tok("=", x).value;
    ValueIsEnd(u);
    var v := ReadValue(u).rest;
    TokIsEnd(";", v);
    var r := Tok(";", v).value;
    EndOfEnd(r, v, u);
    EndOfEnd(r, u, x);
    EndOfEnd(r, x, t);
    EndOfEnd(r, t, s);
  }

  /** Reading definitions keeps the ones that are there, and leaves the end of the text. */
  lemma {:induction false} DefinitionsKeep(s: string, env: Environment)
    requires ReadDefinitions(s, env).Some?
    ensures var scope := ReadDefinitions(s, env).value;
            && IsEnd(scope.rest, s) && forall x :: x in env ==> x in scope.env && scope.env[x] == env[x]
    decreases |s|
  {
    if Tok(STRING_DEFINITION, s).Some? {
      var d := ReadDefinition(s).value;
      DefinitionIsEnd(s);
      DefinitionShrinks(s);
      DefinitionsKeep(d.rest, env[d.name := d.value]);
      EndOfEnd(ReadDefinitions(s, env).value.rest, d.rest, s);
    }
  }

  // ---------- Counting ----------

  predicate IsStar(c: char) {
    c == '*'
  }

  predicate IsSolid(c: char) {
    !IsSpace(c)
  }

  function Count(s: string, p: char -> bool): nat {
    if s == "" then 0 else (if p(s[0]) then 1 else 0) + Count(s[1..], p)
  }

  lemma {:induction false} CountSplits(a: string, b: string, p: char -> bool)
    ensures Count(a + b, p) == Count(a, p) + Count(b, p)
    decreases |a|
  {
    if a == "" {
      assert a + b == b;
    } else {
      assert (a + b)[1..] == a[1..] + b;
      CountSplits(a[1..], b, p);
    }
  }

  lemma {:induction false} CountNone(s: string, p: char -> bool)
    ensures Count(s, p) == 0 <==> forall i :: 0 <= i < |s| ==> !p(s[i])
    decreases |s|
  {
    if s != "" {
      CountNone(s[1..], p);
      assert forall i :: 0 < i < |s| ==> s[i] == s[1..][i - 1];
      assert forall i :: 0 <= i < |s| - 1 ==> s[1..][i] == s[i + 1];
    }
  }

  /** Blanks and identifiers have no star, and blanks are nothing. */
  lemma SpacesCount(gap: string)
    requires AreSpaces(gap)
    ensures Count(gap, IsStar) == 0 && Count(gap, IsSolid) == 0
  {
    CountNone(gap, IsStar);
    CountNone(gap, IsSolid);
  }

  lemma ThreeCount(a: string, b: string, c: string, s: string, p: char -> bool)
    requires s == a + b + c
    ensures Count(s, p) == Count(a, p) + Count(b, p) + Count(c, p)
  {
    CountSplits(a + b, c, p);
    CountSplits(a, b, p);
  }

  lemma TokCounts(token: string, s: string)
    requires Tok(token, s).Some?
    ensures Count(s, IsStar) == Count(token, IsStar) + Count(Tok(token, s).value, IsStar)
  {
    var gap := TokTakes(token, s);
    SpacesCount(gap);
    ThreeCount(gap, token, Tok(token, s).value, s, IsStar);
  }

  lemma IdentifierCounts(s: string)
    requires ReadIdentifier(s).Some?
    ensures Count(s, IsStar) == Count(ReadIdentifier(s).value.rest, IsStar)
  {
    var gap := IdentifierTakes(s);
    var x := ReadIdentifier(s).value.name;
    SpacesCount(gap);
    CountNone(x, IsStar);
    ThreeCount(gap, x, ReadIdentifier(s).value.rest, s, IsStar);
  }

  lemma StarlessTok(token: string, s: string)
    requires Tok(token, s).Some? && '*' !in token
    ensures Count(s, IsStar) == Count(Tok(token, s).value, IsStar)
  {
    CountNone(token, IsStar);
    TokCounts(token, s);
  }

  lemma MemberCounts(s: string)
    requires ReadMember(s).Some?
    ensures Count(s, IsStar) == 1 + Count(ReadMember(s).value.rest, IsStar)
  {
    var t := Tok(MEMBER_TYPE, s).value;
    var u := Tok("*", t).value;
    StarlessTok(MEMBER_TYPE, s);
    TokCounts("*", t);
    assert Count("*", IsStar) == 1 by { assert "*"[1..] == ""; }
    IdentifierCounts(u);
    StarlessTok(";", ReadIdentifier(u).value.rest);
  }

  lemma TableStartCounts(s: string)
    requires ReadTableStart(s).Some?
    ensures Count(s, IsStar) == Count(ReadTableStart(s).value, IsStar)
  {
    var t := Tok("}", s).value;
    var u := Tok(TABLE_NAME, t).value;
    StarlessTok("}", s);
    StarlessTok(TABLE_NAME, t);
    StarlessTok("=", u);
    StarlessTok("{", Tok("=", u).value);
  }

  lemma StructureStartCounts(s: string)
    requires ReadStructureStart(s).Some?
    ensures Count(s, IsStar) == Count(ReadStructureStart(s).value, IsStar)
  {
    var t := Tok(STRUCTURE, s).value;
    StarlessTok(STRUCTURE, s);
    StarlessTok("{", t);
  }

  lemma MembersCount(s: string)
    requires ReadMembers(s).Some?
    ensures Count(s, IsStar) == 2 + Count(ReadMembers(s).value.rest, IsStar)
  {
    var a := ReadMember(s).value.rest;
    var b := ReadMember(a).value.rest;
    MemberCounts(s);
    MemberCounts(a);
    TableStartCounts(b);
  }

  /** A structure has two stars. */
  lemma StructureCounts(s: string)
    requires ReadStructure(s).Some?
    ensures Count(s, IsStar) == 2 + Count(ReadStructure(s).value.rest, IsStar)
  {
    StructureStartCounts(s);
    MembersCount(ReadStructureStart(s).value);
  }

  lemma AddressCounts(s: string)
    requires ReadAddress(s).Some?
    ensures Count(s, IsStar) == Count(ReadAddress(s).value.rest, IsStar)
  {
    StarlessTok("&", s);
    IdentifierCounts(Tok("&", s).value);
  }

  lemma RowStartCounts(s: string)
    requires ReadRowStart(s).Some?
    ensures Count(s, IsStar) == Count(ReadRowStart(s).value.rest, IsStar)
  {
    var t := Tok("{", s).value;
    StarlessTok("{", s);
    AddressCounts(t);
    StarlessTok(",", ReadAddress(t).value.rest);
  }

  lemma RowEndCounts(s: string)
    requires ReadRowEnd(s).Some?
    ensures Count(s, IsStar) == Count(ReadRowEnd(s).value, IsStar)
  {
    StarlessTok("}", s);
    StarlessTok(",", Tok("}", s).value);
  }

  lemma RowCounts(s: string)
    requires ReadRow(s).Some?
    ensures Count(s, IsStar) == Count(ReadRow(s).value.rest, IsStar)
  {
    var x := ReadRowStart(s).value.rest;
    RowStartCounts(s);
    AddressCounts(x);
    RowEndCounts(ReadAddress(x).value.rest);
  }

  lemma NullsCount(s: string)
    requires ReadNulls(s).Some?
    ensures Count(s, IsStar) == Count(ReadNulls(s).value, IsStar)
  {
    var t := Tok("{", s).value;
    var u := Tok("NULL", t).value;
    var v := Tok(",", u).value;
    StarlessTok("{", s);
    StarlessTok("NULL", t);
    StarlessTok(",", u);
    StarlessTok("NULL", v);
    StarlessTok("}", Tok("NULL", v).value);
  }

  lemma CloseCounts(s: string)
    requires ClosesTable(s)
    ensures Count(s, IsStar) == 0
  {
    var t := Tok("}", s).value;
    var u := Tok(";", t).value;
    StarlessTok("}", s);
    StarlessTok(";", t);
    var gap := LTrimTakes(u);
    assert gap + "" == gap;
    SpacesCount(gap);
  }

  /** Rows have none. */
  lemma {:induction false} RowsCount(s: string, env: Environment)
    requires ReadRows(s, env).Some?
    ensures Count(s, IsStar) == 0
    decreases |s|
  {
    if IsTableEnd(s) {
      NullsCount(s);
      CloseCounts(ReadNulls(s).value);
    } else {
      RowCounts(s);
      RowsCount(ReadRow(s).value.rest, env);
    }
  }

  lemma TableCounts(s: string, env: Environment)
    requires ReadTable(s, env).Some?
    ensures Count(s, IsStar) == 2
  {
    StructureCounts(s);
    RowsCount(ReadStructure(s).value.rest, env);
  }

  // ---------- The front of a structure ----------

  /** `front` is what stands in front of the first star, with `n` characters that are not blank. */
  predicate IsFront(s: string, front: string, back: string, n: nat) {
    s == front + ("*" + back) && Count(front, IsStar) == 0 && Count(front, IsSolid) == n
  }

  lemma TokFront(token: string, s: string, front: string, rest: string) returns (more: string)
    requires Tok(token, s).Some? && '*' !in token && Tok(token, s).value == front + rest && Count(front, IsStar) == 0
    ensures s == more + rest && Count(more, IsStar) == 0 && Count(more, IsSolid) == Count(token, IsSolid) + Count(front, IsSolid)
  {
    var gap := TokTakes(token, s);
    more := gap + token + front;
    assert s == more + rest;
    SpacesCount(gap);
    CountNone(token, IsStar);
    ThreeCount(gap, token, front, more, IsStar);
    ThreeCount(gap, token, front, more, IsSolid);
  }

  lemma StarFront(v: string) returns (front: string, back: string)
    requires Tok("*", v).Some?
    ensures v == front + ("*" + back) && Count(front, IsStar) == 0 && Count(front, IsSolid) == 0
  {
    back := Tok("*", v).value;
    front := TokTakes("*", v);
    SpacesCount(front);
    assert v == front + ("*" + back);
  }

  /** The text starts with three words and a star. */
  predicate StartsSo(s: string, a: string, b: string, c: string) {
    var t := Tok(a, s);
    t.Some? && var u := Tok(b, t.value);
    u.Some? && var v := Tok(c, u.value);
    v.Some? && Tok("*", v.value).Some?
  }

  lemma WordsFront(a: string, b: string, c: string, s: string) returns (front: string, back: string)
    requires '*' !in a && '*' !in b && '*' !in c && StartsSo(s, a, b, c)
    ensures IsFront(s, front, back, Count(a, IsSolid) + Count(b, IsSolid) + Count(c, IsSolid))
  {
    var t := Tok(a, s).value;
    var u := Tok(b, t).value;
    var v := Tok(c, u).value;
    var gap;
    gap, back := StarFront(v);
    var rest := "*" + back;
    var x := TokFront(c, u, gap, rest);
    var y := TokFront(b, t, x, rest);
    front := TokFront(a, s, y, rest);
  }

  lemma StructureStarts(s: string)
    requires ReadStructure(s).Some?
    ensures StartsSo(s, STRUCTURE, "{", MEMBER_TYPE)
  {
    var u := ReadStructureStart(s).value;
    MemberStarts(u);
  }

  lemma MemberStarts(u: string)
    requires ReadMember(u).Some?
    ensures Tok(MEMBER_TYPE, u).Some? && Tok("*", Tok(MEMBER_TYPE, u).value).Some?
  {}

  lemma FirstStar(a: string, x: string, b: string, y: string)
    requires a + ("*" + x) == b + ("*" + y) && Count(a, IsStar) == 0 && Count(b, IsStar) == 0
    ensures a == b
  {
    CountNone(a, IsStar);
    CountNone(b, IsStar);
    var s := a + ("*" + x);
    assert s[..|a|] == a && s[..|b|] == b && s[|a|] == '*' && s[|b|] == '*';
  }

  lemma SameFront(gap: string, t: string, s: string, a: string, x: string, b: string, y: string, n: nat)
    requires s == gap + t && Count(gap, IsStar) == 0 && IsFront(s, a, x, n) && IsFront(t, b, y, n)
    ensures AreSpaces(gap)
  {
    Regroup(gap, b, "*" + y);
    CountSplits(gap, b, IsStar);
    FirstStar(a, x, gap + b, y);
    CountSplits(gap, b, IsSolid);
    CountNone(gap, IsSolid);
  }

  /** What stands in front of words that are read from there as well is blank. */
  lemma NothingInFront(a: string, b: string, c: string, gap: string, t: string, s: string)
    requires '*' !in a && '*' !in b && '*' !in c && s == gap + t && Count(gap, IsStar) == 0
    requires StartsSo(s, a, b, c) && StartsSo(t, a, b, c)
    ensures AreSpaces(gap)
  {
    var x, x' := WordsFront(a, b, c, s);
    var y, y' := WordsFront(a, b, c, t);
    SameFront(gap, t, s, x, x', y, y', Count(a, IsSolid) + Count(b, IsSolid) + Count(c, IsSolid));
  }

  lemma LongerEnd(s: string, t: string, u: string, gap: string)
    requires IsEnd(t, s) && IsEnd(u, s) && |u| >= |t| && gap == u[..|u| - |t|]
    ensures u == gap + t
  {
    assert u[|u| - |t|..] == s[|s| - |u|..][|u| - |t|..] == s[|s| - |t|..];
  }

  lemma StarsInFront(gap: string, t: string, u: string)
    requires u == gap + t && Count(u, IsStar) == Count(t, IsStar)
    ensures Count(gap, IsStar) == 0
  {
    CountSplits(gap, t, IsStar);
  }

  /** Two ends of a text that start so, with as many stars, are the same, blanks in front aside. */
  lemma OneStart(a: string, b: string, c: string, s: string, t: string, u: string, gap: string)
    requires '*' !in a && '*' !in b && '*' !in c && StartsSo(t, a, b, c) && StartsSo(u, a, b, c)
    requires IsEnd(t, s) && IsEnd(u, s) && |u| >= |t| && gap == u[..|u| - |t|] && Count(t, IsStar) == Count(u, IsStar)
    ensures u == gap + t && AreSpaces(gap)
  {
    LongerEnd(s, t, u, gap);
    StarsInFront(gap, t, u);
    NothingInFront(a, b, c, gap, t, u);
  }

  lemma OneSolidStart(a: string, b: string, c: string, s: string, t: string, u: string) returns (gap: string)
    requires '*' !in a && '*' !in b && '*' !in c && StartsSo(t, a, b, c) && StartsSo(u, a, b, c)
    requires IsEnd(t, s) && IsEnd(u, s) && t != "" && !IsSpace(t[0]) && Count(t, IsStar) == Count(u, IsStar)
    ensures AreSpaces(gap) && u == gap + t
  {
    if |u| < |t| {
      OneStart(a, b, c, s, u, t, t[..|t| - |u|]);
      assert false;
    }
    gap := u[..|u| - |t|];
    OneStart(a, b, c, s, t, u, gap);
  }

  /** What every table has: how it starts, and two stars. */
  predicate LooksLikeTable(t: string) {
    StartsSo(t, STRUCTURE, "{", MEMBER_TYPE) && Count(t, IsStar) == 2
  }

  lemma TableLooksSo(t: string, env: Environment)
    requires ReadTable(t, env).Some?
    ensures LooksLikeTable(t)
  {
    TableCounts(t, env);
    StructureStarts(t);
  }

  /** Of all ends of a text only one can be read as a table, blanks in front of it aside. */
  lemma TableIsAtEnd(s: string, t: string, u: string) returns (gap: string)
    requires IsEnd(t, s) && t != "" && !IsSpace(t[0]) && IsEnd(u, s) && LooksLikeTable(t) && LooksLikeTable(u)
    ensures AreSpaces(gap) && u == gap + t
  {
    gap := OneSolidStart(STRUCTURE, "{", MEMBER_TYPE, s, t, u);
  }
}
