/**
 translations/generate_translations_header.c: a C program that turns files into C++ string literals, and the
 lookup function it emits. A byte is a character below 256.
 */
module Embedder {

  import opened Text

  datatype File = File(name: string, data: string)

  // ---------- What is written ----------

  function HexDigit(d: nat): char
    requires d < 16
  {
    if d < 10 then '0' + d as char else 'a' + (d - 10) as char
  }

  predicate IsByte(c: char) {
    c as int < 256
  }

  /** `\x%02x` */
  function Escape(c: char): string
    requires IsByte(c)
  {
    ['\\', 'x', HexDigit(c as int / 16), HexDigit(c as int % 16)]
  }

  predicate AreBytes(s: string) {
    forall i :: 0 <= i < |s| ==> IsByte(s[i])
  }

  /** What stands in front of byte `j`: every sixteenth starts a new literal on a new line. */
  function LineBreak(j: nat): string {
    if j % 16 != 0 then "" else if j > 0 then "\"\n  \"" else "\n  \""
  }

  /** The literals from byte `j` on, without the last closing quote. */
  function Emitted(data: string, j: nat): string
    requires j <= |data| && AreBytes(data)
    decreases |data| - j
  {
    if j == |data| then "" else LineBreak(j) + Escape(data[j]) + Emitted(data, j + 1)
  }

  function AfterLiterals(n: nat): string {
    ",\n  " + Decimal(n) + ")"
  }

  /** The arguments of the std::string that holds a file, up to the closing bracket. */
  function DataText(data: string): string
    requires AreBytes(data)
  {
    Emitted(data, 0) + "\"" + AfterLiterals(|data|)
  }

  /** The loop over the bytes of one file. */
  method EmitData(data: string) returns (text: string)
    requires AreBytes(data)
    ensures text == DataText(data)
  {
    text := "";
    var j := 0;
    while j < |data|
      invariant 0 <= j <= |data| && text + Emitted(data, j) == Emitted(data, 0)
    {
      ghost var before := text;
      if j % 16 == 0 {
        if j > 0 {
          text := text + "\"";
        }
        text := text + "\n  \"";
      }
      assert text == before + LineBreak(j);
      text := text + Escape(data[j]);
      Appended(before, LineBreak(j), Escape(data[j]), Emitted(data, j + 1), text);
      j := j + 1;
    }
    assert text == Emitted(data, 0);
    text := text + "\"" + AfterLiterals(j);
  }

  lemma Appended(a: string, b: string, c: string, d: string, text: string)
    requires text == a + b + c
    ensures text + d == a + (b + c + d)
  {}

  // ---------- What a C++ compiler reads ----------

  datatype Read = Bad | Read(chars: string, rest: string)

  function Cons(c: char, r: Read): Read {
    if r.Bad? then Bad else Read([c] + r.chars, r.rest)
  }

  predicate IsHex(c: char) {
    '0' <= c <= '9' || 'a' <= c <= 'f' || 'A' <= c <= 'F'
  }

  function HexValue(c: char): nat
    requires IsHex(c)
  {
    if c <= '9' then (c - '0') as int else if c <= 'F' then (c - 'A') as int + 10 else (c - 'a') as int + 10
  }

  /** A hexadecimal escape takes as many digits as there are (section 2.14.3 of C++11). */
  function HexRun(s: string): string {
    if s != "" && IsHex(s[0]) then [s[0]] + HexRun(s[1..]) else ""
  }

  function HexNumber(digits: string): nat
    requires forall i :: 0 <= i < |digits| ==> IsHex(digits[i])
  {
    if digits == "" then 0 else 16 * HexNumber(digits[..|digits| - 1]) + HexValue(digits[|digits| - 1])
  }

  lemma {:induction false} HexRunIsHex(s: string)
    ensures |HexRun(s)| <= |s| && forall i :: 0 <= i < |HexRun(s)| ==> IsHex(HexRun(s)[i])
  {
    if s != "" && IsHex(s[0]) {
      HexRunIsHex(s[1..]);
    }
  }

  /** The inside of a literal, and the literals next to it (section 2.14.5 of C++11). Other escapes than
      hexadecimal ones are not read. */
  function ReadInside(s: string): Read
    decreases |s|
  {
    HexRunIsHex(if |s| >= 2 then s[2..] else "");
    if s == "" || s[0] == '\n' then Bad
    else if s[0] == '"' then ReadBeside(s[1..])
    else if s[0] != '\\' then if IsByte(s[0]) then Cons(s[0], ReadInside(s[1..])) else Bad
    else if |s| < 3 || s[1] != 'x' || !IsHex(s[2]) then Bad
    else
      var digits := HexRun(s[2..]);
      var value := HexNumber(digits);
      if value >= 256 then Bad else Cons(value as char, ReadInside(s[2 + |digits|..]))
  }

  /** Adjacent literals are one. */
  function ReadBeside(s: string): Read
    decreases |s|, 1
  {
    var t := LTrim(s);
    if t != "" && t[0] == '"' then ReadInside(t[1..]) else Read("", t)
  }

  function ReadLiterals(s: string): Read {
    var t := LTrim(s);
    if t != "" && t[0] == '"' then ReadInside(t[1..]) else Bad
  }

  function DigitRun(s: string): (digits: string)
    ensures |digits| <= |s| && forall i :: 0 <= i < |digits| ==> IsDigit(digits[i])
  {
    if s != "" && IsDigit(s[0]) then [s[0]] + DigitRun(s[1..]) else ""
  }

  /** The arguments of std::string(literals, count) and the bracket behind them: the first `count` characters of an
      array that ends in a NUL. */
  function ReadArguments(s: string): Read {
    var r := ReadLiterals(s);
    if r.Bad? || r.rest == "" || r.rest[0] != ',' then Bad
    else
      var t := LTrim(r.rest[1..]);
      var digits := DigitRun(t);
      if digits == "" || !(")" <= t[|digits|..]) || DecimalValue(digits) > |r.chars| + 1 then Bad
      else Read((r.chars + "\0")[..DecimalValue(digits)], t[|digits| + 1..])
  }

  // ---------- Reading undoes writing ----------

  lemma EscapeIsRead(c: char, rest: string, s: string)
    requires IsByte(c) && rest != "" && !IsHex(rest[0]) && s == Escape(c) + rest
    ensures ReadInside(s) == Cons(c, ReadInside(rest))
  {
    var x, y := HexDigit(c as int / 16), HexDigit(c as int % 16);
    assert s[2..] == [x, y] + rest && s[4..] == rest;
    TwoDigits(c as int / 16, c as int % 16);
    RunOfTwo(x, y, rest, s[2..]);
  }

  lemma RunOfTwo(x: char, y: char, rest: string, t: string)
    requires IsHex(x) && IsHex(y) && rest != "" && !IsHex(rest[0]) && t == [x, y] + rest
    ensures HexRun(t) == [x, y]
  {
    assert t[1..] == [y] + rest && t[1..][1..] == rest;
    assert HexRun(t[1..]) == [y];
  }

  lemma TwoDigits(x: nat, y: nat)
    requires x < 16 && y < 16
    ensures IsHex(HexDigit(x)) && IsHex(HexDigit(y)) && HexNumber([HexDigit(x), HexDigit(y)]) == 16 * x + y
  {
    var digits := [HexDigit(x), HexDigit(y)];
    assert digits[..1] == [HexDigit(x)];
    assert HexNumber("") == 0 && [HexDigit(x)][..0] == "";
    assert HexNumber([HexDigit(x)]) == HexValue(HexDigit(x)) == x && HexValue(HexDigit(y)) == y;
  }

  /** From any byte but the first on, the literals read as the bytes. */
  lemma {:induction false} EmittedIsRead(data: string, j: nat, end: string, s: string)
    requires AreBytes(data) && 0 < j <= |data| && end != "" && end[0] == ','
    requires s == Emitted(data, j) + "\"" + end
    ensures ReadInside(s) == Read(data[j..], end)
    decreases |data| - j
  {
    if j == |data| {
      EndIsRead(end, s);
    } else {
      var tail := Emitted(data, j + 1) + "\"" + end;
      assert tail != "" && !IsHex(tail[0]) by { StartsPlainly(data, j + 1, end, tail); }
      EmittedIsRead(data, j + 1, end, tail);
      Regrouped(LineBreak(j), Escape(data[j]), Emitted(data, j + 1), "\"", end);
      ByteIsRead(data[j], LineBreak(j), tail, s);
      assert data[j..] == [data[j]] + data[j + 1..];
    }
  }

  lemma EndIsRead(end: string, s: string)
    requires end != "" && end[0] == ',' && s == "\"" + end
    ensures ReadInside(s) == Read("", end)
  {}

  lemma ByteIsRead(c: char, lineBreak: string, tail: string, s: string)
    requires IsByte(c) && tail != "" && !IsHex(tail[0])
    requires (lineBreak == "" || lineBreak == "\"\n  \"") && s == lineBreak + Escape(c) + tail
    ensures ReadInside(s) == Cons(c, ReadInside(tail))
  {
    var inside := Escape(c) + tail;
    EscapeIsRead(c, tail, inside);
    assert s == lineBreak + inside;
    if lineBreak == "" {
      assert s == inside;
    } else {
      BreakIsRead(inside, s);
    }
  }

  /** No escape is followed by a hexadecimal digit. */
  lemma StartsPlainly(data: string, j: nat, end: string, s: string)
    requires AreBytes(data) && 0 < j <= |data| && s == Emitted(data, j) + "\"" + end
    ensures s != "" && !IsHex(s[0])
  {}

  lemma BreakIsRead(inside: string, s: string)
    requires s == "\"\n  \"" + inside
    ensures ReadInside(s) == ReadInside(inside)
  {
    SkipIndent(s[1..], inside);
  }

  lemma SkipIndent(s: string, inside: string)
    requires s == "\n  \"" + inside
    ensures LTrim(s) == "\"" + inside && LTrim(s)[1..] == inside
  {
    assert s[1..][1..] == " \"" + inside && s[1..][1..][1..] == "\"" + inside;
    assert LTrim(s[1..][1..]) == "\"" + inside;
  }

  lemma {:induction false} RunOfDecimal(n: nat, rest: string, s: string)
    requires s == Decimal(n) + rest && (rest == "" || !IsDigit(rest[0]))
    ensures DigitRun(s) == Decimal(n) && DecimalValue(Decimal(n)) == n
  {
    DecimalIsNumber(n);
    RunOfDigits(Decimal(n), rest, s);
  }

  lemma {:induction false} RunOfDigits(digits: string, rest: string, s: string)
    requires forall i :: 0 <= i < |digits| ==> IsDigit(digits[i])
    requires s == digits + rest && (rest == "" || !IsDigit(rest[0]))
    ensures DigitRun(s) == digits
    decreases |digits|
  {
    if digits == "" {
      assert s == rest;
    } else {
      assert s[1..] == digits[1..] + rest;
      RunOfDigits(digits[1..], rest, s[1..]);
    }
  }

  lemma FirstByteIsRead(c: char, tail: string, s: string)
    requires IsByte(c) && tail != "" && !IsHex(tail[0]) && s == "\n  \"" + Escape(c) + tail
    ensures ReadLiterals(s) == Cons(c, ReadInside(tail))
  {
    var inside := Escape(c) + tail;
    EscapeIsRead(c, tail, inside);
    assert s == "\n  \"" + inside;
    SkipIndent(s, inside);
  }

  lemma DataLiterals(data: string, end: string, s: string, tail: string)
    requires AreBytes(data) && data != "" && end != "" && end[0] == ',' && s == Emitted(data, 0) + "\"" + end
    requires tail == Emitted(data, 1) + "\"" + end
    ensures ReadLiterals(s) == Read(data, end)
  {
    FirstLine(data, end, s, tail);
    FirstByteIsRead(data[0], tail, s);
    EmittedIsRead(data, 1, end, tail);
    JoinedAgain(data, end);
  }

  lemma JoinedAgain(data: string, end: string)
    requires data != ""
    ensures Cons(data[0], Read(data[1..], end)) == Read(data, end)
  {}

  lemma FirstLine(data: string, end: string, s: string, tail: string)
    requires AreBytes(data) && data != "" && s == Emitted(data, 0) + "\"" + end
    requires tail == Emitted(data, 1) + "\"" + end
    ensures s == "\n  \"" + Escape(data[0]) + tail && tail != "" && !IsHex(tail[0])
  {
    var first, later := LineBreak(0) + Escape(data[0]), Emitted(data, 1);
    assert Emitted(data, 0) == first + later && first == "\n  \"" + Escape(data[0]);
    Grouped(first, later, "\"", end);
    StartsPlainly(data, 1, end, tail);
  }

  lemma Grouped(a: string, b: string, c: string, d: string)
    ensures a + b + c + d == a + (b + c + d)
  {}

  lemma Regrouped(a: string, b: string, c: string, d: string, e: string)
    ensures a + b + c + d + e == a + b + (c + d + e)
  {}

  lemma CountIsRead(n: nat, more: string, end: string)
    requires end == AfterLiterals(n) + more
    ensures end != "" && end[0] == ',' && LTrim(end[1..]) == Decimal(n) + (")" + more)
    ensures DigitRun(LTrim(end[1..])) == Decimal(n)
  {
    var number := Decimal(n) + (")" + more);
    DecimalIsNumber(n);
    RunOfDecimal(n, ")" + more, number);
    assert end[1..] == "\n  " + number;
    SkipToNumber(number, end[1..]);
  }

  lemma SkipToNumber(number: string, s: string)
    requires number != "" && !IsSpace(number[0]) && s == "\n  " + number
    ensures LTrim(s) == number
  {
    assert s[1..][1..] == " " + number && s[1..][1..][1..] == number;
    assert LTrim(s[1..][1..]) == number;
  }

  /** A file comes back from its literals unless it is empty: then the quote that is closed was never opened. */
  lemma DataCondition(data: string, more: string, s: string)
    requires AreBytes(data) && s == DataText(data) + more
    ensures ReadArguments(s) == if data == "" then Bad else Read(data, more)
  {
    var n := |data|;
    var end := AfterLiterals(n) + more;
    assert s == Emitted(data, 0) + "\"" + end;
    CountIsRead(n, more, end);
    DecimalIsNumber(n);
    if data != "" {
      DataLiterals(data, end, s, Emitted(data, 1) + "\"" + end);
      CutAtCount(data, Decimal(n), more, LTrim(end[1..]));
    } else {
      UnopenedQuote(s, end);
    }
  }

  lemma CutAtCount(data: string, digits: string, more: string, t: string)
    requires t == digits + (")" + more)
    ensures ")" <= t[|digits|..] && t[|digits| + 1..] == more && (data + "\0")[..|data|] == data
  {}

  lemma UnopenedQuote(s: string, end: string)
    requires s == "" + "\"" + end && ",\n" <= end
    ensures ReadLiterals(s) == Bad
  {
    assert s[1..] == end && end[1..][0] == '\n';
    assert ReadInside(end[1..]) == Bad;
  }

  // ---------- Names and the lookup ----------

  /** What `"%s"` can carry unchanged. */
  predicate PlainName(name: string) {
    forall i :: 0 <= i < |name| ==> IsByte(name[i]) && name[i] != '"' && name[i] != '\\' && name[i] != '\n'
  }

  function NameText(name: string): string {
    "\"" + name + "\"" + ";\n"
  }

  lemma {:induction false} PlainIsRead(name: string, end: string, s: string)
    requires PlainName(name) && end != "" && end[0] == ';' && s == name + ("\"" + end)
    ensures ReadInside(s) == Read(name, end)
    decreases |name|
  {
    if name == "" {
      assert s[1..] == end;
    } else {
      assert s[1..] == name[1..] + ("\"" + end);
      PlainIsRead(name[1..], end, s[1..]);
      assert name == [name[0]] + name[1..];
    }
  }

  /** Reading never makes more characters than it takes, and a literal takes its closing quote as well. */
  lemma {:induction false} InsideShrinks(s: string)
    ensures var r := ReadInside(s); r.Read? ==> |r.chars| + |r.rest| < |s|
    decreases |s|, 0
  {
    HexRunIsHex(if |s| >= 2 then s[2..] else "");
    if s != "" && s[0] != '\n' {
      if s[0] == '"' {
        BesideShrinks(s[1..]);
      } else if s[0] != '\\' {
        InsideShrinks(s[1..]);
      } else if |s| >= 3 {
        InsideShrinks(s[2 + |HexRun(s[2..])|..]);
      }
    }
  }

  lemma {:induction false} BesideShrinks(s: string)
    ensures var r := ReadBeside(s);
            r.Read? ==> |r.chars| + |r.rest| <= |s| && (r.chars != "" ==> |r.chars| + |r.rest| + 1 < |s|)
    decreases |s|, 1
  {
    var t := LTrim(s);
    if t != "" {
      InsideShrinks(t[1..]);
    }
  }

  /** Quotes, escapes and line ends inside a name lose characters or stop the reading. */
  lemma {:induction false} SpecialIsLost(name: string, end: string, s: string)
    requires !PlainName(name) && s == name + ("\"" + end)
    ensures var r := ReadInside(s); r.Read? && |r.rest| >= |end| ==> |r.chars| < |name|
    decreases |name|
  {
    var c := name[0];
    assert s[0] == c && s[1..] == name[1..] + ("\"" + end);
    if IsByte(c) && c != '"' && c != '\\' && c != '\n' {
      assert !PlainName(name[1..]);
      SpecialIsLost(name[1..], end, s[1..]);
    } else if c == '"' {
      BesideShrinks(s[1..]);
    } else if c == '\\' {
      HexRunIsHex(if |s| >= 2 then s[2..] else "");
      EscapeIsLost(s, |name|, end);
    }
  }

  lemma EscapeIsLost(s: string, n: nat, end: string)
    requires s != "" && s[0] == '\\' && |s| == n + 1 + |end|
    ensures var r := ReadInside(s); r.Read? && |r.rest| >= |end| ==> |r.chars| < n
  {
    if |s| >= 3 {
      HexRunIsHex(s[2..]);
      InsideShrinks(s[2 + |HexRun(s[2..])|..]);
    }
  }

  /** The line end behind the semicolon stops every literal that a name has left open. */
  lemma {:induction false} InsideStopsAtLineEnd(body: string, end: string, s: string)
    requires s == body + end && ";\n" <= end
    ensures var r := ReadInside(s); r.Read? ==> |r.rest| >= |end|
    decreases |body|, 1
  {
    if body == "" {
      assert s[1..][0] == '\n' && ReadInside(s[1..]) == Bad;
    } else if body[0] == '"' {
      assert s[1..] == body[1..] + end;
      BesideStopsAtLineEnd(body[1..], end, s[1..]);
    } else if body[0] != '\\' {
      assert s[1..] == body[1..] + end;
      InsideStopsAtLineEnd(body[1..], end, s[1..]);
    } else if |s| >= 3 && s[1] == 'x' && IsHex(s[2]) {
      EscapeStopsAtLineEnd(body, end, s);
    }
  }

  lemma {:induction false} EscapeStopsAtLineEnd(body: string, end: string, s: string)
    requires s == body + end && ";\n" <= end && body != "" && body[0] == '\\' && |s| >= 3 && s[1] == 'x' && IsHex(s[2])
    ensures var r := ReadInside(s); r.Read? ==> |r.rest| >= |end|
    decreases |body|, 0
  {
    assert |body| >= 3 by { assert !IsHex(end[0]) && end[0] != 'x'; }
    RunStaysInBody(body[2..], end, s[2..]);
    var n := 2 + |HexRun(s[2..])|;
    assert s[n..] == body[n..] + end;
    InsideStopsAtLineEnd(body[n..], end, s[n..]);
  }

  lemma {:induction false} RunStaysInBody(body: string, end: string, s: string)
    requires s == body + end && end != "" && !IsHex(end[0])
    ensures |HexRun(s)| <= |body|
    decreases |body|
  {
    if body != "" {
      assert s[1..] == body[1..] + end;
      RunStaysInBody(body[1..], end, s[1..]);
    }
  }

  lemma {:induction false} BesideStopsAtLineEnd(body: string, end: string, s: string)
    requires s == body + end && ";\n" <= end
    ensures var r := ReadBeside(s); r.Read? ==> |r.rest| >= |end|
    decreases |body|
  {
    if body != "" {
      assert s[1..] == body[1..] + end;
      if IsSpace(body[0]) {
        BesideStopsAtLineEnd(body[1..], end, s[1..]);
      } else if body[0] == '"' {
        InsideStopsAtLineEnd(body[1..], end, s[1..]);
      }
    }
  }

  /** A name comes back exactly where it has no quotes, backslashes or line ends, whatever follows its line. */
  lemma NameCondition(name: string, more: string, s: string)
    requires s == NameText(name) + more
    ensures PlainName(name) ==> ReadLiterals(s) == Read(name, ";\n" + more)
    ensures !PlainName(name) ==> ReadLiterals(s).Bad? || ReadLiterals(s).chars != name
  {
    var end := ";\n" + more;
    assert s[1..] == name + ("\"" + end);
    if PlainName(name) {
      PlainIsRead(name, end, s[1..]);
    } else {
      SpecialIsLost(name, end, s[1..]);
      assert s[1..] == (name + "\"") + end;
      InsideStopsAtLineEnd(name + "\"", end, s[1..]);
    }
  }

  /** The emitted find_embedded_file. */
  method FindEmbeddedFile(embedded: seq<File>, name: string, before: string) returns (found: bool, data: string)
    ensures found ==> exists k :: 0 <= k < |embedded| && embedded[k] == File(name, data) &&
                                  forall j :: 0 <= j < k ==> embedded[j].name != name
    ensures (forall j, k :: 0 <= j < k < |embedded| ==> embedded[j].name != embedded[k].name) ==>
              forall k :: 0 <= k < |embedded| && embedded[k].name == name ==> found && data == embedded[k].data
    ensures !found ==> data == before && forall k :: 0 <= k < |embedded| ==> embedded[k].name != name
  {
    var p := 0;
    while p < |embedded|
      invariant 0 <= p <= |embedded| && forall j :: 0 <= j < p ==> embedded[j].name != name
    {
      if embedded[p].name == name {
        return true, embedded[p].data;
      }
      p := p + 1;
    }
    return false, before;
  }
}
