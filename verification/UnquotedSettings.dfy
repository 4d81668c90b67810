/**
 Settings whose value stands without quotes, and when a comment behind one is recognised
 (Configurations::Parser in external/easylogging++/easylogging++.cc).
 */
module UnquotedSettings {

  import opened Levels
  import opened ConfigurationStore
  import opened ConfigurationNames
  import opened Text
  import opened FormatSpecifiers
  import opened ConfigurationText
  import opened QuotedValues
  import opened ConfigurationPrinting

  // ---------- Trimming ----------

  /** Trimming takes blanks off both ends and nothing else. */
  lemma TrimIsSlice(s: string) returns (a: nat, b: nat)
    ensures a <= b <= |s| && Trim(s) == s[a..b]
    ensures (forall i :: 0 <= i < a ==> IsSpace(s[i])) && (forall i :: b <= i < |s| ==> IsSpace(s[i]))
  {
    b := RTrimTakes(s);
    a := LTrimTakes(s[..b]);
    assert s[..b][a..] == s[a..b];
    assert forall i :: 0 <= i < a ==> s[i] == s[..b][i];
  }

  lemma {:induction false} RTrimTakes(s: string) returns (b: nat)
    ensures b <= |s| && RTrim(s) == s[..b] && forall i :: b <= i < |s| ==> IsSpace(s[i])
    decreases |s|
  {
    if s != "" && IsSpace(s[|s| - 1]) {
      var t := s[..|s| - 1];
      b := RTrimTakes(t);
      assert t[..b] == s[..b] && forall i :: b <= i < |t| ==> s[i] == t[i];
    } else {
      b := |s|;
    }
  }

  lemma {:induction false} LTrimTakes(s: string) returns (a: nat)
    ensures a <= |s| && LTrim(s) == s[a..] && forall i :: 0 <= i < a ==> IsSpace(s[i])
    decreases |s|
  {
    if s != "" && IsSpace(s[0]) {
      a := LTrimTakes(s[1..]);
      assert s[1..][a..] == s[a + 1..] && forall i :: 0 < i <= a ==> s[i] == s[1..][i - 1];
      a := a + 1;
    } else {
      a := 0;
    }
  }

  lemma {:induction false} RTrimAppend(a: string, x: string, s: string)
    requires a != "" && !IsSpace(a[|a| - 1]) && s == a + x
    ensures RTrim(s) == a + RTrim(x)
    decreases |x|
  {
    if x == "" {
      assert s == a;
    } else if IsSpace(x[|x| - 1]) {
      assert s[..|s| - 1] == a + x[..|x| - 1];
      RTrimAppend(a, x[..|x| - 1], s[..|s| - 1]);
    }
  }

  lemma RTrimTwice(x: string)
    ensures RTrim(RTrim(x)) == RTrim(x) && Trim(RTrim(x)) == Trim(x)
  {
    RTrimIsPrefix(x);
  }

  lemma {:induction false} RTrimSpaceFirst(v: string, s: string)
    requires s == " " + v
    ensures RTrim(s) == if RTrim(v) == "" then "" else " " + RTrim(v)
    decreases |v|
  {
    if v == "" {
      assert s[..0] == "" && RTrim(s) == RTrim("");
    } else if IsSpace(v[|v| - 1]) {
      assert s[..|s| - 1] == " " + v[..|v| - 1];
      RTrimSpaceFirst(v[..|v| - 1], s[..|s| - 1]);
    }
  }

  lemma TrimSpaceFirst(v: string, s: string)
    requires s == " " + v
    ensures Trim(s) == Trim(v)
  {
    RTrimSpaceFirst(v, s);
    assert (" " + RTrim(v))[1..] == RTrim(v);
  }

  lemma TrimSpaceLast(v: string, s: string)
    requires s == v + " "
    ensures Trim(s) == Trim(v)
  {
    assert s[..|s| - 1] == v;
  }

  /** Outer blanks do not matter to a setting. */
  lemma TrimmedSettingIsRead(line: string, name: string, x: string)
    requires Plain(name) && line == name + " =" + x
    ensures Trim(line) == name + " =" + RTrim(x)
    ensures ParsedContent(Trim(line)) == Setting(TypeNamed(name), Unquoted(Trim(x)))
  {
    RTrimAppend(name + " =", x, line);
    assert RTrim(line)[0] == name[0];
    ContentIsRead(Trim(line), name, RTrim(x));
    RTrimTwice(x);
  }

  // ---------- Quotes at the end of a trimmed line ----------

  lemma {:induction false} FindSnoc(s: string, c: char, from: nat)
    requires c != '"'
    ensures Find(s + [c], "\"", from) == Find(s, "\"", from)
    decreases |s| - from
  {
    if from < |s| && s[from] != '"' {
      FindFromNext(s, from);
      FindFromNext(s + [c], from);
      FindSnoc(s, c, from + 1);
    } else if from < |s| {
      FindOne(s, "\"", from, from);
      FindOne(s + [c], "\"", from, from);
    } else {
      FindNone(s, "\"", from);
      FindNone(s + [c], "\"", from);
    }
  }

  lemma {:induction false} ClosingSnoc(s: string, c: char, e: int)
    requires c != '"' && (e == -1 || 1 <= e < |s|)
    ensures ClosingQuote(s + [c], e) == ClosingQuote(s, e)
    decreases if e == -1 then 0 else |s| - e
  {
    if e != -1 && s[e - 1] == '\\' {
      FindSnoc(s, c, e + 2);
      ClosingSnoc(s, c, Find(s, "\"", e + 2));
    }
  }

  lemma {:induction false} QuotesEndOfTrimmed(s: string)
    ensures QuotesEnd(RTrim(s)) == QuotesEnd(s)
    decreases |s|
  {
    if s != "" && IsSpace(s[|s| - 1]) {
      var t, c := s[..|s| - 1], s[|s| - 1];
      assert s == t + [c];
      QuotesEndOfTrimmed(t);
      FindSnoc(t, c, 0);
      var start := Find(t, "\"", 0);
      if start != -1 {
        FindSnoc(t, c, start + 1);
        ClosingSnoc(t, c, Find(t, "\"", start + 1));
      }
    }
  }

  // ---------- Lines without a pair of quotes ----------

  function UpToSigns(s: string): string {
    var i := Find(s, "##", 0);
    if i == -1 then s else s[..i]
  }

  /** Where the comment starts does not depend on blanks at the end or on the type in front. */
  lemma SignsOfSetting(head: string, x: string, l: string)
    requires (forall i :: 0 <= i < |head| ==> head[i] != '#') && l == head + RTrim(x)
    ensures var i, j := Find(x, "##", 0), Find(l, "##", 0);
            (i == -1 <==> j == -1) && (i >= 0 ==> j == |head| + i && i + 1 < |RTrim(x)|)
  {
    var i, j := Find(x, "##", 0), Find(l, "##", 0);
    SignsAt(x, 0);
    SignsAt(l, 0);
    RTrimIsPrefix(x);
    var r := RTrim(x);
    if i >= 0 {
      RTrimKeeps(x, i + 1);
      assert r[i] == x[i] && r[i + 1] == x[i + 1];
      assert l[|head| + i] == '#' && l[|head| + i + 1] == '#';
    }
    if j >= 0 {
      assert j >= |head| by { assert l[j] == '#'; }
      assert l[j] == r[j - |head|] == x[j - |head|] && l[j + 1] == r[j + 1 - |head|] == x[j + 1 - |head|];
    }
  }

  /** The line that is left once outer blanks are gone. */
  lemma TrimmedLine(line: string, name: string, x: string, l: string)
    requires Plain(name) && line == name + " =" + x && l == Trim(line)
    ensures l == name + " =" + RTrim(x) && l[0] != '#' && QuotesEnd(l) == QuotesEnd(line)
  {
    TrimmedSettingIsRead(line, name, x);
    RTrimAppend(name + " =", x, line);
    QuotesEndOfTrimmed(line);
  }

  /** Without a pair of quotes a line ends at its first comment sign. */
  lemma OpenLineIsRead(line: string, name: string, x: string)
    requires Plain(name) && line == name + " =" + x && QuotesEnd(line) == -1
    ensures ParsedLine(line) == Setting(TypeNamed(name), Unquoted(Trim(UpToSigns(x))))
  {
    var l := Trim(line);
    TrimmedLine(line, name, x, l);
    OpenLineIsCut(l, name + " =", x);
    if Find(x, "##", 0) == -1 {
      ParsedAs(line, l, l);
      TrimmedSettingIsRead(l, name, RTrim(x));
      RTrimTwice(x);
    } else {
      ParsedAs(line, l, name + " =" + UpToSigns(x));
      TrimmedSettingIsRead(name + " =" + UpToSigns(x), name, UpToSigns(x));
    }
  }

  lemma OpenLineIsCut(l: string, head: string, x: string)
    requires (forall i :: 0 <= i < |head| ==> head[i] != '#') && l == head + RTrim(x) && QuotesEnd(l) == -1
    ensures WithoutComment(l) == if Find(x, "##", 0) == -1 then l else head + UpToSigns(x)
  {
    SignsOfSetting(head, x, l);
    var i := Find(x, "##", 0);
    if i != -1 {
      RTrimIsPrefix(x);
      assert l[..|head| + i] == head + x[..i];
    }
  }

  lemma UnquotedPlain(w: string)
    requires NoQuote(w)
    ensures Unquoted(w) == w
  {
    FindNone(w, "\"", 0);
  }

  lemma NoQuotesNoEnd(line: string)
    requires NoQuote(line)
    ensures QuotesEnd(line) == -1
  {
    FindNone(line, "\"", 0);
  }

  /** A value without quotes comes back exactly where it has no outer blanks and no comment sign. */
  lemma UnquotedSettingCondition(line: string, kind: ConfigurationType, v: string)
    requires kind != UnknownType && NoQuote(v) && line == TypeName(kind) + " = " + v
    ensures var p := ParsedLine(line); p.Setting? && p.kind == kind && (p.value == v <==> Trim(v) == v && NoSigns(v))
  {
    TypePlain(kind);
    NamesAreReadBack(Info, kind);
    NamedUnquotedCondition(line, TypeName(kind), v);
  }

  lemma NamedUnquotedCondition(line: string, name: string, v: string)
    requires Plain(name) && NoQuote(v) && line == name + " = " + v
    ensures var p := ParsedLine(line);
            p.Setting? && p.kind == TypeNamed(name) && (p.value == v <==> Trim(v) == v && NoSigns(v))
  {
    var x := " " + v;
    assert line == name + " =" + x;
    NoQuotesNoEnd(line);
    OpenLineIsRead(line, name, x);
    UpToSignsCases(v, x);
  }

  lemma UpToSignsCases(v: string, x: string)
    requires NoQuote(v) && x == " " + v
    ensures var value := Unquoted(Trim(UpToSigns(x))); value == v <==> Trim(v) == v && NoSigns(v)
  {
    SignsAt(x, 0);
    var y := UpToSigns(x);
    var a, b := TrimIsSlice(y);
    UnquotedPlain(Trim(y));
    if NoSigns(v) {
      assert forall i :: 0 <= i < |v| ==> x[i + 1] == v[i];
      assert Find(x, "##", 0) == -1 by {
        assert forall i :: 0 < i < |x| ==> x[i] == v[i - 1];
      }
      TrimSpaceFirst(v, x);
    } else {
      var i :| 0 <= i && i + 1 < |v| && v[i] == '#' && v[i + 1] == '#';
      assert x[i + 1] == '#' && x[i + 2] == '#';
    }
  }

  // ---------- A comment behind an unquoted value ----------

  /** Text in front of a quote leaves a quote in the value. */
  lemma UnquotedHasQuote(w: string, start: nat, e: int, u: Unescaped)
    requires 0 < start == Find(w, "\"", 0) && e == Find(w, "\"", start + 1) && u == Unescape(w, e)
    ensures '"' in Unquoted(w)
  {
    QuotesStay(w, start, e);
    BetweenHasQuote(u, start);
  }

  lemma BetweenHasQuote(u: Unescaped, start: nat)
    requires 0 < start < |u.value| && u.value[start] == '"'
    requires u.quotesEnd == -1 || (start < u.quotesEnd < |u.value| && u.value[u.quotesEnd] == '"')
    ensures '"' in Between(u, start)
  {
    if u.quotesEnd == -1 || start + 1 == u.quotesEnd {
      assert u.value[start] == '"';
    } else {
      var between := Between(u, start);
      assert between[u.quotesEnd - start - 1] == u.value[u.quotesEnd];
    }
  }

  lemma {:induction false} QuotesStay(w: string, start: nat, e: int)
    requires start < |w| && w[start] == '"' && (e == -1 || (start < e < |w| && w[e] == '"' && e >= 1))
    ensures var u := Unescape(w, e);
            && start < |u.value| && u.value[start] == '"'
            && (u.quotesEnd != -1 ==> start < u.quotesEnd < |u.value| && u.value[u.quotesEnd] == '"')
    decreases |w|
  {
    if e != -1 && w[e - 1] == '\\' {
      var erased := Erase(w, e - 1);
      var next := Find(erased, "\"", e + 2);
      if next != -1 { FoundIsQuote(erased, e + 2); }
      QuotesStay(erased, start, next);
    }
  }

  lemma FoundIsQuote(s: string, from: nat)
    requires Find(s, "\"", from) != -1
    ensures from <= Find(s, "\"", from) < |s| && s[Find(s, "\"", from)] == '"'
  {}

  /** A comment behind an unquoted value is dropped exactly where the line has no pair of quotes; otherwise part of
      the comment ends up in the value. */
  lemma CommentCondition(line: string, kind: ConfigurationType, v: string, rest: string)
    requires kind != UnknownType && NoQuote(v) && NoSigns(v) && line == TypeName(kind) + " = " + v + " ##" + rest
    ensures var p := ParsedLine(line); p.Setting? && p.kind == kind && (p.value == Trim(v) <==> QuotesEnd(line) == -1)
  {
    TypePlain(kind);
    NamesAreReadBack(Info, kind);
    NamedCommentCondition(line, TypeName(kind), v, rest);
  }

  /** A quoted word in the comment is enough to spoil the value, as in `ENABLED = true ## a "b"`. */
  lemma QuotedWordSpoilsValue(line: string, kind: ConfigurationType, v: string, a: string, b: string, c: string)
    requires kind != UnknownType && NoQuote(v) && NoSigns(v) && NoQuote(a) && NoQuote(b) && (b != "" ==> b[|b| - 1] != '\\')
    requires line == TypeName(kind) + " = " + v + " ##" + (a + ['"'] + b + ['"'] + c)
    ensures var p := ParsedLine(line); p.Setting? && p.kind == kind && p.value != Trim(v)
  {
    TypePlain(kind);
    PairOfQuotes(line, TypeName(kind) + " = " + v + " ##" + a, b, c);
    CommentCondition(line, kind, v, a + ['"'] + b + ['"'] + c);
  }

  lemma PairOfQuotes(line: string, before: string, b: string, c: string)
    requires NoQuote(before) && NoQuote(b) && (b != "" ==> b[|b| - 1] != '\\') && line == before + ['"'] + b + ['"'] + c
    ensures QuotesEnd(line) != -1
  {
    var end := |before| + 1 + |b|;
    FindOne(line, "\"", 0, |before|);
    FindOne(line, "\"", |before| + 1, end);
    assert line[end - 1] != '\\';
  }

  lemma NamedCommentCondition(line: string, name: string, v: string, rest: string)
    requires Plain(name) && NoQuote(v) && NoSigns(v) && line == name + " = " + v + " ##" + rest
    ensures var p := ParsedLine(line);
            p.Setting? && p.kind == TypeNamed(name) && (p.value == Trim(v) <==> QuotesEnd(line) == -1)
  {
    var x := " " + v + " ##" + rest;
    assert line == name + " =" + x;
    if QuotesEnd(line) == -1 {
      OpenLineIsRead(line, name, x);
      ValueBeforeComment(v, rest, x);
    } else {
      CommentSurvives(line, name, v, rest, x);
    }
  }

  lemma ValueBeforeComment(v: string, rest: string, x: string)
    requires NoQuote(v) && NoSigns(v) && x == " " + v + " ##" + rest
    ensures Unquoted(Trim(UpToSigns(x))) == Trim(v)
  {
    var c := |v| + 2;
    SignsAt(x, 0);
    assert forall i :: 0 < i <= |v| ==> x[i] == v[i - 1];
    assert x[c] == '#' && x[c + 1] == '#' && x[c - 1] == ' ';
    assert Find(x, "##", 0) == c;
    assert UpToSigns(x) == x[..c] == (" " + v) + " ";
    TrimSpaceLast(" " + v, x[..c]);
    TrimSpaceFirst(v, " " + v);
    var a, b := TrimIsSlice(v);
    UnquotedPlain(Trim(v));
  }

  lemma CommentSurvives(line: string, name: string, v: string, rest: string, x: string)
    requires Plain(name) && NoQuote(v) && NoSigns(v) && line == name + " =" + x && x == " " + v + " ##" + rest
    requires QuotesEnd(line) != -1
    ensures var p := ParsedLine(line); p.Setting? && p.kind == TypeNamed(name) && p.value != Trim(v)
  {
    var l, head, c := Trim(line), name + " =", |v| + 2;
    TrimmedLine(line, name, x, l);
    SignsStay(v, rest, x, RTrim(x), c);
    var y := KeptText(l, head, RTrim(x), c);
    ParsedAs(line, l, head + y);
    TrimmedSettingIsRead(head + y, name, y);
    TrimmedHasQuote(Trim(y), v);
  }

  lemma SignsStay(v: string, rest: string, x: string, r: string, c: nat)
    requires NoQuote(v) && x == " " + v + " ##" + rest && r == RTrim(x) && c == |v| + 2
    ensures c + 1 < |r| && r[c] == r[c + 1] == '#' && forall i :: 0 <= i <= c ==> r[i] != '"'
  {
    assert x[c] == x[c + 1] == '#' && forall i :: 0 < i <= |v| ==> x[i] == v[i - 1];
    RTrimKeeps(x, c + 1);
    assert forall i :: 0 <= i <= c + 1 ==> r[i] == r[..c + 2][i] == x[..c + 2][i];
  }

  lemma TrimmedHasQuote(w: string, v: string)
    requires Find(w, "\"", 0) > 0 && NoQuote(v)
    ensures Unquoted(w) != Trim(v)
  {
    var start := Find(w, "\"", 0);
    UnquotedHasQuote(w, start, Find(w, "\"", start + 1), Unescape(w, Find(w, "\"", start + 1)));
    var a, b := TrimIsSlice(v);
  }

  /** What is left of a line whose comment comes before a pair of quotes. */
  lemma KeptText(l: string, head: string, r: string, c: nat) returns (y: string)
    requires l == head + r && (forall i :: 0 <= i < |head| ==> head[i] != '#' && head[i] != '"')
    requires c + 1 < |r| && r[c] == r[c + 1] == '#' && (forall i :: 0 <= i <= c ==> r[i] != '"')
    requires QuotesEnd(l) != -1
    ensures WithoutComment(l) == head + y && Find(Trim(y), "\"", 0) > 0
  {
    var e := QuotesEnd(l);
    QuotesEndIsQuote(l);
    CommentComesFirst(l, head, r, c, e);
    var g := Find(l, "##", e + 1);
    y := if g == -1 then r else r[..g - |head|];
    assert g != -1 ==> l[..g] == head + y;
    LateQuote(y, c, e - |head|);
  }

  lemma CommentComesFirst(l: string, head: string, r: string, c: nat, e: nat)
    requires l == head + r && (forall i :: 0 <= i < |head| ==> head[i] != '#' && head[i] != '"')
    requires c + 1 < |r| && r[c] == r[c + 1] == '#' && (forall i :: 0 <= i <= c ==> r[i] != '"')
    requires e < |l| && l[e] == '"'
    ensures |head| + c < e && r[e - |head|] == '"'
    ensures 0 <= Find(l, "##", 0) <= |head| + c && (Find(l, "##", e + 1) == -1 || e < Find(l, "##", e + 1) < |l|)
  {
    assert forall i :: 0 <= i <= c ==> l[|head| + i] == r[i];
    assert forall i :: 0 <= i < |head| ==> l[i] == head[i];
    assert l[|head| + c + 1] == r[c + 1];
    SignsAt(l, 0);
    SignsAt(l, e + 1);
  }

  /** The end of a pair of quotes is a quote. */
  lemma QuotesEndIsQuote(s: string)
    requires QuotesEnd(s) != -1
    ensures s[QuotesEnd(s)] == '"'
  {
    var start := Find(s, "\"", 0);
    ClosingIsQuote(s, Find(s, "\"", start + 1));
  }

  lemma {:induction false} ClosingIsQuote(s: string, e: int)
    requires e == -1 || (1 <= e < |s| && s[e] == '"')
    ensures var end := ClosingQuote(s, e); end == -1 || s[end] == '"'
    decreases if e == -1 then 0 else |s| - e
  {
    if e != -1 && s[e - 1] == '\\' {
      ClosingIsQuote(s, Find(s, "\"", e + 2));
    }
  }

  /** A quote that comes after another character that is no blank. */
  lemma LateQuote(y: string, c: nat, q: nat)
    requires c < q < |y| && y[c] == '#' && y[q] == '"' && forall i :: 0 <= i <= c ==> y[i] != '"'
    ensures Find(Trim(y), "\"", 0) > 0
  {
    var a, b := TrimIsSlice(y);
    assert a <= c && q < b;
    var w := Trim(y);
    assert w[0] == y[a] && w[q - a] == '"';
    FirstQuote(w, q - a);
  }

  lemma FirstQuote(w: string, k: nat)
    requires k < |w| && w[k] == '"' && w[0] != '"'
    ensures Find(w, "\"", 0) > 0
  {
    FindIsFirst(w, "\"", 0);
    assert At(w, "\"", k);
  }
}
