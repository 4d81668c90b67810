/**
 Comments behind a quoted setting (Configurations::Parser in external/easylogging++/easylogging++.cc). Two searches look
 for the closing quote: ignoreComments steps over escaped quotes, parseLine erases their backslashes on its way and so
 steps further. They need not agree, and quotes in the comment may join in.
 */
module SettingComments {

  import opened ConfigurationStore
  import opened ConfigurationNames
  import opened Text
  import opened FormatSpecifiers
  import opened ConfigurationText
  import opened QuotedValues
  import opened ConfigurationPrinting
  import opened UnquotedSettings

  // ---------- Where the erasing search ends ----------

  /** The erasing search ends at the closing quote, whether it has erased every backslash or stepped over some. */
  predicate Ends(rest: string, skip: nat, last: char) {
    if rest == "" then skip == 0 && last != '\\'
    else if rest[0] == '"' then Ends(rest[1..], if skip <= 1 then 2 else 0, '"')
    else Ends(rest[1..], if skip == 0 then 0 else skip - 1, rest[0])
  }

  lemma {:induction false} EndIsFound(s: string, k: nat, rest: string, skip: nat, e: int, u: Unescaped)
    requires 1 <= k && skip <= 2 && Spells(s, k, rest) && Ends(rest, skip, s[k - 1])
    requires e == Find(s, "\"", k + skip) && u == Unescape(s, e)
    ensures u.quotesEnd != -1
    decreases |rest|
  {
    if rest == "" {
      EndIsHere(s, k);
    } else if rest[0] != '"' {
      if skip == 0 { FindFromNext(s, k); }
      EndIsFound(s, k + 1, rest[1..], if skip == 0 then 0 else skip - 1, e, u);
    } else if skip <= 1 {
      FindOne(s, "\"", k + skip, k + 1);
      EndIsFoundErasing(s, k, rest, Erase(s, k), u);
    } else {
      EndIsFound(s, k + 2, rest[1..], 0, e, u);
    }
  }

  lemma EndIsHere(s: string, k: nat)
    requires 1 <= k < |s| && s[k] == '"' && s[k - 1] != '\\'
    ensures Find(s, "\"", k) == k && Unescape(s, k) == Unescaped(s, k)
  {
    FindOne(s, "\"", k, k);
  }

  lemma {:induction false} EndIsFoundErasing(s: string, k: nat, rest: string, erased: string, u: Unescaped)
    requires 1 <= k && rest != "" && rest[0] == '"' && Spells(s, k, rest) && Ends(rest[1..], 2, '"') && erased == Erase(s, k)
    requires u == Unescape(s, k + 1)
    ensures u.quotesEnd != -1
    decreases |rest|, 0
  {
    UnescapeOnce(s, k + 1, erased);
    SpellsErased(s, k, k + 2, rest[1..]);
    EndIsFound(erased, k + 1, rest[1..], 2, Find(erased, "\"", k + 3), u);
  }

  /** What is found does not depend on what follows. */
  lemma FindLocal(s: string, t: string, from: nat)
    requires Find(s, "\"", from) != -1
    ensures Find(s + t, "\"", from) == Find(s, "\"", from)
  {
    var i := Find(s, "\"", from);
    FindIsFirst(s, "\"", from);
    FoundIsQuote(s, from);
    forall j | from <= j < i ensures (s + t)[j] != '"' {
      AtIsSlice(s, "\"", j);
      assert s[j..j + 1] == [s[j]];
    }
    FindOne(s + t, "\"", from, i);
  }

  lemma {:induction false} UnescapeLocal(s: string, t: string, e: int, u: Unescaped, u': Unescaped)
    requires 1 <= e < |s| && u == Unescape(s, e) && u.quotesEnd != -1 && u' == Unescape(s + t, e)
    ensures u' == Unescaped(u.value + t, u.quotesEnd)
    decreases |s|
  {
    if s[e - 1] == '\\' {
      var erased := Erase(s, e - 1);
      assert Erase(s + t, e - 1) == erased + t;
      UnescapeOnce(s, e, erased);
      UnescapeOnce(s + t, e, erased + t);
      var next := Find(erased, "\"", e + 2);
      if next != -1 {
        FindLocal(erased, t, e + 2);
        UnescapeLocal(erased, t, next, u, u');
      }
    }
  }

  // ---------- Comment signs that stay in the value ----------

  /** There is a comment sign in front of the closing quote that was found, or anywhere if none was. */
  ghost predicate SignsIn(u: Unescaped, from: nat) {
    exists j :: from <= j && j + 1 < |u.value| && u.value[j] == '#' && u.value[j + 1] == '#'
                && (u.quotesEnd == -1 || j + 1 < u.quotesEnd)
  }

  /** A sign in front of the quote at hand is not touched any more. */
  lemma {:induction false} SignIsKept(s: string, e: int, j: nat, u: Unescaped)
    requires j + 1 < |s| && s[j] == '#' && s[j + 1] == '#' && (e == -1 || j + 1 < e < |s|) && u == Unescape(s, e)
    ensures SignsIn(u, j)
    decreases |s|
  {
    if e != -1 && s[e - 1] == '\\' {
      var erased := Erase(s, e - 1);
      UnescapeOnce(s, e, erased);
      SignIsKept(erased, Find(erased, "\"", e + 2), j, u);
    } else {
      assert u.value[j] == '#';
    }
  }

  predicate SignBehind(s: string, end: nat) {
    end + 3 < |s| && s[end + 1] == ' ' && s[end + 2] == '#' && s[end + 3] == '#'
  }

  /** Behind the closing quote that the search has missed, the next quote is behind the comment sign. */
  lemma MissedQuote(s: string, k: nat, skip: nat, e: int, u: Unescaped)
    requires 1 <= k < |s| && s[k] == '"' && SignBehind(s, k) && skip <= 2 && !(skip == 0 && s[k - 1] != '\\')
    requires e == Find(s, "\"", k + skip) && u == Unescape(s, e)
    ensures SignsIn(u, k)
  {
    if skip == 0 {
      FindOne(s, "\"", k, k);
      EscapedQuoteIsMissed(s, k, Erase(s, k - 1), u);
    } else {
      NextQuote(s, k + skip, k + 4);
      SignIsKept(s, e, k + 2, u);
    }
  }

  lemma EscapedQuoteIsMissed(s: string, k: nat, erased: string, u: Unescaped)
    requires 1 <= k < |s| && SignBehind(s, k) && s[k - 1] == '\\' && erased == Erase(s, k - 1) && u == Unescape(s, k)
    ensures SignsIn(u, k)
  {
    UnescapeOnce(s, k, erased);
    assert erased[k + 1] == s[k + 2] && erased[k + 2] == s[k + 3];
    NextQuote(erased, k + 2, k + 3);
    SignIsKept(erased, Find(erased, "\"", k + 2), k + 1, u);
  }

  lemma NextQuote(s: string, from: nat, to: nat)
    requires from <= to <= |s| && forall j :: from <= j < to ==> s[j] != '"'
    ensures Find(s, "\"", from) == -1 || to <= Find(s, "\"", from) < |s|
  {
    if Find(s, "\"", from) != -1 { FoundIsQuote(s, from); }
  }

  /** Something that will stay in the value: a sign in the rest, or one behind a closing quote that is missed. */
  predicate SignIsDue(s: string, k: nat, rest: string, skip: nat)
    requires 1 <= k <= |s|
  {
    !NoSigns(rest) || (!Ends(rest, skip, s[k - 1]) && SignBehind(s, EndOf(k, rest)))
  }

  lemma StillDue(s: string, k: nat, rest: string, skip: nat)
    requires 1 <= k && Spells(s, k, rest) && SignIsDue(s, k, rest, skip)
    requires rest != "" && !(rest[0] == '#' && |rest| > 1 && rest[1] == '#')
    ensures rest[0] != '"' ==> SignIsDue(s, k + 1, rest[1..], if skip == 0 then 0 else skip - 1)
    ensures rest[0] == '"' ==> SignIsDue(s, k + 2, rest[1..], if skip <= 1 then 2 else 0)
  {
    TailSigns(rest);
  }

  lemma {:induction false} SignsSurvive(s: string, k: nat, rest: string, skip: nat, e: int, u: Unescaped)
    requires 1 <= k && skip <= 2 && Spells(s, k, rest) && SignIsDue(s, k, rest, skip)
    requires e == Find(s, "\"", k + skip) && u == Unescape(s, e)
    ensures SignsIn(u, k)
    decreases |rest|, 2
  {
    if rest == "" {
      MissedQuote(s, k, skip, e, u);
    } else if rest[0] == '#' && |rest| > 1 && rest[1] == '#' {
      FirstSignIsKept(s, k, rest, skip, e, u);
    } else {
      StillDue(s, k, rest, skip);
      if rest[0] != '"' {
        SignsSurvivePlain(s, k, rest, skip, e, u);
      } else if skip <= 1 {
        FindOne(s, "\"", k + skip, k + 1);
        SignsSurviveErasing(s, k, rest, Erase(s, k), u);
      } else {
        SignsSurvive(s, k + 2, rest[1..], 0, e, u);
      }
    }
  }

  lemma {:induction false} SignsSurvivePlain(s: string, k: nat, rest: string, skip: nat, e: int, u: Unescaped)
    requires 1 <= k && skip <= 2 && rest != "" && rest[0] != '"' && Spells(s, k, rest)
    requires SignIsDue(s, k + 1, rest[1..], if skip == 0 then 0 else skip - 1)
    requires e == Find(s, "\"", k + skip) && u == Unescape(s, e)
    ensures SignsIn(u, k)
    decreases |rest|, 0
  {
    if skip == 0 { FindFromNext(s, k); }
    SignsSurvive(s, k + 1, rest[1..], if skip == 0 then 0 else skip - 1, e, u);
  }

  lemma FirstSignIsKept(s: string, k: nat, rest: string, skip: nat, e: int, u: Unescaped)
    requires skip <= 2 && Spells(s, k, rest) && |rest| > 1 && rest[0] == '#' && rest[1] == '#'
    requires e == Find(s, "\"", k + skip) && u == Unescape(s, e)
    ensures SignsIn(u, k)
  {
    assert s[k] == '#' && s[k + 1] == '#' by { assert rest[1..][0] == '#'; }
    NextQuote(s, k + skip, k + 2);
    SignIsKept(s, e, k, u);
  }

  lemma TailSigns(rest: string)
    requires rest != "" && !(rest[0] == '#' && |rest| > 1 && rest[1] == '#')
    ensures NoSigns(rest[1..]) ==> NoSigns(rest)
  {
    if NoSigns(rest[1..]) {
      forall i | 0 <= i && i + 1 < |rest| ensures !(rest[i] == '#' && rest[i + 1] == '#') {
        assert i > 0 ==> rest[1..][i - 1] == rest[i] && rest[1..][i] == rest[i + 1];
      }
    }
  }

  lemma {:induction false} SignsSurviveErasing(s: string, k: nat, rest: string, erased: string, u: Unescaped)
    requires 1 <= k && rest != "" && rest[0] == '"' && Spells(s, k, rest) && SignIsDue(s, k + 2, rest[1..], 2)
    requires erased == Erase(s, k) && u == Unescape(s, k + 1)
    ensures SignsIn(u, k)
    decreases |rest|, 0
  {
    UnescapeOnce(s, k + 1, erased);
    SpellsErased(s, k, k + 2, rest[1..]);
    DueWhenErased(s, k, rest[1..], erased);
    SignsSurvive(erased, k + 1, rest[1..], 2, Find(erased, "\"", k + 3), u);
  }

  lemma DueWhenErased(s: string, k: nat, rest: string, erased: string)
    requires k + 1 < |s| && erased == Erase(s, k) && SignIsDue(s, k + 2, rest, 2)
    ensures SignIsDue(erased, k + 1, rest, 2)
  {
    EndOfShifts(k + 1, rest);
    EndOfEscape(k + 1, rest);
    assert erased[k] == s[k + 1];
  }

  // ---------- Values with a comment behind them ----------

  /** What parseLine takes off a quoted value when a comment has been left behind it. */
  lemma LeftoverCondition(v: string, q: string, t: string)
    requires v != "" && q == Quoted(Escape(v)) && |t| >= 3 && t[0] == ' ' && t[1] == '#' && t[2] == '#'
    ensures Ends(v, 0, '"') ==> Unquoted(q + t) == Unquoted(q)
    ensures !NoSigns(v) || !Ends(v, 0, '"') ==> !NoSigns(Unquoted(q + t))
  {
    var w := q + t;
    LeftoverIsSpelled(v, q, t, w);
    if Ends(v, 0, '"') { EndedLeftover(v, q, t, w); }
    if !NoSigns(v) || !Ends(v, 0, '"') { SignedLeftover(v, w, Find(w, "\"", 1), Unescape(w, Find(w, "\"", 1))); }
  }

  lemma LeftoverIsSpelled(v: string, q: string, t: string, w: string)
    requires v != "" && q == Quoted(Escape(v)) && w == q + t && |t| >= 3 && t[0] == ' ' && t[1] == '#' && t[2] == '#'
    ensures Spells(w, 1, v) && SignBehind(w, EndOf(1, v)) && w[0] == '"' && Find(w, "\"", 0) == 0
    ensures Spells(q, 1, v) && Find(q, "\"", 0) == 0 && |q| > 2 && q[0] == '"' && q[1] != '"'
  {
    QuotedIsSpelled(v, q);
    FirstIsNoQuote(v);
    assert q[1] == Escape(v)[0];
    SpelledBefore(v, Escape(v), t, w);
    FindOne(w, "\"", 0, 0);
  }

  lemma FirstIsNoQuote(v: string)
    requires v != ""
    ensures Escape(v) != "" && Escape(v)[0] != '"'
  {}

  lemma SpelledBefore(v: string, e: string, t: string, w: string)
    requires e == Escape(v) && w == ['"'] + e + ['"'] + t && |t| >= 3 && t[0] == ' ' && t[1] == '#' && t[2] == '#'
    ensures Spells(w, 1, v) && SignBehind(w, EndOf(1, v))
  {
    var tail := ['"'] + t;
    assert w == ['"'] + e + tail;
    SliceBehind(['"'], e, tail, w);
    EscapeIsSpelled(w, 1, v);
    EndOfEscape(1, v);
    assert w[2 + |e|] == t[0] && w[3 + |e|] == t[1] && w[4 + |e|] == t[2];
  }

  lemma EndedLeftover(v: string, q: string, t: string, w: string)
    requires w == q + t && Spells(q, 1, v) && Ends(v, 0, '"') && |q| > 2 && q[0] == '"' && q[1] != '"'
    requires Find(q, "\"", 0) == 0 && Find(w, "\"", 0) == 0
    ensures Unquoted(w) == Unquoted(q)
  {
    var e := Find(q, "\"", 1);
    var u := Unescape(q, e);
    assert u.quotesEnd != -1 by { EndIsFound(q, 1, v, 0, e, u); }
    assert 1 < e < |q| by { FoundIsQuote(q, 1); }
    FindLocal(q, t, 1);
    UnescapeLocal(q, t, e, u, Unescape(w, e));
    UnquotedIsBetween(q, e, u);
    UnquotedIsBetween(w, e, Unescape(w, e));
    BetweenLocal(u, t);
  }

  lemma BetweenLocal(u: Unescaped, t: string)
    requires 1 < u.quotesEnd < |u.value|
    ensures Between(Unescaped(u.value + t, u.quotesEnd), 0) == Between(u, 0)
  {}

  lemma SignedLeftover(v: string, w: string, e: int, u: Unescaped)
    requires Spells(w, 1, v) && SignBehind(w, EndOf(1, v)) && w[0] == '"' && Find(w, "\"", 0) == 0
    requires e == Find(w, "\"", 1) && u == Unescape(w, e)
    requires !NoSigns(v) || !Ends(v, 0, '"')
    ensures !NoSigns(Unquoted(w))
  {
    assert SignsIn(u, 1) by { SignsSurvive(w, 1, v, 0, e, u); }
    UnquotedIsBetween(w, e, u);
    BetweenHasSigns(u);
  }

  lemma BetweenHasSigns(u: Unescaped)
    requires SignsIn(u, 1) && (u.quotesEnd == -1 || 0 < u.quotesEnd < |u.value|)
    ensures !NoSigns(Between(u, 0))
  {
    var j :| 1 <= j && j + 1 < |u.value| && u.value[j] == '#' && u.value[j + 1] == '#'
             && (u.quotesEnd == -1 || j + 1 < u.quotesEnd);
    var b := Between(u, 0);
    if u.quotesEnd == -1 {
      assert b[j] == '#' && b[j + 1] == '#';
    } else {
      assert b[j - 1] == u.value[j] && b[j] == u.value[j + 1];
    }
  }

  // ---------- Lines with a comment behind the setting ----------

  /** Without a closing quote the value that is read has no comment sign. */
  lemma UnclosedHasNoSigns(setting: string, name: string, v: string)
    requires Plain(name) && setting == SettingText(name, v) && !Closes(v, 0, '"')
    ensures ParsedLine(setting).Setting? && ParsedLine(setting).kind == TypeNamed(name) && NoSigns(ParsedLine(setting).value)
    ensures NoSigns(v) ==> ParsedLine(setting).value == Unquoted(Quoted(Escape(v)))
  {
    var comment := Find(setting, "##", 0);
    if comment == -1 {
      WholeLineIsRead(setting, name, v);
      QuotedHasNoSigns(setting, name, v, Quoted(Escape(v)));
    } else {
      CutSettingIsRead(setting, name, v, comment);
      SignsAt(setting, 0);
      if NoSigns(v) { SignsComeFromValue(setting, name, v, comment); }
    }
  }

  lemma QuotedHasNoSigns(setting: string, name: string, v: string, q: string)
    requires q == Quoted(Escape(v)) && setting == name + " = " + q && Find(setting, "##", 0) == -1
    ensures NoSigns(Unquoted(q))
  {
    var n := |name| + 3;
    SignsAt(setting, 0);
    assert forall i :: 0 <= i < |q| ==> q[i] == setting[n + i];
    UnquotedHasNoSigns(q);
  }

  lemma CutSettingIsRead(setting: string, name: string, v: string, comment: nat)
    requires Plain(name) && setting == SettingText(name, v) && !Closes(v, 0, '"') && comment == Find(setting, "##", 0)
    ensures var p := ParsedLine(setting); p.Setting? && p.kind == TypeNamed(name) && NoSigns(p.value)
  {
    assert setting == SettingText(name, v) + "";
    TrimNothing(setting);
    QuotesInSetting(setting, name, v, "");
    CutIsRead(setting, name, v, comment);
  }

  /** Without a pair of quotes in the whole line the comment is cut off with the rest. */
  lemma OpenCommentIsDropped(line: string, setting: string, name: string, v: string, rest: string)
    requires Plain(name) && setting == SettingText(name, v) && line == setting + " ##" + rest
    requires !Closes(v, 0, '"') && QuotesEnd(line) == -1
    ensures ParsedLine(line) == ParsedLine(setting)
  {
    var q := Quoted(Escape(v));
    var x, y := " " + q + " ##" + rest, " " + q;
    assert setting == name + " =" + y && line == name + " =" + x;
    assert QuotesEnd(setting) == -1 by {
      assert setting == setting + "";
      QuotesInSetting(setting, name, v, "");
    }
    OpenLineIsRead(line, name, x);
    OpenLineIsRead(setting, name, y);
    SameUpToSigns(q, y, rest, x);
  }

  /** Both lines end at the first comment sign, spaces in front of it aside. */
  lemma SameUpToSigns(q: string, y: string, rest: string, x: string)
    requires q != "" && q[|q| - 1] == '"' && y == " " + q && x == y + " ##" + rest
    ensures Trim(UpToSigns(x)) == Trim(UpToSigns(y))
  {
    SignsAt(x, 0);
    SignsAt(y, 0);
    var i, j, n := Find(x, "##", 0), Find(y, "##", 0), |y|;
    assert x[n] == ' ' && x[n + 1] == '#' && x[n + 2] == '#' && forall k :: 0 <= k < n ==> x[k] == y[k];
    if j == -1 {
      assert i == n + 1;
      assert x[..i] == y + " ";
      TrimSpaceLast(y, x[..i]);
    } else {
      assert i == j;
      assert x[..i] == y[..j];
    }
  }

  /** A quote in the comment closes the value for ignoreComments: then the comment stays. */
  lemma CommentIsKept(line: string, setting: string, name: string, v: string, rest: string) returns (t: string)
    requires Plain(name) && setting == SettingText(name, v) && line == setting + " ##" + rest
    requires !Closes(v, 0, '"') && QuotesEnd(line) != -1
    ensures |t| >= 3 && t[0] == ' ' && t[1] == '#' && t[2] == '#'
    ensures ParsedLine(line) == Setting(TypeNamed(name), Unquoted(Quoted(Escape(v)) + t))
  {
    var l, e := Trim(line), QuotesEnd(line);
    TrimmedSetting(line, setting, name, v, rest, l);
    ClosedInComment(line, setting, name, v, rest, e);
    QuotesEndIsQuote(l);
    var content := KeptUpToQuote(line, l, setting, e);
    t := content[|setting|..];
    KeptContentIsRead(content, setting, name, v, t);
  }

  lemma TrimmedSetting(line: string, setting: string, name: string, v: string, rest: string, l: string)
    requires Plain(name) && setting == SettingText(name, v) && line == setting + " ##" + rest && l == Trim(line)
    ensures l != "" && l <= line && l[0] == line[0] == setting[0] && QuotesEnd(l) == QuotesEnd(line)
    ensures !IsSpace(setting[0]) && setting[0] != '#'
  {
    var x := " " + Quoted(Escape(v)) + " ##" + rest;
    assert line == name + " =" + x;
    TrimmedLine(line, name, x, l);
    RTrimIsPrefix(x);
  }

  lemma KeptContentIsRead(content: string, setting: string, name: string, v: string, t: string)
    requires Plain(name) && setting == SettingText(name, v) && setting + " ##" <= content && t == content[|setting|..]
    requires !IsSpace(content[|content| - 1])
    ensures |t| >= 3 && t[0] == ' ' && t[1] == '#' && t[2] == '#'
    ensures ParsedContent(content) == Setting(TypeNamed(name), Unquoted(Quoted(Escape(v)) + t))
  {
    var q := Quoted(Escape(v));
    assert content == setting + t && content == name + " = " + (q + t);
    QuotedContentIsRead(content, name, q + t);
  }

  lemma ClosedInComment(line: string, setting: string, name: string, v: string, rest: string, e: int)
    requires Plain(name) && setting == SettingText(name, v) && line == setting + " ##" + rest
    requires !Closes(v, 0, '"') && e == QuotesEnd(line) != -1
    ensures |setting| + 2 < e < |line|
  {
    var more := " ##" + rest;
    assert line == setting + more;
    QuotesInSetting(line, name, v, more);
    QuotesEndIsQuote(line);
    assert line[|setting|] == ' ' && line[|setting| + 1] == '#' && line[|setting| + 2] == '#';
  }

  lemma KeptUpToQuote(line: string, l: string, setting: string, e: nat) returns (content: string)
    requires setting != "" && !IsSpace(setting[0]) && setting[0] != '#' && setting + " ##" <= line
    requires l == Trim(line) && l <= line && e == QuotesEnd(l) && |setting| + 2 < e < |l| && l[0] == line[0] && l[e] == '"'
    ensures ParsedLine(line) == ParsedContent(content) && setting + " ##" <= content && !IsSpace(content[|content| - 1])
  {
    var n := |setting|;
    assert l[n + 1] == '#' && l[n + 2] == '#' && l[0] == setting[0];
    var kept := WithoutComment(l);
    KeptPrefix(l, n + 1, e);
    var k := |kept|;
    assert kept == l[..k];
    TrimmedCut(l, k, e);
    content := Trim(kept);
    ParsedAs(line, l, kept);
  }

  lemma KeptPrefix(l: string, c: nat, e: nat)
    requires e == QuotesEnd(l) && c + 1 < e < |l| && l[c] == '#' && l[c + 1] == '#'
    ensures WithoutComment(l) <= l && e < |WithoutComment(l)|
  {
    SignsAt(l, 0);
    SignsAt(l, e + 1);
  }

  /** A comment behind a quoted setting is dropped exactly when ignoreComments finds the closing quote, or no closing quote
      at all in the whole line, or when parseLine finds it and the value has no comment sign of its own. */
  lemma QuotedCommentCondition(line: string, setting: string, name: string, v: string, rest: string)
    requires Plain(name) && setting == SettingText(name, v) && line == setting + " ##" + rest
    ensures ParsedLine(line) == ParsedLine(setting) <==>
            Closes(v, 0, '"') || QuotesEnd(line) == -1 || (Ends(v, 0, '"') && NoSigns(v))
  {
    if Closes(v, 0, '"') {
      QuotedCommentIsDropped(line, setting, name, v, rest);
    } else if QuotesEnd(line) == -1 {
      OpenCommentIsDropped(line, setting, name, v, rest);
    } else {
      var t := CommentIsKept(line, setting, name, v, rest);
      UnclosedHasNoSigns(setting, name, v);
      LeftoverCondition(v, Quoted(Escape(v)), t);
    }
  }
}
