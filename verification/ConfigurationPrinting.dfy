/**
 How a quoted setting and a level line of a configuration text are read (Configurations::Parser in
 external/easylogging++/easylogging++.cc).
 */
module ConfigurationPrinting {

  import opened Levels
  import opened ConfigurationStore
  import opened ConfigurationNames
  import opened Text
  import opened FormatSpecifiers
  import opened ConfigurationText
  import opened QuotedValues

  // ---------- Trimming ----------

  lemma {:induction false} RTrimIsPrefix(s: string)
    ensures RTrim(s) <= s && (RTrim(s) != "" ==> !IsSpace(RTrim(s)[|RTrim(s)| - 1]))
  {
    if s != "" && IsSpace(s[|s| - 1]) {
      RTrimIsPrefix(s[..|s| - 1]);
    }
  }

  /** Trimming what is left of a line in front of a comment takes nothing up to the last position that matters. */
  lemma TrimmedCut(line: string, comment: nat, q: nat)
    requires q < comment <= |line| && !IsSpace(line[0]) && !IsSpace(line[q])
    ensures var content := Trim(line[..comment]);
            q < |content| <= comment && content == line[..|content|] && !IsSpace(content[|content| - 1])
  {
    var cut := line[..comment];
    RTrimKeeps(cut, q);
    RTrimIsPrefix(cut);
    assert RTrim(cut)[0] == line[0];
  }

  lemma LeadingSpace(s: string, w: string)
    requires w != "" && !IsSpace(w[0]) && !IsSpace(w[|w| - 1]) && s == " " + w
    ensures Trim(s) == w
  {
    assert s[1..] == w && LTrim(w) == w && RTrim(s) == s;
  }

  lemma {:induction false} LTrimBlanks(blanks: string, rest: string, s: string)
    requires (forall i :: 0 <= i < |blanks| ==> IsSpace(blanks[i])) && rest != "" && !IsSpace(rest[0]) && s == blanks + rest
    ensures LTrim(s) == rest
    decreases |blanks|
  {
    if blanks == "" {
      assert s == rest;
    } else {
      assert s[1..] == blanks[1..] + rest;
      LTrimBlanks(blanks[1..], rest, s[1..]);
    }
  }

  // ---------- Comment signs ----------

  predicate NoSigns(s: string) {
    forall i :: 0 <= i && i + 1 < |s| ==> !(s[i] == '#' && s[i + 1] == '#')
  }

  lemma SignsAt(s: string, from: nat)
    ensures var i := Find(s, "##", from);
            && (i >= 0 ==> from <= i && i + 1 < |s| && s[i] == s[i + 1] == '#')
            && forall j :: from <= j && (i == -1 || j < i) && j + 1 < |s| ==> !(s[j] == '#' && s[j + 1] == '#')
  {
    var i := Find(s, "##", from);
    if i >= 0 { AtPair(s, "##", i); }
    FindIsFirst(s, "##", from);
    forall j: nat | from <= j && (i == -1 || j < i) && j + 1 < |s| ensures !(s[j] == '#' && s[j + 1] == '#') {
      AtPair(s, "##", j);
    }
  }

  lemma ErasedHasNoSigns(s: string, i: nat)
    requires NoSigns(s) && i + 1 < |s| && s[i + 1] == '"'
    ensures NoSigns(Erase(s, i))
  {
    var e := Erase(s, i);
    forall j | 0 <= j && j + 1 < |e| ensures !(e[j] == '#' && e[j + 1] == '#') {
      assert j + 1 < i ==> e[j] == s[j] && e[j + 1] == s[j + 1];
      assert j >= i ==> e[j] == s[j + 1] && e[j + 1] == s[j + 2];
    }
  }

  /** Taking quotes and backslashes off makes no comment sign. */
  lemma {:induction false} UnescapedHasNoSigns(value: string, e: int)
    requires NoSigns(value) && (e == -1 || (1 <= e < |value| && value[e] == '"'))
    ensures NoSigns(Unescape(value, e).value)
    decreases |value|
  {
    if e != -1 && value[e - 1] == '\\' {
      var erased := Erase(value, e - 1);
      ErasedHasNoSigns(value, e - 1);
      UnescapedHasNoSigns(erased, Find(erased, "\"", e + 2));
    }
  }

  lemma UnquotedHasNoSigns(w: string)
    requires NoSigns(w)
    ensures NoSigns(Unquoted(w))
  {
    var start := Find(w, "\"", 0);
    if start != -1 {
      var e := Find(w, "\"", start + 1);
      UnescapedHasNoSigns(w, e);
      BetweenHasNoSigns(Unescape(w, e), start);
    }
  }

  lemma BetweenHasNoSigns(u: Unescaped, start: nat)
    requires NoSigns(u.value) && (u.quotesEnd == -1 || start < u.quotesEnd < |u.value|)
    ensures NoSigns(Between(u, start))
  {}

  lemma {:induction false} EscapeKeepsSigns(v: string)
    requires NoSigns(v)
    ensures NoSigns(Escape(v)) && (v != "" && v[0] != '#' ==> Escape(v) != "" && Escape(v)[0] != '#')
  {
    if v != "" {
      EscapeKeepsSigns(v[1..]);
      var e, rest := Escape(v), Escape(v[1..]);
      var n := |e| - |rest|;
      forall i | 0 <= i && i + 1 < |e| ensures !(e[i] == '#' && e[i + 1] == '#') {
        assert i >= n ==> e[i] == rest[i - n] && e[i + 1] == rest[i + 1 - n];
        assert i + 1 == n ==> e[i + 1] == rest[0];
      }
    }
  }

  // ---------- A setting without its comment ----------

  /** `TYPE =` and the rest. */
  lemma ContentIsRead(line: string, name: string, w: string)
    requires Plain(name) && line == name + " =" + w
    ensures ParsedContent(line) == Setting(TypeNamed(name), Unquoted(Trim(w)))
  {
    var a := |name| + 1;
    FindOne(line, "=", 0, a);
    assert line[..a] == name + " " && line[a + 1..] == w;
    NameBeforeSpace(name, line[..a]);
  }

  lemma NameBeforeSpace(name: string, s: string)
    requires Plain(name) && s == name + " "
    ensures Trim(UpperCase(s)) == name
  {
    assert UpperCase(s) == s;
    assert s[..|s| - 1] == name && RTrim(name) == name;
  }

  lemma QuotedContentIsRead(line: string, name: string, w: string)
    requires Plain(name) && w != "" && w[0] == '"' && !IsSpace(w[|w| - 1]) && line == name + " = " + w
    ensures ParsedContent(line) == Setting(TypeNamed(name), Unquoted(w))
  {
    assert line == name + " =" + (" " + w);
    ContentIsRead(line, name, " " + w);
    LeadingSpace(" " + w, w);
  }

  lemma ParsedAs(line: string, l: string, content: string)
    requires l == Trim(line) && l != "" && l[0] != '#' && content == WithoutComment(l)
    ensures ParsedLine(line) == ParsedContent(Trim(content))
  {}

  // ---------- Quoted settings ----------

  /** `TYPE = "value"`, with every quote in the value escaped. */
  function SettingText(name: string, v: string): string {
    name + " = " + Quoted(Escape(v))
  }

  /** The opening quote of a setting, and where the search for the closing one ends. */
  lemma QuotesInSetting(line: string, name: string, v: string, more: string)
    requires Plain(name) && line == SettingText(name, v) + more
    ensures Closes(v, 0, '"') ==> QuotesEnd(line) == |SettingText(name, v)| - 1
    ensures !Closes(v, 0, '"') ==> QuotesEnd(line) == -1 || |SettingText(name, v)| <= QuotesEnd(line) < |line|
  {
    var k := |name| + 4;
    SettingIsSpelled(line, name, v, more, k);
    ClosingQuoteIs(line, k, v, 0, ClosingQuote(line, Find(line, "\"", k)));
  }

  lemma SettingIsSpelled(line: string, name: string, v: string, more: string, k: nat)
    requires Plain(name) && line == SettingText(name, v) + more && k == |name| + 4
    ensures Find(line, "\"", 0) == k - 1 && line[k - 1] == '"' && Spells(line, k, v)
    ensures EndOf(k, v) == |SettingText(name, v)| - 1
  {
    var head, e := name + " = " + ['"'], Escape(v);
    assert line == head + e + (['"'] + more) && |head| == k;
    SliceBehind(head, e, ['"'] + more, line);
    FindOne(line, "\"", 0, k - 1);
    EscapeIsSpelled(line, k, v);
    EndOfEscape(k, v);
  }

  lemma SliceBehind(head: string, e: string, tail: string, s: string)
    requires s == head + e + tail && tail != ""
    ensures s[..|head|] == head && s[|head|..|head| + |e|] == e && s[|head| + |e|] == tail[0]
  {}

  lemma EscapableCloses(v: string)
    requires Escapable(v)
    ensures Closes(v, 0, '"')
  {
    ErasesAllWhenSpaced(v, 0, '"');
    ErasingCloses(v, 0, 0, '"');
  }

  /** A comment sign between the quotes does not start a comment. */
  lemma NoCommentInQuotes(line: string, name: string, v: string)
    requires Plain(name) && line == SettingText(name, v) && Closes(v, 0, '"')
    ensures WithoutComment(line) == line
  {
    assert line == SettingText(name, v) + "";
    QuotesInSetting(line, name, v, "");
    SignsAt(line, 0);
    SignsAt(line, |line|);
  }

  /** Where the closing quote is not found, a sign in the value does start one, and cuts the line in front of it. */
  lemma CutIsRead(line: string, name: string, v: string, comment: nat)
    requires Plain(name) && line == SettingText(name, v) && comment == Find(line, "##", 0)
    ensures var p := ParsedContent(Trim(line[..comment])); p.Setting? && p.kind == TypeNamed(name) && NoSigns(p.value)
  {
    var q, content := |name| + 3, Trim(line[..comment]);
    CutContent(line, name, comment, q, content);
    QuotedContentIsRead(content, name, content[q..]);
    UnquotedHasNoSigns(content[q..]);
  }

  lemma CutContent(line: string, name: string, comment: nat, q: nat, content: string)
    requires Plain(name) && q == |name| + 3 < |line| && line[..q] == name + " = " && line[q] == '"'
    requires comment == Find(line, "##", 0) && content == Trim(line[..comment])
    ensures q < |content| && content == name + " = " + content[q..] && content[q] == '"'
    ensures !IsSpace(content[|content| - 1]) && NoSigns(content[q..])
  {
    CommentIsBehind(line, name, comment, q);
    TrimmedCut(line, comment, q);
    assert content[..q] == name + " = " && content == content[..q] + content[q..];
    SignsAt(line, 0);
    var w := content[q..];
    forall i | 0 <= i && i + 1 < |w| ensures !(w[i] == '#' && w[i + 1] == '#') {
      assert w[i] == line[q + i] && w[i + 1] == line[q + i + 1];
    }
  }

  lemma CommentIsBehind(line: string, name: string, comment: nat, q: nat)
    requires Plain(name) && q == |name| + 3 < |line| && line[..q] == name + " = " && line[q] == '"'
    requires comment == Find(line, "##", 0)
    ensures q < comment <= |line|
  {
    SignsAt(line, 0);
    assert forall i :: 0 <= i < q ==> line[i] == line[..q][i] != '#';
  }

  lemma SignsComeFromValue(line: string, name: string, v: string, i: nat)
    requires Plain(name) && line == SettingText(name, v) && NoSigns(v) && i + 1 < |line|
    ensures !(line[i] == '#' && line[i + 1] == '#')
  {
    EscapeKeepsSigns(v);
    var k := |name| + 4;
    assert forall j :: 0 <= j < |Escape(v)| ==> line[k + j] == Escape(v)[j];
    assert forall j :: 0 <= j < |line| && (j < k || j >= k + |Escape(v)|) ==> line[j] != '#';
    if k <= i && i + 1 < k + |Escape(v)| {
      assert line[i] == Escape(v)[i - k] && line[i + 1] == Escape(v)[i + 1 - k];
    }
  }

  /** A line that keeps its comment signs, or has none, is read as a whole. */
  lemma WholeLineIsRead(line: string, name: string, v: string)
    requires Plain(name) && line == SettingText(name, v) && (Closes(v, 0, '"') || Find(line, "##", 0) == -1)
    ensures ParsedLine(line) == Setting(TypeNamed(name), Unquoted(Quoted(Escape(v))))
  {
    TrimNothing(line);
    if Closes(v, 0, '"') { NoCommentInQuotes(line, name, v); }
    QuotedContentIsRead(line, name, Quoted(Escape(v)));
  }

  lemma CutLineIsRead(line: string, name: string, v: string)
    requires Plain(name) && line == SettingText(name, v) && !Closes(v, 0, '"') && Find(line, "##", 0) != -1
    ensures var p := ParsedLine(line); p.Setting? && p.kind == TypeNamed(name) && p.value != v
  {
    var comment := Find(line, "##", 0);
    assert line == SettingText(name, v) + "";
    TrimNothing(line);
    QuotesInSetting(line, name, v, "");
    CutIsRead(line, name, v, comment);
    SignsAt(line, 0);
    if NoSigns(v) { SignsComeFromValue(line, name, v, comment); }
  }

  /** What a setting line is read as: its own value exactly where that is escapable. */
  lemma SettingCondition(line: string, kind: ConfigurationType, v: string)
    requires kind != UnknownType && line == SettingText(TypeName(kind), v)
    ensures var p := ParsedLine(line); p.Setting? && p.kind == kind && (p.value == v <==> Escapable(v))
  {
    TypePlain(kind);
    NamesAreReadBack(Info, kind);
    NamedSettingCondition(line, TypeName(kind), v);
  }

  lemma NamedSettingCondition(line: string, name: string, v: string)
    requires Plain(name) && line == SettingText(name, v)
    ensures var p := ParsedLine(line); p.Setting? && p.kind == TypeNamed(name) && (p.value == v <==> Escapable(v))
  {
    UnquotedCondition(v, Quoted(Escape(v)));
    if Escapable(v) { EscapableCloses(v); }
    if Closes(v, 0, '"') || Find(line, "##", 0) == -1 {
      WholeLineIsRead(line, name, v);
    } else {
      CutLineIsRead(line, name, v);
    }
  }

  // ---------- Comments behind a setting ----------

  /** A comment behind a setting whose closing quote is found is dropped, whatever is in the value or in the comment. */
  lemma QuotedCommentIsDropped(line: string, setting: string, name: string, v: string, rest: string)
    requires Plain(name) && Closes(v, 0, '"') && setting == SettingText(name, v) && line == setting + " ##" + rest
    ensures ParsedLine(line) == ParsedLine(setting)
  {
    var l := Trim(line);
    assert line[..|line|] == line;
    TrimmedCut(line, |line|, |setting| + 2);
    var more := l[|setting|..];
    assert l == setting + more && more[0] == ' ' && more[1] == more[2] == '#';
    CutBehindSetting(l, setting, more, name, v);
    ParsedAs(line, l, setting + " ");
    SpaceBehind(setting, setting + " ");
    TrimNothing(setting);
    NoCommentInQuotes(setting, name, v);
    ParsedAs(setting, setting, setting);
  }

  lemma CutBehindSetting(l: string, setting: string, more: string, name: string, v: string)
    requires Plain(name) && Closes(v, 0, '"') && setting == SettingText(name, v)
    requires l == setting + more && |more| >= 3 && more[0] == ' ' && more[1] == more[2] == '#'
    ensures WithoutComment(l) == setting + " "
  {
    var end := |setting| - 1;
    assert QuotesEnd(l) == end by { QuotesInSetting(l, name, v, more); }
    assert l[end] == setting[end] == '"' && l[end + 1] == more[0] && l[end + 2] == more[1] && l[end + 3] == more[2];
    FirstSigns(l, end);
    CutAt(l, end);
    assert l[..end + 2] == setting + " ";
  }

  lemma CutAt(l: string, end: nat)
    requires QuotesEnd(l) == end && end + 3 < |l| && Find(l, "##", end + 1) == end + 2
    requires var comment := Find(l, "##", 0); 0 <= comment < end || comment == end + 2
    ensures WithoutComment(l) == l[..end + 2]
  {}

  /** The first comment sign behind a quote at `end`. */
  lemma FirstSigns(l: string, end: nat)
    requires end + 3 < |l| && l[end] == '"' && l[end + 1] == ' ' && l[end + 2] == l[end + 3] == '#'
    ensures Find(l, "##", end + 1) == end + 2
    ensures var comment := Find(l, "##", 0); 0 <= comment < end || comment == end + 2
  {
    SignsAt(l, 0);
    SignsAt(l, end + 1);
  }

  lemma SpaceBehind(setting: string, s: string)
    requires setting != "" && !IsSpace(setting[0]) && !IsSpace(setting[|setting| - 1]) && s == setting + " "
    ensures Trim(s) == setting
  {
    assert s[..|s| - 1] == setting && RTrim(setting) == setting;
  }

  /** A line whose first characters are a comment sign, outer spaces aside, has no effect. */
  lemma CommentLineIsIgnored(blanks: string, rest: string, line: string)
    requires (forall i :: 0 <= i < |blanks| ==> IsSpace(blanks[i])) && line == blanks + "##" + rest
    ensures ParsedLine(line) == Ignored
  {
    var trimmed := RTrim(line);
    RTrimKeeps(line, |blanks| + 1);
    RTrimIsPrefix(line);
    assert trimmed == blanks + trimmed[|blanks|..];
    LTrimBlanks(blanks, trimmed[|blanks|..], trimmed);
  }

  // ---------- Level lines ----------

  function LevelText(level: Level): string {
    "* " + LevelName(level) + ":"
  }

  lemma LevelLineParses(line: string, level: Level)
    requires level != Unknown && line == LevelText(level)
    ensures ParsedLine(line) == LevelIs(level)
  {
    LevelPlain(level);
    NamesAreReadBack(level, Enabled);
    NamedLineParses(line, LevelName(level));
  }

  lemma NamedLineParses(line: string, name: string)
    requires Plain(name) && line == "* " + name + ":"
    ensures ParsedLine(line) == LevelIs(LevelNamed(name))
  {
    TrimNothing(line);
    NamedLineHasNoComment(line, name);
    assert line[1..|line| - 1] == " " + name;
    NameAfterSpace(name, line[1..|line| - 1]);
  }

  lemma NamedLineHasNoComment(line: string, name: string)
    requires Plain(name) && line == "* " + name + ":"
    ensures WithoutComment(line) == line
  {}

  lemma NameAfterSpace(name: string, s: string)
    requires Plain(name) && s == " " + name
    ensures Trim(UpperCase(s)) == name
  {
    assert UpperCase(s) == s;
    LeadingSpace(s, name);
  }
}
