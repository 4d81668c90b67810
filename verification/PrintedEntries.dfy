/**
 Why the text of a list of entries has the effect of setting them one by one: the promise behind
 Configurations::parseFromText in external/easylogging++/easylogging++.cc.
 */
module PrintedEntries {

  import opened Levels
  import opened ConfigurationStore
  import opened ConfigurationNames
  import opened Text
  import opened FormatSpecifiers
  import opened ConfigurationText
  import opened QuotedValues
  import opened ConfigurationPrinting
  import opened UnquotedSettings

  // ---------- Lines ----------

  predicate OneLine(s: string) {
    forall i :: 0 <= i < |s| ==> s[i] != '\n'
  }

  lemma {:induction false} EscapeIsOneLine(v: string)
    requires OneLine(v)
    ensures OneLine(Escape(v))
  {
    if v != "" {
      EscapeIsOneLine(v[1..]);
    }
  }

  lemma FirstOfLines(line: string, rest: string, text: string)
    requires OneLine(line) && text == line + "\n" + rest
    ensures text != "" && FirstLine(text) == line && RestOf(text) == rest
  {
    FindOne(text, "\n", 0, |line|);
  }

  function EntryText(c: Configuration): string {
    LevelText(c.level) + "\n" + SettingText(TypeName(c.configurationType), c.value) + "\n"
  }

  predicate IsNamed(c: Configuration) {
    c.level != Unknown && c.configurationType != UnknownType
  }

  /** What the text of one entry does, whatever level was chosen before, if its value fits on one line. */
  lemma EntryEffect(c: Configuration, more: string, text: string, st: State)
    requires IsNamed(c) && OneLine(c.value) && text == EntryText(c) + more
    ensures var p := ParsedLine(SettingText(TypeName(c.configurationType), c.value));
            AfterText(text, st) == AfterText(more, AfterLine(p, c.level, st.list))
  {
    var first, second := LevelText(c.level), SettingText(TypeName(c.configurationType), c.value);
    assert OneLine(second) by { EscapeIsOneLine(c.value); TypePlain(c.configurationType); }
    assert text == first + "\n" + (second + "\n" + more);
    LevelLineActs(c.level, second + "\n" + more, text, st);
    FirstOfLines(second, more, second + "\n" + more);
  }

  lemma LevelLineActs(level: Level, more: string, text: string, st: State)
    requires level != Unknown && text == LevelText(level) + "\n" + more
    ensures AfterText(text, st) == AfterText(more, State(level, st.list, true))
  {
    LevelPlain(level);
    FirstOfLines(LevelText(level), more, text);
    LevelLineParses(LevelText(level), level);
  }

  // ---------- Values with line ends ----------

  lemma {:induction false} UnescapedIsOneLine(value: string, e: int)
    requires OneLine(value) && (e == -1 || 1 <= e < |value|)
    ensures OneLine(Unescape(value, e).value)
    decreases |value|
  {
    if e != -1 && value[e - 1] == '\\' {
      var erased := Erase(value, e - 1);
      UnescapedIsOneLine(erased, Find(erased, "\"", e + 2));
    }
  }

  lemma UnquotedIsOneLine(w: string)
    requires OneLine(w)
    ensures OneLine(Unquoted(w))
  {
    var start := Find(w, "\"", 0);
    if start != -1 {
      var e := Find(w, "\"", start + 1);
      UnescapedIsOneLine(w, e);
      BetweenIsOneLine(Unescape(w, e), start);
    }
  }

  lemma BetweenIsOneLine(u: Unescaped, start: nat)
    requires OneLine(u.value) && (u.quotesEnd == -1 || start < u.quotesEnd < |u.value|)
    ensures OneLine(Between(u, start))
  {}

  lemma TrimIsOneLine(s: string)
    requires OneLine(s)
    ensures OneLine(Trim(s))
  {
    var a, b := TrimIsSlice(s);
  }

  /** No value that is read from a line has a line end. */
  lemma ParsedIsOneLine(line: string)
    requires OneLine(line)
    ensures var p := ParsedLine(line); p.Setting? ==> OneLine(p.value)
  {
    var l := Trim(line);
    TrimIsOneLine(line);
    assert OneLine(WithoutComment(l));
    var content := Trim(WithoutComment(l));
    TrimIsOneLine(WithoutComment(l));
    if IsConfig(content) {
      var w := content[Find(content, "=", 0) + 1..];
      TrimIsOneLine(w);
      UnquotedIsOneLine(Trim(w));
    }
  }

  /** No comment starts in front of the first '#'. */
  lemma HeadIsKept(l: string, head: string)
    requires head <= l && forall i :: 0 <= i < |head| ==> head[i] != '#'
    ensures head <= WithoutComment(l)
  {
    SignsAt(l, 0);
    if QuotesEnd(l) != -1 { SignsAt(l, QuotesEnd(l) + 1); }
    assert forall i :: 0 <= i < |head| ==> l[i] != '#';
  }

  /** A line that starts as a setting is one, whatever quotes and comment signs follow. */
  lemma SettingLineSets(line: string, name: string, x: string)
    requires Plain(name) && line == name + " =" + x
    ensures ParsedLine(line).Setting? && ParsedLine(line).kind == TypeNamed(name)
  {
    var l, head := Trim(line), name + " =";
    TrimmedLine(line, name, x, l);
    var kept := WithoutComment(l);
    HeadIsKept(l, head);
    var y := kept[|head|..];
    assert kept == name + " =" + y;
    ParsedAs(line, l, kept);
    TrimmedSettingIsRead(kept, name, y);
  }

  lemma FirstLineIsOneLine(text: string)
    ensures OneLine(FirstLine(text))
  {
    FindIsFirst(text, "\n", 0);
    forall i: nat | i < |FirstLine(text)| ensures FirstLine(text)[i] != '\n' {
      AtIsSlice(text, "\n", i);
    }
  }

  /** The key has a value without line ends. */
  predicate HasPlainLine(list: Entries, l: Level, t: ConfigurationType) {
    Get(list, l, t).Some? && OneLine(Get(list, l, t).value)
  }

  /** No text puts a value with a line end anywhere. */
  lemma {:induction false} TextKeepsPlainLine(text: string, st: State, l: Level, t: ConfigurationType)
    requires HasPlainLine(st.list, l, t)
    ensures HasPlainLine(AfterText(text, st).list, l, t)
    decreases |text|
  {
    if text != "" {
      var p := ParsedLine(FirstLine(text));
      FirstLineIsOneLine(text);
      ParsedIsOneLine(FirstLine(text));
      if p.Setting? {
        GetAfterSet(st.list, st.level, p.kind, p.value, l, t);
      }
      TextKeepsPlainLine(RestOf(text), AfterLine(p, st.level, st.list), l, t);
    }
  }

  lemma {:induction false} EscapeSplits(a: string, b: string)
    ensures Escape(a + b) == Escape(a) + Escape(b)
  {
    if a == "" {
      assert a + b == b;
    } else {
      assert (a + b)[1..] == a[1..] + b;
      EscapeSplits(a[1..], b);
    }
  }

  lemma EscapeOfBroken(a: string, b: string, v: string)
    requires v == a + "\n" + b
    ensures Escape(v) == Escape(a) + ("\n" + Escape(b))
  {
    var n := "\n";
    Regroup(a, n, b);
    EscapeSplits(a, n + b);
    EscapeSplits(n, b);
    EscapeOfPlain(n);
  }

  lemma BrokenText(first: string, name: string, a: string, b: string, e: string, line: string)
    requires e == a + ("\n" + b) && line == name + " =" + (" \"" + a)
    ensures first + "\n" + (name + " = " + Quoted(e)) + "\n" == first + "\n" + (line + "\n" + (b + "\"" + "\n"))
  {}

  lemma BrokenLineParses(line: string, name: string, x: string, e: string)
    requires Plain(name) && OneLine(name) && OneLine(e) && x == " \"" + e && line == name + " =" + x
    ensures OneLine(line)
    ensures ParsedLine(line).Setting? && ParsedLine(line).kind == TypeNamed(name) && OneLine(ParsedLine(line).value)
  {
    SettingLineSets(line, name, x);
    ParsedIsOneLine(line);
  }

  lemma SettingSets(p: Parsed, level: Level, list: Entries)
    requires p.Setting? && p.kind != UnknownType && level != Unknown && OneLine(p.value)
    ensures HasPlainLine(AfterLine(p, level, list).list, level, p.kind)
  {
    GetAfterSet(list, level, p.kind, p.value, level, p.kind);
  }

  /** A setting that breaks off after its opening quote still sets its key, to something without line ends. */
  lemma BrokenLineSets(line: string, name: string, x: string, e: string, level: Level, list: Entries)
    requires level != Unknown && Plain(name) && OneLine(name) && TypeNamed(name) != UnknownType
    requires OneLine(e) && x == " \"" + e && line == name + " =" + x
    ensures OneLine(line) && HasPlainLine(AfterLine(ParsedLine(line), level, list).list, level, TypeNamed(name))
  {
    BrokenLineParses(line, name, x, e);
    SettingSets(ParsedLine(line), level, list);
  }

  lemma TypeNameIsRead(kind: ConfigurationType)
    requires kind != UnknownType
    ensures Plain(TypeName(kind)) && OneLine(TypeName(kind)) && TypeNamed(TypeName(kind)) == kind
  {
    TypePlain(kind);
    NamesAreReadBack(Info, kind);
  }

  lemma BrokenTextIsLost(level: Level, name: string, x: string, e: string, line: string, rest: string, text: string,
                         st: State)
    requires level != Unknown && Plain(name) && OneLine(name) && TypeNamed(name) != UnknownType
    requires OneLine(e) && x == " \"" + e && line == name + " =" + x
    requires text == LevelText(level) + "\n" + (line + "\n" + rest)
    ensures HasPlainLine(AfterText(text, st).list, level, TypeNamed(name))
  {
    var more := line + "\n" + rest;
    LevelLineActs(level, more, text, st);
    BrokenLineSets(line, name, x, e, level, st.list);
    FirstOfLines(line, rest, more);
    TextKeepsPlainLine(rest, AfterLine(ParsedLine(line), level, st.list), level, TypeNamed(name));
  }

  /** So the key of an entry whose value has a line end is left with another value. */
  lemma BrokenEntryIsLost(c: Configuration, a: string, b: string, st: State)
    requires IsNamed(c) && OneLine(a) && c.value == a + "\n" + b
    ensures HasPlainLine(AfterText(EntryText(c), st).list, c.level, c.configurationType)
  {
    var name, x, rest := TypeName(c.configurationType), " \"" + Escape(a), Escape(b) + "\"" + "\n";
    var line := name + " =" + x;
    assert EntryText(c) == LevelText(c.level) + "\n" + (line + "\n" + rest) by {
      EscapeOfBroken(a, b, c.value);
      BrokenText(LevelText(c.level), name, Escape(a), Escape(b), Escape(c.value), line);
    }
    TypeNameIsRead(c.configurationType);
    EscapeIsOneLine(a);
    BrokenTextIsLost(c.level, name, x, Escape(a), line, rest, EntryText(c), st);
  }

  lemma FirstBreak(v: string) returns (a: string, b: string)
    requires !OneLine(v)
    ensures OneLine(a) && v == a + "\n" + b
  {
    var i :| 0 <= i < |v| && v[i] == '\n';
    if OneLine(v[..i]) {
      a, b := v[..i], v[i + 1..];
    } else {
      var c;
      a, c := FirstBreak(v[..i]);
      b := c + v[i..];
    }
  }

  // ---------- Entries ----------

  /** An entry survives the trip through text exactly where its value fits on one line and is escapable. */
  lemma EntryCondition(c: Configuration, st: State)
    requires IsNamed(c)
    ensures AfterText(EntryText(c), st).list == SetEntry(st.list, c.level, c.configurationType, c.value) <==>
            OneLine(c.value) && Escapable(c.value)
  {
    GetAfterSet(st.list, c.level, c.configurationType, c.value, c.level, c.configurationType);
    if OneLine(c.value) {
      OneLineEntryCondition(c, st);
    } else {
      var a, b := FirstBreak(c.value);
      BrokenEntryIsLost(c, a, b, st);
    }
  }

  lemma OneLineEntryCondition(c: Configuration, st: State)
    requires IsNamed(c) && OneLine(c.value)
    ensures AfterText(EntryText(c), st).list == SetEntry(st.list, c.level, c.configurationType, c.value) <==>
            Escapable(c.value)
  {
    var line := SettingText(TypeName(c.configurationType), c.value);
    var p := ParsedLine(line);
    SettingCondition(line, c.configurationType, c.value);
    assert EntryText(c) + "" == EntryText(c);
    EntryEffect(c, "", EntryText(c), st);
    GetAfterSet(st.list, c.level, c.configurationType, p.value, c.level, c.configurationType);
    GetAfterSet(st.list, c.level, c.configurationType, c.value, c.level, c.configurationType);
  }

  function TextOf(entries: Entries): string {
    if entries == [] then ""
    else TextOf(entries[..|entries| - 1]) + EntryText(entries[|entries| - 1])
  }

  predicate Survives(c: Configuration) {
    IsNamed(c) && OneLine(c.value) && Escapable(c.value)
  }

  /** The level chosen last, and the entries set in order. */
  function AfterEntries(entries: Entries, st: State): State {
    if entries == [] then st else State(entries[|entries| - 1].level, Overlay(st.list, entries), true)
  }

  lemma AfterNextEntry(entries: Entries, init: Entries, last: Configuration, st: State)
    requires entries != [] && init == entries[..|entries| - 1] && last == entries[|entries| - 1]
    ensures AfterEntries(entries, st) ==
            State(last.level, SetEntry(AfterEntries(init, st).list, last.level, last.configurationType, last.value), true)
  {
    assert AfterEntries(init, st).list == Overlay(st.list, init);
    assert Overlay(st.list, entries) == SetEntry(Overlay(st.list, init), last.level, last.configurationType, last.value);
  }

  lemma {:induction false} TextThenMore(entries: Entries, more: string, text: string, st: State)
    requires forall i :: 0 <= i < |entries| ==> Survives(entries[i])
    requires text == TextOf(entries) + more
    ensures AfterText(text, st) == AfterText(more, AfterEntries(entries, st))
    decreases |entries|
  {
    if entries == [] {
      assert text == more;
    } else {
      var init, last := entries[..|entries| - 1], entries[|entries| - 1];
      var tail := EntryText(last) + more;
      assert text == TextOf(init) + tail by { Regroup(TextOf(init), EntryText(last), more); }
      TextThenMore(init, tail, text, st);
      LastEntryIsSet(last, more, tail, AfterEntries(init, st));
      AfterNextEntry(entries, init, last, st);
    }
  }

  lemma LastEntryIsSet(c: Configuration, more: string, text: string, st: State)
    requires Survives(c) && text == EntryText(c) + more
    ensures AfterText(text, st) ==
            AfterText(more, State(c.level, SetEntry(st.list, c.level, c.configurationType, c.value), true))
  {
    var line := SettingText(TypeName(c.configurationType), c.value);
    SettingCondition(line, c.configurationType, c.value);
    EntryEffect(c, more, text, st);
  }

  /** parseFromText on the text of some entries does what setFromBase does with the entries themselves. */
  lemma TextIsOverlay(entries: Entries, st: State)
    requires forall i :: 0 <= i < |entries| ==> Survives(entries[i])
    ensures AfterText(TextOf(entries), st).list == Overlay(st.list, entries)
  {
    assert TextOf(entries) + "" == TextOf(entries);
    TextThenMore(entries, "", TextOf(entries), st);
  }

  // ---------- Lines that are refused ----------

  /** A line that starts with neither a letter nor a star, or has no equals sign, is refused and changes nothing. */
  lemma OddLineIsRefused(line: string, st: State)
    requires line != "" && !IsSpace(line[0]) && !IsSpace(line[|line| - 1]) && '#' !in line && line[0] != '*'
    requires !('A' <= line[0] <= 'Z' || 'a' <= line[0] <= 'z') || '=' !in line
    ensures AfterLine(ParsedLine(line), st.level, st.list) == State(st.level, st.list, false)
  {
    TrimNothing(line);
    SignsAt(line, 0);
    assert WithoutComment(line) == line;
    if '=' !in line { FindNone(line, "=", 0); }
  }

  /** A setting in front of the first level line, or of a type that is not known, is refused and changes nothing. */
  lemma UnknownIsRefused(line: string, name: string, x: string, st: State)
    requires Plain(name) && line == name + " =" + x && (st.level == Unknown || TypeNamed(name) == UnknownType)
    ensures AfterLine(ParsedLine(line), st.level, st.list) == State(st.level, st.list, false)
  {
    SettingLineSets(line, name, x);
  }

  /** Behind other lines the last line acts on what they leave, and what is reported is what it says. */
  lemma {:induction false} LastLineActs(front: string, line: string, st: State, text: string, before: State)
    requires OneLine(line) && line != "" && text == front + "\n" + line && before == AfterText(front + "\n", st)
    ensures AfterText(text, st) == AfterLine(ParsedLine(line), before.level, before.list)
    decreases |front|
  {
    if OneLine(front) {
      FirstOfLines(front, line, text);
      assert front + "\n" == front + "\n" + "";
      FirstOfLines(front, "", front + "\n");
      OnlyLineActs(line, AfterLine(ParsedLine(front), st.level, st.list));
    } else {
      var a, b := FirstBreak(front);
      BreakBehind(a, b, line, front);
      FirstOfLines(a, b + "\n" + line, text);
      FirstOfLines(a, b + "\n", front + "\n");
      LastLineActs(b, line, AfterLine(ParsedLine(a), st.level, st.list), b + "\n" + line, before);
    }
  }

  lemma BreakBehind(a: string, b: string, line: string, front: string)
    requires front == a + "\n" + b
    ensures front + "\n" + line == a + "\n" + (b + "\n" + line) && front + "\n" == a + "\n" + (b + "\n")
  {}

  lemma OnlyLineActs(line: string, st: State)
    requires OneLine(line) && line != ""
    ensures AfterText(line, st) == AfterLine(ParsedLine(line), st.level, st.list)
  {
    FindNone(line, "\n", 0);
  }
}
