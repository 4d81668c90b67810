/**
 The names of levels and configuration types of external/easylogging++, written out, and where each of the readers of
 names accepts them.
 */
module Spellings {

  import opened Levels
  import opened ConfigurationStore
  import opened ConfigurationNames
  import opened Text
  import opened ConfigurationText
  import opened QuotedValues
  import opened ConfigurationPrinting
  import Categories

  // ---------- Regardless of case ----------

  /** A capital letter and its small form; other characters stand for themselves. */
  predicate SameLetter(c: char, capital: char) {
    c == capital || ('A' <= capital <= 'Z' && c as int == capital as int + 32)
  }

  predicate SameLetters(s: string, name: string) {
    |s| == |name| && forall i :: 0 <= i < |s| ==> SameLetter(s[i], name[i])
  }

  lemma UpperCaseCondition(s: string, name: string)
    requires Plain(name)
    ensures UpperCase(s) == name <==> SameLetters(s, name)
  {
    if SameLetters(s, name) {
      forall i | 0 <= i < |s| ensures UpperCase(s)[i] == name[i] { assert SameLetter(s[i], name[i]); }
    }
    if UpperCase(s) == name {
      forall i | 0 <= i < |s| ensures SameLetter(s[i], name[i]) { assert Upper(s[i]) == UpperCase(s)[i] == name[i]; }
    }
  }

  lemma SpellingCondition(s: string, name: string)
    requires Plain(name)
    ensures CaseEq(s, LowerCase(name)) <==> SameLetters(CString(s), name)
  {
    Spelled(name);
    UpperCaseCondition(CString(s), name);
  }

  // ---------- Types ----------

  lemma {:induction false} FirstHits(spelling: nat -> string, n: nat, s: string, i: nat)
    requires i <= n
    ensures var k := FirstSpelling(spelling, n, s, i);
            i <= k <= n && (k < n ==> CaseEq(s, spelling(k))) && forall j: nat :: i <= j < k ==> !CaseEq(s, spelling(j))
    decreases n - i
  {
    if i < n && !CaseEq(s, spelling(i)) {
      FirstHits(spelling, n, s, i + 1);
    }
  }

  lemma FirstIsHit(spelling: nat -> string, n: nat, s: string, k: nat)
    requires k == FirstSpelling(spelling, n, s, 0)
    ensures k <= n && (k < n ==> CaseEq(s, spelling(k)))
  {
    FirstHits(spelling, n, s, 0);
  }

  lemma OneType(s: string, i: nat, j: nat)
    requires i < 10 && j < 10 && SameLetters(s, TypeUpper(i)) && SameLetters(s, TypeUpper(j))
    ensures i == j
  {
    UpperPlain(i);
    UpperPlain(j);
    UpperCaseCondition(s, TypeUpper(i));
    UpperCaseCondition(s, TypeUpper(j));
    if i < j { TypesDiffer(i, j); } else if j < i { TypesDiffer(j, i); }
  }

  /** A text names the type of the table entry that it spells. */
  lemma TypeOfSpelling(s: string, i: nat)
    requires i < 10 && SameLetters(CString(s), TypeUpper(i))
    ensures TypeNamed(s) == TypeAt(i)
  {
    var k := FirstSpelling(TypeSpelling, TYPES, s, 0);
    FirstHits(TypeSpelling, TYPES, s, 0);
    UpperPlain(i);
    SpellingCondition(s, TypeUpper(i));
    assert CaseEq(s, TypeSpelling(i)) && k <= i;
    UpperPlain(k);
    SpellingCondition(s, TypeUpper(k));
    OneType(CString(s), i, k);
  }

  lemma HitIsSpelled(s: string, k: nat)
    requires CaseEq(s, TypeSpelling(k))
    ensures SameLetters(CString(s), TypeUpper(k))
  {
    UpperPlain(k);
    SpellingCondition(s, TypeUpper(k));
  }

  lemma FoundIsSpelled(s: string, n: nat, k: nat)
    requires k == FirstSpelling(TypeSpelling, n, s, 0) && k < n
    ensures SameLetters(CString(s), TypeUpper(k))
  {
    FirstIsHit(TypeSpelling, n, s, k);
    HitIsSpelled(s, k);
  }

  lemma KnownIsListed(k: nat)
    ensures TypeAt(k) != UnknownType <==> k < 10
  {}

  lemma TypeIsSpelled(s: string) returns (k: nat)
    requires TypeNamed(s) != UnknownType
    ensures k < 10 && SameLetters(CString(s), TypeUpper(k))
  {
    k := FirstSpelling(TypeSpelling, TYPES, s, 0);
    KnownIsListed(k);
    FoundIsSpelled(s, TYPES, k);
  }

  /** The ten names, and the types that they stand for. */
  const TYPE_NAMES: seq<string> :=
    ["ENABLED", "TO_FILE", "TO_STANDARD_OUTPUT", "FORMAT", "FILENAME", "SUBSECOND_PRECISION", "MILLISECONDS_WIDTH",
     "PERFORMANCE_TRACKING", "MAX_LOG_FILE_SIZE", "LOG_FLUSH_THRESHOLD"]

  const NAMED_TYPES: seq<ConfigurationType> :=
    [Enabled, ToFile, ToStandardOutput, Format, Filename, SubsecondPrecision, SubsecondPrecision, PerformanceTracking,
     MaxLogFileSize, LogFlushThreshold]

  lemma TypeTable(i: nat)
    requires i < 10
    ensures TypeUpper(i) == TYPE_NAMES[i] && TypeAt(i) == NAMED_TYPES[i]
  {}

  /** A text is read as a type exactly if it is one of the names, in whatever case, up to its first NUL. */
  lemma TypeCondition(s: string)
    ensures forall i :: 0 <= i < 10 && SameLetters(CString(s), TYPE_NAMES[i]) ==> TypeNamed(s) == NAMED_TYPES[i]
    ensures TypeNamed(s) != UnknownType ==> exists i :: 0 <= i < 10 && SameLetters(CString(s), TYPE_NAMES[i])
  {
    forall i | 0 <= i < 10 && SameLetters(CString(s), TYPE_NAMES[i]) ensures TypeNamed(s) == NAMED_TYPES[i] {
      TypeTable(i);
      TypeOfSpelling(s, i);
    }
    if TypeNamed(s) != UnknownType {
      var k := TypeIsSpelled(s);
      TypeTable(k);
    }
  }

  // ---------- Levels ----------

  const LEVEL_NAMES: seq<string> := ["GLOBAL", "DEBUG", "INFO", "WARNING", "ERROR", "FATAL", "VERBOSE", "TRACE"]
  const SMALL_NAMES: seq<string> := ["global", "debug", "info", "warning", "error", "fatal", "verbose", "trace"]
  const NAMED_LEVELS: seq<Level> := [Global, Debug, Info, Warning, Error, Fatal, Verbose, Trace]

  lemma LevelTable(i: nat)
    requires i < 8
    ensures LevelName(LevelAt(i)) == LEVEL_NAMES[i] && LevelAt(i) == NAMED_LEVELS[i] && LowerCase(LEVEL_NAMES[i]) == SMALL_NAMES[i]
  {}

  lemma LevelOfSpelling(s: string, i: nat)
    requires i < 8 && SameLetters(CString(s), LevelName(LevelAt(i)))
    ensures LevelNamed(s) == LevelAt(i)
  {
    var k := FirstSpelling(LevelSpelling, LEVELS, s, 0);
    FirstHits(LevelSpelling, LEVELS, s, 0);
    var name, other := LevelName(LevelAt(i)), LevelName(LevelAt(k));
    LevelPlain(LevelAt(i));
    LevelPlain(LevelAt(k));
    SpellingCondition(s, name);
    assert CaseEq(s, LevelSpelling(i)) && k <= i;
    SpellingCondition(s, other);
    UpperCaseCondition(CString(s), name);
    UpperCaseCondition(CString(s), other);
    if LevelAt(i) != LevelAt(k) { LevelsDiffer(LevelAt(i), LevelAt(k)); }
  }

  lemma LevelIsSpelled(s: string) returns (k: nat)
    requires LevelNamed(s) != Unknown
    ensures k < 8 && SameLetters(CString(s), LevelName(LevelAt(k)))
  {
    k := FirstSpelling(LevelSpelling, LEVELS, s, 0);
    FirstIsHit(LevelSpelling, LEVELS, s, k);
    LevelPlain(LevelAt(k));
    SpellingCondition(s, LevelName(LevelAt(k)));
  }

  /** The same for levels. */
  lemma LevelCondition(s: string)
    ensures forall i :: 0 <= i < 8 && SameLetters(CString(s), LEVEL_NAMES[i]) ==> LevelNamed(s) == NAMED_LEVELS[i]
    ensures LevelNamed(s) != Unknown ==> exists i :: 0 <= i < 8 && SameLetters(CString(s), LEVEL_NAMES[i])
  {
    forall i | 0 <= i < 8 && SameLetters(CString(s), LEVEL_NAMES[i]) ensures LevelNamed(s) == NAMED_LEVELS[i] {
      LevelTable(i);
      LevelOfSpelling(s, i);
    }
    if LevelNamed(s) != Unknown {
      var k := LevelIsSpelled(s);
      LevelTable(k);
    }
  }

  // ---------- Prefixes ----------

  lemma OneInitial(level: Level, other: Level, s: string)
    requires level != Unknown && other != Unknown && SpelledBy(level, s) && SpelledBy(other, s)
    ensures level == other
  {
    assert s != "" && s[0] in {LevelName(level)[0], LowerCase(LevelName(level))[0]};
    assert s[0] in {LevelName(other)[0], LowerCase(LevelName(other))[0]};
  }

  lemma {:induction false} FirstSpelledIs(levels: seq<Level>, s: string, level: Level)
    requires Unknown !in levels && level in levels && SpelledBy(level, s)
    ensures FirstSpelled(levels, s) == level
  {
    if SpelledBy(levels[0], s) {
      OneInitial(level, levels[0], s);
    } else {
      FirstSpelledIs(levels[1..], s, level);
    }
  }

  lemma {:induction false} FirstSpelledSpells(levels: seq<Level>, s: string)
    ensures FirstSpelled(levels, s) != Unknown ==> SpelledBy(FirstSpelled(levels, s), s)
  {
    if levels != [] && !SpelledBy(levels[0], s) {
      FirstSpelledSpells(levels[1..], s);
    }
  }

  /** A text starts with a level exactly if it starts with its name, all in capitals or all in small letters. */
  lemma PrefixCondition(s: string, i: nat)
    requires i < 8
    ensures LevelFromPrefix(s) == NAMED_LEVELS[i] <==> LEVEL_NAMES[i] <= s || SMALL_NAMES[i] <= s
  {
    LevelTable(i);
    var level := NAMED_LEVELS[i];
    assert level in TRIED by { assert TRIED[i] == level; }
    FirstSpelledSpells(TRIED, s);
    if SpelledBy(level, s) { FirstSpelledIs(TRIED, s, level); }
  }

  /** The levels of messages, most severe first, as the category filter is told of them. */
  const SEVERITY_NAMES: seq<string> := ["FATAL", "ERROR", "WARNING", "INFO", "DEBUG", "VERBOSE", "TRACE"]

  lemma SeverityName(j: nat)
    requires j < 7
    ensures LevelName(Categories.SEVERITIES[j]) == SEVERITY_NAMES[j]
  {}

  /** A filter of one rule for everything, from its text to its decision. */
  lemma StarTextDecides(i: nat, j: nat, category: string)
    requires i < 7 && j < 7
    ensures var levels, text := [Fatal, Error, Warning, Info, Debug, Verbose, Trace], "*:" + SEVERITY_NAMES[j];
            Categories.Permits(Categories.Parse(text), levels[i], category) <==> i <= j
  {
    var rule := Categories.Rule("*", Categories.SEVERITIES[j]);
    SeverityName(j);
    assert Categories.PrintRule(rule) == "*:" + SEVERITY_NAMES[j];
    Categories.ParseOne(rule);
    Categories.StarRuleDecides(i, j, category);
  }

  // ---------- Lines in any case ----------

  /** The type of a setting may be written in any case. */
  lemma SettingInAnyCase(line: string, name: string, i: nat, x: string)
    requires i < 10 && SameLetters(name, TYPE_NAMES[i]) && line == name + " =" + x
    ensures ParsedContent(line) == Setting(NAMED_TYPES[i], Unquoted(Trim(x)))
  {
    TypeTable(i);
    UpperPlain(i);
    NamedInAnyCase(line, name, TypeUpper(i), x);
    UpperIsNamed(i, TypeUpper(i));
  }

  lemma UpperIsNamed(i: nat, name: string)
    requires i < 10 && name == TypeUpper(i)
    ensures TypeNamed(name) == TypeAt(i)
  {
    UpperPlain(i);
    PlainIsUpperCase(name);
    TypeOfSpelling(name, i);
  }

  lemma NamedInAnyCase(line: string, name: string, upper: string, x: string)
    requires Plain(upper) && SameLetters(name, upper) && line == name + " =" + x
    ensures ParsedContent(line) == Setting(TypeNamed(upper), Unquoted(Trim(x)))
  {
    var a := |name| + 1;
    assert forall i :: 0 <= i < |name| ==> line[i] == name[i] && SameLetter(name[i], upper[i]);
    FindOne(line, "=", 0, a);
    assert line[..a] == name + " " && line[a + 1..] == x;
    UpperCaseCondition(name, upper);
    assert UpperCase(name + " ") == UpperCase(name) + " ";
    SpaceIsTrimmed(upper, upper + " ");
    assert IsLetter(line[0]);
  }

  lemma SpaceIsTrimmed(upper: string, s: string)
    requires Plain(upper) && s == upper + " "
    ensures Trim(s) == upper
  {
    assert s[..|s| - 1] == upper && RTrim(upper) == upper;
  }

  /** So may the level of a level line. */
  lemma LevelLineInAnyCase(line: string, name: string, i: nat)
    requires i < 8 && SameLetters(name, LEVEL_NAMES[i]) && line == "* " + name + ":"
    ensures ParsedContent(line) == LevelIs(NAMED_LEVELS[i])
  {
    LevelTable(i);
    var upper := LEVEL_NAMES[i];
    LevelPlain(NAMED_LEVELS[i]);
    UpperCaseCondition(name, upper);
    assert line[1..|line| - 1] == " " + name && UpperCase(" " + name) == " " + upper;
    LeadingSpace(" " + upper, upper);
    PlainIsUpperCase(upper);
    LevelOfSpelling(upper, i);
  }
}
