/** The severity levels of external/easylogging++/easylogging++.h and their spellings. */
module Levels {

  import opened Text

  datatype Level = Global | Trace | Debug | Fatal | Error | Warning | Verbose | Info | Unknown

  /** LevelHelper::convertToString */
  function LevelName(level: Level): string {
    match level
    case Global => "GLOBAL"
    case Debug => "DEBUG"
    case Info => "INFO"
    case Warning => "WARNING"
    case Error => "ERROR"
    case Fatal => "FATAL"
    case Verbose => "VERBOSE"
    case Trace => "TRACE"
    case Unknown => "UNKNOWN"
  }

  /** The two `strncmp` tests that convertFromStringPrefix makes for one level */
  predicate SpelledBy(level: Level, s: string) {
    LevelName(level) <= s || LowerCase(LevelName(level)) <= s
  }

  /** The order in which convertFromStringPrefix tries the levels */
  const TRIED: seq<Level> := [Global, Debug, Info, Warning, Error, Fatal, Verbose, Trace]

  function FirstSpelled(levels: seq<Level>, s: string): Level {
    if levels == [] then Unknown
    else if SpelledBy(levels[0], s) then levels[0]
    else FirstSpelled(levels[1..], s)
  }

  /** LevelHelper::convertFromStringPrefix on the text that is left */
  function LevelFromPrefix(s: string): (level: Level)
    ensures level != Unknown ==> 1 <= |LevelName(level)| <= |s|
  {
    ReadLevelFits(TRIED, s);
    FirstSpelled(TRIED, s)
  }

  /** The order in which VRegistry::allowed ranks levels, most severe first. */
  function Priority(level: Level): nat {
    match level
    case Fatal => 0
    case Error => 1
    case Warning => 2
    case Info => 3
    case Debug => 4
    case Verbose => 5
    case Trace => 6
    case _ => 7
  }

  /** A level that is read is spelled out in full, so skipping its name stays within the text. */
  lemma {:induction false} ReadLevelFits(levels: seq<Level>, s: string)
    ensures var level := FirstSpelled(levels, s); level != Unknown ==> 1 <= |LevelName(level)| <= |s|
  {
    if levels != [] && !SpelledBy(levels[0], s) {
      ReadLevelFits(levels[1..], s);
    }
  }

  /** The names of different levels start with different letters. */
  lemma InitialsDiffer(level: Level, other: Level, rest: string)
    requires level != other && level != Unknown && other != Unknown
    ensures !SpelledBy(other, LevelName(level) + rest)
  {
    var c := (LevelName(level) + rest)[0];
    assert c == LevelName(level)[0];
    assert LevelName(other)[0] != c && LowerCase(LevelName(other))[0] != c;
  }

  lemma {:induction false} NameIsFirstSpelled(levels: seq<Level>, level: Level, rest: string)
    requires level in levels && Unknown !in levels
    ensures FirstSpelled(levels, LevelName(level) + rest) == level
  {
    if levels[0] != level {
      InitialsDiffer(level, levels[0], rest);
      NameIsFirstSpelled(levels[1..], level, rest);
    }
  }

  lemma NameIsRead(level: Level, rest: string)
    requires level != Unknown
    ensures LevelFromPrefix(LevelName(level) + rest) == level
  {
    NameIsFirstSpelled(TRIED, level, rest);
  }

  /** No level name contains a comma, so text after one cannot complete a name before it. */
  lemma {:induction false} CommaEndsName(levels: seq<Level>, s: string, rest: string)
    requires rest == "" || rest[0] == ','
    ensures FirstSpelled(levels, s + rest) == FirstSpelled(levels, s)
  {
    if levels != [] {
      PrefixUpToComma(LevelName(levels[0]), s, rest);
      PrefixUpToComma(LowerCase(LevelName(levels[0])), s, rest);
      CommaEndsName(levels[1..], s, rest);
    }
  }

  lemma PrefixUpToComma(name: string, s: string, rest: string)
    requires ',' !in name && (rest == "" || rest[0] == ',')
    ensures name <= s + rest <==> name <= s
  {
    if |s| < |name| {
      assert name[|s|] != ',';
      assert rest != "" ==> (s + rest)[|s|] == ',';
    }
  }
}
