/**
 The configuration text format of Configurations::Parser in external/easylogging++/easylogging++.cc:
 `* LEVEL:` lines choose a level, `TYPE = "value"` lines write to it, `##` starts a comment.
 ELPP_ASSERT is taken to be disabled.
 */
module ConfigurationText {

  import opened Levels
  import opened ConfigurationStore
  import opened ConfigurationNames
  import opened Text
  import opened FormatSpecifiers

  // ---------- One line, as a value ----------

  /** The loop that steps over escaped quotes; -1 stands for npos. */
  function ClosingQuote(line: string, quotesEnd: int): (i: int)
    requires quotesEnd == -1 || 1 <= quotesEnd < |line|
    ensures i == -1 || 1 <= quotesEnd <= i < |line|
    decreases if quotesEnd == -1 then 0 else |line| - quotesEnd
  {
    if quotesEnd != -1 && line[quotesEnd - 1] == '\\' then ClosingQuote(line, Find(line, "\"", quotesEnd + 2))
    else quotesEnd
  }

  function QuotesEnd(line: string): (i: int)
    ensures i == -1 || 1 <= i < |line|
  {
    var quotesStart := Find(line, "\"", 0);
    if quotesStart == -1 then -1 else ClosingQuote(line, Find(line, "\"", quotesStart + 1))
  }

  function WithoutComment(line: string): string {
    var quotesEnd, comment := QuotesEnd(line), Find(line, "##", 0);
    if comment == -1 then line
    else
      var foundAt := if quotesEnd == -1 || comment < quotesEnd then Find(line, "##", quotesEnd + 1) else comment;
      if foundAt == -1 then line else line[..foundAt]
  }

  datatype Unescaped = Unescaped(value: string, quotesEnd: int)

  /** The loop that erases the backslash of every quote that it steps over. */
  function Unescape(value: string, quotesEnd: int): (u: Unescaped)
    requires quotesEnd == -1 || 1 <= quotesEnd < |value|
    ensures u.quotesEnd == -1 || 1 <= quotesEnd <= u.quotesEnd < |u.value|
    decreases |value|
  {
    if quotesEnd != -1 && value[quotesEnd - 1] == '\\' then
      var erased := Erase(value, quotesEnd - 1);
      Unescape(erased, Find(erased, "\"", quotesEnd + 2))
    else Unescaped(value, quotesEnd)
  }

  /** basic_string::substr */
  function Substr(s: string, pos: nat, count: nat): string
    requires pos <= |s|
  {
    if pos + count <= |s| then s[pos..pos + count] else s[pos..]
  }

  function Unquoted(value: string): string {
    var quotesStart := Find(value, "\"", 0);
    if quotesStart == -1 then value
    else Between(Unescape(value, Find(value, "\"", quotesStart + 1)), quotesStart)
  }

  /** What stands between the quotes, where there are two and something is between them. */
  function Between(u: Unescaped, quotesStart: nat): string
    requires u.quotesEnd == -1 || quotesStart < u.quotesEnd < |u.value|
  {
    if u.quotesEnd == -1 || quotesStart + 1 == u.quotesEnd then u.value
    else Substr(u.value, quotesStart + 1, u.quotesEnd - 1)
  }

  predicate IsLetter(c: char) {
    'A' <= c <= 'Z' || 'a' <= c <= 'z'
  }

  predicate IsConfig(line: string) {
    line != "" && IsLetter(line[0]) && Find(line, "=", 0) != -1
  }

  datatype Parsed = Ignored | LevelIs(level: Level) | Setting(kind: ConfigurationType, value: string) | Malformed

  function ParsedLine(text: string): Parsed {
    var line := Trim(text);
    if "##" <= line then Ignored else ParsedContent(Trim(WithoutComment(line)))
  }

  /** What is left once comments and outer spaces are gone. */
  function ParsedContent(line: string): Parsed {
    if line == "" then Ignored
    else if line[0] == '*' then if |line| <= 2 then Ignored else LevelIs(LevelIn(line))
    else if IsConfig(line) then SettingIn(line, Find(line, "=", 0))
    else Malformed
  }

  function LevelIn(line: string): Level
    requires |line| > 2
  {
    LevelNamed(Trim(UpperCase(line[1..|line| - 1])))
  }

  function SettingIn(line: string, assignment: int): Parsed
    requires 0 <= assignment < |line|
  {
    Setting(TypeNamed(Trim(UpperCase(line[..assignment]))), Unquoted(Trim(line[assignment + 1..])))
  }

  // ---------- Lines in order ----------

  datatype State = State(level: Level, list: Entries, ok: bool)

  function AfterLine(p: Parsed, level: Level, list: Entries): State {
    match p
    case Ignored => State(level, list, true)
    case LevelIs(next) => State(next, list, true)
    case Setting(kind, value) =>
      if level == Unknown || kind == UnknownType then State(level, list, false)
      else State(level, SetEntry(list, level, kind, value), true)
    case Malformed => State(level, list, false)
  }

  /** `std::getline` until the text is used up. */
  function AfterText(text: string, st: State): State
    decreases |text|
  {
    if text == "" then st
    else AfterText(RestOf(text), AfterLine(ParsedLine(FirstLine(text)), st.level, st.list))
  }

  function FirstLine(text: string): string {
    var end := Find(text, "\n", 0);
    if end == -1 then text else text[..end]
  }

  function RestOf(text: string): (rest: string)
    ensures text != "" ==> |rest| < |text|
  {
    var end := Find(text, "\n", 0);
    if end == -1 then "" else text[end + 1..]
  }

  // ---------- The parser ----------

  /** Parser::ignoreComments */
  method IgnoreComments(line: string) returns (r: string)
    ensures r == WithoutComment(line)
  {
    var quotesStart, quotesEnd := Find(line, "\"", 0), -1;
    if quotesStart != -1 {
      quotesEnd := Find(line, "\"", quotesStart + 1);
      while quotesEnd != -1 && line[quotesEnd - 1] == '\\'
        invariant quotesEnd == -1 || 1 <= quotesEnd < |line|
        invariant ClosingQuote(line, quotesEnd) == QuotesEnd(line)
        decreases if quotesEnd == -1 then 0 else |line| - quotesEnd
      {
        quotesEnd := Find(line, "\"", quotesEnd + 2);
      }
    }
    r := line;
    var foundAt := Find(line, "##", 0);
    if foundAt != -1 {
      if quotesEnd == -1 || foundAt < quotesEnd {
        foundAt := Find(line, "##", quotesEnd + 1);
      }
      if foundAt != -1 {
        r := line[..foundAt];
      }
    }
  }

  /** The part of Parser::parseLine that takes the quotes off a value. */
  method StripQuotes(value: string) returns (currValue: string)
    ensures currValue == Unquoted(value)
  {
    var quotesStart := Find(value, "\"", 0);
    if quotesStart == -1 {
      return value;
    }
    var quotesEnd := Find(value, "\"", quotesStart + 1);
    currValue, quotesEnd := EraseEscapes(value, quotesEnd);
    if quotesEnd != -1 && quotesStart + 1 != quotesEnd {
      currValue := Substr(currValue, quotesStart + 1, quotesEnd - 1);
    }
  }

  /** The loop of parseLine that looks for the closing quote and erases backslashes on its way. */
  method EraseEscapes(value: string, firstEnd: int) returns (currValue: string, quotesEnd: int)
    requires firstEnd == -1 || 1 <= firstEnd < |value|
    ensures Unescaped(currValue, quotesEnd) == Unescape(value, firstEnd)
  {
    currValue, quotesEnd := value, firstEnd;
    while quotesEnd != -1 && currValue[quotesEnd - 1] == '\\'
      invariant quotesEnd == -1 || 1 <= quotesEnd < |currValue|
      invariant Unescape(currValue, quotesEnd) == Unescape(value, firstEnd)
      decreases |currValue|
    {
      currValue := Erase(currValue, quotesEnd - 1);
      quotesEnd := Find(currValue, "\"", quotesEnd + 2);
    }
  }

  /** Parser::parseLine, without the two strings that only feed its assertions. */
  method ParseLine(text: string, currLevel: Level, conf: Configurations) returns (level: Level, ok: bool)
    modifies conf
    ensures State(level, conf.list, ok) == AfterLine(ParsedLine(text), currLevel, old(conf.list))
  {
    var line := Trim(text);
    if "##" <= line {
      return currLevel, true;
    }
    line := IgnoreComments(line);
    level, ok := ParseRest(Trim(line), currLevel, conf);
  }

  method ReadLevel(line: string) returns (level: Level)
    requires |line| > 2
    ensures level == LevelIn(line)
  {
    level := LevelFromString(Trim(UpperCase(line[1..|line| - 1])));
  }

  method ReadSetting(line: string, assignment: nat) returns (kind: ConfigurationType, value: string)
    requires assignment < |line|
    ensures Setting(kind, value) == SettingIn(line, assignment)
  {
    kind := TypeFromString(Trim(UpperCase(line[..assignment])));
    value := StripQuotes(Trim(line[assignment + 1..]));
  }

  /** The rest of parseLine, on a line without comments and outer spaces. */
  method ParseRest(line: string, currLevel: Level, conf: Configurations) returns (level: Level, ok: bool)
    modifies conf
    ensures State(level, conf.list, ok) == AfterLine(ParsedContent(line), currLevel, old(conf.list))
  {
    level, ok := currLevel, true;
    if line == "" { return; }
    if line[0] == '*' {
      if |line| > 2 {
        level := ReadLevel(line);
      }
      return;
    }
    var currConfig, currValue := UnknownType, "";
    if IsConfig(line) {
      currConfig, currValue := ReadSetting(line, Find(line, "=", 0));
    }
    if currLevel == Unknown || currConfig == UnknownType {
      ok := false;
      return;
    }
    conf.Set(currLevel, currConfig, currValue);
  }

  /** Parser::parseFromText */
  method ParseFromText(text: string, sender: Configurations, base: Configurations?) returns (ok: bool)
    modifies sender
    ensures var start := if base == null || base == sender then old(sender.list)
                         else Overlay(old(sender.list), old(base.list));
            var end := AfterText(text, State(Unknown, start, false));
            sender.list == end.list && ok == end.ok
  {
    sender.SetFromBase(base);
    ok := false;
    var rest, currLevel := text, Unknown;
    ghost var end := AfterText(text, State(Unknown, sender.list, false));
    while rest != ""
      invariant AfterText(rest, State(currLevel, sender.list, ok)) == end
      decreases |rest|
    {
      currLevel, ok := ParseLine(FirstLine(rest), currLevel, sender);
      rest := RestOf(rest);
    }
  }
}
