/**
 The finished line of a log message (external/easylogging++): the specifiers that LogFormat knows, the order in which
 updateFormatSpec, resolveLoggerFormatSpec and DefaultLogBuilder::build put their values in, and what comes of it.
 */
module LogLines {

  import opened Options
  import opened Levels
  import opened FormatSpecifiers
  import opened FormatTokens
  import opened FormatPasses

  /** The specifiers in the order in which parseFromFormat sweeps for them. */
  const SPECIFIERS: seq<string> := ["%app", "%level", "%levshort", "%logger", "%thread", "%file", "%fbase", "%line", "%loc",
                                    "%func", "%user", "%host", "%msg", "%vlevel"]

  const APP := 0
  const LOGGER := 3
  const MESSAGE := 12

  /** The turns before %logger (in updateFormatSpec), and the ones between %logger and %msg (in build). */
  const EARLY_TURNS: seq<nat> := [1, 2, 10, 11]
  const BUILD_TURNS: seq<nat> := [APP] + LATER_TURNS
  const LATER_TURNS: seq<nat> := [4, 9, 5, 6, 7, 8, 13]

  const TURNS: seq<nat> := EARLY_TURNS + ([LOGGER] + (BUILD_TURNS + ([MESSAGE] + [])))

  /** What a message has to say for each specifier but those of its level. */
  datatype Values = Values(app: string, logger: string, thread: string, file: string, fileBase: string, line: string,
                           location: string, func: string, user: string, host: string, message: string, verboseLevel: string)

  /** What stands for %level. */
  function LevelValue(level: Level): string {
    match level
    case Debug => "DEBUG"
    case Info => "INFO "
    case Warning => "WARN "
    case Error => "ERROR"
    case Fatal => "FATAL"
    case Verbose => "VER"
    case Trace => "TRACE"
    case _ => ""
  }

  /** What stands for %levshort. */
  function LevelShortValue(level: Level): string {
    match level
    case Debug => "D"
    case Info => "I"
    case Warning => "W"
    case Error => "E"
    case Fatal => "F"
    case Verbose => "V"
    case Trace => "T"
    case _ => ""
  }

  /** The level puts its names in without asking for a flag, and so does the logger; %vlevel waits for a verbose message. */
  function PlanOf(level: Level, v: Values): (plan: seq<Plan>)
    ensures |plan| == |SPECIFIERS|
  {
    var named := level != Global && level != Unknown;
    [IfFlagged(v.app), if named then Always(LevelValue(level)) else Keep, if named then Always(LevelShortValue(level)) else Keep,
     Always(v.logger), IfFlagged(v.thread), IfFlagged(v.file), IfFlagged(v.fileBase), IfFlagged(v.line), IfFlagged(v.location),
     IfFlagged(v.func), IfFlagged(v.user), IfFlagged(v.host), IfFlagged(v.message),
     if level == Verbose then IfFlagged(v.verboseLevel) else Keep]
  }

  /** Which specifier a text can begin, told from its first letters. */
  function Candidate(s: string): nat
    requires |s| >= 5 || (|s| == 4 && s[2] != 'e')
  {
    match s[1]
    case 'a' => 0
    case 'l' => if s[2] == 'e' then if s[4] == 'e' then 1 else 2
                else if s[2] == 'i' then 7 else if s[3] == 'g' then 3 else 8
    case 't' => 4
    case 'f' => if s[2] == 'i' then 5 else if s[2] == 'b' then 6 else 9
    case 'u' => 10
    case 'h' => 11
    case 'm' => 12
    case _ => 13
  }

  lemma CandidateOf(i: nat)
    requires i < |SPECIFIERS|
    ensures var name := SPECIFIERS[i];
            && IsSpecifier(name) && (|name| >= 5 || (|name| == 4 && name[2] != 'e')) && Candidate(name) == i
  {
  }

  lemma SpecifiersAreTable()
    ensures IsTable(SPECIFIERS)
  {
    var names := SPECIFIERS;
    forall i | 0 <= i < |names| ensures IsSpecifier(names[i]) && |names[i]| >= 3 { CandidateOf(i); }
    forall i, j | 0 <= i < |names| && 0 <= j < |names| && i != j ensures !(names[i] <= names[j]) {
      CandidateOf(i);
      CandidateOf(j);
    }
  }

  lemma TurnsAreOnce()
    ensures EachOnce(TURNS, |SPECIFIERS|) && forall i :: 0 <= i < |SPECIFIERS| ==> i in TURNS
  {
    var at := [5, 0, 1, 4, 6, 8, 9, 10, 11, 7, 2, 3, 13, 12];
    assert TURNS == [1, 2, 10, 11, 3, 0, 4, 9, 5, 6, 7, 8, 13, 12];
    assert forall a :: 0 <= a < |TURNS| ==> 0 <= TURNS[a] < |at| && at[TURNS[a]] == a;
    forall i | 0 <= i < |SPECIFIERS| ensures i in TURNS {
      assert TURNS[at[i]] == i;
    }
  }

  /** The line that a message of a level comes to under a format. */
  function LogLine(format: string, level: Level, v: Values): string {
    TurnsAreOnce();
    Line(format, SPECIFIERS, PlanOf(level, v), TURNS)
  }

  /** Only the message holds a '%'. */
  predicate IsPercentFree(v: Values) {
    && '%' !in v.app && '%' !in v.logger && '%' !in v.thread && '%' !in v.file && '%' !in v.fileBase && '%' !in v.line
    && '%' !in v.location && '%' !in v.func && '%' !in v.user && '%' !in v.host && '%' !in v.verboseLevel
  }

  lemma PlanIsPercentFree(level: Level, v: Values, i: nat)
    requires IsPercentFree(v) && i < |SPECIFIERS| && i != MESSAGE
    ensures PlanOf(level, v)[i].Keep? || '%' !in PlanOf(level, v)[i].value
  {}

  /** Nothing is put in after the message. */
  lemma PercentFreeIsUndisturbed(level: Level, v: Values)
    requires IsPercentFree(v) && EachOnce(TURNS, |SPECIFIERS|)
    ensures Undisturbed(SPECIFIERS, PlanOf(level, v), TURNS)
  {
    var plan := PlanOf(level, v);
    forall a, b | 0 <= a < b < |TURNS| && !plan[TURNS[a]].Keep? && !plan[TURNS[b]].Keep?
      ensures Inert(plan[TURNS[a]].value, SPECIFIERS[TURNS[b]])
    {
      assert TURNS[13] == MESSAGE;
      PlanIsPercentFree(level, v, TURNS[a]);
      CandidateOf(TURNS[b]);
      LettersAreInert(plan[TURNS[a]].value, SPECIFIERS[TURNS[b]]);
    }
  }

  /** The finished line of a message, for every format and level: each specifier is resolved by what the format says about
      it alone. */
  lemma LogLineIsSubstituted(format: string, level: Level, v: Values)
    requires IsPercentFree(v) && NoneCompleted(Tokens(format, SPECIFIERS), SPECIFIERS)
    ensures AreTokens(Tokens(format, SPECIFIERS), |SPECIFIERS|)
    ensures LogLine(format, level, v) == Flatten(Substituted(Tokens(format, SPECIFIERS), PlanOf(level, v)), SPECIFIERS)
  {
    SpecifiersAreTable();
    TurnsAreOnce();
    PercentFreeIsUndisturbed(level, v);
    LineIsSubstituted(format, SPECIFIERS, PlanOf(level, v), TURNS);
  }

  // ---------- What each specifier stands for ----------

  lemma AloneLine(i: nat, level: Level, v: Values)
    requires IsPercentFree(v) && i < |SPECIFIERS|
    ensures LogLine(SPECIFIERS[i], level, v) ==
            if PlanOf(level, v)[i].Keep? then SPECIFIERS[i] else PlanOf(level, v)[i].value
  {
    SpecifiersAreTable();
    TurnsAreOnce();
    PercentFreeIsUndisturbed(level, v);
    SpecifierAlone(i, SPECIFIERS, PlanOf(level, v), TURNS);
  }

  /** A format of one specifier is its own value, at every level. */
  lemma EachSpecifierAlone(level: Level, v: Values)
    requires IsPercentFree(v)
    ensures LogLine("%app", level, v) == v.app && LogLine("%logger", level, v) == v.logger
    ensures LogLine("%thread", level, v) == v.thread && LogLine("%file", level, v) == v.file
    ensures LogLine("%fbase", level, v) == v.fileBase && LogLine("%line", level, v) == v.line
    ensures LogLine("%loc", level, v) == v.location && LogLine("%func", level, v) == v.func
    ensures LogLine("%user", level, v) == v.user && LogLine("%host", level, v) == v.host
    ensures LogLine("%msg", level, v) == v.message
    ensures LogLine("%vlevel", level, v) == if level == Verbose then v.verboseLevel else "%vlevel"
  {
    AloneLine(0, level, v);
    AloneLine(3, level, v);
    AloneLine(4, level, v);
    AloneLine(5, level, v);
    AloneLine(6, level, v);
    AloneLine(7, level, v);
    AloneLine(8, level, v);
    AloneLine(9, level, v);
    AloneLine(10, level, v);
    AloneLine(11, level, v);
    AloneLine(12, level, v);
    AloneLine(13, level, v);
  }

  lemma PlanOfLevel(level: Level, v: Values)
    ensures PlanOf(level, v)[1] == if level in {Global, Unknown} then Keep else Always(LevelValue(level))
    ensures PlanOf(level, v)[2] == if level in {Global, Unknown} then Keep else Always(LevelShortValue(level))
  {}

  lemma LevelLine(level: Level, v: Values, format: string)
    requires IsPercentFree(v) && format == SPECIFIERS[1]
    ensures LogLine(format, level, v) == if level in {Global, Unknown} then format else LevelValue(level)
  {
    AloneLine(1, level, v);
    PlanOfLevel(level, v);
  }

  lemma LevelShortLine(level: Level, v: Values, format: string)
    requires IsPercentFree(v) && format == SPECIFIERS[2]
    ensures LogLine(format, level, v) == if level in {Global, Unknown} then format else LevelShortValue(level)
  {
    AloneLine(2, level, v);
    PlanOfLevel(level, v);
  }

  /** The level is its name, and stays as it is for levels that messages do not have. */
  lemma LevelAlone(v: Values)
    requires IsPercentFree(v)
    ensures LogLine("%level", Fatal, v) == "FATAL" && LogLine("%level", Error, v) == "ERROR"
    ensures LogLine("%level", Warning, v) == "WARN " && LogLine("%level", Info, v) == "INFO "
    ensures LogLine("%level", Debug, v) == "DEBUG" && LogLine("%level", Verbose, v) == "VER"
    ensures LogLine("%level", Trace, v) == "TRACE"
    ensures LogLine("%level", Global, v) == "%level" && LogLine("%level", Unknown, v) == "%level"
  {
    LevelLine(Fatal, v, "%level");
    LevelLine(Error, v, "%level");
    LevelLine(Warning, v, "%level");
    LevelLine(Info, v, "%level");
    LevelLine(Debug, v, "%level");
    LevelLine(Verbose, v, "%level");
    LevelLine(Trace, v, "%level");
    LevelLine(Global, v, "%level");
    LevelLine(Unknown, v, "%level");
  }

  lemma LevelShortAlone(v: Values)
    requires IsPercentFree(v)
    ensures LogLine("%levshort", Fatal, v) == "F" && LogLine("%levshort", Error, v) == "E"
    ensures LogLine("%levshort", Warning, v) == "W" && LogLine("%levshort", Info, v) == "I"
    ensures LogLine("%levshort", Debug, v) == "D" && LogLine("%levshort", Verbose, v) == "V"
    ensures LogLine("%levshort", Trace, v) == "T"
    ensures LogLine("%levshort", Global, v) == "%levshort" && LogLine("%levshort", Unknown, v) == "%levshort"
  {
    LevelShortLine(Fatal, v, "%levshort");
    LevelShortLine(Error, v, "%levshort");
    LevelShortLine(Warning, v, "%levshort");
    LevelShortLine(Info, v, "%levshort");
    LevelShortLine(Debug, v, "%levshort");
    LevelShortLine(Verbose, v, "%levshort");
    LevelShortLine(Trace, v, "%levshort");
    LevelShortLine(Global, v, "%levshort");
    LevelShortLine(Unknown, v, "%levshort");
  }

  // ---------- What goes wrong ----------

  lemma LoggerIdIsRereadIn(names: seq<string>, plan: seq<Plan>, message: string, format: string)
    requires IsTable(names) && |names| == |plan| == |SPECIFIERS| && EachOnce(TURNS, |names|)
    requires plan[LOGGER] == Always(names[MESSAGE]) && plan[MESSAGE] == IfFlagged(message)
    requires format == names[LOGGER] + " " + names[MESSAGE]
    ensures Line(format, names, plan, TURNS) == message + " " + names[MESSAGE]
    ensures Flatten(Substituted([Spec(LOGGER), Plain(" "), Spec(MESSAGE)], plan), names) == names[MESSAGE] + " " + message
  {
    ValueIsReread(names, plan, EARLY_TURNS, LOGGER, BUILD_TURNS, MESSAGE, format);
    PairSubstituted(LOGGER, MESSAGE, names, plan);
  }

  /** A logger whose id is "%msg" prints the message in the place of its id, and "%msg" in the place of the message. */
  lemma LoggerIdIsReread(level: Level, v: Values)
    requires v.logger == "%msg"
    ensures LogLine("%logger" + " " + "%msg", level, v) == v.message + " " + "%msg"
    ensures Flatten(Substituted([Spec(LOGGER), Plain(" "), Spec(MESSAGE)], PlanOf(level, v)), SPECIFIERS) ==
            "%msg" + " " + v.message
  {
    SpecifiersAreTable();
    TurnsAreOnce();
    LoggerIdIsRereadIn(SPECIFIERS, PlanOf(level, v), v.message, SPECIFIERS[LOGGER] + " " + SPECIFIERS[MESSAGE]);
  }

  lemma AppCompletesIn(names: seq<string>, plan: seq<Plan>, t: string, message: string, format: string)
    requires IsTable(names) && |names| == |plan| == |SPECIFIERS| && EachOnce(TURNS, |names|)
    requires !plan[APP].Keep? && plan[MESSAGE] == IfFlagged(message)
    requires |t| >= 2 && plan[APP].value != "" && names[MESSAGE] == t + plan[APP].value
    requires format == t + names[APP] + " " + names[MESSAGE]
    ensures Line(format, names, plan, TURNS) == message + " " + names[MESSAGE]
  {
    var before := EARLY_TURNS + [LOGGER];
    assert TURNS == before + ([APP] + (LATER_TURNS + ([MESSAGE] + [])));
    CompletedTextIsReread(names, plan, before, APP, LATER_TURNS, MESSAGE, t, format);
  }

  /** Under the format "%m%app %msg" an application called "sg" prints the message in the place of its name. */
  lemma AppNameCompletes(level: Level, v: Values)
    requires v.app == "sg"
    ensures LogLine("%m" + "%app" + " " + "%msg", level, v) == v.message + " " + "%msg"
  {
    SpecifiersAreTable();
    TurnsAreOnce();
    AppCompletesIn(SPECIFIERS, PlanOf(level, v), "%m", v.message, "%m" + SPECIFIERS[APP] + " " + SPECIFIERS[MESSAGE]);
  }
}
