/**
 How levels and configuration types are read from their names (external/easylogging++/easylogging++.cc):
 two tables of spellings, searched in order and regardless of case.
 */
module ConfigurationNames {

  import opened Levels
  import opened Options
  import opened ConfigurationStore
  import opened Text

  // ---------- Tables ----------

  const LEVELS := 8

  // Both tables spell the names in lower case.

  function LevelSpelling(i: nat): string {
    LowerCase(LevelName(LevelAt(i)))
  }

  function LevelAt(i: nat): Level {
    match i
    case 0 => Global
    case 1 => Debug
    case 2 => Info
    case 3 => Warning
    case 4 => Error
    case 5 => Fatal
    case 6 => Verbose
    case 7 => Trace
    case _ => Unknown
  }

  const TYPES := 10

  /** MillisecondsWidth is the same enumerator as SubsecondPrecision. */
  function TypeAt(i: nat): ConfigurationType {
    match i
    case 0 => Enabled
    case 1 => ToFile
    case 2 => ToStandardOutput
    case 3 => Format
    case 4 => Filename
    case 5 => SubsecondPrecision
    case 6 => SubsecondPrecision
    case 7 => PerformanceTracking
    case 8 => MaxLogFileSize
    case 9 => LogFlushThreshold
    case _ => UnknownType
  }

  /** ConfigurationTypeHelper::convertToString */
  function TypeName(kind: ConfigurationType): string {
    match kind
    case Enabled => "ENABLED"
    case Filename => "FILENAME"
    case Format => "FORMAT"
    case ToFile => "TO_FILE"
    case ToStandardOutput => "TO_STANDARD_OUTPUT"
    case SubsecondPrecision => "SUBSECOND_PRECISION"
    case PerformanceTracking => "PERFORMANCE_TRACKING"
    case MaxLogFileSize => "MAX_LOG_FILE_SIZE"
    case LogFlushThreshold => "LOG_FLUSH_THRESHOLD"
    case UnknownType => "UNKNOWN"
  }

  /** One type has an older name as well. */
  function TypeUpper(i: nat): string {
    if i == 6 then "MILLISECONDS_WIDTH" else TypeName(TypeAt(i))
  }

  function TypeSpelling(i: nat): string {
    LowerCase(TypeUpper(i))
  }

  // ---------- Searching ----------

  /** The first of the spellings from `i` on that equals `s` up to case, or `n`. */
  function FirstSpelling(spelling: nat -> string, n: nat, s: string, i: nat): nat
    requires i <= n
    decreases n - i, s
  {
    if i == n || CaseEq(s, spelling(i)) then i else FirstSpelling(spelling, n, s, i + 1)
  }

  function LevelNamed(s: string): Level {
    LevelAt(FirstSpelling(LevelSpelling, LEVELS, s, 0))
  }

  function TypeNamed(s: string): ConfigurationType {
    TypeAt(FirstSpelling(TypeSpelling, TYPES, s, 0))
  }

  /** The loop of LevelHelper::convertFromString. */
  method LevelFromString(s: string) returns (level: Level)
    ensures level == LevelNamed(s)
  {
    var i := 0;
    while i < LEVELS
      invariant 0 <= i <= LEVELS && FirstSpelling(LevelSpelling, LEVELS, s, i) == FirstSpelling(LevelSpelling, LEVELS, s, 0)
    {
      var equal := CStringCaseEq(Some(s), Some(LevelSpelling(i)));
      if equal {
        return LevelAt(i);
      }
      i := i + 1;
    }
    return Unknown;
  }

  /** The loop of ConfigurationTypeHelper::convertFromString. */
  method TypeFromString(s: string) returns (kind: ConfigurationType)
    ensures kind == TypeNamed(s)
  {
    var i := 0;
    while i < TYPES
      invariant 0 <= i <= TYPES && FirstSpelling(TypeSpelling, TYPES, s, i) == FirstSpelling(TypeSpelling, TYPES, s, 0)
    {
      var equal := CStringCaseEq(Some(s), Some(TypeSpelling(i)));
      if equal {
        return TypeAt(i);
      }
      i := i + 1;
    }
    return UnknownType;
  }

  lemma {:induction false} FirstSpellingIs(spelling: nat -> string, n: nat, s: string, i: nat, k: nat)
    requires i <= k < n && CaseEq(s, spelling(k))
    requires forall j: nat :: i <= j < k ==> !CaseEq(s, spelling(j))
    ensures FirstSpelling(spelling, n, s, i) == k
    decreases n - i
  {
    if i < k {
      FirstSpellingIs(spelling, n, s, i + 1, k);
    }
  }

  // ---------- Names are read back ----------

  /** Upper-case letters and underscores only. */
  predicate Plain(name: string) {
    name != "" && 'A' <= name[0] <= 'Z' && forall i :: 0 <= i < |name| ==> 'A' <= name[i] <= 'Z' || name[i] == '_'
  }

  lemma PlainIsUpperCase(name: string)
    requires Plain(name)
    ensures UpperCase(name) == name && CString(name) == name
  {
    CStringOfText(name);
  }

  lemma Spelled(name: string)
    requires Plain(name)
    ensures UpperCase(CString(LowerCase(name))) == name
  {
    CStringOfText(LowerCase(name));
  }

  lemma LevelPlain(level: Level)
    ensures Plain(LevelName(level))
  {}

  lemma ShortTypePlain(kind: ConfigurationType)
    requires |TypeName(kind)| < 10
    ensures Plain(TypeName(kind))
  {}

  lemma LongTypePlain(kind: ConfigurationType)
    requires 10 <= |TypeName(kind)| < 19
    ensures Plain(TypeName(kind))
  {}

  lemma LongestTypePlain(kind: ConfigurationType)
    requires |TypeName(kind)| >= 19
    ensures Plain(TypeName(kind))
  {}

  lemma TypePlain(kind: ConfigurationType)
    ensures Plain(TypeName(kind))
  {
    if |TypeName(kind)| < 10 {
      ShortTypePlain(kind);
    } else if |TypeName(kind)| < 19 {
      LongTypePlain(kind);
    } else {
      LongestTypePlain(kind);
    }
  }

  lemma UpperPlain(i: nat)
    ensures Plain(TypeUpper(i))
  {
    if i == 6 {
      assert Plain("MILLISECONDS_WIDTH");
    } else {
      TypePlain(TypeAt(i));
    }
  }

  lemma LevelsDiffer(a: Level, b: Level)
    requires a != b
    ensures LevelName(a) != LevelName(b)
  {}

  lemma TypesDiffer(i: nat, j: nat)
    requires i < j < TYPES
    ensures TypeUpper(i) != TypeUpper(j)
  {}

  lemma PlainCaseEq(name: string, other: string)
    requires Plain(name) && Plain(other)
    ensures CaseEq(name, LowerCase(other)) <==> name == other
  {
    PlainIsUpperCase(name);
    Spelled(other);
  }

  /** Every level is read from its name. */
  lemma LevelIsRead(i: nat, name: string)
    requires i < LEVELS && name == LevelName(LevelAt(i))
    ensures LevelNamed(name) == LevelAt(i)
  {
    forall j: nat | j <= i ensures CaseEq(name, LevelSpelling(j)) <==> j == i {
      OwnLevel(i, j, name, LevelName(LevelAt(j)));
      PlainCaseEq(name, LevelName(LevelAt(j)));
    }
    FirstSpellingIs(LevelSpelling, LEVELS, name, 0, i);
  }

  lemma OwnLevel(i: nat, j: nat, name: string, other: string)
    requires j <= i < LEVELS && name == LevelName(LevelAt(i)) && other == LevelName(LevelAt(j))
    ensures Plain(name) && Plain(other) && (name == other <==> i == j)
  {
    LevelPlain(LevelAt(i));
    LevelPlain(LevelAt(j));
    if j < i {
      LevelsDiffer(LevelAt(i), LevelAt(j));
    }
  }

  /** Every type is read from its name. */
  lemma TypeIsRead(i: nat, name: string)
    requires i < TYPES && i != 6 && name == TypeUpper(i)
    ensures TypeNamed(name) == TypeAt(i)
  {
    forall j: nat | j <= i ensures CaseEq(name, TypeSpelling(j)) <==> j == i {
      OwnType(i, j, name, TypeUpper(j));
      PlainCaseEq(name, TypeUpper(j));
    }
    FirstSpellingIs(TypeSpelling, TYPES, name, 0, i);
  }

  lemma OwnType(i: nat, j: nat, name: string, other: string)
    requires j <= i < TYPES && name == TypeUpper(i) && other == TypeUpper(j)
    ensures Plain(name) && Plain(other) && (name == other <==> i == j)
  {
    UpperPlain(i);
    UpperPlain(j);
    if j < i {
      TypesDiffer(j, i);
    }
  }

  /** Reading undoes writing, for levels and for types. */
  lemma NamesAreReadBack(level: Level, kind: ConfigurationType)
    requires level != Unknown && kind != UnknownType
    ensures LevelNamed(LevelName(level)) == level && TypeNamed(TypeName(kind)) == kind
  {
    var i := LevelIndex(level);
    LevelIsRead(i, LevelName(level));
    TypeIsRead(TypeIndex(kind), TypeName(kind));
  }

  function LevelIndex(level: Level): (i: nat)
    requires level != Unknown
    ensures i < LEVELS && LevelAt(i) == level
  {
    match level
    case Global => 0
    case Debug => 1
    case Info => 2
    case Warning => 3
    case Error => 4
    case Fatal => 5
    case Verbose => 6
    case Trace => 7
  }

  function TypeIndex(kind: ConfigurationType): (i: nat)
    requires kind != UnknownType
    ensures i < TYPES && i != 6 && TypeAt(i) == kind
  {
    match kind
    case Enabled => 0
    case ToFile => 1
    case ToStandardOutput => 2
    case Format => 3
    case Filename => 4
    case SubsecondPrecision => 5
    case PerformanceTracking => 7
    case MaxLogFileSize => 8
    case LogFlushThreshold => 9
  }
}
