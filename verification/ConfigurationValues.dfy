/**
 What the texts of configuration values mean (getBool, getULong and SubsecondPrecision in
 external/easylogging++/easylogging++.cc), and what a built object reads for values that are written out.
 */
module ConfigurationValues {

  import opened Levels
  import opened Options
  import opened ConfigurationStore
  import opened ConfigurationRuns
  import opened LogFiles
  import opened Text
  import opened TypedConfigurations
  import ConfigurationPrinting
  import UnquotedSettings
  import Timestamps

  // ---------- Blanks around a value ----------

  /** A blank of the C locale. */
  predicate IsBlank(c: char) {
    c as int in {9, 10, 11, 12, 13, 32}
  }

  predicate AreBlanks(s: string) {
    forall i :: 0 <= i < |s| ==> IsBlank(s[i])
  }

  /** `s` is `core` with blanks around it. */
  ghost predicate IsAround(s: string, core: string) {
    exists a, b :: AreBlanks(a) && AreBlanks(b) && s == a + core + b
  }

  /** No blank at either end. */
  predicate IsBare(core: string) {
    core != "" ==> !IsBlank(core[0]) && !IsBlank(core[|core| - 1])
  }

  lemma {:induction false} RTrimBlanks(s: string, b: string)
    requires AreBlanks(b)
    ensures RTrim(s + b) == RTrim(s)
    decreases |b|
  {
    if b == "" {
      assert s + b == s;
    } else {
      var n := |b| - 1;
      assert (s + b)[..|s + b| - 1] == s + b[..n];
      RTrimBlanks(s, b[..n]);
    }
  }

  lemma {:induction false} LTrimBlanks(a: string, s: string)
    requires AreBlanks(a)
    ensures LTrim(a + s) == LTrim(s)
    decreases |a|
  {
    if a == "" {
      assert a + s == s;
    } else {
      assert (a + s)[1..] == a[1..] + s;
      LTrimBlanks(a[1..], s);
    }
  }

  lemma {:induction false} AllBlanksVanish(b: string)
    requires AreBlanks(b)
    ensures RTrim(b) == ""
    decreases |b|
  {
    if b != "" {
      AllBlanksVanish(b[..|b| - 1]);
    }
  }

  /** Trimming leaves what blanks were put around. */
  lemma TrimIsCore(a: string, core: string, b: string, s: string)
    requires AreBlanks(a) && AreBlanks(b) && IsBare(core) && s == a + core + b
    ensures Trim(s) == core
  {
    RTrimBlanks(a + core, b);
    if core == "" {
      assert a + core == a;
      AllBlanksVanish(a);
    } else {
      assert (a + core)[|a + core| - 1] == core[|core| - 1];
      LTrimBlanks(a, core);
    }
  }

  /** Everything is something bare with blanks around it: what trimming leaves. */
  lemma TrimIsAround(s: string)
    ensures IsAround(s, Trim(s)) && IsBare(Trim(s))
  {
    var k, n := UnquotedSettings.TrimIsSlice(s);
    AroundSlice(s, k, n);
    ConfigurationPrinting.RTrimIsPrefix(s);
    LTrimIsBare(RTrim(s));
  }

  lemma AroundSlice(s: string, k: nat, n: nat)
    requires k <= n <= |s| && (forall i :: 0 <= i < k ==> IsSpace(s[i])) && (forall i :: n <= i < |s| ==> IsSpace(s[i]))
    ensures IsAround(s, s[k..n])
  {
    assert AreBlanks(s[..k]) && AreBlanks(s[n..]) && s == s[..k] + s[k..n] + s[n..];
  }

  lemma {:induction false} LTrimIsBare(s: string)
    requires s != "" ==> !IsSpace(s[|s| - 1])
    ensures IsBare(LTrim(s))
    decreases |s|
  {
    if s != "" && IsSpace(s[0]) {
      LTrimIsBare(s[1..]);
    }
  }

  // ---------- Booleans ----------

  lemma BareIsTrimmed(v: string, core: string)
    requires IsBare(core)
    ensures Trim(v) == core <==> IsAround(v, core)
  {
    TrimIsAround(v);
    if IsAround(v, core) {
      var a, b :| AreBlanks(a) && AreBlanks(b) && v == a + core + b;
      TrimIsCore(a, core, b, v);
    }
  }

  /** Exactly three texts mean true, blanks around them aside. */
  lemma BoolCondition(v: string)
    ensures GetBool(v) <==> IsAround(v, "TRUE") || IsAround(v, "true") || IsAround(v, "1")
  {
    BareIsTrimmed(v, "TRUE");
    BareIsTrimmed(v, "true");
    BareIsTrimmed(v, "1");
  }

  // ---------- Numbers ----------

  /** Digits are read as their number, leading zeros included, up to the largest `long`, and as that one from there on. */
  lemma DigitsAreRead(a: string, digits: string, b: string, v: string)
    requires AreBlanks(a) && AreBlanks(b) && v == a + digits + b
    requires digits != "" && forall i :: 0 <= i < |digits| ==> IsDigit(digits[i])
    ensures GetULong(v) == if DecimalValue(digits) <= 9223372036854775807 then DecimalValue(digits) else 9223372036854775807
  {
    TrimIsCore(a, digits, b, v);
  }

  /** A number is read as itself, up to the largest `long`, and as that one from there on. */
  lemma NumberIsRead(a: string, n: nat, b: string, v: string)
    requires AreBlanks(a) && AreBlanks(b) && v == a + Decimal(n) + b
    ensures GetULong(v) == if n <= 9223372036854775807 then n else 9223372036854775807
  {
    DecimalIsNumber(n);
    DigitsAreRead(a, Decimal(n), b, v);
  }

  /** Anything but digits, and nothing at all, is read as zero. */
  lemma OtherIsZero(a: string, core: string, b: string, v: string)
    requires AreBlanks(a) && AreBlanks(b) && IsBare(core) && v == a + core + b
    requires core == "" || exists i :: 0 <= i < |core| && !('0' <= core[i] <= '9')
    ensures GetULong(v) == 0
  {
    TrimIsCore(a, core, b, v);
  }

  /** The precision that a number asks for: its lowest 32 bits, where they are one to six, and three digits otherwise. */
  lemma PrecisionIsRead(a: string, n: nat, b: string, v: string)
    requires AreBlanks(a) && AreBlanks(b) && v == a + Decimal(n) + b && n <= 9223372036854775807
    ensures var low := n % 4294967296;
            GetPrecision(v) == if low == 4 then Timestamps.SubsecondPrecision(4, 100)
                               else if low == 5 then Timestamps.SubsecondPrecision(5, 10)
                               else if low == 6 then Timestamps.SubsecondPrecision(6, 1)
                               else Timestamps.SubsecondPrecision(if low == 1 then 1 else if low == 2 then 2 else 3, 1000)
  {
    NumberIsRead(a, n, b, v);
  }

  // ---------- What a built object reads ----------

  /** Where the value last written to a level is a number, the object reads that number. */
  lemma BuiltObjectReadsNumber(tc: TypedConfigurations, ws: seq<Write>, references: map<string, Stream>, disk: Disk, l: Level,
                               n: nat)
    requires tc.BuiltFrom(Run(DEFAULTS, ws), references, disk) && l != Unknown && n <= 9223372036854775807
    ensures LastWritten(ws, l, MaxLogFileSize) == Some(Decimal(n)) ==> forall d :: Lookup(tc.maxLogFileSizeMap, l, d) == n
    ensures LastWritten(ws, l, LogFlushThreshold) == Some(Decimal(n)) ==> forall d :: Lookup(tc.logFlushThresholdMap, l, d) == n
  {
    BuiltObjectAgrees(tc, ws, references, disk, l);
    assert "" + Decimal(n) + "" == Decimal(n);
    NumberIsRead("", n, "", Decimal(n));
  }

  /** Where it is one of the two usual words, the object reads the truth value. */
  lemma BuiltObjectReadsWord(tc: TypedConfigurations, ws: seq<Write>, references: map<string, Stream>, disk: Disk, l: Level)
    requires tc.BuiltFrom(Run(DEFAULTS, ws), references, disk) && l != Unknown
    ensures LastWritten(ws, l, Enabled) == Some("true") ==> forall d :: Lookup(tc.enabledMap, l, d)
    ensures LastWritten(ws, l, Enabled) == Some("false") ==> forall d :: !Lookup(tc.enabledMap, l, d)
    ensures LastWritten(ws, l, ToStandardOutput) == Some("true") ==> forall d :: Lookup(tc.toStandardOutputMap, l, d)
    ensures LastWritten(ws, l, ToStandardOutput) == Some("false") ==> forall d :: !Lookup(tc.toStandardOutputMap, l, d)
  {
    BuiltObjectAgrees(tc, ws, references, disk, l);
    TrueAndFalse();
  }

  /** The format that setToDefault leaves at a level. */
  function FormatByDefault(l: Level): string {
    match l
    case Debug => "%datetime %level [%logger] [%user@%host] [%func] [%loc] %msg"
    case Verbose => "%datetime %level-%vlevel [%logger] %msg"
    case Trace => "%datetime %level [%logger] [%func] [%loc] %msg"
    case _ => "%datetime %level [%logger] %msg"
  }

  /** Nothing has reached the level since setToDefault. */
  ghost predicate IsUntouched(ws: seq<Write>, l: Level) {
    forall t :: LastWritten(ws, l, t) == None
  }

  lemma ValuesByDefault(ws: seq<Write>, l: Level)
    requires l != Unknown && IsUntouched(ws, l)
    ensures ValueAfter(ws, l, Enabled) == "true" && ValueAfter(ws, l, ToFile) == "true"
    ensures ValueAfter(ws, l, ToStandardOutput) == "true" && ValueAfter(ws, l, PerformanceTracking) == "true"
    ensures ValueAfter(ws, l, MaxLogFileSize) == "0" && ValueAfter(ws, l, LogFlushThreshold) == "0"
    ensures ValueAfter(ws, l, SubsecondPrecision) == "3" && ValueAfter(ws, l, Filename) == ""
    ensures ValueAfter(ws, l, Format) == FormatByDefault(l)
  {}

  lemma ZeroIsRead()
    ensures GetULong("0") == 0
  {
    assert "" + Decimal(0) + "" == "0";
    NumberIsRead("", 0, "", "0");
  }

  /** What a level reads that nothing has reached since setToDefault: it is enabled, goes to the standard output, and has no
      limits of size; its format is written out above. */
  lemma UntouchedReads(tc: TypedConfigurations, ws: seq<Write>, references: map<string, Stream>, disk: Disk, l: Level)
    requires tc.BuiltFrom(Run(DEFAULTS, ws), references, disk) && l != Unknown && IsUntouched(ws, l)
    ensures forall d :: Lookup(tc.enabledMap, l, d) && Lookup(tc.toStandardOutputMap, l, d)
    ensures forall d :: Lookup(tc.maxLogFileSizeMap, l, d) == 0 && Lookup(tc.logFlushThresholdMap, l, d) == 0
    ensures forall d :: Lookup(tc.logFormatMap, l, d) == LogFormat(l, FormatByDefault(l))
  {
    BuiltObjectAgrees(tc, ws, references, disk, l);
    ValuesByDefault(ws, l);
    TrueAndFalse();
    ZeroIsRead();
  }

  /** And if nothing has reached Global either, it goes to a file, of which there is none. */
  lemma UntouchedFile(tc: TypedConfigurations, ws: seq<Write>, references: map<string, Stream>, disk: Disk, l: Level)
    requires tc.BuiltFrom(Run(DEFAULTS, ws), references, disk) && l != Unknown
    requires IsUntouched(ws, l) && IsUntouched(ws, Global)
    ensures forall d :: Lookup(tc.toFileMap, l, d)
    ensures forall d :: Lookup(tc.fileStreamMap, l, d) == NoStream
    ensures forall d :: Lookup(tc.filenameMap, l, d) == d
  {
    NoFileByDefault(ws, l, references, disk);
    BuiltObjectAgrees(tc, ws, references, disk, l);
    BuiltObjectFiles(tc, ws, references, disk, l);
  }

  lemma NoFileByDefault(ws: seq<Write>, l: Level, references: map<string, Stream>, disk: Disk)
    requires l != Unknown && IsUntouched(ws, l) && IsUntouched(ws, Global)
    ensures LogsToFile(ws, l, references, disk) && StreamRead(ws, l, references, disk) == NoStream
    ensures FileAfter(ws, l, disk) == None && FileAfter(ws, Global, disk) == None
  {
    ValuesByDefault(ws, l);
    ValuesByDefault(ws, Global);
    TrueAndFalse();
  }

  /** Stamps have three digits and performance is tracked, at every level, if nothing has reached Info. */
  lemma UntouchedInfo(tc: TypedConfigurations, ws: seq<Write>, references: map<string, Stream>, disk: Disk, l: Level)
    requires tc.BuiltFrom(Run(DEFAULTS, ws), references, disk) && IsUntouched(ws, Info)
    requires Get(Run(DEFAULTS, ws), Unknown, SubsecondPrecision).None?
    requires Get(Run(DEFAULTS, ws), Unknown, PerformanceTracking).None?
    ensures forall d :: Lookup(tc.subsecondPrecisionMap, l, d) == Timestamps.SubsecondPrecision(3, 1000)
    ensures forall d :: Lookup(tc.performanceTrackingMap, l, d)
  {
    BuiltObjectReadsInfo(tc, ws, references, disk, l);
    ValuesByDefault(ws, Info);
    TrueAndFalse();
    ThreeIsRead();
  }

  lemma ThreeIsRead()
    ensures GetPrecision("3") == Timestamps.SubsecondPrecision(3, 1000)
  {
    assert "" + Decimal(3) + "" == "3";
    PrecisionIsRead("", 3, "", "3");
  }

  /** The size that the daemon asks for by default. */
  lemma DefaultLogSize(tc: TypedConfigurations, references: map<string, Stream>, disk: Disk, l: Level)
    requires tc.BuiltFrom(Run(DEFAULTS, [SetGlobally(MaxLogFileSize, "104850000", false)]), references, disk)
    requires l != Unknown && l != Global
    ensures forall d :: Lookup(tc.maxLogFileSizeMap, l, d) == 104850000
  {
    SizeInDigits();
    var ws := [SetGlobally(MaxLogFileSize, Decimal(104850000), false)];
    assert LastWritten(ws, l, MaxLogFileSize) == Some(Decimal(104850000));
    BuiltObjectReadsNumber(tc, ws, references, disk, l, 104850000);
  }

  lemma AppendDigit(n: nat, s: string, c: char, m: nat)
    requires n > 0 && Decimal(n) == s && '0' <= c <= '9' && m == 10 * n + (c as int - '0' as int)
    ensures Decimal(m) == s + [c]
  {}

  lemma SizeInDigits()
    ensures Decimal(104850000) == "104850000"
  {
    AppendDigit(1, "1", '0', 10);
    AppendDigit(10, "10", '4', 104);
    AppendDigit(104, "104", '8', 1048);
    AppendDigit(1048, "1048", '5', 10485);
    AppendDigit(10485, "10485", '0', 104850);
    AppendDigit(104850, "104850", '0', 1048500);
    AppendDigit(1048500, "1048500", '0', 10485000);
    AppendDigit(10485000, "10485000", '0', 104850000);
  }
}
