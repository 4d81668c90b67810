/**
 TypedConfigurations of external/easylogging++: a typed view of the configuration store that keeps a
 level's value only where it differs from Global's and otherwise falls back to Global.
 */
module TypedConfigurations {

  import opened Levels
  import opened Options
  import opened ConfigurationStore
  import opened ConfigurationRuns
  import opened LogFiles
  import opened Text
  import Timestamps

  const LONG_MAX := 0x7fff_ffff_ffff_ffff

  // ---------- Parsing values ----------

  predicate GetBool(value: string) {
    var s := Trim(value);
    s == "TRUE" || s == "true" || s == "1"
  }

  /** getULong: zero for anything but digits; `atol` saturates on a 64-bit platform. */
  function GetULong(value: string): nat {
    var s := Trim(value);
    if s != "" && forall i :: 0 <= i < |s| ==> IsDigit(s[i])
    then var n := DecimalValue(s); if n > LONG_MAX then LONG_MAX else n
    else 0
  }

  /** `static_cast<int>` of an unsigned long */
  function CastToInt(n: nat): int {
    var low := n % 0x1_0000_0000;
    if low < 0x8000_0000 then low else low - 0x1_0000_0000
  }

  /** SubsecondPrecision(static_cast<int>(getULong(value))) */
  function GetPrecision(value: string): Timestamps.SubsecondPrecision {
    Timestamps.Precision(CastToInt(GetULong(value)))
  }

  // ---------- The compressed maps ----------

  function SetValue<T(==)>(m: map<Level, T>, level: Level, value: T): map<Level, T> {
    if m == map[] then map[Global := value]
    else if Global in m && m[Global] == value then m
    else m[level := value]
  }

  /** unsafeGetConfigByVal */
  function Lookup<T>(m: map<Level, T>, level: Level, default: T): T {
    if level in m then m[level] else if Global in m then m[Global] else default
  }

  /** What `build` makes of the entries of one type. */
  function Build<T(==)>(list: Entries, t: ConfigurationType, parse: string -> T): map<Level, T> {
    if list == [] then map[]
    else
      var m, last := Build(list[..|list| - 1], t, parse), list[|list| - 1];
      if last.configurationType == t then SetValue(m, last.level, parse(last.value)) else m
  }

  /** The same for the two types that `build` stores at Global whatever the level. */
  function BuildGlobal<T(==)>(list: Entries, t: ConfigurationType, parse: string -> T): map<Level, T> {
    if list == [] then map[]
    else
      var m, last := BuildGlobal(list[..|list| - 1], t, parse), list[|list| - 1];
      if last.configurationType == t then SetValue(m, Global, parse(last.value)) else m
  }

  /** A format belongs to a level; whatever else LogFormat holds is computed from the two. */
  datatype LogFormat = LogFormat(level: Level, userFormat: string)

  /** What `build` makes of the formats. */
  function BuildFormats(list: Entries): map<Level, LogFormat> {
    if list == [] then map[]
    else
      var m, last := BuildFormats(list[..|list| - 1]), list[|list| - 1];
      if last.configurationType == Format then SetValue(m, last.level, LogFormat(last.level, last.value)) else m
  }

  lemma BuildFormatsNext(list: Entries, i: nat)
    requires i < |list|
    ensures BuildFormats(list[..i + 1]) ==
            if list[i].configurationType == Format
            then SetValue(BuildFormats(list[..i]), list[i].level, LogFormat(list[i].level, list[i].value))
            else BuildFormats(list[..i])
  {
    assert list[..i + 1][..i] == list[..i];
  }

  lemma BuildNext<T>(list: Entries, i: nat, t: ConfigurationType, parse: string -> T)
    requires i < |list|
    ensures Build(list[..i + 1], t, parse) ==
            if list[i].configurationType == t then SetValue(Build(list[..i], t, parse), list[i].level, parse(list[i].value))
            else Build(list[..i], t, parse)
  {
    assert list[..i + 1][..i] == list[..i];
  }

  lemma BuildGlobalNext<T>(list: Entries, i: nat, t: ConfigurationType, parse: string -> T)
    requires i < |list|
    ensures BuildGlobal(list[..i + 1], t, parse) ==
            if list[i].configurationType == t then SetValue(BuildGlobal(list[..i], t, parse), Global, parse(list[i].value))
            else BuildGlobal(list[..i], t, parse)
  {
    assert list[..i + 1][..i] == list[..i];
  }

  /** ToFile after the second loop of `build`: a null stream turns it off at the level of the file. */
  function ToFileAfter(m: map<Level, bool>, files: Files, list: Entries, disk: Disk): map<Level, bool> {
    if list == [] then m
    else
      var before, last := list[..|list| - 1], list[|list| - 1];
      ToFileStep(ToFileAfter(m, files, before, disk), FilesAfter(files, before, disk), last, disk)
  }

  function ToFileStep(m: map<Level, bool>, files: Files, c: Configuration, disk: Disk): map<Level, bool> {
    if NamesFile(c) && Taken(files, disk.resolve(c.value), disk).NoStream?
    then SetValue(m, LevelFor(files, c.level), false)
    else m
  }

  lemma ToFileNext(m: map<Level, bool>, files: Files, list: Entries, i: nat, disk: Disk)
    requires i < |list|
    ensures ToFileAfter(m, files, list[..i + 1], disk) ==
            ToFileStep(ToFileAfter(m, files, list[..i], disk), FilesAfter(files, list[..i], disk), list[i], disk)
  {
    assert list[..i + 1][..i] == list[..i];
  }

  lemma StepTaken(m: map<Level, bool>, files: Files, c: Configuration, disk: Disk, l: Level, fs: Stream)
    requires NamesFile(c) && l == LevelFor(files, c.level) && fs == Taken(files, disk.resolve(c.value), disk)
    ensures ToFileStep(m, files, c, disk) == if fs.NoStream? then SetValue(m, l, false) else m
  {}

  lemma InsertedParts(files: Files, level: Level, name: string, disk: Disk, l: Level, fs: Stream, next: Files)
    requires l == LevelFor(files, level) && fs == Taken(files, name, disk)
    requires next.names == Added(files.names, l, name) && next.streams == Added(files.streams, l, fs)
    requires next.references == Added(files.references, name, next.streams[l])
    ensures next == Inserted(files, level, name, disk)
  {}

  class TypedConfigurations {
    var enabledMap: map<Level, bool>
    var toFileMap: map<Level, bool>
    var toStandardOutputMap: map<Level, bool>
    var logFormatMap: map<Level, LogFormat>
    var subsecondPrecisionMap: map<Level, Timestamps.SubsecondPrecision>
    var performanceTrackingMap: map<Level, bool>
    var maxLogFileSizeMap: map<Level, nat>
    var logFlushThresholdMap: map<Level, nat>
    var filenameMap: map<Level, string>
    var fileStreamMap: map<Level, Stream>
    var logStreamsReference: map<string, Stream>

    function FileMaps(): Files
      reads this
    {
      Files(filenameMap, fileStreamMap, logStreamsReference)
    }

    /** Every map is what the first loop of `build` makes of the entries of its type. */
    ghost predicate Entered(list: Entries)
      reads this
    {
      && enabledMap == Build(list, Enabled, GetBool)
      && toFileMap == Build(list, ToFile, GetBool)
      && toStandardOutputMap == Build(list, ToStandardOutput, GetBool)
      && logFormatMap == BuildFormats(list)
      && subsecondPrecisionMap == BuildGlobal(list, SubsecondPrecision, GetPrecision)
      && performanceTrackingMap == BuildGlobal(list, PerformanceTracking, GetBool)
      && maxLogFileSizeMap == Build(list, MaxLogFileSize, GetULong)
      && logFlushThresholdMap == Build(list, LogFlushThreshold, GetULong)
    }

    /** What `build` leaves, where `references` holds the streams that were opened before. */
    ghost predicate BuiltFrom(list: Entries, references: map<string, Stream>, disk: Disk)
      reads this
    {
      && enabledMap == Build(list, Enabled, GetBool)
      && toFileMap == ToFileAfter(Build(list, ToFile, GetBool), FilesAtStart(references), list, disk)
      && toStandardOutputMap == Build(list, ToStandardOutput, GetBool)
      && logFormatMap == BuildFormats(list)
      && subsecondPrecisionMap == BuildGlobal(list, SubsecondPrecision, GetPrecision)
      && performanceTrackingMap == BuildGlobal(list, PerformanceTracking, GetBool)
      && maxLogFileSizeMap == Build(list, MaxLogFileSize, GetULong)
      && logFlushThresholdMap == Build(list, LogFlushThreshold, GetULong)
      && FileMaps() == FilesAfter(FilesAtStart(references), list, disk)
    }

    /** The first two loops of `build`. */
    constructor (list: Entries, references: map<string, Stream>, disk: Disk)
      ensures BuiltFrom(list, references, disk)
    {
      enabledMap, toFileMap, toStandardOutputMap, logFormatMap := map[], map[], map[], map[];
      subsecondPrecisionMap, performanceTrackingMap := map[], map[];
      maxLogFileSizeMap, logFlushThresholdMap := map[], map[];
      filenameMap, logStreamsReference := map[], references;
      fileStreamMap := SetValue(map[], Global, NoStream);
      new;
      var i := 0;
      while i < |list|
        invariant 0 <= i <= |list| && Entered(list[..i]) && FileMaps() == FilesAtStart(references)
      {
        Enter(list, i);
        i := i + 1;
      }
      assert list[..i] == list;
      InsertFiles(list, disk);
    }

    /** One turn of the first loop. */
    method Enter(list: Entries, i: nat)
      requires i < |list| && Entered(list[..i])
      modifies this`enabledMap, this`toFileMap, this`toStandardOutputMap, this`logFormatMap, this`subsecondPrecisionMap
      modifies this`performanceTrackingMap, this`maxLogFileSizeMap, this`logFlushThresholdMap
      ensures Entered(list[..i + 1])
    {
      BuildNext(list, i, Enabled, GetBool);
      BuildNext(list, i, ToFile, GetBool);
      BuildNext(list, i, ToStandardOutput, GetBool);
      BuildFormatsNext(list, i);
      BuildGlobalNext(list, i, SubsecondPrecision, GetPrecision);
      BuildGlobalNext(list, i, PerformanceTracking, GetBool);
      BuildNext(list, i, MaxLogFileSize, GetULong);
      BuildNext(list, i, LogFlushThreshold, GetULong);
      var conf := list[i];
      match conf.configurationType
      case Enabled => enabledMap := SetValue(enabledMap, conf.level, GetBool(conf.value));
      case ToFile => toFileMap := SetValue(toFileMap, conf.level, GetBool(conf.value));
      case ToStandardOutput => toStandardOutputMap := SetValue(toStandardOutputMap, conf.level, GetBool(conf.value));
      case Format => logFormatMap := SetValue(logFormatMap, conf.level, LogFormat(conf.level, conf.value));
      case SubsecondPrecision =>
        subsecondPrecisionMap := SetValue(subsecondPrecisionMap, Global, GetPrecision(conf.value));
      case PerformanceTracking =>
        performanceTrackingMap := SetValue(performanceTrackingMap, Global, GetBool(conf.value));
      case MaxLogFileSize => maxLogFileSizeMap := SetValue(maxLogFileSizeMap, conf.level, GetULong(conf.value));
      case LogFlushThreshold =>
        logFlushThresholdMap := SetValue(logFlushThresholdMap, conf.level, GetULong(conf.value));
      case _ =>
    }

    /** insertFile */
    method InsertFile(level: Level, fullFilename: string, disk: Disk)
      modifies this`toFileMap, this`filenameMap, this`fileStreamMap, this`logStreamsReference
      ensures fullFilename == "" ==> FileMaps() == old(FileMaps())
      ensures fullFilename != "" ==> FileMaps() == Inserted(old(FileMaps()), level, disk.resolve(fullFilename), disk)
      ensures toFileMap == ToFileStep(old(toFileMap), old(FileMaps()), Configuration(level, Filename, fullFilename), disk)
    {
      if fullFilename == "" { return; }
      ghost var files := FileMaps();
      var resolvedFilename := disk.resolve(fullFilename);
      var l := LevelFor(FileMaps(), level);
      var fs, streams, references := NoStream, fileStreamMap, logStreamsReference;
      if resolvedFilename !in references {
        fs := Opened(resolvedFilename, disk);
        streams := Added(streams, l, fs);
        references := references[resolvedFilename := streams[l]];
      } else {
        fs := references[resolvedFilename];
        streams := Added(streams, l, fs);
      }
      var names := Added(filenameMap, l, resolvedFilename);
      InsertedParts(files, level, resolvedFilename, disk, l, fs, Files(names, streams, references));
      StepTaken(toFileMap, files, Configuration(level, Filename, fullFilename), disk, l, fs);
      filenameMap, fileStreamMap, logStreamsReference := names, streams, references;
      if fs.NoStream? {
        toFileMap := SetValue(toFileMap, l, false);
      }
    }

    /** The second loop. */
    method InsertFiles(list: Entries, disk: Disk)
      modifies this`toFileMap, this`filenameMap, this`fileStreamMap, this`logStreamsReference
      ensures toFileMap == ToFileAfter(old(toFileMap), old(FileMaps()), list, disk)
      ensures FileMaps() == FilesAfter(old(FileMaps()), list, disk)
    {
      ghost var m, files := toFileMap, FileMaps();
      var i := 0;
      while i < |list|
        invariant 0 <= i <= |list|
        invariant toFileMap == ToFileAfter(m, files, list[..i], disk) && FileMaps() == FilesAfter(files, list[..i], disk)
      {
        ToFileNext(m, files, list, i, disk);
        FilesNext(files, list, i, disk);
        if list[i].configurationType == Filename {
          InsertFile(list[i].level, list[i].value, disk);
        }
        i := i + 1;
      }
      assert list[..i] == list;
    }
  }

  // ---------- Agreement with the store ----------

  /** The configured value of a level: its own, or else Global's. */
  function Configured(list: Entries, l: Level, t: ConfigurationType): Option<string> {
    if Get(list, l, t).Some? then Get(list, l, t) else Get(list, Global, t)
  }

  /** Looking a level up in the compressed map gives its configured value. */
  ghost predicate Agrees<T(!new)>(list: Entries, t: ConfigurationType, parse: string -> T, default: T) {
    forall l :: Configured(list, l, t).Some?
                ==> Lookup(Build(list, t, parse), l, default) == parse(Configured(list, l, t).value)
  }

  ghost predicate IsFirst(list: Entries, t: ConfigurationType, f: int) {
    0 <= f < |list| && list[f].configurationType == t && forall i :: 0 <= i < f ==> list[i].configurationType != t
  }

  /** The first entry of the type, whose value `build` puts at Global, parses like Global's own. */
  ghost predicate FirstSpeaksForGlobal<T>(list: Entries, t: ConfigurationType, parse: string -> T) {
    forall f, g :: IsFirst(list, t, f) && 0 <= g < |list| && Hit(list[g], Global, t)
                   ==> parse(list[f].value) == parse(list[g].value)
  }

  ghost predicate NoneOf(list: Entries, t: ConfigurationType) {
    forall i :: 0 <= i < |list| ==> list[i].configurationType != t
  }

  lemma {:induction false} BuildOfNothing<T>(list: Entries, t: ConfigurationType, parse: string -> T)
    ensures Build(list, t, parse) == map[] <==> NoneOf(list, t)
  {
    if list != [] {
      var before, last := list[..|list| - 1], list[|list| - 1];
      BuildOfNothing(before, t, parse);
      assert NoneOf(list, t) <==> NoneOf(before, t) && last.configurationType != t;
      if last.configurationType == t {
        assert exists l :: l in Build(list, t, parse) by {
          assert Global in Build(list, t, parse) || last.level in Build(list, t, parse);
        }
      }
    }
  }

  lemma UniquePrefix(list: Entries, i: nat)
    requires UniqueKeys(list) && i <= |list|
    ensures UniqueKeys(list[..i])
  {}

  /** While Global keeps the value `c`, every entry is either stored or equal to it. */
  ghost predicate Faithful<T(!new)>(m: map<Level, T>, list: Entries, t: ConfigurationType, parse: string -> T, c: T) {
    && (forall i :: 0 <= i < |list| && list[i].configurationType == t
                    ==> Global in m && m[Global] == c && Lookup(m, list[i].level, c) == parse(list[i].value))
    && (forall l :: l in m ==> l == Global || (m[l] != c && exists i :: 0 <= i < |list| && Hit(list[i], l, t)))
  }

  lemma {:induction false} BuildIsFaithful<T(!new)>(list: Entries, t: ConfigurationType, parse: string -> T, c: T)
    requires UniqueKeys(list)
    requires forall f :: IsFirst(list, t, f) ==> parse(list[f].value) == c
    requires forall g :: 0 <= g < |list| && Hit(list[g], Global, t) ==> parse(list[g].value) == c
    ensures Faithful(Build(list, t, parse), list, t, parse, c)
    decreases |list|
  {
    if list != [] {
      var n := |list| - 1;
      var before, last := list[..n], list[n];
      assert list == before + [last];
      UniquePrefix(list, n);
      forall f | IsFirst(before, t, f) ensures IsFirst(list, t, f) {}
      BuildIsFaithful(before, t, parse, c);
      if last.configurationType == t {
        BuildOfNothing(before, t, parse);
        assert NoneOf(before, t) ==> IsFirst(list, t, n);
        FaithfulStep(before, last, t, parse, c);
      } else {
        FaithfulSkip(Build(before, t, parse), before, last, t, parse, c);
      }
    }
  }

  lemma FaithfulSkip<T(!new)>(m: map<Level, T>, before: Entries, last: Configuration, t: ConfigurationType,
                              parse: string -> T, c: T)
    requires Faithful(m, before, t, parse, c) && last.configurationType != t
    ensures Faithful(m, before + [last], t, parse, c)
  {
    var list := before + [last];
    forall l | l in m && l != Global ensures exists i :: 0 <= i < |list| && Hit(list[i], l, t) {
      var i :| 0 <= i < |before| && Hit(before[i], l, t);
      assert Hit(list[i], l, t);
    }
  }

  lemma FaithfulStep<T(!new)>(before: Entries, last: Configuration, t: ConfigurationType, parse: string -> T, c: T)
    requires UniqueKeys(before + [last]) && last.configurationType == t
    requires Faithful(Build(before, t, parse), before, t, parse, c)
    requires Build(before, t, parse) == map[] <==> NoneOf(before, t)
    requires NoneOf(before, t) || last.level == Global ==> parse(last.value) == c
    ensures Faithful(SetValue(Build(before, t, parse), last.level, parse(last.value)), before + [last], t, parse, c)
  {
    var m, list := Build(before, t, parse), before + [last];
    var set' := SetValue(m, last.level, parse(last.value));
    forall i | 0 <= i < |before| && before[i].configurationType == t ensures before[i].level != last.level {
      assert !Hit(list[|before|], list[i].level, list[i].configurationType);
    }
    assert list[|before|] == last && Hit(list[|before|], last.level, t);
    forall l | l in set' ensures l == Global || (set'[l] != c && exists i :: 0 <= i < |list| && Hit(list[i], l, t)) {
      if l != Global && l != last.level {
        var i :| 0 <= i < |before| && Hit(before[i], l, t);
        assert Hit(list[i], l, t);
      }
    }
  }

  lemma {:induction false} FirstIsNotStored<T>(list: Entries, t: ConfigurationType, parse: string -> T, f: nat)
    requires UniqueKeys(list) && IsFirst(list, t, f) && list[f].level != Global
    ensures Global in Build(list, t, parse) && list[f].level !in Build(list, t, parse)
    decreases |list|
  {
    var before := list[..|list| - 1];
    UniquePrefix(list, |list| - 1);
    BuildOfNothing(before, t, parse);
    if f < |list| - 1 {
      FirstIsNotStored(before, t, parse, f);
      assert !NoneOf(before, t) by { assert before[f].configurationType == t; }
      assert !Hit(list[|list| - 1], list[f].level, list[f].configurationType);
    }
  }

  lemma {:induction false} GlobalIsStored<T>(list: Entries, t: ConfigurationType, parse: string -> T, g: nat)
    requires UniqueKeys(list) && g < |list| && Hit(list[g], Global, t)
    ensures Global in Build(list, t, parse) && Build(list, t, parse)[Global] == parse(list[g].value)
    decreases |list|
  {
    var before := list[..|list| - 1];
    UniquePrefix(list, |list| - 1);
    BuildOfNothing(before, t, parse);
    if g < |list| - 1 {
      GlobalIsStored(before, t, parse, g);
      assert !Hit(list[|list| - 1], list[g].level, list[g].configurationType);
    }
  }

  /** The compressed view agrees with the store, at every level, exactly when the first entry of the type
      parses like the Global one. */
  lemma AgreementCondition<T(!new)>(list: Entries, t: ConfigurationType, parse: string -> T, default: T)
    requires UniqueKeys(list)
    ensures Agrees(list, t, parse, default) <==> FirstSpeaksForGlobal(list, t, parse)
  {
    if FirstSpeaksForGlobal(list, t, parse) {
      SteadyGlobalAgrees(list, t, parse, default);
    } else {
      var f, g :| IsFirst(list, t, f) && 0 <= g < |list| && Hit(list[g], Global, t)
                  && parse(list[f].value) != parse(list[g].value);
      assert f < g;
      assert !Hit(list[g], list[f].level, list[f].configurationType);
      FirstIsNotStored(list, t, parse, f);
      GlobalIsStored(list, t, parse, g);
      GetOfUniqueKey(list, f);
      assert Configured(list, list[f].level, t) == Some(list[f].value);
    }
  }

  lemma SteadyGlobalAgrees<T(!new)>(list: Entries, t: ConfigurationType, parse: string -> T, default: T)
    requires UniqueKeys(list) && FirstSpeaksForGlobal(list, t, parse)
    ensures Agrees(list, t, parse, default)
  {
    forall l | Configured(list, l, t).Some?
      ensures Lookup(Build(list, t, parse), l, default) == parse(Configured(list, l, t).value)
    {
      var owner := if Get(list, l, t).Some? then l else Global;
      var i := GetFindsHit(list, owner, t);
      GetOfUniqueKey(list, i);
      var f := FirstOfType(list, t, i);
      var c := parse(list[f].value);
      BuildIsFaithful(list, t, parse, c);
      if owner != l && l in Build(list, t, parse) {
        var j :| 0 <= j < |list| && Hit(list[j], l, t);
        GetOfUniqueKey(list, j);
      }
    }
  }

  lemma {:induction false} FirstOfType(list: Entries, t: ConfigurationType, i: nat) returns (f: nat)
    requires i < |list| && list[i].configurationType == t
    ensures IsFirst(list, t, f) && forall f' :: IsFirst(list, t, f') ==> f' == f
    decreases i
  {
    if j :| 0 <= j < i && list[j].configurationType == t {
      f := FirstOfType(list, t, j);
    } else {
      f := i;
    }
  }

  /** The types whose values `build` keeps level by level. */
  predicate KeptPerLevel(t: ConfigurationType) {
    t in {Enabled, ToFile, ToStandardOutput, MaxLogFileSize, LogFlushThreshold}
  }

  /** A store in which Global comes first agrees, for every level. */
  lemma CompleteStoreAgrees<T(!new)>(list: Entries, t: ConfigurationType, parse: string -> T, default: T, l: Level)
    requires Complete(list) && KeptPerLevel(t) && l != Unknown
    ensures Get(list, l, t).Some? && Lookup(Build(list, t, parse), l, default) == parse(Get(list, l, t).value)
  {
    GlobalSpeaksFirst(list, t, parse);
    SteadyGlobalAgrees(list, t, parse, default);
    assert Configured(list, l, t) == Get(list, l, t);
  }

  lemma GlobalSpeaksFirst<T>(list: Entries, t: ConfigurationType, parse: string -> T)
    requires Complete(list) && t != UnknownType
    ensures FirstSpeaksForGlobal(list, t, parse)
  {
    assert GlobalLeads(list, t);
    var g :| LeadsAt(list, t, g);
    forall f | IsFirst(list, t, f) ensures f == g {}
    forall h | 0 <= h < |list| && Hit(list[h], Global, t) ensures h == g {
      assert !(g < h) && !(h < g);
    }
  }

  /** The value that a run leaves at a level: the last one written to it, or else the default. */
  function ValueAfter(ws: seq<Write>, l: Level, t: ConfigurationType): string
    requires l != Unknown && t != UnknownType
  {
    if LastWritten(ws, l, t).Some? then LastWritten(ws, l, t).value else DefaultAt(l, t).value
  }

  /** After setToDefault and any run of writes whatsoever, looking up a level in the compressed map gives the
      parsed value last written to that level. */
  lemma EveryRunAgrees<T(!new)>(ws: seq<Write>, t: ConfigurationType, parse: string -> T, default: T, l: Level)
    requires KeptPerLevel(t) && l != Unknown
    ensures Lookup(Build(Run(DEFAULTS, ws), t, parse), l, default) == parse(ValueAfter(ws, l, t))
  {
    EveryRunIsComplete(ws);
    CompleteStoreAgrees(Run(DEFAULTS, ws), t, parse, default, l);
    RunLeavesLastWritten(ws, l, t);
  }

  /** The store in which Trace comes first does not agree: Trace is configured as false and read as true. */
  lemma TraceFirstDisagrees(default: bool)
    ensures Configured(Run([], TRACE_FIRST), Trace, Enabled) == Some("false") && !GetBool("false")
    ensures Lookup(Build(Run([], TRACE_FIRST), Enabled, GetBool), Trace, default)
    ensures !Agrees(Run([], TRACE_FIRST), Enabled, GetBool, default)
  {
    var list, g := TraceFirstStore();
    GetOfUniqueKey(list, 0);
    FirstIsNotStored(list, Enabled, GetBool, 0);
    GlobalIsStored(list, Enabled, GetBool, g);
    TrueAndFalse();
  }

  lemma TrueAndFalse()
    ensures GetBool("true") && !GetBool("false")
  {
    TrimNothing("true");
    TrimNothing("false");
  }

  // ---------- Formats ----------

  ghost predicate GlobalIsFirst(list: Entries, t: ConfigurationType) {
    forall f :: IsFirst(list, t, f) ==> list[f].level == Global
  }

  /** Formats of different levels are never the same, so that every level keeps its own. */
  ghost predicate FormatsKept(m: map<Level, LogFormat>, list: Entries) {
    && (NoneOf(list, Format) ==> m == map[])
    && (!NoneOf(list, Format) ==> Global in m && m[Global].level == Global)
    && forall i :: 0 <= i < |list| && list[i].configurationType == Format ==>
         list[i].level in m && m[list[i].level] == LogFormat(list[i].level, list[i].value)
  }

  lemma {:induction false} EveryFormatIsKept(list: Entries)
    requires UniqueKeys(list) && GlobalIsFirst(list, Format)
    ensures FormatsKept(BuildFormats(list), list)
    decreases |list|
  {
    if list != [] {
      var before, last := list[..|list| - 1], list[|list| - 1];
      assert list == before + [last];
      UniquePrefix(list, |list| - 1);
      PrefixIsGlobalFirst(list, before, last, Format);
      EveryFormatIsKept(before);
      if last.configurationType == Format {
        LaterIsNotGlobal(list, before, last);
        FormatIsKept(BuildFormats(before), before, last, list);
      } else {
        OtherIsSkipped(BuildFormats(before), before, last, list);
      }
    }
  }

  lemma PrefixIsGlobalFirst(list: Entries, before: Entries, last: Configuration, t: ConfigurationType)
    requires list == before + [last] && GlobalIsFirst(list, t)
    ensures GlobalIsFirst(before, t)
  {
    forall f | IsFirst(before, t, f) ensures before[f].level == Global {
      assert IsFirst(list, t, f) && list[f] == before[f];
    }
  }

  lemma OtherIsSkipped(m: map<Level, LogFormat>, before: Entries, last: Configuration, list: Entries)
    requires list == before + [last] && last.configurationType != Format && FormatsKept(m, before)
    ensures FormatsKept(m, list)
  {
    forall i | 0 <= i < |list| && list[i].configurationType == Format ensures i < |before| && list[i] == before[i] {}
    if !NoneOf(list, Format) {
      var i :| 0 <= i < |list| && list[i].configurationType == Format;
      assert before[i].configurationType == Format;
    } else {
      assert NoneOf(before, Format) by { assert forall i :: 0 <= i < |before| ==> before[i] == list[i]; }
    }
  }

  /** Of the formats only the first is Global's. */
  lemma LaterIsNotGlobal(list: Entries, before: Entries, last: Configuration)
    requires list == before + [last] && UniqueKeys(list) && GlobalIsFirst(list, Format) && last.configurationType == Format
    ensures NoneOf(before, Format) <==> last.level == Global
  {
    var n := |before|;
    assert list[n] == last;
    if NoneOf(before, Format) {
      assert IsFirst(list, Format, n);
    } else {
      var i :| 0 <= i < n && before[i].configurationType == Format;
      var f := FirstOfType(before, Format, i);
      assert IsFirst(list, Format, f) && list[f] == before[f];
      assert !Hit(list[n], list[f].level, list[f].configurationType);
    }
  }

  lemma FormatIsKept(m: map<Level, LogFormat>, before: Entries, last: Configuration, list: Entries)
    requires list == before + [last] && UniqueKeys(list) && last.configurationType == Format && FormatsKept(m, before)
    requires NoneOf(before, Format) <==> last.level == Global
    ensures FormatsKept(SetValue(m, last.level, LogFormat(last.level, last.value)), list)
  {
    var n := |before|;
    assert list[n] == last && !NoneOf(list, Format);
    forall i | 0 <= i < n && before[i].configurationType == Format ensures before[i].level != last.level {
      assert list[i] == before[i] && !Hit(list[n], list[i].level, list[i].configurationType);
    }
  }

  /** After setToDefault and any run of writes every level reads the format last written to it, made for that level. */
  lemma FormatAfterRun(ws: seq<Write>, l: Level, default: LogFormat)
    requires l != Unknown
    ensures Lookup(BuildFormats(Run(DEFAULTS, ws)), l, default) == LogFormat(l, ValueAfter(ws, l, Format))
  {
    var list := Run(DEFAULTS, ws);
    EveryRunIsComplete(ws);
    GlobalComesFirst(list, Format);
    EveryFormatIsKept(list);
    RunLeavesLastWritten(ws, l, Format);
    var i := GetFindsHit(list, l, Format);
    GetOfUniqueKey(list, i);
  }

  lemma GlobalComesFirst(list: Entries, t: ConfigurationType)
    requires Complete(list) && t != UnknownType
    ensures GlobalIsFirst(list, t)
  {
    assert GlobalLeads(list, t);
    var g :| LeadsAt(list, t, g);
    forall f | IsFirst(list, t, f) ensures f == g {}
  }

  // ---------- Files that cannot be opened ----------

  /** What decides about a file: the streams opened before, the name of Global's file, and the disk. */
  datatype Opening = Opening(references: map<string, Stream>, first: Option<string>, disk: Disk)

  function StreamOf(c: Configuration, o: Opening): Stream {
    StreamFor(c.level, o.disk.resolve(c.value), o.references, o.first, o.disk)
  }

  predicate FileFails(c: Configuration, o: Opening) {
    NamesFile(c) && StreamOf(c, o).NoStream?
  }

  /** Turning ToFile off at the levels whose file fails, in list order. */
  function FailFiles(m: map<Level, bool>, list: Entries, o: Opening): map<Level, bool> {
    if list == [] then m
    else
      var n, last := FailFiles(m, list[..|list| - 1], o), list[|list| - 1];
      if FileFails(last, o) then SetValue(n, last.level, false) else n
  }

  ghost predicate FailsAt(list: Entries, l: Level, o: Opening) {
    exists i :: 0 <= i < |list| && list[i].level == l && FileFails(list[i], o)
  }

  lemma FailsAtNext(list: Entries, l: Level, o: Opening)
    requires list != []
    ensures var last := list[|list| - 1];
            FailsAt(list, l, o) <==> FailsAt(list[..|list| - 1], l, o) || (last.level == l && FileFails(last, o))
  {
    var before := list[..|list| - 1];
    if i :| 0 <= i < |before| && before[i].level == l && FileFails(before[i], o) {
      assert list[i] == before[i];
    }
    if i :| 0 <= i < |list| && list[i].level == l && FileFails(list[i], o) {
      assert i < |before| ==> before[i] == list[i];
    }
  }

  /** While Global is off a failing file changes nothing. */
  lemma {:induction false} OffStaysOff(m: map<Level, bool>, list: Entries, o: Opening)
    requires Global in m && !m[Global]
    ensures FailFiles(m, list, o) == m
  {
    if list != [] {
      OffStaysOff(m, list[..|list| - 1], o);
    }
  }

  /** The map after failing files, where Global was on and every level of its own was off. */
  ghost predicate TurnedOff(n: map<Level, bool>, m: map<Level, bool>, list: Entries, o: Opening) {
    && Global in n && (n[Global] <==> !FailsAt(list, Global, o))
    && (forall l :: l in n && l != Global ==> !n[l] && (l in m || FailsAt(list, l, o)))
    && (forall l :: l in m ==> l in n)
    && (forall l :: FailsAt(list, l, o) ==> l in n || !n[Global])
  }

  lemma {:induction false} OnIsTurnedOff(m: map<Level, bool>, list: Entries, o: Opening)
    requires Global in m && m[Global] && forall l :: l in m && l != Global ==> !m[l]
    ensures TurnedOff(FailFiles(m, list, o), m, list, o)
  {
    if list != [] {
      OnIsTurnedOff(m, list[..|list| - 1], o);
      forall l ensures FailsAt(list, l, o) <==>
        FailsAt(list[..|list| - 1], l, o) || (list[|list| - 1].level == l && FileFails(list[|list| - 1], o))
      {
        FailsAtNext(list, l, o);
      }
    }
  }

  /** Which file fails does not depend on the files before it, apart from Global's. */
  lemma NextFailure(m: map<Level, bool>, list: Entries, o: Opening, before: Entries, c: Configuration)
    requires UniqueKeys(list) && GlobalOpensFirst(list, o.first, o.disk)
    requires list != [] && before == list[..|list| - 1] && c == list[|list| - 1]
    ensures ToFileStep(m, FilesAfter(FilesAtStart(o.references), before, o.disk), c, o.disk) ==
            if FileFails(c, o) then SetValue(m, c.level, false) else m
  {
    var files := FilesAfter(FilesAtStart(o.references), before, o.disk);
    if NamesFile(c) {
      assert Tracks(files, before, o.references, o.first, o.disk) by {
        UniquePrefix(list, |list| - 1);
        PrefixOpensFirst(list, o.first, o.disk);
        FilesTracked(before, o.references, o.first, o.disk);
      }
      InsertedTracks(files, list, o.references, o.first, o.disk, c, o.disk.resolve(c.value));
    }
  }

  lemma {:induction false} FailuresAreLocal(m: map<Level, bool>, list: Entries, o: Opening)
    requires UniqueKeys(list) && GlobalOpensFirst(list, o.first, o.disk)
    ensures ToFileAfter(m, FilesAtStart(o.references), list, o.disk) == FailFiles(m, list, o)
    decreases |list|
  {
    if list != [] {
      var before := list[..|list| - 1];
      UniquePrefix(list, |list| - 1);
      PrefixOpensFirst(list, o.first, o.disk);
      FailuresAreLocal(m, before, o);
      NextFailure(FailFiles(m, before, o), list, o, before, list[|list| - 1]);
    }
  }

  /** The name of Global's file, if it has one. */
  function GlobalFile(list: Entries, disk: Disk): Option<string> {
    var value := Get(list, Global, Filename);
    if value.Some? && value.value != "" then Some(disk.resolve(value.value)) else None
  }

  function OpeningOf(list: Entries, references: map<string, Stream>, disk: Disk): Opening {
    Opening(references, GlobalFile(list, disk), disk)
  }

  lemma GlobalFileIsFirst(list: Entries, disk: Disk)
    requires Complete(list)
    ensures GlobalOpensFirst(list, GlobalFile(list, disk), disk)
  {
    assert GlobalLeads(list, Filename);
    var g :| LeadsAt(list, Filename, g);
    GetOfUniqueKey(list, g);
    forall i | 0 <= i < |list| && NamesFile(list[i])
      ensures if list[i].level == Global then GlobalFile(list, disk) == Some(disk.resolve(list[i].value))
              else GlobalFile(list, disk).Some? ==> HasFile(list[..i], Global)
    {
      GetOfUniqueKey(list, i);
      assert list[i].level != Global ==> g < i && list[..i][g] == list[g];
    }
  }

  /** What a level reads of ToFile once the files were tried: a failure turns it off at its own level, or
      everywhere if the file is Global's, but only while Global is configured on. */
  lemma ToFileReads(list: Entries, references: map<string, Stream>, disk: Disk, default: bool, l: Level)
    requires Complete(list) && l != Unknown
    ensures Get(list, l, ToFile).Some? && Get(list, Global, ToFile).Some?
    ensures var own, all, o := GetBool(Get(list, l, ToFile).value), GetBool(Get(list, Global, ToFile).value),
                               OpeningOf(list, references, disk);
            Lookup(ToFileAfter(Build(list, ToFile, GetBool), FilesAtStart(references), list, disk), l, default) <==>
            own && (all ==> !FailsAt(list, l, o) && !FailsAt(list, Global, o))
  {
    var m, o := Build(list, ToFile, GetBool), OpeningOf(list, references, disk);
    CompleteStoreAgrees(list, ToFile, GetBool, default, l);
    CompleteStoreAgrees(list, ToFile, GetBool, default, Global);
    GlobalFileIsFirst(list, disk);
    FailuresAreLocal(m, list, o);
    var g := GetFindsHit(list, Global, ToFile);
    GlobalIsStored(list, ToFile, GetBool, g);
    if m[Global] {
      DifferentOnly(list, ToFile, GetBool);
      OnIsTurnedOff(m, list, o);
    } else {
      OffStaysOff(m, list, o);
    }
  }

  /** The map keeps a level only where it differs from Global. */
  lemma DifferentOnly<T(!new)>(list: Entries, t: ConfigurationType, parse: string -> T)
    requires Complete(list) && t != UnknownType
    ensures var m := Build(list, t, parse); Global in m && forall l :: l in m && l != Global ==> m[l] != m[Global]
  {
    assert GlobalLeads(list, t);
    var g :| LeadsAt(list, t, g);
    GlobalSpeaksFirst(list, t, parse);
    GlobalIsStored(list, t, parse, g);
    BuildIsFaithful(list, t, parse, parse(list[g].value));
  }

  // ---------- When setValue takes effect ----------

  /** Writing a level is read back unless Global has that value already and the level has another one. */
  lemma SetValueCondition<T>(m: map<Level, T>, l: Level, v: T, default: T)
    ensures Lookup(SetValue(m, l, v), l, default) == v <==>
            !(Global in m && m[Global] == v) || l !in m || m[l] == v
  {}

  /** A store from which `build` makes such a map: ToFile off for Global and on for Info. */
  const INFO_TO_FILE: seq<Write> := [Set(Global, ToFile, "false"), Set(Info, ToFile, "true")]

  lemma FailureIsDropped(default: bool)
    ensures var m := Build(Run(DEFAULTS, INFO_TO_FILE), ToFile, GetBool);
            Lookup(m, Info, default) && Lookup(SetValue(m, Info, false), Info, default)
  {
    var ws := INFO_TO_FILE;
    assert LastWritten(ws, Info, ToFile) == Some("true");
    assert ws[..1] == [Set(Global, ToFile, "false")] && LastWritten(ws[..1], Global, ToFile) == Some("false");
    assert LastWritten(ws, Global, ToFile) == Some("false");
    EveryRunAgrees(ws, ToFile, GetBool, default, Info);
    EveryRunAgrees(ws, ToFile, GetBool, default, Global);
    EveryRunIsComplete(ws);
    DifferentOnly(Run(DEFAULTS, ws), ToFile, GetBool);
    TrueAndFalse();
  }

  // ---------- The types stored at Global only ----------

  /** For SubsecondPrecision and PerformanceTracking the last entry of the store decides for every level,
      Global's own entry notwithstanding. */
  lemma {:induction false} LastEntryDecides<T>(list: Entries, t: ConfigurationType, parse: string -> T, i: nat)
    requires LastAt(list, t, i)
    ensures BuildGlobal(list, t, parse) == map[Global := parse(list[i].value)]
    decreases |list|
  {
    var n := |list| - 1;
    if i < n {
      LastEntryDecides(list[..n], t, parse, i);
    } else {
      GlobalIsOnlyKey(list[..n], t, parse);
    }
  }

  lemma {:induction false} GlobalIsOnlyKey<T>(list: Entries, t: ConfigurationType, parse: string -> T)
    ensures BuildGlobal(list, t, parse).Keys <= {Global}
  {
    if list != [] {
      GlobalIsOnlyKey(list[..|list| - 1], t, parse);
    }
  }

  /** After setToDefault and any run of writes every level reads what Info is configured as, or Unknown where
      somebody wrote that. */
  lemma CloserDecides<T>(ws: seq<Write>, t: ConfigurationType, parse: string -> T, default: T, l: Level)
    requires t != UnknownType
    ensures var list := Run(DEFAULTS, ws);
            var value := Get(list, Closer(list, t), t);
            value.Some? && Lookup(BuildGlobal(list, t, parse), l, default) == parse(value.value)
  {
    var list := Run(DEFAULTS, ws);
    EveryRunIsClosed(ws, t);
    EveryRunIsComplete(ws);
    var i :| LastAt(list, t, i) && list[i].level == Closer(list, t);
    LastEntryDecides(list, t, parse, i);
    GetOfUniqueKey(list, i);
  }

  /** So a level reads its own value, and all levels read Global's as documented, exactly where those parse like
      the value that was last written to Info. */
  lemma OwnValueCondition<T>(ws: seq<Write>, t: ConfigurationType, parse: string -> T, default: T, l: Level)
    requires t != UnknownType && l != Unknown && Get(Run(DEFAULTS, ws), Unknown, t).None?
    ensures Lookup(BuildGlobal(Run(DEFAULTS, ws), t, parse), l, default) == parse(ValueAfter(ws, l, t)) <==>
            parse(ValueAfter(ws, l, t)) == parse(ValueAfter(ws, Info, t))
    ensures Lookup(BuildGlobal(Run(DEFAULTS, ws), t, parse), l, default) == parse(ValueAfter(ws, Global, t)) <==>
            parse(ValueAfter(ws, Global, t)) == parse(ValueAfter(ws, Info, t))
  {
    CloserDecides(ws, t, parse, default, l);
    RunLeavesLastWritten(ws, Info, t);
  }

  /** One write at Info changes the precision that Global and every other level read. */
  const INFO_PRECISION: seq<Write> := [Set(Info, SubsecondPrecision, "6")]

  lemma InfoOverrulesGlobal(default: Timestamps.SubsecondPrecision, l: Level)
    ensures Get(Run(DEFAULTS, INFO_PRECISION), Global, SubsecondPrecision) == Some("3")
    ensures GetPrecision("3").width == 3
    ensures Lookup(BuildGlobal(Run(DEFAULTS, INFO_PRECISION), SubsecondPrecision, GetPrecision), l, default).width == 6
  {
    InfoPrecisionValues();
    PrecisionAfter(INFO_PRECISION, default, l);
    PrecisionOfDigit("3", 3);
    PrecisionOfDigit("6", 6);
  }

  lemma InfoPrecisionValues()
    ensures ValueAfter(INFO_PRECISION, Global, SubsecondPrecision) == "3"
    ensures ValueAfter(INFO_PRECISION, Info, SubsecondPrecision) == "6"
  {
    var ws := INFO_PRECISION;
    assert ws[..0] == [] && LastWritten(ws[..0], Global, SubsecondPrecision) == None;
    assert LastWritten(ws, Global, SubsecondPrecision) == None && LastWritten(ws, Info, SubsecondPrecision) == Some("6");
  }

  lemma PrecisionAfter(ws: seq<Write>, default: Timestamps.SubsecondPrecision, l: Level)
    requires forall i :: 0 <= i < |ws| ==> ws[i].Set? && ws[i].level != Unknown
    ensures Get(Run(DEFAULTS, ws), Global, SubsecondPrecision) == Some(ValueAfter(ws, Global, SubsecondPrecision))
    ensures Lookup(BuildGlobal(Run(DEFAULTS, ws), SubsecondPrecision, GetPrecision), l, default) ==
            GetPrecision(ValueAfter(ws, Info, SubsecondPrecision))
  {
    var list := Run(DEFAULTS, ws);
    assert Get(list, Global, SubsecondPrecision) == Some(ValueAfter(ws, Global, SubsecondPrecision)) by {
      RunLeavesLastWritten(ws, Global, SubsecondPrecision);
    }
    assert Get(list, Info, SubsecondPrecision) == Some(ValueAfter(ws, Info, SubsecondPrecision)) by {
      RunLeavesLastWritten(ws, Info, SubsecondPrecision);
    }
    assert Closer(list, SubsecondPrecision) == Info by { UnknownIsNotWritten(ws, SubsecondPrecision); }
    CloserDecides(ws, SubsecondPrecision, GetPrecision, default, l);
  }

  /** Only writes at Unknown put an entry there. */
  lemma {:induction false} UnknownIsNotWritten(ws: seq<Write>, t: ConfigurationType)
    requires forall i :: 0 <= i < |ws| ==> ws[i].Set? && ws[i].level != Unknown
    ensures Get(Run(DEFAULTS, ws), Unknown, t).None?
    decreases |ws|
  {
    if ws == [] {
      DefaultsRead(Unknown, t);
    } else {
      var before, w := ws[..|ws| - 1], ws[|ws| - 1];
      UnknownIsNotWritten(before, t);
      GetAfterSet(Run(DEFAULTS, before), w.level, w.kind, w.value, Unknown, t);
    }
  }

  lemma PrecisionOfDigit(s: string, n: nat)
    requires 1 <= n <= 6 && s == [('0' as int + n) as char]
    ensures GetPrecision(s).width == n
  {
    TrimNothing(s);
    assert s[..0] == "" && DecimalValue("") == 0 && DecimalValue(s) == n;
  }

  // ---------- The whole object ----------

  /** The name of the file last configured for a level, with its date filled in. */
  function FileAfter(ws: seq<Write>, l: Level, disk: Disk): Option<string>
    requires l != Unknown
  {
    var value := ValueAfter(ws, l, Filename);
    if value == "" then None else Some(disk.resolve(value))
  }

  /** The stream that a level gets for its file. */
  function StreamAfter(ws: seq<Write>, l: Level, references: map<string, Stream>, disk: Disk): Stream
    requires l != Unknown && FileAfter(ws, l, disk).Some?
  {
    var name := FileAfter(ws, l, disk).value;
    if name in references then references[name]
    else if disk.opens(name) && (l == Global || FileAfter(ws, Global, disk) != Some(name)) then Open(name)
    else NoStream
  }

  /** The level names a file and gets no stream for it. */
  predicate Unopened(ws: seq<Write>, l: Level, references: map<string, Stream>, disk: Disk)
    requires l != Unknown
  {
    FileAfter(ws, l, disk).Some? && StreamAfter(ws, l, references, disk).NoStream?
  }

  /** What a level reads of ToFile: on where it is configured on and, while Global is on too, both have their streams. */
  predicate LogsToFile(ws: seq<Write>, l: Level, references: map<string, Stream>, disk: Disk)
    requires l != Unknown
  {
    && GetBool(ValueAfter(ws, l, ToFile))
    && (GetBool(ValueAfter(ws, Global, ToFile)) ==>
          !Unopened(ws, l, references, disk) && !Unopened(ws, Global, references, disk))
  }

  /** The stream that a level reads: its own, if it names a file. Global's is null whether its file opens or not. */
  function StreamRead(ws: seq<Write>, l: Level, references: map<string, Stream>, disk: Disk): Stream
    requires l != Unknown
  {
    if l != Global && FileAfter(ws, l, disk).Some? then StreamAfter(ws, l, references, disk) else NoStream
  }

  /** The one entry that names the file of a level. */
  lemma FileEntry(ws: seq<Write>, l: Level) returns (i: nat)
    requires l != Unknown
    ensures var list := Run(DEFAULTS, ws);
            i < |list| && Hit(list[i], l, Filename) && list[i].value == ValueAfter(ws, l, Filename)
            && forall j :: 0 <= j < |list| && Hit(list[j], l, Filename) ==> j == i
  {
    var list := Run(DEFAULTS, ws);
    EveryRunIsComplete(ws);
    RunLeavesLastWritten(ws, l, Filename);
    i := GetFindsHit(list, l, Filename);
    GetOfUniqueKey(list, i);
    forall j | 0 <= j < |list| && Hit(list[j], l, Filename) ensures j == i {
      assert !(i < j) && !(j < i);
    }
  }

  lemma GlobalFileAfter(ws: seq<Write>, disk: Disk)
    ensures GlobalFile(Run(DEFAULTS, ws), disk) == FileAfter(ws, Global, disk)
  {
    RunLeavesLastWritten(ws, Global, Filename);
  }

  lemma UnopenedIsFailsAt(ws: seq<Write>, l: Level, references: map<string, Stream>, disk: Disk)
    requires l != Unknown
    ensures var list := Run(DEFAULTS, ws);
            Unopened(ws, l, references, disk) <==> FailsAt(list, l, OpeningOf(list, references, disk))
  {
    var i := FileEntry(ws, l);
    GlobalFileAfter(ws, disk);
  }

  lemma ToFileAfterRun(ws: seq<Write>, references: map<string, Stream>, disk: Disk, default: bool, l: Level)
    requires l != Unknown
    ensures var list := Run(DEFAULTS, ws);
            Lookup(ToFileAfter(Build(list, ToFile, GetBool), FilesAtStart(references), list, disk), l, default) <==>
            LogsToFile(ws, l, references, disk)
  {
    EveryRunIsComplete(ws);
    RunLeavesLastWritten(ws, l, ToFile);
    RunLeavesLastWritten(ws, Global, ToFile);
    UnopenedIsFailsAt(ws, l, references, disk);
    UnopenedIsFailsAt(ws, Global, references, disk);
    ToFileReads(Run(DEFAULTS, ws), references, disk, default, l);
  }

  /** The main theorem: after setToDefault, any run of writes and `build`, every level reads, of each type that is
      kept per level, the parsed value last written to it, and ToFile as far as its file could be had. */
  lemma BuiltObjectAgrees(tc: TypedConfigurations, ws: seq<Write>, references: map<string, Stream>, disk: Disk, l: Level)
    requires tc.BuiltFrom(Run(DEFAULTS, ws), references, disk) && l != Unknown
    ensures forall d :: Lookup(tc.enabledMap, l, d) == GetBool(ValueAfter(ws, l, Enabled))
    ensures forall d :: Lookup(tc.toStandardOutputMap, l, d) == GetBool(ValueAfter(ws, l, ToStandardOutput))
    ensures forall d :: Lookup(tc.maxLogFileSizeMap, l, d) == GetULong(ValueAfter(ws, l, MaxLogFileSize))
    ensures forall d :: Lookup(tc.logFlushThresholdMap, l, d) == GetULong(ValueAfter(ws, l, LogFlushThreshold))
    ensures forall d :: Lookup(tc.logFormatMap, l, d) == LogFormat(l, ValueAfter(ws, l, Format))
    ensures forall d :: Lookup(tc.toFileMap, l, d) <==> LogsToFile(ws, l, references, disk)
  {
    forall d ensures Lookup(tc.enabledMap, l, d) == GetBool(ValueAfter(ws, l, Enabled)) {
      EveryRunAgrees(ws, Enabled, GetBool, d, l);
    }
    forall d ensures Lookup(tc.toStandardOutputMap, l, d) == GetBool(ValueAfter(ws, l, ToStandardOutput)) {
      EveryRunAgrees(ws, ToStandardOutput, GetBool, d, l);
    }
    forall d ensures Lookup(tc.maxLogFileSizeMap, l, d) == GetULong(ValueAfter(ws, l, MaxLogFileSize)) {
      EveryRunAgrees(ws, MaxLogFileSize, GetULong, d, l);
    }
    forall d ensures Lookup(tc.logFlushThresholdMap, l, d) == GetULong(ValueAfter(ws, l, LogFlushThreshold)) {
      EveryRunAgrees(ws, LogFlushThreshold, GetULong, d, l);
    }
    forall d: LogFormat { FormatAfterRun(ws, l, d); }
    forall d: bool { ToFileAfterRun(ws, references, disk, d, l); }
  }

  lemma EntryDecides(files: Files, list: Entries, o: Opening, i: nat, l: Level)
    requires Tracks(files, list, o.references, o.first, o.disk) && i < |list| && Hit(list[i], l, Filename)
    requires forall j :: 0 <= j < |list| && Hit(list[j], l, Filename) ==> j == i
    ensures Global in files.streams && files.streams[Global].NoStream?
    ensures l in files.names <==> list[i].value != ""
    ensures l != Global ==> (l in files.streams <==> list[i].value != "")
    ensures l in files.names ==> files.names[l] == o.disk.resolve(list[i].value)
    ensures l != Global && l in files.streams ==>
              files.streams[l] == Recorded(o.disk.resolve(list[i].value), o.references, o.first, o.disk)
  {
    assert HasFile(list, l) <==> NamesFile(list[i]);
    if list[i].value != "" {
      assert EntryTracked(files, list[i], o.references, o.first, o.disk);
    }
  }

  lemma FilesAfterRun(ws: seq<Write>, references: map<string, Stream>, disk: Disk, l: Level, files: Files)
    requires l != Unknown && files == FilesAfter(FilesAtStart(references), Run(DEFAULTS, ws), disk)
    ensures Global in files.streams && files.streams[Global].NoStream?
    ensures l in files.names <==> FileAfter(ws, l, disk).Some?
    ensures l != Global ==> (l in files.streams <==> FileAfter(ws, l, disk).Some?)
    ensures l in files.names ==> Some(files.names[l]) == FileAfter(ws, l, disk)
    ensures l != Global && l in files.streams ==> files.streams[l] == StreamAfter(ws, l, references, disk)
  {
    var list, o := Run(DEFAULTS, ws), Opening(references, FileAfter(ws, Global, disk), disk);
    assert Tracks(files, list, o.references, o.first, o.disk) by {
      EveryRunIsComplete(ws);
      GlobalFileIsFirst(list, disk);
      GlobalFileAfter(ws, disk);
      FilesTracked(list, references, o.first, disk);
    }
    var i := FileEntry(ws, l);
    EntryDecides(files, list, o, i, l);
  }

  /** The file that a level reads from the object: its own name and stream where it has one, and otherwise Global's name
      and a null stream. */
  lemma BuiltObjectFiles(tc: TypedConfigurations, ws: seq<Write>, references: map<string, Stream>, disk: Disk, l: Level)
    requires tc.BuiltFrom(Run(DEFAULTS, ws), references, disk) && l != Unknown
    ensures forall d :: Lookup(tc.fileStreamMap, l, d) == StreamRead(ws, l, references, disk)
    ensures forall d :: Lookup(tc.filenameMap, l, d) ==
              if FileAfter(ws, l, disk).Some? then FileAfter(ws, l, disk).value
              else if FileAfter(ws, Global, disk).Some? then FileAfter(ws, Global, disk).value
              else d
  {
    FilesAfterRun(ws, references, disk, l, tc.FileMaps());
    FilesAfterRun(ws, references, disk, Global, tc.FileMaps());
  }

  /** A level other than Global that names a file and reads ToFile as on has a stream to write to, unless Global is
      configured off: then nobody notices that the stream is missing. */
  lemma StreamCondition(ws: seq<Write>, references: map<string, Stream>, disk: Disk, l: Level)
    requires l != Unknown && l != Global && FileAfter(ws, l, disk).Some?
    ensures (LogsToFile(ws, l, references, disk) ==> StreamRead(ws, l, references, disk).Open?) <==>
            !(GetBool(ValueAfter(ws, l, ToFile)) && !GetBool(ValueAfter(ws, Global, ToFile)) && Unopened(ws, l, references, disk))
  {}

  /** Naming a file for Global that can be opened leaves Global on and turns all other levels off: they share the name
      under which Global has recorded a null stream. */
  lemma GlobalFileTurnsOthersOff(file: string, references: map<string, Stream>, disk: Disk, l: Level)
    requires file != "" && disk.resolve(file) !in references && disk.opens(disk.resolve(file)) && l != Unknown
    ensures var ws := [Set(Global, Filename, file)];
            && (LogsToFile(ws, l, references, disk) <==> l == Global)
            && StreamRead(ws, l, references, disk) == NoStream
  {
    var ws := [Set(Global, Filename, file)];
    OneWrite(ws, l);
    OneWrite(ws, Global);
    TrueAndFalse();
  }

  /** Naming it for all levels but Global keeps every level on, with one stream for all. */
  lemma LevelFilesAreShared(file: string, references: map<string, Stream>, disk: Disk, l: Level)
    requires file != "" && disk.resolve(file) !in references && disk.opens(disk.resolve(file)) && l != Unknown
    ensures var ws := [SetGlobally(Filename, file, false)];
            && LogsToFile(ws, l, references, disk)
            && StreamRead(ws, l, references, disk) == if l == Global then NoStream else Open(disk.resolve(file))
  {
    var ws := [SetGlobally(Filename, file, false)];
    OneWrite(ws, l);
    OneWrite(ws, Global);
    TrueAndFalse();
  }

  /** After one write of a file name everything else reads its default. */
  lemma OneWrite(ws: seq<Write>, l: Level)
    requires |ws| == 1 && l != Unknown
    ensures ValueAfter(ws, l, Filename) == if Written(ws[0], l, Filename).Some? then Written(ws[0], l, Filename).value else ""
    ensures Written(ws[0], l, ToFile).None? ==> ValueAfter(ws, l, ToFile) == "true"
  {
    assert ws[..0] == [];
    assert LastWritten(ws[..0], l, Filename) == None && LastWritten(ws[..0], l, ToFile) == None;
  }

  /** And the two types kept at Global only: every level reads what Info's entry says. */
  lemma BuiltObjectReadsInfo(tc: TypedConfigurations, ws: seq<Write>, references: map<string, Stream>, disk: Disk, l: Level)
    requires tc.BuiltFrom(Run(DEFAULTS, ws), references, disk)
    requires Get(Run(DEFAULTS, ws), Unknown, SubsecondPrecision).None?
    requires Get(Run(DEFAULTS, ws), Unknown, PerformanceTracking).None?
    ensures forall d :: Lookup(tc.subsecondPrecisionMap, l, d) == GetPrecision(ValueAfter(ws, Info, SubsecondPrecision))
    ensures forall d :: Lookup(tc.performanceTrackingMap, l, d) == GetBool(ValueAfter(ws, Info, PerformanceTracking))
  {
    RunLeavesLastWritten(ws, Info, SubsecondPrecision);
    RunLeavesLastWritten(ws, Info, PerformanceTracking);
    forall d { CloserDecides(ws, SubsecondPrecision, GetPrecision, d, l); }
    forall d { CloserDecides(ws, PerformanceTracking, GetBool, d, l); }
  }
}
