/**
 The configuration store of external/easylogging++/easylogging++.cc: a list of entries keyed by level
 and type, in which a write to Level::Global fans out to every other level.
 */
module ConfigurationStore {

  import opened Levels
  import opened Options

  datatype ConfigurationType =
    | Enabled | ToFile | ToStandardOutput | Format | Filename | SubsecondPrecision
    | PerformanceTracking | MaxLogFileSize | LogFlushThreshold | UnknownType

  datatype Configuration = Configuration(level: Level, configurationType: ConfigurationType, value: string)

  type Entries = seq<Configuration>

  // ---------- Lookup and update ----------

  /** Configuration::Predicate */
  predicate Hit(c: Configuration, level: Level, kind: ConfigurationType) {
    c.level == level && c.configurationType == kind
  }

  ghost predicate NoHit(list: Entries, level: Level, kind: ConfigurationType) {
    forall i :: 0 <= i < |list| ==> !Hit(list[i], level, kind)
  }

  /** The value of the first hit. */
  function Get(list: Entries, level: Level, kind: ConfigurationType): Option<string> {
    if list == [] then None
    else if Hit(list[0], level, kind) then Some(list[0].value)
    else Get(list[1..], level, kind)
  }

  /** Writing one entry: in place where the key is known, at the end where it is new. */
  function Put(list: Entries, level: Level, kind: ConfigurationType, value: string): Entries {
    if list == [] then [Configuration(level, kind, value)]
    else if Hit(list[0], level, kind) then [list[0].(value := value)] + list[1..]
    else [list[0]] + Put(list[1..], level, kind, value)
  }

  /** Level::Trace shifted left `k` times, as forEachLevel does. */
  function Shifted(k: nat): nat {
    if k == 0 then 2 else 2 * Shifted(k - 1)
  }

  function CastFromInt(i: nat): Level {
    match i
    case 1 => Global
    case 2 => Trace
    case 4 => Debug
    case 8 => Fatal
    case 16 => Error
    case 32 => Warning
    case 64 => Verbose
    case 128 => Info
    case _ => Unknown
  }

  /** Writing the first `k` of the seven levels that forEachLevel visits. */
  function FanOut(list: Entries, k: nat, kind: ConfigurationType, value: string): Entries {
    if k == 0 then list
    else Put(FanOut(list, k - 1, kind, value), CastFromInt(Shifted(k - 1)), kind, value)
  }

  function SetEntry(list: Entries, level: Level, kind: ConfigurationType, value: string): Entries {
    var put := Put(list, level, kind, value);
    if level == Global then FanOut(put, 7, kind, value) else put
  }

  function SetGloballyEntries(list: Entries, kind: ConfigurationType, value: string, includeGlobalLevel: bool): Entries {
    if includeGlobalLevel then SetEntry(list, Global, kind, value) else FanOut(list, 7, kind, value)
  }

  function SetEntryIfMissing(list: Entries, level: Level, kind: ConfigurationType, value: string): Entries {
    if Get(list, level, kind).None? then SetEntry(list, level, kind, value) else list
  }

  /** Writing every entry of `base`, in its order. */
  function Overlay(list: Entries, base: Entries): Entries {
    if base == [] then list
    else
      var last := base[|base| - 1];
      SetEntry(Overlay(list, base[..|base| - 1]), last.level, last.configurationType, last.value)
  }

  const DEFAULT_LOG_FILE := ""
  const DEFAULT_FORMAT := "%datetime %level [%logger] %msg"
  const DEFAULT_DEBUG_FORMAT := "%datetime %level [%logger] [%user@%host] [%func] [%loc] %msg"
  const DEFAULT_VERBOSE_FORMAT := "%datetime %level-%vlevel [%logger] %msg"
  const DEFAULT_TRACE_FORMAT := "%datetime %level [%logger] [%func] [%loc] %msg"

  /** The types in the order in which setToDefault writes them globally. */
  const DEFAULTED: seq<ConfigurationType> :=
    [Enabled, Filename, ToFile, ToStandardOutput, SubsecondPrecision, PerformanceTracking, MaxLogFileSize,
     LogFlushThreshold, Format]

  function DefaultValue(kind: ConfigurationType): string {
    match kind
    case Filename => DEFAULT_LOG_FILE
    case SubsecondPrecision => "3"
    case MaxLogFileSize => "0"
    case LogFlushThreshold => "0"
    case Format => DEFAULT_FORMAT
    case _ => "true"
  }

  /** Writing the defaults of `kinds` globally, in order. */
  function GlobalDefaults(list: Entries, kinds: seq<ConfigurationType>): Entries
    decreases kinds, list
  {
    if kinds == [] then list
    else GlobalDefaults(SetGloballyEntries(list, kinds[0], DefaultValue(kinds[0]), true), kinds[1..])
  }

  /** The five formats that differ from the global one or are written again. */
  function FormatDefaults(list: Entries): Entries {
    var list := SetEntry(list, Debug, Format, DEFAULT_DEBUG_FORMAT);
    var list := SetEntry(list, Error, Format, DEFAULT_FORMAT);
    var list := SetEntry(list, Fatal, Format, DEFAULT_FORMAT);
    var list := SetEntry(list, Verbose, Format, DEFAULT_VERBOSE_FORMAT);
    SetEntry(list, Trace, Format, DEFAULT_TRACE_FORMAT)
  }

  // ---------- What a write changes ----------

  lemma {:induction false} PutIsReadBack(list: Entries, level: Level, kind: ConfigurationType, value: string)
    ensures Get(Put(list, level, kind, value), level, kind) == Some(value)
  {
    if list != [] && !Hit(list[0], level, kind) {
      GetOfCons(list[0], Put(list[1..], level, kind, value), level, kind);
      PutIsReadBack(list[1..], level, kind, value);
    }
  }

  lemma HeadUpdateLeavesOtherKeys(list: Entries, value: string, l: Level, t: ConfigurationType)
    requires list != [] && !Hit(list[0], l, t)
    ensures Get([list[0].(value := value)] + list[1..], l, t) == Get(list, l, t)
  {}

  lemma {:induction false} PutLeavesOtherKeys(list: Entries, level: Level, kind: ConfigurationType, value: string,
                                              l: Level, t: ConfigurationType)
    requires l != level || t != kind
    ensures Get(Put(list, level, kind, value), l, t) == Get(list, l, t)
  {
    if list == [] {
      assert [Configuration(level, kind, value)][1..] == [];
    } else if Hit(list[0], level, kind) {
      HeadUpdateLeavesOtherKeys(list, value, l, t);
    } else {
      GetOfCons(list[0], Put(list[1..], level, kind, value), l, t);
      PutLeavesOtherKeys(list[1..], level, kind, value, l, t);
    }
  }

  lemma GetAfterPut(list: Entries, level: Level, kind: ConfigurationType, value: string, l: Level, t: ConfigurationType)
    ensures Get(Put(list, level, kind, value), l, t) ==
            if l == level && t == kind then Some(value) else Get(list, l, t)
  {
    if l == level && t == kind {
      PutIsReadBack(list, level, kind, value);
    } else {
      PutLeavesOtherKeys(list, level, kind, value, l, t);
    }
  }

  lemma GetOfCons(c: Configuration, rest: Entries, l: Level, t: ConfigurationType)
    ensures Get([c] + rest, l, t) == if Hit(c, l, t) then Some(c.value) else Get(rest, l, t)
  {}

  /** Where forEachLevel comes to a level; it never comes to Global or Unknown. */
  function Turn(level: Level): nat {
    match level
    case Trace => 0
    case Debug => 1
    case Fatal => 2
    case Error => 3
    case Warning => 4
    case Verbose => 5
    case Info => 6
    case _ => 7
  }

  lemma TurnOf(k: nat)
    requires k < 7
    ensures Shifted(k) <= 128 < Shifted(7)
    ensures Turn(CastFromInt(Shifted(k))) == k
  {}

  lemma {:induction false} GetAfterFanOut(list: Entries, k: nat, kind: ConfigurationType, value: string,
                                          l: Level, t: ConfigurationType)
    requires k <= 7
    ensures Get(FanOut(list, k, kind, value), l, t) ==
            if t == kind && Turn(l) < k then Some(value) else Get(list, l, t)
  {
    if k > 0 {
      var level := CastFromInt(Shifted(k - 1));
      GetAfterFanOut(list, k - 1, kind, value, l, t);
      TurnOf(k - 1);
      TurnIsUnique(level, l);
      GetAfterPut(FanOut(list, k - 1, kind, value), level, kind, value, l, t);
    }
  }

  lemma TurnIsUnique(a: Level, b: Level)
    ensures Turn(a) < 7 ==> (Turn(a) == Turn(b) <==> a == b)
  {}

  /** The levels that a write at `level` reaches. */
  predicate Reaches(level: Level, l: Level) {
    l == level || (level == Global && l != Unknown)
  }

  /** A write is read back at every level it reaches, and nowhere else. */
  lemma GetAfterSet(list: Entries, level: Level, kind: ConfigurationType, value: string, l: Level, t: ConfigurationType)
    ensures Get(SetEntry(list, level, kind, value), l, t) ==
            if t == kind && Reaches(level, l) then Some(value) else Get(list, l, t)
  {
    var put := Put(list, level, kind, value);
    GetAfterPut(list, level, kind, value, l, t);
    GetAfterFanOut(put, 7, kind, value, l, t);
  }

  /** Writing a missing key is read back at every level it reaches; writing one that is there changes nothing. */
  lemma GetAfterSetIfMissing(list: Entries, level: Level, kind: ConfigurationType, value: string, l: Level, t: ConfigurationType)
    ensures Get(SetEntryIfMissing(list, level, kind, value), l, t) ==
            if Get(list, level, kind) == None && t == kind && (l == level || (level == Global && l != Unknown)) then Some(value)
            else Get(list, l, t)
  {
    GetAfterSet(list, level, kind, value, l, t);
  }

  // ---------- What no write changes: the keys and their order ----------

  ghost predicate UniqueKeys(list: Entries) {
    forall i, j :: 0 <= i < j < |list| ==> !Hit(list[j], list[i].level, list[i].configurationType)
  }

  ghost predicate SameKey(c: Configuration, d: Configuration) {
    c.level == d.level && c.configurationType == d.configurationType
  }

  /** The keys of `list` stay where they are in `longer`, and the keys after them are new and of one type. */
  ghost predicate Extends(longer: Entries, list: Entries, kind: ConfigurationType) {
    && |list| <= |longer|
    && (forall i :: 0 <= i < |list| ==> SameKey(longer[i], list[i]))
    && (forall i :: |list| <= i < |longer| ==> longer[i].configurationType == kind)
    && (UniqueKeys(list) ==> UniqueKeys(longer))
  }

  lemma {:induction false} PutAtFirstHit(list: Entries, i: nat, level: Level, kind: ConfigurationType, value: string)
    requires i < |list| && NoHit(list[..i], level, kind) && Hit(list[i], level, kind)
    ensures Get(list, level, kind) == Some(list[i].value)
    ensures Put(list, level, kind, value) == list[i := list[i].(value := value)]
  {
    if i > 0 {
      var rest := list[1..];
      assert !Hit(list[0], level, kind) by { assert list[0] == list[..i][0]; }
      assert NoHit(rest[..i - 1], level, kind) by { assert rest[..i - 1] == list[..i][1..]; }
      PutAtFirstHit(rest, i - 1, level, kind, value);
      assert [list[0]] + rest[i - 1 := rest[i - 1].(value := value)] == list[i := list[i].(value := value)];
    }
  }

  lemma {:induction false} PutOfNewKey(list: Entries, level: Level, kind: ConfigurationType, value: string)
    requires NoHit(list, level, kind)
    ensures Get(list, level, kind) == None
    ensures Put(list, level, kind, value) == list + [Configuration(level, kind, value)]
  {
    if list != [] {
      PutOfNewKey(list[1..], level, kind, value);
    }
  }

  /** The first hit in a list, or its end. */
  ghost function FirstHit(list: Entries, level: Level, kind: ConfigurationType): (i: nat)
    ensures i <= |list| && NoHit(list[..i], level, kind) && (i < |list| ==> Hit(list[i], level, kind))
  {
    if list == [] || Hit(list[0], level, kind) then 0
    else
      var i := FirstHit(list[1..], level, kind);
      assert list[..i + 1] == [list[0]] + list[1..][..i];
      i + 1
  }

  lemma PutExtends(list: Entries, level: Level, kind: ConfigurationType, value: string)
    ensures Extends(Put(list, level, kind, value), list, kind)
  {
    var i := FirstHit(list, level, kind);
    if i < |list| {
      PutAtFirstHit(list, i, level, kind, value);
      UpdateExtends(list, i, value, kind);
    } else {
      assert list[..i] == list;
      PutOfNewKey(list, level, kind, value);
      AppendExtends(list, Configuration(level, kind, value));
    }
  }

  lemma AppendExtends(list: Entries, c: Configuration)
    requires NoHit(list, c.level, c.configurationType)
    ensures Extends(list + [c], list, c.configurationType)
  {}

  lemma UpdateExtends(list: Entries, i: nat, value: string, kind: ConfigurationType)
    requires i < |list|
    ensures Extends(list[i := list[i].(value := value)], list, kind)
  {}

  lemma ExtendsIsTransitive(longest: Entries, longer: Entries, list: Entries, kind: ConfigurationType)
    requires Extends(longest, longer, kind) && Extends(longer, list, kind)
    ensures Extends(longest, list, kind)
  {}

  lemma {:induction false} FanOutExtends(list: Entries, k: nat, kind: ConfigurationType, value: string)
    ensures Extends(FanOut(list, k, kind, value), list, kind)
  {
    if k > 0 {
      var before := FanOut(list, k - 1, kind, value);
      FanOutExtends(list, k - 1, kind, value);
      PutExtends(before, CastFromInt(Shifted(k - 1)), kind, value);
      ExtendsIsTransitive(FanOut(list, k, kind, value), before, list, kind);
    }
  }

  lemma SetExtends(list: Entries, level: Level, kind: ConfigurationType, value: string)
    ensures Extends(SetEntry(list, level, kind, value), list, kind)
  {
    var put := Put(list, level, kind, value);
    PutExtends(list, level, kind, value);
    FanOutExtends(put, 7, kind, value);
    if level == Global {
      ExtendsIsTransitive(FanOut(put, 7, kind, value), put, list, kind);
    }
  }

  // ---------- Repeated fan-out ----------

  lemma {:induction false} PutAgain(list: Entries, level: Level, kind: ConfigurationType, value: string)
    requires Get(list, level, kind) == Some(value)
    ensures Put(list, level, kind, value) == list
  {
    if !Hit(list[0], level, kind) {
      PutAgain(list[1..], level, kind, value);
    }
  }

  /** Fanning out a second time, as Configurations::set does, changes nothing. */
  lemma {:induction false} FanOutAgain(list: Entries, k: nat, kind: ConfigurationType, value: string)
    requires k <= 7 && forall l :: Turn(l) < 7 ==> Get(list, l, kind) == Some(value)
    ensures FanOut(list, k, kind, value) == list
  {
    if k > 0 {
      FanOutAgain(list, k - 1, kind, value);
      TurnOf(k - 1);
      PutAgain(list, CastFromInt(Shifted(k - 1)), kind, value);
    }
  }

  lemma FanOutTwice(list: Entries, kind: ConfigurationType, value: string)
    ensures FanOut(SetEntry(list, Global, kind, value), 7, kind, value) == SetEntry(list, Global, kind, value)
  {
    forall l | Turn(l) < 7 ensures Get(SetEntry(list, Global, kind, value), l, kind) == Some(value) {
      GetAfterSet(list, Global, kind, value, l, kind);
    }
    FanOutAgain(SetEntry(list, Global, kind, value), 7, kind, value);
  }

  // ---------- The class ----------

  class Configurations {
    var list: Entries

    constructor ()
      ensures list == []
    {
      list := [];
    }

    /** RegistryWithPred::get: the position of the first hit, or the end. */
    method Find(level: Level, kind: ConfigurationType) returns (i: nat)
      ensures i <= |list| && NoHit(list[..i], level, kind) && (i < |list| ==> Hit(list[i], level, kind))
    {
      i := 0;
      while i < |list| && !Hit(list[i], level, kind)
        invariant 0 <= i <= |list| && NoHit(list[..i], level, kind)
      {
        i := i + 1;
      }
    }

    method UnsafeSet(level: Level, kind: ConfigurationType, value: string)
      modifies this
      ensures list == SetEntry(old(list), level, kind, value)
      decreases if level == Global then 2 else 0
    {
      var i := Find(level, kind);
      if i == |list| {
        assert list[..i] == list;
        PutOfNewKey(list, level, kind, value);
        list := list + [Configuration(level, kind, value)];
      } else {
        PutAtFirstHit(list, i, level, kind, value);
        list := list[i := list[i].(value := value)];
      }
      if level == Global {
        UnsafeSetGlobally(kind, value, false);
      }
    }

    method UnsafeSetGlobally(kind: ConfigurationType, value: string, includeGlobalLevel: bool)
      modifies this
      ensures list == SetGloballyEntries(old(list), kind, value, includeGlobalLevel)
      decreases if includeGlobalLevel then 3 else 1
    {
      if includeGlobalLevel {
        UnsafeSet(Global, kind, value);
        FanOutTwice(old(list), kind, value);
      }
      ghost var start, k := list, 0;
      var lIndex := 2;
      while lIndex <= 128
        invariant 0 <= k <= 7 && lIndex == Shifted(k)
        invariant list == FanOut(start, k, kind, value)
        decreases 7 - k
      {
        TurnOf(if k < 7 then k else 0);
        UnsafeSet(CastFromInt(lIndex), kind, value);
        lIndex, k := lIndex * 2, k + 1;
      }
      TurnOf(if k < 7 then k else 0);
    }

    method Set(level: Level, kind: ConfigurationType, value: string)
      modifies this
      ensures list == SetEntry(old(list), level, kind, value)
    {
      UnsafeSet(level, kind, value);
      if level == Global {
        FanOutTwice(old(list), kind, value);
        UnsafeSetGlobally(kind, value, false);
      }
    }

    method SetGlobally(kind: ConfigurationType, value: string, includeGlobalLevel: bool)
      modifies this
      ensures list == SetGloballyEntries(old(list), kind, value, includeGlobalLevel)
    {
      if includeGlobalLevel {
        Set(Global, kind, value);
        FanOutTwice(old(list), kind, value);
      }
      ghost var start, k := list, 0;
      var lIndex := 2;
      while lIndex <= 128
        invariant 0 <= k <= 7 && lIndex == Shifted(k)
        invariant list == FanOut(start, k, kind, value)
        decreases 7 - k
      {
        TurnOf(if k < 7 then k else 0);
        Set(CastFromInt(lIndex), kind, value);
        lIndex, k := lIndex * 2, k + 1;
      }
      TurnOf(if k < 7 then k else 0);
    }

    method UnsafeSetIfNotExist(level: Level, kind: ConfigurationType, value: string)
      modifies this
      ensures list == SetEntryIfMissing(old(list), level, kind, value)
    {
      var i := Find(level, kind);
      if i == |list| {
        assert list[..i] == list;
        PutOfNewKey(list, level, kind, value);
        UnsafeSet(level, kind, value);
      } else {
        PutAtFirstHit(list, i, level, kind, value);
      }
    }

    method SetFromBase(base: Configurations?)
      modifies this
      ensures list == if base == null || base == this then old(list) else Overlay(old(list), old(base.list))
    {
      if base == null || base == this {
        return;
      }
      var i := 0;
      while i < |base.list|
        invariant 0 <= i <= |base.list| && base.list == old(base.list)
        invariant list == Overlay(old(list), base.list[..i])
      {
        var conf := base.list[i];
        assert base.list[..i + 1][..i] == base.list[..i];
        Set(conf.level, conf.configurationType, conf.value);
        i := i + 1;
      }
      assert base.list[..i] == base.list;
    }

    /** setToDefault, with the default log file of external/easylogging++/ea_config.h; its nine global
        writes are the table DEFAULTED. */
    method SetToDefault()
      modifies this
      ensures list == FormatDefaults(GlobalDefaults(old(list), DEFAULTED))
    {
      for k := 0 to |DEFAULTED|
        invariant GlobalDefaults(list, DEFAULTED[k..]) == GlobalDefaults(old(list), DEFAULTED)
      {
        assert DEFAULTED[k..][1..] == DEFAULTED[k + 1..];
        SetGlobally(DEFAULTED[k], DefaultValue(DEFAULTED[k]), true);
      }
      SetFormatDefaults();
    }

    method SetFormatDefaults()
      modifies this
      ensures list == FormatDefaults(old(list))
    {
      Set(Debug, Format, DEFAULT_DEBUG_FORMAT);
      Set(Error, Format, DEFAULT_FORMAT);
      Set(Fatal, Format, DEFAULT_FORMAT);
      Set(Verbose, Format, DEFAULT_VERBOSE_FORMAT);
      Set(Trace, Format, DEFAULT_TRACE_FORMAT);
    }
  }
}
