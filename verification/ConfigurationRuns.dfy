/**
 What every sequence of writes keeps in the configuration store, and what overlaying one store on
 another does (external/easylogging++/easylogging++.cc, Configurations::setFromBase).
 */
module ConfigurationRuns {

  import opened Levels
  import opened Options
  import opened ConfigurationStore

  // ---------- Lookup by position ----------

  lemma GetOfUniqueKey(list: Entries, i: nat)
    requires UniqueKeys(list) && i < |list|
    ensures Get(list, list[i].level, list[i].configurationType) == Some(list[i].value)
  {
    PutAtFirstHit(list, i, list[i].level, list[i].configurationType, "");
  }

  lemma GetFindsHit(list: Entries, level: Level, kind: ConfigurationType) returns (i: nat)
    requires Get(list, level, kind).Some?
    ensures i < |list| && Hit(list[i], level, kind)
  {
    i := FirstHit(list, level, kind);
    if i == |list| {
      assert list[..i] == list;
      PutOfNewKey(list, level, kind, "");
    }
  }

  // ---------- Overlaying ----------

  predicate Touches(c: Configuration, l: Level, t: ConfigurationType) {
    c.configurationType == t && Reaches(c.level, l)
  }

  /** Each level and type ends up with the last base entry that touches it. */
  lemma {:induction false} LastTouchWins(list: Entries, base: Entries, l: Level, t: ConfigurationType, i: nat)
    requires i < |base| && Touches(base[i], l, t)
    requires forall j :: i < j < |base| ==> !Touches(base[j], l, t)
    ensures Get(Overlay(list, base), l, t) == Some(base[i].value)
    decreases |base|
  {
    var last, before := base[|base| - 1], base[..|base| - 1];
    GetAfterSet(Overlay(list, before), last.level, last.configurationType, last.value, l, t);
    if i < |base| - 1 {
      LastTouchWins(list, before, l, t, i);
    }
  }

  lemma {:induction false} UntouchedIsKept(list: Entries, base: Entries, l: Level, t: ConfigurationType)
    requires forall j :: 0 <= j < |base| ==> !Touches(base[j], l, t)
    ensures Get(Overlay(list, base), l, t) == Get(list, l, t)
    decreases |base|
  {
    if base != [] {
      var last, before := base[|base| - 1], base[..|base| - 1];
      GetAfterSet(Overlay(list, before), last.level, last.configurationType, last.value, l, t);
      UntouchedIsKept(list, before, l, t);
    }
  }

  /** What an overlay should give: the base's own entry, else its Global entry, else the old value. */
  function Overlaid(list: Entries, base: Entries, l: Level, t: ConfigurationType): Option<string> {
    if Get(base, l, t).Some? then Get(base, l, t)
    else if l != Unknown && Get(base, Global, t).Some? then Get(base, Global, t)
    else Get(list, l, t)
  }

  /** No entry of the base is overwritten by a later Global entry with another value. */
  ghost predicate GlobalOverwritesNothing(base: Entries, t: ConfigurationType) {
    forall i, g | 0 <= i < g < |base| && base[i].configurationType == t && Hit(base[g], Global, t) ::
      base[i].level == Unknown || base[i].value == base[g].value
  }

  lemma OverlaidAt(list: Entries, base: Entries, l: Level, t: ConfigurationType)
    requires UniqueKeys(base) && GlobalOverwritesNothing(base, t)
    ensures Get(Overlay(list, base), l, t) == Overlaid(list, base, l, t)
  {
    if Get(base, l, t).Some? {
      var i := GetFindsHit(base, l, t);
      GetOfUniqueKey(base, i);
      if g :| i < g < |base| && Touches(base[g], l, t) {
        assert Hit(base[g], Global, t);
        LastTouchWins(list, base, l, t, g);
      } else {
        LastTouchWins(list, base, l, t, i);
      }
    } else if l != Unknown && Get(base, Global, t).Some? {
      var g := GetFindsHit(base, Global, t);
      GetOfUniqueKey(base, g);
      forall j | 0 <= j < |base| && Touches(base[j], l, t) ensures j == g { GetOfUniqueKey(base, j); }
      LastTouchWins(list, base, l, t, g);
    } else {
      forall j | 0 <= j < |base| ensures !Touches(base[j], l, t) { GetOfUniqueKey(base, j); }
      UntouchedIsKept(list, base, l, t);
    }
  }

  /** setFromBase is an exact overlay, at every level, exactly when no entry of the base comes before a
      Global entry of the same type and another value. */
  lemma OverlayIsExact(list: Entries, base: Entries, t: ConfigurationType)
    requires UniqueKeys(base)
    ensures (forall l :: Get(Overlay(list, base), l, t) == Overlaid(list, base, l, t))
            <==> GlobalOverwritesNothing(base, t)
  {
    if GlobalOverwritesNothing(base, t) {
      forall l ensures Get(Overlay(list, base), l, t) == Overlaid(list, base, l, t) {
        OverlaidAt(list, base, l, t);
      }
    } else {
      var i, g :| 0 <= i < g < |base| && base[i].configurationType == t && base[i].level != Unknown
                  && Hit(base[g], Global, t) && base[i].value != base[g].value;
      var l := base[i].level;
      forall j | g < j < |base| ensures !Touches(base[j], l, t) {
        assert !Hit(base[j], Global, t) && !Hit(base[j], l, t);
      }
      LastTouchWins(list, base, l, t, g);
      GetOfUniqueKey(base, i);
    }
  }

  // ---------- Runs of writes ----------

  datatype Write =
    | Set(level: Level, kind: ConfigurationType, value: string)
    | SetGlobally(kind: ConfigurationType, value: string, includeGlobalLevel: bool)
    | SetIfNotExist(level: Level, kind: ConfigurationType, value: string)
    | SetFromBase(base: Entries)

  /** The effect of a write, as the methods of Configurations state it. */
  function Apply(list: Entries, w: Write): Entries {
    match w
    case Set(level, kind, value) => SetEntry(list, level, kind, value)
    case SetGlobally(kind, value, includeGlobalLevel) => SetGloballyEntries(list, kind, value, includeGlobalLevel)
    case SetIfNotExist(level, kind, value) => SetEntryIfMissing(list, level, kind, value)
    case SetFromBase(base) => Overlay(list, base)
  }

  function Run(list: Entries, ws: seq<Write>): Entries {
    if ws == [] then list else Apply(Run(list, ws[..|ws| - 1]), ws[|ws| - 1])
  }

  /** The first entry of the type is the Global one. */
  ghost predicate GlobalLeads(list: Entries, t: ConfigurationType) {
    exists g :: LeadsAt(list, t, g)
  }

  ghost predicate LeadsAt(list: Entries, t: ConfigurationType, g: int) {
    0 <= g < |list| && Hit(list[g], Global, t) && forall i :: 0 <= i < g ==> list[i].configurationType != t
  }

  /** Every level has a value of every type, every key is unique, and Global leads every type. */
  ghost predicate Complete(list: Entries) {
    && UniqueKeys(list)
    && (forall t :: t != UnknownType ==> GlobalLeads(list, t))
    && (forall l, t :: l != Unknown && t != UnknownType ==> Get(list, l, t).Some?)
  }

  lemma LeadStays(list: Entries, longer: Entries, kind: ConfigurationType, t: ConfigurationType)
    requires Extends(longer, list, kind) && GlobalLeads(list, t)
    ensures GlobalLeads(longer, t)
  {
    var g :| LeadsAt(list, t, g);
    assert forall i :: 0 <= i <= g ==> SameKey(longer[i], list[i]);
    assert LeadsAt(longer, t, g);
  }

  lemma SetKeepsComplete(list: Entries, level: Level, kind: ConfigurationType, value: string)
    requires Complete(list)
    ensures Complete(SetEntry(list, level, kind, value))
  {
    SetExtends(list, level, kind, value);
    forall t | t != UnknownType ensures GlobalLeads(SetEntry(list, level, kind, value), t) {
      LeadStays(list, SetEntry(list, level, kind, value), kind, t);
    }
    forall l, t | l != Unknown && t != UnknownType ensures Get(SetEntry(list, level, kind, value), l, t).Some? {
      GetAfterSet(list, level, kind, value, l, t);
    }
  }

  lemma FanOutKeepsComplete(list: Entries, kind: ConfigurationType, value: string)
    requires Complete(list)
    ensures Complete(FanOut(list, 7, kind, value))
  {
    FanOutExtends(list, 7, kind, value);
    forall t | t != UnknownType ensures GlobalLeads(FanOut(list, 7, kind, value), t) {
      LeadStays(list, FanOut(list, 7, kind, value), kind, t);
    }
    forall l, t | l != Unknown && t != UnknownType ensures Get(FanOut(list, 7, kind, value), l, t).Some? {
      GetAfterFanOut(list, 7, kind, value, l, t);
    }
  }

  lemma {:induction false} OverlayKeepsComplete(list: Entries, base: Entries)
    requires Complete(list)
    ensures Complete(Overlay(list, base))
    decreases |base|
  {
    if base != [] {
      var last, before := base[|base| - 1], base[..|base| - 1];
      OverlayKeepsComplete(list, before);
      SetKeepsComplete(Overlay(list, before), last.level, last.configurationType, last.value);
    }
  }

  /** Whatever is written, from whatever base, a complete store stays complete. */
  lemma {:induction false} RunKeepsComplete(list: Entries, ws: seq<Write>)
    requires Complete(list)
    ensures Complete(Run(list, ws))
    decreases |ws|
  {
    if ws != [] {
      var before := Run(list, ws[..|ws| - 1]);
      RunKeepsComplete(list, ws[..|ws| - 1]);
      match ws[|ws| - 1]
      case Set(level, kind, value) => SetKeepsComplete(before, level, kind, value);
      case SetGlobally(kind, value, includeGlobalLevel) =>
        SetKeepsComplete(before, Global, kind, value);
        FanOutKeepsComplete(before, kind, value);
      case SetIfNotExist(level, kind, value) => SetKeepsComplete(before, level, kind, value);
      case SetFromBase(base) => OverlayKeepsComplete(before, base);
    }
  }

  // ---------- The defaults are complete ----------

  /** The store holds exactly the types in `done`, each led by Global and with a value at every level. */
  ghost predicate CompleteFor(list: Entries, done: set<ConfigurationType>) {
    && UniqueKeys(list)
    && (forall i :: 0 <= i < |list| ==> list[i].configurationType in done)
    && (forall t :: t in done ==> GlobalLeads(list, t))
    && (forall l, t :: l != Unknown && t in done ==> Get(list, l, t).Some?)
  }

  lemma NewTypeIsLed(list: Entries, kind: ConfigurationType, value: string)
    requires forall i :: 0 <= i < |list| ==> list[i].configurationType != kind
    ensures GlobalLeads(SetEntry(list, Global, kind, value), kind)
  {
    var put, all := Put(list, Global, kind, value), SetEntry(list, Global, kind, value);
    PutOfNewKey(list, Global, kind, value);
    assert LeadsAt(put, kind, |list|);
    FanOutExtends(put, 7, kind, value);
    LeadStays(put, all, kind, kind);
  }

  lemma GlobalDefaultCompletes(list: Entries, done: set<ConfigurationType>, kind: ConfigurationType, value: string)
    requires CompleteFor(list, done)
    ensures CompleteFor(SetGloballyEntries(list, kind, value, true), done + {kind})
  {
    var all := SetEntry(list, Global, kind, value);
    SetExtends(list, Global, kind, value);
    forall i | 0 <= i < |all| ensures all[i].configurationType in done + {kind} {
      if i < |list| { assert SameKey(all[i], list[i]); }
    }
    forall t | t in done + {kind} ensures GlobalLeads(all, t) {
      if t in done { LeadStays(list, all, kind, t); } else { NewTypeIsLed(list, kind, value); }
    }
    forall l, t | l != Unknown && t in done + {kind} ensures Get(all, l, t).Some? {
      GetAfterSet(list, Global, kind, value, l, t);
    }
  }

  lemma {:induction false} GlobalDefaultsComplete(list: Entries, done: set<ConfigurationType>, kinds: seq<ConfigurationType>)
    requires CompleteFor(list, done)
    ensures CompleteFor(GlobalDefaults(list, kinds), done + set t | t in kinds)
    decreases |kinds|
  {
    if kinds == [] {
      assert done + (set t | t in kinds) == done;
    } else {
      var value := DefaultValue(kinds[0]);
      GlobalDefaultCompletes(list, done, kinds[0], value);
      GlobalDefaultsComplete(SetGloballyEntries(list, kinds[0], value, true), done + {kinds[0]}, kinds[1..]);
      assert done + {kinds[0]} + (set t | t in kinds[1..]) == done + set t | t in kinds;
    }
  }

  lemma FormatDefaultsKeepComplete(list: Entries)
    requires Complete(list)
    ensures Complete(FormatDefaults(list))
  {
    SetKeepsComplete(list, Debug, Format, DEFAULT_DEBUG_FORMAT);
    var a := SetEntry(list, Debug, Format, DEFAULT_DEBUG_FORMAT);
    SetKeepsComplete(a, Error, Format, DEFAULT_FORMAT);
    var b := SetEntry(a, Error, Format, DEFAULT_FORMAT);
    SetKeepsComplete(b, Fatal, Format, DEFAULT_FORMAT);
    var c := SetEntry(b, Fatal, Format, DEFAULT_FORMAT);
    SetKeepsComplete(c, Verbose, Format, DEFAULT_VERBOSE_FORMAT);
    SetKeepsComplete(SetEntry(c, Verbose, Format, DEFAULT_VERBOSE_FORMAT), Trace, Format, DEFAULT_TRACE_FORMAT);
  }

  /** The store after setToDefault on a fresh one. */
  const DEFAULTS: Entries := FormatDefaults(GlobalDefaults([], DEFAULTED))

  lemma GlobalDefaultsAreComplete()
    ensures Complete(GlobalDefaults([], DEFAULTED))
  {
    GlobalDefaultsComplete([], {}, DEFAULTED);
    assert forall t :: t != UnknownType ==> t in DEFAULTED;
  }

  lemma DefaultsAreComplete()
    ensures Complete(DEFAULTS)
  {
    GlobalDefaultsAreComplete();
    FormatDefaultsKeepComplete(GlobalDefaults([], DEFAULTED));
  }

  /** After setToDefault on a fresh store, every run of writes leaves it complete: one entry per level
      and type, and Global's first. */
  lemma EveryRunIsComplete(ws: seq<Write>)
    ensures Complete(Run(DEFAULTS, ws))
  {
    DefaultsAreComplete();
    RunKeepsComplete(DEFAULTS, ws);
  }

  // ---------- What a run leaves at each level and type ----------

  function DefaultFormat(l: Level): string {
    match l
    case Debug => DEFAULT_DEBUG_FORMAT
    case Verbose => DEFAULT_VERBOSE_FORMAT
    case Trace => DEFAULT_TRACE_FORMAT
    case _ => DEFAULT_FORMAT
  }

  function DefaultAt(l: Level, t: ConfigurationType): Option<string> {
    if l == Unknown || t == UnknownType then None
    else Some(if t == Format then DefaultFormat(l) else DefaultValue(t))
  }

  lemma {:induction false} GlobalDefaultsRead(list: Entries, kinds: seq<ConfigurationType>, l: Level, t: ConfigurationType)
    ensures Get(GlobalDefaults(list, kinds), l, t) ==
            if l != Unknown && t in kinds then Some(DefaultValue(t)) else Get(list, l, t)
    decreases |kinds|
  {
    if kinds != [] {
      GlobalDefaultsRead(SetGloballyEntries(list, kinds[0], DefaultValue(kinds[0]), true), kinds[1..], l, t);
      GetAfterSet(list, Global, kinds[0], DefaultValue(kinds[0]), l, t);
    }
  }

  lemma FormatDefaultsRead(list: Entries, l: Level, t: ConfigurationType)
    ensures Get(FormatDefaults(list), l, t) ==
            if t == Format && l in {Debug, Error, Fatal, Verbose, Trace} then Some(DefaultFormat(l)) else Get(list, l, t)
  {
    GetAfterSet(list, Debug, Format, DEFAULT_DEBUG_FORMAT, l, t);
    var a := SetEntry(list, Debug, Format, DEFAULT_DEBUG_FORMAT);
    GetAfterSet(a, Error, Format, DEFAULT_FORMAT, l, t);
    var b := SetEntry(a, Error, Format, DEFAULT_FORMAT);
    GetAfterSet(b, Fatal, Format, DEFAULT_FORMAT, l, t);
    var c := SetEntry(b, Fatal, Format, DEFAULT_FORMAT);
    GetAfterSet(c, Verbose, Format, DEFAULT_VERBOSE_FORMAT, l, t);
    GetAfterSet(SetEntry(c, Verbose, Format, DEFAULT_VERBOSE_FORMAT), Trace, Format, DEFAULT_TRACE_FORMAT, l, t);
  }

  /** What every level reads of every type after setToDefault on a fresh store. */
  lemma DefaultsRead(l: Level, t: ConfigurationType)
    ensures Get(DEFAULTS, l, t) == DefaultAt(l, t)
  {
    assert t in DEFAULTED <==> t != UnknownType;
    GlobalDefaultsRead([], DEFAULTED, l, t);
    FormatDefaultsRead(GlobalDefaults([], DEFAULTED), l, t);
  }

  /** What overlaying `base` writes at a level and type: the value of the last entry that touches it. */
  function LastTouch(base: Entries, l: Level, t: ConfigurationType): Option<string> {
    if base == [] then None
    else if Touches(base[|base| - 1], l, t) then Some(base[|base| - 1].value)
    else LastTouch(base[..|base| - 1], l, t)
  }

  lemma {:induction false} GetAfterOverlay(list: Entries, base: Entries, l: Level, t: ConfigurationType)
    ensures Get(Overlay(list, base), l, t) ==
            if LastTouch(base, l, t).Some? then LastTouch(base, l, t) else Get(list, l, t)
    decreases |base|
  {
    if base != [] {
      var last, before := base[|base| - 1], base[..|base| - 1];
      GetAfterSet(Overlay(list, before), last.level, last.configurationType, last.value, l, t);
      GetAfterOverlay(list, before, l, t);
    }
  }

  /** What a write puts at a level and type that have a value already, or None where it does not reach them. */
  function Written(w: Write, l: Level, t: ConfigurationType): Option<string> {
    match w
    case Set(level, kind, value) => if kind == t && Reaches(level, l) then Some(value) else None
    case SetGlobally(kind, value, includeGlobalLevel) =>
      if kind == t && l != Unknown && (l != Global || includeGlobalLevel) then Some(value) else None
    case SetIfNotExist(_, _, _) => None
    case SetFromBase(base) => LastTouch(base, l, t)
  }

  /** The last value written at a level and type. */
  function LastWritten(ws: seq<Write>, l: Level, t: ConfigurationType): Option<string> {
    if ws == [] then None
    else if Written(ws[|ws| - 1], l, t).Some? then Written(ws[|ws| - 1], l, t)
    else LastWritten(ws[..|ws| - 1], l, t)
  }

  lemma GetAfterWrite(list: Entries, w: Write, l: Level, t: ConfigurationType)
    requires Complete(list) && l != Unknown && t != UnknownType
    ensures Get(Apply(list, w), l, t) == if Written(w, l, t).Some? then Written(w, l, t) else Get(list, l, t)
  {
    match w
    case Set(level, kind, value) => GetAfterSet(list, level, kind, value, l, t);
    case SetGlobally(kind, value, _) =>
      GetAfterSet(list, Global, kind, value, l, t);
      GetAfterFanOut(list, 7, kind, value, l, t);
    case SetIfNotExist(level, kind, value) => GetAfterSet(list, level, kind, value, l, t);
    case SetFromBase(base) => GetAfterOverlay(list, base, l, t);
  }

  /** After setToDefault and any run of writes a level reads the last value written to it, directly or through
      Global, and its default where nothing was. */
  lemma {:induction false} RunLeavesLastWritten(ws: seq<Write>, l: Level, t: ConfigurationType)
    requires l != Unknown && t != UnknownType
    ensures Get(Run(DEFAULTS, ws), l, t) == if LastWritten(ws, l, t).Some? then LastWritten(ws, l, t) else DefaultAt(l, t)
    decreases |ws|
  {
    if ws == [] {
      DefaultsRead(l, t);
    } else {
      var before := ws[..|ws| - 1];
      EveryRunIsComplete(before);
      GetAfterWrite(Run(DEFAULTS, before), ws[|ws| - 1], l, t);
      RunLeavesLastWritten(before, l, t);
    }
  }

  // ---------- The last entry of a type ----------

  ghost predicate LastAt(list: Entries, t: ConfigurationType, i: int) {
    0 <= i < |list| && list[i].configurationType == t && forall j :: i < j < |list| ==> list[j].configurationType != t
  }

  /** The level whose entry comes last: the fan-out ends with Info, and only an entry for Unknown can follow. */
  function Closer(list: Entries, t: ConfigurationType): Level {
    if Get(list, Unknown, t).Some? then Unknown else Info
  }

  ghost predicate Closed(list: Entries, t: ConfigurationType) {
    exists i :: LastAt(list, t, i) && list[i].level == Closer(list, t)
  }

  lemma {:induction false} HitIsRead(list: Entries, i: nat, l: Level, t: ConfigurationType)
    requires i < |list|
    ensures Hit(list[i], l, t) ==> Get(list, l, t).Some?
  {
    if i > 0 {
      HitIsRead(list[1..], i - 1, l, t);
    }
  }

  lemma NoneMeansNoHit(list: Entries, l: Level, t: ConfigurationType)
    ensures Get(list, l, t).None? <==> NoHit(list, l, t)
  {
    forall i | 0 <= i < |list| ensures Hit(list[i], l, t) ==> Get(list, l, t).Some? { HitIsRead(list, i, l, t); }
    if NoHit(list, l, t) { PutOfNewKey(list, l, t, ""); }
  }

  lemma ClosedElsewhere(list: Entries, longer: Entries, kind: ConfigurationType, t: ConfigurationType)
    requires Extends(longer, list, kind) && Closed(list, t)
    requires kind != t || |longer| == |list|
    ensures Closed(longer, t)
  {
    var i :| LastAt(list, t, i) && list[i].level == Closer(list, t);
    NoneMeansNoHit(list, Unknown, t);
    NoneMeansNoHit(longer, Unknown, t);
    assert forall j :: 0 <= j < |list| ==> SameKey(longer[j], list[j]);
    if h :| 0 <= h < |list| && Hit(list[h], Unknown, t) {
      assert Hit(longer[h], Unknown, t);
    }
    assert LastAt(longer, t, i) && longer[i].level == Closer(longer, t);
  }

  /** A complete store can only grow by an entry for Unknown. */
  lemma GrownByUnknown(list: Entries, longer: Entries, t: ConfigurationType, i: nat)
    requires Complete(list) && Extends(longer, list, t) && t != UnknownType && |list| <= i < |longer|
    ensures longer[i].level == Unknown
  {
    var l := longer[i].level;
    if l != Unknown {
      var h := GetFindsHit(list, l, t);
    }
  }

  lemma ClosedStays(list: Entries, longer: Entries, kind: ConfigurationType, t: ConfigurationType)
    requires Complete(list) && Extends(longer, list, kind) && t != UnknownType && Closed(list, t)
    ensures Closed(longer, t)
  {
    if kind != t || |longer| == |list| {
      ClosedElsewhere(list, longer, kind, t);
    } else {
      var p := |longer| - 1;
      GrownByUnknown(list, longer, t, p);
      HitIsRead(longer, p, Unknown, t);
      assert LastAt(longer, t, p);
    }
  }

  lemma SetKeepsClosed(list: Entries, level: Level, kind: ConfigurationType, value: string, t: ConfigurationType)
    requires Complete(list) && t != UnknownType && Closed(list, t)
    ensures Closed(SetEntry(list, level, kind, value), t)
  {
    SetExtends(list, level, kind, value);
    ClosedStays(list, SetEntry(list, level, kind, value), kind, t);
  }

  lemma {:induction false} OverlayKeepsClosed(list: Entries, base: Entries, t: ConfigurationType)
    requires Complete(list) && t != UnknownType && Closed(list, t)
    ensures Closed(Overlay(list, base), t)
    decreases |base|
  {
    if base != [] {
      var last, before := base[|base| - 1], base[..|base| - 1];
      OverlayKeepsClosed(list, before, t);
      OverlayKeepsComplete(list, before);
      SetKeepsClosed(Overlay(list, before), last.level, last.configurationType, last.value, t);
    }
  }

  lemma WriteKeepsClosed(list: Entries, w: Write, t: ConfigurationType)
    requires Complete(list) && t != UnknownType && Closed(list, t)
    ensures Closed(Apply(list, w), t)
  {
    match w
    case Set(level, kind, value) => SetKeepsClosed(list, level, kind, value, t);
    case SetGlobally(kind, value, _) =>
      SetKeepsClosed(list, Global, kind, value, t);
      FanOutExtends(list, 7, kind, value);
      ClosedStays(list, FanOut(list, 7, kind, value), kind, t);
    case SetIfNotExist(level, kind, value) => SetKeepsClosed(list, level, kind, value, t);
    case SetFromBase(base) => OverlayKeepsClosed(list, base, t);
  }

  /** Fanning out over levels that have no entry yet appends them in turn. */
  lemma {:induction false} FanOutAppends(list: Entries, k: nat, kind: ConfigurationType, value: string)
    requires 1 <= k <= 7 && forall l :: Turn(l) < 7 ==> NoHit(list, l, kind)
    ensures var all := FanOut(list, k, kind, value);
            all != [] && all[|all| - 1] == Configuration(CastFromInt(Shifted(k - 1)), kind, value)
  {
    var before, level := FanOut(list, k - 1, kind, value), CastFromInt(Shifted(k - 1));
    TurnOf(k - 1);
    GetAfterFanOut(list, k - 1, kind, value, level, kind);
    NoneMeansNoHit(list, level, kind);
    NoneMeansNoHit(before, level, kind);
    PutOfNewKey(before, level, kind, value);
  }

  lemma NewTypeEndsWithInfo(list: Entries, kind: ConfigurationType, value: string, all: Entries)
    requires forall i :: 0 <= i < |list| ==> list[i].configurationType != kind
    requires all == SetEntry(list, Global, kind, value)
    ensures all != [] && Hit(all[|all| - 1], Info, kind)
  {
    PutOfNewKey(list, Global, kind, value);
    FanOutAppends(list + [Configuration(Global, kind, value)], 7, kind, value);
    TurnOf(6);
    TurnIsUnique(Info, CastFromInt(Shifted(6)));
  }

  lemma NewTypeIsClosed(list: Entries, kind: ConfigurationType, value: string)
    requires forall i :: 0 <= i < |list| ==> list[i].configurationType != kind
    ensures Closed(SetEntry(list, Global, kind, value), kind)
  {
    var all := SetEntry(list, Global, kind, value);
    NewTypeEndsWithInfo(list, kind, value, all);
    assert Get(all, Unknown, kind).None? by {
      NoneMeansNoHit(list, Unknown, kind);
      GetAfterSet(list, Global, kind, value, Unknown, kind);
    }
    assert LastAt(all, kind, |all| - 1);
  }

  lemma {:induction false} LaterDefaultsKeepClosed(list: Entries, kinds: seq<ConfigurationType>, t: ConfigurationType)
    requires t !in kinds && Closed(list, t)
    ensures Closed(GlobalDefaults(list, kinds), t)
    decreases |kinds|
  {
    if kinds != [] {
      var longer := SetGloballyEntries(list, kinds[0], DefaultValue(kinds[0]), true);
      SetExtends(list, Global, kinds[0], DefaultValue(kinds[0]));
      ClosedElsewhere(list, longer, kinds[0], t);
      LaterDefaultsKeepClosed(longer, kinds[1..], t);
    }
  }

  lemma {:induction false} GlobalDefaultsClosed(list: Entries, kinds: seq<ConfigurationType>, t: ConfigurationType)
    requires t in kinds && forall i, j :: 0 <= i < j < |kinds| ==> kinds[i] != kinds[j]
    requires forall i :: 0 <= i < |list| ==> list[i].configurationType != t
    ensures Closed(GlobalDefaults(list, kinds), t)
    decreases |kinds|
  {
    var longer := SetGloballyEntries(list, kinds[0], DefaultValue(kinds[0]), true);
    if kinds[0] == t {
      NewTypeIsClosed(list, t, DefaultValue(t));
      LaterDefaultsKeepClosed(longer, kinds[1..], t);
    } else {
      SetExtends(list, Global, kinds[0], DefaultValue(kinds[0]));
      forall i | 0 <= i < |longer| ensures longer[i].configurationType != t {
        if i < |list| { assert SameKey(longer[i], list[i]); }
      }
      GlobalDefaultsClosed(longer, kinds[1..], t);
    }
  }

  lemma {:induction false} RunKeepsClosed(list: Entries, ws: seq<Write>, t: ConfigurationType)
    requires Complete(list) && t != UnknownType && Closed(list, t)
    ensures Closed(Run(list, ws), t)
    decreases |ws|
  {
    if ws != [] {
      RunKeepsClosed(list, ws[..|ws| - 1], t);
      RunKeepsComplete(list, ws[..|ws| - 1]);
      WriteKeepsClosed(Run(list, ws[..|ws| - 1]), ws[|ws| - 1], t);
    }
  }

  lemma FormatDefaultsKeepClosed(list: Entries, t: ConfigurationType)
    requires Complete(list) && t != UnknownType && Closed(list, t)
    ensures Closed(FormatDefaults(list), t)
  {
    SetKeepsClosed(list, Debug, Format, DEFAULT_DEBUG_FORMAT, t);
    SetKeepsComplete(list, Debug, Format, DEFAULT_DEBUG_FORMAT);
    var a := SetEntry(list, Debug, Format, DEFAULT_DEBUG_FORMAT);
    SetKeepsClosed(a, Error, Format, DEFAULT_FORMAT, t);
    SetKeepsComplete(a, Error, Format, DEFAULT_FORMAT);
    var b := SetEntry(a, Error, Format, DEFAULT_FORMAT);
    SetKeepsClosed(b, Fatal, Format, DEFAULT_FORMAT, t);
    SetKeepsComplete(b, Fatal, Format, DEFAULT_FORMAT);
    var c := SetEntry(b, Fatal, Format, DEFAULT_FORMAT);
    SetKeepsClosed(c, Verbose, Format, DEFAULT_VERBOSE_FORMAT, t);
    SetKeepsComplete(c, Verbose, Format, DEFAULT_VERBOSE_FORMAT);
    SetKeepsClosed(SetEntry(c, Verbose, Format, DEFAULT_VERBOSE_FORMAT), Trace, Format, DEFAULT_TRACE_FORMAT, t);
  }

  lemma DefaultsAreClosed(t: ConfigurationType)
    requires t != UnknownType
    ensures Closed(DEFAULTS, t)
  {
    GlobalPartIsClosed(t);
    GlobalDefaultsAreComplete();
    FormatDefaultsKeepClosed(GlobalDefaults([], DEFAULTED), t);
  }

  lemma GlobalPartIsClosed(t: ConfigurationType)
    requires t != UnknownType
    ensures Closed(GlobalDefaults([], DEFAULTED), t)
  {
    GlobalDefaultsClosed([], DEFAULTED, t);
  }

  /** After setToDefault and any run of writes the last entry of each type is the one for Info, unless somebody
      wrote one for Unknown. */
  lemma EveryRunIsClosed(ws: seq<Write>, t: ConfigurationType)
    requires t != UnknownType
    ensures Closed(Run(DEFAULTS, ws), t)
  {
    DefaultsAreClosed(t);
    DefaultsAreComplete();
    RunKeepsClosed(DEFAULTS, ws, t);
  }

  // ---------- A store in which Global does not come first ----------

  /** Writes to a fresh store that put Trace in front of Global and then give it a value of its own. */
  const TRACE_FIRST: seq<Write> := [Set(Trace, Enabled, "true"), Set(Global, Enabled, "true"), Set(Trace, Enabled, "false")]

  lemma TraceComesFirst(a: Entries, b: Entries, c: Entries) returns (g: nat)
    requires a == SetEntry([], Trace, Enabled, "true") && b == SetEntry(a, Global, Enabled, "true")
    requires c == SetEntry(b, Trace, Enabled, "false")
    ensures UniqueKeys(c) && 0 < g < |c|
    ensures c[0] == Configuration(Trace, Enabled, "false") && c[g] == Configuration(Global, Enabled, "true")
  {
    SetExtends([], Trace, Enabled, "true");
    SetExtends(a, Global, Enabled, "true");
    SetExtends(b, Trace, Enabled, "false");
    assert SameKey(b[0], a[0]) && SameKey(c[0], b[0]);
    GetAfterSet(b, Trace, Enabled, "false", Trace, Enabled);
    GetAfterSet(b, Trace, Enabled, "false", Global, Enabled);
    GetAfterSet(a, Global, Enabled, "true", Global, Enabled);
    GetOfUniqueKey(c, 0);
    g := GetFindsHit(c, Global, Enabled);
    GetOfUniqueKey(c, g);
  }

  /** The store that those writes leave. */
  lemma TraceFirstStore() returns (c: Entries, g: nat)
    ensures c == Run([], TRACE_FIRST) && UniqueKeys(c) && 0 < g < |c|
    ensures c[0] == Configuration(Trace, Enabled, "false") && c[g] == Configuration(Global, Enabled, "true")
  {
    var a := SetEntry([], Trace, Enabled, "true");
    var b := SetEntry(a, Global, Enabled, "true");
    c := SetEntry(b, Trace, Enabled, "false");
    assert TRACE_FIRST[..2][..1] == [Set(Trace, Enabled, "true")] && TRACE_FIRST[..2][..1][..0] == [];
    assert Run([], TRACE_FIRST[..2][..1]) == a;
    assert Run([], TRACE_FIRST[..2]) == b;
    g := TraceComesFirst(a, b, c);
  }

  /** Overlaying that store on any other loses the value of Trace. */
  lemma OverlayLosesTrace(list: Entries)
    ensures Get(Run([], TRACE_FIRST), Trace, Enabled) == Some("false")
    ensures Get(Overlay(list, Run([], TRACE_FIRST)), Trace, Enabled) == Some("true")
  {
    var base, g := TraceFirstStore();
    GetOfUniqueKey(base, 0);
    forall j | g < j < |base| ensures !Touches(base[j], Trace, Enabled) {
      assert !Hit(base[j], base[g].level, base[g].configurationType);
      assert !Hit(base[j], base[0].level, base[0].configurationType);
    }
    LastTouchWins(list, base, Trace, Enabled, g);
  }
}
