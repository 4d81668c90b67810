/**
 The category filter of VRegistry in external/easylogging++/easylogging++.cc: the character-driven
 scanner of setCategories, the string it keeps beside the parsed rules, and the decision of allowed.
 */
module Categories {

  import opened Levels
  import opened Options
  import WildCard

  datatype Rule = Rule(pattern: string, level: Level)

  // ---------- The scanner as a function of the text ----------

  /** The locals of the scanning loop (`isLevel` is always `!isCat`) and the rules inserted so far. */
  datatype Scan = Scan(isCat: bool, name: string, level: Level, rules: seq<Rule>)

  const START := Scan(true, "", Unknown, [])

  /** Inserting the pending rule if it is complete, as a comma and the end of the text do. */
  function Flush(st: Scan): Scan {
    if st.name != "" && st.level != Unknown
    then Scan(st.isCat, "", Unknown, st.rules + [Rule(st.name, st.level)])
    else st
  }

  /** How far one turn of the loop moves the cursor; never past the terminator. */
  function Width(s: string, isCat: bool): (k: nat)
    requires s != ""
    ensures 1 <= k <= |s|
  {
    if s[0] == ':' || s[0] == ',' || isCat || LevelFromPrefix(s) == Unknown then 1
    else |LevelName(LevelFromPrefix(s))|
  }

  /** What one turn of the loop does to its locals. */
  function Next(s: string, st: Scan): Scan
    requires s != ""
  {
    if s[0] == ':' then st.(isCat := false)
    else if s[0] == ',' then Flush(st).(isCat := true)
    else if st.isCat then st.(name := st.name + [s[0]])
    else st.(level := LevelFromPrefix(s))
  }

  function Run(s: string, st: Scan): Scan
    decreases |s|
  {
    if s == "" then st else Run(s[Width(s, st.isCat)..], Next(s, st))
  }

  function Parse(s: string): seq<Rule> {
    Flush(Run(s, START)).rules
  }

  /** The scan of `s` ends with a complete rule pending, or with neither half of one. */
  predicate Clean(s: string) {
    var st := Run(s, START);
    st.name == "" <==> st.level == Unknown
  }

  // ---------- The decision ----------

  /** Rule `i` is the last one whose pattern matches. */
  ghost predicate LastMatch(rules: seq<Rule>, category: string, i: nat) {
    && i < |rules|
    && WildCard.Matches(category, rules[i].pattern)
    && forall j :: i < j < |rules| ==> !WildCard.Matches(category, rules[j].pattern)
  }

  ghost predicate Permits(rules: seq<Rule>, level: Level, category: string) {
    exists i: nat :: LastMatch(rules, category, i) && Priority(level) <= Priority(rules[i].level)
  }

  // ---------- VRegistry ----------

  class VRegistry {
    var categories: seq<Rule>
    var categoriesString: string

    constructor ()
      ensures categories == [] && categoriesString == ""
    {
      categories, categoriesString := [], "";
    }

    method SetCategories(text: string, clear: bool)
      modifies this
      ensures categories == (if clear then [] else old(categories)) + Parse(text)
      ensures categoriesString == Joined(if clear then "" else old(categoriesString), text)
    {
      if clear {
        categories, categoriesString := [], "";
      }
      ghost var before := categories;
      if categoriesString != "" {
        categoriesString := categoriesString + ",";
      }
      categoriesString := categoriesString + text;

      ghost var stored := categoriesString;

      var isCat, isLevel, name, level := true, false, "", Unknown;
      ghost var inserted: seq<Rule> := [];
      var i := 0;
      while i < |text|
        invariant 0 <= i <= |text| && isLevel == !isCat
        invariant categories == before + inserted && categoriesString == stored
        invariant Run(text[i..], Scan(isCat, name, level, inserted)) == Run(text, START)
        decreases |text| - i
      {
        ghost var left, turn := text[i..], Scan(isCat, name, level, inserted);
        ghost var next := i + Width(left, isCat);
        assert left[Width(left, isCat)..] == text[next..];
        if text[i] == ':' {
          isLevel, isCat := true, false;
        } else if text[i] == ',' {
          isLevel, isCat := false, true;
          if name != "" && level != Unknown {
            categories := categories + [Rule(name, level)];
            inserted := inserted + [Rule(name, level)];
            name, level := "", Unknown;
          }
        } else if isCat {
          name := name + [text[i]];
        } else if isLevel {
          level := LevelFromPrefix(text[i..]);
          if level != Unknown {
            i := i + |LevelName(level)| - 1;
          }
        }
        i := i + 1;
        assert i == next && Scan(isCat, name, level, inserted) == Next(left, turn);
      }
      assert text[i..] == "" && Scan(isCat, name, level, inserted) == Run(text, START);
      if name != "" && level != Unknown {
        categories := categories + [Rule(name, level)];
      }
    }

    /** allowed(Level, const char*): the rules are tried from the last to the first. */
    method Allowed(level: Level, category: Option<string>) returns (r: bool)
      ensures r <==> category.Some? && Permits(categories, level, category.value)
    {
      if |categories| == 0 || category.None? {
        return false;
      }
      var i := |categories|;
      while i > 0
        invariant 0 <= i <= |categories|
        invariant forall j :: i <= j < |categories| ==> !WildCard.Matches(category.value, categories[j].pattern)
      {
        i := i - 1;
        var matched := WildCard.WildCardMatch(category.value, categories[i].pattern);
        if matched {
          assert LastMatch(categories, category.value, i);
          return Priority(level) <= Priority(categories[i].level);
        }
      }
      return false;
    }
  }

  /** What setCategories leaves in the stored string. */
  function Joined(stored: string, text: string): string {
    if stored != "" then stored + "," + text else text
  }

  // ---------- Properties of the decision ----------

  ghost predicate AnyMatches(rules: seq<Rule>, category: string) {
    exists i :: 0 <= i < |rules| && WildCard.Matches(category, rules[i].pattern)
  }

  /** Later rules decide the categories that one of them matches. */
  lemma AppendedRulesDecide(rules: seq<Rule>, more: seq<Rule>, level: Level, category: string)
    requires AnyMatches(more, category)
    ensures Permits(rules + more, level, category) <==> Permits(more, level, category)
  {
    var all, n := rules + more, |rules|;
    assert all[n..] == more;
    LastMatchMoves(all, more, n, category);
    if i: nat :| LastMatch(all, category, i) && Priority(level) <= Priority(all[i].level) {
      assert LastMatch(more, category, i - n);
    }
    if i: nat :| LastMatch(more, category, i) && Priority(level) <= Priority(more[i].level) {
      assert LastMatch(all, category, n + i);
    }
  }

  lemma LastMatchMoves(all: seq<Rule>, more: seq<Rule>, n: nat, category: string)
    requires n <= |all| && all[n..] == more && AnyMatches(more, category)
    ensures forall i: nat :: LastMatch(all, category, i) ==> n <= i && LastMatch(more, category, i - n)
    ensures forall i: nat :: LastMatch(more, category, i) ==> LastMatch(all, category, n + i)
  {}

  /** All other categories keep their answer. */
  lemma AppendedRulesLeave(rules: seq<Rule>, more: seq<Rule>, level: Level, category: string)
    requires !AnyMatches(more, category)
    ensures Permits(rules + more, level, category) <==> Permits(rules, level, category)
  {
    var all, n := rules + more, |rules|;
    assert forall j :: 0 <= j < n ==> all[j] == rules[j];
    forall j | n <= j < |all| ensures !WildCard.Matches(category, all[j].pattern) {
      assert all[j] == more[j - n];
    }
    if i: nat :| LastMatch(all, category, i) && Priority(level) <= Priority(all[i].level) {
      assert i < n;
      assert LastMatch(rules, category, i);
    }
    if i: nat :| LastMatch(rules, category, i) && Priority(level) <= Priority(rules[i].level) {
      assert LastMatch(all, category, i);
    }
  }

  /** The levels of messages, most severe first. */
  const SEVERITIES: seq<Level> := [Fatal, Error, Warning, Info, Debug, Verbose, Trace]

  /** The last rule that matches permits its own level and every more severe one; a rule for Global permits everything. */
  lemma LastMatchDecides(rules: seq<Rule>, category: string, m: nat, i: nat)
    requires LastMatch(rules, category, m) && i < |SEVERITIES|
    ensures Permits(rules, SEVERITIES[i], category) <==>
            rules[m].level in {Global, Unknown} || exists j :: i <= j < |SEVERITIES| && SEVERITIES[j] == rules[m].level
    ensures Permits(rules, Global, category) <==> rules[m].level in {Global, Unknown}
    ensures Permits(rules, Unknown, category) <==> rules[m].level in {Global, Unknown}
  {
    OneLastMatch(rules, category, m);
    var level := rules[m].level;
    if level !in {Global, Unknown} {
      var k := PositionOf(level);
      RankedAs(i, k);
      assert forall j :: 0 <= j < |SEVERITIES| && SEVERITIES[j] == level ==> j == k;
    }
  }

  lemma OneLastMatch(rules: seq<Rule>, category: string, m: nat)
    requires LastMatch(rules, category, m)
    ensures forall n: nat :: LastMatch(rules, category, n) ==> n == m
  {
    forall n: nat | LastMatch(rules, category, n) ensures n == m {
      assert !(m < n) && !(n < m);
    }
  }

  lemma PositionOf(level: Level) returns (k: nat)
    requires level !in {Global, Unknown}
    ensures k < |SEVERITIES| && SEVERITIES[k] == level
  {
    k := if level == Fatal then 0 else if level == Error then 1 else if level == Warning then 2
         else if level == Info then 3 else if level == Debug then 4 else if level == Verbose then 5 else 6;
  }

  lemma RankedAs(i: nat, k: nat)
    requires i < |SEVERITIES| && k < |SEVERITIES|
    ensures Priority(SEVERITIES[i]) <= Priority(SEVERITIES[k]) <==> i <= k
  {}

  /** One rule for everything: exactly its level and the more severe ones are permitted. */
  lemma StarRuleDecides(i: nat, j: nat, category: string)
    requires i < |SEVERITIES| && j < |SEVERITIES|
    ensures Permits([Rule("*", SEVERITIES[j])], SEVERITIES[i], category) <==> i <= j
    ensures Permits([Rule("*", Global)], SEVERITIES[i], category)
    ensures !Permits([Rule("*", SEVERITIES[j])], Global, category) && !Permits([Rule("*", SEVERITIES[j])], Unknown, category)
  {
    WildCard.StarMatchesAll(category);
    var one, all := [Rule("*", SEVERITIES[j])], [Rule("*", Global)];
    assert LastMatch(one, category, 0) && LastMatch(all, category, 0);
    LastMatchDecides(one, category, 0, i);
    LastMatchDecides(all, category, 0, i);
    assert forall k :: 0 <= k < |SEVERITIES| && SEVERITIES[k] == SEVERITIES[j] ==> k == j;
  }

  /** What is permitted at a level is permitted at every more severe one. */
  lemma MoreSevereIsPermitted(rules: seq<Rule>, i: nat, j: nat, category: string)
    requires i <= j < |SEVERITIES| && Permits(rules, SEVERITIES[j], category)
    ensures Permits(rules, SEVERITIES[i], category)
  {
    var m: nat :| LastMatch(rules, category, m) && Priority(SEVERITIES[j]) <= Priority(rules[m].level);
    LastMatchDecides(rules, category, m, i);
    LastMatchDecides(rules, category, m, j);
  }

  /** Without a rule that matches nothing is permitted. */
  lemma NoMatchRefuses(rules: seq<Rule>, level: Level, category: string)
    requires !AnyMatches(rules, category)
    ensures !Permits(rules, level, category)
  {}

  // ---------- Scanning joined texts ----------

  /** A comma, unlike other text, never completes something begun before it. */
  lemma {:induction false} RunUpToComma(a: string, rest: string, st: Scan)
    requires rest == "" || rest[0] == ','
    ensures Run(a + rest, st) == Run(rest, Run(a, st))
    decreases |a|
  {
    if a == "" {
      assert a + rest == rest;
    } else {
      CommaEndsName(TRIED, a, rest);
      var k := Width(a, st.isCat);
      assert (a + rest)[k..] == a[k..] + rest;
      RunUpToComma(a[k..], rest, Next(a, st));
    }
  }

  /** Rules already inserted are carried through unread. */
  lemma {:induction false} RunCarriesRules(s: string, st: Scan, before: seq<Rule>)
    ensures Run(s, st.(rules := before + st.rules)) ==
            var end := Run(s, st); end.(rules := before + end.rules)
    decreases |s|
  {
    if s != "" {
      var next := Next(s, st);
      assert Next(s, st.(rules := before + st.rules)) == next.(rules := before + next.rules);
      RunCarriesRules(s[Width(s, st.isCat)..], next, before);
    }
  }

  /** The scan of a joined text is the scan of its second half from what the first half leaves pending. */
  lemma RunJoined(a: string, b: string)
    ensures Run(a + "," + b, START) == Run(b, Flush(Run(a, START)).(isCat := true))
  {
    var rest := "," + b;
    assert a + "," + b == a + rest && rest[1..] == b;
    RunUpToComma(a, rest, START);
  }

  lemma JoinedAfterClean(a: string, b: string)
    requires Clean(a)
    ensures Parse(a + "," + b) == Parse(a) + Parse(b)
    ensures Clean(a + "," + b) <==> Clean(b)
  {
    RunJoined(a, b);
    RunCarriesRules(b, START, Parse(a));
    assert START.(rules := Parse(a) + START.rules) == Flush(Run(a, START)).(isCat := true);
  }

  /** A name without its level glues to the next name. */
  lemma DanglingNameGlues(a: string)
    requires Run(a, START).name != "" && Run(a, START).level == Unknown
    ensures Parse(a + "," + "x:INFO") == Parse(a) + [Rule(Run(a, START).name + "x", Info)]
  {
    var st := Run(a, START).(isCat := true);
    RunJoined(a, "x:INFO");
    var s := "x:INFO";
    assert s[1..] == ":INFO" && s[1..][1..] == "INFO" + "" && "INFO"[4..] == "";
    NameIsRead(Info, "");
    assert Run(s, st) == Run("INFO", Scan(false, st.name + "x", Unknown, st.rules));
  }

  /** A level without its name is taken by the next bare name. */
  lemma DanglingLevelIsTaken(a: string)
    requires Run(a, START).name == "" && Run(a, START).level != Unknown
    ensures Parse(a + "," + "x") == Parse(a) + [Rule("x", Run(a, START).level)]
  {
    var st := Run(a, START).(isCat := true);
    RunJoined(a, "x");
    assert st.name + ['x'] == "x" && "x"[1..] == "";
    assert Run("x", st) == st.(name := "x");
  }

  /** Appending to a stored text means appending its rules, whatever is appended, exactly when the
      stored text is clean. */
  lemma JoinIsConcatenation(a: string)
    ensures Clean(a) <==> forall b :: Parse(a + "," + b) == Parse(a) + Parse(b)
  {
    if Clean(a) {
      forall b ensures Parse(a + "," + b) == Parse(a) + Parse(b) { JoinedAfterClean(a, b); }
    } else if Run(a, START).name != "" {
      DanglingNameGlues(a);
      ParseOne(Rule("x", Info));
      assert PrintRule(Rule("x", Info)) == "x:INFO";
      assert Parse(a + "," + "x:INFO")[|Parse(a)|] != (Parse(a) + Parse("x:INFO"))[|Parse(a)|];
    } else {
      DanglingLevelIsTaken(a);
      assert "x"[1..] == "" && Parse("x") == [];
      assert Parse(a + "," + "x") != Parse(a) + Parse("x");
    }
  }

  // ---------- Printing and scanning ----------

  predicate WellFormed(r: Rule) {
    r.pattern != "" && ':' !in r.pattern && ',' !in r.pattern && r.level != Unknown
  }

  function PrintRule(r: Rule): string {
    r.pattern + ":" + LevelName(r.level)
  }

  function Print(rules: seq<Rule>): string {
    if rules == [] then ""
    else if |rules| == 1 then PrintRule(rules[0])
    else PrintRule(rules[0]) + "," + Print(rules[1..])
  }

  lemma {:induction false} RunName(name: string, rest: string, st: Scan)
    requires ':' !in name && ',' !in name && st.isCat
    ensures Run(name + rest, st) == Run(rest, st.(name := st.name + name))
    decreases |name|
  {
    if name == "" {
      assert name + rest == rest && st.name + name == st.name;
    } else {
      assert (name + rest)[1..] == name[1..] + rest;
      RunName(name[1..], rest, st.(name := st.name + [name[0]]));
      assert st.name + [name[0]] + name[1..] == st.name + name;
    }
  }

  lemma ParseOne(r: Rule)
    requires WellFormed(r)
    ensures Parse(PrintRule(r)) == [r] && Clean(PrintRule(r))
  {
    var tail := ":" + LevelName(r.level);
    assert PrintRule(r) == r.pattern + tail;
    RunName(r.pattern, tail, START);
    assert "" + r.pattern == r.pattern && tail[1..] == LevelName(r.level) == LevelName(r.level) + "";
    NameIsRead(r.level, "");
    assert LevelName(r.level)[|LevelName(r.level)|..] == "";
    assert Run(tail, Scan(true, r.pattern, Unknown, [])) == Run(LevelName(r.level), Scan(false, r.pattern, Unknown, []));
    assert Run(LevelName(r.level), Scan(false, r.pattern, Unknown, [])) == Scan(false, r.pattern, r.level, []);
  }

  /** Scanning undoes printing. */
  lemma {:induction false} ScanUndoesPrint(rules: seq<Rule>)
    requires forall r :: r in rules ==> WellFormed(r)
    ensures Parse(Print(rules)) == rules && Clean(Print(rules))
  {
    if |rules| == 1 {
      ParseOne(rules[0]);
    } else if rules != [] {
      ParseOne(rules[0]);
      ScanUndoesPrint(rules[1..]);
      JoinedAfterClean(PrintRule(rules[0]), Print(rules[1..]));
      assert rules == [rules[0]] + rules[1..];
    }
  }

  /** Only well-formed rules come out of the scanner, whatever goes in. */
  lemma {:induction false} RunKeepsWellFormed(s: string, st: Scan)
    requires ':' !in st.name && ',' !in st.name
    requires forall r :: r in st.rules ==> WellFormed(r)
    ensures var end := Run(s, st);
            ':' !in end.name && ',' !in end.name && forall r :: r in end.rules ==> WellFormed(r)
    decreases |s|
  {
    if s != "" {
      RunKeepsWellFormed(s[Width(s, st.isCat)..], Next(s, st));
    }
  }

  /** Printing what was scanned gives a text with the same rules: well-formed lists are exactly the
      results of the scanner. */
  lemma PrintedFormIsCanonical(s: string, rules: seq<Rule>)
    ensures Parse(Print(Parse(s))) == Parse(s)
    ensures (forall r :: r in rules ==> WellFormed(r)) <==> exists t :: Parse(t) == rules
  {
    RunKeepsWellFormed(s, START);
    ScanUndoesPrint(Parse(s));
    if forall r :: r in rules ==> WellFormed(r) {
      ScanUndoesPrint(rules);
    }
    if t :| Parse(t) == rules {
      RunKeepsWellFormed(t, START);
    }
  }

  // ---------- Runs of setCategories ----------

  datatype Call = Call(text: string, clear: bool)

  datatype Store = Store(rules: seq<Rule>, text: string)

  /** The effect of one call, as VRegistry.SetCategories states it. */
  function Step(store: Store, call: Call): Store {
    Store((if call.clear then [] else store.rules) + Parse(call.text),
          Joined(if call.clear then "" else store.text, call.text))
  }

  function After(calls: seq<Call>): Store {
    if calls == [] then Store([], "") else Step(After(calls[..|calls| - 1]), calls[|calls| - 1])
  }

  /** A later call clears what the call at `i` has stored. */
  ghost predicate ClearedAfter(calls: seq<Call>, i: int) {
    exists j :: i < j < |calls| && 0 <= j && calls[j].clear
  }

  /** After any run of calls re-parsing the stored string reproduces the stored rules, if the texts since the last call
      that cleared are clean; the text of the last call need not even be. */
  lemma {:induction false} ReparseReproduces(calls: seq<Call>)
    requires forall i :: 0 <= i < |calls| - 1 ==> Clean(calls[i].text) || ClearedAfter(calls, i)
    ensures Parse(After(calls).text) == After(calls).rules
    ensures calls == [] || Clean(calls[|calls| - 1].text) ==> Clean(After(calls).text)
  {
    if calls != [] && !calls[|calls| - 1].clear {
      var before, call := calls[..|calls| - 1], calls[|calls| - 1];
      forall i | 0 <= i < |before| ensures Clean(before[i].text) || ClearedAfter(before, i) {
        if j :| i < j < |calls| && calls[j].clear {
          assert before[j] == calls[j];
        }
      }
      ReparseReproduces(before);
      JoinedAfterClean(After(before).text, call.text);
    }
  }

  ghost function PrintedCalls(lists: seq<seq<Rule>>): seq<Call> {
    seq(|lists|, i requires 0 <= i < |lists| => Call(Print(lists[i]), false))
  }

  ghost function Flatten(lists: seq<seq<Rule>>): seq<Rule> {
    if lists == [] then [] else Flatten(lists[..|lists| - 1]) + lists[|lists| - 1]
  }

  /** End to end: appending printed rule lists stores their concatenation, in the rules and in the
      string alike, and that concatenation is what decides. */
  lemma {:induction false} PrintedRunsStoreTheirRules(lists: seq<seq<Rule>>)
    requires forall i :: 0 <= i < |lists| ==> forall r :: r in lists[i] ==> WellFormed(r)
    ensures After(PrintedCalls(lists)).rules == Flatten(lists)
    ensures Parse(After(PrintedCalls(lists)).text) == Flatten(lists)
  {
    var calls := PrintedCalls(lists);
    forall i | 0 <= i < |lists| ensures Clean(calls[i].text) && Parse(calls[i].text) == lists[i] {
      ScanUndoesPrint(lists[i]);
    }
    ReparseReproduces(calls);
    if lists != [] {
      PrintedRunsStoreTheirRules(lists[..|lists| - 1]);
      assert calls[..|calls| - 1] == PrintedCalls(lists[..|lists| - 1]);
    }
  }
}
