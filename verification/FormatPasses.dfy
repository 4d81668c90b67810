/**
 All specifiers of a log format together (external/easylogging++/easylogging++.cc): parseFromFormat sweeps the format
 for each of them, and updateFormatSpec, resolveLoggerFormatSpec and DefaultLogBuilder::build later put their values
 in, one after the other and in another order. Each pass rereads the whole string, values included.
 */
module FormatPasses {

  import opened Options
  import opened Text
  import opened FormatSpecifiers
  import opened FormatTokens

  // ---------- The loops over tokens ----------

  /** At the start of a loop nothing is done. */
  lemma StandsAtStart(s: string, what: string)
    ensures Stands(s, "", s, what, -1)
  {
    assert "" + s == s;
  }

  lemma PassFromStart(s: string, what: string, pass: Pass, seen: bool)
    requires |what| >= 1
    ensures Continued("", s, what, pass, seen) == OnePass(s, what, pass, seen)
  {
    ContinuedAppends("", s, what, pass, seen);
    assert "" + OnePass(s, what, pass, seen) == OnePass(s, what, pass, seen);
  }

  lemma SweepIsPass(s: string, what: string)
    requires IsSpecifier(what) && |what| >= 3
    ensures SweepFrom(s, what, false, -1).format == OnePass(s, what, SweepPass(what), false)
  {
    StandsAtStart(s, what);
    SweepLoopIsPass(s, "", s, what, false, -1);
    PassFromStart(s, what, SweepPass(what), false);
  }

  lemma SweepLoopOverTokens(ts: seq<Token>, i: nat, names: seq<string>, s: string)
    requires IsTable(names) && i < |names| && AreTokens(ts, |names|) && Clear(ts, i, names)
    requires s == Flatten(ts, names)
    ensures AreTokens(SweepTokens(ts, i, false), |names|)
    ensures SweepFrom(s, names[i], false, -1) == Swept(Flatten(SweepTokens(ts, i, false), names), Spec(i) in ts)
  {
    SweepIsTokenwise(ts, i, names, false);
    FlagIsTokenwise(ts, i, names);
    SweepIsPass(s, names[i]);
    FlagMeansUnescaped(s, names[i], -1);
  }

  lemma ReplaceIsPass(s: string, what: string, value: string)
    requires IsSpecifier(what) && |what| >= 3
    ensures ReplaceFrom(s, what, value, -1) == OnePass(s, what, Pass(true, value, true), false)
  {
    StandsAtStart(s, what);
    ReplaceLoopIsPass(s, "", s, what, value, -1);
    PassFromStart(s, what, Pass(true, value, true), false);
  }

  lemma ReplaceLoopOverTokens(ts: seq<Token>, i: nat, names: seq<string>, value: string, s: string)
    requires IsTable(names) && i < |names| && AreTokens(ts, |names|) && ClearUntil(ts, i, names)
    requires s == Flatten(ts, names)
    ensures AreTokens(ReplaceTokens(ts, i, value), |names|)
    ensures ReplaceFrom(s, names[i], value, -1) == Flatten(ReplaceTokens(ts, i, value), names)
  {
    ReplaceIsTokenwise(ts, i, names, value);
    ReplaceIsPass(s, names[i], value);
  }

  // ---------- The whole of it ----------

  /** What becomes of a specifier once the format has been swept. */
  datatype Plan = Keep | IfFlagged(value: string) | Always(value: string)

  /** The format after the sweeps for the first `k` specifiers. */
  function SweptFormat(format: string, names: seq<string>, k: nat): string
    requires k <= |names|
  {
    if k == 0 then format else SweepFrom(SweptFormat(format, names, k - 1), names[k - 1], false, -1).format
  }

  /** The flag that the sweep for specifier `i` leaves. */
  predicate Flagged(format: string, names: seq<string>, i: nat)
    requires i < |names|
  {
    SweepFrom(SweptFormat(format, names, i), names[i], false, -1).hasFlag
  }

  function ReplaceOne(line: string, flagged: bool, name: string, plan: Plan): string {
    match plan
    case Keep => line
    case IfFlagged(value) => if flagged then ReplaceFrom(line, name, value, -1) else line
    case Always(value) => ReplaceFrom(line, name, value, -1)
  }

  function ReplaceInTurn(line: string, format: string, names: seq<string>, plan: seq<Plan>, order: seq<nat>): string
    requires |plan| == |names| && forall a :: 0 <= a < |order| ==> order[a] < |names|
    decreases |order|, line
  {
    if order == [] then line
    else
      var i := order[0];
      ReplaceInTurn(ReplaceOne(line, Flagged(format, names, i), names[i], plan[i]), format, names, plan, order[1..])
  }

  /** A format from its sweeps to the finished line. */
  function Line(format: string, names: seq<string>, plan: seq<Plan>, order: seq<nat>): string
    requires |plan| == |names| && forall a :: 0 <= a < |order| ==> order[a] < |names|
  {
    ReplaceInTurn(SweptFormat(format, names, |names|), format, names, plan, order)
  }

  // ---------- One substitution for all specifiers at once ----------

  /** The token at `p` after the sweeps. */
  function SweptAt(ts: seq<Token>, p: nat): Token
    requires p < |ts|
  {
    match ts[p]
    case EscapedSpec(i) => if SpecBefore(ts, i, p) then Spec(i) else ts[p]
    case _ => ts[p]
  }

  /** The token at `p` of the line: where a value is due, the first unescaped occurrence becomes the value and every
      escaped one loses its '%'; the values of the other specifiers play no part. */
  function FinalAt(ts: seq<Token>, p: nat, plan: seq<Plan>): Token
    requires p < |ts| && AreTokens(ts, |plan|)
  {
    if ts[p].Plain? then ts[p]
    else
      var i := ts[p].i;
      if plan[i].Keep? || (plan[i].IfFlagged? && Spec(i) !in ts) then SweptAt(ts, p)
      else if ts[p] == Spec(i) && !SpecBefore(ts, i, p) then Plain(plan[i].value)
      else Spec(i)
  }

  function Substituted(ts: seq<Token>, plan: seq<Plan>): (line: seq<Token>)
    requires AreTokens(ts, |plan|)
    ensures AreTokens(line, |plan|)
  {
    seq(|ts|, p requires 0 <= p < |ts| => FinalAt(ts, p, plan))
  }

  // ---------- Sweeps, position by position ----------

  lemma {:induction false} SweepTokensAt(ts: seq<Token>, i: nat, seen: bool, p: nat)
    requires p < |ts|
    ensures SweepTokens(ts, i, seen)[p] ==
            if ts[p] == EscapedSpec(i) && (seen || SpecBefore(ts, i, p)) then Spec(i) else ts[p]
    decreases |ts|
  {
    if p > 0 {
      SweepTokensAt(ts[1..], i, seen || ts[0] == Spec(i), p - 1);
      TailBefore(ts, i, p);
    }
  }

  /** The tokens after the sweeps for the specifiers below `k`. */
  function AfterSweeps(ts: seq<Token>, k: nat): (swept: seq<Token>)
    ensures |swept| == |ts|
  {
    seq(|ts|, p requires 0 <= p < |ts| => if !ts[p].Plain? && ts[p].i < k then SweptAt(ts, p) else ts[p])
  }

  lemma SweepsKeepBefore(ts: seq<Token>, k: nat, p: nat)
    requires p <= |ts|
    ensures SpecBefore(AfterSweeps(ts, k), k, p) <==> SpecBefore(ts, k, p)
  {
    var cur := AfterSweeps(ts, k);
    if q :| 0 <= q < p && ts[q] == Spec(k) {
      assert cur[q] == Spec(k);
    }
  }

  lemma NextSweep(ts: seq<Token>, k: nat)
    ensures SweepTokens(AfterSweeps(ts, k), k, false) == AfterSweeps(ts, k + 1)
    ensures Spec(k) in AfterSweeps(ts, k) <==> Spec(k) in ts
  {
    var cur := AfterSweeps(ts, k);
    forall p | 0 <= p < |ts| ensures SweepTokens(cur, k, false)[p] == AfterSweeps(ts, k + 1)[p] {
      SweepTokensAt(cur, k, false, p);
      SweepsKeepBefore(ts, k, p);
    }
    if Spec(k) in ts {
      var p :| 0 <= p < |ts| && ts[p] == Spec(k);
      assert cur[p] == Spec(k);
    }
  }

  /** A list of tokens that reads as it should: no specifier stands in its text. */
  ghost predicate Tokenizes(ts: seq<Token>, names: seq<string>) {
    AreTokens(ts, |names|) && forall i :: 0 <= i < |names| ==> Clear(ts, i, names)
  }

  /** Tokens that differ in other specifiers only. */
  ghost predicate AlikeFor(ts: seq<Token>, cur: seq<Token>, i: nat) {
    && |cur| == |ts|
    && forall p :: 0 <= p < |ts| ==> (ts[p].Plain? || cur[p].Plain? ==> cur[p] == ts[p]) && (cur[p] == Spec(i) <==> ts[p] == Spec(i))
  }

  lemma {:induction false} AlikeRuns(ts: seq<Token>, cur: seq<Token>, i: nat)
    requires AlikeFor(ts, cur, i)
    ensures PlainRun(cur) == PlainRun(ts) && (Lead(cur) == Some(Spec(i)) <==> Lead(ts) == Some(Spec(i)))
    decreases |ts|
  {
    if ts != [] {
      AlikeRuns(ts[1..], cur[1..], i);
    }
  }

  lemma AlikeIsClear(ts: seq<Token>, cur: seq<Token>, i: nat, names: seq<string>)
    requires i < |names| && AlikeFor(ts, cur, i) && Clear(ts, i, names)
    ensures Clear(cur, i, names)
  {
    forall p | 0 <= p < |cur| ensures ClearAt(cur, i, names, p) {
      assert ClearAt(ts, i, names, p);
      AlikeRuns(ts[p + 1..], cur[p + 1..], i);
    }
  }

  lemma SweepsKeepClear(ts: seq<Token>, names: seq<string>, k: nat)
    requires Tokenizes(ts, names) && k <= |names|
    ensures AreTokens(AfterSweeps(ts, k), |names|)
    ensures k < |names| ==> Clear(AfterSweeps(ts, k), k, names)
  {
    if k < |names| {
      AlikeIsClear(ts, AfterSweeps(ts, k), k, names);
    }
  }

  lemma SweepOnce(ts: seq<Token>, names: seq<string>, k: nat, cur: seq<Token>, s: string)
    requires IsTable(names) && k < |names| && AreTokens(cur, |names|) && Clear(cur, k, names)
    requires cur == AfterSweeps(ts, k) && AreTokens(AfterSweeps(ts, k + 1), |names|) && s == Flatten(cur, names)
    ensures SweepFrom(s, names[k], false, -1) == Swept(Flatten(AfterSweeps(ts, k + 1), names), Spec(k) in ts)
  {
    SweepLoopOverTokens(cur, k, names, s);
    NextSweep(ts, k);
  }

  lemma SweepStep(ts: seq<Token>, names: seq<string>, k: nat, s: string)
    requires IsTable(names) && Tokenizes(ts, names) && k < |names|
    requires AreTokens(AfterSweeps(ts, k), |names|) && s == Flatten(AfterSweeps(ts, k), names)
    ensures AreTokens(AfterSweeps(ts, k + 1), |names|)
    ensures SweepFrom(s, names[k], false, -1) == Swept(Flatten(AfterSweeps(ts, k + 1), names), Spec(k) in ts)
  {
    SweepsKeepClear(ts, names, k);
    SweepsKeepClear(ts, names, k + 1);
    SweepOnce(ts, names, k, AfterSweeps(ts, k), s);
  }

  lemma {:induction false} SweepsAreTokenwise(ts: seq<Token>, names: seq<string>, k: nat, format: string)
    requires IsTable(names) && Tokenizes(ts, names) && k <= |names| && format == Flatten(ts, names)
    ensures AreTokens(AfterSweeps(ts, k), |names|)
    ensures SweptFormat(format, names, k) == Flatten(AfterSweeps(ts, k), names)
    decreases k
  {
    if k == 0 {
      assert AfterSweeps(ts, 0) == ts;
    } else {
      SweepsAreTokenwise(ts, names, k - 1, format);
      SweepStep(ts, names, k - 1, SweptFormat(format, names, k - 1));
    }
  }

  lemma FlaggedMeansPresent(ts: seq<Token>, names: seq<string>, i: nat, format: string)
    requires IsTable(names) && Tokenizes(ts, names) && i < |names| && format == Flatten(ts, names)
    ensures Flagged(format, names, i) <==> Spec(i) in ts
  {
    SweepsAreTokenwise(ts, names, i, format);
    SweepStep(ts, names, i, SweptFormat(format, names, i));
  }

  // ---------- Replacements, position by position ----------

  lemma {:induction false} ReplaceTokensAt(ts: seq<Token>, i: nat, value: string, p: nat)
    requires p < |ts|
    ensures ReplaceTokens(ts, i, value)[p] ==
            if SpecBefore(ts, i, p) then ts[p]
            else if ts[p] == Spec(i) then Plain(value)
            else if ts[p] == EscapedSpec(i) then Spec(i)
            else ts[p]
    decreases |ts|
  {
    if p > 0 {
      TailBefore(ts, i, p);
      if ts[0] != Spec(i) {
        ReplaceTokensAt(ts[1..], i, value, p - 1);
      }
    }
  }

  /** The tokens when the specifiers in `done` have had their turn. */
  function Midway(ts: seq<Token>, plan: seq<Plan>, done: set<nat>): (mid: seq<Token>)
    requires AreTokens(ts, |plan|)
    ensures |mid| == |ts| && AreTokens(mid, |plan|)
  {
    seq(|ts|, p requires 0 <= p < |ts| => if !ts[p].Plain? && ts[p].i in done then FinalAt(ts, p, plan) else SweptAt(ts, p))
  }

  /** The first unescaped occurrence of a specifier that has not had its turn is still where it was. */
  lemma MidwayBefore(ts: seq<Token>, plan: seq<Plan>, done: set<nat>, i: nat, p: nat)
    requires AreTokens(ts, |plan|) && i !in done && p <= |ts|
    ensures SpecBefore(Midway(ts, plan, done), i, p) <==> SpecBefore(ts, i, p)
  {
    var mid := Midway(ts, plan, done);
    if q :| 0 <= q < p && ts[q] == Spec(i) {
      assert mid[q] == Spec(i);
    }
    if q :| 0 <= q < p && mid[q] == Spec(i) {
      assert ts[q] == Spec(i) || SpecBefore(ts, i, q);
    }
  }

  /** The value of specifier `i` is put in. */
  predicate IsDue(ts: seq<Token>, plan: seq<Plan>, i: nat)
    requires i < |plan|
  {
    plan[i].Always? || (plan[i].IfFlagged? && Spec(i) in ts)
  }

  lemma NextReplacementAt(ts: seq<Token>, plan: seq<Plan>, done: set<nat>, i: nat, p: nat)
    requires AreTokens(ts, |plan|) && i !in done && i < |plan| && p < |ts| && IsDue(ts, plan, i)
    ensures ReplaceTokens(Midway(ts, plan, done), i, plan[i].value)[p] == Midway(ts, plan, done + {i})[p]
  {
    var mid := Midway(ts, plan, done);
    ReplaceTokensAt(mid, i, plan[i].value, p);
    MidwayBefore(ts, plan, done, i, p);
  }

  lemma NextReplacement(ts: seq<Token>, plan: seq<Plan>, done: set<nat>, i: nat)
    requires AreTokens(ts, |plan|) && i !in done && i < |plan|
    ensures Midway(ts, plan, done + {i}) ==
            if IsDue(ts, plan, i) then ReplaceTokens(Midway(ts, plan, done), i, plan[i].value) else Midway(ts, plan, done)
  {
    if IsDue(ts, plan, i) {
      forall p | 0 <= p < |ts|
        ensures ReplaceTokens(Midway(ts, plan, done), i, plan[i].value)[p] == Midway(ts, plan, done + {i})[p] {
        NextReplacementAt(ts, plan, done, i, p);
      }
    }
  }

  ghost predicate EachOnce(order: seq<nat>, n: nat) {
    && (forall a :: 0 <= a < |order| ==> order[a] < n)
    && (forall a, b :: 0 <= a < b < |order| ==> order[a] != order[b])
  }

  function TurnsBefore(order: seq<nat>, k: nat): set<nat>
    requires k <= |order|
  {
    set a | 0 <= a < k :: order[a]
  }

  /** Whenever a value is put in, its specifier does not stand in the text of the line as it is by then, values included,
      as far as the first place where the format has it. */
  ghost predicate Calm(ts: seq<Token>, names: seq<string>, plan: seq<Plan>, order: seq<nat>)
    requires AreTokens(ts, |plan|) && |plan| == |names| && forall a :: 0 <= a < |order| ==> order[a] < |names|
  {
    forall k :: 0 <= k < |order| && IsDue(ts, plan, order[k]) ==>
      ClearUntil(Midway(ts, plan, TurnsBefore(order, k)), order[k], names)
  }

  lemma TurnIsTokenwise(ts: seq<Token>, names: seq<string>, plan: seq<Plan>, done: set<nat>, i: nat, format: string)
    requires IsTable(names) && Tokenizes(ts, names) && format == Flatten(ts, names)
    requires |plan| == |names| && i < |names| && i !in done
    requires IsDue(ts, plan, i) ==> ClearUntil(Midway(ts, plan, done), i, names)
    ensures ReplaceOne(Flatten(Midway(ts, plan, done), names), Flagged(format, names, i), names[i], plan[i]) ==
            Flatten(Midway(ts, plan, done + {i}), names)
  {
    var mid := Midway(ts, plan, done);
    FlaggedMeansPresent(ts, names, i, format);
    NextReplacement(ts, plan, done, i);
    if IsDue(ts, plan, i) {
      ReplaceLoopOverTokens(mid, i, names, plan[i].value, Flatten(mid, names));
    }
  }

  lemma NextTurn(order: seq<nat>, k: nat, n: nat)
    requires EachOnce(order, n) && k < |order|
    ensures order[k] !in TurnsBefore(order, k) && TurnsBefore(order, k + 1) == TurnsBefore(order, k) + {order[k]}
    ensures order[k..][0] == order[k] && order[k..][1..] == order[k + 1..]
  {}

  lemma {:induction false} TurnsAreTokenwise(ts: seq<Token>, names: seq<string>, plan: seq<Plan>, order: seq<nat>, k: nat,
                                             format: string)
    requires IsTable(names) && Tokenizes(ts, names) && format == Flatten(ts, names)
    requires |plan| == |names| && EachOnce(order, |names|) && Calm(ts, names, plan, order) && k <= |order|
    ensures ReplaceInTurn(Flatten(Midway(ts, plan, TurnsBefore(order, k)), names), format, names, plan, order[k..]) ==
            Flatten(Midway(ts, plan, TurnsBefore(order, |order|)), names)
    decreases |order| - k
  {
    if k < |order| {
      NextTurn(order, k, |names|);
      TurnIsTokenwise(ts, names, plan, TurnsBefore(order, k), order[k], format);
      TurnsAreTokenwise(ts, names, plan, order, k + 1, format);
    }
  }

  /** Sweeping for one specifier after the other and then putting the values in, in whatever order, is one
      simultaneous substitution, as long as it is calm. */
  lemma CalmLineIsSubstituted(ts: seq<Token>, names: seq<string>, plan: seq<Plan>, order: seq<nat>, format: string)
    requires IsTable(names) && Tokenizes(ts, names) && format == Flatten(ts, names)
    requires |plan| == |names| && EachOnce(order, |names|) && Calm(ts, names, plan, order)
    requires forall i :: 0 <= i < |plan| && !plan[i].Keep? ==> i in order
    ensures Line(format, names, plan, order) == Flatten(Substituted(ts, plan), names)
  {
    var none := TurnsBefore(order, 0);
    SweepsAreTokenwise(ts, names, |names|, format);
    assert AfterSweeps(ts, |names|) == Midway(ts, plan, none);
    assert order[0..] == order;
    TurnsAreTokenwise(ts, names, plan, order, 0, format);
    EndIsSubstituted(ts, plan, order);
  }

  lemma EndIsSubstituted(ts: seq<Token>, plan: seq<Plan>, order: seq<nat>)
    requires AreTokens(ts, |plan|) && forall i :: 0 <= i < |plan| && !plan[i].Keep? ==> i in order
    ensures Midway(ts, plan, TurnsBefore(order, |order|)) == Substituted(ts, plan)
  {
    var all := TurnsBefore(order, |order|);
    forall p | 0 <= p < |ts| ensures Midway(ts, plan, all)[p] == Substituted(ts, plan)[p] {
      if !ts[p].Plain? && ts[p].i in order {
        var a :| 0 <= a < |order| && order[a] == ts[p].i;
      }
    }
  }

  // ---------- What keeps a line calm ----------

  /** `what` neither stands in `text` nor begins at its end. */
  predicate Inert(text: string, what: string) {
    forall k :: 0 <= k < |text| ==> !(what <= text[k..]) && !(text[k..] <= what)
  }

  /** No value holds what a later replacement would take for its specifier. */
  ghost predicate Undisturbed(names: seq<string>, plan: seq<Plan>, order: seq<nat>)
    requires |plan| == |names| && forall a :: 0 <= a < |order| ==> order[a] < |names|
  {
    forall a, b :: 0 <= a < b < |order| && !plan[order[a]].Keep? && !plan[order[b]].Keep? ==>
      Inert(plan[order[a]].value, names[order[b]])
  }

  /** No text that is the beginning of a specifier is followed by another one, whose value might complete it. */
  ghost predicate NoneCompleted(ts: seq<Token>, names: seq<string>) {
    forall p, k, j :: 0 <= p < |ts| && ts[p].Plain? && 0 <= k < |ts[p].text| && 0 <= j < |names| ==>
      ts[p].text[k..] + PlainRun(ts[p + 1..]) <= names[j] ==> !LeadIsSpec(ts[p + 1..])
  }

  predicate LeadIsSpec(ts: seq<Token>) {
    Lead(ts).Some? && Lead(ts).value.Spec?
  }

  /** Some unescaped specifiers have become text. */
  ghost predicate IsGrown(ts: seq<Token>, mid: seq<Token>) {
    && |mid| == |ts|
    && forall p :: 0 <= p < |ts| ==> (ts[p].Plain? ==> mid[p] == ts[p]) && (mid[p].Plain? ==> ts[p].Plain? || ts[p].Spec?)
  }

  /** Where the first specifier is. */
  function LeadAt(ts: seq<Token>): (r: nat)
    ensures r <= |ts| && (forall q :: 0 <= q < r ==> ts[q].Plain?) && (r < |ts| ==> !ts[r].Plain?)
    ensures Lead(ts) == if r < |ts| then Some(ts[r]) else None
  {
    if ts == [] || !ts[0].Plain? then 0 else 1 + LeadAt(ts[1..])
  }

  lemma {:induction false} RunGrows(ts: seq<Token>, mid: seq<Token>)
    requires IsGrown(ts, mid)
    ensures PlainRun(ts) <= PlainRun(mid)
    ensures !LeadIsSpec(ts) ==> PlainRun(mid) == PlainRun(ts) && LeadAt(mid) == LeadAt(ts)
    decreases |ts|
  {
    if ts != [] {
      RunGrows(ts[1..], mid[1..]);
    }
  }

  lemma MidwayIsGrown(ts: seq<Token>, plan: seq<Plan>, done: set<nat>, q: nat)
    requires AreTokens(ts, |plan|) && q <= |ts|
    ensures IsGrown(ts[q..], Midway(ts, plan, done)[q..])
  {}

  lemma TextStaysApart(ts: seq<Token>, mid: seq<Token>, names: seq<string>, i: nat, p: nat, k: nat)
    requires i < |names| && AreTokens(ts, |names|) && NoneCompleted(ts, names) && Clear(ts, i, names)
    requires p < |ts| && |mid| == |ts| && mid[p] == ts[p] && ts[p].Plain? && IsGrown(ts[p + 1..], mid[p + 1..])
    requires k < |ts[p].text|
    ensures !(names[i] <= mid[p].text[k..] + PlainRun(mid[p + 1..]))
  {
    var w, text, run, grown := names[i], ts[p].text, PlainRun(ts[p + 1..]), PlainRun(mid[p + 1..]);
    RunGrows(ts[p + 1..], mid[p + 1..]);
    assert !(w <= text[k..] + run) by { assert ClearAt(ts, i, names, p) && StandsNowhere(w, text, run); }
    if LeadIsSpec(ts[p + 1..]) {
      assert !(text[k..] + run <= w);
      RunGoesOn(w, text[k..], run, grown);
    }
  }

  lemma RunGoesOn(what: string, text: string, run: string, grown: string)
    requires run <= grown && !(what <= text + run) && !(text + run <= what)
    ensures !(what <= text + grown)
  {
    var more := grown[|run|..];
    assert grown == run + more && text + grown == (text + run) + more;
    OnlyOneStands(text + run, what, more);
  }

  lemma ValueStaysApart(value: string, what: string, k: nat, run: string)
    requires Inert(value, what) && k < |value|
    ensures !(what <= value[k..] + run)
  {
    OnlyOneStands(value[k..], what, run);
  }

  /** All that is known when specifier `i`, the one at turn `k`, is due. */
  ghost predicate IsSetting(ts: seq<Token>, names: seq<string>, plan: seq<Plan>, order: seq<nat>, k: nat, i: nat) {
    && IsTable(names) && Tokenizes(ts, names) && |plan| == |names| && EachOnce(order, |names|)
    && Undisturbed(names, plan, order) && NoneCompleted(ts, names)
    && k < |order| && i == order[k] && !plan[i].Keep?
  }

  lemma InsertedIsInert(ts: seq<Token>, names: seq<string>, plan: seq<Plan>, order: seq<nat>, k: nat, i: nat, p: nat)
    requires IsSetting(ts, names, plan, order, k, i) && p < |ts| && !ts[p].Plain?
    requires Midway(ts, plan, TurnsBefore(order, k))[p].Plain?
    ensures Inert(Midway(ts, plan, TurnsBefore(order, k))[p].text, names[i])
  {
    var a :| 0 <= a < k && order[a] == ts[p].i;
  }

  lemma NothingFromHere(ts: seq<Token>, names: seq<string>, plan: seq<Plan>, order: seq<nat>, k: nat, i: nat, p: nat, n: nat)
    requires IsSetting(ts, names, plan, order, k, i) && p < |ts|
    requires Midway(ts, plan, TurnsBefore(order, k))[p].Plain? && n < |Midway(ts, plan, TurnsBefore(order, k))[p].text|
    ensures var mid := Midway(ts, plan, TurnsBefore(order, k)); !(names[i] <= mid[p].text[n..] + PlainRun(mid[p + 1..]))
  {
    var mid := Midway(ts, plan, TurnsBefore(order, k));
    if ts[p].Plain? {
      MidwayIsGrown(ts, plan, TurnsBefore(order, k), p + 1);
      TextStaysApart(ts, mid, names, i, p, n);
    } else {
      InsertedIsInert(ts, names, plan, order, k, i, p);
      ValueStaysApart(mid[p].text, names[i], n, PlainRun(mid[p + 1..]));
    }
  }

  lemma {:induction false} NothingInRun(ts: seq<Token>, names: seq<string>, plan: seq<Plan>, order: seq<nat>, k: nat, i: nat,
                                        p: nat)
    requires IsSetting(ts, names, plan, order, k, i) && p <= |ts|
    ensures !(names[i] <= PlainRun(Midway(ts, plan, TurnsBefore(order, k))[p..]))
    decreases |ts| - p
  {
    var mid := Midway(ts, plan, TurnsBefore(order, k));
    if p < |ts| && mid[p].Plain? {
      assert mid[p..][0] == mid[p] && mid[p..][1..] == mid[p + 1..];
      var text := mid[p].text;
      if text == "" {
        NothingInRun(ts, names, plan, order, k, i, p + 1);
        assert text + PlainRun(mid[p + 1..]) == PlainRun(mid[p + 1..]);
      } else {
        NothingFromHere(ts, names, plan, order, k, i, p, 0);
        assert text[0..] == text;
      }
    }
  }

  lemma StandsNowhereMidway(ts: seq<Token>, names: seq<string>, plan: seq<Plan>, order: seq<nat>, k: nat, i: nat, p: nat)
    requires IsSetting(ts, names, plan, order, k, i) && p < |ts| && Midway(ts, plan, TurnsBefore(order, k))[p].Plain?
    ensures var mid := Midway(ts, plan, TurnsBefore(order, k)); StandsNowhere(names[i], mid[p].text, PlainRun(mid[p + 1..]))
  {
    var mid := Midway(ts, plan, TurnsBefore(order, k));
    var text, run := mid[p].text, PlainRun(mid[p + 1..]);
    forall n | 0 <= n <= |text| ensures !(names[i] <= text[n..] + run) {
      if n < |text| {
        NothingFromHere(ts, names, plan, order, k, i, p, n);
      } else {
        NothingInRun(ts, names, plan, order, k, i, p + 1);
        assert text[n..] + run == run;
      }
    }
  }

  /** A value that is inert does not end in '%', and text that does is followed by no specifier but an escaped one. */
  lemma PercentMidway(ts: seq<Token>, names: seq<string>, plan: seq<Plan>, order: seq<nat>, k: nat, i: nat, p: nat)
    requires IsSetting(ts, names, plan, order, k, i) && p < |ts| && Midway(ts, plan, TurnsBefore(order, k))[p].Plain?
    requires !SpecBefore(Midway(ts, plan, TurnsBefore(order, k)), i, p)
    ensures var mid := Midway(ts, plan, TurnsBefore(order, k));
            var text := mid[p].text;
            text != "" && text[|text| - 1] == '%' && PlainRun(mid[p + 1..]) == "" ==> Lead(mid[p + 1..]) != Some(Spec(i))
  {
    var done := TurnsBefore(order, k);
    var mid := Midway(ts, plan, done);
    var text := mid[p].text;
    if text != "" && text[|text| - 1] == '%' && PlainRun(mid[p + 1..]) == "" {
      assert text[|text| - 1..] == "%" && "%" <= names[i];
      if ts[p].Plain? {
        MidwayIsGrown(ts, plan, done, p + 1);
        RunGrows(ts[p + 1..], mid[p + 1..]);
        assert text[|text| - 1..] + PlainRun(ts[p + 1..]) == "%";
        EscapeStaysEscaped(ts, plan, done, i, p, LeadAt(ts[p + 1..]));
      } else {
        InsertedIsInert(ts, names, plan, order, k, i, p);
      }
    }
  }

  /** Behind text, up to the next specifier, there is no unescaped occurrence that was not there before it. */
  lemma EscapeStaysEscaped(ts: seq<Token>, plan: seq<Plan>, done: set<nat>, i: nat, p: nat, r: nat)
    requires AreTokens(ts, |plan|) && i !in done && p < |ts| && ts[p].Plain? && r == LeadAt(ts[p + 1..])
    requires !LeadIsSpec(ts[p + 1..]) && LeadAt(Midway(ts, plan, done)[p + 1..]) == r
    requires !SpecBefore(Midway(ts, plan, done), i, p)
    ensures Lead(Midway(ts, plan, done)[p + 1..]) != Some(Spec(i))
  {
    var mid := Midway(ts, plan, done);
    if r < |ts[p + 1..]| {
      var q := p + 1 + r;
      assert mid[p + 1..][r] == mid[q] && ts[p + 1..][r] == ts[q];
      MidwayBefore(ts, plan, done, i, p);
      assert !SpecBefore(ts, i, q) by {
        forall x | p < x < q ensures ts[x].Plain? { assert ts[p + 1..][x - p - 1] == ts[x]; }
      }
    }
  }

  /** Values that are inert, in a format with no text for them to complete, keep it calm. */
  lemma UndisturbedIsCalm(ts: seq<Token>, names: seq<string>, plan: seq<Plan>, order: seq<nat>)
    requires IsTable(names) && Tokenizes(ts, names) && |plan| == |names| && EachOnce(order, |names|)
    requires Undisturbed(names, plan, order) && NoneCompleted(ts, names)
    ensures Calm(ts, names, plan, order)
  {
    forall k | 0 <= k < |order| && IsDue(ts, plan, order[k])
      ensures ClearUntil(Midway(ts, plan, TurnsBefore(order, k)), order[k], names)
    {
      var mid, i := Midway(ts, plan, TurnsBefore(order, k)), order[k];
      forall p | 0 <= p < |mid| && !SpecBefore(mid, i, p) ensures ClearAt(mid, i, names, p) {
        if mid[p].Plain? {
          StandsNowhereMidway(ts, names, plan, order, k, i, p);
          PercentMidway(ts, names, plan, order, k, i, p);
        }
      }
    }
  }

  /** The same for any format at all, cut into its specifiers and the text between them. */
  lemma LineIsSubstituted(format: string, names: seq<string>, plan: seq<Plan>, order: seq<nat>)
    requires IsTable(names) && |plan| == |names| && EachOnce(order, |names|)
    requires forall i :: 0 <= i < |plan| && !plan[i].Keep? ==> i in order
    requires Undisturbed(names, plan, order) && NoneCompleted(Tokens(format, names), names)
    ensures AreTokens(Tokens(format, names), |names|)
    ensures Line(format, names, plan, order) == Flatten(Substituted(Tokens(format, names), plan), names)
  {
    var ts := Tokens(format, names);
    TokensFlatten(format, names);
    forall i | 0 <= i < |names| ensures Clear(ts, i, names) { TokensAreClear(format, names, i); }
    UndisturbedIsCalm(ts, names, plan, order);
    CalmLineIsSubstituted(ts, names, plan, order, format);
  }

  // ---------- Values that are reread ----------

  lemma LettersAreInert(letters: string, what: string)
    requires what != "" && what[0] == '%' && '%' !in letters
    ensures Inert(letters, what)
  {
    forall k | 0 <= k < |letters| ensures !(what <= letters[k..]) && !(letters[k..] <= what) {
      assert letters[k..][0] == letters[k];
    }
  }

  lemma InertIsCopied(text: string, rest: string, what: string, pass: Pass, seen: bool)
    requires IsSpecifier(what) && Inert(text, what)
    ensures OnePass(text + rest, what, pass, seen) == text + OnePass(rest, what, pass, seen)
  {
    var s := text + rest;
    forall k: nat | k < |text| ensures !At(s, what, k) {
      OnlyOneStands(text[k..], what, rest);
      assert s[k..] == text[k..] + rest;
      AtMeansPrefix(s, what, k);
    }
    assert text != "" ==> text[|text| - 1..] == [text[|text| - 1]];
    SkippedFrom(s, what, |text|);
    SkippedIsCopied(text, rest, what, pass, seen);
  }

  lemma {:induction false} NothingGrows(s: string, what: string)
    requires |what| >= 1
    ensures |OnePass(s, what, Pass(true, "", true), false)| <= |s|
    decreases |s|
  {
    if s != "" {
      NothingGrows(s[if s[0] == '%' && At(s, what, 1) then 1 + |what| else 1..], what);
    }
  }

  lemma {:induction false} OccurrenceShrinks(s: string, what: string, k: nat)
    requires |what| >= 1 && At(s, what, k)
    ensures |OnePass(s, what, Pass(true, "", true), false)| < |s|
    decreases |s|
  {
    if s[0] == '%' && At(s, what, 1) {
      NothingGrows(s[1 + |what|..], what);
    } else if !At(s, what, 0) {
      DropAt(s, what, 1, k - 1);
      OccurrenceShrinks(s[1..], what, k - 1);
    }
  }

  /** Text that is not inert shows it: with the right text behind it, the pass takes some of it away. */
  lemma ActiveTextIsTouched(text: string, what: string, k: nat) returns (rest: string)
    requires IsSpecifier(what) && |what| >= 3 && k < |text| && (what <= text[k..] || text[k..] <= what)
    ensures ReplaceFrom(text + rest, what, "", -1) != text + ReplaceFrom(rest, what, "", -1)
  {
    rest := if what <= text[k..] then "" else what[|text| - k..];
    var s, pass := text + rest, Pass(true, "", true);
    assert s[k..] == text[k..] + rest;
    AtMeansPrefix(s, what, k);
    OccurrenceShrinks(s, what, k);
    assert forall q :: 0 <= q < |rest| ==> rest[q] == what[1..][|text| - k - 1 + q];
    LettersAreInert(rest, what);
    InertIsCopied(rest, "", what, pass, false);
    assert rest + "" == rest && OnePass("", what, pass, false) == "";
    ReplaceIsPass(s, what, "");
    ReplaceIsPass(rest, what, "");
  }

  /** A later replacement leaves a value alone, whatever follows it in the line, exactly when its specifier neither
      stands in the value nor begins at the end of it. */
  lemma InertCondition(text: string, what: string)
    requires IsSpecifier(what) && |what| >= 3
    ensures (forall rest, value :: ReplaceFrom(text + rest, what, value, -1) == text + ReplaceFrom(rest, what, value, -1))
            <==> Inert(text, what)
  {
    if Inert(text, what) {
      forall rest, value ensures ReplaceFrom(text + rest, what, value, -1) == text + ReplaceFrom(rest, what, value, -1) {
        ReplaceIsPass(text + rest, what, value);
        ReplaceIsPass(rest, what, value);
        InertIsCopied(text, rest, what, Pass(true, value, true), false);
      }
    } else {
      var k :| 0 <= k < |text| && (what <= text[k..] || text[k..] <= what);
      var rest := ActiveTextIsTouched(text, what, k);
    }
  }

  ghost predicate Absent(ts: seq<Token>, i: nat) {
    forall p :: 0 <= p < |ts| ==> !IsOf(ts[p], i)
  }

  lemma {:induction false} ReplaceAbsent(ts: seq<Token>, i: nat, value: string)
    requires Absent(ts, i)
    ensures ReplaceTokens(ts, i, value) == ts
    decreases |ts|
  {
    if ts != [] {
      ReplaceAbsent(ts[1..], i, value);
    }
  }

  lemma ClearMeansUntil(ts: seq<Token>, i: nat, names: seq<string>)
    requires i < |names| && Clear(ts, i, names)
    ensures ClearUntil(ts, i, names)
  {}

  /** The turns of specifiers that do not occur change nothing. */
  lemma {:induction false} IdleTurns(ts: seq<Token>, line: string, format: string, names: seq<string>, plan: seq<Plan>,
                                     idle: seq<nat>, order: seq<nat>)
    requires IsTable(names) && Tokenizes(ts, names) && line == Flatten(ts, names) && |plan| == |names|
    requires forall a :: 0 <= a < |idle| ==> idle[a] < |names| && Absent(ts, idle[a])
    requires forall a :: 0 <= a < |order| ==> order[a] < |names|
    ensures ReplaceInTurn(line, format, names, plan, idle + order) == ReplaceInTurn(line, format, names, plan, order)
    decreases |idle|
  {
    if idle == [] {
      assert idle + order == order;
    } else {
      var i := idle[0];
      if !plan[i].Keep? {
        ClearMeansUntil(ts, i, names);
        ReplaceLoopOverTokens(ts, i, names, plan[i].value, line);
        ReplaceAbsent(ts, i, plan[i].value);
      }
      assert (idle + order)[0] == i && (idle + order)[1..] == idle[1..] + order;
      IdleTurns(ts, line, format, names, plan, idle[1..], order);
    }
  }

  lemma FlattenCons(t: Token, rest: seq<Token>, names: seq<string>, ts: seq<Token>)
    requires (t.Plain? || t.i < |names|) && AreTokens(rest, |names|) && ts == [t] + rest
    ensures AreTokens(ts, |names|) && Flatten(ts, names) == TextOf(t, names) + Flatten(rest, names)
  {
    assert ts[1..] == rest;
  }

  lemma FlattenThree(a: Token, b: Token, c: Token, names: seq<string>)
    requires (a.Plain? || a.i < |names|) && (b.Plain? || b.i < |names|) && (c.Plain? || c.i < |names|)
    ensures AreTokens([a, b, c], |names|)
    ensures Flatten([a, b, c], names) == TextOf(a, names) + TextOf(b, names) + TextOf(c, names)
  {
    FlattenCons(c, [], names, [c]);
    FlattenCons(b, [c], names, [b, c]);
    FlattenCons(a, [b, c], names, [a, b, c]);
    Regroup(TextOf(a, names), TextOf(b, names), TextOf(c, names));
    assert Flatten([], names) == "" && TextOf(c, names) + "" == TextOf(c, names);
  }

  lemma SpaceIsClear(ts: seq<Token>, p: nat, i: nat, names: seq<string>)
    requires IsTable(names) && i < |names| && p + 1 < |ts| && ts[p] == Plain(" ") && !ts[p + 1].Plain?
    ensures ClearAt(ts, i, names, p)
  {
    var w := names[i];
    assert ts[p + 1..][0] == ts[p + 1] && PlainRun(ts[p + 1..]) == "";
    forall k | 0 <= k <= 1 ensures !(w <= " "[k..] + "") {
      assert " "[k..] + "" == if k == 0 then " " else "";
    }
  }

  lemma PairTokenizes(i: nat, j: nat, names: seq<string>)
    requires IsTable(names) && i < |names| && j < |names|
    ensures Tokenizes([Spec(i), Plain(" "), Spec(j)], names)
  {
    var ts := [Spec(i), Plain(" "), Spec(j)];
    forall what, p | 0 <= what < |names| && 0 <= p < |ts| ensures ClearAt(ts, what, names, p) {
      if p == 1 { SpaceIsClear(ts, 1, what, names); }
    }
  }

  /** The turn that puts the value in. */
  lemma PairIsReplaced(i: nat, j: nat, names: seq<string>, value: string, line: string)
    requires IsTable(names) && i < |names| && j < |names| && line == names[i] + " " + names[j]
    ensures ReplaceFrom(line, names[i], value, -1) == value + " " + names[j]
  {
    var ts := [Spec(i), Plain(" "), Spec(j)];
    PairTokenizes(i, j, names);
    FlattenThree(Spec(i), Plain(" "), Spec(j), names);
    ClearMeansUntil(ts, i, names);
    ReplaceLoopOverTokens(ts, i, names, value, line);
    assert ReplaceTokens(ts, i, value) == [Plain(value), Plain(" "), Spec(j)];
    FlattenThree(Plain(value), Plain(" "), Spec(j), names);
  }

  /** The pair is not changed by its sweeps, and both flags are up. */
  lemma PairIsSwept(i: nat, j: nat, names: seq<string>, format: string)
    requires IsTable(names) && i < |names| && j < |names| && format == names[i] + " " + names[j]
    ensures SweptFormat(format, names, |names|) == format && Flagged(format, names, i) && Flagged(format, names, j)
  {
    var ts := [Spec(i), Plain(" "), Spec(j)];
    PairTokenizes(i, j, names);
    FlattenThree(Spec(i), Plain(" "), Spec(j), names);
    SweepsAreTokenwise(ts, names, |names|, format);
    assert AfterSweeps(ts, |names|) == ts;
    assert ts[0] == Spec(i) && ts[2] == Spec(j);
    FlaggedMeansPresent(ts, names, i, format);
    FlaggedMeansPresent(ts, names, j, format);
  }

  lemma PairSubstituted(i: nat, j: nat, names: seq<string>, plan: seq<Plan>)
    requires i < |names| && j < |names| && i != j && |plan| == |names| && !plan[i].Keep? && !plan[j].Keep?
    ensures Flatten(Substituted([Spec(i), Plain(" "), Spec(j)], plan), names) == plan[i].value + " " + plan[j].value
  {
    var ts := [Spec(i), Plain(" "), Spec(j)];
    assert ts[0] == Spec(i) && ts[2] == Spec(j);
    assert Substituted(ts, plan) == [Plain(plan[i].value), Plain(" "), Plain(plan[j].value)];
    FlattenThree(Plain(plan[i].value), Plain(" "), Plain(plan[j].value), names);
  }

  /** The first turn of a pair, after turns that have nothing to do. */
  lemma PairTurn(i: nat, j: nat, line: string, format: string, names: seq<string>, plan: seq<Plan>, idle: seq<nat>,
                 order: seq<nat>)
    requires IsTable(names) && |plan| == |names| && i < |names| && j < |names| && line == names[i] + " " + names[j]
    requires !plan[i].Keep? && Flagged(format, names, i)
    requires forall a :: 0 <= a < |idle| ==> idle[a] < |names| && idle[a] != i && idle[a] != j
    requires forall a :: 0 <= a < |order| ==> order[a] < |names|
    ensures ReplaceInTurn(line, format, names, plan, idle + ([i] + order)) ==
            ReplaceInTurn(plan[i].value + " " + names[j], format, names, plan, order)
  {
    PairTokenizes(i, j, names);
    FlattenThree(Spec(i), Plain(" "), Spec(j), names);
    IdleTurns([Spec(i), Plain(" "), Spec(j)], line, format, names, plan, idle, [i] + order);
    PairIsReplaced(i, j, names, plan[i].value, line);
    assert ([i] + order)[1..] == order;
  }

  /** A value that spells a specifier whose turn is still to come takes that specifier's value, and the specifier
      itself stays in the line. */
  lemma ValueIsReread(names: seq<string>, plan: seq<Plan>, before: seq<nat>, i: nat, between: seq<nat>, j: nat,
                      format: string)
    requires IsTable(names) && |plan| == |names| && i < |names| && j < |names|
    requires forall a :: 0 <= a < |before| ==> before[a] < |names| && before[a] != i && before[a] != j
    requires forall a :: 0 <= a < |between| ==> between[a] < |names| && between[a] != i && between[a] != j
    requires !plan[i].Keep? && !plan[j].Keep? && plan[i].value == names[j] && format == names[i] + " " + names[j]
    ensures Line(format, names, plan, before + ([i] + (between + ([j] + [])))) == plan[j].value + " " + names[j]
  {
    PairIsSwept(i, j, names, format);
    PairTurn(i, j, format, format, names, plan, before, between + ([j] + []));
    PairTurn(j, j, names[j] + " " + names[j], format, names, plan, between, []);
  }

  // ---------- Text that a value completes ----------

  /** The beginning of specifier `j`, another specifier, and then `j` itself. */
  function Completable(t: string, i: nat, j: nat): seq<Token> {
    [Plain(t), Spec(i), Plain(" "), Spec(j)]
  }

  lemma BeginningIsClear(t: string, u: string, i: nat, j: nat, what: nat, names: seq<string>)
    requires IsTable(names) && i < |names| && j < |names| && what < |names| && names[j] == t + u && |t| >= 2 && u != ""
    ensures ClearAt(Completable(t, i, j), what, names, 0)
  {
    var ts, w, name := Completable(t, i, j), names[what], names[j];
    assert ts[1..][0] == Spec(i) && PlainRun(ts[1..]) == "";
    assert forall k :: 1 <= k < |name| ==> name[k] == name[1..][k - 1] != '%';
    forall k | 0 <= k <= |t| ensures !(w <= t[k..] + "") {
      assert t[k..] + "" == t[k..];
      if k == 0 {
        assert t[0..] == t && t <= name;
      } else if k < |t| {
        assert t[k..][0] == name[k];
      }
    }
    assert t[|t| - 1] == name[|t| - 1];
  }

  lemma CompletableTokenizes(t: string, u: string, i: nat, j: nat, names: seq<string>)
    requires IsTable(names) && i < |names| && j < |names| && names[j] == t + u && |t| >= 2 && u != ""
    ensures Tokenizes(Completable(t, i, j), names)
  {
    var ts := Completable(t, i, j);
    forall what, p | 0 <= what < |names| && 0 <= p < |ts| ensures ClearAt(ts, what, names, p) {
      if p == 0 { BeginningIsClear(t, u, i, j, what, names); }
      if p == 2 { SpaceIsClear(ts, 2, what, names); }
    }
  }

  lemma FlattenFour(t: string, b: Token, d: Token, names: seq<string>)
    requires (b.Plain? || b.i < |names|) && (d.Plain? || d.i < |names|)
    ensures AreTokens([Plain(t), b, Plain(" "), d], |names|)
    ensures Flatten([Plain(t), b, Plain(" "), d], names) == t + TextOf(b, names) + " " + TextOf(d, names)
  {
    FlattenThree(b, Plain(" "), d, names);
    FlattenCons(Plain(t), [b, Plain(" "), d], names, [Plain(t), b, Plain(" "), d]);
    Regroup(t, TextOf(b, names) + " ", TextOf(d, names));
    Regroup(t, TextOf(b, names), " ");
  }

  lemma CompletableIsSwept(t: string, u: string, i: nat, j: nat, names: seq<string>, format: string)
    requires IsTable(names) && i < |names| && j < |names| && names[j] == t + u && |t| >= 2 && u != ""
    requires format == t + names[i] + " " + names[j]
    ensures AreTokens(Completable(t, i, j), |names|) && Flatten(Completable(t, i, j), names) == format
    ensures SweptFormat(format, names, |names|) == format && Flagged(format, names, i) && Flagged(format, names, j)
  {
    var ts := Completable(t, i, j);
    CompletableTokenizes(t, u, i, j, names);
    FlattenFour(t, Spec(i), Spec(j), names);
    SweepsAreTokenwise(ts, names, |names|, format);
    assert AfterSweeps(ts, |names|) == ts;
    assert ts[1] == Spec(i) && ts[3] == Spec(j);
    FlaggedMeansPresent(ts, names, i, format);
    FlaggedMeansPresent(ts, names, j, format);
  }

  /** The value turns the beginning into the whole. */
  lemma BeginningIsCompleted(t: string, u: string, i: nat, j: nat, names: seq<string>, line: string)
    requires IsTable(names) && i < |names| && j < |names| && names[j] == t + u && |t| >= 2 && u != "" && i != j
    requires line == t + names[i] + " " + names[j]
    ensures ReplaceFrom(line, names[i], u, -1) == names[j] + " " + names[j]
  {
    var ts := Completable(t, i, j);
    CompletableTokenizes(t, u, i, j, names);
    FlattenFour(t, Spec(i), Spec(j), names);
    ClearMeansUntil(ts, i, names);
    ReplaceLoopOverTokens(ts, i, names, u, line);
    assert ReplaceTokens(ts, i, u) == [Plain(t), Plain(u), Plain(" "), Spec(j)] by {
      assert ts[1..] == [Spec(i), Plain(" "), Spec(j)];
    }
    FlattenFour(t, Plain(u), Spec(j), names);
  }

  lemma CompletableSubstituted(t: string, i: nat, j: nat, names: seq<string>, plan: seq<Plan>)
    requires i < |names| && j < |names| && i != j && |plan| == |names| && !plan[i].Keep? && !plan[j].Keep?
    ensures AreTokens(Completable(t, i, j), |plan|)
    ensures Flatten(Substituted(Completable(t, i, j), plan), names) == t + plan[i].value + " " + plan[j].value
  {
    var ts := Completable(t, i, j);
    assert ts[1] == Spec(i) && ts[3] == Spec(j);
    assert Substituted(ts, plan) == [Plain(t), Plain(plan[i].value), Plain(" "), Plain(plan[j].value)];
    FlattenFour(t, Plain(plan[i].value), Plain(plan[j].value), names);
  }

  lemma CompletingTurn(t: string, i: nat, j: nat, format: string, names: seq<string>, plan: seq<Plan>, idle: seq<nat>,
                       order: seq<nat>)
    requires IsTable(names) && |plan| == |names| && i < |names| && j < |names| && i != j
    requires !plan[i].Keep? && |t| >= 2 && plan[i].value != "" && names[j] == t + plan[i].value
    requires format == t + names[i] + " " + names[j] && Flagged(format, names, i)
    requires forall a :: 0 <= a < |idle| ==> idle[a] < |names| && idle[a] != i && idle[a] != j
    requires forall a :: 0 <= a < |order| ==> order[a] < |names|
    ensures ReplaceInTurn(format, format, names, plan, idle + ([i] + order)) ==
            ReplaceInTurn(names[j] + " " + names[j], format, names, plan, order)
  {
    CompletableTokenizes(t, plan[i].value, i, j, names);
    FlattenFour(t, Spec(i), Spec(j), names);
    IdleTurns(Completable(t, i, j), format, format, names, plan, idle, [i] + order);
    BeginningIsCompleted(t, plan[i].value, i, j, names, format);
    assert ([i] + order)[1..] == order;
  }

  /** A value that completes the beginning of a specifier whose turn is still to come: what it completes takes that
      specifier's value, and the specifier itself stays in the line. */
  lemma CompletedTextIsReread(names: seq<string>, plan: seq<Plan>, before: seq<nat>, i: nat, between: seq<nat>, j: nat,
                              t: string, format: string)
    requires IsTable(names) && |plan| == |names| && i < |names| && j < |names| && i != j
    requires forall a :: 0 <= a < |before| ==> before[a] < |names| && before[a] != i && before[a] != j
    requires forall a :: 0 <= a < |between| ==> between[a] < |names| && between[a] != i && between[a] != j
    requires !plan[i].Keep? && !plan[j].Keep? && |t| >= 2 && plan[i].value != "" && names[j] == t + plan[i].value
    requires format == t + names[i] + " " + names[j]
    ensures Line(format, names, plan, before + ([i] + (between + ([j] + [])))) == plan[j].value + " " + names[j]
    ensures AreTokens(Completable(t, i, j), |plan|)
    ensures Flatten(Substituted(Completable(t, i, j), plan), names) == names[j] + " " + plan[j].value
  {
    CompletableIsSwept(t, plan[i].value, i, j, names, format);
    CompletingTurn(t, i, j, format, names, plan, before, between + ([j] + []));
    PairTurn(j, j, names[j] + " " + names[j], format, names, plan, between, []);
    CompletableSubstituted(t, i, j, names, plan);
  }

  // ---------- A format that is one specifier ----------

  lemma AloneTokenizes(i: nat, names: seq<string>)
    requires IsTable(names) && i < |names|
    ensures Tokenizes([Spec(i)], names) && NoneCompleted([Spec(i)], names) && Flatten([Spec(i)], names) == names[i]
  {
    assert Flatten([], names) == "" && [Spec(i)][1..] == [] && names[i] + "" == names[i];
  }

  /** A specifier that is all of the format is the whole line if it is kept, and otherwise its value is. */
  lemma SpecifierAlone(i: nat, names: seq<string>, plan: seq<Plan>, order: seq<nat>)
    requires IsTable(names) && |plan| == |names| && EachOnce(order, |names|) && Undisturbed(names, plan, order) && i < |names|
    requires forall i :: 0 <= i < |plan| && !plan[i].Keep? ==> i in order
    ensures Line(names[i], names, plan, order) == if plan[i].Keep? then names[i] else plan[i].value
  {
    var ts := [Spec(i)];
    AloneTokenizes(i, names);
    UndisturbedIsCalm(ts, names, plan, order);
    CalmLineIsSubstituted(ts, names, plan, order, names[i]);
    assert ts[0] == Spec(i);
    if !plan[i].Keep? {
      var line := Substituted(ts, plan);
      assert line == [Plain(plan[i].value)] && line[1..] == [];
      assert Flatten(line[1..], names) == "" && plan[i].value + "" == plan[i].value;
    } else {
      assert Substituted(ts, plan) == ts;
    }
  }
}
