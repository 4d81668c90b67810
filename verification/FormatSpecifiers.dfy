/**
 How a log format specifier such as %msg is resolved (external/easylogging++/easylogging++.cc):
 LogFormat::parseFromFormat first sweeps the format for it, and Str::replaceFirstWithEscape later puts
 the value in. Both edit the string they are scanning; a specifier preceded by '%' is escaped.
 */
module FormatSpecifiers {

  import opened Text

  /** `what` occurs in `s` at `i`. */
  predicate At(s: string, what: string, i: nat)
    decreases |what|
  {
    i + |what| <= |s| && (what == "" || (s[i] == what[0] && At(s, what[1..], i + 1)))
  }

  lemma {:induction false} AtIsSlice(s: string, what: string, i: nat)
    ensures At(s, what, i) <==> i + |what| <= |s| && s[i..i + |what|] == what
    decreases |what|
  {
    if what != "" && i + |what| <= |s| {
      AtIsSlice(s, what[1..], i + 1);
      assert s[i..i + |what|] == [s[i]] + s[i + 1..i + |what|] && what == [what[0]] + what[1..];
    }
  }

  /** basic_string::find; -1 stands for npos, so that npos + 1 is 0. */
  function Find(s: string, what: string, from: nat): (i: int)
    ensures i == -1 || (from <= i && At(s, what, i))
    decreases |s| - from
  {
    if from + |what| > |s| then -1
    else if At(s, what, from) then from
    else Find(s, what, from + 1)
  }

  lemma {:induction false} FindIsFirst(s: string, what: string, from: nat)
    ensures var i := Find(s, what, from);
            forall j: nat :: from <= j && (i == -1 || j < i) ==> !At(s, what, j)
    decreases |s| - from
  {
    if from + |what| <= |s| && !At(s, what, from) {
      FindIsFirst(s, what, from + 1);
    }
  }

  /** The occurrence at `i` is escaped. */
  predicate Escaped(s: string, i: nat) {
    0 < i <= |s| && s[i - 1] == '%'
  }

  function Erase(s: string, i: nat): string
    requires i < |s|
  {
    s[..i] + s[i + 1..]
  }

  // ---------- The two loops ----------

  /** The loop of replaceFirstWithEscape after it has looked at `foundAt`. */
  function ReplaceFrom(s: string, what: string, with: string, foundAt: int): string
    requires -1 <= foundAt
    decreases |s| - foundAt
  {
    var i := Find(s, what, foundAt + 1);
    if i == -1 then s
    else if Escaped(s, i) then ReplaceFrom(Erase(s, i - 1), what, with, i + 1)
    else s[..i] + with + s[i + |what|..]
  }

  method ReplaceFirstWithEscape(str: string, replaceWhat: string, replaceWith: string) returns (s: string)
    ensures s == ReplaceFrom(str, replaceWhat, replaceWith, -1)
  {
    s := str;
    var foundAt := -1;
    while true
      invariant -1 <= foundAt
      invariant ReplaceFrom(s, replaceWhat, replaceWith, foundAt) == ReplaceFrom(str, replaceWhat, replaceWith, -1)
      decreases |s| - foundAt
    {
      foundAt := Find(s, replaceWhat, foundAt + 1);
      if foundAt == -1 { return; }
      if Escaped(s, foundAt) {
        s := Erase(s, foundAt - 1);
        foundAt := foundAt + 1;
      } else {
        s := s[..foundAt] + replaceWith + s[foundAt + |replaceWhat|..];
        return;
      }
    }
  }

  datatype Swept = Swept(format: string, hasFlag: bool)

  /** The loop of conditionalAddFlag after it has looked at `foundAt`. */
  function SweepFrom(s: string, what: string, hasFlag: bool, foundAt: int): Swept
    requires -1 <= foundAt
    decreases |s| - foundAt
  {
    var i := Find(s, what, foundAt + 1);
    if i == -1 then Swept(s, hasFlag)
    else if !Escaped(s, i) then SweepFrom(s, what, true, i)
    else if hasFlag then SweepFrom(Erase(s, i - 1), what, hasFlag, i + 1)
    else SweepFrom(s, what, hasFlag, i)
  }

  method ConditionalAddFlag(format: string, specifier: string, flagBefore: bool) returns (formatCopy: string, hasFlag: bool)
    ensures Swept(formatCopy, hasFlag) == SweepFrom(format, specifier, flagBefore, -1)
  {
    formatCopy, hasFlag := format, flagBefore;
    var foundAt := -1;
    while true
      invariant -1 <= foundAt
      invariant SweepFrom(formatCopy, specifier, hasFlag, foundAt) == SweepFrom(format, specifier, flagBefore, -1)
      decreases |formatCopy| - foundAt
    {
      foundAt := Find(formatCopy, specifier, foundAt + 1);
      if foundAt == -1 { return; }
      if Escaped(formatCopy, foundAt) {
        if hasFlag {
          formatCopy := Erase(formatCopy, foundAt - 1);
          foundAt := foundAt + 1;
        }
      } else if !hasFlag {
        hasFlag := true;
      }
    }
  }

  // ---------- One-pass meaning ----------

  /** What a single left-to-right pass makes of the occurrences it meets. */
  datatype Pass = Pass(
    unescapesBefore: bool,  // an escaped occurrence loses its '%' even before the first unescaped one
    value: string,          // what the first unescaped occurrence becomes
    copiesAfter: bool       // everything after the first unescaped occurrence is copied verbatim
  )

  /** The pass that the sweep of parseFromFormat makes. */
  function SweepPass(what: string): Pass {
    Pass(false, what, false)
  }

  function OnePass(s: string, what: string, pass: Pass, seen: bool): string
    requires |what| >= 1
    decreases |s|
  {
    if s == "" then ""
    else if s[0] == '%' && At(s, what, 1) then
      (if seen || pass.unescapesBefore then what else "%" + what) + OnePass(s[1 + |what|..], what, pass, seen)
    else if At(s, what, 0) then
      if seen then what + OnePass(s[|what|..], what, pass, true)
      else pass.value + if pass.copiesAfter then s[|what|..] else OnePass(s[|what|..], what, pass, true)
    else [s[0]] + OnePass(s[1..], what, pass, seen)
  }

  /** The meaning of a specifier: its first unescaped occurrence becomes the value, every escaped one
      loses exactly one '%', and everything else stays. */
  function Resolved(s: string, what: string, value: string): string
    requires |what| >= 1
  {
    OnePass(s, what, Pass(true, value, false), false)
  }

  ghost predicate HasUnescaped(s: string, what: string) {
    exists i: nat :: At(s, what, i) && !Escaped(s, i)
  }

  /** '%' followed by at least one character, none of them another '%'. */
  predicate IsSpecifier(what: string) {
    |what| >= 2 && what[0] == '%' && '%' !in what[1..]
  }

  // ---------- A pass from one occurrence to the next ----------

  /** Whatever follows an occurrence starts after a character other than '%'. */
  lemma OccurrencesAreApart(s: string, what: string, i: nat, j: nat)
    requires IsSpecifier(what) && At(s, what, i) && i < j < i + |what|
    ensures s[j] != '%' && !At(s, what, j)
  {
    AtIsSlice(s, what, i);
    assert s[j] == s[i..i + |what|][j - i] == what[1..][j - i - 1];
  }

  lemma {:induction false} DropAt(s: string, what: string, k: nat, j: nat)
    requires k <= |s|
    ensures At(s[k..], what, j) <==> At(s, what, k + j)
    decreases |what|
  {
    if what != "" {
      DropAt(s, what[1..], k, j + 1);
    }
  }

  // ---------- The same pass with the output so far ----------

  function Continued(out: string, s: string, what: string, pass: Pass, seen: bool): string
    requires |what| >= 1
    decreases |s|
  {
    if s == "" then out
    else if s[0] == '%' && At(s, what, 1) then
      Continued(out + if seen || pass.unescapesBefore then what else "%" + what, s[1 + |what|..], what, pass, seen)
    else if At(s, what, 0) then
      if seen then Continued(out + what, s[|what|..], what, pass, true)
      else if pass.copiesAfter then out + pass.value + s[|what|..]
      else Continued(out + pass.value, s[|what|..], what, pass, true)
    else Continued(out + [s[0]], s[1..], what, pass, seen)
  }

  lemma {:induction false} ContinuedAppends(out: string, s: string, what: string, pass: Pass, seen: bool)
    requires |what| >= 1
    ensures Continued(out, s, what, pass, seen) == out + OnePass(s, what, pass, seen)
    decreases |s|
  {
    if s == "" {
    } else if s[0] == '%' && At(s, what, 1) {
      var written, rest := if seen || pass.unescapesBefore then what else "%" + what, s[1 + |what|..];
      ContinuedAppends(out + written, rest, what, pass, seen);
      Regroup(out, written, OnePass(rest, what, pass, seen));
    } else if At(s, what, 0) {
      var written, rest := if seen then what else pass.value, s[|what|..];
      ContinuedAppends(out + written, rest, what, pass, true);
      Regroup(out, written, OnePass(rest, what, pass, true));
      Regroup(out, written, rest);
    } else {
      ContinuedAppends(out + [s[0]], s[1..], what, pass, seen);
      Regroup(out, [s[0]], OnePass(s[1..], what, pass, seen));
    }
  }

  /** Text in which a pass finds nothing to do is copied. */
  lemma {:induction false} CopiedPrefix(out: string, s: string, what: string, pass: Pass, seen: bool, k: nat)
    requires |what| >= 1 && k <= |s|
    requires forall j: nat :: j < k ==> !At(s, what, j) && !(s[j] == '%' && At(s, what, j + 1))
    ensures Continued(out, s, what, pass, seen) == Continued(out + s[..k], s[k..], what, pass, seen)
    decreases k
  {
    if k == 0 {
      assert s[0..] == s && out + s[..0] == out;
    } else {
      forall j: nat | j < k - 1 ensures !At(s[1..], what, j) && !(s[1..][j] == '%' && At(s[1..], what, j + 1)) {
        DropAt(s, what, 1, j);
        DropAt(s, what, 1, j + 1);
      }
      CopiedPrefix(out + [s[0]], s[1..], what, pass, seen, k - 1);
      assert s[1..][k - 1..] == s[k..] && out + [s[0]] + s[1..][..k - 1] == out + s[..k];
    }
  }

  lemma NoOccurrence(out: string, s: string, what: string, pass: Pass, seen: bool)
    requires |what| >= 1 && forall j: nat :: !At(s, what, j)
    ensures Continued(out, s, what, pass, seen) == out + s
  {
    CopiedPrefix(out, s, what, pass, seen, |s|);
    assert s[..|s|] == s;
  }

  /** An escaped first occurrence: `before` ends with the text in front of its '%'. */
  lemma EscapedOccurrence(out: string, s: string, what: string, pass: Pass, seen: bool, i: nat, before: string)
    requires IsSpecifier(what) && At(s, what, i) && forall j: nat :: j < i ==> !At(s, what, j)
    requires Escaped(s, i) && before == out + s[..i - 1]
    ensures Continued(out, s, what, pass, seen) ==
            Continued(before + if seen || pass.unescapesBefore then what else "%" + what,
                      s[i + |what|..], what, pass, seen)
  {
    CopiedPrefix(out, s, what, pass, seen, i - 1);
    var t := s[i - 1..];
    DropAt(s, what, i - 1, 1);
    assert t[0] == '%' && At(t, what, 1) && t[1 + |what|..] == s[i + |what|..];
  }

  /** An unescaped first occurrence. */
  lemma UnescapedOccurrence(out: string, s: string, what: string, pass: Pass, seen: bool, i: nat, before: string)
    requires IsSpecifier(what) && At(s, what, i) && forall j: nat :: j < i ==> !At(s, what, j)
    requires !Escaped(s, i) && before == out + s[..i]
    ensures Continued(out, s, what, pass, seen) ==
            if !seen && pass.copiesAfter then before + pass.value + s[i + |what|..]
            else Continued(before + if seen then what else pass.value, s[i + |what|..], what, pass, true)
  {
    CopiedPrefix(out, s, what, pass, seen, i);
    var t := s[i..];
    DropAt(s, what, i, 0);
    OccurrencesAreApart(s, what, i, i + 1);
    DropAt(s, what, i, 1);
    assert t[|what|..] == s[i + |what|..];
  }

  // ---------- The loops are passes ----------

  /** Where a loop stands in `s`: `done` is final, and the search resumes inside it without finding
      anything there. */
  ghost predicate Stands(s: string, done: string, rest: string, what: string, foundAt: int) {
    && s == done + rest
    && -1 <= foundAt
    && (done == "" ==> foundAt == -1)
    && (done != "" ==> foundAt < |done| && done[|done| - 1] != '%')
    && forall j: nat :: foundAt < j < |done| ==> !At(s, what, j)
  }

  /** Having passed an occurrence that ends `done`, the loop stands there. */
  lemma PassedOccurrence(s: string, before: string, done: string, rest: string, what: string, foundAt: int)
    requires IsSpecifier(what) && |before| <= foundAt < |before| + |what|
    requires done == before + what && s == done + rest
    ensures Stands(s, done, rest, what, foundAt)
  {}

  /** What the search finds next lies in the rest. */
  lemma SearchLandsInRest(s: string, done: string, rest: string, what: string, foundAt: int, i: nat)
    requires IsSpecifier(what) && Stands(s, done, rest, what, foundAt) && i == Find(s, what, foundAt + 1)
    ensures |done| <= i && At(rest, what, i - |done|)
    ensures Escaped(s, i) <==> Escaped(rest, i - |done|)
  {
    assert |done| <= i;
    assert s[|done|..] == rest;
    DropAt(s, what, |done|, i - |done|);
  }

  /** And it is the first occurrence there. */
  lemma SearchSkipsNothing(s: string, done: string, rest: string, what: string, foundAt: int, i: int, j: nat)
    requires IsSpecifier(what) && Stands(s, done, rest, what, foundAt) && i == Find(s, what, foundAt + 1)
    requires i == -1 || |done| + j < i
    ensures !At(rest, what, j)
  {
    FindIsFirst(s, what, foundAt + 1);
    assert s[|done|..] == rest;
    DropAt(s, what, |done|, j);
  }

  /** A turn that finds nothing ends both loops and the pass. */
  lemma LastTurn(s: string, done: string, rest: string, what: string, foundAt: int, pass: Pass, seen: bool)
    requires IsSpecifier(what) && Stands(s, done, rest, what, foundAt) && Find(s, what, foundAt + 1) == -1
    ensures Continued(done, rest, what, pass, seen) == s
  {
    forall j: nat ensures !At(rest, what, j) { SearchSkipsNothing(s, done, rest, what, foundAt, -1, j); }
    NoOccurrence(done, rest, what, pass, seen);
  }

  /** How a turn that finds an escaped occurrence splits what it leaves; `erases` tells whether it
      takes the '%' away. */
  ghost predicate EscapedTurn(s: string, done: string, rest: string, what: string, foundAt: int, i: nat, erases: bool,
                              next: string, done': string, rest': string) {
    && IsSpecifier(what) && |what| >= 3 && Stands(s, done, rest, what, foundAt)
    && i == Find(s, what, foundAt + 1) && Escaped(s, i)
    && next == (if erases then Erase(s, i - 1) else s)
    && |done'| == (if erases then i - 1 else i) + |what| <= |next|
    && done' == next[..|done'|] && rest' == next[|done'|..]
  }

  lemma EscapedTurnSplit(s: string, done: string, rest: string, what: string, foundAt: int, i: nat, erases: bool,
                         next: string, done': string, rest': string, before: string, kept: string)
    requires EscapedTurn(s, done, rest, what, foundAt, i, erases, next, done', rest')
    requires |done| < i <= |s| && before == done + rest[..i - |done| - 1] && kept == done + rest[..i - |done|]
    requires At(rest, what, i - |done|) && Escaped(rest, i - |done|)
    ensures rest' == rest[i - |done| + |what|..] && next == done' + rest'
    ensures done' == before + if erases then what else "%" + what
    ensures done' == (if erases then before else kept) + what
  {
    var tail := rest[i - |done| + |what|..];
    EscapedSplit(s, done, rest, what, i - |done|, before, kept, tail);
    if erases {
      SplitAfterErasing(s, before, what, tail, next, done', rest');
    } else {
      SplitAfterKeeping(s, before, kept, what, tail, done', rest');
    }
  }

  /** What the search finds is the first occurrence in the rest. */
  lemma FirstInRest(s: string, done: string, rest: string, what: string, foundAt: int, i: nat)
    requires IsSpecifier(what) && Stands(s, done, rest, what, foundAt) && i == Find(s, what, foundAt + 1)
    ensures forall k: nat :: k < i - |done| ==> !At(rest, what, k)
  {
    forall k: nat | k < i - |done| ensures !At(rest, what, k) { SearchSkipsNothing(s, done, rest, what, foundAt, i, k); }
  }

  lemma EscapedTurnContinues(s: string, done: string, rest: string, what: string, foundAt: int, i: nat, pass: Pass,
                             seen: bool, next: string, done': string, rest': string)
    requires EscapedTurn(s, done, rest, what, foundAt, i, seen || pass.unescapesBefore, next, done', rest')
    ensures Continued(done, rest, what, pass, seen) == Continued(done', rest', what, pass, seen)
  {
    SearchLandsInRest(s, done, rest, what, foundAt, i);
    var j := i - |done|;
    var before := done + rest[..j - 1];
    assert rest' == rest[j + |what|..] && done' == before + if seen || pass.unescapesBefore then what else "%" + what by {
      EscapedTurnSplit(s, done, rest, what, foundAt, i, seen || pass.unescapesBefore, next, done', rest', before,
                       done + rest[..j]);
    }
    FirstInRest(s, done, rest, what, foundAt, i);
    EscapedOccurrence(done, rest, what, pass, seen, j, before);
  }

  lemma EscapedTurnStands(s: string, done: string, rest: string, what: string, foundAt: int, i: nat, erases: bool,
                          next: string, done': string, rest': string)
    requires EscapedTurn(s, done, rest, what, foundAt, i, erases, next, done', rest')
    ensures Stands(next, done', rest', what, if erases then i + 1 else i) && |rest'| < |rest|
  {
    SearchLandsInRest(s, done, rest, what, foundAt, i);
    var j := i - |done|;
    var before, kept := done + rest[..j - 1], done + rest[..j];
    EscapedTurnSplit(s, done, rest, what, foundAt, i, erases, next, done', rest', before, kept);
    PassedOccurrence(next, if erases then before else kept, done', rest', what, if erases then i + 1 else i);
  }

  lemma EscapedSplit(s: string, done: string, rest: string, what: string, j: nat, before: string, kept: string, rest': string)
    requires s == done + rest && At(rest, what, j) && Escaped(rest, j)
    requires before == done + rest[..j - 1] && kept == done + rest[..j] && rest' == rest[j + |what|..]
    ensures kept == before + "%" && s == kept + what + rest'
  {
    AtIsSlice(rest, what, j);
    assert rest == rest[..j] + what + rest';
  }

  lemma SplitAfterErasing(s: string, before: string, what: string, rest: string, next: string, done': string, rest': string)
    requires s == before + "%" + what + rest && next == Erase(s, |before|)
    requires |before| + |what| <= |next| && done' == next[..|before| + |what|] && rest' == next[|before| + |what|..]
    ensures done' == before + what && rest' == rest && next == done' + rest'
  {}

  lemma SplitAfterKeeping(s: string, before: string, kept: string, what: string, rest: string, done': string, rest': string)
    requires kept == before + "%" && s == kept + what + rest
    requires |kept| + |what| <= |s| && done' == s[..|kept| + |what|] && rest' == s[|kept| + |what|..]
    ensures done' == kept + what == before + ("%" + what) && rest' == rest && s == done' + rest'
  {}

  /** A turn that finds an unescaped occurrence and leaves it in place. */
  lemma UnescapedTurn(s: string, done: string, rest: string, what: string, foundAt: int, i: nat, pass: Pass, seen: bool,
                      done': string, rest': string)
    requires IsSpecifier(what) && Stands(s, done, rest, what, foundAt) && i == Find(s, what, foundAt + 1) && !Escaped(s, i)
    requires i + |what| <= |s| && done' == s[..i + |what|] && rest' == s[i + |what|..]
    ensures !seen && pass.copiesAfter ==> Continued(done, rest, what, pass, seen) == s[..i] + pass.value + rest'
    ensures !pass.copiesAfter && pass.value == what ==>
            Continued(done, rest, what, pass, seen) == Continued(done', rest', what, pass, true)
    ensures Stands(s, done', rest', what, i)
    ensures |rest'| < |rest|
  {
    SearchLandsInRest(s, done, rest, what, foundAt, i);
    FirstInRest(s, done, rest, what, foundAt, i);
    var j := i - |done|;
    var before := s[..i];
    assert rest' == rest[j + |what|..] && before == done + rest[..j];
    assert done' == before + what && s == done' + rest' by { AtIsSlice(s, what, i); }
    UnescapedOccurrence(done, rest, what, pass, seen, j, before);
    PassedOccurrence(s, before, done', rest', what, i);
  }

  lemma {:induction false} ReplaceLoopIsPass(s: string, done: string, rest: string, what: string, with: string, foundAt: int)
    requires IsSpecifier(what) && |what| >= 3 && Stands(s, done, rest, what, foundAt)
    ensures ReplaceFrom(s, what, with, foundAt) == Continued(done, rest, what, Pass(true, with, true), false)
    decreases |rest|
  {
    var i := Find(s, what, foundAt + 1);
    if i == -1 {
      LastTurn(s, done, rest, what, foundAt, Pass(true, with, true), false);
    } else if Escaped(s, i) {
      var next := Erase(s, i - 1);
      ReplaceGoesOn(s, done, rest, what, with, foundAt, i, next, next[..i - 1 + |what|], next[i - 1 + |what|..]);
    } else {
      ReplaceStops(s, done, rest, what, with, foundAt, i);
    }
  }

  lemma ReplaceTurn(s: string, what: string, with: string, foundAt: int, i: nat, next: string)
    requires -1 <= foundAt && i == Find(s, what, foundAt + 1) && Escaped(s, i) && next == Erase(s, i - 1)
    ensures ReplaceFrom(s, what, with, foundAt) == ReplaceFrom(next, what, with, i + 1)
  {}

  lemma {:induction false} ReplaceGoesOn(s: string, done: string, rest: string, what: string, with: string, foundAt: int,
                                         i: nat, next: string, done': string, rest': string)
    requires EscapedTurn(s, done, rest, what, foundAt, i, true, next, done', rest')
    ensures ReplaceFrom(s, what, with, foundAt) == Continued(done, rest, what, Pass(true, with, true), false)
    decreases |rest|, 0
  {
    var pass := Pass(true, with, true);
    EscapedTurnStands(s, done, rest, what, foundAt, i, true, next, done', rest');
    calc {
      ReplaceFrom(s, what, with, foundAt);
      { ReplaceTurn(s, what, with, foundAt, i, next); }
      ReplaceFrom(next, what, with, i + 1);
      { ReplaceLoopIsPass(next, done', rest', what, with, i + 1); }
      Continued(done', rest', what, pass, false);
      { EscapedTurnContinues(s, done, rest, what, foundAt, i, pass, false, next, done', rest'); }
      Continued(done, rest, what, pass, false);
    }
  }

  lemma ReplaceStops(s: string, done: string, rest: string, what: string, with: string, foundAt: int, i: nat)
    requires IsSpecifier(what) && Stands(s, done, rest, what, foundAt) && i == Find(s, what, foundAt + 1) && !Escaped(s, i)
    ensures ReplaceFrom(s, what, with, foundAt) == Continued(done, rest, what, Pass(true, with, true), false)
  {
    UnescapedTurn(s, done, rest, what, foundAt, i, Pass(true, with, true), false, s[..i + |what|], s[i + |what|..]);
  }

  lemma {:induction false} SweepLoopIsPass(s: string, done: string, rest: string, what: string, hasFlag: bool, foundAt: int)
    requires IsSpecifier(what) && |what| >= 3 && Stands(s, done, rest, what, foundAt)
    ensures SweepFrom(s, what, hasFlag, foundAt).format == Continued(done, rest, what, SweepPass(what), hasFlag)
    decreases |rest|
  {
    var i := Find(s, what, foundAt + 1);
    if i == -1 {
      LastTurn(s, done, rest, what, foundAt, SweepPass(what), hasFlag);
    } else {
      var erases := Escaped(s, i) && hasFlag;
      var next, k := if erases then Erase(s, i - 1) else s, if erases then i - 1 else i;
      SweepGoesOn(s, done, rest, what, hasFlag, foundAt, i, next, next[..k + |what|], next[k + |what|..]);
    }
  }

  lemma SweepTurn(s: string, what: string, hasFlag: bool, foundAt: int, i: nat, next: string, flag: bool, resume: nat)
    requires -1 <= foundAt && i == Find(s, what, foundAt + 1) && flag == (hasFlag || !Escaped(s, i))
    requires next == (if Escaped(s, i) && hasFlag then Erase(s, i - 1) else s)
    requires resume == if Escaped(s, i) && hasFlag then i + 1 else i
    ensures SweepFrom(s, what, hasFlag, foundAt) == SweepFrom(next, what, flag, resume)
  {}

  lemma {:induction false} SweepGoesOn(s: string, done: string, rest: string, what: string, hasFlag: bool, foundAt: int,
                                       i: nat, next: string, done': string, rest': string)
    requires IsSpecifier(what) && |what| >= 3 && Stands(s, done, rest, what, foundAt) && i == Find(s, what, foundAt + 1)
    requires var erases := Escaped(s, i) && hasFlag;
             && next == (if erases then Erase(s, i - 1) else s)
             && |done'| == (if erases then i - 1 else i) + |what| <= |next|
             && done' == next[..|done'|] && rest' == next[|done'|..]
    ensures SweepFrom(s, what, hasFlag, foundAt).format == Continued(done, rest, what, SweepPass(what), hasFlag)
    decreases |rest|, 0
  {
    var pass, flag, resume := SweepPass(what), hasFlag || !Escaped(s, i), if Escaped(s, i) && hasFlag then i + 1 else i;
    if Escaped(s, i) {
      EscapedTurnStands(s, done, rest, what, foundAt, i, hasFlag, next, done', rest');
      EscapedTurnContinues(s, done, rest, what, foundAt, i, pass, hasFlag, next, done', rest');
    } else {
      UnescapedTurn(s, done, rest, what, foundAt, i, pass, hasFlag, done', rest');
    }
    calc {
      SweepFrom(s, what, hasFlag, foundAt).format;
      { SweepTurn(s, what, hasFlag, foundAt, i, next, flag, resume); }
      SweepFrom(next, what, flag, resume).format;
      { SweepLoopIsPass(next, done', rest', what, flag, resume); }
      Continued(done', rest', what, pass, flag);
      Continued(done, rest, what, pass, hasFlag);
    }
  }

  lemma {:induction false} FlagStays(s: string, what: string, foundAt: int)
    requires -1 <= foundAt
    ensures SweepFrom(s, what, true, foundAt).hasFlag
    decreases |s| - foundAt
  {
    var i := Find(s, what, foundAt + 1);
    if i != -1 && Escaped(s, i) {
      FlagStays(Erase(s, i - 1), what, i + 1);
    } else if i != -1 {
      FlagStays(s, what, i);
    }
  }

  /** The sweep raises the flag exactly when some occurrence is unescaped. */
  lemma {:induction false} FlagMeansUnescaped(s: string, what: string, foundAt: int)
    requires what != "" && -1 <= foundAt
    requires forall j: nat :: j <= foundAt && At(s, what, j) ==> Escaped(s, j)
    ensures SweepFrom(s, what, false, foundAt).hasFlag <==> HasUnescaped(s, what)
    decreases |s| - foundAt
  {
    var i := Find(s, what, foundAt + 1);
    FindIsFirst(s, what, foundAt + 1);
    if i != -1 && !Escaped(s, i) {
      FlagStays(s, what, i);
    } else if i != -1 {
      FlagMeansUnescaped(s, what, i);
    }
  }

  // ---------- Sweeping, then replacing ----------

  lemma ConsAt(c: char, t: string, what: string)
    requires what != ""
    ensures At([c] + t, what, 0) <==> c == what[0] && At(t, what[1..], 0)
  {
    DropAt([c] + t, what[1..], 1, 0);
    assert ([c] + t)[1..] == t;
  }

  /** The sweep neither makes nor breaks text without '%' at the front of a string. */
  lemma {:induction false} LettersSurvive(s: string, letters: string, what: string)
    requires IsSpecifier(what) && '%' !in letters
    ensures At(OnePass(s, what, SweepPass(what), false), letters, 0) <==> At(s, letters, 0)
    decreases |s|
  {
    if s != "" && letters != "" {
      var swept := OnePass(s, what, SweepPass(what), false);
      if s[0] == '%' {
        assert swept[0] == '%' && letters[0] != '%';
      } else {
        assert swept == [s[0]] + OnePass(s[1..], what, SweepPass(what), false);
        ConsAt(s[0], OnePass(s[1..], what, SweepPass(what), false), letters);
        LettersSurvive(s[1..], letters[1..], what);
        assert s == [s[0]] + s[1..];
        ConsAt(s[0], s[1..], letters);
      }
    }
  }

  /** The sweep puts no occurrence in front of a string that has none there. */
  lemma NoOccurrenceCreated(s: string, what: string)
    requires IsSpecifier(what) && !At(s, what, 0)
    ensures !At(OnePass(s, what, SweepPass(what), false), what, 0)
  {
    if s != "" {
      var swept := OnePass(s, what, SweepPass(what), false);
      if s[0] == '%' && At(s, what, 1) {
        assert swept[1] == '%' && what[1..][0] != '%';
      } else {
        var rest := OnePass(s[1..], what, SweepPass(what), false);
        assert swept == [s[0]] + rest;
        ConsAt(s[0], rest, what);
        LettersSurvive(s[1..], what[1..], what);
        assert s == [s[0]] + s[1..];
        ConsAt(s[0], s[1..], what);
      }
    }
  }

  lemma {:induction false} AtPrefix(what: string, t: string)
    ensures At(what + t, what, 0)
  {
    AtIsSlice(what + t, what, 0);
  }

  /** Once the first unescaped occurrence is behind, all passes that go on do the same. */
  lemma {:induction false} PassesAgreeAfterwards(s: string, what: string, value: string)
    requires |what| >= 1
    ensures OnePass(s, what, SweepPass(what), true) == OnePass(s, what, Pass(true, value, false), true)
    decreases |s|
  {
    if s != "" {
      var k := if s[0] == '%' && At(s, what, 1) then 1 + |what| else if At(s, what, 0) then |what| else 1;
      PassesAgreeAfterwards(s[k..], what, value);
    }
  }

  /** Replacing in the swept string is the one-pass meaning of the original. */
  lemma {:induction false} ReplaceAfterSweep(s: string, what: string, value: string)
    requires IsSpecifier(what)
    ensures OnePass(OnePass(s, what, SweepPass(what), false), what, Pass(true, value, true), false) ==
            Resolved(s, what, value)
    decreases |s|
  {
    if s == "" {
    } else if s[0] == '%' && At(s, what, 1) {
      ReplaceAfterEscape(s, what, value, s[1 + |what|..]);
    } else if At(s, what, 0) {
      ReplaceAtUnescaped(s, what, value, s[|what|..]);
    } else {
      ReplaceAfterPlain(s, what, value);
    }
  }

  lemma {:induction false} ReplaceAfterEscape(s: string, what: string, value: string, rest: string)
    requires IsSpecifier(what) && s != "" && s[0] == '%' && At(s, what, 1) && rest == s[1 + |what|..]
    ensures OnePass(OnePass(s, what, SweepPass(what), false), what, Pass(true, value, true), false) ==
            Resolved(s, what, value)
    decreases |s|, 0
  {
    var tail := OnePass(rest, what, SweepPass(what), false);
    var swept := "%" + what + tail;
    SweptEscape(what, tail, swept);
    ReplaceAfterSweep(rest, what, value);
    assert OnePass(swept, what, Pass(true, value, true), false) ==
           what + OnePass(tail, what, Pass(true, value, true), false);
  }

  lemma SweptEscape(what: string, tail: string, swept: string)
    requires swept == "%" + what + tail
    ensures swept[0] == '%' && At(swept, what, 1) && swept[1 + |what|..] == tail
  {
    assert swept[1..] == what + tail;
    AtPrefix(what, tail);
    DropAt(swept, what, 1, 0);
  }

  lemma ReplaceAtUnescaped(s: string, what: string, value: string, rest: string)
    requires IsSpecifier(what) && s != "" && !(s[0] == '%' && At(s, what, 1)) && At(s, what, 0) && rest == s[|what|..]
    ensures OnePass(OnePass(s, what, SweepPass(what), false), what, Pass(true, value, true), false) ==
            Resolved(s, what, value)
  {
    var tail := OnePass(rest, what, SweepPass(what), true);
    var swept := what + tail;
    AtPrefix(what, tail);
    OccurrencesAreApart(swept, what, 0, 1);
    assert swept[|what|..] == tail;
    PassesAgreeAfterwards(rest, what, value);
  }

  lemma {:induction false} ReplaceAfterPlain(s: string, what: string, value: string)
    requires IsSpecifier(what) && s != "" && !(s[0] == '%' && At(s, what, 1)) && !At(s, what, 0)
    ensures OnePass(OnePass(s, what, SweepPass(what), false), what, Pass(true, value, true), false) ==
            Resolved(s, what, value)
    decreases |s|, 0
  {
    var tail := OnePass(s[1..], what, SweepPass(what), false);
    var swept := [s[0]] + tail;
    assert swept[1..] == tail;
    NoOccurrenceCreated(s, what);
    DropAt(swept, what, 1, 0);
    if s[0] == '%' {
      DropAt(s, what, 1, 0);
      NoOccurrenceCreated(s[1..], what);
    }
    ReplaceAfterSweep(s[1..], what, value);
  }

  lemma {:induction false} NothingSweptWithoutFlag(s: string, what: string)
    requires IsSpecifier(what) && !HasUnescaped(s, what)
    ensures OnePass(s, what, SweepPass(what), false) == s
    decreases |s|
  {
    if s != "" {
      assert !At(s, what, 0) by { assert !Escaped(s, 0); }
      var k := if s[0] == '%' && At(s, what, 1) then 1 + |what| else 1;
      var rest := s[k..];
      assert k > 1 ==> s[k - 1] != '%' by { if k > 1 { OccurrencesAreApart(s, what, 1, k - 1); } }
      forall i: nat | At(rest, what, i) ensures Escaped(rest, i) {
        DropAt(s, what, k, i);
        assert Escaped(s, k + i);
      }
      NothingSweptWithoutFlag(rest, what);
      if k > 1 {
        AtIsSlice(s, what, 1);
        assert s == "%" + what + rest;
      }
    }
  }

  // ---------- The two loops together ----------

  /** parseFromFormat sweeps; the value is put in only if the sweep raised the flag. */
  function SweepThenReplace(format: string, what: string, value: string): string {
    var swept := SweepFrom(format, what, false, -1);
    if swept.hasFlag then ReplaceFrom(swept.format, what, value, -1) else swept.format
  }

  ghost function Meaning(format: string, what: string, value: string): string
    requires |what| >= 1
  {
    if HasUnescaped(format, what) then Resolved(format, what, value) else format
  }

  lemma SweepThenReplaceIsMeaning(format: string, what: string, value: string)
    requires IsSpecifier(what) && |what| >= 3
    ensures SweepThenReplace(format, what, value) == Meaning(format, what, value)
  {
    var pass := SweepPass(what);
    var swept := OnePass(format, what, pass, false);
    assert "" + format == format && "" + swept == swept;
    SweepLoopIsPass(format, "", format, what, false, -1);
    FlagMeansUnescaped(format, what, -1);
    ContinuedAppends("", format, what, pass, false);
    if HasUnescaped(format, what) {
      ReplaceLoopIsPass(swept, "", swept, what, value, -1);
      ContinuedAppends("", swept, what, Pass(true, value, true), false);
      ReplaceAfterSweep(format, what, value);
    } else {
      NothingSweptWithoutFlag(format, what);
    }
  }

  lemma AtPair(s: string, what: string, i: nat)
    requires |what| == 2
    ensures At(s, what, i) <==> i + 2 <= |s| && s[i] == what[0] && s[i + 1] == what[1]
  {
    assert what[1..][0] == what[1] && what[1..][1..] == "";
    if i + 2 <= |s| {
      assert At(s, "", i + 2);
      assert At(s, what[1..], i + 1) <==> s[i + 1] == what[1];
    }
  }

  /** With a specifier of two characters, erasing an escape makes the loop step over an occurrence that
      follows at once: in "%%x%x" the second %x is never replaced. */
  lemma ShortSpecifierIsMissed(c: char, what: string, format: string)
    requires c != '%' && what == ['%', c] && format == ['%', '%', c, '%', c]
    ensures SweepThenReplace(format, what, "") == ['%', c, '%', c]
  {
    forall i: nat ensures At(format, what, i) <==> i == 1 || i == 3 { AtPair(format, what, i); }
    assert Find(format, what, 0) == 1 && Find(format, what, 2) == 3 && Find(format, what, 4) == -1;
    assert SweepFrom(format, what, true, 3) == Swept(format, true);
    assert SweepFrom(format, what, false, 1) == Swept(format, true);
    var erased := Erase(format, 0);
    assert erased == ['%', c, '%', c];
    AtPair(erased, what, 3);
    assert Find(erased, what, 3) == -1;
    assert ReplaceFrom(erased, what, "", 2) == erased;
  }

  lemma ShortSpecifierMeaning(c: char, what: string, format: string)
    requires c != '%' && what == ['%', c] && format == ['%', '%', c, '%', c]
    ensures Meaning(format, what, "") == ['%', c]
  {
    forall i: nat ensures At(format, what, i) <==> i == 1 || i == 3 { AtPair(format, what, i); }
    assert HasUnescaped(format, what) by { assert !Escaped(format, 3); }
    var pass, rest := Pass(true, "", false), format[1 + |what|..];
    assert rest == ['%', c] && rest[|what|..] == "";
    AtPair(rest, what, 0);
    AtPair(rest, what, 1);
    assert OnePass(rest, what, pass, false) == "";
  }

  /** A specifier is resolved by its meaning in every format exactly when it has at least three characters,
      as all specifiers of the library have. */
  lemma SpecifierLengthCondition(what: string)
    requires IsSpecifier(what)
    ensures (forall format, value :: SweepThenReplace(format, what, value) == Meaning(format, what, value))
            <==> |what| >= 3
  {
    if |what| >= 3 {
      forall format, value ensures SweepThenReplace(format, what, value) == Meaning(format, what, value) {
        SweepThenReplaceIsMeaning(format, what, value);
      }
    } else {
      var c := what[1..][0];
      ShortSpecifierIsMissed(c, what, ['%', '%', c, '%', c]);
      ShortSpecifierMeaning(c, what, ['%', '%', c, '%', c]);
      assert |['%', c, '%', c]| != |['%', c]|;
    }
  }
}
