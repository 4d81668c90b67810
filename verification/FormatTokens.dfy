/**
 A log format as specifiers, escaped specifiers and text (external/easylogging++/easylogging++.cc), and what a pass for one
 specifier makes of such a list when it rereads the whole string.
 */
module FormatTokens {

  import opened Options
  import opened Text
  import opened FormatSpecifiers

  datatype Token = Plain(text: string) | Spec(i: nat) | EscapedSpec(i: nat)

  /** Different specifiers are told apart by their letters: none is the beginning of another. */
  ghost predicate IsTable(names: seq<string>) {
    && (forall i :: 0 <= i < |names| ==> IsSpecifier(names[i]) && |names[i]| >= 3)
    && (forall i, j :: 0 <= i < |names| && 0 <= j < |names| && i != j ==> !(names[i] <= names[j]))
  }

  predicate AreTokens(ts: seq<Token>, n: nat) {
    forall p :: 0 <= p < |ts| ==> ts[p].Plain? || ts[p].i < n
  }

  function TextOf(t: Token, names: seq<string>): string
    requires t.Plain? || t.i < |names|
  {
    match t
    case Plain(text) => text
    case Spec(i) => names[i]
    case EscapedSpec(i) => "%" + names[i]
  }

  function Flatten(ts: seq<Token>, names: seq<string>): string
    requires AreTokens(ts, |names|)
  {
    if ts == [] then "" else TextOf(ts[0], names) + Flatten(ts[1..], names)
  }

  predicate IsOf(t: Token, i: nat) {
    !t.Plain? && t.i == i
  }

  // ---------- Text and what follows it ----------

  /** The text in front of the first specifier. */
  function PlainRun(ts: seq<Token>): string {
    if ts != [] && ts[0].Plain? then ts[0].text + PlainRun(ts[1..]) else ""
  }

  /** The first specifier, escaped or not. */
  function Lead(ts: seq<Token>): Option<Token> {
    if ts == [] then None else if ts[0].Plain? then Lead(ts[1..]) else Some(ts[0])
  }

  /** `what` begins neither in the text nor where it ends, as far as the text behind it goes. */
  predicate StandsNowhere(what: string, text: string, run: string) {
    forall k :: 0 <= k <= |text| ==> !(what <= text[k..] + run)
  }

  /** Specifier `i` neither stands in the text at `p`, as far as the text around it goes, nor follows it behind a '%'. */
  ghost predicate ClearAt(ts: seq<Token>, i: nat, names: seq<string>, p: nat)
    requires i < |names| && p < |ts|
  {
    ts[p].Plain? ==>
      var text, run := ts[p].text, PlainRun(ts[p + 1..]);
      && StandsNowhere(names[i], text, run)
      && (text != "" && text[|text| - 1] == '%' && run == "" ==> Lead(ts[p + 1..]) != Some(Spec(i)))
  }

  ghost predicate Clear(ts: seq<Token>, i: nat, names: seq<string>)
    requires i < |names|
  {
    forall p :: 0 <= p < |ts| ==> ClearAt(ts, i, names, p)
  }

  predicate SpecBefore(ts: seq<Token>, i: nat, p: nat)
    requires p <= |ts|
  {
    exists q :: 0 <= q < p && ts[q] == Spec(i)
  }

  /** The same as far as the first unescaped occurrence. */
  ghost predicate ClearUntil(ts: seq<Token>, i: nat, names: seq<string>)
    requires i < |names|
  {
    forall p :: 0 <= p < |ts| && !SpecBefore(ts, i, p) ==> ClearAt(ts, i, names, p)
  }

  lemma TailBefore(ts: seq<Token>, i: nat, p: nat)
    requires 0 < p <= |ts|
    ensures SpecBefore(ts, i, p) <==> ts[0] == Spec(i) || SpecBefore(ts[1..], i, p - 1)
  {
    if q :| 0 <= q < p && ts[q] == Spec(i) {
      assert q > 0 ==> ts[1..][q - 1] == Spec(i);
    }
    if q :| 0 <= q < p - 1 && ts[1..][q] == Spec(i) {
      assert ts[q + 1] == Spec(i);
    }
  }

  lemma TailIsClearAt(ts: seq<Token>, i: nat, names: seq<string>, p: nat)
    requires i < |names| && ts != [] && p < |ts| - 1
    ensures ClearAt(ts[1..], i, names, p) <==> ClearAt(ts, i, names, p + 1)
  {
    assert ts[1..][p + 1..] == ts[p + 2..];
  }

  lemma TailIsClear(ts: seq<Token>, i: nat, names: seq<string>)
    requires i < |names| && ts != []
    ensures Clear(ts, i, names) ==> Clear(ts[1..], i, names)
    ensures ClearUntil(ts, i, names) && ts[0] != Spec(i) ==> ClearUntil(ts[1..], i, names)
  {
    forall p | 0 <= p < |ts| - 1
      ensures ClearAt(ts[1..], i, names, p) <==> ClearAt(ts, i, names, p + 1)
      ensures SpecBefore(ts, i, p + 1) <==> ts[0] == Spec(i) || SpecBefore(ts[1..], i, p)
    {
      TailIsClearAt(ts, i, names, p);
      TailBefore(ts, i, p + 1);
    }
  }

  lemma AtMeansPrefix(s: string, what: string, i: nat)
    requires i <= |s|
    ensures At(s, what, i) <==> what <= s[i..]
  {
    AtIsSlice(s, what, i);
    if i + |what| <= |s| {
      assert s[i..][..|what|] == s[i..i + |what|];
    }
  }

  /** Where one text stands, only its extensions and its beginnings do. */
  lemma OnlyOneStands(name: string, what: string, rest: string)
    requires !(name <= what) && !(what <= name)
    ensures !(what <= name + rest)
  {}

  /** What follows the text: nothing, or something that starts with '%'. */
  function AfterRun(ts: seq<Token>, names: seq<string>): (rest: string)
    requires AreTokens(ts, |names|)
  {
    if ts == [] then "" else if ts[0].Plain? then AfterRun(ts[1..], names) else Flatten(ts, names)
  }

  lemma {:induction false} FlattenSplits(ts: seq<Token>, names: seq<string>)
    requires IsTable(names) && AreTokens(ts, |names|)
    ensures Flatten(ts, names) == PlainRun(ts) + AfterRun(ts, names)
    ensures AfterRun(ts, names) != "" ==> AfterRun(ts, names)[0] == '%'
    decreases |ts|
  {
    if ts != [] && ts[0].Plain? {
      FlattenSplits(ts[1..], names);
      Regroup(ts[0].text, PlainRun(ts[1..]), AfterRun(ts[1..], names));
    }
  }

  lemma SpecStartsOwn(t: Token, rest: string, i: nat, names: seq<string>)
    requires IsTable(names) && i < |names| && !t.Plain? && t.i < |names|
    ensures names[i] <= TextOf(t, names) + rest ==> t == Spec(i)
  {
    var w := names[i];
    assert w[1] == w[1..][0] != '%';
    if t.Spec? && t.i != i {
      OnlyOneStands(names[t.i], w, rest);
    }
  }

  lemma {:induction false} RunStartsOwn(ts: seq<Token>, i: nat, names: seq<string>)
    requires IsTable(names) && i < |names| && AreTokens(ts, |names|)
    ensures names[i] <= AfterRun(ts, names) ==> Lead(ts) == Some(Spec(i))
    decreases |ts|
  {
    if ts != [] {
      if ts[0].Plain? {
        RunStartsOwn(ts[1..], i, names);
      } else {
        SpecStartsOwn(ts[0], Flatten(ts[1..], names), i, names);
      }
    }
  }

  /** A specifier that begins in text ends there. */
  lemma StaysInRun(what: string, a: string, rest: string)
    requires IsSpecifier(what) && a != "" && (rest != "" ==> rest[0] == '%') && !(what <= a)
    ensures !(what <= a + rest)
  {
    if |what| > |a| {
      assert what[|a|] == what[1..][|a| - 1] != '%';
    }
  }

  // ---------- What a pass over the string makes of a token ----------

  /** A pass has nothing to do in the first `n` characters. */
  ghost predicate Skipped(s: string, what: string, n: nat)
    requires n <= |s|
  {
    forall k: nat :: k < n ==> !At(s, what, k) && !(s[k] == '%' && At(s, what, k + 1))
  }

  lemma PlainIsSkipped(ts: seq<Token>, i: nat, names: seq<string>, s: string)
    requires IsTable(names) && i < |names| && AreTokens(ts, |names|) && ts != [] && ts[0].Plain? && ClearAt(ts, i, names, 0)
    requires s == ts[0].text + Flatten(ts[1..], names)
    ensures Skipped(s, names[i], |ts[0].text|)
  {
    FlattenSplits(ts[1..], names);
    NothingBehindPercent(ts, i, names, s);
    TextIsSkipped(ts[0].text, PlainRun(ts[1..]), AfterRun(ts[1..], names), names[i], s);
  }

  lemma TextIsSkipped(text: string, run: string, rest: string, what: string, s: string)
    requires IsSpecifier(what) && StandsNowhere(what, text, run)
    requires (rest != "" ==> rest[0] == '%') && s == text + (run + rest)
    requires text != "" && text[|text| - 1] == '%' ==> !At(s, what, |text|)
    ensures Skipped(s, what, |text|)
  {
    forall k: nat | k < |text| ensures !At(s, what, k) {
      NothingInPlain(text, run, rest, what, k, s);
    }
    SkippedFrom(s, what, |text|);
  }

  lemma SkippedFrom(s: string, what: string, n: nat)
    requires n <= |s| && (forall k: nat :: k < n ==> !At(s, what, k)) && (n > 0 && s[n - 1] == '%' ==> !At(s, what, n))
    ensures Skipped(s, what, n)
  {}

  lemma NothingInPlain(text: string, run: string, rest: string, what: string, k: nat, s: string)
    requires IsSpecifier(what) && k < |text| && !(what <= text[k..] + run) && (rest != "" ==> rest[0] == '%')
    requires s == text + (run + rest)
    ensures !At(s, what, k)
  {
    var a := text[k..] + run;
    assert s[k..] == a + rest;
    StaysInRun(what, a, rest);
    AtMeansPrefix(s, what, k);
  }

  lemma NothingBehindPercent(ts: seq<Token>, i: nat, names: seq<string>, s: string)
    requires IsTable(names) && i < |names| && AreTokens(ts, |names|) && ts != [] && ts[0].Plain? && ClearAt(ts, i, names, 0)
    requires s == ts[0].text + Flatten(ts[1..], names)
    ensures ts[0].text != "" && ts[0].text[|ts[0].text| - 1] == '%' ==> !At(s, names[i], |ts[0].text|)
  {
    var text, w, run, rest := ts[0].text, names[i], PlainRun(ts[1..]), AfterRun(ts[1..], names);
    FlattenSplits(ts[1..], names);
    AtMeansPrefix(s, w, |text|);
    assert s[|text|..] == run + rest && text[|text|..] + run == run && StandsNowhere(w, text, run);
    if run == "" {
      assert run + rest == rest;
      RunStartsOwn(ts[1..], i, names);
    } else {
      StaysInRun(w, run, rest);
    }
  }

  lemma SkippedTail(s: string, what: string, n: nat)
    requires 0 < n <= |s| && Skipped(s, what, n)
    ensures Skipped(s[1..], what, n - 1)
  {
    forall k: nat | k < n - 1 ensures !At(s[1..], what, k) && !(s[1..][k] == '%' && At(s[1..], what, k + 1)) {
      DropAt(s, what, 1, k);
      DropAt(s, what, 1, k + 1);
    }
  }

  lemma {:induction false} SkippedIsCopied(text: string, rest: string, what: string, pass: Pass, seen: bool)
    requires |what| >= 1 && Skipped(text + rest, what, |text|)
    ensures OnePass(text + rest, what, pass, seen) == text + OnePass(rest, what, pass, seen)
    decreases |text|
  {
    if text == "" {
      assert text + rest == rest;
    } else {
      var s := text + rest;
      SkippedTail(s, what, |text|);
      assert s[0] == text[0] && s[1..] == text[1..] + rest;
      SkippedIsCopied(text[1..], rest, what, pass, seen);
    }
  }

  lemma LettersAreSkipped(letters: string, rest: string, what: string)
    requires IsSpecifier(what) && '%' !in letters
    ensures Skipped(letters + rest, what, |letters|)
  {
    var s := letters + rest;
    forall k: nat | k < |letters| ensures !At(s, what, k) && s[k] != '%' {
      assert s[k] == letters[k] != what[0];
    }
  }

  lemma OtherSpecIsCopied(name: string, rest: string, what: string, pass: Pass, seen: bool)
    requires IsSpecifier(what) && IsSpecifier(name) && !(name <= what) && !(what <= name)
    ensures OnePass(name + rest, what, pass, seen) == name + OnePass(rest, what, pass, seen)
  {
    var s, letters := name + rest, name[1..];
    OnlyOneStands(name, what, rest);
    AtMeansPrefix(s, what, 0);
    assert s[0..] == s && s[1] == letters[0] != '%';
    assert s[1..] == letters + rest;
    LettersAreSkipped(letters, rest, what);
    SkippedIsCopied(letters, rest, what, pass, seen);
    assert name == "%" + letters;
  }

  lemma OtherEscapeIsCopied(name: string, rest: string, what: string, pass: Pass, seen: bool)
    requires IsSpecifier(what) && IsSpecifier(name) && !(name <= what) && !(what <= name)
    ensures OnePass("%" + name + rest, what, pass, seen) == "%" + name + OnePass(rest, what, pass, seen)
  {
    var s := "%" + name + rest;
    assert s[1..] == name + rest;
    OnlyOneStands(name, what, rest);
    AtMeansPrefix(s, what, 1);
    AtMeansPrefix(s, what, 0);
    assert s[0..] == s && s[1] == '%' != what[1] by { assert what[1] == what[1..][0]; }
    OtherSpecIsCopied(name, rest, what, pass, seen);
    Regroup("%", name, OnePass(rest, what, pass, seen));
  }

  lemma OwnSpecIsMet(what: string, rest: string, pass: Pass, seen: bool)
    requires IsSpecifier(what)
    ensures OnePass(what + rest, what, pass, seen) ==
            if seen then what + OnePass(rest, what, pass, true)
            else pass.value + if pass.copiesAfter then rest else OnePass(rest, what, pass, true)
  {
    var s := what + rest;
    assert s[0..] == s && s[|what|..] == rest && s[1] == what[1..][0] != '%';
    AtMeansPrefix(s, what, 0);
  }

  lemma OwnEscapeIsMet(what: string, rest: string, pass: Pass, seen: bool)
    requires IsSpecifier(what)
    ensures OnePass("%" + what + rest, what, pass, seen) ==
            (if seen || pass.unescapesBefore then what else "%" + what) + OnePass(rest, what, pass, seen)
  {
    var s := "%" + what + rest;
    assert s[1..] == what + rest && s[1 + |what|..] == rest;
    AtMeansPrefix(s, what, 1);
  }

  /** A token that is not one of specifier `i` is copied. */
  lemma OtherTokenIsCopied(ts: seq<Token>, rest: string, i: nat, names: seq<string>, pass: Pass, seen: bool)
    requires IsTable(names) && i < |names| && AreTokens(ts, |names|) && ts != [] && !IsOf(ts[0], i)
    requires ClearAt(ts, i, names, 0) && rest == Flatten(ts[1..], names)
    ensures OnePass(TextOf(ts[0], names) + rest, names[i], pass, seen) ==
            TextOf(ts[0], names) + OnePass(rest, names[i], pass, seen)
  {
    match ts[0]
    case Plain(text) =>
      PlainIsSkipped(ts, i, names, text + rest);
      SkippedIsCopied(text, rest, names[i], pass, seen);
    case Spec(j) => OtherSpecIsCopied(names[j], rest, names[i], pass, seen);
    case EscapedSpec(j) => OtherEscapeIsCopied(names[j], rest, names[i], pass, seen);
  }

  // ---------- A pass over tokens ----------

  /** The sweep for specifier `i`: escapes are taken off behind its first unescaped occurrence. */
  function SweepTokens(ts: seq<Token>, i: nat, seen: bool): (swept: seq<Token>)
    ensures |swept| == |ts|
  {
    if ts == [] then []
    else if ts[0] == EscapedSpec(i) then [if seen then Spec(i) else ts[0]] + SweepTokens(ts[1..], i, seen)
    else [ts[0]] + SweepTokens(ts[1..], i, seen || ts[0] == Spec(i))
  }

  /** Putting the value in: escapes are taken off in front of the first unescaped occurrence. */
  function ReplaceTokens(ts: seq<Token>, i: nat, value: string): (replaced: seq<Token>)
    ensures |replaced| == |ts|
  {
    if ts == [] then []
    else if ts[0] == Spec(i) then [Plain(value)] + ts[1..]
    else [if ts[0] == EscapedSpec(i) then Spec(i) else ts[0]] + ReplaceTokens(ts[1..], i, value)
  }

  lemma {:induction false} SweepIsTokenwise(ts: seq<Token>, i: nat, names: seq<string>, seen: bool)
    requires IsTable(names) && i < |names| && AreTokens(ts, |names|) && Clear(ts, i, names)
    ensures AreTokens(SweepTokens(ts, i, seen), |names|)
    ensures OnePass(Flatten(ts, names), names[i], SweepPass(names[i]), seen) == Flatten(SweepTokens(ts, i, seen), names)
    decreases |ts|
  {
    if ts != [] {
      var rest, next := Flatten(ts[1..], names), seen || ts[0] == Spec(i);
      TailIsClear(ts, i, names);
      SweepIsTokenwise(ts[1..], i, names, next);
      var swept := SweepTokens(ts, i, seen);
      assert swept[1..] == SweepTokens(ts[1..], i, next);
      if ts[0] == Spec(i) {
        OwnSpecIsMet(names[i], rest, SweepPass(names[i]), seen);
      } else if ts[0] == EscapedSpec(i) {
        OwnEscapeIsMet(names[i], rest, SweepPass(names[i]), seen);
      } else {
        OtherTokenIsCopied(ts, rest, i, names, SweepPass(names[i]), seen);
      }
    }
  }

  lemma {:induction false} ReplaceIsTokenwise(ts: seq<Token>, i: nat, names: seq<string>, value: string)
    requires IsTable(names) && i < |names| && AreTokens(ts, |names|) && ClearUntil(ts, i, names)
    ensures AreTokens(ReplaceTokens(ts, i, value), |names|)
    ensures OnePass(Flatten(ts, names), names[i], Pass(true, value, true), false) == Flatten(ReplaceTokens(ts, i, value), names)
    decreases |ts|
  {
    if ts != [] {
      var rest, pass, replaced := Flatten(ts[1..], names), Pass(true, value, true), ReplaceTokens(ts, i, value);
      if ts[0] == Spec(i) {
        OwnSpecIsMet(names[i], rest, pass, false);
        assert replaced[1..] == ts[1..];
      } else {
        TailIsClear(ts, i, names);
        ReplaceIsTokenwise(ts[1..], i, names, value);
        assert replaced[1..] == ReplaceTokens(ts[1..], i, value);
        if ts[0] == EscapedSpec(i) {
          OwnEscapeIsMet(names[i], rest, pass, false);
        } else {
          assert !SpecBefore(ts, i, 0);
          OtherTokenIsCopied(ts, rest, i, names, pass, false);
        }
      }
    }
  }

  // ---------- Flags ----------

  /** An unescaped occurrence behind a first part is one of the whole, and the other way, unless that part ends in '%' in
      front of one. */
  lemma UnescapedBehind(h: string, rest: string, what: string, s: string)
    requires s == h + rest && (h != "" && h[|h| - 1] == '%' ==> !At(rest, what, 0))
    ensures HasUnescaped(rest, what) ==> HasUnescaped(s, what)
    ensures HasUnescaped(s, what) ==> HasUnescaped(rest, what) || exists i: nat :: i < |h| && At(s, what, i) && !Escaped(s, i)
  {
    assert s[|h|..] == rest;
    if i: nat :| At(rest, what, i) && !Escaped(rest, i) {
      DropAt(s, what, |h|, i);
      assert !Escaped(s, |h| + i);
    }
    if i: nat :| At(s, what, i) && !Escaped(s, i) && i >= |h| {
      DropAt(s, what, |h|, i - |h|);
      assert !Escaped(rest, i - |h|);
    }
  }

  /** In a token other than its own, a specifier stands nowhere unescaped. */
  lemma StandsInOwnToken(t: Token, rest: string, what: nat, names: seq<string>, i: nat)
    requires IsTable(names) && what < |names| && !t.Plain? && t.i < |names| && i < |TextOf(t, names)|
    ensures var s := TextOf(t, names) + rest; At(s, names[what], i) && !Escaped(s, i) ==> t == Spec(what)
  {
    var h, w, name := TextOf(t, names), names[what], names[t.i];
    var s := h + rest;
    assert forall k :: 1 <= k < |name| ==> name[k] == name[1..][k - 1];
    AtMeansPrefix(s, w, 0);
    assert s[0..] == s && s[i] == h[i] && w[1] == w[1..][0] != '%';
    if t.Spec? && t.i != what {
      OnlyOneStands(name, w, rest);
    }
  }

  /** What the first token has to do with an unescaped occurrence. */
  lemma FlagOfFirst(ts: seq<Token>, i: nat, names: seq<string>, h: string, rest: string, s: string)
    requires IsTable(names) && i < |names| && AreTokens(ts, |names|) && ts != [] && ClearAt(ts, i, names, 0)
    requires h == TextOf(ts[0], names) && rest == Flatten(ts[1..], names) && s == h + rest
    ensures h != "" && h[|h| - 1] == '%' ==> !At(rest, names[i], 0)
    ensures (exists k: nat :: k < |h| && At(s, names[i], k) && !Escaped(s, k)) <==> ts[0] == Spec(i)
  {
    if ts[0].Plain? {
      PlainIsSkipped(ts, i, names, s);
      assert s[|h|..] == rest;
      DropAt(s, names[i], |h|, 0);
    } else {
      var name := names[ts[0].i];
      assert name[|name| - 1] == name[1..][|name| - 2];
      forall k: nat | k < |h| && At(s, names[i], k) && !Escaped(s, k) ensures ts[0] == Spec(i) {
        StandsInOwnToken(ts[0], rest, i, names, k);
      }
      if ts[0] == Spec(i) {
        AtMeansPrefix(s, names[i], 0);
        assert s[0..] == s && !Escaped(s, 0);
      }
    }
  }

  lemma {:induction false} FlagIsTokenwise(ts: seq<Token>, i: nat, names: seq<string>)
    requires IsTable(names) && i < |names| && AreTokens(ts, |names|) && Clear(ts, i, names)
    ensures HasUnescaped(Flatten(ts, names), names[i]) <==> Spec(i) in ts
    decreases |ts|
  {
    if ts != [] {
      var h, rest := TextOf(ts[0], names), Flatten(ts[1..], names);
      var s := h + rest;
      TailIsClear(ts, i, names);
      FlagIsTokenwise(ts[1..], i, names);
      FlagOfFirst(ts, i, names, h, rest, s);
      UnescapedBehind(h, rest, names[i], s);
      assert Spec(i) in ts <==> ts[0] == Spec(i) || Spec(i) in ts[1..];
    }
  }

  // ---------- Every format is such a list ----------

  /** The specifier that stands at `at`, if any of those from `j` on does. */
  function Standing(s: string, names: seq<string>, at: nat, j: nat): (r: Option<nat>)
    requires j <= |names|
    ensures r.Some? ==> r.value < |names| && At(s, names[r.value], at)
    ensures r.None? ==> forall i :: j <= i < |names| ==> !At(s, names[i], at)
    decreases |names| - j
  {
    if j == |names| then None else if At(s, names[j], at) then Some(j) else Standing(s, names, at, j + 1)
  }

  function Tokens(s: string, names: seq<string>): seq<Token>
    requires forall i :: 0 <= i < |names| ==> |names[i]| >= 1
    decreases |s|
  {
    if s == "" then []
    else
      var escaped, plain := Standing(s, names, 1, 0), Standing(s, names, 0, 0);
      if s[0] == '%' && escaped.Some? then [EscapedSpec(escaped.value)] + Tokens(s[1 + |names[escaped.value]|..], names)
      else if plain.Some? then [Spec(plain.value)] + Tokens(s[|names[plain.value]|..], names)
      else [Plain([s[0]])] + Tokens(s[1..], names)
  }

  lemma StandingSplits(s: string, name: string, at: nat)
    requires At(s, name, at)
    ensures at + |name| <= |s| && s == s[..at] + name + s[at + |name|..]
  {
    AtIsSlice(s, name, at);
  }

  lemma {:induction false} TokensFlatten(s: string, names: seq<string>)
    requires IsTable(names)
    ensures AreTokens(Tokens(s, names), |names|) && Flatten(Tokens(s, names), names) == s
    decreases |s|
  {
    if s != "" {
      var escaped, plain := Standing(s, names, 1, 0), Standing(s, names, 0, 0);
      if s[0] == '%' && escaped.Some? {
        TokenIsTaken(s, EscapedSpec(escaped.value), 1, names);
      } else if plain.Some? {
        TokenIsTaken(s, Spec(plain.value), 0, names);
      } else {
        TokensFlatten(s[1..], names);
        FirstToken(s, Plain([s[0]]), s[1..], names);
      }
    }
  }

  lemma {:induction false} TokenIsTaken(s: string, t: Token, at: nat, names: seq<string>)
    requires IsTable(names) && !t.Plain? && t.i < |names| && At(s, names[t.i], at)
    requires if t.Spec? then at == 0 else at == 1 && s[0] == '%'
    ensures var ts := [t] + Tokens(s[at + |names[t.i]|..], names);
            AreTokens(ts, |names|) && Flatten(ts, names) == s
    decreases |s|, 0
  {
    var rest := s[at + |names[t.i]|..];
    StandingSplits(s, names[t.i], at);
    assert s[..at] == if t.Spec? then "" else "%";
    TokensFlatten(rest, names);
    FirstToken(s, t, rest, names);
  }

  lemma FirstToken(s: string, t: Token, rest: string, names: seq<string>)
    requires IsTable(names) && (t.Plain? || t.i < |names|) && s == TextOf(t, names) + rest
    requires AreTokens(Tokens(rest, names), |names|) && Flatten(Tokens(rest, names), names) == rest
    ensures AreTokens([t] + Tokens(rest, names), |names|) && Flatten([t] + Tokens(rest, names), names) == s
  {
    var ts := [t] + Tokens(rest, names);
    assert ts[1..] == Tokens(rest, names);
  }

  lemma ClearCons(t: Token, tail: seq<Token>, ts: seq<Token>, i: nat, names: seq<string>)
    requires i < |names| && ts == [t] + tail && Clear(tail, i, names) && ClearAt(ts, i, names, 0)
    ensures Clear(ts, i, names)
  {
    assert ts[1..] == tail;
    forall p | 0 < p < |ts| ensures ClearAt(ts, i, names, p) {
      TailIsClearAt(ts, i, names, p - 1);
    }
  }

  /** What the first token says about the string. */
  lemma FirstSays(s: string, names: seq<string>, i: nat)
    requires IsTable(names) && i < |names| && s != ""
    ensures var t := Tokens(s, names)[0];
            && (t.Plain? ==> t.text != "" && !At(s, names[i], 0))
            && (t == Spec(i) ==> At(s, names[i], 0))
  {}

  lemma RunSays(s: string, names: seq<string>, i: nat, ts: seq<Token>)
    requires IsTable(names) && i < |names| && ts == Tokens(s, names)
    ensures PlainRun(ts) <= s
    ensures PlainRun(ts) != "" ==> !(names[i] <= s)
    ensures PlainRun(ts) == "" && Lead(ts) == Some(Spec(i)) ==> At(s, names[i], 0)
  {
    TokensFlatten(s, names);
    FlattenSplits(ts, names);
    AtMeansPrefix(s, names[i], 0);
    assert s[0..] == s;
    if s != "" { FirstSays(s, names, i); }
  }

  lemma OneCharacterIsClear(c: char, rest: string, run: string, what: string)
    requires what != "" && !(what <= [c] + rest) && run <= rest && (run != "" ==> !(what <= rest))
    ensures StandsNowhere(what, [c], run)
  {
    assert [c] + run <= [c] + rest;
    assert [c][0..] == [c] && [c][1..] + run == run;
  }

  lemma TextIsClear(s: string, names: seq<string>, i: nat, tail: seq<Token>, ts: seq<Token>)
    requires IsTable(names) && i < |names| && s != "" && tail == Tokens(s[1..], names) && ts == [Plain([s[0]])] + tail
    requires !At(s, names[i], 0) && !(s[0] == '%' && At(s, names[i], 1))
    ensures ClearAt(ts, i, names, 0)
  {
    var rest, w := s[1..], names[i];
    assert ts[1..] == tail;
    RunSays(rest, names, i, tail);
    AtMeansPrefix(s, w, 0);
    DropAt(s, w, 1, 0);
    assert s == [s[0]] + rest && s[0..] == s;
    OneCharacterIsClear(s[0], rest, PlainRun(tail), w);
  }

  lemma {:induction false} TokensAreClear(s: string, names: seq<string>, i: nat)
    requires IsTable(names) && i < |names|
    ensures Clear(Tokens(s, names), i, names)
    decreases |s|
  {
    if s != "" {
      var escaped, plain := Standing(s, names, 1, 0), Standing(s, names, 0, 0);
      if s[0] == '%' && escaped.Some? {
        var tail := Tokens(s[1 + |names[escaped.value]|..], names);
        TokensAreClear(s[1 + |names[escaped.value]|..], names, i);
        ClearCons(EscapedSpec(escaped.value), tail, Tokens(s, names), i, names);
      } else if plain.Some? {
        var tail := Tokens(s[|names[plain.value]|..], names);
        TokensAreClear(s[|names[plain.value]|..], names, i);
        ClearCons(Spec(plain.value), tail, Tokens(s, names), i, names);
      } else {
        var tail := Tokens(s[1..], names);
        TokensAreClear(s[1..], names, i);
        TextIsClear(s, names, i, tail, Tokens(s, names));
        ClearCons(Plain([s[0]]), tail, Tokens(s, names), i, names);
      }
    }
  }
}
