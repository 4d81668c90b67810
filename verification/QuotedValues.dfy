/**
 What becomes of a quoted value with escaped quotes in Configurations::Parser of
 external/easylogging++/easylogging++.cc: in parseLine, which erases the backslashes while it searches for the
 closing quote, and in ignoreComments, which searches for the same quote and erases nothing.
 */
module QuotedValues {

  import opened FormatSpecifiers
  import opened ConfigurationText

  // ---------- Finding one character ----------

  lemma {:induction false} FindOne(s: string, what: string, from: nat, k: nat)
    requires |what| == 1 && from <= k < |s| && s[k] == what[0] && forall j :: from <= j < k ==> s[j] != what[0]
    ensures Find(s, what, from) == k
    decreases k - from
  {
    assert At(s, what, k) by { assert At(s, what[1..], k + 1); }
    if from < k {
      FindOne(s, what, from + 1, k);
    }
  }

  lemma FindNone(s: string, what: string, from: nat)
    requires |what| == 1 && forall j :: from <= j < |s| ==> s[j] != what[0]
    ensures Find(s, what, from) == -1
  {}

  /** A position without a quote can be passed over. */
  lemma FindFromNext(s: string, from: nat)
    requires from < |s| && s[from] != '"'
    ensures Find(s, "\"", from) == Find(s, "\"", from + 1)
  {}

  // ---------- Escaped values ----------

  /** Every quote with a backslash in front of it. */
  function Escape(v: string): string {
    if v == "" then "" else (if v[0] == '"' then ['\\', '"'] else [v[0]]) + Escape(v[1..])
  }

  function Quoted(v: string): string {
    ['"'] + v + ['"']
  }

  predicate NoQuote(v: string) {
    forall i :: 0 <= i < |v| ==> v[i] != '"'
  }

  lemma {:induction false} EscapeOfPlain(v: string)
    requires NoQuote(v)
    ensures Escape(v) == v
  {
    if v != "" {
      EscapeOfPlain(v[1..]);
    }
  }

  /** What a value needs to come back: something in it, no backslash at its end, no two quotes side by side and at
      least two characters behind the last quote. */
  predicate Escapable(v: string) {
    v != "" && v[|v| - 1] != '\\' && forall i :: 0 <= i < |v| && v[i] == '"' ==> i + 2 < |v| && v[i + 1] != '"'
  }

  // ---------- The erasing search ----------

  /** The search behind `done`, from `skip` characters further on, erases every backslash and ends at the closing
      quote. */
  predicate ErasesAll(rest: string, skip: nat, last: char) {
    if rest == "" then skip == 0 && last != '\\'
    else if rest[0] == '"' then skip <= 1 && ErasesAll(rest[1..], 2, '"')
    else ErasesAll(rest[1..], if skip == 0 then 0 else skip - 1, rest[0])
  }

  /** The characters of a value in turn, from one that `skip` characters are not looked at from. */
  predicate Spaced(rest: string, skip: nat, last: char) {
    && |rest| >= skip
    && (skip == 2 ==> rest[0] != '"')
    && (if rest == "" then last else rest[|rest| - 1]) != '\\'
    && forall i :: 0 <= i < |rest| && rest[i] == '"' ==> i + 2 < |rest| && rest[i + 1] != '"'
  }

  lemma {:induction false} ErasesAllWhenSpaced(rest: string, skip: nat, last: char)
    requires skip <= 2
    ensures ErasesAll(rest, skip, last) <==> Spaced(rest, skip, last)
    decreases |rest|
  {
    if rest != "" {
      var tail := rest[1..];
      var next := if rest[0] == '"' then 2 else if skip == 0 then 0 else skip - 1;
      ErasesAllWhenSpaced(tail, next, rest[0]);
      assert forall i :: 0 <= i < |tail| ==> tail[i] == rest[i + 1];
      assert forall i :: 0 < i < |rest| ==> rest[i] == tail[i - 1];
    }
  }

  /** From `k` on the text spells the escaped value and then a quote. */
  predicate Spells(s: string, k: nat, rest: string)
    decreases |rest|
  {
    if rest == "" then k < |s| && s[k] == '"'
    else if rest[0] == '"' then k + 1 < |s| && s[k] == '\\' && s[k + 1] == '"' && Spells(s, k + 2, rest[1..])
    else k < |s| && s[k] == rest[0] && Spells(s, k + 1, rest[1..])
  }

  /** Where that quote is. */
  function EndOf(k: nat, rest: string): nat
    decreases |rest|
  {
    if rest == "" then k else EndOf(if rest[0] == '"' then k + 2 else k + 1, rest[1..])
  }

  /** What the erasing search makes of it: the value with its quote, or else a text that is too long. */
  ghost predicate Outcome(u: Unescaped, s: string, k: nat, rest: string, all: bool)
    requires k <= |s|
  {
    var n := k + |rest|;
    if all then
      && |u.value| == n + 1 && u.quotesEnd == n
      && (forall i :: 0 <= i < k ==> u.value[i] == s[i]) && (forall i :: 0 <= i < |rest| ==> u.value[k + i] == rest[i])
    else (u.quotesEnd == -1 && |u.value| >= n) || (u.quotesEnd == |u.value| - 1 > n)
  }

  lemma {:induction false} SpellsErased(s: string, i: nat, k: nat, rest: string)
    requires i < k && i < |s| && Spells(s, k, rest)
    ensures Spells(Erase(s, i), k - 1, rest)
    decreases |rest|
  {
    if rest != "" {
      SpellsErased(s, i, if rest[0] == '"' then k + 2 else k + 1, rest[1..]);
    }
  }

  lemma {:induction false} EscapesAreErased(s: string, k: nat, rest: string, skip: nat, e: int, u: Unescaped)
    requires 1 <= k && skip <= 2 && Spells(s, k, rest) && |s| == EndOf(k, rest) + 1
    requires e == Find(s, "\"", k + skip) && u == Unescape(s, e)
    ensures Outcome(u, s, k, rest, ErasesAll(rest, skip, s[k - 1]))
    decreases |rest|, 2
  {
    if rest == "" {
      ClosingIsFound(s, k, skip);
    } else if rest[0] != '"' {
      PlainTurn(s, k, rest, skip, e, u);
    } else if skip <= 1 {
      EscapeIsErased(s, k, rest, skip, e, u);
    } else {
      EscapesAreErased(s, k + 2, rest[1..], 0, e, u);
    }
  }

  lemma PlainTurn(s: string, k: nat, rest: string, skip: nat, e: int, u: Unescaped)
    requires 1 <= k && skip <= 2 && rest != "" && rest[0] != '"' && Spells(s, k, rest) && |s| == EndOf(k, rest) + 1
    requires e == Find(s, "\"", k + skip) && u == Unescape(s, e)
    ensures Outcome(u, s, k, rest, ErasesAll(rest, skip, s[k - 1]))
    decreases |rest|, 0
  {
    if skip == 0 { FindFromNext(s, k); }
    EscapesAreErased(s, k + 1, rest[1..], if skip == 0 then 0 else skip - 1, e, u);
    MovedOn(u, s, k, rest, s, ErasesAll(rest, skip, s[k - 1]));
  }

  /** An outcome one character further on is an outcome here. */
  lemma MovedOn(u: Unescaped, s: string, k: nat, rest: string, erased: string, all: bool)
    requires rest != "" && k < |erased| && k <= |s| && Outcome(u, erased, k + 1, rest[1..], all)
    requires erased[..k] == s[..k] && erased[k] == rest[0]
    ensures Outcome(u, s, k, rest, all)
  {
    if all {
      forall i | 0 <= i < k ensures u.value[i] == s[i] { assert erased[..k][i] == s[..k][i]; }
      forall i | 0 <= i < |rest| ensures u.value[k + i] == rest[i] {
        assert i > 0 ==> u.value[k + 1 + (i - 1)] == rest[1..][i - 1];
      }
    }
  }

  lemma EscapeIsErased(s: string, k: nat, rest: string, skip: nat, e: int, u: Unescaped)
    requires 1 <= k && skip <= 1 && rest != "" && rest[0] == '"' && Spells(s, k, rest) && |s| == EndOf(k, rest) + 1
    requires e == Find(s, "\"", k + skip) && u == Unescape(s, e)
    ensures Outcome(u, s, k, rest, ErasesAll(rest, skip, s[k - 1]))
    decreases |rest|, 1
  {
    FindOne(s, "\"", k + skip, k + 1);
    AfterErasing(s, k, rest, Erase(s, k), u);
  }

  lemma AfterErasing(s: string, k: nat, rest: string, erased: string, u: Unescaped)
    requires 1 <= k && rest != "" && rest[0] == '"' && Spells(s, k, rest) && |s| == EndOf(k, rest) + 1
    requires erased == Erase(s, k) && u == Unescape(s, k + 1)
    ensures Outcome(u, s, k, rest, ErasesAll(rest[1..], 2, '"'))
    decreases |rest|, 0
  {
    UnescapeOnce(s, k + 1, erased);
    SpellsErased(s, k, k + 2, rest[1..]);
    EndOfShifts(k + 1, rest[1..]);
    EscapesAreErased(erased, k + 1, rest[1..], 2, Find(erased, "\"", k + 3), u);
    MovedOn(u, s, k, rest, erased, ErasesAll(rest[1..], 2, '"'));
  }

  lemma {:induction false} EndOfShifts(k: nat, rest: string)
    ensures EndOf(k + 1, rest) == EndOf(k, rest) + 1
    decreases |rest|
  {
    if rest != "" {
      EndOfShifts(if rest[0] == '"' then k + 2 else k + 1, rest[1..]);
    }
  }

  lemma {:induction false} EndOfEscape(k: nat, rest: string)
    ensures EndOf(k, rest) == k + |Escape(rest)|
    decreases |rest|
  {
    if rest != "" {
      EndOfEscape(if rest[0] == '"' then k + 2 else k + 1, rest[1..]);
    }
  }

  lemma ClosingIsFound(s: string, k: nat, skip: nat)
    requires 1 <= k && |s| == k + 1 && s[k] == '"'
    ensures Outcome(Unescape(s, Find(s, "\"", k + skip)), s, k, "", skip == 0 && s[k - 1] != '\\')
  {
    if skip == 0 {
      FindOne(s, "\"", k, k);
      if s[k - 1] == '\\' {
        UnescapeOnce(s, k, Erase(s, k - 1));
        FindNone(Erase(s, k - 1), "\"", k + 2);
      }
    } else {
      FindNone(s, "\"", k + skip);
    }
  }

  lemma UnescapeOnce(value: string, end: nat, erased: string)
    requires 1 <= end < |value| && value[end - 1] == '\\' && erased == Erase(value, end - 1)
    ensures Unescape(value, end) == Unescape(erased, Find(erased, "\"", end + 2))
  {}

  lemma {:induction false} EscapeIsSpelled(s: string, k: nat, rest: string)
    requires k + |Escape(rest)| < |s| && s[k..k + |Escape(rest)|] == Escape(rest) && s[k + |Escape(rest)|] == '"'
    ensures Spells(s, k, rest)
    decreases |rest|
  {
    if rest != "" {
      var e, n := Escape(rest), if rest[0] == '"' then 2 else 1;
      assert s[k] == s[k..k + |e|][0] && (n == 2 ==> s[k + 1] == s[k..k + |e|][1]);
      assert s[k + n..k + |e|] == s[k..k + |e|][n..] == Escape(rest[1..]);
      EscapeIsSpelled(s, k + n, rest[1..]);
    }
  }

  lemma QuotedIsSpelled(v: string, q: string)
    requires q == Quoted(Escape(v))
    ensures Spells(q, 1, v) && |q| == EndOf(1, v) + 1 && Find(q, "\"", 0) == 0
  {
    EscapeIsSpelled(q, 1, v);
    EndOfEscape(1, v);
    FindOne(q, "\"", 0, 0);
  }

  lemma UnquotedIsBetween(q: string, e: int, u: Unescaped)
    requires Find(q, "\"", 0) == 0 && Find(q, "\"", 1) == e && u == Unescape(q, e)
    ensures (u.quotesEnd == -1 || 0 < u.quotesEnd < |u.value|) && Unquoted(q) == Between(u, 0)
  {}

  /** A value comes out of its quotes unchanged exactly where it is escapable. */
  lemma UnquotedCondition(v: string, q: string)
    requires q == Quoted(Escape(v))
    ensures Unquoted(q) == v <==> Escapable(v)
  {
    QuotedIsSpelled(v, q);
    UnquotedCases(v, q, Find(q, "\"", 1), Unescape(q, Find(q, "\"", 1)));
  }

  lemma UnquotedCases(v: string, q: string, e: int, u: Unescaped)
    requires Spells(q, 1, v) && |q| == EndOf(1, v) + 1 && q[0] == '"'
    requires Find(q, "\"", 0) == 0 && e == Find(q, "\"", 1) && u == Unescape(q, e)
    ensures Unquoted(q) == v <==> Escapable(v)
  {
    assert Outcome(u, q, 1, v, ErasesAll(v, 0, '"')) by { EscapesAreErased(q, 1, v, 0, e, u); }
    assert (u.quotesEnd == -1 || 0 < u.quotesEnd < |u.value|) && Unquoted(q) == Between(u, 0) by { UnquotedIsBetween(q, e, u); }
    assert ErasesAll(v, 0, '"') && v != "" <==> Escapable(v) by { ErasesAllWhenSpaced(v, 0, '"'); }
    BetweenIs(u, q, v, ErasesAll(v, 0, '"'));
  }

  lemma BetweenIs(u: Unescaped, q: string, v: string, all: bool)
    requires q != "" && Outcome(u, q, 1, v, all)
    ensures Between(u, 0) == v <==> all && v != ""
  {
    if all && v != "" {
      assert u.value[1..1 + |v|] == v;
    }
  }

  // ---------- The other search ----------

  /** The search that erases nothing steps over one character behind each escaped quote. */
  predicate Closes(rest: string, skip: nat, last: char) {
    if rest == "" then skip == 0 && last != '\\'
    else if rest[0] == '"' then Closes(rest[1..], 1, '"')
    else Closes(rest[1..], if skip == 0 then 0 else skip - 1, rest[0])
  }

  lemma {:induction false} ErasingCloses(rest: string, skip: nat, less: nat, last: char)
    requires less <= skip && ErasesAll(rest, skip, last)
    ensures Closes(rest, less, last)
    decreases |rest|
  {
    if rest != "" {
      var one := rest[0] == '"';
      ErasingCloses(rest[1..], if one then 2 else if skip == 0 then 0 else skip - 1,
                    if one then 1 else if less == 0 then 0 else less - 1, rest[0]);
    }
  }

  /** Where the search that erases nothing ends: at the closing quote, or nowhere in front of what follows it. */
  predicate EndsAs(closes: bool, last: nat, end: int, n: nat) {
    if closes then end == last else end == -1 || last < end < n
  }

  lemma {:induction false} ClosingQuoteIs(s: string, k: nat, rest: string, skip: nat, end: int)
    requires 1 <= k && skip <= 1 && Spells(s, k, rest) && end == ClosingQuote(s, Find(s, "\"", k + skip))
    ensures EndsAs(Closes(rest, skip, s[k - 1]), EndOf(k, rest), end, |s|)
    decreases |rest|, 1
  {
    if rest == "" {
      LastQuoteIs(s, k, skip);
    } else if rest[0] != '"' {
      ClosingBehindPlain(s, k, rest, skip, end);
    } else {
      ClosingTurn(s, k, skip, end);
      ClosingQuoteIs(s, k + 2, rest[1..], 1, end);
    }
  }

  lemma {:induction false} ClosingBehindPlain(s: string, k: nat, rest: string, skip: nat, end: int)
    requires 1 <= k && skip <= 1 && rest != "" && rest[0] != '"' && Spells(s, k, rest)
    requires end == ClosingQuote(s, Find(s, "\"", k + skip))
    ensures EndsAs(Closes(rest, skip, s[k - 1]), EndOf(k, rest), end, |s|)
    decreases |rest|, 0
  {
    if skip == 0 { FindFromNext(s, k); }
    ClosingQuoteIs(s, k + 1, rest[1..], if skip == 0 then 0 else skip - 1, end);
  }

  lemma ClosingTurn(s: string, k: nat, skip: nat, end: int)
    requires skip <= 1 && k + 1 < |s| && s[k] == '\\' && s[k + 1] == '"' && end == ClosingQuote(s, Find(s, "\"", k + skip))
    ensures end == ClosingQuote(s, Find(s, "\"", k + 3))
  {
    FindOne(s, "\"", k + skip, k + 1);
    ClosingStep(s, k + 1);
  }

  lemma ClosingStep(s: string, end: nat)
    requires 1 <= end < |s| && s[end - 1] == '\\'
    ensures ClosingQuote(s, end) == ClosingQuote(s, Find(s, "\"", end + 2))
  {}

  lemma LastQuoteIs(s: string, k: nat, skip: nat)
    requires 1 <= k < |s| && skip <= 1 && s[k] == '"'
    ensures var end := ClosingQuote(s, Find(s, "\"", k + skip));
            && (skip == 0 && s[k - 1] != '\\' ==> end == k)
            && (skip > 0 || s[k - 1] == '\\' ==> end == -1 || k < end < |s|)
  {
    if skip == 0 {
      FindOne(s, "\"", k, k);
    }
  }

  // ---------- Text in front of the opening quote ----------

  /** The value is cut by the position of the closing quote, not by the distance of the two quotes. So what is
      between the quotes is the value exactly where nothing stands in front of them. */
  lemma PrefixCondition(p: string, v: string, s: string, w: string)
    requires NoQuote(p) && NoQuote(v) && v != "" && v[|v| - 1] != '\\' && w == p + ['"'] + v + ['"'] + s
    ensures Unquoted(w) == v <==> p == ""
  {
    var start, end := |p|, |p| + 1 + |v|;
    FindOne(w, "\"", 0, start);
    FindOne(w, "\"", start + 1, end);
    assert w[end - 1] == v[|v| - 1];
    assert Unquoted(w) == Between(Unescaped(w, end), start);
    if p == "" {
      assert w[1..1 + |v|] == v;
    }
  }

  lemma PrefixIsNotDropped()
    ensures Unquoted("x\"ab\"") == "ab\""
  {
    var w := "x\"ab\"";
    FindOne(w, "\"", 0, 1);
    FindOne(w, "\"", 2, 4);
    assert Between(Unescaped(w, 4), 1) == w[2..] == "ab\"";
  }
}
