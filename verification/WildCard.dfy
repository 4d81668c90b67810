/**
 Str::wildCardMatch of external/easylogging++/easylogging++.cc, against a declarative meaning of the
 glob patterns it accepts. A NUL-terminated `char*` is the sequence of the characters before its
 terminator, and advancing it drops the first of them.
 */
module WildCard {

  /** What one pattern character may stand for. */
  predicate PieceFits(c: char, piece: string) {
    if c == '*' then true else if c == '?' then |piece| == 1 else piece == [c]
  }

  ghost function Concat(pieces: seq<string>): string {
    if pieces == [] then "" else pieces[0] + Concat(pieces[1..])
  }

  /** `pieces` cuts `str` into consecutive parts, one for each pattern character. */
  ghost predicate Cut(str: string, pattern: string, pieces: seq<string>) {
    && |pieces| == |pattern|
    && Concat(pieces) == str
    && forall i :: 0 <= i < |pieces| ==> PieceFits(pattern[i], pieces[i])
  }

  /** The meaning of a pattern: some way to cut the string gives every character a fitting part. */
  ghost predicate Matches(str: string, pattern: string) {
    exists pieces :: Cut(str, pattern, pieces)
  }

  /** The matcher returns true exactly on the strings that the pattern means. */
  method WildCardMatch(str: string, pattern: string) returns (r: bool)
    ensures r <==> Matches(str, pattern)
    decreases |str| + |pattern|
  {
    var s, p := str, pattern;
    while p != ""
      invariant |s| + |p| <= |str| + |pattern|
      invariant Matches(s, p) <==> Matches(str, pattern)
      decreases |p|
    {
      match p[0]
      case '?' =>
        SingleStep(s, p);
        if s == "" { return false; }
        s, p := s[1..], p[1..];
      case '*' =>
        StarStep(s, p);
        var skipped := WildCardMatch(s, p[1..]);
        if skipped { return true; }
        if s == "" { return false; }
        var taken := WildCardMatch(s[1..], p);
        return taken;
      case _ =>
        SingleStep(s, p);
        if s == "" || s[0] != p[0] { return false; }
        s, p := s[1..], p[1..];
    }
    EmptyPattern(s);
    return s == "";
  }

  lemma EmptyPattern(str: string)
    ensures Matches(str, "") <==> str == ""
  {
    if str == "" { assert Cut("", "", []); }
  }

  /** A match is a first part for the first character and a match of the rest. */
  lemma FirstPiece(str: string, pattern: string)
    requires pattern != ""
    ensures Matches(str, pattern) <==>
            exists k :: 0 <= k <= |str| && PieceFits(pattern[0], str[..k]) && Matches(str[k..], pattern[1..])
  {
    if Matches(str, pattern) {
      var pieces :| Cut(str, pattern, pieces);
      var k := |pieces[0]|;
      assert str[..k] == pieces[0] && str[k..] == Concat(pieces[1..]);
      assert Cut(str[k..], pattern[1..], pieces[1..]);
    }
    if k :| 0 <= k <= |str| && PieceFits(pattern[0], str[..k]) && Matches(str[k..], pattern[1..]) {
      var rest :| Cut(str[k..], pattern[1..], rest);
      assert ([str[..k]] + rest)[1..] == rest;
      assert Cut(str, pattern, [str[..k]] + rest);
    }
  }

  lemma SingleStep(str: string, pattern: string)
    requires pattern != "" && pattern[0] != '*'
    ensures Matches(str, pattern) <==>
            str != "" && (pattern[0] == '?' || str[0] == pattern[0]) && Matches(str[1..], pattern[1..])
  {
    FirstPiece(str, pattern);
    if str != "" { assert str[..1] == [str[0]]; }
  }

  lemma StarStep(str: string, pattern: string)
    requires pattern != "" && pattern[0] == '*'
    ensures Matches(str, pattern) <==>
            Matches(str, pattern[1..]) || (str != "" && Matches(str[1..], pattern))
  {
    FirstPiece(str, pattern);
    assert str[0..] == str;
    if str != "" {
      FirstPiece(str[1..], pattern);
      if k :| 0 < k <= |str| && Matches(str[k..], pattern[1..]) {
        assert str[1..][k - 1..] == str[k..];
      }
      if k :| 0 <= k < |str| && Matches(str[1..][k..], pattern[1..]) {
        assert str[1..][k..] == str[k + 1..];
      }
    }
  }

  // ---------- What follows for patterns ----------

  predicate IsLiteral(pattern: string) {
    '*' !in pattern && '?' !in pattern
  }

  /** A pattern without wild cards matches itself and nothing else. */
  lemma {:induction false} LiteralMatchesItself(str: string, pattern: string)
    requires IsLiteral(pattern)
    ensures Matches(str, pattern) <==> str == pattern
    decreases |pattern|
  {
    if pattern == "" {
      EmptyPattern(str);
    } else {
      SingleStep(str, pattern);
      if str != "" {
        LiteralMatchesItself(str[1..], pattern[1..]);
        assert str == [str[0]] + str[1..] && pattern == [pattern[0]] + pattern[1..];
      }
    }
  }

  lemma {:induction false} StarMatchesAll(str: string)
    ensures Matches(str, "*")
    decreases |str|
  {
    StarStep(str, "*");
    assert "*"[1..] == "";
    EmptyPattern(str);
    if str != "" {
      StarMatchesAll(str[1..]);
    }
  }
}
