/** The string helpers of Str in external/easylogging++/easylogging++.cc that configuration values pass through. */
module Text {

  import opened Options

  /** `isspace` in the C locale */
  predicate IsSpace(c: char) {
    c == ' ' || '\t' <= c <= '\r'
  }

  function LTrim(s: string): (r: string)
    ensures |r| <= |s|
  {
    if s != "" && IsSpace(s[0]) then LTrim(s[1..]) else s
  }

  function RTrim(s: string): string {
    if s != "" && IsSpace(s[|s| - 1]) then RTrim(s[..|s| - 1]) else s
  }

  function Trim(s: string): string {
    LTrim(RTrim(s))
  }

  lemma Regroup(a: string, b: string, c: string)
    ensures (a + b) + c == a + (b + c)
  {}

  predicate IsDigit(c: char) {
    '0' <= c <= '9'
  }

  /** The number that decimal digits spell. */
  function DecimalValue(digits: string): nat
    requires forall i :: 0 <= i < |digits| ==> IsDigit(digits[i])
  {
    if digits == "" then 0
    else
      var last := digits[|digits| - 1];
      assert IsDigit(last);
      10 * DecimalValue(digits[..|digits| - 1]) + (last as int - '0' as int)
  }

  /** A number in decimal digits, without leading zeros. */
  function Decimal(n: nat): string {
    if n < 10 then ['0' + n as char] else Decimal(n / 10) + ['0' + (n % 10) as char]
  }

  lemma {:induction false} DecimalIsNumber(n: nat)
    ensures Decimal(n) != "" && (forall i :: 0 <= i < |Decimal(n)| ==> IsDigit(Decimal(n)[i])) && DecimalValue(Decimal(n)) == n
  {
    if n < 10 {
      assert Decimal(n)[..0] == "" && DecimalValue("") == 0;
    } else {
      DecimalIsNumber(n / 10);
      assert Decimal(n)[..|Decimal(n)| - 1] == Decimal(n / 10);
    }
  }

  /** `toupper` in the C locale */
  function Upper(c: char): char {
    if 'a' <= c <= 'z' then (c as int - 32) as char else c
  }

  /** Str::toUpper */
  function UpperCase(s: string): string {
    seq(|s|, i requires 0 <= i < |s| => Upper(s[i]))
  }

  function Lower(c: char): char {
    if 'A' <= c <= 'Z' then (c as int + 32) as char else c
  }

  function LowerCase(s: string): string {
    seq(|s|, i requires 0 <= i < |s| => Lower(s[i]))
  }

  /** What `c_str()` shows of a string: the characters before the first NUL. */
  function CString(s: string): string {
    if s == "" || s[0] == '\0' then "" else [s[0]] + CString(s[1..])
  }

  /** The character of a NUL-terminated string at `i`, its terminator included. */
  function CharAt(s: string, i: nat): char {
    if i < |s| then s[i] else '\0'
  }

  lemma {:induction false} CStringStops(s: string, i: nat)
    requires i <= |CString(s)|
    ensures CharAt(s, i) == CharAt(CString(s), i)
    ensures CharAt(s, i) == '\0' <==> i == |CString(s)|
  {
    if s != "" && s[0] != '\0' && i > 0 {
      CStringStops(s[1..], i - 1);
    }
  }

  lemma {:induction false} CStringOfText(s: string)
    requires '\0' !in s
    ensures CString(s) == s
  {
    if s != "" {
      CStringOfText(s[1..]);
    }
  }

  /** Str::cStringCaseEq; None is a null pointer. */
  method CStringCaseEq(p1: Option<string>, p2: Option<string>) returns (equal: bool)
    ensures equal <==> (p1.None? && p2.None?) || (p1.Some? && p2.Some? && CaseEq(p1.value, p2.value))
  {
    if p1.None? && p2.None? { return true; }
    if p1.None? || p2.None? { return false; }
    var s1, s2 := p1.value, p2.value;
    ghost var a, b := CString(s1), CString(s2);
    var i := 0;
    while true
      invariant 0 <= i <= |a| && i <= |b|
      invariant forall k :: 0 <= k < i ==> Upper(a[k]) == Upper(b[k])
      decreases |a| - i
    {
      CStringStops(s1, i);
      CStringStops(s2, i);
      var c1, c2 := Upper(CharAt(s1, i)), Upper(CharAt(s2, i));
      if c1 != c2 || c2 == '\0' {
        assert c1 != c2 && i < |a| && i < |b| ==> UpperCase(a)[i] != UpperCase(b)[i];
        assert c1 == c2 ==> UpperCase(a) == UpperCase(b);
        return c1 == c2;
      }
      i := i + 1;
    }
  }

  /** Equality of NUL-terminated strings up to case. */
  predicate CaseEq(s1: string, s2: string) {
    UpperCase(CString(s1)) == UpperCase(CString(s2))
  }

  // ---------- Trimming ----------

  lemma TrimNothing(s: string)
    requires s != "" ==> !IsSpace(s[0]) && !IsSpace(s[|s| - 1])
    ensures Trim(s) == s
  {}

  lemma {:induction false} RTrimKeeps(s: string, k: nat)
    requires k < |s| && !IsSpace(s[k])
    ensures k < |RTrim(s)| <= |s| && RTrim(s)[..k + 1] == s[..k + 1]
  {
    if IsSpace(s[|s| - 1]) {
      RTrimKeeps(s[..|s| - 1], k);
    }
  }
}
