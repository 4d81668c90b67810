/**
 The time stamps that easylogging++ writes by default (DateTime::timevalToString with the format of
 kDefaultDateTimeFormat): their text fits the fixed buffer, and they sort as the times they stand for.
 */
module Timestamps {

  import opened Arithmetic
  import opened Options
  import opened DateTime
  import opened Text

  const BUFFER_SIZE := 30

  const DEFAULT_FORMAT := "%Y-%M-%d %H:%m:%s,%g"

  datatype SubsecondPrecision = SubsecondPrecision(width: nat, offset: nat)

  /** SubsecondPrecision::init */
  function Precision(width: int): SubsecondPrecision {
    var width := if width < 1 || width > 6 then 3 else width;
    SubsecondPrecision(width, match width case 4 => 100 case 5 => 10 case 6 => 1 case _ => 1000)
  }

  // ---------- timevalToString ----------

  lemma {:induction false} RenderIsText(format: string, t: TimeInfo, msec: nat, width: int)
    requires IsTime(t) && '\0' !in format
    ensures '\0' !in Render(format, t, msec, width)
  {
    if format != "" {
      if format[0] != '%' {
        RenderIsText(format[1..], t, msec, width);
      } else if |format| > 1 {
        FieldIsText(FieldOf(format[1], t, msec, width));
        NamesAreText(format[1], t, msec, width);
        RenderIsText(format[2..], t, msec, width);
      }
    }
  }

  lemma FieldIsText(f: Field)
    requires f.Name? ==> '\0' !in f.text
    ensures '\0' !in FieldText(f)
  {
    if f.Number? && (f.n != 0 || f.len > 0) {
      PaddedIsPrintable(f.n, DateTime.Width(f.len));
    }
  }

  /** The string built from the 30-character buffer, or None where the buffer holds no terminator and
      the string constructor would read past it. */
  method TimevalToString(format: string, t: TimeInfo, usec: nat, prec: SubsecondPrecision) returns (r: Option<string>)
    requires IsTime(t) && '\0' !in format && prec.offset > 0
    ensures var text := Render(format, t, usec / prec.offset, prec.width);
            r == if |text| < 30 then Some(text) else None
  {
    var buff := new char[BUFFER_SIZE](_ => '\0');
    ghost var empty, text := buff[..], Render(format, t, usec / prec.offset, prec.width);
    var pos := ParseFormat(buff, BUFFER_SIZE, format, t, usec / prec.offset, prec.width);
    RenderIsText(format, t, usec / prec.offset, prec.width);
    var n := Terminator(buff);
    TextEndsAt(buff[..], empty, text, pos, n);
    r := if n < BUFFER_SIZE then Some(buff[..n]) else None;
  }

  /** Where a NUL-terminated string in a buffer ends. */
  method Terminator(buff: array<char>) returns (n: nat)
    ensures n <= buff.Length && '\0' !in buff[..n] && (n < buff.Length ==> buff[n] == '\0')
  {
    n := 0;
    while n < buff.Length && buff[n] != '\0'
      invariant 0 <= n <= buff.Length && '\0' !in buff[..n]
    {
      n := n + 1;
    }
  }

  lemma TextEndsAt(contents: seq<char>, empty: seq<char>, text: string, pos: nat, n: nat)
    requires Holds(contents, empty, text, pos, |contents|) && '\0' !in text
    requires forall k :: 0 <= k < |empty| ==> empty[k] == '\0'
    requires n <= |contents| && '\0' !in contents[..n] && (n < |contents| ==> contents[n] == '\0')
    ensures n == pos && (n < |contents| <==> |text| < |contents|) && (n < |contents| ==> contents[..n] == text)
  {
    assert forall k :: 0 <= k < pos ==> contents[k] == contents[..pos][k] == text[k];
  }

  // ---------- Order of padded numbers ----------

  predicate LexLess(a: string, b: string) {
    b != "" && (a == "" || a[0] < b[0] || (a[0] == b[0] && LexLess(a[1..], b[1..])))
  }

  lemma {:induction false} LexConcat(a: string, b: string, x: string, y: string)
    requires |a| == |b|
    ensures LexLess(a + x, b + y) <==> LexLess(a, b) || (a == b && LexLess(x, y))
    decreases |a|
  {
    if a == "" {
      assert a + x == x && b + y == y;
    } else {
      assert (a + x)[1..] == a[1..] + x && (b + y)[1..] == b[1..] + y;
      LexConcat(a[1..], b[1..], x, y);
      assert a == [a[0]] + a[1..] && b == [b[0]] + b[1..];
    }
  }

  function Power10(k: nat): (p: nat)
    ensures p > 0
  {
    if k == 0 then 1 else 10 * Power10(k - 1)
  }

  /** Zero-padded conversion to `len` digits keeps the number modulo 10^len. */
  lemma {:induction false} PaddedIsModulo(n: nat, len: nat)
    ensures |Padded(n, len)| == len && (forall i :: 0 <= i < len ==> IsDigit(Padded(n, len)[i]))
    ensures DecimalValue(Padded(n, len)) == n % Power10(len)
  {
    if len > 0 {
      PaddedIsModulo(n / 10, len - 1);
      calc {
        DecimalValue(Padded(n, len));
        { DecimalSnoc(Padded(n / 10, len - 1), n); }
        10 * DecimalValue(Padded(n / 10, len - 1)) + n % 10;
        10 * (n / 10 % Power10(len - 1)) + n % 10;
        { LastDigitFirst(n, Power10(len - 1)); }
        n % (10 * Power10(len - 1));
      }
    }
  }

  lemma DecimalSnoc(digits: string, n: nat)
    requires forall i :: 0 <= i < |digits| ==> IsDigit(digits[i])
    ensures (forall i :: 0 <= i <= |digits| ==> IsDigit((digits + [Digit(n)])[i]))
    ensures DecimalValue(digits + [Digit(n)]) == 10 * DecimalValue(digits) + n % 10
  {
    assert (digits + [Digit(n)])[..|digits|] == digits;
  }

  lemma LastDigitFirst(n: nat, p: nat)
    requires p > 0
    ensures n % (10 * p) == 10 * (n / 10 % p) + n % 10
  {
    var q, r, d := n / 10 / p, n / 10 % p, n % 10;
    DivisionSplits(n / 10, p);
    Distribute(q, p, r, d);
    QuotientUnique(n, 10 * p, q, 10 * r + d);
  }

  lemma Distribute(q: nat, p: nat, r: nat, d: nat)
    ensures 10 * (q * p + r) + d == q * (10 * p) + (10 * r + d)
  {}

  /** So the number can be reduced before it is converted. */
  lemma {:induction false} PaddedOfRemainder(n: nat, len: nat)
    ensures Padded(n, len) == Padded(n % Power10(len), len)
  {
    if len > 0 {
      var p := Power10(len - 1);
      LastDigitFirst(n, p);
      var r := 10 * (n / 10 % p) + n % 10;
      assert r / 10 == n / 10 % p && Digit(r) == Digit(n);
      PaddedOfRemainder(n / 10, len - 1);
    }
  }

  /** The leading digits of a number are the digits of what is left when the others are divided away. */
  lemma {:induction false} LeadingDigits(n: nat, len: nat, k: nat)
    requires k <= len
    ensures |Padded(n, len)| == len && Padded(n, len)[..k] == Padded(Shifted(n, len - k), k)
    decreases len - k
  {
    PaddedLength(n, len);
    if k < len {
      PaddedLength(n / 10, len - 1);
      LeadingDigits(n / 10, len - 1, k);
      assert Padded(n, len)[..len - 1] == Padded(n / 10, len - 1);
      assert Padded(n, len)[..k] == Padded(n / 10, len - 1)[..k];
    } else {
      assert Padded(n, len)[..k] == Padded(n, len);
    }
  }

  /** Numbers that fit a width sort as their zero-padded digits do, and different ones look different. */
  lemma {:induction false} PaddedOrder(m: nat, n: nat, len: nat)
    requires m < Power10(len) && n < Power10(len)
    ensures LexLess(Padded(m, len), Padded(n, len)) <==> m < n
    ensures Padded(m, len) == Padded(n, len) <==> m == n
  {
    if len > 0 {
      var a, b := Padded(m / 10, len - 1), Padded(n / 10, len - 1);
      PaddedOrder(m / 10, n / 10, len - 1);
      PaddedLength(m / 10, len - 1);
      PaddedLength(n / 10, len - 1);
      LexConcat(a, b, [Digit(m)], [Digit(n)]);
      OneCharacter(Digit(m), Digit(n));
      assert (a + [Digit(m)])[..len - 1] == a && (b + [Digit(n)])[..len - 1] == b;
    }
  }

  lemma OneCharacter(c: char, d: char)
    ensures LexLess([c], [d]) <==> c < d
  {}

  lemma {:induction false} NotBelowItself(s: string)
    ensures !LexLess(s, s)
  {
    if s != "" {
      NotBelowItself(s[1..]);
    }
  }

  // ---------- Formats made of numbers and separators ----------

  datatype Columns = End | Column(specifier: char, separator: string, rest: Columns)

  function FormatOf(cs: Columns): string {
    match cs
    case End => ""
    case Column(c, separator, rest) => ['%', c] + (separator + FormatOf(rest))
  }

  /** Every specifier is a number of one to eight digits, and no separator starts another. */
  predicate AreNumbers(cs: Columns, t: TimeInfo, msec: nat, width: int)
    requires IsTime(t)
    decreases cs
  {
    match cs
    case End => true
    case Column(c, separator, rest) =>
      var f := FieldOf(c, t, msec, width);
      f.Number? && 1 <= f.len <= LOCAL_SIZE && '%' !in separator && AreNumbers(rest, t, msec, width)
  }

  /** The numbers, zero-padded, each followed by its separator. */
  function Print(cs: Columns, t: TimeInfo, msec: nat, width: int): string
    requires IsTime(t) && AreNumbers(cs, t, msec, width)
    decreases cs
  {
    match cs
    case End => ""
    case Column(c, separator, rest) =>
      var f := FieldOf(c, t, msec, width);
      Padded(f.n, f.len) + (separator + Print(rest, t, msec, width))
  }

  lemma {:induction false} RenderPlain(plain: string, rest: string, t: TimeInfo, msec: nat, width: int)
    requires IsTime(t) && '%' !in plain
    ensures Render(plain + rest, t, msec, width) == plain + Render(rest, t, msec, width)
  {
    if plain == "" {
      assert plain + rest == rest;
    } else {
      assert (plain + rest)[1..] == plain[1..] + rest;
      RenderPlain(plain[1..], rest, t, msec, width);
    }
  }

  lemma {:induction false} RenderIsPrint(cs: Columns, t: TimeInfo, msec: nat, width: int)
    requires IsTime(t) && AreNumbers(cs, t, msec, width)
    ensures Render(FormatOf(cs), t, msec, width) == Print(cs, t, msec, width)
    decreases cs
  {
    match cs
    case End =>
    case Column(c, separator, rest) =>
      var format := FormatOf(cs);
      assert format[0] == '%' && format[1] == c && format[2..] == separator + FormatOf(rest);
      RenderPlain(separator, FormatOf(rest), t, msec, width);
      RenderIsPrint(rest, t, msec, width);
  }

  predicate Fits(cs: Columns, t: TimeInfo, msec: nat, width: int)
    requires IsTime(t) && AreNumbers(cs, t, msec, width)
    decreases cs
  {
    match cs
    case End => true
    case Column(c, _, rest) =>
      var f := FieldOf(c, t, msec, width);
      f.n < Power10(f.len) && Fits(rest, t, msec, width)
  }

  /** The columns compared from the left. */
  predicate Less(cs: Columns, t: TimeInfo, msec: nat, u: TimeInfo, nsec: nat, width: int)
    requires IsTime(t) && AreNumbers(cs, t, msec, width) && IsTime(u) && AreNumbers(cs, u, nsec, width)
    decreases cs
  {
    match cs
    case End => false
    case Column(c, _, rest) =>
      var m, n := FieldOf(c, t, msec, width).n, FieldOf(c, u, nsec, width).n;
      m < n || (m == n && Less(rest, t, msec, u, nsec, width))
  }

  lemma SameLength(c: char, t: TimeInfo, msec: nat, u: TimeInfo, nsec: nat, width: int)
    requires IsTime(t) && IsTime(u) && FieldOf(c, t, msec, width).Number? && FieldOf(c, u, nsec, width).Number?
    ensures FieldOf(c, t, msec, width).len == FieldOf(c, u, nsec, width).len
  {}

  lemma {:induction false} PrintOrder(cs: Columns, t: TimeInfo, msec: nat, u: TimeInfo, nsec: nat, width: int)
    requires IsTime(t) && AreNumbers(cs, t, msec, width) && IsTime(u) && AreNumbers(cs, u, nsec, width)
    requires Fits(cs, t, msec, width) && Fits(cs, u, nsec, width)
    ensures LexLess(Print(cs, t, msec, width), Print(cs, u, nsec, width)) <==> Less(cs, t, msec, u, nsec, width)
    decreases cs
  {
    match cs
    case End =>
    case Column(c, separator, rest) =>
      var f, g := FieldOf(c, t, msec, width), FieldOf(c, u, nsec, width);
      SameLength(c, t, msec, u, nsec, width);
      PrintOrder(rest, t, msec, u, nsec, width);
      ColumnOrder(f.n, g.n, f.len, separator, Print(rest, t, msec, width), Print(rest, u, nsec, width));
  }

  lemma ColumnOrder(m: nat, n: nat, len: nat, separator: string, x: string, y: string)
    requires m < Power10(len) && n < Power10(len)
    ensures LexLess(Padded(m, len) + (separator + x), Padded(n, len) + (separator + y)) <==>
            m < n || (m == n && LexLess(x, y))
  {
    PaddedOrder(m, n, len);
    PaddedLength(m, len);
    PaddedLength(n, len);
    LexConcat(separator, separator, x, y);
    NotBelowItself(separator);
    LexConcat(Padded(m, len), Padded(n, len), separator + x, separator + y);
  }

  function Length(cs: Columns, t: TimeInfo, msec: nat, width: int): nat
    requires IsTime(t) && AreNumbers(cs, t, msec, width)
    decreases cs
  {
    match cs
    case End => 0
    case Column(c, separator, rest) =>
      FieldOf(c, t, msec, width).len + |separator| + Length(rest, t, msec, width)
  }

  lemma {:induction false} PrintLength(cs: Columns, t: TimeInfo, msec: nat, width: int)
    requires IsTime(t) && AreNumbers(cs, t, msec, width)
    ensures |Print(cs, t, msec, width)| == Length(cs, t, msec, width)
    decreases cs
  {
    match cs
    case End =>
    case Column(c, separator, rest) =>
      var f := FieldOf(c, t, msec, width);
      PaddedLength(f.n, f.len);
      PrintLength(rest, t, msec, width);
  }

  // ---------- The default stamps ----------

  const DATE := Column('Y', "-", Column('M', "-", Column('d', " ", TIME)))

  const TIME := Column('H', ":", Column('m', ":", Column('s', ",", SUBSECONDS)))

  const SUBSECONDS := Column('g', "", End)

  function Stamp(t: TimeInfo, usec: nat, prec: SubsecondPrecision): string
    requires IsTime(t) && prec.offset > 0
  {
    Render(DEFAULT_FORMAT, t, usec / prec.offset, prec.width)
  }

  lemma DefaultFormat()
    ensures DEFAULT_FORMAT == FormatOf(DATE)
  {}

  lemma DefaultIsNumbers(t: TimeInfo, msec: nat, width: int)
    requires IsTime(t) && 1 <= width <= 6
    ensures AreNumbers(DATE, t, msec, width) && Length(DATE, t, msec, width) == 20 + width
  {}

  lemma StampIsPrint(t: TimeInfo, usec: nat, prec: SubsecondPrecision)
    requires IsTime(t) && prec.offset > 0 && 1 <= prec.width <= 6
    ensures var msec := usec / prec.offset;
            AreNumbers(DATE, t, msec, prec.width) && Stamp(t, usec, prec) == Print(DATE, t, msec, prec.width)
  {
    DefaultFormat();
    DefaultIsNumbers(t, usec / prec.offset, prec.width);
    RenderIsPrint(DATE, t, usec / prec.offset, prec.width);
  }

  /** Default stamps of one precision all have the same length, so that the buffer never cuts them short. */
  lemma StampLength(t: TimeInfo, usec: nat, width: int)
    requires IsTime(t)
    ensures |Stamp(t, usec, Precision(width))| == 20 + Precision(width).width < 30
  {
    var prec := Precision(width);
    StampIsPrint(t, usec, prec);
    DefaultIsNumbers(t, usec / prec.offset, prec.width);
    PrintLength(DATE, t, usec / prec.offset, prec.width);
  }

  /** A time as `gmtime` and `gettimeofday` give it, in a year of at most four digits. */
  predicate IsStampTime(t: TimeInfo, usec: nat) {
    && IsTime(t) && t.year + YEAR_BASE < 10000 && t.mday < 100 && t.hour < 100 && t.min < 100 && t.sec < 100
    && usec < 1000000
  }

  predicate Before(t: TimeInfo, a: nat, u: TimeInfo, b: nat) {
    if t.year != u.year then t.year < u.year
    else if t.mon != u.mon then t.mon < u.mon
    else if t.mday != u.mday then t.mday < u.mday
    else if t.hour != u.hour then t.hour < u.hour
    else if t.min != u.min then t.min < u.min
    else if t.sec != u.sec then t.sec < u.sec
    else a < b
  }

  lemma LessIsBefore(t: TimeInfo, msec: nat, u: TimeInfo, nsec: nat, width: int)
    requires IsTime(t) && AreNumbers(DATE, t, msec, width) && IsTime(u) && AreNumbers(DATE, u, nsec, width)
    ensures Less(DATE, t, msec, u, nsec, width) <==> Before(t, msec, u, nsec)
  {}

  lemma DefaultFits(t: TimeInfo, usec: nat, msec: nat, width: int)
    requires IsStampTime(t, usec) && AreNumbers(DATE, t, msec, width)
    requires 1 <= width <= 6 && msec < Power10(width)
    ensures Fits(DATE, t, msec, width)
  {
    assert Power10(2) == 100 && Power10(4) == 10000;
    assert Fits(SUBSECONDS, t, msec, width);
    assert Fits(TIME, t, msec, width);
  }

  /** The digits shown are the leading ones of the six digits of the microseconds. */
  ghost predicate ShowsLeadingDigits(prec: SubsecondPrecision)
    requires prec.offset > 0
  {
    forall usec: nat :: usec < 1000000 ==> Padded(usec / prec.offset, prec.width) <= Padded(usec, 6)
  }

  lemma ShiftedIsDivided(n: nat, width: int)
    requires 3 <= width <= 6
    ensures Shifted(n, 6 - width) == n / Precision(width).offset
  {
    assert Shifted(n, 1) == n / 10 && Shifted(n, 2) == Shifted(n / 10, 1) == n / 10 / 10;
    assert Shifted(n, 3) == Shifted(n / 10, 2) == Shifted(n / 10 / 10, 1) == n / 10 / 10 / 10;
    assert n / 10 / 10 == n / 100 && n / 10 / 10 / 10 == n / 1000;
  }

  /** A stamp shows the leading digits of the subseconds exactly from three digits on. */
  lemma LeadingDigitsCondition(width: int)
    ensures ShowsLeadingDigits(Precision(width)) <==> width != 1 && width != 2
  {
    var prec := Precision(width);
    if prec.width >= 3 {
      forall usec: nat ensures Padded(usec / prec.offset, prec.width) <= Padded(usec, 6) {
        ShiftedIsDivided(usec, prec.width);
        LeadingDigits(usec, 6, prec.width);
      }
    } else {
      HundredMilliseconds(width);
    }
  }

  /** 100 milliseconds would have to show as 1 or 10 and show as 0 or 00. */
  lemma HundredMilliseconds(width: int)
    requires width == 1 || width == 2
    ensures !(Padded(100000 / Precision(width).offset, width) <= Padded(100000, 6))
  {
    LeadingDigits(100000, 6, 1);
    assert Shifted(100000, 5) == 1 && Padded(1, 1) == Padded(0, 0) + [Digit(1)] == "1";
    assert Padded(100000, 6)[0] == Padded(100000, 6)[..1][0] == '1';
    assert Padded(100, 1) == Padded(10, 0) + [Digit(100)] == "0";
    assert Padded(100, 2) == Padded(10, 1) + [Digit(100)] && Padded(10, 1) == Padded(1, 0) + [Digit(10)] == "0";
  }

  /** From three digits on, the subsecond number fits its width. */
  lemma SubsecondsFit(usec: nat, width: int)
    requires usec < 1000000 && Precision(width).width >= 3
    ensures usec / Precision(width).offset < Power10(Precision(width).width)
  {}

  /** With three subsecond digits or more, stamps sort as their times do, down to the precision. */
  lemma StampOrder(t: TimeInfo, usec: nat, u: TimeInfo, vsec: nat, width: int)
    requires IsStampTime(t, usec) && IsStampTime(u, vsec) && Precision(width).width >= 3
    ensures var prec := Precision(width);
            LexLess(Stamp(t, usec, prec), Stamp(u, vsec, prec)) <==>
            Before(t, usec / prec.offset, u, vsec / prec.offset)
  {
    var prec := Precision(width);
    var msec, nsec := usec / prec.offset, vsec / prec.offset;
    StampIsPrint(t, usec, prec);
    StampIsPrint(u, vsec, prec);
    SubsecondsFit(usec, width);
    SubsecondsFit(vsec, width);
    DefaultFits(t, usec, msec, prec.width);
    DefaultFits(u, vsec, nsec, prec.width);
    PrintOrder(DATE, t, msec, u, nsec, prec.width);
    LessIsBefore(t, msec, u, nsec, prec.width);
  }

  /** A stamp sorts before another only where its time is the earlier one. */
  ghost predicate SortsAsTime(prec: SubsecondPrecision)
    requires prec.offset > 0
  {
    forall t, usec: nat, u, vsec: nat | IsStampTime(t, usec) && IsStampTime(u, vsec) ::
      LexLess(Stamp(t, usec, prec), Stamp(u, vsec, prec)) ==> Before(t, usec, u, vsec)
  }

  lemma StampsSort(width: int)
    requires Precision(width).width >= 3
    ensures SortsAsTime(Precision(width))
  {
    var prec := Precision(width);
    forall t, usec: nat, u, vsec: nat | IsStampTime(t, usec) && IsStampTime(u, vsec)
      ensures LexLess(Stamp(t, usec, prec), Stamp(u, vsec, prec)) ==> Before(t, usec, u, vsec)
    {
      StampOrder(t, usec, u, vsec, width);
      if Before(t, usec / prec.offset, u, vsec / prec.offset) {
        Coarser(t, usec, u, vsec, prec.offset);
      }
    }
  }

  lemma Coarser(t: TimeInfo, usec: nat, u: TimeInfo, vsec: nat, offset: nat)
    requires offset > 0 && Before(t, usec / offset, u, vsec / offset)
    ensures Before(t, usec, u, vsec)
  {
    DivisionReflectsOrder(usec, vsec, offset);
  }

  /** A stamp shows no more of the subseconds than their last digits. */
  lemma SameDigitsSameStamp(t: TimeInfo, m: nat, n: nat, width: int)
    requires IsTime(t) && 1 <= width <= 6 && Padded(m, width) == Padded(n, width)
    requires AreNumbers(DATE, t, m, width) && AreNumbers(DATE, t, n, width)
    ensures Print(DATE, t, m, width) == Print(DATE, t, n, width)
  {
    assert Print(SUBSECONDS, t, m, width) == Print(SUBSECONDS, t, n, width);
    assert Print(TIME, t, m, width) == Print(TIME, t, n, width);
  }

  lemma ReducedPrint(t: TimeInfo, m: nat, width: int, shown: nat)
    requires IsStampTime(t, 0) && 1 <= width <= 6 && shown == m % Power10(width)
    ensures AreNumbers(DATE, t, m, width) && AreNumbers(DATE, t, shown, width) && Fits(DATE, t, shown, width)
    ensures Print(DATE, t, m, width) == Print(DATE, t, shown, width)
  {
    DefaultIsNumbers(t, m, width);
    DefaultIsNumbers(t, shown, width);
    PaddedOfRemainder(m, width);
    SameDigitsSameStamp(t, m, shown, width);
    DefaultFits(t, 0, shown, width);
  }

  lemma PrintsCompare(t: TimeInfo, m: nat, n: nat, width: int, x: nat, y: nat)
    requires IsStampTime(t, 0) && 1 <= width <= 6 && x == m % Power10(width) && y == n % Power10(width)
    ensures AreNumbers(DATE, t, m, width) && AreNumbers(DATE, t, n, width)
    ensures LexLess(Print(DATE, t, m, width), Print(DATE, t, n, width)) <==> x < y
  {
    ReducedPrint(t, m, width, x);
    ReducedPrint(t, n, width, y);
    PrintOrder(DATE, t, x, t, y, width);
    LessIsBefore(t, x, t, y, width);
  }

  /** Two stamps of the same second sort as the digits of the subseconds that are shown. */
  lemma ShownDigitsDecide(t: TimeInfo, usec: nat, vsec: nat, prec: SubsecondPrecision)
    requires IsStampTime(t, 0) && 1 <= prec.width <= 6 && prec.offset > 0
    ensures LexLess(Stamp(t, usec, prec), Stamp(t, vsec, prec)) <==>
            usec / prec.offset % Power10(prec.width) < vsec / prec.offset % Power10(prec.width)
  {
    var m, n, w := usec / prec.offset, vsec / prec.offset, prec.width;
    PrintsCompare(t, m, n, w, m % Power10(w), n % Power10(w));
    assert Stamp(t, usec, prec) == Print(DATE, t, m, w) by { StampIsPrint(t, usec, prec); }
    assert Stamp(t, vsec, prec) == Print(DATE, t, n, w) by { StampIsPrint(t, vsec, prec); }
  }

  /** With one or two digits, 100 milliseconds show as 0 and sort before 99, in every second. */
  lemma HundredBeforeNinetyNine(t: TimeInfo, width: int)
    requires IsStampTime(t, 0) && (width == 1 || width == 2)
    ensures LexLess(Stamp(t, 100000, Precision(width)), Stamp(t, 99000, Precision(width)))
  {
    ShownDigitsDecide(t, 100000, 99000, Precision(width));
    assert Power10(1) == 10 && Power10(2) == 100;
  }

  lemma ShortStampsDoNotSort(width: int)
    requires width == 1 || width == 2
    ensures !SortsAsTime(Precision(width))
  {
    var t := TimeInfo(100, 0, 1, 6, 0, 0, 0);
    HundredBeforeNinetyNine(t, width);
    assert IsStampTime(t, 100000) && IsStampTime(t, 99000) && !Before(t, 100000, t, 99000);
  }

  /** Default stamps sort as their times exactly when the subsecond width is neither one nor two. */
  lemma StampsSortCondition(width: int)
    ensures SortsAsTime(Precision(width)) <==> width != 1 && width != 2
  {
    if width != 1 && width != 2 {
      StampsSort(width);
    } else {
      ShortStampsDoNotSort(width);
    }
  }
}
