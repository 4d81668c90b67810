/**
 What the conversion specifiers of DateTime::parseFormat (external/easylogging++/easylogging++.cc) stand for, told from the
 time alone, and what can be read back from a default time stamp.
 */
module DateFields {

  import opened Text
  import opened DateTime
  import opened Timestamps

  // ---------- One specifier ----------

  /** The last two decimal digits of a number. */
  function TwoDigits(n: nat): string {
    [('0' as int + n / 10 % 10) as char, ('0' as int + n % 10) as char]
  }

  lemma TwoIsPadded(n: nat)
    ensures Padded(n, 2) == TwoDigits(n)
  {
    assert Padded(n / 10, 1) == Padded(n / 10 / 10, 0) + [Digit(n / 10)] == [Digit(n / 10)];
  }

  lemma RenderSpecifier(format: string, c: char, rest: string, t: TimeInfo, msec: nat, width: int)
    requires IsTime(t) && format == ['%', c] + rest
    ensures Render(format, t, msec, width) == FieldText(FieldOf(c, t, msec, width)) + Render(rest, t, msec, width)
  {
    assert format[2..] == rest;
  }

  lemma TwoDigitField(n: nat)
    ensures FieldText(Number(n, 2)) == TwoDigits(n)
  {
    TwoIsPadded(n);
  }

  lemma NumberIsRendered(format: string, c: char, rest: string, n: nat, t: TimeInfo, msec: nat, width: int)
    requires IsTime(t) && format == ['%', c] + rest && FieldOf(c, t, msec, width) == Number(n, 2)
    ensures Render(format, t, msec, width) == TwoDigits(n) + Render(rest, t, msec, width)
  {
    RenderSpecifier(format, c, rest, t, msec, width);
    TwoDigitField(n);
  }

  /** The specifiers of two digits. */
  lemma DatesAreRendered(rest: string, t: TimeInfo, msec: nat, width: int)
    requires IsTime(t)
    ensures Render("%d" + rest, t, msec, width) == TwoDigits(t.mday) + Render(rest, t, msec, width)
    ensures Render("%M" + rest, t, msec, width) == TwoDigits(t.mon + 1) + Render(rest, t, msec, width)
    ensures Render("%y" + rest, t, msec, width) == TwoDigits(t.year + 1900) + Render(rest, t, msec, width)
  {
    NumberIsRendered("%d" + rest, 'd', rest, t.mday, t, msec, width);
    NumberIsRendered("%M" + rest, 'M', rest, t.mon + 1, t, msec, width);
    NumberIsRendered("%y" + rest, 'y', rest, t.year + 1900, t, msec, width);
  }

  lemma HoursAreRendered(rest: string, t: TimeInfo, msec: nat, width: int)
    requires IsTime(t)
    ensures Render("%h" + rest, t, msec, width) == TwoDigits(t.hour % 12) + Render(rest, t, msec, width)
    ensures Render("%H" + rest, t, msec, width) == TwoDigits(t.hour) + Render(rest, t, msec, width)
    ensures Render("%m" + rest, t, msec, width) == TwoDigits(t.min) + Render(rest, t, msec, width)
    ensures Render("%s" + rest, t, msec, width) == TwoDigits(t.sec) + Render(rest, t, msec, width)
  {
    NumberIsRendered("%h" + rest, 'h', rest, t.hour % 12, t, msec, width);
    NumberIsRendered("%H" + rest, 'H', rest, t.hour, t, msec, width);
    NumberIsRendered("%m" + rest, 'm', rest, t.min, t, msec, width);
    NumberIsRendered("%s" + rest, 's', rest, t.sec, t, msec, width);
  }

  lemma YearIsRendered(rest: string, t: TimeInfo, msec: nat, width: int)
    requires IsTime(t)
    ensures Render("%Y" + rest, t, msec, width) ==
            TwoDigits((t.year + 1900) / 100) + TwoDigits(t.year + 1900) + Render(rest, t, msec, width)
  {
    FourIsPadded(t.year + 1900);
    RenderSpecifier("%Y" + rest, 'Y', rest, t, msec, width);
  }

  /** The digits of a text from `i` to `j` spell a number. */
  predicate Spells(s: string, i: nat, j: nat, n: nat)
    requires i <= j <= |s|
  {
    (forall k :: i <= k < j ==> IsDigit(s[k])) && DecimalValue(s[i..j]) == n
  }

  lemma PaddedSpells(n: nat, len: nat, before: string, after: string, s: string)
    requires s == before + (Padded(n, len) + after)
    ensures |before| + len <= |s| && Spells(s, |before|, |before| + len, n % Power10(len))
  {
    PaddedIsModulo(n, len);
    var i, j, digits := |before|, |before| + len, Padded(n, len);
    assert s[i..j] == digits;
    forall k | i <= k < j ensures IsDigit(s[k]) { assert s[k] == digits[k - i]; }
  }

  /** The subseconds, of as many digits as the precision asks for. */
  lemma SubsecondsAreRendered(format: string, c: char, rest: string, t: TimeInfo, msec: nat, width: int, s: string)
    requires IsTime(t) && 1 <= width <= 6 && (c == 'g' || c == 'z') && format == ['%', c] + rest
    requires s == Render(format, t, msec, width)
    ensures width <= |s| && Spells(s, 0, width, msec % Power10(width)) && s[width..] == Render(rest, t, msec, width)
  {
    RenderSpecifier(format, c, rest, t, msec, width);
    SubsecondIs(c, t, msec, width);
    DigitsInFront(msec, width, Render(rest, t, msec, width), s);
  }

  lemma SubsecondIs(c: char, t: TimeInfo, msec: nat, width: int)
    requires IsTime(t) && 1 <= width <= 6 && (c == 'g' || c == 'z')
    ensures FieldText(FieldOf(c, t, msec, width)) == Padded(msec, width)
  {
    SubsecondField(msec, width);
  }

  lemma DigitsInFront(n: nat, len: nat, after: string, s: string)
    requires s == Padded(n, len) + after
    ensures len <= |s| && Spells(s, 0, len, n % Power10(len)) && s[len..] == after
  {
    PaddedLength(n, len);
    assert s == "" + (Padded(n, len) + after);
    PaddedSpells(n, len, "", after, s);
  }

  lemma FourIsPadded(n: nat)
    ensures FieldText(Number(n, 4)) == TwoDigits(n / 100) + TwoDigits(n)
  {
    TwoIsPadded(n / 100);
    assert n / 10 / 10 == n / 100;
    assert Padded(n, 4) == Padded(n / 10 / 10, 2) + [Digit(n / 10)] + [Digit(n)];
  }

  lemma SubsecondField(n: nat, width: int)
    requires 1 <= width <= 6
    ensures FieldText(Number(n, width)) == Padded(n, width)
  {}

  /** The names, as they are spelled in the source. */
  lemma NamesAreRendered(rest: string, t: TimeInfo, msec: nat, width: int)
    requires IsTime(t)
    ensures Render("%a" + rest, t, msec, width) ==
            ["Sun", "Mon", "Tue", "Wed", "Thu", "Fri", "Sat"][t.wday] + Render(rest, t, msec, width)
    ensures Render("%A" + rest, t, msec, width) ==
            ["Sunday", "Monday", "Tuesday", "Wednesday", "Thursday", "Friday", "Saturday"][t.wday]
            + Render(rest, t, msec, width)
    ensures Render("%F" + rest, t, msec, width) == (if t.hour >= 12 then "PM" else "AM") + Render(rest, t, msec, width)
  {
    RenderSpecifier("%a" + rest, 'a', rest, t, msec, width);
    RenderSpecifier("%A" + rest, 'A', rest, t, msec, width);
    RenderSpecifier("%F" + rest, 'F', rest, t, msec, width);
  }

  lemma MonthsAreRendered(rest: string, t: TimeInfo, msec: nat, width: int)
    requires IsTime(t)
    ensures Render("%b" + rest, t, msec, width) ==
            ["Jan", "Feb", "Mar", "Apr", "May", "Jun", "Jul", "Aug", "Sep", "Oct", "Nov", "Dec"][t.mon]
            + Render(rest, t, msec, width)
    ensures Render("%B" + rest, t, msec, width) ==
            ["January", "February", "March", "Apri", "May", "June", "July", "August", "September", "October", "November",
             "December"][t.mon] + Render(rest, t, msec, width)
  {
    RenderSpecifier("%b" + rest, 'b', rest, t, msec, width);
    RenderSpecifier("%B" + rest, 'B', rest, t, msec, width);
  }

  /** A doubled percent sign is one, a last one stays, plain characters stay, and anything else vanishes. */
  lemma OthersAreRendered(c: char, rest: string, t: TimeInfo, msec: nat, width: int)
    requires IsTime(t)
    ensures Render("%%" + rest, t, msec, width) == "%" + Render(rest, t, msec, width)
    ensures Render("%", t, msec, width) == "%" && Render("", t, msec, width) == ""
    ensures c != '%' ==> Render([c] + rest, t, msec, width) == [c] + Render(rest, t, msec, width)
    ensures c !in "%dMyhHmsYgzaAFbB" ==> Render(['%', c] + rest, t, msec, width) == Render(rest, t, msec, width)
  {
    RenderSpecifier("%%" + rest, '%', rest, t, msec, width);
    RenderSpecifier(['%', c] + rest, c, rest, t, msec, width);
    assert ([c] + rest)[1..] == rest;
    if c !in "%dMyhHmsYgzaAFbB" {
      UnknownIsNothing(c, "%dMyhHmsYgzaAFbB", t, msec, width);
      assert "" + Render(rest, t, msec, width) == Render(rest, t, msec, width);
    }
  }

  lemma UnknownIsNothing(c: char, known: string, t: TimeInfo, msec: nat, width: int)
    requires IsTime(t) && known == "%dMyhHmsYgzaAFbB" && c !in known
    ensures FieldOf(c, t, msec, width) == Nothing
  {
    assert known[0] == '%' && known[1] == 'd' && known[2] == 'M' && known[3] == 'y' && known[4] == 'h' && known[5] == 'H'
           && known[6] == 'm' && known[7] == 's' && known[8] == 'Y' && known[9] == 'g' && known[10] == 'z' && known[11] == 'a'
           && known[12] == 'A' && known[13] == 'F' && known[14] == 'b' && known[15] == 'B';
  }

  /** No number has more than eight digits, however many are asked for. */
  lemma EightDigitsAtMost(n: nat, len: int, zeroPadded: bool)
    requires n > 0 && len > 0
    ensures |Converted(n, len, zeroPadded)| <= 8
    ensures zeroPadded ==> Converted(n, len, true) == Padded(n, if len < 8 then len else 8)
  {
    if zeroPadded {
      PaddedLength(n, if len < 8 then len else 8);
    } else {
      UnpaddedLength(n, if len < 8 then len else 8);
    }
  }

  lemma {:induction false} UnpaddedLength(n: nat, len: nat)
    ensures |Unpadded(n, len)| <= len
    decreases len
  {
    if n > 0 && len > 0 {
      UnpaddedLength(n / 10, len - 1);
    }
  }

  // ---------- Reading a stamp back ----------

  /** A stamp up to its subseconds. */
  ghost predicate ReadsAs(s: string, t: TimeInfo)
    requires t.year + 1900 >= 0
  {
    && |s| >= 20
    && Spells(s, 0, 4, t.year + 1900) && s[4] == '-'
    && Spells(s, 5, 7, t.mon + 1) && s[7] == '-'
    && Spells(s, 8, 10, t.mday) && s[10] == ' '
    && Spells(s, 11, 13, t.hour) && s[13] == ':'
    && Spells(s, 14, 16, t.min) && s[16] == ':'
    && Spells(s, 17, 19, t.sec) && s[19] == ','
  }

  lemma FieldAt(s: string, k: nat, n: nat, len: nat, separator: string, rest: string)
    requires k <= |s| && s[k..] == Padded(n, len) + (separator + rest) && |separator| == 1 && n < Power10(len)
    ensures k + len < |s| && Spells(s, k, k + len, n) && s[k + len] == separator[0] && s[k + len + 1..] == rest
  {
    PaddedLength(n, len);
    SmallIsItsRemainder(n, Power10(len));
    assert s == s[..k] + (Padded(n, len) + (separator + rest));
    PaddedSpells(n, len, s[..k], separator + rest, s);
    assert s[k..][len] == separator[0] && s[k..][len + 1..] == rest;
  }

  lemma SmallIsItsRemainder(n: nat, p: nat)
    requires n < p
    ensures n % p == n
  {}

  lemma PowersOfTen()
    ensures Power10(2) == 100 && Power10(4) == 10000
  {
    assert Power10(1) == 10 && Power10(3) == 1000;
  }

  lemma DateIsRead(s: string, t: TimeInfo, msec: nat, width: int)
    requires IsStampTime(t, 0) && 1 <= width <= 6 && AreNumbers(DATE, t, msec, width) && s == Print(DATE, t, msec, width)
    ensures |s| > 10 && Spells(s, 0, 4, t.year + 1900) && s[4] == '-' && Spells(s, 5, 7, t.mon + 1) && s[7] == '-'
    ensures Spells(s, 8, 10, t.mday) && s[10] == ' ' && s[11..] == Print(TIME, t, msec, width)
  {
    PowersOfTen();
    var days := Column('d', " ", TIME);
    var months := Column('M', "-", days);
    assert s[0..] == s;
    FieldAt(s, 0, t.year + 1900, 4, "-", Print(months, t, msec, width));
    FieldAt(s, 5, t.mon + 1, 2, "-", Print(days, t, msec, width));
    FieldAt(s, 8, t.mday, 2, " ", Print(TIME, t, msec, width));
  }

  lemma TimeIsRead(s: string, t: TimeInfo, msec: nat, width: int)
    requires IsStampTime(t, 0) && 1 <= width <= 6 && AreNumbers(TIME, t, msec, width)
    requires 11 <= |s| && s[11..] == Print(TIME, t, msec, width)
    ensures |s| > 19 && Spells(s, 11, 13, t.hour) && s[13] == ':' && Spells(s, 14, 16, t.min) && s[16] == ':'
    ensures Spells(s, 17, 19, t.sec) && s[19] == ',' && s[20..] == Print(SUBSECONDS, t, msec, width)
  {
    PowersOfTen();
    var seconds := Column('s', ",", SUBSECONDS);
    var minutes := Column('m', ":", seconds);
    FieldAt(s, 11, t.hour, 2, ":", Print(minutes, t, msec, width));
    FieldAt(s, 14, t.min, 2, ":", Print(seconds, t, msec, width));
    FieldAt(s, 17, t.sec, 2, ",", Print(SUBSECONDS, t, msec, width));
  }

  /** Every default stamp reads as its time: year, month, day, hour, minute and second at their places, and behind them the
      subseconds that the precision shows. */
  lemma StampReads(t: TimeInfo, usec: nat, width: int)
    requires IsStampTime(t, usec)
    ensures var s, prec := Stamp(t, usec, Precision(width)), Precision(width);
            && ReadsAs(s, t)
            && |s| == 20 + prec.width && Spells(s, 20, 20 + prec.width, usec / prec.offset % Power10(prec.width))
  {
    var prec := Precision(width);
    var s, msec := Stamp(t, usec, prec), usec / prec.offset;
    StampIsPrint(t, usec, prec);
    DateIsRead(s, t, msec, prec.width);
    TimeIsRead(s, t, msec, prec.width);
    StampLength(t, usec, width);
    SubsecondsAreRead(s, t, msec, prec.width);
  }

  lemma SubsecondsAreRead(s: string, t: TimeInfo, msec: nat, width: int)
    requires IsTime(t) && 1 <= width <= 6 && AreNumbers(SUBSECONDS, t, msec, width)
    requires |s| == 20 + width && s[20..] == Print(SUBSECONDS, t, msec, width)
    ensures Spells(s, 20, 20 + width, msec % Power10(width))
  {
    assert s == s[..20] + (Padded(msec, width) + "");
    PaddedSpells(msec, width, s[..20], "", s);
  }
}
