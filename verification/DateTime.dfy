/**
 How easylogging++ writes dates into a bounded buffer: Str::convertAndAddToBuff, Str::addToBuff and
 DateTime::parseFormat of external/easylogging++/easylogging++.cc. A `char*` cursor is a position in the
 buffer, a NUL-terminated string the sequence of the characters before its terminator.
 */
module DateTime {

  // ---------- Decimal digits ----------

  function Digit(n: nat): char {
    '0' + (n % 10) as char
  }

  /** The last `len` decimal digits of `n`, with leading zeros. */
  function Padded(n: nat, len: nat): string {
    if len == 0 then "" else Padded(n / 10, len - 1) + [Digit(n)]
  }

  /** The last `len` decimal digits of `n`, without leading zeros where `n` has fewer. */
  function Unpadded(n: nat, len: nat): string {
    if n == 0 || len == 0 then "" else Unpadded(n / 10, len - 1) + [Digit(n)]
  }

  const LOCAL_SIZE := 8  // digits that fit into localBuff

  function Width(len: int): nat {
    if len <= 0 then 0 else if len <= LOCAL_SIZE then len else LOCAL_SIZE
  }

  /** What convertAndAddToBuff makes of a number: at least one digit for zero, never more than eight. */
  function Converted(n: nat, len: int, zeroPadded: bool): string {
    if n == 0 && (len <= 0 || !zeroPadded) then "0"
    else if zeroPadded then Padded(n, Width(len))
    else Unpadded(n, Width(len))
  }

  lemma {:induction false} PaddedLength(n: nat, len: nat)
    ensures |Padded(n, len)| == len
  {
    if len > 0 {
      PaddedLength(n / 10, len - 1);
    }
  }

  /** `n` after `k` divisions by ten */
  function Shifted(n: nat, k: nat): nat {
    if k == 0 then n else Shifted(n / 10, k - 1)
  }

  lemma {:induction false} ShiftedOnce(n: nat, k: nat)
    ensures Shifted(n, k) / 10 == Shifted(n, k + 1)
  {
    if k > 0 {
      ShiftedOnce(n / 10, k - 1);
    }
  }

  /** One digit more, in front. */
  lemma {:induction false} PaddedCons(n: nat, k: nat)
    ensures Padded(n, k + 1) == [Digit(Shifted(n, k))] + Padded(n, k)
  {
    if k > 0 {
      PaddedCons(n / 10, k - 1);
    }
  }

  lemma {:induction false} UnpaddedIsPadded(n: nat, len: nat, k: nat)
    requires k <= len && (Shifted(n, k) == 0 || k == len)
    requires forall j :: 0 <= j < k ==> Shifted(n, j) > 0
    ensures Unpadded(n, len) == Padded(n, k)
    decreases k
  {
    if k > 0 {
      assert Shifted(n, 0) > 0;
      forall j | 0 <= j < k - 1 ensures Shifted(n / 10, j) > 0 { assert Shifted(n, j + 1) > 0; }
      UnpaddedIsPadded(n / 10, len - 1, k - 1);
    }
  }

  // ---------- Writing into the buffer ----------

  function Min(a: nat, b: nat): nat {
    if a < b then a else b
  }

  /** Str::addToBuff: copies up to the terminator or the limit; the terminator is written but not counted. */
  method AddToBuff(str: string, buf: array<char>, pos: nat, limit: nat) returns (end: nat)
    requires pos <= limit <= buf.Length && '\0' !in str
    modifies buf
    ensures end == Min(limit, pos + |str|)
    ensures buf[..pos] == old(buf[..pos]) && buf[pos..end] == str[..end - pos]
    ensures end < limit ==> buf[end] == '\0'
    ensures forall k :: end < k < buf.Length || (k == end == limit < buf.Length) ==> buf[k] == old(buf[k])
  {
    end := pos;
    while end < limit
      invariant pos <= end <= limit && end - pos <= |str|
      invariant forall k :: 0 <= k < pos ==> buf[k] == old(buf[k])
      invariant forall k :: pos <= k < end ==> buf[k] == str[k - pos]
      invariant forall k :: end <= k < buf.Length ==> buf[k] == old(buf[k])
    {
      if end - pos == |str| {
        buf[end] := '\0';
        return;
      }
      buf[end] := str[end - pos];
      end := end + 1;
    }
  }

  /** Str::convertAndAddToBuff: the digits are built backwards in a local buffer of ten characters. */
  method ConvertAndAddToBuff(n: nat, len: int, buf: array<char>, pos: nat, limit: nat, zeroPadded: bool) returns (end: nat)
    requires pos <= limit <= buf.Length
    modifies buf
    ensures var str := Converted(n, len, zeroPadded);
            && end == Min(limit, pos + |str|)
            && buf[..pos] == old(buf[..pos]) && buf[pos..end] == str[..end - pos]
    ensures end < limit ==> buf[end] == '\0'
    ensures forall k :: end < k < buf.Length || (k == end == limit < buf.Length) ==> buf[k] == old(buf[k])
  {
    var digits := LocalDigits(n, len, zeroPadded);
    end := AddToBuff(digits, buf, pos, limit);
  }

  /** The part of convertAndAddToBuff that works on its local buffer. */
  method LocalDigits(n: nat, len: int, zeroPadded: bool) returns (digits: string)
    ensures digits == Converted(n, len, zeroPadded) && '\0' !in digits
  {
    var localBuff := new char[10](_ => '\0');
    var p, left := FirstDigits(localBuff, n, len);
    if zeroPadded {
      p := FillZeros(localBuff, n, p, left);
    }
    ConvertedIsPadded(n, len, zeroPadded, LOCAL_SIZE - p);
    PaddedIsPrintable(n, LOCAL_SIZE - p);
    digits := localBuff[p..LOCAL_SIZE];
  }

  /** The digits before any padding: one `0` for zero. */
  method FirstDigits(localBuff: array<char>, n: nat, len: int) returns (p: nat, left: int)
    requires localBuff.Length == 10
    modifies localBuff
    ensures p <= LOCAL_SIZE && left == len - (LOCAL_SIZE - p)
    ensures n == 0 ==> p == LOCAL_SIZE - 1
    ensures n > 0 && len <= 0 ==> p == LOCAL_SIZE
    ensures n > 0 && 0 < len ==> 0 <= left
    ensures Shifted(n, LOCAL_SIZE - p) == 0 || p == 0 || left <= 0
    ensures n > 0 ==> forall j :: 0 <= j < LOCAL_SIZE - p ==> Shifted(n, j) > 0
    ensures localBuff[p..LOCAL_SIZE] == Padded(n, LOCAL_SIZE - p)
  {
    if n > 0 {
      p, left := FillDigits(localBuff, n, len);
    } else {
      p, left := LOCAL_SIZE - 1, len - 1;
      localBuff[p] := '0';
      assert Digit(0) == '0' && Padded(0, 0) == "" && Padded(0, 1) == "" + [Digit(0)];
      assert localBuff[p..LOCAL_SIZE] == Padded(n, 1);
    }
  }

  /** The first loop of convertAndAddToBuff: digits, while there are any and there is room. */
  method FillDigits(localBuff: array<char>, n0: nat, len0: int) returns (p: nat, len: int)
    requires localBuff.Length == 10
    modifies localBuff
    ensures p <= LOCAL_SIZE && len == len0 - (LOCAL_SIZE - p)
    ensures len0 <= 0 ==> p == LOCAL_SIZE
    ensures 0 < len0 ==> 0 <= len
    ensures Shifted(n0, LOCAL_SIZE - p) == 0 || p == 0 || len <= 0
    ensures forall j :: 0 <= j < LOCAL_SIZE - p ==> Shifted(n0, j) > 0
    ensures localBuff[p..LOCAL_SIZE] == Padded(n0, LOCAL_SIZE - p)
  {
    var n := n0;
    p, len := LOCAL_SIZE, len0;
    while n > 0 && p > 0 && len > 0
      invariant 0 <= p <= LOCAL_SIZE && len == len0 - (LOCAL_SIZE - p)
      invariant len0 <= 0 ==> p == LOCAL_SIZE
      invariant 0 < len0 ==> 0 <= len
      invariant n == Shifted(n0, LOCAL_SIZE - p)
      invariant forall j :: 0 <= j < LOCAL_SIZE - p ==> Shifted(n0, j) > 0
      invariant localBuff[p..LOCAL_SIZE] == Padded(n0, LOCAL_SIZE - p)
      decreases n
    {
      ghost var done := localBuff[p..LOCAL_SIZE];
      PaddedCons(n0, LOCAL_SIZE - p);
      ShiftedOnce(n0, LOCAL_SIZE - p);
      p := p - 1;
      localBuff[p] := Digit(n);
      assert localBuff[p..LOCAL_SIZE] == [Digit(n)] + done;
      n, len := n / 10, len - 1;
    }
  }

  /** The second loop: zeros in front, up to the length asked for. */
  method FillZeros(localBuff: array<char>, ghost n0: nat, p0: nat, len0: int) returns (p: nat)
    requires localBuff.Length == 10 && p0 <= LOCAL_SIZE
    requires Shifted(n0, LOCAL_SIZE - p0) == 0 || p0 == 0 || len0 <= 0
    requires localBuff[p0..LOCAL_SIZE] == Padded(n0, LOCAL_SIZE - p0)
    modifies localBuff
    ensures p == if len0 <= 0 then p0 else if len0 >= p0 then 0 else p0 - len0
    ensures localBuff[p..LOCAL_SIZE] == Padded(n0, LOCAL_SIZE - p)
  {
    var len := len0;
    p := p0;
    while p > 0 && len > 0
      invariant 0 <= p <= p0 && len == len0 - (p0 - p) && (len0 > 0 ==> len >= 0) && (len0 <= 0 ==> p == p0)
      invariant Shifted(n0, LOCAL_SIZE - p) == 0 || p == 0 || len <= 0
      invariant localBuff[p..LOCAL_SIZE] == Padded(n0, LOCAL_SIZE - p)
      decreases p
    {
      ghost var done := localBuff[p..LOCAL_SIZE];
      PaddedCons(n0, LOCAL_SIZE - p);
      ShiftedOnce(n0, LOCAL_SIZE - p);
      p, len := p - 1, len - 1;
      localBuff[p] := '0';
      assert localBuff[p..LOCAL_SIZE] == ['0'] + done;
    }
  }

  /** How many digits end up in the local buffer. */
  lemma ConvertedIsPadded(n: nat, len: int, zeroPadded: bool, k: nat)
    requires n == 0 ==> k == if zeroPadded && len > 0 then Width(len) else 1
    requires n > 0 && zeroPadded ==> k == Width(len)
    requires n > 0 && !zeroPadded ==>
             k <= Width(len) && (Shifted(n, k) == 0 || k == Width(len)) && forall j :: 0 <= j < k ==> Shifted(n, j) > 0
    ensures Converted(n, len, zeroPadded) == Padded(n, k)
  {
    if n == 0 {
      assert Padded(0, 0) == "" && Padded(0, 1) == "" + [Digit(0)] == "0";
    } else if !zeroPadded {
      UnpaddedIsPadded(n, Width(len), k);
    }
  }

  lemma {:induction false} PaddedIsPrintable(n: nat, k: nat)
    ensures '\0' !in Padded(n, k)
  {
    if k > 0 {
      PaddedIsPrintable(n / 10, k - 1);
    }
  }

  // ---------- parseFormat ----------

  datatype TimeInfo = TimeInfo(year: int, mon: nat, mday: nat, wday: nat, hour: nat, min: nat, sec: nat)

  const YEAR_BASE := 1900

  /** The fields index the name tables, and the year is not before year zero. */
  predicate IsTime(t: TimeInfo) {
    t.mon < 12 && t.wday < 7 && t.year + YEAR_BASE >= 0
  }

  // The name tables of external/easylogging++/easylogging++.h, as they are spelled there.

  function Day(i: nat): (text: string)
    ensures '\0' !in text
  {
    match i
    case 0 => "Sunday"
    case 1 => "Monday"
    case 2 => "Tuesday"
    case 3 => "Wednesday"
    case 4 => "Thursday"
    case 5 => "Friday"
    case _ => "Saturday"
  }

  function DayAbbrev(i: nat): (text: string)
    ensures '\0' !in text
  {
    match i
    case 0 => "Sun"
    case 1 => "Mon"
    case 2 => "Tue"
    case 3 => "Wed"
    case 4 => "Thu"
    case 5 => "Fri"
    case _ => "Sat"
  }

  function Month(i: nat): (text: string)
    ensures '\0' !in text
  {
    match i
    case 0 => "January"
    case 1 => "February"
    case 2 => "March"
    case 3 => "Apri"
    case 4 => "May"
    case 5 => "June"
    case 6 => "July"
    case 7 => "August"
    case 8 => "September"
    case 9 => "October"
    case 10 => "November"
    case _ => "December"
  }

  function MonthAbbrev(i: nat): (text: string)
    ensures '\0' !in text
  {
    match i
    case 0 => "Jan"
    case 1 => "Feb"
    case 2 => "Mar"
    case 3 => "Apr"
    case 4 => "May"
    case 5 => "Jun"
    case 6 => "Jul"
    case 7 => "Aug"
    case 8 => "Sep"
    case 9 => "Oct"
    case 10 => "Nov"
    case _ => "Dec"
  }

  /** What a conversion specifier stands for. */
  datatype Field = Number(n: nat, len: int) | Name(text: string) | Percent | Nothing

  function FieldOf(c: char, t: TimeInfo, msec: nat, width: int): Field
    requires IsTime(t)
  {
    match c
    case '%' => Percent
    case 'd' => Number(t.mday, 2)
    case 'a' => Name(DayAbbrev(t.wday))
    case 'A' => Name(Day(t.wday))
    case 'M' => Number(t.mon + 1, 2)
    case 'b' => Name(MonthAbbrev(t.mon))
    case 'B' => Name(Month(t.mon))
    case 'y' => Number(t.year + YEAR_BASE, 2)
    case 'Y' => Number(t.year + YEAR_BASE, 4)
    case 'h' => Number(t.hour % 12, 2)
    case 'H' => Number(t.hour, 2)
    case 'm' => Number(t.min, 2)
    case 's' => Number(t.sec, 2)
    case 'z' => Number(msec, width)
    case 'g' => Number(msec, width)
    case 'F' => Name(if t.hour >= 12 then "PM" else "AM")
    case _ => Nothing
  }

  function FieldText(f: Field): string {
    match f
    case Number(n, len) => Converted(n, len, true)
    case Name(text) => text
    case Percent => "%"
    case Nothing => ""
  }

  /** The whole text of a format, without any limit. */
  function Render(format: string, t: TimeInfo, msec: nat, width: int): string
    requires IsTime(t)
  {
    if format == "" then ""
    else if format[0] != '%' then [format[0]] + Render(format[1..], t, msec, width)
    else if |format| == 1 then "%"
    else FieldText(FieldOf(format[1], t, msec, width)) + Render(format[2..], t, msec, width)
  }

  /** `buf` holds the first `pos` characters of `text`, as many as the limit allows, and past them at most
      a terminator was written. */
  ghost predicate Holds(contents: seq<char>, before: seq<char>, text: string, pos: nat, limit: nat) {
    && |contents| == |before| && pos == Min(limit, |text|) && pos <= limit <= |contents|
    && contents[..pos] == text[..pos]
    && (pos < |contents| ==> contents[pos] == before[pos] || (pos < limit && contents[pos] == '\0'))
    && forall k :: pos < k < |contents| ==> contents[k] == before[k]
  }

  lemma HoldsMore(contents: seq<char>, next: seq<char>, before: seq<char>, text: string, more: string,
                  pos: nat, end: nat, limit: nat)
    requires Holds(contents, before, text, pos, limit) && |next| == |contents|
    requires end == Min(limit, pos + |more|)
    requires next[..pos] == contents[..pos] && next[pos..end] == more[..end - pos]
    requires end < limit ==> next[end] == '\0' || next[end] == contents[end]
    requires forall k :: end < k < |next| || (k == end == limit < |next|) ==> next[k] == contents[k]
    ensures Holds(next, before, text + more, end, limit)
  {}

  /** What one turn of the loop of parseFormat renders, and where the format goes on. */
  lemma RenderTurn(format: string, i: nat, t: TimeInfo, msec: nat, width: int)
    requires IsTime(t) && i < |format|
    ensures Render(format[i..], t, msec, width) ==
            if format[i] != '%' || i + 1 == |format| then [format[i]] + Render(format[i + 1..], t, msec, width)
            else FieldText(FieldOf(format[i + 1], t, msec, width)) + Render(format[i + 2..], t, msec, width)
  {}

  /** What is left of the text once `more` of it is rendered. */
  lemma Onward(text: string, more: string, rest: string, left: string, all: string)
    requires text + left == all && left == more + rest
    ensures text + more + rest == all
  {}

  /** DateTime::parseFormat */
  method ParseFormat(buf: array<char>, bufSz: nat, format: string, t: TimeInfo, msec: nat, width: int) returns (pos: nat)
    requires bufSz <= buf.Length && IsTime(t)
    modifies buf
    ensures Holds(buf[..], old(buf[..]), Render(format, t, msec, width), pos, bufSz)
  {
    pos := 0;
    var i := 0;
    ghost var before, text, all := buf[..], "", Render(format, t, msec, width);
    assert format[0..] == format;
    while i < |format|
      invariant 0 <= i <= |format|
      invariant Holds(buf[..], before, text, pos, bufSz)
      invariant text + Render(format[i..], t, msec, width) == all
      decreases |format| - i
    {
      ghost var left := Render(format[i..], t, msec, width);
      var full: bool;
      ghost var more: string;
      i, pos, full, more := FormatTurn(buf, bufSz, format, i, t, msec, width, pos, before, text);
      if full { return; }
      Onward(text, more, Render(format[i..], t, msec, width), left, all);
      text := text + more;
    }
    assert format[i..] == "" && text + "" == text;
  }

  /** One turn of the loop of parseFormat; `full` where the loop is left because the buffer is. */
  method FormatTurn(buf: array<char>, bufSz: nat, format: string, i0: nat, t: TimeInfo, msec: nat, width: int, pos0: nat,
                    ghost before: seq<char>, ghost text: string) returns (i: nat, pos: nat, full: bool, ghost more: string)
    requires bufSz <= buf.Length && IsTime(t) && i0 < |format| && Holds(buf[..], before, text, pos0, bufSz)
    modifies buf
    ensures i0 < i <= |format| && Render(format[i0..], t, msec, width) == more + Render(format[i..], t, msec, width)
    ensures !full ==> Holds(buf[..], before, text + more, pos, bufSz)
    ensures full ==> Holds(buf[..], before, text + Render(format[i0..], t, msec, width), pos, bufSz)
  {
    i, pos := i0, pos0;
    RenderTurn(format, i0, t, msec, width);
    if format[i] == '%' {
      i := i + 1;
      if i == |format| {
        i := i - 1;
      } else if format[i] != '%' {
        more := FieldText(FieldOf(format[i], t, msec, width));
        pos := AddField(format[i], t, msec, width, buf, pos, bufSz, before, text);
        return i + 1, pos, false, more;
      }
    }
    more, full := [format[i]], pos == bufSz;
    if full {
      HoldsMore(buf[..], buf[..], before, text, Render(format[i0..], t, msec, width), pos, pos, bufSz);
    } else {
      pos := AddChar(format[i], buf, pos, bufSz, before, text);
    }
    i := i + 1;
  }

  lemma NamesAreText(c: char, t: TimeInfo, msec: nat, width: int)
    requires IsTime(t)
    ensures var f := FieldOf(c, t, msec, width); (f.Name? ==> '\0' !in f.text) && (f.Percent? <==> c == '%')
  {}

  /** One case of the switch of parseFormat. */
  method AddField(c: char, t: TimeInfo, msec: nat, width: int, buf: array<char>, pos: nat, limit: nat,
                  ghost before: seq<char>, ghost text: string) returns (end: nat)
    requires IsTime(t) && c != '%' && Holds(buf[..], before, text, pos, limit)
    modifies buf
    ensures Holds(buf[..], before, text + FieldText(FieldOf(c, t, msec, width)), end, limit)
  {
    ghost var contents := buf[..];
    var f := FieldOf(c, t, msec, width);
    NamesAreText(c, t, msec, width);
    match f {
      case Number(n, len) => end := ConvertAndAddToBuff(n, len, buf, pos, limit, true);
      case Name(name) => end := AddToBuff(name, buf, pos, limit);
      case _ => end := pos;
    }
    HoldsMore(contents, buf[..], before, text, FieldText(f), pos, end, limit);
  }

  /** A character of the format that stands for itself. */
  method AddChar(c: char, buf: array<char>, pos: nat, limit: nat, ghost before: seq<char>, ghost text: string)
    returns (end: nat)
    requires Holds(buf[..], before, text, pos, limit) && pos < limit
    modifies buf
    ensures Holds(buf[..], before, text + [c], end, limit)
  {
    ghost var contents := buf[..];
    buf[pos] := c;
    end := pos + 1;
    HoldsMore(contents, buf[..], before, text, [c], pos, end, limit);
  }
}
