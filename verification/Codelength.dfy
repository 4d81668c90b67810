/**
 The length code of external/miniupnpc/codelength.h: big-endian groups of seven bits, every byte
 but the last carrying the continuation bit 0x80.

 `(n << 7) | (c & 0x7f)` is written as arithmetic modulo 2^32 and the store of `(n >> k) | 0x80`
 into an `unsigned char` as arithmetic modulo 256, so that an overflow in either would show.
 */
module Codelength {

  type byte = x: int | 0 <= x < 0x100
  type uint32 = x: int | 0 <= x < 0x1_0000_0000

  // The decoders go round again only while the accumulator is below 1 << 25.
  const ACCUMULATOR_LIMIT := 0x200_0000

  // ---------- Reference meaning ----------

  /** The number spelled by the low seven bits of each byte, most significant first. */
  ghost function Value(s: seq<byte>): nat {
    if s == [] then 0 else 128 * Value(s[..|s| - 1]) + s[|s| - 1] % 128
  }

  /** Reading all of `s` leaves a decoder still asking for more. */
  ghost predicate RunsOn(s: seq<byte>) {
    s == [] || (RunsOn(s[..|s| - 1]) && s[|s| - 1] >= 0x80 && Value(s) < ACCUMULATOR_LIMIT)
  }

  /** `s` is exactly what a decoder consumes: it runs on until the last byte and stops there. */
  ghost predicate Word(s: seq<byte>) {
    s != [] && RunsOn(s[..|s| - 1]) && (s[|s| - 1] < 0x80 || Value(s) >= ACCUMULATOR_LIMIT)
  }

  /** The continuation bytes that spell `m`, without leading zero groups. */
  function Continuation(m: nat): seq<byte> {
    if m == 0 then [] else Continuation(m / 128) + [0x80 + m % 128]
  }

  /** The code word of `n`. */
  function Code(n: nat): seq<byte> {
    Continuation(n / 128) + [n % 128]
  }

  function Power128(k: nat): nat {
    if k == 0 then 1 else 128 * Power128(k - 1)
  }

  // ---------- The macros ----------

  /** `(n << 7) | (c & 0x7f)` on a 32-bit unsigned accumulator. */
  function ShiftIn(n: uint32, c: byte): uint32 {
    (n * 128) % 0x1_0000_0000 + c % 128
  }

  /** `x | 0x80` stored into an unsigned char. */
  function WithContinuationBit(x: nat): byte {
    (if x / 128 % 2 == 1 then x else x + 0x80) % 0x100
  }

  /** CODELENGTH: writes at `buf[p]` and returns the advanced cursor. */
  method Encode(n: uint32, buf: array<byte>, p: nat) returns (q: nat)
    requires p + |Code(n)| <= buf.Length
    modifies buf
    ensures q == p + |Code(n)|
    ensures buf[p..q] == Code(n)
    ensures buf[..p] == old(buf[..p]) && buf[q..] == old(buf[q..])
  {
    CodeUnrolled(n);
    q := p;
    if n >= 268435456 { buf[q] := WithContinuationBit(n / 0x1000_0000); q := q + 1; }
    if n >= 2097152 { buf[q] := WithContinuationBit(n / 0x20_0000); q := q + 1; }
    if n >= 16384 { buf[q] := WithContinuationBit(n / 0x4000); q := q + 1; }
    if n >= 128 { buf[q] := WithContinuationBit(n / 0x80); q := q + 1; }
    buf[q] := n % 128;
    q := q + 1;
  }

  /** DECODELENGTH: nothing but the bytes themselves ends it, so its caller must know that they do. */
  method Decode(mem: seq<byte>, p: nat, ghost stop: nat) returns (n: uint32, q: nat)
    requires p < stop <= |mem| && Word(mem[p..stop])
    ensures q == stop
    ensures n == Value(mem[p..q])
  {
    n, q := 0, p;
    var more := true;
    while more
      invariant p <= q <= stop && n == Value(mem[p..q])
      invariant if more then RunsOn(mem[p..q]) && n < ACCUMULATOR_LIMIT else p < q && Word(mem[p..q])
      decreases more, stop - q
    {
      StopsNoEarlier(mem, p, q, stop);
      ReadOne(mem, p, q);
      n := ShiftIn(n, mem[q]);
      more := mem[q] >= 0x80 && n < ACCUMULATOR_LIMIT;
      q := q + 1;
    }
    WordUnique(mem, p, q, stop);
  }

  /** DECODELENGTH_READ: the byte comes from a reader, and a clear continuation bit breaks out first. */
  method DecodeRead(input: seq<byte>, p: nat, ghost stop: nat) returns (n: uint32, q: nat)
    requires p < stop <= |input| && Word(input[p..stop])
    ensures q == stop
    ensures n == Value(input[p..q])
  {
    n, q := 0, p;
    while true
      invariant p <= q < stop && n == Value(input[p..q])
      invariant RunsOn(input[p..q]) && n < ACCUMULATOR_LIMIT
      decreases stop - q
    {
      ReadOne(input, p, q);
      var c := input[q];
      q := q + 1;
      n := ShiftIn(n, c);
      if c < 0x80 { break; }
      if n >= ACCUMULATOR_LIMIT { break; }
      StopsNoEarlier(input, p, q, stop);
    }
    WordUnique(input, p, q, stop);
  }

  /** DECODELENGTH_CHECKLIMIT: total on every input, and in step with the others up to the limit. */
  method DecodeCheckLimit(mem: seq<byte>, p: nat, limit: nat) returns (n: uint32, q: nat)
    requires limit <= |mem|
    ensures limit <= p ==> n == 0 && q == p
    ensures p < limit ==> p < q <= limit && n == Value(mem[p..q])
    ensures p < limit ==> Word(mem[p..q]) || (q == limit && RunsOn(mem[p..q]))
    ensures forall stop :: p < stop <= limit && Word(mem[p..stop]) ==> q == stop
  {
    n, q := 0, p;
    var more := true;
    while more
      invariant q == p || p < q <= limit
      invariant p <= |mem| ==> n == Value(mem[p..q])
      invariant p > |mem| ==> q == p && n == 0
      invariant more && p <= |mem| ==> RunsOn(mem[p..q]) && n < ACCUMULATOR_LIMIT
      invariant !more ==> p < q && Word(mem[p..q])
      decreases more, limit - q
    {
      if q >= limit { break; }
      ReadOne(mem, p, q);
      n := ShiftIn(n, mem[q]);
      more := mem[q] >= 0x80 && n < ACCUMULATOR_LIMIT;
      q := q + 1;
    }
    forall stop | p < stop <= limit && Word(mem[p..stop]) ensures q == stop {
      if more {
        StopsNoEarlier(mem, p, q, stop);
      } else {
        WordUnique(mem, p, q, stop);
      }
    }
  }

  // ---------- Reading one byte more ----------

  lemma Snoc(s: seq<byte>, b: byte)
    ensures Value(s + [b]) == 128 * Value(s) + b % 128
    ensures RunsOn(s + [b]) <==> RunsOn(s) && b >= 0x80 && Value(s + [b]) < ACCUMULATOR_LIMIT
    ensures Word(s + [b]) <==> RunsOn(s) && (b < 0x80 || Value(s + [b]) >= ACCUMULATOR_LIMIT)
  {}

  lemma ReadOne(mem: seq<byte>, p: nat, q: nat)
    requires p <= q < |mem|
    ensures Value(mem[p..q + 1]) == 128 * Value(mem[p..q]) + mem[q] % 128
    ensures RunsOn(mem[p..q + 1]) <==>
            RunsOn(mem[p..q]) && mem[q] >= 0x80 && Value(mem[p..q + 1]) < ACCUMULATOR_LIMIT
    ensures Word(mem[p..q + 1]) <==>
            RunsOn(mem[p..q]) && (mem[q] < 0x80 || Value(mem[p..q + 1]) >= ACCUMULATOR_LIMIT)
  {
    Snoc(mem[p..q], mem[q]);
    assert mem[p..q] + [mem[q]] == mem[p..q + 1];
  }

  lemma {:induction false} RunsOnPrefix(mem: seq<byte>, p: nat, q: nat, r: nat)
    requires p <= q <= r <= |mem| && RunsOn(mem[p..r])
    ensures RunsOn(mem[p..q])
    decreases r
  {
    if q < r {
      ReadOne(mem, p, r - 1);
      RunsOnPrefix(mem, p, q, r - 1);
    }
  }

  lemma StopsNoEarlier(mem: seq<byte>, p: nat, q: nat, stop: nat)
    requires p <= q <= |mem| && RunsOn(mem[p..q]) && p < stop <= |mem| && Word(mem[p..stop])
    ensures q < stop
  {
    if stop <= q {
      ReadOne(mem, p, stop - 1);
      RunsOnPrefix(mem, p, stop, q);
    }
  }

  /** Where a decoder stops is decided by the bytes, so the three decoders cannot disagree. */
  lemma WordUnique(mem: seq<byte>, p: nat, q: nat, r: nat)
    requires p < q <= |mem| && p < r <= |mem| && Word(mem[p..q]) && Word(mem[p..r])
    ensures q == r
  {
    ReadOne(mem, p, q - 1);
    ReadOne(mem, p, r - 1);
    StopsNoEarlier(mem, p, q - 1, r);
    StopsNoEarlier(mem, p, r - 1, q);
  }

  // ---------- The code words ----------

  lemma ContinuationStep(m: nat, d: nat)
    requires d == m / 128
    ensures Continuation(m) == Continuation(d) + if m == 0 then [] else [0x80 + m % 128]
    ensures WithContinuationBit(m) == 0x80 + m % 128
  {
    BitIsSet(m, d);
  }

  lemma BitIsSet(m: nat, d: nat)
    requires d == m / 128
    ensures WithContinuationBit(m) == 0x80 + m % 128
  {}

  lemma CodeSplit(n: nat, high: nat, low: nat)
    requires n == 128 * high + low && low < 128
    ensures Code(n) == Continuation(high) + [low]
  {}

  lemma CodeUnrolled(n: uint32)
    ensures Code(n) ==
      (if n >= 268435456 then [WithContinuationBit(n / 0x1000_0000)] else []) +
      (if n >= 2097152 then [WithContinuationBit(n / 0x20_0000)] else []) +
      (if n >= 16384 then [WithContinuationBit(n / 0x4000)] else []) +
      (if n >= 128 then [WithContinuationBit(n / 0x80)] else []) + [n % 128]
  {
    ContinuationStep(n / 0x80, n / 0x4000);
    ContinuationStep(n / 0x4000, n / 0x20_0000);
    ContinuationStep(n / 0x20_0000, n / 0x1000_0000);
    ContinuationStep(n / 0x1000_0000, 0);
  }

  lemma {:induction false} ContinuationValue(m: nat)
    ensures Value(Continuation(m)) == m
    ensures m < ACCUMULATOR_LIMIT ==> RunsOn(Continuation(m))
  {
    if m != 0 {
      ContinuationValue(m / 128);
      OneGroupMore(Continuation(m / 128), m / 128, m % 128, m);
    }
  }

  lemma OneGroupMore(s: seq<byte>, d: nat, low: nat, m: nat)
    requires m == 128 * d + low && low < 128 && Value(s) == d && (d < ACCUMULATOR_LIMIT ==> RunsOn(s))
    ensures Value(s + [0x80 + low]) == m && (m < ACCUMULATOR_LIMIT ==> RunsOn(s + [0x80 + low]))
  {}

  /** The code word of `n` is a word, and its value is `n`. */
  lemma CodeDecodes(n: uint32)
    ensures Word(Code(n)) && Value(Code(n)) == n
  {
    ContinuationValue(n / 128);
    Snoc(Continuation(n / 128), n % 128);
  }

  /** No code word is a prefix of another. */
  lemma PrefixFree(m: uint32, n: uint32, rest: seq<byte>)
    requires Code(m) + rest == Code(n)
    ensures m == n && rest == []
  {
    CodeDecodes(m);
    CodeDecodes(n);
    var s := Code(n);
    assert s[0..|Code(m)|] == Code(m) && s[0..|s|] == s;
    WordUnique(s, 0, |Code(m)|, |s|);
  }

  function EncodeAll(ns: seq<uint32>): seq<byte> {
    if ns == [] then [] else Code(ns[0]) + EncodeAll(ns[1..])
  }

  /** Decoding `s` from `p`, word after word until it is used up, produces `ns`. */
  ghost predicate DecodesTo(s: seq<byte>, p: nat, ns: seq<uint32>)
    decreases |ns|
  {
    if ns == [] then p == |s|
    else exists q {:trigger s[p..q]} :: p < q <= |s| && Word(s[p..q]) && Value(s[p..q]) == ns[0] && DecodesTo(s, q, ns[1..])
  }

  lemma {:induction false} EncodeAllDecodes(s: seq<byte>, p: nat, ns: seq<uint32>)
    requires p <= |s| && s[p..] == EncodeAll(ns)
    ensures DecodesTo(s, p, ns)
    decreases |ns|
  {
    if ns != [] {
      var q := p + |Code(ns[0])|;
      CodeDecodes(ns[0]);
      assert s[p..q] == s[p..][..q - p] && s[q..] == s[p..][q - p..];
      EncodeAllDecodes(s, q, ns[1..]);
    }
  }

  lemma {:induction false} DecodingIsDeterministic(s: seq<byte>, p: nat, ms: seq<uint32>, ns: seq<uint32>)
    requires DecodesTo(s, p, ms) && DecodesTo(s, p, ns)
    ensures ms == ns
    decreases |ms|
  {
    if ms != [] && ns != [] {
      var q :| p < q <= |s| && Word(s[p..q]) && Value(s[p..q]) == ms[0] && DecodesTo(s, q, ms[1..]);
      var r :| p < r <= |s| && Word(s[p..r]) && Value(s[p..r]) == ns[0] && DecodesTo(s, r, ns[1..]);
      WordUnique(s, p, q, r);
      DecodingIsDeterministic(s, q, ms[1..], ns[1..]);
      assert ms == [ms[0]] + ms[1..] && ns == [ns[0]] + ns[1..];
    }
  }

  /** The round trip: the concatenated code words decode to the encoded sequence and to no other. */
  lemma RoundTrip(ns: seq<uint32>, ms: seq<uint32>)
    ensures DecodesTo(EncodeAll(ns), 0, ms) <==> ms == ns
  {
    EncodeAllDecodes(EncodeAll(ns), 0, ns);
    if DecodesTo(EncodeAll(ns), 0, ms) {
      DecodingIsDeterministic(EncodeAll(ns), 0, ms, ns);
    }
  }

  // ---------- Length and canonical form ----------

  lemma {:induction false} ContinuationLength(m: nat)
    ensures m < Power128(|Continuation(m)|)
    ensures m != 0 ==> m >= Power128(|Continuation(m)| - 1)
  {
    if m != 0 {
      ContinuationLength(m / 128);
    }
  }

  lemma {:induction false} Power128Monotone(j: nat, k: nat)
    requires j <= k
    ensures Power128(j) <= Power128(k)
    decreases k
  {
    if j < k {
      Power128Monotone(j, k - 1);
    }
  }

  /** The code word has the least number k >= 1 of bytes with n < 2^(7k). */
  lemma LengthIsLeast(n: uint32, k: nat)
    requires k >= 1
    ensures n < Power128(k) <==> |Code(n)| <= k
  {
    ContinuationLength(n / 128);
    var len := |Code(n)|;
    if len <= k {
      Power128Monotone(len, k);
    } else {
      Power128Monotone(k, len - 1);
    }
  }

  function StripZeroGroups(s: seq<byte>): seq<byte> {
    if s != [] && s[0] == 0x80 then StripZeroGroups(s[1..]) else s
  }

  lemma {:induction false} StripSnoc(s: seq<byte>, b: byte)
    ensures StripZeroGroups(s + [b]) ==
      if StripZeroGroups(s) == [] && b == 0x80 then [] else StripZeroGroups(s) + [b]
    ensures |StripZeroGroups(s)| <= |s| && (|StripZeroGroups(s)| == |s| ==> StripZeroGroups(s) == s)
  {
    if s != [] && s[0] == 0x80 {
      StripSnoc(s[1..], b);
      assert (s + [b])[1..] == s[1..] + [b];
    }
  }

  lemma {:induction false} StrippedContinuation(s: seq<byte>)
    requires RunsOn(s)
    ensures Continuation(Value(s)) == StripZeroGroups(s)
  {
    if s != [] {
      var t, b := s[..|s| - 1], s[|s| - 1];
      assert s == t + [b];
      StrippedContinuation(t);
      StripSnoc(t, b);
      StripStep(StripZeroGroups(t), Value(t), b, Value(s));
    }
  }

  lemma StripStep(stripped: seq<byte>, d: nat, b: byte, n: nat)
    requires stripped == Continuation(d) && b >= 0x80 && n == 128 * d + b % 128
    ensures Continuation(n) == if stripped == [] && b == 0x80 then [] else stripped + [b]
  {
    assert d == n / 128 && b == 0x80 + n % 128;
    ContinuationStep(n, d);
  }

  /** Re-encoding what was decoded from a properly ended word drops its leading 0x80 bytes only. */
  lemma ReencodingStrips(t: seq<byte>, b: byte, s: seq<byte>)
    requires s == t + [b] && Word(s) && b < 0x80
    ensures Code(Value(s)) == StripZeroGroups(s)
  {
    calc {
      Code(Value(s));
      { Snoc(t, b); CodeSplit(Value(s), Value(t), b); }
      Continuation(Value(t)) + [b];
      { Snoc(t, b); StrippedContinuation(t); }
      StripZeroGroups(t) + [b];
      { StripSnoc(t, b); }
      StripZeroGroups(s);
    }
  }

  /** Every properly ended word for a value is at least as long as its code word, and only the code
      word itself is as short. */
  lemma ShortestForm(s: seq<byte>, n: uint32)
    requires Word(s) && s[|s| - 1] < 0x80 && Value(s) == n
    ensures |s| >= |Code(n)|
    ensures |s| == |Code(n)| <==> s == Code(n)
  {
    var t, b := s[..|s| - 1], s[|s| - 1];
    assert s == t + [b];
    ReencodingStrips(t, b, s);
    StripSnoc(s, 0);
  }

  /** On bytes that are all 0x80 no decoder stops by itself; only the limit ends the reading. */
  lemma {:induction false} ZeroGroupsRunOn(s: seq<byte>)
    requires forall i :: 0 <= i < |s| ==> s[i] == 0x80
    ensures Value(s) == 0 && RunsOn(s)
  {
    if s != [] {
      var t := s[..|s| - 1];
      ZeroGroupsRunOn(t);
      assert s == t + [0x80];
      Snoc(t, 0x80);
    }
  }
}
