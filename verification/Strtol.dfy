/** The number parsers of the standard library (tasks/libc/stdlib/strtol.c and strtoul.c). A C pointer
    into the string is the rest of the string; signed overflow is taken to wrap around. */
module Strtol {
  import opened Numerals

  /** `t` without leading white space. */
  function SkipSpaces(t: string): (u: string)
    ensures |u| <= |t| && (u == "" || !IsSpace(u[0]))
  {
    if t == "" || !IsSpace(t[0]) then t else SkipSpaces(t[1..])
  }

  predicate HexPrefix(t: string, base: int) {
    (base == 16 || base == 0) && CharAt(t, 0) == '0' && (CharAt(t, 1) == 'x' || CharAt(t, 1) == 'X')
  }

  /** Where the digits start, and in what base they are. */
  function Radix(t: string, base: int): (string, int) {
    if HexPrefix(t, base) then (t[2..], 16)
    else (t, if base != 0 then base else if CharAt(t, 0) == '0' then 8 else 10)
  }

  /** The number the leading digits stand for, and what follows them. */
  function Digits(t: string, base: int): (int, string) {
    var n := Span(t, base);
    (Value(t[..n], base), t[n..])
  }

  /** Value and end pointer. A plus sign is not stepped over. */
  function StrtolSpec(s: string, base: int): (int, string) {
    var t := SkipSpaces(s);
    var neg := CharAt(t, 0) == '-';
    var (u, b) := Radix(if neg then t[1..] else t, base);
    var (v, rest) := Digits(u, b);
    (Wrap32(if neg then -v else v), rest)
  }

  /** The unsigned counterpart knows no sign at all. */
  function StrtoulSpec(s: string, base: int): (int, string) {
    var (u, b) := Radix(SkipSpaces(s), base);
    var (v, rest) := Digits(u, b);
    (v % TWO_32, rest)
  }

  method Skip(s: string) returns (p: string)
    ensures p == SkipSpaces(s)
  {
    p := s;
    while IsSpace(CharAt(p, 0))
      invariant SkipSpaces(p) == SkipSpaces(s)
      decreases |p|
    {
      p := p[1..];
    }
  }

  method DetectRadix(s: string, base: int) returns (p: string, b: int)
    ensures (p, b) == Radix(s, base)
  {
    p, b := s, base;
    if (b == 16 || b == 0) && CharAt(p, 0) == '0' && (CharAt(p, 1) == 'x' || CharAt(p, 1) == 'X') {
      p := p[2..];
      b := 16;
    }
    if b == 0 {
      b := if CharAt(p, 0) == '0' then 8 else 10;
    }
  }

  /** The first `n` characters of `t` are digits that stand for `val`; the rest is `p`. */
  ghost predicate ReadTo(t: string, n: nat, p: string, base: int, val: int) {
    n <= |t| && p == t[n..] && Span(t, base) == n + Span(p, base) && val == Value(t[..n], base)
  }

  lemma ReadOne(t: string, n: nat, p: string, base: int, val: int, d: int)
    requires ReadTo(t, n, p, base, val) && d == DigitOf(CharAt(p, 0), base) && d >= 0
    ensures ReadTo(t, n + 1, p[1..], base, val * base + d)
  {
    ValueOfSnoc(t[..n], p[0], base);
    assert t[..n] + [p[0]] == t[..n + 1];
  }

  /** The digits of `t`, read into a 32-bit `long` that holds `v` already. */
  function ReadInto(v: int, t: string, base: int): (int, string)
    decreases |t|
  {
    if t == "" || DigitOf(t[0], base) < 0 then (v, t)
    else ReadInto(Wrap32(v * base + DigitOf(t[0], base)), t[1..], base)
  }

  /** Reducing at every digit or at the end is the same. */
  lemma {:induction false} ReadIntoIs(t: string, n: nat, p: string, base: int, val: int)
    requires ReadTo(t, n, p, base, val)
    ensures ReadInto(Wrap32(val), p, base) == (Wrap32(Digits(t, base).0), Digits(t, base).1)
    decreases |p|
  {
    if p != "" && DigitOf(p[0], base) >= 0 {
      var d := DigitOf(p[0], base);
      ReadOne(t, n, p, base, val, d);
      WrapStep32(val, base, d);
      ReadIntoIs(t, n + 1, p[1..], base, val * base + d);
    }
  }

  lemma ReadIntoZero(t: string, base: int)
    ensures ReadInto(0, t, base) == (Wrap32(Digits(t, base).0), Digits(t, base).1)
  {
    assert t[0..] == t && t[..0] == "";
    assert ReadTo(t, 0, t, base, 0) && Wrap32(0) == 0;
    ReadIntoIs(t, 0, t, base, 0);
  }

  /** The digit loop on a 32-bit `long`. */
  method ReadLong(t: string, base: int) returns (v: int, p: string)
    ensures v == Wrap32(Digits(t, base).0) && p == Digits(t, base).1
  {
    ReadIntoZero(t, base);
    v, p := 0, t;
    while DigitOf(CharAt(p, 0), base) >= 0
      invariant ReadInto(v, p, base) == ReadInto(0, t, base)
      decreases |p|
    {
      v := Wrap32(v * base + DigitOf(CharAt(p, 0), base));
      p := p[1..];
    }
  }

  /** The digit loop on a 32-bit `unsigned long`. */
  method ReadUnsignedLong(t: string, base: int) returns (v: int, p: string)
    ensures v == Digits(t, base).0 % TWO_32 && p == Digits(t, base).1
  {
    ghost var n, val := 0, 0;
    v, p := 0, t;
    while DigitOf(CharAt(p, 0), base) >= 0
      invariant ReadTo(t, n, p, base, val) && v == val % TWO_32
      decreases |p|
    {
      var d := DigitOf(CharAt(p, 0), base);
      ReadOne(t, n, p, base, val, d);
      ModStep32(val, base, d);
      n, val := n + 1, val * base + d;
      v := (v * base + d) % TWO_32;
      p := p[1..];
    }
  }

  method Strtol(s: string, base: int) returns (v: int, outP: string)
    ensures (v, outP) == StrtolSpec(s, base)
  {
    var p := Skip(s);
    var isNeg := false;
    if CharAt(p, 0) == '-' {
      isNeg, p := true, p[1..];
    }
    var b;
    p, b := DetectRadix(p, base);
    v, outP := ReadLong(p, b);
    if isNeg {
      WrapNegate32(Digits(p, b).0);
      v := Wrap32(-v);
    }
  }

  method Strtoul(s: string, base: int) returns (v: int, outP: string)
    ensures (v, outP) == StrtoulSpec(s, base)
  {
    var p := Skip(s);
    var b;
    p, b := DetectRadix(p, base);
    v, outP := ReadUnsignedLong(p, b);
  }
}
