/** Characters, machine integers and digit strings shared by the printers and the parsers of
    tasks/libc. A C string is a Dafny string that ends at its first NUL, or at its end. */
module Numerals {
  const NUL := '\0'
  const TWO_31 := 0x8000_0000
  const TWO_32 := 0x1_0000_0000
  const TWO_63 := 0x8000_0000_0000_0000
  const TWO_64 := 0x1_0000_0000_0000_0000

  /** `s[i]` of a C string: NUL at the end. */
  function CharAt(s: string, i: nat): char {
    if i < |s| then s[i] else NUL
  }

  predicate IsSpace(c: char) {
    c == ' ' || c == 12 as char || c == '\n' || c == '\r' || c == '\t' || c == 11 as char
  }

  predicate IsDigit(c: char) {
    '0' <= c <= '9'
  }

  // ---------------------------------------------------------------------------
  // Machine integers
  // ---------------------------------------------------------------------------

  /** Reduction to a 32-bit `int` or `long`, two's complement. */
  function Wrap32(x: int): int {
    (x + TWO_31) % TWO_32 - TWO_31
  }

  function Wrap64(x: int): int {
    (x + TWO_63) % TWO_64 - TWO_63
  }

  lemma ModShift(x: int, k: int, m: int)
    requires m > 0
    ensures (x + k * m) % m == x % m
  {
    var q, r := x / m, x % m;
    assert x == m * q + r;
    assert x + k * m == m * (q + k) + r by { assert m * (q + k) == m * q + k * m; }
    ModIs(x + k * m, m, q + k, r);
  }

  lemma ModIs(x: int, m: int, q: int, r: int)
    requires m > 0 && x == m * q + r && 0 <= r < m
    ensures x % m == r
  {
    var d := x / m - q;
    assert d * m == r - x % m;
    assert d >= 1 ==> d * m >= m;
    assert d <= -1 ==> d * m <= -m;
  }

  /** Reducing before a multiply-and-add step changes nothing after it. */
  lemma WrapStep32(v: int, base: int, d: int)
    ensures Wrap32(Wrap32(v) * base + d) == Wrap32(v * base + d)
  {
    var k := (v + TWO_31) / TWO_32;
    var w := Wrap32(v);
    assert w == v - k * TWO_32;
    assert w * base == v * base + (-k * base) * TWO_32 by {
      assert (v - k * TWO_32) * base == v * base - k * TWO_32 * base;
      assert k * TWO_32 * base == (k * base) * TWO_32;
    }
    ModShift(v * base + d + TWO_31, -k * base, TWO_32);
  }

  lemma WrapNegate32(v: int)
    ensures Wrap32(-Wrap32(v)) == Wrap32(-v)
  {
    var k := (v + TWO_31) / TWO_32;
    ModShift(-v + TWO_31, k, TWO_32);
  }

  lemma ModStep32(v: int, base: int, d: int)
    ensures ((v % TWO_32) * base + d) % TWO_32 == (v * base + d) % TWO_32
  {
    var k := v / TWO_32;
    assert (v % TWO_32) * base == v * base + (-k * base) * TWO_32 by {
      assert (v - k * TWO_32) * base == v * base - k * TWO_32 * base;
      assert k * TWO_32 * base == (k * base) * TWO_32;
    }
    ModShift(v * base + d, -k * base, TWO_32);
  }

  // ---------------------------------------------------------------------------
  // Digits and numerals
  // ---------------------------------------------------------------------------

  /** The value of `c` as a digit in `base`, or -1; either case of letter will do. */
  function DigitOf(c: char, base: int): int {
    var x := c as int;
    if '0' <= c <= '9' && x - 48 < base then x - 48
    else if 'a' <= c <= 'z' && x - 97 + 10 < base then x - 97 + 10
    else if 'A' <= c <= 'Z' && x - 65 + 10 < base then x - 65 + 10
    else -1
  }

  predicate AreDigits(ds: string, base: int) {
    forall i :: 0 <= i < |ds| ==> DigitOf(ds[i], base) >= 0
  }

  /** The number a digit string stands for. */
  function Value(ds: string, base: int): int {
    if ds == "" then 0 else Value(ds[..|ds| - 1], base) * base + DigitOf(ds[|ds| - 1], base)
  }

  /** How many digits `t` starts with. */
  function Span(t: string, base: int): (n: nat)
    ensures n <= |t| && AreDigits(t[..n], base)
    ensures n < |t| ==> DigitOf(t[n], base) < 0
  {
    if t == "" || DigitOf(t[0], base) < 0 then 0 else 1 + Span(t[1..], base)
  }

  function DigitChar(d: nat): char
    requires d < 16
  {
    "0123456789abcdef"[d]
  }

  /** The digits of `u`, without leading zeros, at least one. */
  function Numeral(u: nat, base: nat): (ds: string)
    requires 2 <= base <= 16
    ensures ds != ""
  {
    if u < base then [DigitChar(u)] else Numeral(u / base, base) + [DigitChar(u % base)]
  }

  lemma DigitCharIsDigit(d: nat, base: nat)
    requires d < base <= 16
    ensures DigitOf(DigitChar(d), base) == d && !IsSpace(DigitChar(d))
    ensures d > 0 ==> DigitChar(d) != '0'
  {}

  lemma ValueOfSnoc(ds: string, c: char, base: int)
    ensures Value(ds + [c], base) == Value(ds, base) * base + DigitOf(c, base)
  {
    assert (ds + [c])[..|ds|] == ds;
  }

  lemma DivMod(u: nat, base: nat)
    requires base >= 2 && u >= base
    ensures (u / base) * base + u % base == u && 1 <= u / base < u
  {}

  lemma AppendDigit(ds: string, q: nat, d: nat, base: nat)
    requires 2 <= base <= 16 && d < base && Value(ds, base) == q && AreDigits(ds, base)
    ensures Value(ds + [DigitChar(d)], base) == q * base + d && AreDigits(ds + [DigitChar(d)], base)
  {
    DigitCharIsDigit(d, base);
    ValueOfSnoc(ds, DigitChar(d), base);
  }

  /** A numeral stands for its number, in digits of its base, and starts with 0 only when it is 0. */
  lemma {:induction false} NumeralValue(u: nat, base: nat)
    requires 2 <= base <= 16
    ensures Value(Numeral(u, base), base) == u && AreDigits(Numeral(u, base), base)
    ensures Numeral(u, base)[0] == '0' <==> u == 0
    ensures u == 0 ==> Numeral(u, base) == "0"
  {
    if u < base {
      DigitCharIsDigit(u, base);
      assert [DigitChar(u)] == "" + [DigitChar(u)];
      ValueOfSnoc("", DigitChar(u), base);
    } else {
      DivMod(u, base);
      NumeralValue(u / base, base);
      AppendDigit(Numeral(u / base, base), u / base, u % base, base);
    }
  }

  function Pow(b: nat, k: nat): nat {
    if k == 0 then 1 else b * Pow(b, k - 1)
  }

  lemma DivByAtLeastEight(u: nat, base: nat)
    requires base >= 8
    ensures 8 * (u / base) <= u
  {
    assert base * (u / base) <= u;
  }

  lemma {:induction false} NumeralLength(u: nat, base: nat, k: nat)
    requires 8 <= base <= 16 && k > 0 && u < Pow(8, k)
    ensures |Numeral(u, base)| <= k
  {
    if u >= base {
      assert Pow(8, k) == 8 * Pow(8, k - 1);
      assert k > 1;
      DivByAtLeastEight(u, base);
      NumeralLength(u / base, base, k - 1);
    }
  }

  /** Any 64-bit number has at most 22 digits in the bases in use; the buffers have room for 32. */
  lemma NumeralFits(u: nat, base: nat)
    requires 8 <= base <= 16 && u < TWO_64
    ensures |Numeral(u, base)| <= 22
  {
    assert Pow(8, 5) == 0x8000;
    assert Pow(8, 10) == 0x8000 * Pow(8, 5);
    assert Pow(8, 15) == 0x8000 * Pow(8, 10);
    assert Pow(8, 20) == 0x8000 * Pow(8, 15);
    assert Pow(8, 22) == 0x40 * Pow(8, 20);
    NumeralLength(u, base, 22);
  }

  /** Leading zeros do not count. */
  lemma {:induction false} ValueOfPadded(zeros: string, ds: string, base: int)
    requires base > 0 && (forall i :: 0 <= i < |zeros| ==> zeros[i] == '0')
    ensures Value(zeros + ds, base) == Value(ds, base)
  {
    if ds == "" {
      assert zeros + ds == zeros;
      if zeros != "" {
        ValueOfPadded(zeros[..|zeros| - 1], "", base);
        assert zeros[..|zeros| - 1] + "" == zeros[..|zeros| - 1];
        assert zeros[|zeros| - 1] == '0';
      }
    } else {
      var n := |ds| - 1;
      ValueOfPadded(zeros, ds[..n], base);
      assert (zeros + ds)[..|zeros| + n] == zeros + ds[..n];
    }
  }

  /** The digits in front of a non-digit are all the digits there are. */
  lemma {:induction false} SpanOf(ds: string, rest: string, base: int)
    requires AreDigits(ds, base) && (rest == "" || DigitOf(rest[0], base) < 0)
    ensures Span(ds + rest, base) == |ds|
  {
    if ds == "" {
      assert ds + rest == rest;
    } else {
      assert DigitOf(ds[0], base) >= 0;
      assert (ds + rest)[1..] == ds[1..] + rest;
      SpanOf(ds[1..], rest, base);
    }
  }
}
