/** Every way to spell a number that `strtol`, `strtoul` and `_doscan` understand: digits in either
    case, in any base up to 36, behind either prefix, and under base 0. */
module Spelling {
  import opened Numerals
  import opened Strtol
  import opened Doprnt
  import opened Doscan
  import opened RoundTrip

  // ---------------------------------------------------------------------------
  // Digits
  // ---------------------------------------------------------------------------

  function SmallDigit(v: nat): char
    requires v < 36
  {
    if v < 10 then ('0' as int + v) as char else ('a' as int + v - 10) as char
  }

  function CapitalDigit(v: nat): char
    requires v < 36
  {
    if v < 10 then ('0' as int + v) as char else ('A' as int + v - 10) as char
  }

  /** A character is the digit `v` iff it is that digit in one of the two alphabets, and `v` is small
      enough for the base; no other character is a digit. */
  lemma DigitOfIff(c: char, base: int, v: nat)
    requires SomeBase(base) && v < 36
    ensures DigitOf(c, base) == v <==> v < base && (c == SmallDigit(v) || c == CapitalDigit(v))
    ensures -1 <= DigitOf(c, base) < base
  {}

  /** White space is a blank, or one of the five control characters from tab to carriage return. */
  lemma SpaceIff(c: char)
    ensures IsSpace(c) <==> c == ' ' || 9 <= c as int <= 13
  {}

  function Capital(c: char): char {
    if 'a' <= c <= 'z' then (c as int - 32) as char else c
  }

  /** `es` is `ds` with any letters made capitals. */
  predicate AnyCase(es: string, ds: string) {
    |es| == |ds| && forall i :: 0 <= i < |ds| ==> es[i] == ds[i] || es[i] == Capital(ds[i])
  }

  lemma CapitalIsSameDigit(c: char, base: int)
    requires DigitOf(c, base) >= 0
    ensures DigitOf(Capital(c), base) == DigitOf(c, base)
  {}

  lemma {:induction false} AnyCaseValue(es: string, ds: string, base: int)
    requires AnyCase(es, ds) && AreDigits(ds, base)
    ensures AreDigits(es, base) && Value(es, base) == Value(ds, base)
  {
    forall i | 0 <= i < |ds| ensures DigitOf(es[i], base) == DigitOf(ds[i], base) {
      CapitalIsSameDigit(ds[i], base);
    }
    if ds != "" {
      var n := |ds| - 1;
      AnyCaseValue(es[..n], ds[..n], base);
    }
  }

  // ---------------------------------------------------------------------------
  // strtol and strtoul
  // ---------------------------------------------------------------------------

  predicate IsHexPrefix(prefix: string) {
    prefix == "0x" || prefix == "0X"
  }

  lemma EitherPrefixRead(prefix: string, ds: string, tail: string, base: int)
    requires IsHexPrefix(prefix) && (base == 16 || base == 0) && AreDigits(ds, 16) && EndsNumber(tail, 16)
    ensures Unprefixed(prefix + (ds + tail), base) == (Value(ds, 16), tail)
  {
    var t := prefix + (ds + tail);
    assert t[0] == '0' && t[1] == prefix[1] && t[2..] == ds + tail;
    DigitsOf(ds, tail, 16);
  }

  /** How a number `u` may be written for a call with base `base`. */
  ghost predicate Spells(prefix: string, ds: string, base: int, u: nat, tail: string) {
    && ds != ""
    && if IsHexPrefix(prefix) then
         (base == 16 || base == 0) && AreDigits(ds, 16) && Value(ds, 16) == u && EndsNumber(tail, 16)
       else if prefix == "" && base != 0 then
         SomeBase(base) && AreDigits(ds, base) && Value(ds, base) == u && EndsNumber(tail, base)
       else if prefix == "0" then
         base == 0 && AreDigits(ds, 8) && Value(ds, 8) == u && EndsNumber(tail, 8)
       else
         prefix == "" && ds[0] != '0' && AreDigits(ds, 10) && Value(ds, 10) == u && EndsNumber(tail, 10)
  }

  lemma OctalRead(ds: string, tail: string)
    requires ds != "" && AreDigits(ds, 8) && EndsNumber(tail, 8)
    ensures Unprefixed("0" + (ds + tail), 0) == (Value(ds, 8), tail)
  {
    var t := "0" + (ds + tail);
    assert t[0] == '0' && t[1] == ds[0] && DigitOf(ds[0], 8) >= 0;
    OctalBySight(t);
    Regroup("0", ds, tail);
    PaddedDigits("0", ds, 8);
    DigitsOf("0" + ds, tail, 8);
  }

  lemma OctalBySight(t: string)
    requires CharAt(t, 0) == '0' && CharAt(t, 1) != 'x' && CharAt(t, 1) != 'X'
    ensures Unprefixed(t, 0) == Digits(t, 8)
  {}

  lemma DecimalRead(ds: string, tail: string)
    requires ds != "" && ds[0] != '0' && AreDigits(ds, 10) && EndsNumber(tail, 10)
    ensures Unprefixed(ds + tail, 0) == (Value(ds, 10), tail)
  {
    var t := ds + tail;
    assert t[0] == ds[0];
    DigitsOf(ds, tail, 10);
  }

  lemma FirstCharacter(prefix: string, ds: string, base: int, u: nat, tail: string)
    requires Spells(prefix, ds, base, u, tail)
    ensures DigitOf((prefix + (ds + tail))[0], 36) >= 0
  {
    var t := prefix + (ds + tail);
    if prefix == "" {
      assert t[0] == ds[0];
      if base != 0 {
        assert DigitOf(ds[0], base) >= 0;
        DigitOfLarger(ds[0], base);
      } else {
        assert DigitOf(ds[0], 10) >= 0;
        DigitOfLarger(ds[0], 10);
      }
    } else {
      assert t[0] == prefix[0] == '0';
    }
  }

  lemma SpelledReads(prefix: string, ds: string, base: int, u: nat, tail: string)
    requires Spells(prefix, ds, base, u, tail)
    ensures Reads(prefix + (ds + tail), base, u, tail)
  {
    FirstCharacter(prefix, ds, base, u, tail);
    if IsHexPrefix(prefix) {
      EitherPrefixRead(prefix, ds, tail, base);
    } else if prefix == "0" {
      OctalRead(ds, tail);
    } else {
      assert "" + (ds + tail) == ds + tail;
      if base != 0 { PlainRead(ds, tail, base); } else { DecimalRead(ds, tail); }
    }
  }

  /** In any base from 2 to 36, and under base 0 according to the prefix, `strtol` of white space, a sign,
      and a number gives the number and what follows it, unless the sign is a plus. */
  lemma StrtolReadsIff(blanks: string, sign: string, prefix: string, ds: string, base: int, u: nat, tail: string)
    requires IsSign(sign) && (forall i :: 0 <= i < |blanks| ==> IsSpace(blanks[i]))
    requires Spells(prefix, ds, base, u, tail)
    ensures var x: int := u;
      StrtolSpec(blanks + (sign + (prefix + (ds + tail))), base) == (Wrap32(if sign == "-" then -x else x), tail)
      <==> sign != "+"
  {
    var t := prefix + (ds + tail);
    SpelledReads(prefix, ds, base, u, tail);
    DigitIsNoSpace(t, 36);
    FrontSkipped(blanks, sign, t);
    StrtolFrom(blanks + (sign + t), sign, t, base, u, tail);
  }

  /** The same for `strtoul`, which understands no sign. */
  lemma StrtoulReadsIff(blanks: string, sign: string, prefix: string, ds: string, base: int, u: nat, tail: string)
    requires IsSign(sign) && (forall i :: 0 <= i < |blanks| ==> IsSpace(blanks[i]))
    requires Spells(prefix, ds, base, u, tail)
    ensures StrtoulSpec(blanks + (sign + (prefix + (ds + tail))), base) == (u % TWO_32, tail)
      <==> sign != "+" && sign != "-"
  {
    var t := prefix + (ds + tail);
    SpelledReads(prefix, ds, base, u, tail);
    DigitIsNoSpace(t, 36);
    FrontSkipped(blanks, sign, t);
    StrtoulFrom(blanks + (sign + t), sign, t, base, u, tail);
  }

  lemma AnyCaseSpells(prefix: string, es: string, base: int, u: nat, tail: string)
    requires PrintedBase(base) && AnyCase(es, Numeral(u, base)) && EndsNumber(tail, base)
    requires prefix == "" || (base == 16 && IsHexPrefix(prefix))
    ensures Spells(prefix, es, base, u, tail)
  {
    NumeralValue(u, base);
    AnyCaseValue(es, Numeral(u, base), base);
  }

  /** A numeral in any mix of small and capital letters, behind either prefix if it is hexadecimal. */
  lemma AnyCaseReads(prefix: string, es: string, base: int, u: nat, tail: string)
    requires PrintedBase(base) && AnyCase(es, Numeral(u, base)) && EndsNumber(tail, base)
    requires prefix == "" || (base == 16 && IsHexPrefix(prefix))
    ensures StrtolSpec(prefix + (es + tail), base) == (Wrap32(u), tail)
    ensures StrtoulSpec(prefix + (es + tail), base) == (u % TWO_32, tail)
  {
    AnyCaseSpells(prefix, es, base, u, tail);
    var t := prefix + (es + tail);
    assert "" + ("" + t) == t;
    StrtolReadsIff("", "", prefix, es, base, u, tail);
    StrtoulReadsIff("", "", prefix, es, base, u, tail);
  }

  lemma NumeralNotZero(u: nat, base: nat)
    requires 2 <= base <= 16 && u > 0
    ensures Numeral(u, base) != "" && Numeral(u, base)[0] != '0'
  {
    NumeralValue(u, base);
  }

  /** Base 0: behind `0x` or `0X` a numeral is read in base 16, behind `0` in base 8, and else in base 10. */
  lemma BaseZeroReads(prefix: string, es: string, u: nat, base: nat, tail: string)
    requires (IsHexPrefix(prefix) && base == 16) || (prefix == "0" && base == 8) || (prefix == "" && base == 10 && u > 0)
    requires AnyCase(es, Numeral(u, base)) && EndsNumber(tail, base)
    ensures StrtolSpec(prefix + (es + tail), 0) == (Wrap32(u), tail)
    ensures StrtoulSpec(prefix + (es + tail), 0) == (u % TWO_32, tail)
  {
    BaseZeroSpells(prefix, es, u, base, tail);
    var t := prefix + (es + tail);
    assert "" + ("" + t) == t;
    StrtolReadsIff("", "", prefix, es, 0, u, tail);
    StrtoulReadsIff("", "", prefix, es, 0, u, tail);
  }

  lemma BaseZeroSpells(prefix: string, es: string, u: nat, base: nat, tail: string)
    requires (IsHexPrefix(prefix) && base == 16) || (prefix == "0" && base == 8) || (prefix == "" && base == 10 && u > 0)
    requires AnyCase(es, Numeral(u, base)) && EndsNumber(tail, base)
    ensures Spells(prefix, es, 0, u, tail)
  {
    NumeralValue(u, base);
    AnyCaseValue(es, Numeral(u, base), base);
    if prefix == "" {
      NumeralNotZero(u, base);
      FirstNotZero(es, Numeral(u, base));
    }
  }

  lemma FirstNotZero(es: string, ds: string)
    requires AnyCase(es, ds) && ds != "" && ds[0] != '0' && AreDigits(ds, 10)
    ensures es[0] != '0'
  {
    assert DigitOf(ds[0], 10) >= 0;
  }

  // ---------------------------------------------------------------------------
  // _doscan
  // ---------------------------------------------------------------------------

  /** `%d` and `%x` read a number in any mix of cases, with or without a minus sign. */
  lemma AnyCaseScans(neg: bool, es: string, u: nat, base: int, tail: string)
    requires (base == 10 || base == 16) && AnyCase(es, Numeral(u, base))
    requires tail == "" || DigitOf(tail[0], base) < 0
    ensures var x: int := u;
      ScanNumber((if neg then "-" + es else es) + tail, base) == (Wrap32(if neg then -x else x), tail)
  {
    NumeralValue(u, base);
    AnyCaseValue(es, Numeral(u, base), base);
    ScansText(neg, es, u, base, tail);
  }
}
