/** The printer and the parsers undo each other: `strtol` and `strtoul` read back any printed field,
    and `sscanf` reads back what `sprintf` wrote under the same format. */
module RoundTrip {
  import opened Config
  import opened Numerals
  import opened Strtol
  import opened Doprnt
  import opened Doscan

  predicate PrintedBase(base: int) {
    base == 8 || base == 10 || base == 16
  }

  /** The bases in which ten digits and two alphabets go round. */
  predicate SomeBase(base: int) {
    2 <= base <= 36
  }

  /** `rest` cannot be taken for more of a number in `base`. */
  predicate EndsNumber(rest: string, base: int) {
    rest == "" || (DigitOf(rest[0], base) < 0 && (base == 16 ==> rest[0] != 'x' && rest[0] != 'X'))
  }

  // ---------------------------------------------------------------------------
  // A number in front of other text
  // ---------------------------------------------------------------------------

  lemma Regroup(a: string, b: string, c: string)
    ensures a + (b + c) == (a + b) + c
  {}

  lemma {:induction false} SkipSpacesOf(blanks: string, t: string)
    requires (forall i :: 0 <= i < |blanks| ==> IsSpace(blanks[i])) && (t == "" || !IsSpace(t[0]))
    ensures SkipSpaces(blanks + t) == t
  {
    if blanks == "" {
      assert blanks + t == t;
    } else {
      assert IsSpace(blanks[0]) && (blanks + t)[0] == blanks[0];
      assert (blanks + t)[1..] == blanks[1..] + t;
      SkipSpacesOf(blanks[1..], t);
    }
  }

  lemma DigitsOf(ds: string, tail: string, base: int)
    requires AreDigits(ds, base) && (tail == "" || DigitOf(tail[0], base) < 0)
    ensures Digits(ds + tail, base) == (Value(ds, base), tail)
  {
    SpanOf(ds, tail, base);
    assert (ds + tail)[..|ds|] == ds && (ds + tail)[|ds|..] == tail;
  }

  /** Both parsers behind white space and sign. */
  function Unprefixed(t: string, base: int): (int, string) {
    var (u, b) := Radix(t, base);
    Digits(u, b)
  }

  lemma HexRead(ds: string, tail: string)
    requires AreDigits(ds, 16) && EndsNumber(tail, 16)
    ensures Unprefixed("0x" + (ds + tail), 16) == (Value(ds, 16), tail)
  {
    assert ("0x" + (ds + tail))[2..] == ds + tail;
    DigitsOf(ds, tail, 16);
  }

  lemma PlainRead(ds: string, tail: string, base: int)
    requires SomeBase(base) && ds != "" && AreDigits(ds, base) && EndsNumber(tail, base)
    ensures Unprefixed(ds + tail, base) == (Value(ds, base), tail)
    ensures DigitOf((ds + tail)[0], base) >= 0
  {
    var t := ds + tail;
    assert t[0] == ds[0] && DigitOf(ds[0], base) >= 0;
    if |ds| > 1 {
      assert t[1] == ds[1] && DigitOf(ds[1], base) >= 0;
    } else if tail != "" {
      assert t[1] == tail[0];
    }
    DigitsOf(ds, tail, base);
  }

  lemma DigitOfLarger(c: char, base: int)
    requires SomeBase(base) && DigitOf(c, base) >= 0
    ensures DigitOf(c, 36) >= 0
  {}

  /** Digits, behind `0x` if `hex`, and then `tail`. */
  function Written(hex: bool, ds: string, tail: string): string {
    if hex then "0x" + (ds + tail) else ds + tail
  }

  /** `t` is the number `u`, and `tail` is what follows it. */
  ghost predicate Reads(t: string, base: int, u: nat, tail: string) {
    && t != "" && |tail| < |t| && DigitOf(t[0], 36) >= 0
    && Unprefixed(t, base) == (u, tail)
  }

  lemma WrittenReads(hex: bool, ds: string, u: nat, base: int, tail: string)
    requires SomeBase(base) && ds != "" && AreDigits(ds, base) && EndsNumber(tail, base)
    requires Value(ds, base) == u && (hex ==> base == 16)
    ensures Reads(Written(hex, ds, tail), base, u, tail)
  {
    if hex {
      HexRead(ds, tail);
    } else {
      PlainRead(ds, tail, base);
      DigitOfLarger((ds + tail)[0], base);
    }
  }

  // ---------------------------------------------------------------------------
  // White space and a sign in front of it
  // ---------------------------------------------------------------------------

  predicate IsSign(sign: string) {
    sign == "" || sign == " " || sign == "-" || sign == "+"
  }

  /** The sign as the parsers see it: a blank is white space. */
  function Visible(sign: string): string {
    if sign == " " then "" else sign
  }

  lemma FrontSkipped(blanks: string, sign: string, t: string)
    requires IsSign(sign) && (forall i :: 0 <= i < |blanks| ==> IsSpace(blanks[i]))
    requires t != "" && !IsSpace(t[0])
    ensures SkipSpaces(blanks + (sign + t)) == Visible(sign) + t
  {
    var front, v := if sign == " " then blanks + sign else blanks, Visible(sign) + t;
    Regroup(blanks, sign, t);
    assert "" + t == t;
    assert v != "" && !IsSpace(v[0]);
    SkipSpacesOf(front, v);
  }

  lemma StopsAtSign(t: string, base: int)
    requires t != "" && (t[0] == '+' || t[0] == '-') && (base == 0 || SomeBase(base))
    ensures Unprefixed(t, base) == (0, t)
  {
    assert forall b :: DigitOf(t[0], b) == -1;
    assert t[..0] == "" && t[0..] == t;
  }

  lemma StrtolPlain(s: string, t: string, base: int, u: int, tail: string)
    requires SkipSpaces(s) == t && CharAt(t, 0) != '-' && Unprefixed(t, base) == (u, tail)
    ensures StrtolSpec(s, base) == (Wrap32(u), tail)
  {}

  lemma StrtolNegative(s: string, v: string, t: string, base: int, u: int, tail: string)
    requires SkipSpaces(s) == v && v != "" && v[0] == '-' && v[1..] == t && Unprefixed(t, base) == (u, tail)
    ensures StrtolSpec(s, base) == (Wrap32(-u), tail)
  {}

  lemma StrtolFrom(s: string, sign: string, t: string, base: int, u: nat, tail: string)
    requires (base == 0 || SomeBase(base)) && IsSign(sign) && Reads(t, base, u, tail)
    requires SkipSpaces(s) == Visible(sign) + t
    ensures var x: int := u;
      StrtolSpec(s, base) == (Wrap32(if sign == "-" then -x else x), tail) <==> sign != "+"
  {
    var v := Visible(sign) + t;
    if sign == "-" {
      assert v[0] == '-' && v[1..] == t;
      StrtolNegative(s, v, t, base, u, tail);
    } else if sign == "+" {
      assert v[0] == '+';
      StopsAtSign(v, base);
      StrtolPlain(s, v, base, 0, v);
    } else {
      assert v == t;
      StrtolPlain(s, t, base, u, tail);
    }
  }

  lemma StrtoulFrom(s: string, sign: string, t: string, base: int, u: nat, tail: string)
    requires (base == 0 || SomeBase(base)) && IsSign(sign) && Reads(t, base, u, tail)
    requires SkipSpaces(s) == Visible(sign) + t
    ensures StrtoulSpec(s, base) == (u % TWO_32, tail) <==> sign != "+" && sign != "-"
  {
    var v := Visible(sign) + t;
    if sign == "-" || sign == "+" {
      assert v[0] == sign[0];
      StopsAtSign(v, base);
    } else {
      assert v == t;
    }
  }

  // ---------------------------------------------------------------------------
  // Printed fields
  // ---------------------------------------------------------------------------

  /** What a field has behind its last digit. */
  function Behind(d: Directive, sign: string, u: nat, base: nat): string
    requires 2 <= base <= 16
  {
    Repeat(' ', if d.left && !d.zero then Padding(d, sign, u, base) else 0)
  }

  predicate AllZeros(s: string) {
    forall i :: 0 <= i < |s| ==> s[i] == '0'
  }

  lemma PaddedDigits(zeros: string, ds: string, base: int)
    requires PrintedBase(base) && AllZeros(zeros) && ds != "" && AreDigits(ds, base)
    ensures zeros + ds != "" && AreDigits(zeros + ds, base) && Value(zeros + ds, base) == Value(ds, base)
  {
    ValueOfPadded(zeros, ds, base);
  }

  lemma RegroupField(
    blanks: string, sign: string, prefix: string, zeros: string, ds: string, behind: string, rest: string)
    ensures (blanks + (sign + (prefix + (zeros + (ds + behind))))) + rest
      == blanks + (sign + (prefix + ((zeros + ds) + (behind + rest))))
  {
    Regroup(blanks, sign + (prefix + (zeros + (ds + behind))), rest);
    Regroup(sign, prefix + (zeros + (ds + behind)), rest);
    Regroup(prefix, zeros + (ds + behind), rest);
    Regroup(zeros, ds + behind, rest);
    Regroup(ds, behind, rest);
    Regroup(zeros, ds, behind + rest);
  }

  lemma TailEnds(blanks: string, rest: string, base: nat)
    requires EndsNumber(rest, base) && forall i :: 0 <= i < |blanks| ==> blanks[i] == ' '
    ensures EndsNumber(blanks + rest, base)
  {
    if blanks == "" { assert blanks + rest == rest; } else { assert (blanks + rest)[0] == ' '; }
  }

  /** Sign and number behind some blanks, part by part. */
  lemma PartsRead(
    blanks: string, sign: string, prefix: string, ds: string, u: nat, base: int, tail: string, s: string)
    returns (t: string)
    requires PrintedBase(base) && IsSign(sign) && EndsNumber(tail, base)
    requires prefix == "" || (prefix == "0" && base == 8) || (prefix == "0x" && base == 16)
    requires forall i :: 0 <= i < |blanks| ==> blanks[i] == ' '
    requires ds != "" && AreDigits(ds, base) && Value(ds, base) == u
    requires s == blanks + (sign + (prefix + (ds + tail)))
    ensures Reads(t, base, u, tail) && SkipSpaces(s) == Visible(sign) + t
  {
    if prefix == "0x" {
      t := Written(true, ds, tail);
      WrittenReads(true, ds, u, base, tail);
    } else {
      PaddedDigits(prefix, ds, base);
      Regroup(prefix, ds, tail);
      t := Written(false, prefix + ds, tail);
      WrittenReads(false, prefix + ds, u, base, tail);
    }
    DigitIsNoSpace(t, 36);
    FrontSkipped(blanks, sign, t);
  }

  lemma DigitIsNoSpace(t: string, base: int)
    requires t != "" && DigitOf(t[0], base) >= 0
    ensures !IsSpace(t[0])
  {}

  /** A printed field, read from behind its white space: a sign, and then the number. */
  lemma FieldReads(d: Directive, sign: string, u: nat, base: nat, rest: string) returns (t: string)
    requires PrintedBase(base) && IsSign(sign) && EndsNumber(rest, base)
    ensures Reads(t, base, u, Behind(d, sign, u, base) + rest)
    ensures SkipSpaces(Field(d, sign, u, base) + rest) == Visible(sign) + t
  {
    var pad := Padding(d, sign, u, base);
    var blanks := Repeat(' ', if d.zero || d.left then 0 else pad);
    var prefix, zeros := Prefix(d.alt, u, base), Repeat('0', if d.zero then pad else 0);
    var digits, behind := Numeral(u, base), Behind(d, sign, u, base);
    NumeralValue(u, base);
    PaddedDigits(zeros, digits, base);
    TailEnds(behind, rest, base);
    RegroupField(blanks, sign, prefix, zeros, digits, behind, rest);
    t := PartsRead(blanks, sign, prefix, zeros + digits, u, base, behind + rest, Field(d, sign, u, base) + rest);
  }

  /** `strtol` of a printed field, whatever follows that cannot extend the number, is the number and
      stops right behind its last digit; except that it does not understand a printed plus sign. */
  lemma StrtolOfFieldIff(d: Directive, sign: string, u: nat, base: nat, rest: string)
    requires PrintedBase(base) && IsSign(sign) && EndsNumber(rest, base)
    ensures var x: int := u;
      StrtolSpec(Field(d, sign, u, base) + rest, base)
        == (Wrap32(if sign == "-" then -x else x), Behind(d, sign, u, base) + rest)
      <==> sign != "+"
  {
    var t := FieldReads(d, sign, u, base, rest);
    StrtolFrom(Field(d, sign, u, base) + rest, sign, t, base, u, Behind(d, sign, u, base) + rest);
  }

  /** `strtoul` understands no sign at all. */
  lemma StrtoulOfFieldIff(d: Directive, sign: string, u: nat, base: nat, rest: string)
    requires PrintedBase(base) && IsSign(sign) && EndsNumber(rest, base)
    ensures StrtoulSpec(Field(d, sign, u, base) + rest, base)
        == (u % TWO_32, Behind(d, sign, u, base) + rest)
      <==> sign != "+" && sign != "-"
  {
    var t := FieldReads(d, sign, u, base, rest);
    StrtoulFrom(Field(d, sign, u, base) + rest, sign, t, base, u, Behind(d, sign, u, base) + rest);
  }

  // ---------------------------------------------------------------------------
  // A whole format
  // ---------------------------------------------------------------------------

  lemma {:induction false} FlagsPlus(t: string, d: Directive)
    requires d.plus == NUL || d.plus == ' ' || d.plus == '+'
    ensures var p := Flags(t, d).0.plus; p == NUL || p == ' ' || p == '+'
  {
    if t != "" {
      FlagsPlus(t[1..], d.(alt := true));
      FlagsPlus(t[1..], d.(left := true));
      FlagsPlus(t[1..], d.(plus := '+'));
      FlagsPlus(t[1..], if d.plus == NUL then d.(plus := ' ') else d);
    }
  }

  lemma {:induction false} LongsKeep(t: string, d: Directive)
    ensures Longs(t, d).0.plus == d.plus
  {
    if CharAt(t, 0) == 'l' { LongsKeep(t[1..], d.(longs := d.longs + 1)); }
  }

  lemma WidthKeeps(t: string, d: Directive, args: seq<Arg>)
    requires Width(t, d, args).Some?
    ensures Width(t, d, args).value.0.plus == d.plus
  {}

  lemma PrecisionKeeps(t: string, d: Directive, args: seq<Arg>)
    requires Precision(t, d, args).Some?
    ensures Precision(t, d, args).value.0.plus == d.plus
  {}

  /** Behind the flags nothing changes the sign flag. */
  lemma ParsedPlus(t: string, args: seq<Arg>)
    requires ParseDirective(t, args).Some?
    ensures var p := ParseDirective(t, args).value.0.plus; p == NUL || p == ' ' || p == '+'
  {
    var d0 := PLAIN;
    FlagsPlus(t, d0);
    var (d1, t1) := Flags(t, d0);
    var (d2, t2) := ZeroFlag(t1, d1);
    WidthKeeps(t2, d2, args);
    var (d3, t3, args3) := Width(t2, d2, args).value;
    PrecisionKeeps(t3, d3, args3);
    var (d4, t4, args4) := Precision(t3, d3, args3).value;
    LongsKeep(t4, d4);
  }

  /** What one directive prints in front of literal text. */
  lemma OneConversion(fmt: string, args: seq<Arg>, d: Directive, c: char, out: string, args2: seq<Arg>, args1: seq<Arg>)
    requires ParseDirective(fmt, args) == Some((d, [c], args1)) && c != NUL
    requires Convert(d, c, args1) == Some((out, args2))
    ensures DoprntSpec("%" + fmt, args) == Some(out)
  {
    assert ("%" + fmt)[1..] == fmt && [c][1..] == "";
    assert out + "" == out;
  }

  lemma NumberConverts(d: Directive, c: char, n: int)
    ensures ConversionOf(c).SignedNumber?
      ==> Convert(d, c, [Num(n)]) == Some((SignedText(d, n, ConversionOf(c).base), []))
    ensures ConversionOf(c).UnsignedNumber?
      ==> Convert(d, c, [Num(n)]) == Some((UnsignedText(d, n, ConversionOf(c).base), []))
  {
    var args := [Num(n)];
    assert args[0] == Num(n) && args[1..] == [];
  }

  /** Whatever number `strtol` makes of a plus sign, it stops in front of it. */
  lemma SignIsLost(d: Directive, u: nat, base: nat)
    requires PrintedBase(base)
    ensures StrtolSpec(Field(d, "+", u, base), base).1 != Behind(d, "+", u, base)
  {
    var s := Field(d, "+", u, base);
    var t := FieldReads(d, "+", u, base, "");
    assert s + "" == s && Behind(d, "+", u, base) + "" == Behind(d, "+", u, base);
    assert ("+" + t)[0] == '+';
    StopsAtSign("+" + t, base);
  }

  lemma SignAndMagnitude(x: int, plus: char)
    requires plus == NUL || plus == ' ' || plus == '+'
    ensures var sign := SignOf(x, plus);
      && IsSign(sign) && (sign == "-" <==> x < 0) && (sign == "+" <==> x >= 0 && plus == '+')
    ensures var m: int := Abs(x); (if x < 0 then -m else m) == x
    ensures Wrap32(x) == x <==> -TWO_31 <= x < TWO_31
  {}

  /** The whole output of a signed conversion, given to `strtol`. */
  lemma StrtolOfSignedIff(d: Directive, n: int, base: nat)
    requires PrintedBase(base) && (d.plus == NUL || d.plus == ' ' || d.plus == '+')
    ensures var x := Signed(n, d.longs);
      StrtolSpec(SignedText(d, n, base), base) == (x, Behind(d, SignOf(x, d.plus), Abs(x), base))
      <==> -TWO_31 <= x < TWO_31 && (d.plus == '+' ==> x < 0)
  {
    var x := Signed(n, d.longs);
    var sign, u := SignOf(x, d.plus), Abs(x);
    SignAndMagnitude(x, d.plus);
    var s, tail := Field(d, sign, u, base), Behind(d, sign, u, base);
    assert s + "" == s && tail + "" == tail;
    StrtolOfFieldIff(d, sign, u, base, "");
    if sign == "+" {
      SignIsLost(d, u, base);
    }
  }

  lemma ModIffSmall(u: nat)
    ensures u % TWO_32 == u <==> u < TWO_32
  {}

  /** The whole output of an unsigned conversion, given to `strtoul`. */
  lemma StrtoulOfUnsignedIff(d: Directive, u: nat, base: nat)
    requires PrintedBase(base)
    ensures StrtoulSpec(Field(d, "", u, base), base) == (u, Behind(d, "", u, base)) <==> u < TWO_32
  {
    var s, tail := Field(d, "", u, base), Behind(d, "", u, base);
    assert s + "" == s && tail + "" == tail;
    StrtoulOfFieldIff(d, "", u, base, "");
    ModIffSmall(u);
  }

  /** Any format that is one signed conversion, with any flags, width, precision and `l`s: `strtol` of
      the output gives the printed value and leaves only the blanks behind it, if and only if the value
      fits a 32-bit `long` and no plus sign was printed. */
  lemma PrintThenStrtolIff(fmt: string, args: seq<Arg>, d: Directive, c: char, n: int, x: int, base: nat)
    requires ParseDirective(fmt, args) == Some((d, [c], [Num(n)])) && ConversionOf(c) == SignedNumber(base)
    requires x == Signed(n, d.longs)
    ensures DoprntSpec("%" + fmt, args) == Some(SignedText(d, n, base))
    ensures StrtolSpec(SignedText(d, n, base), base) == (x, Behind(d, SignOf(x, d.plus), Abs(x), base))
      <==> -TWO_31 <= x < TWO_31 && (d.plus == '+' ==> x < 0)
  {
    NumberConverts(d, c, n);
    OneConversion(fmt, args, d, c, SignedText(d, n, base), [], [Num(n)]);
    ParsedPlus(fmt, args);
    StrtolOfSignedIff(d, n, base);
  }

  /** The same for unsigned conversions and `strtoul`: the value comes back if and only if it fits. */
  lemma PrintThenStrtoulIff(fmt: string, args: seq<Arg>, d: Directive, c: char, n: int, u: nat, base: nat)
    requires ParseDirective(fmt, args) == Some((d, [c], [Num(n)])) && ConversionOf(c) == UnsignedNumber(base)
    requires u == Unsigned(n, d.longs)
    ensures DoprntSpec("%" + fmt, args) == Some(UnsignedText(d, n, base))
    ensures StrtoulSpec(UnsignedText(d, n, base), base) == (u, Behind(d, "", u, base)) <==> u < TWO_32
  {
    NumberConverts(d, c, n);
    OneConversion(fmt, args, d, c, UnsignedText(d, n, base), [], [Num(n)]);
    StrtoulOfUnsignedIff(d, u, base);
  }

  /** What `%p` prints. */
  function PointerText(d: Directive, u: nat): string {
    "0x" + Field(d.(zero := true, length := 8), "", u, 16)
  }

  lemma PointerParts(d: Directive, u: nat) returns (zeros: string)
    ensures AllZeros(zeros)
    ensures PointerText(d, u) == "0x" + (Prefix(d.alt, u, 16) + ((zeros + Numeral(u, 16)) + ""))
  {
    var e := d.(zero := true, length := 8);
    zeros := Repeat('0', Padding(e, "", u, 16));
    RegroupField("", "", Prefix(d.alt, u, 16), zeros, Numeral(u, 16), "", "");
    var f := Field(e, "", u, 16);
    assert f + "" == f && "" + "" == "";
  }

  lemma DoublePrefix(t: string)
    ensures Unprefixed("0x" + ("0x" + t), 16).0 == 0
  {
    var v := "0x" + t;
    assert ("0x" + v)[2..] == v;
    assert v[0] == '0' && v[1] == 'x';
    assert v[1..][0] == 'x' && Span(v, 16) == 1;
    ValueOfSnoc("", '0', 16);
    assert "" + ['0'] == v[..1];
  }

  lemma UnprefixedIsStrtoul(t: string, base: int, u: int, rest: string)
    requires t != "" && t[0] == '0' && Unprefixed(t, base) == (u, rest)
    ensures StrtoulSpec(t, base) == (u % TWO_32, rest)
  {
    assert SkipSpaces(t) == t;
  }

  lemma PointerDigits(zeros: string, u: nat)
    requires AllZeros(zeros)
    ensures Unprefixed("0x" + ((zeros + Numeral(u, 16)) + ""), 16) == (u, "")
  {
    NumeralValue(u, 16);
    PaddedDigits(zeros, Numeral(u, 16), 16);
    HexRead(zeros + Numeral(u, 16), "");
  }

  lemma PrefixTwice(t: string, digits: string)
    requires t == "0x" + ("0x" + digits)
    ensures StrtoulSpec(t, 16).0 == 0
  {
    DoublePrefix(digits);
    UnprefixedIsStrtoul(t, 16, 0, Unprefixed(t, 16).1);
  }

  lemma PrefixOnce(t: string, digits: string, u: nat)
    requires t == "0x" + ("" + digits) && Unprefixed("0x" + digits, 16) == (u, "")
    ensures StrtoulSpec(t, 16) == (u % TWO_32, "")
  {
    assert "" + digits == digits;
    UnprefixedIsStrtoul(t, 16, u, "");
  }

  lemma StrtoulOfPointerIff(d: Directive, u: nat)
    ensures StrtoulSpec(PointerText(d, u), 16) == (u, "") <==> u < TWO_32 && (!d.alt || u == 0)
  {
    var zeros := PointerParts(d, u);
    PointerDigits(zeros, u);
    var digits := (zeros + Numeral(u, 16)) + "";
    if d.alt && u != 0 {
      PrefixTwice(PointerText(d, u), digits);
    } else {
      PrefixOnce(PointerText(d, u), digits, u);
      ModIffSmall(u);
    }
  }

  lemma PointerConverts(d: Directive, c: char, n: int)
    requires ConversionOf(c) == Pointer
    ensures Convert(d, c, [Num(n)]) == Some((PointerText(d, Unsigned(n, d.longs)), []))
  {
    var args := [Num(n)];
    assert args[0] == Num(n) && args[1..] == [];
  }

  /** Any format that is one `%p`: the pointer comes back from `strtoul` if and only if it fits 32 bits
      and was not printed under `#`, which prints the prefix of anything but 0 twice. */
  lemma PointerReadsIff(fmt: string, args: seq<Arg>, d: Directive, c: char, n: int, u: nat)
    requires ParseDirective(fmt, args) == Some((d, [c], [Num(n)])) && ConversionOf(c) == Pointer
    requires u == Unsigned(n, d.longs)
    ensures DoprntSpec("%" + fmt, args) == Some(PointerText(d, u))
    ensures StrtoulSpec(PointerText(d, u), 16) == (u, "") <==> u < TWO_32 && (!d.alt || u == 0)
  {
    PointerConverts(d, c, n);
    OneConversion(fmt, args, d, c, PointerText(d, u), [], [Num(n)]);
    StrtoulOfPointerIff(d, u);
  }

  // ---------------------------------------------------------------------------
  // sscanf of sprintf
  // ---------------------------------------------------------------------------

  /** Formats both sides understand: literal characters, `%d` and `%x`. */
  datatype Item = Literally(c: char) | Dec | Hex

  predicate Literals(items: seq<Item>) {
    forall i :: 0 <= i < |items| && items[i].Literally? ==> items[i].c != '%' && items[i].c != NUL
  }

  function FormatOf(items: seq<Item>): string {
    if items == [] then ""
    else
      (match items[0] case Literally(c) => [c] case Dec => "%d" case Hex => "%x") + FormatOf(items[1..])
  }

  function Slots(items: seq<Item>): nat {
    if items == [] then 0 else (if items[0].Literally? then 0 else 1) + Slots(items[1..])
  }

  function ArgsOf(ns: seq<int>): seq<Arg> {
    if ns == [] then [] else [Num(ns[0])] + ArgsOf(ns[1..])
  }

  function Longs32(ns: seq<int>): (r: seq<int>)
    ensures |r| == |ns| && forall i :: 0 <= i < |ns| ==> r[i] == Wrap32(ns[i])
  {
    if ns == [] then [] else [Wrap32(ns[0])] + Longs32(ns[1..])
  }

  /** A number as `%d` or `%x` shows it. */
  function Shows(hex: bool, n: int): string {
    if hex then Numeral(n % TWO_32, 16)
    else (if Wrap32(n) < 0 then "-" else "") + Numeral(Abs(Wrap32(n)), 10)
  }

  /** The text for a format and its numbers. */
  function Render(items: seq<Item>, ns: seq<int>): string
    requires |ns| == Slots(items)
  {
    if items == [] then ""
    else if items[0].Literally? then [items[0].c] + Render(items[1..], ns)
    else Shows(items[0].Hex?, ns[0]) + Render(items[1..], ns[1..])
  }

  /** No number is directly followed by a digit it could take for its own. */
  predicate Separated(items: seq<Item>, ns: seq<int>)
    requires |ns| == Slots(items)
  {
    items == [] ||
    if items[0].Literally? then Separated(items[1..], ns)
    else
      var after := Render(items[1..], ns[1..]);
      && (after == "" || DigitOf(after[0], if items[0].Hex? then 16 else 10) < 0)
      && Separated(items[1..], ns[1..])
  }

  lemma FieldOfPlain(sign: string, u: nat, base: nat)
    requires base == 10 || base == 16
    ensures Field(PLAIN, sign, u, base) == sign + Numeral(u, base)
  {}

  lemma ConvertsTo(hex: bool, n: int, args: seq<Arg>)
    ensures Convert(PLAIN, if hex then 'x' else 'd', [Num(n)] + args) == Some((Shows(hex, n), args))
  {
    var x := Wrap32(n);
    FieldOfPlain(SignOf(x, NUL), Abs(x), 10);
    FieldOfPlain("", n % TWO_32, 16);
    assert ([Num(n)] + args)[1..] == args;
    assert "" + Numeral(n % TWO_32, 16) == Numeral(n % TWO_32, 16);
  }

  lemma ParsesAlone(c: char, t: string, args: seq<Arg>)
    requires c == 'd' || c == 'x'
    ensures ParseDirective([c] + t, args) == Some((PLAIN, [c] + t, args))
  {}

  lemma PrintsNumber(hex: bool, t: string, n: int, args: seq<Arg>)
    ensures var c := if hex then 'x' else 'd';
      DoprntSpec(['%', c] + t, [Num(n)] + args) == Prepend(Shows(hex, n), DoprntSpec(t, args))
  {
    var c := if hex then 'x' else 'd';
    assert (['%', c] + t)[1..] == [c] + t && ([c] + t)[1..] == t;
    ParsesAlone(c, t, [Num(n)] + args);
    ConvertsTo(hex, n, args);
  }

  /** What `sprintf` writes. */
  lemma {:induction false} SprintfRenders(items: seq<Item>, ns: seq<int>)
    requires Literals(items) && |ns| == Slots(items)
    ensures DoprntSpec(FormatOf(items), ArgsOf(ns)) == Some(Render(items, ns))
  {
    if items != [] {
      var t := FormatOf(items[1..]);
      match items[0]
      case Literally(c) =>
        SprintfRenders(items[1..], ns);
        assert ([c] + t)[1..] == t;
      case _ =>
        SprintfRenders(items[1..], ns[1..]);
        PrintsNumber(items[0].Hex?, t, ns[0], ArgsOf(ns[1..]));
    }
  }

  lemma HexComesBack(n: int)
    ensures Wrap32(n % TWO_32) == Wrap32(n)
  {
    ModShift(n % TWO_32 + TWO_31, n / TWO_32, TWO_32);
  }

  lemma ScansDigits(ds: string, u: nat, base: int, tail: string)
    requires ds != "" && AreDigits(ds, base) && Value(ds, base) == u
    requires tail == "" || DigitOf(tail[0], base) < 0
    ensures ScanNumber(ds + tail, base) == (Wrap32(u), tail)
  {
    DigitsOf(ds, tail, base);
    assert (ds + tail)[0] == ds[0] && DigitOf(ds[0], base) >= 0;
  }

  lemma ScansNegative(ds: string, u: nat, base: int, tail: string)
    requires AreDigits(ds, base) && Value(ds, base) == u
    requires tail == "" || DigitOf(tail[0], base) < 0
    ensures var x: int := u; ScanNumber("-" + (ds + tail), base) == (Wrap32(-x), tail)
  {
    var t := "-" + (ds + tail);
    DigitsOf(ds, tail, base);
    assert t[0] == '-' && t[1..] == ds + tail;
    ScansMinus(t, ds + tail, base, u, tail);
  }

  lemma ScansMinus(s: string, t: string, base: int, v: int, tail: string)
    requires s != "" && s[0] == '-' && s[1..] == t && Digits(t, base) == (v, tail)
    ensures ScanNumber(s, base) == (Wrap32(-v), tail)
  {}

  lemma ScansText(neg: bool, ds: string, u: nat, base: int, tail: string)
    requires ds != "" && AreDigits(ds, base) && Value(ds, base) == u
    requires tail == "" || DigitOf(tail[0], base) < 0
    ensures var x: int := u;
      ScanNumber((if neg then "-" + ds else ds) + tail, base) == (Wrap32(if neg then -x else x), tail)
  {
    if neg {
      ScansNegative(ds, u, base, tail);
      Regroup("-", ds, tail);
    } else {
      ScansDigits(ds, u, base, tail);
    }
  }

  lemma MagnitudeWraps(n: int, x: int, u: nat)
    requires x == Wrap32(n) && u == Abs(x)
    ensures var m: int := u; Wrap32(if x < 0 then -m else m) == Wrap32(n)
  {}

  lemma ShowsHex(n: int, u: nat)
    requires u == n % TWO_32
    ensures Shows(true, n) == Numeral(u, 16)
  {}

  lemma ShowsDec(n: int, x: int, u: nat)
    requires x == Wrap32(n) && u == Abs(x)
    ensures Shows(false, n) == if x < 0 then "-" + Numeral(u, 10) else Numeral(u, 10)
  {
    assert "" + Numeral(u, 10) == Numeral(u, 10);
  }

  /** `%d` and `%x` show a number that is the argument up to the width of an `int`. */
  lemma ShowsNumber(hex: bool, n: int) returns (neg: bool, ds: string, u: nat)
    ensures Shows(hex, n) == if neg then "-" + ds else ds
    ensures var base := if hex then 16 else 10; ds != "" && AreDigits(ds, base) && Value(ds, base) == u
    ensures var x: int := u; Wrap32(if neg then -x else x) == Wrap32(n)
  {
    if hex {
      neg, u := false, n % TWO_32;
      ds := Numeral(u, 16);
      NumeralValue(u, 16);
      ShowsHex(n, u);
      HexComesBack(n);
    } else {
      var x := Wrap32(n);
      neg, u := x < 0, Abs(x);
      ds := Numeral(u, 10);
      NumeralValue(u, 10);
      ShowsDec(n, x, u);
      MagnitudeWraps(n, x, u);
    }
  }

  /** A number is scanned back from the text that shows it. */
  lemma ScansNumber(hex: bool, n: int, tail: string)
    requires tail == "" || DigitOf(tail[0], if hex then 16 else 10) < 0
    ensures ScanNumber(Shows(hex, n) + tail, if hex then 16 else 10) == (Wrap32(n), tail)
  {
    var neg, ds, u := ShowsNumber(hex, n);
    ScansText(neg, ds, u, if hex then 16 else 10, tail);
  }

  lemma ShowsNoSpace(hex: bool, n: int)
    ensures Shows(hex, n) != "" && !IsSpace(Shows(hex, n)[0])
  {
    if hex {
      NumeralValue(n % TWO_32, 16);
      DigitIsNoSpace(Numeral(n % TWO_32, 16), 16);
    } else {
      var ds := Numeral(Abs(Wrap32(n)), 10);
      NumeralValue(Abs(Wrap32(n)), 10);
      DigitIsNoSpace(ds, 10);
      assert "" + ds == ds && ("-" + ds)[0] == '-';
    }
  }

  lemma SkipTwice(t: string)
    ensures SkipSpaces(SkipSpaces(t)) == SkipSpaces(t)
  {}

  lemma DirectiveStep(fmt: string, rest: string, t: string, v: int, tail: string)
    requires |fmt| >= 2 && fmt[0] == '%' && (fmt[1] == 'd' || fmt[1] == 'x') && rest == fmt[2..]
    requires ScanNumber(t, if fmt[1] == 'd' then 10 else 16) == (v, tail)
    ensures DoscanSpec(fmt, t) == Then([v], 1, DoscanSpec(rest, tail))
  {
    var u := fmt[1..];
    assert u[0] == fmt[1] && u[1..] == rest;
    assert Directives(u, t, false) == Then([v], 1, DoscanSpec(rest, tail));
  }

  lemma DirectiveScans(hex: bool, fmt: string, n: int, tail: string)
    requires tail == "" || DigitOf(tail[0], if hex then 16 else 10) < 0
    ensures DoscanSpec(['%', if hex then 'x' else 'd'] + fmt, Shows(hex, n) + tail)
      == Then([Wrap32(n)], 1, DoscanSpec(fmt, tail))
  {
    var f := ['%', if hex then 'x' else 'd'] + fmt;
    assert f[0] == '%' && f[1] == (if hex then 'x' else 'd') && f[2..] == fmt;
    ScansNumber(hex, n, tail);
    DirectiveStep(f, fmt, Shows(hex, n) + tail, Wrap32(n), tail);
  }

  lemma NumberNotSkipped(hex: bool, n: int, tail: string)
    ensures SkipSpaces(Shows(hex, n) + tail) == Shows(hex, n) + tail
  {
    ShowsNoSpace(hex, n);
    assert (Shows(hex, n) + tail)[0] == Shows(hex, n)[0];
  }

  lemma NumberScans(hex: bool, fmt: string, n: int, tail: string, stored: seq<int>, skipped: bool)
    requires tail == "" || DigitOf(tail[0], if hex then 16 else 10) < 0
    requires DoscanSpec(fmt, tail) == Some(Scan(stored, |stored|))
    ensures var text := Shows(hex, n) + tail;
      DoscanSpec(['%', if hex then 'x' else 'd'] + fmt, if skipped then SkipSpaces(text) else text)
        == Some(Scan([Wrap32(n)] + stored, 1 + |stored|))
  {
    NumberNotSkipped(hex, n, tail);
    DirectiveScans(hex, fmt, n, tail);
  }

  lemma LiteralScans(c: char, fmt: string, tail: string, skipped: bool)
    requires c != '%' && c != NUL
    ensures DoscanSpec([c] + fmt, if skipped then SkipSpaces([c] + tail) else [c] + tail)
      == DoscanSpec(fmt, if IsSpace(c) then SkipSpaces(tail) else tail)
  {
    var f, t := [c] + fmt, [c] + tail;
    assert f[0] == c && f[1..] == fmt && t[0] == c && t[1..] == tail;
    if IsSpace(c) {
      assert SkipSpaces(t) == SkipSpaces(tail);
      SkipTwice(t);
    } else {
      assert SkipSpaces(t) == t;
    }
  }

  /** White space in the format may already have skipped white space that later items wrote. */
  lemma {:induction false} ScanRendered(items: seq<Item>, ns: seq<int>, skipped: bool, text: string)
    requires Literals(items) && |ns| == Slots(items) && Separated(items, ns) && text == Render(items, ns)
    ensures DoscanSpec(FormatOf(items), if skipped then SkipSpaces(text) else text)
      == Some(Scan(Longs32(ns), |ns|))
  {
    if items != [] {
      var items1 := items[1..];
      var fmt := FormatOf(items1);
      if items[0].Literally? {
        var c, tail := items[0].c, Render(items1, ns);
        ScanRendered(items1, ns, IsSpace(c), tail);
        LiteralScans(c, fmt, tail, skipped);
      } else {
        var ns1 := ns[1..];
        var tail := Render(items1, ns1);
        ScanRendered(items1, ns1, false, tail);
        NumberScans(items[0].Hex?, fmt, ns[0], tail, Longs32(ns1), skipped);
      }
    }
  }

  /** The numbers come back, each as a 32-bit `int`, and are counted. */
  predicate ComesBack(items: seq<Item>, ns: seq<int>)
    requires |ns| == Slots(items)
  {
    var out := DoprntSpec(FormatOf(items), ArgsOf(ns));
    out.Some? && DoscanSpec(FormatOf(items), out.value) == Some(Scan(Longs32(ns), |ns|))
  }

  /** `sscanf` of what `sprintf` wrote under the same format of literals, `%d` and `%x` gives back
      any arguments whose text stands apart from what follows. */
  lemma ScanOfPrint(items: seq<Item>, ns: seq<int>)
    requires Literals(items) && |ns| == Slots(items) && Separated(items, ns)
    ensures ComesBack(items, ns)
  {
    SprintfRenders(items, ns);
    ScanRendered(items, ns, false, Render(items, ns));
  }

  // ---------------------------------------------------------------------------
  // Which formats give everything back?
  // ---------------------------------------------------------------------------

  function BaseOf(item: Item): int {
    if item.Hex? then 16 else 10
  }

  /** Number `item`, followed by `rest`, could take in a digit of what follows. */
  predicate Touches(item: Item, rest: seq<Item>) {
    !item.Literally? && rest != [] && (rest[0].Literally? ==> DigitOf(rest[0].c, BaseOf(item)) >= 0)
  }

  /** No number conversion directly before another one or before a literal digit of its base. */
  predicate Spaced(items: seq<Item>) {
    items == [] || (!Touches(items[0], items[1..]) && Spaced(items[1..]))
  }

  lemma {:induction false} SpacedSeparates(items: seq<Item>, ns: seq<int>)
    requires |ns| == Slots(items) && Spaced(items)
    ensures Separated(items, ns)
  {
    if items != [] {
      SpacedSeparates(items[1..], if items[0].Literally? then ns else ns[1..]);
    }
  }

  function Zeros(n: nat): (ns: seq<int>)
    ensures |ns| == n && forall i :: 0 <= i < n ==> ns[i] == 0
  {
    if n == 0 then [] else [0] + Zeros(n - 1)
  }

  lemma Horner(d: int, p: int, v: int, base: int, e: int)
    ensures (d * p + v) * base + e == d * (base * p) + (v * base + e)
  {
    assert d * p * base == d * (base * p);
  }

  lemma {:induction false} ValueOfCons(c: char, ds: string, base: nat)
    ensures Value([c] + ds, base) == DigitOf(c, base) * Pow(base, |ds|) + Value(ds, base)
  {
    var d, n := DigitOf(c, base), |ds| - 1;
    if ds == "" {
      ValueOfSnoc("", c, base);
      assert [c] + ds == "" + [c];
    } else {
      var front, z := ds[..n], ds[n];
      ValueOfCons(c, front, base);
      ConsAndSnoc(c, front, z, base);
      assert ds == front + [z];
      Horner(d, Pow(base, n), Value(front, base), base, DigitOf(z, base));
    }
  }

  lemma ConsAndSnoc(c: char, front: string, z: char, base: int)
    ensures Value(front + [z], base) == Value(front, base) * base + DigitOf(z, base)
    ensures Value([c] + (front + [z]), base) == Value([c] + front, base) * base + DigitOf(z, base)
  {
    ValueOfSnoc(front, z, base);
    ValueOfSnoc([c] + front, z, base);
    assert [c] + (front + [z]) == ([c] + front) + [z];
  }

  lemma PowEven(base: nat, k: nat)
    requires (base == 10 || base == 16) && k > 0
    ensures Pow(base, k) % 2 == 0
  {
    var p := Pow(base, k - 1);
    assert Pow(base, k) == base * p;
    if base == 10 { assert 10 * p == 2 * (5 * p); } else { assert 16 * p == 2 * (8 * p); }
  }

  /** The same digits behind a 0 and behind a 1 cannot both leave it as it was. */
  lemma NotBothKept(l: int, p: nat) returns (d: nat)
    requires p % 2 == 0
    ensures d < 2 && Wrap32(if d == 0 then l else p + l) != Wrap32(d)
  {
    d := if Wrap32(l) != 0 then 0 else 1;
  }

  lemma DigitsOfRun(c: char, tail: string, base: nat, k: nat, d: int)
    requires d == DigitOf(c, base) >= 0 && k == Span(tail, base)
    ensures Digits([c] + tail, base).0 == d * Pow(base, k) + Value(tail[..k], base)
  {
    var t := [c] + tail;
    assert t[0] == c && t[1..] == tail;
    assert t[..k + 1] == [c] + tail[..k];
    ValueOfCons(c, tail[..k], base);
  }

  lemma ScansUnsigned(t: string, base: int, v: int)
    requires CharAt(t, 0) != '-' && Digits(t, base).0 == v
    ensures ScanNumber(t, base).0 == Wrap32(v)
  {}

  lemma ScansRun(c: char, d: nat, tail: string, base: nat, k: nat, p: int, l: int)
    requires c != '-' && DigitOf(c, base) == d < 2 && k == Span(tail, base)
    requires p == Pow(base, k) && l == Value(tail[..k], base)
    ensures ScanNumber([c] + tail, base).0 == Wrap32(if d == 0 then l else p + l)
  {
    DigitsOfRun(c, tail, base, k, d);
    BitTimes(d, p);
    ScansUnsigned([c] + tail, base, if d == 0 then l else p + l);
  }

  lemma BitTimes(d: nat, p: nat)
    requires d < 2
    ensures d * p == if d == 0 then 0 else p
  {}

  lemma ShowsBit(hex: bool, d: nat)
    requires d < 2
    ensures Shows(hex, d) == [DigitChar(d)]
  {}

  lemma RunFailsIn(tail: string, base: nat) returns (d: nat)
    requires base == 10 || base == 16
    requires tail != "" && DigitOf(tail[0], base) >= 0
    ensures d < 2 && ScanNumber([DigitChar(d)] + tail, base).0 != Wrap32(d)
  {
    var k := Span(tail, base);
    var l, p := Value(tail[..k], base), Pow(base, k);
    PowEven(base, k);
    d := NotBothKept(l, p);
    DigitCharIsDigit(d, base);
    ScansRun(DigitChar(d), d, tail, base, k, p, l);
  }

  /** 0 or 1 in front of a digit does not come back. */
  lemma RunFails(hex: bool, tail: string) returns (d: nat)
    requires tail != "" && DigitOf(tail[0], if hex then 16 else 10) >= 0
    ensures d < 2 && ScanNumber(Shows(hex, d) + tail, if hex then 16 else 10).0 != Wrap32(d)
  {
    d := RunFailsIn(tail, if hex then 16 else 10);
    ShowsBit(hex, d);
  }

  lemma WrongFirst(v: int, w: int, r: Option<Scan>, stored: seq<int>, count: nat)
    requires v != w
    ensures Then([v], 1, r) != Some(Scan([w] + stored, count))
  {
    if r.Some? { assert ([v] + r.value.stored)[0] == v && ([w] + stored)[0] == w; }
  }

  lemma WrongNumberFails(hex: bool, fmt: string, n: int, tail: string, skipped: bool, stored: seq<int>, count: nat)
    requires ScanNumber(Shows(hex, n) + tail, if hex then 16 else 10).0 != Wrap32(n)
    ensures var text := Shows(hex, n) + tail;
      DoscanSpec(['%', if hex then 'x' else 'd'] + fmt, if skipped then SkipSpaces(text) else text)
        != Some(Scan([Wrap32(n)] + stored, count))
  {
    var text, f := Shows(hex, n) + tail, ['%', if hex then 'x' else 'd'] + fmt;
    NumberNotSkipped(hex, n, tail);
    assert f[0] == '%' && f[1] == (if hex then 'x' else 'd') && f[2..] == fmt;
    var (v, rest) := ScanNumber(text, if hex then 16 else 10);
    DirectiveStep(f, fmt, text, v, rest);
    WrongFirst(v, Wrap32(n), DoscanSpec(fmt, rest), stored, count);
  }

  lemma WrongLater(v: int, r: Option<Scan>, stored: seq<int>, count: nat)
    requires r != Some(Scan(stored, count))
    ensures Then([v], 1, r) != Some(Scan([v] + stored, 1 + count))
  {
    if r.Some? { assert ([v] + r.value.stored)[1..] == r.value.stored && ([v] + stored)[1..] == stored; }
  }

  lemma LaterFailure(hex: bool, fmt: string, n: int, tail: string, skipped: bool, stored: seq<int>)
    requires tail == "" || DigitOf(tail[0], if hex then 16 else 10) < 0
    requires DoscanSpec(fmt, tail) != Some(Scan(stored, |stored|))
    ensures var text := Shows(hex, n) + tail;
      DoscanSpec(['%', if hex then 'x' else 'd'] + fmt, if skipped then SkipSpaces(text) else text)
        != Some(Scan([Wrap32(n)] + stored, 1 + |stored|))
  {
    NumberNotSkipped(hex, n, tail);
    DirectiveScans(hex, fmt, n, tail);
    WrongLater(Wrap32(n), DoscanSpec(fmt, tail), stored, |stored|);
  }

  /** What the text of the rest of a format starts with. */
  lemma FirstOfRest(item: Item, rest: seq<Item>, ns: seq<int>)
    requires !item.Literally? && |ns| == Slots(rest)
    requires Touches(item, rest) ==> forall i :: 0 <= i < |ns| ==> ns[i] == 0
    ensures var tail := Render(rest, ns);
      if Touches(item, rest) then tail != "" && DigitOf(tail[0], BaseOf(item)) >= 0
      else tail == "" || DigitOf(tail[0], BaseOf(item)) < 0
  {
    if rest != [] && !rest[0].Literally? { ShowsBit(rest[0].Hex?, 0); }
  }

  /** Under a format that is not spaced, some arguments do not come back. */
  lemma {:induction false} UnspacedFails(items: seq<Item>, skipped: bool) returns (ns: seq<int>)
    requires Literals(items) && !Spaced(items)
    ensures |ns| == Slots(items)
    ensures var text := Render(items, ns);
      DoscanSpec(FormatOf(items), if skipped then SkipSpaces(text) else text) != Some(Scan(Longs32(ns), |ns|))
  {
    var rest := items[1..];
    var fmt := FormatOf(rest);
    if items[0].Literally? {
      ns := UnspacedFails(rest, IsSpace(items[0].c));
      LiteralScans(items[0].c, fmt, Render(rest, ns), skipped);
    } else if Touches(items[0], rest) {
      var ms := Zeros(Slots(rest));
      var tail := Render(rest, ms);
      FirstOfRest(items[0], rest, ms);
      var d := RunFails(items[0].Hex?, tail);
      ns := [d] + ms;
      assert ns[1..] == ms;
      WrongNumberFails(items[0].Hex?, fmt, d, tail, skipped, Longs32(ms), |ns|);
    } else {
      var ms := UnspacedFails(rest, false);
      FirstOfRest(items[0], rest, ms);
      ns := [0] + ms;
      assert ns[1..] == ms;
      LaterFailure(items[0].Hex?, fmt, 0, Render(rest, ms), skipped, Longs32(ms));
    }
  }

  /** The formats under which `sscanf` gives back all that `sprintf` was given, whatever it was, are
      exactly those in which no number is directly followed by another or by a digit of its base. */
  lemma FormatRoundTripsIff(items: seq<Item>)
    requires Literals(items)
    ensures (forall ns: seq<int> :: |ns| == Slots(items) ==> ComesBack(items, ns)) <==> Spaced(items)
  {
    if Spaced(items) {
      forall ns: seq<int> | |ns| == Slots(items) ensures ComesBack(items, ns) {
        SpacedSeparates(items, ns);
        ScanOfPrint(items, ns);
      }
    } else {
      var ns := UnspacedFails(items, false);
      SprintfRenders(items, ns);
      assert !ComesBack(items, ns);
    }
  }

  lemma ZeroAndSeven()
    ensures Shows(false, 0) == "0" && Shows(false, 7) == "7"
  {
    assert Wrap32(0) == 0 && Wrap32(7) == 7;
    assert Numeral(0, 10) == [DigitChar(0)] && Numeral(7, 10) == [DigitChar(7)];
    assert "" + "0" == "0" && "" + "7" == "7";
  }

  lemma PrintsTouching()
    ensures DoprntSpec("%d%d", [Num(0), Num(7)]) == Some("07")
  {
    ZeroAndSeven();
    PrintsNumber(false, "", 7, []);
    PrintsNumber(false, "%d", 0, [Num(7)]);
    assert ['%', 'd'] + "" == "%d" && ['%', 'd'] + "%d" == "%d%d";
    assert [Num(7)] + [] == [Num(7)] && [Num(0)] + [Num(7)] == [Num(0), Num(7)];
    assert DoprntSpec("", []) == Some("") && "7" + "" == "7" && "0" + "7" == "07";
  }

  lemma ZeroSevenIsSeven()
    ensures Value("07", 10) == 7 && AreDigits("07", 10)
  {
    ValueOfSnoc("0", '7', 10);
    ValueOfSnoc("", '0', 10);
    assert "" + ['0'] == "0" && "0" + ['7'] == "07";
  }

  lemma ScansNothing()
    ensures DoscanSpec("%d", "") == Some(Scan([0], 1))
  {
    assert ""[..0] == "" && ""[0..] == "" && Digits("", 10) == (0, "");
    DirectiveStep("%d", "", "", 0, "");
    assert DoscanSpec("", "") == Some(Scan([], 0)) && [0] + [] == [0];
  }

  lemma ScansTouching()
    ensures DoscanSpec("%d%d", "07") == Some(Scan([7, 0], 2))
  {
    ZeroSevenIsSeven();
    ScansDigits("07", 7, 10, "");
    assert "07" + "" == "07" && "%d%d"[2..] == "%d";
    DirectiveStep("%d%d", "%d", "07", 7, "");
    ScansNothing();
    assert [7] + [0] == [7, 0];
  }

  /** Numbers that touch run together: 0 and 7 printed under `%d%d` come out as `07`, which scans as
      7 and then, from nothing, 0. */
  lemma TouchingNumbersRunTogether()
    ensures DoprntSpec("%d%d", [Num(0), Num(7)]) == Some("07")
    ensures DoscanSpec("%d%d", "07") == Some(Scan([7, 0], 2))
  {
    PrintsTouching();
    ScansTouching();
  }
}
