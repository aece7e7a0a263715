/** What `_doprnt` reads off a directive, for every directive there is, and what some whole formats
    print. */
module Formats {
  import opened Config
  import opened Numerals
  import opened Strtol
  import opened Doprnt
  import opened RoundTrip

  // ---------------------------------------------------------------------------
  // The parts of a directive
  // ---------------------------------------------------------------------------

  predicate IsFlag(c: char) {
    c == '#' || c == '-' || c == '+' || c == ' '
  }

  predicate AreFlags(fs: string) {
    forall i :: 0 <= i < |fs| ==> IsFlag(fs[i])
  }

  /** A width or a precision: none, a number, or an argument. */
  datatype Amount = Absent | Given(n: nat) | Star

  /** A character that can stand behind width, precision and `l`s. */
  predicate Converts(c: char) {
    !IsFlag(c) && !IsDigit(c) && c != '*' && c != '.' && c != 'l'
  }

  function AmountText(w: Amount): string {
    match w
    case Absent => ""
    case Given(n) => Numeral(n, 10)
    case Star => "*"
  }

  /** A point alone is a precision too. */
  function PrecisionText(point: bool, p: Amount): string {
    if point then "." + AmountText(p) else ""
  }

  function Ls(k: nat): string {
    if k == 0 then "" else "l" + Ls(k - 1)
  }

  /** A directive behind its `%`, with what follows it. */
  function DirectiveText(fs: string, zero: bool, w: Amount, point: bool, p: Amount, k: nat, rest: string): string {
    fs + ((if zero then "0" else "") + (AmountText(w) + (PrecisionText(point, p) + (Ls(k) + rest))))
  }

  /** The sign flag: a plus wins over a blank. */
  function PlusOf(fs: string): char {
    if '+' in fs then '+' else if ' ' in fs then ' ' else NUL
  }

  // ---------------------------------------------------------------------------
  // Reading the parts
  // ---------------------------------------------------------------------------

  function Flagged(d: Directive, fs: string): Directive {
    d.(alt := d.alt || '#' in fs,
       left := d.left || '-' in fs,
       plus := if '+' in fs then '+' else if d.plus == NUL && ' ' in fs then ' ' else d.plus)
  }

  lemma {:induction false} FlagsRead(fs: string, t: string, d: Directive)
    requires AreFlags(fs) && (t == "" || !IsFlag(t[0]))
    ensures Flags(fs + t, d) == (Flagged(d, fs), t)
  {
    if fs == "" {
      assert fs + t == t;
    } else {
      var c, rest := fs[0], fs[1..];
      assert IsFlag(c) && fs == [c] + rest;
      assert (fs + t)[0] == c && (fs + t)[1..] == rest + t;
      FlagsRead(rest, t, OneFlag(d, c));
      FlagsCompose(d, c, rest);
    }
  }

  function OneFlag(d: Directive, c: char): Directive {
    if c == '#' then d.(alt := true)
    else if c == '-' then d.(left := true)
    else if c == '+' then d.(plus := '+')
    else if d.plus == NUL then d.(plus := ' ')
    else d
  }

  lemma FlagsCompose(d: Directive, c: char, rest: string)
    requires IsFlag(c)
    ensures Flagged(OneFlag(d, c), rest) == Flagged(d, [c] + rest)
  {
    assert forall x :: x in [c] + rest <==> x == c || x in rest;
  }

  /** What an argument does as a width: a negative one turns the adjustment around. */
  function WidthFrom(d: Directive, w: int): Directive {
    if w < 0 then d.(left := !d.left, length := -w) else d.(length := w)
  }

  function WithWidth(d: Directive, w: Amount, n: int): Directive {
    match w
    case Absent => d
    case Given(m) => d.(length := m)
    case Star => WidthFrom(d, Wrap32(n))
  }

  /** The arguments a star takes. */
  function Taken(w: Amount, n: int): seq<Arg> {
    if w == Star then [Num(n)] else []
  }

  lemma NumberInFrontOf(n: nat, rest: string)
    requires rest == "" || !IsDigit(rest[0])
    ensures var t := Numeral(n, 10) + rest;
      IsDigit(CharAt(t, 0)) && Value(t[..Span(t, 10)], 10) == n && t[Span(t, 10)..] == rest
  {
    var ds := Numeral(n, 10);
    NumeralValue(n, 10);
    assert DigitOf(ds[0], 10) >= 0;
    SpanOf(ds, rest, 10);
    assert (ds + rest)[..|ds|] == ds && (ds + rest)[|ds|..] == rest;
  }

  lemma TakesInt(n: int, args: seq<Arg>)
    ensures TakeInt([Num(n)] + args) == Some((Wrap32(n), args))
  {
    var all := [Num(n)] + args;
    assert all[0] == Num(n) && all[1..] == args;
  }

  lemma WidthRead(w: Amount, n: int, rest: string, d: Directive, args: seq<Arg>)
    requires rest != "" && !IsDigit(rest[0]) && rest[0] != '*'
    ensures Width(AmountText(w) + rest, d, Taken(w, n) + args) == Some((WithWidth(d, w, n), rest, args))
  {
    match w
    case Absent =>
      assert "" + rest == rest && [] + args == args;
    case Given(m) =>
      NumberInFrontOf(m, rest);
      assert [] + args == args;
    case Star =>
      assert ("*" + rest)[0] == '*' && ("*" + rest)[1..] == rest;
      TakesInt(n, args);
  }

  function WithPrecision(d: Directive, point: bool, p: Amount, n: int): Directive {
    if !point then d
    else
      match p
      case Absent => d
      case Given(m) => d.(prec := m)
      case Star => d.(prec := Wrap32(n))
  }

  function TakenByPrecision(point: bool, p: Amount, n: int): seq<Arg> {
    if point then Taken(p, n) else []
  }

  lemma BehindPoint(p: Amount, n: int, rest: string, d: Directive, args: seq<Arg>)
    requires rest != "" && !IsDigit(rest[0]) && rest[0] != '*'
    ensures Precision("." + (AmountText(p) + rest), d, Taken(p, n) + args)
      == Some((WithPrecision(d, true, p, n), rest, args))
  {
    var t := "." + (AmountText(p) + rest);
    assert t[0] == '.' && t[1..] == AmountText(p) + rest;
    match p
    case Absent =>
      assert "" + rest == rest && [] + args == args;
    case Given(m) =>
      NumberInFrontOf(m, rest);
      assert [] + args == args;
    case Star =>
      assert ("*" + rest)[0] == '*' && ("*" + rest)[1..] == rest;
      TakesInt(n, args);
  }

  lemma {:induction false} PrecisionRead(point: bool, p: Amount, n: int, rest: string, d: Directive, args: seq<Arg>)
    requires rest != "" && !IsDigit(rest[0]) && rest[0] != '*' && rest[0] != '.'
    ensures Precision(PrecisionText(point, p) + rest, d, TakenByPrecision(point, p, n) + args)
      == Some((WithPrecision(d, point, p, n), rest, args))
  {
    if point {
      BehindPoint(p, n, rest, d, args);
      Regroup(".", AmountText(p), rest);
    } else {
      assert "" + rest == rest && [] + args == args;
    }
  }

  lemma {:induction false} LongsRead(k: nat, rest: string, d: Directive)
    requires rest == "" || rest[0] != 'l'
    ensures Longs(Ls(k) + rest, d) == (d.(longs := d.longs + k), rest)
  {
    if k == 0 {
      assert "" + rest == rest;
    } else {
      var t := Ls(k) + rest;
      assert t[0] == 'l' && t[1..] == Ls(k - 1) + rest;
      LongsRead(k - 1, rest, d.(longs := d.longs + 1));
    }
  }

  // ---------------------------------------------------------------------------
  // The whole directive
  // ---------------------------------------------------------------------------

  /** What each part of a directive starts with, so that it is not taken for more of the part before. */
  lemma Starts(zero: bool, w: Amount, point: bool, p: Amount, k: nat, rest: string)
    requires rest != "" && Converts(rest[0]) && (zero || w != Given(0))
    ensures var t4 := Ls(k) + rest; t4 != "" && !IsDigit(t4[0]) && t4[0] != '*' && t4[0] != '.' && !IsFlag(t4[0])
    ensures var t3 := PrecisionText(point, p) + (Ls(k) + rest); t3 != "" && !IsDigit(t3[0]) && t3[0] != '*' && !IsFlag(t3[0])
  {
    var t4 := Ls(k) + rest;
    assert k > 0 ==> Ls(k)[0] == 'l';
    assert t4[0] == if k > 0 then 'l' else rest[0];
    var t3 := PrecisionText(point, p) + t4;
    assert t3[0] == if point then '.' else t4[0];
  }

  lemma StartsWidth(w: Amount, t3: string)
    requires t3 != "" && !IsDigit(t3[0]) && !IsFlag(t3[0])
    ensures var t2 := AmountText(w) + t3; t2 != "" && !IsFlag(t2[0]) && (w != Given(0) ==> t2[0] != '0')
  {
    var t2 := AmountText(w) + t3;
    match w
    case Absent => assert t2 == t3;
    case Given(n) =>
      NumeralValue(n, 10);
      assert t2[0] == Numeral(n, 10)[0] && DigitOf(Numeral(n, 10)[0], 10) >= 0;
    case Star => assert t2[0] == '*';
  }

  lemma ZeroRead(zero: bool, t2: string, d: Directive)
    requires t2 != "" && (zero || t2[0] != '0') && !IsFlag(t2[0])
    ensures var t1 := (if zero then "0" else "") + t2;
      ZeroFlag(t1, d) == (d.(zero := d.zero || zero), t2) && t1 != "" && !IsFlag(t1[0])
  {
    assert ("0" + t2)[0] == '0' && ("0" + t2)[1..] == t2 && "" + t2 == t2;
  }

  lemma ParsedBy(t: string, args: seq<Arg>, d1: Directive, t1: string, d2: Directive, t2: string, d3: Directive,
      t3: string, args3: seq<Arg>, d4: Directive, t4: string, args4: seq<Arg>)
    requires Flags(t, PLAIN) == (d1, t1) && ZeroFlag(t1, d1) == (d2, t2)
    requires Width(t2, d2, args) == Some((d3, t3, args3)) && Precision(t3, d3, args3) == Some((d4, t4, args4))
    ensures var (d5, t5) := Longs(t4, d4); ParseDirective(t, args) == Some((d5, t5, args4))
  {}

  lemma {:induction false} FrontRead(fs: string, zero: bool, t2: string, d1: Directive, d2: Directive, t1: string)
    requires AreFlags(fs) && t2 != "" && (zero || t2[0] != '0') && !IsFlag(t2[0])
    requires t1 == (if zero then "0" else "") + t2 && d1 == Flagged(PLAIN, fs) && d2 == d1.(zero := zero)
    ensures Flags(fs + t1, PLAIN) == (d1, t1) && ZeroFlag(t1, d1) == (d2, t2)
  {
    ZeroRead(zero, t2, d1);
    FlagsRead(fs, t1, PLAIN);
  }

  lemma FoundIs(fs: string, zero: bool, w: Amount, m: int, point: bool, p: Amount, n: int, k: nat)
    ensures var d3 := WithWidth(Flagged(PLAIN, fs).(zero := zero), w, m);
      Found(fs, zero, w, m, point, p, n, k) == WithPrecision(d3, point, p, n).(longs := k)
  {}

  lemma {:induction false} PartsCompose(fs: string, zero: bool, k: nat, rest: string, all: seq<Arg>, args: seq<Arg>,
      d2: Directive, t2: string, d3: Directive, t3: string, args3: seq<Arg>, d4: Directive, t4: string)
    requires AreFlags(fs) && t2 != "" && (zero || t2[0] != '0') && !IsFlag(t2[0])
    requires d2 == Flagged(PLAIN, fs).(zero := zero)
    requires Width(t2, d2, all) == Some((d3, t3, args3)) && Precision(t3, d3, args3) == Some((d4, t4, args))
    requires t4 == Ls(k) + rest && rest != "" && Converts(rest[0]) && d4.longs == 0
    ensures ParseDirective(fs + ((if zero then "0" else "") + t2), all) == Some((d4.(longs := k), rest, args))
  {
    var t1, d1 := (if zero then "0" else "") + t2, Flagged(PLAIN, fs);
    FrontRead(fs, zero, t2, d1, d2, t1);
    LongsRead(k, rest, d4);
    ParsedBy(fs + t1, all, d1, t1, d2, t2, d3, t3, args3, d4, t4, args);
  }

  /** Everything `ParseDirective` finds in a directive: `m` and `n` are the arguments for the stars of width
      and precision, `args` those left over. */
  lemma {:induction false} DirectiveReads(
    fs: string, zero: bool, w: Amount, m: int, point: bool, p: Amount, n: int, k: nat, rest: string, args: seq<Arg>)
    requires AreFlags(fs) && rest != "" && Converts(rest[0]) && (zero || w != Given(0))
    ensures ParseDirective(DirectiveText(fs, zero, w, point, p, k, rest), Taken(w, m) + (TakenByPrecision(point, p, n) + args))
      == Some((Found(fs, zero, w, m, point, p, n, k), rest, args))
  {
    var t4 := Ls(k) + rest;
    var t3 := PrecisionText(point, p) + t4;
    var args3, d2 := TakenByPrecision(point, p, n) + args, Flagged(PLAIN, fs).(zero := zero);
    Starts(zero, w, point, p, k, rest);
    StartsWidth(w, t3);
    WidthRead(w, m, t3, d2, args3);
    var d3 := WithWidth(d2, w, m);
    PrecisionRead(point, p, n, t4, d3, args);
    var d4 := WithPrecision(d3, point, p, n);
    PartsCompose(fs, zero, k, rest, Taken(w, m) + args3, args, d2, AmountText(w) + t3, d3, t3, args3, d4, t4);
    FoundIs(fs, zero, w, m, point, p, n, k);
  }

  /** The directive written by its parts. */
  function Found(fs: string, zero: bool, w: Amount, m: int, point: bool, p: Amount, n: int, k: nat): Directive {
    var width := match w case Absent => 0 case Given(v) => v case Star => Wrap32(m);
    Directive(
      '#' in fs,
      ('-' in fs) != (width < 0),
      PlusOf(fs),
      zero,
      Abs(width),
      if !point then -1 else match p case Absent => -1 case Given(v) => v case Star => Wrap32(n),
      k)
  }

  // ---------------------------------------------------------------------------
  // Whole formats
  // ---------------------------------------------------------------------------

  /** One directive, with its arguments, in front of the rest of a format. */
  lemma {:induction false} PrintsDirective(fs: string, zero: bool, w: Amount, m: int, point: bool, p: Amount, n: int,
      k: nat, c: char, t: string, args: seq<Arg>, out: string, args2: seq<Arg>)
    requires AreFlags(fs) && Converts(c) && c != NUL && (zero || w != Given(0))
    requires Convert(Found(fs, zero, w, m, point, p, n, k), c, args) == Some((out, args2))
    ensures DoprntSpec("%" + DirectiveText(fs, zero, w, point, p, k, [c] + t),
        Taken(w, m) + (TakenByPrecision(point, p, n) + args))
      == Prepend(out, DoprntSpec(t, args2))
  {
    var u := DirectiveText(fs, zero, w, point, p, k, [c] + t);
    DirectiveReads(fs, zero, w, m, point, p, n, k, [c] + t, args);
    assert ("%" + u)[0] == '%' && ("%" + u)[1..] == u;
    assert ([c] + t)[0] == c && ([c] + t)[1..] == t;
  }

  /** A format of one directive without stars and without precision. */
  function Simple(fs: string, zero: bool, w: Amount, k: nat, c: char): string {
    "%" + DirectiveText(fs, zero, w, false, Absent, k, [c])
  }

  lemma {:induction false} PrintsSimple(fs: string, zero: bool, w: Amount, k: nat, c: char, arg: Arg, d: Directive, out: string)
    requires AreFlags(fs) && Converts(c) && c != NUL && w != Star && (zero || w != Given(0))
    requires d == Found(fs, zero, w, 0, false, Absent, 0, k) && Convert(d, c, [arg]) == Some((out, []))
    ensures DoprntSpec(Simple(fs, zero, w, k, c), [arg]) == Some(out)
  {
    PrintsDirective(fs, zero, w, 0, false, Absent, 0, k, c, "", [arg], out, []);
    assert [c] + "" == [c] && [] + ([] + [arg]) == [arg] && out + "" == out;
  }

  predicate AreBlanks(s: string) {
    forall i :: 0 <= i < |s| ==> s[i] == ' '
  }

  /** The conversions that print an unsigned number, and their bases. */
  predicate Unsigns(c: char, base: nat) {
    ((c == 'o' || c == 'O') && base == 8) || ((c == 'u' || c == 'U') && base == 10)
    || ((c == 'x' || c == 'X') && base == 16)
  }

  /** Those that print a signed one. */
  predicate Signs(c: char, base: nat) {
    ((c == 'd' || c == 'D') && base == 10) || ((c == 'z' || c == 'Z') && base == 16)
  }

  lemma ConvertsNumber(d: Directive, c: char, n: int, base: nat)
    requires Unsigns(c, base) || Signs(c, base)
    ensures Convert(d, c, [Num(n)])
      == Some((if Signs(c, base) then SignedText(d, n, base) else UnsignedText(d, n, base), []))
    ensures Converts(c) && c != NUL
  {
    NumberConverts(d, c, n);
  }

  /** Under any flags, width and number of `l`s below two, an unsigned number comes back from `strtoul` in
      the base of its conversion, and only blanks are left over. */
  lemma {:induction false} UnsignedComesBack(fs: string, zero: bool, w: Amount, k: nat, c: char, base: nat, n: int)
    returns (out: string, blanks: string)
    requires AreFlags(fs) && w != Star && (zero || w != Given(0)) && Unsigns(c, base) && k <= 1
    ensures DoprntSpec(Simple(fs, zero, w, k, c), [Num(n)]) == Some(out)
    ensures StrtoulSpec(out, base) == (n % TWO_32, blanks) && AreBlanks(blanks)
    ensures '-' !in fs || zero ==> blanks == ""
  {
    var d := Found(fs, zero, w, 0, false, Absent, 0, k);
    out, blanks := UnsignedText(d, n, base), Behind(d, "", Unsigned(n, k), base);
    ConvertsNumber(d, c, n, base);
    PrintsSimple(fs, zero, w, k, c, Num(n), d, out);
    StrtoulOfUnsignedIff(d, Unsigned(n, k), base);
  }

  /** The same for signed numbers and `strtol`, if and only if no plus sign is printed. */
  lemma {:induction false} SignedComesBackIff(fs: string, zero: bool, w: Amount, k: nat, c: char, base: nat, n: int)
    returns (out: string, blanks: string)
    requires AreFlags(fs) && w != Star && (zero || w != Given(0)) && Signs(c, base) && k <= 1
    ensures DoprntSpec(Simple(fs, zero, w, k, c), [Num(n)]) == Some(out)
    ensures StrtolSpec(out, base) == (Wrap32(n), blanks) <==> '+' !in fs || Wrap32(n) < 0
    ensures AreBlanks(blanks) && ('-' !in fs || zero ==> blanks == "")
  {
    var d, x := Found(fs, zero, w, 0, false, Absent, 0, k), Wrap32(n);
    out, blanks := SignedText(d, n, base), Behind(d, SignOf(x, d.plus), Abs(x), base);
    ConvertsNumber(d, c, n, base);
    PrintsSimple(fs, zero, w, k, c, Num(n), d, out);
    StrtolOfSignedIff(d, n, base);
  }

  lemma {:induction false} NumeralLengthHex(u: nat, k: nat)
    requires k > 0 && u < Pow(16, k)
    ensures |Numeral(u, 16)| <= k
  {
    if u >= 16 {
      assert Pow(16, k) == 16 * Pow(16, k - 1);
      assert k > 1;
      NumeralLengthHex(u / 16, k - 1);
    }
  }

  lemma {:induction false} ZeroField(d: Directive, u: nat, base: nat)
    requires PrintedBase(base) && d.zero && !d.alt
    ensures Field(d, "", u, base) == Repeat('0', d.length - |Numeral(u, base)|) + Numeral(u, base)
  {
    JustDigits(Repeat('0', d.length - |Numeral(u, base)|), Numeral(u, base));
  }

  lemma JustDigits(zeros: string, ds: string)
    ensures "" + ("" + ("" + (zeros + (ds + "")))) == zeros + ds
  {}

  lemma {:induction false} ZeroPaddedText(d: Directive, u: nat, base: nat, out: string)
    requires PrintedBase(base) && d.zero && !d.alt && out == Field(d, "", u, base)
    ensures AreDigits(out, base) && Value(out, base) == u
    ensures var need := |Numeral(u, base)|; |out| == if d.length > need then d.length else need
  {
    ZeroField(d, u, base);
    NumeralValue(u, base);
    PaddedDigits(Repeat('0', d.length - |Numeral(u, base)|), Numeral(u, base), base);
  }

  /** `%0<w>` with an unsigned conversion: nothing but digits, as many as the width asks for or the number
      needs, standing for the number. */
  lemma {:induction false} ZeroPadded(w: nat, c: char, base: nat, n: int, u: nat) returns (out: string)
    requires Unsigns(c, base) && u == n % TWO_32
    ensures DoprntSpec(Simple("", true, Given(w), 0, c), [Num(n)]) == Some(out)
    ensures AreDigits(out, base) && Value(out, base) == u
    ensures var need := |Numeral(u, base)|; |out| == if w > need then w else need
  {
    var d := Found("", true, Given(w), 0, false, Absent, 0, 0);
    out := UnsignedText(d, n, base);
    ConvertsNumber(d, c, n, base);
    PrintsSimple("", true, Given(w), 0, c, Num(n), d, out);
    ZeroPaddedText(d, u, base, out);
  }

  lemma NumeralOfDigit(d: nat)
    requires d < 10
    ensures Numeral(d, 10) == [DigitChar(d)]
  {}

  lemma SpelledOut()
    ensures Simple("", true, Given(8), 0, 'x') == "%08x"
    ensures Simple("", false, Absent, 1, 'u') == "%lu" && Simple("", false, Absent, 0, 'o') == "%o"
  {
    NumeralOfDigit(8);
    assert "" + ("0" + ("8" + ("" + ("" + "x")))) == "08x";
    assert Ls(0) == "" && Ls(1) == "l" && "" + ("" + ("" + ("" + ("l" + "u")))) == "lu";
    assert "" + ("" + ("" + ("" + ("" + "o")))) == "o";
  }

  lemma SixteenToTheEighth()
    ensures Pow(16, 8) == TWO_32
  {
    assert Pow(16, 2) == 256 && Pow(16, 4) == 0x1_0000 && Pow(16, 6) == 0x100_0000;
  }

  /** `%08x`: exactly eight hexadecimal digits. */
  lemma {:induction false} EightHexDigits(n: int, u: nat) returns (out: string)
    requires u == n % TWO_32
    ensures DoprntSpec("%08x", [Num(n)]) == Some(out)
    ensures |out| == 8 && AreDigits(out, 16) && Value(out, 16) == u
  {
    out := ZeroPadded(8, 'x', 16, n, u);
    SpelledOut();
    SixteenToTheEighth();
    NumeralLengthHex(u, 8);
  }

  /** `%lu` and `%o` come back from `strtoul` in bases 10 and 8. */
  lemma {:induction false} PlainUnsigned(n: int)
    ensures var out := DoprntSpec("%lu", [Num(n)]); out.Some? && StrtoulSpec(out.value, 10) == (n % TWO_32, "")
    ensures var out := DoprntSpec("%o", [Num(n)]); out.Some? && StrtoulSpec(out.value, 8) == (n % TWO_32, "")
  {
    var a, b := UnsignedComesBack("", false, Absent, 1, 'u', 10, n);
    SpelledOut();
    var e, f := UnsignedComesBack("", false, Absent, 0, 'o', 8, n);
  }

  // ---------------------------------------------------------------------------
  // Strings and characters
  // ---------------------------------------------------------------------------

  lemma {:induction false} CStringOfPlain(s: string)
    requires NUL !in s
    ensures CString(s) == s
  {
    if s != "" { CStringOfPlain(s[1..]); }
  }

  /** `%s` under a width: the text at the right end of its field, or at the left end under `-`. */
  lemma {:induction false} StringInField(fs: string, zero: bool, w: Amount, s: string) returns (blanks: string)
    requires AreFlags(fs) && w != Star && (zero || w != Given(0)) && NUL !in s && |s| <= MAXINT
    ensures DoprntSpec(Simple(fs, zero, w, 0, 's'), [Text(s)]) == Some(if '-' in fs then s + blanks else blanks + s)
    ensures AreBlanks(blanks) && |s + blanks| == if w.Given? && w.n > |s| then w.n else |s|
  {
    var d := Found(fs, zero, w, 0, false, Absent, 0, 0);
    blanks := Repeat(' ', d.length - |s|);
    StringField(d, s, blanks);
    ConvertsText(d, s);
    PrintsSimple(fs, zero, w, 0, 's', Text(s), d, StringText(d, s));
  }

  lemma {:induction false} StringField(d: Directive, s: string, blanks: string)
    requires d.prec == -1 && |s| <= MAXINT && blanks == Repeat(' ', d.length - |s|)
    ensures StringText(d, s) == if d.left then s + blanks else blanks + s
  {
    assert s[..|s|] == s && "" + s == s && (blanks + s) + "" == blanks + s;
  }

  lemma {:induction false} ConvertsText(d: Directive, s: string)
    requires NUL !in s
    ensures Convert(d, 's', [Text(s)]) == Some((StringText(d, s), []))
  {
    CStringOfPlain(s);
    assert [Text(s)][0] == Text(s) && [Text(s)][1..] == [];
  }

  /** `%.<p>s`: no more than `p` characters. */
  lemma {:induction false} StringCutOff(p: nat, s: string)
    requires NUL !in s
    ensures DoprntSpec("%" + DirectiveText("", false, Absent, true, Given(p), 0, "s"), [Text(s)])
      == Some(if p < |s| then s[..p] else s)
  {
    var d := Found("", false, Absent, 0, true, Given(p), 0, 0);
    ConvertsText(d, s);
    var out := StringText(d, s);
    assert s[..|s|] == s && out == if p < |s| then s[..p] else s;
    PrintsDirective("", false, Absent, 0, true, Given(p), 0, 0, 's', "", [Text(s)], out, []);
    assert "s" + "" == "s" && [] + ([] + [Text(s)]) == [Text(s)] && out + "" == out;
  }

  lemma ConvertsCharacter(d: Directive, c: char)
    requires c < 256 as char
    ensures Convert(d, 'c', [Num(c as int)]) == Some(([c], []))
  {
    var args := [Num(c as int)];
    assert args[0] == Num(c as int) && args[1..] == [];
  }

  /** `%c` prints a character of eight bits as it is, and `%%` a percent sign. */
  lemma CharacterAndPercent(c: char)
    requires c < 256 as char
    ensures DoprntSpec("%c", [Num(c as int)]) == Some([c])
    ensures DoprntSpec("%%", []) == Some("%")
  {
    ConvertsCharacter(Found("", false, Absent, 0, false, Absent, 0, 0), c);
    PrintsSimple("", false, Absent, 0, 'c', Num(c as int), Found("", false, Absent, 0, false, Absent, 0, 0), [c]);
    assert Simple("", false, Absent, 0, 'c') == "%c";
    var none: seq<Arg> := [];
    PrintsDirective("", false, Absent, 0, false, Absent, 0, 0, '%', "", none, "%", none);
    assert "%" + DirectiveText("", false, Absent, false, Absent, 0, "%") == "%%";
    assert "%" + "" == "%" && none + (none + none) == none;
  }

  lemma LonePercent()
    ensures DoprntSpec("%", []) == Some("") && DoprntSpec("%s", [NullText]) == Some("")
  {
    assert "%"[1..] == "";
    var d := Found("", false, Absent, 0, false, Absent, 0, 0);
    StringField(d, "", "");
    assert [NullText][0] == NullText && [NullText][1..] == [];
    assert "" + "" == "" && Convert(d, 's', [NullText]) == Some((StringText(d, ""), []));
    PrintsSimple("", false, Absent, 0, 's', NullText, d, "");
    assert Simple("", false, Absent, 0, 's') == "%s";
  }

  /** `%.*s`: an argument of -1 is no precision, and any other negative one shows nothing. */
  lemma {:induction false} StringCutByArgument(p: int, s: string)
    requires NUL !in s && Wrap32(p) == p && |s| <= MAXINT
    ensures DoprntSpec("%" + DirectiveText("", false, Absent, true, Star, 0, "s"), [Num(p), Text(s)])
      == Some(if p == -1 || p >= |s| then s else if p < 0 then "" else s[..p])
  {
    var d := Found("", false, Absent, 0, true, Star, p, 0);
    ConvertsText(d, s);
    var out := StringText(d, s);
    assert s[..|s|] == s && s[..0] == "" && out == if p == -1 || p >= |s| then s else if p < 0 then "" else s[..p];
    PrintsDirective("", false, Absent, 0, true, Star, p, 0, 's', "", [Text(s)], out, []);
    assert "s" + "" == "s" && [] + ([Num(p)] + [Text(s)]) == [Num(p), Text(s)] && out + "" == out;
  }

  // ---------------------------------------------------------------------------
  // Numbers of all widths
  // ---------------------------------------------------------------------------

  /** The range of `long` or, from two `l`s on, of `long long`. */
  predicate InRange(n: int, k: nat) {
    if k > 1 then -TWO_63 <= n < TWO_63 else -TWO_31 <= n < TWO_31
  }

  lemma {:induction false} BareField(d: Directive, sign: string, u: nat, base: nat)
    requires PrintedBase(base) && !d.zero && !d.left && !d.alt && d.length == 0
    ensures Field(d, sign, u, base) == sign + Numeral(u, base)
  {
    assert "" + (sign + ("" + ("" + (Numeral(u, base) + "")))) == sign + Numeral(u, base);
  }

  /** Every value of the type is printed: a minus sign if it is negative, and the digits of its magnitude. */
  lemma {:induction false} PrintsEveryValue(k: nat, n: int) returns (ds: string)
    requires InRange(n, k)
    ensures DoprntSpec(Simple("", false, Absent, k, 'd'), [Num(n)]) == Some((if n < 0 then "-" else "") + ds)
    ensures AreDigits(ds, 10) && Value(ds, 10) == Abs(n) && (CharAt(ds, 0) == '0' <==> n == 0)
  {
    var d := Found("", false, Absent, 0, false, Absent, 0, k);
    ds := Numeral(Abs(n), 10);
    NumeralValue(Abs(n), 10);
    BareSigned(d, n, ds);
    ConvertsNumber(d, 'd', n, 10);
    PrintsSimple("", false, Absent, k, 'd', Num(n), d, SignedText(d, n, 10));
  }

  predicate Bare(d: Directive) {
    !d.zero && !d.left && !d.alt && d.length == 0 && d.plus == NUL
  }

  lemma {:induction false} BareSigned(d: Directive, n: int, ds: string)
    requires Bare(d) && InRange(n, d.longs) && ds == Numeral(Abs(n), 10)
    ensures SignedText(d, n, 10) == (if n < 0 then "-" else "") + ds
  {
    SameInRange(n, d.longs);
    BareField(d, SignOf(n, d.plus), Abs(n), 10);
  }

  lemma {:induction false} BareUnsigned(d: Directive, n: nat, base: nat, ds: string)
    requires Bare(d) && PrintedBase(base) && Unsigned(n, d.longs) == n && ds == Numeral(n, base)
    ensures UnsignedText(d, n, base) == ds
  {
    BareField(d, "", n, base);
    assert "" + ds == ds;
  }

  lemma UnsignedInRange(u: nat, k: nat)
    requires if k > 1 then u < TWO_64 else u < TWO_32
    ensures Unsigned(u, k) == u
  {}

  lemma SameInRange(n: int, k: nat)
    requires InRange(n, k)
    ensures Signed(n, k) == n
  {}

  /** The same for unsigned values. */
  lemma {:induction false} PrintsEveryUnsigned(k: nat, c: char, base: nat, u: nat) returns (ds: string)
    requires Unsigns(c, base) && (if k > 1 then u < TWO_64 else u < TWO_32)
    ensures DoprntSpec(Simple("", false, Absent, k, c), [Num(u)]) == Some(ds)
    ensures AreDigits(ds, base) && Value(ds, base) == u && (CharAt(ds, 0) == '0' <==> u == 0)
  {
    var d := Found("", false, Absent, 0, false, Absent, 0, k);
    ds := Numeral(u, base);
    NumeralValue(u, base);
    UnsignedInRange(u, k);
    BareUnsigned(d, u, base, ds);
    ConvertsNumber(d, c, u, base);
    PrintsSimple("", false, Absent, k, c, Num(u), d, UnsignedText(d, u, base));
  }

  /** `%p` of a 32-bit pointer: the prefix and eight digits. */
  lemma {:induction false} PointerIsTenLong(d: Directive, u: nat)
    requires u < TWO_32 && !d.alt
    ensures |PointerText(d, u)| == 10 && PointerText(d, u)[..2] == "0x"
  {
    SixteenToTheEighth();
    NumeralLengthHex(u, 8);
    ZeroField(d.(zero := true, length := 8), u, 16);
  }
}
