/** The formatter behind printf and sprintf (tasks/libc/stdio/doprnt.c). The C pointer `fmt` is the
    rest of the format string; characters go to the sink in the order of the output string. */
module Doprnt {
  import opened Config
  import opened Numerals

  /** One variable argument. Integers are reduced to the width the conversion asks for. */
  datatype Arg = Num(n: int) | Text(s: string) | NullText

  /** `plus` is NUL, space or plus; `prec` is -1 when there is none. */
  datatype Directive = Directive(
    alt: bool, left: bool, plus: char, zero: bool, length: int, prec: int, longs: nat)

  const PLAIN := Directive(false, false, NUL, false, 0, -1, 0)
  const MAXINT := 0x7FFF_FFFF
  const MAXBUF := 32

  predicate AtEnd(t: string) {
    t == "" || t[0] == NUL
  }

  // ---------------------------------------------------------------------------
  // Directives
  // ---------------------------------------------------------------------------

  function Flags(t: string, d: Directive): (r: (Directive, string))
    ensures |r.1| <= |t|
  {
    if t == "" then (d, t)
    else if t[0] == '#' then Flags(t[1..], d.(alt := true))
    else if t[0] == '-' then Flags(t[1..], d.(left := true))
    else if t[0] == '+' then Flags(t[1..], d.(plus := '+'))
    else if t[0] == ' ' then Flags(t[1..], if d.plus == NUL then d.(plus := ' ') else d)
    else (d, t)
  }

  function ZeroFlag(t: string, d: Directive): (r: (Directive, string))
    ensures |r.1| <= |t|
  {
    if CharAt(t, 0) == '0' then (d.(zero := true), t[1..]) else (d, t)
  }

  /** What follows `*`: an `int` argument. */
  function TakeInt(args: seq<Arg>): Option<(int, seq<Arg>)> {
    if args != [] && args[0].Num? then Some((Wrap32(args[0].n), args[1..])) else None
  }

  /** A decimal number, or `*`; 0 when there is neither. A negative width means left adjustment. */
  function Width(t: string, d: Directive, args: seq<Arg>): (r: Option<(Directive, string, seq<Arg>)>)
    ensures r.Some? ==> |r.value.1| <= |t|
  {
    if IsDigit(CharAt(t, 0)) then
      var n := Span(t, 10);
      Some((d.(length := Value(t[..n], 10)), t[n..], args))
    else if CharAt(t, 0) == '*' then
      match TakeInt(args)
      case None => None
      case Some((w, rest)) =>
        Some((if w < 0 then d.(left := !d.left, length := -w) else d.(length := w), t[1..], rest))
    else Some((d, t, args))
  }

  function Precision(t: string, d: Directive, args: seq<Arg>): (r: Option<(Directive, string, seq<Arg>)>)
    ensures r.Some? ==> |r.value.1| <= |t|
  {
    if CharAt(t, 0) != '.' then Some((d, t, args))
    else
      var u := t[1..];
      if IsDigit(CharAt(u, 0)) then
        var n := Span(u, 10);
        Some((d.(prec := Value(u[..n], 10)), u[n..], args))
      else if CharAt(u, 0) == '*' then
        match TakeInt(args)
        case None => None
        case Some((p, rest)) => Some((d.(prec := p), u[1..], rest))
      else Some((d, u, args))
  }

  function Longs(t: string, d: Directive): (r: (Directive, string))
    ensures |r.1| <= |t|
  {
    if CharAt(t, 0) == 'l' then Longs(t[1..], d.(longs := d.longs + 1)) else (d, t)
  }

  /** All that stands between `%` and the conversion character. */
  function ParseDirective(t: string, args: seq<Arg>): (r: Option<(Directive, string, seq<Arg>)>)
    ensures r.Some? ==> |r.value.1| <= |t|
  {
    var (d1, t1) := Flags(t, PLAIN);
    var (d2, t2) := ZeroFlag(t1, d1);
    match Width(t2, d2, args)
    case None => None
    case Some((d3, t3, args3)) =>
      match Precision(t3, d3, args3)
      case None => None
      case Some((d4, t4, args4)) =>
        var (d5, t5) := Longs(t4, d4);
        Some((d5, t5, args4))
  }

  // ---------------------------------------------------------------------------
  // Conversions
  // ---------------------------------------------------------------------------

  function Repeat(c: char, n: int): (s: string)
    ensures |s| == (if n > 0 then n else 0) && forall i :: 0 <= i < |s| ==> s[i] == c
  {
    if n <= 0 then "" else Repeat(c, n - 1) + [c]
  }

  function Prefix(alt: bool, u: nat, base: nat): string {
    if alt && u != 0 then (if base == 8 then "0" else if base == 16 then "0x" else "") else ""
  }

  /** How much padding a number needs; negative when it is too long already. */
  function Padding(d: Directive, sign: string, u: nat, base: nat): int
    requires 2 <= base <= 16
  {
    d.length - |Numeral(u, base)| - |sign| - |Prefix(d.alt, u, base)|
  }

  /** A number in its field: blanks before sign and prefix, or zeros after them, or blanks behind. */
  function Field(d: Directive, sign: string, u: nat, base: nat): string
    requires 2 <= base <= 16
  {
    var pad := Padding(d, sign, u, base);
    Repeat(' ', if d.zero || d.left then 0 else pad)
      + (sign
      + (Prefix(d.alt, u, base)
      + (Repeat('0', if d.zero then pad else 0)
      + (Numeral(u, base)
      + Repeat(' ', if d.left && !d.zero then pad else 0)))))
  }

  /** Under every combination of flags a number takes exactly its field, or more if it must. */
  lemma FieldLength(d: Directive, sign: string, u: nat, base: nat)
    requires 2 <= base <= 16
    ensures var need := |sign| + |Prefix(d.alt, u, base)| + |Numeral(u, base)|;
      |Field(d, sign, u, base)| == if d.length > need then d.length else need
  {}

  function Signed(n: int, longs: nat): (r: int)
    ensures -TWO_63 <= r < TWO_63
  {
    if longs > 1 then Wrap64(n) else Wrap32(n)
  }

  function Unsigned(n: int, longs: nat): (r: nat)
    ensures r < TWO_64
  {
    if longs > 1 then n % TWO_64 else n % TWO_32
  }

  function SignOf(n: int, plus: char): string {
    if n < 0 then "-" else if plus == NUL then "" else [plus]
  }

  function Abs(n: int): nat {
    if n < 0 then -n else n
  }

  function SignedText(d: Directive, n: int, base: nat): string
    requires 2 <= base <= 16
  {
    var x := Signed(n, d.longs);
    Field(d, SignOf(x, d.plus), Abs(x), base)
  }

  function UnsignedText(d: Directive, n: int, base: nat): string
    requires 2 <= base <= 16
  {
    Field(d, "", Unsigned(n, d.longs), base)
  }

  /** How many of `n` characters `%s` shows under precision `prec`. */
  function Shown(n: nat, prec: int): (r: nat)
    ensures r <= n
  {
    if n <= prec then n else if prec < 0 then 0 else prec
  }

  /** `%s`: cut off at the precision; a string that is cut off and left-adjusted counts one
      character too many towards its width. */
  function StringText(d: Directive, s: string): string {
    var shown := Shown(|s|, if d.prec == -1 then MAXINT else d.prec);
    var counted := if shown == |s| then shown else shown + 1;
    Repeat(' ', if d.left then 0 else d.length - shown) + s[..shown]
      + Repeat(' ', if d.left then d.length - counted else 0)
  }

  /** `%s` keeps to its width like a number does, unless it cuts a string off, adjusts it to the left
      and still has to pad it. */
  lemma StringLengthIff(d: Directive, s: string)
    ensures var shown := Shown(|s|, if d.prec == -1 then MAXINT else d.prec);
      |StringText(d, s)| == (if d.length > shown then d.length else shown)
      <==> !(d.left && shown < |s| && shown < d.length)
  {}

  datatype Conversion =
    | SignedNumber(base: nat) | UnsignedNumber(base: nat) | Pointer | Character | String | Other | Unmodelled

  function ConversionOf(c: char): (k: Conversion)
    ensures k.SignedNumber? ==> k.base == 10 || k.base == 16
    ensures k.UnsignedNumber? ==> k.base == 8 || k.base == 10 || k.base == 16
  {
    match c
    case 'd' | 'D' => SignedNumber(10)
    case 'z' | 'Z' => SignedNumber(16)
    case 'o' | 'O' => UnsignedNumber(8)
    case 'u' | 'U' => UnsignedNumber(10)
    case 'x' | 'X' => UnsignedNumber(16)
    case 'p' => Pointer
    case 'c' => Character
    case 's' => String
    case 'b' | 'B' | 't' | 'r' | 'R' | 'n' | 'N' => Unmodelled
    case _ => Other
  }

  /** The string of an argument as C sees it. */
  function CString(s: string): string {
    if AtEnd(s) then "" else [s[0]] + CString(s[1..])
  }

  /** What one conversion prints, and the arguments left over. */
  function Convert(d: Directive, c: char, args: seq<Arg>): Option<(string, seq<Arg>)> {
    var k := ConversionOf(c);
    if k.Unmodelled? then None
    else if k.Other? then Some(([c], args))
    else if args == [] then None
    else
      match (k, args[0])
      case (SignedNumber(base), Num(n)) => Some((SignedText(d, n, base), args[1..]))
      case (UnsignedNumber(base), Num(n)) => Some((UnsignedText(d, n, base), args[1..]))
      case (Pointer, Num(n)) => Some(("0x" + UnsignedText(d.(zero := true, length := 8), n, 16), args[1..]))
      case (Character, Num(n)) => Some(([(n % 256) as char], args[1..]))
      case (String, Text(s)) => Some((StringText(d, CString(s)), args[1..]))
      case (String, NullText) => Some((StringText(d, ""), args[1..]))
      case _ => None
  }

  function Prepend(s: string, r: Option<string>): Option<string> {
    match r
    case None => None
    case Some(t) => Some(s + t)
  }

  /** The output for a format and its arguments; `None` when an argument is missing or of the wrong
      kind, or a conversion is outside this model. */
  function DoprntSpec(fmt: string, args: seq<Arg>): Option<string>
    decreases |fmt|
  {
    if AtEnd(fmt) then Some("")
    else if fmt[0] != '%' then Prepend([fmt[0]], DoprntSpec(fmt[1..], args))
    else
      match ParseDirective(fmt[1..], args)
      case None => None
      case Some((d, t, args1)) =>
        if AtEnd(t) then Some("")
        else
          match Convert(d, t[0], args1)
          case None => None
          case Some((out, args2)) => Prepend(out, DoprntSpec(t[1..], args2))
  }

  // ---------------------------------------------------------------------------
  // The source's loops
  // ---------------------------------------------------------------------------

  method ParseFlags(fmt0: string) returns (d: Directive, fmt: string)
    ensures (d, fmt) == Flags(fmt0, PLAIN)
  {
    d, fmt := PLAIN, fmt0;
    while true
      invariant Flags(fmt, d) == Flags(fmt0, PLAIN)
      decreases |fmt|
    {
      if CharAt(fmt, 0) == '#' {
        d, fmt := d.(alt := true), fmt[1..];
      } else if CharAt(fmt, 0) == '-' {
        d, fmt := d.(left := true), fmt[1..];
      } else if CharAt(fmt, 0) == '+' {
        d, fmt := d.(plus := '+'), fmt[1..];
      } else if CharAt(fmt, 0) == ' ' {
        if d.plus == NUL {
          d := d.(plus := ' ');
        }
        fmt := fmt[1..];
      } else {
        break;
      }
    }
  }

  method ParseNumber(fmt0: string) returns (v: int, fmt: string)
    ensures v == Value(fmt0[..Span(fmt0, 10)], 10) && fmt == fmt0[Span(fmt0, 10)..]
  {
    v, fmt := 0, fmt0;
    ghost var k := 0;
    while IsDigit(CharAt(fmt, 0))
      invariant k <= |fmt0| && fmt == fmt0[k..] && v == Value(fmt0[..k], 10)
      invariant Span(fmt0, 10) == k + Span(fmt, 10)
      decreases |fmt|
    {
      ValueOfSnoc(fmt0[..k], fmt[0], 10);
      assert fmt0[..k] + [fmt[0]] == fmt0[..k + 1];
      v := 10 * v + (fmt[0] as int - '0' as int);
      fmt := fmt[1..];
      k := k + 1;
    }
  }

  method ParseLongs(d0: Directive, fmt0: string) returns (d: Directive, fmt: string)
    ensures (d, fmt) == Longs(fmt0, d0)
  {
    d, fmt := d0, fmt0;
    while CharAt(fmt, 0) == 'l'
      invariant Longs(fmt, d) == Longs(fmt0, d0)
      decreases |fmt|
    {
      d, fmt := d.(longs := d.longs + 1), fmt[1..];
    }
  }

  /** `while (--length >= 0) putc(c)` */
  method Emit(c: char, count: int) returns (out: string)
    ensures out == Repeat(c, count)
  {
    out := "";
    var length := count - 1;
    while length >= 0
      invariant length < count && (length >= -1 || length == count - 1)
      invariant out == Repeat(c, count - 1 - length)
      decreases length
    {
      out := out + [c];
      length := length - 1;
    }
    assert count >= 0 ==> length == -1;
  }

  /** The digits the loop still has to produce. */
  function DigitsLeft(u: nat, more: bool, base: nat): string
    requires 2 <= base <= 16
  {
    if more then Numeral(u, base) else ""
  }

  lemma OneDigit(u: nat, base: nat, q: nat, d: nat, tail: string)
    requires 2 <= base <= 16 && q == u / base && d == u % base
    ensures DigitsLeft(u, true, base) + tail == DigitsLeft(q, q != 0, base) + ([DigitChar(d)] + tail)
    ensures q != 0 ==> q < u
  {
    if u < base {
      assert q == 0 && d == u;
    } else {
      DivMod(u, base);
    }
  }

  /** The digits are produced from the right end of a buffer of `MAXBUF` characters. */
  method DigitBuffer(u0: nat, base: nat) returns (buf: array<char>, p: nat)
    requires 8 <= base <= 16 && u0 < TWO_64
    ensures fresh(buf) && buf.Length == MAXBUF && p < MAXBUF && buf[p + 1..] == Numeral(u0, base)
  {
    buf := new char[MAXBUF];
    var i := MAXBUF - 1;
    var u: nat, more := u0, true;
    ghost var tail := "";
    NumeralFits(u0, base);
    while more
      invariant -1 <= i < MAXBUF && tail == buf[i + 1..]
      invariant Numeral(u0, base) == DigitsLeft(u, more, base) + tail
      decreases more, u
    {
      assert i >= 0;
      var q, d := u / base, u % base;
      OneDigit(u, base, q, d, tail);
      buf[i] := DigitChar(d);
      tail := [DigitChar(d)] + tail;
      assert buf[i..] == tail;
      i := i - 1;
      u, more := q, q != 0;
    }
    assert |tail| <= 22;
    p := i;
  }

  method PrefixFor(alt: bool, u: nat, base: nat) returns (prefix: string)
    ensures prefix == Prefix(alt, u, base)
  {
    prefix := "";
    if u != 0 && alt {
      if base == 8 {
        prefix := "0";
      } else if base == 16 {
        prefix := "0x";
      }
    }
  }

  /** `print_num` */
  method PrintNum(d: Directive, signChar: char, u: nat, base: nat) returns (out: string)
    requires (base == 8 || base == 10 || base == 16) && u < TWO_64
    ensures out == Field(d, if signChar == NUL then "" else [signChar], u, base)
  {
    var prefix := PrefixFor(d.alt, u, base);
    var buf, p := DigitBuffer(u, base);
    var length := d.length - (MAXBUF - 1 - p);
    var sign := if signChar == NUL then "" else [signChar];
    if signChar != NUL {
      length := length - 1;
    }
    length := length - |prefix|;
    assert length == Padding(d, sign, u, base);
    ghost var pad := length;
    var before, zeros, behind := "", "", "";
    if !d.zero && !d.left {
      before := Emit(' ', length);
      length := -1;
    }
    if d.zero {
      zeros := Emit('0', length);
      length := -1;
    }
    if d.left {
      behind := Emit(' ', length);
    }
    assert before == Repeat(' ', if d.zero || d.left then 0 else pad);
    assert zeros == Repeat('0', if d.zero then pad else 0);
    assert behind == Repeat(' ', if d.left && !d.zero then pad else 0);
    out := before + (sign + (prefix + (zeros + (buf[p + 1..] + behind))));
  }

  /** `va_arg(args, int)`; `ok` is false when there is no such argument. */
  method NextInt(args0: seq<Arg>) returns (ok: bool, n: int, args: seq<Arg>)
    ensures if ok then TakeInt(args0) == Some((n, args)) else TakeInt(args0) == None
  {
    ok, n, args := false, 0, args0;
    if args0 != [] && args0[0].Num? {
      ok, n, args := true, Wrap32(args0[0].n), args0[1..];
    }
  }

  method ParseWidth(fmt0: string, d0: Directive, args0: seq<Arg>)
    returns (ok: bool, d: Directive, fmt: string, args: seq<Arg>)
    ensures Width(fmt0, d0, args0) == if ok then Some((d, fmt, args)) else None
  {
    ok, d, fmt, args := true, d0, fmt0, args0;
    if IsDigit(CharAt(fmt, 0)) {
      var length;
      length, fmt := ParseNumber(fmt);
      d := d.(length := length);
    } else if CharAt(fmt, 0) == '*' {
      var length;
      ok, length, args := NextInt(args);
      fmt := fmt[1..];
      d := d.(length := length);
      if length < 0 {
        d := d.(left := !d.left, length := -length);
      }
    }
  }

  method ParsePrecision(fmt0: string, d0: Directive, args0: seq<Arg>)
    returns (ok: bool, d: Directive, fmt: string, args: seq<Arg>)
    ensures Precision(fmt0, d0, args0) == if ok then Some((d, fmt, args)) else None
  {
    ok, d, fmt, args := true, d0, fmt0, args0;
    if CharAt(fmt, 0) == '.' {
      fmt := fmt[1..];
      if IsDigit(CharAt(fmt, 0)) {
        var prec;
        prec, fmt := ParseNumber(fmt);
        d := d.(prec := prec);
      } else if CharAt(fmt, 0) == '*' {
        var prec;
        ok, prec, args := NextInt(args);
        fmt := fmt[1..];
        d := d.(prec := prec);
      }
    }
  }

  method Parse(fmt0: string, args0: seq<Arg>) returns (ok: bool, d: Directive, fmt: string, args: seq<Arg>)
    ensures ParseDirective(fmt0, args0) == if ok then Some((d, fmt, args)) else None
  {
    d, fmt := ParseFlags(fmt0);
    if CharAt(fmt, 0) == '0' {
      d, fmt := d.(zero := true), fmt[1..];
    }
    ok, d, fmt, args := ParseWidth(fmt, d, args0);
    if !ok {
      return;
    }
    ok, d, fmt, args := ParsePrecision(fmt, d, args);
    if !ok {
      return;
    }
    d, fmt := ParseLongs(d, fmt);
  }

  lemma {:induction false} CStringIs(s: string)
    ensures var n := |CString(s)|; n <= |s| && CString(s) == s[..n] && (n < |s| ==> s[n] == NUL)
    ensures forall i :: 0 <= i < |CString(s)| ==> s[i] != NUL
  {
    if !AtEnd(s) {
      CStringIs(s[1..]);
      var n := |CString(s[1..])|;
      assert n < |s| - 1 ==> s[1..][n] == s[1 + n];
      assert forall i :: 1 <= i <= n ==> s[i] == s[1..][i - 1];
    }
  }

  /** How many characters `%s` will show: the first loop over the string. */
  method CountShown(s: string, prec: int) returns (n: nat)
    ensures n == Shown(|CString(s)|, prec)
  {
    CStringIs(s);
    n := 0;
    while n < |s| && s[n] != NUL && n < prec
      invariant n <= |CString(s)| && (n <= prec || n == 0)
    {
      n := n + 1;
    }
  }

  /** The second loop: the characters themselves; `n` also counts the one that did not fit. */
  method ShowString(s: string, prec: int) returns (out: string, n: int)
    ensures out == CString(s)[..Shown(|CString(s)|, prec)]
    ensures n == |out| + if |out| == |CString(s)| then 0 else 1
  {
    CStringIs(s);
    var t := CString(s);
    var p := 0;
    out, n := "", 0;
    while p < |s| && s[p] != NUL
      invariant p <= |t| && p == n && out == t[..p] && (p <= prec || p == 0)
    {
      n := n + 1;
      if n > prec {
        return;
      }
      out := out + [s[p]];
      p := p + 1;
    }
  }

  /** `%s` */
  method PrintString(d: Directive, s: string) returns (out: string)
    ensures out == StringText(d, CString(s))
  {
    var prec := if d.prec == -1 then MAXINT else d.prec;
    var before, behind := "", "";
    if d.length > 0 && !d.left {
      var m := CountShown(s, prec);
      before := Emit(' ', d.length - m);
    }
    var shown, n := ShowString(s, prec);
    if n < d.length && d.left {
      behind := Emit(' ', d.length - n);
    }
    out := before + shown + behind;
  }

  method PrintSigned(d: Directive, arg: int, base: nat) returns (out: string)
    requires base == 10 || base == 16
    ensures out == SignedText(d, arg, base)
  {
    var n := Signed(arg, d.longs);
    if n >= 0 {
      out := PrintNum(d, d.plus, n, base);
    } else {
      out := PrintNum(d, '-', -n, base);
    }
  }

  /** The `switch` on the conversion character; `ok` is false where `Convert` says nothing. */
  method PrintConversion(d: Directive, c: char, args0: seq<Arg>) returns (ok: bool, out: string, args: seq<Arg>)
    ensures Convert(d, c, args0) == if ok then Some((out, args)) else None
  {
    ok, out, args := true, "", args0;
    var k := ConversionOf(c);
    if k.Unmodelled? {
      ok := false;
    } else if k.Other? {
      out := [c];
    } else if args0 == [] {
      ok := false;
    } else {
      args := args0[1..];
      match (k, args0[0]) {
        case (SignedNumber(base), Num(n)) =>
          out := PrintSigned(d, n, base);
        case (UnsignedNumber(base), Num(n)) =>
          out := PrintNum(d, NUL, Unsigned(n, d.longs), base);
        case (Pointer, Num(n)) =>
          out := PrintNum(d.(zero := true, length := 8), NUL, Unsigned(n, d.longs), 16);
          out := "0x" + out;
        case (Character, Num(n)) =>
          out := [(n % 256) as char];
        case (String, Text(s)) =>
          out := PrintString(d, s);
        case (String, NullText) =>
          out := PrintString(d, "");
        case _ =>
          ok := false;
      }
    }
  }

  lemma PrependTwice(a: string, b: string, r: Option<string>)
    ensures Prepend(a, Prepend(b, r)) == Prepend(a + b, r)
  {
    if r.Some? { assert a + (b + r.value) == (a + b) + r.value; }
  }

  lemma PrependNothing(r: Option<string>)
    ensures Prepend("", r) == r
  {
    if r.Some? { assert "" + r.value == r.value; }
  }

  /** `_doprnt`: `out` is what has gone to the sink. */
  method Format(fmt0: string, args0: seq<Arg>) returns (ok: bool, out: string)
    ensures DoprntSpec(fmt0, args0) == if ok then Some(out) else None
  {
    var fmt, args := fmt0, args0;
    out := "";
    PrependNothing(DoprntSpec(fmt, args));
    while !AtEnd(fmt)
      invariant DoprntSpec(fmt0, args0) == Prepend(out, DoprntSpec(fmt, args))
      decreases |fmt|
    {
      if fmt[0] != '%' {
        PrependTwice(out, [fmt[0]], DoprntSpec(fmt[1..], args));
        out, fmt := out + [fmt[0]], fmt[1..];
      } else {
        var d, t, args1;
        ok, d, t, args1 := Parse(fmt[1..], args);
        if !ok {
          return;
        }
        if AtEnd(t) {
          fmt, args := t, args1;
        } else {
          var text, args2;
          ok, text, args2 := PrintConversion(d, t[0], args1);
          if !ok {
            return;
          }
          PrependTwice(out, text, DoprntSpec(t[1..], args2));
          out, fmt, args := out + text, t[1..], args2;
        }
      }
    }
    assert out + "" == out;
    ok := true;
  }
}
