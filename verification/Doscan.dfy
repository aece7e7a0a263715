/** The scanner behind sscanf (tasks/libc/stdio/doscan.c) and the string cursor it reads through
    (tasks/libc/stdio/sscanf.c). */
module Doscan {
  import opened Config
  import opened Numerals
  import opened Strtol
  import opened Doprnt

  /** The results of a scan: the numbers stored, and the count of conversions. */
  datatype Scan = Scan(stored: seq<int>, count: nat)

  function Then(n: seq<int>, count: nat, r: Option<Scan>): Option<Scan> {
    match r
    case None => None
    case Some(s) => Some(Scan(n + s.stored, count + s.count))
  }

  /** A number in `base` at the start of `t`, with its sign but no white space: a 32-bit `long`, which
      is 0 if there are no digits, and what follows. */
  function ScanNumber(t: string, base: int): (int, string) {
    var neg := CharAt(t, 0) == '-';
    var (v, rest) := Digits(if neg then t[1..] else t, base);
    (Wrap32(if neg then -v else v), rest)
  }

  /** Scanning `t` under `fmt`; a literal that does not match ends the scan. `None` where the format
      ends inside a directive or asks for a string, which has no bound in the input. */
  function DoscanSpec(fmt: string, t: string): Option<Scan>
    decreases |fmt|
  {
    if AtEnd(fmt) then Some(Scan([], 0))
    else if fmt[0] == '%' then Directives(fmt[1..], t, false)
    else if IsSpace(fmt[0]) then DoscanSpec(fmt[1..], SkipSpaces(t))
    else if CharAt(t, 0) == fmt[0] then DoscanSpec(fmt[1..], t[1..])
    else Some(Scan([], 0))
  }

  /** What follows a `%`; `*` discards the number. An unknown conversion counts but reads nothing. */
  function Directives(fmt: string, t: string, discard: bool): Option<Scan>
    decreases |fmt|
  {
    if AtEnd(fmt) || fmt[0] == 's' then None
    else if fmt[0] == '*' then Directives(fmt[1..], t, true)
    else
      var count := if discard then 0 else 1;
      if fmt[0] == 'd' || fmt[0] == 'x' then
        var (v, rest) := ScanNumber(t, if fmt[0] == 'd' then 10 else 16);
        Then(if discard then [] else [v], count, DoscanSpec(fmt[1..], rest))
      else Then([], count, DoscanSpec(fmt[1..], t))
  }

  // ---------------------------------------------------------------------------
  // The source's loops
  // ---------------------------------------------------------------------------

  /** `readchar` and `unchar` on the string pointer. */
  class Cursor {
    const s: string
    var pos: nat

    /** The input not yet read. */
    function Rest(): string
      reads this
    {
      if pos <= |s| then s[pos..] else ""
    }

    /** The input as it will be after `UnChar`. */
    function Behind(): string
      reads this
    {
      if 0 < pos <= |s| + 1 then s[pos - 1..] else ""
    }

    constructor (s: string)
      ensures this.s == s && pos == 0
    {
      this.s := s;
      pos := 0;
    }

    method ReadChar() returns (c: char)
      requires pos <= |s|
      modifies this
      ensures pos == old(pos) + 1 && Behind() == old(Rest()) && c == CharAt(Behind(), 0)
      ensures c != NUL ==> pos <= |s| && Rest() == Behind()[1..]
    {
      c := CharAt(s, pos);
      pos := pos + 1;
    }

    method UnChar()
      requires 0 < pos <= |s| + 1
      modifies this
      ensures pos == old(pos) - 1 && Rest() == old(Behind())
    {
      pos := pos - 1;
    }
  }

  /** Skips white space and puts the character after it back. */
  method SkipBlanks(cursor: Cursor)
    requires cursor.pos <= |cursor.s|
    modifies cursor
    ensures cursor.pos <= |cursor.s| && cursor.Rest() == SkipSpaces(old(cursor.Rest()))
  {
    ghost var t := cursor.Rest();
    var c := cursor.ReadChar();
    while IsSpace(c)
      invariant 0 < cursor.pos <= |cursor.s| + 1 && c == CharAt(cursor.Behind(), 0)
      invariant c != NUL ==> cursor.pos <= |cursor.s| && cursor.Rest() == cursor.Behind()[1..]
      invariant SkipSpaces(cursor.Behind()) == SkipSpaces(t)
      decreases |cursor.s| + 1 - cursor.pos
    {
      c := cursor.ReadChar();
    }
    cursor.UnChar();
  }

  /** The digit loop: `c0` has just been read; one character of lookahead is put back. */
  method ReadDigits(cursor: Cursor, c0: char, base: int) returns (n: int)
    requires 0 < cursor.pos <= |cursor.s| + 1 && c0 == CharAt(cursor.Behind(), 0)
    requires c0 != NUL ==> cursor.pos <= |cursor.s| && cursor.Rest() == cursor.Behind()[1..]
    modifies cursor
    ensures cursor.pos <= |cursor.s| && cursor.Rest() == Digits(old(cursor.Behind()), base).1
    ensures n == Wrap32(Digits(old(cursor.Behind()), base).0)
  {
    ghost var t := cursor.Behind();
    ReadIntoZero(t, base);
    var c := c0;
    n := 0;
    while DigitOf(c, base) >= 0
      invariant 0 < cursor.pos <= |cursor.s| + 1 && c == CharAt(cursor.Behind(), 0)
      invariant c != NUL ==> cursor.pos <= |cursor.s| && cursor.Rest() == cursor.Behind()[1..]
      invariant ReadInto(n, cursor.Behind(), base) == ReadInto(0, t, base)
      decreases |cursor.s| + 1 - cursor.pos
    {
      n := Wrap32(n * base + DigitOf(c, base));
      c := cursor.ReadChar();
    }
    cursor.UnChar();
  }

  /** The branches for `%d` and `%x`. */
  method ReadNumber(cursor: Cursor, base: int) returns (n: int)
    requires cursor.pos <= |cursor.s|
    modifies cursor
    ensures cursor.pos <= |cursor.s| && (n, cursor.Rest()) == ScanNumber(old(cursor.Rest()), base)
  {
    var c := cursor.ReadChar();
    var neg := c == '-';
    if neg {
      c := cursor.ReadChar();
    }
    ghost var t := cursor.Behind();
    n := ReadDigits(cursor, c, base);
    if neg {
      WrapNegate32(Digits(t, base).0);
      n := Wrap32(-n);
    }
  }

  lemma ThenTwice(a: seq<int>, i: nat, b: seq<int>, j: nat, r: Option<Scan>)
    ensures Then(a, i, Then(b, j, r)) == Then(a + b, i + j, r)
  {
    if r.Some? { assert a + (b + r.value.stored) == (a + b) + r.value.stored; }
  }

  lemma ThenNothing(r: Option<Scan>)
    ensures Then([], 0, r) == r
  {
    if r.Some? { assert [] + r.value.stored == r.value.stored; }
  }

  /** A literal or white space at the start of the format; `more` is false on a mismatch. */
  method Literal(fmt: string, cursor: Cursor) returns (more: bool)
    requires cursor.pos <= |cursor.s| && !AtEnd(fmt) && fmt[0] != '%'
    modifies cursor
    ensures more ==> cursor.pos <= |cursor.s|
    ensures DoscanSpec(fmt, old(cursor.Rest()))
      == if more then DoscanSpec(fmt[1..], cursor.Rest()) else Some(Scan([], 0))
  {
    if IsSpace(fmt[0]) {
      SkipBlanks(cursor);
      more := true;
    } else {
      var d := cursor.ReadChar();
      more := fmt[0] == d;
    }
  }

  /** One directive behind its `%`. */
  method OneDirective(fmt0: string, cursor: Cursor) returns (ok: bool, n: seq<int>, count: nat, fmt: string)
    requires cursor.pos <= |cursor.s|
    modifies cursor
    ensures cursor.pos <= |cursor.s| && |fmt| <= |fmt0|
    ensures Directives(fmt0, old(cursor.Rest()), false)
      == if ok then Then(n, count, DoscanSpec(fmt, cursor.Rest())) else None
  {
    var discard := false;
    fmt, n, count, ok := fmt0, [], 0, true;
    while !AtEnd(fmt) && fmt[0] == '*'
      invariant |fmt| <= |fmt0| && Directives(fmt0, cursor.Rest(), false) == Directives(fmt, cursor.Rest(), discard)
      decreases |fmt|
    {
      discard := true;
      fmt := fmt[1..];
    }
    if AtEnd(fmt) || fmt[0] == 's' {
      ok := false;
      return;
    }
    count := if discard then 0 else 1;
    if fmt[0] == 'd' || fmt[0] == 'x' {
      var v := ReadNumber(cursor, if fmt[0] == 'd' then 10 else 16);
      n := if discard then [] else [v];
    }
    fmt := fmt[1..];
  }

  /** `_doscan`: what it stores, in order, and the number of conversions it reports. */
  method Scanf(fmt0: string, cursor: Cursor) returns (ok: bool, r: Scan)
    requires cursor.pos <= |cursor.s|
    modifies cursor
    ensures DoscanSpec(fmt0, old(cursor.Rest())) == if ok then Some(r) else None
  {
    var fmt, stored: seq<int>, vals := fmt0, [], 0;
    ghost var goal := DoscanSpec(fmt0, cursor.Rest());
    ThenNothing(goal);
    r := Scan([], 0);
    while !AtEnd(fmt)
      invariant cursor.pos <= |cursor.s|
      invariant goal == Then(stored, vals, DoscanSpec(fmt, cursor.Rest()))
      decreases |fmt|
    {
      if fmt[0] != '%' {
        var more := Literal(fmt, cursor);
        if !more {
          return true, Scan(stored + [], vals);
        }
        fmt := fmt[1..];
      } else {
        var n, count, rest;
        ok, n, count, rest := OneDirective(fmt[1..], cursor);
        if !ok {
          return;
        }
        ThenTwice(stored, vals, n, count, DoscanSpec(rest, cursor.Rest()));
        stored, vals, fmt := stored + n, vals + count, rest;
      }
    }
    assert stored + [] == stored;
    return true, Scan(stored, vals);
  }
}
