/** Where formatted characters go: a caller's buffer (tasks/libc/stdio/sprintf.c) or a line buffer in
    front of the console (tasks/libc/stdio/printf.c). */
module Sinks {
  import opened Numerals
  import opened Doprnt

  const SPRINTF_UNLIMITED := -1
  const PRINTF_BUFMAX := 128

  // ---------------------------------------------------------------------------
  // sprintf.c
  // ---------------------------------------------------------------------------

  /** How many of `n` characters are stored under the limit `max`. */
  function Stored(n: nat, max: int): (k: nat)
    ensures k <= n
  {
    if 0 <= max < n then max else n
  }

  lemma SameBehind(was: seq<char>, before: seq<char>, after: seq<char>, b: nat, c: nat)
    requires |was| == |before| == |after| && b <= c <= |was|
    requires before[b..] == was[b..] && after[c..] == before[c..]
    ensures after[c..] == was[c..]
  {
    assert before[c..] == before[b..][c - b..] == was[b..][c - b..] == was[c..];
  }

  class SprintfState {
    const dest: array<char>
    var buf: nat     // index of the next character in `dest`
    var len: int
    const max: int

    constructor (dest: array<char>, max: int)
      ensures this.dest == dest && this.max == max && buf == 0 && len == 0
    {
      this.dest, this.max := dest, max;
      buf, len := 0, 0;
    }

    /** `text` has been offered so far. */
    ghost predicate Holds(text: string)
      reads this, dest
    {
      buf == len == Stored(|text|, max) && buf <= dest.Length && dest[..buf] == text[..buf]
    }

    method SaveChar(c: char, ghost text: string)
      requires Holds(text) && Stored(|text| + 1, max) <= dest.Length
      modifies this`buf, this`len, dest
      ensures Holds(text + [c])
      ensures dest[buf..] == old(dest[..])[buf..]
    {
      if max != SPRINTF_UNLIMITED {
        if len == max {
          return;
        }
      }
      len := len + 1;
      dest[buf] := c;
      buf := buf + 1;
      assert dest[..buf] == dest[..buf - 1] + [c];
    }

    /** The characters `out` arrive one by one. */
    method SaveAll(out: string)
      requires Holds("") && Stored(|out|, max) <= dest.Length
      modifies this`buf, this`len, dest
      ensures Holds(out)
      ensures dest[buf..] == old(dest[..])[buf..]
    {
      ghost var was := dest[..];
      var i := 0;
      assert out[..0] == "";
      while i < |out|
        invariant 0 <= i <= |out| && Holds(out[..i])
        invariant dest[buf..] == was[buf..]
      {
        assert out[..i + 1] == out[..i] + [out[i]];
        ghost var before, b := dest[..], buf;
        SaveChar(out[i], out[..i]);
        SameBehind(was, before, dest[..], b, buf);
        i := i + 1;
      }
      assert out[..i] == out;
    }
  }

  /** The output `out` of the formatter goes to `dest` under the limit `max`, and a NUL after it. */
  method Store(dest: array<char>, out: string, max: int) returns (len: int)
    requires Stored(|out|, max) < dest.Length
    modifies dest
    ensures len == Stored(|out|, max)
    ensures dest[..len] == out[..len] && dest[len] == NUL
    ensures dest[len + 1..] == old(dest[..])[len + 1..]
  {
    var state := new SprintfState(dest, max);
    state.SaveAll(out);
    dest[state.buf] := NUL;
    len := state.len;
  }

  /** Whole output and terminator, for a destination that has room for them. */
  method Vsprintf(s: array<char>, fmt: string, args: seq<Arg>) returns (ok: bool, len: int)
    requires DoprntSpec(fmt, args).Some? ==> |DoprntSpec(fmt, args).value| < s.Length
    modifies s
    ensures ok == DoprntSpec(fmt, args).Some?
    ensures ok ==> var out := DoprntSpec(fmt, args).value;
      len == |out| && s[..len] == out && s[len] == NUL && s[len + 1..] == old(s[..])[len + 1..]
  {
    var out;
    ok, out := Format(fmt, args);
    len := 0;
    if ok {
      len := Store(s, out, SPRINTF_UNLIMITED);
    }
  }

  /** The first `size` characters of what `Vsprintf` would store, if there are that many, and then a
      terminator, which for `size` or more characters lies just behind the first `size` places. The
      size is compared as an `int`. */
  method Vsnprintf(s: array<char>, size: nat, fmt: string, args: seq<Arg>) returns (ok: bool, len: int)
    requires DoprntSpec(fmt, args).Some? ==> Stored(|DoprntSpec(fmt, args).value|, Wrap32(size)) < s.Length
    modifies s
    ensures ok == DoprntSpec(fmt, args).Some?
    ensures ok ==> var out := DoprntSpec(fmt, args).value;
      len == Stored(|out|, Wrap32(size)) && s[..len] == out[..len] && s[len] == NUL
      && s[len + 1..] == old(s[..])[len + 1..]
  {
    var out;
    ok, out := Format(fmt, args);
    len := 0;
    if ok {
      len := Store(s, out, Wrap32(size));
    }
  }

  /** For sizes of an `int`, the terminator stays within the given size iff the output is shorter. */
  lemma TerminatorWithinSize(n: nat, size: nat)
    requires size < TWO_31
    ensures Stored(n, Wrap32(size)) == (if n < size then n else size)
    ensures Stored(n, Wrap32(size)) < size <==> n < size
  {}

  // ---------------------------------------------------------------------------
  // printf.c
  // ---------------------------------------------------------------------------

  function DropNul(s: string): string {
    if s == "" then "" else (if s[0] == NUL then "" else [s[0]]) + DropNul(s[1..])
  }

  lemma {:induction false} DropNulConcat(a: string, b: string)
    ensures DropNul(a + b) == DropNul(a) + DropNul(b)
  {
    if a == "" {
      assert a + b == b;
    } else {
      assert (a + b)[1..] == a[1..] + b;
      DropNulConcat(a[1..], b);
    }
  }

  lemma {:induction false} DropNulNone(a: string)
    requires NUL !in a
    ensures DropNul(a) == a
  {
    if a != "" { DropNulNone(a[1..]); }
  }

  lemma {:induction false} CStringOfBuffer(s: string, n: nat)
    requires n < |s| && s[n] == NUL && NUL !in s[..n]
    ensures CString(s) == s[..n]
  {
    if n > 0 {
      assert s[0] in s[..n];
      assert s[1..][..n - 1] == s[..n][1..];
      CStringOfBuffer(s[1..], n - 1);
    }
  }

  /** A console and the line buffer in front of it. `written` collects what `write` was given. */
  class PrintfState {
    const buf: array<char>
    var index: nat
    var written: string

    ghost predicate Valid()
      reads this, buf
    {
      buf.Length == PRINTF_BUFMAX && index < PRINTF_BUFMAX && NUL !in buf[..index]
    }

    /** The characters printed so far, written or not. */
    ghost function Stream(): string
      reads this, buf
      requires Valid()
    {
      DropNul(written) + buf[..index]
    }

    constructor ()
      ensures Valid() && Stream() == "" && fresh(buf) && index == 0
    {
      buf := new char[PRINTF_BUFMAX];
      index, written := 0, "";
    }

    method Write(s: string)
      modifies this`written
      ensures written == old(written) + s
    {
      written := written + s;
    }

    method Puts(s: string)
      modifies this`written
      ensures written == old(written) + CString(s) + "\n"
    {
      Write(CString(s));
      Write("\n");
    }

    /** Writes a whole `int`: the character and three zero bytes. */
    method Putchar(c: char)
      modifies this`written
      ensures written == old(written) + [c, NUL, NUL, NUL]
    {
      Write([c, NUL, NUL, NUL]);
    }

    method Flush()
      requires Valid()
      modifies this, buf
      ensures Valid() && index == 0 && Stream() == old(Stream())
    {
      ghost var pending := buf[..index];
      buf[index] := NUL;
      assert buf[..index] == pending;
      Write(buf[..index]);
      index := 0;
      DropNulConcat(old(written), pending);
      DropNulNone(pending);
      assert DropNul(written) + "" == DropNul(written);
    }

    /** The characters come out in order; only NULs are lost or added. */
    method PrintfChar(c: char)
      requires Valid()
      modifies this, buf
      ensures Valid() && Stream() == old(Stream()) + DropNul([c])
    {
      if c == '\n' {
        EndLine();
      } else if c == NUL || index >= PRINTF_BUFMAX - 1 {
        Flush();
        ghost var w := written;
        Putchar(c);
        DropNulConcat(w, [c, NUL, NUL, NUL]);
        FourBytes(c);
        assert buf[..index] == "";
        assert DropNul(w) + "" == DropNul(w);
      } else {
        ghost var pending := buf[..index];
        buf[index] := c;
        index := index + 1;
        assert buf[..index] == pending + [c];
        DropNulNone([c]);
        assert DropNul(written) + (pending + [c]) == DropNul(written) + pending + [c];
      }
    }

    /** The characters `out` arrive one by one. */
    method PrintAll(out: string)
      requires Valid() && Stream() == ""
      modifies this, buf
      ensures Valid() && Stream() == DropNul(out)
    {
      var i := 0;
      assert out[..0] == "";
      while i < |out|
        invariant 0 <= i <= |out| && Valid() && Stream() == DropNul(out[..i])
      {
        assert out[..i + 1] == out[..i] + [out[i]];
        DropNulConcat(out[..i], [out[i]]);
        PrintfChar(out[i]);
        i := i + 1;
      }
      assert out[..i] == out;
    }

    method EndLine()
      requires Valid()
      modifies this, buf
      ensures Valid() && Stream() == old(Stream()) + DropNul("\n")
    {
      ghost var pending := buf[..index];
      buf[index] := NUL;
      assert buf[..][..index] == pending;
      CStringOfBuffer(buf[..], index);
      Puts(buf[..]);
      index := 0;
      DropNulConcat(old(written) + pending, "\n");
      DropNulConcat(old(written), pending);
      DropNulNone(pending);
      assert buf[..0] == "" && DropNul(written) + "" == DropNul(written);
    }
  }

  lemma FourBytes(c: char)
    ensures DropNul([c, NUL, NUL, NUL]) == DropNul([c])
  {
    var s := [c, NUL, NUL, NUL];
    assert s[1..] == [NUL, NUL, NUL];
    assert DropNul([NUL]) == "" by { assert [NUL][1..] == ""; }
    assert DropNul([NUL, NUL]) == "" by { assert [NUL, NUL][1..] == [NUL]; }
    assert DropNul([NUL, NUL, NUL]) == "" by { assert [NUL, NUL, NUL][1..] == [NUL, NUL]; }
    assert [c][1..] == "";
  }

  /** What reaches the console is the formatted text, NULs aside. */
  method Vprintf(fmt: string, args: seq<Arg>) returns (ok: bool, written: string)
    ensures ok == DoprntSpec(fmt, args).Some?
    ensures ok ==> DropNul(written) == DropNul(DoprntSpec(fmt, args).value)
  {
    var out;
    ok, out := Format(fmt, args);
    written := "";
    if !ok {
      return;
    }
    var state := new PrintfState();
    state.PrintAll(out);
    if state.index != 0 {
      state.Flush();
    }
    written := state.written;
    assert state.buf[..0] == "" && DropNul(written) + "" == DropNul(written);
  }
}
