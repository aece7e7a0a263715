/** `_doscan` step by step: what a format reads in front of other text, where it stops, and what it
    stores and counts on the way. */
module Scanning {
  import opened Config
  import opened Numerals
  import opened Strtol
  import opened Doscan
  import opened RoundTrip

  /** No number can take in a digit of what follows it, `rest` included. */
  predicate SeparatedFrom(items: seq<Item>, ns: seq<int>, rest: string)
    requires |ns| == Slots(items)
  {
    items == [] ||
    if items[0].Literally? then SeparatedFrom(items[1..], ns, rest)
    else
      var after := Render(items[1..], ns[1..]) + rest;
      && (after == "" || DigitOf(after[0], BaseOf(items[0])) < 0)
      && SeparatedFrom(items[1..], ns[1..], rest)
  }

  lemma ScansOne(item: Item, n: int, fmt: string, tail: string, skipped: bool)
    requires !item.Literally? && (tail == "" || DigitOf(tail[0], BaseOf(item)) < 0)
    ensures var text := Shows(item.Hex?, n) + tail;
      DoscanSpec(['%', if item.Hex? then 'x' else 'd'] + fmt, if skipped then SkipSpaces(text) else text)
        == Then([Wrap32(n)], 1, DoscanSpec(fmt, tail))
  {
    NumberNotSkipped(item.Hex?, n, tail);
    DirectiveScans(item.Hex?, fmt, n, tail);
  }

  lemma OneThenMore(
    item: Item, n: int, f: string, text: string, fmt: string, tail: string, skipped: bool, stored: seq<int>, count: nat,
    r: Option<Scan>)
    requires !item.Literally? && (tail == "" || DigitOf(tail[0], BaseOf(item)) < 0)
    requires f == ['%', if item.Hex? then 'x' else 'd'] + fmt && text == Shows(item.Hex?, n) + tail
    requires DoscanSpec(fmt, tail) == Then(stored, count, r)
    ensures DoscanSpec(f, if skipped then SkipSpaces(text) else text) == Then([Wrap32(n)] + stored, 1 + count, r)
  {
    ScansOne(item, n, fmt, tail, skipped);
    ThenTwice([Wrap32(n)], 1, stored, count, r);
  }

  lemma RegroupBoth(d: string, fmt: string, more: string, shown: string, tail: string, rest: string)
    ensures (d + fmt) + more == d + (fmt + more) && (shown + tail) + rest == shown + (tail + rest)
  {}

  lemma {:induction false} NumberInFront(
    items: seq<Item>, ns: seq<int>, rest: string, more: string, skipped: bool, items1: seq<Item>, ns1: seq<int>,
    r: Option<Scan>)
    requires items != [] && !items[0].Literally? && |ns| == Slots(items) && SeparatedFrom(items, ns, rest)
    requires items1 == items[1..] && ns1 == ns[1..]
    requires DoscanSpec(FormatOf(items1) + more, Render(items1, ns1) + rest) == Then(Longs32(ns1), |ns1|, r)
    ensures var text := Render(items, ns) + rest;
      DoscanSpec(FormatOf(items) + more, if skipped then SkipSpaces(text) else text) == Then(Longs32(ns), |ns|, r)
  {
    var fmt, tail, d := FormatOf(items1), Render(items1, ns1), ['%', if items[0].Hex? then 'x' else 'd'];
    var shown := Shows(items[0].Hex?, ns[0]);
    RegroupBoth(d, fmt, more, shown, tail, rest);
    OneThenMore(items[0], ns[0], (d + fmt) + more, (shown + tail) + rest, fmt + more, tail + rest, skipped,
      Longs32(ns1), |ns1|, r);
  }

  /** Reading what was printed under the front part of a format stores and counts its numbers, and goes
      on with the rest of the format at the rest of the text. */
  lemma {:induction false} ScanContinues(items: seq<Item>, ns: seq<int>, rest: string, more: string, skipped: bool)
    requires Literals(items) && |ns| == Slots(items) && SeparatedFrom(items, ns, rest)
    requires rest == "" || !IsSpace(rest[0])
    ensures var text := Render(items, ns) + rest;
      DoscanSpec(FormatOf(items) + more, if skipped then SkipSpaces(text) else text)
        == Then(Longs32(ns), |ns|, DoscanSpec(more, rest))
  {
    if items == [] {
      assert "" + rest == rest && "" + more == more;
      ThenNothing(DoscanSpec(more, rest));
    } else if items[0].Literally? {
      var c, items1 := items[0].c, items[1..];
      ScanContinues(items1, ns, rest, more, IsSpace(c));
      LiteralScans(c, FormatOf(items1) + more, Render(items1, ns) + rest, skipped);
      Regroup([c], FormatOf(items1), more);
      Regroup([c], Render(items1, ns), rest);
    } else {
      var items1, ns1 := items[1..], ns[1..];
      ScanContinues(items1, ns1, rest, more, false);
      NumberInFront(items, ns, rest, more, skipped, items1, ns1, DoscanSpec(more, rest));
    }
  }

  /** A literal that does not match ends the scan: the numbers in front of it are stored and counted, and
      nothing behind it is, whatever the format goes on with. */
  lemma MismatchEndsScan(items: seq<Item>, ns: seq<int>, rest: string, c: char, more: string)
    requires Literals(items) && |ns| == Slots(items) && SeparatedFrom(items, ns, rest)
    requires c != '%' && c != NUL && !IsSpace(c)
    requires rest == "" || (rest[0] != c && !IsSpace(rest[0]))
    ensures DoscanSpec(FormatOf(items) + ([c] + more), Render(items, ns) + rest) == Some(Scan(Longs32(ns), |ns|))
  {
    ScanContinues(items, ns, rest, [c] + more, false);
    assert ([c] + more)[0] == c;
    assert DoscanSpec([c] + more, rest) == Some(Scan([], 0));
    assert Longs32(ns) + [] == Longs32(ns);
  }

  /** White space in the format matches any amount of white space in the text, none included. */
  lemma WhiteSpaceMatchesAny(c: char, more: string, blanks: string, rest: string)
    requires IsSpace(c) && (forall i :: 0 <= i < |blanks| ==> IsSpace(blanks[i]))
    requires rest == "" || !IsSpace(rest[0])
    ensures DoscanSpec([c] + more, blanks + rest) == DoscanSpec(more, rest)
  {
    SkipSpacesOf(blanks, rest);
    assert ([c] + more)[0] == c && ([c] + more)[1..] == more;
  }

  /** A starred conversion reads its number and neither stores nor counts it. */
  lemma StarDiscards(hex: bool, n: int, more: string, tail: string)
    requires tail == "" || DigitOf(tail[0], if hex then 16 else 10) < 0
    ensures DoscanSpec(['%', '*', if hex then 'x' else 'd'] + more, Shows(hex, n) + tail) == DoscanSpec(more, tail)
  {
    var f := ['%', '*', if hex then 'x' else 'd'] + more;
    assert f[1..][0] == '*' && f[1..][1..][0] == f[2] && f[1..][1..][1..] == more;
    ScansNumber(hex, n, tail);
    assert Directives(f[1..], Shows(hex, n) + tail, false) == Directives(f[1..][1..], Shows(hex, n) + tail, true);
    ThenNothing(DoscanSpec(more, tail));
  }

  /** A conversion that is not known counts and reads nothing. */
  lemma UnknownCounts(c: char, more: string, t: string)
    requires c != 'd' && c != 'x' && c != 's' && c != '*' && c != NUL
    ensures DoscanSpec(['%', c] + more, t) == Then([], 1, DoscanSpec(more, t))
  {
    var f := ['%', c] + more;
    assert f[0] == '%' && f[1..][0] == c && f[1..][1..] == more;
  }

  /** Where there are no digits a number is 0, stored and counted, and only a minus sign is read. */
  lemma NoDigitsIsZero(neg: bool, tail: string, base: int)
    requires tail == "" || (DigitOf(tail[0], base) < 0 && (neg || tail[0] != '-'))
    ensures ScanNumber((if neg then "-" else "") + tail, base) == (0, tail)
  {
    assert tail[..0] == "" && tail[0..] == tail && "" + tail == tail;
    assert ("-" + tail)[0] == '-' && ("-" + tail)[1..] == tail;
    assert Digits(tail, base) == (0, tail);
  }
}
