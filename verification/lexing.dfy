/** Character classes and scanning helpers shared by the diff and lint
    recognisers. The classes are those of Python 2's `re` module on byte
    strings: `\d` is an ASCII digit and `\s` is one of space, tab, line feed,
    vertical tab, form feed and carriage return. */
module Lexing {

  predicate IsDigit(c: char) {
    '0' <= c <= '9'
  }

  predicate IsSpace(c: char) {
    c == ' ' || 9 <= c as int <= 13
  }

  predicate AllDigits(s: string) {
    forall i :: 0 <= i < |s| ==> IsDigit(s[i])
  }

  /** What `\d+` matches: a non-empty run of digits, leading zeros allowed. */
  predicate IsNumber(s: string) {
    |s| > 0 && AllDigits(s)
  }

  predicate AllSpace(s: string) {
    forall i :: 0 <= i < |s| ==> IsSpace(s[i])
  }

  predicate StartsWith(s: string, prefix: string) {
    |prefix| <= |s| && s[..|prefix|] == prefix
  }

  /** Length of the longest prefix of `s` whose elements all satisfy `p`:
      what a greedy `[...]*` character class consumes. */
  function Span<T>(s: seq<T>, p: T -> bool): (n: nat)
    ensures n <= |s|
    ensures forall i :: 0 <= i < n ==> p(s[i])
    ensures n < |s| ==> !p(s[n])
  {
    if |s| == 0 || !p(s[0]) then 0 else 1 + Span(s[1..], p)
  }

  /** A greedy run is determined by where it stops. */
  lemma SpanIs<T>(s: seq<T>, p: T -> bool, n: nat)
    requires n <= |s|
    requires forall i :: 0 <= i < n ==> p(s[i])
    requires n < |s| ==> !p(s[n])
    ensures Span(s, p) == n
  {
  }

  /** A run that covers all of `a` continues into `b`. */
  lemma SpanAppend<T>(a: seq<T>, b: seq<T>, p: T -> bool)
    requires forall i :: 0 <= i < |a| ==> p(a[i])
    ensures Span(a + b, p) == |a| + Span(b, p)
  {
    var m := Span(b, p);
    var s := a + b;
    forall i | 0 <= i < |a| + m
      ensures p(s[i])
    {
      if i < |a| {
        assert s[i] == a[i];
      } else {
        assert s[i] == b[i - |a|];
      }
    }
    if |a| + m < |s| {
      assert s[|a| + m] == b[m];
    }
    SpanIs(s, p, |a| + m);
  }

  /** A run that stops inside `a` ignores whatever follows. */
  lemma SpanStopsEarly<T>(a: seq<T>, b: seq<T>, p: T -> bool)
    requires Span(a, p) < |a|
    ensures Span(a + b, p) == Span(a, p)
  {
    var n := Span(a, p);
    var s := a + b;
    forall i | 0 <= i < n
      ensures p(s[i])
    {
      assert s[i] == a[i];
    }
    assert s[n] == a[n];
    SpanIs(s, p, n);
  }

  function DigitValue(c: char): nat
    requires IsDigit(c)
  {
    c as int - '0' as int
  }

  function Digit(d: nat): (c: char)
    requires d < 10
    ensures IsDigit(c) && DigitValue(c) == d
  {
    (d + '0' as int) as char
  }

  /** The value of a string of decimal digits, as Python's `int` reads it
      (leading zeros allowed). */
  function Value(s: string): nat
    requires AllDigits(s)
  {
    if |s| == 0 then 0 else 10 * Value(s[..|s| - 1]) + DigitValue(s[|s| - 1])
  }

  /** Decimal rendering of a natural number, the inverse of `Value`. */
  function Decimal(n: nat): (s: string)
    ensures |s| > 0 && AllDigits(s)
    ensures Value(s) == n
  {
    if n < 10 then
      [Digit(n)]
    else
      var prefix := Decimal(n / 10);
      var s := prefix + [Digit(n % 10)];
      assert s[..|s| - 1] == prefix;
      s
  }
}
