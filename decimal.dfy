/**
 * Decimal rendering of an unsigned number, as printf's `%u` produces it,
 * and the dotted-quad text built from four such numbers.  Each rendering
 * has a parser beside it, and the round trips are proved.
 */
module Decimal {

  predicate IsDigit(c: char) {
    '0' <= c <= '9'
  }

  predicate DigitsOnly(s: string) {
    forall i :: 0 <= i < |s| ==> IsDigit(s[i])
  }

  function DigitChar(d: nat): (c: char)
    requires d < 10
    ensures IsDigit(c)
  {
    ('0' as int + d) as char
  }

  function DigitValue(c: char): nat
    requires IsDigit(c)
  {
    c as int - '0' as int
  }

  /** `%u`: the shortest decimal numeral of `n`, most significant digit first. */
  function ToDecimal(n: nat): (s: string)
    ensures 1 <= |s|
    ensures DigitsOnly(s)
    ensures s[0] == '0' ==> n == 0
    ensures n < 10 ==> |s| == 1
    decreases n
  {
    if n < 10 then [DigitChar(n)] else ToDecimal(n / 10) + [DigitChar(n % 10)]
  }

  /** The value of a numeral (any run of digits, most significant first). */
  function FromDecimal(s: string): nat
    requires DigitsOnly(s)
  {
    if s == [] then 0 else FromDecimal(s[..|s| - 1]) * 10 + DigitValue(s[|s| - 1])
  }

  lemma {:induction false} DecimalRoundTrip(n: nat)
    ensures FromDecimal(ToDecimal(n)) == n
    decreases n
  {
    if n >= 10 {
      var s := ToDecimal(n);
      DecimalRoundTrip(n / 10);
    }
  }

  /** A number below 1000, such as an octet, takes one to three digits. */
  lemma DecimalLength(n: nat)
    requires n < 1000
    ensures 1 <= |ToDecimal(n)| <= 3
    ensures n >= 10 ==> |ToDecimal(n)| >= 2
    ensures n >= 100 ==> |ToDecimal(n)| == 3
  {
    if n >= 10 {
      if n / 10 >= 10 {
        assert n / 10 / 10 < 10;
      }
    }
  }

  /** The fields of `s` between occurrences of `sep`. */
  function SplitOn(s: string, sep: char): (fields: seq<string>)
    ensures |fields| >= 1
  {
    if s == [] then [[]]
    else
      var rest := SplitOn(s[1..], sep);
      if s[0] == sep then [[]] + rest else [[s[0]] + rest[0]] + rest[1..]
  }

  lemma {:induction false} SplitNoSep(a: string, sep: char)
    requires sep !in a
    ensures SplitOn(a, sep) == [a]
  {
    if a != [] {
      SplitNoSep(a[1..], sep);
      assert [a[0]] + a[1..] == a;
    }
  }

  lemma {:induction false} SplitFirst(a: string, sep: char, b: string)
    requires sep !in a
    ensures SplitOn(a + [sep] + b, sep) == [a] + SplitOn(b, sep)
  {
    if a == [] {
      assert a + [sep] + b == [sep] + b;
      assert ([sep] + b)[1..] == b;
    } else {
      var t := a + [sep] + b;
      // needed: without it this branch fails to verify
      assert t[0] == a[0] && t[1..] == a[1..] + [sep] + b;
      SplitFirst(a[1..], sep, b);
      assert [a[0]] + a[1..] == a;
    }
  }

  /** `"%u.%u.%u.%u"` applied to four numbers. */
  function DottedQuad(q: seq<nat>): (s: string)
    requires |q| == 4
  {
    ToDecimal(q[0]) + "." + ToDecimal(q[1]) + "." + ToDecimal(q[2]) + "." + ToDecimal(q[3])
  }

  /** Reads the numbers back from a dotted text; a field that is not a numeral reads as 0. */
  function ParseDotted(s: string): (q: seq<nat>)
    ensures |q| == |SplitOn(s, '.')|
  {
    var fields := SplitOn(s, '.');
    seq(|fields|, i requires 0 <= i < |fields| =>
      if DigitsOnly(fields[i]) then FromDecimal(fields[i]) else 0)
  }

  lemma NoDotInDecimal(n: nat)
    ensures '.' !in ToDecimal(n)
  {
  }

  /** The dotted text has exactly four fields, the four numerals. */
  lemma DottedQuadFields(q: seq<nat>)
    requires |q| == 4
    ensures SplitOn(DottedQuad(q), '.') == [ToDecimal(q[0]), ToDecimal(q[1]), ToDecimal(q[2]), ToDecimal(q[3])]
  {
    var d0, d1, d2, d3 := ToDecimal(q[0]), ToDecimal(q[1]), ToDecimal(q[2]), ToDecimal(q[3]);
    NoDotInDecimal(q[0]); NoDotInDecimal(q[1]); NoDotInDecimal(q[2]); NoDotInDecimal(q[3]);
    var t3 := d3;
    var t2 := d2 + ['.'] + t3;
    var t1 := d1 + ['.'] + t2;
    var t0 := d0 + ['.'] + t1;
    assert DottedQuad(q) == t0;
    SplitNoSep(d3, '.');
    SplitFirst(d2, '.', t3);
    SplitFirst(d1, '.', t2);
    SplitFirst(d0, '.', t1);
  }

  /** Rendering four numbers and reading them back gives the same numbers. */
  lemma DottedQuadRoundTrip(q: seq<nat>)
    requires |q| == 4
    ensures ParseDotted(DottedQuad(q)) == q
  {
    DottedQuadFields(q);
    DecimalRoundTrip(q[0]); DecimalRoundTrip(q[1]); DecimalRoundTrip(q[2]); DecimalRoundTrip(q[3]);
  }

  /** Octets render to between seven and fifteen characters. */
  lemma DottedQuadLength(q: seq<nat>)
    requires |q| == 4 && forall i :: 0 <= i < 4 ==> q[i] < 256
    ensures 7 <= |DottedQuad(q)| <= 15
  {
    DecimalLength(q[0]); DecimalLength(q[1]); DecimalLength(q[2]); DecimalLength(q[3]);
  }
}
