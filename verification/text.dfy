/** Decimal digits and string splitting, as used by Python's `'%0Nd' % n`,
    `int(s)` and `s.split(c)` in the modelled code.
 */
module Text {

  predicate IsDigit(c: char) {
    '0' <= c <= '9'
  }

  predicate AllDigits(s: string) {
    forall i :: 0 <= i < |s| ==> IsDigit(s[i])
  }

  function DigitChar(d: nat): (c: char)
    requires d < 10
    ensures IsDigit(c)
  {
    ('0' as int + d) as char
  }

  function DigitValue(c: char): (d: nat)
    requires IsDigit(c)
    ensures d < 10
    ensures DigitChar(d) == c
  {
    c as int - '0' as int
  }

  /** `'%0{width}d' % n`: the decimal digits of `n`, left-padded with '0' to
      at least `width` characters (`width` 0 or 1 is plain `'%d'`). */
  function Digits(n: nat, width: nat): (s: string)
    ensures 1 <= |s| && width <= |s|
    ensures AllDigits(s)
    decreases n, width
  {
    if n < 10 && width <= 1 then [DigitChar(n)]
    else Digits(n / 10, if width == 0 then 0 else width - 1) + [DigitChar(n % 10)]
  }

  /** The value of a string of decimal digits, as Python's `int(s)` computes it. */
  function ParseNat(s: string): nat
    requires AllDigits(s)
  {
    if |s| == 0 then 0 else ParseNat(s[..|s| - 1]) * 10 + DigitValue(s[|s| - 1])
  }

  /** Parsing undoes printing, padding or not. */
  lemma {:induction false} ParseDigits(n: nat, width: nat)
    ensures ParseNat(Digits(n, width)) == n
    decreases n, width
  {
    if n < 10 && width <= 1 {
    } else {
      var w := if width == 0 then 0 else width - 1;
      var front := Digits(n / 10, w);
      var s := front + [DigitChar(n % 10)];
      assert s[..|s| - 1] == front;
      ParseDigits(n / 10, w);
    }
  }

  /** Printed numbers are equal only when the numbers are. */
  lemma DigitsInjective(m: nat, n: nat, wm: nat, wn: nat)
    requires Digits(m, wm) == Digits(n, wn)
    ensures m == n
  {
    ParseDigits(m, wm);
    ParseDigits(n, wn);
  }

  function Pow10(e: nat): (p: nat)
    ensures p >= 1
  {
    if e == 0 then 1 else 10 * Pow10(e - 1)
  }

  /** A number below 10^width prints in exactly `width` characters. */
  lemma {:induction false} DigitsLength(n: nat, width: nat)
    requires 1 <= width && n < Pow10(width)
    ensures |Digits(n, width)| == width
    decreases width
  {
    if n < 10 && width <= 1 {
    } else if width == 1 {
      assert false;
    } else {
      DigitsLength(n / 10, width - 1);
    }
  }

  /** Python's `s.split(sep)` for a one-character separator: the pieces
      between separators, always at least one. */
  function Split(s: string, sep: char): (parts: seq<string>)
    ensures |parts| >= 1
  {
    if |s| == 0 then [""]
    else
      var rest := Split(s[1..], sep);
      if s[0] == sep then [""] + rest
      else [[s[0]] + rest[0]] + rest[1..]
  }

  /** A string without the separator splits into itself. */
  lemma {:induction false} SplitNone(s: string, sep: char)
    requires sep !in s
    ensures Split(s, sep) == [s]
  {
    if |s| > 0 {
      assert sep !in s[1..];
      SplitNone(s[1..], sep);
      assert [s[0]] + s[1..] == s;
    }
  }

  /** Splitting at the first separator: the piece before it, then the split of the rest. */
  lemma {:induction false} SplitFirst(a: string, sep: char, b: string)
    requires sep !in a
    ensures Split(a + [sep] + b, sep) == [a] + Split(b, sep)
  {
    if |a| == 0 {
      assert a + [sep] + b == [sep] + b;
      assert ([sep] + b)[1..] == b;
    } else {
      var s := a + [sep] + b;
      assert s[0] == a[0];
      assert s[1..] == a[1..] + [sep] + b;
      assert sep !in a[1..];
      SplitFirst(a[1..], sep, b);
      assert [a[0]] + a[1..] == a;
    }
  }

  /** The pieces of `a sep b sep c`, none containing `sep`. */
  lemma SplitThree(a: string, b: string, c: string, sep: char)
    requires sep !in a && sep !in b && sep !in c
    ensures Split(a + [sep] + b + [sep] + c, sep) == [a, b, c]
  {
    assert a + [sep] + b + [sep] + c == a + [sep] + (b + [sep] + c);
    SplitFirst(a, sep, b + [sep] + c);
    SplitFirst(b, sep, c);
    SplitNone(c, sep);
  }

  /** The pieces of `a sep b`, neither containing `sep`. */
  lemma SplitTwo(a: string, b: string, sep: char)
    requires sep !in a && sep !in b
    ensures Split(a + [sep] + b, sep) == [a, b]
  {
    SplitFirst(a, sep, b);
    SplitNone(b, sep);
  }

  /** A digit string contains no non-digit character. */
  lemma DigitsExclude(s: string, c: char)
    requires AllDigits(s) && !IsDigit(c)
    ensures c !in s
  {
  }

  predicate StartsWith(s: string, prefix: string) {
    |prefix| <= |s| && s[..|prefix|] == prefix
  }
}
