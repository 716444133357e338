/** Decimal text and colon-separated text. */
module Text {
  function Digit(n: nat): (c: char)
    requires n < 10
    ensures '0' <= c <= '9'
  {
    '0' + n as char
  }

  predicate IsDigit(c: char) {
    '0' <= c <= '9'
  }

  function DigitValue(c: char): (n: nat)
    requires IsDigit(c)
    ensures n < 10 && Digit(n) == c
  {
    c as int - '0' as int
  }

  predicate AllDigits(s: string) {
    forall i | 0 <= i < |s| :: IsDigit(s[i])
  }

  /** `String(n)` for a non-negative integer. */
  function Decimal(n: nat): (s: string)
    ensures |s| > 0 && AllDigits(s)
  {
    if n < 10 then [Digit(n)] else Decimal(n / 10) + [Digit(n % 10)]
  }

  /** `String(n)` for an integer. */
  function NumberText(n: int): (s: string)
    ensures |s| > 0
  {
    if n < 0 then "-" + Decimal(-n) else Decimal(n)
  }

  /** `+s` for a string of digits. */
  function Value(s: string): nat
    requires AllDigits(s)
  {
    if s == [] then 0 else 10 * Value(s[..|s| - 1]) + DigitValue(s[|s| - 1])
  }

  lemma {:induction false} ValueOfDecimal(n: nat)
    ensures Value(Decimal(n)) == n
  {
    if n < 10 {
      assert Decimal(n)[..0] == [];
    } else {
      ValueOfDecimal(n / 10);
      assert Decimal(n)[..|Decimal(n)| - 1] == Decimal(n / 10);
    }
  }

  lemma DecimalInjective(m: nat, n: nat)
    requires Decimal(m) == Decimal(n)
    ensures m == n
  {
    ValueOfDecimal(m);
    ValueOfDecimal(n);
  }

  predicate NoColon(s: string) {
    ':' !in s
  }

  lemma LastColonFurtherRight(a: string, x: string, b: string, y: string)
    requires NoColon(y) && |x| < |y|
    ensures a + ":" + x != b + ":" + y
  {
    var s, t := a + ":" + x, b + ":" + y;
    if |s| == |t| {
      assert s[|a|] == ':';
      assert t[|a|] == y[|a| - |b| - 1];
    }
  }

  /** The text after the last colon determines the split. */
  lemma LastColon(a: string, x: string, b: string, y: string)
    requires NoColon(x) && NoColon(y)
    requires a + ":" + x == b + ":" + y
    ensures a == b && x == y
  {
    assert |x| == |y| by {
      if |x| < |y| {
        LastColonFurtherRight(a, x, b, y);
      } else if |y| < |x| {
        LastColonFurtherRight(b, y, a, x);
      }
    }
    var s, t := a + ":" + x, b + ":" + y;
    assert s[..|a|] == a && t[..|b|] == b;
    assert s[|a| + 1..] == x && t[|b| + 1..] == y;
  }

  lemma FirstColonFurtherLeft(x: string, a: string, y: string, b: string)
    requires NoColon(y) && |x| < |y|
    ensures x + ":" + a != y + ":" + b
  {
    assert (x + ":" + a)[|x|] == ':' && (y + ":" + b)[|x|] == y[|x|];
  }

  /** The text before the first colon determines the split. */
  lemma FirstColon(x: string, a: string, y: string, b: string)
    requires NoColon(x) && NoColon(y)
    requires x + ":" + a == y + ":" + b
    ensures x == y && a == b
  {
    assert |x| == |y| by {
      if |x| < |y| {
        FirstColonFurtherLeft(x, a, y, b);
      } else if |y| < |x| {
        FirstColonFurtherLeft(y, b, x, a);
      }
    }
    var s, t := x + ":" + a, y + ":" + b;
    assert s[..|x|] == x && t[..|y|] == y;
    assert s[|x| + 1..] == a && t[|y| + 1..] == b;
  }

  lemma SamePrefix(p: string, a: string, b: string)
    ensures p + a == p + b <==> a == b
  {
    assert (p + a)[|p|..] == a && (p + b)[|p|..] == b;
  }
}
