/** Decimal numerals: what std::to_string prints, and what a string of digits is worth. */
module Decimals {
  import opened Types

  predicate IsDigit(c: char) {
    '0' <= c <= '9'
  }

  function DigitValue(c: char): (d: nat)
    requires IsDigit(c)
    ensures d < 10
  {
    c as int - '0' as int
  }

  function Digit(d: nat): (c: char)
    requires d < 10
    ensures IsDigit(c) && DigitValue(c) == d
  {
    (d + '0' as int) as char
  }

  predicate AllDigits(s: string) {
    forall i :: 0 <= i < |s| ==> IsDigit(s[i])
  }

  function Pow10(k: nat): nat {
    if k == 0 then 1 else 10 * Pow10(k - 1)
  }

  function Value(s: string): nat
    requires AllDigits(s)
  {
    if s == [] then 0 else 10 * Value(Init(s)) + DigitValue(Last(s))
  }

  /** The digits put after a numeral shift it by their number. */
  lemma {:induction false} ValueInTwo(a: string, b: string)
    requires AllDigits(a) && AllDigits(b)
    ensures Value(a + b) == Value(a) * Pow10(|b|) + Value(b)
    decreases |b|
  {
    if b == [] {
      assert a + b == a;
    } else {
      var head, last := Init(b), Last(b);
      ValueInTwo(a, head);
      assert b == head + [last];
      Joined(a, head, [last]);
      SnocParts(a + head, last);
      assert 10 * (Value(a) * Pow10(|head|)) == Value(a) * Pow10(|b|);
    }
  }

  function Print(n: nat): string {
    if n < 10 then [Digit(n)] else Print(n / 10) + [Digit(n % 10)]
  }

  /** A printed number is a nonempty string of digits, without a leading zero unless
      the number is zero, and is worth the number. */
  lemma {:induction false} PrintIsRead(n: nat)
    ensures Print(n) != [] && AllDigits(Print(n)) && Value(Print(n)) == n
    ensures Print(n)[0] == '0' ==> n == 0
  {
    if n < 10 {
      assert Init(Print(n)) == [];
      assert Value([]) == 0;
    } else {
      PrintIsRead(n / 10);
      SnocParts(Print(n / 10), Digit(n % 10));
    }
  }

  lemma {:induction false} PrintLength(n: nat, k: nat)
    requires 1 <= k && n < Pow10(k)
    ensures |Print(n)| <= k
  {
    if n >= 10 {
      assert k > 1 by {
        assert Pow10(1) == 10 * Pow10(0);
      }
      PrintLength(n / 10, k - 1);
    }
  }
}
