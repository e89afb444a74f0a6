/** Decimal rendering of unsigned integers, as `to_string` and `{}` have it: the digits from
    the most significant on, without leading zeros.  How many there are is what a truncation
    marker's length depends on, and that they differ is what keeps fingerprints apart. */
module Decimal {

  function Digit(d: nat): char
    requires d < 10
  {
    "0123456789"[d]
  }

  function Render(n: nat): string {
    if n < 10 then [Digit(n)] else Render(n / 10) + [Digit(n % 10)]
  }

  function Pow10(k: nat): nat {
    if k == 0 then 1 else 10 * Pow10(k - 1)
  }

  /** A number has at most `k` digits exactly when it is below ten to the `k`. */
  lemma {:induction false} DigitCount(n: nat, k: nat)
    requires k > 0
    ensures |Render(n)| <= k <==> n < Pow10(k)
    decreases n
  {
    if n < 10 {
      PowIsPositive(k - 1);
      assert Pow10(k) >= 10;
    } else if k == 1 {
      assert Pow10(1) == 10 * Pow10(0);
      assert |Render(n / 10)| >= 1;
    } else {
      DigitCount(n / 10, k - 1);
    }
  }

  lemma {:induction false} PowIsPositive(k: nat)
    ensures Pow10(k) >= 1
  {
    if k > 0 {
      PowIsPositive(k - 1);
    }
  }

  predicate IsDigits(s: string) {
    forall c <- s :: '0' <= c <= '9'
  }

  lemma {:induction false} RenderIsDigits(n: nat)
    ensures |Render(n)| >= 1 && IsDigits(Render(n))
  {
    if n >= 10 {
      RenderIsDigits(n / 10);
    }
  }

  /** Different numbers are rendered differently. */
  lemma {:induction false} RenderInjective(m: nat, n: nat)
    requires Render(m) == Render(n)
    ensures m == n
    decreases m
  {
    if m >= 10 && n >= 10 {
      var a, b := Render(m / 10), Render(n / 10);
      assert (a + [Digit(m % 10)])[|a|] == (b + [Digit(n % 10)])[|b|];
      assert a == (a + [Digit(m % 10)])[..|a|] == b;
      RenderInjective(m / 10, n / 10);
    } else if m >= 10 {
      RenderIsDigits(m / 10);
    } else if n >= 10 {
      RenderIsDigits(n / 10);
    }
  }
}
