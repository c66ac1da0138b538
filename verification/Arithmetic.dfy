/** Multiplication and division by a variable, in steps that the verifier takes easily. */
module Arithmetic {

  /** `count * k`, by repeated addition. */
  function Times(count: nat, k: nat): nat {
    if count == 0 then 0 else Times(count - 1, k) + k
  }

  lemma OneMore(a: int, k: int)
    ensures (a + 1) * k == a * k + k
  {
  }

  lemma {:induction false} TimesIsProduct(count: nat, k: nat)
    ensures Times(count, k) == count * k
  {
    if count == 0 {
    } else {
      TimesIsProduct(count - 1, k);
      OneMore(count - 1, k);
    }
  }

  lemma TimesAdds(n: nat, m: nat, k: nat)
    ensures Times(n + m, k) == Times(n, k) + Times(m, k)
  {
    TimesIsProduct(n, k);
    TimesIsProduct(m, k);
    TimesIsProduct(n + m, k);
  }

  lemma ProductsAssociate(a: int, b: int, c: int)
    ensures (a * b) * c == a * (b * c)
  {
  }

  lemma TimesAssociate(a: nat, b: nat, c: nat)
    ensures Times(Times(a, b), c) == Times(a, Times(b, c))
  {
    TimesIsProduct(a, b);
    TimesIsProduct(b, c);
    TimesIsProduct(Times(a, b), c);
    TimesIsProduct(a, Times(b, c));
    ProductsAssociate(a, b, c);
  }

  lemma TimesMonotone(a: int, b: int, k: nat)
    requires a <= b
    ensures a * k <= b * k
  {
  }

  lemma TimesGrows(a: nat, b: nat, k: nat)
    requires a <= b
    ensures Times(a, k) <= Times(b, k)
  {
    TimesIsProduct(a, k);
    TimesIsProduct(b, k);
    TimesMonotone(a, b, k);
  }

  lemma TimesNext(n: nat, k: nat)
    ensures Times(n + 1, k) == Times(n, k) + k
  {
  }

  lemma Remainder(n: int, k: nat)
    requires 0 < k
    ensures n == (n / k) * k + n % k && 0 <= n % k < k
  {
  }

  /** Quotient and remainder are determined by their defining equation. */
  lemma QuotientIs(n: int, k: nat, q: int, r: nat)
    requires n == q * k + r && r < k
    ensures n / k == q && n % k == r
  {
    var d := n / k;
    Remainder(n, k);
    OneMore(d, k);
    OneMore(q, k);
    if d < q {
      TimesMonotone(d + 1, q, k);
    } else if q < d {
      TimesMonotone(q + 1, d, k);
    }
  }

  lemma TimesQuotient(n: nat, k: nat)
    requires 0 < k && n % k == 0
    ensures Times(n / k, k) == n
  {
    Remainder(n, k);
    TimesIsProduct(n / k, k);
  }

  /** Integer division that rounds towards minus infinity. */
  function FloorDiv(a: int, b: int): int
    requires b != 0
  {
    if b > 0 then a / b else (-a) / (-b)
  }

  function CeilDiv(a: int, b: int): int
    requires b != 0
  {
    -FloorDiv(a, -b)
  }

  /** The quotient rounded up is the least number of `b`s that cover `a`. */
  lemma {:induction false} CeilDivIsLeast(a: int, b: nat, q: int)
    requires 0 < b
    ensures a <= q * b <==> CeilDiv(a, b) <= q
  {
    var c := CeilDiv(a, b);
    Remainder(-a, b);
    assert ((-a) / b) * b == -(c * b);
    OneMore(c - 1, b);
    if c <= q {
      TimesMonotone(c, q, b);
    } else {
      TimesMonotone(q, c - 1, b);
    }
  }

  /** The quotient of natural numbers is natural. */
  function Quotient(n: nat, k: nat): (q: nat)
    requires 0 < k
    ensures q == n / k
  {
    n / k
  }
}
