/** The few facts about `/` and `%` by a variable that the ring and the bucket edges need. */
module DivMod {

  lemma SmallMultiple(d: int, c: int)
    requires -c < d * c < c
    ensures d == 0
  {}

  /** Quotient and remainder are determined by `a == q * d + r` with `r < d`. */
  lemma Unique(a: int, q: int, r: nat, d: nat)
    requires r < d && a == q * d + r
    ensures a / d == q && a % d == r
  {
    assert a == (a / d) * d + a % d;
    assert (a / d - q) * d == (a / d) * d - q * d;
    SmallMultiple(a / d - q, d);
  }

  lemma Mono(a: nat, b: nat, d: nat)
    requires a <= b && d > 0
    ensures a / d <= b / d
  {
    var x, y := a / d, b / d;
    assert a == x * d + a % d && b == y * d + b % d;
    assert (x - y) * d == x * d - y * d;
    MulPositive(x - y, d);
  }

  /** A positive multiple of `d` is at least `d`. */
  lemma MulPositive(n: int, d: nat)
    ensures n >= 1 ==> n * d >= d
  {}

  lemma MulMono(a: nat, b: nat, c: nat)
    requires a <= b
    ensures a * c <= b * c
  {}

  /** Adding `n` whole divisors adds `n` to the quotient. */
  lemma AddMultiple(a: nat, n: nat, d: nat)
    requires d > 0
    ensures (a + n * d) / d == a / d + n && (a + n * d) % d == a % d
  {
    assert a == (a / d) * d + a % d;
    assert (a / d + n) * d == (a / d) * d + n * d;
    Unique(a + n * d, a / d + n, a % d, d);
  }

  /** Two numbers less than `d` apart have different remainders. */
  lemma Distinct(i: nat, j: nat, d: nat)
    requires i < j < i + d
    ensures i % d != j % d
  {
    assert i == (i / d) * d + i % d && j == (j / d) * d + j % d;
    if i % d == j % d {
      assert (j / d - i / d) * d == (j / d) * d - (i / d) * d;
      SmallMultiple(j / d - i / d, d);
    }
  }
}
