/** The few facts about quotients and remainders that ring positions need. */
module Modular {

  lemma ProductGrows(d: int, n: int)
    requires 0 < n
    ensures 1 <= d ==> n <= d * n
    ensures d <= -1 ==> d * n <= -n
    ensures d <= 0 ==> d * n <= 0
  {
  }

  lemma Uniquely(x: nat, n: nat, q: nat, r: nat)
    requires 0 < n && r < n && x == q * n + r
    ensures x / n == q && x % n == r
  {
    var d: int := x / n - q;
    assert x == (x / n) * n + x % n;
    assert d * n == r - x % n;
    ProductGrows(d, n);
  }

  /** Going one further either stays in the same pass or starts the next one. */
  lemma Successor(p: nat, n: nat)
    requires 0 < n
    ensures p % n + 1 < n ==> (p + 1) % n == p % n + 1 && (p + 1) / n == p / n
    ensures p % n + 1 == n ==> (p + 1) % n == 0 && (p + 1) / n == p / n + 1
  {
    assert p == (p / n) * n + p % n;
    if p % n + 1 < n {
      Uniquely(p + 1, n, p / n, p % n + 1);
    } else {
      assert (p / n + 1) * n == (p / n) * n + n;
      Uniquely(p + 1, n, p / n + 1, 0);
    }
  }

  /** A full turn changes the pass but not the place. */
  lemma FullTurn(p: nat, n: nat)
    requires 0 < n
    ensures (p + n) % n == p % n && (p + n) / n == p / n + 1
  {
    assert p == (p / n) * n + p % n;
    assert (p / n + 1) * n == (p / n) * n + n;
    Uniquely(p + n, n, p / n + 1, p % n);
  }

  /** Two positions less than a turn apart are at different places. */
  lemma DistinctWithinTurn(a: nat, b: nat, n: nat)
    requires 0 < n && a < b < a + n
    ensures a % n != b % n
  {
    var d: int := b / n - a / n;
    assert a == (a / n) * n + a % n && b == (b / n) * n + b % n;
    assert d * n == (b - a) - (b % n - a % n);
    ProductGrows(d, n);
  }

  lemma SmallPosition(i: nat, n: nat)
    requires i < n
    ensures i % n == i && i / n == 0
  {
    Uniquely(i, n, 0, i);
  }
}
