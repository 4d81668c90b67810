/** Facts about quotients and remainders. */
module Arithmetic {

  lemma ModSuccessor(a: nat, b: nat, n: nat)
    requires n >= 1 && a % n == b % n
    ensures (a + 1) % n == (b + 1) % n
  {
    assert (a + 1) % n == (a % n + 1) % n by { ModOfSum(a, n); }
    assert (b + 1) % n == (b % n + 1) % n by { ModOfSum(b, n); }
  }

  lemma ModOfSum(a: nat, n: nat)
    requires n >= 1
    ensures (a + 1) % n == (a % n + 1) % n
  {
    var q, r := a / n, a % n;
    assert a == q * n + r;
    if r + 1 < n {
      QuotientUnique(a + 1, n, q, r + 1);
    } else {
      assert (q + 1) * n == q * n + n;
      QuotientUnique(a + 1, n, q + 1, 0);
      QuotientUnique(r + 1, n, 1, 0);
    }
  }

  lemma QuotientUnique(a: nat, n: nat, q: nat, r: nat)
    requires n >= 1 && a == q * n + r && r < n
    ensures a % n == r
  {
    var d := a / n - q;
    assert d * n == r - a % n;
    assert d >= 1 ==> d * n >= n;
    assert d <= -1 ==> d * n <= -1 * n;
  }

  lemma DivisionReflectsOrder(a: nat, b: nat, n: nat)
    requires n > 0
    ensures a / n < b / n ==> a < b
  {
    if a / n < b / n {
      var q, r := a / n, b / n;
      assert a < n * (q + 1) && n * r <= b;
      assert n * (q + 1) <= n * r by { MulMonotone(n, q + 1, r); }
    }
  }

  lemma MulMonotone(n: nat, a: nat, b: nat)
    requires a <= b
    ensures n * a <= n * b
  {}

  lemma DivisionSplits(a: nat, n: nat)
    requires n >= 1
    ensures a == (a / n) * n + a % n && a % n < n
  {}
}
