/** Products and quotients, in the few shapes the other modules need. */
module Arithmetic {

  lemma ProductMonotone(d: nat, x: int, y: int)
    ensures x <= y ==> d * x <= d * y
  {
    if x <= y {
      assert d * y - d * x == d * (y - x);
    }
  }

  lemma QuotientMonotone(a: nat, b: nat, d: nat)
    requires d > 0 && a <= b
    ensures a / d <= b / d
  {
    var p, q := a / d, b / d;
    assert a == d * p + a % d && b == d * q + b % d;
    ProductMonotone(d, q + 1, p);
    assert d * (q + 1) == d * q + d;
  }

  lemma QuotientBound(a: nat, d: nat)
    requires d > 0
    ensures 0 <= a / d <= a
  {
    var q := a / d;
    assert a == d * q + a % d;
    ProductMonotone(d, q, -1);
    ProductMonotone(q, 1, d);
  }

  lemma QuotientStep(x: nat, k: nat)
    requires k > 0
    ensures (x + k) / k == (x + k - 1) / k + (if x % k == 0 then 1 else 0)
  {
    var q, r := x / k, x % k;
    assert x == k * q + r;
    QuotientIs(x + k, k, q + 1, r);
    if r == 0 {
      QuotientIs(x + k - 1, k, q, k - 1);
    } else {
      QuotientIs(x + k - 1, k, q + 1, r - 1);
    }
  }

  lemma QuotientIs(x: int, k: nat, q: int, r: nat)
    requires r < k && x == k * q + r
    ensures x / k == q
  {
    var d := x / k - q;
    assert k * d == r - x % k;
    ProductBounds(k, d);
  }

  lemma ProductBounds(k: nat, d: int)
    ensures d >= 1 ==> k * d >= k
    ensures d <= -1 ==> k * d <= 0 - k
  {
  }

  lemma MultiplesOfMultiples(x: nat, k: nat, j: nat)
    requires k > 0 && j > 0
    ensures k * j > 0 && (x % (k * j) == 0 ==> x % k == 0)
  {
    var q := x / (k * j);
    if x % (k * j) == 0 {
      assert x == k * j * q == k * (j * q) + 0;
      QuotientIs(x, k, j * q, 0);
    }
  }

  lemma QuotientBelow(x: nat, k: nat, bound: nat)
    requires k > 0 && x < bound * k
    ensures x / k < bound
  {
    assert x == k * (x / k) + x % k;
    ProductMonotone(k, bound, x / k);
  }

  /** Comparing numbers digit group by digit group. */
  lemma MixedRadix(a: nat, b: nat, k: nat)
    requires k > 0
    ensures a < b <==> a / k < b / k || (a / k == b / k && a % k < b % k)
    ensures a == b <==> a / k == b / k && a % k == b % k
  {
    assert a == k * (a / k) + a % k && b == k * (b / k) + b % k;
    ProductMonotone(k, a / k + 1, b / k);
    ProductMonotone(k, b / k + 1, a / k);
  }
}
