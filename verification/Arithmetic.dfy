/** The few nonlinear facts the models need. */
module Arithmetic {

  lemma MulMonotone(c: int, x: int, y: int)
    requires c >= 0 && x <= y
    ensures c * x <= c * y && x * c <= y * c
  {
    assert c * (y - x) >= 0;
  }

  lemma MulCancel(c: int, x: int, y: int)
    requires c >= 0 && x * c < y * c
    ensures x < y
  {
    assert y <= x ==> (x - y) * c >= 0;
  }

  lemma QuotientBounds(a: int, b: int)
    requires b > 0
    ensures (a / b) * b <= a < (a / b + 1) * b
  {
    assert a == (a / b) * b + a % b;
  }

  lemma QuotientAtLeast(x: int, c: int, q: int)
    requires c > 0
    ensures x / c >= q <==> x >= q * c
  {
    QuotientBounds(x, c);
    if x / c >= q {
      MulMonotone(c, q, x / c);
    } else {
      MulMonotone(c, x / c + 1, q);
    }
  }

  lemma QuotientUnique(x: int, c: int, q: int, r: int)
    requires c >= 1 && x == q * c + r && 0 <= r < c
    ensures x / c == q
  {
    var d := x / c - q;
    assert d * c == r - x % c;
    assert d >= 1 ==> d * c >= c;
    assert d <= -1 ==> d * c <= -c;
  }
}
