/** Integer facts the solver needs spelled out: quotients, and C's truncating division. */
module Arith {

  function Min(a: nat, b: nat): (r: nat)
    ensures r <= a && r <= b
  {
    if a < b then a else b
  }

  /** C's `/`: the quotient truncated toward zero. */
  function Trunc(a: int, b: int): int
    requires b > 0
  {
    if a >= 0 then a / b else -((-a) / b)
  }

  /** Division of unsigned values: the quotient never exceeds the dividend. */
  function Quot(a: nat, b: nat): (q: nat)
    requires b > 0
    ensures q <= a
  {
    QuotLe(a, b);
    a / b
  }

  lemma QuotLe(a: nat, b: nat)
    requires b > 0
    ensures 0 <= a / b <= a
  {
    DivBounds(a, b);
    MulLe(1, b, a / b);
  }

  lemma MulLe(a: int, b: int, n: nat)
    requires a <= b
    ensures a * n <= b * n
  {
  }

  lemma DivBounds(a: int, n: int)
    requires n > 0
    ensures n * (a / n) <= a < n * (a / n) + n
  {
  }

  /** `q` is the quotient as soon as it brackets the dividend. */
  lemma DivIs(a: int, n: int, q: int)
    requires n > 0 && n * q <= a < n * q + n
    ensures a / n == q
  {
    DivBounds(a, n);
    if a / n < q {
      MulLe(a / n + 1, q, n);
    } else if q < a / n {
      MulLe(q + 1, a / n, n);
    }
  }

  lemma DivMonotone(a: int, b: int, n: int)
    requires a <= b && n > 0
    ensures a / n <= b / n
  {
    DivBounds(a, n);
    DivBounds(b, n);
    if a / n > b / n {
      MulLe(b / n + 1, a / n, n);
    }
  }

  lemma ModIs(a: int, n: int, q: int)
    requires n > 0 && n * q <= a < n * q + n
    ensures a % n == a - n * q
  {
    DivIs(a, n, q);
    assert a == n * (a / n) + a % n;
  }

  lemma DivBetween(a: int, n: int, low: int, high: int)
    requires n > 0 && n * low <= a < n * (high + 1)
    ensures low <= a / n <= high
  {
    assert n * (high + 1) == n * high + n;
    DivIs(n * low, n, low);
    DivMonotone(n * low, a, n);
    DivIs(n * high + n - 1, n, high);
    DivMonotone(a, n * high + n - 1, n);
  }
}
