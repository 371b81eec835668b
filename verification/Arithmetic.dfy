/** Products and floor division. */
module Arithmetic {

  lemma DivBounds(n: int, d: int)
    requires d > 0
    ensures n / d * d <= n < n / d * d + d
  {
  }

  lemma MulMonotone(a: int, b: int, d: int)
    requires a <= b && d >= 0
    ensures a * d <= b * d
  {
  }

  lemma MulCancel(a: int, b: int, d: int)
    requires d > 0 && a * d < b * d
    ensures a < b
  {
  }

  lemma Distribute(f: int, p: int, q: int)
    ensures (p - q) * f == p * f - q * f
  {
  }

  lemma DivMonotone(m: int, n: int, d: int)
    requires m <= n && d > 0
    ensures m / d <= n / d
  {
    DivBounds(m, d);
    DivBounds(n, d);
    if m / d > n / d {
      MulMonotone(n / d + 1, m / d, d);
      assert false;
    }
  }

  lemma MulDiv(d: int, w: int)
    requires w > 0
    ensures d * w / w == d
  {
    DivBounds(d * w, w);
    var q := d * w / w;
    if q < d {
      MulMonotone(q + 1, d, w);
      assert false;
    }
    if q > d {
      MulMonotone(d + 1, q, w);
      assert false;
    }
  }
}
