/** Python's `round(x, n)` over the reals: to the nearest multiple, ties to even. */
module Rounding {

  function RoundInt(x: real): int {
    var f := x.Floor;
    var d := x - f as real;
    if d < 0.5 then f else if d > 0.5 then f + 1 else if f % 2 == 0 then f else f + 1
  }

  /** `scale` is 10 to the number of decimals kept. */
  function Round(x: real, scale: real): real
    requires scale > 0.0
  {
    RoundInt(x * scale) as real / scale
  }

  lemma RoundIntNear(x: real)
    ensures -0.5 <= RoundInt(x) as real - x <= 0.5
  {
  }

  /** To the nearest whole number, and to the even one of two that are equally near. */
  lemma RoundsToIff(x: real, n: int)
    ensures RoundInt(x) == n <==>
      -0.5 < n as real - x < 0.5 || ((n as real - x == 0.5 || n as real - x == -0.5) && n % 2 == 0)
  {
  }

  /** A rounded number is a whole number of units of the last decimal, the one nearest. */
  lemma RoundIsWhole(x: real, scale: real)
    requires scale > 0.0
    ensures Round(x, scale) * scale == RoundInt(x * scale) as real
  {
  }

  lemma RoundIntMonotone(x: real, y: real)
    requires x <= y
    ensures RoundInt(x) <= RoundInt(y)
  {
  }

  lemma MulNonneg(a: real, b: real)
    requires 0.0 <= a && 0.0 <= b
    ensures 0.0 <= a * b
  {
  }

  lemma MulMonotone(x: real, y: real, c: real)
    requires x <= y && 0.0 < c
    ensures x * c <= y * c
  {
    assert (y - x) * c >= 0.0;
  }

  lemma DivideMonotone(a: real, b: real, c: real)
    requires a <= b && 0.0 < c
    ensures a / c <= b / c
  {
  }

  lemma RoundMonotone(x: real, y: real, scale: real)
    requires scale > 0.0 && x <= y
    ensures Round(x, scale) <= Round(y, scale)
  {
    MulMonotone(x, y, scale);
    RoundIntMonotone(x * scale, y * scale);
    DivideMonotone(RoundInt(x * scale) as real, RoundInt(y * scale) as real, scale);
  }

  lemma CancelMul(a: real, b: real, c: real)
    requires 0.0 < c && a * c <= b * c
    ensures a <= b
  {
  }

  lemma QuotientNear(n: real, x: real, c: real)
    requires 0.0 < c && -0.5 <= n - x * c <= 0.5
    ensures n / c - x <= 0.5 / c && x - n / c <= 0.5 / c
  {
    var q := n / c;
    var h := 0.5 / c;
    assert q * c == n && h * c == 0.5;
    assert (q - x) * c == n - x * c;
    CancelMul(q - x, h, c);
    assert (x - q) * c == x * c - n;
    CancelMul(x - q, h, c);
  }

  lemma RoundNear(x: real, scale: real)
    requires scale > 0.0
    ensures Round(x, scale) - x <= 0.5 / scale
    ensures x - Round(x, scale) <= 0.5 / scale
  {
    RoundIntNear(x * scale);
    QuotientNear(RoundInt(x * scale) as real, x, scale);
  }

  /** A total of `n` numbers, each between `lo` and `hi`. */
  predicate TotalIn(n: nat, total: real, lo: real, hi: real) {
    n as real * lo <= total <= n as real * hi
  }

  lemma TotalInWidens(n: nat, total: real, lo: real, hi: real, lo': real, hi': real)
    requires TotalIn(n, total, lo, hi) && lo' <= lo && hi <= hi'
    ensures TotalIn(n, total, lo', hi')
  {
    MulNonneg(n as real, lo - lo');
    MulNonneg(n as real, hi' - hi);
  }

  lemma TotalInAdds(n: nat, total: real, m: nat, more: real, lo: real, hi: real)
    requires TotalIn(n, total, lo, hi) && TotalIn(m, more, lo, hi)
    ensures TotalIn(n + m, total + more, lo, hi)
  {
    assert (n + m) as real == n as real + m as real;
    assert (n as real + m as real) * lo == n as real * lo + m as real * lo;
    assert (n as real + m as real) * hi == n as real * hi + m as real * hi;
  }

  /** A mean lies between the extremes, before and after rounding. */
  lemma MeanIn(n: nat, total: real, lo: real, hi: real, scale: real)
    requires n > 0 && TotalIn(n, total, lo, hi) && scale > 0.0
    ensures lo <= total / n as real <= hi
    ensures Round(lo, scale) <= Round(total / n as real, scale) <= Round(hi, scale)
  {
    var m := n as real;
    var q := total / m;
    assert q * m == total;
    CancelMul(lo, q, m);
    CancelMul(q, hi, m);
    RoundMonotone(lo, q, scale);
    RoundMonotone(q, hi, scale);
  }
}
