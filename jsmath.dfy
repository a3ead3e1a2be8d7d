/** Whole-number forms of the floating-point `Math.round` / `Math.floor` expressions
    the source evaluates. Each function states the real-number meaning of the
    expression it stands for. */
module JsMath {

  /** `Math.round(n * f)` for a whole n and a factor f = k/10 (0.5, 0.4, 0.3, 0.2):
      the nearest whole number to n*k/10, half-way cases rounded up. */
  function RoundTenths(n: int, k: nat): (r: int)
    ensures 10 * r <= k * n + 5 < 10 * r + 10
  {
    (k * n + 5) / 10
  }

  /** `Math.floor(c / f)` for f = k/10 (0.5, 0.3, 0.2): the largest whole r with
      r * f <= c. */
  function FloorOverTenths(c: int, k: nat): (r: int)
    requires k > 0
    ensures r * k <= 10 * c < (r + 1) * k
  {
    DivBounds(10 * c, k);
    (10 * c) / k
  }

  /** `Math.round((c / n) * scale)`: the nearest whole number to c*scale/n,
      half-way cases rounded up. */
  function RoundRatio(c: int, n: int, scale: nat): (r: int)
    requires n > 0
    ensures 2 * n * r <= 2 * scale * c + n < 2 * n * r + 2 * n
  {
    DivBounds(2 * scale * c + n, 2 * n);
    (2 * scale * c + n) / (2 * n)
  }

  lemma DivBounds(a: int, b: int)
    requires b > 0
    ensures (a / b) * b <= a < (a / b) * b + b
  {
  }
}
