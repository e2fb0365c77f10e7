/** The few facts about integer division that the planners rest on. */
module Arithmetic {

  lemma MulLess(n: int, a: int, b: int)
    requires n >= 1 && n * a < n * b
    ensures a < b
  {
  }

  lemma MulAtMost(n: int, a: int, b: int)
    requires n >= 0 && a <= b
    ensures n * a <= n * b
  {
  }

  lemma DivBounds(a: int, n: int)
    requires n >= 1
    ensures n * (a / n) <= a < n * (a / n) + n
  {
  }

  lemma DivUnique(a: int, n: int, q: int)
    requires n >= 1 && n * q <= a < n * q + n
    ensures a / n == q
  {
    DivBounds(a, n);
    MulLess(n, q, a / n + 1);
    MulLess(n, a / n, q + 1);
  }

  function CeilDiv(a: int, b: int): int
    requires b > 0
  {
    (a + b - 1) / b
  }

  /** Rounding up: the least count c with b * c >= a. */
  lemma CeilDivLeast(a: int, b: int, c: int)
    requires b >= 1
    ensures CeilDiv(a, b) <= c <==> a <= b * c
  {
    DivBounds(a + b - 1, b);
    var d := CeilDiv(a, b);
    if d <= c { MulAtMost(b, d, c); }
    if a <= b * c { MulLess(b, d, c + 1); }
  }

  /** Rounding down: the greatest count c with b * c <= a. */
  lemma DivGreatest(a: int, b: int, c: int)
    requires b >= 1
    ensures c <= a / b <==> b * c <= a
  {
    DivBounds(a, b);
    var d := a / b;
    if c <= d { MulAtMost(b, c, d); }
    if b * c <= a { MulLess(b, c, d + 1); }
  }

  lemma QuotientDifference(n: int, a: int, s: int, x: int, y: int, q: int, u: int)
    requires n >= 1
    requires n * x <= a < n * x + n && n * y <= a + s < n * y + n
    requires n * q <= s < n * q + n && s <= n * u
    ensures q <= y - x <= q + 1 && y - x <= u
  {
    assert n * (y - x) == n * y - n * x;
    MulLess(n, q, y - x + 1);
    MulLess(n, y - x, q + 2);
    MulLess(n, y - x, u + 1);
  }

  /** Adding s before dividing adds floor(s/n) or one more, and no more than s/n
      rounded up. */
  lemma DivStep(a: int, s: int, n: int)
    requires n >= 1
    ensures s / n <= (a + s) / n - a / n <= s / n + 1
    ensures (a + s) / n - a / n <= CeilDiv(s, n)
  {
    DivBounds(a, n);
    DivBounds(a + s, n);
    DivBounds(s, n);
    CeilDivLeast(s, n, CeilDiv(s, n));
    QuotientDifference(n, a, s, a / n, (a + s) / n, s / n, CeilDiv(s, n));
  }
}
