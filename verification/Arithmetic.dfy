/** Small arithmetic shared by the models. */
module Arithmetic {
  function Min(a: int, b: int): int { if a <= b then a else b }

  function MinReal(a: real, b: real): real { if a <= b then a else b }

  function MaxReal(a: real, b: real): real { if a >= b then a else b }

  function Abs(a: real): real { if a >= 0.0 then a else -a }

  lemma CancelFactor(x: real, y: real, c: real)
    requires c > 0.0 && x * c <= y * c
    ensures x <= y
  {
  }

  lemma ScaleBetween(low: real, x: real, high: real, c: real, product: real)
    requires c > 0.0 && low <= x <= high && x * c == product
    ensures low * c <= product <= high * c
  {
    Scale(low, x, c);
    Scale(x, high, c);
  }

  lemma Scale(a: real, b: real, c: real)
    requires a <= b && c >= 0.0
    ensures a * c <= b * c
  {
  }

  lemma QuotientAtMost(a: real, b: real, most: real)
    requires b > 0.0 && a <= most * b
    ensures a / b <= most
  {
    var f := a / b;
    assert f * b == a;
    CancelFactor(f, most, b);
  }

  lemma QuotientAtLeast(a: real, b: real, least: real)
    requires b > 0.0 && least * b <= a
    ensures least <= a / b
  {
    var f := a / b;
    assert f * b == a;
    CancelFactor(least, f, b);
  }

  lemma Divided(a: real, b: real)
    requires b > 0.0
    ensures a / b * b == a
  {
  }
}
