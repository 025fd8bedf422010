/** Small facts about real arithmetic that the money proofs lean on. */
module RealMath {

  datatype Option<+T> = None | Some(value: T)

  const BPS := 10_000.0

  function AbsInt(i: int): nat { if i < 0 then -i else i }

  function Min(a: real, b: real): real { if a <= b then a else b }

  function Max(a: real, b: real): real { if a >= b then a else b }

  function Abs(a: real): real { if a >= 0.0 then a else -a }

  function Clamp(x: real, lo: real, hi: real): real {
    if x <= lo then lo else if x >= hi then hi else x
  }

  lemma MulNonneg(a: real, b: real)
    requires a >= 0.0 && b >= 0.0
    ensures a * b >= 0.0
  {
  }

  lemma MulPos(a: real, b: real)
    requires a > 0.0 && b > 0.0
    ensures a * b > 0.0
  {
  }

  /** The same with the product named: squares lose their sign fact otherwise. */
  lemma ProductPos(a: real, b: real, p: real)
    requires a > 0.0 && b > 0.0 && p == a * b
    ensures p > 0.0
  {
  }

  lemma ProductNonneg(a: real, b: real, p: real)
    requires a >= 0.0 && b >= 0.0 && p == a * b
    ensures p >= 0.0
  {
  }

  lemma MulLe(a: real, b: real, k: real)
    requires a <= b && k >= 0.0
    ensures a * k <= b * k
  {
    MulNonneg(b - a, k);
    assert (b - a) * k == b * k - a * k;
  }

  lemma DivLe(a: real, b: real, k: real)
    requires a <= b && k > 0.0
    ensures a / k <= b / k
  {
    MulNonneg(b - a, 1.0 / k);
    assert (b - a) * (1.0 / k) == b / k - a / k;
  }

  lemma DivNonneg(a: real, k: real)
    requires a >= 0.0 && k > 0.0
    ensures a / k >= 0.0
  {
    DivLe(0.0, a, k);
  }

  lemma MulDiv(a: real, k: real)
    requires k != 0.0
    ensures a / k * k == a && a * k / k == a
  {
  }

  /** a / b orders like cross-multiplication. */
  lemma DivCompare(a: real, b: real, c: real, d: real)
    requires b > 0.0 && d > 0.0
    ensures a / b <= c / d <==> a * d <= c * b
  {
    var u, v := a / b, c / d;
    assert u * b == a && v * d == c;
    assert a * d == u * (b * d) && c * b == v * (b * d);
    MulPos(b, d);
    if u <= v { MulLe(u, v, b * d); }
    if u > v {
      MulPos(u - v, b * d);
      assert (u - v) * (b * d) == a * d - c * b;
    }
  }

  lemma Inverse(x: real)
    requires x > 0.0
    ensures 1.0 / x > 0.0 && 1.0 / x * x == 1.0
  {
    DivCompare(0.0, 1.0, 1.0, x);
  }

  lemma LikeSigns(x: real, y: real)
    requires (x >= 0.0 && y >= 0.0) || (x <= 0.0 && y <= 0.0)
    ensures x * y >= 0.0
  {
    if x >= 0.0 && y >= 0.0 { MulNonneg(x, y); } else { MulNonneg(-x, -y); }
  }

  lemma InverseUnique(x: real, y: real, m: real)
    requires x * m == 1.0 && y * m == 1.0
    ensures x == y
  {
  }

  lemma SquareTimes(k: real, d: real, square: real)
    requires k > 0.0 && square == k * (d * d)
    ensures square >= 0.0
    ensures d != 0.0 ==> square > 0.0
  {
    var e := d * d;
    assert square == k * e;
    if d > 0.0 { ProductPos(d, d, e); }
    if d < 0.0 { ProductPos(-d, -d, e); }
    ProductNonneg(k, e, square);
    if d != 0.0 { ProductPos(k, e, square); }
  }

  /** A product kept whole: hidden, it lets the linear part of a proof stay linear. */
  function Times(x: real, y: real): real { x * y }

  lemma TimesOrders(x: real, y: real, k: real)
    requires k > 0.0
    ensures Times(x, k) <= Times(y, k) <==> x <= y
    ensures Times(k, x) <= Times(k, y) <==> x <= y
  {
    if x <= y { MulLe(x, y, k); }
    if x > y {
      MulPos(x - y, k);
      assert (x - y) * k == x * k - y * k;
    }
  }
}
