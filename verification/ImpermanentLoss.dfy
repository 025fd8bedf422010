/** Impermanent loss of a range position against holding its entry tokens. */
module ImpermanentLoss {
  import opened RealMath
  import opened Lp

  /** Math.round of JavaScript: halves go up. */
  function JsRound(x: real): int { (x + 0.5).Floor }

  /** Value, in token0 per unit of liquidity, of the entry tokens at exit square-root price s1. */
  function HoldUnit(s0: real, s1: real, a: real, b: real): real
    requires 0.0 < s0 && 0.0 < s1 && 0.0 < a < b
  {
    UnitWorth(UnitAmounts(s0, a, b), s1)
  }

  function UnitWorth(u: Amounts, s1: real): real
    requires 0.0 < s1
  {
    MulPos(s1, s1);
    u.x + u.y / (s1 * s1)
  }

  function LpUnit(s1: real, a: real, b: real): real
    requires 0.0 < s1 && 0.0 < a < b
  {
    HoldUnit(s1, s1, a, b)
  }

  /** IL in bps between two square-root prices; the range edges are square roots too. */
  function IlForRange(s0: real, s1: real, a: real, b: real): int {
    if !(s0 > 0.0 && s1 > 0.0 && a > 0.0 && b > a) then 0
    else
      var hodl := HoldUnit(s0, s1, a, b);
      if !(hodl > 0.0) then 0 else JsRound((LpUnit(s1, a, b) / hodl - 1.0) * BPS)
  }

  function IlBpsForTicks(start: int, end: int, lo: int, hi: int): int {
    if hi <= lo then 0
    else IlForRange(SqrtAtTick(start), SqrtAtTick(end), SqrtAtTick(lo), SqrtAtTick(hi))
  }

  /** The full-range formula 2 * sqrt(r) / (1 + r) - 1 for the price ratio r. */
  function FullRangeLoss(s0: real, s1: real): real
    requires s0 > 0.0 && s1 > 0.0
  {
    FullRangeRatio(s0, s1);
    var r := (s1 * s1) / (s0 * s0);
    2.0 * (s1 / s0) / (1.0 + r) - 1.0
  }

  /**
   * Static-range IL of a range p0*(1-w) .. p0*(1+w). Prices come as their square roots; a and b are the
   * square roots of the two edges, which exist only for w < 1 and matter only for 0 < w.
   */
  function IlBpsForHalfWidth(s0: real, s1: real, w: real, a: real, b: real): int {
    if !(s0 > 0.0 && s1 > 0.0) then 0
    else if w >= 1.0 then
      JsRound(FullRangeLoss(s0, s1) * BPS)
    else IlForRange(s0, s1, a, b)
  }

  /** How far holding the entry tokens beats providing liquidity, per unit of liquidity. */
  function LossUnit(s0: real, s1: real, a: real, b: real): real
    requires 0.0 < s0 && 0.0 < s1 && 0.0 < a < b
  {
    HoldUnit(s0, s1, a, b) - LpUnit(s1, a, b)
  }

  /** Every branch of the amounts is the in-range formula at the clamped price. */
  lemma AmountsAtClamp(s: real, a: real, b: real)
    requires 0.0 < s && 0.0 < a < b
    ensures var c := Clamp(s, a, b);
      0.0 < c && UnitAmounts(s, a, b) == Amounts(1.0 / c - 1.0 / b, c - a)
  {
  }

  lemma InverseOfSquare(s: real, n: real, p: real, w: real)
    requires n * s == 1.0 && p == s * s && w * p == 1.0
    ensures w == n * n
  {
  }

  /** Dividing by a square is multiplying twice by the inverse. */
  lemma InverseSquare(y: real, s: real)
    requires s > 0.0
    ensures s * s > 0.0 && y / (s * s) == y * (1.0 / s * (1.0 / s))
  {
    var p := s * s;
    ProductPos(s, s, p);
    Inverse(s); Inverse(p);
    InverseOfSquare(s, 1.0 / s, p, 1.0 / p);
    assert y / p == y * (1.0 / p);
  }

  /** With k, m, n the inverses of c0, c1, s1: loss is a square plus a product of like signs. */
  lemma LossIdentity(c0: real, c1: real, k: real, m: real, n: real, d: real, square: real)
    requires k * c0 == 1.0 && m * c1 == 1.0
    requires d == 1.0 - c0 * m && square == k * (d * d)
    ensures (k - m) + (c0 - c1) * (n * n) == square + (c0 - c1) * (n * n - m * m)
  {
    var z := c0 * m;
    assert k * z == m by { assert k * (c0 * m) == (k * c0) * m; }
    assert k * (z * z) == m * z by { assert k * (z * z) == (k * z) * z; }
    assert square == k - 2.0 * (k * z) + k * (z * z);
    assert m * z == c0 * (m * m);
    assert c1 * (m * m) == m by { assert c1 * (m * m) == (m * c1) * m; }
    assert (c0 - c1) * (m * m) == c0 * (m * m) - c1 * (m * m);
    assert (c0 - c1) * (n * n - m * m) == (c0 - c1) * (n * n) - (c0 - c1) * (m * m);
  }

  /** Value at exit of the tokens taken at clamped entry c0; k and e are the inverses of c0 and of the upper edge. */
  function HeldAt(k: real, e: real, c0: real, a: real, n: real): real { k - e + (c0 - a) * (n * n) }

  /** Loss between clamped entry c0 and clamped exit c1; k, m and n are the inverses of c0, c1 and the exit. */
  function LostAt(k: real, m: real, c0: real, c1: real, n: real): real { (k - m) + (c0 - c1) * (n * n) }

  lemma HoldAtClamp(s0: real, s1: real, a: real, b: real)
    requires 0.0 < s0 && 0.0 < s1 && 0.0 < a < b
    ensures var c0 := Clamp(s0, a, b);
      c0 > 0.0 && HoldUnit(s0, s1, a, b) == HeldAt(1.0 / c0, 1.0 / b, c0, a, 1.0 / s1)
  {
    AmountsAtClamp(s0, a, b);
    hide UnitAmounts;
    InverseSquare(Clamp(s0, a, b) - a, s1);
  }

  lemma LossAtClamp(s0: real, s1: real, a: real, b: real)
    requires 0.0 < s0 && 0.0 < s1 && 0.0 < a < b
    ensures var c0, c1 := Clamp(s0, a, b), Clamp(s1, a, b);
      c0 > 0.0 && c1 > 0.0 &&
      LossUnit(s0, s1, a, b) == LostAt(1.0 / c0, 1.0 / c1, c0, c1, 1.0 / s1)
  {
    hide HoldUnit, Clamp;
    HoldAtClamp(s0, s1, a, b);
    HoldAtClamp(s1, s1, a, b);
    var c0, c1 := Clamp(s0, a, b), Clamp(s1, a, b);
    hide HeldAt, LostAt;
    Regroup(1.0 / c0, 1.0 / c1, 1.0 / b, c0, c1, a, 1.0 / s1);
  }

  lemma Regroup(k: real, m: real, e: real, c0: real, c1: real, a: real, n: real)
    ensures HeldAt(k, e, c0, a, n) - HeldAt(m, e, c1, a, n) == LostAt(k, m, c0, c1, n)
  {
    var nn := n * n;
    assert (c0 - a) * nn - (c1 - a) * nn == (c0 - c1) * nn;
  }

  /** The inverse of the exit price and of its clamp straddle zero the same way as the two clamps. */
  lemma ClampSigns(s0: real, s1: real, a: real, b: real)
    requires 0.0 < s0 && 0.0 < s1 && 0.0 < a < b
    ensures var c0, c1 := Clamp(s0, a, b), Clamp(s1, a, b);
      var m, n := 1.0 / c1, 1.0 / s1;
      (c0 - c1) * (n * n - m * m) >= 0.0
  {
    var c0, c1 := Clamp(s0, a, b), Clamp(s1, a, b);
    var m, n := 1.0 / c1, 1.0 / s1;
    Inverse(c1); Inverse(s1);
    if s1 < c1 {
      DivCompare(1.0, c1, 1.0, s1);
      MulLe(m, n, m); MulLe(m, n, n);
    } else {
      DivCompare(1.0, s1, 1.0, c1);
      MulLe(n, m, m); MulLe(n, m, n);
    }
    LikeSigns(c0 - c1, n * n - m * m);
  }

  /**
   * Holding the entry tokens is never worse than providing liquidity, in or out of range, and it is
   * equal exactly when entry and exit clamp to the same price of the range.
   */
  lemma HoldingBeatsProviding(s0: real, s1: real, a: real, b: real)
    requires 0.0 < s0 && 0.0 < s1 && 0.0 < a < b
    ensures LpUnit(s1, a, b) <= HoldUnit(s0, s1, a, b)
    ensures LpUnit(s1, a, b) == HoldUnit(s0, s1, a, b) <==> Clamp(s0, a, b) == Clamp(s1, a, b)
  {
    hide Clamp, HoldUnit;
    LossAtClamp(s0, s1, a, b);
    ClampSigns(s0, s1, a, b);
    var c0, c1 := Clamp(s0, a, b), Clamp(s1, a, b);
    Inverse(c0); Inverse(c1);
    LossSign(c0, c1, 1.0 / c0, 1.0 / c1, 1.0 / s1, LossUnit(s0, s1, a, b));
  }

  lemma LossSign(c0: real, c1: real, k: real, m: real, n: real, loss: real)
    requires k * c0 == 1.0 && m * c1 == 1.0 && k > 0.0
    requires (c0 - c1) * (n * n - m * m) >= 0.0
    requires loss == LostAt(k, m, c0, c1, n)
    ensures loss >= 0.0
    ensures loss == 0.0 <==> c0 == c1
  {
    var d := 1.0 - c0 * m;
    var square := k * (d * d);
    LossIdentity(c0, c1, k, m, n, d, square);
    SquareTimes(k, d, square);
    SameInverse(c0, c1, m);
    LossOfNoMove(c0, c1, n, k, m);
  }

  lemma SameInverse(c0: real, c1: real, m: real)
    requires m * c1 == 1.0
    ensures 1.0 - c0 * m == 0.0 <==> c0 == c1
  {
    if c0 * m == 1.0 {
      InverseUnique(c0, c1, m);
    }
  }

  lemma LossOfNoMove(c0: real, c1: real, n: real, k: real, m: real)
    requires k * c0 == 1.0 && m * c1 == 1.0
    ensures c0 == c1 ==> (k - m) + (c0 - c1) * (n * n) == 0.0
  {
    if c0 == c1 {
      InverseUnique(k, m, c0);
    }
  }

  lemma RoundsIntoBand(x: real)
    requires -1.0 <= x <= 0.0
    ensures -10_000 <= JsRound(x * BPS) <= 0
  {
  }

  /** Impermanent loss is never a gain: the rounded figure is between a total loss and zero. */
  lemma LossIsNeverAGain(s0: real, s1: real, a: real, b: real)
    ensures -10_000 <= IlForRange(s0, s1, a, b) <= 0
    ensures s0 == s1 ==> IlForRange(s0, s1, a, b) == 0
  {
    if s0 > 0.0 && s1 > 0.0 && a > 0.0 && b > a {
      HoldingBeatsProviding(s0, s1, a, b);
      var hodl, lp := HoldUnit(s0, s1, a, b), LpUnit(s1, a, b);
      HoldUnitNonneg(s1, s1, a, b);
      hide HoldUnit;
      if hodl > 0.0 {
        DivCompare(lp, hodl, 1.0, 1.0);
        DivNonneg(lp, hodl);
        MulDiv(1.0, hodl);
        RoundsIntoBand(lp / hodl - 1.0);
      }
    }
  }

  lemma HoldUnitNonneg(s0: real, s1: real, a: real, b: real)
    requires 0.0 < s0 && 0.0 < s1 && 0.0 < a < b
    ensures HoldUnit(s0, s1, a, b) >= 0.0
  {
    UnitAmountsNonneg(s0, a, b);
    hide UnitAmounts;
    var p := s1 * s1;
    ProductPos(s1, s1, p);
    DivNonneg(UnitAmounts(s0, a, b).y, p);
  }

  /** The tick form and the half-width form, full range included, obey the same band. */
  lemma PublishedLossIsNeverAGain(start: int, end: int, lo: int, hi: int, s0: real, s1: real, w: real, a: real, b: real)
    ensures -10_000 <= IlBpsForTicks(start, end, lo, hi) <= 0
    ensures IlBpsForTicks(start, start, lo, hi) == 0
    ensures -10_000 <= IlBpsForHalfWidth(s0, s1, w, a, b) <= 0
    ensures s0 == s1 ==> IlBpsForHalfWidth(s0, s1, w, a, b) == 0
  {
    LossIsNeverAGain(SqrtAtTick(start), SqrtAtTick(end), SqrtAtTick(lo), SqrtAtTick(hi));
    LossIsNeverAGain(SqrtAtTick(start), SqrtAtTick(start), SqrtAtTick(lo), SqrtAtTick(hi));
    LossIsNeverAGain(s0, s1, a, b);
    hide IlForRange, FullRangeLoss, JsRound, SqrtAtTick;
    if s0 > 0.0 && s1 > 0.0 {
      FullRangeIsNeverAGain(s0, s1);
    }
  }

  /** The full-range formula alone. */
  lemma FullRangeIsNeverAGain(s0: real, s1: real)
    requires s0 > 0.0 && s1 > 0.0
    ensures -10_000 <= JsRound(FullRangeLoss(s0, s1) * BPS) <= 0
    ensures s0 == s1 ==> JsRound(FullRangeLoss(s0, s1) * BPS) == 0
  {
    FullRangeRatio(s0, s1);
    var loss := FullRangeLoss(s0, s1);
    assert -1.0 <= loss <= 0.0 && (s0 == s1 ==> loss == 0.0);
    hide FullRangeLoss;
    RoundsIntoBand(loss);
  }

  lemma FullRangeRatio(s0: real, s1: real)
    requires s0 > 0.0 && s1 > 0.0
    ensures s0 * s0 > 0.0 && 1.0 + (s1 * s1) / (s0 * s0) > 0.0
    ensures 0.0 <= 2.0 * (s1 / s0) / (1.0 + (s1 * s1) / (s0 * s0)) <= 1.0
    ensures s0 == s1 ==> 2.0 * (s1 / s0) / (1.0 + (s1 * s1) / (s0 * s0)) == 1.0
  {
    var p, q, x := s0 * s0, s1 * s1, s1 / s0;
    ProductPos(s0, s0, p);
    DivNonneg(s1, s0);
    MulDiv(s1, s0);
    SquareRatio(s0, s1, x, p, q);
    var y := x * x;
    ProductNonneg(x, x, y);
    var square := 1.0 - 2.0 * x + y;
    SquareTimes(1.0, 1.0 - x, square);
    DivNonneg(2.0 * x, 1.0 + y);
    DivCompare(2.0 * x, 1.0 + y, 1.0, 1.0);
  }

  lemma SquareRatio(s0: real, s1: real, x: real, p: real, q: real)
    requires s1 == x * s0 && p == s0 * s0 && q == s1 * s1 && p > 0.0
    ensures q / p == x * x
  {
    assert q == x * x * p;
    MulDiv(x * x, p);
  }

  // ----- The figure itself -----

  lemma RoundsWithinHalf(x: real)
    ensures x - 0.5 < JsRound(x) as real <= x + 0.5
  {
  }

  lemma RoundOrders(x: real, y: real)
    requires x <= y
    ensures JsRound(x) <= JsRound(y)
  {
  }

  lemma HoldUnitPositive(s0: real, s1: real, a: real, b: real)
    requires 0.0 < s0 && 0.0 < s1 && 0.0 < a < b
    ensures HoldUnit(s0, s1, a, b) > 0.0
  {
    UnitAmountsNonneg(s0, a, b);
    var u, p := UnitAmounts(s0, a, b), s1 * s1;
    ProductPos(s1, s1, p);
    DivNonneg(u.y, p);
    if u.y > 0.0 { DivCompare(u.y, p, 0.0, 1.0); }
    hide UnitAmounts;
  }

  /** The published figure is what providing is worth over what holding is worth, less one, to half a basis point. */
  lemma LossIsTheRatio(s0: real, s1: real, a: real, b: real)
    requires 0.0 < s0 && 0.0 < s1 && 0.0 < a < b
    ensures HoldUnit(s0, s1, a, b) > 0.0
    ensures var exact := (LpUnit(s1, a, b) / HoldUnit(s0, s1, a, b) - 1.0) * BPS;
      exact - 0.5 < IlForRange(s0, s1, a, b) as real <= exact + 0.5
  {
    HoldUnitPositive(s0, s1, a, b);
    hide HoldUnit, LpUnit;
    RoundsWithinHalf((LpUnit(s1, a, b) / HoldUnit(s0, s1, a, b) - 1.0) * BPS);
  }

  /** The inverse of a squared price. */
  function InverseSq(s: real): real
    requires s > 0.0
  {
    MulPos(s, s);
    1.0 / (s * s)
  }

  lemma InverseFalls(p: real, q: real)
    requires 0.0 < p <= q
    ensures 0.0 < 1.0 / q <= 1.0 / p
    ensures p < q ==> 1.0 / q < 1.0 / p
  {
    DivCompare(1.0, q, 1.0, p);
    DivCompare(1.0, p, 1.0, q);
    Inverse(q);
  }

  lemma SquareOrders(s: real, t: real, p: real, q: real)
    requires 0.0 < s <= t && p == s * s && q == t * t
    ensures 0.0 < p <= q && (s < t ==> p < q)
  {
    ProductPos(s, s, p);
    var d := (t - s) * (t + s);
    assert d == q - p;
    ProductNonneg(t - s, t + s, d);
    if s < t { ProductPos(t - s, t + s, d); }
  }

  lemma InverseSqFalls(s: real, t: real)
    requires 0.0 < s <= t
    ensures 0.0 < InverseSq(t) <= InverseSq(s)
    ensures s < t ==> InverseSq(t) < InverseSq(s)
  {
    var p, q := s * s, t * t;
    SquareOrders(s, t, p, q);
    InverseFalls(p, q);
    assert InverseSq(s) == 1.0 / p && InverseSq(t) == 1.0 / q;
  }

  /** What held tokens are worth is a line in the inverse square of the price. */
  function Line(u: Amounts, t: real): real { u.x + u.y * t }

  lemma HoldIsALine(s0: real, s1: real, a: real, b: real)
    requires 0.0 < s0 && 0.0 < s1 && 0.0 < a < b
    ensures HoldUnit(s0, s1, a, b) == Line(UnitAmounts(s0, a, b), InverseSq(s1))
  {
    var y, p := UnitAmounts(s0, a, b).y, s1 * s1;
    ProductPos(s1, s1, p);
    assert y / p == y * (1.0 / p);
    hide UnitAmounts;
  }

  /** t1 lies between t0 and t2, at these distances from them. */
  ghost predicate Splits(t0: real, t1: real, t2: real, alpha: real, beta: real) {
    alpha >= 0.0 && beta >= 0.0 && alpha + beta > 0.0
    && ((alpha == t0 - t1 && beta == t1 - t2) || (alpha == t1 - t0 && beta == t2 - t1))
  }

  /** On a line the middle value is the weighted mean of the outer two. */
  lemma Chord(u: Amounts, t0: real, t1: real, t2: real, alpha: real, beta: real)
    requires Splits(t0, t1, t2, alpha, beta)
    ensures Times(alpha + beta, Line(u, t1)) == Times(alpha, Line(u, t2)) + Times(beta, Line(u, t0))
  {
    assert (alpha + beta) * t1 == alpha * t2 + beta * t0;
    assert (alpha + beta) * (u.y * t1) == u.y * ((alpha + beta) * t1);
    assert alpha * (u.y * t2) + beta * (u.y * t0) == u.y * (alpha * t2 + beta * t0);
  }

  /** The nearer mean keeps the larger share when the far end keeps less than its line and the near end all of it. */
  lemma ShareGrows(alpha: real, beta: real, l1: real, l2: real, h0: real, h1: real, h2: real)
    requires alpha >= 0.0 && beta >= 0.0 && alpha + beta > 0.0 && h0 >= 0.0 && h2 >= 0.0 && l2 <= h2
    requires Times(alpha + beta, l1) >= Times(alpha, l2) + Times(beta, h0)
    requires Times(alpha + beta, h1) == Times(alpha, h2) + Times(beta, h0)
    ensures Times(l1, h2) >= Times(l2, h1)
  {
    var w, c := alpha + beta, beta * h0;
    MulNonneg(beta, h0);
    MulNonneg(c, h2 - l2);
    MulLe(alpha * l2 + c, w * l1, h2);
    assert (alpha * l2 + c) * h2 - (alpha * h2 + c) * l2 == c * (h2 - l2);
    assert w * h1 * l2 == (alpha * h2 + c) * l2;
    assert w * (l1 * h2) == w * l1 * h2 && w * (l2 * h1) == w * h1 * l2;
    OrderByWeight(w, l2 * h1, l1 * h2);
  }

  lemma OrderByWeight(w: real, x: real, y: real)
    requires w > 0.0 && w * x <= w * y
    ensures x <= y
  {
    if x > y { MulPos(w, x - y); }
  }

  /** s1 is no farther from s0 than s2 is, on the same side. */
  ghost predicate Between(s0: real, s1: real, s2: real) { s0 <= s1 <= s2 || s2 <= s1 <= s0 }

  lemma InverseSqSplits(s0: real, s1: real, s2: real)
    requires s0 > 0.0 && s1 > 0.0 && s2 > 0.0 && Between(s0, s1, s2) && s0 != s2
    ensures var t0, t1, t2 := InverseSq(s0), InverseSq(s1), InverseSq(s2);
      Splits(t0, t1, t2, Abs(t0 - t1), Abs(t1 - t2))
  {
    if s0 <= s2 { InverseSqFalls(s0, s1); InverseSqFalls(s1, s2); InverseSqFalls(s0, s2); }
    else { InverseSqFalls(s1, s0); InverseSqFalls(s2, s1); InverseSqFalls(s2, s0); }
    hide InverseSq;
  }

  /** Farther from the entry, providing keeps a smaller share of what holding is worth. */
  lemma FartherKeepsLess(s0: real, s1: real, s2: real, a: real, b: real)
    requires 0.0 < s0 && 0.0 < s1 && 0.0 < s2 && 0.0 < a < b && Between(s0, s1, s2)
    ensures Times(LpUnit(s1, a, b), HoldUnit(s0, s2, a, b)) >= Times(LpUnit(s2, a, b), HoldUnit(s0, s1, a, b))
  {
    hide HoldUnit, InverseSq, Line, UnitAmounts, Clamp, Times, Splits;
    HoldingBeatsProviding(s1, s0, a, b);
    HoldingBeatsProviding(s1, s2, a, b);
    HoldingBeatsProviding(s0, s2, a, b);
    if s0 != s2 {
      var u0, u1 := UnitAmounts(s0, a, b), UnitAmounts(s1, a, b);
      HoldIsALine(s0, s0, a, b); HoldIsALine(s0, s1, a, b); HoldIsALine(s0, s2, a, b);
      HoldIsALine(s1, s0, a, b); HoldIsALine(s1, s1, a, b); HoldIsALine(s1, s2, a, b);
      HoldUnitPositive(s0, s0, a, b);
      HoldUnitPositive(s0, s2, a, b);
      InverseSqSplits(s0, s1, s2);
      SharesOfLines(u0, u1, InverseSq(s0), InverseSq(s1), InverseSq(s2), LpUnit(s1, a, b), LpUnit(s2, a, b));
    }
  }

  lemma SharesOfLines(u0: Amounts, u1: Amounts, t0: real, t1: real, t2: real, l1: real, l2: real)
    requires Splits(t0, t1, t2, Abs(t0 - t1), Abs(t1 - t2))
    requires l1 == Line(u1, t1) && l2 <= Line(u1, t2) && Line(u0, t0) <= Line(u1, t0) && l2 <= Line(u0, t2)
    requires Line(u0, t0) >= 0.0 && Line(u0, t2) >= 0.0
    ensures Times(l1, Line(u0, t2)) >= Times(l2, Line(u0, t1))
  {
    var alpha, beta := Abs(t0 - t1), Abs(t1 - t2);
    Chord(u0, t0, t1, t2, alpha, beta);
    Chord(u1, t0, t1, t2, alpha, beta);
    hide Line;
    Weighted(alpha, l2, Line(u1, t2));
    Weighted(beta, Line(u0, t0), Line(u1, t0));
    hide Times;
    ShareGrows(alpha, beta, l1, l2, Line(u0, t0), Line(u0, t1), Line(u0, t2));
  }

  lemma Weighted(w: real, x: real, y: real)
    requires w >= 0.0 && x <= y
    ensures Times(w, x) <= Times(w, y)
  {
    MulLe(x, y, w);
  }

  lemma QuotientsOrder(l1: real, l2: real, h1: real, h2: real)
    requires h1 > 0.0 && h2 > 0.0 && Times(l1, h2) >= Times(l2, h1)
    ensures l2 / h2 <= l1 / h1
  {
    DivCompare(l2, h2, l1, h1);
  }

  /** The published loss never shrinks as the exit moves away from the entry, on either side and across the edges. */
  lemma FartherLosesMore(s0: real, s1: real, s2: real, a: real, b: real)
    requires 0.0 < s0 && 0.0 < s1 && 0.0 < s2 && Between(s0, s1, s2)
    ensures IlForRange(s0, s2, a, b) <= IlForRange(s0, s1, a, b)
  {
    hide HoldUnit, LpUnit, JsRound, Times;
    if 0.0 < a < b {
      FartherKeepsLess(s0, s1, s2, a, b);
      HoldUnitPositive(s0, s1, a, b);
      HoldUnitPositive(s0, s2, a, b);
      var one, two := LpUnit(s1, a, b) / HoldUnit(s0, s1, a, b), LpUnit(s2, a, b) / HoldUnit(s0, s2, a, b);
      QuotientsOrder(LpUnit(s1, a, b), LpUnit(s2, a, b), HoldUnit(s0, s1, a, b), HoldUnit(s0, s2, a, b));
      RoundOrders((two - 1.0) * BPS, (one - 1.0) * BPS);
    }
  }

  /** Over the full range the loss, times the sum of the two squares, is the square of the move. */
  lemma FullRangeLossIs(s0: real, s1: real)
    requires s0 > 0.0 && s1 > 0.0
    ensures FullRangeLoss(s0, s1) * (s0 * s0 + s1 * s1) == -((s1 - s0) * (s1 - s0))
  {
    var p, q, x := s0 * s0, s1 * s1, s1 / s0;
    ProductPos(s0, s0, p);
    ProductPos(s1, s1, q);
    SquareRatio(s0, s1, x, p, q);
    FullRangeRatio(s0, s1);
    var y := x * x;
    ProductNonneg(x, x, y);
    assert q == y * p && x * s0 == s1;
    var lost := -((s1 - s0) * (s1 - s0));
    assert lost == (2.0 * x - (1.0 + y)) * p by { assert s1 * s0 == x * p; }
    RatioOf(2.0 * x, 1.0 + y, p, p + q, lost);
  }

  lemma RatioOf(n: real, d: real, p: real, sum: real, lost: real)
    requires d > 0.0 && sum == d * p && lost == (n - d) * p
    ensures (n / d - 1.0) * sum == lost
  {
    var u := n / d;
    assert u * d == n;
    assert (u - 1.0) * (d * p) == (u * d - d) * p;
  }
}
