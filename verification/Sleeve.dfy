/** The closed-form size of a fee sleeve, and where it is the optimum it claims to be. */
module Sleeve {
  import opened RealMath

  /** Pool share of a sleeve w, with a the all-in share over its complement. */
  function PoolShare(w: real, a: real): real
    requires w >= 0.0 && a > 0.0
  {
    MulNonneg(w, a);
    w * a / (1.0 + w * a)
  }

  /** Fees of the sleeve less what the same capital would have earned: F_B * s(w) - w * (F_A + H). */
  function Gain(w: real, feesB: real, cost: real, a: real): real
    requires w >= 0.0 && a > 0.0
  {
    feesB * PoolShare(w, a) - w * cost
  }

  /** The non-negative square root of an amount clipped at zero. */
  ghost predicate IsRoot(root: real, x: real) { root >= 0.0 && root * root == Max(0.0, x) }

  /** The quantity under the root: the fee ratio, scaled by F_A / (F_A + H), times the curvature. */
  function Radicand(feesA: real, feesB: real, hurdle: real, a: real): real
    requires feesA != 0.0 && feesA + hurdle != 0.0
  {
    feesB / feesA * feesA / (feesA + hurdle) * a
  }

  function WStar(root: real, a: real): real
    requires a > 0.0
  {
    Max(0.0, Min(1.0, (root - 1.0) / a))
  }

  lemma RadicandIs(feesA: real, feesB: real, hurdle: real, a: real)
    requires feesA != 0.0 && feesA + hurdle != 0.0
    ensures Radicand(feesA, feesB, hurdle, a) == feesB / (feesA + hurdle) * a
  {
    MulDiv(feesB, feesA);
  }

  /** Growth of the pool by a sleeve. */
  function Growth(w: real, a: real): real { 1.0 + w * a }

  /** The gain per unit of cost, times a, as a function of the growth u = 1 + w*a. */
  function Bracket(r2: real, u: real): real
    requires u > 0.0
  {
    r2 * (1.0 - 1.0 / u) - (u - 1.0)
  }

  /** By how much the growth us beats the growth u. */
  function Gap(r2: real, u: real, us: real): real
    requires u > 0.0 && us > 0.0
  {
    (u - us) * (1.0 - r2 * (1.0 / u * (1.0 / us)))
  }

  /** With u = 1 + w*a and v = 1/u, a sleeve gains feesB*(1 - v) - cost*(u - 1)/a. */
  lemma GainByGrowth(w: real, feesB: real, cost: real, a: real, r2: real)
    requires w >= 0.0 && a > 0.0 && feesB * a == cost * r2
    ensures Growth(w, a) >= 1.0
    ensures Times(Gain(w, feesB, cost, a), a) == Times(cost, Bracket(r2, Growth(w, a)))
  {
    MulNonneg(w, a);
    var u, x := 1.0 + w * a, w * a;
    Inverse(u);
    var v := 1.0 / u;
    ShareIsOneLess(x, u, v, x / u);
    GrowthForm(w, feesB, cost, a, r2, 1.0 - v, PoolShare(w, a));
  }

  lemma ShareIsOneLess(x: real, u: real, v: real, s: real)
    requires u > 0.0 && u == 1.0 + x && v * u == 1.0 && s * u == x
    ensures s == 1.0 - v
  {
    assert (1.0 - v) * u == u - v * u;
    assert (s - (1.0 - v)) * u == 0.0;
    InverseCancels(s - (1.0 - v), u, v);
  }

  lemma InverseCancels(d: real, u: real, v: real)
    requires v * u == 1.0 && d * u == 0.0
    ensures d == 0.0
  {
    assert d == d * (v * u) == (d * u) * v;
  }

  lemma GrowthForm(w: real, feesB: real, cost: real, a: real, r2: real, f: real, s: real)
    requires s == f && feesB * a == cost * r2
    ensures (feesB * s - w * cost) * a == cost * (r2 * f - w * a)
  {
    assert (feesB * s - w * cost) * a == (feesB * a) * f - cost * (w * a);
  }

  /** The bracket at u* beats the bracket at u by (u - u*) * (1 - r2 / (u u*)). */
  lemma BracketGap(r2: real, u: real, v: real, us: real, vs: real)
    requires u * v == 1.0 && us * vs == 1.0
    ensures (r2 * (1.0 - vs) - (us - 1.0)) - (r2 * (1.0 - v) - (u - 1.0)) == (u - us) * (1.0 - r2 * (v * vs))
  {
    assert v - vs == (us - u) * (v * vs) by {
      assert us * (v * vs) == v * (us * vs);
      assert u * (v * vs) == vs * (u * v);
    }
    var z := v * vs;
    assert (u - us) * (1.0 - r2 * z) == (u - us) + r2 * ((us - u) * z);
  }

  lemma GapIs(r2: real, u: real, us: real)
    requires u > 0.0 && us > 0.0
    ensures Bracket(r2, us) - Bracket(r2, u) == Gap(r2, u, us)
  {
    Inverse(u); Inverse(us);
    BracketGap(r2, u, 1.0 / u, us, 1.0 / us);
  }

  lemma GapNonneg(root: real, r2: real, hi: real, u: real, us: real)
    requires root >= 0.0 && r2 == root * root && 1.0 < hi && us == Clamp(root, 1.0, hi) && 1.0 <= u <= hi
    ensures Gap(r2, u, us) >= 0.0 && (u != us ==> Gap(r2, u, us) > 0.0)
  {
    Inverse(u); Inverse(us);
    GapIsPositive(root, hi, u, 1.0 / u, us, 1.0 / us);
  }

  /** The clamped root is where that gap is never negative, and positive everywhere else on the interval. */
  lemma GapIsPositive(root: real, hi: real, u: real, v: real, us: real, vs: real)
    requires root >= 0.0 && 1.0 < hi && us == Clamp(root, 1.0, hi) && 1.0 <= u <= hi
    requires u * v == 1.0 && us * vs == 1.0 && v > 0.0 && vs > 0.0
    ensures (u - us) * (1.0 - root * root * (v * vs)) >= 0.0
    ensures u != us ==> (u - us) * (1.0 - root * root * (v * vs)) > 0.0
  {
    var rv, rvs := root * v, root * vs;
    assert root * root * (v * vs) == rv * rvs;
    // rv against 1 is root against u, and likewise for u*
    if root <= 1.0 {
      BelowOne(root, u, v); BelowOne(root, us, vs);
      RootBelow(root, u, v, us, vs);
    } else if root >= hi {
      RootAbove(root, u, v, us, vs);
    } else {
      RootInside(root, u, v, us, vs);
    }
  }

  lemma BelowOne(root: real, u: real, v: real)
    requires 0.0 <= root <= u && u * v == 1.0 && v > 0.0
    ensures 0.0 <= root * v <= 1.0
  {
    MulNonneg(root, v);
    MulLe(root, u, v);
  }

  lemma RootBelow(root: real, u: real, v: real, us: real, vs: real)
    requires 0.0 <= root <= 1.0 && us == 1.0 && 1.0 <= u && u * v == 1.0 && us * vs == 1.0 && v > 0.0 && vs > 0.0
    ensures (u - us) * (1.0 - root * root * (v * vs)) >= 0.0
    ensures u != us ==> (u - us) * (1.0 - root * root * (v * vs)) > 0.0
  {
    var r2 := root * root;
    ProductNonneg(root, 1.0 - root, root - r2);
    var w := r2 * v;
    MulLe(r2, 1.0, v);
    assert root * root * (v * vs) == w;
    if u > 1.0 {
      BelowOneStrict(u, v);
      ProductPos(u - us, 1.0 - w, (u - us) * (1.0 - w));
    }
  }

  lemma BelowOneStrict(u: real, v: real)
    requires u > 1.0 && u * v == 1.0 && v > 0.0
    ensures v < 1.0
  {
    MulPos(u - 1.0, v);
    assert (u - 1.0) * v == u * v - v;
  }

  lemma RootAbove(root: real, u: real, v: real, us: real, vs: real)
    requires 1.0 < us <= root && 1.0 <= u <= us && u * v == 1.0 && us * vs == 1.0 && v > 0.0 && vs > 0.0
    ensures (u - us) * (1.0 - root * root * (v * vs)) >= 0.0
    ensures u != us ==> (u - us) * (1.0 - root * root * (v * vs)) > 0.0
  {
    var x, y := root * v, root * vs;
    MulLe(us, root, vs);
    assert y >= 1.0;
    if u < us {
      MulPos(root - u, v);
      assert (root - u) * v == x - u * v;
      assert x > 1.0;
      MulPos(x - 1.0, y);
      assert (x - 1.0) * y == x * y - y;
      MulPos(us - u, x * y - 1.0);
      assert root * root * (v * vs) == x * y;
      assert (u - us) * (1.0 - x * y) == (us - u) * (x * y - 1.0);
    }
  }

  lemma RootInside(root: real, u: real, v: real, us: real, vs: real)
    requires 1.0 < root && us == root && u * v == 1.0 && us * vs == 1.0 && v > 0.0 && vs > 0.0
    ensures (u - us) * (1.0 - root * root * (v * vs)) >= 0.0
    ensures u != us ==> (u - us) * (1.0 - root * root * (v * vs)) > 0.0
  {
    var d := u - root;
    assert root * root * (v * vs) == root * v * (us * vs);
    assert 1.0 - root * v == d * v;
    var gap := d * (d * v);
    SquareTimes(v, d, v * (d * d));
    assert gap == v * (d * d);
  }

  lemma ClampedGrowth(root: real, a: real)
    requires a > 0.0 && root >= 0.0
    ensures 0.0 <= WStar(root, a) <= 1.0
    ensures Growth(WStar(root, a), a) == Clamp(root, 1.0, 1.0 + a)
  {
    MulDiv(root - 1.0, a);
    DivCompare(root - 1.0, a, 1.0, 1.0);
    DivCompare(root - 1.0, a, 0.0, 1.0);
  }

  lemma SameGrowth(w: real, w': real, a: real)
    requires a > 0.0 && Growth(w, a) == Growth(w', a)
    ensures w == w'
  {
    MulDiv(w, a);
    MulDiv(w', a);
  }

  lemma GrowthBounds(w: real, a: real)
    requires a > 0.0 && 0.0 <= w <= 1.0
    ensures 1.0 <= Growth(w, a) <= 1.0 + a
  {
    MulNonneg(w, a);
    MulLe(w, 1.0, a);
  }

  /** No sleeve of the capital gains more. */
  ghost predicate IsOptimal(best: real, feesB: real, cost: real, a: real)
    requires best >= 0.0 && a > 0.0
  {
    forall w :: 0.0 <= w <= 1.0 ==> Gain(w, feesB, cost, a) <= Gain(best, feesB, cost, a)
  }

  /** While capital has a cost, the clamped closed form beats every other sleeve in [0, 1]. */
  lemma WStarIsTheOptimum(feesA: real, feesB: real, hurdle: real, a: real, root: real, w: real)
    requires a > 0.0 && feesB >= 0.0 && feesA != 0.0 && feesA + hurdle > 0.0 && 0.0 <= w <= 1.0
    requires IsRoot(root, Radicand(feesA, feesB, hurdle, a))
    ensures 0.0 <= WStar(root, a) <= 1.0
    ensures Gain(w, feesB, feesA + hurdle, a) <= Gain(WStar(root, a), feesB, feesA + hurdle, a)
    ensures w != WStar(root, a) ==> Gain(w, feesB, feesA + hurdle, a) < Gain(WStar(root, a), feesB, feesA + hurdle, a)
  {
    var cost, ws := feesA + hurdle, WStar(root, a);
    RadicandIs(feesA, feesB, hurdle, a);
    RadicandNonneg(feesB, cost, a, root);
    ClampedGrowth(root, a);
    var u, us, r2 := Growth(w, a), Growth(ws, a), root * root;
    GrowthBounds(w, a);
    if u == us { SameGrowth(w, ws, a); }
    hide WStar, Gain, Radicand, Clamp, IsRoot, Times, Bracket, Gap, Growth;
    GainByGrowth(w, feesB, cost, a, r2);
    GainByGrowth(ws, feesB, cost, a, r2);
    GapIs(r2, u, us);
    GapNonneg(root, r2, 1.0 + a, u, us);
    TimesOrders(Bracket(r2, u), Bracket(r2, us), cost);
    TimesOrders(Bracket(r2, us), Bracket(r2, u), cost);
    TimesOrders(Gain(w, feesB, cost, a), Gain(ws, feesB, cost, a), a);
    TimesOrders(Gain(ws, feesB, cost, a), Gain(w, feesB, cost, a), a);
  }

  lemma RadicandNonneg(feesB: real, cost: real, a: real, root: real)
    requires cost > 0.0 && feesB >= 0.0 && a > 0.0 && root * root == Max(0.0, feesB / cost * a)
    ensures feesB * a == cost * (root * root)
  {
    DivNonneg(feesB, cost);
    MulNonneg(feesB / cost, a);
    MulDiv(feesB, cost);
    assert cost * (feesB / cost * a) == feesB * a;
  }

  /**
   * Exactly when the formula is right: for a cost of capital that is not zero, the clamped closed form is an
   * optimum of [0, 1] if and only if that cost is positive. A hurdle so negative that capital is paid to
   * leave (the whole family F_A + H < 0) makes it answer 0 where 1 is better.
   */
  lemma WStarIsOptimalIffCostly(feesA: real, feesB: real, hurdle: real, a: real, root: real)
    requires a > 0.0 && feesB >= 0.0 && feesA > 0.0 && feesA + hurdle != 0.0
    requires IsRoot(root, Radicand(feesA, feesB, hurdle, a))
    ensures IsOptimal(WStar(root, a), feesB, feesA + hurdle, a) <==> feesA + hurdle > 0.0
  {
    var cost := feesA + hurdle;
    if feesA + hurdle > 0.0 {
      forall w | 0.0 <= w <= 1.0
        ensures Gain(w, feesB, cost, a) <= Gain(WStar(root, a), feesB, cost, a)
      {
        WStarIsTheOptimum(feesA, feesB, hurdle, a, root, w);
      }
    } else {
      FreeCapitalGoesAllIn(feesA, feesB, hurdle, a, root);
    }
  }

  lemma FreeCapitalGoesAllIn(feesA: real, feesB: real, hurdle: real, a: real, root: real)
    requires a > 0.0 && feesB >= 0.0 && feesA > 0.0 && feesA + hurdle < 0.0
    requires IsRoot(root, Radicand(feesA, feesB, hurdle, a))
    ensures WStar(root, a) == 0.0
    ensures Gain(1.0, feesB, feesA + hurdle, a) > Gain(0.0, feesB, feesA + hurdle, a)
  {
    var cost := feesA + hurdle;
    RadicandIs(feesA, feesB, hurdle, a);
    DivNonneg(feesB, -cost);
    assert feesB / cost == -(feesB / -cost);
    MulNonneg(feesB / -cost, a);
    assert feesB / cost * a == -(feesB / -cost * a);
    RootOfNothing(root);
    DivCompare(root - 1.0, a, 0.0, 1.0);
    DivNonneg(a, 1.0 + a);
    MulNonneg(feesB, PoolShare(1.0, a));
  }

  lemma RootOfNothing(root: real)
    ensures root >= 0.0 && root * root == 0.0 ==> root == 0.0
  {
    var r2 := root * root;
    if root > 0.0 { ProductPos(root, root, r2); }
  }

  // ----- Capped sleeves and break-even -----

  /** The sleeve whose pool share is the cap, before clipping to the whole capital. */
  function WCap(cap: real, a: real): real
    requires 0.0 <= cap < 1.0 && a > 0.0
  {
    MulPos(a, 1.0 - cap);
    cap / (a * (1.0 - cap))
  }

  /** The capped sleeve has exactly the capped pool share, and a sleeve respects the cap just when it is no larger. */
  lemma CapIsExact(cap: real, a: real, w: real)
    requires 0.0 <= cap < 1.0 && a > 0.0 && w >= 0.0
    ensures WCap(cap, a) >= 0.0 && PoolShare(WCap(cap, a), a) == cap
    ensures PoolShare(w, a) <= cap <==> w <= WCap(cap, a)
  {
    var d := a * (1.0 - cap);
    ProductPos(a, 1.0 - cap, d);
    var c := WCap(cap, a);
    assert c == cap / d;
    DivNonneg(cap, d);
    MulDiv(cap, d);
    ShareWithinCap(cap, a, c, d);
    ShareWithinCap(cap, a, w, d);
    hide WCap, PoolShare;
    DivCompare(w, 1.0, cap, d);
    DivCompare(cap, d, w, 1.0);
  }

  lemma ShareWithinCap(cap: real, a: real, w: real, d: real)
    requires 0.0 <= cap < 1.0 && a > 0.0 && w >= 0.0 && d == a * (1.0 - cap)
    ensures PoolShare(w, a) <= cap <==> w * d <= cap
    ensures PoolShare(w, a) == cap <==> w * d == cap
  {
    var x := w * a;
    ProductNonneg(w, a, x);
    DivCompare(x, 1.0 + x, cap, 1.0);
    DivCompare(cap, 1.0, x, 1.0 + x);
    assert cap * (1.0 + x) == cap + cap * x;
    assert w * d == x - cap * x;
  }

  /** The published break-even multiple is the least volume multiple at which the sleeve does not lose. */
  lemma BreakEvenIsLeast(m: real, w: real, cost: real, poolFees: real, share: real)
    requires poolFees * share > 0.0
    ensures w * cost / (poolFees * share) <= m <==> m * (poolFees * share) - w * cost >= 0.0
  {
    DivCompare(w * cost, poolFees * share, m, 1.0);
  }
}
