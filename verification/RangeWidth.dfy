/** Impermanent loss in dollars, and how the width of the range orders it. */
module RangeWidth {
  import opened RealMath
  import opened Lp
  import opened ImpermanentLoss

  const VALUE_UNIT := 1_000_000_000_000.0

  /** What the tokens held at entry price s0 are worth at the exit price. */
  function HeldValue(l: real, s0: real, lo: int, hi: int, exitPrice: real): real {
    Valued(AmountsForL(l, s0, lo, hi), exitPrice)
  }

  function Valued(raw: Amounts, price: real): real {
    raw.x / USDG_UNIT + raw.y / NVDA_UNIT * price
  }

  /** Dollars lost against holding, for a capital v put into the range at s0 and valued at s1. */
  function DollarLoss(v: real, s0: real, s1: real, lo: int, hi: int, exitPrice: real): real
    requires s0 > 0.0 && s1 > 0.0
  {
    var l := LiquidityForValue(v, s0, lo, hi);
    HeldValue(l, s0, lo, hi, exitPrice) - PositionValue(l, s1, lo, hi)
  }

  /** Dollars of l units of liquidity that are worth `unit` raw units each. */
  function Worth(l: real, unit: real): real { l * VALUE_UNIT * unit }

  /** Dollars lost by a capital v spent on units that cost u and lose `loss` each. */
  function Share(v: real, u: real, loss: real): real
    requires u > 0.0
  {
    v / u * loss
  }

  lemma HeldIsUnits(l: real, s0: real, s1: real, price: real, lo: int, hi: int)
    requires l >= 0.0 && s0 > 0.0 && Marked(s1, price) && lo < hi
    ensures SqrtAtTick(lo) < SqrtAtTick(hi)
    ensures HeldValue(l, s0, lo, hi, price) == Worth(l, HoldUnit(s0, s1, SqrtAtTick(lo), SqrtAtTick(hi)))
  {
    TickGridIncreases(lo, hi);
    RawAmounts(l, s0, lo, hi);
    hide AmountsForL, SqrtAtTick, UnitAmounts, Worth, RawOf, Valued, UnitWorth;
    UnitsOfRaw(l, UnitAmounts(s0, SqrtAtTick(lo), SqrtAtTick(hi)), s1, price);
  }

  function RawOf(l: real, u: Amounts): Amounts {
    Amounts(l * LIQUIDITY_UNIT * u.x, l * LIQUIDITY_UNIT * u.y)
  }

  lemma RawAmounts(l: real, s: real, lo: int, hi: int)
    requires l >= 0.0 && s > 0.0 && lo < hi
    ensures SqrtAtTick(lo) < SqrtAtTick(hi)
    ensures AmountsForL(l, s, lo, hi) == RawOf(l, UnitAmounts(s, SqrtAtTick(lo), SqrtAtTick(hi)))
  {
    TickGridIncreases(lo, hi);
    hide SqrtAtTick, UnitAmounts;
  }

  lemma UnitsOfRaw(l: real, u: Amounts, s1: real, price: real)
    requires Marked(s1, price)
    ensures Valued(RawOf(l, u), price) == Worth(l, UnitWorth(u, s1))
  {
    var p := s1 * s1;
    ProductPos(s1, s1, p);
    MulDiv(u.y, p);
    UnitsOfPrice(l, u.x, u.y, p, price, u.y / p);
  }

  lemma UnitsOfPrice(l: real, x: real, y: real, p: real, price: real, z: real)
    requires price * p == RAW_PRICE_UNIT && z * p == y
    ensures l * LIQUIDITY_UNIT * x / USDG_UNIT + l * LIQUIDITY_UNIT * y / NVDA_UNIT * price == Worth(l, x + z)
  {
    assert y * price == z * RAW_PRICE_UNIT;
    assert l * LIQUIDITY_UNIT * y / NVDA_UNIT * price == l * (y * price);
  }

  lemma PositionIsUnits(l: real, s1: real, price: real, lo: int, hi: int)
    requires l >= 0.0 && Marked(s1, price) && lo < hi
    ensures SqrtAtTick(lo) < SqrtAtTick(hi)
    ensures PositionValue(l, s1, lo, hi) == Worth(l, LpUnit(s1, SqrtAtTick(lo), SqrtAtTick(hi)))
  {
    hide AmountsForL, PositionValue, SqrtAtTick, HoldUnit, Worth;
    TokensAreTheValue(l, s1, price, lo, hi);
    HeldIsUnits(l, s1, s1, price, lo, hi);
  }

  /** A position is never worth more at exit than the tokens it held at entry. */
  lemma PositionNeverBeatsItsTokens(l: real, s0: real, s1: real, price: real, lo: int, hi: int)
    requires s0 > 0.0 && Marked(s1, price)
    ensures PositionValue(l, s1, lo, hi) <= HeldValue(l, s0, lo, hi, price)
  {
    if l > 0.0 && lo < hi {
      var a, b := SqrtAtTick(lo), SqrtAtTick(hi);
      PositionIsUnits(l, s1, price, lo, hi);
      HeldIsUnits(l, s0, s1, price, lo, hi);
      hide PositionValue, HeldValue, HoldUnit, Worth;
      HoldingBeatsProviding(s0, s1, a, b);
      WorthLe(l, LpUnit(s1, a, b), HoldUnit(s0, s1, a, b));
    } else {
      assert AmountsForL(l, s1, lo, hi) == Amounts(0.0, 0.0);
      MarkedPrice(s1, price);
      assert 0.0 / (s1 * s1) == 0.0;
    }
  }

  lemma WorthLe(l: real, x: real, y: real)
    requires x <= y && l >= 0.0
    ensures Worth(l, x) <= Worth(l, y)
  {
    MulLe(x, y, l * VALUE_UNIT);
  }

  /** Capital v buys v / (value of one unit) units, so the loss in dollars is v times loss over value. */
  lemma LossPerCapital(v: real, s0: real, s1: real, price: real, lo: int, hi: int)
    requires v >= 0.0 && s0 > 0.0 && Marked(s1, price) && lo < hi
    ensures var a, b := SqrtAtTick(lo), SqrtAtTick(hi);
      a < b && LpUnit(s0, a, b) > 0.0 &&
      DollarLoss(v, s0, s1, lo, hi, price) == Share(v, LpUnit(s0, a, b), LossUnit(s0, s1, a, b))
  {
    var l, a, b := LiquidityForValue(v, s0, lo, hi), SqrtAtTick(lo), SqrtAtTick(hi);
    var p := s0 * s0;
    ProductPos(s0, s0, p);
    MulDiv(RAW_PRICE_UNIT, p);
    SizingRoundTrips(v, s0, lo, hi);
    PositionIsUnits(l, s0, RAW_PRICE_UNIT / p, lo, hi);
    UnitValuePositive(s0, lo, hi);
    PositionIsUnits(1.0, s0, RAW_PRICE_UNIT / p, lo, hi);
    PositionIsUnits(l, s1, price, lo, hi);
    HeldIsUnits(l, s0, s1, price, lo, hi);
    hide PositionValue, HeldValue, HoldUnit, LiquidityForValue, Worth, Share, SqrtAtTick;
    WorthPositive(LpUnit(s0, a, b));
    CapitalUnits(v, l, LpUnit(s0, a, b), HoldUnit(s0, s1, a, b), LpUnit(s1, a, b));
  }

  lemma WorthPositive(u: real)
    ensures Worth(1.0, u) > 0.0 <==> u > 0.0
  {
  }

  lemma CapitalUnits(v: real, l: real, u: real, hold: real, lp: real)
    requires v == Worth(l, u) && u > 0.0
    ensures Worth(l, hold) - Worth(l, lp) == Share(v, u, hold - lp)
  {
    var z := l * VALUE_UNIT;
    MulDiv(z, u);
    assert v / u == z;
    assert z * hold - z * lp == z * (hold - lp);
  }

  // ----- Nested ranges, exit inside the narrower one -----

  /** Inside the range the loss per unit of liquidity does not depend on the range at all. */
  lemma LossInRange(s0: real, s1: real, a: real, b: real)
    requires 0.0 < a && a <= s0 <= b && a <= s1 <= b && a < b
    ensures LossUnit(s0, s1, a, b) == LostAt(1.0 / s0, 1.0 / s1, s0, s1, 1.0 / s1)
    ensures LossUnit(s0, s1, a, b) >= 0.0
  {
    hide HoldUnit;
    LossAtClamp(s0, s1, a, b);
    HoldingBeatsProviding(s0, s1, a, b);
  }

  lemma WiderUnitIsDearer(s0: real, a: real, b: real, a': real, b': real)
    requires 0.0 < a' <= a <= s0 <= b <= b' && a < b
    ensures LpUnit(s0, a, b) <= LpUnit(s0, a', b')
  {
    hide HoldUnit;
    HoldAtClamp(s0, s0, a, b);
    HoldAtClamp(s0, s0, a', b');
    DivCompare(1.0, b', 1.0, b);
    var n := 1.0 / s0;
    Inverse(s0);
    ProductNonneg(n, n, n * n);
    MulLe(s0 - a, s0 - a', n * n);
  }

  /**
   * Equal capital in two nested ranges around the entry: while the exit stays inside the narrower one,
   * the narrower one loses at least as many dollars against holding.
   */
  lemma NarrowerLosesMoreInside(v: real, s0: real, s1: real, price: real, lo: int, hi: int, lo': int, hi': int)
    requires v >= 0.0 && Marked(s1, price) && lo' <= lo < hi <= hi'
    requires SqrtAtTick(lo) <= s0 <= SqrtAtTick(hi) && SqrtAtTick(lo) <= s1 <= SqrtAtTick(hi)
    ensures 0.0 <= DollarLoss(v, s0, s1, lo', hi', price) <= DollarLoss(v, s0, s1, lo, hi, price)
  {
    var a, b, a', b' := SqrtAtTick(lo), SqrtAtTick(hi), SqrtAtTick(lo'), SqrtAtTick(hi');
    if lo' < lo { TickGridIncreases(lo', lo); }
    if hi < hi' { TickGridIncreases(hi, hi'); }
    TickGridIncreases(lo, hi);
    hide SqrtAtTick, HoldUnit, DollarLoss, Share;
    LossPerCapital(v, s0, s1, price, lo, hi);
    LossPerCapital(v, s0, s1, price, lo', hi');
    LossInRange(s0, s1, a, b);
    LossInRange(s0, s1, a', b');
    WiderUnitIsDearer(s0, a, b, a', b');
    DearerUnitLosesLess(v, LpUnit(s0, a, b), LpUnit(s0, a', b'), LossUnit(s0, s1, a, b));
  }

  lemma DearerUnitLosesLess(v: real, u: real, u': real, loss: real)
    requires v >= 0.0 && 0.0 < u <= u' && loss >= 0.0
    ensures 0.0 <= Share(v, u', loss) <= Share(v, u, loss)
  {
    MulLe(u, u', v);
    DivCompare(v, u', v, u);
    DivNonneg(v, u');
    MulNonneg(v / u', loss);
    MulLe(v / u', v / u, loss);
  }

  // ----- Ranges of equal tick width on both sides, any exit -----
  // z is the lower edge over the entry (and the entry over the upper edge); y is the entry over the exit.

  function Above(z: real, y: real): real
    requires 0.0 < z < 1.0
  {
    1.0 - y * y / z
  }

  function Below(z: real, y: real): real
    requires 0.0 < z < 1.0
  {
    y * y - 1.0 / z
  }

  function Inside(z: real, y: real): real
    requires 0.0 < z < 1.0
  {
    (1.0 - y) * (1.0 - y) / (1.0 - z)
  }

  /** Where the inside and the lower branch meet. */
  function LowerEdge(y: real): real { y * y - y }

  /** Twice the loss per dollar of a centred range: exit past the upper edge, past the lower one, or inside. */
  function CentredLoss(z: real, y: real): real
    requires 0.0 < z < 1.0
  {
    if y <= z then Above(z, y) else if y * z >= 1.0 then Below(z, y) else Inside(z, y)
  }

  lemma AboveGrows(z: real, z': real, y: real)
    requires 0.0 < z <= z' < 1.0 && y > 0.0
    ensures Above(z, y) <= Above(z', y)
    ensures y <= z' ==> Above(z', y) >= 1.0 - y
  {
    var yy := y * y;
    ProductPos(y, y, yy);
    MulLe(z, z', yy);
    DivCompare(yy, z', yy, z);
    if y <= z' {
      ProductNonneg(y, z' - y, y * z' - yy);
      DivCompare(yy, z', y, 1.0);
    }
  }

  lemma BelowGrows(z: real, z': real, y: real)
    requires 0.0 < z <= z' < 1.0 && y > 0.0
    ensures Below(z, y) <= Below(z', y)
    ensures y * z' >= 1.0 ==> Below(z', y) >= LowerEdge(y)
  {
    DivCompare(1.0, z', 1.0, z);
    DivCompare(1.0, z', y, 1.0);
  }

  lemma InsideGrows(z: real, z': real, y: real)
    requires 0.0 < z <= z' < 1.0 && y > 0.0
    ensures Inside(z, y) <= Inside(z', y)
    ensures z <= y <= 1.0 ==> Inside(z, y) <= 1.0 - y
    ensures y >= 1.0 && y * z <= 1.0 ==> Inside(z, y) <= LowerEdge(y)
  {
    var d, square := 1.0 - y, (1.0 - y) * (1.0 - y);
    SquareTimes(1.0, d, square);
    MulLe(1.0 - z', 1.0 - z, square);
    DivCompare(square, 1.0 - z, square, 1.0 - z');
    if z <= y <= 1.0 {
      ProductNonneg(d, (1.0 - z) - d, d * (1.0 - z) - square);
      DivCompare(square, 1.0 - z, d, 1.0);
    }
    if y >= 1.0 && y * z <= 1.0 {
      InsideAtLowerEdge(z, y, y - 1.0, square);
    }
  }

  lemma InsideAtLowerEdge(z: real, y: real, d: real, square: real)
    requires 0.0 < z < 1.0 && d == y - 1.0 && d >= 0.0 && y * z <= 1.0 && square == d * d
    ensures square / (1.0 - z) <= y * y - y
  {
    var room := y - y * z;
    ProductNonneg(d, room - d, d * room - square);
    assert d * room == (d * y) * (1.0 - z);
    DivCompare(square, 1.0 - z, d * y, 1.0);
    assert d * y == y * y - y;
  }

  /** A narrower centred range loses at least as much per dollar, whatever the exit. */
  lemma CentredLossGrows(z: real, z': real, y: real)
    requires 0.0 < z <= z' < 1.0 && y > 0.0
    ensures CentredLoss(z, y) <= CentredLoss(z', y)
  {
    hide Above, Below, Inside, LowerEdge;
    Sides(z, z', y);
    AboveGrows(z, z', y); BelowGrows(z, z', y); InsideGrows(z, z', y);
  }

  lemma Sides(z: real, z': real, y: real)
    requires 0.0 < z <= z' < 1.0 && y > 0.0
    ensures y * z <= y * z'
    ensures y * z' >= 1.0 ==> y > 1.0
  {
    MulLe(z, z', y);
    if y <= 1.0 { MulLe(y, 1.0, z'); }
  }

  /** The range is centred on s0 with ratio z, and the exit s1 is s0 / y. */
  ghost predicate Centred(s0: real, s1: real, a: real, b: real, z: real, y: real) {
    s0 > 0.0 && s1 > 0.0 && 0.0 < z < 1.0 && y > 0.0 && 0.0 < a < s0 < b && a == z * s0 && b * z == s0 && y * s1 == s0
  }

  lemma QuotientIs(x: real, d: real, q: real)
    requires d != 0.0 && q * d == x
    ensures x / d == q
  {
    MulDiv(q, d);
  }

  lemma CentredInverses(s0: real, s1: real, a: real, b: real, z: real, y: real, k: real)
    requires Centred(s0, s1, a, b, z, y) && k * s0 == 1.0
    ensures 1.0 / s0 == k && 1.0 / s1 == y * k && 1.0 / b == z * k && 1.0 / a == 1.0 / z * k
  {
    QuotientIs(1.0, s0, k);
    assert y * k * s1 == k * (y * s1);
    QuotientIs(1.0, s1, y * k);
    assert z * k * b == k * (b * z);
    QuotientIs(1.0, b, z * k);
    var iz := 1.0 / z;
    assert iz * k * a == iz * z * (k * s0);
    QuotientIs(1.0, a, iz * k);
  }

  lemma UnitOfCentred(s0: real, a: real, z: real, k: real)
    requires a == z * s0 && k * s0 == 1.0
    ensures HeldAt(k, z * k, s0, a, k) == 2.0 * Times(k, 1.0 - z)
  {
    assert (s0 - a) * (k * k) == (1.0 - z) * (s0 * k) * k;
  }

  lemma LossAbove(s0: real, b: real, z: real, y: real, k: real)
    requires 0.0 < z < 1.0 && b * z == s0 && k * s0 == 1.0
    ensures LostAt(k, z * k, s0, b, y * k) == Times(Times(k, 1.0 - z), Above(z, y))
  {
    var q := y * y / z;
    MulDiv(y * y, z);
    assert (s0 - b) * (y * k * (y * k)) == (s0 - b) * (q * z) * (k * k);
    assert (s0 - b) * z == s0 * z - s0;
    assert (s0 - b) * (q * z) * (k * k) == q * (s0 * z - s0) * (k * k);
    assert q * (s0 * z - s0) * (k * k) == q * (z - 1.0) * (s0 * k) * k;
    assert k * (1.0 - z) * (1.0 - q) == (k - z * k) + q * (z - 1.0) * k;
  }

  lemma LossBelow(s0: real, a: real, z: real, y: real, k: real)
    requires 0.0 < z < 1.0 && a == z * s0 && k * s0 == 1.0
    ensures LostAt(k, 1.0 / z * k, s0, a, y * k) == Times(Times(k, 1.0 - z), Below(z, y))
  {
    var iz := 1.0 / z;
    assert (s0 - a) * (y * k * (y * k)) == (1.0 - z) * (y * y) * (s0 * k) * k;
    assert k * (1.0 - z) * (y * y - iz) == (1.0 - z) * (y * y) * k - k * iz + k * (z * iz);
  }

  lemma LossInside(s0: real, s1: real, z: real, y: real, k: real)
    requires 0.0 < z < 1.0 && y * s1 == s0 && k * s0 == 1.0
    ensures LostAt(k, y * k, s0, s1, y * k) == Times(Times(k, 1.0 - z), Inside(z, y))
  {
    var g, square := (1.0 - y) * (1.0 - y) / (1.0 - z), (1.0 - y) * (1.0 - y);
    MulDiv(square, 1.0 - z);
    assert k * (1.0 - z) * g == k * square;
    assert (s0 - s1) * (y * k * (y * k)) == (s0 * y - s1 * y) * y * (k * k);
    assert (s0 * y - s0) * y * (k * k) == (y * y - y) * (s0 * k) * k;
  }

  /** The loss of a centred range, by where the exit clamps to. */
  lemma CentredLossIs(s0: real, s1: real, a: real, b: real, z: real, y: real, k: real)
    requires Centred(s0, s1, a, b, z, y) && k * s0 == 1.0
    ensures LpUnit(s0, a, b) == 2.0 * Times(k, 1.0 - z)
    ensures LossUnit(s0, s1, a, b) == Times(Times(k, 1.0 - z), CentredLoss(z, y))
  {
    CentredInverses(s0, s1, a, b, z, y, k);
    UnitOfCentred(s0, a, z, k);
    LossAbove(s0, b, z, y, k);
    LossBelow(s0, a, z, y, k);
    LossInside(s0, s1, z, y, k);
    ExitSide(s0, s1, a, b, z, y);
    hide HoldUnit, Above, Below, Inside, Times, HeldAt, LostAt;
    HoldAtClamp(s0, s0, a, b);
    LossAtClamp(s0, s1, a, b);
  }

  lemma ExitSide(s0: real, s1: real, a: real, b: real, z: real, y: real)
    requires Centred(s0, s1, a, b, z, y)
    ensures s1 >= b <==> y <= z
    ensures s1 <= a <==> y * z >= 1.0
    ensures !(y <= z && y * z >= 1.0)
  {
    var w := y * z;
    ExitAbove(s0, s1, b, z, y);
    ExitBelow(s0, s1, a, z, y, w);
    NeverBoth(z, y, w);
  }

  lemma ExitAbove(s0: real, s1: real, b: real, z: real, y: real)
    requires s0 > 0.0 && s1 > 0.0 && b > 0.0 && y * s1 == s0 && z * b == s0
    ensures s1 >= b <==> y <= z
  {
    OrderByInverse(s0, s1, y, b, z);
  }

  lemma ExitBelow(s0: real, s1: real, a: real, z: real, y: real, w: real)
    requires s1 > 0.0 && a == z * s0 && y * s1 == s0 && w == y * z
    ensures s1 <= a <==> w >= 1.0
  {
    assert w * s1 == z * (y * s1);
    ScaledByOne(s1, w);
  }

  lemma NeverBoth(z: real, y: real, w: real)
    requires 0.0 < z < 1.0 && y > 0.0 && w == y * z
    ensures !(y <= z && w >= 1.0)
  {
    MulPos(y, 1.0 - z);
    assert y * (1.0 - z) == y - w;
  }

  lemma OrderByInverse(t: real, x: real, y: real, x': real, y': real)
    requires t > 0.0 && x > 0.0 && x' > 0.0 && y * x == t && y' * x' == t
    ensures x >= x' <==> y <= y'
  {
    QuotientIs(t, x, y); QuotientIs(t, x', y');
    DivCompare(t, x, t, x');
    if x >= x' { MulLe(x', x, t); }
    if x < x' {
      MulPos(x' - x, t);
      assert (x' - x) * t == x' * t - x * t;
    }
  }

  lemma ScaledByOne(x: real, w: real)
    requires x > 0.0
    ensures x <= w * x <==> 1.0 <= w
  {
    if 1.0 <= w { MulLe(1.0, w, x); }
    if w < 1.0 {
      MulPos(1.0 - w, x);
      assert (1.0 - w) * x == x - w * x;
    }
  }

  lemma TickProducts(tick: int, width: nat)
    ensures Times(SqrtAtTick(tick - width), SqrtAtTick(tick + width)) == Times(SqrtAtTick(tick), SqrtAtTick(tick))
  {
    SymmetricTicks(tick, width);
    hide SqrtAtTick;
  }

  /** Ticks at equal distances around the entry, with the two ratios that describe the range and the exit. */
  lemma CentredTicks(tick: int, width: nat, s1: real, z: real, y: real)
    requires width > 0 && s1 > 0.0 && Times(z, SqrtAtTick(tick)) == SqrtAtTick(tick - width)
    requires Times(y, s1) == SqrtAtTick(tick)
    ensures Centred(SqrtAtTick(tick), s1, SqrtAtTick(tick - width), SqrtAtTick(tick + width), z, y)
  {
    hide Times, Centred;
    TickGridIncreases(tick - width, tick);
    TickGridIncreases(tick, tick + width);
    TickProducts(tick, width);
    hide SqrtAtTick;
    CentredRatio(SqrtAtTick(tick), s1, SqrtAtTick(tick - width), SqrtAtTick(tick + width), z, y);
  }

  lemma CentredRatio(s0: real, s1: real, a: real, b: real, z: real, y: real)
    requires 0.0 < a < s0 < b && s1 > 0.0 && Times(a, b) == Times(s0, s0)
    requires Times(z, s0) == a && Times(y, s1) == s0
    ensures Centred(s0, s1, a, b, z, y)
  {
    QuotientIs(a, s0, z);
    DivCompare(0.0, 1.0, a, s0); DivCompare(a, s0, 1.0, 1.0);
    DivCompare(1.0, 1.0, a, s0);
    QuotientIs(s0, s1, y);
    DivCompare(0.0, 1.0, s0, s1); DivCompare(s0, s1, 0.0, 1.0);
    UpperEdge(s0, a, b, z);
  }

  lemma UpperEdge(s0: real, a: real, b: real, z: real)
    requires s0 > 0.0 && Times(a, b) == Times(s0, s0) && z * s0 == a
    ensures b * z == s0
  {
    var w := b * z;
    assert w * s0 == s0 * s0;
    MulDiv(w, s0);
    MulDiv(s0, s0);
  }

  lemma InverseOf(s0: real) returns (k: real)
    requires s0 > 0.0
    ensures k > 0.0 && k * s0 == 1.0
  {
    k := 1.0 / s0;
    Inverse(s0);
  }

  lemma CentredDollarLoss(v: real, tick: int, width: nat, s1: real, price: real, z: real, y: real)
    requires v >= 0.0 && Marked(s1, price) && width > 0
    requires Times(z, SqrtAtTick(tick)) == SqrtAtTick(tick - width) && Times(y, s1) == SqrtAtTick(tick)
    ensures 0.0 < z < 1.0
    ensures DollarLoss(v, SqrtAtTick(tick), s1, tick - width, tick + width, price)
         == Times(v / 2.0, CentredLoss(z, y))
  {
    var s0, a, b := SqrtAtTick(tick), SqrtAtTick(tick - width), SqrtAtTick(tick + width);
    assert s1 > 0.0;
    hide SqrtAtTick, DollarLoss, LpUnit, LossUnit, Share, Times, CentredLoss, Marked;
    CentredTicks(tick, width, s1, z, y);
    assert 0.0 < z < 1.0;
    hide Centred;
    LossPerCapital(v, s0, s1, price, tick - width, tick + width);
    var k := InverseOf(s0);
    CentredLossIs(s0, s1, a, b, z, y, k);
    HalfShare(v, Times(k, 1.0 - z), CentredLoss(z, y));
  }

  lemma HalfShare(v: real, d: real, g: real)
    requires d > 0.0
    ensures Share(v, 2.0 * d, Times(d, g)) == Times(v / 2.0, g)
  {
    var q := v / (2.0 * d);
    MulDiv(v, 2.0 * d);
    assert q * (d * g) == q * (2.0 * d) / 2.0 * g;
  }

  lemma RatiosOrder(a': real, a: real, s0: real, s1: real, z': real, z: real, y: real)
    requires 0.0 < a' <= a && s0 > 0.0 && s1 > 0.0 && z' == a' / s0 && z == a / s0 && y == s0 / s1
    ensures Times(z', s0) == a' && Times(z, s0) == a && Times(y, s1) == s0
    ensures 0.0 < z' <= z && y > 0.0
  {
    DivLe(a', a, s0);
    MulDiv(a, s0); MulDiv(a', s0); MulDiv(s0, s1);
    DivCompare(0.0, 1.0, s0, s1);
    DivCompare(s0, s1, 0.0, 1.0);
    DivCompare(a', s0, 0.0, 1.0);
  }

  /**
   * Equal capital in two ranges of equal tick width on both sides of the entry tick: at every exit price, in
   * or out of either range, the narrower one loses at least as many dollars against holding.
   */
  lemma NarrowerLosesMore(v: real, tick: int, width: nat, width': nat, s1: real, price: real)
    requires v >= 0.0 && Marked(s1, price) && 0 < width <= width'
    ensures DollarLoss(v, SqrtAtTick(tick), s1, tick - width', tick + width', price)
         <= DollarLoss(v, SqrtAtTick(tick), s1, tick - width, tick + width, price)
  {
    var s0, a, a' := SqrtAtTick(tick), SqrtAtTick(tick - width), SqrtAtTick(tick - width');
    if width < width' { TickGridIncreases(tick - width', tick - width); }
    assert s1 > 0.0 && a' <= a;
    hide SqrtAtTick, DollarLoss, CentredLoss, Times, Marked;
    var z, z', y := a / s0, a' / s0, s0 / s1;
    RatiosOrder(a', a, s0, s1, z', z, y);
    LossesByRatio(v, tick, width, width', s1, price, z', z, y);
  }

  lemma LossesByRatio(v: real, tick: int, width: nat, width': nat, s1: real, price: real, z': real, z: real, y: real)
    requires v >= 0.0 && Marked(s1, price) && 0 < width <= width' && 0.0 < z' <= z && y > 0.0
    requires Times(z, SqrtAtTick(tick)) == SqrtAtTick(tick - width) && Times(y, s1) == SqrtAtTick(tick)
    requires Times(z', SqrtAtTick(tick)) == SqrtAtTick(tick - width')
    ensures DollarLoss(v, SqrtAtTick(tick), s1, tick - width', tick + width', price)
         <= DollarLoss(v, SqrtAtTick(tick), s1, tick - width, tick + width, price)
  {
    hide SqrtAtTick, DollarLoss, CentredLoss, Times, Marked;
    CentredDollarLoss(v, tick, width, s1, price, z, y);
    CentredDollarLoss(v, tick, width', s1, price, z', y);
    CentredLossGrows(z', z, y);
    if v > 0.0 {
      TimesOrders(CentredLoss(z', y), CentredLoss(z, y), v / 2.0);
    } else {
      NothingLost(CentredLoss(z', y), CentredLoss(z, y));
    }
  }

  lemma NothingLost(x: real, y: real)
    ensures Times(0.0, x) == Times(0.0, y)
  {
  }
}
