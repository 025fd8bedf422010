/**
 * Concentrated-liquidity arithmetic: the tick grid of section 6.1 and the token amounts of
 * section 6.4.1 of the Uniswap v3 Core whitepaper, over exact reals.
 * USDG is token0 (6 decimals) and NVDA is token1 (18 decimals); liquidity is normalised by 1e18.
 */
module Lp {
  import opened RealMath

  const USDG_UNIT := 1_000_000.0
  const NVDA_UNIT := 1_000_000_000_000_000_000.0
  const LIQUIDITY_UNIT := 1_000_000_000_000_000_000.0
  const RAW_PRICE_UNIT := 1_000_000_000_000.0

  type TickRatio = q: real | q > 1.0 witness 2.0

  /** sqrt(1.0001), the ratio of adjacent square-root prices: irrational, so only q > 1 is known of it. */
  const TICK_ROOT: TickRatio

  function SqrtAtTick(tick: int): (r: real)
    ensures r > 0.0
    decreases if tick < 0 then -tick else tick
  {
    if tick == 0 then 1.0
    else if tick > 0 then TICK_ROOT * SqrtAtTick(tick - 1)
    else SqrtAtTick(tick + 1) / TICK_ROOT
  }

  /** USDG per NVDA at a raw tick. */
  function PriceFromTick(tick: int): (r: real)
    ensures r > 0.0
  {
    var s := SqrtAtTick(tick);
    MulPos(s, s);
    DivCompare(0.0, 1.0, RAW_PRICE_UNIT, s * s);
    RAW_PRICE_UNIT / (s * s)
  }

  lemma SqrtStep(tick: int)
    ensures SqrtAtTick(tick + 1) == TICK_ROOT * SqrtAtTick(tick)
  {
    if tick < 0 {
      MulDiv(SqrtAtTick(tick + 1), TICK_ROOT);
    }
  }

  lemma GrowsBy(q: real, s: real, t: real)
    requires q > 1.0 && s > 0.0 && t == q * s
    ensures s < t
  {
    MulPos(q - 1.0, s);
  }

  /** The tick grid is strictly increasing, so a non-empty tick range is a non-empty price range. */
  lemma {:induction false} TickGridIncreases(lo: int, hi: int)
    requires lo < hi
    ensures SqrtAtTick(lo) < SqrtAtTick(hi)
    decreases hi - lo
  {
    var s, t := SqrtAtTick(hi - 1), SqrtAtTick(hi);
    assert t == TICK_ROOT * s by {
      SqrtStep(hi - 1);
      assert hi - 1 + 1 == hi;
    }
    GrowsBy(TICK_ROOT, s, t);
    if lo < hi - 1 {
      TickGridIncreases(lo, hi - 1);
    }
  }

  lemma OuterProduct(q: real, inLo: real, inHi: real, outLo: real, outHi: real)
    requires inLo == q * outLo && outHi == q * inHi
    ensures outLo * outHi == inLo * inHi
  {
  }

  lemma WidenOneTick(lo: int, hi: int)
    ensures SqrtAtTick(lo) * SqrtAtTick(hi + 1) == SqrtAtTick(lo + 1) * SqrtAtTick(hi)
  {
    hide SqrtAtTick;
    SqrtStep(lo);
    SqrtStep(hi);
    OuterProduct(TICK_ROOT, SqrtAtTick(lo + 1), SqrtAtTick(hi), SqrtAtTick(lo), SqrtAtTick(hi + 1));
  }

  /** Ranges of equal tick width on both sides are geometrically centred on the price. */
  lemma {:induction false} SymmetricTicks(tick: int, width: nat)
    ensures SqrtAtTick(tick - width) * SqrtAtTick(tick + width) == SqrtAtTick(tick) * SqrtAtTick(tick)
  {
    hide SqrtAtTick;
    if width > 0 {
      SymmetricTicks(tick, width - 1);
      WidenOneTick(tick - width, tick + (width - 1));
      assert tick - width + 1 == tick - (width - 1) && tick + (width - 1) + 1 == tick + width;
    }
  }

  // ----- Token amounts -----

  datatype Amounts = Amounts(x: real, y: real)

  /** Raw amounts of one unit of liquidity between two square-root prices. */
  function UnitAmounts(s: real, a: real, b: real): Amounts
    requires 0.0 < s && 0.0 < a < b
  {
    if s <= a then Amounts(1.0 / a - 1.0 / b, 0.0)
    else if s >= b then Amounts(0.0, b - a)
    else Amounts(1.0 / s - 1.0 / b, s - a)
  }

  function AmountsForL(l: real, s: real, lo: int, hi: int): Amounts
  {
    if !(l > 0.0) || !(s > 0.0) || hi <= lo then Amounts(0.0, 0.0)
    else
      TickGridIncreases(lo, hi);
      var u := UnitAmounts(s, SqrtAtTick(lo), SqrtAtTick(hi));
      var liquidity := l * LIQUIDITY_UNIT;
      Amounts(liquidity * u.x, liquidity * u.y)
  }

  function PositionValue(l: real, s: real, lo: int, hi: int): real
    requires s > 0.0
  {
    var r := AmountsForL(l, s, lo, hi);
    MulPos(s, s);
    (r.x + r.y / (s * s)) / USDG_UNIT
  }

  function TokenUsdg(l: real, s: real, lo: int, hi: int): real {
    AmountsForL(l, s, lo, hi).x / USDG_UNIT
  }

  function TokenNvda(l: real, s: real, lo: int, hi: int): real {
    AmountsForL(l, s, lo, hi).y / NVDA_UNIT
  }

  function LiquidityForValue(v: real, s: real, lo: int, hi: int): real
    requires s > 0.0
  {
    if !(v > 0.0) then 0.0
    else
      var perL := PositionValue(1.0, s, lo, hi);
      if !(perL > 0.0) then 0.0 else v / perL
  }

  /** The repository's single mark: USDG per NVDA and the raw square-root price describe one price. */
  ghost predicate Marked(s: real, price: real) {
    s > 0.0 && price * (s * s) == RAW_PRICE_UNIT
  }

  lemma MarkedPrice(s: real, price: real)
    requires Marked(s, price)
    ensures price > 0.0 && price == RAW_PRICE_UNIT / (s * s)
  {
    MulPos(s, s);
    MulDiv(price, s * s);
    DivCompare(0.0, 1.0, RAW_PRICE_UNIT, s * s);
  }

  lemma TickIsMarked(tick: int)
    ensures Marked(SqrtAtTick(tick), PriceFromTick(tick))
  {
    var s := SqrtAtTick(tick);
    MulPos(s, s);
    MulDiv(RAW_PRICE_UNIT, s * s);
  }

  lemma UnitAmountsNonneg(s: real, a: real, b: real)
    requires 0.0 < s && 0.0 < a < b
    ensures UnitAmounts(s, a, b).x >= 0.0 && UnitAmounts(s, a, b).y >= 0.0
    ensures UnitAmounts(s, a, b).x > 0.0 || UnitAmounts(s, a, b).y > 0.0
  {
    DivCompare(1.0, b, 1.0, a);
    DivCompare(1.0, a, 1.0, b);
    DivCompare(1.0, b, 1.0, s);
  }

  lemma TokensNonneg(l: real, s: real, lo: int, hi: int)
    ensures TokenUsdg(l, s, lo, hi) >= 0.0 && TokenNvda(l, s, lo, hi) >= 0.0
  {
    if l > 0.0 && s > 0.0 && lo < hi {
      TickGridIncreases(lo, hi);
      var u := UnitAmounts(s, SqrtAtTick(lo), SqrtAtTick(hi));
      UnitAmountsNonneg(s, SqrtAtTick(lo), SqrtAtTick(hi));
      MulNonneg(l * LIQUIDITY_UNIT, u.x);
      MulNonneg(l * LIQUIDITY_UNIT, u.y);
      DivNonneg(AmountsForL(l, s, lo, hi).x, USDG_UNIT);
      DivNonneg(AmountsForL(l, s, lo, hi).y, NVDA_UNIT);
    }
  }

  /** A position with liquidity holds some of one token or the other. */
  lemma TokensPositive(l: real, s: real, lo: int, hi: int)
    requires l > 0.0 && s > 0.0 && lo < hi
    ensures TokenUsdg(l, s, lo, hi) > 0.0 || TokenNvda(l, s, lo, hi) > 0.0
  {
    TickGridIncreases(lo, hi);
    var u := UnitAmounts(s, SqrtAtTick(lo), SqrtAtTick(hi));
    UnitAmountsNonneg(s, SqrtAtTick(lo), SqrtAtTick(hi));
    hide UnitAmounts, SqrtAtTick;
    if u.x > 0.0 { MulPos(l * LIQUIDITY_UNIT, u.x); }
    if u.y > 0.0 { MulPos(l * LIQUIDITY_UNIT, u.y); }
  }

  lemma ValueOfRaw(r: Amounts, ss: real, price: real)
    requires ss > 0.0 && price * ss == RAW_PRICE_UNIT
    ensures (r.x + r.y / ss) / USDG_UNIT == r.x / USDG_UNIT + r.y / NVDA_UNIT * price
  {
    MulDiv(r.y, ss);
    var z := r.y / ss;
    assert r.y == z * ss;
    assert r.y / NVDA_UNIT * price == z * (price * ss) / NVDA_UNIT;
  }

  /** Dollars of an amount of NVDA. */
  function Usd(nvda: real, price: real): real { nvda * price }

  lemma UsdAdds(x: real, y: real, price: real)
    ensures Usd(x + y, price) == Usd(x, price) + Usd(y, price)
    ensures Usd(x - y, price) == Usd(x, price) - Usd(y, price)
  {
  }

  /** At the mark, the two tokens of a position are worth exactly the position. */
  lemma TokensAreTheValue(l: real, s: real, price: real, lo: int, hi: int)
    requires Marked(s, price)
    ensures PositionValue(l, s, lo, hi) == TokenUsdg(l, s, lo, hi) + Usd(TokenNvda(l, s, lo, hi), price)
  {
    hide AmountsForL;
    MulPos(s, s);
    ValueOfRaw(AmountsForL(l, s, lo, hi), s * s, price);
  }

  lemma RawAmountsScale(l: real, k: real, s: real, lo: int, hi: int)
    requires k > 0.0
    ensures AmountsForL(l * k, s, lo, hi).x == AmountsForL(l, s, lo, hi).x * k
    ensures AmountsForL(l * k, s, lo, hi).y == AmountsForL(l, s, lo, hi).y * k
  {
    hide UnitAmounts, SqrtAtTick;
    if l > 0.0 {
      MulPos(l, k);
      if s > 0.0 && lo < hi {
        TickGridIncreases(lo, hi);
        var u := UnitAmounts(s, SqrtAtTick(lo), SqrtAtTick(hi));
        ScaleTerm(l, k, u.x);
        ScaleTerm(l, k, u.y);
      }
    } else {
      MulNonneg(-l, k);
      assert (-l) * k == -(l * k);
    }
  }

  lemma ScaleTerm(l: real, k: real, u: real)
    ensures l * k * LIQUIDITY_UNIT * u == l * LIQUIDITY_UNIT * u * k
  {
  }

  lemma ScaleUnit(x: real, k: real, unit: real)
    requires unit > 0.0
    ensures x * k / unit == x / unit * k
  {
    MulDiv(x, unit);
    assert x * k == x / unit * k * unit;
    MulDiv(x / unit * k, unit);
  }

  /** A fraction of an amount. */
  function Part(x: real, k: real): real { x * k }

  lemma PartAdds(x: real, y: real, k: real)
    ensures Part(x + y, k) == Part(x, k) + Part(y, k)
  {
  }

  /** Amounts are linear in liquidity, which is what lets a book be funded at a fraction of its target. */
  lemma TokensScale(l: real, k: real, s: real, lo: int, hi: int)
    requires k > 0.0
    ensures TokenUsdg(Part(l, k), s, lo, hi) == Part(TokenUsdg(l, s, lo, hi), k)
    ensures TokenNvda(Part(l, k), s, lo, hi) == Part(TokenNvda(l, s, lo, hi), k)
  {
    hide AmountsForL;
    RawAmountsScale(l, k, s, lo, hi);
    ScaleUnit(AmountsForL(l, s, lo, hi).x, k, USDG_UNIT);
    ScaleUnit(AmountsForL(l, s, lo, hi).y, k, NVDA_UNIT);
  }

  lemma UnitValuePositive(s: real, lo: int, hi: int)
    requires s > 0.0 && lo < hi
    ensures PositionValue(1.0, s, lo, hi) > 0.0
  {
    TickGridIncreases(lo, hi);
    var u := UnitAmounts(s, SqrtAtTick(lo), SqrtAtTick(hi));
    UnitAmountsNonneg(s, SqrtAtTick(lo), SqrtAtTick(hi));
    MulPos(s, s);
    DivCompare(0.0, 1.0, u.y, s * s);
    var raw := AmountsForL(1.0, s, lo, hi);
    assert raw.x == LIQUIDITY_UNIT * u.x && raw.y == LIQUIDITY_UNIT * u.y;
    DivNonneg(raw.y, s * s);
    if raw.y > 0.0 {
      DivCompare(raw.y, s * s, 0.0, 1.0);
    }
  }

  lemma Distribute(x: real, y: real, price: real, k: real)
    ensures Part(x, k) + Usd(Part(y, k), price) == (x + Usd(y, price)) * k
  {
  }

  lemma ValueOfNothing(s: real, lo: int, hi: int)
    requires s > 0.0
    ensures PositionValue(0.0, s, lo, hi) == 0.0
  {
    MulPos(s, s);
    assert 0.0 / (s * s) == 0.0;
  }

  lemma ValueScales(l: real, s: real, lo: int, hi: int)
    requires s > 0.0 && l >= 0.0
    ensures PositionValue(l, s, lo, hi) == PositionValue(1.0, s, lo, hi) * l
  {
    hide AmountsForL, PositionValue;
    MulPos(s, s);
    MulDiv(RAW_PRICE_UNIT, s * s);
    var price := RAW_PRICE_UNIT / (s * s);
    TokensAreTheValue(l, s, price, lo, hi);
    TokensAreTheValue(1.0, s, price, lo, hi);
    if l > 0.0 {
      TokensScale(1.0, l, s, lo, hi);
      assert Part(1.0, l) == l;
      Distribute(TokenUsdg(1.0, s, lo, hi), TokenNvda(1.0, s, lo, hi), price, l);
    } else {
      ValueOfNothing(s, lo, hi);
    }
  }

  /** Sizing round-trips: the liquidity bought for a value is worth exactly that value. */
  lemma SizingRoundTrips(v: real, s: real, lo: int, hi: int)
    requires s > 0.0 && lo < hi && v >= 0.0
    ensures LiquidityForValue(v, s, lo, hi) >= 0.0
    ensures PositionValue(LiquidityForValue(v, s, lo, hi), s, lo, hi) == v
    ensures v > 0.0 ==> LiquidityForValue(v, s, lo, hi) > 0.0
  {
    UnitValuePositive(s, lo, hi);
    ValueOfNothing(s, lo, hi);
    hide PositionValue;
    if v > 0.0 {
      var perL := PositionValue(1.0, s, lo, hi);
      DivCompare(0.0, 1.0, v, perL);
      DivCompare(v, perL, 0.0, 1.0);
      ValueScales(v / perL, s, lo, hi);
      MulDiv(v, perL);
    }
  }
}
