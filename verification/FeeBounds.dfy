/** What the fee model guarantees: pro-rata meaning, a safe fast form, and a split that conserves. */
module FeeBounds {
  import opened RealMath
  import opened State
  import opened Fees

  // ----- One minute -----

  /** A fraction x of a pool fee. */
  function Portion(fee: real, x: real): real { fee * x }

  function Cube(z: real): real { z * z * z }

  /** z is the book's liquidity over the pool's: the exact share of the volume is z / (1 + z). */
  lemma ShareOfVolume(rate: real, vol: real, v1: real, l: real, z: real)
    requires vol > 0.0 && v1 > 0.0 && l > 0.0 && z * vol == l * v1
    ensures z > 0.0
    ensures ExactShare(rate, vol, v1, l) == Portion(rate * vol, z / (1.0 + z))
  {
    MulPos(l, v1);
    PositiveFactor(z, vol);
    var pool := vol / v1;
    DivCompare(0.0, 1.0, vol, v1);
    DivCompare(vol, v1, 0.0, 1.0);
    ShareRatio(vol, v1, l, z, pool, l / (pool + l), z / (1.0 + z));
    assert rate * vol * l / (pool + l) == rate * vol * (l / (pool + l));
  }

  lemma PositiveFactor(z: real, vol: real)
    requires vol > 0.0 && z * vol > 0.0
    ensures z > 0.0
  {
    MulDiv(z, vol);
    DivCompare(0.0, 1.0, z * vol, vol);
    DivCompare(z * vol, vol, 0.0, 1.0);
  }

  lemma ShareRatio(vol: real, v1: real, l: real, z: real, pool: real, x: real, y: real)
    requires vol > 0.0 && v1 > 0.0 && l > 0.0 && z > 0.0 && pool > 0.0
    requires z * vol == l * v1 && pool * v1 == vol
    requires x * (pool + l) == l && y * (1.0 + z) == z
    ensures x == y
  {
    PoolRatio(vol, v1, l, z, pool);
    assert pool + l == pool * (1.0 + z);
    assert y * (pool * (1.0 + z)) == pool * z;
    SameQuotient(x, y, pool + l);
  }

  lemma PoolRatio(vol: real, v1: real, l: real, z: real, pool: real)
    requires v1 > 0.0 && z * vol == l * v1 && pool * v1 == vol
    ensures pool * z == l
  {
    assert pool * z * v1 == l * v1;
    MulDiv(pool * z, v1);
    MulDiv(l, v1);
  }

  lemma SameQuotient(x: real, y: real, d: real)
    requires d > 0.0 && x * d == y * d
    ensures x == y
  {
    MulDiv(x, d);
    MulDiv(y, d);
  }

  lemma FractionBounds(z: real)
    requires z > 0.0
    ensures 0.0 <= z / (1.0 + z) <= 1.0
    ensures 0.0 <= z / (1.0 + z) - (z - z * z) <= Cube(z)
  {
    var f := z / (1.0 + z);
    DivNonneg(z, 1.0 + z);
    DivCompare(z, 1.0 + z, 1.0, 1.0);
    var zz := z * z;
    var zzz := z * zz;
    ProductPos(z, z, zz);
    ProductPos(z, zz, zzz);
    DivCompare(z - zz, 1.0, z, 1.0 + z);
    assert (z - zz) * (1.0 + z) == z - zzz;
    DivCompare(z, 1.0 + z, z - zz + zzz, 1.0);
    var z4 := z * zzz;
    ProductPos(z, zzz, z4);
    assert (z - zz + zzz) * (1.0 + z) == z + z4;
  }

  /** The exact share is a fraction of the pool's own fee. */
  lemma ExactShareBounds(rate: real, vol: real, v1: real, l: real)
    requires rate >= 0.0 && vol >= 0.0
    ensures 0.0 <= ExactShare(rate, vol, v1, l) <= rate * vol
  {
    MulNonneg(rate, vol);
    if vol > 0.0 && v1 > 0.0 && l > 0.0 {
      var z := l * v1 / vol;
      ShareOfVolume(rate, vol, v1, l, z);
      FractionBounds(z);
      hide ExactShare, Portion;
      Fraction(rate * vol, z / (1.0 + z));
    }
  }

  lemma Fraction(fee: real, f: real)
    requires fee >= 0.0 && 0.0 <= f <= 1.0
    ensures 0.0 <= Portion(fee, f) <= fee
  {
    MulNonneg(fee, f);
    MulNonneg(fee, 1.0 - f);
    assert fee * (1.0 - f) == fee - fee * f;
  }

  /** The second-order expansion never overstates the exact share of a minute with sound moments. */
  lemma ExpansionBelowExact(rate: real, vol: real, v1: real, v2: real, l: real)
    requires rate >= 0.0 && vol >= 0.0 && v2 >= 0.0 && vol * v2 >= v1 * v1 && l >= 0.0
    ensures SecondOrder(rate, l, v1, v2) <= ExactShare(rate, vol, v1, l)
  {
    hide ExactShare, SecondOrder, Portion;
    if vol > 0.0 && v1 > 0.0 && l > 0.0 {
      var z := l * v1 / vol;
      MulDiv(l * v1, vol);
      ShareOfVolume(rate, vol, v1, l, z);
      FractionBounds(z);
      ExpansionInShares(rate, vol, v1, v2, l, z);
      MulNonneg(rate, vol);
      ScaledLe(z - z * z, z / (1.0 + z), rate * vol);
    } else {
      ExactShareBounds(rate, vol, v1, l);
      NoShareNoExpansion(rate, vol, v1, v2, l);
    }
  }

  lemma ScaledLe(x: real, y: real, k: real)
    requires x <= y && k >= 0.0
    ensures Portion(k, x) <= Portion(k, y)
  {
    MulLe(x, y, k);
  }

  lemma ExpansionInShares(rate: real, vol: real, v1: real, v2: real, l: real, z: real)
    requires rate >= 0.0 && vol > 0.0 && z * vol == l * v1 && vol * v2 >= v1 * v1
    ensures SecondOrder(rate, l, v1, v2) <= Portion(rate * vol, z - z * z)
  {
    var e, q := l * l, v2 - v1 * v1 / vol;
    var w := v1 * v1;
    DivCompare(w, vol, v2, 1.0);
    if l > 0.0 { ProductPos(l, l, e); }
    if l < 0.0 { ProductPos(-l, -l, e); }
    MulNonneg(e, q);
    SquareOfShare(vol, v1, l, z, w / vol);
    MulLe(l * v1 - e * v2, vol * (z - z * z), rate);
  }

  lemma SquareOfShare(vol: real, v1: real, l: real, z: real, r: real)
    requires vol > 0.0 && z * vol == l * v1 && r * vol == v1 * v1
    ensures l * l * r == vol * (z * z)
  {
    assert l * l * r * vol == (l * v1) * (l * v1);
    assert vol * (z * z) * vol == (z * vol) * (z * vol);
    SameQuotient(l * l * r, vol * (z * z), vol);
  }

  lemma NoVolumeNoFlow(vol: real, v1: real, v2: real)
    requires vol == 0.0 && vol * v2 >= v1 * v1
    ensures v1 == 0.0
  {
    var w := v1 * v1;
    if v1 > 0.0 { ProductPos(v1, v1, w); }
    if v1 < 0.0 { ProductPos(-v1, -v1, w); }
  }

  lemma NoShareNoExpansion(rate: real, vol: real, v1: real, v2: real, l: real)
    requires rate >= 0.0 && vol >= 0.0 && v2 >= 0.0 && vol * v2 >= v1 * v1 && l >= 0.0
    requires !(vol > 0.0 && v1 > 0.0 && l > 0.0)
    ensures SecondOrder(rate, l, v1, v2) <= 0.0
  {
    if v1 > 0.0 && l > 0.0 {
      NoVolumeNoFlow(vol, v1, v2);
    }
    var e := l * l;
    ProductNonneg(l, l, e);
    MulNonneg(e, v2);
    assert l * v1 <= 0.0 by { LikeSigns(l, -v1); }
    MulNonneg(rate, e * v2 - l * v1);
    assert rate * (e * v2 - l * v1) == -(rate * (l * v1 - e * v2));
  }

  /** With the moments of a constant pool P the fast form is short by at most rate * vol * (l/P)^3. */
  lemma ExpansionGap(rate: real, vol: real, pool: real, l: real)
    requires rate >= 0.0 && vol >= 0.0 && pool > 0.0 && l >= 0.0
    ensures var z := l / pool;
      0.0 <= ExactShare(rate, vol, vol / pool, l) - SecondOrder(rate, l, vol / pool, vol / pool / pool)
          <= Portion(rate * vol, Cube(z))
  {
    var z, v1, v2 := l / pool, vol / pool, vol / pool / pool;
    DivNonneg(l, pool);
    hide ExactShare;
    if vol > 0.0 && l > 0.0 {
      DivCompare(0.0, 1.0, vol, pool); DivCompare(vol, pool, 0.0, 1.0);
      ConstantPool(rate, vol, pool, l, z, v1, v2);
      ShareOfVolume(rate, vol, v1, l, z);
      FractionBounds(z);
      MulNonneg(rate, vol);
      hide SecondOrder, Portion, Cube;
      GapOfShares(rate * vol, z / (1.0 + z), z - z * z, Cube(z));
    } else {
      NoMinuteNoGap(rate, vol, pool, l);
    }
  }

  lemma ConstantPool(rate: real, vol: real, pool: real, l: real, z: real, v1: real, v2: real)
    requires pool > 0.0 && z * pool == l && v1 * pool == vol && v2 * pool == v1
    ensures z * vol == l * v1
    ensures SecondOrder(rate, l, v1, v2) == Portion(rate * vol, z - z * z)
  {
    assert l * v1 == z * (v1 * pool);
    assert l * l * v2 == z * (l * v1) by { assert l * l * v2 == z * l * (v2 * pool); }
    assert z * (l * v1) == vol * (z * z);
  }

  lemma GapOfShares(fee: real, f: real, g: real, h: real)
    requires fee >= 0.0 && 0.0 <= f - g <= h
    ensures 0.0 <= Portion(fee, f) - Portion(fee, g) <= Portion(fee, h)
  {
    MulNonneg(fee, f - g);
    MulLe(f - g, h, fee);
  }

  lemma NoMinuteNoGap(rate: real, vol: real, pool: real, l: real)
    requires rate >= 0.0 && vol >= 0.0 && pool > 0.0 && l >= 0.0 && (vol == 0.0 || l == 0.0)
    ensures var z := l / pool;
      ExactShare(rate, vol, vol / pool, l) == 0.0 == SecondOrder(rate, l, vol / pool, vol / pool / pool)
      && Portion(rate * vol, Cube(z)) == 0.0
  {
    if vol == 0.0 {
      assert vol / pool == 0.0;
      assert 0.0 / pool == 0.0;
    } else {
      assert l / pool == 0.0;
    }
  }

  // ----- The hour -----

  predicate SleevesNonneg(b: Book) { b.baseL >= 0.0 && b.guardL >= 0.0 }

  lemma SecondOrderAdds(rate: real, l: real, a: real, a': real, c: real, c': real)
    ensures SecondOrder(rate, l, a + a', c + c') == SecondOrder(rate, l, a, c) + SecondOrder(rate, l, a', c')
    ensures SecondOrder(rate, l, 0.0, 0.0) == 0.0
  {
  }

  lemma {:induction false} BucketExpansionBelowExact(b: Book, m: Minutes, rate: real, k: Bucket, n: nat)
    requires m.Valid() && Moments(m) && n <= |m.ticks| && rate >= 0.0 && SleevesNonneg(b)
    ensures SecondOrder(rate, BucketL(b, k), SumV1(b, m, k, n), SumV2(b, m, k, n)) <= SumExact(b, m, rate, k, n)
  {
    hide SecondOrder, ExactShare;
    var l := BucketL(b, k);
    if n == 0 {
      SecondOrderAdds(rate, l, 0.0, 0.0, 0.0, 0.0);
    } else {
      BucketExpansionBelowExact(b, m, rate, k, n - 1);
      var v1, v2 := m.volOverL[n - 1], m.volOverL2[n - 1];
      SecondOrderAdds(rate, l, SumV1(b, m, k, n - 1), v1, SumV2(b, m, k, n - 1), v2);
      ExpansionBelowExact(rate, m.volumes[n - 1], v1, v2, l);
    }
  }

  lemma {:induction false} ProRataBounds(b: Book, m: Minutes, rate: real, n: nat)
    requires m.Valid() && n <= |m.ticks| && n <= |m.volumes| && rate >= 0.0
    requires forall i :: 0 <= i < n ==> m.volumes[i] >= 0.0
    ensures 0.0 <= ProRata(b, m, rate, n) <= Portion(rate, TotalVolume(m, n))
  {
    hide ExactShare;
    if n > 0 {
      ProRataBounds(b, m, rate, n - 1);
      var active := if m.ticks[n - 1].Some? then ActiveL(b, m.ticks[n - 1].value) else 0.0;
      ExactShareBounds(rate, m.volumes[n - 1], m.volOverL[n - 1], active);
    }
  }

  /** In exact mode the hour's fee is the pro-rata pay of the liquidity active at each minute's tick. */
  lemma ExactFeeIsProRata(b: Book, m: Minutes, feePips: real)
    requires m.Valid() && |m.volumes| >= |m.ticks| > 0 && HasPositions(b) && feePips >= 0.0
    requires forall i :: 0 <= i < |m.ticks| ==> m.volumes[i] >= 0.0
    ensures FeeParts(b, m, feePips, true).total == ProRata(b, m, feePips / 1_000_000.0, |m.ticks|)
  {
    var rate := feePips / 1_000_000.0;
    hide SumExact, ProRata;
    BucketsArePartition(b, m, rate, |m.ticks|);
    ProRataBounds(b, m, rate, |m.ticks|);
  }

  /** The fast fee is safe: expansion <= exact <= the pool's whole fee revenue. */
  lemma FastFeeIsSafe(b: Book, m: Minutes, feePips: real)
    requires m.Valid() && Moments(m) && feePips >= 0.0 && SleevesNonneg(b)
    ensures 0.0 <= FeeParts(b, m, feePips, false).total <= FeeParts(b, m, feePips, true).total
    ensures FeeParts(b, m, feePips, true).total <= Portion(feePips / 1_000_000.0, TotalVolume(m, |m.ticks|))
  {
    var rate, n := feePips / 1_000_000.0, |m.ticks|;
    hide SumExact, ProRata, SecondOrder, SumV1, SumV2, Portion;
    ProRataBounds(b, m, rate, n);
    if HasPositions(b) && n > 0 {
      ExactFeeIsProRata(b, m, feePips);
      BucketsArePartition(b, m, rate, n);
      BucketExpansionBelowExact(b, m, rate, BothIn, n);
      BucketExpansionBelowExact(b, m, rate, GuardOnly, n);
      BucketExpansionBelowExact(b, m, rate, BaseOnly, n);
    }
  }

  /** Bound on what the expansion leaves out: minute by minute, rate * vol * (active/pool)^3. */
  function CubicGap(b: Book, m: Minutes, pools: seq<real>, rate: real, n: nat): real
    requires n <= |m.ticks| && n <= |m.volumes| && n <= |pools| && forall i :: 0 <= i < |pools| ==> pools[i] > 0.0
  {
    if n == 0 then 0.0
    else
      var active := if m.ticks[n - 1].Some? then ActiveL(b, m.ticks[n - 1].value) else 0.0;
      CubicGap(b, m, pools, rate, n - 1) + Portion(rate * m.volumes[n - 1], Cube(active / pools[n - 1]))
  }

  /** Every minute traded against one pool liquidity. */
  ghost predicate ConstantPools(m: Minutes, pools: seq<real>)
    requires m.Valid()
  {
    |m.volumes| >= |m.ticks| && |pools| == |m.ticks| && (forall i :: 0 <= i < |pools| ==> pools[i] > 0.0)
    && forall i :: 0 <= i < |m.ticks| ==>
      m.volumes[i] >= 0.0 && m.volOverL[i] == m.volumes[i] / pools[i]
      && m.volOverL2[i] == m.volumes[i] / pools[i] / pools[i]
  }

  function ExpansionSum(b: Book, m: Minutes, rate: real, n: nat): real
    requires m.Valid() && n <= |m.ticks|
  {
    SecondOrder(rate, BucketL(b, BothIn), SumV1(b, m, BothIn, n), SumV2(b, m, BothIn, n))
    + SecondOrder(rate, BucketL(b, GuardOnly), SumV1(b, m, GuardOnly, n), SumV2(b, m, GuardOnly, n))
    + SecondOrder(rate, BucketL(b, BaseOnly), SumV1(b, m, BaseOnly, n), SumV2(b, m, BaseOnly, n))
  }

  lemma ExpansionSumStep(b: Book, m: Minutes, rate: real, n: nat)
    requires b.deployed && m.Valid() && 0 < n <= |m.ticks|
    ensures var active := if m.ticks[n - 1].Some? then ActiveL(b, m.ticks[n - 1].value) else 0.0;
      ExpansionSum(b, m, rate, n)
      == ExpansionSum(b, m, rate, n - 1) + SecondOrder(rate, active, m.volOverL[n - 1], m.volOverL2[n - 1])
  {
    hide SecondOrder;
    var k := BucketOf(b, m.ticks[n - 1]);
    var v1, v2 := m.volOverL[n - 1], m.volOverL2[n - 1];
    SecondOrderAdds(rate, BucketL(b, k), SumV1(b, m, k, n - 1), v1, SumV2(b, m, k, n - 1), v2);
    if k == OutOfRange { NoLiquidityNoFee(rate, v1, v2); }
  }

  lemma NoLiquidityNoFee(rate: real, v1: real, v2: real)
    ensures SecondOrder(rate, 0.0, v1, v2) == 0.0
  {
  }

  lemma {:induction false} CubicGapBounds(b: Book, m: Minutes, pools: seq<real>, rate: real, n: nat)
    requires b.deployed && SleevesNonneg(b) && m.Valid() && ConstantPools(m, pools) && n <= |m.ticks| && rate >= 0.0
    ensures 0.0 <= ProRata(b, m, rate, n) - ExpansionSum(b, m, rate, n) <= CubicGap(b, m, pools, rate, n)
  {
    if n == 0 {
      SecondOrderAdds(rate, BucketL(b, BothIn), 0.0, 0.0, 0.0, 0.0);
      SecondOrderAdds(rate, BucketL(b, GuardOnly), 0.0, 0.0, 0.0, 0.0);
      SecondOrderAdds(rate, BucketL(b, BaseOnly), 0.0, 0.0, 0.0, 0.0);
    } else {
      hide SecondOrder, ExactShare, Portion, Cube, ExpansionSum;
      CubicGapBounds(b, m, pools, rate, n - 1);
      ExpansionSumStep(b, m, rate, n);
      var active := if m.ticks[n - 1].Some? then ActiveL(b, m.ticks[n - 1].value) else 0.0;
      ExpansionGap(rate, m.volumes[n - 1], pools[n - 1], active);
    }
  }

  /** On constant-pool minutes the fast fee is short of the exact one by at most the cubic terms. */
  lemma FastFeeGap(b: Book, m: Minutes, pools: seq<real>, feePips: real)
    requires m.Valid() && ConstantPools(m, pools) && feePips >= 0.0 && SleevesNonneg(b) && HasPositions(b)
    requires |m.ticks| > 0
    ensures FeeParts(b, m, feePips, true).total - FeeParts(b, m, feePips, false).total
         <= CubicGap(b, m, pools, feePips / 1_000_000.0, |m.ticks|)
  {
    var rate, n := feePips / 1_000_000.0, |m.ticks|;
    ExactFeeIsProRata(b, m, feePips);
    CubicGapBounds(b, m, pools, rate, n);
    hide ProRata, CubicGap, SecondOrder, SumV1, SumV2, SumExact;
  }

  // ----- The guard/base split -----

  lemma SplitAddsUp(x: real, g: real, b: real)
    requires g + b > 0.0
    ensures ShareOf(x, g, b + g) + ShareOf(x, b, b + g) == x
  {
    var d := g + b;
    assert x * g / d + x * b / d == (x * g + x * b) / d;
    assert x * g + x * b == x * d;
    MulDiv(x, d);
  }

  lemma ShareOfNonneg(x: real, part: real, whole: real)
    requires x >= 0.0 && part >= 0.0 && whole > 0.0
    ensures ShareOf(x, part, whole) >= 0.0
  {
    MulNonneg(x, part);
    DivNonneg(x * part, whole);
  }

  lemma ProratedOrders(share: real, f: real, g: real)
    requires share >= 0.0 && 0.0 <= f <= g
    ensures 0.0 <= Prorated(share, f) <= Prorated(share, g)
    ensures Prorated(share, 1.0) == share
  {
    MulNonneg(share, f);
    MulLe(f, g, share);
  }

  /**
   * The shared fee goes to the two sleeves in proportion to their liquidity: what the guard gets of it is to what the
   * base gets as their liquidities are, and an hour without a pull leaves none of it out.
   */
  lemma SharedByLiquidity(b: Book, m: Minutes, feePips: real, exact: bool)
    requires m.Valid() && HasPositions(b) && SleevesNonneg(b)
    ensures var parts, hour := FeeParts(b, m, feePips, exact), FeeForHour(b, m, feePips, None, exact);
      var guard := hour.guard - Max(0.0, parts.total - parts.both - parts.baseOnly);
      var base := hour.base - parts.baseOnly;
      guard + base == parts.both && Times(guard, b.baseL) == Times(base, GuardInPlace(b))
  {
    assert BothL(b) > 0.0;
    hide FeeParts, ShareOf, Prorated, Times;
    var parts := FeeParts(b, m, feePips, exact);
    InProportion(parts.both, GuardInPlace(b), b.baseL);
    SplitAddsUp(parts.both, GuardInPlace(b), b.baseL);
    WholeHour(ShareOf(parts.both, GuardInPlace(b), BothL(b)));
  }

  lemma WholeHour(share: real)
    ensures Prorated(share, 1.0) == share
  {
  }

  lemma InProportion(fee: real, guard: real, base: real)
    requires guard + base > 0.0
    ensures Times(ShareOf(fee, guard, guard + base), base) == Times(ShareOf(fee, base, guard + base), guard)
  {
    var w := guard + base;
    assert fee * guard / w * base == fee / w * (guard * base) by { assert fee * guard / w == fee / w * guard; }
    assert fee * base / w * guard == fee / w * (guard * base) by { assert fee * base / w == fee / w * base; }
  }

  /** Without a pull the split hands out the larger of the total and the two clipped parts. */
  lemma HourSplitTotal(b: Book, m: Minutes, feePips: real, exact: bool)
    requires m.Valid() && HasPositions(b) && SleevesNonneg(b)
    ensures var parts := FeeParts(b, m, feePips, exact);
      parts.both >= 0.0 && parts.baseOnly >= 0.0 &&
      FeeForHour(b, m, feePips, None, exact).total == Max(parts.total, parts.both + parts.baseOnly)
  {
    var parts := FeeParts(b, m, feePips, exact);
    hide FeeParts, ShareOf, Prorated;
    if BothL(b) > 0.0 {
      SplitAddsUp(parts.both, GuardInPlace(b), b.baseL);
      ShareOfNonneg(parts.both, GuardInPlace(b), BothL(b));
      ProratedOrders(ShareOf(parts.both, GuardInPlace(b), BothL(b)), 1.0, 1.0);
    }
  }

  /** In exact mode nothing is clipped: guard and base together are the hour's fee, to the cent. */
  lemma ExactSplitConserves(b: Book, m: Minutes, feePips: real)
    requires m.Valid() && |m.volumes| >= |m.ticks| && HasPositions(b) && SleevesNonneg(b) && feePips >= 0.0
    requires forall i :: 0 <= i < |m.ticks| ==> m.volumes[i] >= 0.0
    ensures var h := FeeForHour(b, m, feePips, None, true);
      h.guard + h.base == h.total == FeeParts(b, m, feePips, true).total
  {
    HourSplitTotal(b, m, feePips, true);
    var rate, n := feePips / 1_000_000.0, |m.ticks|;
    SumExactNonneg(b, m, rate, BothIn, n);
    SumExactNonneg(b, m, rate, GuardOnly, n);
    SumExactNonneg(b, m, rate, BaseOnly, n);
    hide SumExact, FeeForHour;
  }

  /** The part of an hour's fee that only the guard earned. */
  function GuardOnlyFee(parts: Parts): real { Max(0.0, parts.total - parts.both - parts.baseOnly) }

  /** Part by part, the guard's remainder included, the expansion stays below the exact share. */
  lemma FastPartsAreSafe(b: Book, m: Minutes, feePips: real)
    requires m.Valid() && Moments(m) && feePips >= 0.0 && SleevesNonneg(b)
    ensures var fast, exact := FeeParts(b, m, feePips, false), FeeParts(b, m, feePips, true);
      0.0 <= fast.both <= exact.both && 0.0 <= fast.baseOnly <= exact.baseOnly && fast.total <= exact.total
      && GuardOnlyFee(fast) <= GuardOnlyFee(exact)
  {
    FastFeeIsSafe(b, m, feePips);
    var rate, n := feePips / 1_000_000.0, |m.ticks|;
    BucketExpansionBelowExact(b, m, rate, BothIn, n);
    BucketExpansionBelowExact(b, m, rate, GuardOnly, n);
    BucketExpansionBelowExact(b, m, rate, BaseOnly, n);
    SumExactNonneg(b, m, rate, BothIn, n);
    SumExactNonneg(b, m, rate, GuardOnly, n);
    SumExactNonneg(b, m, rate, BaseOnly, n);
    hide SumExact, SecondOrder, SumV1, SumV2;
  }

  lemma ShareOfOrders(x: real, y: real, part: real, whole: real)
    requires 0.0 <= x <= y && part >= 0.0 && whole > 0.0
    ensures 0.0 <= ShareOf(x, part, whole) <= ShareOf(y, part, whole)
  {
    ShareOfNonneg(x, part, whole);
    MulLe(x, y, part);
    DivLe(x * part, y * part, whole);
  }

  lemma ProratedShareOrders(x: real, y: real, f: real)
    requires x <= y && f >= 0.0
    ensures Prorated(x, f) <= Prorated(y, f)
  {
    MulLe(x, y, f);
  }

  /**
   * What the ledger credits in fast mode never exceeds the exact credit, in whatever bin the guard is pulled:
   * not the guard's part, not the base's, not the hour's.
   */
  lemma FastHourIsSafe(b: Book, m: Minutes, feePips: real, pull: Option<nat>)
    requires m.Valid() && Moments(m) && feePips >= 0.0 && SleevesNonneg(b)
    ensures var fast, exact := FeeForHour(b, m, feePips, pull, false), FeeForHour(b, m, feePips, pull, true);
      fast.guard <= exact.guard && fast.base <= exact.base && fast.total <= exact.total
  {
    if HasPositions(b) {
      var fast, exact := FeeParts(b, m, feePips, false), FeeParts(b, m, feePips, true);
      FastPartsAreSafe(b, m, feePips);
      hide FeeParts, ShareOf, Prorated;
      if BothL(b) > 0.0 {
        ShareOfOrders(fast.both, exact.both, GuardInPlace(b), BothL(b));
        ShareOfOrders(fast.both, exact.both, b.baseL, BothL(b));
        ProratedShareOrders(ShareOf(fast.both, GuardInPlace(b), BothL(b)),
                            ShareOf(exact.both, GuardInPlace(b), BothL(b)), PullFraction(pull));
      }
    }
  }

  // ----- When the fast split conserves -----

  /** At every minute the book's active liquidity is at most the pool's, v1 / v2. */
  ghost predicate WithinPool(b: Book, m: Minutes)
    requires m.Valid()
  {
    forall i :: 0 <= i < |m.ticks| && m.ticks[i].Some? ==>
      ActiveL(b, m.ticks[i].value) * m.volOverL2[i] <= m.volOverL[i]
  }

  lemma ShareWithinPool(rate: real, l: real, v1: real, v2: real)
    requires rate >= 0.0 && l >= 0.0 && l * v2 <= v1
    ensures SecondOrder(rate, l, v1, v2) >= 0.0
  {
    var d := v1 - l * v2;
    assert l * d == l * v1 - l * l * v2;
    MulNonneg(l, d);
    MulNonneg(rate, l * d);
  }

  lemma {:induction false} BucketWithinPool(b: Book, m: Minutes, rate: real, k: Bucket, n: nat)
    requires m.Valid() && n <= |m.ticks| && rate >= 0.0 && SleevesNonneg(b) && b.deployed && WithinPool(b, m)
    requires k != OutOfRange
    ensures SecondOrder(rate, BucketL(b, k), SumV1(b, m, k, n), SumV2(b, m, k, n)) >= 0.0
  {
    hide SecondOrder;
    var l := BucketL(b, k);
    if n == 0 {
      SecondOrderAdds(rate, l, 0.0, 0.0, 0.0, 0.0);
    } else {
      BucketWithinPool(b, m, rate, k, n - 1);
      var v1, v2 := m.volOverL[n - 1], m.volOverL2[n - 1];
      SecondOrderAdds(rate, l, SumV1(b, m, k, n - 1), v1, SumV2(b, m, k, n - 1), v2);
      if BucketOf(b, m.ticks[n - 1]) == k {
        assert ActiveL(b, m.ticks[n - 1].value) == l;
        ShareWithinPool(rate, l, v1, v2);
      }
    }
  }

  /** The minutes' own sums, before anything is clipped: what both sleeves, the guard and the base alone earn. */
  ghost predicate SharesSurviveClipping(b: Book, m: Minutes, rate: real)
    requires m.Valid()
  {
    var both, base := Expansion(b, m, rate, BothIn), Expansion(b, m, rate, BaseOnly);
    var guard := Expansion(b, m, rate, GuardOnly);
    (both <= 0.0 && base <= 0.0) || guard >= Max(0.0, -both) + Max(0.0, -base)
  }

  /**
   * The fast split hands out exactly its total if and only if, on the sums of the minutes, neither the shared
   * part nor the base's own is positive, or the guard's own part makes up for whatever of these two is negative.
   */
  lemma FastSplitConserves(b: Book, m: Minutes, feePips: real)
    requires m.Valid() && HasPositions(b) && SleevesNonneg(b)
    ensures var h, total := FeeForHour(b, m, feePips, None, false), FeeParts(b, m, feePips, false).total;
      h.guard + h.base == total <==> SharesSurviveClipping(b, m, feePips / 1_000_000.0)
  {
    HourSplitTotal(b, m, feePips, false);
    var rate := feePips / 1_000_000.0;
    if |m.ticks| == 0 {
      NoMinutesNoExpansion(b, m, rate);
    }
    hide FeeForHour, Expansion;
  }

  lemma NoMinutesNoExpansion(b: Book, m: Minutes, rate: real)
    requires m.Valid() && |m.ticks| == 0
    ensures forall k :: Expansion(b, m, rate, k) == 0.0
  {
    forall k ensures Expansion(b, m, rate, k) == 0.0 {
      SecondOrderAdds(rate, BucketL(b, k), 0.0, 0.0, 0.0, 0.0);
    }
  }

  /** That is sure while the book's active liquidity stays within the pool's at every minute. */
  lemma SplitWithinPoolConserves(b: Book, m: Minutes, feePips: real)
    requires m.Valid() && HasPositions(b) && SleevesNonneg(b) && feePips >= 0.0 && WithinPool(b, m)
    ensures var h := FeeForHour(b, m, feePips, None, false);
      h.guard + h.base == FeeParts(b, m, feePips, false).total
  {
    var rate, n := feePips / 1_000_000.0, |m.ticks|;
    BucketWithinPool(b, m, rate, BothIn, n);
    BucketWithinPool(b, m, rate, GuardOnly, n);
    BucketWithinPool(b, m, rate, BaseOnly, n);
    FastSplitConserves(b, m, feePips);
    hide SecondOrder, SumV1, SumV2, FeeForHour, FeeParts;
  }

  /**
   * Beyond the pool it can fail: a base that earns in one minute beside a guard, re-centred out of the base's
   * range and ten times the pool, whose expansion in the next minute is negative. The total is clipped to
   * zero, the base is credited all the same.
   */
  lemma ClippingLiftsTheHour(feePips: real) returns (b: Book, m: Minutes)
    requires feePips > 0.0
    ensures m.Valid() && Moments(m) && HasPositions(b) && SleevesNonneg(b)
    ensures FeeParts(b, m, feePips, false).total == 0.0 < FeeForHour(b, m, feePips, None, false).total
  {
    b := Book(true, 1.0, 10.0, 0, 10, 20, 30, 5, 0.0, true, -1, 1.0, 10.0, 0.0);
    m := Minutes([Some(5), Some(25)], [100.0, 100.0], [10.0, 100.0], [1.0, 100.0]);
    var rate := feePips / 1_000_000.0;
    assert SumV1(b, m, BaseOnly, 1) == 10.0 && SumV2(b, m, BaseOnly, 1) == 1.0;
    assert SumV1(b, m, BaseOnly, 2) == 10.0 && SumV2(b, m, BaseOnly, 2) == 1.0;
    assert SumV1(b, m, GuardOnly, 1) == 0.0 && SumV2(b, m, GuardOnly, 1) == 0.0;
    assert SumV1(b, m, GuardOnly, 2) == 100.0 && SumV2(b, m, GuardOnly, 2) == 100.0;
    assert SumV1(b, m, BothIn, 1) == 0.0 && SumV2(b, m, BothIn, 1) == 0.0;
    assert SumV1(b, m, BothIn, 2) == 0.0 && SumV2(b, m, BothIn, 2) == 0.0;
    assert Expansion(b, m, rate, BothIn) == 0.0 && Expansion(b, m, rate, BaseOnly) == 9.0 * rate;
    assert Expansion(b, m, rate, GuardOnly) == -9_000.0 * rate;
    HourSplitTotal(b, m, feePips, false);
    hide Expansion, FeeForHour;
  }

  lemma {:induction false} SumExactNonneg(b: Book, m: Minutes, rate: real, k: Bucket, n: nat)
    requires m.Valid() && n <= |m.ticks| && n <= |m.volumes| && rate >= 0.0
    requires forall i :: 0 <= i < n ==> m.volumes[i] >= 0.0
    ensures SumExact(b, m, rate, k, n) >= 0.0
  {
    hide ExactShare;
    if n > 0 {
      SumExactNonneg(b, m, rate, k, n - 1);
      ExactShareBounds(rate, m.volumes[n - 1], m.volOverL[n - 1], BucketL(b, k));
    }
  }

  /** Fees are never negative, whatever the mode, the minutes or the pull. */
  lemma HourFeesNonneg(b: Book, m: Minutes, feePips: real, pull: Option<nat>, exact: bool)
    requires m.Valid() && SleevesNonneg(b)
    ensures var h := FeeForHour(b, m, feePips, pull, exact);
      h.total >= 0.0 && h.guard >= 0.0 && h.base >= 0.0
  {
    var parts := FeeParts(b, m, feePips, exact);
    assert parts.total >= 0.0 && parts.both >= 0.0 && parts.baseOnly >= 0.0;
    hide FeeParts, ShareOf, Prorated;
    if HasPositions(b) && BothL(b) > 0.0 {
      ShareOfNonneg(parts.both, GuardInPlace(b), BothL(b));
      ShareOfNonneg(parts.both, b.baseL, BothL(b));
      ProratedOrders(ShareOf(parts.both, GuardInPlace(b), BothL(b)), PullFraction(pull), 1.0);
    }
  }

  /** A pull takes nothing from the base, and the later the bin, the more the guard keeps. */
  lemma PullOnlyCostsTheGuard(b: Book, m: Minutes, feePips: real, early: nat, late: nat, exact: bool)
    requires m.Valid() && SleevesNonneg(b) && early <= late
    ensures var e, l, none := FeeForHour(b, m, feePips, Some(early), exact),
        FeeForHour(b, m, feePips, Some(late), exact), FeeForHour(b, m, feePips, None, exact);
      e.base == l.base == none.base && e.guard <= l.guard <= none.guard
      && none.total - e.total == none.guard - e.guard
  {
    var parts := FeeParts(b, m, feePips, exact);
    assert parts.both >= 0.0;
    hide FeeParts, ShareOf, Prorated;
    if HasPositions(b) && BothL(b) > 0.0 {
      var share := ShareOf(parts.both, GuardInPlace(b), BothL(b));
      ShareOfNonneg(parts.both, GuardInPlace(b), BothL(b));
      FractionsOrder(early, late);
      hide PullFraction;
      ProratedOrders(share, PullFraction(Some(early)), PullFraction(Some(late)));
      ProratedOrders(share, PullFraction(Some(late)), PullFraction(None));
    }
  }

  lemma FractionsOrder(early: nat, late: nat)
    requires early <= late
    ensures PullFraction(Some(early)) <= PullFraction(Some(late)) <= PullFraction(None) == 1.0
  {
    DivLe(early as real, late as real, 12.0);
  }

  // ----- Size of the book -----

  /** A minute pays a larger book at least as much, but never more than two parts of it apart. */
  lemma ShareOrders(rate: real, vol: real, v1: real, l: real, l': real)
    requires rate >= 0.0 && vol >= 0.0 && l >= 0.0 && l' >= 0.0
    ensures ExactShare(rate, vol, v1, l) <= ExactShare(rate, vol, v1, l + l')
         <= ExactShare(rate, vol, v1, l) + ExactShare(rate, vol, v1, l')
  {
    hide ExactShare, Portion;
    if vol > 0.0 && v1 > 0.0 && l > 0.0 && l' > 0.0 {
      var z, z' := l * v1 / vol, l' * v1 / vol;
      MulDiv(l * v1, vol); MulDiv(l' * v1, vol);
      assert (z + z') * vol == (l + l') * v1;
      ShareOfVolume(rate, vol, v1, l, z);
      ShareOfVolume(rate, vol, v1, l', z');
      ShareOfVolume(rate, vol, v1, l + l', z + z');
      MulNonneg(rate, vol);
      FractionsSubadditive(z, z');
      ScaledLe(z / (1.0 + z), (z + z') / (1.0 + (z + z')), rate * vol);
      ScaledLe((z + z') / (1.0 + (z + z')), z / (1.0 + z) + z' / (1.0 + z'), rate * vol);
      PortionAdds(rate * vol, z / (1.0 + z), z' / (1.0 + z'));
    } else {
      ExactShareBounds(rate, vol, v1, l);
      ExactShareBounds(rate, vol, v1, l');
      ExactShareBounds(rate, vol, v1, l + l');
      NoShare(rate, vol, v1, l, l');
    }
  }

  lemma NoShare(rate: real, vol: real, v1: real, l: real, l': real)
    requires l >= 0.0 && l' >= 0.0 && !(vol > 0.0 && v1 > 0.0 && l > 0.0 && l' > 0.0)
    ensures ExactShare(rate, vol, v1, l + l') == ExactShare(rate, vol, v1, l) + ExactShare(rate, vol, v1, l')
  {
    if l == 0.0 { assert l + l' == l'; }
    if l' == 0.0 { assert l + l' == l; }
    hide ExactShare;
    if vol > 0.0 && v1 > 0.0 {
      NoBucketNoFee(rate, vol, v1);
    }
  }

  lemma PortionAdds(fee: real, x: real, y: real)
    ensures Portion(fee, x + y) == Portion(fee, x) + Portion(fee, y)
  {
  }

  lemma FractionsSubadditive(z: real, z': real)
    requires z > 0.0 && z' > 0.0
    ensures z / (1.0 + z) <= (z + z') / (1.0 + (z + z')) <= z / (1.0 + z) + z' / (1.0 + z')
  {
    DivCompare(z, 1.0 + z, z + z', 1.0 + (z + z'));
    DivCompare(z, 1.0 + (z + z'), z, 1.0 + z);
    DivCompare(z', 1.0 + (z + z'), z', 1.0 + z');
    MulPos(z, z');
    var zz, zz' := z * z, z' * z';
    ProductPos(z, z, zz); ProductPos(z', z', zz');
    assert (z + z') / (1.0 + (z + z')) == z / (1.0 + (z + z')) + z' / (1.0 + (z + z'));
  }

  /** Two books over the same ranges, added sleeve by sleeve. */
  function Merged(b: Book, c: Book): Book {
    b.(baseL := b.baseL + c.baseL, guardL := b.guardL + c.guardL)
  }

  ghost predicate SameRanges(b: Book, c: Book) {
    b.deployed && c.deployed && b.guardPresent == c.guardPresent
    && b.baseLo == c.baseLo && b.baseHi == c.baseHi && b.guardLo == c.guardLo && b.guardHi == c.guardHi
  }

  /** The exact fee grows with the book's liquidity and never pays more for merging two books. */
  lemma {:induction false} ExactFeeMonotoneSubadditive(b: Book, c: Book, m: Minutes, rate: real, n: nat)
    requires SameRanges(b, c) && SleevesNonneg(b) && SleevesNonneg(c)
    requires m.Valid() && n <= |m.ticks| && n <= |m.volumes| && rate >= 0.0
    requires forall i :: 0 <= i < n ==> m.volumes[i] >= 0.0
    ensures ProRata(b, m, rate, n) <= ProRata(Merged(b, c), m, rate, n)
         <= ProRata(b, m, rate, n) + ProRata(c, m, rate, n)
  {
    hide ExactShare;
    if n > 0 {
      ExactFeeMonotoneSubadditive(b, c, m, rate, n - 1);
      if m.ticks[n - 1].Some? {
        var t := m.ticks[n - 1].value;
        assert ActiveL(Merged(b, c), t) == ActiveL(b, t) + ActiveL(c, t);
        ShareOrders(rate, m.volumes[n - 1], m.volOverL[n - 1], ActiveL(b, t), ActiveL(c, t));
      } else {
        NoBucketNoFee(rate, m.volumes[n - 1], m.volOverL[n - 1]);
      }
    }
  }
}
