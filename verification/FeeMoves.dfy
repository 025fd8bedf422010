/** What the fee-first allocator does with a NORMAL gate, what a pool pays, and what the edge stands for. */
module FeeMoves {
  import opened RealMath
  import opened FeeAllocator

  // ----- The move -----

  /** One limited step from a weight towards an aim. */
  function Towards(w: real, aim: real, step: real): real {
    if aim >= w then w + Min(step, aim - w) else w - Min(step, w - aim)
  }

  /**
   * A rebalance behind a NORMAL gate: a positive edge at the cap-safe target takes the 0.30 weight towards it by a step
   * or what is missing; failing that a negative edge where it stands takes it down a step, to zero at most; failing
   * both it stays. Off the clock nothing moves.
   */
  lemma NormalGateMoves(p: Params, rows: seq<Row>, s: State)
    requires Sound(p) && |rows| > 0 && WeightsOk(p, s.weights)
    ensures var w, t := s.weights.p30, Step(p, rows, s).weights;
      var target := WTarget(p, Max(1.0, s.nav));
      t.p05 == 1.0 - t.p30 && t.p15 == 0.0
      && (p.rebalanceHours > 1 && s.step % p.rebalanceHours != 0 ==> t.p30 == w)
      && ((p.rebalanceHours <= 1 || s.step % p.rebalanceHours == 0) && !GateAt(p, rows, s) ==>
        t.p30 == if EdgeAt(p, rows, s, target) > 0.0 then Towards(w, target, p.moveStep)
                 else if EdgeAt(p, rows, s, w) < 0.0 then Max(0.0, w - p.moveStep)
                 else w)
  {
    TargetsOk(p, rows, s);
    MoveIsLimited(s.weights, Targets(p, rows, s), p.moveStep);
    hide Targets, NextWeights, EdgeAt, GateAt, CapWeight;
  }

  /** Normalising keeps the proportions of the positive weights; with none positive everything is in 0.05. */
  lemma NormKeepsProportions(w: Weights)
    ensures var q, t := Weights(Max(0.0, w.p05), Max(0.0, w.p15), Max(0.0, w.p30)), Norm(w);
      var total := q.p05 + q.p15 + q.p30;
      if total <= 0.0 then t == Weights(1.0, 0.0, 0.0)
      else Times(t.p05, total) == q.p05 && Times(t.p15, total) == q.p15 && Times(t.p30, total) == q.p30
  {
  }

  // ----- The fees -----

  lemma ShareIs(capital: real, capacity: real)
    requires capital >= 0.0 && capacity > 0.0
    ensures Times(ShareOf(capital, capacity), capital + capacity) == capital
  {
  }

  /** A pool's payment: of its revenue, the part that the capital is of capital and capacity together. */
  ghost predicate Pays(paid: real, revenue: real, capital: real, capacity: real) {
    Times(paid, capital + capacity) == Times(revenue, capital)
  }

  lemma PaysItsShare(revenue: real, capital: real, capacity: real)
    requires capital >= 0.0 && capacity > 0.0
    ensures Pays(Times(revenue, ShareOf(capital, capacity)), revenue, capital, capacity)
  {
    ShareIs(capital, capacity);
    var share, whole := ShareOf(capital, capacity), capital + capacity;
    hide ShareOf;
    assert revenue * share * whole == revenue * (share * whole);
  }

  /** What the pools pay on given weights: each its own revenue at its own share. */
  lemma EarnedIsPaid(p: Params, row: Row, w: Weights, nav: real)
    requires p.rate30 != 0.0 && Simplex(w)
    requires p.capacity05 > 0.0 && p.capacity15 > 0.0 && p.capacity30 > 0.0
    ensures var e, rev, n := Earned(p, row, w, nav), Revenue(p, row), Max(0.0, nav);
      Pays(e.p05, rev.p05, Times(w.p05, n), p.capacity05) && Pays(e.p15, rev.p15, Times(w.p15, n), p.capacity15)
      && Pays(e.p30, rev.p30, Times(w.p30, n), p.capacity30)
  {
    var n, rev := Max(0.0, nav), Revenue(p, row);
    MulNonneg(w.p05, n); MulNonneg(w.p15, n); MulNonneg(w.p30, n);
    assert Times(w.p05, n) >= 0.0 && Times(w.p15, n) >= 0.0 && Times(w.p30, n) >= 0.0;
    hide Pays, ShareOf, Revenue, Max, Times;
    PaysItsShare(rev.p05, Times(w.p05, n), p.capacity05);
    PaysItsShare(rev.p15, Times(w.p15, n), p.capacity15);
    PaysItsShare(rev.p30, Times(w.p30, n), p.capacity30);
  }

  lemma PlusLess(s: Weights, e: Weights)
    ensures var t := Plus(s, e); Weights(t.p05 - s.p05, t.p15 - s.p15, t.p30 - s.p30) == e
  {
  }

  lemma StepEarns(p: Params, rows: seq<Row>, s: State)
    requires |rows| > 0 && p.shareCap30 < 1.0 && p.rate30 != 0.0
    ensures var t := Step(p, rows, s);
      Simplex(t.weights) && t.fees == Plus(s.fees, Earned(p, rows[RowIndex(rows, s.step)], t.weights, s.nav))
  {
    hide Targets, Norm, MoveCost, Earned, Simplex;
    var was, aim := s.weights, Targets(p, rows, s);
    NormIsSimplex(Weights(was.p05 + Limited(aim.p05 - was.p05, p.moveStep),
                          was.p15 + Limited(aim.p15 - was.p15, p.moveStep),
                          was.p30 + Limited(aim.p30 - was.p30, p.moveStep)));
  }

  /**
   * What an hour's step credits, pool by pool, on the weights it has just moved to: 0.05 pays its own fees, 0.15 the
   * 0.30 fees at its rate and multiplier, 0.30 its own at its multiplier.
   */
  lemma EachPoolPays(p: Params, rows: seq<Row>, s: State)
    requires |rows| > 0 && p.shareCap30 < 1.0 && p.rate30 != 0.0
    requires p.capacity05 > 0.0 && p.capacity15 > 0.0 && p.capacity30 > 0.0
    ensures var t, row, n := Step(p, rows, s), rows[if s.step < |rows| then s.step else |rows| - 1], Max(0.0, s.nav);
      Pays(t.fees.p05 - s.fees.p05, row.feesA, Times(t.weights.p05, n), p.capacity05)
      && Pays(t.fees.p15 - s.fees.p15, Times(Times(row.feesB, p.rate15 / p.rate30), p.vol15Mult),
              Times(t.weights.p15, n), p.capacity15)
      && Pays(t.fees.p30 - s.fees.p30, Times(row.feesB, p.vol30Mult), Times(t.weights.p30, n), p.capacity30)
  {
    hide Step, Earned, Pays, Max, Plus, Times;
    var row := rows[RowIndex(rows, s.step)];
    StepEarns(p, rows, s);
    PlusLess(s.fees, Earned(p, row, Step(p, rows, s).weights, s.nav));
    EarnedIsPaid(p, row, Step(p, rows, s).weights, s.nav);
  }

  // ----- What the edge stands for -----

  lemma ShareShrinks(x: real, w: real, capacity: real)
    requires x > 0.0 && 0.0 <= w <= 1.0 && capacity > 0.0
    ensures Times(1.0 - w, ShareOf(x, capacity)) <= ShareOf(Times(1.0 - w, x), capacity)
  {
    var k := 1.0 - w;
    MulNonneg(k, x);
    if k * x > 0.0 { LessCrowded(x, k * x, k, capacity); }
  }

  lemma LessCrowded(x: real, y: real, k: real, capacity: real)
    requires x > 0.0 && 0.0 <= k <= 1.0 && y == k * x && y > 0.0 && capacity > 0.0
    ensures k * (x / (x + capacity)) <= y / (y + capacity)
  {
    MulLe(k, 1.0, x);
    assert y <= x;
    DivCompare(y, x + capacity, y, y + capacity);
    MulLe(y + capacity, x + capacity, y);
    assert k * (x / (x + capacity)) == y / (x + capacity);
  }

  /** The execution cost that the edge counts. */
  function CountedCost(w: real, nav: real, switchBps: real, gas: real): real { w * nav * switchBps / BPS + gas }

  /**
   * The edge against what the pools would pay. Over so many hours of the average fees, moving the weight w out of 0.05
   * gains at least what the edge counts: its 0.30 fees exactly, and no more 0.05 fees given up than it says, because
   * what stays behind is less crowded.
   */
  lemma EdgeNeverOverstatesFees(p: Params, row: Row, w: real, nav: real, hours: real, switchBps: real, gas: real,
                                buffer: real)
    requires 0.0 < w <= 1.0 && nav > 0.0 && p.rate30 != 0.0 && row.feesA >= 0.0 && hours >= 0.0
    requires p.capacity05 >= EPS && p.capacity30 >= EPS
    ensures var before := Earned(p, row, Weights(1.0, 0.0, 0.0), nav);
      var after := Earned(p, row, Weights(1.0 - w, 0.0, w), nav);
      var counted := FeeSwitchEdge(w, nav, row.feesA, Times(row.feesB, p.vol30Mult), p.capacity05, p.capacity30, hours,
                                   switchBps, gas, buffer) + CountedCost(w, nav, switchBps, gas) + buffer;
      counted == Times(after.p30 - Times(w, before.p05), hours)
      && counted <= Times(Sum(after) - Sum(before), hours)
  {
    MulPos(w, nav);
    hide ShareOf, Earned, FeeSwitchEdge, CountedCost, Times;
    ShareShrinks(nav, w, p.capacity05);
    var shareA, shareB := ShareOf(nav, p.capacity05), ShareOf(Times(w, nav), p.capacity30);
    EdgeParts(row.feesA, Times(row.feesB, p.vol30Mult), p.capacity05, p.capacity30, w, nav, hours, switchBps, gas, buffer,
              shareA, shareB);
    EarnedParts(p, row, w, nav, shareA, shareB);
    GivenUp(row.feesA, w, shareA, ShareOf(Times(1.0 - w, nav), p.capacity05));
    var before, after := Earned(p, row, Weights(1.0, 0.0, 0.0), nav), Earned(p, row, Weights(1.0 - w, 0.0, w), nav);
    OverHours(after.p30 - Times(w, before.p05), Sum(after) - Sum(before), hours);
  }

  lemma OverHours(x: real, y: real, hours: real)
    requires x <= y && hours >= 0.0
    ensures Times(x, hours) <= Times(y, hours)
  {
    MulLe(x, y, hours);
  }

  lemma EarnedParts(p: Params, row: Row, w: real, nav: real, shareA: real, shareB: real)
    requires 0.0 < w <= 1.0 && nav > 0.0 && p.rate30 != 0.0
    requires shareA == ShareOf(nav, p.capacity05) && shareB == ShareOf(Times(w, nav), p.capacity30)
    ensures var before := Earned(p, row, Weights(1.0, 0.0, 0.0), nav);
      var after := Earned(p, row, Weights(1.0 - w, 0.0, w), nav);
      before == Weights(Times(row.feesA, shareA), before.p15, 0.0)
      && after == Weights(Times(row.feesA, ShareOf(Times(1.0 - w, nav), p.capacity05)), before.p15,
                          Times(Times(row.feesB, p.vol30Mult), shareB))
  {
    assert Times(1.0, nav) == nav && Times(0.0, nav) == 0.0 && Max(0.0, nav) == nav;
    assert forall x :: Times(x, 0.0) == 0.0;
    NoCapitalNoShare(p.capacity30);
    hide ShareOf, Times, Max;
  }

  lemma NoCapitalNoShare(capacity: real)
    ensures ShareOf(0.0, capacity) == 0.0
  {
  }

  lemma EdgeParts(feeA: real, feeB: real, capA: real, capB: real, w: real, nav: real, hours: real, switchBps: real,
                  gas: real, buffer: real, shareA: real, shareB: real)
    requires 0.0 < w <= 1.0 && nav > 0.0 && capA >= EPS && capB >= EPS && Times(w, nav) > 0.0
    requires shareA == ShareOf(nav, capA) && shareB == ShareOf(Times(w, nav), capB)
    ensures FeeSwitchEdge(w, nav, feeA, feeB, capA, capB, hours, switchBps, gas, buffer)
         == Times(Times(feeB, shareB) - Times(w, Times(feeA, shareA)), hours)
            - CountedCost(w, nav, switchBps, gas) - buffer
  {
    assert Clamp(w, 0.0, 1.0) == w && Max(0.0, nav) == nav;
    assert Max(EPS, capA) == capA && Max(EPS, capB) == capB;
    assert w * feeA * shareA * hours == w * (feeA * shareA) * hours;
  }

  lemma GivenUp(fees: real, w: real, share: real, left: real)
    requires fees >= 0.0 && Times(1.0 - w, share) <= left
    ensures Times(fees, share) - Times(fees, left) <= Times(w, Times(fees, share))
  {
    MulLe((1.0 - w) * share, left, fees);
    assert fees * left == left * fees && (1.0 - w) * share * fees == fees * share - w * (fees * share);
  }

  /**
   * The bill of that move, made in one step, is more than the edge counts: the switch rate is charged on the sleeve
   * left as well as on the sleeve entered, and the edge counts it once.
   */
  lemma MoveIsChargedTwice(p: Params, w: real, nav: real)
    requires 0.0 < w <= 1.0 && 2.0 * (w * nav) > EPS
    ensures MoveCost(p, Weights(1.0, 0.0, 0.0), Weights(1.0 - w, 0.0, w), nav)
         == CountedCost(w, nav, p.switchCostBps, p.gasCost) + w * nav * p.switchCostBps / BPS
  {
    assert Moved(Weights(1.0 - w, 0.0, w), Weights(1.0, 0.0, 0.0)) == 2.0 * w;
    assert 2.0 * w * nav == 2.0 * (w * nav);
    assert 2.0 * (w * nav) * p.switchCostBps == 2.0 * (w * nav * p.switchCostBps);
  }

  // ----- The cap-safe target -----

  /** A sleeve of the cap weight has exactly the cap as its share of the pool. */
  lemma CapWeightIsExact(shareCap: real, capacity: real, nav: real)
    requires 0.0 <= shareCap < 1.0 && capacity > 0.0 && nav > 0.0
    ensures ShareOf(Times(CapWeight(shareCap, capacity, nav), nav), capacity) == shareCap
  {
    var d, top := nav * (1.0 - shareCap), shareCap * capacity;
    ProductPos(nav, 1.0 - shareCap, d);
    ProductNonneg(shareCap, capacity, top);
    var w := top / d;
    DivNonneg(top, d);
    MulNonneg(w, nav);
    assert w * d == top;
    var x := w * nav;
    assert x * (1.0 - shareCap) == top by { assert w * (nav * (1.0 - shareCap)) == w * nav * (1.0 - shareCap); }
    assert shareCap * (x + capacity) == x;
    MulDiv(shareCap, x + capacity);
  }

  /** The target is the largest weight that both caps allow: a weight is up to it exactly when it is within both. */
  lemma TargetIsLargest(p: Params, nav: real, w: real)
    requires nav > 0.0 && 0.0 <= p.shareCap30 < 1.0 && p.capacity30 > 0.0 && w >= 0.0
    ensures w <= WTarget(p, nav)
      <==> w <= p.weightCap30 && ShareOf(Times(w, nav), p.capacity30) <= p.shareCap30
  {
    var cap := CapWeight(p.shareCap30, p.capacity30, nav);
    CapWeightIsExact(p.shareCap30, p.capacity30, nav);
    CapWeightNonneg(p.shareCap30, p.capacity30, nav);
    hide CapWeight, ShareOf, Times;
    if w > cap {
      MoreCrowded(cap, w, nav, p.capacity30);
    } else if w < cap {
      MoreCrowded(w, cap, nav, p.capacity30);
    }
  }

  lemma CapWeightNonneg(shareCap: real, capacity: real, nav: real)
    requires 0.0 <= shareCap < 1.0 && capacity > 0.0 && nav > 0.0
    ensures CapWeight(shareCap, capacity, nav) >= 0.0
  {
    var d, top := nav * (1.0 - shareCap), shareCap * capacity;
    ProductPos(nav, 1.0 - shareCap, d);
    ProductNonneg(shareCap, capacity, top);
    DivNonneg(top, d);
  }

  lemma MoreCrowded(v: real, w: real, nav: real, capacity: real)
    requires 0.0 <= v < w && nav > 0.0 && capacity > 0.0
    ensures ShareOf(Times(v, nav), capacity) < ShareOf(Times(w, nav), capacity)
  {
    var x, y := Times(v, nav), Times(w, nav);
    MulNonneg(v, nav);
    MulPos(w - v, nav);
    assert y - x == (w - v) * nav;
    hide Times;
    LargerShare(x, y, capacity);
  }

  lemma LargerShare(x: real, y: real, capacity: real)
    requires 0.0 <= x < y && capacity > 0.0
    ensures ShareOf(x, capacity) < ShareOf(y, capacity)
  {
    DivCompare(y, y + capacity, x, x + capacity);
    MulPos(y - x, capacity);
    assert x * (y + capacity) < y * (x + capacity);
  }

  /** The share check fires exactly on a sleeve above the cap by more than a billionth of it. */
  lemma ShareCheckFires(p: Params, rows: seq<Row>, idx: nat, nav: real, w: real)
    requires idx < |rows| && nav > 0.0 && 0.0 < p.shareCap30 < 1.0 && p.capacity30 > 0.0 && 0.0 <= w <= 1.0
    ensures Fires(p, rows, idx, nav, w, ShareCapped)
      <==> ShareOf(Times(w, nav), p.capacity30) > p.shareCap30 + p.shareCap30 * 0.000000001
  {
    var d, top := nav * (1.0 - p.shareCap30), p.shareCap30 * p.capacity30;
    ProductPos(nav, 1.0 - p.shareCap30, d);
    ProductPos(p.shareCap30, p.capacity30, top);
    DivCompare(top, d, 0.0, 1.0);
    assert CapWeight(p.shareCap30, p.capacity30, nav) > 0.0 && Max(0.0, nav) == nav;
    SleeveIs(p, nav, w);
    hide CapWeight, ShareOf, SleeveShare;
  }

  // ----- The averages -----

  lemma {:induction false} SumBetween(rows: seq<Row>, lo: nat, hi: nat, bookB: bool, least: real, most: real)
    requires lo <= hi <= |rows|
    requires forall i :: lo <= i < hi ==> least <= (if bookB then rows[i].feesB else rows[i].feesA) <= most
    ensures (hi - lo) as real * least <= SumFees(rows, lo, hi, bookB) <= (hi - lo) as real * most
    decreases hi - lo
  {
    if lo < hi {
      SumBetween(rows, lo, hi - 1, bookB, least, most);
      assert (hi - lo) as real * least == (hi - 1 - lo) as real * least + least;
      assert (hi - lo) as real * most == (hi - 1 - lo) as real * most + most;
    }
  }

  /** The edge's fee average lies between the least and the most of its window, each pool on its own fees. */
  lemma MeanIsBetween(p: Params, rows: seq<Row>, idx: nat, bookB: bool, least: real, most: real)
    requires idx < |rows|
    requires forall i :: WindowStart(idx, p.evalHours) <= i <= idx ==>
      least <= (if bookB then rows[i].feesB else rows[i].feesA) <= most
    ensures least <= MeanFees(p, rows, idx, bookB) <= most
  {
    var start := WindowStart(idx, p.evalHours);
    var n, total := (idx + 1 - start) as real, SumFees(rows, start, idx + 1, bookB);
    SumBetween(rows, start, idx + 1, bookB, least, most);
    DivCompare(least, 1.0, total, n);
    DivCompare(total, n, most, 1.0);
    hide SumFees;
  }

  /**
   * What the edge and the gate are asked at a step: the row of the step, the last one past the tape's end; a NAV of at
   * least a dollar; for the edge the fees that a steady window has, the 0.30 ones at their multiplier, over the
   * evaluation hours.
   */
  lemma AskedAtTheRow(p: Params, rows: seq<Row>, s: State, w: real, feesA: real, feesB: real)
    requires |rows| > 0 && p.shareCap30 < 1.0
    requires var idx := if s.step < |rows| then s.step else |rows| - 1;
      forall i :: WindowStart(idx, p.evalHours) <= i <= idx ==> rows[i].feesA == feesA && rows[i].feesB == feesB
    ensures EdgeAt(p, rows, s, w)
         == FeeSwitchEdge(w, Max(1.0, s.nav), feesA, Times(feesB, p.vol30Mult), p.capacity05, p.capacity30,
                          p.evalHours as real, p.switchCostBps, p.gasCost, p.feeBufferUsd)
    ensures GateAt(p, rows, s)
      <==> GateHigh(p, rows, if s.step < |rows| then s.step else |rows| - 1, Max(1.0, s.nav), s.weights.p30)
  {
    hide FeeSwitchEdge, MeanFees, GateHigh, Times;
    MeanIsBetween(p, rows, RowIndex(rows, s.step), false, feesA, feesA);
    MeanIsBetween(p, rows, RowIndex(rows, s.step), true, feesB, feesB);
  }

  /** The policies without a check: with a step of at least one they are where they aim in an hour, and stay. */
  lemma FixedPoliciesArrive(p: Params, rows: seq<Row>, s: State)
    requires |rows| > 0 && p.shareCap30 < 1.0 && p.rate30 != 0.0 && p.moveStep >= 1.0 && Simplex(s.weights)
    ensures var w := Step(p, rows, s).weights;
      (p.policy == All05 ==> w == Weights(1.0, 0.0, 0.0)) && (p.policy == All15 ==> w == Weights(0.0, 1.0, 0.0))
      && (p.policy == All30 ==> w == Weights(0.0, 0.0, 1.0)) && (p.policy == Static ==> w == Norm(p.staticWeights))
  {
    FixedAims(p, rows, s);
    if p.policy != FeeCheck {
      NormIsSimplex(p.staticWeights);
      assert Simplex(Targets(p, rows, s)) by { hide Norm; }
      hide Targets, Step, Simplex, Norm;
      StepGoesTo(p, rows, s);
    }
  }

  lemma FixedAims(p: Params, rows: seq<Row>, s: State)
    requires |rows| > 0 && p.shareCap30 < 1.0
    ensures var aim := Targets(p, rows, s);
      (p.policy == All05 ==> aim == Weights(1.0, 0.0, 0.0)) && (p.policy == All15 ==> aim == Weights(0.0, 1.0, 0.0))
      && (p.policy == All30 ==> aim == Weights(0.0, 0.0, 1.0)) && (p.policy == Static ==> aim == Norm(p.staticWeights))
  {
    hide Norm;
  }

  lemma StepGoesTo(p: Params, rows: seq<Row>, s: State)
    requires |rows| > 0 && p.shareCap30 < 1.0 && p.rate30 != 0.0 && p.moveStep >= 1.0 && Simplex(s.weights)
    requires Simplex(Targets(p, rows, s))
    ensures Step(p, rows, s).weights == Targets(p, rows, s)
  {
    hide Targets, Norm, Limited, MoveCost, Earned, Simplex;
    SimplexIsWithinOne(s.weights, Targets(p, rows, s), p.moveStep);
    NormIsSimplex(Targets(p, rows, s));
  }

  lemma SimplexIsWithinOne(was: Weights, aim: Weights, step: real)
    requires Simplex(was) && Simplex(aim) && step >= 1.0
    ensures Weights(was.p05 + Limited(aim.p05 - was.p05, step), was.p15 + Limited(aim.p15 - was.p15, step),
                    was.p30 + Limited(aim.p30 - was.p30, step)) == aim
  {
  }

  /** A window is the last so many hours, or all there are; at least the present one. */
  lemma WindowIsTheRecentPast(idx: nat, window: int)
    ensures var hours := idx + 1 - WindowStart(idx, window);
      hours == if window <= 1 then 1 else if window <= idx + 1 then window else idx + 1
  {
  }

  lemma {:induction false} VolumeAtMost(rows: seq<Row>, lo: nat, hi: nat, most: real)
    requires lo <= hi <= |rows| && forall i :: lo <= i < hi ==> rows[i].volumeB < most
    ensures lo < hi ==> SumVolume(rows, lo, hi) < (hi - lo) as real * most
    ensures lo == hi ==> SumVolume(rows, lo, hi) == 0.0
    decreases hi - lo
  {
    if lo < hi {
      VolumeAtMost(rows, lo, hi - 1, most);
      assert (hi - lo) as real * most == (hi - 1 - lo) as real * most + most;
    }
  }

  /** A window of thin hours only is thin: the converse of the forgiveness for a single one. */
  lemma ThinWindowFires(p: Params, rows: seq<Row>, idx: nat, nav: real, w: real, v: real)
    requires idx < |rows| && p.shareCap30 < 1.0 && p.vol30Mult > 0.0 && v * p.vol30Mult <= p.minVolumeUsd
    requires forall i :: WindowStart(idx, p.volumeWindowHours) <= i <= idx ==> rows[i].volumeB < v
    ensures Fires(p, rows, idx, nav, w, ThinVolume)
  {
    var start := WindowStart(idx, p.volumeWindowHours);
    var n, total := (idx + 1 - start) as real, SumVolume(rows, start, idx + 1);
    VolumeAtMost(rows, start, idx + 1, v);
    DivCompare(v, 1.0, total, n);
    MulPos(v - total / n, p.vol30Mult);
    assert (v - total / n) * p.vol30Mult == v * p.vol30Mult - total / n * p.vol30Mult;
    hide SumVolume;
  }
}
