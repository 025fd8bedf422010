/** The fee-first allocator: weights over three pools, moved by a live fee comparison behind a risk gate. */
module FeeAllocator {
  import opened RealMath

  datatype Weights = Weights(p05: real, p15: real, p30: real)

  datatype Policy = Static | All05 | All15 | All30 | FeeCheck

  datatype Params = Params(
    policy: Policy, initialNav: real, staticWeights: Weights,
    rate15: real, rate30: real, capacity05: real, capacity15: real, capacity30: real,
    vol15Mult: real, vol30Mult: real,
    weightCap30: real, shareCap30: real,
    rebalanceHours: int, moveStep: real, switchCostBps: real, gasCost: real, feeBufferUsd: real,
    minVolumeUsd: real, volumeWindowHours: int, maxVolatilityBps: real,
    guardThresholdBps: real, maxGuardPulls: int, depegBps: real, evalHours: int)

  /** One hour of the tape, as far as the allocator reads it. */
  datatype Row = Row(feesA: real, feesB: real, volumeB: real, volatilityB: real, max5mB: real,
                     guardPullsB: int, depegProxyB: real, depegPaused: bool)

  datatype State = State(step: nat, weights: Weights, fees: Weights, cumCosts: real, nav: real)

  // ----- Weights -----

  function Sum(w: Weights): real { w.p05 + w.p15 + w.p30 }

  function Positive(w: Weights): Weights { Weights(Max(0.0, w.p05), Max(0.0, w.p15), Max(0.0, w.p30)) }

  function Norm(w: Weights): Weights {
    var q := Positive(w);
    if Sum(q) <= 0.0 then Weights(1.0, 0.0, 0.0) else Weights(q.p05 / Sum(q), q.p15 / Sum(q), q.p30 / Sum(q))
  }

  /** A probability vector. */
  ghost predicate Simplex(w: Weights) { w.p05 >= 0.0 && w.p15 >= 0.0 && w.p30 >= 0.0 && Sum(w) == 1.0 }

  function Limited(delta: real, step: real): real { Max(-step, Min(step, delta)) }

  function NextWeights(was: Weights, targets: Weights, step: real): Weights {
    Norm(Weights(was.p05 + Limited(targets.p05 - was.p05, step),
                 was.p15 + Limited(targets.p15 - was.p15, step),
                 was.p30 + Limited(targets.p30 - was.p30, step)))
  }

  lemma NormIsSimplex(w: Weights)
    ensures Simplex(Norm(w))
    ensures Simplex(w) ==> Norm(w) == w
  {
    var q := Positive(w);
    var t := Sum(q);
    if Simplex(w) {
      SimplexStays(w);
    } else if t > 0.0 {
      assert q.p05 >= 0.0 && q.p15 >= 0.0 && q.p30 >= 0.0;
      hide Sum, Simplex, Positive;
      ScaledIsSimplex(q, t);
    }
  }

  lemma SimplexStays(w: Weights)
    requires Simplex(w)
    ensures Norm(w) == w
  {
    assert Positive(w) == w && Sum(w) == 1.0;
    MulDiv(w.p05, 1.0); MulDiv(w.p15, 1.0); MulDiv(w.p30, 1.0);
  }

  lemma ScaledIsSimplex(q: Weights, t: real)
    requires q.p05 >= 0.0 && q.p15 >= 0.0 && q.p30 >= 0.0 && t == Sum(q) && t > 0.0
    ensures Simplex(Weights(q.p05 / t, q.p15 / t, q.p30 / t))
  {
    DivNonneg(q.p05, t); DivNonneg(q.p15, t); DivNonneg(q.p30, t);
    MulDiv(q.p05, t); MulDiv(q.p15, t); MulDiv(q.p30, t);
    SharesAddUp(q.p05, q.p15, q.p30, t, q.p05 / t, q.p15 / t, q.p30 / t);
  }

  lemma SharesAddUp(a: real, b: real, c: real, t: real, x: real, y: real, z: real)
    requires t == a + b + c && t > 0.0 && x * t == a && y * t == b && z * t == c
    ensures x + y + z == 1.0
  {
    assert (x + y + z) * t == t;
    MulDiv(x + y + z, t);
  }

  // ----- The move rule -----

  /** Pool share of a capital against a pool capacity. */
  function ShareOf(capital: real, capacity: real): real {
    if capital + capacity > 0.0 then capital / (capital + capacity) else 0.0
  }

  const EPS := 0.000000001

  /** Dollar edge of moving the fraction w from the 0.05 to the 0.30 pool over the evaluation window. */
  function FeeSwitchEdge(w: real, nav: real, feeA: real, feeB: real, capA: real, capB: real,
                         hours: real, switchBps: real, gas: real, buffer: real): real
  {
    var x, n := Clamp(w, 0.0, 1.0), Max(0.0, nav);
    var shareA := n / (n + Max(EPS, capA));
    var shareB := if x * n > 0.0 then x * n / (x * n + Max(EPS, capB)) else 0.0;
    feeB * shareB * hours - x * feeA * shareA * hours
    - (x * n * switchBps / BPS + (if x > 0.0 then gas else 0.0)) - buffer
  }

  /** The largest weight whose pool share is the cap. */
  function CapWeight(shareCap: real, capB: real, nav: real): real
    requires shareCap < 1.0
  {
    if nav > 0.0 then
      MulPos(nav, 1.0 - shareCap);
      shareCap * capB / (nav * (1.0 - shareCap))
    else 0.0
  }

  // ----- Trailing averages -----

  function WindowStart(idx: nat, window: int): nat {
    var w := if window >= 1 then window else 1;
    if idx - w + 1 >= 0 then idx - w + 1 else 0
  }

  function SumVolume(rows: seq<Row>, lo: nat, hi: nat): real
    requires lo <= hi <= |rows|
    decreases hi - lo
  {
    if lo == hi then 0.0 else SumVolume(rows, lo, hi - 1) + rows[hi - 1].volumeB
  }

  function SumFees(rows: seq<Row>, lo: nat, hi: nat, bookB: bool): real
    requires lo <= hi <= |rows|
    decreases hi - lo
  {
    if lo == hi then 0.0
    else SumFees(rows, lo, hi - 1, bookB) + (if bookB then rows[hi - 1].feesB else rows[hi - 1].feesA)
  }

  function TrailingVolume(rows: seq<Row>, idx: nat, window: int, mult: real): real
    requires idx < |rows|
  {
    var start := WindowStart(idx, window);
    SumVolume(rows, start, idx + 1) / (idx + 1 - start) as real * mult
  }

  /** The average of the window, summed row by row. */
  method ComputeTrailingVolume(rows: seq<Row>, idx: nat, window: int, mult: real) returns (average: real)
    requires idx < |rows|
    ensures average == TrailingVolume(rows, idx, window, mult)
  {
    var start := WindowStart(idx, window);
    var total := 0.0;
    for i := start to idx + 1
      invariant total == SumVolume(rows, start, i)
    {
      total := total + rows[i].volumeB;
    }
    average := total / (idx + 1 - start) as real * mult;
  }

  // ----- The 0.30 risk gate -----

  datatype Reason = ThinVolume | Volatile | Guarded | Depegged | ShareCapped

  /** The order in which the checks are made. */
  function CheckOrder(r: Reason): nat {
    match r
    case ThinVolume => 0
    case Volatile => 1
    case Guarded => 2
    case Depegged => 3
    case ShareCapped => 4
  }

  ghost predicate InCheckOrder(reasons: seq<Reason>) {
    forall i, j :: 0 <= i < j < |reasons| ==> CheckOrder(reasons[i]) < CheckOrder(reasons[j])
  }

  /** Pool share of a sleeve of the weight w. */
  function SleeveShare(p: Params, nav: real, w: real): real {
    ShareOf(Clamp(w, 0.0, 1.0) * Max(0.0, nav), p.capacity30)
  }

  /** The share cap with the tolerance that keeps a sleeve at the cap from counting as above it. */
  function CapLimit(p: Params): real { p.shareCap30 * (1.0 + EPS) }

  predicate OverCap(p: Params, nav: real, w: real)
    requires p.shareCap30 < 1.0
  {
    SleeveShare(p, nav, w) > CapLimit(p) || CapWeight(p.shareCap30, p.capacity30, Max(0.0, nav)) <= 0.0
  }

  predicate Fires(p: Params, rows: seq<Row>, idx: nat, nav: real, w: real, reason: Reason)
    requires idx < |rows| && p.shareCap30 < 1.0
  {
    var r := rows[idx];
    match reason
    case ThinVolume => TrailingVolume(rows, idx, p.volumeWindowHours, p.vol30Mult) < p.minVolumeUsd
    case Volatile => r.volatilityB > p.maxVolatilityBps
    case Guarded => r.max5mB > p.guardThresholdBps || r.guardPullsB > p.maxGuardPulls
    case Depegged => r.depegProxyB > p.depegBps || r.depegPaused
    case ShareCapped => OverCap(p, nav, w)
  }

  predicate GateHigh(p: Params, rows: seq<Row>, idx: nat, nav: real, w: real)
    requires idx < |rows| && p.shareCap30 < 1.0
  {
    exists reason: Reason :: Fires(p, rows, idx, nav, w, reason)
  }

  /** Every threshold of the gate is met, an entry is possible at all, and the sleeve is within its share cap. */
  predicate AllClear(p: Params, rows: seq<Row>, idx: nat, nav: real, w: real)
    requires idx < |rows| && p.shareCap30 < 1.0
  {
    TrailingVolume(rows, idx, p.volumeWindowHours, p.vol30Mult) >= p.minVolumeUsd
    && rows[idx].volatilityB <= p.maxVolatilityBps
    && rows[idx].max5mB <= p.guardThresholdBps && rows[idx].guardPullsB <= p.maxGuardPulls
    && rows[idx].depegProxyB <= p.depegBps && !rows[idx].depegPaused
    && CapWeight(p.shareCap30, p.capacity30, Max(0.0, nav)) > 0.0
    && SleeveShare(p, nav, w) <= CapLimit(p)
  }

  lemma ClearWhenNothingFires(p: Params, rows: seq<Row>, idx: nat, nav: real, w: real)
    requires idx < |rows| && p.shareCap30 < 1.0
    ensures AllClear(p, rows, idx, nav, w) <==> !GateHigh(p, rows, idx, nav, w)
  {
    hide TrailingVolume, CapWeight, SleeveShare, CapLimit;
    if !GateHigh(p, rows, idx, nav, w) {
      assert !Fires(p, rows, idx, nav, w, ThinVolume) && !Fires(p, rows, idx, nav, w, Volatile)
          && !Fires(p, rows, idx, nav, w, Guarded) && !Fires(p, rows, idx, nav, w, Depegged)
          && !Fires(p, rows, idx, nav, w, ShareCapped);
    }
  }

  /** A list of reasons with one more check noted. */
  function Noted(reasons: seq<Reason>, fires: bool, reason: Reason): (r: seq<Reason>)
    requires InCheckOrder(reasons) && forall x :: x in reasons ==> CheckOrder(x) < CheckOrder(reason)
    ensures InCheckOrder(r) && forall x :: x in r <==> x in reasons || (fires && x == reason)
  {
    if fires then reasons + [reason] else reasons
  }

  /**
   * The reasons, one check after the other: exactly the checks that fire, each once and in check order. There
   * is none, and the gate is NORMAL, exactly when every threshold is met.
   */
  method PoolBRisk(p: Params, rows: seq<Row>, idx: nat, nav: real, w: real) returns (reasons: seq<Reason>)
    requires idx < |rows| && p.shareCap30 < 1.0
    ensures InCheckOrder(reasons) && forall r :: r in reasons <==> Fires(p, rows, idx, nav, w, r)
    ensures reasons != [] <==> GateHigh(p, rows, idx, nav, w)
    ensures reasons == [] <==> AllClear(p, rows, idx, nav, w)
  {
    hide TrailingVolume, OverCap, InCheckOrder, AllClear, GateHigh;
    var r := rows[idx];
    var volume := ComputeTrailingVolume(rows, idx, p.volumeWindowHours, p.vol30Mult);
    EmptyIsInOrder();
    reasons := Noted([], volume < p.minVolumeUsd, ThinVolume);
    reasons := Noted(reasons, r.volatilityB > p.maxVolatilityBps, Volatile);
    reasons := Noted(reasons, r.max5mB > p.guardThresholdBps || r.guardPullsB > p.maxGuardPulls, Guarded);
    reasons := Noted(reasons, r.depegProxyB > p.depegBps || r.depegPaused, Depegged);
    reasons := Noted(reasons, OverCap(p, nav, w), ShareCapped);
    AnyReasonCounts(p, rows, idx, nav, w, reasons);
    ClearWhenNothingFires(p, rows, idx, nav, w);
  }

  lemma EmptyIsInOrder()
    ensures InCheckOrder([])
  {
  }

  lemma AnyReasonCounts(p: Params, rows: seq<Row>, idx: nat, nav: real, w: real, reasons: seq<Reason>)
    requires idx < |rows| && p.shareCap30 < 1.0
    requires forall r :: r in reasons <==> Fires(p, rows, idx, nav, w, r)
    ensures reasons != [] <==> GateHigh(p, rows, idx, nav, w)
  {
    hide Fires;
    if reasons != [] {
      assert reasons[0] in reasons;
    }
  }

  lemma {:induction false} SumOfAtLeast(rows: seq<Row>, lo: nat, hi: nat, v: real)
    requires lo <= hi <= |rows| && forall i :: lo <= i < hi ==> rows[i].volumeB >= v
    ensures SumVolume(rows, lo, hi) >= (hi - lo) as real * v
    decreases hi - lo
  {
    if lo < hi {
      SumOfAtLeast(rows, lo, hi - 1, v);
      assert (hi - lo) as real * v == (hi - 1 - lo) as real * v + v;
    }
  }

  /** A thin hour is forgiven by a healthy window, and a window without a thin hour never counts as thin. */
  lemma HealthyWindowIsNotThin(p: Params, rows: seq<Row>, idx: nat, nav: real, w: real, v: real)
    requires idx < |rows| && p.shareCap30 < 1.0 && p.vol30Mult >= 0.0 && v * p.vol30Mult >= p.minVolumeUsd
    requires forall i :: WindowStart(idx, p.volumeWindowHours) <= i <= idx ==> rows[i].volumeB >= v
    ensures !Fires(p, rows, idx, nav, w, ThinVolume)
  {
    var start := WindowStart(idx, p.volumeWindowHours);
    var n, total := (idx + 1 - start) as real, SumVolume(rows, start, idx + 1);
    SumOfAtLeast(rows, start, idx + 1, v);
    DivCompare(v, 1.0, total, n);
    MulLe(v, total / n, p.vol30Mult);
    hide SumVolume;
  }

  // ----- Targets -----

  function RowIndex(rows: seq<Row>, step: nat): nat
    requires |rows| > 0
  {
    if step < |rows| then step else |rows| - 1
  }

  predicate RebalanceHour(p: Params, step: nat) {
    step % (if p.rebalanceHours >= 1 then p.rebalanceHours else 1) == 0
  }

  /** The cap-safe weight the allocator would move to. */
  function WTarget(p: Params, nav: real): real
    requires p.shareCap30 < 1.0
  {
    Min(p.weightCap30, Max(0.0, CapWeight(p.shareCap30, p.capacity30, nav)))
  }

  function MeanFees(p: Params, rows: seq<Row>, idx: nat, bookB: bool): real
    requires idx < |rows|
  {
    var start := WindowStart(idx, p.evalHours);
    SumFees(rows, start, idx + 1, bookB) / (idx + 1 - start) as real
  }

  /** The edge the allocator computes for a candidate weight at a step. */
  function EdgeAt(p: Params, rows: seq<Row>, s: State, w: real): real
    requires |rows| > 0
  {
    var idx := RowIndex(rows, s.step);
    FeeSwitchEdge(w, Max(1.0, s.nav), MeanFees(p, rows, idx, false), Times(MeanFees(p, rows, idx, true), p.vol30Mult),
                  p.capacity05, p.capacity30, p.evalHours as real, p.switchCostBps, p.gasCost, p.feeBufferUsd)
  }

  function GateAt(p: Params, rows: seq<Row>, s: State): bool
    requires |rows| > 0 && p.shareCap30 < 1.0
  {
    GateHigh(p, rows, RowIndex(rows, s.step), Max(1.0, s.nav), s.weights.p30)
  }

  /** The 0.30 weight aimed at on a rebalance: down a step under HIGH, to the target on a positive edge. */
  function Target30(p: Params, rows: seq<Row>, s: State): real
    requires |rows| > 0 && p.shareCap30 < 1.0
  {
    var w, target := s.weights.p30, WTarget(p, Max(1.0, s.nav));
    if GateAt(p, rows, s) then Max(0.0, w - p.moveStep)
    else if EdgeAt(p, rows, s, target) > 0.0 then target
    else if EdgeAt(p, rows, s, w) < 0.0 && w > 0.0 then Max(0.0, w - p.moveStep)
    else w
  }

  function Targets(p: Params, rows: seq<Row>, s: State): Weights
    requires |rows| > 0 && p.shareCap30 < 1.0
  {
    match p.policy
    case Static => Norm(p.staticWeights)
    case All05 => Weights(1.0, 0.0, 0.0)
    case All15 => Weights(0.0, 1.0, 0.0)
    case All30 => Weights(0.0, 0.0, 1.0)
    case FeeCheck =>
      if RebalanceHour(p, s.step) then
        var t30 := Target30(p, rows, s);
        Norm(Weights(Max(0.0, 1.0 - s.weights.p15 - t30), s.weights.p15, t30))
      else s.weights
  }

  // ----- The step -----

  function Moved(a: Weights, b: Weights): real { Abs(a.p05 - b.p05) + Abs(a.p15 - b.p15) + Abs(a.p30 - b.p30) }

  function MoveCost(p: Params, was: Weights, new': Weights, nav: real): real {
    var moved := Moved(new', was) * nav;
    if moved <= EPS then 0.0 else moved * p.switchCostBps / BPS + p.gasCost
  }

  function Revenue(p: Params, row: Row): Weights
    requires p.rate30 != 0.0
  {
    Weights(row.feesA, Times(Times(row.feesB, p.rate15 / p.rate30), p.vol15Mult), Times(row.feesB, p.vol30Mult))
  }

  function Earned(p: Params, row: Row, w: Weights, nav: real): Weights
    requires p.rate30 != 0.0
  {
    var n, rev := Max(0.0, nav), Revenue(p, row);
    Weights(Times(rev.p05, ShareOf(Times(w.p05, n), p.capacity05)),
            Times(rev.p15, ShareOf(Times(w.p15, n), p.capacity15)),
            Times(rev.p30, ShareOf(Times(w.p30, n), p.capacity30)))
  }

  function Plus(a: Weights, b: Weights): Weights { Weights(a.p05 + b.p05, a.p15 + b.p15, a.p30 + b.p30) }

  /** Market, targets and costs, fees, NAV: one hour. */
  function Step(p: Params, rows: seq<Row>, s: State): State
    requires |rows| > 0 && p.shareCap30 < 1.0 && p.rate30 != 0.0
  {
    var w := NextWeights(s.weights, Targets(p, rows, s), p.moveStep);
    var costs := s.cumCosts + MoveCost(p, s.weights, w, s.nav);
    var fees := Plus(s.fees, Earned(p, rows[RowIndex(rows, s.step)], w, s.nav));
    State(s.step + 1, w, fees, costs, p.initialNav + Sum(fees) - costs)
  }

  function Initial(p: Params): State {
    State(0, if p.policy == FeeCheck then Weights(1.0, 0.0, 0.0) else Norm(p.staticWeights),
          Weights(0.0, 0.0, 0.0), 0.0, p.initialNav)
  }

  function Run(p: Params, rows: seq<Row>, n: nat): State
    requires |rows| > 0 && p.shareCap30 < 1.0 && p.rate30 != 0.0
  {
    if n == 0 then Initial(p) else Step(p, rows, Run(p, rows, n - 1))
  }

  // ----- What every fee_check run keeps -----

  ghost predicate Sound(p: Params) {
    p.policy == FeeCheck && p.moveStep >= 0.0 && 0.0 <= p.weightCap30 <= 1.0 && p.shareCap30 < 1.0 && p.rate30 != 0.0
  }

  /** A probability vector without a 0.15 sleeve and with the 0.30 sleeve within its cap. */
  ghost predicate WeightsOk(p: Params, w: Weights) { Simplex(w) && w.p15 == 0.0 && w.p30 <= p.weightCap30 }

  lemma TargetsOk(p: Params, rows: seq<Row>, s: State)
    requires Sound(p) && |rows| > 0 && WeightsOk(p, s.weights)
    ensures WeightsOk(p, Targets(p, rows, s))
    ensures Targets(p, rows, s).p30 == if RebalanceHour(p, s.step) then Target30(p, rows, s) else s.weights.p30
  {
    hide CapWeight, EdgeAt, GateAt, Norm;
    if RebalanceHour(p, s.step) {
      var t30 := Target30(p, rows, s);
      assert 0.0 <= t30 <= p.weightCap30;
      NormIsSimplex(Weights(Max(0.0, 1.0 - s.weights.p15 - t30), s.weights.p15, t30));
    }
  }

  /** Two probability vectors without a 0.15 sleeve: the move is the limited move of the 0.30 weight. */
  lemma MoveIsLimited(was: Weights, targets: Weights, step: real)
    requires Simplex(was) && Simplex(targets) && was.p15 == 0.0 && targets.p15 == 0.0 && step >= 0.0
    ensures var w := NextWeights(was, targets, step);
      Simplex(w) && w.p15 == 0.0 && w.p30 == was.p30 + Limited(targets.p30 - was.p30, step)
  {
    var t30 := was.p30 + Limited(targets.p30 - was.p30, step);
    var raw := Weights(1.0 - t30, 0.0, t30);
    NormIsSimplex(raw);
    hide Norm;
    assert raw == Weights(was.p05 + Limited(targets.p05 - was.p05, step),
                          was.p15 + Limited(targets.p15 - was.p15, step), t30);
  }

  /**
   * One hour of fee_check: the weights stay a capped probability vector, move only at rebalance hours and by
   * at most the step, and the 0.30 weight rises only behind a NORMAL gate and a positive edge at the cap-safe
   * target, which it never passes.
   */
  lemma StepKeepsWeights(p: Params, rows: seq<Row>, s: State)
    requires Sound(p) && |rows| > 0 && WeightsOk(p, s.weights)
    ensures var w := Step(p, rows, s).weights;
      WeightsOk(p, w)
      && (!RebalanceHour(p, s.step) ==> w == s.weights)
      && Abs(w.p30 - s.weights.p30) <= p.moveStep && Abs(w.p05 - s.weights.p05) <= p.moveStep
      && (w.p30 > s.weights.p30 ==>
        RebalanceHour(p, s.step) && !GateAt(p, rows, s) && EdgeAt(p, rows, s, WTarget(p, Max(1.0, s.nav))) > 0.0
        && w.p30 <= WTarget(p, Max(1.0, s.nav)))
      && (RebalanceHour(p, s.step) && GateAt(p, rows, s) ==> w.p30 == Max(0.0, s.weights.p30 - p.moveStep))
  {
    TargetsOk(p, rows, s);
    MoveIsLimited(s.weights, Targets(p, rows, s), p.moveStep);
    hide Targets, NextWeights, EdgeAt, GateAt, CapWeight;
  }

  /** Over every run the weights keep their shape and the NAV is the initial NAV plus fees minus costs. */
  lemma {:induction false} EveryRunKeepsWeights(p: Params, rows: seq<Row>, n: nat)
    requires Sound(p) && |rows| > 0
    ensures var s := Run(p, rows, n);
      WeightsOk(p, s.weights) && s.step == n && s.nav == p.initialNav + Sum(s.fees) - s.cumCosts
  {
    hide Run, Step, Sum, Simplex, EdgeAt, GateAt, WTarget, RebalanceHour;
    if n == 0 {
      FirstRun(p, rows);
    } else {
      EveryRunKeepsWeights(p, rows, n - 1);
      NextRun(p, rows, n - 1);
      StepKeepsLedger(p, rows, Run(p, rows, n - 1));
      StepKeepsWeights(p, rows, Run(p, rows, n - 1));
    }
  }

  lemma FirstRun(p: Params, rows: seq<Row>)
    requires Sound(p) && |rows| > 0
    ensures var s := Run(p, rows, 0);
      WeightsOk(p, s.weights) && s.step == 0 && s.nav == p.initialNav + Sum(s.fees) - s.cumCosts
  {
    hide Norm;
  }

  lemma StepKeepsLedger(p: Params, rows: seq<Row>, s: State)
    requires |rows| > 0 && p.shareCap30 < 1.0 && p.rate30 != 0.0
    ensures var t := Step(p, rows, s); t.step == s.step + 1 && t.nav == p.initialNav + Sum(t.fees) - t.cumCosts
  {
    hide NextWeights, Targets, MoveCost, Earned;
  }

  // ----- De-risking under a persistent HIGH gate -----

  /** Rebalance hours among steps m .. n-1. */
  function Rebalances(p: Params, m: nat, n: nat): nat
    requires m <= n
    decreases n - m
  {
    if m == n then 0 else Rebalances(p, m, n - 1) + (if RebalanceHour(p, n - 1) then 1 else 0)
  }

  /** The gate is HIGH at every rebalance of steps m .. n-1. */
  ghost predicate HighThroughout(p: Params, rows: seq<Row>, m: nat, n: nat)
    requires |rows| > 0 && p.shareCap30 < 1.0 && p.rate30 != 0.0
  {
    forall k :: m <= k < n && RebalanceHour(p, k) ==> GateAt(p, rows, Run(p, rows, k))
  }

  lemma HighHour(p: Params, rows: seq<Row>, n: nat)
    requires Sound(p) && |rows| > 0 && HighThroughout(p, rows, n, n + 1)
    ensures var w := Run(p, rows, n).weights.p30;
      w >= 0.0
      && Run(p, rows, n + 1).weights.p30 == if RebalanceHour(p, n) then Max(0.0, w - p.moveStep) else w
  {
    StartsNonneg(p, rows, n);
    NextRun(p, rows, n);
    assert RebalanceHour(p, n) ==> GateAt(p, rows, Run(p, rows, n));
    EveryRunKeepsWeights(p, rows, n);
    hide Run, Step, GateAt, EdgeAt, WTarget, RebalanceHour, Sum, HighThroughout;
    StepKeepsWeights(p, rows, Run(p, rows, n));
  }

  lemma NextRun(p: Params, rows: seq<Row>, n: nat)
    requires Sound(p) && |rows| > 0
    ensures Run(p, rows, n + 1) == Step(p, rows, Run(p, rows, n))
  {
    hide Step;
  }

  /**
   * While the gate is HIGH at every rebalance, the 0.30 weight falls by exactly one step a rebalance down to
   * zero, and stays there.
   */
  lemma {:induction false} HighGateDeRisks(p: Params, rows: seq<Row>, m: nat, n: nat)
    requires Sound(p) && |rows| > 0 && m <= n && HighThroughout(p, rows, m, n)
    ensures Run(p, rows, n).weights.p30
         == Max(0.0, Run(p, rows, m).weights.p30 - Times(Rebalances(p, m, n) as real, p.moveStep))
    decreases n
  {
    hide Run, Times, RebalanceHour, HighThroughout, Simplex;
    EveryRunKeepsWeights(p, rows, m);
    StartsNonneg(p, rows, m);
    NoStepsNoFall(p.moveStep);
    if m < n {
      HighSoFar(p, rows, m, n);
      HighGateDeRisks(p, rows, m, n - 1);
      HighHour(p, rows, n - 1);
      OneMoreStep(Rebalances(p, m, n - 1), p.moveStep);
    }
  }

  lemma StartsNonneg(p: Params, rows: seq<Row>, m: nat)
    requires Sound(p) && |rows| > 0
    ensures Run(p, rows, m).weights.p30 >= 0.0
  {
    EveryRunKeepsWeights(p, rows, m);
    hide Run;
  }

  lemma HighSoFar(p: Params, rows: seq<Row>, m: nat, n: nat)
    requires |rows| > 0 && p.shareCap30 < 1.0 && p.rate30 != 0.0 && m < n && HighThroughout(p, rows, m, n)
    ensures HighThroughout(p, rows, m, n - 1) && HighThroughout(p, rows, n - 1, n)
  {
    hide GateAt, Run, RebalanceHour;
  }

  lemma NoStepsNoFall(step: real)
    ensures Times(0 as real, step) == 0.0
  {
  }

  lemma OneMoreStep(n: nat, step: real)
    requires step >= 0.0
    ensures Times((n + 1) as real, step) == Times(n as real, step) + step && Times(n as real, step) >= 0.0
  {
    MulNonneg(n as real, step);
  }

  /** So ceil(p30 / step) rebalances under HIGH empty the sleeve, however many hours follow. */
  lemma HighGateEmptiesTheSleeve(p: Params, rows: seq<Row>, m: nat, n: nat)
    requires Sound(p) && |rows| > 0 && m <= n && p.moveStep > 0.0 && HighThroughout(p, rows, m, n)
    ensures Rebalances(p, m, n) as real >= Run(p, rows, m).weights.p30 / p.moveStep
      <==> Run(p, rows, n).weights.p30 == 0.0
  {
    hide Run, HighThroughout, Rebalances;
    HighGateDeRisks(p, rows, m, n);
    StepsToEmpty(Run(p, rows, m).weights.p30, p.moveStep, Rebalances(p, m, n) as real);
    hide Times;
  }

  lemma StepsToEmpty(w: real, step: real, n: real)
    requires step > 0.0
    ensures n >= w / step <==> w - Times(n, step) <= 0.0
  {
    DivCompare(w, step, n, 1.0);
  }

  // ----- The cap and the edge -----

  /** The cap-safe target respects the share cap at the NAV it is computed for. */
  lemma TargetRespectsShareCap(p: Params, nav: real)
    requires nav > 0.0 && 0.0 <= p.shareCap30 < 1.0 && p.capacity30 > 0.0 && p.weightCap30 >= 0.0
    ensures 0.0 <= WTarget(p, nav)
    ensures ShareOf(WTarget(p, nav) * nav, p.capacity30) <= p.shareCap30
  {
    var d, top := nav * (1.0 - p.shareCap30), p.shareCap30 * p.capacity30;
    ProductPos(nav, 1.0 - p.shareCap30, d);
    ProductNonneg(p.shareCap30, p.capacity30, top);
    DivNonneg(top, d);
    CapAtTarget(WTarget(p, nav), nav, p.shareCap30, p.capacity30, top / d, d);
  }

  lemma ShareOfOrders(x: real, y: real, capacity: real)
    requires 0.0 <= x <= y && capacity > 0.0
    ensures ShareOf(x, capacity) <= ShareOf(y, capacity)
  {
    DivCompare(x, x + capacity, y, y + capacity);
    MulLe(x, y, capacity);
    assert x * (y + capacity) == x * y + x * capacity && y * (x + capacity) == x * y + y * capacity;
  }

  /**
   * The allocator's own move never trips its own gate: at a NAV and row where the gate is NORMAL for some
   * weight, it is NORMAL for every weight up to the larger of that weight and the cap-safe target.
   */
  lemma MovingToTheTargetStaysNormal(p: Params, rows: seq<Row>, idx: nat, nav: real, w: real, x: real)
    requires idx < |rows| && nav > 0.0 && 0.0 <= p.shareCap30 < 1.0 && p.capacity30 > 0.0 && 0.0 <= p.weightCap30 <= 1.0
    requires !GateHigh(p, rows, idx, nav, w) && x <= Max(w, WTarget(p, nav))
    ensures !GateHigh(p, rows, idx, nav, x)
  {
    hide GateHigh, TrailingVolume, CapWeight, SleeveShare, CapLimit, WTarget, ShareOf;
    ClearWhenNothingFires(p, rows, idx, nav, w);
    ClearWhenNothingFires(p, rows, idx, nav, x);
    TargetWithinLimit(p, nav);
    if x <= w {
      SleeveOrders(p, nav, x, w);
    } else {
      SleeveOrders(p, nav, x, WTarget(p, nav));
    }
  }

  lemma TargetWithinLimit(p: Params, nav: real)
    requires nav > 0.0 && 0.0 <= p.shareCap30 < 1.0 && p.capacity30 > 0.0 && 0.0 <= p.weightCap30 <= 1.0
    ensures SleeveShare(p, nav, WTarget(p, nav)) <= CapLimit(p)
  {
    assert WTarget(p, nav) <= 1.0 by { hide CapWeight; }
    hide ShareOf, WTarget;
    TargetRespectsShareCap(p, nav);
    SleeveWithin(p, nav, WTarget(p, nav));
  }

  lemma SleeveWithin(p: Params, nav: real, w: real)
    requires nav > 0.0 && 0.0 <= w <= 1.0 && p.shareCap30 >= 0.0 && ShareOf(w * nav, p.capacity30) <= p.shareCap30
    ensures SleeveShare(p, nav, w) <= CapLimit(p)
  {
    hide ShareOf, SleeveShare, CapLimit;
    CapSlack(p);
    SleeveIs(p, nav, w);
  }

  lemma SleeveIs(p: Params, nav: real, w: real)
    requires nav > 0.0 && 0.0 <= w <= 1.0
    ensures SleeveShare(p, nav, w) == ShareOf(w * nav, p.capacity30)
  {
    var u, n := Clamp(w, 0.0, 1.0), Max(0.0, nav);
    assert u == w;
    assert n == nav;
    hide ShareOf, Clamp, Max;
    assert u * n == w * nav;
    assert SleeveShare(p, nav, w) == ShareOf(u * n, p.capacity30);
  }

  lemma CapSlack(p: Params)
    requires p.shareCap30 >= 0.0
    ensures p.shareCap30 <= CapLimit(p)
  {
    MulNonneg(p.shareCap30, EPS);
  }

  lemma SleeveOrders(p: Params, nav: real, x: real, y: real)
    requires x <= y && nav > 0.0 && p.capacity30 > 0.0
    ensures SleeveShare(p, nav, x) <= SleeveShare(p, nav, y)
  {
    var u, v := Clamp(x, 0.0, 1.0), Clamp(y, 0.0, 1.0);
    assert 0.0 <= u <= v && Max(0.0, nav) == nav;
    hide ShareOf, Clamp;
    MulNonneg(u, nav);
    MulLe(u, v, nav);
    ShareOfOrders(u * nav, v * nav, p.capacity30);
  }

  lemma CapAtTarget(w: real, nav: real, cap: real, capacity: real, limit: real, d: real)
    requires nav > 0.0 && 0.0 <= cap < 1.0 && capacity > 0.0 && 0.0 <= w <= limit && d == nav * (1.0 - cap) && d > 0.0
    requires limit * d == cap * capacity
    ensures ShareOf(w * nav, capacity) <= cap
  {
    var x := w * nav;
    ProductNonneg(w, nav, x);
    MulLe(w, limit, d);
    assert w * d == x - cap * x;
    DivCompare(x, x + capacity, cap, 1.0);
  }

  /** The share of the 0.30 pool as a function of the capital, on capital above zero. */
  function Share(x: real, capacity: real): real
    requires x >= 0.0 && capacity > 0.0
  {
    x / (x + capacity)
  }

  /** The share is concave: a mixed capital earns at least the mix of the shares. */
  lemma ShareIsConcave(x: real, y: real, t: real, capacity: real)
    requires x >= 0.0 && y >= 0.0 && 0.0 <= t <= 1.0 && capacity > 0.0
    ensures Mix(t, x, y) >= 0.0
    ensures Mix(t, Share(x, capacity), Share(y, capacity)) <= Share(Mix(t, x, y), capacity)
  {
    MulNonneg(x, t); MulNonneg(y, 1.0 - t);
    var z := Mix(t, x, y);
    hide Mix;
    ConcaveCore(x, y, t, capacity, z, Share(x, capacity), Share(y, capacity), Share(z, capacity));
  }

  /** The weighted mean of two values. */
  function Mix(t: real, x: real, y: real): real { x * t + y * (1.0 - t) }

  lemma MixLe(t: real, x: real, y: real, x': real, y': real)
    requires 0.0 <= t <= 1.0 && x <= x' && y <= y'
    ensures Mix(t, x, y) <= Mix(t, x', y')
  {
    MulNonneg(x' - x, t);
    MulNonneg(y' - y, 1.0 - t);
    assert Mix(t, x', y') - Mix(t, x, y) == (x' - x) * t + (y' - y) * (1.0 - t);
  }

  lemma MixAffine(t: real, x: real, y: real, f: real, k: real)
    ensures Mix(t, f + k * x, f + k * y) == f + k * Mix(t, x, y)
  {
    assert (f + k * x) * t + (f + k * y) * (1.0 - t) == f + k * (x * t + y * (1.0 - t));
  }

  lemma MixScale(t: real, x: real, y: real, k: real)
    ensures Mix(t, k * x, k * y) == k * Mix(t, x, y)
  {
    assert (k * x) * t + (k * y) * (1.0 - t) == k * (x * t + y * (1.0 - t));
  }

  /** The share of a mixed weight is no less than the mix of the shares. */
  lemma WeightShareIsConcave(u: real, v: real, t: real, nav: real, c: real)
    requires u > 0.0 && v > 0.0 && 0.0 <= t <= 1.0 && nav > 0.0 && c > 0.0 && Mix(t, u, v) > 0.0
    ensures nav * u > 0.0 && nav * v > 0.0 && nav * Mix(t, u, v) > 0.0
    ensures Mix(t, Share(nav * u, c), Share(nav * v, c)) <= Share(nav * Mix(t, u, v), c)
  {
    MulPos(nav, u); MulPos(nav, v); MulPos(nav, Mix(t, u, v));
    MixScale(t, u, v, nav);
    hide Mix, Share;
    ShareIsConcave(nav * u, nav * v, t, c);
  }

  /** The share lies below each of its tangents, one at the mixed capital being enough. */
  lemma ConcaveCore(x: real, y: real, t: real, c: real, z: real, fx: real, fy: real, fz: real)
    requires x >= 0.0 && y >= 0.0 && z >= 0.0 && 0.0 <= t <= 1.0 && c > 0.0 && z == Mix(t, x, y)
    requires fx * (x + c) == x && fy * (y + c) == y && fz * (z + c) == z
    ensures Mix(t, fx, fy) <= fz
  {
    hide Mix;
    var i := 1.0 / (z + c);
    Inverse(z + c);
    var slope := (1.0 - fz) * i;
    BelowTangent(x, c, z, fx, fz, i, slope);
    BelowTangent(y, c, z, fy, fz, i, slope);
    MixLe(t, fx, fy, fz - slope * z + slope * x, fz - slope * z + slope * y);
    MixAffine(t, x, y, fz - slope * z, slope);
  }

  lemma BelowTangent(x: real, c: real, z: real, fx: real, fz: real, i: real, slope: real)
    requires x >= 0.0 && c > 0.0 && z >= 0.0 && i > 0.0 && i * (z + c) == 1.0
    requires fx * (x + c) == x && fz * (z + c) == z && slope == (1.0 - fz) * i
    ensures fx <= fz + slope * (x - z)
  {
    // both sides times (x + c): the difference is slope * (x - z)^2
    var d := x - z;
    var square := slope * (d * d);
    assert (1.0 - fz) * (z + c) == c;
    Inverse(z + c);
    PositiveSlope(c, z, fz, i, slope);
    SquareTimes(slope, d, square);
    TangentGap(x, c, z, fx, fz, i, slope, square);
    OrderByScale(fx, fz + slope * (x - z), x + c);
  }

  lemma PositiveSlope(c: real, z: real, fz: real, i: real, slope: real)
    requires c > 0.0 && i > 0.0 && i * (z + c) == 1.0 && (1.0 - fz) * (z + c) == c && slope == (1.0 - fz) * i
    ensures slope > 0.0 && 1.0 - fz == c * i && slope * (z + c) == c * i
  {
    assert (1.0 - fz) * (z + c) * i == c * i;
    assert (1.0 - fz) * (i * (z + c)) == 1.0 - fz;
    ProductPos(c, i, c * i);
    ProductPos(1.0 - fz, i, slope);
  }

  lemma TangentGap(x: real, c: real, z: real, fx: real, fz: real, i: real, slope: real, square: real)
    requires fx * (x + c) == x && fz * (z + c) == z && slope * (z + c) == 1.0 - fz
    requires square == slope * ((x - z) * (x - z))
    ensures (fz + slope * (x - z)) * (x + c) - fx * (x + c) == square
  {
    var d := x - z;
    assert (fz + slope * d) * (x + c) == fz * (z + c) + fz * d + slope * d * (z + c) + slope * d * d;
    assert slope * d * (z + c) == (1.0 - fz) * d;
  }

  lemma OrderByScale(a: real, b: real, k: real)
    requires k > 0.0 && a * k <= b * k
    ensures a <= b
  {
    DivLe(a * k, b * k, k);
    MulDiv(a, k); MulDiv(b, k);
  }

  /** What a unit of weight costs: the 0.05 fees given up and the switch. */
  function EdgeSlope(nav: real, feeA: real, capA: real, hours: real, switchBps: real): real
    requires nav > 0.0
  {
    feeA * (nav / (nav + Max(EPS, capA))) * hours + nav * switchBps / BPS
  }

  /** Fees earned at a pool share, less a line in the weight. */
  function EdgeLine(fees: real, share: real, slope: real, w: real, fixed: real): real {
    fees * share - slope * w - fixed
  }

  /** On (0, 1] the edge is the 0.30 fees, less a line. */
  lemma EdgeForm(w: real, nav: real, feeA: real, feeB: real, capA: real, capB: real, hours: real,
                 switchBps: real, gas: real, buffer: real)
    requires 0.0 < w <= 1.0 && nav > 0.0
    ensures nav * w > 0.0
    ensures FeeSwitchEdge(w, nav, feeA, feeB, capA, capB, hours, switchBps, gas, buffer)
         == EdgeLine(feeB * hours, Share(nav * w, Max(EPS, capB)), EdgeSlope(nav, feeA, capA, hours, switchBps),
                     w, gas + buffer)
  {
    MulPos(nav, w);
    EdgeTerms(w, nav, feeA, feeB, nav / (nav + Max(EPS, capA)), Share(nav * w, Max(EPS, capB)), hours, switchBps);
  }

  lemma EdgeTerms(w: real, nav: real, feeA: real, feeB: real, shareA: real, shareB: real, hours: real, switchBps: real)
    ensures feeB * shareB * hours == feeB * hours * shareB
    ensures w * feeA * shareA * hours + w * nav * switchBps / BPS == (feeA * shareA * hours + nav * switchBps / BPS) * w
  {
  }

  lemma MixBounds(u: real, v: real, t: real)
    requires 0.0 < u <= 1.0 && 0.0 < v <= 1.0 && 0.0 <= t <= 1.0
    ensures 0.0 < Mix(t, u, v) <= 1.0
  {
    var lo := if u <= v then u else v;
    MixLe(t, lo, lo, u, v);
    MixLe(t, u, v, 1.0, 1.0);
    MixAffine(t, 0.0, 0.0, lo, 0.0);
    MixAffine(t, 0.0, 0.0, 1.0, 0.0);
    hide Mix;
  }

  /**
   * The move edge is concave in the weight on (0, 1]: between two weights it is never worth less than their
   * mix, so an edge that is positive at both ends of an interval is positive throughout it.
   */
  lemma EdgeIsConcave(u: real, v: real, t: real, nav: real, feeA: real, feeB: real, capA: real, capB: real,
                      hours: real, switchBps: real, gas: real, buffer: real)
    requires 0.0 < u <= 1.0 && 0.0 < v <= 1.0 && 0.0 <= t <= 1.0 && nav > 0.0 && feeB >= 0.0 && hours >= 0.0
    ensures 0.0 < Mix(t, u, v) <= 1.0
    ensures Mix(t, FeeSwitchEdge(u, nav, feeA, feeB, capA, capB, hours, switchBps, gas, buffer),
                   FeeSwitchEdge(v, nav, feeA, feeB, capA, capB, hours, switchBps, gas, buffer))
         <= FeeSwitchEdge(Mix(t, u, v), nav, feeA, feeB, capA, capB, hours, switchBps, gas, buffer)
  {
    var w, c := Mix(t, u, v), Max(EPS, capB);
    assert c > 0.0;
    hide Mix, FeeSwitchEdge, Share, EdgeSlope, EdgeLine, Max;
    MixBounds(u, v, t);
    EdgeForm(u, nav, feeA, feeB, capA, capB, hours, switchBps, gas, buffer);
    EdgeForm(v, nav, feeA, feeB, capA, capB, hours, switchBps, gas, buffer);
    EdgeForm(w, nav, feeA, feeB, capA, capB, hours, switchBps, gas, buffer);
    WeightShareIsConcave(u, v, t, nav, c);
    MulNonneg(feeB, hours);
    var su, sv, sw := Share(nav * u, c), Share(nav * v, c), Share(nav * w, c);
    var fees, slope := feeB * hours, EdgeSlope(nav, feeA, capA, hours, switchBps);
    MixedEdge(t, u, v, fees, su, sv, sw, slope, gas + buffer);
  }

  lemma MixedEdge(t: real, u: real, v: real, fees: real, su: real, sv: real, sw: real, slope: real, fixed: real)
    requires fees >= 0.0 && Mix(t, su, sv) <= sw
    ensures Mix(t, EdgeLine(fees, su, slope, u, fixed), EdgeLine(fees, sv, slope, v, fixed))
         <= EdgeLine(fees, sw, slope, Mix(t, u, v), fixed)
  {
    MulLe(Mix(t, su, sv), sw, fees);
    MixOfEdges(t, u, v, fees, su, sv, slope, fixed);
    hide Mix;
  }

  lemma MixOfEdges(t: real, u: real, v: real, fees: real, su: real, sv: real, slope: real, fixed: real)
    ensures Mix(t, EdgeLine(fees, su, slope, u, fixed), EdgeLine(fees, sv, slope, v, fixed))
         == EdgeLine(fees, Mix(t, su, sv), slope, Mix(t, u, v), fixed)
  {
  }
}
