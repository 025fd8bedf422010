/** Inventory-aware centre of the base range: the offset that deploys the most of what is idle. */
module BaseSkew {
  import opened RealMath
  import opened Lp
  import opened State

  /** lo, lo + step, ... up to hi. */
  function Grid(lo: int, hi: int, step: nat): (s: seq<int>)
    requires step > 0
    ensures forall o :: o in s ==> lo <= o <= hi
    decreases hi - lo + 1
  {
    if lo > hi then [] else [lo] + Grid(lo + step, hi, step)
  }

  /** An ascending list with zero put in its place once. */
  function WithZero(s: seq<int>): (r: seq<int>)
    ensures forall o :: o in r <==> o in s || o == 0
  {
    if |s| == 0 then [0]
    else if s[0] == 0 then s
    else if s[0] > 0 then [0] + s
    else [s[0]] + WithZero(s[1..])
  }

  function Offsets(maxSkew: int): (r: seq<int>)
    requires maxSkew > 0
    ensures 0 in r && forall o :: o in r ==> -maxSkew <= o <= maxSkew
  {
    var step := if maxSkew / 40 >= 1 then maxSkew / 40 else 1;
    WithZero(Grid(-maxSkew, maxSkew, step))
  }

  /** Dollars that can be deployed with the base range moved by `off`: the scale both legs allow. */
  function Deployable(p: Params, xa: real, ya: real, tb: real, tg: real, env: Env, off: int): real {
    var wb, wg := p.baseWidthTicks, p.guardWidthTicks;
    var t, s := env.tick, env.sqrtP;
    var xr := TokenUsdg(tb, s, t + off - wb, t + off + wb) + TokenUsdg(tg, s, t - wg, t + wg);
    var yr := TokenNvda(tb, s, t + off - wb, t + off + wb) + TokenNvda(tg, s, t - wg, t + wg);
    var byX := if xr > 0.0 then Min(1.0, xa / xr) else 1.0;
    var scale := if yr > 0.0 then Min(byX, ya / yr) else byX;
    scale * (xr + yr * env.price)
  }

  datatype Best = Best(off: int, dep: real)

  /** Clearly more deployed wins; a tie within the tolerance goes to the more symmetric range. */
  predicate Better(tolerance: real, best: Best, off: int, dep: real) {
    dep > best.dep + tolerance || (Abs(dep - best.dep) <= tolerance && AbsInt(off) < AbsInt(best.off))
  }

  function BestOf(offsets: seq<int>, value: int -> real, tolerance: real): Best {
    if |offsets| == 0 then Best(0, -1.0)
    else
      var n := |offsets| - 1;
      var best := BestOf(offsets[..n], value, tolerance);
      if Better(tolerance, best, offsets[n], value(offsets[n])) then Best(offsets[n], value(offsets[n])) else best
  }

  function ChooseBaseSkew(p: Params, idleUsdg: real, idleNvda: real, b: Book, env: Env): int {
    if p.skewMaxTicks <= 0 || (b.targetBaseL <= 0.0 && b.targetGuardL <= 0.0) then 0
    else
      BestOf(Offsets(p.skewMaxTicks),
        off => Deployable(p, idleUsdg, idleNvda, b.targetBaseL, b.targetGuardL, env, off), p.skewTolerance).off
  }

  /** How far ties can drift over n comparisons. */
  function Drift(n: nat, tolerance: real): real { n as real * tolerance }

  method PickSkew(p: Params, idleUsdg: real, idleNvda: real, b: Book, env: Env) returns (bestOff: int)
    ensures bestOff == ChooseBaseSkew(p, idleUsdg, idleNvda, b, env)
  {
    if p.skewMaxTicks <= 0 || (b.targetBaseL <= 0.0 && b.targetGuardL <= 0.0) {
      return 0;
    }
    var offsets := Offsets(p.skewMaxTicks);
    var value := off => Deployable(p, idleUsdg, idleNvda, b.targetBaseL, b.targetGuardL, env, off);
    hide Deployable, Offsets;
    var bestDep := -1.0;
    bestOff := 0;
    for i := 0 to |offsets|
      invariant Best(bestOff, bestDep) == BestOf(offsets[..i], value, p.skewTolerance)
    {
      var dep := value(offsets[i]);
      assert offsets[..i + 1][..i] == offsets[..i];
      if dep > bestDep + p.skewTolerance
        || (Abs(dep - bestDep) <= p.skewTolerance && AbsInt(offsets[i]) < AbsInt(bestOff)) {
        bestDep := dep;
        bestOff := offsets[i];
      }
    }
    assert offsets[..|offsets|] == offsets;
  }

  /**
   * The scan keeps a best that no offset beats by more than one tolerance per offset scanned: ties may
   * drift, but never further. With exact comparison (tolerance 0) it is a maximum.
   */
  lemma {:induction false} BestIsNearMaximal(offsets: seq<int>, value: int -> real, tolerance: real)
    requires tolerance >= 0.0
    ensures var best := BestOf(offsets, value, tolerance);
      (best == Best(0, -1.0) || (best.off in offsets && best.dep == value(best.off)))
      && forall o :: o in offsets ==> value(o) <= best.dep + Drift(|offsets|, tolerance)
  {
    if |offsets| > 0 {
      var n := |offsets| - 1;
      var best, before := BestOf(offsets, value, tolerance), BestOf(offsets[..n], value, tolerance);
      var last := value(offsets[n]);
      BestIsNearMaximal(offsets[..n], value, tolerance);
      assert best.dep >= before.dep - tolerance && last <= best.dep + tolerance;
      DriftGrows(n, tolerance);
      hide BestOf, Drift;
      assert offsets == offsets[..n] + [offsets[n]];
    }
  }

  lemma DriftGrows(n: nat, tolerance: real)
    requires tolerance >= 0.0
    ensures Drift(n + 1, tolerance) == Drift(n, tolerance) + tolerance >= tolerance
  {
    MulNonneg(n as real, tolerance);
  }

  lemma DeployableNonneg(p: Params, xa: real, ya: real, tb: real, tg: real, env: Env, off: int)
    requires xa >= 0.0 && ya >= 0.0 && env.price >= 0.0
    ensures Deployable(p, xa, ya, tb, tg, env, off) >= 0.0
  {
    var wb, wg, t, s := p.baseWidthTicks, p.guardWidthTicks, env.tick, env.sqrtP;
    TokensNonneg(tb, s, t + off - wb, t + off + wb);
    TokensNonneg(tg, s, t - wg, t + wg);
    hide TokenUsdg, TokenNvda;
    var xr := TokenUsdg(tb, s, t + off - wb, t + off + wb) + TokenUsdg(tg, s, t - wg, t + wg);
    var yr := TokenNvda(tb, s, t + off - wb, t + off + wb) + TokenNvda(tg, s, t - wg, t + wg);
    if xr > 0.0 { DivNonneg(xa, xr); }
    if yr > 0.0 { DivNonneg(ya, yr); }
    var byX := if xr > 0.0 then Min(1.0, xa / xr) else 1.0;
    var scale := if yr > 0.0 then Min(byX, ya / yr) else byX;
    MulNonneg(yr, env.price);
    MulNonneg(scale, xr + yr * env.price);
  }

  /** The skew stays within its limit, and no scanned offset deploys more than the drift of the ties. */
  lemma SkewIsBest(p: Params, idleUsdg: real, idleNvda: real, b: Book, env: Env)
    requires p.skewMaxTicks > 0 && (b.targetBaseL > 0.0 || b.targetGuardL > 0.0) && p.skewTolerance >= 0.0
    requires idleUsdg >= 0.0 && idleNvda >= 0.0 && env.price >= 0.0
    ensures var best, scanned := ChooseBaseSkew(p, idleUsdg, idleNvda, b, env), Offsets(p.skewMaxTicks);
      -p.skewMaxTicks <= best <= p.skewMaxTicks
      && forall off :: off in scanned ==>
        Deployable(p, idleUsdg, idleNvda, b.targetBaseL, b.targetGuardL, env, off)
        <= Deployable(p, idleUsdg, idleNvda, b.targetBaseL, b.targetGuardL, env, best)
           + Drift(|scanned|, p.skewTolerance)
  {
    hide Deployable, Drift, Offsets;
    var value := off => Deployable(p, idleUsdg, idleNvda, b.targetBaseL, b.targetGuardL, env, off);
    BestIsNearMaximal(Offsets(p.skewMaxTicks), value, p.skewTolerance);
    DeployableNonneg(p, idleUsdg, idleNvda, b.targetBaseL, b.targetGuardL, env, 0);
    var best := BestOf(Offsets(p.skewMaxTicks), value, p.skewTolerance);
    assert value(best.off) >= best.dep;
    forall off | off in Offsets(p.skewMaxTicks)
      ensures Deployable(p, idleUsdg, idleNvda, b.targetBaseL, b.targetGuardL, env, off)
           <= value(best.off) + Drift(|Offsets(p.skewMaxTicks)|, p.skewTolerance)
    {
      assert value(off) == Deployable(p, idleUsdg, idleNvda, b.targetBaseL, b.targetGuardL, env, off);
    }
  }

  function GridPoint(lo: int, step: nat, k: nat): int { lo + k * step }

  ghost predicate OnGrid(lo: int, step: nat, o: int) { exists k: nat :: o == GridPoint(lo, step, k) }

  /** A regular grid: the lower end and every further step that is not beyond the upper end. */
  lemma {:induction false} GridIs(lo: int, hi: int, step: nat, o: int)
    requires step > 0
    ensures o in Grid(lo, hi, step) <==> o <= hi && OnGrid(lo, step, o)
    decreases hi - lo + 1
  {
    if lo <= hi {
      GridIs(lo + step, hi, step, o);
      assert GridPoint(lo, step, 0) == lo;
      if o in Grid(lo + step, hi, step) {
        var k: nat :| o == GridPoint(lo + step, step, k);
        assert o == GridPoint(lo, step, k + 1);
      }
      if k: nat :| o == GridPoint(lo, step, k) && k > 0 {
        assert o == GridPoint(lo + step, step, k - 1);
      }
    } else if k: nat :| o == GridPoint(lo, step, k) {
      GridGoesUp(lo, step, k);
    }
  }

  lemma GridGoesUp(lo: int, step: nat, k: nat)
    ensures GridPoint(lo, step, k) >= lo
  {
  }

  /** The scan looks at no skew, and from the lower limit up in steps of a fortieth of it, or of one tick. */
  lemma OffsetsAre(maxSkew: int, o: int)
    requires maxSkew > 0
    ensures var step := if maxSkew < 40 then 1 else maxSkew / 40;
      step > 0
      && (o in Offsets(maxSkew) <==> o == 0 || (o <= maxSkew && OnGrid(-maxSkew, step, o)))
  {
    var step := if maxSkew < 40 then 1 else maxSkew / 40;
    GridIs(-maxSkew, maxSkew, step, o);
    hide Grid;
  }

  /** With exact comparison, of the offsets that deploy the most the scan takes one nearest to the symmetric range. */
  lemma {:induction false} ExactTiesGoToTheMiddle(offsets: seq<int>, value: int -> real)
    requires forall o :: o in offsets ==> value(o) > -1.0
    ensures var best := BestOf(offsets, value, 0.0);
      forall o :: o in offsets ==> value(o) < best.dep || (value(o) == best.dep && AbsInt(best.off) <= AbsInt(o))
  {
    if |offsets| > 0 {
      var n := |offsets| - 1;
      var before := offsets[..n];
      forall o | o in before ensures value(o) > -1.0 { assert o in offsets; }
      assert offsets[n] in offsets;
      ExactTiesGoToTheMiddle(before, value);
      var was, best := BestOf(before, value, 0.0), BestOf(offsets, value, 0.0);
      hide BestOf;
      forall o | o in offsets
        ensures value(o) < best.dep || (value(o) == best.dep && AbsInt(best.off) <= AbsInt(o))
      {
        assert o in before || o == offsets[n] by { assert offsets == before + [offsets[n]]; }
      }
    }
  }
}
