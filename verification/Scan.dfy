/** The risk flag that the hourly scan gives a book, and the door it closes by itself. */
module Scan {
  import opened RealMath
  import opened Lp
  import opened State
  import opened Invariant
  import opened Income
  import opened Planner
  import opened Decision
  import opened Executor
  import opened Simulation
  import opened OneWayDoor
  import Retreat
  import Policies

  /** What the scan measures of a pool, and the thresholds it is held against; the last two pairs bind book B only. */
  datatype Reading = Reading(feeAprBps: real, volumeUsd: real, volatilityBps: real, depegPaused: bool,
                             poolLiquidityUsd: real, maxVolatilityBps: real, minVolumeUsd: real, minFeeAprBps: real,
                             minPoolLiquidityUsd: real,
                             windowVolumeUsd: real, minWindowVolumeUsd: real, share: real, maxShare: real)

  /** The guard the scan counts on: the book's own, or for an empty book the one a funding would bring. */
  predicate GuardForRisk(p: Params, pf: Pf, i: Slot)
    requires |pf.books| == 2
  {
    if HasPositions(pf.books[i]) then pf.books[i].guardPresent else i == pf.active ==> p.fixEmptyBookGuard
  }

  /** Under an opportunity window book B is also held to a volume over that window and to a pool share. */
  predicate BookBBarred(p: Params, i: Slot, r: Reading) {
    i == 1 && p.opportunityWindowHours > 0
    && ((r.minWindowVolumeUsd > 0.0 && r.windowVolumeUsd < r.minWindowVolumeUsd) || r.share > r.maxShare)
  }

  function ScannedRisk(p: Params, pf: Pf, i: Slot, r: Reading): Risk
    requires |pf.books| == 2
  {
    if BookBBarred(p, i, r) || r.poolLiquidityUsd < r.minPoolLiquidityUsd then High
    else AssessBookRisk(r.feeAprBps, r.volumeUsd, r.volatilityBps, GuardForRisk(p, pf, i),
                        i == pf.active && r.depegPaused, r.maxVolatilityBps, r.minVolumeUsd, r.minFeeAprBps)
  }

  /** An active book without a guard in place is HIGH whatever the market reads; so is an empty one without the fix. */
  lemma NoGuardIsHigh(p: Params, pf: Pf, r: Reading)
    requires |pf.books| == 2
    requires if HasPositions(ActiveBook(pf)) then !ActiveBook(pf).guardPresent else !p.fixEmptyBookGuard
    ensures ScannedRisk(p, pf, pf.active, r) == High
  {
    hide HasPositions;
  }

  /**
   * The active book is NORMAL exactly when its pool is deep enough, it is not depegged, its guard counts, and
   * volatility, volume and fee rate are within their thresholds; the inactive one needs no depeg flag and no
   * guard of its own. Book B under an opportunity window also needs its window volume and a small enough share.
   */
  lemma NormalWhenAllClear(p: Params, pf: Pf, i: Slot, r: Reading)
    requires |pf.books| == 2
    ensures ScannedRisk(p, pf, i, r) == Normal <==>
      r.poolLiquidityUsd >= r.minPoolLiquidityUsd && (i == pf.active ==> !r.depegPaused)
      && (HasPositions(pf.books[i]) ==> pf.books[i].guardPresent)
      && (!HasPositions(pf.books[i]) && i == pf.active ==> p.fixEmptyBookGuard)
      && r.volatilityBps < r.maxVolatilityBps && r.volumeUsd >= r.minVolumeUsd
      && (r.minFeeAprBps > 0.0 ==> r.feeAprBps >= r.minFeeAprBps)
      && (i == 1 && p.opportunityWindowHours > 0 ==>
        r.share <= r.maxShare && (r.minWindowVolumeUsd > 0.0 ==> r.windowVolumeUsd >= r.minWindowVolumeUsd))
  {
    hide HasPositions;
  }

  // ----- The second door -----

  /** The hour's flag of the active book is what a scan of the portfolio reads, whatever it measured. */
  ghost predicate Scanned(p: Params, pf: Pf, h: Hour)
    requires |pf.books| == 2
  {
    exists r: Reading :: h.MarkOf(pf.active).risk == ScannedRisk(p, pf, pf.active, r)
  }

  lemma EmptyBookReadsHigh(p: Params, pf: Pf, h: Hour)
    requires |pf.books| == 2 && Scanned(p, pf, h) && !HasPositions(ActiveBook(pf)) && !p.fixEmptyBookGuard
    ensures h.MarkOf(pf.active).risk == High
  {
    hide HasPositions, ScannedRisk;
    var r: Reading :| h.MarkOf(pf.active).risk == ScannedRisk(p, pf, pf.active, r);
    NoGuardIsHigh(p, pf, r);
  }

  /** The policies that look at risk. */
  ghost predicate LooksAtRisk(p: Params) { p.policy == Allocator || p.policy == RiskOnly || p.policy == RiskFeeIl }

  lemma ClosedStaysClosed(p: Params, e: Pf, h: Hour, step: int)
    requires LooksAtRisk(p) && !p.fixEmptyBookGuard && Sensible(p) && Ok(p, e) && NoBookOpen(e) && e.active == 0
    requires h.Valid() && Scanned(p, e, h)
    ensures h.env.sqrtP > 0.0
    ensures var r := Execute(p, e, h.env, Decide(p, e, h, step)); |r.books| == 2 && NoBookOpen(r) && r.active == 0
  {
    assert h.env.sqrtP > 0.0;
    DeployedHasPositions(ActiveBook(e));
    EmptyBookReadsHigh(p, e, h);
    hide Scanned, HasPositions, BookOk, Execute;
    if Retreat.Listens(p, step) {
      Policies.HighRiskKeepsOut(p, e, h, step);
      hide Decide;
      ArmActionsOpenNothing(p, e, h.env, Decide(p, e, h, step));
    } else {
      assert Decide(p, e, h, step) == Hold by { hide DecideByRisk, DecideAllocator; }
      ArmActionsOpenNothing(p, e, h.env, Hold);
    }
  }

  /** Every hour's flag of the active book comes from a scan of the portfolio it was taken on. */
  ghost predicate ScannedTape(p: Params, tape: seq<Hour>)
    requires ValidTape(tape) && p.liquidationBonusBps >= 0.0
  {
    forall k :: 0 <= k < |tape| ==> ScannedHour(p, tape, k)
  }

  ghost predicate ScannedHour(p: Params, tape: seq<Hour>, k: nat)
    requires ValidTape(tape) && k < |tape| && p.liquidationBonusBps >= 0.0
  {
    IncomeSizes(p, Run(p, tape, k), tape[k], k);
    Scanned(p, Earned(p, Run(p, tape, k), tape[k], k), tape[k])
  }

  lemma ScannedStepStaysClosed(p: Params, pf: Pf, h: Hour, step: int)
    requires LooksAtRisk(p) && !p.fixEmptyBookGuard && Sensible(p) && Ok(p, pf) && NoBookOpen(pf) && pf.active == 0
    requires h.Valid() && |Earned(p, pf, h, step).books| == 2 && Scanned(p, Earned(p, pf, h, step), h)
    ensures NoBookOpen(Step(p, pf, h, step)) && Step(p, pf, h, step).active == 0
  {
    IncomeKeepsOk(p, pf, h.env, h.rows, step);
    var earned := Earned(p, pf, h, step);
    assert h.env.sqrtP > 0.0;
    hide HourIncome, Decide, Execute, BookOk, Marked, Scanned;
    ClosedStaysClosed(p, earned, h, step);
  }

  /**
   * The door is not the allocator's alone: without the fix, a scan flags an empty active book HIGH, so the
   * risk policies too never reopen book A once it is undeployed, on any tape whose flags a scan produced.
   */
  lemma {:induction false} ScanShutsTheDoor(p: Params, tape: seq<Hour>, m: nat, n: nat)
    requires LooksAtRisk(p) && !p.fixEmptyBookGuard && Sensible(p) && SoundStart(p)
    requires ValidTape(tape) && m <= n <= |tape|
    requires ScannedTape(p, tape) && Run(p, tape, m).active == 0 && !Run(p, tape, m).books[0].deployed
    ensures NoBookOpen(Run(p, tape, n)) && Run(p, tape, n).active == 0
    decreases n
  {
    hide Step, Ok, Initial, Marked, Earned;
    if m == n {
      EveryRunIsOk(p, tape, m);
      NoneButTheActive(p, Run(p, tape, m));
    } else {
      ScanShutsTheDoor(p, tape, m, n - 1);
      EveryRunIsOk(p, tape, n - 1);
      assert ScannedHour(p, tape, n - 1);
      IncomeSizes(p, Run(p, tape, n - 1), tape[n - 1], n - 1);
      hide Scanned, ScannedTape;
      ScannedStepStaysClosed(p, Run(p, tape, n - 1), tape[n - 1], n - 1);
    }
  }
}
