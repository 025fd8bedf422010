/** The way out of the books: a pause recalls at once, a risk alarm winds the books down into the arms. It ends. */
module Retreat {
  import opened RealMath
  import opened Lp
  import opened State
  import opened Moves
  import opened Invariant
  import opened Income
  import opened Planner
  import opened Decision
  import opened Executor
  import opened Conservation
  import opened Safety
  import opened Simulation
  import opened OneWayDoor

  // ----- Pauses -----

  /** The policies that listen to the pause flags, in an hour they act in. */
  ghost predicate Listens(p: Params, step: int) {
    (p.policy == Allocator || p.policy == RiskOnly || p.policy == RiskFeeIl)
    && step >= p.warmupHours && (p.policy != RiskFeeIl ==> OnClock(step, p.allocatorIntervalHours))
  }

  lemma PauseOnlyRecalls(p: Params, pf: Pf, h: Hour, step: int)
    requires Listens(p, step) && h.Paused() && WellFormed(pf, h.env)
    ensures Decide(p, pf, h, step) == if HasPositions(ActiveBook(pf)) then RecallBook else Hold
  {
    hide HasPositions, DeployToArms, Sentinel, Recenter, Surplus, ReturnToBooks, DecidePoolSwitch;
  }

  lemma RecallCloses(p: Params, pf: Pf, env: Env)
    requires Sensible(p) && Ok(p, pf) && MarkedEnv(env)
    ensures var r := Execute(p, pf, env, RecallBook); |r.books| == 2 && NoBookOpen(r) && r.active == pf.active
  {
    assert env.sqrtP > 0.0;
    ApplyKeepsBooks(p, pf, env, RecallBook);
    ClosingKeepsOk(p, pf, pf.active, env.sqrtP);
    var r := Apply(p, pf, env, RecallBook);
    assert NoBookOpen(r.pf) && r.pf.active == pf.active;
    hide Apply, CloseBook, BookOk;
    GasKeepsPositions(r.pf, p.gasCostUsd);
    GasKeepsDeployment(r.pf, p.gasCostUsd);
  }

  lemma GasKeepsDeployment(pf: Pf, gas: real)
    requires |pf.books| == 2
    ensures var r := PayGas(pf, gas);
      |r.books| == 2 && r.active == pf.active && r.idleNvda == pf.idleNvda && r.idleUsdg <= pf.idleUsdg
      && forall i :: 0 <= i < 2 ==> r.books[i] == pf.books[i].(fees := r.books[i].fees)
  {
  }

  /** A paused hour ends with no book open, whatever the portfolio and the market did in it. */
  lemma PauseEmptiesTheBooks(p: Params, pf: Pf, h: Hour, step: int)
    requires Listens(p, step) && (h.depegPaused || h.controllerPaused || h.switchFrozen)
    requires Sensible(p) && Ok(p, pf) && h.Valid()
    ensures NoBookOpen(Step(p, pf, h, step))
  {
    IncomeKeepsOk(p, pf, h.env, h.rows, step);
    IncomeSizes(p, pf, h, step);
    var earned := Earned(p, pf, h, step);
    assert h.env.sqrtP > 0.0;
    DeployedHasPositions(ActiveBook(earned));
    hide HourIncome, Decide, BookOk, HasPositions, Execute;
    PauseOnlyRecalls(p, earned, h, step);
    if HasPositions(ActiveBook(earned)) {
      RecallCloses(p, earned, h.env);
    } else {
      ArmActionsOpenNothing(p, earned, h.env, Hold);
    }
  }

  /**
   * For the as-built allocator a pause is final: after one paused hour in which it acts, no later state of any
   * run has a book open, and no more fees are earned.
   */
  lemma PauseShutsTheDoor(p: Params, tape: seq<Hour>, m: nat, n: nat)
    requires AsBuilt(p) && Sensible(p) && SoundStart(p) && ValidTape(tape) && m < n <= |tape|
    requires Listens(p, m) && tape[m].Paused()
    ensures NoBookOpen(Run(p, tape, n)) && Run(p, tape, n).cum.fees == Run(p, tape, m + 1).cum.fees
  {
    hide Step, Ok, Marked, Initial, SoundStart, Listens;
    assert tape[m].Valid();
    EveryRunIsOk(p, tape, m);
    PauseEmptiesTheBooks(p, Run(p, tape, m), tape[m], m);
    assert Run(p, tape, m + 1) == Step(p, Run(p, tape, m), tape[m], m);
    hide Run;
    DoorNeverReopens(p, tape, m + 1, n);
  }

  // ----- Retreat into the arms -----

  function RetreatStep(p: Params, pf: Pf, env: Env): (r: Pf)
    requires WellFormed(pf, env)
    ensures |r.books| == 2
  {
    ApplyKeepsBooks(p, pf, env, DeployToArms(p, pf, env));
    Execute(p, pf, env, DeployToArms(p, pf, env))
  }

  /** The portfolio after n entry actions at a fixed mark. */
  function RetreatRun(p: Params, pf: Pf, env: Env, n: nat): (r: Pf)
    requires WellFormed(pf, env)
    ensures |r.books| == 2
  {
    if n == 0 then pf else RetreatStep(p, RetreatRun(p, pf, env, n - 1), env)
  }

  function Units(x: real): nat { Max(0.0, x).Floor }

  lemma UnitsShrink(x: real, y: real)
    requires 0.0 <= x - y && y > 1.0
    ensures Units(x - y) < Units(x)
  {
  }

  lemma UnitsOrder(x: real, y: real)
    requires x <= y
    ensures Units(x) <= Units(y)
  {
  }

  function OpenBooks(pf: Pf): nat
    requires |pf.books| == 2
  {
    if HasPositions(ActiveBook(pf)) then 1 else 0
  }

  function NvdaLeft(pf: Pf): nat { Units(pf.idleNvda * 1_000.0) }

  function BorrowLeft(p: Params, pf: Pf, env: Env): nat { Units(DebtTarget(p, pf, env) - pf.arm.debt) }

  function UsdgLeft(pf: Pf): nat { Units(pf.idleUsdg) }

  /** Closer to the end: the book recalled, or less idle NVDA, or less left to borrow, or less idle USDG. */
  ghost predicate Closer(p: Params, pf: Pf, r: Pf, env: Env)
    requires |pf.books| == 2 && |r.books| == 2
  {
    OpenBooks(r) < OpenBooks(pf)
    || (OpenBooks(r) == OpenBooks(pf)
      && (NvdaLeft(r) < NvdaLeft(pf)
        || (NvdaLeft(r) == NvdaLeft(pf)
          && (BorrowLeft(p, r, env) < BorrowLeft(p, pf, env)
            || (BorrowLeft(p, r, env) == BorrowLeft(p, pf, env) && UsdgLeft(r) < UsdgLeft(pf))))))
  }

  /** What an entry action is: a lend, a pledge or a borrow of more than dust, a recall, or nothing. */
  lemma EntryMoves(p: Params, pf: Pf, env: Env)
    requires WellFormed(pf, env)
    ensures var a := DeployToArms(p, pf, env);
      match a
      case AllocateUsdg(x) => DUST_USD < x <= pf.idleUsdg && Apply(p, pf, env, a) == Applied(Lent(pf, x), true)
      case AllocateNvda(y) => DUST_NVDA < y <= pf.idleNvda && Apply(p, pf, env, a) == Applied(Pledged(pf, y), true)
      case BorrowUsdg(x) =>
        DUST_USD < x <= DebtTarget(p, pf, env) - pf.arm.debt && Apply(p, pf, env, a) == Applied(Borrowed(pf, x), true)
      case RecallBook => HasPositions(ActiveBook(pf))
      case Hold => !HasPositions(ActiveBook(pf))
      case _ => false
  {
    hide PlanArmEntry, LendRoom, CollateralRoom, DebtTarget, HasPositions, Lent, Pledged, Borrowed;
    DeployExecutes(p, pf, env);
  }

  lemma DeployExecutes(p: Params, pf: Pf, env: Env)
    requires WellFormed(pf, env)
    ensures var a := DeployToArms(p, pf, env);
      (a.AllocateUsdg? ==> Apply(p, pf, env, a) == Applied(Lent(pf, a.amount), true))
      && (a.AllocateNvda? ==> Apply(p, pf, env, a) == Applied(Pledged(pf, a.amount), true))
      && (a.BorrowUsdg? ==> Apply(p, pf, env, a) == Applied(Borrowed(pf, a.amount), true))
  {
    hide PlanArmEntry, LendRoom, CollateralRoom, BorrowRoom, HasPositions, Lent, Pledged, Borrowed;
  }

  lemma SettledEntry(p: Params, pf: Pf, moved: Pf)
    requires |moved.books| == 2 && |pf.books| == 2 && moved.books == pf.books && moved.active == pf.active
    ensures var r := Settle(p, Applied(moved, true));
      |r.books| == 2 && OpenBooks(r) == OpenBooks(pf) && r.active == pf.active
      && r.idleNvda == moved.idleNvda && r.idleUsdg <= moved.idleUsdg
      && r.arm.nvda == moved.arm.nvda && r.arm.debt == moved.arm.debt
  {
    GasKeepsDeployment(moved, p.gasCostUsd);
    GasKeepsPositions(moved, p.gasCostUsd);
    SettlingKeepsLeverage(p, Applied(moved, true));
    hide PayGas, HasPositions;
  }

  /** Every entry action but HOLD brings the retreat closer to its end. */
  lemma RetreatShrinks(p: Params, pf: Pf, env: Env)
    requires Sensible(p) && Ok(p, pf) && MarkedEnv(env) && DeployToArms(p, pf, env) != Hold
    ensures Ok(p, RetreatStep(p, pf, env)) && Closer(p, pf, RetreatStep(p, pf, env), env)
  {
    assert env.sqrtP > 0.0;
    var a, r := DeployToArms(p, pf, env), RetreatStep(p, pf, env);
    EntryMoves(p, pf, env);
    DeployNeverFunds(p, pf, env);
    ExecutionKeepsOk(p, pf, env, a);
    hide DeployToArms, Settle, HasPositions, Usd, BorrowSize, Units, BookOk, Apply;
    match a
    case AllocateUsdg(x) =>
      SettledEntry(p, pf, Lent(pf, x));
      UnitsShrink(pf.idleUsdg, x);
      UnitsOrder(r.idleUsdg, pf.idleUsdg - x);
    case AllocateNvda(y) =>
      SettledEntry(p, pf, Pledged(pf, y));
      UnitsShrink(pf.idleNvda * 1_000.0, y * 1_000.0);
      assert r.idleNvda * 1_000.0 == pf.idleNvda * 1_000.0 - y * 1_000.0;
    case BorrowUsdg(x) =>
      SettledEntry(p, pf, Borrowed(pf, x));
      UnitsShrink(DebtTarget(p, pf, env) - pf.arm.debt, x);
      assert DebtTarget(p, r, env) - r.arm.debt == DebtTarget(p, pf, env) - pf.arm.debt - x;
    case RecallBook =>
      RecallCloses(p, pf, env);
      ClosedHasNothing(r);
    case _ =>
  }

  lemma ClosedHasNothing(pf: Pf)
    requires |pf.books| == 2 && NoBookOpen(pf)
    ensures OpenBooks(pf) == 0
  {
  }

  /** Done: nothing more to move, no book open, and the next hour of the same kind changes nothing. */
  ghost predicate Retreated(p: Params, pf: Pf, env: Env)
    requires WellFormed(pf, env)
  {
    DeployToArms(p, pf, env) == Hold && NoBookOpen(pf) && RetreatStep(p, pf, env) == pf.(mode := ModeOf(pf.arm))
  }

  lemma HoldIsDone(p: Params, pf: Pf, env: Env)
    requires Ok(p, pf) && WellFormed(pf, env) && DeployToArms(p, pf, env) == Hold
    ensures Retreated(p, pf, env)
  {
    EntryMoves(p, pf, env);
    DeployedHasPositions(ActiveBook(pf));
    hide DeployToArms, HasPositions, BookOk;
  }

  /**
   * A retreat ends: under a standing alarm at a fixed mark, after finitely many actions the book is recalled,
   * the arms are as full as their caps and the dust allow, and the keeper holds from then on.
   */
  lemma {:induction false} RetreatTerminates(p: Params, pf: Pf, env: Env) returns (k: nat)
    requires Sensible(p) && Ok(p, pf) && MarkedEnv(env)
    ensures Ok(p, RetreatRun(p, pf, env, k)) && Retreated(p, RetreatRun(p, pf, env, k), env)
    decreases OpenBooks(pf), NvdaLeft(pf), BorrowLeft(p, pf, env), UsdgLeft(pf)
  {
    hide Ok, Sensible, WellFormed, Marked, MarkedEnv, RetreatStep, RetreatRun, OpenBooks, NvdaLeft, BorrowLeft,
      UsdgLeft, DeployToArms, Retreated;
    InShape(p, pf, env);
    if DeployToArms(p, pf, env) == Hold {
      HoldIsDone(p, pf, env);
      NoRetreatYet(p, pf, env);
      k := 0;
    } else {
      RetreatShrinks(p, pf, env);
      k := RetreatTerminates(p, RetreatStep(p, pf, env), env);
      RetreatRunShifts(p, pf, env, k);
      k := k + 1;
    }
  }

  lemma InShape(p: Params, pf: Pf, env: Env)
    requires Ok(p, pf) && MarkedEnv(env)
    ensures WellFormed(pf, env) && env.sqrtP > 0.0 && |pf.books| == 2
  {
    hide BookOk;
  }

  lemma NoRetreatYet(p: Params, pf: Pf, env: Env)
    requires WellFormed(pf, env)
    ensures RetreatRun(p, pf, env, 0) == pf && WellFormed(RetreatRun(p, pf, env, 0), env)
  {
    hide RetreatStep;
  }

  lemma {:induction false} RetreatRunShifts(p: Params, pf: Pf, env: Env, n: nat)
    requires WellFormed(pf, env)
    ensures RetreatRun(p, RetreatStep(p, pf, env), env, n) == RetreatRun(p, pf, env, n + 1)
  {
    hide RetreatStep;
    if n > 0 {
      RetreatRunShifts(p, pf, env, n - 1);
    }
  }

  /** However long it lasts, a retreat at a fixed mark costs gas and nothing else. */
  lemma {:induction false} RetreatCostsGas(p: Params, pf: Pf, env: Env, n: nat)
    requires Sensible(p) && Ok(p, pf) && MarkedEnv(env)
    ensures var r := RetreatRun(p, pf, env, n);
      Ok(p, r) && Nav(r, env) == Nav(pf, env) - (r.cum.gas - pf.cum.gas)
  {
    hide *;
    InShape(p, pf, env);
    if n == 0 {
      NoRetreatYet(p, pf, env);
    } else {
      RetreatCostsGas(p, pf, env, n - 1);
      RetreatStepCostsGas(p, RetreatRun(p, pf, env, n - 1), env);
      OneMoreRetreat(p, pf, env, n - 1);
    }
  }

  lemma OneMoreRetreat(p: Params, pf: Pf, env: Env, n: nat)
    requires WellFormed(pf, env)
    ensures RetreatRun(p, pf, env, n + 1) == RetreatStep(p, RetreatRun(p, pf, env, n), env)
  {
    hide RetreatStep;
  }

  lemma RetreatStepCostsGas(p: Params, pf: Pf, env: Env)
    requires Sensible(p) && Ok(p, pf) && MarkedEnv(env)
    ensures var r := RetreatStep(p, pf, env);
      Ok(p, r) && Nav(r, env) == Nav(pf, env) - (r.cum.gas - pf.cum.gas)
  {
    assert env.sqrtP > 0.0;
    var a := DeployToArms(p, pf, env);
    DeployNeverFunds(p, pf, env);
    EveryActionIsBooked(p, pf, env, a);
    ExecutionKeepsOk(p, pf, env, a);
    hide Nav, DeployToArms, Forfeit, BookOk;
    EntryBooksGasOnly(p, pf, env, a);
  }

  lemma EntryBooksGasOnly(p: Params, pf: Pf, env: Env, a: Action)
    requires WellFormed(pf, env)
    requires a.AllocateUsdg? || a.AllocateNvda? || a.BorrowUsdg? || a.RecallBook? || a.Hold?
    ensures var r := Execute(p, pf, env, a);
      r.cum.swapCost == pf.cum.swapCost && r.cum.switchCost == pf.cum.switchCost && Shortfall(p, pf, env, a) == 0.0
  {
    hide LendRoom, CollateralRoom, BorrowRoom, BookUsdg, BookNvda;
  }
}
