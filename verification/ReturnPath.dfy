/** The way back to the books: repay, withdraw, deallocate in slices, then fund. It ends, and where it ends. */
module ReturnPath {
  import opened RealMath
  import opened Lp
  import opened State
  import opened Fees
  import opened Moves
  import opened Invariant
  import opened Income
  import opened Planner
  import opened Decision
  import opened Executor
  import opened Conservation
  import opened Safety
  import opened OneWayDoor

  function StepFraction(p: Params): real { Min(BPS, p.bookStepBps) / BPS }

  function ReturnStep(p: Params, pf: Pf, env: Env): (r: Pf)
    requires WellFormed(pf, env)
    ensures |r.books| == 2
  {
    ApplyKeepsBooks(p, pf, env, ReturnToBooks(p, pf));
    Execute(p, pf, env, ReturnToBooks(p, pf))
  }

  /** The portfolio after n return actions at a fixed mark. */
  function ReturnRun(p: Params, pf: Pf, env: Env, n: nat): (r: Pf)
    requires WellFormed(pf, env)
    ensures |r.books| == 2
  {
    if n == 0 then pf else ReturnStep(p, ReturnRun(p, pf, env, n - 1), env)
  }

  /** A slice that is dust to the cent: the planner does not round it up and the executor does not move it. */
  predicate DustSlice(p: Params, arm: Arm) {
    (arm.debt > DUST_USD && Part(arm.debt, StepFraction(p)) == DUST_USD)
    || (arm.debt <= DUST_USD && arm.nvda > DUST_NVDA && Part(arm.nvda, StepFraction(p)) == DUST_NVDA)
    || (arm.debt <= DUST_USD && arm.nvda <= DUST_NVDA && arm.lent > DUST_USD && Part(arm.lent, StepFraction(p)) == DUST_USD)
  }

  /** Debt outstanding with no more than dust to repay it. */
  predicate OutOfUsdg(pf: Pf) { pf.arm.debt > DUST_USD && pf.idleUsdg + pf.arm.lent <= DUST_USD }

  predicate Stuck(p: Params, pf: Pf) { OutOfUsdg(pf) || DustSlice(p, pf.arm) }

  /** Whole dust units of debt, collateral and lent USDG still to unwind. */
  function Remaining(arm: Arm): (n: nat)
    requires ArmOk(arm)
  {
    NonnegFloor(arm.debt); NonnegFloor(arm.nvda * 1_000.0); NonnegFloor(arm.lent);
    arm.debt.Floor + (arm.nvda * 1_000.0).Floor + arm.lent.Floor
  }

  lemma NonnegFloor(x: real)
    requires x >= 0.0
    ensures x.Floor >= 0
  {
  }

  /** Away from its stopping states a return action repays, withdraws or deallocates more than dust. */
  lemma ReturnMoves(p: Params, pf: Pf, env: Env)
    requires Ok(p, pf) && WellFormed(pf, env) && !WoundDown(pf.arm) && !Stuck(p, pf)
    ensures var a := ReturnToBooks(p, pf);
      (a.Repay? && DUST_USD < a.amount <= pf.arm.debt
        && Apply(p, pf, env, a) == Applied(RepaidDebt(pf, a.amount), true) && a.amount <= pf.idleUsdg + pf.arm.lent)
      || (a.WithdrawNvda? && DUST_NVDA < a.amount <= pf.arm.nvda && pf.arm.debt <= DUST_USD
        && Apply(p, pf, env, a) == Applied(Pledged(pf, -a.amount), true))
      || (a.DeallocateUsdg? && DUST_USD < a.amount <= pf.arm.lent && pf.arm.debt <= DUST_USD && pf.arm.nvda <= DUST_NVDA
        && Apply(p, pf, env, a) == Applied(Lent(pf, -a.amount), true))
  {
    SliceCases(pf.arm.nvda, p.bookStepBps, DUST_NVDA);
    SliceCases(pf.arm.lent, p.bookStepBps, DUST_USD);
    hide BookOk, HealthFloor, Part;
  }

  /** Each such action removes at least one dust unit from what remains. */
  lemma ReturnShrinks(p: Params, pf: Pf, env: Env)
    requires Sensible(p) && Ok(p, pf) && MarkedEnv(env) && !WoundDown(pf.arm) && !Stuck(p, pf)
    ensures var r := ReturnStep(p, pf, env);
      Ok(p, r) && Remaining(r.arm) < Remaining(pf.arm) && r.active == pf.active
      && (r.arm.debt < pf.arm.debt || r.arm.nvda < pf.arm.nvda || r.arm.lent < pf.arm.lent)
      && r.books[0].deployed == pf.books[0].deployed && r.books[1].deployed == pf.books[1].deployed
  {
    assert env.sqrtP > 0.0;
    hide Marked, BookOk;
    ReturnMoves(p, pf, env);
    var a := ReturnToBooks(p, pf);
    ExecutionKeepsOk(p, pf, env, a);
    SettlingKeepsLeverage(p, Apply(p, pf, env, a));
    SettlingKeepsBooks(p, Apply(p, pf, env, a));
    hide ReturnToBooks, Apply, Settle, Stuck, Ok, Remaining;
    UnwindingShrinks(pf.arm, ReturnStep(p, pf, env).arm);
  }

  lemma UnwindingShrinks(arm: Arm, after: Arm)
    requires ArmOk(arm) && ArmOk(after) && after.debt <= arm.debt && after.nvda <= arm.nvda && after.lent <= arm.lent
    requires after.debt < arm.debt - DUST_USD || after.nvda < arm.nvda - DUST_NVDA || after.lent < arm.lent - DUST_USD
    ensures Remaining(after) < Remaining(arm)
  {
  }

  lemma SettlingKeepsBooks(p: Params, r: Applied)
    requires |r.pf.books| == 2
    ensures var s := Settle(p, r);
      |s.books| == 2 && s.active == r.pf.active && s.books[0].deployed == r.pf.books[0].deployed
      && s.books[1].deployed == r.pf.books[1].deployed
  {
  }

  /** A stuck keeper stays exactly where it is. */
  lemma StuckStays(p: Params, pf: Pf, env: Env)
    requires Ok(p, pf) && WellFormed(pf, env) && Stuck(p, pf)
    ensures ReturnStep(p, pf, env) == pf.(mode := ModeOf(pf.arm))
    ensures !ReturnToBooks(p, pf).FundBook?
  {
    SliceCases(pf.arm.nvda, p.bookStepBps, DUST_NVDA);
    SliceCases(pf.arm.lent, p.bookStepBps, DUST_USD);
    hide BookOk, HealthFloor, Part;
  }

  /** And it stays there for good. */
  lemma {:induction false} StuckForever(p: Params, pf: Pf, env: Env, n: nat)
    requires Ok(p, pf) && WellFormed(pf, env) && Stuck(p, pf) && pf.mode == ModeOf(pf.arm)
    ensures ReturnRun(p, pf, env, n) == pf
  {
    hide ReturnStep, Stuck, BookOk, ReturnToBooks;
    if n > 0 {
      StuckForever(p, pf, env, n - 1);
      StuckStays(p, pf, env);
    }
  }

  /** Wound down, the return decides to fund the active book, or holds one that is already funded. */
  lemma WoundDownFunds(p: Params, pf: Pf)
    requires |pf.books| == 2 && WoundDown(pf.arm)
    ensures ReturnToBooks(p, pf) == if HasPositions(ActiveBook(pf)) then Hold else FundBook(pf.active)
  {
    hide PlanBookReturn;
  }

  /**
   * Where a return can end: wound down, and then an empty book is funded next; or stuck for want of USDG or
   * on a slice of exactly dust, and then nothing ever moves again.
   */
  ghost predicate Ended(p: Params, start: Pf, end: Pf, env: Env)
    requires WellFormed(start, env) && WellFormed(end, env)
  {
    (WoundDown(end.arm) && (NoBookOpen(start) ==> ReturnToBooks(p, end) == FundBook(start.active)))
    || (Stuck(p, end) && ReturnStep(p, end, env) == end.(mode := ModeOf(end.arm)))
  }

  lemma EndsHere(p: Params, pf: Pf, env: Env)
    requires Ok(p, pf) && WellFormed(pf, env) && (WoundDown(pf.arm) || Stuck(p, pf))
    ensures Ended(p, pf, pf, env)
  {
    hide ReturnStep, Stuck, ReturnToBooks;
    if WoundDown(pf.arm) {
      WoundDownFunds(p, pf);
      DeployedHasPositions(ActiveBook(pf));
    } else {
      StuckStays(p, pf, env);
    }
  }

  /**
   * The return terminates, within as many actions as there are dust units of debt, collateral and lent USDG,
   * in one of the ends above.
   */
  lemma {:induction false} ReturnTerminates(p: Params, pf: Pf, env: Env) returns (k: nat)
    requires Sensible(p) && Ok(p, pf) && MarkedEnv(env)
    ensures k <= Remaining(pf.arm) && Ok(p, ReturnRun(p, pf, env, k))
    ensures Ended(p, pf, ReturnRun(p, pf, env, k), env)
    decreases Remaining(pf.arm)
  {
    hide *;
    InShape(p, pf, env);
    if WoundDown(pf.arm) || Stuck(p, pf) {
      EndsHere(p, pf, env);
      NoReturnYet(p, pf, env);
      k := 0;
    } else {
      ReturnShrinks(p, pf, env);
      var next := ReturnStep(p, pf, env);
      InShape(p, next, env);
      k := ReturnTerminates(p, next, env);
      InShape(p, ReturnRun(p, next, env, k), env);
      ReturnRunShifts(p, pf, env, k);
      EndsAlike(p, pf, next, ReturnRun(p, next, env, k), env);
      k := k + 1;
    }
  }

  lemma EndsAlike(p: Params, pf: Pf, next: Pf, end: Pf, env: Env)
    requires WellFormed(pf, env) && WellFormed(next, env) && WellFormed(end, env) && next.active == pf.active
    requires next.books[0].deployed == pf.books[0].deployed && next.books[1].deployed == pf.books[1].deployed
    requires Ended(p, next, end, env)
    ensures Ended(p, pf, end, env)
  {
    hide WoundDown, ReturnToBooks, Stuck, ReturnStep;
  }

  lemma {:induction false} ReturnRunShifts(p: Params, pf: Pf, env: Env, n: nat)
    requires WellFormed(pf, env)
    ensures ReturnRun(p, ReturnStep(p, pf, env), env, n) == ReturnRun(p, pf, env, n + 1)
  {
    hide ReturnStep;
    if n > 0 {
      ReturnRunShifts(p, pf, env, n - 1);
    }
  }

  // ----- What the return costs, and when it is sure to arrive -----

  /** The arm's unwinding costs nothing but gas. */
  lemma ReturnStepCostsGas(p: Params, pf: Pf, env: Env)
    requires Sensible(p) && Ok(p, pf) && MarkedEnv(env) && !WoundDown(pf.arm)
    ensures var r := ReturnStep(p, pf, env);
      Nav(r, env) == Nav(pf, env) - (r.cum.gas - pf.cum.gas) && Ok(p, r)
  {
    assert env.sqrtP > 0.0;
    var a := ReturnToBooks(p, pf);
    NotAFunding(p, pf);
    hide ReturnToBooks, Nav, BookOk, Marked;
    EveryActionIsBooked(p, pf, env, a);
    ExecutionKeepsOk(p, pf, env, a);
    NoBookCosts(p, pf, env, a);
    hide Execute, Apply;
  }

  lemma NotAFunding(p: Params, pf: Pf)
    requires |pf.books| == 2 && !WoundDown(pf.arm)
    ensures var a := ReturnToBooks(p, pf); a.Repay? || a.WithdrawNvda? || a.DeallocateUsdg? || a.Hold?
  {
    hide PlanBookReturn;
  }

  lemma NoBookCosts(p: Params, pf: Pf, env: Env, a: Action)
    requires WellFormed(pf, env) && (a.Repay? || a.WithdrawNvda? || a.DeallocateUsdg? || a.Hold?)
    ensures var r := Execute(p, pf, env, a);
      r.cum.swapCost == pf.cum.swapCost && r.cum.switchCost == pf.cum.switchCost && Shortfall(p, pf, env, a) == 0.0
  {
    hide HealthFloor;
  }

  /** USDG at hand beyond the debt. */
  function Cover(pf: Pf): real { pf.idleUsdg + pf.arm.lent - pf.arm.debt }

  /** The gas of as many actions as there are dust units left. */
  function GasBudget(p: Params, arm: Arm): real
    requires ArmOk(arm)
  {
    Times(Remaining(arm) as real, Max(0.0, p.gasCostUsd))
  }

  /** USDG at hand covers the debt and the gas of the whole return. */
  predicate Solvent(p: Params, pf: Pf)
    requires ArmOk(pf.arm)
  {
    Cover(pf) >= GasBudget(p, pf.arm)
  }

  lemma GasDrains(pf: Pf, gas: real)
    requires |pf.books| == 2
    ensures Cover(PayGas(pf, gas)) >= Cover(pf) - Max(0.0, gas)
  {
  }

  /** A return action takes nothing from the cover but its gas. */
  lemma ReturnDrains(p: Params, pf: Pf, env: Env)
    requires Ok(p, pf) && WellFormed(pf, env) && !WoundDown(pf.arm) && !Stuck(p, pf)
    ensures Cover(ReturnStep(p, pf, env)) >= Cover(pf) - Max(0.0, p.gasCostUsd)
  {
    ReturnMoves(p, pf, env);
    var a := ReturnToBooks(p, pf);
    var r := Apply(p, pf, env, a);
    hide ReturnToBooks, Apply, Stuck, BookOk;
    assert Cover(r.pf) >= Cover(pf) && |r.pf.books| == 2;
    GasDrains(r.pf, p.gasCostUsd);
    hide PayGas;
  }

  lemma BudgetShrinks(p: Params, arm: Arm, after: Arm)
    requires ArmOk(arm) && ArmOk(after) && Remaining(after) < Remaining(arm)
    ensures GasBudget(p, after) + Max(0.0, p.gasCostUsd) <= GasBudget(p, arm)
  {
    var g, n, m := Max(0.0, p.gasCostUsd), Remaining(arm) as real, Remaining(after) as real;
    hide Remaining;
    MulLe(m + 1.0, n, g);
    assert (m + 1.0) * g == m * g + g;
  }

  lemma BudgetNonneg(p: Params, arm: Arm)
    requires ArmOk(arm)
    ensures GasBudget(p, arm) >= 0.0
  {
    MulNonneg(Remaining(arm) as real, Max(0.0, p.gasCostUsd));
  }

  lemma SolventSteps(p: Params, pf: Pf, env: Env)
    requires Sensible(p) && Ok(p, pf) && MarkedEnv(env) && !WoundDown(pf.arm) && !Stuck(p, pf) && Solvent(p, pf)
    ensures ArmOk(ReturnStep(p, pf, env).arm) && Solvent(p, ReturnStep(p, pf, env))
  {
    assert env.sqrtP > 0.0;
    ReturnShrinks(p, pf, env);
    ReturnDrains(p, pf, env);
    hide ReturnStep, GasBudget, Cover, Stuck, Remaining, BookOk;
    BudgetShrinks(p, pf.arm, ReturnStep(p, pf, env).arm);
  }

  lemma SolventIsNotOut(p: Params, pf: Pf)
    requires ArmOk(pf.arm) && Solvent(p, pf)
    ensures Stuck(p, pf) ==> DustSlice(p, pf.arm)
  {
    BudgetNonneg(p, pf.arm);
    hide GasBudget, DustSlice;
  }

  /** A keeper whose USDG covers its debt and the gas of the way is never stuck for want of USDG. */
  lemma {:induction false} SolventReturnArrives(p: Params, pf: Pf, env: Env) returns (k: nat)
    requires Sensible(p) && Ok(p, pf) && MarkedEnv(env) && Solvent(p, pf)
    ensures k <= Remaining(pf.arm)
    ensures var end := ReturnRun(p, pf, env, k).arm; WoundDown(end) || DustSlice(p, end)
    decreases Remaining(pf.arm)
  {
    hide *;
    InShape(p, pf, env);
    SolventIsNotOut(p, pf);
    if WoundDown(pf.arm) || DustSlice(p, pf.arm) {
      NoReturnYet(p, pf, env);
      k := 0;
    } else {
      ReturnShrinks(p, pf, env);
      SolventSteps(p, pf, env);
      k := SolventReturnArrives(p, ReturnStep(p, pf, env), env);
      ReturnRunShifts(p, pf, env, k);
      k := k + 1;
    }
  }

  lemma InShape(p: Params, pf: Pf, env: Env)
    requires Ok(p, pf) && MarkedEnv(env)
    ensures WellFormed(pf, env) && ArmOk(pf.arm) && env.sqrtP > 0.0 && |pf.books| == 2
  {
    hide BookOk;
  }

  lemma NoReturnYet(p: Params, pf: Pf, env: Env)
    requires WellFormed(pf, env)
    ensures ReturnRun(p, pf, env, 0) == pf && WellFormed(ReturnRun(p, pf, env, 0), env)
  {
    hide ReturnStep;
  }

  // ----- Inside the simulation -----

  /** With no book open, zero rates and a healthy arm, an hour's income changes nothing but the mode. */
  lemma QuietHour(p: Params, pf: Pf, h: Hour, step: int)
    requires Sensible(p) && Ok(p, pf) && NoBookOpen(pf) && h.Valid() && !Liquidatable(p, pf.arm, h.env.price)
    requires p.armUsdgApr == 0.0 && p.armBorrowApr == 0.0 && p.armNvdaApr == 0.0
    ensures HourIncome(p, pf, h.env, h.rows, step) == pf.(mode := ModeOf(pf.arm))
  {
    BothIncomesKeepOk(p, pf, h.env, h.rows, step);
    hide BothIncomes, LiquidatedArm, Liquidatable, Nav;
    NoRatesNoAccrual(p, pf, h.env.price);
  }

  lemma NoRatesNoAccrual(p: Params, pf: Pf, price: real)
    requires p.armUsdgApr == 0.0 && p.armBorrowApr == 0.0 && p.armNvdaApr == 0.0
    ensures Accrue(p, pf, price) == pf
  {
    assert NvdaRate(p, pf.arm, price) == 0.0;
    hide NvdaRate;
  }
}
