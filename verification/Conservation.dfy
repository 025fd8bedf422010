/** Value conservation of the executor: every action, on every portfolio, at every price. */
module Conservation {
  import opened RealMath
  import opened Lp
  import opened State
  import opened Moves
  import opened Invariant
  import opened Planner
  import opened Decision
  import opened Executor

  /** The part of a booked switch cost that idle USDG could not pay. */
  function Shortfall(p: Params, pf: Pf, env: Env, action: Action): real
    requires WellFormed(pf, env)
  {
    if action.SwitchBook? && !SwitchRefused(pf, action.book) then
      var r := SwitchFunding(p, pf, action.book, env);
      var cost := SwitchFee(p, r.value);
      if r.value > DUST_USD && cost > 0.0 then Max(0.0, cost - r.pf.idleUsdg) else 0.0
    else 0.0
  }

  /** What a slot still held when a book was opened over it. */
  function Forfeit(p: Params, pf: Pf, env: Env, action: Action): real
    requires WellFormed(pf, env)
  {
    match action
    case FundBook(target) =>
      if pf.arm.debt > DUST_USD || HasPositions(pf.books[target]) || Fund(p, pf, target, env).scale <= 0.0 then 0.0
      else BookValue(pf.books[target], env.sqrtP)
    case SwitchBook(target) =>
      ClosingSizes(pf, target, env.sqrtP);
      var closed := CloseForSwitch(pf, target, env.sqrtP);
      if SwitchRefused(pf, target) || SwitchFunding(p, pf, target, env).scale <= 0.0 then 0.0
      else BookValue(closed.books[target], env.sqrtP)
    case _ => 0.0
  }

  // ----- The arm -----

  lemma ArmMovesConserve(pf: Pf, env: Env, x: real)
    requires WellFormed(pf, env)
    ensures Nav(Lent(pf, x), env) == Nav(pf, env) && Nav(Pledged(pf, x), env) == Nav(pf, env)
    ensures Nav(Borrowed(pf, x), env) == Nav(pf, env)
    ensures 0.0 <= pf.arm.lent && x <= pf.idleUsdg + pf.arm.lent ==> Nav(RepaidDebt(pf, x), env) == Nav(pf, env)
  {
    hide BookValue, Usd;
    UsdAdds(pf.idleNvda, x, env.price);
    UsdAdds(pf.arm.nvda, x, env.price);
  }

  // ----- The books -----

  lemma FundIsBooked(p: Params, pf: Pf, target: Slot, env: Env)
    requires WellFormed(pf, env) && MarkedEnv(env)
    ensures var r := TryFund(p, pf, target, env).pf;
      |r.books| == 2 && Nav(r, env) - Nav(pf, env)
        == Booked(r.cum) - Booked(pf.cum) - Forfeit(p, pf, env, FundBook(target))
      && r.cum == pf.cum.(swapCost := r.cum.swapCost)
  {
    hide Fund, Nav, BookValue;
    FundingIsBooked(p, pf, target, env);
  }

  lemma GasInTheBooks(pf: Pf, gas: real, env: Env)
    requires WellFormed(pf, env)
    ensures var r := PayGas(pf, gas);
      Nav(r, env) - Nav(pf, env) == Booked(r.cum) - Booked(pf.cum) && |r.books| == 2
      && r.cum == pf.cum.(gas := r.cum.gas)
  {
    GasIsBooked(pf, gas, env);
    hide Nav, GasMoney;
  }

  lemma RecenterIsBooked(p: Params, pf: Pf, env: Env)
    requires WellFormed(pf, env) && MarkedEnv(env)
    ensures var r := TryRecenter(p, pf, env).pf;
      |r.books| == 2 && Nav(r, env) - Nav(pf, env) == Booked(r.cum) - Booked(pf.cum)
      && r.cum == pf.cum.(swapCost := r.cum.swapCost, gas := r.cum.gas)
  {
    if HasPositions(ActiveBook(pf)) {
      var closed := CloseBook(pf, pf.active, env.sqrtP);
      ClosingConserves(pf, pf.active, env);
      assert BookValue(closed.books[pf.active], env.sqrtP) == 0.0;
      var r := Fund(p, closed, pf.active, env);
      hide CloseBook, Fund, Nav, BookValue, PayGas;
      FundingIsBooked(p, closed, pf.active, env);
      GasInTheBooks(r.pf, RecenterExtra(p), env);
    }
  }

  lemma ClosingForSwitchConserves(pf: Pf, target: Slot, env: Env)
    requires WellFormed(pf, env) && MarkedEnv(env)
    ensures var r := CloseForSwitch(pf, target, env.sqrtP);
      |r.books| == 2 && Nav(r, env) == Nav(pf, env) && r.cum == pf.cum && r.arm == pf.arm && r.active == pf.active
  {
    ClosingSizes(pf, target, env.sqrtP);
    var one := if target != pf.active && HasPositions(pf.books[target]) then CloseBook(pf, target, env.sqrtP) else pf;
    ClosingConserves(pf, target, env);
    ClosingConserves(one, pf.active, env);
    hide Nav;
  }

  lemma ChargeIsBooked(pf: Pf, cost: real, env: Env)
    requires WellFormed(pf, env)
    ensures var r := ChargeSwitch(pf, cost);
      Nav(r, env) - Nav(pf, env)
        == Booked(r.cum) - Booked(pf.cum) + (if cost > 0.0 then Max(0.0, cost - pf.idleUsdg) else 0.0)
      && r.cum == pf.cum.(switchCost := r.cum.switchCost) && r.books == pf.books
  {
    hide BookValue, Usd;
  }

  lemma SwitchIsBooked(p: Params, pf: Pf, target: Slot, env: Env)
    requires WellFormed(pf, env) && MarkedEnv(env)
    ensures var r, a := TrySwitch(p, pf, target, env).pf, SwitchBook(target);
      |r.books| == 2 && Nav(r, env) - Nav(pf, env)
        == Booked(r.cum) - Booked(pf.cum) + Shortfall(p, pf, env, a) - Forfeit(p, pf, env, a)
      && r.cum == pf.cum.(swapCost := r.cum.swapCost, switchCost := r.cum.switchCost)
  {
    hide CloseForSwitch, Fund, Nav, BookValue, SwitchFee, ChargeSwitch, SwitchFunding, SwitchRefused, Marked;
    if !SwitchRefused(pf, target) {
      ClosingForSwitchConserves(pf, target, env);
      var closed := CloseForSwitch(pf, target, env.sqrtP);
      FundingIsBooked(p, closed, target, env);
      SwitchFundsTheClosed(p, pf, target, env);
      var r := SwitchFunding(p, pf, target, env);
      ChargeIsBooked(r.pf, SwitchFee(p, r.value), env);
    }
  }

  lemma SwitchFundsTheClosed(p: Params, pf: Pf, target: Slot, env: Env)
    requires WellFormed(pf, env)
    ensures |CloseForSwitch(pf, target, env.sqrtP).books| == 2
    ensures SwitchFunding(p, pf, target, env) == Fund(p, CloseForSwitch(pf, target, env.sqrtP), target, env)
  {
    ClosingSizes(pf, target, env.sqrtP);
    hide CloseForSwitch, Fund;
  }

  /** An action's own moves, gas aside, are in the books. */
  lemma ApplyIsBooked(p: Params, pf: Pf, env: Env, action: Action)
    requires WellFormed(pf, env) && MarkedEnv(env) && pf.arm.lent >= 0.0
    ensures var r := Apply(p, pf, env, action).pf;
      |r.books| == 2 && Nav(r, env) - Nav(pf, env)
        == Booked(r.cum) - Booked(pf.cum) + Shortfall(p, pf, env, action) - Forfeit(p, pf, env, action)
      && r.cum == pf.cum.(swapCost := r.cum.swapCost, switchCost := r.cum.switchCost, gas := r.cum.gas)
  {
    hide TryFund, TryRecenter, TrySwitch, CloseBook, Nav, Fund, BookValue, LendRoom, CollateralRoom, BorrowRoom,
      Withdrawable, Lent, Pledged, Borrowed, RepaidDebt, Booked;
    match action
    case AllocateUsdg(amount) => ArmStepIsBooked(pf, env, LendAmount(p, pf, env, amount));
    case AllocateNvda(amount) => ArmStepIsBooked(pf, env, CollateralAmount(p, pf, env, amount));
    case BorrowUsdg(amount) => ArmStepIsBooked(pf, env, BorrowAmount(p, pf, env, amount));
    case Repay(amount) => ArmStepIsBooked(pf, env, RepayAmount(pf, amount));
    case WithdrawNvda(amount) => ArmStepIsBooked(pf, env, -WithdrawAmount(p, pf, env, amount));
    case DeallocateUsdg(amount) => ArmStepIsBooked(pf, env, -DeallocateAmount(pf, amount));
    case RecallBook =>
      ClosingConserves(pf, pf.active, env);
      ClosingSizes(pf, pf.active, env.sqrtP);
    case FundBook(target) => FundIsBooked(p, pf, target, env);
    case RecenterBook => RecenterIsBooked(p, pf, env);
    case SwitchBook(target) => SwitchIsBooked(p, pf, target, env);
    case Hold =>
    case UnknownAction =>
  }

  lemma ArmStepIsBooked(pf: Pf, env: Env, x: real)
    requires WellFormed(pf, env)
    ensures forall r :: r in {Lent(pf, x), Pledged(pf, x), Borrowed(pf, x)} ==>
      r.books == pf.books && r.cum == pf.cum && Nav(r, env) == Nav(pf, env)
    ensures RepaidDebt(pf, x).books == pf.books && RepaidDebt(pf, x).cum == pf.cum
    ensures 0.0 <= pf.arm.lent && x <= pf.idleUsdg + pf.arm.lent ==> Nav(RepaidDebt(pf, x), env) == Nav(pf, env)
  {
    ArmMovesConserve(pf, env, x);
  }

  lemma SettleIsBooked(p: Params, r: Applied, env: Env)
    requires WellFormed(r.pf, env)
    ensures var s := Settle(p, r);
      |s.books| == 2 && Nav(s, env) - Nav(r.pf, env) == Booked(s.cum) - Booked(r.pf.cum)
      && s.cum == r.pf.cum.(gas := s.cum.gas, actions := s.cum.actions)
  {
    GasInTheBooks(r.pf, p.gasCostUsd, env);
    hide PayGas, BookValue, ArmEquity;
  }

  /**
   * Conservation, for any portfolio (the lend arm not overdrawn), price and action, HOLD fall-backs
   * included: the NAV moves by exactly what the ledger books, plus the part of a switch cost nobody could
   * pay, minus what an overwritten slot held.
   */
  lemma EveryActionIsBooked(p: Params, pf: Pf, env: Env, action: Action)
    requires WellFormed(pf, env) && MarkedEnv(env) && pf.arm.lent >= 0.0
    ensures var r := Execute(p, pf, env, action);
      |r.books| == 2
      && Nav(r, env) - Nav(pf, env)
        == - (r.cum.gas - pf.cum.gas) - (r.cum.swapCost - pf.cum.swapCost)
           - (r.cum.switchCost - pf.cum.switchCost - Shortfall(p, pf, env, action)) - Forfeit(p, pf, env, action)
      && r.cum == pf.cum.(gas := r.cum.gas, swapCost := r.cum.swapCost, switchCost := r.cum.switchCost,
                          actions := r.cum.actions)
  {
    ApplyIsBooked(p, pf, env, action);
    hide Apply, Nav, Settle, Shortfall, Forfeit;
    SettleIsBooked(p, Apply(p, pf, env, action), env);
  }
}
