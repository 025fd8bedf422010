/** What no action can break: the portfolio's shape, the caps, the leverage limits. */
module Safety {
  import opened RealMath
  import opened Lp
  import opened State
  import opened Moves
  import opened Invariant
  import opened Planner
  import opened Decision
  import opened Executor
  import opened Conservation

  /** A book is only ever funded where no other one is open. */
  ghost predicate Legit(pf: Pf, action: Action)
    requires |pf.books| == 2
  {
    action.FundBook? ==> action.book == pf.active || !HasPositions(ActiveBook(pf))
  }

  lemma DecisionsAreLegit(p: Params, pf: Pf, h: Hour, step: int)
    requires WellFormed(pf, h.env)
    ensures Legit(pf, Decide(p, pf, h, step))
  {
    hide DeployToArms, Surplus, Sentinel, Recenter, DecidePoolSwitch, GuardAlarm;
    DeployNeverFunds(p, pf, h.env);
    SideActionsNeverFund(p, pf, h.env);
  }

  lemma DeployNeverFunds(p: Params, pf: Pf, env: Env)
    requires WellFormed(pf, env)
    ensures var a := DeployToArms(p, pf, env);
      a.AllocateUsdg? || a.AllocateNvda? || a.BorrowUsdg? || a.RecallBook? || a.Hold?
  {
  }

  lemma SideActionsNeverFund(p: Params, pf: Pf, env: Env)
    requires WellFormed(pf, env)
    ensures Sentinel(p, pf, env).Some? ==> Sentinel(p, pf, env).value.Repay?
    ensures Recenter(p, pf, env).Some? ==> Recenter(p, pf, env).value.RecenterBook?
    ensures Surplus(p, pf, env).Some? ==>
      var a := Surplus(p, pf, env).value; a.AllocateUsdg? || a.AllocateNvda? || a.BorrowUsdg?
  {
  }

  // ----- Shape -----

  /** The arm moves keep every balance non-negative (up to the slack) and leave the books alone. */
  lemma ArmMovesKeepOk(p: Params, pf: Pf, x: real)
    requires Sensible(p) && Ok(p, pf)
    ensures 0.0 <= x <= pf.idleUsdg ==> Ok(p, Lent(pf, x))
    ensures 0.0 <= x <= pf.arm.lent ==> Ok(p, Lent(pf, -x))
    ensures 0.0 <= x <= pf.idleNvda ==> Ok(p, Pledged(pf, x))
    ensures 0.0 <= x <= pf.arm.nvda ==> Ok(p, Pledged(pf, -x))
    ensures 0.0 <= x ==> Ok(p, Borrowed(pf, x))
    ensures 0.0 <= x <= pf.arm.debt && x <= pf.idleUsdg + pf.arm.lent ==> Ok(p, RepaidDebt(pf, x))
  {
    hide BookOk;
  }

  lemma ClosingForSwitchKeepsOk(p: Params, pf: Pf, target: Slot, s: real)
    requires Sensible(p) && Ok(p, pf)
    ensures var r := CloseForSwitch(pf, target, s);
      Ok(p, r) && r.active == pf.active && r.arm == pf.arm && !r.books[0].deployed && !r.books[1].deployed
  {
    var one := if target != pf.active && HasPositions(pf.books[target]) then CloseBook(pf, target, s) else pf;
    ClosingKeepsOk(p, pf, target, s);
    DeployedHasPositions(pf.books[pf.active]);
    assert one.books[pf.active] == pf.books[pf.active];
    ClosingKeepsOk(p, one, pf.active, s);
    hide CloseBook, BookOk;
  }

  /** A book move keeps the shape and leaves the arm alone, except that gas may come out of the lend arm. */
  ghost predicate KeepsArm(p: Params, pf: Pf, r: Pf) {
    Ok(p, r) && r.arm == pf.arm.(lent := r.arm.lent) && r.arm.lent <= pf.arm.lent
  }

  lemma FundKeepsOk(p: Params, pf: Pf, target: Slot, env: Env)
    requires Sensible(p) && Ok(p, pf) && MarkedEnv(env) && Legit(pf, FundBook(target))
    ensures KeepsArm(p, pf, TryFund(p, pf, target, env).pf)
    ensures Forfeit(p, pf, env, FundBook(target)) == 0.0
  {
    DeployedHasPositions(pf.books[0]);
    DeployedHasPositions(pf.books[1]);
    hide BookOk, Fund, HasPositions;
    if !HasPositions(pf.books[target]) {
      FundingKeepsOk(p, pf, target, env);
    }
  }

  lemma RecenterKeepsOk(p: Params, pf: Pf, env: Env)
    requires Sensible(p) && Ok(p, pf) && MarkedEnv(env)
    ensures KeepsArm(p, pf, TryRecenter(p, pf, env).pf)
  {
    ClosingKeepsOk(p, pf, pf.active, env.sqrtP);
    var closed := CloseBook(pf, pf.active, env.sqrtP);
    hide BookOk, Fund, HasPositions, CloseBook, PayGas;
    FundingKeepsOk(p, closed, pf.active, env);
    GasKeepsOk(p, Fund(p, closed, pf.active, env).pf, RecenterExtra(p));
  }

  lemma ChargeKeepsOk(p: Params, pf: Pf, cost: real)
    requires Sensible(p) && Ok(p, pf)
    ensures Ok(p, ChargeSwitch(pf, cost)) && ChargeSwitch(pf, cost).arm == pf.arm
  {
    hide BookOk;
  }

  lemma SwitchKeepsOk(p: Params, pf: Pf, target: Slot, env: Env)
    requires Sensible(p) && Ok(p, pf) && MarkedEnv(env)
    ensures KeepsArm(p, pf, TrySwitch(p, pf, target, env).pf)
    ensures Forfeit(p, pf, env, SwitchBook(target)) == 0.0
  {
    ClosingForSwitchKeepsOk(p, pf, target, env.sqrtP);
    var emptied := CloseForSwitch(pf, target, env.sqrtP);
    DeployedHasPositions(emptied.books[target]);
    hide BookOk, Fund, HasPositions, CloseForSwitch, SwitchFee, ChargeSwitch;
    FundingKeepsOk(p, emptied, target, env);
    var r := SwitchFunding(p, pf, target, env);
    ChargeKeepsOk(p, r.pf, SwitchFee(p, r.value));
  }

  lemma ApplyKeepsOk(p: Params, pf: Pf, env: Env, action: Action)
    requires Sensible(p) && Ok(p, pf) && MarkedEnv(env) && Legit(pf, action)
    ensures var r := Apply(p, pf, env, action).pf;
      Ok(p, r) && r.arm.badDebt == pf.arm.badDebt && (!action.BorrowUsdg? ==> r.arm.debt <= pf.arm.debt)
    ensures Forfeit(p, pf, env, action) == 0.0
  {
    assert WellFormed(pf, env);
    hide Ok, LendRoom, CollateralRoom, BorrowRoom, Withdrawable, TryFund, TryRecenter, TrySwitch, CloseBook, Fund;
    match action
    case AllocateUsdg(amount) => ArmMovesKeepOk(p, pf, LendAmount(p, pf, env, amount));
    case AllocateNvda(amount) => ArmMovesKeepOk(p, pf, CollateralAmount(p, pf, env, amount));
    case BorrowUsdg(amount) => ArmMovesKeepOk(p, pf, BorrowAmount(p, pf, env, amount));
    case Repay(amount) => ArmMovesKeepOk(p, pf, RepayAmount(pf, amount));
    case WithdrawNvda(amount) => ArmMovesKeepOk(p, pf, WithdrawAmount(p, pf, env, amount));
    case DeallocateUsdg(amount) => ArmMovesKeepOk(p, pf, DeallocateAmount(pf, amount));
    case RecallBook => ClosingKeepsOk(p, pf, pf.active, env.sqrtP);
    case FundBook(target) => FundKeepsOk(p, pf, target, env);
    case RecenterBook => RecenterKeepsOk(p, pf, env);
    case SwitchBook(target) => SwitchKeepsOk(p, pf, target, env);
    case Hold =>
    case UnknownAction =>
  }

  /**
   * Every legitimate action keeps the shape, never touches bad debt, raises debt only when it borrows, and
   * overwrites nothing of worth.
   */
  lemma ExecutionKeepsOk(p: Params, pf: Pf, env: Env, action: Action)
    requires Sensible(p) && Ok(p, pf) && MarkedEnv(env) && Legit(pf, action)
    ensures var r := Execute(p, pf, env, action);
      Ok(p, r) && r.arm.badDebt == pf.arm.badDebt && (r.arm.debt > pf.arm.debt ==> action.BorrowUsdg?)
      && r.mode == ModeOf(r.arm)
    ensures Forfeit(p, pf, env, action) == 0.0
  {
    ApplyKeepsOk(p, pf, env, action);
    hide Apply, Settle, Ok, Forfeit;
    SettlingKeepsOk(p, Apply(p, pf, env, action));
  }

  lemma SettlingKeepsOk(p: Params, r: Applied)
    requires Sensible(p) && Ok(p, r.pf)
    ensures var s := Settle(p, r);
      Ok(p, s) && s.arm.badDebt == r.pf.arm.badDebt && s.arm.debt == r.pf.arm.debt && s.mode == ModeOf(s.arm)
  {
    hide BookOk, PayGas;
    GasKeepsOk(p, r.pf, p.gasCostUsd);
  }

  // ----- Leverage -----

  /** Settling an action leaves collateral and debt alone; gas may come out of the lend arm. */
  lemma SettlingKeepsLeverage(p: Params, r: Applied)
    requires |r.pf.books| == 2
    ensures var s := Settle(p, r);
      s.arm == r.pf.arm.(lent := s.arm.lent) && s.arm.lent <= r.pf.arm.lent
  {
  }

  /**
   * A borrow that moved anything leaves debt within every loan-to-value limit of the collateral at its value,
   * and within the market's liquidity.
   */
  lemma BorrowStaysWithinLimits(p: Params, pf: Pf, env: Env, amount: real)
    requires WellFormed(pf, env) && Usd(pf.arm.nvda, env.price) >= 0.0 && pf.arm.debt >= 0.0
    ensures var r := Execute(p, pf, env, BorrowUsdg(amount));
      var collateral := Usd(r.arm.nvda, env.price);
      r.arm.debt > pf.arm.debt ==>
        r.arm.nvda == pf.arm.nvda && r.arm.debt <= p.borrowLiquidityUsd
        && r.arm.debt <= Part(collateral, p.ltvBps / BPS) && r.arm.debt <= Part(collateral, p.maxLtvBps / BPS)
        && r.arm.debt <= Part(collateral, p.hardCapBps / BPS)
  {
    var r := Execute(p, pf, env, BorrowUsdg(amount));
    SettlingKeepsLeverage(p, Apply(p, pf, env, BorrowUsdg(amount)));
    hide Settle, Usd, Part;
    if r.arm.debt > pf.arm.debt {
      var cv := Usd(pf.arm.nvda, env.price);
      assert 0.0 < r.arm.debt <= DebtTarget(p, pf, env);
      AllowedIsWithin(cv, p.ltvBps, p.maxLtvBps, p.hardCapBps, r.arm.debt);
    }
  }

  lemma AllowedIsWithin(cv: real, ltv: real, maxLtv: real, hardCap: real, debt: real)
    requires cv >= 0.0 && 0.0 < debt <= BorrowSize(cv, ltv, maxLtv, hardCap)
    ensures debt <= Part(cv, ltv / BPS) && debt <= Part(cv, maxLtv / BPS) && debt <= Part(cv, hardCap / BPS)
  {
    var allowed := AllowedLtvBps(ltv, maxLtv, hardCap);
    NothingOfIt(cv);
    DivLe(allowed, ltv, BPS); DivLe(allowed, maxLtv, BPS); DivLe(allowed, hardCap, BPS);
    hide Part;
    MorePart(cv, allowed / BPS, ltv / BPS);
    MorePart(cv, allowed / BPS, maxLtv / BPS);
    MorePart(cv, allowed / BPS, hardCap / BPS);
  }

  lemma MorePart(x: real, k: real, k': real)
    requires x >= 0.0 && k <= k'
    ensures Part(x, k) <= Part(x, k')
  {
    MulLe(k, k', x);
  }

  lemma NothingOfIt(x: real)
    ensures Part(x, 0.0) == 0.0
  {
  }

  /** A withdrawal under debt leaves the health factor at or above its floor. */
  lemma WithdrawalKeepsHealth(p: Params, pf: Pf, env: Env, amount: real)
    requires WellFormed(pf, env) && env.price > 0.0 && p.lltv > 0.0 && pf.arm.debt > DUST_USD
    ensures var r := Execute(p, pf, env, WithdrawNvda(amount));
      r.arm.debt == pf.arm.debt
      && (r.arm.nvda < pf.arm.nvda ==> HealthFactor(p, r.arm, env.price) >= p.minHealthFactor)
  {
    SettlingKeepsLeverage(p, Apply(p, pf, env, WithdrawNvda(amount)));
    var r := Execute(p, pf, env, WithdrawNvda(amount));
    hide Settle, HealthFloor, HealthFactor, Usd;
    if r.arm.nvda < pf.arm.nvda {
      HealthAtFloor(p, r.arm, env.price);
    }
  }

  lemma HealthAtFloor(p: Params, arm: Arm, price: real)
    requires price > 0.0 && p.lltv > 0.0 && arm.debt > 0.0 && arm.nvda >= HealthFloor(p, arm.debt, price)
    ensures HealthFactor(p, arm, price) >= p.minHealthFactor
  {
    var unit, needed := p.lltv * price, arm.debt * p.minHealthFactor;
    ProductPos(p.lltv, price, unit);
    var floor := needed / unit;
    MulDiv(needed, unit);
    MulLe(floor, arm.nvda, unit);
    SecuredByUnits(p.lltv, price, arm.nvda, unit);
    DivCompare(p.minHealthFactor, 1.0, p.lltv * Usd(arm.nvda, price), arm.debt);
  }

  lemma SecuredByUnits(lltv: real, price: real, nvda: real, unit: real)
    requires unit == lltv * price
    ensures lltv * Usd(nvda, price) == nvda * unit
  {
  }

  /** Whoever repays with debt left over never lowers the health factor: the sentinel's deleverage is one case. */
  lemma RepayNeverLowersHealth(p: Params, pf: Pf, env: Env, amount: real)
    requires WellFormed(pf, env) && pf.arm.debt > 0.0 && p.lltv * Usd(pf.arm.nvda, env.price) >= 0.0
    ensures var r := Execute(p, pf, env, Repay(amount));
      r.arm.nvda == pf.arm.nvda && r.arm.debt <= pf.arm.debt
      && (r.arm.debt > 0.0 ==> HealthFactor(p, r.arm, env.price) >= HealthFactor(p, pf.arm, env.price))
  {
    SettlingKeepsLeverage(p, Apply(p, pf, env, Repay(amount)));
    var r := Execute(p, pf, env, Repay(amount));
    hide Settle, Usd;
    if r.arm.debt > 0.0 {
      var secured := p.lltv * Usd(pf.arm.nvda, env.price);
      MulLe(r.arm.debt, pf.arm.debt, secured);
      DivCompare(secured, pf.arm.debt, secured, r.arm.debt);
    }
  }

  // ----- Caps -----

  lemma CollateralFits(p: Params, pf: Pf, env: Env, y: real)
    requires WellFormed(pf, env) && env.price > 0.0 && 0.0 < y <= CollateralRoom(p, pf, env)
    ensures Usd(pf.arm.nvda + y, env.price) <= CollateralCap(p, pf, env)
  {
    var left := CollateralCap(p, pf, env) - Usd(pf.arm.nvda, env.price);
    hide CollateralCap, Usd;
    UsdAdds(pf.arm.nvda, y, env.price);
    var room := Max(0.0, left);
    DivCompare(y, 1.0, room, env.price);
    PositiveProduct(y, env.price);
  }

  lemma PositiveProduct(y: real, price: real)
    requires y > 0.0 && price > 0.0
    ensures Usd(y, price) > 0.0 && Usd(y, price) == y * price
  {
    MulPos(y, price);
  }

  lemma CapsAreWithin(p: Params, pf: Pf, env: Env, x: real)
    requires WellFormed(pf, env) && x > 0.0
    ensures x <= LendCap(p, pf, env) ==> x <= p.lendAbsCapUsd && x <= RelativeCap(p.lendRelCapBps, Nav(pf, env))
    ensures x <= CollateralCap(p, pf, env) ==> x <= p.armAbsCapUsd && x <= RelativeCap(p.armRelCapBps, Nav(pf, env))
  {
    hide Nav;
  }

  /** Lending and pledging cost the NAV their gas and nothing else, and no more than one bill of it. */
  lemma ArmEntryCostsGas(p: Params, pf: Pf, env: Env, a: Action)
    requires WellFormed(pf, env) && (a.AllocateUsdg? || a.AllocateNvda?)
    ensures var r := Execute(p, pf, env, a);
      |r.books| == 2 && Nav(pf, env) == Nav(r, env) + (r.cum.gas - pf.cum.gas)
      && 0.0 <= r.cum.gas - pf.cum.gas <= Max(0.0, p.gasCostUsd)
  {
    var moved := Apply(p, pf, env, a);
    ApplyKeepsBooks(p, pf, env, a);
    ArmMovesConserve(pf, env, if a.AllocateUsdg? then LendAmount(p, pf, env, a.amount)
                              else CollateralAmount(p, pf, env, a.amount));
    hide LendRoom, CollateralRoom, Nav;
    assert Nav(moved.pf, env) == Nav(pf, env) && moved.pf.cum == pf.cum;
    hide Apply;
    SettlingCostsGas(p, moved, env);
  }

  lemma SettlingCostsGas(p: Params, r: Applied, env: Env)
    requires WellFormed(r.pf, env)
    ensures var s := Settle(p, r);
      |s.books| == 2 && Nav(r.pf, env) == Nav(s, env) + (s.cum.gas - r.pf.cum.gas)
      && 0.0 <= s.cum.gas - r.pf.cum.gas <= Max(0.0, p.gasCostUsd)
  {
    GasIsBooked(r.pf, p.gasCostUsd, env);
    hide PayGas, BookValue, ArmEquity;
  }

  lemma LendingWithinCaps(p: Params, pf: Pf, env: Env, amount: real)
    requires WellFormed(pf, env) && pf.arm.lent >= 0.0
    ensures var r := Execute(p, pf, env, AllocateUsdg(amount));
      r.arm.lent > pf.arm.lent ==>
        r.arm.lent <= p.lendAbsCapUsd && r.arm.lent <= RelativeCap(p.lendRelCapBps, Nav(pf, env))
  {
    SettlingKeepsLeverage(p, Apply(p, pf, env, AllocateUsdg(amount)));
    hide Settle, Nav, LendCap, CollateralCap;
    var r := Execute(p, pf, env, AllocateUsdg(amount));
    if r.arm.lent > pf.arm.lent {
      CapsAreWithin(p, pf, env, r.arm.lent);
    }
  }

  lemma PledgingWithinCaps(p: Params, pf: Pf, env: Env, amount: real)
    requires WellFormed(pf, env) && env.price > 0.0 && pf.arm.nvda >= 0.0
    ensures var r := Execute(p, pf, env, AllocateNvda(amount));
      var value := Usd(r.arm.nvda, env.price);
      r.arm.nvda > pf.arm.nvda ==> value <= p.armAbsCapUsd && value <= RelativeCap(p.armRelCapBps, Nav(pf, env))
  {
    SettlingKeepsLeverage(p, Apply(p, pf, env, AllocateNvda(amount)));
    var y := CollateralAmount(p, pf, env, amount);
    hide Settle, Nav, CollateralRoom, LendCap, CollateralCap, Usd;
    if y > DUST_NVDA {
      CollateralFits(p, pf, env, y);
      PositiveProduct(pf.arm.nvda + y, env.price);
      CapsAreWithin(p, pf, env, Usd(pf.arm.nvda + y, env.price));
    }
  }

  /**
   * A loan to the lend arm that moved anything respects its absolute cap, and its NAV-relative cap at the NAV
   * before the action: the NAV after it plus the gas it paid.
   */
  lemma LendingRespectsCaps(p: Params, pf: Pf, env: Env, amount: real)
    requires WellFormed(pf, env) && pf.arm.lent >= 0.0
    ensures var r := Execute(p, pf, env, AllocateUsdg(amount));
      var gas := r.cum.gas - pf.cum.gas;
      |r.books| == 2 && 0.0 <= gas <= Max(0.0, p.gasCostUsd) && Nav(pf, env) == Nav(r, env) + gas
      && (r.arm.lent > pf.arm.lent ==>
        r.arm.lent <= p.lendAbsCapUsd && Times(r.arm.lent, BPS) <= Times(p.lendRelCapBps, Nav(r, env) + gas))
  {
    hide *;
    ArmEntryCostsGas(p, pf, env, AllocateUsdg(amount));
    LendingWithinCaps(p, pf, env, amount);
    var r := Execute(p, pf, env, AllocateUsdg(amount));
    WellFormedAfter(pf, r, env);
    CapInBps(p.lendRelCapBps, Nav(pf, env), r.arm.lent);
  }

  /** A relative cap, cross-multiplied. */
  lemma CapInBps(bps: real, nav: real, x: real)
    ensures x <= RelativeCap(bps, nav) <==> Times(x, BPS) <= Times(bps, nav)
  {
    DivCompare(x, 1.0, bps * nav, BPS);
  }

  lemma WellFormedAfter(pf: Pf, r: Pf, env: Env)
    requires WellFormed(pf, env) && |r.books| == 2
    ensures WellFormed(r, env) && env.sqrtP > 0.0 && |pf.books| == 2
  {
  }

  /** The same for the collateral arm, at the value of the collateral. */
  lemma PledgingRespectsCaps(p: Params, pf: Pf, env: Env, amount: real)
    requires WellFormed(pf, env) && env.price > 0.0 && pf.arm.nvda >= 0.0
    ensures var r := Execute(p, pf, env, AllocateNvda(amount));
      var value, gas := Usd(r.arm.nvda, env.price), r.cum.gas - pf.cum.gas;
      |r.books| == 2 && 0.0 <= gas <= Max(0.0, p.gasCostUsd) && Nav(pf, env) == Nav(r, env) + gas
      && (r.arm.nvda > pf.arm.nvda ==>
        value <= p.armAbsCapUsd && Times(value, BPS) <= Times(p.armRelCapBps, Nav(r, env) + gas))
  {
    hide *;
    ArmEntryCostsGas(p, pf, env, AllocateNvda(amount));
    PledgingWithinCaps(p, pf, env, amount);
    var r := Execute(p, pf, env, AllocateNvda(amount));
    WellFormedAfter(pf, r, env);
    CapInBps(p.armRelCapBps, Nav(pf, env), Usd(r.arm.nvda, env.price));
  }
}
