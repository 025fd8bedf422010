/** What each policy is for: the HODL benchmark, the book-only policies, the sentinel, and the risk gate. */
module Policies {
  import opened RealMath
  import opened Lp
  import opened State
  import opened Moves
  import opened Invariant
  import opened Income
  import opened Planner
  import opened Decision
  import opened Executor
  import opened Safety
  import opened Simulation
  import opened OneWayDoor
  import opened Attribution
  import opened Retreat

  // ----- The arm that is never used -----

  const NO_ARM := Arm(0.0, 0.0, 0.0, 0.0)

  lemma EmptyArmEarnsNothing(p: Params, pf: Pf, env: Env)
    requires |pf.books| == 2 && env.sqrtP > 0.0 && p.liquidationBonusBps >= 0.0 && pf.arm == NO_ARM
    ensures Accrue(p, pf, env.price) == pf && Liquidate(p, pf, env) == pf && ModeOf(pf.arm) == BooksMode
  {
    assert forall k :: Part(0.0, k) == 0.0;
    assert Usd(0.0, env.price) == 0.0;
    hide Part, Usd, NvdaRate;
  }

  lemma BookIncomeLeavesArm(p: Params, pf: Pf, i: Slot, env: Env, row: BookRow, gates: Gates, step: int)
    requires |pf.books| == 2 && row.minutes.Valid()
    ensures var r := BookIncome(p, pf, i, env, row, gates, step);
      |r.books| == 2 && r.arm == pf.arm && ArmLedger(r.cum) == ArmLedger(pf.cum)
  {
    hide TokenUsdg, TokenNvda, HourlyFee, GuardPulled, RearmDue, RearmTarget, ScaleWithin, Part, SwapFor;
  }

  /** What the arm has ever cost or earned. */
  function ArmLedger(cum: Cum): (real, real, real, real) {
    (cum.armInterest, cum.borrowCost, cum.nvdaYield, cum.liquidationLoss)
  }

  lemma IncomeLeavesEmptyArm(p: Params, pf: Pf, h: Hour, step: int)
    requires |pf.books| == 2 && h.Valid() && p.liquidationBonusBps >= 0.0 && pf.arm == NO_ARM
    ensures var r := Earned(p, pf, h, step);
      |r.books| == 2 && r.arm == NO_ARM && r.mode == BooksMode && ArmLedger(r.cum) == ArmLedger(pf.cum)
  {
    assert h.env.sqrtP > 0.0;
    BookIncomeLeavesArm(p, pf, 0, h.env, h.rows.a, h.rows.gatesA, step);
    BookIncomeLeavesArm(p, BookIncome(p, pf, 0, h.env, h.rows.a, h.rows.gatesA, step), 1, h.env, h.rows.b,
                        h.rows.gatesB, step);
    hide BookIncome, Accrue, Liquidate, ModeOf;
    EmptyArmEarnsNothing(p, BothIncomes(p, pf, h.env, h.rows, step), h.env);
  }

  lemma GasLeavesEmptyArm(pf: Pf, gas: real)
    requires |pf.books| == 2 && pf.arm == NO_ARM
    ensures PayGas(pf, gas).arm == NO_ARM && ArmLedger(PayGas(pf, gas).cum) == ArmLedger(pf.cum)
    ensures |PayGas(pf, gas).books| == 2
  {
  }

  lemma SettlingLeavesEmptyArm(p: Params, r: Applied)
    requires |r.pf.books| == 2 && r.pf.arm == NO_ARM
    ensures Settle(p, r).arm == NO_ARM && ArmLedger(Settle(p, r).cum) == ArmLedger(r.pf.cum)
  {
    GasLeavesEmptyArm(r.pf, p.gasCostUsd);
    hide PayGas;
  }

  lemma FundLeavesArm(p: Params, pf: Pf, target: Slot, env: Env)
    requires |pf.books| == 2
    ensures Fund(p, pf, target, env).pf.arm == pf.arm
    ensures ArmLedger(Fund(p, pf, target, env).pf.cum) == ArmLedger(pf.cum)
  {
    hide BookQuote, FundScale, SwapFor, Part;
  }

  lemma BookActionsLeaveEmptyArm(p: Params, pf: Pf, env: Env, a: Action)
    requires WellFormed(pf, env) && pf.arm == NO_ARM && (a.Hold? || a.FundBook? || a.SwitchBook?)
    ensures Execute(p, pf, env, a).arm == NO_ARM && ArmLedger(Execute(p, pf, env, a).cum) == ArmLedger(pf.cum)
  {
    hide Apply, Settle, ArmLedger;
    ApplyKeepsBooks(p, pf, env, a);
    ApplyLeavesEmptyArm(p, pf, env, a);
    SettlingLeavesEmptyArm(p, Apply(p, pf, env, a));
  }

  lemma ApplyLeavesEmptyArm(p: Params, pf: Pf, env: Env, a: Action)
    requires WellFormed(pf, env) && pf.arm == NO_ARM && (a.Hold? || a.FundBook? || a.SwitchBook?)
    ensures Apply(p, pf, env, a).pf.arm == NO_ARM && ArmLedger(Apply(p, pf, env, a).pf.cum) == ArmLedger(pf.cum)
  {
    hide Fund, BookUsdg, BookNvda, HasPositions, SwitchFee;
    if a.FundBook? { FundLeavesArm(p, pf, a.book, env); }
    if a.SwitchBook? {
      ClosingSizes(pf, a.book, env.sqrtP);
      FundLeavesArm(p, CloseForSwitch(pf, a.book, env.sqrtP), a.book, env);
    }
  }

  /** The policies that know no arm. */
  ghost predicate BooksOnly(p: Params) { p.policy == Hodl || p.policy == AlwaysA || p.policy == AlwaysB }

  lemma BookPoliciesOnlyMoveBooks(p: Params, pf: Pf, h: Hour, step: int)
    requires BooksOnly(p) && WellFormed(pf, h.env)
    ensures var a := Decide(p, pf, h, step); a.Hold? || a.FundBook? || a.SwitchBook?
  {
    hide HasPositions;
  }

  lemma StepLeavesEmptyArm(p: Params, pf: Pf, h: Hour, step: int)
    requires BooksOnly(p) && |pf.books| == 2 && h.Valid() && p.liquidationBonusBps >= 0.0 && pf.arm == NO_ARM
    ensures Step(p, pf, h, step).arm == NO_ARM && ArmLedger(Step(p, pf, h, step).cum) == ArmLedger(pf.cum)
  {
    assert h.env.sqrtP > 0.0;
    hide Earned, Execute, Decide, ArmLedger;
    IncomeLeavesEmptyArm(p, pf, h, step);
    var earned := Earned(p, pf, h, step);
    BookPoliciesOnlyMoveBooks(p, earned, h, step);
    BookActionsLeaveEmptyArm(p, earned, h.env, Decide(p, earned, h, step));
  }

  /** HODL and the two book-only policies never touch the arm, on any tape: nothing is lent, borrowed or lost there. */
  lemma {:induction false} BookPoliciesNeverUseTheArm(p: Params, tape: seq<Hour>, n: nat)
    requires BooksOnly(p) && ValidTape(tape) && n <= |tape| && p.liquidationBonusBps >= 0.0
    ensures Run(p, tape, n).arm == NO_ARM && ArmLedger(Run(p, tape, n).cum) == (0.0, 0.0, 0.0, 0.0)
  {
    hide Step, HodlBasket, BookTemplate;
    if n > 0 {
      BookPoliciesNeverUseTheArm(p, tape, n - 1);
      hide Initial, Marked, ArmLedger;
      StepLeavesEmptyArm(p, Run(p, tape, n - 1), tape[n - 1], n - 1);
    }
  }

  // ----- The benchmark -----

  lemma HodlHourIsQuiet(p: Params, pf: Pf, h: Hour, step: int)
    requires p.policy == Hodl && |pf.books| == 2 && h.Valid() && p.liquidationBonusBps >= 0.0
    requires pf.arm == NO_ARM && pf.mode == BooksMode && NoBookOpen(pf)
    ensures Step(p, pf, h, step) == pf
  {
    assert h.env.sqrtP > 0.0;
    assert BothIncomes(p, pf, h.env, h.rows, step) == pf;
    EmptyArmEarnsNothing(p, pf, h.env);
    hide BothIncomes, Accrue, Liquidate;
  }

  /**
   * The HODL policy is the HODL benchmark: on every tape it never acts, its NAV is the value of the initial
   * basket at every mark, and its reported IL against HODL is zero.
   */
  lemma {:induction false} HodlRunIsTheBasket(p: Params, tape: seq<Hour>, n: nat)
    requires p.policy == Hodl && ValidTape(tape) && n <= |tape| && p.liquidationBonusBps >= 0.0
    ensures Run(p, tape, n) == Initial(p, tape[0].env) && Run(p, tape, n).cum.actions == 0
    ensures Nav(Run(p, tape, n), MarkedAt(tape, n)) == BasketNav(HodlBasket(p, tape[0].env), MarkedAt(tape, n).price)
    ensures CumIlVsHodl(p, tape, n) == 0.0
  {
    hide Step, HodlBasket;
    assert tape[0].Valid();
    if n > 0 {
      HodlRunIsTheBasket(p, tape, n - 1);
      assert tape[n - 1].Valid();
      HodlHourIsQuiet(p, Run(p, tape, n - 1), tape[n - 1], n - 1);
    }
    HodlStartIsTheBasket(p, tape[0].env, MarkedAt(tape, n));
    hide Initial, Nav, BasketNav;
  }

  lemma HodlStartIsTheBasket(p: Params, env: Env, at: Env)
    requires p.policy == Hodl && env.sqrtP > 0.0 && at.sqrtP > 0.0
    ensures Nav(Initial(p, env), at) == BasketNav(HodlBasket(p, env), at.price)
  {
    assert Usd(0.0, at.price) == 0.0;
    hide HodlBasket, Usd;
  }

  // ----- Debt and books -----

  /** No action opens a book while debt is above dust. */
  lemma DebtBarsTheBooks(p: Params, pf: Pf, env: Env, a: Action)
    requires Sensible(p) && Ok(p, pf) && MarkedEnv(env) && NoBookOpen(pf) && pf.arm.debt > DUST_USD
    ensures var r := Execute(p, pf, env, a); |r.books| == 2 && NoBookOpen(r) && r.active == pf.active
  {
    assert env.sqrtP > 0.0;
    ApplyKeepsBooks(p, pf, env, a);
    DeployedHasPositions(ActiveBook(pf));
    var r := Apply(p, pf, env, a);
    assert r.pf.books == pf.books && r.pf.active == pf.active by {
      hide LendRoom, CollateralRoom, BorrowRoom, Withdrawable, Fund, HasPositions, BookOk;
    }
    hide Apply, BookOk, HasPositions;
    GasKeepsDeployment(r.pf, p.gasCostUsd);
    hide PayGas;
  }

  // ----- The sentinel -----

  /**
   * In an hour they act in, unpaused, the risk-aware policies put the sentinel before everything else, and
   * what it decides strictly lowers the debt and strictly raises the health factor.
   */
  lemma SentinelDeleversFirst(p: Params, pf: Pf, h: Hour, step: int)
    requires Listens(p, step) && !h.Paused() && Sensible(p) && Ok(p, pf) && h.Valid() && p.lltv > 0.0
    requires Sentinel(p, pf, h.env).Some?
    ensures h.env.sqrtP > 0.0
    ensures var a, r := Decide(p, pf, h, step), Execute(p, pf, h.env, Decide(p, pf, h, step));
      a.Repay? && r.arm.debt == pf.arm.debt - a.amount < pf.arm.debt && r.arm.nvda == pf.arm.nvda
      && (r.arm.debt > 0.0 ==>
        pf.arm.debt > 0.0 && HealthFactor(p, r.arm, h.env.price) > HealthFactor(p, pf.arm, h.env.price))
  {
    var env := h.env;
    assert env.sqrtP > 0.0 && env.price > 0.0 by { MarkedPrice(env.sqrtP, env.price); }
    var a := Sentinel(p, pf, env).value;
    SentinelComesFirst(p, pf, h, step);
    assert a.Repay? && DUST_USD < a.amount <= pf.arm.debt && a.amount <= pf.idleUsdg + pf.arm.lent && pf.arm.nvda > 0.0;
    hide Sentinel, Decide, BookOk;
    assert RepayAmount(pf, a.amount) == a.amount;
    var r := Execute(p, pf, env, a);
    assert Apply(p, pf, env, a) == Applied(RepaidDebt(pf, a.amount), true);
    SettlingKeepsLeverage(p, Apply(p, pf, env, a));
    hide Settle, Apply;
    MulPos(pf.arm.nvda, env.price);
    var secured := p.lltv * Usd(pf.arm.nvda, env.price);
    MulPos(p.lltv, Usd(pf.arm.nvda, env.price));
    if r.arm.debt > 0.0 {
      LessDebtMoreHealth(secured, pf.arm.debt, r.arm.debt);
    }
  }

  lemma LessDebtMoreHealth(secured: real, before: real, after: real)
    requires secured > 0.0 && 0.0 < after < before
    ensures secured / before < secured / after
  {
    DivCompare(secured, after, secured, before);
    MulPos(secured, before - after);
    assert secured * (before - after) == secured * before - secured * after;
  }

  lemma SentinelComesFirst(p: Params, pf: Pf, h: Hour, step: int)
    requires Listens(p, step) && !h.Paused() && WellFormed(pf, h.env) && Sentinel(p, pf, h.env).Some?
    ensures Decide(p, pf, h, step) == Sentinel(p, pf, h.env).value
  {
    hide Sentinel, DeployToArms, Recenter, Surplus, ReturnToBooks, DecidePoolSwitch, HasPositions;
  }

  // ----- The risk gate -----

  /**
   * While the active book's risk is HIGH, no policy that listens puts anything back into it: nothing is
   * withdrawn, deallocated, funded or re-centred; the only book left to go to is book A, and only if it is
   * not HIGH itself.
   */
  lemma HighRiskKeepsOut(p: Params, pf: Pf, h: Hour, step: int)
    requires Listens(p, step) && WellFormed(pf, h.env) && h.MarkOf(pf.active).risk == High
    ensures var a := Decide(p, pf, h, step);
      !a.FundBook? && !a.RecenterBook? && !a.WithdrawNvda? && !a.DeallocateUsdg?
      && (a.SwitchBook? ==> a.book == 0 && pf.active == 1 && h.MarkOf(0).risk != High)
  {
    DeployNeverFunds(p, pf, h.env);
    SideActionsNeverFund(p, pf, h.env);
    hide Sentinel, DeployToArms, Recenter, Surplus, ReturnToBooks, DecidePoolSwitch, HasPositions;
  }
}
