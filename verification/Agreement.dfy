/** Planner and executor agree: what is decided is executed in full, on the same portfolio. */
module Agreement {
  import opened RealMath
  import opened Lp
  import opened State
  import opened Invariant
  import opened Planner
  import opened Decision
  import opened Executor
  import opened Safety
  import opened Fees
  import opened Moves
  import opened Income
  import opened Simulation
  import opened QuietHours
  import Policies

  /** The executor would move exactly the decided amount. */
  ghost predicate ExecutesInFull(p: Params, pf: Pf, env: Env, a: Action)
    requires WellFormed(pf, env)
  {
    match a
    case AllocateUsdg(x) => Apply(p, pf, env, a) == Applied(Lent(pf, x), true)
    case AllocateNvda(y) => Apply(p, pf, env, a) == Applied(Pledged(pf, y), true)
    case BorrowUsdg(x) => Apply(p, pf, env, a) == Applied(Borrowed(pf, x), true)
    case Repay(x) => Apply(p, pf, env, a) == Applied(RepaidDebt(pf, x), true)
    case _ => true
  }

  lemma DeployExecutesInFull(p: Params, pf: Pf, env: Env)
    requires WellFormed(pf, env)
    ensures ExecutesInFull(p, pf, env, DeployToArms(p, pf, env))
  {
    hide LendRoom, CollateralRoom, BorrowRoom, PlanArmEntry;
  }

  lemma SentinelExecutesInFull(p: Params, pf: Pf, env: Env)
    requires WellFormed(pf, env) && Sentinel(p, pf, env).Some?
    ensures ExecutesInFull(p, pf, env, Sentinel(p, pf, env).value)
  {
    hide HealthFactor;
  }

  lemma ReturnExecutesInFull(p: Params, pf: Pf, env: Env)
    requires WellFormed(pf, env)
    ensures ExecutesInFull(p, pf, env, ReturnToBooks(p, pf))
  {
    hide PlanBookReturn;
  }

  /** A sweep with a negative reserve and more room than there is idle: the one plan that exceeds the balance. */
  predicate OverSweeps(p: Params, pf: Pf, env: Env, a: Action)
    requires WellFormed(pf, env)
  {
    Surplus(p, pf, env) == Some(a) && Reserve(p, pf, env) < 0.0
    && (a.AllocateNvda? ==> CollateralRoom(p, pf, env) > pf.idleNvda)
    && (a.AllocateUsdg? ==> LendRoom(p, pf, env) > pf.idleUsdg)
    && !a.BorrowUsdg?
  }

  lemma ReserveSign(reserve: real, price: real)
    requires price > 0.0
    ensures reserve / price < 0.0 <==> reserve < 0.0
  {
    DivCompare(0.0, 1.0, reserve, price);
  }

  /** A surplus action is executed in full unless it over-sweeps, and then it is not. */
  lemma SurplusExecutesInFull(p: Params, pf: Pf, env: Env)
    requires WellFormed(pf, env) && Surplus(p, pf, env).Some?
    ensures var a := Surplus(p, pf, env).value;
      ExecutesInFull(p, pf, env, a) <==> !OverSweeps(p, pf, env, a)
  {
    ReserveSign(Reserve(p, pf, env), env.price);
    hide LendRoom, CollateralRoom, BorrowRoom, Reserve;
  }

  /**
   * Parameters under which a sweep exceeds the balance: the risk policy, capital left outside the book, both
   * reserves negative, and lend caps that leave room.
   */
  ghost predicate NegativeReserve(p: Params) {
    p.policy == RiskOnly && p.warmupHours <= 0 && p.maxGuardPulls >= 0 && Sensible(p) && SoundStart(p)
    && p.bookCapitalUsd + DUST_USD < p.initialNavUsd
    && p.surplusSweep && p.inventoryReserveUsd < 0.0 && p.inventoryReservePct < 0.0 && p.surplusUsdgMinUsd <= 0.0
    && p.lendAbsCapUsd >= p.initialNavUsd && p.lendRelCapBps >= BPS
  }

  /** What the example needs of the portfolio: a funded book with its guard, an empty arm, some idle USDG. */
  ghost predicate SweepReady(p: Params, pf: Pf, env: Env) {
    WellFormed(pf, env) && pf.arm == Policies.NO_ARM && pf.mode == BooksMode && pf.idleNvda == 0.0
    && !pf.books[1 - pf.active].deployed && HasPositions(ActiveBook(pf)) && ActiveBook(pf).guardPresent
    && ActiveBook(pf).lastPull == -1
    && ActiveBook(pf).entryTick == env.tick && Nav(pf, env) == p.initialNavUsd
    && DUST_USD < pf.idleUsdg < p.initialNavUsd
  }

  lemma StartShape(p: Params, env: Env)
    requires p.policy == RiskOnly && env.sqrtP > 0.0
    ensures var pf := Initial(p, env);
      |pf.books| == 2 && ActiveBook(pf) == FullyOpened(BookTemplate(p, env))
      && pf.books[1 - pf.active] == BookTemplate(p, env)
      && pf.idleUsdg == Max(0.0, p.initialNavUsd - BookCapital(p)) && pf.idleNvda == 0.0
      && pf.arm == Policies.NO_ARM && pf.mode == BooksMode
  {
    hide BookTemplate, HodlBasket, FullyOpened;
  }

  lemma StartsSweepReady(p: Params, env: Env)
    requires NegativeReserve(p) && MarkedEnv(env)
    ensures SweepReady(p, Initial(p, env), env)
  {
    MarkedPrice(env.sqrtP, env.price);
    assert env.sqrtP > 0.0;
    hide Marked, Nav, LiquidityForValue, Sensible, Initial, BaseCapital, GuardCapital, BookValue;
    StartShape(p, env);
    StartIsSound(p, env);
    TemplateIsSound(p, env);
    DeployedHasPositions(FullyOpened(BookTemplate(p, env)));
  }

  /** The quiet hour itself leaves such a portfolio as it is. */
  lemma QuietHourEarnsNothing(p: Params, pf: Pf, tick: int)
    requires p.liquidationBonusBps >= 0.0 && |pf.books| == 2 && pf.arm == Policies.NO_ARM && pf.mode == BooksMode
    requires forall i: Slot :: !pf.books[i].deployed || pf.books[i].guardPresent
    ensures var h := HourAt(tick, QUIET_ROW);
      h.Valid() && Earned(p, pf, h, 0) == pf
  {
    hide SqrtAtTick, PriceFromTick, Marked, BookIncome, Accrue, Liquidate, Ok;
    HourIsValid(tick, QUIET_ROW);
    var h := HourAt(tick, QUIET_ROW);
    QuietRowDoesNothing(p, pf, 0, h.env, 0);
    QuietRowDoesNothing(p, pf, 1, h.env, 0);
    Policies.EmptyArmEarnsNothing(p, pf, h.env);
    assert BothIncomes(p, pf, h.env, h.rows, 0) == pf;
  }

  /** There is room to lend more than is idle. */
  lemma RoomForAll(p: Params, pf: Pf, env: Env)
    requires NegativeReserve(p) && SweepReady(p, pf, env)
    ensures LendRoom(p, pf, env) >= p.initialNavUsd > pf.idleUsdg
  {
    hide Nav, HasPositions, Sensible, SoundStart;
    WholeNavFits(p.lendRelCapBps, p.initialNavUsd);
  }

  lemma WholeNavFits(capBps: real, nav: real)
    requires capBps >= BPS && nav > 0.0
    ensures RelativeCap(capBps, nav) >= nav
  {
    MulLe(BPS, capBps, nav);
    DivLe(BPS * nav, capBps * nav, BPS);
  }

  lemma ReserveIsNegative(p: Params, pf: Pf, env: Env)
    requires NegativeReserve(p) && SweepReady(p, pf, env)
    ensures Reserve(p, pf, env) < 0.0
  {
    hide Nav, HasPositions, Sensible;
    MulPos(-p.inventoryReservePct, p.initialNavUsd);
  }

  /** So the sweep is decided, on either token, for more than there is of it. */
  lemma SweepsTooMuch(p: Params, pf: Pf, env: Env)
    requires NegativeReserve(p) && SweepReady(p, pf, env) && env.price > 0.0
    ensures Surplus(p, pf, env).Some? && !ExecutesInFull(p, pf, env, Surplus(p, pf, env).value)
  {
    RoomForAll(p, pf, env);
    ReserveIsNegative(p, pf, env);
    hide Reserve, LendRoom, CollateralRoom, BorrowRoom, Nav, HasPositions, Sensible, SoundStart;
    assert Surplus(p, pf, env).Some? && !Surplus(p, pf, env).value.BorrowUsdg?;
    SurplusExecutesInFull(p, pf, env);
  }

  /** A book at its entry tick is not re-centred. */
  lemma NothingToRecenter(p: Params, pf: Pf, tick: int)
    requires |pf.books| == 2 && ActiveBook(pf).entryTick == tick
    ensures Recenter(p, pf, Env(tick, SqrtAtTick(tick), PriceFromTick(tick))).None?
  {
    hide SqrtAtTick, PriceFromTick, HasPositions;
    MulDiv(1.0, PriceFromTick(tick));
    assert PriceFromTick(tick) / PriceFromTick(tick) == 1.0;
  }

  /** Nothing comes before the sweep in an hour without alarms. */
  lemma SweepComesNext(p: Params, pf: Pf, h: Hour)
    requires WellFormed(pf, h.env) && p.policy == RiskOnly && p.warmupHours <= 0 && pf.mode == BooksMode
    requires HasPositions(ActiveBook(pf)) && Surplus(p, pf, h.env).Some?
    requires !h.Paused() && h.MarkOf(pf.active).risk == Normal && !GuardAlarm(p, pf, h, 0)
    requires Sentinel(p, pf, h.env).None? && Recenter(p, pf, h.env).None?
    ensures Decide(p, pf, h, 0) == Surplus(p, pf, h.env).value
  {
    hide Surplus, Recenter, Sentinel, HasPositions, GuardAlarm;
  }

  lemma QuietHourHasNoAlarm(p: Params, pf: Pf, tick: int)
    requires |pf.books| == 2 && ActiveBook(pf).guardPresent && ActiveBook(pf).lastPull == -1 && p.maxGuardPulls >= 0
    ensures !GuardAlarm(p, pf, HourAt(tick, QUIET_ROW), 0)
  {
    hide SqrtAtTick, PriceFromTick;
  }

  lemma DecidesToSweep(p: Params, pf: Pf, tick: int)
    requires var h := HourAt(tick, QUIET_ROW);
      NegativeReserve(p) && SweepReady(p, pf, h.env) && Surplus(p, pf, h.env).Some?
    ensures var h := HourAt(tick, QUIET_ROW);
      Decide(p, pf, h, 0) == Surplus(p, pf, h.env).value
  {
    hide Surplus, Recenter, GuardAlarm, Decide, Nav, HasPositions, SqrtAtTick, PriceFromTick, Sensible, SoundStart;
    NothingToRecenter(p, pf, tick);
    QuietHourHasNoAlarm(p, pf, tick);
    SweepComesNext(p, pf, HourAt(tick, QUIET_ROW));
  }

  /**
   * The exception in a run, at every tick: a quiet first hour with the book open. The risk policy decides to
   * sweep, and the sweep is for more than the keeper has.
   */
  lemma SweepCanExceedTheBalance(p: Params, tick: int)
    requires NegativeReserve(p)
    ensures var h := HourAt(tick, QUIET_ROW);
      h.Valid() && h.env.sqrtP > 0.0
      && var pf := Earned(p, Run(p, [h], 0), h, 0);
      Ok(p, pf) && WellFormed(pf, h.env) && !ExecutesInFull(p, pf, h.env, Decide(p, pf, h, 0))
  {
    hide SqrtAtTick, PriceFromTick, Initial, Earned, Run, Decide, ExecutesInFull, Surplus, Ok;
    var h := HourAt(tick, QUIET_ROW);
    HourIsValid(tick, QUIET_ROW);
    MarkedPrice(h.env.sqrtP, h.env.price);
    StartsSweepReady(p, h.env);
    StartIsSound(p, h.env);
    OneHourRun(p, h);
    var pf := Initial(p, h.env);
    QuietHourEarnsNothing(p, pf, tick);
    hide HourAt, SweepReady, NegativeReserve, Marked;
    SweepsTooMuch(p, pf, h.env);
    DecidesToSweep(p, pf, tick);
  }

  lemma OtherActions(p: Params, pf: Pf, env: Env, a: Action)
    requires WellFormed(pf, env) && !a.AllocateUsdg? && !a.AllocateNvda? && !a.BorrowUsdg? && !a.Repay?
    ensures ExecutesInFull(p, pf, env, a)
  {
  }

  lemma RiskDecisionsExecuteInFull(p: Params, pf: Pf, h: Hour, step: int)
    requires WellFormed(pf, h.env)
    ensures var a := DecideByRisk(p, pf, h, step); ExecutesInFull(p, pf, h.env, a) <==> !OverSweeps(p, pf, h.env, a)
  {
    DeployExecutesInFull(p, pf, h.env);
    ReturnExecutesInFull(p, pf, h.env);
    if Sentinel(p, pf, h.env).Some? { SentinelExecutesInFull(p, pf, h.env); }
    if Surplus(p, pf, h.env).Some? { SurplusExecutesInFull(p, pf, h.env); }
    var a := DecideByRisk(p, pf, h, step);
    if a.SwitchBook? || a.RecallBook? || a.RecenterBook? || a.Hold? { OtherActions(p, pf, h.env, a); }
    SideActionsNeverFund(p, pf, h.env);
    OnlySurplusOverSweeps(p, pf, h.env, a);
    hide ExecutesInFull, OverSweeps, DeployToArms, Sentinel, Recenter, Surplus, ReturnToBooks, GuardAlarm, HasPositions;
  }

  lemma AllocatorDecisionsExecuteInFull(p: Params, pf: Pf, h: Hour, step: int)
    requires WellFormed(pf, h.env)
    ensures ExecutesInFull(p, pf, h.env, DecideAllocator(p, pf, h, step))
  {
    DeployExecutesInFull(p, pf, h.env);
    ReturnExecutesInFull(p, pf, h.env);
    if Sentinel(p, pf, h.env).Some? { SentinelExecutesInFull(p, pf, h.env); }
    var a := DecideAllocator(p, pf, h, step);
    if a.SwitchBook? || a.RecallBook? || a.RecenterBook? || a.Hold? { OtherActions(p, pf, h.env, a); }
    SideActionsNeverFund(p, pf, h.env);
    hide ExecutesInFull, DeployToArms, Sentinel, Recenter, ReturnToBooks, DecidePoolSwitch, GuardAlarm, HasPositions;
  }

  lemma OnlySurplusOverSweeps(p: Params, pf: Pf, env: Env, a: Action)
    requires WellFormed(pf, env)
    ensures Surplus(p, pf, env) != Some(a) ==> !OverSweeps(p, pf, env, a)
    ensures Surplus(p, pf, env) == Some(a) ==> (ExecutesInFull(p, pf, env, a) <==> !OverSweeps(p, pf, env, a))
  {
    if Surplus(p, pf, env).Some? { SurplusExecutesInFull(p, pf, env); }
    hide ExecutesInFull, Surplus;
  }

  /**
   * Whatever the policy decides to allocate, borrow or repay, the executor moves exactly that amount and
   * never degrades it to HOLD: the two re-checks of the caps cannot disagree. The one exception, exactly, is a
   * surplus sweep under a negative reserve with more room than balance; a reserve of zero or more rules it out.
   */
  lemma DecisionsExecuteInFull(p: Params, pf: Pf, h: Hour, step: int)
    requires WellFormed(pf, h.env)
    ensures var a := Decide(p, pf, h, step); ExecutesInFull(p, pf, h.env, a) <==> !OverSweeps(p, pf, h.env, a)
    ensures p.inventoryReserveUsd >= 0.0 ==> ExecutesInFull(p, pf, h.env, Decide(p, pf, h, step))
  {
    DeployExecutesInFull(p, pf, h.env);
    RiskDecisionsExecuteInFull(p, pf, h, step);
    AllocatorDecisionsExecuteInFull(p, pf, h, step);
    var a := Decide(p, pf, h, step);
    if a.SwitchBook? || a.FundBook? || a.Hold? { OtherActions(p, pf, h.env, a); }
    OnlySurplusOverSweeps(p, pf, h.env, a);
    PositiveReserve(p, pf, h.env, a);
    hide ExecutesInFull, OverSweeps, DeployToArms, DecideByRisk, DecideAllocator, HasPositions, Surplus;
  }

  lemma PositiveReserve(p: Params, pf: Pf, env: Env, a: Action)
    requires WellFormed(pf, env)
    ensures p.inventoryReserveUsd >= 0.0 ==> !OverSweeps(p, pf, env, a)
  {
    hide Surplus, Nav;
  }
}
