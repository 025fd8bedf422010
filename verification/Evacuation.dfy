/** A standing alarm empties the books: over HIGH hours at one mark, within so many acting steps as fuel allows. */
module Evacuation {
  import opened RealMath
  import opened Lp
  import opened State
  import opened Fees
  import opened Moves
  import opened Invariant
  import opened Income
  import opened Planner
  import opened Decision
  import opened Executor
  import opened Safety
  import opened Simulation
  import opened OneWayDoor
  import opened Retreat
  import opened Reopening
  import opened ReturnPath
  import opened Alarms
  import opened Liquidating
  import BookHour
  import SwapToFund
  import QuietHours

  // ----- What the entry actions live on -----

  /** The loan-to-value the operator, the market and the hard cap all allow. */
  function LtvShare(p: Params): (k: real)
    ensures k >= 0.0
  {
    AllowedLtvBps(p.ltvBps, p.maxLtvBps, p.hardCapBps) / BPS
  }

  /** Borrowing is below par, and leaves the arm at the sentinel's floor and above the liquidation line. */
  ghost predicate SoundLtv(p: Params) {
    LtvShare(p) < 1.0 && Max(1.0, p.minHealthFactor) * LtvShare(p) <= p.lltv
    && (p.sentinelEnabled ==> p.armBorrowApr * BPS <= p.maxBorrowAprBps)
  }

  /** No debt to speak of, or one that neither the sentinel nor a liquidator touches. */
  ghost predicate SoundArm(p: Params, arm: Arm, price: real) {
    arm.debt <= 1.0 || Max(1.0, p.minHealthFactor) * arm.debt <= p.lltv * Usd(arm.nvda, price)
  }

  /** The active book's guard, at the mark. */
  function GuardWorth(b: Book, s: real): real
    requires s > 0.0
  {
    SleeveValue(GuardInPlace(b), s, b.guardLo, b.guardHi)
  }

  /** What can still be moved to the arm before the recall: the idle tokens and the guard, above the slack. */
  function Fuel(p: Params, pf: Pf, env: Env): real
    requires WellFormed(pf, env)
  {
    pf.idleUsdg + p.swapSlack + Usd(pf.idleNvda + p.swapSlack, env.price) + GuardWorth(ActiveBook(pf), env.sqrtP)
  }

  lemma FuelNonneg(p: Params, pf: Pf, env: Env)
    requires Sensible(p) && Ok(p, pf) && MarkedEnv(env)
    ensures env.sqrtP > 0.0 && env.price > 0.0 && Fuel(p, pf, env) >= 0.0
  {
    MarkedPrice(env.sqrtP, env.price);
    UsdNonneg(pf.idleNvda + p.swapSlack, env.price);
    var b := ActiveBook(pf);
    GuardWorthNonneg(b, env);
    hide Usd, GuardWorth, BookOk;
  }

  lemma GuardWorthNonneg(b: Book, env: Env)
    requires MarkedEnv(env) && env.price > 0.0
    ensures GuardWorth(b, env.sqrtP) >= 0.0
  {
    var l, s := GuardInPlace(b), env.sqrtP;
    if l > 0.0 {
      TokensAreTheValue(l, s, env.price, b.guardLo, b.guardHi);
      TokensNonneg(l, s, b.guardLo, b.guardHi);
      UsdNonneg(TokenNvda(l, s, b.guardLo, b.guardHi), env.price);
      hide PositionValue, TokenUsdg, TokenNvda, Usd;
    }
  }

  // ----- The hour's income -----

  /** While it is open, a book's worth is its fees, its base and its guard; the rest of the NAV is idle or in the arm. */
  lemma NavHasFuel(p: Params, pf: Pf, i: Slot, env: Env)
    requires WellFormed(pf, env) && pf.active == i && pf.books[i].deployed
    ensures var b := pf.books[i];
      Nav(pf, env) == Fuel(p, pf, env) - p.swapSlack - Usd(p.swapSlack, env.price) + b.fees
        + SleeveValue(b.baseL, env.sqrtP, b.baseLo, b.baseHi) + BookValue(pf.books[1 - i], env.sqrtP)
        + ArmEquity(pf.arm, env.price)
  {
    UsdAdds(pf.idleNvda, p.swapSlack, env.price);
    hide SleeveValue, Usd, ArmEquity;
  }

  /** What changed neither fees, base, other slot nor arm, and did not raise the NAV, did not raise the fuel. */
  lemma NoMoreFuel(p: Params, pf: Pf, r: Pf, i: Slot, env: Env)
    requires WellFormed(pf, env) && pf.active == i && pf.books[i].deployed
    requires |r.books| == 2 && r.active == i && r.books[i].deployed && r.arm == pf.arm
    requires r.books[1 - i] == pf.books[1 - i] && r.books[i].fees == pf.books[i].fees
    requires r.books[i].baseL == pf.books[i].baseL && r.books[i].baseLo == pf.books[i].baseLo
    requires r.books[i].baseHi == pf.books[i].baseHi && Nav(r, env) <= Nav(pf, env)
    ensures Fuel(p, r, env) <= Fuel(p, pf, env)
  {
    hide Nav, Fuel, SleeveValue, BookValue, ArmEquity, Usd;
    NavHasFuel(p, pf, i, env);
    NavHasFuel(p, r, i, env);
  }

  lemma RearmBurns(p: Params, pf: Pf, i: Slot, env: Env, gates: Gates, step: int)
    requires |pf.books| == 2 && MarkedEnv(env) && pf.active == i && pf.books[i].deployed
    ensures env.sqrtP > 0.0
    ensures var r := RearmGuard(p, pf, i, env, gates, step);
      |r.books| == 2 && r.active == i && Fuel(p, r, env) <= Fuel(p, pf, env)
  {
    assert env.sqrtP > 0.0;
    RearmIsBooked(p, pf, i, env, gates, step);
    RearmMoves(p, pf, i, env, gates, step);
    hide RearmGuard, Nav, Fuel;
    NoMoreFuel(p, pf, RearmGuard(p, pf, i, env, gates, step), i, env);
  }

  lemma RearmMoves(p: Params, pf: Pf, i: Slot, env: Env, gates: Gates, step: int)
    requires |pf.books| == 2 && MarkedEnv(env) && pf.books[i].deployed
    ensures var b, r := pf.books[i], RearmGuard(p, pf, i, env, gates, step);
      |r.books| == 2 && r.active == pf.active && r.arm == pf.arm && r.books[1 - i] == pf.books[1 - i]
      && r.books[i] == b.(guardL := r.books[i].guardL, guardLo := r.books[i].guardLo, guardHi := r.books[i].guardHi,
                          guardPresent := r.books[i].guardPresent, lastPull := r.books[i].lastPull)
      && r.cum.swapCost >= pf.cum.swapCost
  {
    assert env.sqrtP > 0.0;
    var lo, hi := env.tick - p.guardWidthTicks, env.tick + p.guardWidthTicks;
    SwapIsBooked(pf, TokenUsdg(RearmTarget(pf.books[i]), env.sqrtP, lo, hi),
                 TokenNvda(RearmTarget(pf.books[i]), env.sqrtP, lo, hi), env, p.swapCostBps, p.swapSlack);
    hide TokenUsdg, TokenNvda, SwapDeficit, ScaleWithin, RearmTarget, Part, RearmDue, Nav;
  }

  lemma CreditKeepsFuel(p: Params, pf: Pf, i: Slot, fee: HourFee, env: Env)
    requires WellFormed(pf, env) && pf.active == i
    ensures var r := CreditFees(pf, i, fee); Fuel(p, r, env) == Fuel(p, pf, env) && r.active == i && r.arm == pf.arm
  {
    hide SleeveValue, Usd;
  }

  lemma PullKeepsFuel(p: Params, pf: Pf, i: Slot, env: Env, step: int)
    requires |pf.books| == 2 && MarkedEnv(env) && pf.active == i
    requires pf.books[i].deployed && pf.books[i].guardPresent && pf.books[i].guardL > 0.0
    ensures env.sqrtP > 0.0
    ensures var r := PullGuard(pf, i, env.sqrtP, step);
      |r.books| == 2 && r.active == i && r.books[i].deployed && Fuel(p, r, env) <= Fuel(p, pf, env)
  {
    assert env.sqrtP > 0.0;
    PullConserves(pf, i, env, step);
    hide Nav, Fuel, TokenUsdg, TokenNvda;
    NoMoreFuel(p, pf, PullGuard(pf, i, env.sqrtP, step), i, env);
  }

  /** An hour's income never adds fuel: fees stay in the book, pulls and re-arms move tokens at their worth or less. */
  lemma BookIncomeBurns(p: Params, pf: Pf, i: Slot, env: Env, row: BookRow, gates: Gates, step: int)
    requires |pf.books| == 2 && MarkedEnv(env) && row.minutes.Valid() && pf.active == i && pf.books[i].deployed
    ensures env.sqrtP > 0.0
    ensures var r := BookIncome(p, pf, i, env, row, gates, step);
      |r.books| == 2 && r.active == i && Fuel(p, r, env) <= Fuel(p, pf, env)
  {
    assert env.sqrtP > 0.0;
    var b := pf.books[i];
    var pulled := if GuardPulled(p, b, row, gates) then PullGuard(pf, i, env.sqrtP, step) else pf;
    if GuardPulled(p, b, row, gates) { PullKeepsFuel(p, pf, i, env, step); }
    var fee := HourlyFee(p, i, b, row, gates);
    hide Fuel, HourlyFee, GuardPulled, PullGuard, RearmGuard;
    CreditKeepsFuel(p, pulled, i, fee, env);
    RearmBurns(p, CreditFees(pulled, i, fee), i, env, gates, step);
  }

  lemma SoundIsHealthy(p: Params, arm: Arm, env: Env)
    requires MarkedEnv(env) && ArmOk(arm) && SoundArm(p, arm, env.price)
    ensures !Liquidatable(p, arm, env.price)
  {
    MarkedPrice(env.sqrtP, env.price);
    UnderwaterIsLiquidatable(p, arm, env.price);
    if arm.debt > 1.0 { MulLe(1.0, Max(1.0, p.minHealthFactor), arm.debt); }
    hide Usd, Liquidatable;
  }

  lemma SoundKeepsSentinelQuiet(p: Params, pf: Pf, env: Env)
    requires SoundLtv(p) && SoundArm(p, pf.arm, env.price)
    ensures Sentinel(p, pf, env).None?
  {
    hide Usd, Part;
    if pf.arm.debt > 1.0 {
      MulLe(p.minHealthFactor, Max(1.0, p.minHealthFactor), pf.arm.debt);
      DivCompare(p.minHealthFactor, 1.0, p.lltv * Usd(pf.arm.nvda, env.price), pf.arm.debt);
      assert HealthFactor(p, pf.arm, env.price) >= p.minHealthFactor;
    }
    hide HealthFactor;
  }

  /** The income half of an hour without rates: shape, slot and arm as they were, and no more fuel than before. */
  lemma EarnedBurns(p: Params, pf: Pf, h: Hour, step: int)
    requires Sensible(p) && NoRates(p) && Ok(p, pf) && h.Valid() && ActiveBook(pf).deployed
    requires SoundArm(p, pf.arm, h.env.price)
    ensures h.env.sqrtP > 0.0
    ensures var e := Earned(p, pf, h, step);
      Ok(p, e) && |e.books| == 2 && e.active == pf.active && ActiveBook(e).deployed
      && e.arm == pf.arm && e.mode == ModeOf(pf.arm)
      && Fuel(p, e, h.env) <= Fuel(p, pf, h.env)
  {
    assert h.env.sqrtP > 0.0;
    hide BookIncome, BothIncomes, Fuel, BookOk, SoundArm, Marked, MarkedEnv, Liquidate, Accrue;
    BothIncomesKeepOk(p, pf, h.env, h.rows, step);
    BookHour.OnlyTheActiveEarns(p, pf, h.env, h.rows, step);
    BookIncomeBurns(p, pf, pf.active, h.env, if pf.active == 0 then h.rows.a else h.rows.b,
                    if pf.active == 0 then h.rows.gatesA else h.rows.gatesB, step);
    NoRatesNoAccrual(p, BothIncomes(p, pf, h.env, h.rows, step), h.env.price);
    HealthyIsLeft(p, BothIncomes(p, pf, h.env, h.rows, step), h.env);
    ModeIsNoFuel(p, BothIncomes(p, pf, h.env, h.rows, step), h.env);
  }

  lemma HealthyIsLeft(p: Params, pf: Pf, env: Env)
    requires Sensible(p) && Ok(p, pf) && MarkedEnv(env) && SoundArm(p, pf.arm, env.price)
    ensures env.sqrtP > 0.0 && Liquidate(p, pf, env) == pf
  {
    SoundIsHealthy(p, pf.arm, env);
    hide Liquidatable, SoundArm, BookOk;
  }

  lemma ModeIsNoFuel(p: Params, pf: Pf, env: Env)
    requires WellFormed(pf, env)
    ensures Fuel(p, pf.(mode := ModeOf(pf.arm)), env) == Fuel(p, pf, env)
  {
    hide GuardWorth, Usd;
  }

  /**
   * The hour's interest comes before its liquidation: whatever it was before, after the income half of an hour no arm
   * is underwater.
   */
  lemma HourLeavesNoArmUnderwater(p: Params, pf: Pf, h: Hour, step: int)
    requires Sensible(p) && Ok(p, pf) && h.Valid()
    ensures !Underwater(p, Earned(p, pf, h, step).arm, h.env.price)
  {
    MarkedPrice(h.env.sqrtP, h.env.price);
    hide BothIncomes, Accrue, Liquidate, Ok, Marked;
    BothIncomesKeepOk(p, pf, h.env, h.rows, step);
    var both := BothIncomes(p, pf, h.env, h.rows, step);
    AccrualKeepsOk(p, both, h.env);
    var accrued := Accrue(p, both, h.env.price);
    ArmOfOk(p, accrued);
    LiquidationTakes(p, accrued, h.env);
  }

  lemma ArmOfOk(p: Params, pf: Pf)
    requires Ok(p, pf)
    ensures |pf.books| == 2 && pf.arm.nvda >= 0.0 && pf.arm.lent >= 0.0 && ArmOk(pf.arm)
  {
    hide BookOk;
  }

  /** The active slot after an hour's income is what its own row left of it. */
  lemma EarnedSlot(p: Params, pf: Pf, h: Hour, step: int)
    requires Sensible(p) && Ok(p, pf) && h.Valid()
    ensures var e, i := Earned(p, pf, h, step), pf.active;
      var one := BookIncome(p, pf, i, h.env, if i == 0 then h.rows.a else h.rows.b,
                            if i == 0 then h.rows.gatesA else h.rows.gatesB, step);
      |e.books| == 2 && |one.books| == 2 && e.active == i && e.books[i] == one.books[i]
  {
    hide BookIncome, BothIncomes, Liquidate, BookOk, Marked;
    BookHour.OnlyTheActiveEarns(p, pf, h.env, h.rows, step);
    BothIncomesKeepOk(p, pf, h.env, h.rows, step);
    var accrued := Accrue(p, BothIncomes(p, pf, h.env, h.rows, step), h.env.price);
    AccrualKeepsOk(p, BothIncomes(p, pf, h.env, h.rows, step), h.env);
    LiquidationKeepsOk(p, accrued, h.env);
    hide Accrue;
  }

  lemma PulledIsGone(p: Params, pf: Pf, i: Slot, env: Env, row: BookRow, gates: Gates, step: int, k: nat)
    requires |pf.books| == 2 && row.minutes.Valid() && pf.books[i].deployed && BookOk(pf.books[i])
    requires BookHour.PullIs(p, pf.books[i], row, gates, Some(k)) && p.guardRearmDelayHours != 0
    ensures var r := BookIncome(p, pf, i, env, row, gates, step);
      |r.books| == 2 && !r.books[i].guardPresent && r.books[i].lastPull == step
  {
    var b := pf.books[i];
    var want := RearmTarget(b);
    assert BookHour.IsRearmTarget(b, want) by {
      var q := b.baseL / b.targetBaseL;
      assert q * b.targetBaseL == b.baseL;
      assert b.targetGuardL * q * b.targetBaseL == b.targetGuardL * (q * b.targetBaseL);
    }
    hide BookIncome, RearmTarget, BookOk, BookHour.PullIs, BookHour.IsRearmTarget, BookHour.CanPay, BookHour.BackInPlace;
    BookHour.GuardOfTheHour(p, pf, i, env, row, gates, step, Some(k), want);
  }

  /**
   * A pull and the alarm it raises are one hour's business: when the active book's guard is pulled and may not be back
   * the same hour, a keeper that acts, unpaused and with nothing to repay first, leaves the book in that very step.
   */
  lemma PulledGuardLeavesAtOnce(p: Params, pf: Pf, h: Hour, step: int, k: nat)
    requires Listens(p, step) && !h.Paused() && Sensible(p) && Ok(p, pf) && h.Valid() && ActiveBook(pf).deployed
    requires p.guardRearmDelayHours != 0
    requires BookHour.PullIs(p, ActiveBook(pf), if pf.active == 0 then h.rows.a else h.rows.b,
                             if pf.active == 0 then h.rows.gatesA else h.rows.gatesB, Some(k))
    requires Sentinel(p, Earned(p, pf, h, step), h.env).None? && !HomeIsOpen(p, Earned(p, pf, h, step), h)
    ensures var e := Earned(p, pf, h, step);
      WellFormed(e, h.env)
      && var a := Decide(p, e, h, step);
      Leaves(p, e, h.env, a) && !a.Hold? && Step(p, pf, h, step) == Execute(p, e, h.env, a)
  {
    hide Earned, Decide, Execute, Sentinel, Leaves, BookOk, BookIncome, HasPositions, BookHour.PullIs, HomeIsOpen, Marked;
    var e := Earned(p, pf, h, step);
    MarkedPrice(h.env.sqrtP, h.env.price);
    EarnedSlot(p, pf, h, step);
    EarnedStaysOpen(p, pf, h, step);
    PulledIsGone(p, pf, pf.active, h.env, if pf.active == 0 then h.rows.a else h.rows.b,
                 if pf.active == 0 then h.rows.gatesA else h.rows.gatesB, step, k);
    assert Alarmed(p, e, h, step);
    hide Alarmed;
    AlarmLeavesTheBooks(p, e, h, step);
  }

  lemma EarnedStaysOpen(p: Params, pf: Pf, h: Hour, step: int)
    requires Sensible(p) && Ok(p, pf) && h.Valid() && ActiveBook(pf).deployed
    ensures var e := Earned(p, pf, h, step);
      Ok(p, e) && WellFormed(e, h.env) && ArmOk(e.arm) && e.active == pf.active && HasPositions(ActiveBook(e))
  {
    hide HourIncome, BookOk, HasPositions;
    IncomeKeepsOk(p, pf, h.env, h.rows, step);
    assert h.env.sqrtP > 0.0;
    DeployedHasPositions(ActiveBook(Earned(p, pf, h, step)));
  }

  // ----- The energy of a retreat -----

  /** What so much is worth below par. */
  function Below(k: real, x: real): real { (1.0 - k) * x }

  /**
   * What a retreat has left to do, as one number: the fuel, and twice what could still be borrowed if all of it were
   * collateral. With a loan-to-value below par every entry action lowers it, a borrow by less than it adds to the fuel.
   */
  function Energy(k: real, fuel: real, collateral: real, debt: real): real {
    (1.0 - k) * fuel + 2.0 * Max(0.0, k * (collateral + fuel) - debt)
  }

  lemma EnergyNonneg(k: real, fuel: real, collateral: real, debt: real)
    requires 0.0 <= k < 1.0 && fuel >= 0.0
    ensures Energy(k, fuel, collateral, debt) >= 0.0
  {
    MulNonneg(1.0 - k, fuel);
  }

  lemma LessFuelLessEnergy(k: real, fuel: real, less: real, collateral: real, debt: real)
    requires 0.0 <= k < 1.0 && less <= fuel
    ensures Energy(k, less, collateral, debt) <= Energy(k, fuel, collateral, debt)
    ensures Energy(k, less, collateral, debt) <= Energy(k, fuel, collateral, debt) - Below(k, fuel - less)
    ensures Below(k, fuel - less) >= 0.0
  {
    MulNonneg(k, fuel - less);
    MulNonneg(1.0 - k, fuel - less);
    assert k * (collateral + less) == k * (collateral + fuel) - k * (fuel - less);
    assert (1.0 - k) * less == (1.0 - k) * fuel - (1.0 - k) * (fuel - less);
  }

  lemma PledgeLowersEnergy(k: real, fuel: real, collateral: real, debt: real, v: real)
    requires 0.0 <= k < 1.0
    ensures Energy(k, fuel - v, collateral + v, debt) == Energy(k, fuel, collateral, debt) - Below(k, v)
  {
    assert collateral + v + (fuel - v) == collateral + fuel;
  }

  lemma BorrowLowersEnergy(k: real, fuel: real, collateral: real, debt: real, x: real)
    requires 0.0 <= k < 1.0 && fuel >= 0.0 && 0.0 < x && debt + x <= Part(collateral, k)
    ensures Energy(k, fuel + x, collateral, debt + x) == Energy(k, fuel, collateral, debt) - Below(k, x)
  {
    MulNonneg(k, fuel);
    MulNonneg(k, x);
    assert k * (collateral + fuel) == k * collateral + k * fuel;
    assert k * (collateral + (fuel + x)) == k * collateral + k * fuel + k * x;
  }

  // ----- One hour -----

  function EnergyOf(p: Params, pf: Pf, env: Env): real
    requires WellFormed(pf, env)
  {
    Energy(LtvShare(p), Fuel(p, pf, env), Usd(pf.arm.nvda, env.price), pf.arm.debt)
  }

  /** What every acting hour takes at least: the dust of a loan or of a pledge. */
  function Drop(p: Params, env: Env): real { Below(LtvShare(p), Min(1.0, Usd(0.001, env.price))) }

  /** Still in the book: in shape, with the active book open and a sound arm. */
  ghost predicate StillIn(p: Params, pf: Pf, i: Slot, env: Env) {
    Ok(p, pf) && WellFormed(pf, env) && pf.active == i && ActiveBook(pf).deployed && SoundArm(p, pf.arm, env.price)
  }

  /** Either out of the books, or still in with at least so much less energy. */
  ghost predicate Onwards(p: Params, pf: Pf, r: Pf, i: Slot, env: Env, drop: real)
    requires WellFormed(pf, env)
  {
    |r.books| == 2
    && (NoBookOpen(r) || (StillIn(p, r, i, env) && EnergyOf(p, r, env) <= EnergyOf(p, pf, env) - drop))
  }

  /** What settling leaves of a move that did not touch the books: the slots, but for fees that paid gas. */
  lemma SettledMove(p: Params, moved: Pf, env: Env)
    requires WellFormed(moved, env)
    ensures var r := Settle(p, Applied(moved, true));
      |r.books| == 2 && r.active == moved.active && r.arm == moved.arm.(lent := r.arm.lent)
      && (ActiveBook(r).deployed <==> ActiveBook(moved).deployed) && Fuel(p, r, env) <= Fuel(p, moved, env)
  {
    GasKeepsDeployment(moved, p.gasCostUsd);
    SettlingKeepsLeverage(p, Applied(moved, true));
    hide PayGas, Usd, SleeveValue;
  }

  lemma BelowOrders(k: real, x: real, y: real)
    requires k < 1.0 && x <= y
    ensures Below(k, x) <= Below(k, y)
  {
    MulLe(x, y, 1.0 - k);
    assert (1.0 - k) * x == x * (1.0 - k) && (1.0 - k) * y == y * (1.0 - k);
  }

  lemma FuelOfMoves(p: Params, pf: Pf, env: Env, x: real, y: real)
    requires WellFormed(pf, env)
    ensures Fuel(p, Lent(pf, x), env) == Fuel(p, pf, env) - x
    ensures Fuel(p, Borrowed(pf, x), env) == Fuel(p, pf, env) + x
    ensures Fuel(p, Pledged(pf, y), env) == Fuel(p, pf, env) - Usd(y, env.price)
    ensures Usd(Pledged(pf, y).arm.nvda, env.price) == Usd(pf.arm.nvda, env.price) + Usd(y, env.price)
  {
    UsdAdds(pf.idleNvda + p.swapSlack, y, env.price);
    UsdAdds(pf.arm.nvda, y, env.price);
    assert pf.idleNvda - y + p.swapSlack == pf.idleNvda + p.swapSlack - y;
    hide Usd, SleeveValue;
  }

  /** The portfolio of a settled entry action: the arm's own move, and nothing else but gas. */
  ghost predicate EntryLeft(p: Params, pf: Pf, moved: Pf, r: Pf, env: Env, drop: real)
    requires WellFormed(pf, env)
  {
    |r.books| == 2 && r.active == pf.active && (ActiveBook(r).deployed <==> ActiveBook(pf).deployed)
    && r.arm == moved.arm.(lent := r.arm.lent) && EnergyOf(p, r, env) <= EnergyOf(p, pf, env) - drop
  }

  lemma LendStep(p: Params, pf: Pf, env: Env, x: real)
    requires WellFormed(pf, env) && SoundLtv(p) && x > 1.0
    ensures var moved := Lent(pf, x);
      EntryLeft(p, pf, moved, Settle(p, Applied(moved, true)), env, Below(LtvShare(p), x))
  {
    var k, moved := LtvShare(p), Lent(pf, x);
    var r := Settle(p, Applied(moved, true));
    hide Settle, Fuel, Energy, Usd, LtvShare, Below;
    SettledMove(p, moved, env);
    FuelOfMoves(p, pf, env, x, 0.0);
    LessFuelLessEnergy(k, Fuel(p, pf, env), Fuel(p, r, env), Usd(pf.arm.nvda, env.price), pf.arm.debt);
    BelowOrders(k, x, Fuel(p, pf, env) - Fuel(p, r, env));
  }

  lemma PledgeStep(p: Params, pf: Pf, env: Env, y: real)
    requires WellFormed(pf, env) && SoundLtv(p)
    ensures var moved := Pledged(pf, y);
      EntryLeft(p, pf, moved, Settle(p, Applied(moved, true)), env, Below(LtvShare(p), Usd(y, env.price)))
  {
    var k, moved := LtvShare(p), Pledged(pf, y);
    var r, cv := Settle(p, Applied(moved, true)), Usd(pf.arm.nvda, env.price);
    hide Settle, Fuel, Energy, Usd, LtvShare, Below;
    SettledMove(p, moved, env);
    FuelOfMoves(p, pf, env, 0.0, y);
    PledgeLowersEnergy(k, Fuel(p, pf, env), cv, pf.arm.debt, Usd(y, env.price));
    LessFuelLessEnergy(k, Fuel(p, moved, env), Fuel(p, r, env), Usd(moved.arm.nvda, env.price), pf.arm.debt);
  }

  lemma BorrowStep(p: Params, pf: Pf, env: Env, x: real)
    requires WellFormed(pf, env) && SoundLtv(p) && Fuel(p, pf, env) >= 0.0
    requires x > 1.0 && pf.arm.debt + x <= Part(Usd(pf.arm.nvda, env.price), LtvShare(p))
    ensures var moved := Borrowed(pf, x);
      EntryLeft(p, pf, moved, Settle(p, Applied(moved, true)), env, Below(LtvShare(p), x))
  {
    var k, moved := LtvShare(p), Borrowed(pf, x);
    var r, cv := Settle(p, Applied(moved, true)), Usd(pf.arm.nvda, env.price);
    hide Settle, Fuel, Energy, Usd, LtvShare, Below, Part;
    SettledMove(p, moved, env);
    FuelOfMoves(p, pf, env, x, 0.0);
    BorrowLowersEnergy(k, Fuel(p, pf, env), cv, pf.arm.debt, x);
    LessFuelLessEnergy(k, Fuel(p, moved, env), Fuel(p, r, env), cv, moved.arm.debt);
  }

  lemma MoreCollateralIsSound(p: Params, arm: Arm, y: real, price: real)
    requires SoundLtv(p) && SoundArm(p, arm, price) && y >= 0.0 && price > 0.0
    ensures p.lltv >= 0.0
    ensures SoundArm(p, arm.(nvda := arm.nvda + y), price)
  {
    UsdAdds(arm.nvda, y, price);
    UsdNonneg(y, price);
    MulNonneg(Max(1.0, p.minHealthFactor), LtvShare(p));
    MulLe(Usd(arm.nvda, price), Usd(arm.nvda + y, price), p.lltv);
    hide Usd, LtvShare;
  }

  lemma BorrowedIsSound(p: Params, arm: Arm, x: real, price: real)
    requires SoundLtv(p) && Usd(arm.nvda, price) >= 0.0 && arm.debt + x <= Part(Usd(arm.nvda, price), LtvShare(p))
    ensures SoundArm(p, arm.(debt := arm.debt + x), price)
  {
    var m, k, cv := Max(1.0, p.minHealthFactor), LtvShare(p), Usd(arm.nvda, price);
    assert m >= 1.0;
    hide LtvShare, Usd, Max;
    MulLe(arm.debt + x, cv * k, m);
    MulLe(m * k, p.lltv, cv);
    assert m * (arm.debt + x) == (arm.debt + x) * m;
    assert cv * k * m == m * k * cv;
  }

  lemma LentIsNoMatter(p: Params, arm: Arm, lent: real, price: real)
    requires SoundArm(p, arm, price)
    ensures SoundArm(p, arm.(lent := lent), price)
  {
  }

  /** A settled entry action that kept the shape and the arm sound goes on with its drop. */
  lemma EntryIsOnward(p: Params, pf: Pf, moved: Pf, r: Pf, i: Slot, env: Env, drop: real)
    requires StillIn(p, pf, i, env) && Ok(p, r) && EntryLeft(p, pf, moved, r, env, drop)
    requires SoundArm(p, moved.arm, env.price) && Drop(p, env) <= drop
    ensures Onwards(p, pf, r, i, env, Drop(p, env))
  {
    hide BookOk, EnergyOf, Drop, Usd;
  }

  /** While a book is open every entry action either recalls it or takes its drop of energy. */
  lemma EntryGoesOn(p: Params, pf: Pf, i: Slot, env: Env)
    requires Sensible(p) && SoundLtv(p) && MarkedEnv(env) && StillIn(p, pf, i, env)
    ensures Onwards(p, pf, Execute(p, pf, env, DeployToArms(p, pf, env)), i, env, Drop(p, env))
  {
    hide DeployToArms, HasPositions, BookOk, Settle, Apply, Fuel, Usd, Below, LtvShare, EnergyOf, SoundArm, BorrowSize;
    hide EntryLeft, Onwards, SoundLtv, Marked;
    var a, k, dust := DeployToArms(p, pf, env), LtvShare(p), Min(1.0, Usd(0.001, env.price));
    EntryMoves(p, pf, env);
    DeployedHasPositions(ActiveBook(pf));
    DeployNeverFunds(p, pf, env);
    ExecutionKeepsOk(p, pf, env, a);
    FuelNonneg(p, pf, env);
    UsdNonneg(pf.arm.nvda, env.price);
    BelowPar(p);
    var r := Execute(p, pf, env, a);
    match a
    case AllocateUsdg(x) =>
      LendStep(p, pf, env, x);
      BelowOrders(k, dust, x);
      LentIsNoMatter(p, pf.arm, pf.arm.lent + x, env.price);
      EntryIsOnward(p, pf, Lent(pf, x), r, i, env, Below(k, x));
    case AllocateNvda(y) =>
      PledgeStep(p, pf, env, y);
      MoreCollateralIsSound(p, pf.arm, y, env.price);
      SwapToFund.UsdOrders(0.001, y, env.price);
      BelowOrders(k, dust, Usd(y, env.price));
      EntryIsOnward(p, pf, Pledged(pf, y), r, i, env, Below(k, Usd(y, env.price)));
    case BorrowUsdg(x) =>
      TargetIsShare(p, pf, env);
      BorrowStep(p, pf, env, x);
      BorrowedIsSound(p, pf.arm, x, env.price);
      BelowOrders(k, dust, x);
      EntryIsOnward(p, pf, Borrowed(pf, x), r, i, env, Below(k, x));
    case RecallBook =>
      RecallCloses(p, pf, env);
      OutIsOnward(p, pf, r, i, env);
    case _ =>
  }

  lemma BelowPar(p: Params)
    requires SoundLtv(p)
    ensures 0.0 <= LtvShare(p) < 1.0
  {
  }

  lemma OutIsOnward(p: Params, pf: Pf, r: Pf, i: Slot, env: Env)
    requires WellFormed(pf, env) && |r.books| == 2 && NoBookOpen(r)
    ensures Onwards(p, pf, r, i, env, Drop(p, env))
  {
  }

  lemma TargetIsShare(p: Params, pf: Pf, env: Env)
    ensures DebtTarget(p, pf, env) == Part(Usd(pf.arm.nvda, env.price), LtvShare(p))
  {
  }

  /** An hour that sends a keeper in slot i out: for always_arms any; else paused, or HIGH with no way home. */
  ghost predicate SendsOut(p: Params, i: Slot, h: Hour) {
    p.policy == AlwaysArms
    || ((p.policy == Allocator || p.policy == RiskOnly || p.policy == RiskFeeIl)
      && (h.Paused()
        || (h.MarkOf(i).risk == High && (p.policy == Allocator || i == 0 || h.markA.risk == High))))
  }

  /** The steps at which such a keeper acts. */
  ghost predicate LeavesAt(p: Params, step: int) { p.policy == AlwaysArms || Listens(p, step) }

  lemma SentOutDecides(p: Params, pf: Pf, i: Slot, h: Hour, step: int)
    requires SoundLtv(p) && StillIn(p, pf, i, h.env) && SendsOut(p, i, h)
    ensures var a := Decide(p, pf, h, step);
      if !LeavesAt(p, step) then a == Hold
      else if p.policy != AlwaysArms && h.Paused() then a == RecallBook
      else a == DeployToArms(p, pf, h.env)
  {
    SoundKeepsSentinelQuiet(p, pf, h.env);
    DeployedHasPositions(ActiveBook(pf));
    hide Ok, SoundArm, Sentinel, HasPositions;
    if LeavesAt(p, step) {
      if p.policy == AlwaysArms {
        hide DeployToArms;
      } else if h.Paused() {
        PauseOnlyRecalls(p, pf, h, step);
        hide Decide;
      } else {
        AlarmDeploys(p, pf, h, step);
        hide Decide;
      }
    } else {
      hide DecideByRisk, DecideAllocator, DeployToArms;
    }
  }

  lemma HoldingGoesOn(p: Params, pf: Pf, i: Slot, env: Env)
    requires StillIn(p, pf, i, env)
    ensures Onwards(p, pf, Execute(p, pf, env, Hold), i, env, 0.0)
  {
    ModeIsNoFuel(p, pf, env);
    assert Execute(p, pf, env, Hold) == pf.(mode := ModeOf(pf.arm));
    hide Execute, Fuel, Energy, BookOk, SoundArm, Usd;
  }

  lemma SentOutExecutes(p: Params, pf: Pf, i: Slot, h: Hour, step: int)
    requires Sensible(p) && SoundLtv(p) && h.Valid() && StillIn(p, pf, i, h.env) && SendsOut(p, i, h)
    ensures Onwards(p, pf, Execute(p, pf, h.env, Decide(p, pf, h, step)), i, h.env,
                    if LeavesAt(p, step) then Drop(p, h.env) else 0.0)
  {
    hide Decide, Execute, DeployToArms, SoundLtv, SendsOut, Marked, Drop, EnergyOf, Ok, SoundArm, LeavesAt;
    SentOutDecides(p, pf, i, h, step);
    if !LeavesAt(p, step) {
      HoldingGoesOn(p, pf, i, h.env);
    } else if p.policy != AlwaysArms && h.Paused() {
      RecallCloses(p, pf, h.env);
    } else {
      EntryGoesOn(p, pf, i, h.env);
    }
  }

  /** One whole hour that sends the keeper out: it is out, or still in with less energy if it acted, never more. */
  lemma HourGoesOn(p: Params, pf: Pf, i: Slot, h: Hour, step: int)
    requires Sensible(p) && SoundLtv(p) && NoRates(p) && h.Valid() && StillIn(p, pf, i, h.env) && SendsOut(p, i, h)
    ensures Onwards(p, pf, Step(p, pf, h, step), i, h.env, if LeavesAt(p, step) then Drop(p, h.env) else 0.0)
  {
    hide Decide, Execute, SoundLtv, SendsOut, Marked, Drop, Fuel, Energy, Ok, SoundArm, LeavesAt, LtvShare, Earned, Usd;
    EarnedBurns(p, pf, h, step);
    var e := Earned(p, pf, h, step);
    SentOutExecutes(p, e, i, h, step);
    LessFuel(p, pf, e, h.env);
  }

  lemma LessFuel(p: Params, pf: Pf, e: Pf, env: Env)
    requires SoundLtv(p) && WellFormed(pf, env) && WellFormed(e, env)
    requires e.arm == pf.arm && Fuel(p, e, env) <= Fuel(p, pf, env)
    ensures EnergyOf(p, e, env) <= EnergyOf(p, pf, env)
  {
    hide Fuel, Energy, LtvShare, Usd, Below;
    LessFuelLessEnergy(LtvShare(p), Fuel(p, pf, env), Fuel(p, e, env), Usd(pf.arm.nvda, env.price), pf.arm.debt);
  }

  // ----- Over a tape -----

  /** Hours at one mark that all send a keeper in slot i out. */
  ghost predicate OutTape(p: Params, i: Slot, tape: seq<Hour>, env: Env) {
    forall k :: 0 <= k < |tape| ==> tape[k].Valid() && tape[k].env == env && SendsOut(p, i, tape[k])
  }

  /** How many of the n steps from `start` on are steps at which the keeper acts. */
  ghost function LeavingSteps(p: Params, start: int, n: nat): nat
    decreases n
  {
    if n == 0 then 0 else (if LeavesAt(p, start) then 1 else 0) + LeavingSteps(p, start + 1, n - 1)
  }

  /** How many drops the energy holds. */
  function DropsLeft(energy: real, drop: real): int
    requires drop > 0.0
  {
    (energy / drop).Floor
  }

  lemma OneMore(x: real, d: real)
    requires d > 0.0
    ensures (x + d) / d == x / d + 1.0
  {
    var q, u := (x + d) / d, x / d;
    assert q * d == x + d && u * d == x;
    if q > u + 1.0 { MulPos(q - (u + 1.0), d); }
    if q < u + 1.0 { MulPos(u + 1.0 - q, d); }
  }

  lemma DropTaken(energy: real, less: real, drop: real)
    requires drop > 0.0
    ensures less <= energy ==> DropsLeft(less, drop) <= DropsLeft(energy, drop)
    ensures less <= energy - drop ==> DropsLeft(less, drop) <= DropsLeft(energy, drop) - 1
    ensures energy >= 0.0 ==> DropsLeft(energy, drop) >= 0
  {
    if less <= energy { DivLe(less, energy, drop); }
    if less <= energy - drop {
      DivLe(less + drop, energy, drop);
      OneMore(less, drop);
    }
    if energy >= 0.0 { DivNonneg(energy, drop); }
  }

  lemma DropIsPositive(p: Params, env: Env)
    requires SoundLtv(p) && MarkedEnv(env)
    ensures Drop(p, env) > 0.0
  {
    MarkedPrice(env.sqrtP, env.price);
    MulPos(0.001, env.price);
    MulPos(1.0 - LtvShare(p), Min(1.0, Usd(0.001, env.price)));
  }

  /** The most acting steps that a keeper stays in its book. */
  ghost function StepsToLeave(p: Params, pf: Pf, env: Env): (n: int)
    requires SoundLtv(p) && MarkedEnv(env) && WellFormed(pf, env)
  {
    DropIsPositive(p, env);
    DropsLeft(EnergyOf(p, pf, env), Drop(p, env)) + 1
  }

  lemma OutTapeTail(p: Params, i: Slot, tape: seq<Hour>, env: Env)
    requires OutTape(p, i, tape, env)
    ensures ValidHours(tape)
    ensures |tape| > 0 ==>
      tape[0].Valid() && tape[0].env == env && SendsOut(p, i, tape[0]) && OutTape(p, i, tape[1..], env)
      && ValidHours(tape[1..])
  {
    hide SendsOut;
  }

  lemma LeavingUnrolls(p: Params, start: int, n: nat)
    ensures LeavingSteps(p, start, 0) == 0
    ensures n > 0 ==>
      LeavingSteps(p, start, n) == (if LeavesAt(p, start) then 1 else 0) + LeavingSteps(p, start + 1, n - 1)
  {
    hide LeavesAt;
  }

  lemma StillInCounts(p: Params, pf: Pf, i: Slot, env: Env)
    requires Sensible(p) && SoundLtv(p) && MarkedEnv(env) && StillIn(p, pf, i, env)
    ensures StepsToLeave(p, pf, env) >= 1
  {
    FuelNonneg(p, pf, env);
    EnergyNonneg(LtvShare(p), Fuel(p, pf, env), Usd(pf.arm.nvda, env.price), pf.arm.debt);
    DropIsPositive(p, env);
    hide Fuel, Usd, Energy, LtvShare, Drop, Ok;
    DropTaken(EnergyOf(p, pf, env), EnergyOf(p, pf, env), Drop(p, env));
  }

  lemma FewerSteps(p: Params, pf: Pf, r: Pf, env: Env, drop: real)
    requires SoundLtv(p) && MarkedEnv(env) && WellFormed(pf, env) && WellFormed(r, env)
    requires EnergyOf(p, r, env) <= EnergyOf(p, pf, env) - drop && (drop == 0.0 || drop == Drop(p, env))
    ensures StepsToLeave(p, r, env) <= StepsToLeave(p, pf, env) - (if drop == 0.0 then 0 else 1)
  {
    DropIsPositive(p, env);
    hide EnergyOf, Drop;
    DropTaken(EnergyOf(p, pf, env), EnergyOf(p, r, env), Drop(p, env));
  }

  lemma Shape(p: Params, pf: Pf, i: Slot, env: Env)
    requires Sensible(p) && StillIn(p, pf, i, env)
    ensures Ok(p, pf) && WellFormed(pf, env) && |pf.books| == 2 && p.liquidationBonusBps >= 0.0 && pf.active == i
  {
    hide BookOk, SoundArm;
  }

  /**
   * A standing alarm empties the books. With a book open and a sound arm, over hours at one mark and without rates
   * that all send the keeper out, whatever fees, pulls and re-arms they bring: before it has acted more often than
   * its energy has drops, no book is open.
   */
  lemma {:induction false} StandingAlarmEmptiesTheBooks(p: Params, pf: Pf, tape: seq<Hour>, start: int, i: Slot, env: Env)
    returns (k: nat)
    requires Sensible(p) && SoundLtv(p) && NoRates(p) && MarkedEnv(env)
    requires StillIn(p, pf, i, env) && OutTape(p, i, tape, env)
    requires LeavingSteps(p, start, |tape|) >= StepsToLeave(p, pf, env)
    ensures |pf.books| == 2 && ValidHours(tape) && k <= |tape| && p.liquidationBonusBps >= 0.0
    ensures NoBookOpen(After(p, pf, tape, start, k)) && LeavingSteps(p, start, k) <= StepsToLeave(p, pf, env)
    decreases |tape|
  {
    hide *;
    Shape(p, pf, i, env);
    OutTapeTail(p, i, tape, env);
    StillInCounts(p, pf, i, env);
    LeavingUnrolls(p, start, |tape|);
    assert |tape| > 0;
    HourGoesOn(p, pf, i, tape[0], start);
    var next := Step(p, pf, tape[0], start);
    NextHour(p, pf, next, i, tape, start, env);
    LeavingUnrolls(p, start, 1);
    LeavingUnrolls(p, start + 1, 0);
    if NoBookOpen(next) {
      k := 1;
      OneHourOn(p, pf, tape, start);
    } else {
      k := StandingAlarmEmptiesTheBooks(p, next, tape[1..], start + 1, i, env);
      MoreHoursOn(p, pf, tape, start, k);
      LeavingUnrolls(p, start, k + 1);
      k := k + 1;
    }
  }

  lemma NextHour(p: Params, pf: Pf, next: Pf, i: Slot, tape: seq<Hour>, start: int, env: Env)
    requires SoundLtv(p) && MarkedEnv(env) && WellFormed(pf, env)
    requires Onwards(p, pf, next, i, env, if LeavesAt(p, start) then Drop(p, env) else 0.0)
    ensures |next.books| == 2
    ensures !NoBookOpen(next) ==>
      StillIn(p, next, i, env) && WellFormed(next, env)
      && StepsToLeave(p, next, env) <= StepsToLeave(p, pf, env) - (if LeavesAt(p, start) then 1 else 0)
  {
    DropIsPositive(p, env);
    hide EnergyOf, Drop, LeavesAt, Ok, SoundArm, StepsToLeave, SoundLtv, Marked;
    if !NoBookOpen(next) {
      FewerSteps(p, pf, next, env, if LeavesAt(p, start) then Drop(p, env) else 0.0);
    }
  }

  /** The same inside any run: an alarm that stands long enough ends it with no book open. */
  lemma StandingAlarmEmptiesTheRun(p: Params, tape: seq<Hour>, m: nat, env: Env) returns (n: nat)
    requires Sensible(p) && SoundStart(p) && SoundLtv(p) && NoRates(p) && MarkedEnv(env) && ValidTape(tape) && m <= |tape|
    requires var pf := Run(p, tape, m);
      |pf.books| == 2 && WellFormed(pf, env) && ActiveBook(pf).deployed && SoundArm(p, pf.arm, env.price)
      && OutTape(p, pf.active, tape[m..], env)
      && LeavingSteps(p, m, |tape| - m) >= StepsToLeave(p, pf, env)
    ensures m <= n <= |tape| && NoBookOpen(Run(p, tape, n))
    ensures LeavingSteps(p, m, n - m) <= StepsToLeave(p, Run(p, tape, m), env)
  {
    hide Step, Ok, Initial, OutTape, SoundArm, SoundLtv, LeavingSteps, StepsToLeave, Run, Marked, SoundStart;
    EveryRunIsOk(p, tape, m);
    var pf := Run(p, tape, m);
    var k := StandingAlarmEmptiesTheBooks(p, pf, tape[m..], m, pf.active, env);
    RunGoesOn(p, tape, m, k);
    n := m + k;
  }

  // ----- From the start -----

  /** An hour at a tick's own mark in which both pools are HIGH and nothing else happens. */
  function HighAt(tick: int): Hour {
    QuietHours.HourAt(tick, QuietHours.QUIET_ROW).(markA := Mark(High, 0.0), markB := Mark(High, 0.0))
  }

  /** So many of them. */
  function HighHours(tick: int, n: nat): seq<Hour> { seq(n, _ => HighAt(tick)) }

  /** A listening policy that acts every hour from the first on. */
  ghost predicate ActsAlways(p: Params) {
    (p.policy == Allocator || p.policy == RiskOnly || p.policy == RiskFeeIl)
    && p.warmupHours <= 0 && p.allocatorIntervalHours <= 1
  }

  lemma {:induction false} EveryStepLeaves(p: Params, start: nat, n: nat)
    requires ActsAlways(p)
    ensures LeavingSteps(p, start, n) == n
    decreases n
  {
    if n > 0 { EveryStepLeaves(p, start + 1, n - 1); }
  }

  lemma HighHoursSendOut(p: Params, i: Slot, tick: int, n: nat)
    requires ActsAlways(p)
    ensures OutTape(p, i, HighHours(tick, n), HighAt(tick).env) && ValidHours(HighHours(tick, n))
    ensures HighAt(tick).Valid()
  {
    QuietHours.HourIsValid(tick, QuietHours.QUIET_ROW);
    hide SqrtAtTick, PriceFromTick, Marked;
    assert SendsOut(p, i, HighAt(tick));
  }

  lemma StartsStillIn(p: Params, env: Env)
    requires ActsAlways(p) && Sensible(p) && SoundStart(p) && MarkedEnv(env)
    ensures env.sqrtP > 0.0
    ensures StillIn(p, Initial(p, env), Initial(p, env).active, env)
  {
    assert env.sqrtP > 0.0;
    StartIsSound(p, env);
    StartsWhereThePolicySays(p, env);
    hide Initial, Ok, Marked, HodlBasket, Usd;
  }

  /**
   * The alarm from the first hour on: whatever the parameters within those bounds and the tick, a run of as many HIGH
   * hours as the starting portfolio has steps to leave has emptied its books on the way.
   */
  lemma AlarmFromTheStart(p: Params, tick: int) returns (n: nat, m: nat)
    requires ActsAlways(p) && Sensible(p) && SoundStart(p) && SoundLtv(p) && NoRates(p)
    ensures var env := HighAt(tick).env;
      MarkedEnv(env) && env.sqrtP > 0.0 && WellFormed(Initial(p, env), env)
      && n == StepsToLeave(p, Initial(p, env), env)
    ensures ValidTape(HighHours(tick, n)) && m <= n && NoBookOpen(Run(p, HighHours(tick, n), m))
  {
    hide HighAt, HighHours, SoundLtv, SoundStart, OutTape, StepsToLeave, Initial, Marked, Ok, SoundArm, LeavingSteps;
    var env := HighAt(tick).env;
    HighHoursSendOut(p, 0, tick, 0);
    StartsStillIn(p, env);
    var pf := Initial(p, env);
    StillInCounts(p, pf, pf.active, env);
    n := StepsToLeave(p, pf, env);
    var tape := HighHours(tick, n);
    HighTape(tick, n);
    HighHoursSendOut(p, pf.active, tick, n);
    EveryStepLeaves(p, 0, n);
    assert tape[0..] == tape;
    m := StandingAlarmEmptiesTheRun(p, tape, 0, env);
  }

  lemma HighTape(tick: int, n: nat)
    ensures |HighHours(tick, n)| == n && (n > 0 ==> HighHours(tick, n)[0] == HighAt(tick))
  {
  }
}
