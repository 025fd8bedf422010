/**
 * The two places where the executor's ledger and its NAV part: fees zeroed under a newly opened book, and a
 * switch cost booked in full but taken only as far as idle USDG goes.
 */
module Unbooked {
  import opened RealMath
  import opened Lp
  import opened State
  import opened Fees
  import opened Moves
  import opened Invariant
  import opened Income
  import opened Planner
  import opened Decision
  import opened Executor
  import opened Conservation
  import opened Simulation
  import opened Attribution
  import opened OneWayDoor
  import opened QuietHours
  import Policies

  // ----- Fees under a new book -----

  lemma EmptySlotIsItsFees(b: Book, s: real)
    requires s > 0.0 && !HasPositions(b) && b.baseL >= 0.0
    ensures BookValue(b, s) == b.fees
  {
    hide PositionValue;
  }

  /**
   * Funding keeps the books straight exactly when the slot it opens holds no uncollected fees: whatever the
   * portfolio, a funding that opens a book moves the NAV by what the ledger says, less those fees.
   */
  lemma FundingConservesIffNoFees(p: Params, pf: Pf, env: Env, target: Slot)
    requires WellFormed(pf, env) && MarkedEnv(env) && pf.arm.lent >= 0.0 && pf.books[target].baseL >= 0.0
    requires pf.arm.debt <= DUST_USD && !HasPositions(pf.books[target]) && Fund(p, pf, target, env).scale > 0.0
    ensures var r := Execute(p, pf, env, FundBook(target));
      |r.books| == 2
      && Nav(r, env) - Nav(pf, env) == Booked(r.cum) - Booked(pf.cum) - pf.books[target].fees
      && (Nav(r, env) - Nav(pf, env) == Booked(r.cum) - Booked(pf.cum) <==> pf.books[target].fees == 0.0)
  {
    hide Execute, Fund, Nav;
    EmptySlotIsItsFees(pf.books[target], env.sqrtP);
    hide BookValue, HasPositions;
    EveryActionIsBooked(p, pf, env, FundBook(target));
  }

  /**
   * Such a slot is what a book without a base becomes when its guard is pulled: it stays deployed, holds the
   * hour's fees, and counts as empty, so a FUND_BOOK that opens it drops them. This is why every run is
   * taken with a guard share below one.
   */
  lemma PulledGuardOnlySlotKeepsItsFees(p: Params, pf: Pf, i: Slot, env: Env, row: BookRow, gates: Gates, step: int)
    requires |pf.books| == 2 && row.minutes.Valid()
    requires pf.books[i].deployed && pf.books[i].baseL == 0.0 && GuardPulled(p, pf.books[i], row, gates)
    ensures var r := BookIncome(p, pf, i, env, row, gates, step);
      |r.books| == 2 && r.books[i].deployed && !HasPositions(r.books[i])
      && r.books[i].fees == pf.books[i].fees + HourlyFee(p, i, pf.books[i], row, gates).total
  {
    hide HourlyFee, TokenUsdg, TokenNvda, GuardPulled;
  }

  // ----- Fees that funding forfeits, in a run -----

  /** A guard alone, in its range for a minute against a pool of twice its liquidity. */
  function GuardMinute(tick: int, l: real): Minutes { Minutes([Some(tick)], [4.0 * l * l], [2.0 * l], [1.0]) }

  lemma OneMinuteSums(b: Book, m: Minutes, rate: real, k: Bucket)
    requires m.Valid() && |m.ticks| == 1 <= |m.volumes|
    ensures var here := BucketOf(b, m.ticks[0]) == k;
      SumV1(b, m, k, 1) == (if here then m.volOverL[0] else 0.0)
      && SumV2(b, m, k, 1) == (if here then m.volOverL2[0] else 0.0)
      && SumExact(b, m, rate, k, 1)
        == (if here then ExactShare(rate, m.volumes[0], m.volOverL[0], BucketL(b, k)) else 0.0)
  {
    hide ExactShare, BucketOf, BucketL;
    assert SumV1(b, m, k, 0) == 0.0 && SumV2(b, m, k, 0) == 0.0 && SumExact(b, m, rate, k, 0) == 0.0;
  }

  /** One minute that only the guard is in range for: the hour's fee is that minute's share. */
  lemma OneGuardMinute(b: Book, tick: int, vol: real, v1: real, v2: real, feePips: real, exact: bool)
    requires HasPositions(b) && BucketOf(b, Some(tick)) == GuardOnly
    ensures var rate := feePips / 1_000_000.0;
      FeeParts(b, Minutes([Some(tick)], [vol], [v1], [v2]), feePips, exact)
      == Parts(Max(0.0, if exact then ExactShare(rate, vol, v1, GuardInPlace(b))
                        else SecondOrder(rate, GuardInPlace(b), v1, v2)), 0.0, 0.0)
  {
    var m, rate := Minutes([Some(tick)], [vol], [v1], [v2]), feePips / 1_000_000.0;
    hide ExactShare, SecondOrder, HasPositions;
    OneMinuteSums(b, m, rate, GuardOnly);
    OneMinuteSums(b, m, rate, BothIn);
    OneMinuteSums(b, m, rate, BaseOnly);
    SecondOrderOfNothing(rate, BothL(b));
    SecondOrderOfNothing(rate, b.baseL);
    hide SumExact, SumV1, SumV2;
  }

  lemma OnlyTheGuard(b: Book, m: Minutes, feePips: real, pull: Option<nat>, exact: bool)
    requires m.Valid() && HasPositions(b) && BothL(b) > 0.0
    requires FeeParts(b, m, feePips, exact).both == 0.0 == FeeParts(b, m, feePips, exact).baseOnly
    requires FeeParts(b, m, feePips, exact).total >= 0.0
    ensures FeeForHour(b, m, feePips, pull, exact).total == FeeParts(b, m, feePips, exact).total
  {
    hide FeeParts;
    assert ShareOf(0.0, GuardInPlace(b), BothL(b)) == 0.0 && ShareOf(0.0, b.baseL, BothL(b)) == 0.0;
    assert Prorated(0.0, PullFraction(pull)) == 0.0;
    hide ShareOf, Prorated;
  }

  lemma GuardEarns(b: Book, feePips: real, pull: Option<nat>, exact: bool)
    requires b.deployed && b.baseL == 0.0 && b.guardPresent && b.guardL > 0.0 && feePips > 0.0
    requires b.guardLo <= b.entryTick < b.guardHi
    ensures FeeForHour(b, GuardMinute(b.entryTick, b.guardL), feePips, pull, exact).total > 0.0
  {
    var l, m := b.guardL, GuardMinute(b.entryTick, b.guardL);
    var vol, v1 := m.volumes[0], m.volOverL[0];
    assert vol == 4.0 * l * l && v1 == 2.0 * l && m == Minutes([Some(b.entryTick)], [vol], [v1], [1.0]);
    var square := l * l;
    ProductPos(l, l, square);
    var rate := feePips / 1_000_000.0;
    MinuteEarns(rate, l, square, vol, v1);
    hide ExactShare, SecondOrder, FeeForHour, FeeParts, GuardMinute;
    OneGuardMinute(b, b.entryTick, vol, v1, 1.0, feePips, exact);
    OnlyTheGuard(b, m, feePips, pull, exact);
  }

  lemma SecondOrderOfNothing(rate: real, l: real)
    ensures SecondOrder(rate, l, 0.0, 0.0) == 0.0
  {
  }

  lemma MinuteEarns(rate: real, l: real, square: real, vol: real, v1: real)
    requires rate > 0.0 && l > 0.0 && square == l * l && square > 0.0 && vol == 4.0 * square && v1 == 2.0 * l
    ensures SecondOrder(rate, l, v1, 1.0) > 0.0
    ensures ExactShare(rate, vol, v1, l) > 0.0
  {
    assert l * v1 - l * l * 1.0 == square;
    MulPos(rate, square);
    MulPos(rate, vol);
    ProductPos(rate * vol, l, rate * vol * l);
    DivCompare(0.0, 1.0, vol, v1);
    DivCompare(0.0, 1.0, rate * vol * l, vol / v1 + l);
  }

  /** All capital in the guard, policy always-A, started in book A: the parameters of the example. */
  ghost predicate GuardOnlyStart(p: Params) {
    p.policy == AlwaysA && p.startBook != 1 && p.warmupHours <= 0 && p.guardShare == 1.0 && Sensible(p)
    && p.initialNavUsd > 0.0 && p.bookCapitalUsd > 0.0 && p.guardWidthTicks > 0 && p.feePipsA > 0.0
    && !p.swapFunding && !p.inventorySkew && p.fundBookBps > 0.0
  }

  /** The hour in which the guard of the example earns and is pulled. */
  function PullHour(p: Params, tick: int): Hour {
    var l := LiquidityForValue(GuardCapital(p), SqrtAtTick(tick), tick - p.guardWidthTicks, tick + p.guardWidthTicks);
    HourAt(tick, BookRow(GuardMinute(tick, l), [p.guardPullThresholdBps.Floor + 1]))
  }

  lemma GuardOnlyTemplate(p: Params, env: Env)
    requires GuardOnlyStart(p) && env.sqrtP > 0.0
    ensures var t := BookTemplate(p, env);
      t.targetBaseL == 0.0 && t.targetGuardL > 0.0
      && t.targetGuardL
        == LiquidityForValue(GuardCapital(p), env.sqrtP, env.tick - p.guardWidthTicks, env.tick + p.guardWidthTicks)
  {
    assert BaseCapital(p) == 0.0 && GuardCapital(p) == BookCapital(p) > 0.0;
    SizingRoundTrips(GuardCapital(p), env.sqrtP, env.tick - p.guardWidthTicks, env.tick + p.guardWidthTicks);
    hide BaseCapital, GuardCapital, BookCapital;
    assert LiquidityForValue(0.0, env.sqrtP, env.tick - p.baseWidthTicks, env.tick + p.baseWidthTicks) == 0.0;
    hide LiquidityForValue;
  }

  /** The portfolio of the example before its hour. */
  ghost predicate AllInGuard(p: Params, pf: Pf, env: Env)
    requires env.sqrtP > 0.0
  {
    |pf.books| == 2 && pf.active == 0 && pf.arm == Policies.NO_ARM && pf.mode == BooksMode && pf.cum == NO_CUM
    && pf.idleUsdg >= 0.0 && pf.idleNvda >= 0.0 && !pf.books[1].deployed
    && GuardBook(p, pf.books[0], env)
  }

  /** An open book that is all guard, centred on the tick. */
  ghost predicate GuardBook(p: Params, b: Book, env: Env) {
    b.deployed && b.baseL == 0.0 == b.targetBaseL && b.guardPresent && b.guardL == b.targetGuardL > 0.0
    && b.entryTick == env.tick && b.guardLo == env.tick - p.guardWidthTicks && b.guardHi == env.tick + p.guardWidthTicks
    && b.fees == 0.0
  }

  /** The rows of the example's hour, for a guard of liquidity l. */
  ghost predicate PullRows(p: Params, h: Hour, l: real) {
    h.rows.gatesA == Gates(false, true) && h.rows.gatesB == Gates(false, true) && h.rows.b == QUIET_ROW
    && h.rows.a == BookRow(GuardMinute(h.env.tick, l), [p.guardPullThresholdBps.Floor + 1])
  }

  lemma StartsGuardOnly(p: Params, env: Env)
    requires GuardOnlyStart(p) && env.sqrtP > 0.0
    ensures AllInGuard(p, Initial(p, env), env)
    ensures Initial(p, env).books[0].guardL
      == LiquidityForValue(GuardCapital(p), env.sqrtP, env.tick - p.guardWidthTicks, env.tick + p.guardWidthTicks)
  {
    GuardOnlyTemplate(p, env);
    hide HodlBasket, LiquidityForValue, BookCapital, GuardCapital, BaseCapital;
  }

  /** After the pull the slot is deployed, empty of positions, and holds the hour's fee; the guard's tokens are idle. */
  lemma GuardOnlyIncome(p: Params, pf: Pf, h: Hour)
    requires GuardOnlyStart(p) && h.Valid() && h.env.sqrtP > 0.0 && AllInGuard(p, pf, h.env)
    requires PullRows(p, h, pf.books[0].guardL)
    ensures var e := Earned(p, pf, h, 0);
      |e.books| == 2 && e.active == 0 && e.books[0].deployed && !HasPositions(e.books[0]) && e.books[0].fees > 0.0
      && e.books[0].baseL == 0.0 && e.arm == Policies.NO_ARM
      && Nav(e, h.env) - Nav(pf, h.env) == Booked(e.cum) - Booked(pf.cum)
      && Fundable(p, e, 0, h.env)
  {
    hide BookIncome, BookValue, GuardMinute, Fundable, HasPositions, Booked, TokenUsdg, TokenNvda, Marked, Nav;
    var one := BookIncome(p, pf, 0, h.env, h.rows.a, h.rows.gatesA, 0);
    GuardIsPulled(p, pf, h);
    QuietRowDoesNothing(p, one, 1, h.env, 0);
    BookIncomeIsBooked(p, pf, 0, h.env, h.rows.a, h.rows.gatesA, 0);
    PulledTokensFund(p, one, h.env);
    Policies.EmptyArmEarnsNothing(p, one, h.env);
    hide Accrue, Liquidate;
    assert BothIncomes(p, pf, h.env, h.rows, 0) == one;
    assert Earned(p, pf, h, 0) == one.(mode := BooksMode);
    hide Earned;
    ModeIsWorthNothing(one, h.env);
  }

  lemma ModeIsWorthNothing(pf: Pf, env: Env)
    requires |pf.books| == 2 && env.sqrtP > 0.0
    ensures Nav(pf.(mode := BooksMode), env) == Nav(pf, env)
  {
    hide BookValue, ArmEquity;
  }

  /** The pull itself, on the initial portfolio. */
  lemma GuardIsPulled(p: Params, pf: Pf, h: Hour)
    requires GuardOnlyStart(p) && h.env.sqrtP > 0.0 && AllInGuard(p, pf, h.env) && PullRows(p, h, pf.books[0].guardL)
    ensures var r, b := BookIncome(p, pf, 0, h.env, h.rows.a, h.rows.gatesA, 0), pf.books[0];
      |r.books| == 2 && r.active == pf.active && r.arm == pf.arm && r.books[1] == pf.books[1]
      && r.books[0].deployed && !HasPositions(r.books[0]) && r.books[0].fees > 0.0 && r.books[0].baseL == 0.0
      && r.books[0].targetGuardL == b.targetGuardL && r.books[0].targetBaseL == b.targetBaseL
      && r.idleUsdg >= TokenUsdg(b.guardL, h.env.sqrtP, b.guardLo, b.guardHi)
      && r.idleNvda >= TokenNvda(b.guardL, h.env.sqrtP, b.guardLo, b.guardHi)
  {
    var b := pf.books[0];
    hide FeeForHour, GuardMinute, TokenUsdg, TokenNvda;
    assert FirstPullBin(h.rows.a.fiveMinMoves, p.guardPullThresholdBps) == Some(0);
    assert GuardPulled(p, b, h.rows.a, h.rows.gatesA);
    hide FirstPullBin;
    GuardEarns(b, p.feePipsA, Some(0), p.exactFees);
    assert HourlyFee(p, 0, b, h.rows.a, h.rows.gatesA).total > 0.0;
    hide HourlyFee, GuardPulled, BookIncome;
    PulledIncomeIs(p, pf, h);
  }

  lemma PulledIncomeIs(p: Params, pf: Pf, h: Hour)
    requires |pf.books| == 2 && h.rows.a.minutes.Valid()
    requires pf.books[0].deployed && pf.books[0].baseL == 0.0 && GuardPulled(p, pf.books[0], h.rows.a, h.rows.gatesA)
    ensures BookIncome(p, pf, 0, h.env, h.rows.a, h.rows.gatesA, 0)
         == CreditFees(PullGuard(pf, 0, h.env.sqrtP, 0), 0, HourlyFee(p, 0, pf.books[0], h.rows.a, h.rows.gatesA))
  {
    hide HourlyFee, TokenUsdg, TokenNvda, GuardPulled;
  }

  /** The guard's own tokens are enough to open the slot again. */
  lemma PulledTokensFund(p: Params, pf: Pf, env: Env)
    requires GuardOnlyStart(p) && env.sqrtP > 0.0 && |pf.books| == 2
    requires pf.books[0].targetBaseL == 0.0 && pf.books[0].targetGuardL > 0.0
    requires var lo, hi := env.tick - p.guardWidthTicks, env.tick + p.guardWidthTicks;
      pf.idleUsdg >= TokenUsdg(pf.books[0].targetGuardL, env.sqrtP, lo, hi)
      && pf.idleNvda >= TokenNvda(pf.books[0].targetGuardL, env.sqrtP, lo, hi)
    ensures Fundable(p, pf, 0, env) && Fundable(p, pf.(mode := BooksMode), 0, env)
  {
    var lo, hi := env.tick - p.guardWidthTicks, env.tick + p.guardWidthTicks;
    TokensPositive(pf.books[0].targetGuardL, env.sqrtP, lo, hi);
    assert forall a, b :: TokenUsdg(0.0, env.sqrtP, a, b) == 0.0 && TokenNvda(0.0, env.sqrtP, a, b) == 0.0;
    hide TokenUsdg, TokenNvda;
  }

  lemma ForfeitingHour(p: Params, pf: Pf, h: Hour)
    requires GuardOnlyStart(p) && h.Valid() && h.env.sqrtP > 0.0 && AllInGuard(p, pf, h.env)
    requires PullRows(p, h, pf.books[0].guardL)
    ensures |Earned(p, pf, h, 0).books| == 2
    ensures var fees, r := Earned(p, pf, h, 0).books[0].fees, Step(p, pf, h, 0);
      fees > 0.0 && Nav(r, h.env) == Nav(pf, h.env) + Booked(r.cum) - Booked(pf.cum) - fees
  {
    GuardOnlyIncome(p, pf, h);
    var e := Earned(p, pf, h, 0);
    hide Earned, GuardMinute;
    assert Decide(p, e, h, 0) == FundBook(0) by { hide HasPositions; }
    assert Step(p, pf, h, 0) == Execute(p, e, h.env, FundBook(0)) by { hide Execute, Decide; }
    FundScaleIs(p, e, 0, h.env);
    hide Step, Execute, Decide, Nav, Booked, Fundable, Fund, HasPositions;
    FundingConservesIffNoFees(p, e, h.env, 0);
  }

  /**
   * The leak in a run, with all capital in the guard: in one hour at one mark the guard earns, is pulled, and
   * the emptied slot is funded over its fees. The NAV ends below the initial NAV plus the ledger by exactly
   * those fees.
   */
  lemma GuardOnlyRunForfeits(p: Params, tick: int) returns (tape: seq<Hour>, fees: real)
    requires GuardOnlyStart(p)
    ensures ValidTape(tape) && |tape| == 1 && fees > 0.0
    ensures tape[0].env == Env(tick, SqrtAtTick(tick), PriceFromTick(tick))
    ensures Nav(Run(p, tape, 1), tape[0].env)
         == Nav(Initial(p, tape[0].env), tape[0].env) + Booked(Run(p, tape, 1).cum) - fees
  {
    hide *;
    var h := PullHour(p, tick);
    PullHourIs(p, tick);
    OneHourRun(p, h);
    StartsGuardOnly(p, h.env);
    var pf := Initial(p, h.env);
    assert Booked(pf.cum) == 0.0 by { EmptyLedger(p, h.env); }
    ForfeitingHour(p, pf, h);
    tape, fees := [h], Earned(p, pf, h, 0).books[0].fees;
  }

  lemma EmptyLedger(p: Params, env: Env)
    requires env.sqrtP > 0.0
    ensures Booked(Initial(p, env).cum) == 0.0
  {
    hide BookTemplate, HodlBasket;
  }

  lemma PullHourIs(p: Params, tick: int)
    requires GuardOnlyStart(p)
    ensures var h := PullHour(p, tick);
      h.Valid() && h.env == Env(tick, SqrtAtTick(tick), PriceFromTick(tick)) && h.env.sqrtP > 0.0
      && PullRows(p, h, Initial(p, h.env).books[0].guardL) && p.liquidationBonusBps >= 0.0
  {
    var h := PullHour(p, tick);
    HourIsValid(tick, h.rows.a);
    StartsGuardOnly(p, h.env);
    hide Initial, SqrtAtTick, PriceFromTick, LiquidityForValue, GuardCapital, GuardMinute;
  }

  // ----- A switch that nobody can pay, in a run -----

  /** Policy always-A started in book B, all capital in the book and all of it used again: the second example. */
  ghost predicate SwitchStart(p: Params) {
    p.policy == AlwaysA && p.startBook == 1 && p.warmupHours <= 0 && Sensible(p) && SoundStart(p)
    && p.bookCapitalUsd >= p.initialNavUsd > DUST_USD && p.fundBookBps >= BPS && !p.swapFunding && !p.inventorySkew
    && p.switchCostBps > 0.0
  }

  lemma WholeScale(x: real, y: real)
    requires x >= 0.0 && y >= 0.0
    ensures ScaleWithin(1.0, x, y, x, y) == 1.0
  {
    if x > 0.0 { MulDiv(1.0, x); assert x / x == 1.0; }
    if y > 0.0 { MulDiv(1.0, y); assert y / y == 1.0; }
  }

  lemma WholePart(x: real)
    ensures Part(x, 1.0) == x
  {
  }

  /** The book closed in one slot is quoted, token for token, in the other. */
  lemma ClosedBookIsTheQuote(p: Params, env: Env)
    requires SwitchStart(p) && MarkedEnv(env)
    ensures var pf := Initial(p, env);
      var closed := CloseForSwitch(pf, 0, env.sqrtP);
      |closed.books| == 2
      && BookQuote(p, closed, 0, env).xReq == closed.idleUsdg >= 0.0
      && BookQuote(p, closed, 0, env).yReq == closed.idleNvda >= 0.0
      && closed.idleUsdg + Usd(closed.idleNvda, env.price) == p.initialNavUsd
  {
    var pf, t := Initial(p, env), BookTemplate(p, env);
    var full := FullyOpened(t);
    TemplateIsSound(p, env);
    BookIsItsTokens(full, env);
    BookTokensNonneg(full, env.sqrtP);
    SleeveIsTokens(full.baseL, env.sqrtP, full.baseLo, full.baseHi);
    SleeveIsTokens(full.guardL, env.sqrtP, full.guardLo, full.guardHi);
    assert BookCapital(p) == p.initialNavUsd;
    hide LiquidityForValue, BaseCapital, GuardCapital, BookCapital, HodlBasket, TokenUsdg, TokenNvda, SleeveUsdg,
      SleeveNvda, BookValue, Usd, GuardInRatio, Part;
    assert HasPositions(full) && !HasPositions(t);
    assert CloseForSwitch(pf, 0, env.sqrtP) == CloseBook(pf, 1, env.sqrtP);
  }

  /** All that is idle after the close goes back into the book: nothing is left for the cost. */
  lemma NothingLeftForTheCost(p: Params, env: Env)
    requires SwitchStart(p) && MarkedEnv(env)
    ensures var pf := Initial(p, env);
      |pf.books| == 2 && env.sqrtP > 0.0
      && Shortfall(p, pf, env, SwitchBook(0)) == SwitchFee(p, p.initialNavUsd) > 0.0
  {
    var pf := Initial(p, env);
    assert env.sqrtP > 0.0;
    assert !SwitchRefused(pf, 0) by { hide BookTemplate, HodlBasket, BookCapital, HasPositions; }
    ClosedBookIsTheQuote(p, env);
    var closed := CloseForSwitch(pf, 0, env.sqrtP);
    ClosingSizes(pf, 0, env.sqrtP);
    var r := SwitchFunding(p, pf, 0, env);
    assert r == Fund(p, closed, 0, env);
    hide Initial, CloseForSwitch, BookQuote, SwitchRefused, SwitchFunding;
    FundedWhole(p, closed, env);
    hide Fund;
    MulPos(p.initialNavUsd, p.switchCostBps / BPS);
  }

  lemma FundedWhole(p: Params, pf: Pf, env: Env)
    requires SwitchStart(p) && |pf.books| == 2 && BookQuote(p, pf, 0, env).xReq == pf.idleUsdg >= 0.0
    requires BookQuote(p, pf, 0, env).yReq == pf.idleNvda >= 0.0
    requires pf.idleUsdg + Usd(pf.idleNvda, env.price) == p.initialNavUsd
    ensures var r := Fund(p, pf, 0, env); r.pf.idleUsdg == 0.0 && r.value == p.initialNavUsd
  {
    assert FundFraction(p) == 1.0;
    assert Usd(0.0, env.price) == 0.0;
    hide BookQuote, Part, Usd, FundFraction, ScaleWithin;
    WholeScale(pf.idleUsdg, pf.idleNvda);
    WholePart(pf.idleUsdg);
    WholePart(pf.idleNvda);
  }

  /**
   * The unpaid switch in a run: one hour at one mark, without fees or moves. The keeper switches from book B
   * to book A with everything it has, books the cost, and pays none of it: on this flat tape the reported
   * IL against HODL is that cost, above zero.
   */
  lemma UnpaidSwitch(p: Params, tick: int)
    requires SwitchStart(p)
    ensures var tape := [HourAt(tick, QUIET_ROW)];
      ValidTape(tape) && Flat(tape)
      && Run(p, tape, 1).cum.fees == 0.0 && Run(p, tape, 1).cum.switchCost == SwitchFee(p, p.initialNavUsd)
      && CumIlVsHodl(p, tape, 1) == SwitchFee(p, p.initialNavUsd) > 0.0
  {
    var h := HourAt(tick, QUIET_ROW);
    var tape := [h];
    HourIsValid(tick, QUIET_ROW);
    OneHourRun(p, h);
    NothingLeftForTheCost(p, h.env);
    SwitchHour(p, h);
    hide Step, Initial, SqrtAtTick, PriceFromTick, Shortfall, SwitchFee, HourAt, Earned, Decide, Run;
    assert HourShortfall(p, tape, 0) == SwitchFee(p, p.initialNavUsd);
    hide HourShortfall;
    assert Unpaid(p, tape, 0) == 0.0;
    assert Unpaid(p, tape, 1) == SwitchFee(p, p.initialNavUsd);
    hide Unpaid, CumIlVsHodl, Marked;
    FlatTapeReconciles(p, tape, 1);
  }

  /** The example's hour: income does nothing, the decision is the switch, and the ledger shows its cost. */
  lemma SwitchHour(p: Params, h: Hour)
    requires SwitchStart(p) && h.Valid() && h.rows.a == QUIET_ROW && h.rows.b == QUIET_ROW
    requires h.rows.gatesA == Gates(false, true) && h.rows.gatesB == Gates(false, true)
    ensures h.env.sqrtP > 0.0
    ensures var pf := Initial(p, h.env);
      Earned(p, pf, h, 0) == pf && Decide(p, pf, h, 0) == SwitchBook(0)
      && Step(p, pf, h, 0).cum.fees == 0.0 && Step(p, pf, h, 0).cum.switchCost == SwitchFee(p, p.initialNavUsd)
  {
    assert h.env.sqrtP > 0.0;
    TemplateIsSound(p, h.env);
    var pf := Initial(p, h.env);
    assert pf.books[0] == BookTemplate(p, h.env) && pf.books[1] == FullyOpened(BookTemplate(p, h.env)) && pf.active == 1
      && pf.arm == Policies.NO_ARM && pf.mode == BooksMode && pf.cum == NO_CUM by { hide BookTemplate, HodlBasket; }
    assert HasPositions(pf.books[1]);
    hide Initial, BookTemplate, GuardInRatio;
    QuietRowDoesNothing(p, pf, 0, h.env, 0);
    QuietRowDoesNothing(p, pf, 1, h.env, 0);
    Policies.EmptyArmEarnsNothing(p, pf, h.env);
    hide BookIncome, Accrue, Liquidate, HasPositions, BookOk;
    assert BothIncomes(p, pf, h.env, h.rows, 0) == pf;
    assert Earned(p, pf, h, 0) == pf;
    assert Decide(p, pf, h, 0) == SwitchBook(0);
    SwitchLedger(p, h.env);
    assert Step(p, pf, h, 0) == Execute(p, pf, h.env, SwitchBook(0));
  }

  lemma SwitchLedger(p: Params, env: Env)
    requires SwitchStart(p) && MarkedEnv(env)
    ensures env.sqrtP > 0.0
    ensures var r := Execute(p, Initial(p, env), env, SwitchBook(0));
      r.cum.fees == 0.0 && r.cum.switchCost == SwitchFee(p, p.initialNavUsd)
  {
    assert env.sqrtP > 0.0;
    var pf := Initial(p, env);
    assert pf.cum == NO_CUM && !SwitchRefused(pf, 0) by { hide BookTemplate, HodlBasket, BookCapital, HasPositions; }
    ClosedBookIsTheQuote(p, env);
    var closed := CloseForSwitch(pf, 0, env.sqrtP);
    ClosingSizes(pf, 0, env.sqrtP);
    assert closed.cum == pf.cum by { hide Initial, HasPositions; }
    var r := SwitchFunding(p, pf, 0, env);
    assert r == Fund(p, closed, 0, env);
    hide Initial, CloseForSwitch, BookQuote, SwitchRefused, SwitchFunding;
    FundedWhole(p, closed, env);
    FundingIsBooked(p, closed, 0, env);
    hide Fund, SwitchFee;
    MulPos(p.initialNavUsd, p.switchCostBps / BPS);
    assert SwitchFee(p, p.initialNavUsd) == Part(p.initialNavUsd, p.switchCostBps / BPS);
    EveryActionIsBooked(p, pf, env, SwitchBook(0));
  }
}
