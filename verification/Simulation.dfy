/** Whole runs: the initial state, the hourly step, and what holds after any number of hours on any tape. */
module Simulation {
  import opened RealMath
  import opened Lp
  import opened RangeWidth
  import opened State
  import opened Fees
  import opened Moves
  import opened Invariant
  import opened Income
  import opened Planner
  import opened Decision
  import opened Executor
  import opened Conservation
  import opened Safety

  // ----- The initial state -----

  const NO_CUM := Cum(0.0, 0.0, 0.0, 0.0, 0.0, 0.0, 0.0, 0.0, 0.0, 0, 0)

  function BookCapital(p: Params): real { Min(p.bookCapitalUsd, p.initialNavUsd) }

  function BaseCapital(p: Params): real { Part(BookCapital(p), 1.0 - p.guardShare) }

  function GuardCapital(p: Params): real { Part(BookCapital(p), p.guardShare) }

  /** An undeployed book with its target liquidity sized at the initial mark. */
  function BookTemplate(p: Params, env: Env): Book
    requires env.sqrtP > 0.0
  {
    var blo, bhi := env.tick - p.baseWidthTicks, env.tick + p.baseWidthTicks;
    var glo, ghi := env.tick - p.guardWidthTicks, env.tick + p.guardWidthTicks;
    var base := LiquidityForValue(BaseCapital(p), env.sqrtP, blo, bhi);
    var guard := LiquidityForValue(GuardCapital(p), env.sqrtP, glo, ghi);
    Book(false, 0.0, 0.0, blo, bhi, glo, ghi, env.tick, 0.0, false, -1, base, guard, 0.0)
  }

  function FullyOpened(b: Book): Book {
    b.(deployed := true, baseL := b.targetBaseL, guardL := b.targetGuardL, guardPresent := true)
  }

  function StartSlot(p: Params): Slot { if p.policy == AlwaysB || p.startBook == 1 then 1 else 0 }

  datatype Basket = Basket(usdg: real, nvda: real)

  /** The HODL basket: the tokens of the fully opened book plus the quote left outside it. */
  function HodlBasket(p: Params, env: Env): Basket
    requires env.sqrtP > 0.0
  {
    var full := FullyOpened(BookTemplate(p, env));
    Basket(BookUsdg(full, env.sqrtP) + Max(0.0, p.initialNavUsd - BookCapital(p)), BookNvda(full, env.sqrtP))
  }

  function BasketNav(basket: Basket, price: real): real { basket.usdg + Usd(basket.nvda, price) }

  function Initial(p: Params, env: Env): Pf
    requires env.sqrtP > 0.0
  {
    var t, i, hodl := BookTemplate(p, env), StartSlot(p), HodlBasket(p, env);
    if p.policy == Hodl || p.policy == AlwaysArms then
      Pf(i, [t, t], hodl.usdg, hodl.nvda, Arm(0.0, 0.0, 0.0, 0.0),
         if p.policy == AlwaysArms then ArmsMode else BooksMode, NO_CUM)
    else
      Pf(i, [t, t][i := FullyOpened(t)], Max(0.0, p.initialNavUsd - BookCapital(p)), 0.0,
         Arm(0.0, 0.0, 0.0, 0.0), BooksMode, NO_CUM)
  }

  /** Parameters that describe a real book: capital, both sleeves of positive width, some of it in the base. */
  ghost predicate SoundStart(p: Params) {
    p.initialNavUsd > 0.0 && p.bookCapitalUsd > 0.0 && 0.0 <= p.guardShare < 1.0
    && p.baseWidthTicks > 0 && p.guardWidthTicks > 0
  }

  lemma SharesOfCapital(p: Params)
    requires SoundStart(p)
    ensures BaseCapital(p) > 0.0 && GuardCapital(p) >= 0.0 && BaseCapital(p) + GuardCapital(p) == BookCapital(p)
  {
    hide Part;
    PartSplits(BookCapital(p), p.guardShare);
  }

  lemma PartSplits(x: real, k: real)
    requires x > 0.0 && 0.0 <= k < 1.0
    ensures Part(x, 1.0 - k) > 0.0 && Part(x, k) >= 0.0 && Part(x, 1.0 - k) + Part(x, k) == x
  {
    MulPos(x, 1.0 - k);
    MulNonneg(x, k);
  }

  lemma TemplateIsSound(p: Params, env: Env)
    requires SoundStart(p) && MarkedEnv(env)
    ensures var t := BookTemplate(p, env);
      BookOk(t) && BookOk(FullyOpened(t)) && BookValue(FullyOpened(t), env.sqrtP) == BookCapital(p)
      && SleeveValue(t.targetGuardL, env.sqrtP, t.guardLo, t.guardHi)
         == Part(Min(p.bookCapitalUsd, p.initialNavUsd), p.guardShare)
      && SleeveValue(t.targetBaseL, env.sqrtP, t.baseLo, t.baseHi)
         == Part(Min(p.bookCapitalUsd, p.initialNavUsd), 1.0 - p.guardShare)
      && t.baseLo + p.baseWidthTicks == env.tick == t.baseHi - p.baseWidthTicks
      && t.guardLo + p.guardWidthTicks == env.tick == t.guardHi - p.guardWidthTicks && t.entryTick == env.tick
  {
    var t, s := BookTemplate(p, env), env.sqrtP;
    var forBase, forGuard := BaseCapital(p), GuardCapital(p);
    SharesOfCapital(p);
    SizingRoundTrips(forBase, s, t.baseLo, t.baseHi);
    SizingRoundTrips(forGuard, s, t.guardLo, t.guardHi);
    PositionOfNothing(t.targetGuardL, s, t.guardLo, t.guardHi);
    PositionOfNothing(t.targetBaseL, s, t.baseLo, t.baseHi);
    PartCommutes(t.targetGuardL, t.targetBaseL);
    assert forBase == Part(BookCapital(p), 1.0 - p.guardShare) && forGuard == Part(BookCapital(p), p.guardShare);
    hide LiquidityForValue, PositionValue, Part, BaseCapital, GuardCapital, Marked;
  }

  lemma PartCommutes(x: real, y: real)
    ensures Part(x, y) == Part(y, x)
    ensures Part(0.0, y) == 0.0
  {
  }

  /** The run starts in shape, and both the portfolio and the HODL basket start at the initial NAV. */
  lemma StartIsSound(p: Params, env: Env)
    requires SoundStart(p) && Sensible(p) && MarkedEnv(env)
    ensures var pf := Initial(p, env);
      Ok(p, pf) && Nav(pf, env) == p.initialNavUsd == BasketNav(HodlBasket(p, env), env.price) && pf.cum == NO_CUM
  {
    var t := BookTemplate(p, env);
    TemplateIsSound(p, env);
    BookIsItsTokens(FullyOpened(t), env);
    BookTokensNonneg(FullyOpened(t), env.sqrtP);
    UsdAdds(0.0, 0.0, env.price);
    assert BookValue(t, env.sqrtP) == 0.0;
    hide BookValue, BookUsdg, BookNvda, BookTemplate, BookOk, Usd;
  }

  /**
   * The HODL basket is the opened book's own tokens beside the cash left outside it: exactly what a keeper that
   * starts in a book has idle when it recalls the book at the first mark.
   */
  lemma BasketIsTheRecalledBook(p: Params, env: Env)
    requires p.policy != Hodl && p.policy != AlwaysArms && env.sqrtP > 0.0
    ensures var pf := Initial(p, env);
      |pf.books| == 2
      && var recalled := CloseBook(pf, pf.active, env.sqrtP);
      HodlBasket(p, env) == Basket(recalled.idleUsdg, recalled.idleNvda)
      && recalled.idleNvda == BookNvda(pf.books[pf.active], env.sqrtP)
  {
    hide BookTemplate, SleeveUsdg, SleeveNvda, GuardInPlace;
    assert BookTemplate(p, env).fees == 0.0 by { BookTemplateIsEmpty(p, env); }
  }

  lemma BookTemplateIsEmpty(p: Params, env: Env)
    requires env.sqrtP > 0.0
    ensures BookTemplate(p, env).fees == 0.0 && !BookTemplate(p, env).deployed
  {
  }

  /**
   * Where a policy starts: hodl and always_arms with the basket idle and no book open, always_b in book B, the others
   * in the book of their choice, fully opened, with the rest in cash; the arm is empty, and only always_arms starts in
   * arms mode.
   */
  lemma StartsWhereThePolicySays(p: Params, env: Env)
    requires SoundStart(p) && MarkedEnv(env)
    ensures var pf, basket := Initial(p, env), HodlBasket(p, env);
      |pf.books| == 2 && pf.arm == Arm(0.0, 0.0, 0.0, 0.0)
      && (pf.mode == ArmsMode <==> p.policy == AlwaysArms)
      && (if p.policy == Hodl || p.policy == AlwaysArms then
            !pf.books[0].deployed && !pf.books[1].deployed && pf.idleUsdg == basket.usdg && pf.idleNvda == basket.nvda
          else
            HasPositions(pf.books[pf.active]) && !pf.books[1 - pf.active].deployed && pf.idleNvda == 0.0
            && pf.idleUsdg == p.initialNavUsd - Min(p.bookCapitalUsd, p.initialNavUsd)
            && (p.policy == AlwaysB ==> pf.active == 1)
            && (p.policy != AlwaysB && p.startBook in {0, 1} ==> pf.active == p.startBook))
  {
    TemplateIsSound(p, env);
    BookTemplateIsEmpty(p, env);
    hide BookTemplate, HodlBasket, Part, Marked, BookValue, SleeveValue;
  }

  // ----- The step -----

  function Earned(p: Params, pf: Pf, h: Hour, step: int): Pf
    requires |pf.books| == 2 && h.Valid() && p.liquidationBonusBps >= 0.0
  {
    HourIncome(p, pf, h.env, h.rows, step)
  }

  lemma IncomeSizes(p: Params, pf: Pf, h: Hour, step: int)
    requires |pf.books| == 2 && h.Valid() && p.liquidationBonusBps >= 0.0
    ensures |Earned(p, pf, h, step).books| == 2
  {
    BookIncomeIsBooked(p, pf, 0, h.env, h.rows.a, h.rows.gatesA, step);
    var one := BookIncome(p, pf, 0, h.env, h.rows.a, h.rows.gatesA, step);
    BookIncomeIsBooked(p, one, 1, h.env, h.rows.b, h.rows.gatesB, step);
    hide BookIncome, Nav;
  }

  /** Market, income, marks, one decision, one executed action. */
  function Step(p: Params, pf: Pf, h: Hour, step: int): (r: Pf)
    requires |pf.books| == 2 && h.Valid() && p.liquidationBonusBps >= 0.0
    ensures |r.books| == 2
  {
    IncomeSizes(p, pf, h, step);
    var earned := Earned(p, pf, h, step);
    var action := Decide(p, earned, h, step);
    ApplyKeepsBooks(p, earned, h.env, action);
    Execute(p, earned, h.env, action)
  }

  ghost predicate ValidTape(tape: seq<Hour>) {
    |tape| > 0 && forall i :: 0 <= i < |tape| ==> tape[i].Valid()
  }

  /** The portfolio after n hours of the tape. */
  function Run(p: Params, tape: seq<Hour>, n: nat): (pf: Pf)
    requires ValidTape(tape) && n <= |tape| && p.liquidationBonusBps >= 0.0
    ensures |pf.books| == 2
  {
    if n == 0 then Initial(p, tape[0].env) else Step(p, Run(p, tape, n - 1), tape[n - 1], n - 1)
  }

  lemma FirstHour(p: Params, tape: seq<Hour>)
    requires ValidTape(tape) && p.liquidationBonusBps >= 0.0
    ensures |tape| > 0 && tape[0].env.sqrtP > 0.0 && Run(p, tape, 0) == Initial(p, tape[0].env)
  {
    assert tape[0].Valid();
    hide Step, Initial;
  }

  lemma NextHour(p: Params, tape: seq<Hour>, n: nat)
    requires ValidTape(tape) && p.liquidationBonusBps >= 0.0 && n < |tape|
    ensures tape[n].Valid() && tape[n].env.sqrtP > 0.0
    ensures Run(p, tape, n + 1) == Step(p, Run(p, tape, n), tape[n], n)
  {
    assert tape[n].Valid();
    hide Step, Initial;
  }

  /** The row at which the portfolio of hour n was last marked. */
  function MarkedAt(tape: seq<Hour>, n: nat): Env
    requires |tape| > 0 && n <= |tape|
  {
    if n == 0 then tape[0].env else tape[n - 1].env
  }

  lemma StepKeepsOk(p: Params, pf: Pf, h: Hour, step: int)
    requires Sensible(p) && Ok(p, pf) && h.Valid()
    ensures Ok(p, Step(p, pf, h, step)) && Step(p, pf, h, step).arm.badDebt >= pf.arm.badDebt
  {
    IncomeKeepsOk(p, pf, h.env, h.rows, step);
    IncomeSizes(p, pf, h, step);
    var earned := Earned(p, pf, h, step);
    hide HourIncome, Decide, Execute, BookOk;
    DecisionsAreLegit(p, earned, h, step);
    ExecutionKeepsOk(p, earned, h.env, Decide(p, earned, h, step));
  }

  /**
   * Safety over whole runs: after any number of hours on any tape, under every policy, at most the active
   * book is deployed, an undeployed book is empty, the guard is within its ratio, no balance is negative
   * (beyond the comparison slack), and bad debt has never shrunk.
   */
  lemma {:induction false} EveryRunIsOk(p: Params, tape: seq<Hour>, n: nat)
    requires Sensible(p) && SoundStart(p) && ValidTape(tape) && n <= |tape|
    ensures Ok(p, Run(p, tape, n))
    ensures n > 0 ==> Run(p, tape, n).arm.badDebt >= Run(p, tape, n - 1).arm.badDebt
  {
    hide Step, Ok, Initial, Nav, Marked, HodlBasket;
    if n == 0 {
      StartIsSound(p, tape[0].env);
    } else {
      EveryRunIsOk(p, tape, n - 1);
      StepKeepsOk(p, Run(p, tape, n - 1), tape[n - 1], n - 1);
    }
  }

  // ----- Conservation over runs -----

  /** The unpaid part of the switch cost of hour n. */
  function HourShortfall(p: Params, tape: seq<Hour>, n: nat): real
    requires ValidTape(tape) && n < |tape| && p.liquidationBonusBps >= 0.0
  {
    var pf := Run(p, tape, n);
    IncomeSizes(p, pf, tape[n], n);
    var earned := Earned(p, pf, tape[n], n);
    Shortfall(p, earned, tape[n].env, Decide(p, earned, tape[n], n))
  }

  function Unpaid(p: Params, tape: seq<Hour>, n: nat): real
    requires ValidTape(tape) && n <= |tape| && p.liquidationBonusBps >= 0.0
  {
    if n == 0 then 0.0 else Unpaid(p, tape, n - 1) + HourShortfall(p, tape, n - 1)
  }

  /** What the market alone did to a portfolio between two marks. */
  function Revaluation(pf: Pf, was: Env, env: Env): real
    requires |pf.books| == 2 && was.sqrtP > 0.0 && env.sqrtP > 0.0
  {
    Nav(pf, env) - Nav(pf, was)
  }

  function MarketResult(p: Params, tape: seq<Hour>, n: nat): real
    requires ValidTape(tape) && n <= |tape| && p.liquidationBonusBps >= 0.0
  {
    if n == 0 then 0.0
    else MarketResult(p, tape, n - 1) + Revaluation(Run(p, tape, n - 1), MarkedAt(tape, n - 1), tape[n - 1].env)
  }

  lemma StepIsBooked(p: Params, pf: Pf, h: Hour, step: int)
    requires Sensible(p) && Ok(p, pf) && h.Valid()
    ensures |Earned(p, pf, h, step).books| == 2
    ensures var r, earned := Step(p, pf, h, step), Earned(p, pf, h, step);
      Nav(r, h.env) - Nav(pf, h.env)
        == Booked(r.cum) - Booked(pf.cum) + Shortfall(p, earned, h.env, Decide(p, earned, h, step))
  {
    IncomeIsBooked(p, pf, h.env, h.rows, step);
    IncomeKeepsOk(p, pf, h.env, h.rows, step);
    var earned := Earned(p, pf, h, step);
    var action := Decide(p, earned, h, step);
    DecisionsAreLegit(p, earned, h, step);
    hide HourIncome, Decide, Execute, BookOk, Nav, Shortfall, Forfeit;
    ExecutionKeepsOk(p, earned, h.env, action);
    EveryActionIsBooked(p, earned, h.env, action);
  }

  /**
   * Conservation over every run, on every tape, under every policy: the NAV is the initial NAV, plus what
   * the ledger books, plus what the market did to the holdings of each hour, plus the switch costs that
   * were booked but could not be paid.
   */
  lemma {:induction false} EveryRunIsBooked(p: Params, tape: seq<Hour>, n: nat)
    requires Sensible(p) && SoundStart(p) && ValidTape(tape) && n <= |tape|
    ensures Nav(Run(p, tape, n), MarkedAt(tape, n))
         == p.initialNavUsd + Booked(Run(p, tape, n).cum) + MarketResult(p, tape, n) + Unpaid(p, tape, n)
  {
    hide Step, Ok, Initial, Nav, Marked, HodlBasket, Earned, Decide, Shortfall;
    if n == 0 {
      StartIsSound(p, tape[0].env);
    } else {
      hide Booked;
      EveryRunIsBooked(p, tape, n - 1);
      EveryRunIsOk(p, tape, n - 1);
      StepIsBooked(p, Run(p, tape, n - 1), tape[n - 1], n - 1);
    }
  }
}
