/** Where the NAV of a run comes from: ledger, market, HODL basket; flat tapes; and the bound set by inventory. */
module Attribution {
  import opened RealMath
  import opened Lp
  import opened RangeWidth
  import opened State
  import opened Moves
  import opened Invariant
  import opened Income
  import opened Decision
  import opened Executor
  import opened Conservation
  import opened Safety
  import opened Simulation

  /** The reported attribution: NAV against HODL, less carry, with the liquidation loss added back. */
  function CumIlVsHodl(p: Params, tape: seq<Hour>, n: nat): real
    requires ValidTape(tape) && n <= |tape| && p.liquidationBonusBps >= 0.0
  {
    var pf, at := Run(p, tape, n), MarkedAt(tape, n);
    var cum, hodl := pf.cum, BasketNav(HodlBasket(p, tape[0].env), at.price);
    var carry := cum.fees + cum.armInterest + cum.nvdaYield - cum.borrowCost - cum.gas - cum.switchCost - cum.swapCost;
    Nav(pf, at) - hodl - carry + cum.liquidationLoss
  }

  /** What the market did to the HODL basket since the start. */
  function BasketResult(p: Params, tape: seq<Hour>, n: nat): real
    requires ValidTape(tape) && n <= |tape|
  {
    var basket := HodlBasket(p, tape[0].env);
    BasketNav(basket, MarkedAt(tape, n).price) - BasketNav(basket, tape[0].env.price)
  }

  /**
   * The reported IL-versus-HODL of any run is exactly the market's result on the holdings minus its result
   * on the HODL basket, plus the switch costs that were booked but not paid.
   */
  lemma ReportedIlIsMarketResult(p: Params, tape: seq<Hour>, n: nat)
    requires Sensible(p) && SoundStart(p) && ValidTape(tape) && n <= |tape|
    ensures CumIlVsHodl(p, tape, n) == MarketResult(p, tape, n) - BasketResult(p, tape, n) + Unpaid(p, tape, n)
  {
    hide Nav, HodlBasket, Run, MarketResult, Unpaid, Initial, Marked, BasketNav;
    EveryRunIsBooked(p, tape, n);
    StartIsSound(p, tape[0].env);
  }

  // ----- Flat tapes -----

  /** The mark never moves. */
  ghost predicate Flat(tape: seq<Hour>) {
    forall i :: 0 <= i < |tape| ==> tape[i].env.sqrtP == tape[0].env.sqrtP && tape[i].env.price == tape[0].env.price
  }

  lemma ShortfallNonneg(p: Params, pf: Pf, env: Env, action: Action)
    requires WellFormed(pf, env)
    ensures Shortfall(p, pf, env, action) >= 0.0
    ensures p.switchCostBps <= 0.0 ==> Shortfall(p, pf, env, action) == 0.0
  {
    if action.SwitchBook? {
      var r := SwitchFunding(p, pf, action.book, env);
      if r.value > DUST_USD { NoFee(r.value, p.switchCostBps); }
    }
  }

  lemma NoFee(value: real, bps: real)
    requires value > 0.0
    ensures bps <= 0.0 ==> Part(value, bps / BPS) <= 0.0
  {
    if bps <= 0.0 {
      LikeSigns(value, -bps / BPS);
    }
  }

  /** Every switch of the first n hours could pay its cost out of idle USDG. */
  ghost predicate SwitchesPayable(p: Params, tape: seq<Hour>, n: nat)
    requires ValidTape(tape) && n <= |tape| && p.liquidationBonusBps >= 0.0
  {
    forall k :: 0 <= k < n ==> HourShortfall(p, tape, k) == 0.0
  }

  lemma HourShortfallNonneg(p: Params, tape: seq<Hour>, n: nat)
    requires ValidTape(tape) && n < |tape| && p.liquidationBonusBps >= 0.0
    ensures HourShortfall(p, tape, n) >= 0.0
    ensures p.switchCostBps <= 0.0 ==> HourShortfall(p, tape, n) == 0.0
  {
    assert tape[n].Valid() && tape[n].env.sqrtP > 0.0;
    hide Shortfall, Earned, Decide, Run, Marked;
    var pf := Run(p, tape, n);
    IncomeSizes(p, pf, tape[n], n);
    var earned := Earned(p, pf, tape[n], n);
    ShortfallNonneg(p, earned, tape[n].env, Decide(p, earned, tape[n], n));
  }

  lemma {:induction false} UnpaidIsUnpayable(p: Params, tape: seq<Hour>, n: nat)
    requires ValidTape(tape) && n <= |tape| && p.liquidationBonusBps >= 0.0
    ensures Unpaid(p, tape, n) >= 0.0
    ensures Unpaid(p, tape, n) == 0.0 <==> SwitchesPayable(p, tape, n)
    ensures p.switchCostBps <= 0.0 ==> SwitchesPayable(p, tape, n)
  {
    hide HourShortfall, Marked, Run;
    if n > 0 {
      UnpaidIsUnpayable(p, tape, n - 1);
      HourShortfallNonneg(p, tape, n - 1);
    }
  }

  lemma SameMarkSameNav(pf: Pf, was: Env, env: Env)
    requires |pf.books| == 2 && was.sqrtP > 0.0 && env.sqrtP == was.sqrtP && env.price == was.price
    ensures Revaluation(pf, was, env) == 0.0
  {
    hide BookValue, ArmEquity, Usd;
  }

  lemma FlatHour(p: Params, tape: seq<Hour>, n: nat)
    requires ValidTape(tape) && n < |tape| && p.liquidationBonusBps >= 0.0 && Flat(tape)
    ensures MarkedAt(tape, n).sqrtP > 0.0 && tape[n].env.sqrtP > 0.0
    ensures Revaluation(Run(p, tape, n), MarkedAt(tape, n), tape[n].env) == 0.0
  {
    assert tape[n].Valid() && (n > 0 ==> tape[n - 1].Valid());
    hide Run, Revaluation, Marked;
    SameMarkSameNav(Run(p, tape, n), MarkedAt(tape, n), tape[n].env);
  }

  lemma {:induction false} FlatMarketDoesNothing(p: Params, tape: seq<Hour>, n: nat)
    requires ValidTape(tape) && n <= |tape| && p.liquidationBonusBps >= 0.0 && Flat(tape)
    ensures MarketResult(p, tape, n) == 0.0
  {
    hide Run, Revaluation, Marked;
    if n > 0 {
      FlatMarketDoesNothing(p, tape, n - 1);
      FlatHour(p, tape, n - 1);
    }
  }

  /**
   * On a flat tape, after any number of hours, under every policy and parameter choice: the NAV is the
   * initial NAV plus the ledger plus what no switch could pay, so the reported IL is that unpaid remainder;
   * it is zero exactly when every switch was payable, and free switches always are.
   */
  lemma FlatTapeReconciles(p: Params, tape: seq<Hour>, n: nat)
    requires Sensible(p) && SoundStart(p) && ValidTape(tape) && n <= |tape| && Flat(tape)
    ensures Nav(Run(p, tape, n), tape[0].env) == p.initialNavUsd + Booked(Run(p, tape, n).cum) + Unpaid(p, tape, n)
    ensures CumIlVsHodl(p, tape, n) == Unpaid(p, tape, n) >= 0.0
    ensures CumIlVsHodl(p, tape, n) == 0.0 <==> SwitchesPayable(p, tape, n)
    ensures p.switchCostBps <= 0.0 ==> CumIlVsHodl(p, tape, n) == 0.0
  {
    hide Run, MarketResult, Unpaid, Initial, Marked, HodlBasket, BasketNav, SwitchesPayable, Booked, CumIlVsHodl,
      Revaluation;
    EveryRunIsBooked(p, tape, n);
    ReportedIlIsMarketResult(p, tape, n);
    FlatMarketDoesNothing(p, tape, n);
    UnpaidIsUnpayable(p, tape, n);
    FlatNav(p, tape, n);
    hide Nav;
  }

  lemma FlatNav(p: Params, tape: seq<Hour>, n: nat)
    requires ValidTape(tape) && n <= |tape| && p.liquidationBonusBps >= 0.0 && Flat(tape)
    ensures tape[0].env.sqrtP > 0.0
    ensures Nav(Run(p, tape, n), tape[0].env) == Nav(Run(p, tape, n), MarkedAt(tape, n))
  {
    assert tape[0].Valid();
    hide Run, Marked;
    SameMarkSameNav(Run(p, tape, n), tape[0].env, MarkedAt(tape, n));
  }

  // ----- Runs without a switch -----

  /** No hour of the first n decides a switch. */
  ghost predicate NeverSwitches(p: Params, tape: seq<Hour>, n: nat)
    requires ValidTape(tape) && n <= |tape| && p.liquidationBonusBps >= 0.0
  {
    forall k :: 0 <= k < n ==> !DecidedAt(p, tape, k).SwitchBook?
  }

  /** The decision of an hour of a run, taken on the portfolio after its income. */
  function DecidedAt(p: Params, tape: seq<Hour>, k: nat): Action
    requires ValidTape(tape) && k < |tape| && p.liquidationBonusBps >= 0.0
  {
    var pf := Run(p, tape, k);
    IncomeSizes(p, pf, tape[k], k);
    Decide(p, Earned(p, pf, tape[k], k), tape[k], k)
  }

  lemma NoSwitchNoShortfall(p: Params, tape: seq<Hour>, k: nat)
    requires ValidTape(tape) && k < |tape| && p.liquidationBonusBps >= 0.0 && !DecidedAt(p, tape, k).SwitchBook?
    ensures HourShortfall(p, tape, k) == 0.0
  {
    hide Run, Earned, Decide;
  }

  /** A run that never decides a switch reconciles on a flat tape, whatever a switch would cost. */
  lemma RunsWithoutSwitchesReconcile(p: Params, tape: seq<Hour>, n: nat)
    requires Sensible(p) && SoundStart(p) && ValidTape(tape) && n <= |tape| && Flat(tape) && NeverSwitches(p, tape, n)
    ensures CumIlVsHodl(p, tape, n) == 0.0
    ensures MarkedAt(tape, n).sqrtP > 0.0
         && Nav(Run(p, tape, n), MarkedAt(tape, n)) == p.initialNavUsd + Booked(Run(p, tape, n).cum)
  {
    forall k | 0 <= k < n ensures HourShortfall(p, tape, k) == 0.0 {
      NoSwitchNoShortfall(p, tape, k);
    }
    hide Run, HourShortfall, DecidedAt, CumIlVsHodl, Unpaid, Nav, Booked, Marked;
    FlatTapeReconciles(p, tape, n);
    FlatNav(p, tape, n);
  }

  /** The policies that stay in the book they start in. */
  ghost predicate StaysHome(p: Params) {
    p.policy == Hodl || p.policy == AlwaysArms || p.policy == AlwaysB || (p.policy == AlwaysA && p.startBook != 1)
  }

  /** The slot such a policy calls home. */
  function Home(p: Params): Slot { StartSlot(p) }

  lemma HomeDecides(p: Params, pf: Pf, h: Hour, step: int)
    requires StaysHome(p) && WellFormed(pf, h.env) && pf.active == Home(p)
    ensures var a := Decide(p, pf, h, step); !a.SwitchBook? && (a.FundBook? ==> a.book == Home(p))
  {
    DeployNeverFunds(p, pf, h.env);
    hide DeployToArms, HasPositions;
  }

  lemma HomeIsKept(p: Params, pf: Pf, env: Env, a: Action)
    requires Sensible(p) && Ok(p, pf) && MarkedEnv(env)
    requires !a.SwitchBook? && (a.FundBook? ==> a.book == pf.active)
    ensures WellFormed(pf, env) && Execute(p, pf, env, a).active == pf.active
  {
    assert WellFormed(pf, env);
    hide BookQuote, FundScale, SwapFor, LendRoom, CollateralRoom, BorrowRoom, Withdrawable, BookUsdg, BookNvda,
      HasPositions, Part, BookOk;
  }

  lemma {:induction false} HomeForever(p: Params, tape: seq<Hour>, n: nat)
    requires StaysHome(p) && Sensible(p) && SoundStart(p) && ValidTape(tape) && n <= |tape|
    ensures Run(p, tape, n).active == Home(p) && NeverSwitches(p, tape, n)
  {
    hide *;
    NonnegBonus(p);
    if n == 0 {
      HomeStart(p, tape);
    } else {
      HomeForever(p, tape, n - 1);
      EveryRunIsOk(p, tape, n - 1);
      HomeHour(p, tape, n - 1);
    }
  }

  lemma NonnegBonus(p: Params)
    requires Sensible(p)
    ensures p.liquidationBonusBps >= 0.0
  {
  }

  lemma HomeStart(p: Params, tape: seq<Hour>)
    requires ValidTape(tape) && p.liquidationBonusBps >= 0.0
    ensures Run(p, tape, 0).active == Home(p) && NeverSwitches(p, tape, 0)
  {
    FirstHour(p, tape);
    hide Run, BookTemplate, HodlBasket;
  }

  lemma HomeHour(p: Params, tape: seq<Hour>, n: nat)
    requires StaysHome(p) && Sensible(p) && ValidTape(tape) && n < |tape| && Ok(p, Run(p, tape, n))
    requires Run(p, tape, n).active == Home(p) && NeverSwitches(p, tape, n)
    ensures Run(p, tape, n + 1).active == Home(p) && NeverSwitches(p, tape, n + 1)
  {
    hide *;
    NonnegBonus(p);
    NextHour(p, tape, n);
    HomeStep(p, Run(p, tape, n), tape[n], n);
    OneMoreDecision(p, tape, n);
  }

  lemma OneMoreDecision(p: Params, tape: seq<Hour>, n: nat)
    requires ValidTape(tape) && n < |tape| && p.liquidationBonusBps >= 0.0 && NeverSwitches(p, tape, n)
    requires tape[n].Valid() && tape[n].env.sqrtP > 0.0 && |Earned(p, Run(p, tape, n), tape[n], n).books| == 2
    requires !Decide(p, Earned(p, Run(p, tape, n), tape[n], n), tape[n], n).SwitchBook?
    ensures NeverSwitches(p, tape, n + 1)
  {
    hide Run, Earned, Decide;
    assert !DecidedAt(p, tape, n).SwitchBook?;
    hide DecidedAt;
  }

  lemma HomeStep(p: Params, pf: Pf, h: Hour, step: int)
    requires StaysHome(p) && Sensible(p) && Ok(p, pf) && h.Valid() && pf.active == Home(p)
    ensures h.env.sqrtP > 0.0 && |Earned(p, pf, h, step).books| == 2
    ensures Step(p, pf, h, step).active == Home(p) && !Decide(p, Earned(p, pf, h, step), h, step).SwitchBook?
  {
    assert h.env.sqrtP > 0.0;
    IncomeKeepsOk(p, pf, h.env, h.rows, step);
    IncomeSizes(p, pf, h, step);
    var e := Earned(p, pf, h, step);
    hide HourIncome, Decide, Execute, BookOk;
    HomeDecides(p, e, h, step);
    HomeIsKept(p, e, h.env, Decide(p, e, h, step));
  }

  /**
   * HODL, always-arms, and an always-book policy started in its own book never switch, so on a flat tape they
   * reconcile to the cent at every hour and at any switch cost.
   */
  lemma HomePoliciesReconcile(p: Params, tape: seq<Hour>, n: nat)
    requires StaysHome(p) && Sensible(p) && SoundStart(p) && ValidTape(tape) && n <= |tape| && Flat(tape)
    ensures CumIlVsHodl(p, tape, n) == 0.0
  {
    hide *;
    NonnegBonus(p);
    HomeForever(p, tape, n);
    RunsWithoutSwitchesReconcile(p, tape, n);
  }

  // ----- The bound set by inventory -----

  /** NVDA held in any form at a mark: idle, in the books' positions, and as collateral. */
  function Exposure(pf: Pf, s: real): real
    requires |pf.books| == 2
  {
    pf.idleNvda + BookNvda(pf.books[0], s) + BookNvda(pf.books[1], s) + pf.arm.nvda
  }

  lemma SleeveNeverBeatsItsTokens(l: real, s0: real, s1: real, price: real, lo: int, hi: int)
    requires s0 > 0.0 && Marked(s1, price)
    ensures SleeveValue(l, s1, lo, hi) <= SleeveUsdg(l, s0, lo, hi) + Usd(SleeveNvda(l, s0, lo, hi), price)
  {
    PositionNeverBeatsItsTokens(l, s0, s1, price, lo, hi);
    HeldIsTokens(l, s0, lo, hi, price);
    UsdAdds(0.0, 0.0, price);
    hide PositionValue, HeldValue, TokenUsdg, TokenNvda, Usd, Marked;
  }

  lemma HeldIsTokens(l: real, s0: real, lo: int, hi: int, price: real)
    ensures HeldValue(l, s0, lo, hi, price) == TokenUsdg(l, s0, lo, hi) + Usd(TokenNvda(l, s0, lo, hi), price)
  {
  }

  lemma BookNeverBeatsItsTokens(b: Book, was: Env, env: Env)
    requires MarkedEnv(was) && MarkedEnv(env)
    ensures BookValue(b, env.sqrtP)
         <= BookValue(b, was.sqrtP) + Usd(BookNvda(b, was.sqrtP), env.price) - Usd(BookNvda(b, was.sqrtP), was.price)
  {
    BookIsItsTokens(b, was);
    SleeveNeverBeatsItsTokens(b.baseL, was.sqrtP, env.sqrtP, env.price, b.baseLo, b.baseHi);
    SleeveNeverBeatsItsTokens(GuardInPlace(b), was.sqrtP, env.sqrtP, env.price, b.guardLo, b.guardHi);
    hide SleeveValue, SleeveUsdg, SleeveNvda, Usd, Marked;
    UsdAdds(SleeveNvda(b.baseL, was.sqrtP, b.baseLo, b.baseHi),
            SleeveNvda(GuardInPlace(b), was.sqrtP, b.guardLo, b.guardHi), env.price);
    UsdAdds(0.0, 0.0, env.price);
    UsdAdds(0.0, 0.0, was.price);
  }

  /** Between two marks the portfolio gains at most what its NVDA inventory gains: range positions only give away. */
  lemma RevaluationBelowInventory(pf: Pf, was: Env, env: Env)
    requires |pf.books| == 2 && MarkedEnv(was) && MarkedEnv(env)
    ensures Revaluation(pf, was, env)
         <= Usd(Exposure(pf, was.sqrtP), env.price) - Usd(Exposure(pf, was.sqrtP), was.price)
    ensures !pf.books[0].deployed && !pf.books[1].deployed ==>
      Revaluation(pf, was, env) == Usd(Exposure(pf, was.sqrtP), env.price) - Usd(Exposure(pf, was.sqrtP), was.price)
  {
    BookNeverBeatsItsTokens(pf.books[0], was, env);
    BookNeverBeatsItsTokens(pf.books[1], was, env);
    ExposureSplits(pf, was.sqrtP, env.price);
    ExposureSplits(pf, was.sqrtP, was.price);
    hide Exposure, Usd, SleeveValue, SleeveNvda, Marked;
  }

  lemma ExposureSplits(pf: Pf, s: real, price: real)
    requires |pf.books| == 2
    ensures Usd(Exposure(pf, s), price) == Usd(pf.idleNvda, price) + Usd(BookNvda(pf.books[0], s), price)
      + Usd(BookNvda(pf.books[1], s), price) + Usd(pf.arm.nvda, price)
    ensures Usd(0.0, price) == 0.0
  {
    hide BookNvda;
  }

  /** What the hour-by-hour NVDA inventory gained on the tape. */
  function InventoryResult(p: Params, tape: seq<Hour>, n: nat): real
    requires ValidTape(tape) && n <= |tape| && p.liquidationBonusBps >= 0.0
  {
    if n == 0 then 0.0
    else
      var held := Exposure(Run(p, tape, n - 1), MarkedAt(tape, n - 1).sqrtP);
      InventoryResult(p, tape, n - 1) + Usd(held, tape[n - 1].env.price) - Usd(held, MarkedAt(tape, n - 1).price)
  }

  lemma {:induction false} MarketBelowInventory(p: Params, tape: seq<Hour>, n: nat)
    requires ValidTape(tape) && n <= |tape| && p.liquidationBonusBps >= 0.0
    ensures MarketResult(p, tape, n) <= InventoryResult(p, tape, n)
  {
    hide Exposure, Usd, Run, Revaluation, Marked;
    if n > 0 {
      MarketBelowInventory(p, tape, n - 1);
      HourBelowInventory(p, tape, n - 1);
    }
  }

  /**
   * Impermanent loss at portfolio level: on every tape and under every policy the NAV never exceeds the
   * initial NAV plus the ledger plus the gains of the NVDA the portfolio itself held hour by hour.
   */
  lemma NoRunBeatsItsInventory(p: Params, tape: seq<Hour>, n: nat)
    requires Sensible(p) && SoundStart(p) && ValidTape(tape) && n <= |tape|
    ensures Nav(Run(p, tape, n), MarkedAt(tape, n))
         <= p.initialNavUsd + Booked(Run(p, tape, n).cum) + InventoryResult(p, tape, n) + Unpaid(p, tape, n)
  {
    hide Unpaid, Booked, InventoryResult, MarketResult, Run, Nav, Marked;
    EveryRunIsBooked(p, tape, n);
    MarketBelowInventory(p, tape, n);
  }

  lemma HourBelowInventory(p: Params, tape: seq<Hour>, n: nat)
    requires ValidTape(tape) && n < |tape| && p.liquidationBonusBps >= 0.0
    ensures MarkedAt(tape, n).sqrtP > 0.0 && tape[n].env.sqrtP > 0.0
    ensures var held := Exposure(Run(p, tape, n), MarkedAt(tape, n).sqrtP);
      Revaluation(Run(p, tape, n), MarkedAt(tape, n), tape[n].env)
      <= Usd(held, tape[n].env.price) - Usd(held, MarkedAt(tape, n).price)
  {
    assert tape[n].Valid() && (n > 0 ==> tape[n - 1].Valid());
    hide Run, Revaluation, Exposure, Usd;
    RevaluationBelowInventory(Run(p, tape, n), MarkedAt(tape, n), tape[n].env);
  }
}
