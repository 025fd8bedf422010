/**
 * The portfolio's elementary moves as functions of the portfolio, each with what it does to the NAV:
 * paying gas, closing a book, swapping to fund, funding a book, and liquidating the arm.
 */
module Moves {
  import opened RealMath
  import opened Lp
  import opened State
  import opened BaseSkew

  // ----- Gas -----

  /** What a balance contributes to a bill. */
  function Take(bill: real, balance: real): real {
    if bill > 0.0 && balance > 0.0 then Min(bill, balance) else 0.0
  }

  /** Gas comes out of idle USDG, then the lend arm, then uncollected fees; what nobody can pay is waived. */
  function PayGas(pf: Pf, gas: real): Pf
    requires |pf.books| == 2
  {
    if gas <= 0.0 then pf
    else
      var t0 := Take(gas, pf.idleUsdg);
      var t1 := Take(gas - t0, pf.arm.lent);
      var t2 := Take(gas - t0 - t1, pf.books[0].fees);
      var t3 := Take(gas - t0 - t1 - t2, pf.books[1].fees);
      pf.(idleUsdg := pf.idleUsdg - t0,
          arm := pf.arm.(lent := pf.arm.lent - t1),
          books := [pf.books[0].(fees := pf.books[0].fees - t2), pf.books[1].(fees := pf.books[1].fees - t3)],
          cum := pf.cum.(gas := pf.cum.gas + t0 + t1 + t2 + t3))
  }

  /** Everything a gas bill may draw on. */
  function GasMoney(pf: Pf): real
    requires |pf.books| == 2
  {
    Max(0.0, pf.idleUsdg) + Max(0.0, pf.arm.lent) + Max(0.0, pf.books[0].fees) + Max(0.0, pf.books[1].fees)
  }

  /** Gas lowers the NAV by exactly what the ledger books: the bill, or all the money there is for it. */
  lemma GasIsBooked(pf: Pf, gas: real, env: Env)
    requires |pf.books| == 2 && env.sqrtP > 0.0
    ensures var r := PayGas(pf, gas);
      Nav(r, env) == Nav(pf, env) - (r.cum.gas - pf.cum.gas)
      && r.cum.gas - pf.cum.gas == (if gas <= 0.0 then 0.0 else Min(gas, GasMoney(pf)))
      && r.cum == pf.cum.(gas := r.cum.gas)
  {
    var r := PayGas(pf, gas);
    FeesAddValue(pf.books[0], r.books[0].fees, env.sqrtP);
    FeesAddValue(pf.books[1], r.books[1].fees, env.sqrtP);
    hide BookValue, Usd;
  }

  // ----- Closing a book -----

  function Closed(b: Book): Book {
    b.(deployed := false, baseL := 0.0, guardL := 0.0, guardPresent := false, fees := 0.0, lastPull := -1)
  }

  function CloseBook(pf: Pf, i: Slot, s: real): Pf
    requires |pf.books| == 2
  {
    var b := pf.books[i];
    if !b.deployed then pf
    else pf.(idleUsdg := pf.idleUsdg + (BookUsdg(b, s) + b.fees),
             idleNvda := pf.idleNvda + BookNvda(b, s),
             books := pf.books[i := Closed(b)])
  }

  /** Recalling a book turns its positions and fees into idle tokens of the same worth. */
  lemma ClosingConserves(pf: Pf, i: Slot, env: Env)
    requires |pf.books| == 2 && MarkedEnv(env)
    ensures Nav(CloseBook(pf, i, env.sqrtP), env) == Nav(pf, env)
    ensures CloseBook(pf, i, env.sqrtP).cum == pf.cum
  {
    var b := pf.books[i];
    BookIsItsTokens(b, env);
    hide SleeveValue, SleeveUsdg, SleeveNvda, BookUsdg, BookNvda, Usd;
    if b.deployed {
      assert BookValue(Closed(b), env.sqrtP) == 0.0;
      hide BookValue;
      UsdAdds(pf.idleNvda, BookNvda(b, env.sqrtP), env.price);
    }
  }

  // ----- Swapping to fund -----

  /** The share of the sold value that the swap keeps. */
  function SwapCost(costBps: real): real { Max(0.0, Min(0.99, costBps / BPS)) }

  /** What has to be sold for `short` to arrive after the cost. */
  function Gross(short: real, c: real): real
    requires c < 1.0
  {
    short / (1.0 - c)
  }

  function NvdaFor(usd: real, price: real): real
    requires price > 0.0
  {
    usd / price
  }

  datatype Swap = NoSwap | SellNvda(nvda: real, usdg: real, value: real) | SellUsdg(usdg: real, nvda: real)

  /** A one-sided deficit is filled from the other leg's excess, if the excess reaches. */
  function SwapFor(pf: Pf, xReq: real, yReq: real, price: real, costBps: real, slack: real): Swap {
    var c := SwapCost(costBps);
    if price <= 0.0 || c >= 0.99 then NoSwap
    else if pf.idleUsdg < xReq && pf.idleNvda > yReq then
      var value := Gross(xReq - pf.idleUsdg, c);
      var nvda := NvdaFor(value, price);
      if nvda <= pf.idleNvda - yReq + slack then SellNvda(nvda, xReq - pf.idleUsdg, value) else NoSwap
    else if pf.idleNvda < yReq && pf.idleUsdg > xReq then
      var value := Gross(Usd(yReq - pf.idleNvda, price), c);
      if value <= pf.idleUsdg - xReq + slack then SellUsdg(value, yReq - pf.idleNvda) else NoSwap
    else NoSwap
  }

  function SwapDeficit(pf: Pf, xReq: real, yReq: real, price: real, costBps: real, slack: real): Pf {
    var c := SwapCost(costBps);
    match SwapFor(pf, xReq, yReq, price, costBps, slack)
    case NoSwap => pf
    case SellNvda(nvda, usdg, value) =>
      pf.(idleNvda := pf.idleNvda - nvda, idleUsdg := pf.idleUsdg + usdg,
          cum := pf.cum.(swapCost := pf.cum.swapCost + Part(value, c)))
    case SellUsdg(usdg, nvda) =>
      pf.(idleUsdg := pf.idleUsdg - usdg, idleNvda := pf.idleNvda + nvda,
          cum := pf.cum.(swapCost := pf.cum.swapCost + Part(usdg, c)))
  }

  lemma GrossSplits(short: real, c: real)
    requires 0.0 <= c < 1.0 && short >= 0.0
    ensures Gross(short, c) == short + Part(Gross(short, c), c)
    ensures Gross(short, c) >= 0.0 && Part(Gross(short, c), c) >= 0.0
  {
    var value := short / (1.0 - c);
    MulDiv(short, 1.0 - c);
    assert value * (1.0 - c) == value - value * c;
    DivNonneg(short, 1.0 - c);
    MulNonneg(value, c);
  }

  lemma NvdaForIsWorth(usd: real, price: real)
    requires price > 0.0
    ensures Usd(NvdaFor(usd, price), price) == usd
  {
    MulDiv(usd, price);
  }

  /** A swap costs the NAV exactly the booked cost, never creates value, and moves nothing but the idle legs. */
  lemma SwapIsBooked(pf: Pf, xReq: real, yReq: real, env: Env, costBps: real, slack: real)
    requires |pf.books| == 2 && env.sqrtP > 0.0
    ensures var r := SwapDeficit(pf, xReq, yReq, env.price, costBps, slack);
      Nav(r, env) == Nav(pf, env) - (r.cum.swapCost - pf.cum.swapCost)
      && r.cum.swapCost >= pf.cum.swapCost
      && r == pf.(idleUsdg := r.idleUsdg, idleNvda := r.idleNvda, cum := pf.cum.(swapCost := r.cum.swapCost))
  {
    var c := SwapCost(costBps);
    assert 0.0 <= c <= 0.99;
    hide BookValue, ArmEquity, Usd, SwapCost, Gross, NvdaFor, Part;
    match SwapFor(pf, xReq, yReq, env.price, costBps, slack)
    case NoSwap =>
    case SellNvda(nvda, usdg, value) =>
      GrossSplits(usdg, c);
      NvdaForIsWorth(value, env.price);
      UsdAdds(pf.idleNvda, nvda, env.price);
    case SellUsdg(usdg, nvda) =>
      UsdNonneg(nvda, env.price);
      GrossSplits(Usd(nvda, env.price), c);
      UsdAdds(pf.idleNvda, nvda, env.price);
  }

  lemma UsdNonneg(nvda: real, price: real)
    requires nvda >= 0.0 && price >= 0.0
    ensures Usd(nvda, price) >= 0.0
  {
    MulNonneg(nvda, price);
  }

  /** A filled deficit is filled exactly, and the other leg keeps its own requirement up to the slack. */
  lemma SwapFillsTheGap(pf: Pf, xReq: real, yReq: real, price: real, costBps: real, slack: real)
    ensures var r := SwapDeficit(pf, xReq, yReq, price, costBps, slack);
      match SwapFor(pf, xReq, yReq, price, costBps, slack)
      case NoSwap => r == pf
      case SellNvda(_, _, _) => r.idleUsdg == xReq && r.idleNvda >= yReq - slack
      case SellUsdg(_, _) => r.idleNvda == yReq && r.idleUsdg >= xReq - slack
  {
  }

  // ----- Funding a book -----

  /** The ranges a book would be opened with and the tokens its full target takes. */
  datatype Quote = Quote(baseLo: int, baseHi: int, guardLo: int, guardHi: int, xReq: real, yReq: real)

  function BookQuote(p: Params, pf: Pf, target: Slot, env: Env): Quote
    requires |pf.books| == 2
  {
    var b := pf.books[target];
    var skew := if p.inventorySkew then ChooseBaseSkew(p, pf.idleUsdg, pf.idleNvda, b, env) else 0;
    var blo, bhi := env.tick + skew - p.baseWidthTicks, env.tick + skew + p.baseWidthTicks;
    var glo, ghi := env.tick - p.guardWidthTicks, env.tick + p.guardWidthTicks;
    Quote(blo, bhi, glo, ghi,
      TokenUsdg(b.targetBaseL, env.sqrtP, blo, bhi) + TokenUsdg(b.targetGuardL, env.sqrtP, glo, ghi),
      TokenNvda(b.targetBaseL, env.sqrtP, blo, bhi) + TokenNvda(b.targetGuardL, env.sqrtP, glo, ghi))
  }

  /** The fraction of the target (swap mode) or of the idle tokens (scale mode) that may be used. */
  function FundFraction(p: Params): (f: real)
    ensures 0.0 <= f <= 1.0
  {
    Min(BPS, Max(0.0, p.fundBookBps)) / BPS
  }

  /** In swap mode a deficit against the funding goal is bought first. */
  function PrepareFunding(p: Params, pf: Pf, q: Quote, env: Env): Pf {
    if p.swapFunding then
      SwapDeficit(pf, Part(q.xReq, FundFraction(p)), Part(q.yReq, FundFraction(p)), env.price, p.swapCostBps, p.swapSlack)
    else pf
  }

  /** The largest scale, up to `cap`, at which both legs suffice. */
  function ScaleWithin(cap: real, xAvail: real, yAvail: real, xReq: real, yReq: real): real {
    var byX := if xReq > 0.0 then Min(cap, xAvail / xReq) else cap;
    if yReq > 0.0 then Min(byX, yAvail / yReq) else byX
  }

  function FundScale(p: Params, pf: Pf, q: Quote): real {
    var f := FundFraction(p);
    if p.swapFunding then ScaleWithin(f, pf.idleUsdg, pf.idleNvda, q.xReq, q.yReq)
    else ScaleWithin(1.0, Part(pf.idleUsdg, f), Part(pf.idleNvda, f), q.xReq, q.yReq)
  }

  function Opened(b: Book, q: Quote, scale: real, tick: int): Book {
    b.(deployed := true, baseL := Part(b.targetBaseL, scale), guardL := Part(b.targetGuardL, scale),
       baseLo := q.baseLo, baseHi := q.baseHi, guardLo := q.guardLo, guardHi := q.guardHi,
       entryTick := tick, fees := 0.0, guardPresent := true, lastPull := -1)
  }

  function Deploy(pf: Pf, target: Slot, q: Quote, scale: real, tick: int): Pf
    requires |pf.books| == 2
  {
    pf.(active := target, books := pf.books[target := Opened(pf.books[target], q, scale, tick)],
        idleUsdg := pf.idleUsdg - Part(q.xReq, scale), idleNvda := pf.idleNvda - Part(q.yReq, scale))
  }

  /** The portfolio after a funding attempt, what was deployed in dollars, and the scale used. */
  datatype Funding = Funding(pf: Pf, value: real, scale: real)

  function Fund(p: Params, pf: Pf, target: Slot, env: Env): Funding
    requires |pf.books| == 2
  {
    var q := BookQuote(p, pf, target, env);
    if q.xReq <= 0.0 && q.yReq <= 0.0 then Funding(pf, 0.0, 0.0)
    else
      var ready := PrepareFunding(p, pf, q, env);
      var scale := FundScale(p, ready, q);
      if scale <= 0.0 then Funding(ready, 0.0, 0.0)
      else Funding(Deploy(ready, target, q, scale, env.tick),
                   Part(q.xReq, scale) + Usd(Part(q.yReq, scale), env.price), scale)
  }

  lemma OpenedIsWorth(b: Book, q: Quote, scale: real, env: Env)
    requires MarkedEnv(env) && scale > 0.0
    requires q.xReq == TokenUsdg(b.targetBaseL, env.sqrtP, q.baseLo, q.baseHi)
                     + TokenUsdg(b.targetGuardL, env.sqrtP, q.guardLo, q.guardHi)
    requires q.yReq == TokenNvda(b.targetBaseL, env.sqrtP, q.baseLo, q.baseHi)
                     + TokenNvda(b.targetGuardL, env.sqrtP, q.guardLo, q.guardHi)
    ensures BookValue(Opened(b, q, scale, env.tick), env.sqrtP) == Part(q.xReq, scale) + Usd(Part(q.yReq, scale), env.price)
  {
    var s, o := env.sqrtP, Opened(b, q, scale, env.tick);
    BookIsItsTokens(o, env);
    TokensScale(b.targetBaseL, scale, s, q.baseLo, q.baseHi);
    TokensScale(b.targetGuardL, scale, s, q.guardLo, q.guardHi);
    SleeveIsTokens(o.baseL, s, q.baseLo, q.baseHi);
    SleeveIsTokens(o.guardL, s, q.guardLo, q.guardHi);
    hide TokenUsdg, TokenNvda, SleeveUsdg, SleeveNvda, BookValue, Usd, Part;
    PartAdds(TokenUsdg(b.targetBaseL, s, q.baseLo, q.baseHi), TokenUsdg(b.targetGuardL, s, q.guardLo, q.guardHi), scale);
    PartAdds(TokenNvda(b.targetBaseL, s, q.baseLo, q.baseHi), TokenNvda(b.targetGuardL, s, q.guardLo, q.guardHi), scale);
  }

  lemma SleeveIsTokens(l: real, s: real, lo: int, hi: int)
    ensures SleeveUsdg(l, s, lo, hi) == TokenUsdg(l, s, lo, hi)
    ensures SleeveNvda(l, s, lo, hi) == TokenNvda(l, s, lo, hi)
  {
  }

  /**
   * Funding costs the NAV the booked swap cost and, when a book is opened, whatever the overwritten
   * slot still held: opening zeroes its fees. An empty slot is worth nothing, so nothing else is lost.
   */
  lemma FundingIsBooked(p: Params, pf: Pf, target: Slot, env: Env)
    requires |pf.books| == 2 && MarkedEnv(env)
    ensures var r := Fund(p, pf, target, env);
      Nav(r.pf, env) == Nav(pf, env) - (r.pf.cum.swapCost - pf.cum.swapCost)
        - (if r.scale > 0.0 then BookValue(pf.books[target], env.sqrtP) else 0.0)
      && r.pf.cum == pf.cum.(swapCost := r.pf.cum.swapCost)
      && r.pf.arm == pf.arm && |r.pf.books| == 2
  {
    var q := BookQuote(p, pf, target, env);
    var f := FundFraction(p);
    SwapIsBooked(pf, Part(q.xReq, f), Part(q.yReq, f), env, p.swapCostBps, p.swapSlack);
    var r := Fund(p, pf, target, env);
    if r.scale > 0.0 {
      OpenedIsWorth(pf.books[target], q, r.scale, env);
      var ready := PrepareFunding(p, pf, q, env);
      hide BookQuote, SwapDeficit, FundScale, PrepareFunding, BookValue, Opened, Nav, Deploy, Part, Usd;
      DeployNav(ready, target, q, r.scale, env);
    } else {
      hide BookQuote, SwapDeficit, FundScale, BookValue, Nav, Part, Usd;
    }
  }

  lemma DeployNav(pf: Pf, target: Slot, q: Quote, scale: real, env: Env)
    requires |pf.books| == 2 && MarkedEnv(env)
    requires BookValue(Opened(pf.books[target], q, scale, env.tick), env.sqrtP)
          == Part(q.xReq, scale) + Usd(Part(q.yReq, scale), env.price)
    ensures Nav(Deploy(pf, target, q, scale, env.tick), env)
         == Nav(pf, env) - BookValue(pf.books[target], env.sqrtP)
  {
    hide BookValue, Opened, ArmEquity, Usd, Part;
    UsdAdds(pf.idleNvda, Part(q.yReq, scale), env.price);
  }

  // ----- Liquidation -----

  function CollateralValue(arm: Arm, price: real): real { Max(0.0, Usd(arm.nvda, price)) }

  /** Health factor of a debt against the value of its collateral. */
  function HealthOf(lltv: real, value: real, debt: real): real
    requires debt > 0.0
  {
    lltv * value / debt
  }

  predicate Liquidatable(p: Params, arm: Arm, price: real) {
    arm.debt > DUST_USD && HealthOf(p.lltv, CollateralValue(arm, price), arm.debt) < 1.0
  }

  /** The collateral seized, at a bonus, and the debt it repays. */
  function Seized(p: Params, arm: Arm, price: real): real {
    Min(CollateralValue(arm, price), arm.debt * (1.0 + p.liquidationBonusBps / BPS))
  }

  function Repaid(p: Params, arm: Arm, price: real): real
    requires p.liquidationBonusBps >= 0.0
  {
    if Seized(p, arm, price) > 0.0 then Seized(p, arm, price) / (1.0 + p.liquidationBonusBps / BPS) else 0.0
  }

  function LiquidatedArm(p: Params, arm: Arm, price: real): Arm
    requires p.liquidationBonusBps >= 0.0
  {
    var cv, seized := CollateralValue(arm, price), Seized(p, arm, price);
    var left := Max(0.0, arm.debt - Repaid(p, arm, price));
    var impair := Min(arm.lent, left);
    Arm(if cv > 0.0 then arm.nvda * (Max(0.0, cv - seized) / cv) else 0.0,
        0.0, arm.lent - impair, arm.badDebt + (left - impair))
  }

  function Liquidate(p: Params, pf: Pf, env: Env): Pf
    requires |pf.books| == 2 && env.sqrtP > 0.0 && p.liquidationBonusBps >= 0.0
  {
    if !Liquidatable(p, pf.arm, env.price) then pf
    else
      var after := pf.(arm := LiquidatedArm(p, pf.arm, env.price));
      var loss := Max(0.0, Nav(pf, env) - Nav(after, env));
      after.(cum := pf.cum.(liquidationLoss := pf.cum.liquidationLoss + loss))
  }

  lemma RepaidWithinDebt(p: Params, arm: Arm, price: real)
    requires p.liquidationBonusBps >= 0.0 && arm.debt > 0.0
    ensures 0.0 <= Repaid(p, arm, price) <= arm.debt
    ensures Seized(p, arm, price) == Repaid(p, arm, price) * (1.0 + p.liquidationBonusBps / BPS)
    ensures 0.0 <= Seized(p, arm, price) <= CollateralValue(arm, price)
  {
    var k, seized := 1.0 + p.liquidationBonusBps / BPS, Seized(p, arm, price);
    MulPos(arm.debt, k);
    hide CollateralValue;
    if seized > 0.0 {
      DivNonneg(seized, k);
      DivCompare(seized, k, arm.debt, 1.0);
      MulDiv(seized, k);
    }
  }

  lemma CollateralLeft(nvda: real, price: real, cv: real, seized: real)
    requires cv > 0.0 && cv == Usd(nvda, price) && 0.0 <= seized <= cv
    ensures Usd(nvda * (Max(0.0, cv - seized) / cv), price) == cv - seized
  {
    var f := (cv - seized) / cv;
    assert f * cv == cv - seized;
    assert nvda * f * price == f * (nvda * price);
  }

  /**
   * Liquidation is exact: the debt splits into what the collateral repaid, what the lend arm lost and new
   * bad debt; the NAV falls by the bonus on what was repaid, and that is the booked loss.
   */
  lemma LiquidationIsExact(p: Params, pf: Pf, env: Env)
    requires |pf.books| == 2 && MarkedEnv(env) && p.liquidationBonusBps >= 0.0
    requires pf.arm.nvda >= 0.0 && pf.arm.lent >= 0.0
    ensures var r := Liquidate(p, pf, env);
      r == pf.(arm := r.arm, cum := pf.cum.(liquidationLoss := r.cum.liquidationLoss))
      && Nav(r, env) == Nav(pf, env) - (r.cum.liquidationLoss - pf.cum.liquidationLoss)
      && (!Liquidatable(p, pf.arm, env.price) ==> r == pf)
      && (Liquidatable(p, pf.arm, env.price) ==>
        var repaid := Repaid(p, pf.arm, env.price);
        r.arm.debt == 0.0
        && pf.arm.debt == repaid + (pf.arm.lent - r.arm.lent) + (r.arm.badDebt - pf.arm.badDebt)
        && 0.0 <= r.arm.lent <= pf.arm.lent && pf.arm.badDebt <= r.arm.badDebt && 0.0 <= r.arm.nvda
        && r.cum.liquidationLoss - pf.cum.liquidationLoss == repaid * (p.liquidationBonusBps / BPS))
  {
    if Liquidatable(p, pf.arm, env.price) {
      MarkedPrice(env.sqrtP, env.price);
      RepaidWithinDebt(p, pf.arm, env.price);
      LiquidatedArmIsExact(p, pf.arm, env.price);
      var bonus := Repaid(p, pf.arm, env.price) * (p.liquidationBonusBps / BPS);
      MulNonneg(Repaid(p, pf.arm, env.price), p.liquidationBonusBps / BPS);
      hide LiquidatedArm, Repaid, Liquidatable, ArmEquity, Nav;
      LossIsTheBonus(p, pf, env, bonus);
    }
  }

  lemma LossIsTheBonus(p: Params, pf: Pf, env: Env, bonus: real)
    requires |pf.books| == 2 && env.sqrtP > 0.0 && p.liquidationBonusBps >= 0.0 && Liquidatable(p, pf.arm, env.price)
    requires bonus >= 0.0
    requires ArmEquity(LiquidatedArm(p, pf.arm, env.price), env.price) == ArmEquity(pf.arm, env.price) - bonus
    ensures var r := Liquidate(p, pf, env);
      r == pf.(arm := LiquidatedArm(p, pf.arm, env.price),
               cum := pf.cum.(liquidationLoss := pf.cum.liquidationLoss + bonus))
      && Nav(r, env) == Nav(pf, env) - bonus
  {
    var arm := LiquidatedArm(p, pf.arm, env.price);
    NavFollowsTheArm(pf, arm, env);
    hide LiquidatedArm, Liquidatable, ArmEquity, Nav;
    NavIgnoresTheLedger(pf.(arm := arm), Liquidate(p, pf, env).cum, env);
  }

  lemma NavFollowsTheArm(pf: Pf, arm: Arm, env: Env)
    requires |pf.books| == 2 && env.sqrtP > 0.0
    ensures Nav(pf.(arm := arm), env) == Nav(pf, env) - ArmEquity(pf.arm, env.price) + ArmEquity(arm, env.price)
  {
    hide ArmEquity, BookValue;
  }

  lemma NavIgnoresTheLedger(pf: Pf, cum: Cum, env: Env)
    requires |pf.books| == 2 && env.sqrtP > 0.0
    ensures Nav(pf.(cum := cum), env) == Nav(pf, env)
  {
    hide ArmEquity, BookValue;
  }

  lemma LiquidatedArmIsExact(p: Params, arm: Arm, price: real)
    requires p.liquidationBonusBps >= 0.0 && arm.nvda >= 0.0 && arm.lent >= 0.0 && arm.debt > 0.0 && price > 0.0
    ensures var r, repaid := LiquidatedArm(p, arm, price), Repaid(p, arm, price);
      ArmEquity(r, price) == ArmEquity(arm, price) - repaid * (p.liquidationBonusBps / BPS)
      && r.debt == 0.0 && 0.0 <= r.lent <= arm.lent && arm.badDebt <= r.badDebt && 0.0 <= r.nvda
      && arm.debt == repaid + (arm.lent - r.lent) + (r.badDebt - arm.badDebt)
  {
    RepaidWithinDebt(p, arm, price);
    MulNonneg(arm.nvda, price);
    var cv, seized, repaid, bonus := CollateralValue(arm, price), Seized(p, arm, price),
      Repaid(p, arm, price), p.liquidationBonusBps / BPS;
    hide Seized, Repaid;
    assert repaid * (1.0 + bonus) == repaid + repaid * bonus;
    if cv > 0.0 {
      CollateralLeft(arm.nvda, price, cv, seized);
      DivNonneg(Max(0.0, cv - seized), cv);
      MulNonneg(arm.nvda, Max(0.0, cv - seized) / cv);
    }
  }
}
