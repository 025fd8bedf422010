/** The shape every reachable portfolio has, and that the elementary moves keep. */
module Invariant {
  import opened RealMath
  import opened Lp
  import opened State
  import opened BaseSkew
  import opened Moves

  /** Parameter ranges the money rules rely on: rates, bonus and comparison slack are not negative. */
  ghost predicate Sensible(p: Params) {
    p.swapSlack >= 0.0 && p.liquidationBonusBps >= 0.0
    && p.armUsdgApr >= 0.0 && p.armBorrowApr >= 0.0 && p.armNvdaApr >= 0.0
  }

  /** Guard liquidity over base liquidity never exceeds the target ratio. */
  ghost predicate GuardInRatio(b: Book) {
    Part(b.guardL, b.targetBaseL) <= Part(b.targetGuardL, b.baseL)
  }

  ghost predicate BookOk(b: Book) {
    b.targetBaseL > 0.0 && b.targetGuardL >= 0.0 && b.fees >= 0.0
    && (b.deployed ==> b.baseL > 0.0 && b.guardL >= 0.0 && (!b.guardPresent ==> b.guardL == 0.0) && GuardInRatio(b))
    && (!b.deployed ==> b.baseL == 0.0 && b.guardL == 0.0 && !b.guardPresent && b.fees == 0.0)
  }

  ghost predicate ArmOk(arm: Arm) {
    arm.nvda >= 0.0 && arm.debt >= 0.0 && arm.lent >= 0.0 && arm.badDebt >= 0.0
  }

  /** Idle balances may be short by no more than the slack a swap's fit test allows. */
  ghost predicate Ok(p: Params, pf: Pf) {
    |pf.books| == 2 && BookOk(pf.books[0]) && BookOk(pf.books[1]) && ArmOk(pf.arm)
    && pf.idleUsdg >= -p.swapSlack && pf.idleNvda >= -p.swapSlack
    && !pf.books[1 - pf.active].deployed
  }

  lemma DeployedHasPositions(b: Book)
    requires BookOk(b)
    ensures HasPositions(b) <==> b.deployed
    ensures !b.deployed ==> b == Closed(b).(lastPull := b.lastPull)
  {
  }

  lemma GasKeepsOk(p: Params, pf: Pf, gas: real)
    requires Sensible(p) && Ok(p, pf)
    ensures var r := PayGas(pf, gas);
      Ok(p, r) && r.active == pf.active
      && r.arm == pf.arm.(lent := r.arm.lent) && r.arm.lent <= pf.arm.lent && r.idleNvda == pf.idleNvda
      && forall i :: 0 <= i < 2 ==> r.books[i] == pf.books[i].(fees := r.books[i].fees)
  {
    hide Part;
  }

  lemma ClosingKeepsOk(p: Params, pf: Pf, i: Slot, s: real)
    requires Sensible(p) && Ok(p, pf)
    ensures var r := CloseBook(pf, i, s);
      Ok(p, r) && r.active == pf.active && !r.books[i].deployed && r.books[1 - i] == pf.books[1 - i]
      && r.arm == pf.arm && r.idleUsdg >= pf.idleUsdg && r.idleNvda >= pf.idleNvda
  {
    BookTokensNonneg(pf.books[i], s);
    hide BookUsdg, BookNvda, Part;
  }

  lemma SwapKeepsBalances(p: Params, pf: Pf, xReq: real, yReq: real, price: real)
    requires Sensible(p) && xReq >= 0.0 && yReq >= 0.0
    requires pf.idleUsdg >= -p.swapSlack && pf.idleNvda >= -p.swapSlack
    ensures var r := SwapDeficit(pf, xReq, yReq, price, p.swapCostBps, p.swapSlack);
      r.idleUsdg >= -p.swapSlack && r.idleNvda >= -p.swapSlack
      && r == pf.(idleUsdg := r.idleUsdg, idleNvda := r.idleNvda, cum := pf.cum.(swapCost := r.cum.swapCost))
  {
    hide SwapFor, Part;
    SwapFillsTheGap(pf, xReq, yReq, price, p.swapCostBps, p.swapSlack);
  }

  /** The funding scale is within the cap, both legs pay for it, and no larger scale would do. */
  lemma ScaleIsLargest(cap: real, xa: real, ya: real, xr: real, yr: real, k: real)
    requires xr >= 0.0 && yr >= 0.0
    ensures var scale := ScaleWithin(cap, xa, ya, xr, yr);
      scale <= cap
      && (xr > 0.0 ==> Part(xr, scale) <= xa) && (yr > 0.0 ==> Part(yr, scale) <= ya)
      && (k <= cap && (xr > 0.0 ==> Part(xr, k) <= xa) && (yr > 0.0 ==> Part(yr, k) <= ya) ==> k <= scale)
  {
    if xr > 0.0 { QuotientFits(xa, xr, ScaleWithin(cap, xa, ya, xr, yr)); QuotientFits(xa, xr, k); }
    if yr > 0.0 { QuotientFits(ya, yr, ScaleWithin(cap, xa, ya, xr, yr)); QuotientFits(ya, yr, k); }
    hide Part;
  }

  lemma QuotientFits(avail: real, req: real, k: real)
    requires req > 0.0
    ensures k <= avail / req <==> Part(req, k) <= avail
  {
    DivCompare(k, 1.0, avail, req);
  }

  /** A positive scale never takes more of a leg than there is of it. */
  lemma SpendingFits(p: Params, idle: real, req: real, scale: real, f: real)
    requires Sensible(p) && idle >= -p.swapSlack && req >= 0.0 && scale > 0.0 && 0.0 <= f <= 1.0
    requires req > 0.0 ==> Part(req, scale) <= Part(idle, f)
    ensures idle - Part(req, scale) >= -p.swapSlack
    ensures idle >= 0.0 ==> idle - Part(req, scale) >= 0.0
  {
    if req > 0.0 {
      MulPos(req, scale);
      if idle >= 0.0 {
        MulLe(f, 1.0, idle);
      } else {
        MulNonneg(-idle, f);
      }
    }
  }

  lemma QuoteNonneg(p: Params, pf: Pf, target: Slot, env: Env)
    requires |pf.books| == 2
    ensures BookQuote(p, pf, target, env).xReq >= 0.0 && BookQuote(p, pf, target, env).yReq >= 0.0
  {
    var q, b := BookQuote(p, pf, target, env), pf.books[target];
    TokensNonneg(b.targetBaseL, env.sqrtP, q.baseLo, q.baseHi);
    TokensNonneg(b.targetGuardL, env.sqrtP, q.guardLo, q.guardHi);
    hide TokenUsdg, TokenNvda;
  }

  lemma PartOfPart(g: real, b: real, k: real)
    ensures Part(Part(g, k), b) == Part(g, Part(b, k))
  {
  }

  lemma OpenedIsOk(b: Book, q: Quote, scale: real, tick: int)
    requires BookOk(b) && scale > 0.0
    ensures BookOk(Opened(b, q, scale, tick))
  {
    PartOfPart(b.targetGuardL, b.targetBaseL, scale);
    MulPos(b.targetBaseL, scale);
    MulNonneg(b.targetGuardL, scale);
  }

  lemma PartNonneg(x: real, k: real)
    requires x >= 0.0 && k >= 0.0
    ensures Part(x, k) >= 0.0
    ensures Part(x, 1.0) == x
  {
    MulNonneg(x, k);
  }

  /** Funding an empty slot beside an empty slot keeps the shape: the funded book becomes the active one. */
  lemma FundingKeepsOk(p: Params, pf: Pf, target: Slot, env: Env)
    requires Sensible(p) && Ok(p, pf) && !pf.books[0].deployed && !pf.books[1].deployed
    ensures var r := Fund(p, pf, target, env);
      Ok(p, r.pf) && r.pf.arm == pf.arm && !r.pf.books[1 - target].deployed
      && r.pf.active == (if r.scale > 0.0 then target else pf.active)
      && (r.pf.books[target].deployed <==> r.scale > 0.0)
      && (p.swapSlack == 0.0 ==> r.pf.idleUsdg >= 0.0 && r.pf.idleNvda >= 0.0)
  {
    var q, f := BookQuote(p, pf, target, env), FundFraction(p);
    QuoteNonneg(p, pf, target, env);
    PartNonneg(q.xReq, f); PartNonneg(q.yReq, f);
    SwapKeepsBalances(p, pf, Part(q.xReq, f), Part(q.yReq, f), env.price);
    var ready := PrepareFunding(p, pf, q, env);
    hide BookQuote, SwapDeficit, Part, BookOk, FundFraction;
    if !(q.xReq <= 0.0 && q.yReq <= 0.0) {
      var scale := FundScale(p, ready, q);
      FundScaleFits(p, ready, q);
      if scale > 0.0 {
        OpenedIsOk(ready.books[target], q, scale, env.tick);
        assert BookOk(pf.books[1 - target]);
      }
    }
  }

  lemma FundScaleFits(p: Params, ready: Pf, q: Quote)
    requires Sensible(p) && ready.idleUsdg >= -p.swapSlack && ready.idleNvda >= -p.swapSlack
    requires q.xReq >= 0.0 && q.yReq >= 0.0
    ensures var scale := FundScale(p, ready, q);
      scale > 0.0 ==>
        ready.idleUsdg - Part(q.xReq, scale) >= -p.swapSlack && ready.idleNvda - Part(q.yReq, scale) >= -p.swapSlack
  {
    var f, scale := FundFraction(p), FundScale(p, ready, q);
    var used := if p.swapFunding then 1.0 else f;
    var cap := if p.swapFunding then f else 1.0;
    PartIsWhole(ready.idleUsdg); PartIsWhole(ready.idleNvda);
    assert scale == ScaleWithin(cap, Part(ready.idleUsdg, used), Part(ready.idleNvda, used), q.xReq, q.yReq);
    hide FundScale, Part, FundFraction;
    ScaleIsLargest(cap, Part(ready.idleUsdg, used), Part(ready.idleNvda, used), q.xReq, q.yReq, scale);
    if scale > 0.0 {
      SpendingFits(p, ready.idleUsdg, q.xReq, scale, used);
      SpendingFits(p, ready.idleNvda, q.yReq, scale, used);
    }
  }

  lemma PartIsWhole(x: real)
    ensures Part(x, 1.0) == x
  {
  }

  lemma LiquidationKeepsOk(p: Params, pf: Pf, env: Env)
    requires Sensible(p) && Ok(p, pf) && MarkedEnv(env)
    ensures var r := Liquidate(p, pf, env);
      Ok(p, r) && r.books == pf.books && r.active == pf.active && r.arm.badDebt >= pf.arm.badDebt
      && r.idleUsdg == pf.idleUsdg && r.idleNvda == pf.idleNvda && r.arm.debt <= pf.arm.debt
  {
    LiquidationIsExact(p, pf, env);
    hide Liquidate, Nav;
  }
}
