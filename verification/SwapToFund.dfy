/** Swap-to-fund is complete: when the tokens are there, in whatever ratio, the book gets its full share. */
module SwapToFund {
  import opened RealMath
  import opened Lp
  import opened State
  import opened Moves
  import opened Invariant

  /** The excess of NVDA, with so much slack, covers what the missing USDG costs, swap cost included. */
  ghost predicate NvdaCovers(pf: Pf, xGoal: real, yGoal: real, price: real, c: real, slack: real) {
    c < 0.99 && pf.idleUsdg < xGoal && pf.idleNvda > yGoal
    && Gross(xGoal - pf.idleUsdg, c) <= Usd(pf.idleNvda - yGoal + slack, price)
  }

  /** The excess of USDG, with so much slack, covers what the missing NVDA costs, swap cost included. */
  ghost predicate UsdgCovers(pf: Pf, xGoal: real, yGoal: real, price: real, c: real, slack: real) {
    c < 0.99 && pf.idleNvda < yGoal && pf.idleUsdg > xGoal
    && Gross(Usd(yGoal - pf.idleNvda, price), c) <= pf.idleUsdg - xGoal + slack
  }

  lemma NvdaForFits(value: real, price: real, avail: real)
    requires price > 0.0
    ensures NvdaFor(value, price) <= avail <==> value <= Usd(avail, price)
  {
    DivCompare(value, price, avail, 1.0);
  }

  /** A swap happens exactly when one leg is short and the other leg's excess covers it, up to the slack. */
  lemma SwapsWhenCovered(pf: Pf, xGoal: real, yGoal: real, price: real, costBps: real, slack: real)
    ensures SwapFor(pf, xGoal, yGoal, price, costBps, slack).SellNvda?
      <==> price > 0.0 && NvdaCovers(pf, xGoal, yGoal, price, SwapCost(costBps), slack)
    ensures SwapFor(pf, xGoal, yGoal, price, costBps, slack).SellUsdg?
      <==> price > 0.0 && UsdgCovers(pf, xGoal, yGoal, price, SwapCost(costBps), slack)
  {
    if price > 0.0 && SwapCost(costBps) < 0.99 {
      NvdaForFits(Gross(xGoal - pf.idleUsdg, SwapCost(costBps)), price, pf.idleNvda - yGoal + slack);
    }
    hide Gross, NvdaFor, Usd, SwapCost;
  }

  /** The slack of a sale: a leg that is asked for must keep its goal, one that is not may dip into the slack. */
  function SaleSlack(req: real, slack: real): real { if req > 0.0 then 0.0 else slack }

  /** Both funding goals are met from the start, or one leg can buy what the other lacks. */
  ghost predicate Covered(p: Params, pf: Pf, q: Quote, price: real) {
    var f, c := Clamp(p.fundBookBps, 0.0, BPS) / BPS, SwapCost(p.swapCostBps);
    var xGoal, yGoal := Part(q.xReq, f), Part(q.yReq, f);
    (pf.idleUsdg >= xGoal && pf.idleNvda >= yGoal)
    || NvdaCovers(pf, xGoal, yGoal, price, c, SaleSlack(q.yReq, p.swapSlack))
    || UsdgCovers(pf, xGoal, yGoal, price, c, SaleSlack(q.xReq, p.swapSlack))
  }

  lemma FractionIs(p: Params)
    ensures FundFraction(p) == Clamp(p.fundBookBps, 0.0, BPS) / BPS
  {
  }

  /** Every leg that is asked for has its share of the request. */
  ghost predicate LegsMet(pf: Pf, q: Quote, f: real) {
    (q.xReq > 0.0 ==> pf.idleUsdg >= Part(q.xReq, f)) && (q.yReq > 0.0 ==> pf.idleNvda >= Part(q.yReq, f))
  }

  lemma MoreSlackCovers(pf: Pf, xGoal: real, yGoal: real, price: real, c: real, less: real, more: real)
    requires less <= more && price > 0.0
    ensures NvdaCovers(pf, xGoal, yGoal, price, c, less) ==> NvdaCovers(pf, xGoal, yGoal, price, c, more)
    ensures UsdgCovers(pf, xGoal, yGoal, price, c, less) ==> UsdgCovers(pf, xGoal, yGoal, price, c, more)
  {
    UsdOrders(pf.idleNvda - yGoal + less, pf.idleNvda - yGoal + more, price);
    hide Usd, Gross;
  }

  lemma UsdOrders(x: real, y: real, price: real)
    requires x <= y && price > 0.0
    ensures Usd(x, price) <= Usd(y, price)
  {
    MulLe(x, y, price);
  }

  /** After a sale of NVDA the leg keeps its goal exactly when the sale was covered without slack. */
  lemma SoldNvdaKeeps(pf: Pf, xGoal: real, yGoal: real, price: real, c: real)
    requires price > 0.0 && c < 0.99 && pf.idleUsdg < xGoal && pf.idleNvda > yGoal
    ensures pf.idleNvda - NvdaFor(Gross(xGoal - pf.idleUsdg, c), price) >= yGoal
      <==> NvdaCovers(pf, xGoal, yGoal, price, c, 0.0)
  {
    NvdaForFits(Gross(xGoal - pf.idleUsdg, c), price, pf.idleNvda - yGoal);
    hide Gross, NvdaFor, Usd;
  }

  lemma PartOfNothing(q: Quote, f: real)
    requires q.xReq >= 0.0 && q.yReq >= 0.0 && f >= 0.0
    ensures Part(q.xReq, f) >= 0.0 && Part(q.yReq, f) >= 0.0
    ensures (q.xReq == 0.0 ==> Part(q.xReq, f) == 0.0) && (q.yReq == 0.0 ==> Part(q.yReq, f) == 0.0)
  {
    MulNonneg(q.xReq, f);
    MulNonneg(q.yReq, f);
  }

  lemma CoveredLegs(p: Params, pf: Pf, q: Quote, env: Env)
    requires p.swapFunding && p.swapSlack >= 0.0 && env.price > 0.0 && q.xReq >= 0.0 && q.yReq >= 0.0
    requires pf.idleUsdg >= 0.0 && pf.idleNvda >= 0.0
    ensures LegsMet(PrepareFunding(p, pf, q, env), q, FundFraction(p)) <==> Covered(p, pf, q, env.price)
  {
    var f, c, s := FundFraction(p), SwapCost(p.swapCostBps), p.swapSlack;
    var xGoal, yGoal := Part(q.xReq, f), Part(q.yReq, f);
    FractionIs(p);
    PartOfNothing(q, f);
    SwapsWhenCovered(pf, xGoal, yGoal, env.price, p.swapCostBps, s);
    MoreSlackCovers(pf, xGoal, yGoal, env.price, c, 0.0, s);
    if c < 0.99 && pf.idleUsdg < xGoal && pf.idleNvda > yGoal {
      SoldNvdaKeeps(pf, xGoal, yGoal, env.price, c);
    }
    hide Part, Gross, NvdaFor, Usd, SwapCost, FundFraction, Clamp;
    var ready := PrepareFunding(p, pf, q, env);
    assert ready == SwapDeficit(pf, xGoal, yGoal, env.price, p.swapCostBps, s);
  }

  lemma ScaleIsShare(f: real, ready: Pf, q: Quote)
    requires q.xReq >= 0.0 && q.yReq >= 0.0
    ensures ScaleWithin(f, ready.idleUsdg, ready.idleNvda, q.xReq, q.yReq) == f <==> LegsMet(ready, q, f)
  {
    ScaleIsLargest(f, ready.idleUsdg, ready.idleNvda, q.xReq, q.yReq, f);
    hide Part, ScaleWithin;
  }

  lemma NothingToFund(p: Params, pf: Pf, q: Quote, env: Env)
    requires p.swapFunding && FundFraction(p) == 0.0 && pf.idleUsdg >= 0.0 && pf.idleNvda >= 0.0
    ensures PrepareFunding(p, pf, q, env) == pf && Covered(p, pf, q, env.price)
    ensures FundScale(p, pf, q) <= 0.0
  {
    FractionIs(p);
    assert Part(q.xReq, 0.0) == 0.0 && Part(q.yReq, 0.0) == 0.0;
    hide FundFraction, Clamp;
  }

  /**
   * Completeness of swap-to-fund, for every cost and slack: from non-negative legs the book is funded at
   * exactly the funding share of its target if and only if the idle tokens cover both goals, directly or
   * through the swap; in every case the scale is the largest that the prepared legs allow, balances stay
   * above minus the slack, and the NAV falls by the swap cost only.
   */
  lemma SwapFundingIsComplete(p: Params, pf: Pf, target: Slot, env: Env, k: real)
    requires Sensible(p) && p.swapFunding
    requires Ok(p, pf) && !pf.books[0].deployed && !pf.books[1].deployed && MarkedEnv(env)
    requires BookQuote(p, pf, target, env).xReq > 0.0 || BookQuote(p, pf, target, env).yReq > 0.0
    ensures var r, q, f := Fund(p, pf, target, env), BookQuote(p, pf, target, env), Clamp(p.fundBookBps, 0.0, BPS) / BPS;
      var ready, full := PrepareFunding(p, pf, q, env), Part(pf.books[target].targetBaseL, f);
      |r.pf.books| == 2 && r.scale <= f && r.pf.books[target].baseL <= full
      && (pf.idleUsdg >= 0.0 && pf.idleNvda >= 0.0 ==>
        (r.scale == f <==> Covered(p, pf, q, env.price))
        && (r.pf.books[target].baseL == full <==> Covered(p, pf, q, env.price)))
      && (0.0 < k <= f && Part(q.xReq, k) <= ready.idleUsdg && Part(q.yReq, k) <= ready.idleNvda ==> k <= r.scale)
      && r.pf.idleUsdg >= -p.swapSlack && r.pf.idleNvda >= -p.swapSlack
      && Nav(r.pf, env) == Nav(pf, env) - (r.pf.cum.swapCost - pf.cum.swapCost)
  {
    var q, f := BookQuote(p, pf, target, env), FundFraction(p);
    var ready := PrepareFunding(p, pf, q, env);
    MarkedPrice(env.sqrtP, env.price);
    QuoteNonneg(p, pf, target, env);
    FundingIsBooked(p, pf, target, env);
    FundingKeepsOk(p, pf, target, env);
    EmptyIsWorthless(pf.books[target], env.sqrtP);
    ScaleIsLargest(f, ready.idleUsdg, ready.idleNvda, q.xReq, q.yReq, k);
    ScaleIsFunded(p, pf, target, env);
    ScaleIsShare(f, ready, q);
    FractionIs(p);
    FundedBase(p, pf, target, env);
    assert FundScale(p, ready, q) == ScaleWithin(f, ready.idleUsdg, ready.idleNvda, q.xReq, q.yReq);
    PartOrders(pf.books[target].targetBaseL, Fund(p, pf, target, env).scale, f);
    if pf.idleUsdg >= 0.0 && pf.idleNvda >= 0.0 {
      CoveredLegs(p, pf, q, env);
      if f == 0.0 { NothingToFund(p, pf, q, env); }
    }
    hide Fund, FundScale, Nav, BookValue, BookQuote, PrepareFunding, Part, FundFraction, ScaleWithin, BookOk, Marked,
      LegsMet, Covered, Clamp;
  }

  lemma PartOrders(x: real, k: real, f: real)
    requires x > 0.0
    ensures Part(x, k) <= Part(x, f) <==> k <= f
    ensures Part(x, k) == Part(x, f) <==> k == f
  {
    if k < f { MulPos(x, f - k); assert x * (f - k) == x * f - x * k; }
    if f < k { MulPos(x, k - f); assert x * (k - f) == x * k - x * f; }
  }

  /** The base that a funding leaves in an undeployed slot is the scale's part of its target, opened or not. */
  lemma FundedBase(p: Params, pf: Pf, target: Slot, env: Env)
    requires |pf.books| == 2 && BookOk(pf.books[target]) && !pf.books[target].deployed
    ensures var r := Fund(p, pf, target, env);
      |r.pf.books| == 2 && r.pf.books[target].baseL == Part(pf.books[target].targetBaseL, r.scale)
      && r.pf.books[target].guardL == Part(pf.books[target].targetGuardL, r.scale)
  {
    assert forall x :: Part(x, 0.0) == 0.0;
    hide BookQuote, FundScale, SwapFor, Usd, Part;
  }

  lemma EmptyIsWorthless(b: Book, s: real)
    requires s > 0.0 && BookOk(b) && !b.deployed
    ensures BookValue(b, s) == 0.0
  {
    hide Part;
  }

  /** The funding's scale is the prepared scale whenever that is positive. */
  lemma ScaleIsFunded(p: Params, pf: Pf, target: Slot, env: Env)
    requires |pf.books| == 2
    ensures var q := BookQuote(p, pf, target, env);
      var scale := FundScale(p, PrepareFunding(p, pf, q, env), q);
      (q.xReq > 0.0 || q.yReq > 0.0) ==>
        Fund(p, pf, target, env).scale == (if scale > 0.0 then scale else 0.0)
  {
    hide BookQuote, PrepareFunding, FundScale, Deploy, Part, Usd;
  }
}
