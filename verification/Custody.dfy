/** Where the tokens of a move come from and where they go: nothing but a swap turns one token into the other. */
module Custody {
  import opened RealMath
  import opened Lp
  import opened State
  import opened Moves
  import opened Invariant
  import opened Income
  import opened Planner
  import opened Decision
  import opened Executor
  import opened OneWayDoor
  import opened Funding
  import opened Attribution

  // ----- NVDA -----

  /** A recall changes where the NVDA is, not how much of it there is. */
  lemma ClosingKeepsExposure(pf: Pf, i: Slot, s: real)
    requires |pf.books| == 2
    ensures |CloseBook(pf, i, s).books| == 2 && Exposure(CloseBook(pf, i, s), s) == Exposure(pf, s)
  {
    hide SleeveUsdg, SleeveNvda;
  }

  lemma GasKeepsExposure(pf: Pf, gas: real, s: real)
    requires |pf.books| == 2
    ensures |PayGas(pf, gas).books| == 2 && Exposure(PayGas(pf, gas), s) == Exposure(pf, s)
  {
    hide SleeveNvda;
  }

  lemma OpenedHolds(b: Book, q: Quote, scale: real, env: Env)
    requires scale > 0.0
    requires q.yReq == TokenNvda(b.targetBaseL, env.sqrtP, q.baseLo, q.baseHi)
                     + TokenNvda(b.targetGuardL, env.sqrtP, q.guardLo, q.guardHi)
    ensures BookNvda(Opened(b, q, scale, env.tick), env.sqrtP) == Part(q.yReq, scale)
  {
    var s, o := env.sqrtP, Opened(b, q, scale, env.tick);
    TokensScale(b.targetBaseL, scale, s, q.baseLo, q.baseHi);
    TokensScale(b.targetGuardL, scale, s, q.guardLo, q.guardHi);
    SleeveIsTokens(o.baseL, s, q.baseLo, q.baseHi);
    SleeveIsTokens(o.guardL, s, q.guardLo, q.guardHi);
    hide TokenUsdg, TokenNvda, SleeveNvda, Part;
    PartAdds(TokenNvda(b.targetBaseL, s, q.baseLo, q.baseHi), TokenNvda(b.targetGuardL, s, q.guardLo, q.guardHi), scale);
  }

  lemma EmptyHoldsNothing(b: Book, s: real)
    requires BookOk(b) && !HasPositions(b)
    ensures BookNvda(b, s) == 0.0
  {
    DeployedHasPositions(b);
    hide SleeveNvda;
  }

  /** Funding a slot without positions puts into the book the idle NVDA it takes, after what it bought or sold. */
  lemma FundingKeepsExposure(p: Params, pf: Pf, target: Slot, env: Env)
    requires |pf.books| == 2 && BookNvda(pf.books[target], env.sqrtP) == 0.0
    ensures var r, ready := Fund(p, pf, target, env), PrepareFunding(p, pf, BookQuote(p, pf, target, env), env);
      |r.pf.books| == 2
      && (!p.swapFunding ==> Exposure(r.pf, env.sqrtP) == Exposure(pf, env.sqrtP))
      && (r.scale > 0.0 ==>
        Exposure(r.pf, env.sqrtP) == Exposure(pf, env.sqrtP) + (ready.idleNvda - pf.idleNvda))
  {
    var r, q := Fund(p, pf, target, env), BookQuote(p, pf, target, env);
    var ready := PrepareFunding(p, pf, q, env);
    assert ready.books == pf.books && ready.arm == pf.arm by { hide BookQuote, SwapFor; }
    if r.scale > 0.0 {
      OpenedHolds(pf.books[target], q, r.scale, env);
      hide BookQuote, PrepareFunding, FundScale, BookNvda, Opened, Usd, Part;
    } else {
      hide BookQuote, FundScale, BookNvda, SwapDeficit, Usd, Part;
    }
  }

  lemma SettlingKeepsExposure(p: Params, r: Applied, s: real)
    requires |r.pf.books| == 2
    ensures |Settle(p, r).books| == 2 && Exposure(Settle(p, r), s) == Exposure(r.pf, s)
  {
    GasKeepsExposure(r.pf, p.gasCostUsd, s);
    hide PayGas, BookNvda;
  }

  lemma ArmMovesKeepExposure(p: Params, pf: Pf, env: Env, a: Action)
    requires WellFormed(pf, env) && !a.RecallBook? && !a.FundBook? && !a.RecenterBook? && !a.SwitchBook?
    ensures |Apply(p, pf, env, a).pf.books| == 2
    ensures Exposure(Apply(p, pf, env, a).pf, env.sqrtP) == Exposure(pf, env.sqrtP)
  {
    hide LendAmount, CollateralAmount, BorrowAmount, RepayAmount, WithdrawAmount, DeallocateAmount, BookNvda;
  }

  /** An undeployed slot holds no NVDA. */
  lemma ClosedHolds(pf: Pf, i: Slot, s: real)
    requires |pf.books| == 2 && !pf.books[i].deployed
    ensures BookNvda(pf.books[i], s) == 0.0
  {
  }

  lemma RecenterKeepsExposure(p: Params, pf: Pf, env: Env)
    requires Sensible(p) && Ok(p, pf) && WellFormed(pf, env) && !p.swapFunding
    ensures |TryRecenter(p, pf, env).pf.books| == 2
    ensures Exposure(TryRecenter(p, pf, env).pf, env.sqrtP) == Exposure(pf, env.sqrtP)
  {
    ClosingSizes(pf, pf.active, env.sqrtP);
    ClosingKeepsOk(p, pf, pf.active, env.sqrtP);
    var c := CloseBook(pf, pf.active, env.sqrtP);
    ClosingKeepsExposure(pf, pf.active, env.sqrtP);
    ClosedHolds(c, pf.active, env.sqrtP);
    FundingKeepsExposure(p, c, pf.active, env);
    var f := Fund(p, c, pf.active, env).pf;
    GasKeepsExposure(f, RecenterExtra(p), env.sqrtP);
    hide CloseBook, Fund, PayGas, BookOk, HasPositions, Exposure, RecenterExtra;
  }

  lemma SwitchKeepsExposure(p: Params, pf: Pf, target: Slot, env: Env)
    requires Sensible(p) && Ok(p, pf) && WellFormed(pf, env) && !p.swapFunding
    ensures |TrySwitch(p, pf, target, env).pf.books| == 2
    ensures Exposure(TrySwitch(p, pf, target, env).pf, env.sqrtP) == Exposure(pf, env.sqrtP)
  {
    if !SwitchRefused(pf, target) {
      var s := env.sqrtP;
      ClosingSizes(pf, target, s);
      var c := CloseForSwitch(pf, target, s);
      assert !c.books[target].deployed && Exposure(c, s) == Exposure(pf, s) by {
        DeployedHasPositions(pf.books[target]);
        DeployedHasPositions(ActiveBook(pf));
        ClosingKeepsExposure(pf, target, s);
        ClosingKeepsExposure(pf, pf.active, s);
        ClosingSizes(pf, pf.active, s);
        ClosingKeepsExposure(CloseBook(pf, target, s), pf.active, s);
        hide BookOk, HasPositions, Exposure, BookUsdg, BookNvda;
      }
      hide CloseForSwitch, BookOk;
      ClosedHolds(c, target, s);
      FundingKeepsExposure(p, c, target, env);
      var f := Fund(p, c, target, env);
      hide Fund, BookNvda, SwitchFee;
      ChargingKeepsExposure(f.pf, SwitchFee(p, f.value), s);
      hide ChargeSwitch, Exposure, SwitchRefused;
    }
  }

  lemma ChargingKeepsExposure(pf: Pf, cost: real, s: real)
    requires |pf.books| == 2
    ensures |ChargeSwitch(pf, cost).books| == 2 && Exposure(ChargeSwitch(pf, cost), s) == Exposure(pf, s)
  {
    hide BookNvda;
  }

  /**
   * Custody: without swaps no action, executed or fallen back, makes or loses NVDA. What leaves a book, the idle
   * inventory or the arm arrives in another of them.
   */
  lemma EveryActionKeepsNvda(p: Params, pf: Pf, env: Env, a: Action)
    requires Sensible(p) && Ok(p, pf) && WellFormed(pf, env)
    requires !p.swapFunding || !(a.FundBook? || a.RecenterBook? || a.SwitchBook?)
    ensures |Execute(p, pf, env, a).books| == 2 && Exposure(Execute(p, pf, env, a), env.sqrtP) == Exposure(pf, env.sqrtP)
  {
    hide Exposure, Settle, TryFund, TryRecenter, TrySwitch, CloseBook, Ok;
    ApplyKeepsBooks(p, pf, env, a);
    SettlingKeepsExposure(p, Apply(p, pf, env, a), env.sqrtP);
    match a
    case RecallBook => ClosingKeepsExposure(pf, pf.active, env.sqrtP);
    case FundBook(target) => TriedFundKeepsExposure(p, pf, target, env);
    case RecenterBook => RecenterKeepsExposure(p, pf, env);
    case SwitchBook(target) => SwitchKeepsExposure(p, pf, target, env);
    case _ => ArmMovesKeepExposure(p, pf, env, a);
  }

  lemma TriedFundKeepsExposure(p: Params, pf: Pf, target: Slot, env: Env)
    requires Ok(p, pf) && WellFormed(pf, env) && !p.swapFunding
    ensures |TryFund(p, pf, target, env).pf.books| == 2
    ensures Exposure(TryFund(p, pf, target, env).pf, env.sqrtP) == Exposure(pf, env.sqrtP)
  {
    if !HasPositions(pf.books[target]) {
      EmptyHoldsNothing(pf.books[target], env.sqrtP);
      FundingKeepsExposure(p, pf, target, env);
    }
    hide Fund, Exposure, BookOk, HasPositions;
  }

  // ----- Who pays -----

  /**
   * Gas is drawn in order: the lend arm only when no idle USDG is left, a book's fees only when the lend arm is empty
   * too, and book B's only when book A's are gone. Nothing else is touched.
   */
  lemma GasIsDrawnInOrder(pf: Pf, gas: real)
    requires |pf.books| == 2
    ensures var r := PayGas(pf, gas);
      |r.books| == 2
      && r == pf.(idleUsdg := r.idleUsdg, arm := pf.arm.(lent := r.arm.lent), cum := pf.cum.(gas := r.cum.gas),
                  books := [pf.books[0].(fees := r.books[0].fees), pf.books[1].(fees := r.books[1].fees)])
      && Min(pf.idleUsdg, 0.0) <= r.idleUsdg <= pf.idleUsdg && Min(pf.arm.lent, 0.0) <= r.arm.lent <= pf.arm.lent
      && (r.arm.lent < pf.arm.lent ==> r.idleUsdg <= 0.0)
      && (r.books[0].fees < pf.books[0].fees ==> r.idleUsdg <= 0.0 && r.arm.lent <= 0.0)
      && (r.books[1].fees < pf.books[1].fees ==> r.idleUsdg <= 0.0 && r.arm.lent <= 0.0 && r.books[0].fees <= 0.0)
  {
  }

  /** A repayment is the least of what is asked, owed and there, and touches the lend arm only past the idle USDG. */
  lemma RepaymentIsDrawnInOrder(p: Params, pf: Pf, env: Env, amount: real)
    requires WellFormed(pf, env) && pf.idleUsdg >= 0.0 && pf.arm.lent >= 0.0
    ensures var r, x := Apply(p, pf, env, Repay(amount)), Min(Min(amount, pf.idleUsdg + pf.arm.lent), pf.arm.debt);
      (r.acted <==> x > 1.0) && (!r.acted ==> r.pf == pf)
      && (r.acted ==>
        r.pf == pf.(idleUsdg := r.pf.idleUsdg, arm := pf.arm.(debt := pf.arm.debt - x, lent := r.pf.arm.lent))
        && r.pf.idleUsdg + r.pf.arm.lent == pf.idleUsdg + pf.arm.lent - x && r.pf.idleUsdg >= 0.0
        && (r.pf.arm.lent < pf.arm.lent ==> r.pf.idleUsdg == 0.0))
  {
  }

  /** No collateral that the floor would let go is kept back from a withdrawal. */
  lemma WithdrawalIsLargest(p: Params, pf: Pf, env: Env, amount: real, k: real)
    requires WellFormed(pf, env) && env.price > 0.0 && p.lltv > 0.0
    requires k <= amount && k <= pf.arm.nvda
    requires pf.arm.debt > 1.0 ==> k <= 0.0 || p.lltv * Usd(pf.arm.nvda - k, env.price) >= p.minHealthFactor * pf.arm.debt
    ensures k <= WithdrawAmount(p, pf, env, amount)
  {
    if pf.arm.debt > 1.0 && k > 0.0 {
      var d := p.lltv * env.price;
      ProductPos(p.lltv, env.price, d);
      assert p.lltv * ((pf.arm.nvda - k) * env.price) == (pf.arm.nvda - k) * d;
      DivCompare(pf.arm.debt * p.minHealthFactor, d, pf.arm.nvda - k, 1.0);
      assert HealthFloor(p, pf.arm.debt, env.price) <= pf.arm.nvda - k;
      hide HealthFloor;
    }
  }

  /** A swap is paid for at its rate on what is sold; a negative rate is free, and from 99% on there is no swap. */
  lemma SwapIsChargedOnTheSale(pf: Pf, xReq: real, yReq: real, price: real, costBps: real, slack: real)
    ensures var r, rate := SwapDeficit(pf, xReq, yReq, price, costBps, slack), Max(0.0, costBps) / BPS;
      (costBps >= 9_900.0 ==> r == pf)
      && match SwapFor(pf, xReq, yReq, price, costBps, slack)
         case NoSwap => r == pf
         case SellNvda(_, _, _) =>
           price > 0.0 && r.cum.swapCost - pf.cum.swapCost == Part(Usd(pf.idleNvda - r.idleNvda, price), rate)
         case SellUsdg(_, _) => r.cum.swapCost - pf.cum.swapCost == Part(pf.idleUsdg - r.idleUsdg, rate)
  {
    if costBps < 9_900.0 {
      assert SwapCost(costBps) == Max(0.0, costBps) / BPS;
    }
    match SwapFor(pf, xReq, yReq, price, costBps, slack)
    case SellNvda(nvda, usdg, value) =>
      NvdaForIsWorth(value, price);
      hide Usd, Part, Gross, SwapCost, NvdaFor;
    case _ =>
      hide Usd, Part, Gross, SwapCost, NvdaFor;
  }

  // ----- Carry -----

  /**
   * An hour's carry, at a year's rates over 8,760: the loan earns its rate, the debt costs its own. A collateral rate
   * quoted net of borrowing leaves, after the hour's borrow cost, exactly that rate on the collateral's value.
   */
  lemma CarryIsAtTheRates(p: Params, pf: Pf, price: real)
    requires price > 0.0
    ensures var arm, r := pf.arm, Accrue(p, pf, price);
      var interest, cost := Part(arm.lent, p.armUsdgApr / 8_760.0), Part(arm.debt, p.armBorrowApr / 8_760.0);
      var earned := Usd(r.arm.nvda - arm.nvda, price);
      r.arm == Arm(r.arm.nvda, arm.debt + cost, arm.lent + interest, arm.badDebt)
      && r == pf.(arm := r.arm, cum := pf.cum.(armInterest := pf.cum.armInterest + interest,
                  borrowCost := pf.cum.borrowCost + cost, nvdaYield := pf.cum.nvdaYield + earned))
      && (if p.nvdaAprIsNet && arm.nvda > 0.0
          then earned - cost == Part(Usd(arm.nvda, price), p.armNvdaApr / 8_760.0)
          else r.arm.nvda - arm.nvda == Part(arm.nvda, p.armNvdaApr / 8_760.0))
  {
    var arm := pf.arm;
    if p.nvdaAprIsNet && arm.nvda > 0.0 {
      NetRate(arm.nvda, price, arm.debt, p.armNvdaApr, p.armBorrowApr);
      MulPos(arm.nvda, price);
      hide Part;
    }
    assert Usd(Accrue(p, pf, price).arm.nvda - arm.nvda, price) == Usd(Part(arm.nvda, NvdaRate(p, arm, price)), price);
    hide Usd, Part;
  }

  lemma NetRate(nvda: real, price: real, debt: real, nvdaApr: real, borrowApr: real)
    requires nvda > 0.0 && price > 0.0
    ensures Usd(nvda, price) > 0.0
    ensures Usd(Part(nvda, (nvdaApr + debt / Usd(nvda, price) * borrowApr) / HOURS_PER_YEAR), price)
         == Part(Usd(nvda, price), nvdaApr / HOURS_PER_YEAR) + Part(debt, borrowApr / HOURS_PER_YEAR)
  {
    MulPos(nvda, price);
    var cv := nvda * price;
    var ltv := debt / cv;
    assert ltv * cv == debt;
    var rate := (nvdaApr + ltv * borrowApr) / HOURS_PER_YEAR;
    assert nvda * rate * price == cv * rate;
    assert rate == nvdaApr / HOURS_PER_YEAR + ltv * (borrowApr / HOURS_PER_YEAR);
    assert cv * (ltv * (borrowApr / HOURS_PER_YEAR)) == ltv * cv * (borrowApr / HOURS_PER_YEAR);
  }

  // ----- The mode -----

  /** After every hour the mode says whether the arm is empty. */
  lemma ModeFollowsTheArm(p: Params, pf: Pf, env: Env, a: Action)
    requires WellFormed(pf, env) && ArmOk(Execute(p, pf, env, a).arm)
    ensures var r := Execute(p, pf, env, a); r.mode == BooksMode <==> r.arm == Arm(0.0, 0.0, 0.0, 0.0)
  {
    hide Apply;
  }

  // ----- The bill -----

  /** Whether an action counts as executed, by what it did. */
  ghost predicate Did(p: Params, pf: Pf, env: Env, a: Action)
    requires WellFormed(pf, env)
  {
    match a
    case Hold => false
    case AllocateUsdg(x) => Min(Min(x, pf.idleUsdg), LendRoom(p, pf, env)) > 1.0
    case AllocateNvda(y) => Min(Min(y, pf.idleNvda), CollateralRoom(p, pf, env)) > 0.001
    case BorrowUsdg(x) => Min(x, BorrowRoom(p, pf, env)) > 1.0
    case Repay(x) => Min(Min(x, pf.idleUsdg + pf.arm.lent), pf.arm.debt) > 1.0
    case WithdrawNvda(y) => Min(Min(y, Withdrawable(p, pf.arm, env.price)), pf.arm.nvda) > 0.001
    case DeallocateUsdg(x) => Min(x, pf.arm.lent) > 1.0
    case FundBook(target) =>
      pf.arm.debt <= 1.0 && !HasPositions(pf.books[target]) && Fund(p, pf, target, env).value > 1.0
    case RecenterBook =>
      HasPositions(ActiveBook(pf))
      && (ClosingSizes(pf, pf.active, env.sqrtP);
          Fund(p, CloseBook(pf, pf.active, env.sqrtP), pf.active, env).value > 1.0)
    case SwitchBook(target) =>
      pf.arm.debt <= 1.0 && !(target == pf.active && HasPositions(pf.books[target]))
      && SwitchFunding(p, pf, target, env).value > 1.0
    case RecallBook => true
    case UnknownAction => true
  }

  /**
   * One bill for one action: what counts as executed is counted once and pays the gas of one action, or all there is
   * for it, beside the extra gas of a re-centring; what falls back to HOLD is neither counted nor billed.
   */
  lemma ExecutedPaysOnce(p: Params, pf: Pf, env: Env, a: Action)
    requires WellFormed(pf, env)
    ensures var r, did := Execute(p, pf, env, a), Did(p, pf, env, a);
      |r.books| == 2 && |Apply(p, pf, env, a).pf.books| == 2
      && r.cum.actions == pf.cum.actions + (if did then 1 else 0)
      && (!did ==> r.cum.gas == pf.cum.gas)
      && (did && !a.RecenterBook? ==>
        r.cum.gas - pf.cum.gas == Min(Max(0.0, p.gasCostUsd), GasMoney(Apply(p, pf, env, a).pf)))
  {
    ApplyKeepsBooks(p, pf, env, a);
    ApplyIsFree(p, pf, env, a);
    GasDraws(Apply(p, pf, env, a).pf, p.gasCostUsd);
    GasLeavesTheCount(Apply(p, pf, env, a).pf, p.gasCostUsd);
    hide Apply, Did, GasMoney, PayGas;
  }

  lemma GasLeavesTheCount(pf: Pf, gas: real)
    requires |pf.books| == 2
    ensures PayGas(pf, gas).cum.actions == pf.cum.actions
  {
  }

  lemma FundingIsFree(p: Params, pf: Pf, target: Slot, env: Env)
    requires |pf.books| == 2
    ensures var r := Fund(p, pf, target, env).pf.cum; r.gas == pf.cum.gas && r.actions == pf.cum.actions
  {
    hide BookQuote, FundScale, SwapFor, Part, Usd;
  }

  /** Apart from a re-centring that re-opens, no action's own moves cost gas, and none counts itself. */
  lemma ApplyIsFree(p: Params, pf: Pf, env: Env, a: Action)
    requires WellFormed(pf, env)
    ensures var r := Apply(p, pf, env, a);
      (r.acted <==> Did(p, pf, env, a)) && r.pf.cum.actions == pf.cum.actions
      && (!a.RecenterBook? || !r.acted ==> r.pf.cum.gas == pf.cum.gas)
  {
    hide LendRoom, CollateralRoom, BorrowRoom, Withdrawable, HasPositions, Fund, PayGas, BookUsdg, BookNvda;
    hide RecenterExtra;
    if a.FundBook? { FundingIsFree(p, pf, a.book, env); }
    if a.RecenterBook? {
      ClosingSizes(pf, pf.active, env.sqrtP);
      FundingIsFree(p, CloseBook(pf, pf.active, env.sqrtP), pf.active, env);
      FundLeaves(p, CloseBook(pf, pf.active, env.sqrtP), pf.active, env);
      GasLeavesTheCount(Fund(p, CloseBook(pf, pf.active, env.sqrtP), pf.active, env).pf, RecenterExtra(p));
    }
    if a.SwitchBook? {
      ClosingSizes(pf, a.book, env.sqrtP);
      FundingIsFree(p, CloseForSwitch(pf, a.book, env.sqrtP), a.book, env);
    }
  }
}
