/** The as-built allocator has a one-way door into the arms; the fixed one does not. */
module OneWayDoor {
  import opened RealMath
  import opened Lp
  import opened State
  import opened Moves
  import opened Invariant
  import opened Income
  import opened Planner
  import opened Decision
  import opened Executor
  import opened Safety
  import opened Simulation

  ghost predicate NoBookOpen(pf: Pf)
    requires |pf.books| == 2
  {
    !pf.books[0].deployed && !pf.books[1].deployed
  }

  /** The literal keeper: allocator policy, an empty book counts as one whose guard is missing. */
  ghost predicate AsBuilt(p: Params) { p.policy == Allocator && !p.fixEmptyBookGuard }

  /** With no book open the literal keeper only moves the arm, repays, or holds. */
  lemma OnlyArmActions(p: Params, pf: Pf, h: Hour, step: int)
    requires AsBuilt(p) && Ok(p, pf) && NoBookOpen(pf) && h.env.sqrtP > 0.0
    ensures var a := Decide(p, pf, h, step);
      a.Hold? || a.AllocateUsdg? || a.AllocateNvda? || a.BorrowUsdg? || a.Repay?
  {
    SideActionsNeverFund(p, pf, h.env);
    DeployWithoutBook(p, pf, h.env);
    hide DeployToArms, Sentinel, Recenter, Surplus, DecidePoolSwitch;
  }

  lemma DeployWithoutBook(p: Params, pf: Pf, env: Env)
    requires WellFormed(pf, env) && !HasPositions(ActiveBook(pf))
    ensures var a := DeployToArms(p, pf, env); a.AllocateUsdg? || a.AllocateNvda? || a.BorrowUsdg? || a.Hold?
  {
  }

  /** Arm actions leave closed books closed, and the fee ledger as it is. */
  lemma ArmActionsOpenNothing(p: Params, pf: Pf, env: Env, a: Action)
    requires WellFormed(pf, env) && NoBookOpen(pf)
    requires !a.FundBook? && !a.SwitchBook? && !(a.RecenterBook? && HasPositions(ActiveBook(pf)))
    ensures var r := Execute(p, pf, env, a);
      |r.books| == 2 && NoBookOpen(r) && r.active == pf.active && r.cum.fees == pf.cum.fees
  {
    ApplyKeepsBooks(p, pf, env, a);
    var r := Apply(p, pf, env, a).pf;
    assert r.books == pf.books && r.active == pf.active && r.cum.fees == pf.cum.fees;
    hide Apply;
  }

  lemma StepStaysClosed(p: Params, pf: Pf, h: Hour, step: int)
    requires AsBuilt(p) && Sensible(p) && Ok(p, pf) && NoBookOpen(pf) && h.Valid()
    ensures NoBookOpen(Step(p, pf, h, step)) && Step(p, pf, h, step).cum.fees == pf.cum.fees
  {
    IncomeKeepsOk(p, pf, h.env, h.rows, step);
    ClosedBooksEarnNothing(p, pf, h, step);
    IncomeSizes(p, pf, h, step);
    var earned := Earned(p, pf, h, step);
    assert h.env.sqrtP > 0.0;
    hide HourIncome, Decide, Execute, BookOk, Marked;
    OnlyArmActions(p, earned, h, step);
    ArmActionsOpenNothing(p, earned, h.env, Decide(p, earned, h, step));
  }

  lemma ClosedBooksEarnNothing(p: Params, pf: Pf, h: Hour, step: int)
    requires Sensible(p) && Ok(p, pf) && NoBookOpen(pf) && h.Valid()
    ensures HourIncome(p, pf, h.env, h.rows, step).cum.fees == pf.cum.fees
  {
    assert BothIncomes(p, pf, h.env, h.rows, step) == pf;
    hide BothIncomes, Nav, LiquidatedArm, Liquidatable;
  }

  lemma NoneButTheActive(p: Params, pf: Pf)
    requires Ok(p, pf)
    ensures !ActiveBook(pf).deployed ==> NoBookOpen(pf)
  {
  }

  /**
   * One-way door, over every run on every tape: once the literal keeper's active book is undeployed, no
   * later state has a book open, and not one more dollar of fees is earned.
   */
  lemma {:induction false} DoorNeverReopens(p: Params, tape: seq<Hour>, m: nat, n: nat)
    requires AsBuilt(p) && Sensible(p) && SoundStart(p) && ValidTape(tape) && m <= n <= |tape|
    requires !ActiveBook(Run(p, tape, m)).deployed
    ensures NoBookOpen(Run(p, tape, n)) && Run(p, tape, n).cum.fees == Run(p, tape, m).cum.fees
    decreases n
  {
    hide Step, Ok, Marked, Initial;
    EveryRunIsOk(p, tape, m);
    NoneButTheActive(p, Run(p, tape, m));
    if m < n {
      DoorNeverReopens(p, tape, m, n - 1);
      EveryRunIsOk(p, tape, n - 1);
      StepStaysClosed(p, Run(p, tape, n - 1), tape[n - 1], n - 1);
    }
  }

  // ----- The fix -----

  /** An hour at which nothing speaks against a book: no pause, its pool NORMAL, past the buffer, and the best. */
  ghost predicate Calm(p: Params, i: Slot, h: Hour) {
    !h.Paused() && p.switchBufferBps >= 0.0
    && h.MarkOf(i).risk == Normal && h.MarkOf(i).netAprBps > p.switchBufferBps
    && (h.MarkOf(1 - i).risk == High || h.MarkOf(1 - i).netAprBps <= h.MarkOf(i).netAprBps)
  }

  /** A step past the warm-up at which the allocator's two clocks let it act. */
  predicate Acts(p: Params, step: int) {
    step >= p.warmupHours && OnClock(step, p.allocatorIntervalHours) && OnClock(step, p.opportunityCheckHours)
  }

  /** The arm is wound down to dust. */
  predicate WoundDown(arm: Arm) { arm.debt <= DUST_USD && arm.nvda <= DUST_NVDA && arm.lent <= DUST_USD }

  /** The allocator with its empty-book fix. */
  ghost predicate Fixed(p: Params) { p.policy == Allocator && p.fixEmptyBookGuard }

  lemma CalmKeepsThePool(p: Params, i: Slot, h: Hour)
    requires Calm(p, i, h)
    ensures DecidePoolSwitch(Candidates(h), Some(BookName(i)), p.switchBufferBps).HoldPool?
  {
    var cs, name := Candidates(h), BookName(i);
    var mine := cs[i];
    assert mine in cs && mine.risk != High && mine.name == name;
    RankingIsSound(cs, Some(name), p.switchBufferBps);
    var d := DecidePoolSwitch(cs, Some(name), p.switchBufferBps);
    hide DecidePoolSwitch;
    assert d.SwitchTo? ==> d.best.netAprBps > mine.netAprBps + p.switchBufferBps;
  }

  lemma FixedAllocatorReturns(p: Params, pf: Pf, h: Hour, step: int)
    requires Fixed(p) && WellFormed(pf, h.env) && !HasPositions(ActiveBook(pf)) && Calm(p, pf.active, h)
    ensures var a := DecideAllocator(p, pf, h, step);
      if Sentinel(p, pf, h.env).Some? then a == Sentinel(p, pf, h.env).value
      else a == ReturnToBooks(p, pf) || (a == Hold && !OnClock(step, p.opportunityCheckHours))
  {
    hide DecidePoolSwitch, ReturnToBooks, DeployToArms, Sentinel, OnClock, HasPositions, GuardAlarm;
    CalmKeepsThePool(p, pf.active, h);
  }

  /**
   * With the fix and no book open, a calm hour decides only the sentinel's repayment, the next step of the
   * return, or HOLD; and HOLD only off the clock.
   */
  lemma FixDecidesToReturn(p: Params, pf: Pf, h: Hour, step: int)
    requires Fixed(p) && Ok(p, pf) && NoBookOpen(pf) && h.env.sqrtP > 0.0 && Calm(p, pf.active, h)
    ensures var a := Decide(p, pf, h, step);
      (Sentinel(p, pf, h.env).Some? && a == Sentinel(p, pf, h.env).value)
      || (Sentinel(p, pf, h.env).None? && a == ReturnToBooks(p, pf)) || (!Acts(p, step) && a == Hold)
  {
    DeployedHasPositions(ActiveBook(pf));
    hide DecideAllocator, DecideByRisk, DecideAlways, DeployToArms, ReturnToBooks, Sentinel, OnClock, HasPositions,
      Calm, BookOk;
    FixedAllocatorReturns(p, pf, h, step);
  }

  lemma PositiveQuotient(avail: real, req: real)
    requires req > 0.0
    ensures avail / req > 0.0 <==> avail > 0.0
  {
    DivCompare(avail, req, 0.0, 1.0);
  }

  /** A scale is positive exactly when its cap is and every leg that is required is there. */
  lemma ScalePositive(cap: real, xa: real, ya: real, xr: real, yr: real)
    ensures ScaleWithin(cap, xa, ya, xr, yr) > 0.0 <==> cap > 0.0 && (xr > 0.0 ==> xa > 0.0) && (yr > 0.0 ==> ya > 0.0)
  {
    if xr > 0.0 { PositiveQuotient(xa, xr); }
    if yr > 0.0 { PositiveQuotient(ya, yr); }
  }

  lemma PartPositive(x: real, k: real)
    requires k >= 0.0
    ensures Part(x, k) > 0.0 <==> x > 0.0 && k > 0.0
  {
    if x > 0.0 && k > 0.0 {
      MulPos(x, k);
    } else if x <= 0.0 {
      MulNonneg(-x, k);
      assert (-x) * k == -(x * k);
    }
  }

  /**
   * Funding has something to open and to open it with: a part of the idle tokens may be used, the quote asks
   * for something, and of each leg it asks for there is some, after the swap in swap mode.
   */
  predicate Fundable(p: Params, pf: Pf, target: Slot, env: Env)
    requires |pf.books| == 2
  {
    var q := BookQuote(p, pf, target, env);
    var ready := PrepareFunding(p, pf, q, env);
    p.fundBookBps > 0.0 && (q.xReq > 0.0 || q.yReq > 0.0)
    && (q.xReq > 0.0 ==> ready.idleUsdg > 0.0) && (q.yReq > 0.0 ==> ready.idleNvda > 0.0)
  }

  /** The scale at which a prepared portfolio is funded is positive exactly when it is fundable. */
  lemma FundScalePositive(p: Params, ready: Pf, q: Quote)
    requires q.xReq > 0.0 || q.yReq > 0.0
    ensures FundScale(p, ready, q) > 0.0
      <==> p.fundBookBps > 0.0 && (q.xReq > 0.0 ==> ready.idleUsdg > 0.0) && (q.yReq > 0.0 ==> ready.idleNvda > 0.0)
  {
    var f := FundFraction(p);
    assert f > 0.0 <==> p.fundBookBps > 0.0;
    hide FundFraction, ScaleWithin, Part;
    PartPositive(ready.idleUsdg, f);
    PartPositive(ready.idleNvda, f);
    ScalePositive(f, ready.idleUsdg, ready.idleNvda, q.xReq, q.yReq);
    ScalePositive(1.0, Part(ready.idleUsdg, f), Part(ready.idleNvda, f), q.xReq, q.yReq);
  }

  lemma FundScaleIs(p: Params, pf: Pf, target: Slot, env: Env)
    requires |pf.books| == 2
    ensures Fund(p, pf, target, env).scale > 0.0 <==> Fundable(p, pf, target, env)
  {
    var q := BookQuote(p, pf, target, env);
    hide BookQuote, PrepareFunding, FundScale;
    if q.xReq > 0.0 || q.yReq > 0.0 {
      FundScalePositive(p, PrepareFunding(p, pf, q, env), q);
    }
  }

  /** A FUND_BOOK with no book open and no debt above dust opens the book if and only if it is fundable. */
  lemma FundingOpens(p: Params, pf: Pf, env: Env)
    requires Ok(p, pf) && NoBookOpen(pf) && env.sqrtP > 0.0 && pf.arm.debt <= DUST_USD
    ensures var r := Execute(p, pf, env, FundBook(pf.active));
      |r.books| == 2 && r.active == pf.active
      && (HasPositions(r.books[pf.active]) <==> Fundable(p, pf, pf.active, env))
      && (!Fundable(p, pf, pf.active, env) ==> NoBookOpen(r) && r.arm == pf.arm)
  {
    var r := Fund(p, pf, pf.active, env);
    FundScaleIs(p, pf, pf.active, env);
    FundLeaves(p, pf, pf.active, env);
    assert ActiveBook(pf).targetBaseL > 0.0;
    if r.scale > 0.0 {
      PartPositive(ActiveBook(pf).targetBaseL, r.scale);
    }
    DeployedHasPositions(ActiveBook(pf));
    hide Fund, Fundable, BookOk;
    ApplyKeepsBooks(p, pf, env, FundBook(pf.active));
    assert Apply(p, pf, env, FundBook(pf.active)) == Applied(r.pf, r.value > DUST_USD);
    hide PayGas, Apply, ModeOf;
    GasKeepsPositions(r.pf, p.gasCostUsd);
  }

  /** What a funding does to the books, by its scale; without a book opened, nothing was deployed. */
  lemma FundLeaves(p: Params, pf: Pf, target: Slot, env: Env)
    requires |pf.books| == 2
    ensures var r := Fund(p, pf, target, env);
      |r.pf.books| == 2 && r.pf.arm == pf.arm
      && (r.scale > 0.0 ==>
        r.pf.active == target && r.pf.books[target].deployed
        && r.pf.books[target].baseL == Part(pf.books[target].targetBaseL, r.scale))
      && (r.scale <= 0.0 ==> r.pf.books == pf.books && r.pf.active == pf.active && r.value == 0.0)
  {
    hide BookQuote, FundScale, SwapFor, Part;
  }

  lemma GasKeepsPositions(pf: Pf, gas: real)
    requires |pf.books| == 2
    ensures var r := PayGas(pf, gas);
      |r.books| == 2 && r.active == pf.active
      && forall i :: 0 <= i < 2 ==> (HasPositions(r.books[i]) <==> HasPositions(pf.books[i]))
  {
  }

  /** A book with a real base range always asks for some token, so only the funding share and the legs decide. */
  lemma QuoteAsks(p: Params, pf: Pf, target: Slot, env: Env)
    requires |pf.books| == 2 && BookOk(pf.books[target]) && env.sqrtP > 0.0 && p.baseWidthTicks > 0
    ensures BookQuote(p, pf, target, env).xReq > 0.0 || BookQuote(p, pf, target, env).yReq > 0.0
  {
    var q, b := BookQuote(p, pf, target, env), pf.books[target];
    TokensPositive(b.targetBaseL, env.sqrtP, q.baseLo, q.baseHi);
    TokensNonneg(b.targetBaseL, env.sqrtP, q.baseLo, q.baseHi);
    TokensNonneg(b.targetGuardL, env.sqrtP, q.guardLo, q.guardHi);
    hide TokenUsdg, TokenNvda;
  }

  /** In scale mode, some of both tokens always does. */
  lemma TokensMakeFundable(p: Params, pf: Pf, target: Slot, env: Env)
    requires |pf.books| == 2 && BookOk(pf.books[target]) && env.sqrtP > 0.0
    requires p.baseWidthTicks > 0 && p.fundBookBps > 0.0 && pf.idleUsdg > 0.0 && pf.idleNvda > 0.0 && !p.swapFunding
    ensures Fundable(p, pf, target, env)
  {
    QuoteAsks(p, pf, target, env);
    hide BookQuote;
  }
}
