/** What the policies choose when nothing alarms: re-centre, sweep, move to the better book, come home, or hold. */
module Choices {
  import opened RealMath
  import opened Lp
  import opened State
  import opened Moves
  import opened Invariant
  import opened Planner
  import opened Decision
  import opened Safety
  import opened Retreat
  import opened Alarms

  // ----- Triggers, in the market's own terms -----

  /** The mark has left the price of the entry tick by at least the threshold. */
  ghost predicate OffCentre(p: Params, b: Book, env: Env) {
    var entry := PriceFromTick(b.entryTick);
    HasPositions(b) && p.recenterThresholdBps > 0.0
    && p.recenterThresholdBps * entry <= BPS * Abs(env.price - entry)
  }

  lemma AbsQuotient(x: real, y: real)
    requires y > 0.0
    ensures Abs(x / y - 1.0) == Abs(x - y) / y
  {
    var q := x / y;
    assert q * y == x;
    assert (q - 1.0) * y == x - y;
    MulDiv(q - 1.0, y);
    if q >= 1.0 { MulNonneg(q - 1.0, y); } else { MulPos(1.0 - q, y); assert (1.0 - q) * y == y - x; MulDiv(1.0 - q, y); }
  }

  lemma PriceIsPositive(tick: int)
    ensures PriceFromTick(tick) > 0.0
  {
    TickIsMarked(tick);
    MarkedPrice(SqrtAtTick(tick), PriceFromTick(tick));
  }

  lemma RecenterIsDue(p: Params, pf: Pf, env: Env)
    requires |pf.books| == 2
    ensures Recenter(p, pf, env) == if OffCentre(p, ActiveBook(pf), env) then Some(RecenterBook) else None
  {
    var entry := PriceFromTick(ActiveBook(pf).entryTick);
    PriceIsPositive(ActiveBook(pf).entryTick);
    hide PriceFromTick, HasPositions;
    AbsQuotient(env.price, entry);
    var d := Abs(env.price - entry);
    DivCompare(p.recenterThresholdBps, BPS, d, entry);
    assert d / entry * BPS >= p.recenterThresholdBps <==> p.recenterThresholdBps * entry <= BPS * d by {
      assert p.recenterThresholdBps / BPS * BPS == p.recenterThresholdBps;
    }
  }

  /** The other book is not HIGH, clears the floor, and leads by the buffer. */
  ghost predicate OtherLeads(p: Params, pf: Pf, h: Hour) {
    var here, there := if pf.active == 0 then h.markA else h.markB, if pf.active == 0 then h.markB else h.markA;
    there.risk != High && there.netAprBps > p.opportunityMinNetAprBps
    && there.netAprBps > here.netAprBps + p.opportunityBufferBps
  }

  /** In its book, and nothing in the arm. */
  ghost predicate AtHome(pf: Pf)
    requires |pf.books| == 2
  {
    HasPositions(ActiveBook(pf)) && pf.mode == BooksMode
  }

  /** On the hours of a clock; a clock of no hours strikes every hour. */
  ghost predicate Strikes(step: int, every: int) { every <= 1 || step % every == 0 }

  // ----- The way home, one slice at a time -----

  /** A step's part of an amount, or all of it when that part would be dust. */
  ghost function StepOf(p: Params, amount: real, dust: real): real {
    var part := Part(amount, Min(BPS, p.bookStepBps) / BPS);
    if part < dust then amount else part
  }

  /**
   * The next step home: first the debt, by a slice of it or what there is to repay it with; then the collateral; then
   * the loan; then the book, if it is not open yet.
   */
  lemma NextStepHome(p: Params, pf: Pf)
    requires |pf.books| == 2 && ArmOk(pf.arm)
    ensures var arm := pf.arm;
      var repay := Min(Min(StepOf(p, arm.debt, 1.0), pf.idleUsdg + arm.lent), arm.debt);
      ReturnToBooks(p, pf)
      == if arm.debt > 1.0 then (if repay > 1.0 then Repay(repay) else Hold)
         else if arm.nvda > 0.001 then WithdrawNvda(StepOf(p, arm.nvda, 0.001))
         else if arm.lent > 1.0 then DeallocateUsdg(StepOf(p, arm.lent, 1.0))
         else if HasPositions(ActiveBook(pf)) then Hold
         else FundBook(pf.active)
  {
    hide HasPositions, Part;
  }

  // ----- The sentinel and the sweep -----

  /** The arm is below the health floor, or borrowing costs too much, and there is debt and collateral to speak of. */
  ghost predicate Strained(p: Params, arm: Arm, price: real) {
    p.sentinelEnabled && arm.debt > 1.0 && arm.nvda > 0.001
    && (p.lltv * Usd(arm.nvda, price) < p.minHealthFactor * arm.debt || p.armBorrowApr * BPS > p.maxBorrowAprBps)
  }

  /** The sentinel repays its share of a strained arm's debt, or what there is to repay it with, if more than dust. */
  lemma SentinelRepays(p: Params, pf: Pf, env: Env)
    ensures var arm := pf.arm;
      var repay := Min(Min(Part(arm.debt, p.deleverBps / BPS), pf.idleUsdg + arm.lent), arm.debt);
      Sentinel(p, pf, env) == if Strained(p, arm, env.price) && repay > 1.0 then Some(Repay(repay)) else None
  {
    if pf.arm.debt > 1.0 {
      HealthBelow(p.lltv, Usd(pf.arm.nvda, env.price), pf.arm.debt, p.minHealthFactor);
    }
    hide Usd, Part;
  }

  lemma HealthBelow(lltv: real, value: real, debt: real, floor: real)
    requires debt > 0.0
    ensures HealthOf(lltv, value, debt) < floor <==> lltv * value < floor * debt
  {
    DivCompare(floor, 1.0, lltv * value, debt);
  }

  /** So much NVDA may be swept: the reserve stays idle, and the collateral stays under its cap. */
  ghost predicate SweepNvdaFits(p: Params, pf: Pf, env: Env, reserve: real, y: real)
    requires WellFormed(pf, env)
  {
    Usd(pf.idleNvda - y, env.price) >= reserve && Usd(pf.arm.nvda + y, env.price) <= CollateralCap(p, pf, env)
  }

  ghost predicate SweepUsdgFits(p: Params, pf: Pf, env: Env, reserve: real, x: real)
    requires WellFormed(pf, env)
  {
    pf.idleUsdg - x >= reserve && pf.arm.lent + x <= LendCap(p, pf, env)
  }

  /** NVDA worth more than the reserve and its minimum, and more than dust of it that fits. */
  ghost predicate SweepsNvda(p: Params, pf: Pf, env: Env, reserve: real)
    requires WellFormed(pf, env)
  {
    Usd(pf.idleNvda, env.price) > reserve + p.surplusNvdaMinUsd
    && exists y :: y > 0.001 && SweepNvdaFits(p, pf, env, reserve, y)
  }

  ghost predicate SweepsDebt(p: Params, pf: Pf, env: Env) {
    p.surplusBorrow && exists x :: x > 1.0 && BorrowFits(p, pf, env, x)
  }

  ghost predicate SweepsUsdg(p: Params, pf: Pf, env: Env, reserve: real)
    requires WellFormed(pf, env)
  {
    pf.idleUsdg > reserve + p.surplusUsdgMinUsd && exists x :: x > 1.0 && SweepUsdgFits(p, pf, env, reserve, x)
  }

  /** The sweep: of what is above the reserve, NVDA first, then a borrow if it is wanted, then USDG, each to its limit. */
  ghost predicate Sweeps(p: Params, pf: Pf, env: Env, reserve: real, r: Option<Action>)
    requires WellFormed(pf, env)
  {
    match r
    case Some(AllocateNvda(y)) =>
      SweepsNvda(p, pf, env, reserve) && SweepNvdaFits(p, pf, env, reserve, y)
      && forall k :: SweepNvdaFits(p, pf, env, reserve, k) ==> k <= y
    case Some(BorrowUsdg(x)) =>
      !SweepsNvda(p, pf, env, reserve) && SweepsDebt(p, pf, env)
      && BorrowFits(p, pf, env, x) && forall k :: BorrowFits(p, pf, env, k) ==> k <= x
    case Some(AllocateUsdg(x)) =>
      !SweepsNvda(p, pf, env, reserve) && !SweepsDebt(p, pf, env) && SweepsUsdg(p, pf, env, reserve)
      && SweepUsdgFits(p, pf, env, reserve, x) && forall k :: SweepUsdgFits(p, pf, env, reserve, k) ==> k <= x
    case Some(_) => false
    case None => !SweepsNvda(p, pf, env, reserve) && !SweepsDebt(p, pf, env) && !SweepsUsdg(p, pf, env, reserve)
  }

  function NvdaMove(p: Params, pf: Pf, env: Env, reserve: real): real
    requires WellFormed(pf, env) && env.price > 0.0
  {
    Min(pf.idleNvda - reserve / env.price, CollateralRoom(p, pf, env))
  }

  lemma NvdaMoveIsLargest(p: Params, pf: Pf, env: Env, reserve: real, y: real)
    requires WellFormed(pf, env) && env.price > 0.0 && y > 0.0
    ensures SweepNvdaFits(p, pf, env, reserve, y) <==> y <= NvdaMove(p, pf, env, reserve)
  {
    hide CollateralCap, CollateralRoom, Usd;
    RoomIsTheCap(p, pf, env, y);
    KeepsReserve(pf.idleNvda, reserve, env.price, y);
  }

  lemma KeepsReserve(idle: real, reserve: real, price: real, y: real)
    requires price > 0.0
    ensures Usd(idle - y, price) >= reserve <==> y <= idle - reserve / price
  {
    DivCompare(reserve, price, idle - y, 1.0);
  }

  lemma NvdaAbove(idle: real, reserve: real, least: real, price: real)
    requires price > 0.0
    ensures idle > reserve / price + least / price <==> Usd(idle, price) > reserve + least
  {
    DivCompare(idle, 1.0, reserve + least, price);
    assert (reserve + least) / price == reserve / price + least / price;
  }

  lemma UsdgMoveIsLargest(p: Params, pf: Pf, env: Env, reserve: real, x: real)
    requires WellFormed(pf, env) && x > 0.0
    ensures SweepUsdgFits(p, pf, env, reserve, x) <==> x <= Min(pf.idleUsdg - reserve, LendRoom(p, pf, env))
  {
    hide LendCap;
  }

  lemma SurplusIsOf(p: Params, pf: Pf, env: Env, reserve: real)
    requires WellFormed(pf, env) && p.surplusSweep && env.price > 0.0 && reserve == Reserve(p, pf, env)
    ensures var nvda, usdg := NvdaMove(p, pf, env, reserve), Min(pf.idleUsdg - reserve, LendRoom(p, pf, env));
      Surplus(p, pf, env)
      == if Usd(pf.idleNvda, env.price) > reserve + p.surplusNvdaMinUsd && nvda > 0.001 then Some(AllocateNvda(nvda))
         else if p.surplusBorrow && pf.arm.nvda > 0.001 && BorrowRoom(p, pf, env) > 1.0 then
           Some(BorrowUsdg(BorrowRoom(p, pf, env)))
         else if pf.idleUsdg > reserve + p.surplusUsdgMinUsd && usdg > 1.0 then Some(AllocateUsdg(usdg))
         else None
  {
    hide Reserve, CollateralRoom, LendRoom, BorrowRoom, Usd;
    NvdaAbove(pf.idleNvda, reserve, p.surplusNvdaMinUsd, env.price);
  }

  lemma MovesFit(p: Params, pf: Pf, env: Env, reserve: real)
    requires WellFormed(pf, env) && env.price > 0.0
    ensures forall y :: y > 0.0 ==> (SweepNvdaFits(p, pf, env, reserve, y) <==> y <= NvdaMove(p, pf, env, reserve))
    ensures forall x :: x > 0.0 ==>
      (SweepUsdgFits(p, pf, env, reserve, x) <==> x <= Min(pf.idleUsdg - reserve, LendRoom(p, pf, env)))
  {
    hide SweepNvdaFits, SweepUsdgFits, NvdaMove, LendRoom;
    forall y | y > 0.0 ensures SweepNvdaFits(p, pf, env, reserve, y) <==> y <= NvdaMove(p, pf, env, reserve) {
      NvdaMoveIsLargest(p, pf, env, reserve, y);
    }
    forall x | x > 0.0
      ensures SweepUsdgFits(p, pf, env, reserve, x) <==> x <= Min(pf.idleUsdg - reserve, LendRoom(p, pf, env))
    {
      UsdgMoveIsLargest(p, pf, env, reserve, x);
    }
  }

  lemma SweepTriggers(p: Params, pf: Pf, env: Env, reserve: real)
    requires WellFormed(pf, env) && env.price > 0.0 && pf.arm.nvda >= 0.0 && pf.arm.debt >= 0.0
    ensures var nvda, usdg := NvdaMove(p, pf, env, reserve), Min(pf.idleUsdg - reserve, LendRoom(p, pf, env));
      (SweepsNvda(p, pf, env, reserve) <==>
        Usd(pf.idleNvda, env.price) > reserve + p.surplusNvdaMinUsd && nvda > 0.001)
      && (SweepsDebt(p, pf, env) <==> p.surplusBorrow && pf.arm.nvda > 0.001 && BorrowRoom(p, pf, env) > 1.0)
      && (SweepsUsdg(p, pf, env, reserve) <==> pf.idleUsdg > reserve + p.surplusUsdgMinUsd && usdg > 1.0)
  {
    hide SweepNvdaFits, SweepUsdgFits, BorrowFits, BorrowRoom, LendRoom, NvdaMove, Usd;
    MovesFit(p, pf, env, reserve);
    BorrowBelow(p, pf, env);
    var nvda, usdg := NvdaMove(p, pf, env, reserve), Min(pf.idleUsdg - reserve, LendRoom(p, pf, env));
    if nvda > 0.001 { assert SweepNvdaFits(p, pf, env, reserve, nvda); }
    if usdg > 1.0 { assert SweepUsdgFits(p, pf, env, reserve, usdg); }
    if pf.arm.nvda > 0.001 && BorrowRoom(p, pf, env) > 1.0 { assert BorrowFits(p, pf, env, BorrowRoom(p, pf, env)); }
  }

  /** What the sweep decides; the reserve is the larger of its fixed amount and its share of the NAV. */
  lemma SweepTakesTheSurplus(p: Params, pf: Pf, env: Env)
    requires WellFormed(pf, env) && env.price > 0.0 && pf.arm.nvda >= 0.0 && pf.arm.debt >= 0.0
    ensures !p.surplusSweep ==> Surplus(p, pf, env).None?
    ensures p.surplusSweep ==>
      Sweeps(p, pf, env, Max(p.inventoryReserveUsd, p.inventoryReservePct * Nav(pf, env)), Surplus(p, pf, env))
  {
    if p.surplusSweep {
      var reserve := Reserve(p, pf, env);
      assert reserve == Max(p.inventoryReserveUsd, p.inventoryReservePct * Nav(pf, env));
      hide Surplus, Reserve, SweepNvdaFits, SweepUsdgFits, BorrowFits, BorrowRoom, LendRoom, NvdaMove, Nav, Usd;
      hide SweepsNvda, SweepsDebt, SweepsUsdg, Max;
      SurplusIsOf(p, pf, env, reserve);
      MovesFit(p, pf, env, reserve);
      BorrowBelow(p, pf, env);
      SweepTriggers(p, pf, env, reserve);
    }
  }

  // ----- The risk policies -----

  /**
   * A calm hour of the risk policies: a book off centre is re-centred; at home the surplus is swept, failing that the
   * keeper moves to a book that leads, on the opportunity clock, failing that it holds; away from home it takes the
   * next step back.
   */
  lemma CalmRiskHour(p: Params, pf: Pf, h: Hour, step: int)
    requires (p.policy == RiskOnly || p.policy == RiskFeeIl) && Listens(p, step) && !h.Paused()
    requires WellFormed(pf, h.env) && Sentinel(p, pf, h.env).None? && !Alarmed(p, pf, h, step)
    ensures var moves := p.opportunityWindowHours > 0 && Strikes(step, p.opportunityCheckHours) && OtherLeads(p, pf, h);
      Decide(p, pf, h, step)
      == if OffCentre(p, ActiveBook(pf), h.env) then RecenterBook
         else if !AtHome(pf) then ReturnToBooks(p, pf)
         else if Surplus(p, pf, h.env).Some? then Surplus(p, pf, h.env).value
         else if moves then SwitchBook(1 - pf.active)
         else Hold
  {
    hide DeployToArms, Sentinel, Recenter, Surplus, ReturnToBooks, HasPositions, GuardTrouble, OffCentre;
    GuardTroubleAlarms(p, pf, h, step);
    RecenterIsDue(p, pf, h.env);
    hide GuardAlarm;
  }

  // ----- The allocator -----

  /** The ranking prefers the other book: it is eligible, clears the buffer, leads by it, and comes first. */
  ghost predicate OtherWins(p: Params, pf: Pf, h: Hour) {
    var here, there := if pf.active == 0 then h.markA else h.markB, if pf.active == 0 then h.markB else h.markA;
    there.risk != High && there.netAprBps > p.switchBufferBps && there.netAprBps > here.netAprBps + p.switchBufferBps
    && (there.netAprBps > here.netAprBps || (there.netAprBps == here.netAprBps && pf.active == 1))
  }

  /** No book clears the buffer. */
  ghost predicate NoneClears(p: Params, h: Hour) {
    (h.markA.risk == High || h.markA.netAprBps <= p.switchBufferBps)
    && (h.markB.risk == High || h.markB.netAprBps <= p.switchBufferBps)
  }

  lemma FirstOfTwo(h: Hour)
    ensures var cs := Candidates(h);
      FirstBest(cs)
      == if h.markB.risk != High && (h.markA.risk == High || h.markB.netAprBps > h.markA.netAprBps) then Some(cs[1])
         else if h.markA.risk != High then Some(cs[0])
         else None
  {
    var cs := Candidates(h);
    assert cs == [] + [cs[0]] + [cs[1]];
    FirstBestOfLonger([], cs[0]);
    FirstBestOfLonger([] + [cs[0]], cs[1]);
    hide FirstBest;
    assert FirstBest([]) == None by { FirstBestIs([]); }
  }

  lemma RankingOfTwo(p: Params, pf: Pf, h: Hour)
    requires h.MarkOf(pf.active).risk != High
    ensures DecidePoolSwitch(Candidates(h), Some(BookName(pf.active)), p.switchBufferBps)
      == if NoneClears(p, h) then ToArms
         else if OtherWins(p, pf, h) then SwitchTo(Candidates(h)[1 - pf.active])
         else HoldPool(BookName(pf.active))
  {
    var cs, name := Candidates(h), BookName(pf.active);
    FirstOfTwo(h);
    RankingDecides(cs, Some(name), p.switchBufferBps);
    hide FirstBest, DecidePoolSwitch;
    assert cs[0] in cs && cs[1] in cs && cs[0].name == "bookA" && cs[1].name == "bookB";
    assert "bookA"[4] != "bookB"[4];
    assert forall c :: c in cs ==> c == cs[0] || c == cs[1];
  }

  /**
   * A calm hour of the allocator: a book off centre is re-centred unless the keeper is in the arms, and there the
   * clock does not matter; otherwise, on the opportunity clock, it leaves the books when no pool clears the buffer,
   * goes on home from the arms, moves to a book that wins, and holds a funded one.
   */
  lemma CalmAllocatorHour(p: Params, pf: Pf, h: Hour, step: int)
    requires p.policy == Allocator && Listens(p, step) && Strikes(step, p.allocatorIntervalHours) && !h.Paused()
    requires WellFormed(pf, h.env) && Sentinel(p, pf, h.env).None? && h.MarkOf(pf.active).risk != High
    requires !GuardTrouble(p, ActiveBook(pf), h.MovesOf(pf.active), step)
      || (p.fixEmptyBookGuard && !HasPositions(ActiveBook(pf)))
    ensures var inArms := pf.mode == ArmsMode;
      Decide(p, pf, h, step)
      == if !inArms && OffCentre(p, ActiveBook(pf), h.env) then RecenterBook
         else if !inArms && !Strikes(step, p.opportunityCheckHours) then Hold
         else if NoneClears(p, h) then DeployToArms(p, pf, h.env)
         else if !inArms && OtherWins(p, pf, h) then SwitchBook(1 - pf.active)
         else if AtHome(pf) then Hold
         else ReturnToBooks(p, pf)
  {
    hide DeployToArms, Sentinel, Recenter, Surplus, ReturnToBooks, DecidePoolSwitch, HasPositions;
    hide GuardTrouble, OffCentre;
    GuardTroubleAlarms(p, pf, h, step);
    RecenterIsDue(p, pf, h.env);
    RankingOfTwo(p, pf, h);
    hide GuardAlarm, NoneClears, OtherWins;
  }

  // ----- The others -----

  /** The clocks: hodl never acts, always_arms always, and the rest not before the warm-up is over or off their clock. */
  lemma OffTheClockHolds(p: Params, pf: Pf, h: Hour, step: int)
    requires WellFormed(pf, h.env)
    requires p.policy == Hodl || (p.policy != AlwaysArms && step < p.warmupHours)
      || ((p.policy == Allocator || p.policy == RiskOnly) && !Strikes(step, p.allocatorIntervalHours))
    ensures Decide(p, pf, h, step) == Hold
  {
    hide DecideByRisk, DecideAllocator, DeployToArms, HasPositions;
  }

  /** always_a and always_b hold their own open book, leave another open book for it, and fund it otherwise. */
  lemma AlwaysGoesHome(p: Params, pf: Pf, h: Hour, step: int, home: Slot)
    requires WellFormed(pf, h.env) && step >= p.warmupHours
    requires (p.policy == AlwaysA && home == 0) || (p.policy == AlwaysB && home == 1)
    ensures Decide(p, pf, h, step)
      == if pf.active != home && HasPositions(pf.books[1 - home]) then SwitchBook(home)
         else if pf.active == home && HasPositions(pf.books[home]) then Hold
         else FundBook(home)
  {
    hide HasPositions;
  }
}
