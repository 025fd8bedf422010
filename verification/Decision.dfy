/** One keeper decision per hour: the policies and the planners they call. Nothing here changes state. */
module Decision {
  import opened RealMath
  import opened Lp
  import opened State
  import opened Fees
  import Moves
  import opened Income
  import opened Planner

  datatype Action =
    | Hold
    | AllocateUsdg(amount: real)
    | AllocateNvda(amount: real)
    | BorrowUsdg(amount: real)
    | RecallBook
    | Repay(amount: real)
    | WithdrawNvda(amount: real)
    | DeallocateUsdg(amount: real)
    | FundBook(book: Slot)
    | RecenterBook
    | SwitchBook(book: Slot)
    | UnknownAction

  /** What the hour's scan says of a book. */
  datatype Mark = Mark(risk: Risk, netAprBps: real)

  /**
   * Everything an hour brings from outside: the market row, both books' rows, the pause flags, the scan of
   * both books and whether the fee-versus-IL streak has run long enough to leave the book.
   */
  datatype Hour = Hour(env: Env, rows: Rows, depegPaused: bool, controllerPaused: bool, switchFrozen: bool,
                       markA: Mark, markB: Mark, feeIlStreak: bool)
  {
    ghost predicate Valid() { MarkedEnv(env) && rows.Valid() }

    predicate Paused() { depegPaused || controllerPaused || switchFrozen }

    function MarkOf(i: Slot): Mark { if i == 0 then markA else markB }

    function MovesOf(i: Slot): seq<int> { if i == 0 then rows.a.fiveMinMoves else rows.b.fiveMinMoves }
  }

  function BookName(i: Slot): string { if i == 0 then "bookA" else "bookB" }

  function Candidates(h: Hour): seq<Candidate> {
    [Candidate("bookA", 0, h.markA.risk, h.markA.netAprBps), Candidate("bookB", 1, h.markB.risk, h.markB.netAprBps)]
  }

  predicate WellFormed(pf: Pf, env: Env) { |pf.books| == 2 && env.sqrtP > 0.0 }

  function ActiveBook(pf: Pf): Book
    requires |pf.books| == 2
  {
    pf.books[pf.active]
  }

  // ----- Room left by the caps -----

  function LendRoom(p: Params, pf: Pf, env: Env): real
    requires WellFormed(pf, env)
  {
    Max(0.0, LendCap(p, pf, env) - pf.arm.lent)
  }

  /** NVDA that still fits under the collateral cap. */
  function CollateralRoom(p: Params, pf: Pf, env: Env): real
    requires WellFormed(pf, env)
  {
    if env.price > 0.0 then Max(0.0, CollateralCap(p, pf, env) - Usd(pf.arm.nvda, env.price)) / env.price else 0.0
  }

  /** The debt the collateral supports at the operator's target. */
  function DebtTarget(p: Params, pf: Pf, env: Env): real {
    BorrowSize(Usd(pf.arm.nvda, env.price), p.ltvBps, p.maxLtvBps, p.hardCapBps)
  }

  /** What may still be borrowed in one call. */
  function BorrowRoom(p: Params, pf: Pf, env: Env): real {
    Min(Min(Max(0.0, DebtTarget(p, pf, env) - pf.arm.debt), Max(0.0, p.borrowLiquidityUsd - pf.arm.debt)),
        p.maxBorrowPerCallUsd)
  }

  // ----- Planners over the portfolio -----

  function DeployToArms(p: Params, pf: Pf, env: Env): Action
    requires WellFormed(pf, env)
  {
    var plan := PlanArmEntry(pf.idleUsdg, pf.idleNvda, env.price, pf.arm.lent, pf.arm.nvda,
                             p.ltvBps, p.maxLtvBps, p.morphoShareBps, p.nvdaStepBps);
    var usdgMove := Min(Min(plan.usdgMove, pf.idleUsdg), LendRoom(p, pf, env));
    var nvdaMove := Min(Min(plan.nvdaMove, pf.idleNvda), CollateralRoom(p, pf, env));
    if usdgMove > DUST_USD then AllocateUsdg(usdgMove)
    else if nvdaMove > DUST_NVDA then AllocateNvda(nvdaMove)
    else if pf.arm.nvda > DUST_NVDA && BorrowRoom(p, pf, env) > DUST_USD then BorrowUsdg(BorrowRoom(p, pf, env))
    else if HasPositions(ActiveBook(pf)) then RecallBook
    else Hold
  }

  function ReturnToBooks(p: Params, pf: Pf): Action
    requires |pf.books| == 2
  {
    var arm := pf.arm;
    var plan := PlanBookReturn(arm.lent, arm.nvda, arm.debt, p.bookStepBps);
    if arm.debt > DUST_USD then
      var repay := Min(Min(plan.repay, Max(0.0, pf.idleUsdg + arm.lent)), arm.debt);
      if repay > DUST_USD then Repay(repay) else Hold
    else if arm.nvda > DUST_NVDA then WithdrawNvda(Max(0.0, plan.collateralOut))
    else if arm.lent > DUST_USD then DeallocateUsdg(Max(0.0, plan.usdgOut))
    else if !HasPositions(ActiveBook(pf)) then FundBook(pf.active)
    else Hold
  }

  /** Health factor; only asked of an arm with debt. */
  function HealthFactor(p: Params, arm: Arm, price: real): real
    requires arm.debt > 0.0
  {
    Moves.HealthOf(p.lltv, Usd(arm.nvda, price), arm.debt)
  }

  function Sentinel(p: Params, pf: Pf, env: Env): Option<Action> {
    var arm := pf.arm;
    if !p.sentinelEnabled || arm.debt <= DUST_USD || arm.nvda <= DUST_NVDA then None
    else if !(HealthFactor(p, arm, env.price) < p.minHealthFactor || p.armBorrowApr * BPS > p.maxBorrowAprBps) then None
    else
      var repay := Min(Min(Part(arm.debt, p.deleverBps / BPS), pf.idleUsdg + arm.lent), arm.debt);
      if repay <= DUST_USD then None else Some(Repay(repay))
  }

  function Recenter(p: Params, pf: Pf, env: Env): Option<Action>
    requires |pf.books| == 2
  {
    if p.recenterThresholdBps <= 0.0 || !HasPositions(ActiveBook(pf)) then None
    else
      var move := Abs(env.price / PriceFromTick(ActiveBook(pf).entryTick) - 1.0) * BPS;
      if move >= p.recenterThresholdBps then Some(RecenterBook) else None
  }

  /** What a sweep leaves behind of either token, in dollars. */
  function Reserve(p: Params, pf: Pf, env: Env): real
    requires WellFormed(pf, env)
  {
    Max(p.inventoryReserveUsd, p.inventoryReservePct * Nav(pf, env))
  }

  function Surplus(p: Params, pf: Pf, env: Env): Option<Action>
    requires WellFormed(pf, env)
  {
    if !p.surplusSweep || env.price <= 0.0 then None
    else
      var reserve := Reserve(p, pf, env);
      var nvda := Min(pf.idleNvda - reserve / env.price, CollateralRoom(p, pf, env));
      var usdg := Min(pf.idleUsdg - reserve, LendRoom(p, pf, env));
      if pf.idleNvda > reserve / env.price + p.surplusNvdaMinUsd / env.price && nvda > DUST_NVDA then
        Some(AllocateNvda(nvda))
      else if p.surplusBorrow && pf.arm.nvda > DUST_NVDA && BorrowRoom(p, pf, env) > DUST_USD then
        Some(BorrowUsdg(BorrowRoom(p, pf, env)))
      else if pf.idleUsdg > reserve + p.surplusUsdgMinUsd && usdg > DUST_USD then Some(AllocateUsdg(usdg))
      else None
  }

  // ----- Triggers -----

  function PullCount(p: Params, pf: Pf, h: Hour): int {
    if FirstPullBin(h.MovesOf(pf.active), p.guardPullThresholdBps).Some? then 1 else 0
  }

  /** The guard is missing, was pulled too recently, or is being pulled too often. */
  predicate GuardAlarm(p: Params, pf: Pf, h: Hour, step: int)
    requires |pf.books| == 2
  {
    var b := ActiveBook(pf);
    !b.guardPresent || (b.lastPull >= 0 && step - b.lastPull < p.guardCooldownHours)
    || PullCount(p, pf, h) > p.maxGuardPulls
  }

  /** The inactive book leads the active one by the buffer and clears the floor. */
  predicate OpportunityElsewhere(p: Params, pf: Pf, h: Hour) {
    var cur, other := h.MarkOf(pf.active), h.MarkOf(1 - pf.active);
    other.risk != High && other.netAprBps > Max(p.opportunityMinNetAprBps, cur.netAprBps + p.opportunityBufferBps)
  }

  function MaxInt(a: int, b: int): int { if a >= b then a else b }

  predicate OnClock(step: int, every: int) { step % MaxInt(1, every) == 0 }

  // ----- The policies -----

  function RecallOrHold(pf: Pf): Action
    requires |pf.books| == 2
  {
    if HasPositions(ActiveBook(pf)) then RecallBook else Hold
  }

  /** Leave the arms, or fund an empty book; a funded book in book mode is held. */
  function HomeOrHold(p: Params, pf: Pf): Action
    requires |pf.books| == 2
  {
    if pf.mode == ArmsMode || !HasPositions(ActiveBook(pf)) then ReturnToBooks(p, pf) else Hold
  }

  function DecideByRisk(p: Params, pf: Pf, h: Hour, step: int): Action
    requires WellFormed(pf, h.env)
  {
    var funded, high := HasPositions(ActiveBook(pf)), h.MarkOf(pf.active).risk == High;
    if h.Paused() then RecallOrHold(pf)
    else if Sentinel(p, pf, h.env).Some? then Sentinel(p, pf, h.env).value
    else if pf.active == 1 && high && h.markA.risk != High then SwitchBook(0)
    else if (funded && GuardAlarm(p, pf, h, step)) || high then DeployToArms(p, pf, h.env)
    else if Recenter(p, pf, h.env).Some? then Recenter(p, pf, h.env).value
    else if p.policy == RiskFeeIl && funded && h.feeIlStreak then DeployToArms(p, pf, h.env)
    else if funded && pf.mode == BooksMode && Surplus(p, pf, h.env).Some? then Surplus(p, pf, h.env).value
    else if p.opportunityWindowHours > 0 && funded && pf.mode == BooksMode
      && OnClock(step, p.opportunityCheckHours) && OpportunityElsewhere(p, pf, h) then SwitchBook(1 - pf.active)
    else HomeOrHold(p, pf)
  }

  function DecideAlways(target: Slot, pf: Pf): Action
    requires |pf.books| == 2
  {
    if target != pf.active && HasPositions(ActiveBook(pf)) then SwitchBook(target)
    else if target == pf.active && HasPositions(pf.books[target]) then Hold
    else FundBook(target)
  }

  function DecideAllocator(p: Params, pf: Pf, h: Hour, step: int): Action
    requires WellFormed(pf, h.env)
  {
    var alarm := GuardAlarm(p, pf, h, step) && (p.fixEmptyBookGuard ==> HasPositions(ActiveBook(pf)));
    if h.Paused() then RecallOrHold(pf)
    else if Sentinel(p, pf, h.env).Some? then Sentinel(p, pf, h.env).value
    else if alarm || h.MarkOf(pf.active).risk == High then DeployToArms(p, pf, h.env)
    else if pf.mode != ArmsMode && Recenter(p, pf, h.env).Some? then Recenter(p, pf, h.env).value
    else if pf.mode != ArmsMode && !OnClock(step, p.opportunityCheckHours) then Hold
    else
      match DecidePoolSwitch(Candidates(h), Some(BookName(pf.active)), p.switchBufferBps)
      case ToArms => DeployToArms(p, pf, h.env)
      case HoldPool(_) => HomeOrHold(p, pf)
      case SwitchTo(best) => if pf.mode == ArmsMode then ReturnToBooks(p, pf) else SwitchBook(best.book)
  }

  function Decide(p: Params, pf: Pf, h: Hour, step: int): Action
    requires WellFormed(pf, h.env)
  {
    if step < p.warmupHours && p.policy != Hodl && p.policy != AlwaysArms then Hold
    else if (p.policy == Allocator || p.policy == RiskOnly) && !OnClock(step, p.allocatorIntervalHours) then Hold
    else
      match p.policy
      case Hodl => Hold
      case AlwaysArms => DeployToArms(p, pf, h.env)
      case RiskOnly => DecideByRisk(p, pf, h, step)
      case RiskFeeIl => DecideByRisk(p, pf, h, step)
      case AlwaysA => DecideAlways(0, pf)
      case AlwaysB => DecideAlways(1, pf)
      case Allocator => DecideAllocator(p, pf, h, step)
  }
}
