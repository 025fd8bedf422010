/** What an alarm decides: the keeper leaves the book, one entry action at a time, and never just holds. */
module Alarms {
  import opened RealMath
  import opened Lp
  import opened State
  import opened Moves
  import opened Invariant
  import opened Planner
  import opened Decision
  import opened Safety
  import opened Retreat

  // ----- The entry actions, by what fits -----

  /** So much more may be lent: it is idle, under the cap, and keeps the lend arm within its share of the quote. */
  ghost predicate LendFits(p: Params, pf: Pf, env: Env, x: real)
    requires WellFormed(pf, env)
  {
    x <= pf.idleUsdg && pf.arm.lent + x <= LendCap(p, pf, env)
    && pf.arm.lent + x <= Part(pf.idleUsdg + pf.arm.lent, Min(BPS, p.morphoShareBps) / BPS)
  }

  /** So much more may be pledged: it is idle, within the step, and the collateral stays under its cap. */
  ghost predicate PledgeFits(p: Params, pf: Pf, env: Env, y: real)
    requires WellFormed(pf, env)
  {
    y <= pf.idleNvda && y <= Part(pf.idleNvda + pf.arm.nvda, Min(BPS, p.nvdaStepBps) / BPS)
    && Usd(pf.arm.nvda + y, env.price) <= CollateralCap(p, pf, env)
  }

  /** So much more may be borrowed: within the three loan-to-value limits, the market's liquidity and the call limit. */
  ghost predicate BorrowFits(p: Params, pf: Pf, env: Env, x: real) {
    var cv := Usd(pf.arm.nvda, env.price);
    pf.arm.nvda > 0.001 && x <= p.maxBorrowPerCallUsd && pf.arm.debt + x <= p.borrowLiquidityUsd
    && pf.arm.debt + x <= Part(cv, p.ltvBps / BPS) && pf.arm.debt + x <= Part(cv, p.maxLtvBps / BPS)
    && pf.arm.debt + x <= Part(cv, p.hardCapBps / BPS)
  }

  ghost predicate NothingToLend(p: Params, pf: Pf, env: Env)
    requires WellFormed(pf, env)
  {
    forall x :: LendFits(p, pf, env, x) ==> x <= 1.0
  }

  ghost predicate NothingToPledge(p: Params, pf: Pf, env: Env)
    requires WellFormed(pf, env)
  {
    forall y :: PledgeFits(p, pf, env, y) ==> y <= 0.001
  }

  ghost predicate NothingToBorrow(p: Params, pf: Pf, env: Env) {
    forall x :: BorrowFits(p, pf, env, x) ==> x <= 1.0
  }

  /**
   * The one action that leaves the books: lend as much as fits if that is more than dust; failing that pledge, then
   * borrow; then recall the book if one is open; and hold only when there is nothing of it all.
   */
  ghost predicate Leaves(p: Params, pf: Pf, env: Env, a: Action)
    requires WellFormed(pf, env)
  {
    match a
    case AllocateUsdg(x) =>
      x > 1.0 && LendFits(p, pf, env, x) && forall k :: LendFits(p, pf, env, k) ==> k <= x
    case AllocateNvda(y) =>
      NothingToLend(p, pf, env)
      && y > 0.001 && PledgeFits(p, pf, env, y) && forall k :: PledgeFits(p, pf, env, k) ==> k <= y
    case BorrowUsdg(x) =>
      NothingToLend(p, pf, env) && NothingToPledge(p, pf, env)
      && x > 1.0 && BorrowFits(p, pf, env, x) && forall k :: BorrowFits(p, pf, env, k) ==> k <= x
    case RecallBook =>
      HasPositions(ActiveBook(pf))
      && NothingToLend(p, pf, env) && NothingToPledge(p, pf, env) && NothingToBorrow(p, pf, env)
    case Hold =>
      !HasPositions(ActiveBook(pf))
      && NothingToLend(p, pf, env) && NothingToPledge(p, pf, env) && NothingToBorrow(p, pf, env)
    case _ => false
  }

  /** The planned loan, pledge and borrow. */
  function LendMove(p: Params, pf: Pf, env: Env): real
    requires WellFormed(pf, env)
  {
    var plan := PlanArmEntry(pf.idleUsdg, pf.idleNvda, env.price, pf.arm.lent, pf.arm.nvda,
                             p.ltvBps, p.maxLtvBps, p.morphoShareBps, p.nvdaStepBps);
    Min(Min(plan.usdgMove, pf.idleUsdg), LendRoom(p, pf, env))
  }

  function PledgeMove(p: Params, pf: Pf, env: Env): real
    requires WellFormed(pf, env)
  {
    var plan := PlanArmEntry(pf.idleUsdg, pf.idleNvda, env.price, pf.arm.lent, pf.arm.nvda,
                             p.ltvBps, p.maxLtvBps, p.morphoShareBps, p.nvdaStepBps);
    Min(Min(plan.nvdaMove, pf.idleNvda), CollateralRoom(p, pf, env))
  }

  lemma LendMoveIsLargest(p: Params, pf: Pf, env: Env, x: real)
    requires WellFormed(pf, env) && pf.arm.lent >= 0.0 && x > 1.0
    ensures LendFits(p, pf, env, x) <==> x <= LendMove(p, pf, env)
  {
    hide LendCap, BorrowSize, Usd, Part;
  }

  /** So much more collateral fits under the cap exactly when it fits the room. */
  lemma RoomIsTheCap(p: Params, pf: Pf, env: Env, y: real)
    requires WellFormed(pf, env) && env.price > 0.0 && y > 0.0
    ensures Usd(pf.arm.nvda + y, env.price) <= CollateralCap(p, pf, env) <==> y <= CollateralRoom(p, pf, env)
  {
    UsdAdds(pf.arm.nvda, y, env.price);
    MulPos(y, env.price);
    assert Usd(y, env.price) == y * env.price;
    hide CollateralCap, Usd;
    DivCompare(y, 1.0, Max(0.0, CollateralCap(p, pf, env) - Usd(pf.arm.nvda, env.price)), env.price);
  }

  lemma PledgeMoveIsLargest(p: Params, pf: Pf, env: Env, y: real)
    requires WellFormed(pf, env) && env.price > 0.0 && pf.arm.nvda >= 0.0 && y > 0.001
    ensures PledgeFits(p, pf, env, y) <==> y <= PledgeMove(p, pf, env)
  {
    hide CollateralCap, CollateralRoom, BorrowSize, Usd, Part;
    RoomIsTheCap(p, pf, env, y);
  }

  lemma BorrowRoomIsLargest(p: Params, pf: Pf, env: Env, x: real)
    requires Usd(pf.arm.nvda, env.price) >= 0.0 && pf.arm.debt >= 0.0 && pf.arm.nvda > 0.001 && x > 1.0
    ensures BorrowFits(p, pf, env, x) <==> x <= BorrowRoom(p, pf, env)
  {
    WithinAllowed(Usd(pf.arm.nvda, env.price), p.ltvBps, p.maxLtvBps, p.hardCapBps, pf.arm.debt + x);
    hide Usd, Part, BorrowSize;
  }

  lemma WithinAllowed(cv: real, ltv: real, maxLtv: real, hardCap: real, debt: real)
    requires cv >= 0.0 && debt > 0.0
    ensures debt <= BorrowSize(cv, ltv, maxLtv, hardCap)
      <==> debt <= Part(cv, ltv / BPS) && debt <= Part(cv, maxLtv / BPS) && debt <= Part(cv, hardCap / BPS)
  {
    if debt <= BorrowSize(cv, ltv, maxLtv, hardCap) {
      AllowedIsWithin(cv, ltv, maxLtv, hardCap, debt);
    } else if Min(Min(ltv, maxLtv), hardCap) < 0.0 {
      PartOfNegative(cv, Min(Min(ltv, maxLtv), hardCap) / BPS);
      hide Part;
    } else {
      hide Part;
    }
  }

  lemma PartOfNegative(cv: real, k: real)
    requires cv >= 0.0 && k <= 0.0
    ensures Part(cv, k) <= 0.0
  {
    MulNonneg(cv, -k);
    assert cv * -k == -(cv * k);
  }

  lemma FitsBelow(p: Params, pf: Pf, env: Env)
    requires WellFormed(pf, env) && env.price > 0.0 && pf.arm.nvda >= 0.0 && pf.arm.lent >= 0.0
    ensures forall x :: x > 1.0 ==> (LendFits(p, pf, env, x) <==> x <= LendMove(p, pf, env))
    ensures forall y :: y > 0.001 ==> (PledgeFits(p, pf, env, y) <==> y <= PledgeMove(p, pf, env))
  {
    hide LendFits, PledgeFits, LendMove, PledgeMove;
    forall x | x > 1.0 ensures LendFits(p, pf, env, x) <==> x <= LendMove(p, pf, env) {
      LendMoveIsLargest(p, pf, env, x);
    }
    forall y | y > 0.001 ensures PledgeFits(p, pf, env, y) <==> y <= PledgeMove(p, pf, env) {
      PledgeMoveIsLargest(p, pf, env, y);
    }
  }

  lemma BorrowBelow(p: Params, pf: Pf, env: Env)
    requires env.price > 0.0 && pf.arm.nvda >= 0.0 && pf.arm.debt >= 0.0
    ensures forall x :: x > 1.0 ==>
      (BorrowFits(p, pf, env, x) <==> pf.arm.nvda > 0.001 && x <= BorrowRoom(p, pf, env))
  {
    UsdNonneg(pf.arm.nvda, env.price);
    forall x | x > 1.0
      ensures BorrowFits(p, pf, env, x) <==> pf.arm.nvda > 0.001 && x <= BorrowRoom(p, pf, env)
    {
      hide BorrowRoom, Usd, Part;
      if pf.arm.nvda > 0.001 { BorrowRoomIsLargest(p, pf, env, x); }
    }
  }

  lemma DeployIsOf(p: Params, pf: Pf, env: Env)
    requires WellFormed(pf, env)
    ensures DeployToArms(p, pf, env) ==
      if LendMove(p, pf, env) > 1.0 then AllocateUsdg(LendMove(p, pf, env))
      else if PledgeMove(p, pf, env) > 0.001 then AllocateNvda(PledgeMove(p, pf, env))
      else if pf.arm.nvda > 0.001 && BorrowRoom(p, pf, env) > 1.0 then BorrowUsdg(BorrowRoom(p, pf, env))
      else if HasPositions(ActiveBook(pf)) then RecallBook
      else Hold
  {
    hide PlanArmEntry, LendRoom, CollateralRoom, BorrowRoom, HasPositions;
  }

  lemma DeployLeaves(p: Params, pf: Pf, env: Env)
    requires WellFormed(pf, env) && env.price > 0.0 && ArmOk(pf.arm)
    ensures Leaves(p, pf, env, DeployToArms(p, pf, env))
  {
    hide LendFits, PledgeFits, BorrowFits, LendMove, PledgeMove, BorrowRoom, DeployToArms, HasPositions;
    FitsBelow(p, pf, env);
    BorrowBelow(p, pf, env);
    DeployIsOf(p, pf, env);
  }

  // ----- What triggers it -----

  /** The guard is missing, was pulled less than its cooldown ago, or is being pulled too often. */
  ghost predicate GuardTrouble(p: Params, b: Book, moves: seq<int>, step: int) {
    !b.guardPresent || (b.lastPull >= 0 && step < b.lastPull + p.guardCooldownHours)
    || p.maxGuardPulls < 0
    || (p.maxGuardPulls == 0 && exists j :: 0 <= j < |moves| && moves[j] as real > p.guardPullThresholdBps)
  }

  lemma GuardTroubleAlarms(p: Params, pf: Pf, h: Hour, step: int)
    requires |pf.books| == 2
    ensures GuardAlarm(p, pf, h, step) <==> GuardTrouble(p, ActiveBook(pf), h.MovesOf(pf.active), step)
  {
  }

  /** Book A is the way out of book B's trouble: the risk policies go home before they retreat. */
  ghost predicate HomeIsOpen(p: Params, pf: Pf, h: Hour) {
    p.policy != Allocator && pf.active == 1 && h.markB.risk == High && h.markA.risk != High
  }

  /**
   * What sends a keeper out of the books: its pool's HIGH flag; with a funded book, trouble with its guard; and for
   * risk_fee_il a full fee-versus-IL streak, unless the book is to be re-centred first.
   */
  ghost predicate Alarmed(p: Params, pf: Pf, h: Hour, step: int)
    requires |pf.books| == 2
  {
    var b := ActiveBook(pf);
    h.MarkOf(pf.active).risk == High
    || (HasPositions(b) && GuardTrouble(p, b, h.MovesOf(pf.active), step))
    || (p.policy == RiskFeeIl && HasPositions(b) && h.feeIlStreak && Recenter(p, pf, h.env).None?)
  }

  lemma AlarmDeploys(p: Params, pf: Pf, h: Hour, step: int)
    requires Listens(p, step) && !h.Paused() && WellFormed(pf, h.env)
    requires Sentinel(p, pf, h.env).None? && !HomeIsOpen(p, pf, h) && Alarmed(p, pf, h, step)
    ensures Decide(p, pf, h, step) == DeployToArms(p, pf, h.env)
  {
    hide DeployToArms, Sentinel, Recenter, Surplus, ReturnToBooks, DecidePoolSwitch, HasPositions, GuardTrouble, OnClock;
    GuardTroubleAlarms(p, pf, h, step);
    hide GuardAlarm;
  }

  /**
   * An alarm is answered. In an unpaused hour in which it acts, with nothing for the sentinel to repay and no way
   * home, an alarmed keeper decides the action that leaves the books: with the book open never HOLD.
   */
  lemma AlarmLeavesTheBooks(p: Params, pf: Pf, h: Hour, step: int)
    requires Listens(p, step) && !h.Paused() && WellFormed(pf, h.env) && h.env.price > 0.0 && ArmOk(pf.arm)
    requires Sentinel(p, pf, h.env).None? && !HomeIsOpen(p, pf, h) && Alarmed(p, pf, h, step)
    ensures var a := Decide(p, pf, h, step);
      Leaves(p, pf, h.env, a) && (HasPositions(ActiveBook(pf)) ==> !a.Hold?)
  {
    hide Decide, DeployToArms, HasPositions, Leaves, Sentinel, Alarmed, HomeIsOpen;
    AlarmDeploys(p, pf, h, step);
    DeployLeaves(p, pf, h.env);
    HoldLeavesNothing(p, pf, h.env, DeployToArms(p, pf, h.env));
  }

  /** Book B's trouble with book A open to it is answered by going home, before any retreat. */
  lemma AlarmGoesHome(p: Params, pf: Pf, h: Hour, step: int)
    requires Listens(p, step) && !h.Paused() && WellFormed(pf, h.env)
    requires Sentinel(p, pf, h.env).None? && HomeIsOpen(p, pf, h)
    ensures Decide(p, pf, h, step) == SwitchBook(0)
  {
    hide DeployToArms, Sentinel, Recenter, Surplus, ReturnToBooks, HasPositions;
  }

  lemma HoldLeavesNothing(p: Params, pf: Pf, env: Env, a: Action)
    requires WellFormed(pf, env) && Leaves(p, pf, env, a)
    ensures HasPositions(ActiveBook(pf)) ==> !a.Hold?
  {
  }

  /** always_arms leaves the books at every step, paused or not. */
  lemma AlwaysArmsLeaves(p: Params, pf: Pf, h: Hour, step: int)
    requires p.policy == AlwaysArms && WellFormed(pf, h.env) && h.env.price > 0.0 && ArmOk(pf.arm)
    ensures var a := Decide(p, pf, h, step);
      Leaves(p, pf, h.env, a) && (HasPositions(ActiveBook(pf)) ==> !a.Hold?)
  {
    hide DeployToArms, HasPositions, Leaves;
    DeployLeaves(p, pf, h.env);
    HoldLeavesNothing(p, pf, h.env, DeployToArms(p, pf, h.env));
  }
}
