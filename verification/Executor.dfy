/** One keeper action per hour, applied to the portfolio with its own clamps and fall-backs to HOLD. */
module Executor {
  import opened RealMath
  import opened Lp
  import opened State
  import opened Moves
  import opened Invariant
  import opened Planner
  import opened Decision

  /** The portfolio after an action's own moves, and whether the action counts as executed. */
  datatype Applied = Applied(pf: Pf, acted: bool)

  // ----- Amounts the executor allows -----

  function LendAmount(p: Params, pf: Pf, env: Env, wanted: real): real
    requires WellFormed(pf, env)
  {
    Min(Min(wanted, pf.idleUsdg), LendRoom(p, pf, env))
  }

  function CollateralAmount(p: Params, pf: Pf, env: Env, wanted: real): real
    requires WellFormed(pf, env)
  {
    Min(Min(wanted, pf.idleNvda), CollateralRoom(p, pf, env))
  }

  function BorrowAmount(p: Params, pf: Pf, env: Env, wanted: real): real {
    Min(wanted, BorrowRoom(p, pf, env))
  }

  function RepayAmount(pf: Pf, wanted: real): real {
    Min(Min(wanted, pf.idleUsdg + pf.arm.lent), pf.arm.debt)
  }

  /** The collateral that keeps the health factor at its floor. */
  function HealthFloor(p: Params, debt: real, price: real): real {
    if price > 0.0 && p.lltv > 0.0 then
      MulPos(p.lltv, price);
      debt * p.minHealthFactor / (p.lltv * price)
    else 0.0
  }

  /** Collateral that may leave while debt is outstanding. */
  function Withdrawable(p: Params, arm: Arm, price: real): real {
    if arm.debt > DUST_USD then Max(0.0, arm.nvda - HealthFloor(p, arm.debt, price)) else arm.nvda
  }

  function WithdrawAmount(p: Params, pf: Pf, env: Env, wanted: real): real {
    Min(Min(wanted, Withdrawable(p, pf.arm, env.price)), pf.arm.nvda)
  }

  function DeallocateAmount(pf: Pf, wanted: real): real { Min(wanted, pf.arm.lent) }

  // ----- The arm's moves -----

  function Lent(pf: Pf, x: real): Pf {
    pf.(idleUsdg := pf.idleUsdg - x, arm := pf.arm.(lent := pf.arm.lent + x))
  }

  function Pledged(pf: Pf, y: real): Pf {
    pf.(idleNvda := pf.idleNvda - y, arm := pf.arm.(nvda := pf.arm.nvda + y))
  }

  function Borrowed(pf: Pf, x: real): Pf {
    pf.(idleUsdg := pf.idleUsdg + x, arm := pf.arm.(debt := pf.arm.debt + x))
  }

  /** Debt is repaid from idle USDG first, the rest from the lend arm. */
  function RepaidDebt(pf: Pf, x: real): Pf {
    var fromIdle := Min(x, pf.idleUsdg);
    var fromLend := Min(x - fromIdle, pf.arm.lent);
    pf.(idleUsdg := pf.idleUsdg - fromIdle, arm := pf.arm.(lent := pf.arm.lent - fromLend, debt := pf.arm.debt - x))
  }

  // ----- Book moves -----

  function TryFund(p: Params, pf: Pf, target: Slot, env: Env): Applied
    requires |pf.books| == 2
  {
    if pf.arm.debt > DUST_USD || HasPositions(pf.books[target]) then Applied(pf, false)
    else
      var r := Fund(p, pf, target, env);
      Applied(r.pf, r.value > DUST_USD)
  }

  /** Gas a recenter pays on top of the ordinary action. */
  function RecenterExtra(p: Params): real { p.gasCostUsd * Max(0.0, p.recenterGasMultiplier - 1.0) }

  function TryRecenter(p: Params, pf: Pf, env: Env): Applied
    requires |pf.books| == 2
  {
    if !HasPositions(ActiveBook(pf)) then Applied(pf, false)
    else
      var r := Fund(p, CloseBook(pf, pf.active, env.sqrtP), pf.active, env);
      if r.value > DUST_USD then Applied(PayGas(r.pf, RecenterExtra(p)), true) else Applied(r.pf, false)
  }

  /** Both slots emptied of their positions, the target first. */
  function CloseForSwitch(pf: Pf, target: Slot, s: real): Pf
    requires |pf.books| == 2
  {
    var one := if target != pf.active && HasPositions(pf.books[target]) then CloseBook(pf, target, s) else pf;
    if HasPositions(one.books[pf.active]) then CloseBook(one, pf.active, s) else one
  }

  function SwitchFee(p: Params, funded: real): real { Part(funded, p.switchCostBps / BPS) }

  /** The switch cost is booked in full, but idle USDG is only drawn down to zero. */
  function ChargeSwitch(pf: Pf, cost: real): Pf {
    if cost > 0.0
    then pf.(idleUsdg := Max(0.0, pf.idleUsdg - cost), cum := pf.cum.(switchCost := pf.cum.switchCost + cost))
    else pf
  }

  predicate SwitchRefused(pf: Pf, target: Slot)
    requires |pf.books| == 2
  {
    pf.arm.debt > DUST_USD || (target == pf.active && HasPositions(pf.books[target]))
  }

  function SwitchFunding(p: Params, pf: Pf, target: Slot, env: Env): Funding
    requires |pf.books| == 2
  {
    ClosingSizes(pf, target, env.sqrtP);
    Fund(p, CloseForSwitch(pf, target, env.sqrtP), target, env)
  }

  function TrySwitch(p: Params, pf: Pf, target: Slot, env: Env): Applied
    requires |pf.books| == 2
  {
    if SwitchRefused(pf, target) then Applied(pf, false)
    else
      var r := SwitchFunding(p, pf, target, env);
      if r.value > DUST_USD then Applied(ChargeSwitch(r.pf, SwitchFee(p, r.value)), true) else Applied(r.pf, false)
  }

  // ----- The executor -----

  function Apply(p: Params, pf: Pf, env: Env, action: Action): Applied
    requires WellFormed(pf, env)
  {
    match action
    case Hold => Applied(pf, false)
    case AllocateUsdg(amount) =>
      var x := LendAmount(p, pf, env, amount);
      if x > DUST_USD then Applied(Lent(pf, x), true) else Applied(pf, false)
    case AllocateNvda(amount) =>
      var y := CollateralAmount(p, pf, env, amount);
      if y > DUST_NVDA then Applied(Pledged(pf, y), true) else Applied(pf, false)
    case BorrowUsdg(amount) =>
      var x := BorrowAmount(p, pf, env, amount);
      if x > DUST_USD then Applied(Borrowed(pf, x), true) else Applied(pf, false)
    case RecallBook => Applied(CloseBook(pf, pf.active, env.sqrtP), true)
    case Repay(amount) =>
      var x := RepayAmount(pf, amount);
      if x > DUST_USD then Applied(RepaidDebt(pf, x), true) else Applied(pf, false)
    case WithdrawNvda(amount) =>
      var y := WithdrawAmount(p, pf, env, amount);
      if y > DUST_NVDA then Applied(Pledged(pf, -y), true) else Applied(pf, false)
    case DeallocateUsdg(amount) =>
      var x := DeallocateAmount(pf, amount);
      if x > DUST_USD then Applied(Lent(pf, -x), true) else Applied(pf, false)
    case FundBook(target) => TryFund(p, pf, target, env)
    case RecenterBook => TryRecenter(p, pf, env)
    case SwitchBook(target) => TrySwitch(p, pf, target, env)
    case UnknownAction => Applied(pf, true)
  }

  /** An executed action pays gas and is counted; the mode follows the arm. */
  function Settle(p: Params, r: Applied): Pf
    requires |r.pf.books| == 2
  {
    var paid := if r.acted
      then PayGas(r.pf, p.gasCostUsd).(cum := PayGas(r.pf, p.gasCostUsd).cum.(actions := r.pf.cum.actions + 1))
      else r.pf;
    paid.(mode := ModeOf(paid.arm))
  }

  function Execute(p: Params, pf: Pf, env: Env, action: Action): Pf
    requires WellFormed(pf, env)
  {
    ApplyKeepsBooks(p, pf, env, action);
    Settle(p, Apply(p, pf, env, action))
  }

  lemma ApplyKeepsBooks(p: Params, pf: Pf, env: Env, action: Action)
    requires WellFormed(pf, env)
    ensures |Apply(p, pf, env, action).pf.books| == 2
  {
    hide BookQuote, FundScale, CloseBook;
    if action.SwitchBook? { ClosingSizes(pf, action.book, env.sqrtP); }
    if action.RecenterBook? || action.RecallBook? { ClosingSizes(pf, pf.active, env.sqrtP); }
  }

  lemma ClosingSizes(pf: Pf, target: Slot, s: real)
    requires |pf.books| == 2
    ensures |CloseForSwitch(pf, target, s).books| == 2 && |CloseBook(pf, target, s).books| == 2
  {
  }
}
