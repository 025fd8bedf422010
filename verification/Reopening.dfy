/** The fixed allocator finds its way back: from any state with no book open, over calm hours at one mark. */
module Reopening {
  import opened RealMath
  import opened Lp
  import opened State
  import opened Moves
  import opened Invariant
  import opened Income
  import opened Planner
  import opened Decision
  import opened Executor
  import opened Safety
  import opened Simulation
  import opened OneWayDoor
  import opened SwapToFund
  import opened ReturnPath

  /** The arm neither earns nor costs anything. */
  ghost predicate NoRates(p: Params) { p.armUsdgApr == 0.0 && p.armBorrowApr == 0.0 && p.armNvdaApr == 0.0 }

  // ----- The hour's income -----

  lemma LessRemains(arm: Arm, after: Arm)
    requires ArmOk(arm) && ArmOk(after) && after.debt <= arm.debt && after.nvda <= arm.nvda && after.lent <= arm.lent
    ensures Remaining(after) <= Remaining(arm)
    ensures after.debt < arm.debt - DUST_USD || (arm.debt > DUST_USD && after.debt == 0.0) ==>
      Remaining(after) < Remaining(arm)
  {
    FloorOrders(after.debt, arm.debt);
    FloorOrders(after.nvda * 1_000.0, arm.nvda * 1_000.0);
    FloorOrders(after.lent, arm.lent);
    if after.debt < arm.debt - DUST_USD || (arm.debt > DUST_USD && after.debt == 0.0) {
      assert after.debt.Floor < arm.debt.Floor;
    }
  }

  lemma FloorOrders(x: real, y: real)
    requires x <= y
    ensures x.Floor <= y.Floor
  {
  }

  lemma LiquidationTakesCollateral(p: Params, arm: Arm, price: real)
    requires p.liquidationBonusBps >= 0.0 && ArmOk(arm) && price > 0.0 && arm.debt > 0.0
    ensures LiquidatedArm(p, arm, price).nvda <= arm.nvda && LiquidatedArm(p, arm, price).debt == 0.0
  {
    RepaidWithinDebt(p, arm, price);
    var cv, seized := CollateralValue(arm, price), Seized(p, arm, price);
    hide CollateralValue, Seized, Repaid;
    if cv > 0.0 {
      var part := Max(0.0, cv - seized) / cv;
      DivCompare(Max(0.0, cv - seized), cv, 1.0, 1.0);
      MulLe(part, 1.0, arm.nvda);
      assert arm.nvda * part == part * arm.nvda;
    }
  }

  /**
   * With no book open and no rates, an hour's income at most liquidates the arm: it opens nothing, leaves the
   * idle balances and leaves no more to unwind; a liquidation leaves strictly less.
   */
  lemma QuietIncome(p: Params, pf: Pf, h: Hour, step: int)
    requires Sensible(p) && NoRates(p) && Ok(p, pf) && NoBookOpen(pf) && h.Valid()
    ensures var e := Earned(p, pf, h, step);
      Ok(p, e) && NoBookOpen(e) && e.active == pf.active
      && Remaining(e.arm) <= Remaining(pf.arm)
      && (Liquidatable(p, pf.arm, h.env.price) ==> Remaining(e.arm) < Remaining(pf.arm))
      && (!Liquidatable(p, pf.arm, h.env.price) ==> e == pf.(mode := ModeOf(pf.arm)))
  {
    MarkedPrice(h.env.sqrtP, h.env.price);
    IncomeKeepsOk(p, pf, h.env, h.rows, step);
    if !Liquidatable(p, pf.arm, h.env.price) {
      QuietHour(p, pf, h, step);
      hide Earned, HourIncome, Liquidatable, BookOk, Remaining;
    } else {
      LiquidatedHour(p, pf, h, step);
      LiquidationIsExact(p, pf, h.env);
      LiquidationTakesCollateral(p, pf.arm, h.env.price);
      assert pf.arm.debt > DUST_USD;
      assert Liquidate(p, pf, h.env).arm == LiquidatedArm(p, pf.arm, h.env.price) by { hide LiquidatedArm, Nav; }
      hide HourIncome, Liquidatable, LiquidatedArm, Liquidate, BookOk, Remaining, Nav, Repaid;
      LessRemains(pf.arm, Earned(p, pf, h, step).arm);
    }
  }

  lemma LiquidatedHour(p: Params, pf: Pf, h: Hour, step: int)
    requires Sensible(p) && NoRates(p) && Ok(p, pf) && NoBookOpen(pf) && h.Valid()
    ensures Earned(p, pf, h, step).arm == Liquidate(p, pf, h.env).arm
  {
    BothIncomesKeepOk(p, pf, h.env, h.rows, step);
    NoRatesNoAccrual(p, pf, h.env.price);
    hide BothIncomes, Liquidate, Accrue;
  }

  // ----- The hour's action -----

  /** Nothing more can bring the book back: the return is stuck, or it is over and there is nothing to fund with. */
  predicate AtAnEnd(p: Params, pf: Pf, env: Env)
    requires |pf.books| == 2
  {
    Stuck(p, pf) || (WoundDown(pf.arm) && !Fundable(p, pf, pf.active, env))
  }

  /** Either the active book is open, or no book is and there is no more to unwind than before. */
  ghost predicate Onward(p: Params, pf: Pf, r: Pf)
    requires ArmOk(pf.arm) && |pf.books| == 2
  {
    Ok(p, r) && r.active == pf.active
    && (HasPositions(ActiveBook(r)) || (NoBookOpen(r) && Remaining(r.arm) <= Remaining(pf.arm)))
  }

  lemma ReturnGoesOn(p: Params, pf: Pf, env: Env)
    requires Sensible(p) && Ok(p, pf) && NoBookOpen(pf) && MarkedEnv(env)
    ensures var r := ReturnStep(p, pf, env);
      Onward(p, pf, r)
      && (!AtAnEnd(p, pf, env) ==> HasPositions(ActiveBook(r)) || Remaining(r.arm) < Remaining(pf.arm))
  {
    assert env.sqrtP > 0.0;
    if Stuck(p, pf) {
      StuckStays(p, pf, env);
      hide ReturnStep, Stuck, Remaining, ReturnToBooks, Fundable, BookOk;
    } else if WoundDown(pf.arm) {
      DeployedHasPositions(ActiveBook(pf));
      WoundDownFunds(p, pf);
      FundingOpens(p, pf, env);
      DecidedFundingKeepsOk(p, pf, env);
      hide ReturnToBooks, Fundable, Stuck, Remaining, Execute, BookOk, HasPositions;
    } else {
      ReturnShrinks(p, pf, env);
      hide ReturnStep, Stuck, Remaining, ReturnToBooks, Fundable, BookOk;
    }
  }

  lemma DecidedFundingKeepsOk(p: Params, pf: Pf, env: Env)
    requires Sensible(p) && Ok(p, pf) && MarkedEnv(env)
    ensures Ok(p, Execute(p, pf, env, FundBook(pf.active)))
  {
    hide Execute, Ok;
    ExecutionKeepsOk(p, pf, env, FundBook(pf.active));
  }

  lemma SentinelGoesOn(p: Params, pf: Pf, env: Env)
    requires Sensible(p) && Ok(p, pf) && NoBookOpen(pf) && MarkedEnv(env) && Sentinel(p, pf, env).Some?
    ensures var r := Execute(p, pf, env, Sentinel(p, pf, env).value);
      Onward(p, pf, r) && Remaining(r.arm) < Remaining(pf.arm)
  {
    assert env.sqrtP > 0.0;
    var a := Sentinel(p, pf, env).value;
    assert a.Repay? && DUST_USD < a.amount <= pf.arm.debt && a.amount <= pf.idleUsdg + pf.arm.lent;
    hide Sentinel;
    RepaymentShrinks(p, pf, env, a.amount);
  }

  lemma RepaymentShrinks(p: Params, pf: Pf, env: Env, x: real)
    requires Sensible(p) && Ok(p, pf) && NoBookOpen(pf) && MarkedEnv(env)
    requires DUST_USD < x <= pf.arm.debt && x <= pf.idleUsdg + pf.arm.lent && pf.idleUsdg >= -p.swapSlack
    ensures var r := Execute(p, pf, env, Repay(x));
      Onward(p, pf, r) && Remaining(r.arm) < Remaining(pf.arm)
  {
    assert env.sqrtP > 0.0;
    ExecutionKeepsOk(p, pf, env, Repay(x));
    assert Apply(p, pf, env, Repay(x)) == Applied(RepaidDebt(pf, x), true);
    SettlingKeepsLeverage(p, Applied(RepaidDebt(pf, x), true));
    SettlingKeepsBooks(p, Applied(RepaidDebt(pf, x), true));
    var r := Execute(p, pf, env, Repay(x));
    assert r == Settle(p, Applied(RepaidDebt(pf, x), true));
    hide Execute, Apply, Settle, BookOk, Remaining;
    UnwindingShrinks(pf.arm, r.arm);
  }

  lemma HoldGoesOn(p: Params, pf: Pf, env: Env)
    requires Sensible(p) && Ok(p, pf) && NoBookOpen(pf) && MarkedEnv(env)
    ensures WellFormed(pf, env) && Execute(p, pf, env, Hold) == pf.(mode := ModeOf(pf.arm))
    ensures Onward(p, pf, Execute(p, pf, env, Hold))
  {
    hide BookOk, Remaining;
  }

  // ----- The step -----

  /** A calm, unpaused hour of the fixed allocator, with no book open: what its step does. */
  lemma CalmStep(p: Params, pf: Pf, h: Hour, step: int)
    requires Fixed(p) && Sensible(p) && NoRates(p) && Ok(p, pf) && NoBookOpen(pf) && h.Valid() && Calm(p, pf.active, h)
    ensures var r := Step(p, pf, h, step);
      Onward(p, pf, r)
      && (Acts(p, step) && !AtAnEnd(p, pf, h.env) ==>
        HasPositions(ActiveBook(r)) || Remaining(r.arm) < Remaining(pf.arm))
  {
    assert h.env.sqrtP > 0.0;
    QuietIncome(p, pf, h, step);
    var e := Earned(p, pf, h, step);
    FixDecidesToReturn(p, e, h, step);
    ReturnGoesOn(p, e, h.env);
    HoldGoesOn(p, e, h.env);
    if Sentinel(p, e, h.env).Some? { SentinelGoesOn(p, e, h.env); }
    ModeDoesNotMatter(p, pf, ModeOf(pf.arm), h.env);
    assert Step(p, pf, h, step) == Execute(p, e, h.env, Decide(p, e, h, step));
    hide Step, Earned, Execute, Decide, Sentinel, ReturnToBooks, AtAnEnd, Ok, Remaining, Liquidatable, Acts,
      HasPositions, Calm;
  }

  lemma ModeDoesNotMatter(p: Params, pf: Pf, mode: Mode, env: Env)
    requires |pf.books| == 2
    ensures AtAnEnd(p, pf.(mode := mode), env) == AtAnEnd(p, pf, env)
  {
    var pf' := pf.(mode := mode);
    hide Part, TokenUsdg, TokenNvda, Gross, NvdaFor, Usd, SwapCost, FundFraction, Remaining;
    var q := BookQuote(p, pf, pf.active, env);
    assert BookQuote(p, pf', pf.active, env) == q;
    hide BookQuote;
    assert PrepareFunding(p, pf', q, env) == PrepareFunding(p, pf, q, env).(mode := mode);
    hide PrepareFunding;
  }

  /** On the clock, with a healthy arm and a quiet sentinel, the whole step is the next step of the return. */
  lemma CalmHourIsAReturn(p: Params, pf: Pf, h: Hour, step: int)
    requires Fixed(p) && Sensible(p) && NoRates(p) && Ok(p, pf) && NoBookOpen(pf) && h.Valid() && Calm(p, pf.active, h)
    requires Acts(p, step) && pf.mode == ModeOf(pf.arm)
    requires !Liquidatable(p, pf.arm, h.env.price) && Sentinel(p, pf, h.env).None?
    ensures h.env.sqrtP > 0.0 && Step(p, pf, h, step) == ReturnStep(p, pf, h.env)
  {
    assert h.env.sqrtP > 0.0;
    QuietIncome(p, pf, h, step);
    assert Earned(p, pf, h, step) == pf;
    FixDecidesToReturn(p, pf, h, step);
    hide Earned, Execute, Decide, Sentinel, ReturnToBooks, Ok, Liquidatable, Acts, Calm;
  }

  // ----- Over a tape -----

  /** Hours that are all calm for a slot and all at one mark. */
  ghost predicate CalmTape(p: Params, i: Slot, tape: seq<Hour>, env: Env) {
    forall k :: 0 <= k < |tape| ==> tape[k].Valid() && tape[k].env == env && Calm(p, i, tape[k])
  }

  /** How many of the steps from `start` on are steps at which the allocator acts. */
  function ActingSteps(p: Params, start: int, n: nat): nat
    decreases n
  {
    if n == 0 then 0 else (if Acts(p, start) then 1 else 0) + ActingSteps(p, start + 1, n - 1)
  }

  ghost predicate ValidHours(tape: seq<Hour>) { forall i :: 0 <= i < |tape| ==> tape[i].Valid() }

  lemma TailIsValid(tape: seq<Hour>)
    requires ValidHours(tape) && |tape| > 0
    ensures tape[0].Valid() && ValidHours(tape[1..])
  {
  }

  /** The portfolio after the first k hours of a tape that begins at step `start`. */
  function After(p: Params, pf: Pf, tape: seq<Hour>, start: int, k: nat): (r: Pf)
    requires |pf.books| == 2 && k <= |tape| && p.liquidationBonusBps >= 0.0 && ValidHours(tape)
    ensures |r.books| == 2
    decreases k
  {
    hide ValidHours, Step;
    if k == 0 then pf
    else
      TailIsValid(tape);
      After(p, Step(p, pf, tape[0], start), tape[1..], start + 1, k - 1)
  }

  /** Where the way back ends: the active book is open again, or nothing can bring it back at this mark. */
  ghost predicate Arrived(p: Params, slot: Slot, r: Pf, env: Env) {
    Ok(p, r) && r.active == slot && (HasPositions(ActiveBook(r)) || (NoBookOpen(r) && AtAnEnd(p, r, env)))
  }

  /**
   * The fix reopens the door. From any state in shape with no book open, however the arm is loaded, over calm
   * hours at one mark and without rates, through sentinel and liquidation: before the allocator has acted once
   * more often than there are dust units to unwind, the active book is open again, or the return is stuck on a
   * debt nobody can repay or a slice of exactly dust, or there is nothing to fund the book with.
   */
  lemma {:induction false} FixReopensTheDoor(p: Params, pf: Pf, tape: seq<Hour>, start: int, env: Env)
    returns (k: nat)
    requires Fixed(p) && Sensible(p) && NoRates(p) && Ok(p, pf) && NoBookOpen(pf) && CalmTape(p, pf.active, tape, env)
    requires ActingSteps(p, start, |tape|) > Remaining(pf.arm)
    ensures k <= |tape| && ActingSteps(p, start, k) <= Remaining(pf.arm) + 1
    ensures ValidHours(tape) && Arrived(p, pf.active, After(p, pf, tape, start, k), env)
    decreases |tape|
  {
    hide *;
    InShapeAndClosed(p, pf);
    CalmIsValid(p, pf.active, tape, env);
    if AtAnEnd(p, pf, env) {
      StaysHere(p, pf, tape, start, env);
      k := 0;
    } else {
      SomeHour(p, start, |tape|);
      TailIsCalm(p, pf.active, tape, env);
      CalmStep(p, pf, tape[0], start);
      var next := Step(p, pf, tape[0], start);
      GoesOn(p, pf, next, env);
      if HasPositions(ActiveBook(next)) {
        OneHourOn(p, pf, tape, start);
        k := 1;
      } else {
        ActingUnrolls(p, start, |tape|);
        k := FixReopensTheDoor(p, next, tape[1..], start + 1, env);
        MoreHoursOn(p, pf, tape, start, k);
        ActingUnrolls(p, start, k + 1);
        k := k + 1;
      }
    }
  }

  lemma InShapeAndClosed(p: Params, pf: Pf)
    requires Sensible(p) && Ok(p, pf)
    ensures |pf.books| == 2 && ArmOk(pf.arm) && p.liquidationBonusBps >= 0.0
  {
    hide BookOk;
  }

  lemma StaysHere(p: Params, pf: Pf, tape: seq<Hour>, start: int, env: Env)
    requires |pf.books| == 2 && p.liquidationBonusBps >= 0.0 && ValidHours(tape)
    requires Ok(p, pf) && NoBookOpen(pf) && AtAnEnd(p, pf, env)
    ensures Arrived(p, pf.active, After(p, pf, tape, start, 0), env) && ActingSteps(p, start, 0) == 0
  {
    hide Ok, AtAnEnd, NoBookOpen, ValidHours, Step;
    assert After(p, pf, tape, start, 0) == pf;
  }

  lemma GoesOn(p: Params, pf: Pf, next: Pf, env: Env)
    requires Ok(p, pf) && |pf.books| == 2 && ArmOk(pf.arm) && Onward(p, pf, next)
    ensures Ok(p, next) && |next.books| == 2 && next.active == pf.active && ArmOk(next.arm)
    ensures HasPositions(ActiveBook(next)) ==> Arrived(p, pf.active, next, env)
    ensures !HasPositions(ActiveBook(next)) ==> NoBookOpen(next) && Remaining(next.arm) <= Remaining(pf.arm)
  {
    hide BookOk, HasPositions, Remaining, AtAnEnd;
  }

  lemma CalmIsValid(p: Params, i: Slot, tape: seq<Hour>, env: Env)
    requires CalmTape(p, i, tape, env)
    ensures ValidHours(tape)
  {
    hide Calm;
  }

  lemma SomeHour(p: Params, start: int, n: nat)
    requires ActingSteps(p, start, n) > 0
    ensures n > 0
  {
  }

  lemma ActingUnrolls(p: Params, start: int, n: nat)
    requires n > 0
    ensures ActingSteps(p, start, n) == (if Acts(p, start) then 1 else 0) + ActingSteps(p, start + 1, n - 1)
  {
    hide Acts;
  }

  lemma MoreHoursOn(p: Params, pf: Pf, tape: seq<Hour>, start: int, k: nat)
    requires |pf.books| == 2 && k < |tape| && p.liquidationBonusBps >= 0.0 && ValidHours(tape) && ValidHours(tape[1..])
    ensures tape[0].Valid()
    ensures After(p, pf, tape, start, k + 1) == After(p, Step(p, pf, tape[0], start), tape[1..], start + 1, k)
  {
    TailIsValid(tape);
    hide Step, ValidHours;
  }

  lemma OneHourOn(p: Params, pf: Pf, tape: seq<Hour>, start: int)
    requires |pf.books| == 2 && |tape| > 0 && p.liquidationBonusBps >= 0.0 && ValidHours(tape)
    ensures tape[0].Valid() && After(p, pf, tape, start, 1) == Step(p, pf, tape[0], start)
    ensures ActingSteps(p, start, 1) <= 1
  {
    TailIsValid(tape);
    hide Step, Acts, ValidHours;
    assert After(p, Step(p, pf, tape[0], start), tape[1..], start + 1, 0) == Step(p, pf, tape[0], start);
    assert ActingSteps(p, start + 1, 0) == 0;
  }

  lemma TailIsCalm(p: Params, i: Slot, tape: seq<Hour>, env: Env)
    requires CalmTape(p, i, tape, env) && |tape| > 0
    ensures tape[0].Valid() && tape[0].env == env && Calm(p, i, tape[0])
    ensures CalmTape(p, i, tape[1..], env) && ValidHours(tape[1..])
  {
    hide Calm;
  }

  // ----- Inside a run -----

  lemma {:induction false} RunGoesOn(p: Params, tape: seq<Hour>, m: nat, k: nat)
    requires ValidTape(tape) && m + k <= |tape| && p.liquidationBonusBps >= 0.0
    ensures After(p, Run(p, tape, m), tape[m..], m, k) == Run(p, tape, m + k)
    decreases k
  {
    hide Step, Initial;
    if k > 0 {
      assert tape[m..][0] == tape[m] && tape[m..][1..] == tape[m + 1..];
      assert Run(p, tape, m + 1) == Step(p, Run(p, tape, m), tape[m], m);
      RunGoesOn(p, tape, m + 1, k - 1);
    }
  }

  /**
   * The counterpart of the one-way door, inside any run: once the fixed allocator's active book is undeployed,
   * enough calm hours at one mark bring the run to a state with that book open again, or to one of the ends.
   */
  lemma RunReopensTheDoor(p: Params, tape: seq<Hour>, m: nat, env: Env) returns (n: nat)
    requires Fixed(p) && Sensible(p) && SoundStart(p) && NoRates(p) && ValidTape(tape) && m <= |tape|
    requires !ActiveBook(Run(p, tape, m)).deployed && CalmTape(p, Run(p, tape, m).active, tape[m..], env)
    requires Ok(p, Run(p, tape, m)) ==> ActingSteps(p, m, |tape| - m) > Remaining(Run(p, tape, m).arm)
    ensures m <= n <= |tape| && Arrived(p, Run(p, tape, m).active, Run(p, tape, n), env)
  {
    hide Step, Ok, Remaining, Calm, CalmTape, HasPositions, Initial, Arrived;
    EveryRunIsOk(p, tape, m);
    NoneButTheActive(p, Run(p, tape, m));
    var k := FixReopensTheDoor(p, Run(p, tape, m), tape[m..], m, env);
    RunGoesOn(p, tape, m, k);
    n := m + k;
  }

  // ----- The ends -----

  /** At an end in scale mode, with a healthy arm and a quiet sentinel, a calm hour changes nothing but the mode. */
  lemma EndsHold(p: Params, pf: Pf, h: Hour, step: int)
    requires Fixed(p) && Sensible(p) && NoRates(p) && Ok(p, pf) && NoBookOpen(pf) && h.Valid() && Calm(p, pf.active, h)
    requires AtAnEnd(p, pf, h.env) && pf.mode == ModeOf(pf.arm) && !p.swapFunding
    requires !Liquidatable(p, pf.arm, h.env.price) && Sentinel(p, pf, h.env).None?
    ensures Step(p, pf, h, step) == pf
  {
    assert h.env.sqrtP > 0.0;
    QuietIncome(p, pf, h, step);
    assert Earned(p, pf, h, step) == pf;
    FixDecidesToReturn(p, pf, h, step);
    HoldGoesOn(p, pf, h.env);
    if Stuck(p, pf) {
      StuckStays(p, pf, h.env);
    } else {
      DeployedHasPositions(ActiveBook(pf));
      WoundDownFunds(p, pf);
      UnfundableHolds(p, pf, h.env);
    }
    hide Earned, Execute, Decide, Sentinel, ReturnToBooks, Ok, Liquidatable, Acts, Calm, Stuck, HasPositions;
  }

  /** And final: over any number of calm hours at that mark. */
  lemma {:induction false} EndsHoldForever(p: Params, pf: Pf, tape: seq<Hour>, start: int, env: Env, k: nat)
    requires Fixed(p) && Sensible(p) && NoRates(p) && Ok(p, pf) && NoBookOpen(pf) && CalmTape(p, pf.active, tape, env)
    requires AtAnEnd(p, pf, env) && pf.mode == ModeOf(pf.arm) && !p.swapFunding && k <= |tape|
    requires !Liquidatable(p, pf.arm, env.price) && Sentinel(p, pf, env).None?
    ensures ValidHours(tape) && After(p, pf, tape, start, k) == pf
    decreases k
  {
    hide *;
    InShapeAndClosed(p, pf);
    CalmIsValid(p, pf.active, tape, env);
    if k == 0 {
      NoHours(p, pf, tape, start);
    } else {
      TailIsCalm(p, pf.active, tape, env);
      EndsHold(p, pf, tape[0], start);
      EndsHoldForever(p, pf, tape[1..], start + 1, env, k - 1);
      MoreHoursOn(p, pf, tape, start, k - 1);
    }
  }

  lemma NoHours(p: Params, pf: Pf, tape: seq<Hour>, start: int)
    requires |pf.books| == 2 && p.liquidationBonusBps >= 0.0 && ValidHours(tape)
    ensures After(p, pf, tape, start, 0) == pf
  {
    hide Step, ValidHours;
  }

  // ----- The dust slice -----

  /** A debt of dust over the step fraction: its slice is dust to the cent. */
  function DustDebt(p: Params): real
    requires 0.0 < p.bookStepBps < BPS
  {
    DUST_USD / StepFraction(p)
  }

  /** A keeper with that debt, just enough collateral to be healthy, no book open, and ten times the debt idle. */
  function DustDebtor(p: Params, env: Env): Pf
    requires 0.0 < p.bookStepBps < BPS && p.lltv > 0.0 && env.price > 0.0
  {
    var b := Book(false, 0.0, 0.0, 0, 0, 0, 0, 0, 0.0, false, -1, 1.0, 0.0, 0.0);
    var arm := Arm(NvdaFor(DustDebt(p) / p.lltv, env.price), DustDebt(p), 0.0, 0.0);
    Pf(0, [b, b], 10.0 * DustDebt(p), 0.0, arm, ArmsMode, NO_CUM)
  }

  lemma DebtOfDust(p: Params)
    requires 0.0 < p.bookStepBps < BPS
    ensures DustDebt(p) > DUST_USD && Part(DustDebt(p), StepFraction(p)) == DUST_USD
  {
    var k := StepFraction(p);
    assert 0.0 < k < 1.0;
    hide StepFraction;
    MulDiv(DUST_USD, k);
    DivCompare(DUST_USD, 1.0, DUST_USD, k);
    DivCompare(DUST_USD, k, DUST_USD, 1.0);
  }

  lemma JustHealthy(p: Params, debt: real, env: Env)
    requires p.lltv > 0.0 && debt > 0.0 && env.price > 0.0
    ensures NvdaFor(debt / p.lltv, env.price) > 0.0
    ensures !Liquidatable(p, Arm(NvdaFor(debt / p.lltv, env.price), debt, 0.0, 0.0), env.price)
  {
    var cv := debt / p.lltv;
    MulDiv(debt, p.lltv);
    DivCompare(0.0, 1.0, debt, p.lltv);
    DivCompare(0.0, 1.0, cv, env.price);
    NvdaForIsWorth(cv, env.price);
    hide NvdaFor, Usd;
    assert p.lltv * cv == debt;
    MulDiv(1.0, debt);
  }

  /**
   * Every step size has its fixed point. The keeper of the example is healthy and has ten times its debt in
   * idle USDG; it repays none of it, however often the return is asked, and stays as it is through any number
   * of calm hours of the simulation.
   */
  lemma DustSliceHolds(p: Params, tape: seq<Hour>, start: int, tick: int, n: nat)
    requires Fixed(p) && Sensible(p) && NoRates(p) && !p.swapFunding && !p.sentinelEnabled && p.lltv > 0.0
    requires 0.0 < p.bookStepBps < BPS
    requires CalmTape(p, 0, tape, Env(tick, SqrtAtTick(tick), PriceFromTick(tick)))
    ensures ValidHours(tape)
    ensures var env := Env(tick, SqrtAtTick(tick), PriceFromTick(tick));
      var pf := DustDebtor(p, env);
      Ok(p, pf) && WellFormed(pf, env) && DustSlice(p, pf.arm) && !OutOfUsdg(pf) && pf.arm.debt > DUST_USD
      && ReturnRun(p, pf, env, n) == pf && After(p, pf, tape, start, |tape|) == pf
  {
    var env := Env(tick, SqrtAtTick(tick), PriceFromTick(tick));
    var pf := DustDebtor(p, env);
    DebtOfDust(p);
    JustHealthy(p, DustDebt(p), env);
    assert Part(0.0, 1.0) == 0.0;
    hide DustDebt, StepFraction, SqrtAtTick, PriceFromTick, NvdaFor, Liquidatable;
    hide ReturnRun, CalmTape, After, ValidHours;
    assert Ok(p, pf) && WellFormed(pf, env) && NoBookOpen(pf) && pf.mode == ModeOf(pf.arm);
    assert DustSlice(p, pf.arm) && !OutOfUsdg(pf);
    CalmIsValid(p, 0, tape, env);
    hide DustDebtor, Ok;
    StuckForever(p, pf, env, n);
    EndsHoldForever(p, pf, tape, start, env, |tape|);
  }

  lemma UnfundableHolds(p: Params, pf: Pf, env: Env)
    requires Ok(p, pf) && NoBookOpen(pf) && WellFormed(pf, env) && !p.swapFunding
    requires !Fundable(p, pf, pf.active, env)
    ensures Execute(p, pf, env, FundBook(pf.active)) == pf.(mode := ModeOf(pf.arm))
  {
    FundScaleIs(p, pf, pf.active, env);
    DeployedHasPositions(ActiveBook(pf));
    hide BookQuote, FundScale, Fundable, HasPositions, BookOk;
  }

  /** In swap mode a book whose goals the idle tokens cover, in whatever ratio, is fundable. */
  lemma CoveredIsFundable(p: Params, pf: Pf, target: Slot, env: Env)
    requires Sensible(p) && p.swapFunding && |pf.books| == 2 && BookOk(pf.books[target]) && MarkedEnv(env)
    requires p.baseWidthTicks > 0 && p.fundBookBps > 0.0 && pf.idleUsdg >= 0.0 && pf.idleNvda >= 0.0
    requires Covered(p, pf, BookQuote(p, pf, target, env), env.price)
    ensures Fundable(p, pf, target, env)
  {
    var q, f := BookQuote(p, pf, target, env), FundFraction(p);
    assert env.sqrtP > 0.0 && f > 0.0;
    MarkedPrice(env.sqrtP, env.price);
    QuoteAsks(p, pf, target, env);
    QuoteNonneg(p, pf, target, env);
    CoveredLegs(p, pf, q, env);
    hide BookQuote, PrepareFunding, Covered, Part, FundFraction;
    PartPositive(q.xReq, f);
    PartPositive(q.yReq, f);
  }
}
