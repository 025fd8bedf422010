/**
 * The portfolio as the simulation updates it: one object whose fields the hour's routines change in place.
 * Every routine is proved to take the snapshot exactly where the corresponding function of the other
 * modules takes it, so everything proved there holds of the object.
 */
module Machine {
  import opened RealMath
  import opened Lp
  import opened State
  import opened Fees
  import BaseSkew
  import Moves
  import opened Invariant
  import opened Income
  import opened Decision
  import Executor
  import Safety
  import Simulation

  /** The first five-minute bin over the threshold: the scan stops at the first one it meets. */
  method FindPullBin(moves: seq<int>, threshold: real) returns (bin: Option<nat>)
    ensures bin == FirstPullBin(moves, threshold)
  {
    for i := 0 to |moves|
      invariant FirstPullBin(moves[..i], threshold) == None
    {
      assert moves[..i + 1][..i] == moves[..i];
      if moves[i] as real > threshold {
        EarlierBinStands(moves, i, threshold);
        return Some(i);
      }
    }
    assert moves[..|moves|] == moves;
    return None;
  }

  /** Later moves do not change the first bin. */
  lemma {:induction false} EarlierBinStands(moves: seq<int>, i: nat, threshold: real)
    requires i < |moves| && FirstPullBin(moves[..i + 1], threshold) == Some(i)
    ensures FirstPullBin(moves, threshold) == Some(i)
  {
    if i + 1 < |moves| {
      var shorter := moves[..|moves| - 1];
      assert shorter[..i + 1] == moves[..i + 1];
      EarlierBinStands(shorter, i, threshold);
    } else {
      assert moves[..i + 1] == moves;
    }
  }

  class Portfolio {
    var active: Slot
    var books: seq<Book>
    var idleUsdg: real
    var idleNvda: real
    var arm: Arm
    var mode: Mode
    var cum: Cum

    ghost predicate Valid()
      reads this
    {
      |books| == 2
    }

    ghost function Snapshot(): (pf: Pf)
      reads this
      ensures Valid() ==> |pf.books| == 2
    {
      Pf(active, books, idleUsdg, idleNvda, arm, mode, cum)
    }

    constructor (p: Params, env: Env)
      requires env.sqrtP > 0.0
      ensures Valid() && Snapshot() == Simulation.Initial(p, env)
    {
      var template := Simulation.BookTemplate(p, env);
      var start := Simulation.StartSlot(p);
      var hodl := Simulation.HodlBasket(p, env);
      active, arm, cum := start, Arm(0.0, 0.0, 0.0, 0.0), Simulation.NO_CUM;
      mode := if p.policy == AlwaysArms then ArmsMode else BooksMode;
      if p.policy == Hodl || p.policy == AlwaysArms {
        books, idleUsdg, idleNvda := [template, template], hodl.usdg, hodl.nvda;
      } else {
        books := [template, template][start := Simulation.FullyOpened(template)];
        idleUsdg, idleNvda := Max(0.0, p.initialNavUsd - Simulation.BookCapital(p)), 0.0;
      }
    }

    /** Pay from idle USDG, then the lend arm, then the books' fees in order. */
    method PayGas(gas: real)
      requires Valid()
      modifies this
      ensures Valid() && Snapshot() == Moves.PayGas(old(Snapshot()), gas)
    {
      if gas <= 0.0 { return; }
      var remaining := gas;
      if idleUsdg > 0.0 {
        var take := Min(remaining, idleUsdg);
        idleUsdg, remaining := idleUsdg - take, remaining - take;
      }
      if remaining > 0.0 && arm.lent > 0.0 {
        var take := Min(remaining, arm.lent);
        arm, remaining := arm.(lent := arm.lent - take), remaining - take;
      }
      remaining := PayFromFees(remaining);
      cum := cum.(gas := cum.gas + (gas - Max(0.0, remaining)));
    }

    /** The part of a gas bill that the books' fees pay; what is still due. */
    method PayFromFees(due: real) returns (remaining: real)
      requires Valid() && due >= 0.0
      modifies `books
      ensures Valid() && remaining >= 0.0
      ensures var b := old(books); var t := Moves.Take(due, b[0].fees); var t' := Moves.Take(due - t, b[1].fees);
        books == [b[0].(fees := b[0].fees - t), b[1].(fees := b[1].fees - t')] && remaining == due - t - t'
    {
      remaining := due;
      if remaining <= 0.0 { return; }
      ghost var b := books;
      for i := 0 to 2
        invariant Valid() && remaining >= 0.0 && forall j :: i <= j < 2 ==> books[j] == b[j]
        invariant i == 0 ==> remaining == due
        invariant i >= 1 ==> books[0] == b[0].(fees := b[0].fees - Moves.Take(due, b[0].fees))
        invariant i == 1 ==> remaining == due - Moves.Take(due, b[0].fees)
        invariant i == 2 ==>
          var t := due - Moves.Take(due, b[0].fees);
          remaining == t - Moves.Take(t, b[1].fees) && books[1] == b[1].(fees := b[1].fees - Moves.Take(t, b[1].fees))
      {
        if books[i].fees > 0.0 {
          var take := Min(remaining, books[i].fees);
          books := books[i := books[i].(fees := books[i].fees - take)];
          remaining := remaining - take;
        }
      }
    }

    /** The book's tokens and fees become idle; its slot is emptied. */
    method CloseBook(i: Slot, s: real)
      requires Valid()
      modifies this
      ensures Valid() && Snapshot() == Moves.CloseBook(old(Snapshot()), i, s)
    {
      if !books[i].deployed { return; }
      var x, y, fees := BookUsdg(books[i], s), BookNvda(books[i], s), books[i].fees;
      idleUsdg, idleNvda := idleUsdg + (x + fees), idleNvda + y;
      books := books[i := Moves.Closed(books[i])];
    }

    method SwapDeficit(xReq: real, yReq: real, price: real, costBps: real, slack: real)
      requires Valid()
      modifies this
      ensures Valid() && Snapshot() == Moves.SwapDeficit(old(Snapshot()), xReq, yReq, price, costBps, slack)
    {
      var c := Moves.SwapCost(costBps);
      if price <= 0.0 || c >= 0.99 { return; }
      var xAvail, yAvail := idleUsdg, idleNvda;
      if xAvail < xReq && yAvail > yReq {
        var value := Moves.Gross(xReq - xAvail, c);
        var nvda := Moves.NvdaFor(value, price);
        if nvda <= yAvail - yReq + slack {
          idleNvda, idleUsdg := idleNvda - nvda, idleUsdg + (xReq - xAvail);
          cum := cum.(swapCost := cum.swapCost + Part(value, c));
        }
      } else if yAvail < yReq && xAvail > xReq {
        var value := Moves.Gross(Usd(yReq - yAvail, price), c);
        if value <= xAvail - xReq + slack {
          idleUsdg, idleNvda := idleUsdg - value, idleNvda + (yReq - yAvail);
          cum := cum.(swapCost := cum.swapCost + Part(value, c));
        }
      }
    }

    /** The ranges a book would open with and the tokens its full target takes. */
    method QuoteBook(p: Params, target: Slot, env: Env) returns (q: Moves.Quote)
      requires Valid()
      ensures q == Moves.BookQuote(p, Snapshot(), target, env)
    {
      var b, skew := books[target], 0;
      hide BaseSkew.ChooseBaseSkew, TokenUsdg, TokenNvda;
      if p.inventorySkew {
        skew := BaseSkew.PickSkew(p, idleUsdg, idleNvda, b, env);
      }
      var blo, bhi := env.tick + skew - p.baseWidthTicks, env.tick + skew + p.baseWidthTicks;
      var glo, ghi := env.tick - p.guardWidthTicks, env.tick + p.guardWidthTicks;
      var xReq := TokenUsdg(b.targetBaseL, env.sqrtP, blo, bhi) + TokenUsdg(b.targetGuardL, env.sqrtP, glo, ghi);
      var yReq := TokenNvda(b.targetBaseL, env.sqrtP, blo, bhi) + TokenNvda(b.targetGuardL, env.sqrtP, glo, ghi);
      return Moves.Quote(blo, bhi, glo, ghi, xReq, yReq);
    }

    /** Open a book as large as the idle tokens allow; the dollars deployed. */
    method FundBook(p: Params, target: Slot, env: Env) returns (funded: real)
      requires Valid()
      modifies this
      ensures Valid() && Snapshot() == Moves.Fund(p, old(Snapshot()), target, env).pf
      ensures funded == Moves.Fund(p, old(Snapshot()), target, env).value
    {
      ghost var was := Snapshot();
      hide Moves.BookQuote, Part, Usd, Moves.SwapDeficit, Moves.Opened;
      var q := QuoteBook(p, target, env);
      if q.xReq <= 0.0 && q.yReq <= 0.0 { return 0.0; }
      var f := Moves.FundFraction(p);
      if p.swapFunding {
        SwapDeficit(Part(q.xReq, f), Part(q.yReq, f), env.price, p.swapCostBps, p.swapSlack);
      }
      assert Snapshot() == Moves.PrepareFunding(p, was, q, env);
      hide Moves.PrepareFunding;
      var xAvail := if p.swapFunding then idleUsdg else Part(idleUsdg, f);
      var yAvail := if p.swapFunding then idleNvda else Part(idleNvda, f);
      var scale := if p.swapFunding then f else 1.0;
      if q.xReq > 0.0 { scale := Min(scale, xAvail / q.xReq); }
      if q.yReq > 0.0 { scale := Min(scale, yAvail / q.yReq); }
      assert scale == Moves.FundScale(p, Snapshot(), q);
      hide Moves.FundScale, Min;
      if scale <= 0.0 { return 0.0; }
      books := books[target := Moves.Opened(books[target], q, scale, env.tick)];
      idleUsdg, idleNvda := idleUsdg - Part(q.xReq, scale), idleNvda - Part(q.yReq, scale);
      active := target;
      return Part(q.xReq, scale) + Usd(Part(q.yReq, scale), env.price);
    }

    /** Liquidate an arm whose health factor is below one. */
    method Liquidate(p: Params, env: Env)
      requires Valid() && env.sqrtP > 0.0 && p.liquidationBonusBps >= 0.0
      modifies this
      ensures Valid() && Snapshot() == Moves.Liquidate(p, old(Snapshot()), env)
    {
      if arm.debt <= DUST_USD { return; }
      ghost var was := Snapshot();
      var value := Max(0.0, Usd(arm.nvda, env.price));
      assert value == Moves.CollateralValue(arm, env.price);
      hide Moves.CollateralValue, Usd, Moves.HealthOf, Nav;
      if Moves.HealthOf(p.lltv, value, arm.debt) >= 1.0 { return; }
      assert Moves.Liquidatable(p, was.arm, env.price);
      hide Moves.Liquidatable;
      var navBefore := NavNow(env);
      var bonus := p.liquidationBonusBps / BPS;
      var seized := Min(value, arm.debt * (1.0 + bonus));
      var repaid := if seized > 0.0 then seized / (1.0 + bonus) else 0.0;
      assert seized == Moves.Seized(p, was.arm, env.price) && repaid == Moves.Repaid(p, was.arm, env.price);
      hide Moves.Seized, Moves.Repaid;
      var left := Max(0.0, arm.debt - repaid);
      if value > 0.0 {
        arm := arm.(nvda := arm.nvda * (Max(0.0, value - seized) / value));
      } else {
        arm := arm.(nvda := 0.0);
      }
      var impair := Min(arm.lent, left);
      arm := arm.(lent := arm.lent - impair);
      arm := arm.(badDebt := arm.badDebt + (left - impair), debt := 0.0);
      assert arm == Moves.LiquidatedArm(p, was.arm, env.price);
      assert Snapshot() == was.(arm := arm);
      hide Moves.LiquidatedArm;
      var navAfter := NavNow(env);
      cum := cum.(liquidationLoss := cum.liquidationLoss + Max(0.0, navBefore - navAfter));
    }

    /** The net asset value at the mark. */
    method NavNow(env: Env) returns (nav: real)
      requires Valid() && env.sqrtP > 0.0
      ensures nav == Nav(Snapshot(), env)
    {
      nav := idleUsdg + Usd(idleNvda, env.price);
      nav := nav + BookValue(books[0], env.sqrtP);
      nav := nav + BookValue(books[1], env.sqrtP);
      nav := nav + ArmEquity(arm, env.price);
    }

    // ----- Income -----

    /** Fees, guard pull and re-arm of one book. */
    method EarnBook(p: Params, i: Slot, env: Env, row: BookRow, gates: Gates, step: int)
      requires Valid() && row.minutes.Valid()
      modifies this
      ensures Valid() && Snapshot() == BookIncome(p, old(Snapshot()), i, env, row, gates, step)
    {
      var b := books[i];
      if !b.deployed { return; }
      ghost var was := Snapshot();
      hide TokenUsdg, TokenNvda, FeeForHour, FirstPullBin, RearmGuard, FeePips;
      var bin := FindPullBin(row.fiveMinMoves, p.guardPullThresholdBps);
      if gates.feeIlPull && b.guardPresent { bin := Some(0); }
      var fee: HourFee;
      if bin.Some? && b.guardPresent && b.guardL > 0.0 {
        fee := BookFeeForHour(b, row.minutes, FeePips(p, i), bin, p.exactFees);
        idleUsdg := idleUsdg + TokenUsdg(b.guardL, env.sqrtP, b.guardLo, b.guardHi);
        idleNvda := idleNvda + TokenNvda(b.guardL, env.sqrtP, b.guardLo, b.guardHi);
        books := books[i := books[i].(guardL := 0.0, guardPresent := false, lastPull := step)];
        cum := cum.(guardPulls := cum.guardPulls + 1);
      } else {
        fee := BookFeeForHour(b, row.minutes, FeePips(p, i), None, p.exactFees);
      }
      ghost var pulled := Snapshot();
      assert pulled == if GuardPulled(p, b, row, gates) then PullGuard(was, i, env.sqrtP, step) else was;
      assert fee == HourlyFee(p, i, b, row, gates);
      hide GuardPulled, PullGuard, HourlyFee;
      books := books[i := books[i].(fees := books[i].fees + fee.total, cumFees := books[i].cumFees + fee.total)];
      cum := cum.(fees := cum.fees + fee.total, guardFees := cum.guardFees + fee.guard);
      assert Snapshot() == CreditFees(pulled, i, fee);
      Rearm(p, i, env, gates, step);
    }

    /** Put a pulled guard back once it is due. */
    method Rearm(p: Params, i: Slot, env: Env, gates: Gates, step: int)
      requires Valid()
      modifies this
      ensures Valid() && Snapshot() == RearmGuard(p, old(Snapshot()), i, env, gates, step)
    {
      var b := books[i];
      if !RearmDue(p, b, gates, step) { return; }
      var lo, hi, target := env.tick - p.guardWidthTicks, env.tick + p.guardWidthTicks, RearmTarget(b);
      var x, y := TokenUsdg(target, env.sqrtP, lo, hi), TokenNvda(target, env.sqrtP, lo, hi);
      hide TokenUsdg, TokenNvda, RearmTarget, RearmDue, Part, Moves.SwapDeficit;
      ghost var was := Snapshot();
      if p.swapFunding {
        SwapDeficit(x, y, env.price, p.swapCostBps, p.swapSlack);
        SwapLeavesBooks(was, x, y, env.price, p.swapCostBps, p.swapSlack);
      }
      var scale := 1.0;
      if x > 0.0 { scale := Min(scale, idleUsdg / x); }
      if y > 0.0 { scale := Min(scale, idleNvda / y); }
      assert scale == Moves.ScaleWithin(1.0, idleUsdg, idleNvda, x, y);
      hide Moves.ScaleWithin;
      if scale > 0.0 {
        books := books[i := Rearmed(books[i], Part(target, scale), lo, hi)];
        idleUsdg, idleNvda := idleUsdg - Part(x, scale), idleNvda - Part(y, scale);
      }
    }

    /** The income half of the hour. */
    method Earn(p: Params, env: Env, rows: Rows, step: int)
      requires Valid() && rows.Valid() && env.sqrtP > 0.0 && p.liquidationBonusBps >= 0.0
      modifies this
      ensures Valid() && Snapshot() == HourIncome(p, old(Snapshot()), env, rows, step)
    {
      hide BookIncome, NvdaRate, Part, Usd, Moves.Liquidate;
      EarnBook(p, 0, env, rows.a, rows.gatesA, step);
      EarnBook(p, 1, env, rows.b, rows.gatesB, step);
      ghost var both := Snapshot();
      var interest := Part(arm.lent, p.armUsdgApr / HOURS_PER_YEAR);
      var cost := Part(arm.debt, p.armBorrowApr / HOURS_PER_YEAR);
      var yielded := Part(arm.nvda, NvdaRate(p, arm, env.price));
      arm := arm.(lent := arm.lent + interest);
      arm := arm.(debt := arm.debt + cost);
      arm := arm.(nvda := arm.nvda + yielded);
      cum := cum.(armInterest := cum.armInterest + interest);
      cum := cum.(borrowCost := cum.borrowCost + cost);
      cum := cum.(nvdaYield := cum.nvdaYield + Usd(yielded, env.price));
      assert Snapshot() == Accrue(p, both, env.price);
      hide Accrue, ModeOf;
      Liquidate(p, env);
      mode := ModeOf(arm);
    }

    // ----- The executor -----

    method Lend(x: real)
      modifies `idleUsdg, `arm
      ensures Snapshot() == Executor.Lent(old(Snapshot()), x)
    {
      idleUsdg := idleUsdg - x;
      arm := arm.(lent := arm.lent + x);
    }

    method Pledge(y: real)
      modifies `idleNvda, `arm
      ensures Snapshot() == Executor.Pledged(old(Snapshot()), y)
    {
      idleNvda := idleNvda - y;
      arm := arm.(nvda := arm.nvda + y);
    }

    method Borrow(x: real)
      modifies `idleUsdg, `arm
      ensures Snapshot() == Executor.Borrowed(old(Snapshot()), x)
    {
      idleUsdg := idleUsdg + x;
      arm := arm.(debt := arm.debt + x);
    }

    method RepayDebt(x: real)
      modifies `idleUsdg, `arm
      ensures Snapshot() == Executor.RepaidDebt(old(Snapshot()), x)
    {
      var fromIdle := Min(x, idleUsdg);
      var fromLend := Min(x - fromIdle, arm.lent);
      idleUsdg := idleUsdg - fromIdle;
      arm := arm.(lent := arm.lent - fromLend);
      arm := arm.(debt := arm.debt - x);
    }

    method TryFund(p: Params, target: Slot, env: Env) returns (acted: bool)
      requires Valid()
      modifies this
      ensures Valid() && Executor.Applied(Snapshot(), acted) == Executor.TryFund(p, old(Snapshot()), target, env)
    {
      if arm.debt > DUST_USD || HasPositions(books[target]) { return false; }
      hide Moves.Fund;
      var funded := FundBook(p, target, env);
      return funded > DUST_USD;
    }

    method TryRecenter(p: Params, env: Env) returns (acted: bool)
      requires Valid()
      modifies this
      ensures Valid() && Executor.Applied(Snapshot(), acted) == Executor.TryRecenter(p, old(Snapshot()), env)
    {
      if !HasPositions(books[active]) { return false; }
      hide Moves.Fund, Moves.CloseBook, Moves.PayGas;
      var slot := active;
      CloseBook(slot, env.sqrtP);
      var funded := FundBook(p, slot, env);
      if funded > DUST_USD {
        PayGas(Executor.RecenterExtra(p));
        return true;
      }
      return false;
    }

    /** Empty both slots of their positions, the target first. */
    method CloseForSwitch(target: Slot, s: real)
      requires Valid()
      modifies this
      ensures Valid() && Snapshot() == Executor.CloseForSwitch(old(Snapshot()), target, s)
    {
      hide Moves.CloseBook, HasPositions;
      var slot := active;
      if target != slot && HasPositions(books[target]) { CloseBook(target, s); }
      if HasPositions(books[slot]) { CloseBook(slot, s); }
    }

    method TrySwitch(p: Params, target: Slot, env: Env) returns (acted: bool)
      requires Valid()
      modifies this
      ensures Valid() && Executor.Applied(Snapshot(), acted) == Executor.TrySwitch(p, old(Snapshot()), target, env)
    {
      hide Moves.Fund, HasPositions, Executor.CloseForSwitch, Executor.SwitchFee;
      if arm.debt > DUST_USD || (target == active && HasPositions(books[target])) { return false; }
      CloseForSwitch(target, env.sqrtP);
      var funded := FundBook(p, target, env);
      if funded > DUST_USD {
        var cost := Executor.SwitchFee(p, funded);
        if cost > 0.0 {
          idleUsdg := Max(0.0, idleUsdg - cost);
          cum := cum.(switchCost := cum.switchCost + cost);
        }
        return true;
      }
      return false;
    }

    /** An action's own moves, with its clamps; whether it counts as executed. */
    method Apply(p: Params, env: Env, action: Action) returns (acted: bool)
      requires Valid() && env.sqrtP > 0.0
      modifies this
      ensures Valid() && Executor.Applied(Snapshot(), acted) == Executor.Apply(p, old(Snapshot()), env, action)
    {
      hide Moves.CloseBook, Executor.TryFund, Executor.TryRecenter, Executor.TrySwitch,
        LendRoom, CollateralRoom, BorrowRoom, Executor.Withdrawable, Executor.RepaidDebt;
      acted := false;
      var pf := Pf(active, books, idleUsdg, idleNvda, arm, mode, cum);
      match action
      case Hold =>
      case AllocateUsdg(amount) =>
        var x := Executor.LendAmount(p, pf, env, amount);
        if x > DUST_USD { Lend(x); acted := true; }
      case AllocateNvda(amount) =>
        var y := Executor.CollateralAmount(p, pf, env, amount);
        if y > DUST_NVDA { Pledge(y); acted := true; }
      case BorrowUsdg(amount) =>
        var x := Executor.BorrowAmount(p, pf, env, amount);
        if x > DUST_USD { Borrow(x); acted := true; }
      case RecallBook =>
        CloseBook(active, env.sqrtP);
        acted := true;
      case Repay(amount) =>
        var x := Min(Min(amount, idleUsdg + arm.lent), arm.debt);
        if x > DUST_USD { RepayDebt(x); acted := true; }
      case WithdrawNvda(amount) =>
        var y := Executor.WithdrawAmount(p, pf, env, amount);
        if y > DUST_NVDA { Pledge(-y); acted := true; }
      case DeallocateUsdg(amount) =>
        var x := Min(amount, arm.lent);
        if x > DUST_USD { Lend(-x); acted := true; }
      case FundBook(target) => acted := TryFund(p, target, env);
      case RecenterBook => acted := TryRecenter(p, env);
      case SwitchBook(target) => acted := TrySwitch(p, target, env);
      case UnknownAction => acted := true;
    }

    /** One keeper action; an executed one pays gas and is counted. */
    method ExecuteAction(p: Params, env: Env, action: Action)
      requires Valid() && env.sqrtP > 0.0
      modifies this
      ensures Valid() && Snapshot() == Executor.Execute(p, old(Snapshot()), env, action)
    {
      hide Executor.Apply, Moves.PayGas, ModeOf;
      var acted := Apply(p, env, action);
      if acted {
        Moves.GasIsBooked(Snapshot(), p.gasCostUsd, env);
        PayGas(p.gasCostUsd);
        cum := cum.(actions := cum.actions + 1);
      }
      mode := ModeOf(arm);
    }

    /** Market, income, marks, one decision, one executed action. */
    method RunHour(p: Params, h: Hour, step: int)
      requires Valid() && h.Valid() && p.liquidationBonusBps >= 0.0
      modifies this
      ensures Valid() && Snapshot() == Simulation.Step(p, old(Snapshot()), h, step)
    {
      hide HourIncome, Executor.Execute, Decide;
      Earn(p, h.env, h.rows, step);
      var action := Decide(p, Pf(active, books, idleUsdg, idleNvda, arm, mode, cum), h, step);
      ExecuteAction(p, h.env, action);
    }
  }

  lemma SwapLeavesBooks(pf: Pf, x: real, y: real, price: real, costBps: real, slack: real)
    ensures Moves.SwapDeficit(pf, x, y, price, costBps, slack).books == pf.books
  {
    hide Moves.SwapFor, Part;
  }

  /** The simulation loop: build the portfolio at the first mark, then one hour a row. */
  method Simulate(p: Params, tape: seq<Hour>) returns (pf: Portfolio)
    requires Simulation.ValidTape(tape) && p.liquidationBonusBps >= 0.0
    ensures fresh(pf) && pf.Valid() && pf.Snapshot() == Simulation.Run(p, tape, |tape|)
  {
    hide *;
    Simulation.FirstHour(p, tape);
    pf := new Portfolio(p, tape[0].env);
    for n := 0 to |tape|
      invariant fresh(pf) && pf.Valid() && pf.Snapshot() == Simulation.Run(p, tape, n)
    {
      Simulation.NextHour(p, tape, n);
      pf.RunHour(p, tape[n], n);
    }
  }

  /** A finished simulation is in shape, and its ledger reconciles its NAV. */
  method SimulateAndReconcile(p: Params, tape: seq<Hour>) returns (pf: Portfolio)
    requires Sensible(p) && Simulation.SoundStart(p) && Simulation.ValidTape(tape)
    ensures fresh(pf) && pf.Valid() && Ok(p, pf.Snapshot())
    ensures Nav(pf.Snapshot(), tape[|tape| - 1].env) == p.initialNavUsd + Booked(pf.cum)
      + Simulation.MarketResult(p, tape, |tape|) + Simulation.Unpaid(p, tape, |tape|)
  {
    hide Simulation.Run, Simulation.MarketResult, Simulation.Unpaid, Ok, Nav, Booked;
    pf := Simulate(p, tape);
    Simulation.EveryRunIsOk(p, tape, |tape|);
    Simulation.EveryRunIsBooked(p, tape, |tape|);
  }
}
