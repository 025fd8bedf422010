/** The fee accounts: what the ledger calls fees is what the two books earned, and the guard's part is a part of it. */
module FeeLedger {
  import opened RealMath
  import opened Lp
  import opened State
  import opened Fees
  import opened FeeBounds
  import opened Moves
  import opened Invariant
  import opened Income
  import opened Planner
  import opened Decision
  import opened Executor
  import opened Conservation
  import opened Simulation

  /** The portfolio's fee account is its books' lifetime fees, and the guard's account is within it. */
  ghost predicate FeesAddUp(pf: Pf) {
    |pf.books| == 2 && pf.cum.fees == pf.books[0].cumFees + pf.books[1].cumFees
    && 0.0 <= pf.cum.guardFees <= pf.cum.fees
  }

  /** The fee accounts stay as they are. */
  ghost predicate SameFees(pf: Pf, r: Pf) {
    |pf.books| == 2 && |r.books| == 2 && r.cum.fees == pf.cum.fees && r.cum.guardFees == pf.cum.guardFees
    && r.books[0].cumFees == pf.books[0].cumFees && r.books[1].cumFees == pf.books[1].cumFees
  }

  // ----- Actions -----

  lemma GasKeepsFees(pf: Pf, gas: real)
    requires |pf.books| == 2
    ensures SameFees(pf, PayGas(pf, gas))
  {
  }

  lemma ClosingKeepsFees(pf: Pf, i: Slot, s: real)
    requires |pf.books| == 2
    ensures SameFees(pf, CloseBook(pf, i, s))
  {
    hide BookUsdg, BookNvda;
  }

  lemma SwapKeepsFees(pf: Pf, x: real, y: real, price: real, costBps: real, slack: real)
    requires |pf.books| == 2
    ensures SameFees(pf, SwapDeficit(pf, x, y, price, costBps, slack))
  {
    hide SwapFor, Part;
  }

  lemma FundingKeepsFees(p: Params, pf: Pf, target: Slot, env: Env)
    requires |pf.books| == 2
    ensures SameFees(pf, Fund(p, pf, target, env).pf)
  {
    var q, f := BookQuote(p, pf, target, env), FundFraction(p);
    SwapKeepsFees(pf, Part(q.xReq, f), Part(q.yReq, f), env.price, p.swapCostBps, p.swapSlack);
    hide BookQuote, FundScale, SwapDeficit, Part, FundFraction;
  }

  lemma SwitchKeepsFees(p: Params, pf: Pf, target: Slot, env: Env)
    requires WellFormed(pf, env)
    ensures SameFees(pf, TrySwitch(p, pf, target, env).pf)
  {
    hide CloseForSwitch, Fund, SwitchFee, SwitchFunding, SwitchRefused, SameFees;
    SwitchFundsTheClosed(p, pf, target, env);
    CloseForSwitchKeepsFees(pf, target, env.sqrtP);
    FundingKeepsFees(p, CloseForSwitch(pf, target, env.sqrtP), target, env);
    var r := SwitchFunding(p, pf, target, env);
    SameFeesChain(pf, CloseForSwitch(pf, target, env.sqrtP), r.pf);
    ChargeKeepsFees(pf, r.pf, SwitchFee(p, r.value));
    NoMoveKeepsFees(pf);
  }

  lemma NoMoveKeepsFees(pf: Pf)
    requires |pf.books| == 2
    ensures SameFees(pf, pf)
  {
  }

  lemma SameFeesChain(pf: Pf, q: Pf, r: Pf)
    requires SameFees(pf, q) && SameFees(q, r)
    ensures SameFees(pf, r)
  {
  }

  lemma ChargeKeepsFees(was: Pf, pf: Pf, cost: real)
    requires SameFees(was, pf)
    ensures SameFees(was, ChargeSwitch(pf, cost))
  {
  }

  lemma CloseForSwitchKeepsFees(pf: Pf, target: Slot, s: real)
    requires |pf.books| == 2
    ensures SameFees(pf, CloseForSwitch(pf, target, s))
  {
    var one := if target != pf.active && HasPositions(pf.books[target]) then CloseBook(pf, target, s) else pf;
    ClosingKeepsFees(pf, target, s);
    ClosingKeepsFees(one, pf.active, s);
    hide CloseBook, HasPositions;
  }

  lemma RecenterKeepsFees(p: Params, pf: Pf, env: Env)
    requires |pf.books| == 2
    ensures SameFees(pf, TryRecenter(p, pf, env).pf)
  {
    ClosingKeepsFees(pf, pf.active, env.sqrtP);
    var closed := CloseBook(pf, pf.active, env.sqrtP);
    FundingKeepsFees(p, closed, pf.active, env);
    GasKeepsFees(Fund(p, closed, pf.active, env).pf, RecenterExtra(p));
    hide CloseBook, Fund, PayGas, HasPositions;
  }

  /** No action earns or loses a fee in the books' own accounts. */
  lemma ActionsKeepFees(p: Params, pf: Pf, env: Env, a: Action)
    requires WellFormed(pf, env)
    ensures SameFees(pf, Execute(p, pf, env, a))
  {
    ApplyKeepsBooks(p, pf, env, a);
    hide Settle, SameFees, TryFund, TrySwitch, TryRecenter;
    ApplyKeepsFees(p, pf, env, a);
    hide Apply;
    SettlingKeepsFees(p, pf, Apply(p, pf, env, a));
  }

  lemma SettlingKeepsFees(p: Params, was: Pf, r: Applied)
    requires SameFees(was, r.pf)
    ensures |r.pf.books| == 2 && SameFees(was, Settle(p, r))
  {
    GasKeepsFees(r.pf, p.gasCostUsd);
    hide PayGas;
  }

  lemma ApplyKeepsFees(p: Params, pf: Pf, env: Env, a: Action)
    requires WellFormed(pf, env)
    ensures SameFees(pf, Apply(p, pf, env, a).pf)
  {
    match a {
      case FundBook(target) => FundingKeepsFees(p, pf, target, env);
      case SwitchBook(target) => SwitchKeepsFees(p, pf, target, env);
      case RecenterBook => RecenterKeepsFees(p, pf, env);
      case RecallBook => ClosingKeepsFees(pf, pf.active, env.sqrtP);
      case _ =>
    }
    hide Fund, TrySwitch, TryRecenter, CloseBook, LendRoom, CollateralRoom, BorrowRoom, Withdrawable, HasPositions;
  }

  // ----- Income -----

  lemma CreditAddsUp(p: Params, pf: Pf, i: Slot, fee: HourFee)
    requires FeesAddUp(pf) && 0.0 <= fee.guard <= fee.total
    ensures FeesAddUp(CreditFees(pf, i, fee))
  {
  }

  lemma PullKeepsFees(pf: Pf, i: Slot, s: real, step: int)
    requires FeesAddUp(pf)
    ensures FeesAddUp(PullGuard(pf, i, s, step))
  {
    hide TokenUsdg, TokenNvda;
  }

  lemma RearmKeepsFees(p: Params, pf: Pf, i: Slot, env: Env, gates: Gates, step: int)
    requires FeesAddUp(pf)
    ensures FeesAddUp(RearmGuard(p, pf, i, env, gates, step))
  {
    hide TokenUsdg, TokenNvda, SwapFor, ScaleWithin, RearmTarget, Part, RearmDue;
  }

  /** The guard's part of an hour is a part of it: the rest is the base's. */
  lemma GuardIsAPart(b: Book, m: Minutes, feePips: real, pull: Option<nat>, exact: bool)
    requires m.Valid() && SleevesNonneg(b)
    ensures var fee := FeeForHour(b, m, feePips, pull, exact); 0.0 <= fee.guard <= fee.total
  {
    HourFeesNonneg(b, m, feePips, pull, exact);
    hide FeeParts, ShareOf, Prorated, PullFraction;
  }

  lemma BookIncomeAddsUp(p: Params, pf: Pf, i: Slot, env: Env, row: BookRow, gates: Gates, step: int)
    requires FeesAddUp(pf) && row.minutes.Valid() && (pf.books[i].deployed ==> SleevesNonneg(pf.books[i]))
    ensures FeesAddUp(BookIncome(p, pf, i, env, row, gates, step))
  {
    var b := pf.books[i];
    if b.deployed {
      GuardIsAPart(b, row.minutes, FeePips(p, i),
        if GuardPulled(p, b, row, gates) then PullBin(p, b, row, gates) else None, p.exactFees);
      var pulled := if GuardPulled(p, b, row, gates) then PullGuard(pf, i, env.sqrtP, step) else pf;
      var fee := HourlyFee(p, i, b, row, gates);
      assert 0.0 <= fee.guard <= fee.total;
      hide FeesAddUp, FeeForHour, GuardPulled, HourlyFee, PullGuard, CreditFees, RearmGuard;
      PullKeepsFees(pf, i, env.sqrtP, step);
      CreditAddsUp(p, pulled, i, fee);
      RearmKeepsFees(p, CreditFees(pulled, i, fee), i, env, gates, step);
    }
  }

  lemma IncomeAddsUp(p: Params, pf: Pf, env: Env, rows: Rows, step: int)
    requires Sensible(p) && Ok(p, pf) && FeesAddUp(pf) && MarkedEnv(env) && rows.Valid()
    ensures FeesAddUp(HourIncome(p, pf, env, rows, step))
  {
    BookIncomeAddsUp(p, pf, 0, env, rows.a, rows.gatesA, step);
    BookIncomeKeepsOk(p, pf, 0, env, rows.a, rows.gatesA, step);
    var one := BookIncome(p, pf, 0, env, rows.a, rows.gatesA, step);
    BookIncomeAddsUp(p, one, 1, env, rows.b, rows.gatesB, step);
    hide BookIncome, NvdaRate, Part, Usd, LiquidatedArm, Liquidatable, Nav, BookOk;
  }

  // ----- Runs -----

  lemma StepAddsUp(p: Params, pf: Pf, h: Hour, step: int)
    requires Sensible(p) && Ok(p, pf) && FeesAddUp(pf) && h.Valid()
    ensures FeesAddUp(Step(p, pf, h, step))
  {
    assert h.env.sqrtP > 0.0;
    IncomeAddsUp(p, pf, h.env, h.rows, step);
    IncomeSizes(p, pf, h, step);
    var e := Earned(p, pf, h, step);
    hide HourIncome, Decide, Execute, Ok;
    ActionsKeepFees(p, e, h.env, Decide(p, e, h, step));
  }

  lemma StartsAddedUp(p: Params, env: Env)
    requires env.sqrtP > 0.0
    ensures FeesAddUp(Initial(p, env))
  {
    hide LiquidityForValue, HodlBasket, BaseCapital, GuardCapital;
  }

  /**
   * Over every run the ledger's fees are the two books' lifetime fees, recalls, switches and re-fundings
   * notwithstanding, and the guard's fees are between zero and all of them.
   */
  lemma {:induction false} EveryRunFeesAddUp(p: Params, tape: seq<Hour>, n: nat)
    requires Sensible(p) && SoundStart(p) && ValidTape(tape) && n <= |tape|
    ensures FeesAddUp(Run(p, tape, n))
  {
    hide Step, Ok, Initial, FeesAddUp;
    if n == 0 {
      assert tape[0].Valid();
      StartsAddedUp(p, tape[0].env);
    } else {
      EveryRunFeesAddUp(p, tape, n - 1);
      EveryRunIsOk(p, tape, n - 1);
      assert tape[n - 1].Valid();
      StepAddsUp(p, Run(p, tape, n - 1), tape[n - 1], n - 1);
    }
  }
}
