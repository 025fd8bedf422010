/** What a funding leaves behind in scale mode, and what a re-centring leads to. */
module Funding {
  import opened RealMath
  import opened Lp
  import opened State
  import opened BaseSkew
  import opened Moves
  import opened Invariant
  import opened Decision
  import opened Executor
  import opened OneWayDoor
  import opened SwapToFund

  // ----- The share that stays behind -----

  /** The whole target is open. */
  ghost predicate WholeTarget(b: Book) {
    b.deployed && b.baseL == b.targetBaseL && b.guardPresent && b.guardL == b.targetGuardL
  }

  lemma PartKeeps(x: real, f: real)
    requires x >= 0.0 && 0.0 <= f <= 1.0
    ensures Part(x, f) + Part(x, 1.0 - f) == x && Part(x, f) >= 0.0 && Part(x, 1.0 - f) >= 0.0
    ensures Part(x, f) <= 0.0 ==> Part(x, 1.0 - f) == x
  {
    MulNonneg(x, f);
    MulNonneg(x, 1.0 - f);
  }

  /** A scale is 1, or one required leg is used up by it; a scale that is not positive has a leg with nothing to use. */
  lemma ScaleUsesUp(xa: real, ya: real, xr: real, yr: real)
    requires xa >= 0.0 && ya >= 0.0
    ensures var scale := ScaleWithin(1.0, xa, ya, xr, yr);
      (scale == 1.0 || (xr > 0.0 && Part(xr, scale) == xa) || (yr > 0.0 && Part(yr, scale) == ya))
      && (xr > 0.0 ==> Part(xr, scale) <= xa) && (yr > 0.0 ==> Part(yr, scale) <= ya)
      && 0.0 <= scale <= 1.0 && (scale == 0.0 ==> (xr > 0.0 && xa == 0.0) || (yr > 0.0 && ya == 0.0))
  {
    var scale := ScaleWithin(1.0, xa, ya, xr, yr);
    if xr > 0.0 { MulDiv(xa, xr); DivNonneg(xa, xr); QuotientFits(xa, xr, scale); }
    if yr > 0.0 { MulDiv(ya, yr); DivNonneg(ya, yr); QuotientFits(ya, yr, scale); }
  }

  /**
   * Funding in scale mode, in `fund_book_bps` itself: from non-negative legs at least the unused share of each
   * leg stays idle, and either the whole target is open or a leg that it asks for is left at exactly that.
   */
  lemma ScaleFundingLeaves(p: Params, pf: Pf, target: Slot, env: Env)
    requires !p.swapFunding && |pf.books| == 2 && pf.idleUsdg >= 0.0 && pf.idleNvda >= 0.0
    ensures var r, q := Fund(p, pf, target, env).pf, BookQuote(p, pf, target, env);
      var kept := 1.0 - Clamp(p.fundBookBps, 0.0, BPS) / BPS;
      |r.books| == 2 && r.idleUsdg >= Part(pf.idleUsdg, kept) && r.idleNvda >= Part(pf.idleNvda, kept)
      && (q.xReq > 0.0 || q.yReq > 0.0 ==>
        WholeTarget(r.books[target])
        || (q.xReq > 0.0 && r.idleUsdg == Part(pf.idleUsdg, kept))
        || (q.yReq > 0.0 && r.idleNvda == Part(pf.idleNvda, kept)))
  {
    var q, f := BookQuote(p, pf, target, env), FundFraction(p);
    FractionIs(p);
    QuoteNonneg(p, pf, target, env);
    PartKeeps(pf.idleUsdg, f);
    PartKeeps(pf.idleNvda, f);
    var xa, ya := Part(pf.idleUsdg, f), Part(pf.idleNvda, f);
    ScaleUsesUp(xa, ya, q.xReq, q.yReq);
    assert forall x :: Part(x, 1.0) == x && Part(0.0, x) == 0.0;
    hide BookQuote, FundFraction, Clamp, Part, ScaleWithin, Usd;
  }

  /** The dollars that a scale of a quote takes. */
  function Dollars(q: Quote, scale: real, price: real): real { scale * (q.xReq + q.yReq * price) }

  lemma DeployedIsScaled(q: Quote, scale: real, price: real)
    ensures Part(q.xReq, scale) + Usd(Part(q.yReq, scale), price) == Dollars(q, scale, price)
  {
  }

  lemma DeployableIsScaled(p: Params, pf: Pf, target: Slot, env: Env)
    requires p.inventorySkew && |pf.books| == 2
    ensures var b, q := pf.books[target], BookQuote(p, pf, target, env);
      Deployable(p, pf.idleUsdg, pf.idleNvda, b.targetBaseL, b.targetGuardL, env,
                 ChooseBaseSkew(p, pf.idleUsdg, pf.idleNvda, b, env))
      == Dollars(q, ScaleWithin(1.0, pf.idleUsdg, pf.idleNvda, q.xReq, q.yReq), env.price)
  {
    hide ChooseBaseSkew, TokenUsdg, TokenNvda;
  }

  /** With the full share in scale mode, a funding deploys exactly what the chosen skew was ranked by. */
  lemma SkewedFundingDeploys(p: Params, pf: Pf, target: Slot, env: Env)
    requires !p.swapFunding && p.inventorySkew && p.fundBookBps >= BPS && |pf.books| == 2
    requires pf.idleUsdg >= 0.0 && pf.idleNvda >= 0.0
    ensures var b := pf.books[target];
      Fund(p, pf, target, env).value
      == Deployable(p, pf.idleUsdg, pf.idleNvda, b.targetBaseL, b.targetGuardL, env,
                    ChooseBaseSkew(p, pf.idleUsdg, pf.idleNvda, b, env))
  {
    hide ChooseBaseSkew, Deployable, BookQuote, ScaleWithin, Usd, Part, Dollars;
    var q := BookQuote(p, pf, target, env);
    DeployableIsScaled(p, pf, target, env);
    QuoteNonneg(p, pf, target, env);
    ScaleUsesUp(pf.idleUsdg, pf.idleNvda, q.xReq, q.yReq);
    PartIsWhole(pf.idleUsdg);
    PartIsWhole(pf.idleNvda);
    assert FundFraction(p) == 1.0;
    DeployedIsScaled(q, ScaleWithin(1.0, pf.idleUsdg, pf.idleNvda, q.xReq, q.yReq), env.price);
    NothingAsked(q, env.price);
  }

  lemma NothingAsked(q: Quote, price: real)
    ensures Dollars(q, 0.0, price) == 0.0
    ensures q.xReq == 0.0 && q.yReq == 0.0 ==> Dollars(q, 1.0, price) == 0.0
  {
  }

  // ----- Re-centring -----

  lemma GasTwice(pf: Pf, first: real, second: real)
    requires |pf.books| == 2
    ensures var one := PayGas(pf, first);
      |one.books| == 2
      && var two := PayGas(one, second);
      |two.books| == 2 && GasMoney(two) == GasMoney(pf) - (two.cum.gas - pf.cum.gas) >= 0.0 && GasMoney(pf) >= 0.0
      && two.cum.gas - pf.cum.gas == Min(Max(0.0, first) + Max(0.0, second), GasMoney(pf))
  {
    GasDraws(pf, first);
    GasDraws(PayGas(pf, first), second);
    hide PayGas, GasMoney;
  }

  lemma GasDraws(pf: Pf, gas: real)
    requires |pf.books| == 2
    ensures var r := PayGas(pf, gas);
      |r.books| == 2 && GasMoney(r) == GasMoney(pf) - (r.cum.gas - pf.cum.gas) >= 0.0
      && r.cum.gas - pf.cum.gas == Min(Max(0.0, gas), GasMoney(pf))
  {
  }

  /** The gas of a re-centring: so many ordinary bills, and never less than one. */
  function RecenterBill(p: Params): real { Max(0.0, p.gasCostUsd) * Max(1.0, p.recenterGasMultiplier) }

  lemma BillIsTwo(p: Params)
    ensures Max(0.0, RecenterExtra(p)) + Max(0.0, p.gasCostUsd) == RecenterBill(p)
  {
    var k := Max(0.0, p.recenterGasMultiplier - 1.0);
    if p.gasCostUsd >= 0.0 { MulNonneg(p.gasCostUsd, k); } else { MulNonneg(-p.gasCostUsd, k); }
  }

  /** A bill is paid, or everything there is for it. */
  ghost predicate Billed(pf: Pf, r: Pf, bill: real)
    requires |r.books| == 2
  {
    var paid := r.cum.gas - pf.cum.gas;
    paid == bill || (0.0 <= paid < bill && GasMoney(r) == 0.0)
  }

  /** A book opened at this mark: around it, with the ranges' own widths, the base off centre by the skew at most. */
  ghost predicate OpenAtMark(p: Params, b: Book, env: Env) {
    HasPositions(b) && b.entryTick == env.tick && b.lastPull == -1 && b.guardPresent
    && b.guardLo == env.tick - p.guardWidthTicks && b.guardHi == env.tick + p.guardWidthTicks
    && b.baseHi - b.baseLo == 2 * p.baseWidthTicks
    && env.tick - MaxSkew(p) - p.baseWidthTicks <= b.baseLo <= env.tick + MaxSkew(p) - p.baseWidthTicks
  }

  function MaxSkew(p: Params): int { if p.inventorySkew && p.skewMaxTicks > 0 then p.skewMaxTicks else 0 }

  lemma SkewWithin(p: Params, x: real, y: real, b: Book, env: Env)
    ensures -MaxSkew(p) <= (if p.inventorySkew then ChooseBaseSkew(p, x, y, b, env) else 0) <= MaxSkew(p)
  {
    if p.inventorySkew && p.skewMaxTicks > 0 && !(b.targetBaseL <= 0.0 && b.targetGuardL <= 0.0) {
      var value := off => Deployable(p, x, y, b.targetBaseL, b.targetGuardL, env, off);
      hide Deployable, Offsets;
      ScanWithin(Offsets(p.skewMaxTicks), value, p.skewTolerance, p.skewMaxTicks);
    }
  }

  /** A scan keeps one of its offsets, or zero. */
  lemma {:induction false} ScanWithin(offsets: seq<int>, value: int -> real, tolerance: real, m: int)
    requires m >= 0 && forall o :: o in offsets ==> -m <= o <= m
    ensures -m <= BestOf(offsets, value, tolerance).off <= m
  {
    if |offsets| > 0 {
      var before, last := offsets[..|offsets| - 1], offsets[|offsets| - 1];
      assert last in offsets;
      forall o | o in before ensures -m <= o <= m { assert o in offsets; }
      ScanWithin(before, value, tolerance, m);
    }
  }

  /** A funding with a positive scale opens the slot around the mark, for what it says it deployed. */
  lemma FundedAtMark(p: Params, pf: Pf, target: Slot, env: Env)
    requires |pf.books| == 2 && BookOk(pf.books[target]) && MarkedEnv(env)
    ensures var r := Fund(p, pf, target, env);
      r.scale > 0.0 ==>
        |r.pf.books| == 2 && OpenAtMark(p, r.pf.books[target], env) && r.pf.books[target].fees == 0.0
        && BookValue(r.pf.books[target], env.sqrtP) == r.value
  {
    var r, q, b := Fund(p, pf, target, env), BookQuote(p, pf, target, env), pf.books[target];
    if r.scale > 0.0 {
      SkewWithin(p, pf.idleUsdg, pf.idleNvda, b, env);
      OpenedIsWorth(b, q, r.scale, env);
      PartPositive(b.targetBaseL, r.scale);
      assert q.guardLo == env.tick - p.guardWidthTicks && q.baseHi - q.baseLo == 2 * p.baseWidthTicks;
      hide BookQuote, FundScale, SwapFor, Part, Usd, BookValue;
    }
  }

  lemma FeelessPay(pf: Pf, gas: real)
    requires |pf.books| == 2 && pf.books[0].fees == 0.0 && pf.books[1].fees == 0.0
    ensures PayGas(pf, gas).books == pf.books && PayGas(pf, gas).active == pf.active
  {
  }

  /** The recalled keeper of a re-centring, and what funding it again leaves: no fees in either slot. */
  lemma RecalledAndFunded(p: Params, pf: Pf, env: Env)
    requires Sensible(p) && Ok(p, pf) && MarkedEnv(env)
    ensures env.sqrtP > 0.0 && |pf.books| == 2
    ensures var c := CloseBook(pf, pf.active, env.sqrtP);
      |c.books| == 2 && NoBookOpen(c) && BookOk(ActiveBook(c)) && c.active == pf.active && c.arm == pf.arm
      && var f := Fund(p, c, pf.active, env).pf;
      |f.books| == 2 && f.active == pf.active && f.cum.gas == pf.cum.gas && f.arm == pf.arm
      && f.books[0].fees == 0.0 && f.books[1].fees == 0.0
  {
    ClosingSizes(pf, pf.active, env.sqrtP);
    ClosingKeepsOk(p, pf, pf.active, env.sqrtP);
    var c := CloseBook(pf, pf.active, env.sqrtP);
    assert NoBookOpen(c) && c.cum == pf.cum && c.books[0].fees == 0.0 && c.books[1].fees == 0.0;
    FundLeaves(p, c, pf.active, env);
    FundedAtMark(p, c, pf.active, env);
    FundingIsBooked(p, c, pf.active, env);
    FundingTouchesOneSlot(p, c, pf.active, env);
    hide CloseBook, Fund, BookOk, HasPositions, BookValue, Nav, OpenAtMark;
  }

  /** The executor's part of a re-centring: both bills when more than a dollar was deployed, none otherwise. */
  lemma TriedRecenter(p: Params, pf: Pf, env: Env)
    requires Sensible(p) && Ok(p, pf) && MarkedEnv(env) && HasPositions(ActiveBook(pf))
    ensures env.sqrtP > 0.0 && |pf.books| == 2
    ensures var c := CloseBook(pf, pf.active, env.sqrtP);
      |c.books| == 2
      && var f, r := Fund(p, c, pf.active, env), Execute(p, pf, env, RecenterBook);
      |r.books| == 2 && r.books == f.pf.books && r.active == pf.active
      && (f.value > DUST_USD ==> Billed(pf, r, RecenterBill(p)))
      && (f.value <= DUST_USD ==> r.cum.gas == pf.cum.gas)
  {
    hide CloseBook, Fund, BookOk, HasPositions, Ok, Marked, PayGas, RecenterExtra, RecenterBill, GasMoney;
    RecalledAndFunded(p, pf, env);
    var f := Fund(p, CloseBook(pf, pf.active, env.sqrtP), pf.active, env);
    GasTwice(f.pf, RecenterExtra(p), p.gasCostUsd);
    BillIsTwo(p);
    FeelessPay(f.pf, RecenterExtra(p));
    FeelessPay(PayGas(f.pf, RecenterExtra(p)), p.gasCostUsd);
    GasMoneyOf(PayGas(PayGas(f.pf, RecenterExtra(p)), p.gasCostUsd));
  }

  lemma FundingTouchesOneSlot(p: Params, pf: Pf, target: Slot, env: Env)
    requires |pf.books| == 2
    ensures var r := Fund(p, pf, target, env); |r.pf.books| == 2 && r.pf.books[1 - target] == pf.books[1 - target]
  {
    hide BookQuote, FundScale, SwapFor, Part, Usd;
  }

  lemma GasMoneyOf(pf: Pf)
    requires |pf.books| == 2
    ensures forall mode, cum :: GasMoney(pf.(mode := mode, cum := cum)) == GasMoney(pf)
  {
  }

  /**
   * A re-centring of an open book. If the keeper, with the book's tokens idle, is fundable, the book is open
   * again, around the new mark; at the tick's own price no further re-centring is due, and for more than a dollar
   * the ordinary gas and the extra gas are paid. Otherwise the book stays closed and no gas is paid at all.
   */
  lemma RecenterReopens(p: Params, pf: Pf, env: Env)
    requires Sensible(p) && Ok(p, pf) && MarkedEnv(env) && HasPositions(ActiveBook(pf))
    ensures env.sqrtP > 0.0 && |pf.books| == 2
    ensures var c := CloseBook(pf, pf.active, env.sqrtP);
      |c.books| == 2
      && var r := Execute(p, pf, env, RecenterBook);
      |r.books| == 2 && r.active == pf.active
      && var b := ActiveBook(r);
      (HasPositions(b) <==> Fundable(p, c, pf.active, env))
      && (HasPositions(b) ==>
        OpenAtMark(p, b, env) && (env.price == PriceFromTick(env.tick) ==> Recenter(p, r, env).None?))
      && (!HasPositions(b) ==> NoBookOpen(r))
      && (if HasPositions(b) && BookValue(b, env.sqrtP) > 1.0 then Billed(pf, r, RecenterBill(p))
          else r.cum.gas == pf.cum.gas)
  {
    hide CloseBook, Fund, Fundable, Execute, BookOk, Ok, BookValue, Billed, RecenterBill, PriceFromTick, Recenter;
    hide OpenAtMark, Marked, MarkedEnv;
    RecalledAndFunded(p, pf, env);
    TriedRecenter(p, pf, env);
    var c := CloseBook(pf, pf.active, env.sqrtP);
    FundLeaves(p, c, pf.active, env);
    FundedAtMark(p, c, pf.active, env);
    FundScaleIs(p, c, pf.active, env);
    var r := Execute(p, pf, env, RecenterBook);
    if OpenAtMark(p, ActiveBook(r), env) {
      AtMarkIsOpen(p, r, env);
    }
  }

  lemma AtMarkIsOpen(p: Params, pf: Pf, env: Env)
    requires |pf.books| == 2 && OpenAtMark(p, ActiveBook(pf), env)
    ensures HasPositions(ActiveBook(pf))
    ensures env.price == PriceFromTick(env.tick) ==> Recenter(p, pf, env).None?
  {
    if env.price == PriceFromTick(env.tick) {
      MulDiv(1.0, env.price);
      hide PriceFromTick, HasPositions;
      assert env.price / env.price == 1.0;
    }
  }

  // ----- Switching -----

  /** Both slots recalled for a switch, and the keeper funded again: the same facts as for a re-centring. */
  lemma ClosedAndFunded(p: Params, pf: Pf, target: Slot, env: Env)
    requires Sensible(p) && Ok(p, pf) && MarkedEnv(env)
    ensures env.sqrtP > 0.0 && |pf.books| == 2
    ensures var c := CloseForSwitch(pf, target, env.sqrtP);
      |c.books| == 2 && NoBookOpen(c) && BookOk(c.books[target]) && c.active == pf.active && c.arm == pf.arm
      && c.cum == pf.cum
      && var f := Fund(p, c, target, env).pf;
      |f.books| == 2 && !f.books[1 - target].deployed && f.cum.switchCost == pf.cum.switchCost && f.arm == pf.arm
  {
    ClosingSizes(pf, target, env.sqrtP);
    ClosingSizes(pf, pf.active, env.sqrtP);
    ClosingKeepsOk(p, pf, target, env.sqrtP);
    ClosingKeepsOk(p, pf, pf.active, env.sqrtP);
    ClosingKeepsOk(p, CloseBook(pf, target, env.sqrtP), pf.active, env.sqrtP);
    DeployedHasPositions(pf.books[target]);
    DeployedHasPositions(ActiveBook(pf));
    var c := CloseForSwitch(pf, target, env.sqrtP);
    assert NoBookOpen(c) && c.cum == pf.cum && c.active == pf.active && c.arm == pf.arm && Ok(p, c) by {
      hide BookUsdg, BookNvda, BookOk, HasPositions;
    }
    hide CloseForSwitch, CloseBook, BookOk, HasPositions;
    FundLeaves(p, c, target, env);
    FundingIsBooked(p, c, target, env);
    FundingTouchesOneSlot(p, c, target, env);
    hide Fund, Nav, BookValue;
    assert BookOk(c.books[target]);
  }

  lemma ChargeKeepsBooks(pf: Pf, cost: real)
    requires |pf.books| == 2
    ensures var r := ChargeSwitch(pf, cost);
      r.books == pf.books && r.active == pf.active
      && r.cum.switchCost - pf.cum.switchCost == Max(0.0, cost)
  {
  }

  lemma GasKeepsSwitchCost(p: Params, r: Applied)
    requires |r.pf.books| == 2
    ensures var s := Settle(p, r);
      |s.books| == 2 && s.active == r.pf.active && s.cum.switchCost == r.pf.cum.switchCost
      && forall i :: 0 <= i < 2 ==> s.books[i] == r.pf.books[i].(fees := s.books[i].fees)
  {
  }

  /**
   * A switch that is not refused. If the keeper, with both slots recalled, is fundable, the target is open around the
   * mark and active and the other slot is closed; the booked cost is the switch rate on the dollars deployed, when
   * they are more than dust. Otherwise no book is open and nothing is booked.
   */
  lemma SwitchOpensTheTarget(p: Params, pf: Pf, target: Slot, env: Env)
    requires Sensible(p) && Ok(p, pf) && MarkedEnv(env) && pf.arm.debt <= 1.0
    requires target == pf.active ==> !HasPositions(pf.books[target])
    ensures env.sqrtP > 0.0
    ensures var c := CloseForSwitch(pf, target, env.sqrtP);
      |c.books| == 2
      && var f, r := Fund(p, c, target, env), Execute(p, pf, env, SwitchBook(target));
      var cost := r.cum.switchCost - pf.cum.switchCost;
      |r.books| == 2 && |f.pf.books| == 2 && !r.books[1 - target].deployed
      && (r.books[target].deployed <==> Fundable(p, c, target, env))
      && (r.books[target].deployed ==>
        r.active == target && OpenAtMark(p, r.books[target], env)
        && f.value == BookValue(f.pf.books[target], env.sqrtP)
        && r.books[target] == f.pf.books[target].(fees := r.books[target].fees)
        && cost == if f.value > 1.0 then Max(0.0, Part(f.value, p.switchCostBps / BPS)) else 0.0)
      && (!r.books[target].deployed ==> NoBookOpen(r) && cost == 0.0)
  {
    hide CloseForSwitch, CloseBook, Fund, Fundable, BookOk, Ok, BookValue, Marked, Settle, ChargeSwitch;
    hide HasPositions, Part;
    ClosedAndFunded(p, pf, target, env);
    ClosingSizes(pf, target, env.sqrtP);
    var c := CloseForSwitch(pf, target, env.sqrtP);
    FundLeaves(p, c, target, env);
    FundedAtMark(p, c, target, env);
    FundScaleIs(p, c, target, env);
    var f := Fund(p, c, target, env);
    ChargeKeepsBooks(f.pf, SwitchFee(p, f.value));
    ApplyKeepsBooks(p, pf, env, SwitchBook(target));
    GasKeepsSwitchCost(p, Apply(p, pf, env, SwitchBook(target)));
    OpenIgnoresFees(p, f.pf.books[target], Execute(p, pf, env, SwitchBook(target)).books[target].fees, env);
    hide OpenAtMark;
  }

  lemma OpenIgnoresFees(p: Params, b: Book, fees: real, env: Env)
    ensures OpenAtMark(p, b.(fees := fees), env) <==> OpenAtMark(p, b, env)
    ensures OpenAtMark(p, b, env) ==> b.deployed
  {
  }
}
