/** The income half of an hour: fees, guard pull and re-arm, arm interest, liquidation. */
module Income {
  import opened RealMath
  import opened Lp
  import opened State
  import opened Fees
  import opened FeeBounds
  import opened Moves
  import opened Invariant

  /** What the hour brings to one book: its minute rows and five-minute moves. */
  datatype BookRow = BookRow(minutes: Minutes, fiveMinMoves: seq<int>)

  /** Outcomes of the rolling fee-versus-IL gates: whether they pull the guard and whether they allow a re-arm. */
  datatype Gates = Gates(feeIlPull: bool, rearmOk: bool)

  function FeePips(p: Params, i: Slot): real { if i == 0 then p.feePipsA else p.feePipsB }

  /** The bin at which the guard is pulled this hour; a gate pull counts from the start of the hour. */
  function PullBin(p: Params, b: Book, row: BookRow, gates: Gates): Option<nat> {
    if gates.feeIlPull && b.guardPresent then Some(0)
    else FirstPullBin(row.fiveMinMoves, p.guardPullThresholdBps)
  }

  predicate GuardPulled(p: Params, b: Book, row: BookRow, gates: Gates) {
    PullBin(p, b, row, gates).Some? && b.guardPresent && b.guardL > 0.0
  }

  function HourlyFee(p: Params, i: Slot, b: Book, row: BookRow, gates: Gates): HourFee
    requires row.minutes.Valid()
  {
    FeeForHour(b, row.minutes, FeePips(p, i),
      if GuardPulled(p, b, row, gates) then PullBin(p, b, row, gates) else None, p.exactFees)
  }

  /** The guard's tokens return to the idle inventory. */
  function PullGuard(pf: Pf, i: Slot, s: real, step: int): Pf
    requires |pf.books| == 2
  {
    var b := pf.books[i];
    pf.(idleUsdg := pf.idleUsdg + TokenUsdg(b.guardL, s, b.guardLo, b.guardHi),
        idleNvda := pf.idleNvda + TokenNvda(b.guardL, s, b.guardLo, b.guardHi),
        books := pf.books[i := b.(guardL := 0.0, guardPresent := false, lastPull := step)],
        cum := pf.cum.(guardPulls := pf.cum.guardPulls + 1))
  }

  function CreditFees(pf: Pf, i: Slot, fee: HourFee): Pf
    requires |pf.books| == 2
  {
    var b := pf.books[i];
    pf.(books := pf.books[i := b.(fees := b.fees + fee.total, cumFees := b.cumFees + fee.total)],
        cum := pf.cum.(fees := pf.cum.fees + fee.total, guardFees := pf.cum.guardFees + fee.guard))
  }

  /** The guard that keeps the target ratio to the base as it stands. */
  function RearmTarget(b: Book): real {
    if b.targetBaseL > 0.0 then Part(b.targetGuardL, b.baseL / b.targetBaseL) else 0.0
  }

  predicate RearmDue(p: Params, b: Book, gates: Gates, step: int) {
    !b.guardPresent && b.baseL > 0.0 && p.guardRearmDelayHours >= 0
    && step - b.lastPull >= p.guardRearmDelayHours
    && RearmTarget(b) > 0.0 && gates.rearmOk
  }

  function Rearmed(b: Book, l: real, lo: int, hi: int): Book {
    b.(guardL := l, guardLo := lo, guardHi := hi, guardPresent := true, lastPull := -1)
  }

  function RearmGuard(p: Params, pf: Pf, i: Slot, env: Env, gates: Gates, step: int): Pf
    requires |pf.books| == 2
  {
    var b := pf.books[i];
    if !RearmDue(p, b, gates, step) then pf
    else
      var lo, hi := env.tick - p.guardWidthTicks, env.tick + p.guardWidthTicks;
      var x, y := TokenUsdg(RearmTarget(b), env.sqrtP, lo, hi), TokenNvda(RearmTarget(b), env.sqrtP, lo, hi);
      var ready := if p.swapFunding then SwapDeficit(pf, x, y, env.price, p.swapCostBps, p.swapSlack) else pf;
      var scale := ScaleWithin(1.0, ready.idleUsdg, ready.idleNvda, x, y);
      if scale > 0.0 then
        ready.(books := ready.books[i := Rearmed(b, Part(RearmTarget(b), scale), lo, hi)],
               idleUsdg := ready.idleUsdg - Part(x, scale), idleNvda := ready.idleNvda - Part(y, scale))
      else ready
  }

  function BookIncome(p: Params, pf: Pf, i: Slot, env: Env, row: BookRow, gates: Gates, step: int): Pf
    requires |pf.books| == 2 && row.minutes.Valid()
  {
    var b := pf.books[i];
    if !b.deployed then pf
    else
      var pulled := if GuardPulled(p, b, row, gates) then PullGuard(pf, i, env.sqrtP, step) else pf;
      RearmGuard(p, CreditFees(pulled, i, HourlyFee(p, i, b, row, gates)), i, env, gates, step)
  }

  /** NVDA yield per hour; a rate quoted net of the borrow cost is grossed up by the arm's LTV. */
  function NvdaRate(p: Params, arm: Arm, price: real): real {
    var cv := Usd(arm.nvda, price);
    var grossUp := if p.nvdaAprIsNet && arm.nvda > 0.0 && price > 0.0 && cv > 0.0
      then arm.debt / cv * p.armBorrowApr else 0.0;
    (p.armNvdaApr + grossUp) / HOURS_PER_YEAR
  }

  function Accrue(p: Params, pf: Pf, price: real): Pf {
    var arm := pf.arm;
    var interest := Part(arm.lent, p.armUsdgApr / HOURS_PER_YEAR);
    var cost := Part(arm.debt, p.armBorrowApr / HOURS_PER_YEAR);
    var yielded := Part(arm.nvda, NvdaRate(p, arm, price));
    pf.(arm := Arm(arm.nvda + yielded, arm.debt + cost, arm.lent + interest, arm.badDebt),
        cum := pf.cum.(armInterest := pf.cum.armInterest + interest, borrowCost := pf.cum.borrowCost + cost,
                       nvdaYield := pf.cum.nvdaYield + Usd(yielded, price)))
  }

  /** One row for each book, with the outcomes of its gates. */
  datatype Rows = Rows(a: BookRow, b: BookRow, gatesA: Gates, gatesB: Gates) {
    predicate Valid() { a.minutes.Valid() && b.minutes.Valid() }
  }

  function BothIncomes(p: Params, pf: Pf, env: Env, rows: Rows, step: int): Pf
    requires |pf.books| == 2 && rows.Valid()
  {
    BookIncome(p, BookIncome(p, pf, 0, env, rows.a, rows.gatesA, step), 1, env, rows.b, rows.gatesB, step)
  }

  function HourIncome(p: Params, pf: Pf, env: Env, rows: Rows, step: int): Pf
    requires |pf.books| == 2 && rows.Valid() && env.sqrtP > 0.0 && p.liquidationBonusBps >= 0.0
  {
    var accrued := Accrue(p, BothIncomes(p, pf, env, rows, step), env.price);
    var settled := Liquidate(p, accrued, env);
    settled.(mode := ModeOf(settled.arm))
  }

  // ----- What each part does to the NAV -----

  lemma PullConserves(pf: Pf, i: Slot, env: Env, step: int)
    requires |pf.books| == 2 && MarkedEnv(env)
    requires pf.books[i].deployed && pf.books[i].guardPresent && pf.books[i].guardL > 0.0
    ensures var r := PullGuard(pf, i, env.sqrtP, step);
      Nav(r, env) == Nav(pf, env) && r.cum == pf.cum.(guardPulls := r.cum.guardPulls)
  {
    var b := pf.books[i];
    TokensAreTheValue(b.guardL, env.sqrtP, env.price, b.guardLo, b.guardHi);
    hide PositionValue, TokenUsdg, TokenNvda, ArmEquity;
    var x := TokenUsdg(b.guardL, env.sqrtP, b.guardLo, b.guardHi);
    var y := TokenNvda(b.guardL, env.sqrtP, b.guardLo, b.guardHi);
    assert SleeveValue(b.guardL, env.sqrtP, b.guardLo, b.guardHi) == x + Usd(y, env.price);
    hide Usd;
    assert BookValue(b.(guardL := 0.0, guardPresent := false, lastPull := step), env.sqrtP)
        == BookValue(b, env.sqrtP) - (x + Usd(y, env.price));
    hide BookValue;
    UsdAdds(pf.idleNvda, y, env.price);
  }

  lemma CreditIsBooked(pf: Pf, i: Slot, fee: HourFee, env: Env)
    requires |pf.books| == 2 && env.sqrtP > 0.0
    ensures var r := CreditFees(pf, i, fee);
      Nav(r, env) == Nav(pf, env) + fee.total
      && r.cum == pf.cum.(fees := pf.cum.fees + fee.total, guardFees := r.cum.guardFees)
  {
    hide Usd, SleeveValue;
  }

  lemma RearmedIsWorth(b: Book, x: real, y: real, scale: real, env: Env, lo: int, hi: int)
    requires MarkedEnv(env) && b.deployed && !b.guardPresent && scale > 0.0
    requires x == TokenUsdg(RearmTarget(b), env.sqrtP, lo, hi) && y == TokenNvda(RearmTarget(b), env.sqrtP, lo, hi)
    ensures BookValue(Rearmed(b, Part(RearmTarget(b), scale), lo, hi), env.sqrtP)
         == BookValue(b, env.sqrtP) + Part(x, scale) + Usd(Part(y, scale), env.price)
  {
    var l := Part(RearmTarget(b), scale);
    TokensScale(RearmTarget(b), scale, env.sqrtP, lo, hi);
    TokensAreTheValue(l, env.sqrtP, env.price, lo, hi);
    PositionOfNothing(l, env.sqrtP, lo, hi);
    hide PositionValue, TokenUsdg, TokenNvda, RearmTarget, Part;
    assert SleeveValue(l, env.sqrtP, lo, hi) == Part(x, scale) + Usd(Part(y, scale), env.price);
    hide SleeveValue, Usd;
  }

  lemma PositionOfNothing(l: real, s: real, lo: int, hi: int)
    requires s > 0.0
    ensures SleeveValue(l, s, lo, hi) == PositionValue(l, s, lo, hi)
  {
    if l <= 0.0 {
      var p := s * s;
      ProductPos(s, s, p);
      assert 0.0 / p == 0.0;
    }
  }

  /** Re-arming costs the NAV nothing but the booked swap. */
  lemma RearmIsBooked(p: Params, pf: Pf, i: Slot, env: Env, gates: Gates, step: int)
    requires |pf.books| == 2 && MarkedEnv(env) && pf.books[i].deployed
    ensures var r := RearmGuard(p, pf, i, env, gates, step);
      Nav(r, env) == Nav(pf, env) - (r.cum.swapCost - pf.cum.swapCost)
      && r.cum == pf.cum.(swapCost := r.cum.swapCost) && |r.books| == 2
  {
    var b := pf.books[i];
    if RearmDue(p, b, gates, step) {
      var lo, hi := env.tick - p.guardWidthTicks, env.tick + p.guardWidthTicks;
      var x, y := TokenUsdg(RearmTarget(b), env.sqrtP, lo, hi), TokenNvda(RearmTarget(b), env.sqrtP, lo, hi);
      SwapIsBooked(pf, x, y, env, p.swapCostBps, p.swapSlack);
      var ready := if p.swapFunding then SwapDeficit(pf, x, y, env.price, p.swapCostBps, p.swapSlack) else pf;
      var scale := ScaleWithin(1.0, ready.idleUsdg, ready.idleNvda, x, y);
      if scale > 0.0 {
        RearmedIsWorth(b, x, y, scale, env, lo, hi);
        hide TokenUsdg, TokenNvda, RearmTarget, Part, BookValue, ScaleWithin, SwapDeficit, ArmEquity, Usd, Rearmed;
        UsdAdds(ready.idleNvda, Part(y, scale), env.price);
        assert Nav(RearmGuard(p, pf, i, env, gates, step), env) == Nav(ready, env);
      }
    }
  }

  /** The hour's arm accrual moves the NAV by exactly what the three carry accounts say. */
  lemma AccrualIsBooked(p: Params, pf: Pf, env: Env)
    requires |pf.books| == 2 && env.sqrtP > 0.0
    ensures var r := Accrue(p, pf, env.price);
      Nav(r, env) == Nav(pf, env) + (r.cum.armInterest - pf.cum.armInterest)
        + (r.cum.nvdaYield - pf.cum.nvdaYield) - (r.cum.borrowCost - pf.cum.borrowCost)
      && r == pf.(arm := r.arm, cum := pf.cum.(armInterest := r.cum.armInterest,
                  borrowCost := r.cum.borrowCost, nvdaYield := r.cum.nvdaYield))
  {
    hide BookValue, Part, Usd, NvdaRate;
    UsdAdds(pf.arm.nvda, Part(pf.arm.nvda, NvdaRate(p, pf.arm, env.price)), env.price);
  }

  lemma BookIncomeIsBooked(p: Params, pf: Pf, i: Slot, env: Env, row: BookRow, gates: Gates, step: int)
    requires |pf.books| == 2 && MarkedEnv(env) && row.minutes.Valid()
    ensures var r := BookIncome(p, pf, i, env, row, gates, step);
      |r.books| == 2 && Nav(r, env) - Nav(pf, env) == Booked(r.cum) - Booked(pf.cum)
  {
    var b := pf.books[i];
    if b.deployed {
      var pulled := if GuardPulled(p, b, row, gates) then PullGuard(pf, i, env.sqrtP, step) else pf;
      if GuardPulled(p, b, row, gates) { PullConserves(pf, i, env, step); }
      var fee := HourlyFee(p, i, b, row, gates);
      CreditIsBooked(pulled, i, fee, env);
      RearmIsBooked(p, CreditFees(pulled, i, fee), i, env, gates, step);
      hide Nav, RearmGuard, HourlyFee, GuardPulled;
    }
  }

  /** Over the whole income half the NAV and the ledger move together. */
  lemma IncomeIsBooked(p: Params, pf: Pf, env: Env, rows: Rows, step: int)
    requires Sensible(p) && Ok(p, pf) && MarkedEnv(env) && rows.Valid()
    ensures var r := HourIncome(p, pf, env, rows, step);
      |r.books| == 2 && Nav(r, env) - Nav(pf, env) == Booked(r.cum) - Booked(pf.cum)
  {
    var one := BookIncome(p, pf, 0, env, rows.a, rows.gatesA, step);
    BookIncomeIsBooked(p, pf, 0, env, rows.a, rows.gatesA, step);
    BookIncomeIsBooked(p, one, 1, env, rows.b, rows.gatesB, step);
    var both := BothIncomes(p, pf, env, rows, step);
    BothIncomesKeepOk(p, pf, env, rows, step);
    AccrualIsBooked(p, both, env);
    AccrualKeepsOk(p, both, env);
    LiquidationIsExact(p, Accrue(p, both, env.price), env);
    var settled := Liquidate(p, Accrue(p, both, env.price), env);
    hide BookIncome, Liquidate, Accrue, BookValue, ArmEquity, Usd, Repaid, Ok;
  }

  // ----- What each part keeps -----

  lemma PullKeepsOk(p: Params, pf: Pf, i: Slot, s: real, step: int)
    requires Sensible(p) && Ok(p, pf) && pf.books[i].deployed
    ensures var r := PullGuard(pf, i, s, step);
      Ok(p, r) && r.active == pf.active && r.arm == pf.arm && r.books[i].deployed && r.books[1 - i] == pf.books[1 - i]
  {
    var b := pf.books[i];
    TokensNonneg(b.guardL, s, b.guardLo, b.guardHi);
    PartNonneg(b.targetGuardL, b.baseL);
    assert Part(0.0, b.targetBaseL) == 0.0;
    hide TokenUsdg, TokenNvda, Part;
  }

  lemma RearmTargetInRatio(b: Book, scale: real)
    requires b.targetBaseL > 0.0 && b.targetGuardL >= 0.0 && b.baseL > 0.0 && 0.0 < scale <= 1.0
    ensures 0.0 <= Part(RearmTarget(b), scale)
    ensures Part(Part(RearmTarget(b), scale), b.targetBaseL) <= Part(b.targetGuardL, b.baseL)
  {
    var k := b.baseL / b.targetBaseL;
    DivNonneg(b.baseL, b.targetBaseL);
    MulNonneg(b.targetGuardL, k);
    MulNonneg(b.targetGuardL * k, scale);
    MulNonneg(b.targetGuardL, b.baseL);
    MulLe(scale, 1.0, b.targetGuardL * b.baseL);
    RatioCancels(b.targetGuardL, k, scale, b.targetBaseL, b.baseL);
  }

  lemma RatioCancels(g: real, k: real, scale: real, tb: real, bl: real)
    requires k * tb == bl
    ensures g * k * scale * tb == scale * (g * bl)
  {
  }

  lemma RearmKeepsOk(p: Params, pf: Pf, i: Slot, env: Env, gates: Gates, step: int)
    requires Sensible(p) && Ok(p, pf) && pf.books[i].deployed
    ensures var r := RearmGuard(p, pf, i, env, gates, step);
      Ok(p, r) && r.active == pf.active && r.arm == pf.arm && r.books[i].deployed && r.books[1 - i] == pf.books[1 - i]
  {
    var b := pf.books[i];
    if RearmDue(p, b, gates, step) {
      var lo, hi := env.tick - p.guardWidthTicks, env.tick + p.guardWidthTicks;
      var x, y := TokenUsdg(RearmTarget(b), env.sqrtP, lo, hi), TokenNvda(RearmTarget(b), env.sqrtP, lo, hi);
      TokensNonneg(RearmTarget(b), env.sqrtP, lo, hi);
      SwapKeepsBalances(p, pf, x, y, env.price);
      var ready := if p.swapFunding then SwapDeficit(pf, x, y, env.price, p.swapCostBps, p.swapSlack) else pf;
      var scale := ScaleWithin(1.0, ready.idleUsdg, ready.idleNvda, x, y);
      if scale > 0.0 {
        hide TokenUsdg, TokenNvda, SwapDeficit;
        ScaleIsLargest(1.0, ready.idleUsdg, ready.idleNvda, x, y, scale);
        PartIsWhole(ready.idleUsdg); PartIsWhole(ready.idleNvda);
        SpendingFits(p, ready.idleUsdg, x, scale, 1.0);
        SpendingFits(p, ready.idleNvda, y, scale, 1.0);
        RearmTargetInRatio(b, scale);
        hide Part, RearmTarget, ScaleWithin;
      }
    }
  }

  lemma CreditKeepsOk(p: Params, pf: Pf, i: Slot, fee: HourFee)
    requires Ok(p, pf) && pf.books[i].deployed && fee.total >= 0.0
    ensures var r := CreditFees(pf, i, fee);
      Ok(p, r) && r.active == pf.active && r.arm == pf.arm && r.books[i].deployed && r.books[1 - i] == pf.books[1 - i]
  {
    hide Part;
  }

  lemma BookIncomeKeepsOk(p: Params, pf: Pf, i: Slot, env: Env, row: BookRow, gates: Gates, step: int)
    requires Sensible(p) && Ok(p, pf) && row.minutes.Valid()
    ensures var r := BookIncome(p, pf, i, env, row, gates, step);
      Ok(p, r) && r.active == pf.active && r.arm == pf.arm
      && (r.books[i].deployed <==> pf.books[i].deployed) && r.books[1 - i] == pf.books[1 - i]
      && (!pf.books[i].deployed ==> r == pf)
  {
    var b := pf.books[i];
    if b.deployed {
      var fee := HourlyFee(p, i, b, row, gates);
      HourFeesNonneg(b, row.minutes, FeePips(p, i),
        if GuardPulled(p, b, row, gates) then PullBin(p, b, row, gates) else None, p.exactFees);
      var pulled := if GuardPulled(p, b, row, gates) then PullGuard(pf, i, env.sqrtP, step) else pf;
      hide Ok, HourlyFee, GuardPulled, PullGuard, CreditFees, RearmGuard;
      PullKeepsOk(p, pf, i, env.sqrtP, step);
      CreditKeepsOk(p, pulled, i, fee);
      RearmKeepsOk(p, CreditFees(pulled, i, fee), i, env, gates, step);
    }
  }

  lemma BothIncomesKeepOk(p: Params, pf: Pf, env: Env, rows: Rows, step: int)
    requires Sensible(p) && Ok(p, pf) && rows.Valid()
    ensures var r := BothIncomes(p, pf, env, rows, step);
      Ok(p, r) && r.active == pf.active && r.arm == pf.arm
      && (forall i :: 0 <= i < 2 ==> (r.books[i].deployed <==> pf.books[i].deployed))
      && (!pf.books[0].deployed && !pf.books[1].deployed ==> r == pf)
  {
    hide BookIncome;
    BookIncomeKeepsOk(p, pf, 0, env, rows.a, rows.gatesA, step);
    BookIncomeKeepsOk(p, BookIncome(p, pf, 0, env, rows.a, rows.gatesA, step), 1, env, rows.b, rows.gatesB, step);
  }

  lemma AccrualKeepsOk(p: Params, pf: Pf, env: Env)
    requires Sensible(p) && Ok(p, pf) && MarkedEnv(env)
    ensures var r := Accrue(p, pf, env.price);
      Ok(p, r) && r.active == pf.active && r.books == pf.books && r.arm.badDebt == pf.arm.badDebt
  {
    var cv := Usd(pf.arm.nvda, env.price);
    if cv > 0.0 {
      DivNonneg(pf.arm.debt, cv);
      MulNonneg(pf.arm.debt / cv, p.armBorrowApr);
    }
    assert NvdaRate(p, pf.arm, env.price) >= 0.0;
    hide NvdaRate;
    PartNonneg(pf.arm.nvda, NvdaRate(p, pf.arm, env.price));
    PartNonneg(pf.arm.debt, p.armBorrowApr / HOURS_PER_YEAR);
    PartNonneg(pf.arm.lent, p.armUsdgApr / HOURS_PER_YEAR);
    hide Part, BookOk;
  }

  /** The income half keeps the shape, deploys and recalls nothing, and never forgives bad debt. */
  lemma IncomeKeepsOk(p: Params, pf: Pf, env: Env, rows: Rows, step: int)
    requires Sensible(p) && Ok(p, pf) && MarkedEnv(env) && rows.Valid()
    ensures var r := HourIncome(p, pf, env, rows, step);
      Ok(p, r) && r.active == pf.active && r.arm.badDebt >= pf.arm.badDebt
      && (forall i :: 0 <= i < 2 ==> (r.books[i].deployed <==> pf.books[i].deployed))
      && (!pf.books[0].deployed && !pf.books[1].deployed ==> r.books == pf.books)
  {
    var both := BothIncomes(p, pf, env, rows, step);
    BothIncomesKeepOk(p, pf, env, rows, step);
    AccrualKeepsOk(p, both, env);
    hide BothIncomes, Accrue, Liquidate, BookOk;
    LiquidationKeepsOk(p, Accrue(p, both, env.price), env);
  }
}
