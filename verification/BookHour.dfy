/** What one hour does to one open book: the fees of the pull bin, the pull itself, and the re-arm. */
module BookHour {
  import opened RealMath
  import opened Lp
  import opened State
  import opened Fees
  import opened Moves
  import opened Invariant
  import opened Income
  import opened OneWayDoor
  import opened Funding

  /** The guard of a book is pulled in bin k: by the gate at the hour's start, or by the first move over the threshold. */
  ghost predicate PulledIn(p: Params, b: Book, row: BookRow, gates: Gates, k: nat) {
    var moves := row.fiveMinMoves;
    b.guardPresent && b.guardL > 0.0
    && (gates.feeIlPull ==> k == 0)
    && (!gates.feeIlPull ==>
      k < |moves| && moves[k] as real > p.guardPullThresholdBps
      && forall j :: 0 <= j < k ==> moves[j] as real <= p.guardPullThresholdBps)
  }

  /** There is no guard to pull, or neither the gate nor any move pulls it. */
  ghost predicate NotPulled(p: Params, b: Book, row: BookRow, gates: Gates) {
    !b.guardPresent || b.guardL <= 0.0
    || (!gates.feeIlPull
        && forall j :: 0 <= j < |row.fiveMinMoves| ==> row.fiveMinMoves[j] as real <= p.guardPullThresholdBps)
  }

  /** The hour's pull, if any, as the row says it. */
  ghost predicate PullIs(p: Params, b: Book, row: BookRow, gates: Gates, pull: Option<nat>) {
    match pull
    case None => NotPulled(p, b, row, gates)
    case Some(k) => PulledIn(p, b, row, gates, k)
  }

  lemma PullIsTheBin(p: Params, b: Book, row: BookRow, gates: Gates, pull: Option<nat>)
    requires PullIs(p, b, row, gates, pull)
    ensures GuardPulled(p, b, row, gates) <==> pull.Some?
    ensures pull.Some? ==> PullBin(p, b, row, gates) == pull
  {
    var first := FirstPullBin(row.fiveMinMoves, p.guardPullThresholdBps);
    if pull.Some? && !gates.feeIlPull {
      var k := pull.value;
      assert first.Some? && !(first.value < k) && !(k < first.value);
    }
  }

  /** Every hour is one or the other. */
  lemma EveryHourHasItsPull(p: Params, b: Book, row: BookRow, gates: Gates)
    ensures exists pull :: PullIs(p, b, row, gates, pull)
  {
    var pull := if GuardPulled(p, b, row, gates) then PullBin(p, b, row, gates) else None;
    assert PullIs(p, b, row, gates, pull);
  }

  /** The book as the pull leaves it. */
  function AfterPull(b: Book, pull: Option<nat>, step: int): Book {
    if pull.Some? then b.(guardL := 0.0, guardPresent := false, lastPull := step) else b
  }

  /** The fraction of the hour that its guard was in place, at twelve bins to the hour. */
  function GuardTime(pull: Option<nat>): real {
    match pull
    case None => 1.0
    case Some(k) => Min(1.0, k as real / 12.0)
  }

  // ----- Fees -----

  lemma FeesOfTheHour(p: Params, i: Slot, b: Book, row: BookRow, gates: Gates, pull: Option<nat>)
    requires row.minutes.Valid() && HasPositions(b) && BothL(b) > 0.0 && PullIs(p, b, row, gates, pull)
    ensures var parts := FeeParts(b, row.minutes, if i == 0 then p.feePipsA else p.feePipsB, p.exactFees);
      var fee := HourlyFee(p, i, b, row, gates);
      fee.guard == Max(0.0, parts.total - parts.both - parts.baseOnly)
                   + Prorated(ShareOf(parts.both, GuardInPlace(b), BothL(b)), GuardTime(pull))
      && fee.base == parts.baseOnly + ShareOf(parts.both, b.baseL, BothL(b))
      && fee.total == fee.guard + fee.base
  {
    hide FeeParts, ShareOf, GuardPulled, PullBin, Prorated;
    PullIsTheBin(p, b, row, gates, pull);
  }

  /** The hour of an open book: the pull, the fees, the re-arm. */
  lemma HourInParts(p: Params, pf: Pf, i: Slot, env: Env, row: BookRow, gates: Gates, step: int, pull: Option<nat>)
    requires |pf.books| == 2 && row.minutes.Valid() && pf.books[i].deployed && PullIs(p, pf.books[i], row, gates, pull)
    ensures var pulled := if pull.Some? then PullGuard(pf, i, env.sqrtP, step) else pf;
      |pulled.books| == 2
      && BookIncome(p, pf, i, env, row, gates, step)
         == RearmGuard(p, CreditFees(pulled, i, HourlyFee(p, i, pf.books[i], row, gates)), i, env, gates, step)
  {
    hide HourlyFee, RearmGuard, TokenUsdg, TokenNvda, PullIs;
    PullIsTheBin(p, pf.books[i], row, gates, pull);
    hide GuardPulled;
  }

  lemma RearmLeavesFees(p: Params, pf: Pf, i: Slot, env: Env, gates: Gates, step: int)
    requires |pf.books| == 2
    ensures var r := RearmGuard(p, pf, i, env, gates, step);
      |r.books| == 2 && r.books[1 - i] == pf.books[1 - i]
      && r.books[i].fees == pf.books[i].fees && r.books[i].cumFees == pf.books[i].cumFees
      && r.cum.fees == pf.cum.fees && r.cum.guardFees == pf.cum.guardFees && r.cum.guardPulls == pf.cum.guardPulls
  {
    hide TokenUsdg, TokenNvda, SwapFor, ScaleWithin, RearmTarget, Part, RearmDue;
  }

  /**
   * The fees of an hour, from its row and in the slot's own fee tier: the base gets its own bucket and its share of
   * the shared one whatever happens to the guard; the guard its own and, of its share of the shared one, the part
   * before the bin it was pulled in. The slot, its lifetime account and the ledger all gain exactly that.
   */
  lemma HourIsCredited(p: Params, pf: Pf, i: Slot, env: Env, row: BookRow, gates: Gates, step: int, pull: Option<nat>)
    requires |pf.books| == 2 && row.minutes.Valid() && HasPositions(pf.books[i]) && BothL(pf.books[i]) > 0.0
    requires PullIs(p, pf.books[i], row, gates, pull)
    ensures var b, r := pf.books[i], BookIncome(p, pf, i, env, row, gates, step);
      var parts := FeeParts(b, row.minutes, if i == 0 then p.feePipsA else p.feePipsB, p.exactFees);
      var guard := Max(0.0, parts.total - parts.both - parts.baseOnly)
                   + Prorated(ShareOf(parts.both, GuardInPlace(b), BothL(b)), GuardTime(pull));
      var base := parts.baseOnly + ShareOf(parts.both, b.baseL, BothL(b));
      |r.books| == 2 && r.books[1 - i] == pf.books[1 - i]
      && r.cum.guardFees == pf.cum.guardFees + guard && r.cum.fees == pf.cum.fees + (guard + base)
      && r.books[i].fees == b.fees + (guard + base) && r.books[i].cumFees == b.cumFees + (guard + base)
      && r.cum.guardPulls == pf.cum.guardPulls + (if pull.Some? then 1 else 0)
  {
    var b := pf.books[i];
    assert b.deployed;
    hide FeeParts, ShareOf, GuardTime, Prorated, PullIs, HasPositions, BothL, GuardInPlace, TokenUsdg, TokenNvda;
    hide BookIncome, HourlyFee, RearmGuard, Max;
    FeesOfTheHour(p, i, b, row, gates, pull);
    HourInParts(p, pf, i, env, row, gates, step, pull);
    var pulled := if pull.Some? then PullGuard(pf, i, env.sqrtP, step) else pf;
    RearmLeavesFees(p, CreditFees(pulled, i, HourlyFee(p, i, b, row, gates)), i, env, gates, step);
  }

  // ----- The re-arm -----

  /** The liquidity a re-arm wants: as much over the base as the targets have. */
  ghost predicate IsRearmTarget(b: Book, want: real) { want * b.targetBaseL == b.targetGuardL * b.baseL }

  lemma RearmTargetIs(b: Book, want: real)
    requires b.targetBaseL > 0.0 && IsRearmTarget(b, want)
    ensures RearmTarget(b) == want
  {
    var k := b.baseL / b.targetBaseL;
    assert k * b.targetBaseL == b.baseL;
    assert b.targetGuardL * k * b.targetBaseL == b.targetGuardL * b.baseL == want * b.targetBaseL;
    MulDiv(b.targetGuardL * k, b.targetBaseL);
    MulDiv(want, b.targetBaseL);
  }

  /** The guard is gone, the delay has passed, something is wanted, and the gate allows it. */
  ghost predicate Due(p: Params, b: Book, gates: Gates, step: int, want: real) {
    !b.guardPresent && p.guardRearmDelayHours >= 0 && step - b.lastPull >= p.guardRearmDelayHours
    && want > 0.0 && gates.rearmOk
  }

  /** What a guard of this liquidity takes, around the tick. */
  function GuardTokens(p: Params, env: Env, l: real): (real, real) {
    var lo, hi := env.tick - p.guardWidthTicks, env.tick + p.guardWidthTicks;
    (TokenUsdg(l, env.sqrtP, lo, hi), TokenNvda(l, env.sqrtP, lo, hi))
  }

  /** The keeper when it pays for a guard: in swap mode a deficit is bought first. */
  function ReadyFor(p: Params, pf: Pf, x: real, y: real, price: real): Pf {
    if p.swapFunding then SwapDeficit(pf, x, y, price, p.swapCostBps, p.swapSlack) else pf
  }

  /** There is some of every leg that is asked for. */
  ghost predicate CanPay(p: Params, pf: Pf, env: Env, l: real) {
    var (x, y) := GuardTokens(p, env, l);
    var ready := ReadyFor(p, pf, x, y, env.price);
    (x > 0.0 ==> ready.idleUsdg > 0.0) && (y > 0.0 ==> ready.idleNvda > 0.0)
  }

  /** A guard put back at this mark: the whole of what is wanted, or as much as uses up a leg. */
  ghost predicate BackInPlace(p: Params, before: Book, r: Pf, i: Slot, env: Env, want: real)
    requires |r.books| == 2
  {
    var b := r.books[i];
    var (x, y) := GuardTokens(p, env, want);
    b == before.(guardL := b.guardL, guardPresent := true, lastPull := -1,
                 guardLo := env.tick - p.guardWidthTicks, guardHi := env.tick + p.guardWidthTicks)
    && 0.0 < b.guardL <= want
    && (b.guardL == want || (x > 0.0 && r.idleUsdg == 0.0) || (y > 0.0 && r.idleNvda == 0.0))
  }

  /** A positive scale is 1 or uses up a leg, whatever the sign of the other one. */
  lemma PositiveScaleUsesUp(xa: real, ya: real, xr: real, yr: real)
    requires ScaleWithin(1.0, xa, ya, xr, yr) > 0.0
    ensures var scale := ScaleWithin(1.0, xa, ya, xr, yr);
      scale <= 1.0
      && (scale == 1.0 || (xr > 0.0 && Part(xr, scale) == xa) || (yr > 0.0 && Part(yr, scale) == ya))
  {
    if xr > 0.0 { MulDiv(xa, xr); }
    if yr > 0.0 { MulDiv(ya, yr); }
  }

  lemma PositiveScaleIsBack(p: Params, ready: Pf, i: Slot, env: Env, want: real, x: real, y: real)
    requires |ready.books| == 2 && want > 0.0 && (x, y) == GuardTokens(p, env, want)
    requires ScaleWithin(1.0, ready.idleUsdg, ready.idleNvda, x, y) > 0.0
    ensures var scale := ScaleWithin(1.0, ready.idleUsdg, ready.idleNvda, x, y);
      var lo, hi := env.tick - p.guardWidthTicks, env.tick + p.guardWidthTicks;
      BackInPlace(p, ready.books[i],
        ready.(books := ready.books[i := Rearmed(ready.books[i], Part(want, scale), lo, hi)],
               idleUsdg := ready.idleUsdg - Part(x, scale), idleNvda := ready.idleNvda - Part(y, scale)), i, env, want)
  {
    hide ScaleWithin, GuardTokens, Part;
    var scale := ScaleWithin(1.0, ready.idleUsdg, ready.idleNvda, x, y);
    PositiveScaleUsesUp(ready.idleUsdg, ready.idleNvda, x, y);
    PartWithin(want, scale);
  }

  lemma PartWithin(want: real, scale: real)
    requires want > 0.0 && 0.0 < scale <= 1.0
    ensures 0.0 < Part(want, scale) <= want && (scale == 1.0 ==> Part(want, scale) == want)
  {
    MulPos(want, scale);
    MulLe(scale, 1.0, want);
  }

  lemma RearmOutcome(p: Params, pf: Pf, i: Slot, env: Env, gates: Gates, step: int, want: real)
    requires |pf.books| == 2 && pf.books[i].targetBaseL > 0.0 && pf.books[i].baseL > 0.0
    requires IsRearmTarget(pf.books[i], want)
    ensures var b, r := pf.books[i], RearmGuard(p, pf, i, env, gates, step);
      |r.books| == 2
      && (Due(p, b, gates, step, want) && CanPay(p, pf, env, want) ==> BackInPlace(p, b, r, i, env, want))
      && (!(Due(p, b, gates, step, want) && CanPay(p, pf, env, want)) ==> r.books == pf.books)
      && (!Due(p, b, gates, step, want) ==> r == pf)
  {
    var b := pf.books[i];
    var (x, y) := GuardTokens(p, env, want);
    RearmTargetIs(b, want);
    hide RearmTarget, IsRearmTarget, TokenUsdg, TokenNvda, SwapFor;
    if Due(p, b, gates, step, want) {
      var ready := ReadyFor(p, pf, x, y, env.price);
      var scale := ScaleWithin(1.0, ready.idleUsdg, ready.idleNvda, x, y);
      ScalePositive(1.0, ready.idleUsdg, ready.idleNvda, x, y);
      assert CanPay(p, pf, env, want) <==> scale > 0.0;
      assert ready.books == pf.books;
      if scale > 0.0 {
        hide SwapDeficit, CanPay, BackInPlace, ScaleWithin;
        PositiveScaleIsBack(p, ready, i, env, want, x, y);
      }
    }
  }

  lemma LegsDecide(p: Params, one: Pf, two: Pf, env: Env, l: real)
    requires one.idleUsdg == two.idleUsdg && one.idleNvda == two.idleNvda
    ensures CanPay(p, one, env, l) <==> CanPay(p, two, env, l)
  {
    hide TokenUsdg, TokenNvda, Gross, NvdaFor, Usd, SwapCost;
  }

  /**
   * The guard over an hour. A pull turns it into idle tokens and dates the slot to this step. An absent guard, pulled
   * now or before, is back around the tick if it is due and every leg it needs is there, and not before.
   */
  lemma GuardOfTheHour(p: Params, pf: Pf, i: Slot, env: Env, row: BookRow, gates: Gates, step: int,
                       pull: Option<nat>, want: real)
    requires |pf.books| == 2 && row.minutes.Valid() && pf.books[i].deployed && BookOk(pf.books[i])
    requires PullIs(p, pf.books[i], row, gates, pull) && IsRearmTarget(pf.books[i], want)
    ensures var b, r := pf.books[i], BookIncome(p, pf, i, env, row, gates, step);
      var left := AfterPull(b, pull, step);
      var x, y := if pull.Some? then TokenUsdg(b.guardL, env.sqrtP, b.guardLo, b.guardHi) else 0.0,
                  if pull.Some? then TokenNvda(b.guardL, env.sqrtP, b.guardLo, b.guardHi) else 0.0;
      var idle := pf.(idleUsdg := pf.idleUsdg + x, idleNvda := pf.idleNvda + y);
      |r.books| == 2
      && (if Due(p, left, gates, step, want) && CanPay(p, idle, env, want)
          then BackInPlace(p, left.(fees := r.books[i].fees, cumFees := r.books[i].cumFees), r, i, env, want)
          else r.books[i] == left.(fees := r.books[i].fees, cumFees := r.books[i].cumFees))
      && (!Due(p, left, gates, step, want) ==> r.idleUsdg == idle.idleUsdg && r.idleNvda == idle.idleNvda)
  {
    hide HourlyFee, GuardPulled, PullIs, CanPay, BackInPlace, TokenUsdg, TokenNvda, RearmGuard, GuardInRatio;
    var b := pf.books[i];
    HourInParts(p, pf, i, env, row, gates, step, pull);
    var pulled := if pull.Some? then PullGuard(pf, i, env.sqrtP, step) else pf;
    var fee := HourlyFee(p, i, b, row, gates);
    var credited := CreditFees(pulled, i, fee);
    RearmLeavesFees(p, credited, i, env, gates, step);
    var r := BookIncome(p, pf, i, env, row, gates, step);
    assert credited.books[i] == AfterPull(b, pull, step).(fees := r.books[i].fees, cumFees := r.books[i].cumFees);
    LegsDecide(p, credited, pf.(idleUsdg := credited.idleUsdg, idleNvda := credited.idleNvda), env, want);
    RearmOutcome(p, credited, i, env, gates, step, want);
  }

  /** Both slots' hours are the active slot's: its own row and gates, and nothing for the other. */
  lemma OnlyTheActiveEarns(p: Params, pf: Pf, env: Env, rows: Rows, step: int)
    requires Sensible(p) && Ok(p, pf) && rows.Valid()
    ensures BothIncomes(p, pf, env, rows, step)
         == if pf.active == 0 then BookIncome(p, pf, 0, env, rows.a, rows.gatesA, step)
            else BookIncome(p, pf, 1, env, rows.b, rows.gatesB, step)
  {
    hide BookIncome, BookOk;
    BookIncomeKeepsOk(p, pf, 0, env, rows.a, rows.gatesA, step);
    BookIncomeKeepsOk(p, BookIncome(p, pf, 0, env, rows.a, rows.gatesA, step), 1, env, rows.b, rows.gatesB, step);
  }

  /** A sleeve earns at exactly the ticks whose price lies in its range, the upper edge left out. */
  lemma SleeveEarnsInItsRange(b: Book, t: int)
    ensures BaseIn(b, t) <==> b.baseL > 0.0 && SqrtAtTick(b.baseLo) <= SqrtAtTick(t) < SqrtAtTick(b.baseHi)
    ensures GuardIn(b, t)
      <==> b.guardPresent && b.guardL > 0.0 && SqrtAtTick(b.guardLo) <= SqrtAtTick(t) < SqrtAtTick(b.guardHi)
  {
    GridOrders(b.baseLo, t);
    GridOrders(t, b.baseHi);
    GridOrders(b.guardLo, t);
    GridOrders(t, b.guardHi);
    hide SqrtAtTick;
  }

  lemma GridOrders(i: int, j: int)
    ensures SqrtAtTick(i) < SqrtAtTick(j) <==> i < j
    ensures SqrtAtTick(i) <= SqrtAtTick(j) <==> i <= j
  {
    hide SqrtAtTick;
    if i < j { TickGridIncreases(i, j); }
    if j < i { TickGridIncreases(j, i); }
  }
}
