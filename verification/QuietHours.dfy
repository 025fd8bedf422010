/** Hours at a tick's own mark, for the runs that exhibit a failure. */
module QuietHours {
  import opened RealMath
  import opened Lp
  import opened State
  import opened Fees
  import opened Income
  import opened Planner
  import opened Decision
  import opened Simulation

  const QUIET_ROW := BookRow(Minutes([], [], [], []), [])

  /** An hour at a tick's own mark, with nothing paused; only book A's row is the example's own. */
  function HourAt(tick: int, row: BookRow): Hour {
    Hour(Env(tick, SqrtAtTick(tick), PriceFromTick(tick)),
         Rows(row, QUIET_ROW, Gates(false, true), Gates(false, true)),
         false, false, false, Mark(Normal, 0.0), Mark(Normal, 0.0), false)
  }

  lemma HourIsValid(tick: int, row: BookRow)
    requires row.minutes.Valid()
    ensures HourAt(tick, row).Valid()
  {
    TickIsMarked(tick);
    hide SqrtAtTick, PriceFromTick;
  }

  lemma NoMinutesNoFee(b: Book, feePips: real, exact: bool)
    ensures FeeForHour(b, QUIET_ROW.minutes, feePips, None, exact) == HourFee(0.0, 0.0, 0.0)
  {
    assert FeeParts(b, QUIET_ROW.minutes, feePips, exact) == Parts(0.0, 0.0, 0.0);
    hide FeeParts;
  }

  /** A row without minutes and moves leaves a closed book, and an open one whose guard is in place, as they are. */
  lemma QuietRowDoesNothing(p: Params, pf: Pf, i: Slot, env: Env, step: int)
    requires |pf.books| == 2 && (!pf.books[i].deployed || pf.books[i].guardPresent)
    ensures BookIncome(p, pf, i, env, QUIET_ROW, Gates(false, true), step) == pf
  {
    NoMinutesNoFee(pf.books[i], FeePips(p, i), p.exactFees);
    hide FeeForHour;
  }

  lemma OneHourRun(p: Params, h: Hour)
    requires h.Valid() && p.liquidationBonusBps >= 0.0
    ensures h.env.sqrtP > 0.0 && ValidTape([h])
    ensures Run(p, [h], 0) == Initial(p, h.env) && Run(p, [h], 1) == Step(p, Initial(p, h.env), h, 0)
  {
    hide Step, Initial;
    assert [h][0] == h;
    assert Run(p, [h], 0) == Initial(p, h.env);
  }
}
