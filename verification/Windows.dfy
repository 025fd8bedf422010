/** The rolling windows: recent minutes across hour boundaries, and the fee-versus-IL signal of the gates. */
module Windows {
  import opened RealMath
  import opened Lp
  import opened ImpermanentLoss
  import opened State
  import opened Fees
  import opened Income

  // ----- Rolling minutes -----

  const NO_MINUTES := Minutes([], [], [], [])

  function Append(m: Minutes, n: Minutes): Minutes {
    Minutes(m.ticks + n.ticks, m.volumes + n.volumes, m.volOverL + n.volOverL, m.volOverL2 + n.volOverL2)
  }

  /** All minutes of consecutive rows. */
  function Gather(rows: seq<Minutes>): Minutes {
    if |rows| == 0 then NO_MINUTES else Append(Gather(rows[..|rows| - 1]), rows[|rows| - 1])
  }

  function LastOf<T>(s: seq<T>, n: nat): seq<T> { if |s| > n then s[|s| - n..] else s }

  function LastMinutes(m: Minutes, n: nat): Minutes {
    Minutes(LastOf(m.ticks, n), LastOf(m.volumes, n), LastOf(m.volOverL, n), LastOf(m.volOverL2, n))
  }

  /** A window of at least one minute and at most a day. */
  function WindowMinutes(wanted: int): (w: nat)
    ensures 1 <= w <= 1_440
  {
    var capped := if wanted <= 1_440 then wanted else 1_440;
    if capped >= 1 then capped else 1
  }

  function FirstRow(step: nat, wanted: int): nat {
    var needed := (WindowMinutes(wanted) + 59) / 60;
    if step - needed + 1 >= 0 then step - needed + 1 else 0
  }

  /** The rows read for a window: as few as could hold it, up to the step or to the end of the tape. */
  function WindowRows(rows: seq<Minutes>, step: nat, wanted: int): seq<Minutes> {
    var upto := if step < |rows| then step + 1 else |rows|;
    if FirstRow(step, wanted) <= upto then rows[FirstRow(step, wanted)..upto] else []
  }

  /** The last minutes up to a step, read from as few rows as could hold them. */
  method RollingMinutes(rows: seq<Minutes>, step: nat, wanted: int) returns (m: Minutes)
    ensures m == LastMinutes(Gather(WindowRows(rows, step, wanted)), WindowMinutes(wanted))
  {
    var start, upto := FirstRow(step, wanted), if step < |rows| then step + 1 else |rows|;
    m := NO_MINUTES;
    if start <= upto {
      for j := start to upto
        invariant m == Gather(rows[start..j])
      {
        assert rows[start..j + 1][..j - start] == rows[start..j];
        m := Append(m, rows[j]);
      }
    }
    m := LastMinutes(m, WindowMinutes(wanted));
  }

  ghost predicate FullHour(m: Minutes) {
    |m.ticks| == 60 && |m.volumes| == 60 && |m.volOverL| == 60 && |m.volOverL2| == 60
  }

  lemma {:induction false} GatherSplits(a: seq<Minutes>, b: seq<Minutes>)
    ensures Gather(a + b) == Append(Gather(a), Gather(b))
  {
    if |b| == 0 {
      assert a + b == a;
    } else {
      var n := |b| - 1;
      GatherSplits(a, b[..n]);
      assert (a + b)[..|a + b| - 1] == a + b[..n];
      AppendAssociates(Gather(a), Gather(b[..n]), b[n]);
    }
  }

  lemma AppendAssociates(l: Minutes, m: Minutes, n: Minutes)
    ensures Append(Append(l, m), n) == Append(l, Append(m, n))
  {
    assert l.ticks + m.ticks + n.ticks == l.ticks + (m.ticks + n.ticks);
    assert l.volumes + m.volumes + n.volumes == l.volumes + (m.volumes + n.volumes);
    assert l.volOverL + m.volOverL + n.volOverL == l.volOverL + (m.volOverL + n.volOverL);
    assert l.volOverL2 + m.volOverL2 + n.volOverL2 == l.volOverL2 + (m.volOverL2 + n.volOverL2);
  }

  lemma {:induction false} GatheredLength(rows: seq<Minutes>)
    requires forall i :: 0 <= i < |rows| ==> FullHour(rows[i])
    ensures var m := Gather(rows);
      |m.ticks| == |m.volumes| == |m.volOverL| == |m.volOverL2| == 60 * |rows|
  {
    if |rows| > 0 {
      GatheredLength(rows[..|rows| - 1]);
    }
  }

  lemma LastSkipsPrefix<T>(s: seq<T>, t: seq<T>, n: nat)
    requires |t| >= n
    ensures LastOf(s + t, n) == LastOf(t, n)
  {
    assert (s + t)[|s| + (|t| - n)..] == t[|t| - n..];
  }

  /**
   * Reading only the needed rows loses nothing: on full hours the window holds exactly the last minutes of
   * the whole history, across any number of hour boundaries.
   */
  lemma RollingIsTheRecentPast(rows: seq<Minutes>, step: nat, wanted: int)
    requires step < |rows| && forall i :: 0 <= i <= step ==> FullHour(rows[i])
    ensures LastMinutes(Gather(WindowRows(rows, step, wanted)), WindowMinutes(wanted))
         == LastMinutes(Gather(rows[..step + 1]), WindowMinutes(wanted))
  {
    var start, w := FirstRow(step, wanted), WindowMinutes(wanted);
    var past, recent := rows[..start], rows[start..step + 1];
    assert rows[..step + 1] == past + recent;
    GatherSplits(past, recent);
    GatheredLength(past);
    GatheredLength(recent);
    var g, h := Gather(past), Gather(recent);
    if start > 0 {
      LastSkipsPrefix(g.ticks, h.ticks, w);
      LastSkipsPrefix(g.volumes, h.volumes, w);
      LastSkipsPrefix(g.volOverL, h.volOverL, w);
      LastSkipsPrefix(g.volOverL2, h.volOverL2, w);
    } else {
      assert past == [] && past + recent == recent;
    }
  }

  // ----- The fee-versus-IL signal -----

  datatype WindowRow = WindowRow(tick: int, sqrtP: real, minutes: Minutes)

  ghost predicate ValidRows(rows: seq<WindowRow>) {
    forall i :: 0 <= i < |rows| ==> rows[i].sqrtP > 0.0 && rows[i].minutes.Valid()
  }

  datatype Sleeve = WholeBook | GuardSleeve

  /** Annualised fee and impermanent-loss rates over the window. */
  datatype Signal = Signal(feeAprBps: real, ilAprBps: real)

  const NO_SIGNAL := Signal(0.0, 0.0)

  function FeeOf(sleeve: Sleeve, fee: HourFee): real { if sleeve == WholeBook then fee.total else fee.guard }

  function WindowFees(b: Book, rows: seq<WindowRow>, lo: nat, hi: nat, feePips: real, exact: bool, sleeve: Sleeve): real
    requires ValidRows(rows) && lo <= hi <= |rows|
    decreases hi
  {
    if lo == hi then 0.0
    else
      var fee := FeeForHour(b, rows[hi - 1].minutes, feePips, None, exact);
      WindowFees(b, rows, lo, hi - 1, feePips, exact, sleeve) + FeeOf(sleeve, fee)
  }

  predicate InWindow(b: Book, sleeve: Sleeve) {
    if sleeve == WholeBook then HasPositions(b) else b.guardPresent && b.guardL > 0.0
  }

  function SleeveWorth(b: Book, s: real, sleeve: Sleeve): real
    requires s > 0.0
  {
    Max(0.000000001, if sleeve == WholeBook then BookValue(b, s) else PositionValue(b.guardL, s, b.guardLo, b.guardHi))
  }

  predicate MarksBase(b: Book, sleeve: Sleeve) { sleeve == WholeBook && b.baseL > 0.0 }

  function WindowIl(b: Book, start: int, end: int, sleeve: Sleeve): int {
    if MarksBase(b, sleeve) then IlBpsForTicks(start, end, b.baseLo, b.baseHi)
    else IlBpsForTicks(start, end, b.guardLo, b.guardHi)
  }

  function Annual(x: real, hours: nat): real
    requires hours > 0
  {
    x * (HOURS_PER_YEAR / hours as real)
  }

  /** Fees over what earned them, annualised, in basis points. */
  function FeeRate(fees: real, worth: real, hours: nat): real
    requires hours > 0 && worth > 0.0
  {
    Annual(fees / worth, hours) * BPS
  }

  function WindowEnd(rows: seq<WindowRow>, step: nat): nat
    requires |rows| > 0
  {
    if step <= |rows| - 1 then step else |rows| - 1
  }

  function WindowStart(end: nat, hours: nat): nat { if end >= hours then end - hours else 0 }

  /** The rolling signal; a window of no width, or a sleeve that is not there, has none. */
  function FeeIlSignal(b: Book, rows: seq<WindowRow>, step: nat, hours: nat, feePips: real, exact: bool,
                       sleeve: Sleeve): Signal
    requires ValidRows(rows)
  {
    if !InWindow(b, sleeve) || hours == 0 || |rows| == 0 then NO_SIGNAL
    else
      var end := WindowEnd(rows, step);
      var start := WindowStart(end, hours);
      if end <= start then NO_SIGNAL
      else
        var fees := WindowFees(b, rows, start, end, feePips, exact, sleeve);
        var il := WindowIl(b, rows[start].tick, rows[end].tick, sleeve);
        Signal(FeeRate(fees, SleeveWorth(b, rows[end].sqrtP, sleeve), hours), Annual(AbsInt(il) as real, hours))
  }

  /** The signal, summed hour by hour. */
  method ComputeSignal(b: Book, rows: seq<WindowRow>, step: nat, hours: nat, feePips: real, exact: bool,
                       sleeve: Sleeve)
    returns (signal: Signal)
    requires ValidRows(rows)
    ensures signal == FeeIlSignal(b, rows, step, hours, feePips, exact, sleeve)
  {
    if !InWindow(b, sleeve) || hours == 0 || |rows| == 0 { return NO_SIGNAL; }
    hide FeeForHour, WindowIl, SleeveWorth, FeeRate, Annual, InWindow;
    var end := WindowEnd(rows, step);
    var start := WindowStart(end, hours);
    if end <= start { return NO_SIGNAL; }
    var total := 0.0;
    for j := start to end
      invariant total == WindowFees(b, rows, start, j, feePips, exact, sleeve)
    {
      var fee := BookFeeForHour(b, rows[j].minutes, feePips, None, exact);
      total := total + FeeOf(sleeve, fee);
    }
    var il := WindowIl(b, rows[start].tick, rows[end].tick, sleeve);
    signal := Signal(FeeRate(total, SleeveWorth(b, rows[end].sqrtP, sleeve), hours), Annual(AbsInt(il) as real, hours));
  }

  // ----- The gates -----

  /** Which gates are on, and how they weigh IL against fees. */
  datatype GateRule = GateRule(feeIlPulls: bool, rearmGate: bool, hurdle: real, windowHours: int)

  function GateHours(rule: GateRule): nat { if rule.windowHours > 0 then rule.windowHours else 4 }

  /** The fees do not carry the loss at the hurdle. */
  predicate Short(signal: Signal, hurdle: real) { signal.feeAprBps < hurdle * signal.ilAprBps }

  predicate PullSignal(rule: GateRule, guard: Signal) {
    rule.feeIlPulls && guard.ilAprBps > 0.0 && Short(guard, rule.hurdle)
  }

  predicate RearmSignalOk(rule: GateRule, book: Signal) {
    !rule.rearmGate || book.ilAprBps <= 0.0 || !Short(book, rule.hurdle)
  }

  /** The gates of an hour: the guard's own window decides the pull, the whole book's the re-arm. */
  function GatesOf(rule: GateRule, b: Book, rows: seq<WindowRow>, step: nat, feePips: real, exact: bool): Gates
    requires ValidRows(rows)
  {
    Gates(PullSignal(rule, FeeIlSignal(b, rows, step, GateHours(rule), feePips, exact, GuardSleeve)),
          RearmSignalOk(rule, FeeIlSignal(b, rows, step, GateHours(rule), feePips, exact, WholeBook)))
  }

  /** Something to weigh: the sleeve is there and the window has hours. */
  ghost predicate Weighs(b: Book, rows: seq<WindowRow>, step: nat, hours: nat, sleeve: Sleeve) {
    InWindow(b, sleeve) && hours > 0 && |rows| > 0 && WindowEnd(rows, step) > 0
  }

  lemma WindowHasHours(rows: seq<WindowRow>, step: nat, hours: nat)
    requires |rows| > 0 && hours > 0
    ensures WindowEnd(rows, step) > WindowStart(WindowEnd(rows, step), hours) <==> WindowEnd(rows, step) > 0
  {
  }

  /** Annualising and quoting in basis points do not matter: a signal compares the window's own fees and loss. */
  lemma AnnualCancels(fees: real, worth: real, il: nat, hours: nat, hurdle: real)
    requires worth > 0.0 && hours > 0
    ensures Annual(il as real, hours) > 0.0 <==> il > 0
    ensures Short(Signal(FeeRate(fees, worth, hours), Annual(il as real, hours)), hurdle)
      <==> Times(fees, BPS) < Times(Times(hurdle, il as real), worth)
  {
    var k := HOURS_PER_YEAR / hours as real;
    DivCompare(HOURS_PER_YEAR, hours as real, 0.0, 1.0);
    assert k > 0.0;
    MulNonneg(il as real, k);
    if il > 0 { MulPos(il as real, k); }
    var q, l := fees / worth * BPS, hurdle * il as real;
    assert Annual(fees / worth, hours) * BPS == q * k && hurdle * Annual(il as real, hours) == l * k;
    ScaledOrder(q, l, k);
    assert q * worth == fees * BPS by { assert fees / worth * worth == fees; }
    ScaledOrder(q, l, worth);
  }

  lemma ScaledOrder(x: real, y: real, k: real)
    requires k > 0.0
    ensures x * k < y * k <==> x < y
  {
    if x < y { MulPos(y - x, k); assert (y - x) * k == y * k - x * k; }
    if y <= x { MulLe(y, x, k); }
  }

  /** Over the window the sleeve has lost something, and its fees fall short of the hurdle times that, at its worth. */
  ghost predicate FallsShort(b: Book, rows: seq<WindowRow>, step: nat, hours: nat, feePips: real, exact: bool,
                             sleeve: Sleeve, hurdle: real)
    requires ValidRows(rows) && |rows| > 0
  {
    var end := WindowEnd(rows, step);
    var start := WindowStart(end, hours);
    var lost := AbsInt(WindowIl(b, rows[start].tick, rows[end].tick, sleeve));
    Weighs(b, rows, step, hours, sleeve) && lost > 0
    && Times(WindowFees(b, rows, start, end, feePips, exact, sleeve), BPS)
       < Times(Times(hurdle, lost as real), SleeveWorth(b, rows[end].sqrtP, sleeve))
  }

  lemma WeighedSignal(b: Book, rows: seq<WindowRow>, step: nat, hours: nat, feePips: real, exact: bool, sleeve: Sleeve,
                      hurdle: real)
    requires ValidRows(rows) && |rows| > 0 && hours > 0
    ensures var s := FeeIlSignal(b, rows, step, hours, feePips, exact, sleeve);
      s.ilAprBps > 0.0 && Short(s, hurdle) <==> FallsShort(b, rows, step, hours, feePips, exact, sleeve, hurdle)
  {
    hide WindowFees, WindowIl, SleeveWorth, Times, Annual, FeeRate, Short, InWindow;
    var end := WindowEnd(rows, step);
    var start := WindowStart(end, hours);
    WindowHasHours(rows, step, hours);
    if Weighs(b, rows, step, hours, sleeve) {
      var worth := SleeveWorth(b, rows[end].sqrtP, sleeve);
      WorthIsPositive(b, rows[end].sqrtP, sleeve);
      AnnualCancels(WindowFees(b, rows, start, end, feePips, exact, sleeve), worth,
                    AbsInt(WindowIl(b, rows[start].tick, rows[end].tick, sleeve)), hours, hurdle);
    }
  }

  lemma WorthIsPositive(b: Book, s: real, sleeve: Sleeve)
    requires s > 0.0
    ensures SleeveWorth(b, s, sleeve) > 0.0
  {
  }

  /**
   * What the gates weigh: the guard is pulled exactly when over the window its own fees fall short of the hurdle times
   * its loss, and kept from being re-armed exactly when the whole book's do.
   */
  lemma GatesWeighTheWindow(rule: GateRule, b: Book, rows: seq<WindowRow>, step: nat, feePips: real, exact: bool)
    requires ValidRows(rows) && |rows| > 0
    ensures var gates, n := GatesOf(rule, b, rows, step, feePips, exact), GateHours(rule);
      (gates.feeIlPull <==>
        rule.feeIlPulls && FallsShort(b, rows, step, n, feePips, exact, GuardSleeve, rule.hurdle))
      && (gates.rearmOk <==>
        !(rule.rearmGate && FallsShort(b, rows, step, n, feePips, exact, WholeBook, rule.hurdle)))
  {
    hide FeeIlSignal, FallsShort, Short;
    WeighedSignal(b, rows, step, GateHours(rule), feePips, exact, GuardSleeve, rule.hurdle);
    WeighedSignal(b, rows, step, GateHours(rule), feePips, exact, WholeBook, rule.hurdle);
  }

  /**
   * The window of a signal: it ends at the step, or at the tape's last hour, and begins so many hours before, or at the
   * first. Its loss is marked on the base range for a book with a base, and on the guard's range otherwise.
   */
  lemma WindowSpans(b: Book, rows: seq<WindowRow>, step: nat, hours: nat, start: int, end: int)
    requires |rows| > 0
    ensures var last := WindowEnd(rows, step);
      last < |rows| && (last == step || (step > last && last == |rows| - 1))
      && (WindowStart(last, hours) == last - hours || (WindowStart(last, hours) == 0 && hours > last))
    ensures WindowIl(b, start, end, WholeBook)
         == if b.baseL > 0.0 then IlBpsForTicks(start, end, b.baseLo, b.baseHi)
            else IlBpsForTicks(start, end, b.guardLo, b.guardHi)
    ensures WindowIl(b, start, end, GuardSleeve) == IlBpsForTicks(start, end, b.guardLo, b.guardHi)
  {
    hide IlBpsForTicks;
  }

  /** An hour whose window lost nothing is weak exactly when its fee rate is below the buffer. */
  lemma WeakWithoutLoss(b: Book, rows: seq<WindowRow>, step: nat, hours: nat, feePips: real, exact: bool, hurdle: real,
                        buffer: real)
    requires ValidRows(rows) && |rows| > 0
    requires rows[WindowStart(WindowEnd(rows, step), hours)].tick == rows[WindowEnd(rows, step)].tick
    ensures Weak(b, rows, step, hours, feePips, exact, hurdle, buffer)
      <==> FeeIlSignal(b, rows, step, hours, feePips, exact, WholeBook).feeAprBps < buffer
  {
    hide FeeIlSignal;
    SignalIlNonneg(b, rows, step, hours, feePips, exact, WholeBook);
    assert hurdle * 0.0 == 0.0;
  }

  lemma SignalIlNonneg(b: Book, rows: seq<WindowRow>, step: nat, hours: nat, feePips: real, exact: bool, sleeve: Sleeve)
    requires ValidRows(rows)
    ensures FeeIlSignal(b, rows, step, hours, feePips, exact, sleeve).ilAprBps >= 0.0
    ensures |rows| > 0 && rows[WindowStart(WindowEnd(rows, step), hours)].tick == rows[WindowEnd(rows, step)].tick ==>
      FeeIlSignal(b, rows, step, hours, feePips, exact, sleeve).ilAprBps == 0.0
  {
    hide WindowFees, SleeveWorth, InWindow, IlBpsForTicks;
    if InWindow(b, sleeve) && hours > 0 && |rows| > 0 {
      var end := WindowEnd(rows, step);
      var start := WindowStart(end, hours);
      if end > start {
        var il := WindowIl(b, rows[start].tick, rows[end].tick, sleeve);
        MulNonneg(AbsInt(il) as real, HOURS_PER_YEAR / hours as real);
        NoMoveNoIl(rows[start].tick, b.baseLo, b.baseHi);
        NoMoveNoIl(rows[start].tick, b.guardLo, b.guardHi);
        assert Annual(0.0, hours) == 0.0;
      }
    }
  }

  lemma NoMoveNoIl(tick: int, lo: int, hi: int)
    ensures IlBpsForTicks(tick, tick, lo, hi) == 0
  {
    PublishedLossIsNeverAGain(tick, tick, lo, hi, 1.0, 1.0, 1.0, 1.0, 1.0);
  }

  /**
   * A window that ends at the tick it began at has lost nothing: whatever the fees, the hurdle and the
   * ranges, the gates neither pull the guard nor keep it from being re-armed.
   */
  lemma GatesIgnoreRoundTrips(rule: GateRule, b: Book, rows: seq<WindowRow>, step: nat, feePips: real, exact: bool)
    requires ValidRows(rows) && |rows| > 0
    requires rows[WindowStart(WindowEnd(rows, step), GateHours(rule))].tick == rows[WindowEnd(rows, step)].tick
    ensures GatesOf(rule, b, rows, step, feePips, exact) == Gates(false, true)
  {
    hide FeeIlSignal;
    SignalIlNonneg(b, rows, step, GateHours(rule), feePips, exact, GuardSleeve);
    SignalIlNonneg(b, rows, step, GateHours(rule), feePips, exact, WholeBook);
  }

  // ----- The streak -----

  /** Consecutive weak hours ending at a step, as far back as the confirmation asks. */
  function Streak(weak: nat -> bool, step: nat, confirm: nat): (n: nat)
    ensures n <= confirm
  {
    if confirm == 0 || !weak(step) then 0
    else if step == 0 then 1
    else 1 + Streak(weak, step - 1, confirm - 1)
  }

  /** The count backward from the step, which stops at the first hour that is not weak or before the tape begins. */
  method CountStreak(weak: nat -> bool, step: nat, confirm: int) returns (streak: nat)
    ensures streak == Streak(weak, step, if confirm >= 1 then confirm else 1)
  {
    if confirm <= 1 {
      return if weak(step) then 1 else 0;
    }
    streak := 0;
    for k := 0 to confirm
      invariant streak == k <= step + 1
      invariant k <= step ==> Streak(weak, step, confirm) == k + Streak(weak, step - k, confirm - k)
      invariant k == step + 1 ==> Streak(weak, step, confirm) == k
    {
      if step - k < 0 { break; }
      if weak(step - k) {
        streak := streak + 1;
      } else {
        break;
      }
    }
  }

  /** The streak reaches its confirmation exactly when each of the last `confirm` hours exists and was weak. */
  lemma {:induction false} StreakConfirms(weak: nat -> bool, step: nat, confirm: nat)
    ensures Streak(weak, step, confirm) >= confirm
      <==> confirm <= step + 1 && forall hour: nat :: step - confirm < hour <= step ==> weak(hour)
  {
    if confirm > 0 && weak(step) && step > 0 {
      StreakConfirms(weak, step - 1, confirm - 1);
    }
  }

  /** The fee rate of the hour's window does not carry its IL rate and the buffer. */
  predicate Weak(b: Book, rows: seq<WindowRow>, step: nat, hours: nat, feePips: real, exact: bool, hurdle: real,
                 buffer: real)
    requires ValidRows(rows)
  {
    var signal := FeeIlSignal(b, rows, step, hours, feePips, exact, WholeBook);
    signal.feeAprBps - hurdle * signal.ilAprBps < buffer
  }

  /** Whether the book is left for the arms: its window has been weak for long enough. */
  function LeaveOnStreak(b: Book, rows: seq<WindowRow>, step: nat, hours: nat, feePips: real, exact: bool,
                         hurdle: real, buffer: real, confirmHours: int): (leave: bool)
    requires ValidRows(rows)
    ensures var confirm := if confirmHours >= 1 then confirmHours else 1;
      leave <==> confirm <= step + 1 && forall hour: nat :: step - confirm < hour <= step ==>
        Weak(b, rows, hour, hours, feePips, exact, hurdle, buffer)
  {
    var weak := (hour: nat) => Weak(b, rows, hour, hours, feePips, exact, hurdle, buffer);
    var confirm := if confirmHours >= 1 then confirmHours else 1;
    StreakConfirms(weak, step, confirm);
    assert forall hour: nat :: weak(hour) <==> Weak(b, rows, hour, hours, feePips, exact, hurdle, buffer);
    Streak(weak, step, confirm) >= confirm
  }
}
