/** Hourly fee revenue of a book from its minute rows, in both fee-share models. */
module Fees {
  import opened RealMath
  import opened State

  /** Minute rows of one hour. A tick is None when the minute had no swap. */
  datatype Minutes = Minutes(ticks: seq<Option<int>>, volumes: seq<real>, volOverL: seq<real>, volOverL2: seq<real>)
  {
    predicate Valid() { |volOverL| >= |ticks| && |volOverL2| >= |ticks| }
  }

  /** The two moments of every minute, and the volume they stem from. */
  ghost predicate Moments(m: Minutes)
    requires m.Valid()
  {
    |m.volumes| >= |m.ticks|
    && forall i :: 0 <= i < |m.ticks| ==>
      m.volumes[i] >= 0.0 && m.volOverL2[i] >= 0.0
      && m.volumes[i] * m.volOverL2[i] >= m.volOverL[i] * m.volOverL[i]
  }

  datatype Bucket = BothIn | GuardOnly | BaseOnly | OutOfRange

  function BothL(b: Book): real { b.baseL + GuardInPlace(b) }

  predicate BaseIn(b: Book, t: int) { b.baseL > 0.0 && b.baseLo <= t < b.baseHi }

  predicate GuardIn(b: Book, t: int) { GuardInPlace(b) > 0.0 && b.guardLo <= t < b.guardHi }

  function BucketOf(b: Book, tick: Option<int>): Bucket {
    match tick
    case None => OutOfRange
    case Some(t) =>
      if GuardIn(b, t) && BaseIn(b, t) then BothIn
      else if GuardIn(b, t) then GuardOnly
      else if BaseIn(b, t) then BaseOnly
      else OutOfRange
  }

  function BucketL(b: Book, k: Bucket): real {
    match k
    case BothIn => BothL(b)
    case GuardOnly => GuardInPlace(b)
    case BaseOnly => b.baseL
    case OutOfRange => 0.0
  }

  /** Liquidity of the book that is active at a tick; inactive sleeves earn nothing. */
  function ActiveL(b: Book, tick: int): real {
    if !b.deployed then 0.0
    else (if BaseIn(b, tick) then b.baseL else 0.0) + (if GuardIn(b, tick) then GuardInPlace(b) else 0.0)
  }

  /** The pro-rata fee of liquidity l in a minute: rate * vol * l / (pool + l) with pool = vol / v1. */
  function ExactShare(rate: real, vol: real, v1: real, l: real): real {
    if vol > 0.0 && v1 > 0.0 && l > 0.0 then
      DivCompare(0.0, 1.0, vol, v1);
      rate * vol * l / (vol / v1 + l)
    else 0.0
  }

  function SumV1(b: Book, m: Minutes, k: Bucket, n: nat): real
    requires m.Valid() && n <= |m.ticks|
  {
    if n == 0 then 0.0
    else SumV1(b, m, k, n - 1) + (if BucketOf(b, m.ticks[n - 1]) == k then m.volOverL[n - 1] else 0.0)
  }

  function SumV2(b: Book, m: Minutes, k: Bucket, n: nat): real
    requires m.Valid() && n <= |m.ticks|
  {
    if n == 0 then 0.0
    else SumV2(b, m, k, n - 1) + (if BucketOf(b, m.ticks[n - 1]) == k then m.volOverL2[n - 1] else 0.0)
  }

  function SumExact(b: Book, m: Minutes, rate: real, k: Bucket, n: nat): real
    requires m.Valid() && n <= |m.ticks| && n <= |m.volumes|
  {
    if n == 0 then 0.0
    else
      var share := ExactShare(rate, m.volumes[n - 1], m.volOverL[n - 1], BucketL(b, k));
      SumExact(b, m, rate, k, n - 1) + (if BucketOf(b, m.ticks[n - 1]) == k then share else 0.0)
  }

  /** Second-order share of a bucket, L/(P+L) ~ L/P - (L/P)^2: rate * (L * sum(vol/P) - L^2 * sum(vol/P^2)). */
  function Expansion(b: Book, m: Minutes, rate: real, k: Bucket): real
    requires m.Valid()
  {
    SecondOrder(rate, BucketL(b, k), SumV1(b, m, k, |m.ticks|), SumV2(b, m, k, |m.ticks|))
  }

  function SecondOrder(rate: real, l: real, v1: real, v2: real): real {
    rate * (l * v1 - l * l * v2)
  }

  datatype Parts = Parts(total: real, both: real, baseOnly: real)

  predicate ExactOk(m: Minutes, exact: bool) { exact && |m.volumes| >= |m.ticks| }

  function BucketFee(b: Book, m: Minutes, rate: real, exact: bool, k: Bucket): real
    requires m.Valid()
  {
    if ExactOk(m, exact) then SumExact(b, m, rate, k, |m.ticks|) else Expansion(b, m, rate, k)
  }

  function FeeParts(b: Book, m: Minutes, feePips: real, exact: bool): Parts
    requires m.Valid()
  {
    if !HasPositions(b) || |m.ticks| == 0 then Parts(0.0, 0.0, 0.0)
    else
      var rate := feePips / 1_000_000.0;
      var both, guardOnly, baseOnly :=
        BucketFee(b, m, rate, exact, BothIn), BucketFee(b, m, rate, exact, GuardOnly),
        BucketFee(b, m, rate, exact, BaseOnly);
      Parts(Max(0.0, both + guardOnly + baseOnly), Max(0.0, both), Max(0.0, baseOnly))
  }

  datatype HourFee = HourFee(total: real, guard: real, base: real)

  /** Fraction of the hour before the pull bin, twelve five-minute bins to the hour. */
  function PullFraction(pull: Option<nat>): (f: real)
    ensures 0.0 <= f <= 1.0
  {
    match pull
    case None => 1.0
    case Some(bin) => Max(0.0, Min(1.0, bin as real / 12.0))
  }

  function ShareOf(fee: real, part: real, whole: real): real
    requires whole > 0.0
  {
    fee * part / whole
  }

  function Prorated(share: real, fraction: real): real { share * fraction }

  function FeeForHour(b: Book, m: Minutes, feePips: real, pull: Option<nat>, exact: bool): HourFee
    requires m.Valid()
  {
    var parts := FeeParts(b, m, feePips, exact);
    if !HasPositions(b) then HourFee(0.0, 0.0, 0.0)
    else if BothL(b) <= 0.0 then HourFee(parts.total, 0.0, parts.total)
    else
      var guardShare := ShareOf(parts.both, GuardInPlace(b), BothL(b));
      var baseShare := ShareOf(parts.both, b.baseL, BothL(b));
      var guardOnly := Max(0.0, parts.total - parts.both - parts.baseOnly);
      var guard := guardOnly + Prorated(guardShare, PullFraction(pull));
      var base := parts.baseOnly + baseShare;
      HourFee(guard + base, guard, base)
  }

  /** First five-minute bin whose move exceeds the pull threshold. */
  function FirstPullBin(moves: seq<int>, threshold: real): (bin: Option<nat>)
    ensures bin.Some? ==> bin.value < |moves| && moves[bin.value] as real > threshold
    ensures bin.Some? ==> forall i :: 0 <= i < bin.value ==> moves[i] as real <= threshold
    ensures bin.None? ==> forall i :: 0 <= i < |moves| ==> moves[i] as real <= threshold
    decreases |moves|
  {
    if |moves| == 0 then None
    else
      match FirstPullBin(moves[..|moves| - 1], threshold)
      case Some(bin) => Some(bin)
      case None => if moves[|moves| - 1] as real > threshold then Some(|moves| - 1) else None
  }

  // ----- One pass over the minutes -----

  /** One pass over the minutes with nine accumulators, as the model keeps them. */
  method BookFeeParts(b: Book, m: Minutes, feePips: real, exact: bool) returns (parts: Parts)
    requires m.Valid()
    ensures parts == FeeParts(b, m, feePips, exact)
  {
    if !HasPositions(b) || |m.ticks| == 0 {
      return Parts(0.0, 0.0, 0.0);
    }
    var rate := feePips / 1_000_000.0;
    var exactOk := exact && |m.volumes| >= |m.ticks|;
    var baseL, guardL := b.baseL, if b.guardPresent then b.guardL else 0.0;
    var bothL := baseL + guardL;
    var v1Both, v2Both, v1Base, v2Base, v1Guard, v2Guard := 0.0, 0.0, 0.0, 0.0, 0.0, 0.0;
    var exactBoth, exactGuard, exactBase := 0.0, 0.0, 0.0;
    hide ExactShare, SecondOrder, Max;
    for i := 0 to |m.ticks|
      invariant v1Both == SumV1(b, m, BothIn, i) && v2Both == SumV2(b, m, BothIn, i)
      invariant v1Guard == SumV1(b, m, GuardOnly, i) && v2Guard == SumV2(b, m, GuardOnly, i)
      invariant v1Base == SumV1(b, m, BaseOnly, i) && v2Base == SumV2(b, m, BaseOnly, i)
      invariant exactOk ==> exactBoth == SumExact(b, m, rate, BothIn, i)
      invariant exactOk ==> exactGuard == SumExact(b, m, rate, GuardOnly, i)
      invariant exactOk ==> exactBase == SumExact(b, m, rate, BaseOnly, i)
    {
      if m.ticks[i].Some? {
        var t, v1, v2 := m.ticks[i].value, m.volOverL[i], m.volOverL2[i];
        var baseIn := baseL > 0.0 && b.baseLo <= t < b.baseHi;
        var guardIn := guardL > 0.0 && b.guardLo <= t < b.guardHi;
        if guardIn && baseIn {
          v1Both, v2Both := v1Both + v1, v2Both + v2;
        } else if guardIn {
          v1Guard, v2Guard := v1Guard + v1, v2Guard + v2;
        } else if baseIn {
          v1Base, v2Base := v1Base + v1, v2Base + v2;
        }
        if exactOk {
          if guardIn && baseIn {
            exactBoth := exactBoth + ExactShare(rate, m.volumes[i], v1, bothL);
          } else if guardIn {
            exactGuard := exactGuard + ExactShare(rate, m.volumes[i], v1, guardL);
          } else if baseIn {
            exactBase := exactBase + ExactShare(rate, m.volumes[i], v1, baseL);
          }
        }
      }
    }
    if exactOk {
      return Parts(Max(0.0, exactBoth + exactGuard + exactBase), Max(0.0, exactBoth), Max(0.0, exactBase));
    }
    var bothFee := SecondOrder(rate, bothL, v1Both, v2Both);
    var guardFee := SecondOrder(rate, guardL, v1Guard, v2Guard);
    var baseFee := SecondOrder(rate, baseL, v1Base, v2Base);
    return Parts(Max(0.0, bothFee + guardFee + baseFee), Max(0.0, bothFee), Max(0.0, baseFee));
  }

  /** The hour's split, from one pass over its minutes. */
  method BookFeeForHour(b: Book, m: Minutes, feePips: real, pull: Option<nat>, exact: bool) returns (fee: HourFee)
    requires m.Valid()
    ensures fee == FeeForHour(b, m, feePips, pull, exact)
  {
    var parts := BookFeeParts(b, m, feePips, exact);
    if !HasPositions(b) {
      return HourFee(0.0, 0.0, 0.0);
    }
    hide FeeParts, Max, PullFraction;
    var bothL := b.baseL + (if b.guardPresent then b.guardL else 0.0);
    if bothL <= 0.0 {
      return HourFee(parts.total, 0.0, parts.total);
    }
    var guardShare := ShareOf(parts.both, GuardInPlace(b), bothL);
    var baseShare := ShareOf(parts.both, b.baseL, bothL);
    hide ShareOf;
    var guardOnly := Max(0.0, parts.total - parts.both - parts.baseOnly);
    var guard := guardOnly + Prorated(guardShare, PullFraction(pull));
    var base := parts.baseOnly + baseShare;
    return HourFee(guard + base, guard, base);
  }

  // ----- What the exact share means -----

  /** The exact fee of a minute list, paid pro rata on the liquidity active at each tick. */
  function ProRata(b: Book, m: Minutes, rate: real, n: nat): real
    requires m.Valid() && n <= |m.ticks| && n <= |m.volumes|
  {
    if n == 0 then 0.0
    else
      var active := if m.ticks[n - 1].Some? then ActiveL(b, m.ticks[n - 1].value) else 0.0;
      ProRata(b, m, rate, n - 1) + ExactShare(rate, m.volumes[n - 1], m.volOverL[n - 1], active)
  }

  function TotalVolume(m: Minutes, n: nat): real
    requires n <= |m.volumes|
  {
    if n == 0 then 0.0 else TotalVolume(m, n - 1) + m.volumes[n - 1]
  }

  lemma NoBucketNoFee(rate: real, vol: real, v1: real)
    ensures ExactShare(rate, vol, v1, 0.0) == 0.0
  {
  }

  lemma {:induction false} BucketsArePartition(b: Book, m: Minutes, rate: real, n: nat)
    requires b.deployed && m.Valid() && n <= |m.ticks| && n <= |m.volumes|
    ensures SumExact(b, m, rate, BothIn, n) + SumExact(b, m, rate, GuardOnly, n)
          + SumExact(b, m, rate, BaseOnly, n) == ProRata(b, m, rate, n)
  {
    hide ExactShare;
    if n > 0 {
      BucketsArePartition(b, m, rate, n - 1);
      NoBucketNoFee(rate, m.volumes[n - 1], m.volOverL[n - 1]);
    }
  }
}
