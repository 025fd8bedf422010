/** The keeper's planners: sizing, one-slice plans in and out of the arms, and the ranking of pools. */
module Planner {
  import opened RealMath
  import opened Lp
  import opened State

  const HARD_LTV_BPS := 3_000.0

  // ----- Borrow size -----

  /** Loan-to-value the operator, the market and the hard cap all allow, never negative. */
  function AllowedLtvBps(ltvBps: real, maxLtvBps: real, hardCapBps: real): real {
    Max(0.0, Min(Min(ltvBps, maxLtvBps), hardCapBps))
  }

  function BorrowSize(collateral: real, ltvBps: real, maxLtvBps: real, hardCapBps: real): real {
    Part(collateral, AllowedLtvBps(ltvBps, maxLtvBps, hardCapBps) / BPS)
  }

  // ----- Into the arms -----

  datatype EntryPlan = EntryPlan(usdgMove: real, nvdaMove: real, borrow: real)

  function PlanArmEntry(usdgAvailable: real, nvdaAvailable: real, nvdaPrice: real, usdgDeployed: real,
                        nvdaDeployed: real, ltvBps: real, maxLtvBps: real, morphoShareBps: real,
                        nvdaStepBps: real): EntryPlan
  {
    var usdg, nvda := Max(0.0, usdgAvailable), Max(0.0, nvdaAvailable);
    var usdgIn, nvdaIn := Max(0.0, usdgDeployed), Max(0.0, nvdaDeployed);
    var usdgTarget := Part(usdg + usdgIn, Min(BPS, morphoShareBps) / BPS);
    var usdgMove := if usdgTarget > usdgIn then Max(0.0, Min(usdgTarget - usdgIn, usdg)) else 0.0;
    var nvdaMove := Min(Part(nvda + nvdaIn, Min(BPS, nvdaStepBps) / BPS), nvda);
    EntryPlan(usdgMove, nvdaMove, BorrowSize(Usd(nvdaMove, Max(0.0, nvdaPrice)), ltvBps, maxLtvBps, HARD_LTV_BPS))
  }

  // ----- Back to the books -----

  /** A slice of an amount; a slice below dust takes the whole. */
  function Slice(amount: real, stepBps: real, dust: real): real {
    var raw := Part(amount, Min(BPS, stepBps) / BPS);
    if amount <= 0.0 then 0.0
    else if amount <= dust || raw < dust then amount
    else raw
  }

  datatype ReturnPlan = ReturnPlan(repay: real, collateralOut: real, usdgOut: real)

  /** The debt slice has no shortcut for a debt at or below dust; the other two have. */
  function PlanBookReturn(usdgDeployed: real, collateral: real, debt: real, stepBps: real): ReturnPlan {
    var owed := Max(0.0, debt);
    var raw := if owed > 0.0 then Part(owed, Min(BPS, stepBps) / BPS) else 0.0;
    ReturnPlan(if owed > 0.0 && raw < DUST_USD then owed else raw,
               Slice(Max(0.0, collateral), stepBps, DUST_NVDA),
               Slice(Max(0.0, usdgDeployed), stepBps, DUST_USD))
  }

  /** A slice leaves nothing, or exceeds dust, or is dust to the cent: the one amount nobody moves. */
  lemma SliceCases(amount: real, stepBps: real, dust: real)
    requires dust > 0.0
    ensures amount > dust ==>
      var s := Slice(amount, stepBps, dust);
      dust <= s <= amount && (s == dust <==> Part(amount, Min(BPS, stepBps) / BPS) == dust)
  {
    if amount > dust {
      var k := Min(BPS, stepBps) / BPS;
      MulLe(k, 1.0, amount);
    }
  }

  // ----- Risk -----

  datatype Risk = Normal | High

  /** HIGH when any of the keeper's five reasons fires. */
  function AssessBookRisk(feeAprBps: real, volumeUsd: real, volatilityBps: real, guardPresent: bool, depegPaused: bool,
                          maxVolatilityBps: real, minVolumeUsd: real, minFeeAprBps: real): Risk
  {
    if depegPaused || !guardPresent || volatilityBps >= maxVolatilityBps || volumeUsd < minVolumeUsd
      || (minFeeAprBps > 0.0 && feeAprBps < minFeeAprBps) then High else Normal
  }

  // ----- Pool ranking -----

  datatype Candidate = Candidate(name: string, book: Slot, risk: Risk, netAprBps: real)

  function Eligible(cs: seq<Candidate>): (r: seq<Candidate>)
    ensures forall c :: c in r <==> c in cs && c.risk != High
  {
    if |cs| == 0 then []
    else (if cs[0].risk != High then [cs[0]] else []) + Eligible(cs[1..])
  }

  /** Insert before the first candidate that is strictly worse: equals keep their order. */
  function InsertRanked(c: Candidate, ranked: seq<Candidate>): (r: seq<Candidate>)
    ensures multiset(r) == multiset(ranked) + multiset{c}
    ensures forall d :: d in r <==> d == c || d in ranked
  {
    if |ranked| == 0 || ranked[0].netAprBps < c.netAprBps then [c] + ranked
    else
      assert ranked == [ranked[0]] + ranked[1..];
      [ranked[0]] + InsertRanked(c, ranked[1..])
  }

  /** A stable sort by net APR, best first. */
  function Ranked(cs: seq<Candidate>): (r: seq<Candidate>)
    ensures multiset(r) == multiset(cs)
    ensures forall d :: d in r <==> d in cs
  {
    if |cs| == 0 then []
    else
      assert cs == cs[..|cs| - 1] + [cs[|cs| - 1]];
      InsertRanked(cs[|cs| - 1], Ranked(cs[..|cs| - 1]))
  }

  ghost predicate BestFirst(cs: seq<Candidate>) {
    forall i, j :: 0 <= i < j < |cs| ==> cs[i].netAprBps >= cs[j].netAprBps
  }

  function FindByName(cs: seq<Candidate>, name: string): (r: Option<Candidate>)
    ensures r.Some? ==> r.value in cs && r.value.name == name
    ensures r.None? ==> forall c :: c in cs ==> c.name != name
  {
    if |cs| == 0 then None
    else if cs[0].name == name then Some(cs[0])
    else FindByName(cs[1..], name)
  }

  datatype PoolDecision = ToArms | HoldPool(pool: string) | SwitchTo(best: Candidate)

  function DecidePoolSwitch(candidates: seq<Candidate>, current: Option<string>, bufferBps: real): PoolDecision {
    var ranked := Ranked(Eligible(candidates));
    if |ranked| == 0 || ranked[0].netAprBps <= bufferBps then ToArms
    else
      var best := ranked[0];
      if current.Some? && current.value != "" && best.name == current.value then HoldPool(best.name)
      else
        var held := if current.Some? then FindByName(ranked, current.value) else None;
        if held.Some? && best.netAprBps <= held.value.netAprBps + bufferBps then HoldPool(current.value)
        else SwitchTo(best)
  }

  lemma {:induction false} InsertKeepsOrder(c: Candidate, ranked: seq<Candidate>)
    requires BestFirst(ranked)
    ensures BestFirst(InsertRanked(c, ranked))
  {
    if |ranked| > 0 && !(ranked[0].netAprBps < c.netAprBps) {
      InsertKeepsOrder(c, ranked[1..]);
      var tail := InsertRanked(c, ranked[1..]);
      forall i | 0 <= i < |tail|
        ensures ranked[0].netAprBps >= tail[i].netAprBps
      {
        assert tail[i] in tail;
      }
    }
  }

  lemma {:induction false} RankedIsBestFirst(cs: seq<Candidate>)
    ensures BestFirst(Ranked(cs))
  {
    if |cs| > 0 {
      RankedIsBestFirst(cs[..|cs| - 1]);
      InsertKeepsOrder(cs[|cs| - 1], Ranked(cs[..|cs| - 1]));
    }
  }

  /** The best-ranked candidate of a name is the best of that name. */
  lemma {:induction false} FoundIsBestOfName(cs: seq<Candidate>, name: string)
    requires BestFirst(cs)
    ensures FindByName(cs, name).Some? ==>
      forall c :: c in cs && c.name == name ==> c.netAprBps <= FindByName(cs, name).value.netAprBps
  {
    if |cs| > 0 {
      if cs[0].name != name {
        FoundIsBestOfName(cs[1..], name);
      }
      forall c | c in cs ensures c.netAprBps <= cs[0].netAprBps {}
    }
  }

  /**
   * The whole ranking: a HIGH pool is never chosen; the arms are taken exactly when no eligible pool beats
   * the buffer; a switch names a maximal eligible pool that beats the buffer and every eligible pool of the
   * current name by more than the buffer.
   */
  lemma RankingIsSound(cs: seq<Candidate>, current: Option<string>, bufferBps: real)
    ensures var d := DecidePoolSwitch(cs, current, bufferBps);
      (d.ToArms? <==> forall c :: c in cs && c.risk != High ==> c.netAprBps <= bufferBps)
      && (d.SwitchTo? ==>
        d.best in cs && d.best.risk != High && d.best.netAprBps > bufferBps
        && (forall c :: c in cs && c.risk != High ==> c.netAprBps <= d.best.netAprBps)
        && (current.Some? ==> forall c :: c in cs && c.risk != High && c.name == current.value ==>
             d.best.netAprBps > c.netAprBps + bufferBps))
  {
    var ranked := Ranked(Eligible(cs));
    TopIsMaximal(cs);
    hide Ranked, Eligible, FindByName, BestFirst;
    if current.Some? {
      FoundIsBestOfName(ranked, current.value);
    }
  }

  lemma TopIsMaximal(cs: seq<Candidate>)
    ensures var ranked := Ranked(Eligible(cs));
      BestFirst(ranked) && (forall c :: c in ranked <==> c in cs && c.risk != High)
      && (|ranked| > 0 ==> ranked[0] in ranked && forall c :: c in ranked ==> c.netAprBps <= ranked[0].netAprBps)
      && (|ranked| == 0 ==> forall c :: c in cs ==> c.risk == High)
  {
    RankedIsBestFirst(Eligible(cs));
  }

  /** The pool after n rankings of the same metrics; the arms leave the pool as it is. */
  function PoolAfter(cs: seq<Candidate>, current: Option<string>, bufferBps: real, n: nat): Option<string> {
    if n == 0 then current
    else
      var before := PoolAfter(cs, current, bufferBps, n - 1);
      match DecidePoolSwitch(cs, before, bufferBps)
      case SwitchTo(best) => Some(best.name)
      case _ => before
  }

  /**
   * Once its best pool is the current one, a ranking holds it, except under a name that reads as none together
   * with a negative buffer.
   */
  lemma BestIsHeld(cs: seq<Candidate>, current: Option<string>, bufferBps: real)
    requires DecidePoolSwitch(cs, current, bufferBps).SwitchTo?
    ensures var best := DecidePoolSwitch(cs, current, bufferBps).best;
      DecidePoolSwitch(cs, Some(best.name), bufferBps)
      == if best.name != "" || bufferBps >= 0.0 then HoldPool(best.name) else SwitchTo(best)
  {
    var ranked := Ranked(Eligible(cs));
    var best := ranked[0];
    assert best == DecidePoolSwitch(cs, current, bufferBps).best && FindByName(ranked, best.name) == Some(best);
    hide Ranked, Eligible, FindByName;
  }

  /**
   * Hysteresis settles: on unchanged metrics the pool never changes after the first ranking. From then on
   * every ranking decides the same: HOLD of a pool switched to, unless its name reads as none and the buffer
   * is negative, which switches to that same pool again for ever; or whatever the first one decided.
   */
  lemma {:induction false} RankingSettles(cs: seq<Candidate>, current: Option<string>, bufferBps: real, n: nat)
    requires n >= 1
    ensures PoolAfter(cs, current, bufferBps, n) == PoolAfter(cs, current, bufferBps, 1)
    ensures var first, later := DecidePoolSwitch(cs, current, bufferBps),
        DecidePoolSwitch(cs, PoolAfter(cs, current, bufferBps, n), bufferBps);
      if first.SwitchTo? then
        later == (if first.best.name != "" || bufferBps >= 0.0 then HoldPool(first.best.name) else first)
      else later == first
  {
    hide DecidePoolSwitch;
    assert PoolAfter(cs, current, bufferBps, 0) == current;
    if DecidePoolSwitch(cs, current, bufferBps).SwitchTo? {
      BestIsHeld(cs, current, bufferBps);
    }
    if n > 1 {
      RankingSettles(cs, current, bufferBps, n - 1);
    }
  }

  // ----- What a ranking decides -----

  /** The first of the best eligible candidates, in the list's own order. */
  ghost function FirstBest(cs: seq<Candidate>): Option<Candidate> {
    if |cs| == 0 then None
    else
      var before, last := FirstBest(cs[..|cs| - 1]), cs[|cs| - 1];
      if last.risk == High || (before.Some? && before.value.netAprBps >= last.netAprBps) then before else Some(last)
  }

  /** An eligible candidate that is better than every eligible one before it. */
  ghost predicate Leads(cs: seq<Candidate>, i: int) {
    0 <= i < |cs| && cs[i].risk != High
    && forall j :: 0 <= j < i && cs[j].risk != High ==> cs[j].netAprBps < cs[i].netAprBps
  }

  lemma LeadsInLonger(before: seq<Candidate>, last: Candidate, i: int)
    requires Leads(before, i)
    ensures Leads(before + [last], i)
  {
  }

  /** It is eligible, no eligible candidate is better, and of those as good none comes before it. */
  lemma {:induction false} FirstBestIs(cs: seq<Candidate>)
    ensures FirstBest(cs).None? <==> forall c :: c in cs ==> c.risk == High
    ensures FirstBest(cs).Some? ==>
      (forall c :: c in cs && c.risk != High ==> c.netAprBps <= FirstBest(cs).value.netAprBps)
      && exists i :: Leads(cs, i) && cs[i] == FirstBest(cs).value
  {
    if |cs| > 0 {
      var n := |cs| - 1;
      var before, last := cs[..n], cs[n];
      assert cs == before + [last];
      FirstBestIs(before);
      FirstBestOfLonger(before, last);
      hide FirstBest, Leads;
      if FirstBest(cs) == FirstBest(before) && FirstBest(before).Some? {
        var i :| Leads(before, i) && before[i] == FirstBest(before).value;
        LeadsInLonger(before, last, i);
        InRange(before, i);
      } else if FirstBest(cs).Some? {
        LastLeads(before, last);
      }
    }
  }

  lemma InRange(cs: seq<Candidate>, i: int)
    requires Leads(cs, i)
    ensures 0 <= i < |cs|
  {
  }

  lemma LastLeads(before: seq<Candidate>, last: Candidate)
    requires last.risk != High
    requires forall c :: c in before && c.risk != High ==> c.netAprBps < last.netAprBps
    ensures Leads(before + [last], |before|)
  {
    assert forall j :: 0 <= j < |before| ==> (before + [last])[j] in before;
  }

  function IfEligible(c: Candidate): seq<Candidate> { if c.risk != High then [c] else [] }

  lemma EligibleUnfolds(cs: seq<Candidate>)
    ensures |cs| == 0 ==> Eligible(cs) == []
    ensures |cs| > 0 ==> Eligible(cs) == IfEligible(cs[0]) + Eligible(cs[1..])
  {
  }

  lemma {:induction false} EligibleOfLonger(cs: seq<Candidate>, last: Candidate)
    ensures Eligible(cs + [last]) == Eligible(cs) + IfEligible(last)
  {
    hide Eligible, IfEligible;
    EligibleUnfolds(cs);
    EligibleUnfolds(cs + [last]);
    if |cs| == 0 {
      assert (cs + [last])[1..] == [];
      EligibleUnfolds([]);
    } else {
      EligibleOfLonger(cs[1..], last);
      assert (cs + [last])[1..] == cs[1..] + [last];
    }
  }

  /** The head of the ranked list. */
  ghost function Top(es: seq<Candidate>): Option<Candidate> {
    if |Ranked(es)| == 0 then None else Some(Ranked(es)[0])
  }

  lemma TopOfLonger(es: seq<Candidate>, last: Candidate)
    ensures var top := Top(es);
      Top(es + [last]) == if top.Some? && top.value.netAprBps >= last.netAprBps then top else Some(last)
  {
    assert (es + [last])[..|es|] == es;
    assert Ranked(es + [last]) == InsertRanked(last, Ranked(es));
  }

  lemma FirstBestOfLonger(before: seq<Candidate>, last: Candidate)
    ensures var b := FirstBest(before);
      FirstBest(before + [last])
      == if last.risk == High || (b.Some? && b.value.netAprBps >= last.netAprBps) then b else Some(last)
  {
    assert (before + [last])[..|before|] == before;
  }

  lemma OfNone()
    ensures FirstBest([]) == None && Top(Eligible([])) == None
  {
  }

  lemma TopStep(before: seq<Candidate>, last: Candidate)
    requires FirstBest(before) == Top(Eligible(before))
    ensures FirstBest(before + [last]) == Top(Eligible(before + [last]))
  {
    hide Top, Eligible, FirstBest;
    EligibleOfLonger(before, last);
    FirstBestOfLonger(before, last);
    if last.risk != High {
      TopOfLonger(Eligible(before), last);
    } else {
      var eligible := Eligible(before);
      assert eligible + [] == eligible;
    }
  }

  /** The ranking's top is the first of the best: the sort is stable. */
  lemma {:induction false} TopIsFirstBest(cs: seq<Candidate>)
    ensures FirstBest(cs) == Top(Eligible(cs))
  {
    hide Top, Eligible, FirstBest;
    if |cs| == 0 {
      OfNone();
    } else {
      TopIsFirstBest(cs[..|cs| - 1]);
      TopStep(cs[..|cs| - 1], cs[|cs| - 1]);
      assert cs == cs[..|cs| - 1] + [cs[|cs| - 1]];
    }
  }

  lemma {:induction false} FoundInList(cs: seq<Candidate>, name: string)
    ensures FindByName(cs, name).Some? <==> exists c :: c in cs && c.name == name
  {
  }

  /**
   * The ranking, decided: the arms when no eligible pool clears the buffer; the current pool when it is itself the
   * best, or an eligible candidate of its name is within the buffer of the best; and otherwise a switch to the best.
   */
  lemma RankingDecides(cs: seq<Candidate>, current: Option<string>, bufferBps: real)
    ensures var best := FirstBest(cs);
      var clears := best.Some? && best.value.netAprBps > bufferBps;
      var stays := clears && current.Some?
        && ((current.value != "" && best.value.name == current.value)
          || exists c :: c in cs && c.risk != High && c.name == current.value
               && best.value.netAprBps <= c.netAprBps + bufferBps);
      DecidePoolSwitch(cs, current, bufferBps)
      == if !clears then ToArms else if stays then HoldPool(current.value) else SwitchTo(best.value)
  {
    var ranked := Ranked(Eligible(cs));
    TopIsFirstBest(cs);
    TopIsMaximal(cs);
    hide Ranked, Eligible, FindByName, BestFirst, FirstBest;
    if current.Some? {
      FoundIsBestOfName(ranked, current.value);
      FoundInList(ranked, current.value);
    }
  }
}
