# A verified model of the allocator research code

This project models the keeper's portfolio machine of the research simulator, the range-liquidity and fee
arithmetic under it, and the fee-first allocator beside it, and proves what they keep over whole runs.

The machine holds two concentrated-liquidity books, idle USDG and NVDA, and a lend/collateral/borrow arm.
Every hour brings a market row; the portfolio earns fees, pulls and re-arms guards, accrues interest and may
be liquidated; one decision is taken and one action executed. A cumulative ledger records fees and costs.

| module | what it holds |
|---|---|
| `RealMath` | facts about real products, quotients and orders |
| `Lp`, `ImpermanentLoss`, `RangeWidth` | tick grid, token amounts, sizing; impermanent loss and what range width does to it |
| `State`, `Moves`, `Invariant` | the portfolio value, its elementary moves, the shape they keep |
| `Fees`, `FeeBounds`, `Windows` | hourly fee split in both fee modes, its bounds; rolling windows and gates |
| `Income`, `Planner`, `Decision`, `Executor` | the two halves of the hour |
| `Conservation`, `Safety`, `Agreement`, `SwapToFund`, `BaseSkew` | what each action conserves, keeps and promises |
| `Simulation`, `Attribution`, `FeeLedger`, `Unbooked` | whole runs, their reconciliation, their fee accounts, and where the ledger and the NAV part |
| `QuietHours` | hours at a tick's own mark, for the runs that exhibit a failure |
| `OneWayDoor`, `ReturnPath`, `Reopening`, `Retreat` | reachability and termination of the ways into and out of the books |
| `Alarms`, `Evacuation` | what an alarm decides, and that a standing one empties the books |
| `Choices` | what the policies decide when nothing alarms |
| `BookHour`, `Liquidating`, `Funding`, `Custody` | what an hour does to a book, what a liquidation takes, what funding, re-centring and switching lead to, where tokens and gas come from |
| `Policies`, `Scan` | what the policies are for: the benchmark, the book-only policies, the sentinel, the risk gate; the scan's risk flag |
| `Machine` (Portfolio.dfy) | the object that is updated in place, tied to all of the above |
| `FeeAllocator`, `FeeMoves`, `Sleeve` | the fee-first allocator, its moves and payments, and the closed-form sleeve |

Conventions. Money, prices and liquidity are exact reals. The ratio of adjacent square-root prices,
sqrt(1.0001), is a constant of which only `> 1` is used; every other square root is a parameter with its
square equation. A market row carries the tick, the raw square-root price and the price of one mark,
`price * sqrtP * sqrtP == 1e12`. The functions of the elementary modules say what an operation computes; the
class `Portfolio` performs the same operations step by step on its fields, and each method's contract equates
its new snapshot with the function of the old one, so the theorems about functions are theorems about the
object. Rates, the liquidation bonus and the comparison slack are taken as non-negative (`Sensible`); a run starts
from positive capital, positive range widths and a guard share in [0, 1) (`SoundStart`).

## What the code does where its text says otherwise

- A switch cost is booked in full but taken from idle USDG only down to zero
  (`research/cadcad/allocator/model.py:2112-2116`). The run-level theorems carry the untaken part explicitly
  (`Unpaid`), say exactly when it is zero, and `Unbooked.UnpaidSwitch` exhibits a run.
- Opening a book sets its `fees` to 0 (line 1715), so funding a slot that still holds fees loses them. No run
  with a guard share below one can reach that; `Unbooked.GuardOnlyRunForfeits` exhibits a run with a share of one.
- A planned slice that equals dust to the cent is neither rounded up by the planner (`< dust`) nor moved by
  the executor (`> dust`): a fixed point that holds for ever (`Reopening.DustSliceHolds`).
- The clamped closed-form sleeve answers 0 when F_A + H is negative, where 1 is better.
- In the fast fee mode the parts are clipped at zero one by one, so guard plus base can exceed the total that
  the split starts from (`FeeBounds.ClippingLiftsTheHour`); it still never exceeds the exact fee.
- A surplus sweep under a negative inventory reserve plans more than is idle, and the executor moves less
  (`Agreement.SweepCanExceedTheBalance`).
- The fee allocator's edge counts the switch rate on the sleeve once; the step charges it on what leaves one pool and
  again on what enters the other (`FeeMoves.MoveIsChargedTwice`).

## Model

| member | source | states |
|---|---|---|
| `Simulation.EveryRunIsBooked` | research/cadcad/allocator/model.py:2191-2264 | After any number of hours, on any tape and under any policy, NAV = initial NAV + fees + arm interest + NVDA yield − borrow cost − gas − switch cost − swap cost − liquidation loss + the market result of each hour's holdings + the switch costs that were booked and never paid. |
| `Attribution.FlatTapeReconciles` | research/cadcad/allocator/model.py:2243-2264 | On a tape whose mark never moves, `cum_il_vs_hodl` equals the unpaid switch costs and is non-negative; it is 0 if and only if every switch could pay its cost out of idle USDG, and always when switches are free. |
| `Attribution.RunsWithoutSwitchesReconcile` | research/cadcad/allocator/model.py:2243-2264 | A run that never decides a switch has `cum_il_vs_hodl` 0 on a flat tape, whatever a switch would cost. |
| `Attribution.HomePoliciesReconcile` | research/cadcad/allocator/model.py:2243-2264 | hodl, always_arms, always_b, and always_a started in book A never switch, so on every flat tape they reconcile to the cent at every hour. |
| `Attribution.ReportedIlIsMarketResult` | research/cadcad/allocator/model.py:2254-2264 | On every tape the reported `cum_il_vs_hodl` is the market result on the actual holdings minus the market result on the HODL basket, plus unpaid switch costs: no carry term leaks into it. |
| `Attribution.NoRunBeatsItsInventory` | research/cadcad/allocator/model.py:369-380 | Impermanent loss at portfolio level: on every tape the NAV never exceeds initial NAV + ledger + the gains of the NVDA the portfolio held hour by hour in any form. |
| `Attribution.RevaluationBelowInventory` | research/cadcad/allocator/model.py:181-209 | Between two marks a portfolio gains at most what its NVDA exposure gains, and exactly that when no book is open. |
| `FeeLedger.EveryRunFeesAddUp` | research/cadcad/allocator/model.py:1861-1864 | Over every run `cum.fees` is the sum of the two books' lifetime fees, through recalls, switches and re-fundings, and `cum.guard_fees` lies between 0 and it. |
| `Conservation.EveryActionIsBooked` | research/cadcad/allocator/model.py:1951-2153 | Every action on every portfolio (lend arm not overdrawn) at every price, fall-backs to HOLD included, moves NAV by − gas − swap cost − switch cost as booked, plus the shortfall of an unpayable switch cost, minus what a slot held when a book was opened over it; no other ledger account moves. |
| `Conservation.SwitchIsBooked` | research/cadcad/allocator/model.py:2100-2126 | A switch closes both slots, funds the target, and books a cost of which only the idle USDG is taken; the NAV differs from the ledger by exactly the untaken part. |
| `Conservation.RecenterIsBooked` | research/cadcad/allocator/model.py:2075-2098 | Close, re-fund and the extra recenter gas move NAV exactly as booked. |
| `Simulation.StepIsBooked` | research/cadcad/allocator/model.py:1785-2153 | One whole hour, income, decision and execution, moves NAV at its mark by exactly the change of the ledger plus the shortfall of an unpayable switch. |
| `Simulation.StartIsSound` | research/cadcad/allocator/model.py:474-579 | For every policy the initial portfolio and the HODL basket are both worth the initial NAV, the ledger is empty and the shape invariant holds. |
| `Simulation.TemplateIsSound` | research/cadcad/allocator/model.py:443-471 | The opened template book is centred on the first tick with its two widths and worth exactly the book capital, `guard_share` of it in the guard and the rest in the base. |
| `Simulation.BasketIsTheRecalledBook` | research/cadcad/allocator/model.py:533-579 | The HODL basket is exactly what a keeper that starts in a book has idle when it recalls the book at the first mark. |
| `Simulation.StartsWhereThePolicySays` | research/cadcad/allocator/model.py:490-545 | hodl and always_arms start with the basket idle and no book open, always_b in book B, every other policy in its start book, fully opened, with the rest in cash and an empty arm. |
| `Unbooked.FundingConservesIffNoFees` | research/cadcad/allocator/model.py:1706-1721 | Funding a slot without positions conserves value if and only if the slot holds no uncollected fees; otherwise exactly those fees vanish, because opening sets `fees` to 0. |
| `Unbooked.PulledGuardOnlySlotKeepsItsFees` | research/cadcad/allocator/model.py:1830-1864 | A book without a base whose guard is pulled stays deployed, counts as having no positions, and holds its fees: the slot that funding then forfeits. |
| `Unbooked.GuardOnlyRunForfeits` | research/cadcad/allocator/model.py:1706-1721 | A run that exhibits it, with guard_share = 1 under always_a: in one hour the guard earns, is pulled, and the emptied slot is funded over its fees; the NAV ends below initial NAV plus ledger by exactly those fees, which are positive. |
| `Unbooked.UnpaidSwitch` | research/cadcad/allocator/model.py:2110-2117 | A run that exhibits it: always_a started in book B with all capital in the book and all of it used again. At every tick, one hour without fees or moves books the switch cost and pays none of it, so `cum_il_vs_hodl` on that flat tape is the cost, above 0. |
| `Simulation.EveryRunIsOk` | research/cadcad/allocator/model.py:1785-2153 | Over every run: at most one book is deployed and it is the active one; an undeployed book has no liquidity, guard or fees; the guard is within its target ratio to the base; arm balances are non-negative and idle balances at least −slack; bad debt never shrinks. |
| `Safety.ExecutionKeepsOk` | research/cadcad/allocator/model.py:1951-2153 | Every action the planners can choose keeps the shape invariant, never changes bad debt, raises debt only if it is a borrow, and overwrites nothing of worth. |
| `Safety.DecisionsAreLegit` | research/cadcad/allocator/model.py:1091-1383 | Whatever the policy, tape and step, a book is only decided to be funded in the active slot or beside an empty active slot. |
| `Income.IncomeKeepsOk` | research/cadcad/allocator/model.py:1785-1944 | The income half keeps the shape invariant, deploys and recalls no book, never forgives bad debt, and leaves the books alone when none is open. |
| `Income.RearmKeepsOk` | research/cadcad/allocator/model.py:1866-1906 | A re-armed guard never exceeds the target guard scaled by the base as it stands, and both idle legs pay for it. |
| `Invariant.FundingKeepsOk` | research/cadcad/allocator/model.py:1648-1721 | Funding beside empty slots keeps the shape, deploys the target exactly when the scale is positive, makes it the active one, and with no slack leaves both idle legs non-negative. |
| `Invariant.ClosingKeepsOk` | research/cadcad/allocator/model.py:1415-1430 | A closed slot is empty; the other slot and the arm are untouched and idle balances only grow. |
| `Invariant.LiquidationKeepsOk` | research/cadcad/allocator/model.py:1724-1782 | Liquidation keeps the shape, touches no book or idle balance, never raises debt and never lowers bad debt. |
| `Moves.GasIsBooked` | research/cadcad/allocator/model.py:1394-1412 | Gas lowers NAV by exactly what `cum.gas` gains: the bill, or all of idle USDG, lend arm and fees if that is less. |
| `Custody.GasIsDrawnInOrder` | research/cadcad/allocator/model.py:1394-1412 | Gas is drawn from idle USDG, then the lend arm, then the fees of book A, then of book B, each only when those before it are used up, and from nothing else. |
| `Custody.ExecutedPaysOnce` | research/cadcad/allocator/model.py:1951-2153 | What counts as executed is counted once and pays one bill of gas or all there is for it; what falls back to HOLD is neither counted nor billed. |
| `Custody.EveryActionKeepsNvda` | research/cadcad/allocator/model.py:1951-2153 | Without swaps no action, executed or fallen back, makes or loses NVDA: what leaves a book, the idle inventory or the arm arrives in another of them. |
| `Custody.RepaymentIsDrawnInOrder` | research/cadcad/allocator/model.py:2015-2032 | A repayment is the least of what is asked, owed and there, and touches the lend arm only past the idle USDG. |
| `Custody.WithdrawalIsLargest` | research/cadcad/allocator/model.py:2034-2053 | A withdrawal is at least every amount asked for that leaves the health factor at its floor. |
| `Custody.ModeFollowsTheArm` | research/cadcad/allocator/model.py:2146-2153 | After every action the mode is BOOKS if and only if the arm is empty, bad debt included. |
| `Moves.ClosingConserves` | research/cadcad/allocator/model.py:1415-1430 | Recalling a book leaves NAV and ledger unchanged at every marked price. |
| `Moves.SwapIsBooked` | research/cadcad/allocator/model.py:1433-1471 | A swap lowers NAV by exactly the booked cost, never creates value, and touches only the two idle legs. |
| `Moves.SwapFillsTheGap` | research/cadcad/allocator/model.py:1433-1471 | A swap that happens lands the short leg exactly on its requirement and leaves the other leg its own, up to the slack; otherwise nothing changes. |
| `Custody.SwapIsChargedOnTheSale` | research/cadcad/allocator/model.py:1433-1471 | The booked swap cost is the rate times the dollars sold; from 99% on there is no swap. |
| `Moves.FundingIsBooked` | research/cadcad/allocator/model.py:1648-1721 | Funding lowers NAV by the booked swap cost and, if a book is opened, by what the slot still held; a positive scale puts in as much as it takes out. |
| `Moves.LiquidationIsExact` | research/cadcad/allocator/model.py:1724-1782 | HF >= 1 or dust debt: nothing happens. Otherwise prior debt = repaid + lend impairment + new bad debt, debt becomes 0, and NAV falls by exactly bonus × repaid, which is what `liquidation_loss` gains. |
| `Liquidating.LiquidationTakes` | research/cadcad/allocator/model.py:1724-1782 | Something happens if and only if debt is above dust and lltv times collateral value is below it. Collateral worth debt plus bonus loses exactly that and nobody else loses; less than that goes entirely, and the lend arm first and bad debt after it bear debt − value / (1 + bonus). The booked loss is the bonus on what was repaid. |
| `Income.IncomeIsBooked` | research/cadcad/allocator/model.py:1785-1944 | Fees, pull, re-arm, interest, yield, borrow cost and liquidation together move NAV exactly as the ledger does. |
| `Income.PullConserves` | research/cadcad/allocator/model.py:1830-1846 | A guard pull turns the guard into idle tokens of the same worth. |
| `Income.RearmIsBooked` | research/cadcad/allocator/model.py:1866-1906 | A re-arm costs the NAV nothing but its booked swap. |
| `Income.AccrualIsBooked` | research/cadcad/allocator/model.py:1916-1937 | Hourly interest, borrow cost and NVDA yield (grossed up by LTV when quoted net) change NAV by exactly the three carry accounts. |
| `BookHour.HourIsCredited` | research/cadcad/allocator/model.py:1792-1864 | From the row and the slot's own fee tier: the ledger, the slot and its lifetime account gain the base's part, the guard-only part, and of the guard's liquidity share of the shared fee the part of the hour before the pull bin (none for a gate pull, all without a pull). |
| `BookHour.GuardOfTheHour` | research/cadcad/allocator/model.py:1821-1906 | A pull turns the guard into idle tokens and dates the slot to this step; an absent guard is back around the tick, whole or as much as uses up a leg, if and only if the delay has passed, the gate allows it, something is wanted and every required leg is there. |
| `BookHour.OnlyTheActiveEarns` | research/cadcad/allocator/model.py:1792-1796 | An hour's book income is that of the active slot on its own row and gates. |
| `BookHour.SleeveEarnsInItsRange` | research/cadcad/allocator/model.py:280-300 | A sleeve earns at exactly the ticks whose price lies in its range, upper edge excluded. |
| `Custody.CarryIsAtTheRates` | research/cadcad/allocator/model.py:1911-1937 | Loan and debt grow at their annual rates over 8,760; a collateral rate quoted net leaves, after the borrow cost of the hour, exactly that rate on the collateral value. |
| `State.BookIsItsTokens` | research/cadcad/allocator/model.py:181-209 | `book_value` is uncollected fees plus `book_tokens` at the mark. |
| `SwapToFund.SwapFundingIsComplete` | research/cadcad/allocator/model.py:1675-1721 | Swap-to-fund, for every cost and slack: from non-negative legs the book gets `fund_book_bps` of its target liquidity, never more, and exactly that if and only if the idle tokens cover both goals, directly or by a swap the other leg's excess pays for; in every case the scale is the largest both legs allow, balances stay above minus the slack and NAV falls by the swap cost only. |
| `SwapToFund.SwapsWhenCovered` | research/cadcad/allocator/model.py:1450-1470 | For every slack a swap happens exactly when one leg is short, the other is in excess, and excess plus slack covers shortfall / (1 − c) with c below 99%. |
| `Invariant.ScaleIsLargest` | research/cadcad/allocator/model.py:1697-1702 | The funding scale is affordable on both legs and no larger scale within the cap is. |
| `Funding.ScaleFundingLeaves` | research/cadcad/allocator/model.py:1676-1721 | Scale mode, in `fund_book_bps` itself: at least the unused share of each idle leg stays, and either the whole target is open or a required leg is left at exactly that share. |
| `Funding.FundedAtMark` | research/cadcad/allocator/model.py:1660-1721 | A funding with a positive scale opens the slot at this tick: guard range and base width as set, base off centre by the skew at most, no fees, no pull on record, worth the dollars it reports. |
| `Funding.SkewedFundingDeploys` | research/cadcad/allocator/model.py:1474-1522 | With the full share in scale mode a funding deploys exactly the dollars by which the skew was chosen. |
| `Funding.RecenterReopens` | research/cadcad/allocator/model.py:2075-2098 | A re-centred book is open again, at the new mark and with no re-centring due there, if and only if the keeper with its tokens idle is fundable; for more than a dollar it pays the ordinary and the extra gas, or all there is. Otherwise it stays closed and no gas is paid. |
| `Funding.SwitchOpensTheTarget` | research/cadcad/allocator/model.py:2100-2126 | A switch that is not refused leaves the target open at this mark and active, and the other slot closed, if and only if the keeper with both slots recalled is fundable; the booked cost is the switch rate on the dollars deployed. |
| `BaseSkew.PickSkew` | research/cadcad/allocator/model.py:1474-1522 | The scan over offsets returns the skew of its specification, ties resolved toward the symmetric range. |
| `BaseSkew.SkewIsBest` | research/cadcad/allocator/model.py:1474-1522 | The chosen skew is within its limit and no scanned offset deploys more dollars, up to one tie tolerance per offset scanned. |
| `BaseSkew.BestIsNearMaximal` | research/cadcad/allocator/model.py:1500-1521 | Tie-breaking by symmetry can drift the kept best by at most one tolerance per comparison; with exact ties the scan is a maximum. |
| `BaseSkew.OffsetsAre` | research/cadcad/allocator/model.py:1501-1502 | The scan looks at exactly 0 and every step of a fortieth of the limit (at least one tick) from the lower limit up. |
| `BaseSkew.ExactTiesGoToTheMiddle` | research/cadcad/allocator/model.py:1500-1521 | With exact comparison, of the offsets that deploy the most it takes one nearest to the symmetric range. |
| `Agreement.DecisionsExecuteInFull` | research/cadcad/allocator/model.py:1091-1383 | Every ALLOCATE_USDG, ALLOCATE_NVDA, BORROW_USDG or REPAY decided by any policy is executed for exactly the decided amount if and only if it is not a surplus sweep under a negative reserve with more room than balance; with a reserve of zero or more it always is. |
| `Agreement.ReturnExecutesInFull` | research/cadcad/allocator/model.py:926-958 | A repay planned on the way back is executed in full. |
| `Agreement.SurplusExecutesInFull` | research/cadcad/allocator/model.py:1018-1088 | A surplus action is executed in full if and only if the reserve is not negative or the room does not exceed the balance. |
| `Agreement.SweepCanExceedTheBalance` | research/cadcad/allocator/model.py:1227-1230 | A run that exhibits it, at every tick: a quiet first hour with the book open, capital left outside it and a negative reserve, in which risk_only decides a sweep that is not executed in full. |
| `Safety.LendingRespectsCaps` | research/cadcad/allocator/model.py:1968-1976 | A loan that moved anything leaves the lend arm within its absolute cap and within its NAV-relative cap (cross-multiplied in bps) of the NAV before the action, which is the NAV after it plus the gas paid, at most one bill. |
| `Safety.PledgingRespectsCaps` | research/cadcad/allocator/model.py:1978-1987 | A pledge that moved anything leaves the collateral value within its absolute cap and within its NAV-relative cap (cross-multiplied in bps) of the NAV before the action, which is the NAV after it plus the gas paid, at most one bill. |
| `Safety.BorrowStaysWithinLimits` | research/cadcad/allocator/model.py:1989-2008 | After a borrow that moved anything, debt is within ltv, max_ltv and hard cap of collateral value and within market liquidity. |
| `Safety.WithdrawalKeepsHealth` | research/cadcad/allocator/model.py:2034-2053 | A withdrawal that moved anything under debt leaves the health factor at or above its floor. |
| `Safety.RepayNeverLowersHealth` | research/cadcad/allocator/model.py:2015-2032 | A repayment never lowers the health factor and never touches collateral. |
| `OneWayDoor.DoorNeverReopens` | research/cadcad/allocator/model.py:1284-1336 | Policy allocator, fix off: once the active book of a run is undeployed, no later state of that run has a book open and not one more dollar of fees is booked, on any tape. |
| `OneWayDoor.OnlyArmActions` | research/cadcad/allocator/model.py:869-923 | With no book open the as-built allocator decides only HOLD, ALLOCATE_USDG, ALLOCATE_NVDA, BORROW_USDG or REPAY. |
| `OneWayDoor.FixDecidesToReturn` | research/cadcad/allocator/model.py:1309-1369 | With the fix on and no book open, a calm hour decides only the sentinel's repayment, the next step of the return, or HOLD, and HOLD only off the clock. |
| `OneWayDoor.FundingOpens` | research/cadcad/allocator/model.py:1676-1721 | With no book open and no debt above dust, a FUND_BOOK opens the active book if and only if some of the idle tokens may be used, the quote asks for something, and of each leg it asks for there is some, after the swap in swap mode; otherwise nothing opens and the arm is untouched. |
| `OneWayDoor.TokensMakeFundable` | research/cadcad/allocator/model.py:1691-1704 | In scale mode some of both tokens is always enough to open a book with a real base range. |
| `Reopening.FixReopensTheDoor` | research/cadcad/allocator/model.py:1284-1373 | With the fix on, from any state in shape with no book open, however loaded the arm, over calm hours at one mark without rates, through sentinel repayments and liquidation: within one acting step per dust unit to unwind, plus one, the active book is open again, or the return is stuck, or there is nothing to fund with. |
| `Reopening.RunReopensTheDoor` | research/cadcad/allocator/model.py:1284-1373 | The same inside any run of the simulation: the counterpart of the one-way door for the fixed allocator. |
| `Reopening.CalmHourIsAReturn` | research/cadcad/allocator/model.py:926-958 | On the clock, without rates, with a healthy arm and a quiet sentinel, the whole simulated step is the planned return action executed. |
| `Reopening.EndsHold` | research/cadcad/allocator/model.py:926-958 | In scale mode the ends are final: a stuck or unfundable keeper is unchanged by every further calm hour. |
| `Reopening.EndsHoldForever` | research/cadcad/allocator/model.py:926-958 | And any number of calm hours at that mark. |
| `Reopening.DustSliceHolds` | research/cadcad/allocator/allocator.py:167-184 | Every step size has its fixed point: a healthy keeper with a debt of dust over the step fraction and ten times that in idle USDG repays none of it, through any number of return actions and of calm simulated hours. |
| `Reopening.CoveredIsFundable` | research/cadcad/allocator/model.py:1677-1704 | In swap mode idle tokens that cover the funding goals, in whatever ratio, are enough to open the book. |
| `ReturnPath.ReturnTerminates` | research/cadcad/allocator/model.py:926-958 | Iterating the return action at a fixed mark ends within as many actions as there are dust units of debt, collateral and lent USDG, either wound down (and then FUND_BOOK is next), or with debt nobody can repay above dust, or on a slice of exactly dust. |
| `ReturnPath.ReturnShrinks` | research/cadcad/allocator/allocator.py:153-184 | Away from those ends every return action removes at least one dust unit and opens or closes no book. |
| `ReturnPath.StuckStays` | research/cadcad/allocator/model.py:926-958 | In a stuck state the return action changes nothing but the mode flag and never funds. |
| `ReturnPath.StuckForever` | research/cadcad/allocator/model.py:926-958 | And for good: any number of return actions leaves a stuck portfolio as it is. |
| `ReturnPath.ReturnStepCostsGas` | research/cadcad/allocator/model.py:2015-2062 | Unwinding the arm costs gas and nothing else. |
| `ReturnPath.SolventReturnArrives` | research/cadcad/allocator/model.py:926-958 | A keeper whose idle and lent USDG cover its debt and the gas of one action per dust unit is never stuck for want of USDG. |
| `ReturnPath.QuietHour` | research/cadcad/allocator/model.py:1785-1944 | With no book open, zero rates and a healthy arm, an hour's income changes nothing but the mode flag. |
| `Planner.SliceCases` | research/cadcad/allocator/allocator.py:167-184 | A slice of more than dust never is below dust or above the amount, and equals dust only when the raw slice does. |
| `Retreat.RetreatTerminates` | research/cadcad/allocator/model.py:869-923 | Iterated at a fixed mark, the entry actions end: the book is recalled, nothing above dust fits the caps, and the keeper holds from then on. |
| `Retreat.RetreatShrinks` | research/cadcad/allocator/model.py:869-923 | Every entry action but HOLD lexicographically shrinks (open book, idle NVDA, borrowing room, idle USDG). |
| `Retreat.RetreatCostsGas` | research/cadcad/allocator/model.py:1951-2153 | However many actions it takes, the retreat costs the NAV gas and nothing else. |
| `Retreat.PauseEmptiesTheBooks` | research/cadcad/allocator/model.py:1284-1292 | A paused hour ends with no book open, for every policy that listens to the pause flags. |
| `Retreat.PauseShutsTheDoor` | research/cadcad/allocator/model.py:1284-1292 | For the as-built allocator one paused hour in which it acts is final: no later state of the run has a book open or earns another fee. |
| `Policies.HodlRunIsTheBasket` | research/cadcad/allocator/model.py:2176-2178 | The HODL policy is the HODL benchmark: on every tape it never acts, its NAV equals the basket NAV at every mark and its reported IL is 0. |
| `Policies.BookPoliciesNeverUseTheArm` | research/cadcad/allocator/model.py:1264-1281 | Over every run HODL, always_a and always_b keep the arm empty and its four ledger accounts at 0. |
| `Policies.DebtBarsTheBooks` | research/cadcad/allocator/model.py:2064-2126 | With no book open and debt above dust, no action whatever opens a book. |
| `Policies.SentinelDeleversFirst` | research/cadcad/allocator/model.py:1294-1298 | In an unpaused hour the sentinel comes before everything else; its repayment is executed in full, strictly lowers debt and strictly raises the health factor of what is left. |
| `Policies.HighRiskKeepsOut` | research/cadcad/allocator/model.py:1126-1336 | While the active book is HIGH nothing is funded, re-centred, withdrawn or deallocated; the only switch is from book B to a book A that is not HIGH. |
| `Alarms.AlarmLeavesTheBooks` | research/cadcad/allocator/model.py:1127-1336 | In an acting, unpaused hour without a sentinel repayment and without a way home, a HIGH flag, trouble with the guard of a funded book, or for risk_fee_il a full streak with no re-centring due, decides the entry action: the largest loan that fits if it is above dust, failing that the largest pledge, failing that the largest borrow, failing that RECALL_BOOK; HOLD only with no book open. |
| `Alarms.AlarmGoesHome` | research/cadcad/allocator/model.py:1163-1171 | Before any retreat, the risk policies answer a HIGH book B with a switch to a book A that is not HIGH. |
| `Alarms.AlwaysArmsLeaves` | research/cadcad/allocator/model.py:1123-1125 | always_arms decides that same entry action at every step, warm-up and pauses included. |
| `Evacuation.StandingAlarmEmptiesTheBooks` | research/cadcad/allocator/model.py:869-923 | Over HIGH or paused hours at one mark without rates, whatever fees, pulls and re-arms they bring, in both funding modes: with borrowing below par and above the sentinel's floor, no book is open before the keeper has acted more often than its energy (movable tokens plus twice the borrowing they would carry) has drops of dust. |
| `Evacuation.StandingAlarmEmptiesTheRun` | research/cadcad/allocator/model.py:1299-1336 | The same inside any run of the simulation, from whatever state it has reached with a book open and a sound arm. |
| `Evacuation.AlarmFromTheStart` | research/cadcad/allocator/model.py:1299-1336 | Such a run, at every tick and for every listening policy that acts each hour: as many HIGH hours as the starting portfolio has steps to leave, and its books are empty on the way. |
| `Evacuation.PulledGuardLeavesAtOnce` | research/cadcad/allocator/model.py:1299-1336 | A guard pulled in the income half of an hour, and not re-armed the same hour, makes the decision half of that very hour leave the book. |
| `Evacuation.HourLeavesNoArmUnderwater` | research/cadcad/allocator/model.py:1911-1940 | Interest accrues before liquidation: after the income half no arm has a debt above dust that its collateral does not support. |
| `Choices.CalmRiskHour` | research/cadcad/allocator/model.py:1186-1264 | A calm hour of the risk policies: re-centre when due; away from the book or in the arms, the next step home; at home sweep a surplus, failing that move to a book that leads by floor and buffer on the opportunity clock, failing that hold. |
| `Choices.CalmAllocatorHour` | research/cadcad/allocator/model.py:1338-1383 | A calm hour of the allocator: re-centre when due unless in the arms; on the clock leave for the arms when no pool clears the buffer, switch when the other pool wins by it, go on home from the arms, and hold a funded book. |
| `Choices.OffTheClockHolds` | research/cadcad/allocator/model.py:1104-1121 | hodl always holds; every policy but always_arms holds before the warm-up is over; allocator and risk_only hold off their interval. |
| `Choices.AlwaysGoesHome` | research/cadcad/allocator/model.py:1266-1281 | always_a and always_b hold their own open book, switch to it from the other open book, and fund it otherwise. |
| `Choices.RecenterIsDue` | research/cadcad/allocator/model.py:991-1015 | A re-centring is due exactly when the price differs from that of the entry tick of a funded book by at least the threshold. |
| `Choices.SentinelRepays` | research/cadcad/allocator/model.py:961-988 | The sentinel acts exactly on an arm below the health floor or above the borrow-rate ceiling, with debt and collateral above dust, and repays its share of the debt or what there is for it, if more than dust. |
| `Choices.SweepTakesTheSurplus` | research/cadcad/allocator/model.py:1018-1088 | A sweep takes the largest amount that keeps the reserve idle and the cap respected: NVDA first, then a borrow where wanted, then USDG, each only above its minimum and dust. |
| `Choices.NextStepHome` | research/cadcad/allocator/model.py:926-958 | The next step home is a step share of the debt (all of it when that is dust) or what there is to repay it with, then of the collateral, then of the loan, then FUND_BOOK. |
| `Scan.NormalWhenAllClear` | research/cadcad/allocator/model.py:716-805 | The scan's flag is NORMAL if and only if the pool is deep enough, an active pool is not depegged, the guard that counts is there, volatility, volume and fee rate are within their thresholds, and, for book B under an opportunity window, its window volume and pool share are within theirs. |
| `Scan.NoGuardIsHigh` | research/cadcad/allocator/model.py:716-747 | An active book without a guard in place, and without the fix an empty active one, is HIGH whatever the market reads. |
| `Scan.ScanShutsTheDoor` | research/cadcad/allocator/model.py:716-747 | The door is not the allocator's alone: without the fix, under allocator, risk_only and risk_fee_il, an undeployed active book A is never reopened, on any tape whose flags a scan produced. |
| `Planner.RankingIsSound` | research/cadcad/allocator/allocator.py:226-272 | A HIGH pool is never chosen; ARMS is returned iff no eligible pool beats the buffer; SWITCH names a maximal eligible pool above the buffer and above every eligible pool of the current name by more than the buffer. |
| `Planner.RankingSettles` | research/cadcad/allocator/allocator.py:226-272 | On unchanged metrics the pool never changes after the first ranking, and every later ranking decides the same: HOLD of a pool switched to (or, for an empty name under a negative buffer, the same SWITCH for ever), else the first decision again. |
| `Planner.RankedIsBestFirst` | research/cadcad/allocator/allocator.py:232-237 | The stable sort by net APR lists a best pool first. |
| `Planner.RankingDecides` | research/cadcad/allocator/allocator.py:226-272 | ARMS exactly when no eligible pool clears the buffer; HOLD exactly when the best pool is the current one, or an eligible candidate of its name is within the buffer of the best; SWITCH to the best in every other case. |
| `Planner.FirstBestIs` | research/cadcad/allocator/allocator.py:232-240 | The best is eligible, none eligible is better, and of equals it is the first in the list: the sort is stable. |
| `Windows.RollingMinutes` | research/cadcad/allocator/model.py:231-247 | The loop gathers the last minutes from as few rows as could hold them, for every step, past the end of the tape too. |
| `Windows.RollingIsTheRecentPast` | research/cadcad/allocator/model.py:231-247 | On full hours that window is exactly the last minutes of the whole history, across any hour boundaries. |
| `Windows.ComputeSignal` | research/cadcad/allocator/model.py:1525-1612 | The hour-by-hour sum of the book and guard windows equals the rolling fee and IL signal. |
| `Windows.GatesIgnoreRoundTrips` | research/cadcad/allocator/model.py:1799-1820 | A window that ends at the tick it began at never pulls the guard and never blocks a re-arm, whatever fees, hurdle and ranges. |
| `Windows.GatesWeighTheWindow` | research/cadcad/allocator/model.py:1799-1883 | Over the window and without annualising: the guard is pulled exactly when its own fees fall short of the hurdle times its loss, and its re-arm is barred exactly when the whole book's do. |
| `Windows.WindowSpans` | research/cadcad/allocator/model.py:1525-1612 | A signal window ends at the step or the last row of the tape and begins so many hours before or at the first row; its loss is marked on the base range for a book with a base, else on the guard range. |
| `Windows.WeakWithoutLoss` | research/cadcad/allocator/model.py:1615-1645 | An hour whose window ends at the tick it began at is weak exactly when its fee rate is below the buffer. |
| `Windows.CountStreak` | research/cadcad/allocator/model.py:1615-1645 | The backward loop with its early exits counts the consecutive weak hours, for every confirmation length, those below 1 included. |
| `Windows.LeaveOnStreak` | research/cadcad/allocator/model.py:1189-1207 | The book is left if and only if each of the last `confirm` hours exists and had a weak window. |
| `Lp.TickGridIncreases` | research/cadcad/allocator/lp.py:25-31 | The tick grid of section 6.1 of the Uniswap v3 Core whitepaper is strictly increasing. |
| `Lp.SymmetricTicks` | research/cadcad/allocator/lp.py:25-31 | Equal tick widths on both sides are geometrically centred on the price. |
| `Lp.TickIsMarked` | research/cadcad/allocator/lp.py:25-31 | The price of a tick and its square-root price satisfy the mark `price * sqrtP * sqrtP == 1e12`. |
| `Lp.SizingRoundTrips` | research/cadcad/allocator/lp.py:98-110 | `position_value_usd(liquidity_for_value(v)) == v` for every v >= 0, price and non-empty range. |
| `Lp.TokensAreTheValue` | research/cadcad/allocator/lp.py:48-95 | The two token amounts at the mark add up to the position value. |
| `Lp.TokensScale` | research/cadcad/allocator/lp.py:48-95 | Token amounts are linear in liquidity. |
| `Lp.TokensPositive` | research/cadcad/allocator/lp.py:48-73 | A position with liquidity in a non-empty range always holds some token. |
| `ImpermanentLoss.HoldingBeatsProviding` | research/cadcad/allocator/lp.py:113-133 | For every entry, exit and range, in range or clamped at either edge, LP value is at most the held entry basket, with equality if and only if the two clamped prices agree. |
| `ImpermanentLoss.LossIsNeverAGain` | research/cadcad/allocator/lp.py:113-133 | The rounded IL is within [−10000, 0] bps for all inputs, invalid ones included, and 0 at entry. |
| `ImpermanentLoss.LossIsTheRatio` | research/cadcad/allocator/lp.py:113-133 | The published figure is (LP value / held value − 1) in bps, to half a basis point, for every entry, exit and range. |
| `ImpermanentLoss.FartherLosesMore` | research/cadcad/allocator/lp.py:113-133 | It never shrinks in size as the exit moves away from the entry, on either side and across the edges. |
| `ImpermanentLoss.FullRangeLossIs` | research/cadcad/allocator/lp.py:152-168 | Over the full range the loss is −(s1 − s0)² / (s0² + s1²). |
| `ImpermanentLoss.PublishedLossIsNeverAGain` | research/cadcad/allocator/lp.py:136-168 | The same for the tick and half-width forms, the full-range formula 2·sqrt(r)/(1+r) − 1 included. |
| `RangeWidth.PositionNeverBeatsItsTokens` | research/cadcad/allocator/lp.py:76-95 | In dollars: a position is never worth more at exit than the tokens it held at entry. |
| `RangeWidth.NarrowerLosesMoreInside` | research/cadcad/allocator/lp.py:76-133 | Equal capital, nested ranges, entry and exit inside the narrower one: the narrower range loses at least as many dollars against holding. |
| `RangeWidth.NarrowerLosesMore` | research/cadcad/allocator/lp.py:76-133 | For ranges of equal tick width on both sides of entry the same holds at every exit price, inside or outside either range. |
| `Fees.BookFeeParts` | research/cadcad/allocator/model.py:261-330 | The nine-accumulator pass over the minutes returns the split of its specification in both fee modes. |
| `Fees.BookFeeForHour` | research/cadcad/allocator/model.py:333-366 | The hour's guard and base fees, with the pull proration, match their specification. |
| `Fees.BucketsArePartition` | research/cadcad/allocator/model.py:289-318 | The three exact buckets add up to one pro-rata fee on the liquidity active at each tick. |
| `FeeBounds.ExactFeeIsProRata` | research/cadcad/allocator/model.py:308-322 | The exact total is the pro-rata fee on `book_active_l` at each minute. |
| `FeeBounds.FastFeeIsSafe` | research/cadcad/allocator/model.py:261-330 | For minutes with vol·v2 >= v1², 0 <= expansion total <= exact total <= rate · volume. |
| `FeeBounds.FastFeeGap` | research/cadcad/allocator/model.py:261-330 | With v1 = vol/P and v2 = vol/P² the expansion is short of the exact total by at most rate · vol · (L/P)³ summed over the minutes. |
| `FeeBounds.FastHourIsSafe` | research/cadcad/allocator/model.py:333-366 | In whatever bin the guard is pulled, the fast credit never exceeds the exact one: not the guard's part, not the base's, not the hour's. |
| `FeeBounds.HourSplitTotal` | research/cadcad/allocator/model.py:352-366 | Without a pull guard plus base is max(total, both + base-only): equal to the total unless clipping lifted a part. |
| `FeeBounds.SharedByLiquidity` | research/cadcad/allocator/model.py:352-366 | Without a pull guard and base share the both-in-range fee in proportion to their liquidity, and all of it. |
| `FeeBounds.FastSplitConserves` | research/cadcad/allocator/model.py:325-366 | The fast split hands out exactly its total if and only if, on the unclipped sums over the minutes, neither the shared part nor the base's own is positive, or the guard's own part makes up for whatever of these two is negative. |
| `FeeBounds.SplitWithinPoolConserves` | research/cadcad/allocator/model.py:325-366 | That is sure while the book's active liquidity is at most the pool's at every minute. |
| `FeeBounds.ClippingLiftsTheHour` | research/cadcad/allocator/model.py:325-366 | Beyond the pool it can fail: a book and two minutes whose total is 0 and whose hour is credited all the same. |
| `FeeBounds.ExactSplitConserves` | research/cadcad/allocator/model.py:352-366 | In exact mode guard plus base is the hour's total, to the cent. |
| `FeeBounds.PullOnlyCostsTheGuard` | research/cadcad/allocator/model.py:356-366 | A pull leaves the base fee unchanged, costs only the guard, and costs less the later its bin. |
| `FeeBounds.ExactFeeMonotoneSubadditive` | research/cadcad/allocator/model.py:308-322 | The exact fee grows with the book's liquidity, and merging two books never earns more than both. |
| `FeeBounds.HourFeesNonneg` | research/cadcad/allocator/model.py:333-366 | No fee part is ever negative. |
| `Fees.FirstPullBin` | research/cadcad/allocator/model.py:410-415 | The first bin over the threshold, or none if no bin is. |
| `Machine.FindPullBin` | research/cadcad/allocator/model.py:410-415 | The early-returning loop finds that bin. |
| `Machine.Portfolio.constructor` | research/cadcad/allocator/model.py:474-579 | The portfolio object starts as the initial portfolio of the policy. |
| `Machine.Portfolio.PayGas` | research/cadcad/allocator/model.py:1394-1412 | In-place gas payment takes the snapshot to `Moves.PayGas` of it. |
| `Machine.Portfolio.CloseBook` | research/cadcad/allocator/model.py:1415-1430 | In-place recall takes the snapshot to `Moves.CloseBook` of it. |
| `Machine.Portfolio.SwapDeficit` | research/cadcad/allocator/model.py:1433-1471 | In-place swap takes the snapshot to `Moves.SwapDeficit` of it. |
| `Machine.Portfolio.FundBook` | research/cadcad/allocator/model.py:1648-1721 | In-place funding takes the snapshot to `Moves.Fund` of it and returns the dollars deployed. |
| `Machine.Portfolio.Liquidate` | research/cadcad/allocator/model.py:1724-1782 | In-place liquidation takes the snapshot to `Moves.Liquidate` of it, the booked loss measured as the NAV difference. |
| `Machine.Portfolio.Earn` | research/cadcad/allocator/model.py:1785-1944 | The income half takes the snapshot to `Income.HourIncome` of it. |
| `Machine.Portfolio.ExecuteAction` | research/cadcad/allocator/model.py:1951-2153 | The executor takes the snapshot to `Executor.Execute` of it, for every action. |
| `Machine.Portfolio.RunHour` | research/cadcad/allocator/model.py:1785-2165 | One hour takes the snapshot to `Simulation.Step` of it. |
| `Machine.SimulateAndReconcile` | research/cadcad/allocator/model.py:2349-2379 | A whole simulation ends with an object in shape whose own ledger reconciles its NAV. |
| `FeeAllocator.EveryRunKeepsWeights` | research/cadcad/fee_allocator/model.py:279-395 | Over every fee_check run the weights are a probability vector with p15 = 0 and p30 within its weight cap, and NAV is initial NAV + fees − costs. |
| `FeeAllocator.StepKeepsWeights` | research/cadcad/fee_allocator/model.py:279-352 | Weights change only at rebalance hours and by at most `move_step`; p30 rises only behind a NORMAL gate and a positive edge at the cap-safe target, never past it; under HIGH it falls by exactly one step or to 0. |
| `FeeAllocator.HighGateDeRisks` | research/cadcad/fee_allocator/model.py:279-352 | While the gate is HIGH at every rebalance, p30 is its start minus `move_step` per rebalance, floored at 0. |
| `FeeAllocator.HighGateEmptiesTheSleeve` | research/cadcad/fee_allocator/model.py:279-352 | So p30 is 0 if and only if at least p30 / move_step rebalances have passed. |
| `FeeAllocator.NormIsSimplex` | research/cadcad/fee_allocator/model.py:69-73 | Normalising any weights gives a probability vector and leaves one alone. |
| `FeeAllocator.MoveIsLimited` | research/cadcad/fee_allocator/model.py:76-83 | Between two such vectors the move is the step-limited move of p30, without renormalisation. |
| `FeeAllocator.TargetRespectsShareCap` | research/cadcad/fee_allocator/model.py:309-313 | The cap-safe target weight never holds more than the share cap of the 0.30 pool. |
| `FeeAllocator.EdgeIsConcave` | research/cadcad/fee_allocator/model.py:86-115 | The switch edge is concave in the weight on (0, 1]: a mix of weights earns at least the mix of their edges. |
| `FeeAllocator.ComputeTrailingVolume` | research/cadcad/fee_allocator/model.py:118-138 | The loop averages exactly the clamped trailing window. |
| `FeeAllocator.PoolBRisk` | research/cadcad/fee_allocator/model.py:141-223 | The reasons are exactly the checks that fire, each once and in check order; there is none, and the gate is NORMAL, if and only if trailing volume, volatility, move, pulls and depeg are within their thresholds, the cap-safe target is positive and the sleeve's pool share is within its cap. |
| `FeeAllocator.MovingToTheTargetStaysNormal` | research/cadcad/fee_allocator/model.py:305-340 | The allocator's own move never trips its own gate: where the gate is NORMAL for a weight it is NORMAL for every weight up to the larger of that weight and the cap-safe target. |
| `FeeAllocator.HealthyWindowIsNotThin` | research/cadcad/fee_allocator/model.py:118-138 | A window all of whose hours reach the volume floor never counts as thin. |
| `FeeMoves.ThinWindowFires` | research/cadcad/fee_allocator/model.py:118-138 | A window all of whose hours are below the floor always counts as thin. |
| `FeeMoves.NormalGateMoves` | research/cadcad/fee_allocator/model.py:279-352 | Behind a NORMAL gate at a rebalance: a positive edge at the cap-safe target moves p30 towards it by min(move_step, what is missing); failing that a negative edge where it stands takes it down a step; failing both it stays. |
| `FeeMoves.EachPoolPays` | research/cadcad/fee_allocator/model.py:368-377 | Each hour each pool pays its own revenue (0.15 the 0.30 fees at its rate and multiplier) times capital / (capital + capacity), on the weights just moved to. |
| `FeeMoves.EdgeNeverOverstatesFees` | research/cadcad/fee_allocator/model.py:86-115 | Edge plus cost plus buffer is the 0.30 fees of the sleeve minus w times the whole 0.05 fees over the window, and never more than what the pools would pay more after the move: the 0.05 capital that stays is less crowded. |
| `FeeMoves.MoveIsChargedTwice` | research/cadcad/fee_allocator/model.py:355-365 | A move of w out of 0.05 is billed the switch rate on 2·w·NAV, while the edge counts it on w·NAV. |
| `FeeMoves.CapWeightIsExact` | research/cadcad/fee_allocator/model.py:309-312 | A sleeve of the cap weight has exactly the share cap of the pool. |
| `FeeMoves.NormKeepsProportions` | research/cadcad/fee_allocator/model.py:69-73 | Normalising keeps the proportions of the positive weights; with none positive everything is in 0.05. |
| `FeeMoves.TargetIsLargest` | research/cadcad/fee_allocator/model.py:309-313 | A weight is up to the cap-safe target if and only if it is within the weight cap and the share cap. |
| `FeeMoves.ShareCheckFires` | research/cadcad/fee_allocator/model.py:141-223 | The share check fires exactly on a sleeve whose pool share is above the cap by more than a billionth of it. |
| `FeeMoves.MeanIsBetween` | research/cadcad/fee_allocator/model.py:291-304 | The fee averages of the edge lie between the least and the most of their trailing window, each pool on its own fees. |
| `FeeMoves.AskedAtTheRow` | research/cadcad/fee_allocator/model.py:287-332 | Edge and gate are asked at the row of the step (the last one past the end) and a NAV of at least a dollar; on a steady window the edge gets its fees, the 0.30 ones at their multiplier, over the evaluation hours. |
| `FeeMoves.FixedPoliciesArrive` | research/cadcad/fee_allocator/model.py:283-290 | With a move step of at least one, all_05, all_15, all_30 and static hold their own weights after every hour. |
| `Sleeve.WStarIsTheOptimum` | research/cadcad/allocator/run_fee_break_even.py:94-97 | For every F_B, a > 0 and F_A + H > 0 the clamped closed form beats every other sleeve in [0, 1], strictly. |
| `Sleeve.WStarIsOptimalIffCostly` | research/cadcad/allocator/run_fee_break_even.py:94-97 | For F_A + H not 0 the closed form is optimal if and only if F_A + H > 0. |
| `Sleeve.FreeCapitalGoesAllIn` | research/cadcad/allocator/run_fee_break_even.py:94-97 | For F_A + H < 0 it answers 0 although 1 is strictly better. |
| `Sleeve.CapIsExact` | research/cadcad/allocator/run_split_cases.py:153-155 | Before its clamp at 1, `cap / (a (1 − cap))` has a pool share of exactly `cap`, and a sleeve respects the cap if and only if it is no larger. |
| `Sleeve.BreakEvenIsLeast` | research/cadcad/allocator/run_fee_break_even.py:77-80 | The break-even multiple is the least volume multiple at which the sleeve does not lose. |

## Left out

- Simulation.EveryRunIsOk: idle balances are bounded below by minus the slack of the swap's fit test (1e-9 in the code, a parameter here); with slack 0 they are non-negative.
- BaseSkew.SkewIsBest: maximal only up to one tie tolerance per offset scanned, because ties within the tolerance may drift; with tolerance 0 it is maximal.
- Reopening.FixReopensTheDoor: at one mark and without rates, since a rate or a moving price can add to the debt faster than the slices take it down.
- Evacuation.StandingAlarmEmptiesTheBooks: at one mark and without rates, and for an allowed loan-to-value below par that keeps the arm at the sentinel's floor: otherwise borrowing and deleveraging can undo each other for ever.
- SwapToFund.SwapFundingIsComplete: exact from non-negative legs; from a leg that an earlier swap left below zero by its slack only the bounds are stated.
- RangeWidth.NarrowerLosesMoreInside: nested ranges that are not centred are compared only while the exit is inside the narrower one; centred ranges are compared at every exit.
- Floating-point rounding: all arithmetic is over exact reals, so no statement speaks of rounding error.
- `math.log` and the conversions built on it (`tick_from_price`, `range_from_half_width`, `width_to_ticks`), and the numeric value of 1.0001.
- The scan of the two books (`_candidate`, `p_marks`): its outcome, a risk flag and a net APR per book, enters every hour as arbitrary input, so the run-level theorems hold for any scan; `Scan` models how the flag follows from the readings, not how fee, volume and volatility are read.
- The outcome of the fee-versus-IL gates enters the income half as two booleans per book, and that of the streak as one per hour; `Windows` models how they are computed and what they guarantee.
- Pause, depeg and freeze flags are inputs of the hour.
- Nested dictionaries: a book and the arm are values held in fields of the portfolio object; aliasing between a book dictionary and its list is not modelled, and the defensive deep copies are not needed.
- HODL_RECALL and RECALL_ONLY, which no policy decides; RECALL_ONLY behaves as RECALL_BOOK.
- Event records, reason strings, `last_costs`, drawdown and the other reporting-only fields of `s_metrics`.
- Scenario loading, sampling and the experiment drivers, cadCAD and pandas wiring: a step function in the order of the update blocks takes their place, and a tape is any list of marked rows.
- The fee allocator's `cum_il`, hurdle rate and report, which no rule reads.
- HTML, SVG and dashboard builders, the frontend and the agent script: formatting only.
- The Solidity vaults, hooks, accountant and lending pool: not part of this model.
