/** The portfolio: two books, idle inventory, the lend/collateral/borrow arm and the cumulative ledger. */
module State {
  import opened RealMath
  import opened Lp

  const DUST_USD := 1.0
  const DUST_NVDA := 0.001
  const HOURS_PER_YEAR := 8_760.0

  /** A slot of the two books: 0 is book A (0.05%), 1 is book B (0.30%). */
  type Slot = i: nat | i < 2

  datatype Policy = Hodl | AlwaysArms | RiskOnly | RiskFeeIl | AlwaysA | AlwaysB | Allocator

  /** Parameters that steer the machine; rates are annual, everything in bps is out of 10,000. */
  datatype Params = Params(
    policy: Policy,
    feePipsA: real, feePipsB: real, exactFees: bool,
    initialNavUsd: real, bookCapitalUsd: real, guardShare: real,
    baseWidthTicks: int, guardWidthTicks: int, startBook: int,
    ltvBps: real, maxLtvBps: real, hardCapBps: real,
    morphoShareBps: real, nvdaStepBps: real, bookStepBps: real,
    switchBufferBps: real, maxGuardPulls: int, guardPullThresholdBps: real,
    guardCooldownHours: int, guardRearmDelayHours: int,
    armUsdgApr: real, armNvdaApr: real, armBorrowApr: real, nvdaAprIsNet: bool,
    armAbsCapUsd: real, armRelCapBps: real, lendAbsCapUsd: real, lendRelCapBps: real,
    borrowLiquidityUsd: real, maxBorrowPerCallUsd: real,
    lltv: real, minHealthFactor: real, sentinelEnabled: bool, maxBorrowAprBps: real, deleverBps: real,
    liquidationBonusBps: real,
    gasCostUsd: real, switchCostBps: real, recenterGasMultiplier: real, recenterThresholdBps: real,
    swapFunding: bool, swapCostBps: real, swapSlack: real, fundBookBps: real,
    inventorySkew: bool, skewMaxTicks: int, skewTolerance: real,
    surplusSweep: bool, inventoryReserveUsd: real, inventoryReservePct: real,
    surplusNvdaMinUsd: real, surplusUsdgMinUsd: real, surplusBorrow: bool,
    opportunityWindowHours: int, opportunityCheckHours: int,
    opportunityBufferBps: real, opportunityMinNetAprBps: real,
    allocatorIntervalHours: int, warmupHours: int, fixEmptyBookGuard: bool)

  datatype Book = Book(
    deployed: bool,
    baseL: real, guardL: real,
    baseLo: int, baseHi: int, guardLo: int, guardHi: int,
    entryTick: int,
    fees: real,
    guardPresent: bool,
    lastPull: int,
    targetBaseL: real, targetGuardL: real,
    cumFees: real)

  datatype Arm = Arm(nvda: real, debt: real, lent: real, badDebt: real)

  datatype Cum = Cum(
    fees: real, guardFees: real, armInterest: real, borrowCost: real, nvdaYield: real,
    gas: real, switchCost: real, swapCost: real, liquidationLoss: real,
    guardPulls: nat, actions: nat)

  datatype Mode = ArmsMode | BooksMode

  datatype Pf = Pf(active: Slot, books: seq<Book>, idleUsdg: real, idleNvda: real, arm: Arm, mode: Mode, cum: Cum)

  /** The market row of an hour: the tick, the raw square-root price, and USDG per NVDA. */
  datatype Env = Env(tick: int, sqrtP: real, price: real)

  ghost predicate MarkedEnv(env: Env) { Marked(env.sqrtP, env.price) }

  predicate HasPositions(b: Book) {
    b.deployed && (b.baseL > 0.0 || (b.guardPresent && b.guardL > 0.0))
  }

  /** A sleeve is counted only while it has liquidity. */
  function SleeveValue(l: real, s: real, lo: int, hi: int): real
    requires s > 0.0
  {
    if l > 0.0 then PositionValue(l, s, lo, hi) else 0.0
  }

  function SleeveUsdg(l: real, s: real, lo: int, hi: int): real {
    if l > 0.0 then TokenUsdg(l, s, lo, hi) else 0.0
  }

  function SleeveNvda(l: real, s: real, lo: int, hi: int): real {
    if l > 0.0 then TokenNvda(l, s, lo, hi) else 0.0
  }

  /** The guard's liquidity as far as it counts. */
  function GuardInPlace(b: Book): real { if b.guardPresent then b.guardL else 0.0 }

  function BookValue(b: Book, s: real): real
    requires s > 0.0
  {
    if !b.deployed then b.fees
    else b.fees + SleeveValue(b.baseL, s, b.baseLo, b.baseHi)
                + SleeveValue(GuardInPlace(b), s, b.guardLo, b.guardHi)
  }

  function BookUsdg(b: Book, s: real): real {
    if !b.deployed then 0.0
    else SleeveUsdg(b.baseL, s, b.baseLo, b.baseHi) + SleeveUsdg(GuardInPlace(b), s, b.guardLo, b.guardHi)
  }

  function BookNvda(b: Book, s: real): real {
    if !b.deployed then 0.0
    else SleeveNvda(b.baseL, s, b.baseLo, b.baseHi) + SleeveNvda(GuardInPlace(b), s, b.guardLo, b.guardHi)
  }

  function ArmEquity(arm: Arm, price: real): real {
    Usd(arm.nvda, price) + arm.lent - arm.debt - arm.badDebt
  }

  function Nav(pf: Pf, env: Env): real
    requires |pf.books| == 2 && env.sqrtP > 0.0
  {
    pf.idleUsdg + Usd(pf.idleNvda, env.price)
    + BookValue(pf.books[0], env.sqrtP) + BookValue(pf.books[1], env.sqrtP)
    + ArmEquity(pf.arm, env.price)
  }

  function ModeOf(arm: Arm): Mode {
    if arm.nvda > 0.0 || arm.debt > 0.0 || arm.lent > 0.0 || arm.badDebt > 0.0 then ArmsMode else BooksMode
  }

  /** A cap of so many bps of the NAV. */
  function RelativeCap(bps: real, nav: real): real { bps * nav / BPS }

  function CollateralCap(p: Params, pf: Pf, env: Env): real
    requires |pf.books| == 2 && env.sqrtP > 0.0
  {
    Max(0.0, Min(p.armAbsCapUsd, RelativeCap(p.armRelCapBps, Nav(pf, env))))
  }

  function LendCap(p: Params, pf: Pf, env: Env): real
    requires |pf.books| == 2 && env.sqrtP > 0.0
  {
    Max(0.0, Min(p.lendAbsCapUsd, RelativeCap(p.lendRelCapBps, Nav(pf, env))))
  }

  /** What the carry terms of the ledger add up to, less the liquidation losses. */
  function Booked(cum: Cum): real {
    cum.fees + cum.armInterest + cum.nvdaYield - cum.borrowCost
    - cum.gas - cum.switchCost - cum.swapCost - cum.liquidationLoss
  }

  /** A book is worth its uncollected fees plus its two tokens at the mark. */
  lemma BookIsItsTokens(b: Book, env: Env)
    requires MarkedEnv(env)
    ensures BookValue(b, env.sqrtP) == b.fees + BookUsdg(b, env.sqrtP) + Usd(BookNvda(b, env.sqrtP), env.price)
  {
    var s := env.sqrtP;
    hide PositionValue, TokenUsdg, TokenNvda, Usd;
    TokensAreTheValue(b.baseL, s, env.price, b.baseLo, b.baseHi);
    TokensAreTheValue(b.guardL, s, env.price, b.guardLo, b.guardHi);
    UsdAdds(SleeveNvda(b.baseL, s, b.baseLo, b.baseHi), SleeveNvda(GuardInPlace(b), s, b.guardLo, b.guardHi), env.price);
    UsdAdds(0.0, 0.0, env.price);
  }

  lemma FeesAddValue(b: Book, fees: real, s: real)
    requires s > 0.0
    ensures BookValue(b.(fees := fees), s) == BookValue(b, s) + (fees - b.fees)
  {
  }

  lemma BookTokensNonneg(b: Book, s: real)
    ensures BookUsdg(b, s) >= 0.0 && BookNvda(b, s) >= 0.0
  {
    hide TokenUsdg, TokenNvda;
    TokensNonneg(b.baseL, s, b.baseLo, b.baseHi);
    TokensNonneg(b.guardL, s, b.guardLo, b.guardHi);
  }
}
