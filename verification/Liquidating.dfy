/** What a liquidation takes and who bears the rest, in the arm's own dollars. */
module Liquidating {
  import opened RealMath
  import opened Lp
  import opened State
  import opened Moves

  /** An amount with the liquidator's bonus on top. */
  function WithBonus(p: Params, x: real): real { x * (1.0 + p.liquidationBonusBps / BPS) }

  /** What so much seized collateral repays. */
  function WithoutBonus(p: Params, x: real): real
    requires p.liquidationBonusBps >= 0.0
  {
    x / (1.0 + p.liquidationBonusBps / BPS)
  }

  function BonusOn(p: Params, x: real): real { x * (p.liquidationBonusBps / BPS) }

  lemma BonusInverts(p: Params, x: real)
    requires p.liquidationBonusBps >= 0.0
    ensures WithBonus(p, WithoutBonus(p, x)) == x == WithoutBonus(p, WithBonus(p, x))
    ensures WithBonus(p, x) == x + BonusOn(p, x)
  {
    MulDiv(x, 1.0 + p.liquidationBonusBps / BPS);
  }

  /** Underwater: a debt above dust that the collateral, at the liquidation LTV, no longer supports. */
  ghost predicate Underwater(p: Params, arm: Arm, price: real) {
    arm.debt > 1.0 && p.lltv * Usd(arm.nvda, price) < arm.debt
  }

  lemma UnderwaterIsLiquidatable(p: Params, arm: Arm, price: real)
    requires arm.nvda >= 0.0 && price > 0.0
    ensures Liquidatable(p, arm, price) <==> Underwater(p, arm, price)
  {
    UsdNonneg(arm.nvda, price);
    hide Usd;
    assert CollateralValue(arm, price) == Usd(arm.nvda, price);
    hide CollateralValue;
    if arm.debt > 1.0 { BelowOne(p.lltv, Usd(arm.nvda, price), arm.debt); }
    hide HealthOf;
  }

  lemma BelowOne(lltv: real, value: real, debt: real)
    requires debt > 0.0
    ensures HealthOf(lltv, value, debt) < 1.0 <==> lltv * value < debt
  {
    DivCompare(1.0, 1.0, lltv * value, debt);
  }

  /** A solvent seizure: the collateral covers the debt and the bonus on it. */
  lemma SolventSeizure(p: Params, arm: Arm, price: real)
    requires arm.nvda >= 0.0 && price > 0.0 && arm.debt > 0.0 && arm.lent >= 0.0 && p.liquidationBonusBps >= 0.0
    requires Usd(arm.nvda, price) >= WithBonus(p, arm.debt)
    ensures var r := LiquidatedArm(p, arm, price);
      r == Arm(r.nvda, 0.0, arm.lent, arm.badDebt) && Repaid(p, arm, price) == arm.debt
      && Usd(r.nvda, price) == Usd(arm.nvda, price) - WithBonus(p, arm.debt)
  {
    var owed := WithBonus(p, arm.debt);
    MulPos(arm.debt, 1.0 + p.liquidationBonusBps / BPS);
    MulDiv(arm.debt, 1.0 + p.liquidationBonusBps / BPS);
    CollateralLeft(arm.nvda, price, Usd(arm.nvda, price), owed);
    hide Usd;
    assert Seized(p, arm, price) == owed && Repaid(p, arm, price) == arm.debt;
  }

  /** An insolvent one: all of the collateral goes, and repays what it is worth without the bonus. */
  lemma InsolventSeizure(p: Params, arm: Arm, price: real)
    requires arm.nvda >= 0.0 && price > 0.0 && arm.debt > 0.0 && arm.lent >= 0.0 && p.liquidationBonusBps >= 0.0
    requires Usd(arm.nvda, price) < WithBonus(p, arm.debt)
    ensures var r, short := LiquidatedArm(p, arm, price), arm.debt - WithoutBonus(p, Usd(arm.nvda, price));
      Repaid(p, arm, price) == WithoutBonus(p, Usd(arm.nvda, price)) && short > 0.0
      && r == Arm(0.0, 0.0, Max(0.0, arm.lent - short), arm.badDebt + Max(0.0, short - arm.lent))
  {
    var k := 1.0 + p.liquidationBonusBps / BPS;
    UsdNonneg(arm.nvda, price);
    DivCompare(Usd(arm.nvda, price), k, arm.debt, 1.0);
    assert 0.0 / k == 0.0;
    hide Usd;
    var cv := Usd(arm.nvda, price);
    assert CollateralValue(arm, price) == cv && Seized(p, arm, price) == cv;
    if cv > 0.0 {
      assert Max(0.0, cv - cv) / cv == 0.0;
      assert arm.nvda * 0.0 == 0.0;
    }
  }

  lemma OnlyTheArm(p: Params, pf: Pf, env: Env)
    requires |pf.books| == 2 && MarkedEnv(env) && p.liquidationBonusBps >= 0.0
    requires pf.arm.nvda >= 0.0 && pf.arm.lent >= 0.0
    ensures var r := Liquidate(p, pf, env);
      r == pf.(arm := r.arm, cum := pf.cum.(liquidationLoss := r.cum.liquidationLoss))
      && (r != pf <==> Underwater(p, pf.arm, env.price))
      && (Underwater(p, pf.arm, env.price) ==>
        r.arm == LiquidatedArm(p, pf.arm, env.price)
        && r.cum.liquidationLoss - pf.cum.liquidationLoss == BonusOn(p, Repaid(p, pf.arm, env.price)))
  {
    hide LiquidatedArm, Nav, Liquidatable, Repaid, Underwater, Usd;
    MarkedPrice(env.sqrtP, env.price);
    LiquidationIsExact(p, pf, env);
    UnderwaterIsLiquidatable(p, pf.arm, env.price);
    if Underwater(p, pf.arm, env.price) { WithDebt(p, pf.arm, env.price); }
  }

  lemma WithDebt(p: Params, arm: Arm, price: real)
    requires Underwater(p, arm, price)
    ensures arm.debt > 0.0
  {
  }

  /**
   * Liquidation, by what it takes. Nothing happens above water; below it the debt is gone. Collateral worth the
   * debt and the bonus pays both and nobody else loses anything; less than that goes entirely, and the lend arm
   * first and bad debt after it bear what it does not repay. The booked loss is the bonus on what was repaid.
   */
  lemma LiquidationTakes(p: Params, pf: Pf, env: Env)
    requires |pf.books| == 2 && MarkedEnv(env) && p.liquidationBonusBps >= 0.0
    requires pf.arm.nvda >= 0.0 && pf.arm.lent >= 0.0
    ensures var r := Liquidate(p, pf, env);
      var arm, value, owed := pf.arm, Usd(pf.arm.nvda, env.price), WithBonus(p, pf.arm.debt);
      var loss, short := r.cum.liquidationLoss - pf.cum.liquidationLoss, arm.debt - WithoutBonus(p, value);
      (r != pf <==> Underwater(p, arm, env.price))
      && r == pf.(arm := r.arm, cum := pf.cum.(liquidationLoss := r.cum.liquidationLoss))
      && (Underwater(p, arm, env.price) && value >= owed ==>
        r.arm == Arm(r.arm.nvda, 0.0, arm.lent, arm.badDebt) && Usd(r.arm.nvda, env.price) == value - owed
        && loss == BonusOn(p, arm.debt))
      && (Underwater(p, arm, env.price) && value < owed ==>
        r.arm == Arm(0.0, 0.0, Max(0.0, arm.lent - short), arm.badDebt + Max(0.0, short - arm.lent))
        && loss == BonusOn(p, WithoutBonus(p, value)))
  {
    hide LiquidatedArm, Liquidate, Usd, Repaid, WithBonus, WithoutBonus, BonusOn;
    var arm := pf.arm;
    MarkedPrice(env.sqrtP, env.price);
    OnlyTheArm(p, pf, env);
    if Underwater(p, arm, env.price) {
      if Usd(arm.nvda, env.price) >= WithBonus(p, arm.debt) {
        SolventSeizure(p, arm, env.price);
      } else {
        InsolventSeizure(p, arm, env.price);
      }
    }
  }
}
