/** The costing arithmetic of the storage layer: summing the per-recipe cost of the
    ingredients used, the fixed miscellaneous and labor overheads, the markup from a
    margin percentage, and the rounded figures handed back to the caller. */
module Costing {
  import opened Records

  const MiscRate: real := 0.50
  const LaborRate: real := 0.45
  /** The margin the calculator uses when its margin field is left empty. */
  const DefaultMargin: real := 150.0
  /** The multiplier `add_recipe` hard-codes when it is given no costing data. */
  const FallbackMultiplier: real := 2.5

  /** The unrounded figures of one costing. */
  datatype Breakdown = Breakdown(
    ingredientCost: real, misc: real, labor: real, total: real, selling: real, profit: real)

  /** `1 + margin_percentage / 100` */
  function Markup(margin: real): real {
    1.0 + margin / 100.0
  }

  /** Overheads, total, selling price and profit for an ingredient cost and a
      selling-price multiplier. */
  function Price(ingredientCost: real, multiplier: real): (b: Breakdown)
    ensures b.ingredientCost == ingredientCost
    ensures b.misc == 0.5 * ingredientCost && b.labor == 0.45 * ingredientCost
    ensures b.total == 1.95 * ingredientCost
    ensures b.selling == b.total * multiplier
    ensures b.profit == b.total * (multiplier - 1.0)
  {
    var misc := ingredientCost * MiscRate;
    var labor := ingredientCost * LaborRate;
    var total := ingredientCost + misc + labor;
    var selling := total * multiplier;
    Breakdown(ingredientCost, misc, labor, total, selling, selling - total)
  }

  /** With a margin percentage the profit is that percentage of the total cost. */
  lemma MarginProfit(ingredientCost: real, margin: real)
    ensures Price(ingredientCost, Markup(margin)).profit
         == Price(ingredientCost, Markup(margin)).total * margin / 100.0
  {
  }

  /** Non-negative costs and a non-negative margin never give a loss. */
  lemma ProfitNonNegative(ingredientCost: real, margin: real)
    requires ingredientCost >= 0.0 && margin >= 0.0
    ensures Price(ingredientCost, Markup(margin)).profit >= 0.0
    ensures Price(ingredientCost, Markup(margin)).selling >= Price(ingredientCost, Markup(margin)).total
  {
    var t := 1.95 * ingredientCost;
    assert t >= 0.0;
    assert t * (margin / 100.0) >= 0.0;
  }

  /** The default margin of 150 is the same markup as the hard-coded 2.5. */
  lemma DefaultMarginIsFallback(ingredientCost: real)
    ensures Markup(DefaultMargin) == FallbackMultiplier
    ensures Price(ingredientCost, Markup(DefaultMargin)) == Price(ingredientCost, FallbackMultiplier)
  {
  }

  /** An ingredient cost of 100 at margin 150: 50, 45, 195, 487.50 and 292.50. */
  lemma HundredAtDefaultMargin()
    ensures Price(100.0, Markup(DefaultMargin)) == Breakdown(100.0, 50.0, 45.0, 195.0, 487.5, 292.5)
  {
  }

  /** `float(ingredient.get("Cost per Recipe", 0))`, None where float() raises. */
  function CostOf(rt: Runtime, ing: Record): Option<real> {
    FloatField(rt, ing, CostKey)
  }

  /** `sum(float(ing.get("Cost per Recipe", 0)) for ing in ingredients_used)`,
      added from the left; None where one of the conversions raises. */
  function SumCosts(rt: Runtime, ings: seq<Record>): Option<real> {
    if ings == [] then Some(0.0)
    else
      match (SumCosts(rt, ings[..|ings| - 1]), CostOf(rt, ings[|ings| - 1]))
      case (Some(s), Some(c)) => Some(s + c)
      case _ => None
  }

  /** The sum fails exactly when some ingredient's cost is not a number. */
  lemma {:induction false} SumCostsFailsIff(rt: Runtime, ings: seq<Record>)
    ensures SumCosts(rt, ings).None? <==> exists i :: 0 <= i < |ings| && CostOf(rt, ings[i]).None?
  {
    if ings != [] {
      var init := ings[..|ings| - 1];
      SumCostsFailsIff(rt, init);
      if SumCosts(rt, init).None? {
        var i :| 0 <= i < |init| && CostOf(rt, init[i]).None?;
        assert ings[i] == init[i];
      }
      forall i | 0 <= i < |init| ensures ings[i] == init[i] { }
    }
  }

  /** Non-negative costs add up to a non-negative total. */
  lemma {:induction false} SumCostsNonNegative(rt: Runtime, ings: seq<Record>)
    requires forall i :: 0 <= i < |ings| && CostOf(rt, ings[i]).Some? ==> CostOf(rt, ings[i]).value >= 0.0
    ensures SumCosts(rt, ings).Some? ==> SumCosts(rt, ings).value >= 0.0
  {
    if ings != [] {
      var init := ings[..|ings| - 1];
      forall i | 0 <= i < |init| ensures init[i] == ings[i] { }
      SumCostsNonNegative(rt, init);
    }
  }

  /** The dictionary `calculate_recipe_cost` returns when it succeeds. */
  datatype CostResult = CostResult(
    totalIngredientCost: real, misc: real, labor: real, total: real,
    selling: real, profit: real, margin: real)

  /** Every figure rounded to two decimals; the margin is passed through unrounded. */
  function Rounded(rt: Runtime, b: Breakdown, margin: real): CostResult {
    CostResult(
      rt.round(b.ingredientCost, 2), rt.round(b.misc, 2), rt.round(b.labor, 2),
      rt.round(b.total, 2), rt.round(b.selling, 2), rt.round(b.profit, 2), margin)
  }

  /** The computing part of `calculate_recipe_cost`; None stands for the empty
      dictionary returned when a cost is not a number. */
  function Calculate(rt: Runtime, ings: seq<Record>, margin: real): (r: Option<CostResult>)
    ensures r.None? <==> exists i :: 0 <= i < |ings| && CostOf(rt, ings[i]).None?
    ensures r.Some? ==> SumCosts(rt, ings).Some?
    ensures r.Some? ==> r.value == Rounded(rt, Price(SumCosts(rt, ings).value, Markup(margin)), margin)
  {
    SumCostsFailsIff(rt, ings);
    match SumCosts(rt, ings)
    case None => None
    case Some(t) => Some(Rounded(rt, Price(t, Markup(margin)), margin))
  }

  /** The reported figures, each rounded to cents, for an ingredient cost `s`:
      s, 0.5 s, 0.45 s, the total 1.95 s, the total marked up by the margin
      percentage, and that percentage of the total as profit. The margin is
      reported as given. */
  lemma CalculatedFigures(rt: Runtime, ings: seq<Record>, margin: real, s: real)
    requires SumCosts(rt, ings) == Some(s)
    ensures Calculate(rt, ings, margin).Some?
    ensures Calculate(rt, ings, margin).value.totalIngredientCost == rt.round(s, 2)
    ensures Calculate(rt, ings, margin).value.misc == rt.round(0.5 * s, 2)
    ensures Calculate(rt, ings, margin).value.labor == rt.round(0.45 * s, 2)
    ensures Calculate(rt, ings, margin).value.total == rt.round(1.95 * s, 2)
    ensures Calculate(rt, ings, margin).value.selling == rt.round(1.95 * s * (1.0 + margin / 100.0), 2)
    ensures Calculate(rt, ings, margin).value.profit == rt.round(1.95 * s * margin / 100.0, 2)
    ensures Calculate(rt, ings, margin).value.margin == margin
  {
    SumCostsFailsIff(rt, ings);
    var b := Price(s, Markup(margin));
    MarginProfit(s, margin);
    assert b.selling == 1.95 * s * (1.0 + margin / 100.0);
    assert b.profit == 1.95 * s * margin / 100.0;
  }

  /** With non-negative costs and margin, the reported profit is non-negative,
      for any rounding that sends non-negative numbers to non-negative numbers. */
  lemma CalculatedProfitNonNegative(rt: Runtime, ings: seq<Record>, margin: real)
    requires margin >= 0.0
    requires forall i :: 0 <= i < |ings| && CostOf(rt, ings[i]).Some? ==> CostOf(rt, ings[i]).value >= 0.0
    requires forall x: real :: x >= 0.0 ==> rt.round(x, 2) >= 0.0
    ensures Calculate(rt, ings, margin).Some? ==> Calculate(rt, ings, margin).value.profit >= 0.0
  {
    SumCostsNonNegative(rt, ings);
    if SumCosts(rt, ings).Some? {
      ProfitNonNegative(SumCosts(rt, ings).value, margin);
    }
  }
}
