/** The budget form's live financial computation: which company costs apply to the
    event's month, the per-event share of that pool, the cost of the line items,
    and the sale price derived from a net margin on revenue. */
module Pricing {
  import opened Types
  import opened Seqs
  import opened Dates

  /** A cost applies to month `key` when it is recurring or tagged with exactly that month. */
  predicate AppliesTo(c: Cost, key: string)
  {
    c.monthYear == "" || c.monthYear == key
  }

  function AppliesToMonth(key: string): Cost -> bool
  {
    c => AppliesTo(c, key)
  }

  function Amount(c: Cost): real { c.amount }

  predicate IsFixed(c: Cost) { c.kind == Fixed }

  predicate IsVariable(c: Cost) { c.kind == Variable }

  /** The costs relevant to an event on `eventDate`: recurring ones and those of its month. */
  function RelevantCosts(costs: seq<Cost>, eventDate: string): (r: seq<Cost>)
    ensures forall c :: c in r <==> c in costs && AppliesTo(c, MonthPrefix(eventDate))
  {
    var key := MonthPrefix(eventDate);
    forall c ensures c in Filter(costs, AppliesToMonth(key)) <==> c in costs && AppliesTo(c, key) {
      FilterMembership(costs, AppliesToMonth(key), c);
    }
    Filter(costs, AppliesToMonth(key))
  }

  function RelevantFixed(costs: seq<Cost>, eventDate: string): real
  {
    Sum(Filter(RelevantCosts(costs, eventDate), IsFixed), Amount)
  }

  function RelevantVariable(costs: seq<Cost>, eventDate: string): real
  {
    Sum(Filter(RelevantCosts(costs, eventDate), IsVariable), Amount)
  }

  /** `relevantFixed + relevantVariable`. */
  function TotalRelevant(costs: seq<Cost>, eventDate: string): real
  {
    RelevantFixed(costs, eventDate) + RelevantVariable(costs, eventDate)
  }

  /** Filters by pointwise-equal predicates agree. */
  lemma {:induction false} FilterCongruent<T>(s: seq<T>, p: T -> bool, q: T -> bool)
    requires forall x :: p(x) == q(x)
    ensures Filter(s, p) == Filter(s, q)
  {
    if s != [] {
      FilterCongruent(s[..|s| - 1], p, q);
    }
  }

  /** Fixed and variable amounts are pooled: the total is the sum of every relevant amount. */
  lemma TotalRelevantIsPool(costs: seq<Cost>, eventDate: string)
    ensures TotalRelevant(costs, eventDate) == Sum(RelevantCosts(costs, eventDate), Amount)
  {
    var rel := RelevantCosts(costs, eventDate);
    SumSplit(rel, IsFixed, Amount);
    FilterCongruent(rel, Not(IsFixed), IsVariable);
  }

  /** Adding one cost record changes the pool of an event's month by its amount exactly when
      it is recurring or tagged with that month, and leaves it unchanged otherwise. */
  lemma RelevantPoolOfAddedCost(costs: seq<Cost>, c: Cost, eventDate: string)
    ensures TotalRelevant(costs + [c], eventDate)
         == TotalRelevant(costs, eventDate)
            + (if c.monthYear == "" || c.monthYear == MonthPrefix(eventDate) then c.amount else 0.0)
  {
    var key := MonthPrefix(eventDate);
    TotalRelevantIsPool(costs + [c], eventDate);
    TotalRelevantIsPool(costs, eventDate);
    FilterAppend(costs, [c], AppliesToMonth(key));
    FilterSingle(c, AppliesToMonth(key));
    SumAppend(Filter(costs, AppliesToMonth(key)), Filter([c], AppliesToMonth(key)), Amount);
    SumSingle(c, Amount);
    assert Sum([], Amount) == 0.0;
  }

  /** `workingDaysPerMonth * (occupancyRate / 100)`. */
  function ExpectedEvents(settings: SystemSettings): real
  {
    settings.workingDaysPerMonth * (settings.occupancyRate / 100.0)
  }

  /** The event's share of the month's cost pool; 0 when no events are expected. */
  function OverheadShare(totalRelevant: real, settings: SystemSettings): (r: real)
    ensures ExpectedEvents(settings) > 0.0 ==> r * ExpectedEvents(settings) == totalRelevant
    ensures ExpectedEvents(settings) <= 0.0 ==> r == 0.0
  {
    var expected := ExpectedEvents(settings);
    if expected > 0.0 then totalRelevant / expected else 0.0
  }

  /** No working days or no occupancy: the share is exactly 0, whatever the costs. */
  lemma ZeroGuard(totalRelevant: real, settings: SystemSettings)
    requires settings.workingDaysPerMonth == 0.0 || settings.occupancyRate == 0.0
    ensures OverheadShare(totalRelevant, settings) == 0.0
  {
  }

  function LineCost(item: BudgetItem): real { item.unitCost * item.quantity }

  /** `items.reduce((acc, item) => acc + item.unitCost * item.quantity, 0)`. */
  function ItemsCost(items: seq<BudgetItem>): real
  {
    Sum(items, LineCost)
  }

  /** The price for a net margin `m` on revenue: `cost / (1 - m/100)` when `m < 100`,
      the cost itself otherwise. */
  function SellingPrice(totalCost: real, margin: real): (price: real)
    ensures margin < 100.0 ==> price * (1.0 - margin / 100.0) == totalCost
    ensures margin >= 100.0 ==> price == totalCost
  {
    if margin < 100.0 then totalCost / (1.0 - margin / 100.0) else totalCost
  }

  /** `parseFloat(desiredMargin) || 0`: an unreadable margin (None) counts as 0. */
  function EffectiveMargin(parsed: Option<real>): (m: real)
    ensures parsed.None? ==> m == 0.0
    ensures parsed.Some? ==> m == parsed.value
  {
    match parsed
    case None => 0.0
    case Some(v) => v
  }

  /** The financial summary the form shows and stores at save time. */
  datatype Financials = Financials(
    fixedCostShare: real,
    eventItemsCost: real,
    totalEventCost: real,
    sellingPrice: real,
    netProfit: real,
    relevantFixed: real,
    relevantVariable: real,
    totalRelevant: real)

  /** The whole chain, recomputed whenever an input changes: the pool is every relevant
      amount, the share spreads it over the expected events (0 when none are expected),
      the items cost quantity times unit cost, and the price follows the margin rule. */
  function ComputeFinancials(items: seq<BudgetItem>, costs: seq<Cost>, settings: SystemSettings,
                             eventDate: string, marginInput: Option<real>): (f: Financials)
    ensures f.relevantFixed == RelevantFixed(costs, eventDate)
    ensures f.relevantVariable == RelevantVariable(costs, eventDate)
    ensures f.totalRelevant == f.relevantFixed + f.relevantVariable
    ensures f.totalRelevant == Sum(RelevantCosts(costs, eventDate), Amount)
    ensures ExpectedEvents(settings) > 0.0 ==> f.fixedCostShare == f.totalRelevant / ExpectedEvents(settings)
    ensures ExpectedEvents(settings) <= 0.0 ==> f.fixedCostShare == 0.0
    ensures f.eventItemsCost == Sum(items, LineCost)
    ensures f.totalEventCost == f.fixedCostShare + f.eventItemsCost
    ensures f.sellingPrice == SellingPrice(f.totalEventCost, EffectiveMargin(marginInput))
    ensures f.netProfit == f.sellingPrice - f.totalEventCost
  {
    var relevantFixed := RelevantFixed(costs, eventDate);
    var relevantVariable := RelevantVariable(costs, eventDate);
    var totalRelevant := relevantFixed + relevantVariable;
    TotalRelevantIsPool(costs, eventDate);
    var fixedCostShare := OverheadShare(totalRelevant, settings);
    var eventItemsCost := ItemsCost(items);
    var totalEventCost := fixedCostShare + eventItemsCost;
    var sellingPrice := SellingPrice(totalEventCost, EffectiveMargin(marginInput));
    Financials(fixedCostShare, eventItemsCost, totalEventCost, sellingPrice,
               sellingPrice - totalEventCost, relevantFixed, relevantVariable, totalRelevant)
  }

  /** Margin on revenue: below 100 the profit is `m` percent of the price. */
  lemma MarginIdentity(totalCost: real, margin: real)
    requires margin < 100.0
    ensures SellingPrice(totalCost, margin) - totalCost == SellingPrice(totalCost, margin) * margin / 100.0
  {
    var p := SellingPrice(totalCost, margin);
    assert p * (1.0 - margin / 100.0) == totalCost;
    assert p - totalCost == p - p * (1.0 - margin / 100.0);
  }

  /** A non-negative margin below 100 never prices below cost. */
  lemma PriceCoversCost(totalCost: real, margin: real)
    requires 0.0 <= margin < 100.0 && totalCost >= 0.0
    ensures SellingPrice(totalCost, margin) >= totalCost
  {
    var p := SellingPrice(totalCost, margin);
    var d := 1.0 - margin / 100.0;
    assert 0.0 < d <= 1.0;
    assert p * d == totalCost;
    assert p >= 0.0;
    assert p - totalCost == p * (1.0 - d);
  }

  /** A negative margin prices a positive cost below cost (a loss-leading price). */
  lemma NegativeMarginUndercuts(totalCost: real, margin: real)
    requires margin < 0.0 && totalCost > 0.0
    ensures SellingPrice(totalCost, margin) < totalCost
  {
    var p := SellingPrice(totalCost, margin);
    var d := 1.0 - margin / 100.0;
    assert d > 1.0;
    assert p * d == totalCost;
    assert p > 0.0;
    assert totalCost - p == p * (d - 1.0);
  }

  /** At or above 100 the price falls back to the cost and nothing is earned. */
  lemma MarginFallback(totalCost: real, margin: real)
    requires margin >= 100.0
    ensures SellingPrice(totalCost, margin) == totalCost
    ensures SellingPrice(totalCost, margin) - totalCost == 0.0
  {
  }

  /** The stored snapshot balances: price = share + items + profit, for every margin. */
  lemma SnapshotBalances(items: seq<BudgetItem>, costs: seq<Cost>, settings: SystemSettings,
                         eventDate: string, marginInput: Option<real>)
    ensures var f := ComputeFinancials(items, costs, settings, eventDate, marginInput);
      f.sellingPrice == f.fixedCostShare + f.eventItemsCost + f.netProfit
  {
  }

  /** The line items cost the sum of quantity times unit cost; no items cost nothing. */
  lemma ItemsCostAppend(items: seq<BudgetItem>, more: seq<BudgetItem>)
    ensures ItemsCost(items + more) == ItemsCost(items) + ItemsCost(more)
    ensures ItemsCost([]) == 0.0
  {
    SumAppend(items, more, LineCost);
  }

  /** Two units at 1000, a share of 500 and a 20% margin: cost 2500, price 3125, profit 625. */
  lemma WorkedExample()
    ensures var items := [BudgetItem("a", "Buffet", 2.0, 1000.0)];
      var total := 500.0 + ItemsCost(items);
      total == 2500.0 && SellingPrice(total, 20.0) == 3125.0 && SellingPrice(total, 20.0) - total == 625.0
  {
    var items := [BudgetItem("a", "Buffet", 2.0, 1000.0)];
    SumSingle(items[0], LineCost);
    assert items == [items[0]];
  }
}
