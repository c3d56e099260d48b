/** The dashboard: KPI cards bucketed by status and the six-month revenue/expense series. */
module Dashboard {
  import opened Types
  import opened Seqs
  import opened Dates
  import opened Pricing

  /** The seven figures of the KPI cards. */
  datatype Stats = Stats(
    scheduled: nat,
    completed: nat,
    pending: nat,
    currentMonthRevenue: real,
    scheduledValue: real,
    completedValue: real,
    pendingValue: real)

  function HasStatus(st: BudgetStatus): Budget -> bool
  {
    (b: Budget) => b.status == st
  }

  function Sales(b: Budget): real { b.totalSales }

  function VariableCost(b: Budget): real { b.totalVariableCost }

  /** A Completed budget whose event date falls in month `ym`. */
  predicate CompletedInMonth(b: Budget, ym: YearMonth)
  {
    b.status == Completed && EventMonth(b.eventDate) == Some(ym)
  }

  function CompletedIn(ym: YearMonth): Budget -> bool
  {
    b => CompletedInMonth(b, ym)
  }

  /** The number of budgets with status `st`. */
  function StatusCount(bs: seq<Budget>, st: BudgetStatus): nat
  {
    |Filter(bs, HasStatus(st))|
  }

  /** The total sales of the budgets with status `st`. */
  function StatusValue(bs: seq<Budget>, st: BudgetStatus): real
  {
    Sum(Filter(bs, HasStatus(st)), Sales)
  }

  /** The sales of the Completed budgets dated in month `ym`. */
  function MonthRevenue(bs: seq<Budget>, ym: YearMonth): real
  {
    Sum(Filter(bs, CompletedIn(ym)), Sales)
  }

  /** The variable cost of the Completed budgets dated in `ym`, plus every company cost
      that is recurring or tagged with that month's key. */
  function MonthExpense(bs: seq<Budget>, costs: seq<Cost>, ym: YearMonth): real
    requires ym.Valid()
  {
    Sum(Filter(bs, CompletedIn(ym)), VariableCost)
    + Sum(Filter(costs, AppliesToMonth(MonthKey(ym))), Amount)
  }

  /** What the cards show, stated per bucket: Scheduled, Draft ("pending") and Completed
      counts and sales, and the current month's Completed sales. */
  function Kpis(bs: seq<Budget>, now: YearMonth): Stats
  {
    Stats(StatusCount(bs, Scheduled), StatusCount(bs, Completed), StatusCount(bs, Draft),
          MonthRevenue(bs, now),
          StatusValue(bs, Scheduled), StatusValue(bs, Completed), StatusValue(bs, Draft))
  }

  /** How one more budget moves each card: its status bucket gains one and its sales, and
      the current month's revenue gains its sales when it is Completed in that month. */
  lemma KpisStep(xs: seq<Budget>, b: Budget, now: YearMonth)
    ensures var k, k' := Kpis(xs, now), Kpis(xs + [b], now);
      && k'.scheduled == k.scheduled + (if b.status == Scheduled then 1 else 0)
      && k'.pending == k.pending + (if b.status == Draft then 1 else 0)
      && k'.completed == k.completed + (if b.status == Completed then 1 else 0)
      && k'.scheduledValue == k.scheduledValue + (if b.status == Scheduled then b.totalSales else 0.0)
      && k'.pendingValue == k.pendingValue + (if b.status == Draft then b.totalSales else 0.0)
      && k'.completedValue == k.completedValue + (if b.status == Completed then b.totalSales else 0.0)
      && k'.currentMonthRevenue == k.currentMonthRevenue
           + (if b.status == Completed && EventMonth(b.eventDate) == Some(now) then b.totalSales else 0.0)
  {
    FilterStep(xs, b, HasStatus(Scheduled));
    FilterStep(xs, b, HasStatus(Draft));
    FilterStep(xs, b, HasStatus(Completed));
    SumFilterStep(xs, b, HasStatus(Scheduled), Sales);
    SumFilterStep(xs, b, HasStatus(Draft), Sales);
    SumFilterStep(xs, b, HasStatus(Completed), Sales);
    SumFilterStep(xs, b, CompletedIn(now), Sales);
  }

  /** KpisStep at position `i` of a list. */
  lemma KpisStepAt(bs: seq<Budget>, i: int, now: YearMonth)
    requires 0 <= i < |bs|
    ensures var b, k, k' := bs[i], Kpis(bs[..i], now), Kpis(bs[..i + 1], now);
      && k'.scheduled == k.scheduled + (if b.status == Scheduled then 1 else 0)
      && k'.pending == k.pending + (if b.status == Draft then 1 else 0)
      && k'.completed == k.completed + (if b.status == Completed then 1 else 0)
      && k'.scheduledValue == k.scheduledValue + (if b.status == Scheduled then b.totalSales else 0.0)
      && k'.pendingValue == k.pendingValue + (if b.status == Draft then b.totalSales else 0.0)
      && k'.completedValue == k.completedValue + (if b.status == Completed then b.totalSales else 0.0)
      && k'.currentMonthRevenue == k.currentMonthRevenue
           + (if b.status == Completed && EventMonth(b.eventDate) == Some(now) then b.totalSales else 0.0)
  {
    assert bs[..i + 1] == bs[..i] + [bs[i]];
    KpisStep(bs[..i], bs[i], now);
  }

  /** The `forEach` over the budgets that increments the seven counters. */
  method BucketStats(bs: seq<Budget>, now: YearMonth) returns (stats: Stats)
    ensures stats == Kpis(bs, now)
  {
    var scheduled, completed, pending := 0, 0, 0;
    var revenue, scheduledValue, completedValue, pendingValue := 0.0, 0.0, 0.0, 0.0;
    var i := 0;
    while i < |bs|
      invariant 0 <= i <= |bs|
      invariant Stats(scheduled, completed, pending, revenue, scheduledValue, completedValue, pendingValue)
                == Kpis(bs[..i], now)
    {
      var b := bs[i];
      KpisStepAt(bs, i, now);
      if b.status == Scheduled {
        scheduled := scheduled + 1;
        scheduledValue := scheduledValue + b.totalSales;
      }
      if b.status == Draft {
        pending := pending + 1;
        pendingValue := pendingValue + b.totalSales;
      }
      if b.status == Completed {
        completed := completed + 1;
        completedValue := completedValue + b.totalSales;
        if EventMonth(b.eventDate) == Some(now) {
          revenue := revenue + b.totalSales;
        }
      }
      i := i + 1;
    }
    assert bs[..|bs|] == bs;
    stats := Stats(scheduled, completed, pending, revenue, scheduledValue, completedValue, pendingValue);
  }

  /** A Declined budget, wherever it sits and whatever its amounts, changes no card. */
  lemma DeclinedIgnored(xs: seq<Budget>, b: Budget, ys: seq<Budget>, now: YearMonth)
    requires b.status == Declined
    ensures Kpis(xs + [b] + ys, now) == Kpis(xs + ys, now)
  {
    FilterSkip(xs, b, ys, HasStatus(Scheduled));
    FilterSkip(xs, b, ys, HasStatus(Draft));
    FilterSkip(xs, b, ys, HasStatus(Completed));
    FilterSkip(xs, b, ys, CompletedIn(now));
  }

  /** The three counters together count exactly the budgets that are not Declined. */
  lemma {:induction false} CountsCoverNonDeclined(bs: seq<Budget>, now: YearMonth)
    ensures var s := Kpis(bs, now);
      s.scheduled + s.pending + s.completed == |Filter(bs, Not(HasStatus(Declined)))|
  {
    if bs != [] {
      var init := bs[..|bs| - 1];
      var b := bs[|bs| - 1];
      assert bs == init + [b];
      CountsCoverNonDeclined(init, now);
      FilterStep(init, b, HasStatus(Scheduled));
      FilterStep(init, b, HasStatus(Draft));
      FilterStep(init, b, HasStatus(Completed));
      FilterStep(init, b, Not(HasStatus(Declined)));
    }
  }

  /** The current month's revenue is the part of the Completed total dated this month:
      the Completed total is it plus the Completed sales of all other months. */
  lemma CurrentMonthWithinCompleted(bs: seq<Budget>, now: YearMonth)
    ensures var s := Kpis(bs, now);
      s.completedValue
        == s.currentMonthRevenue
           + Sum(Filter(Filter(bs, HasStatus(Completed)), Not(EventIn(now))), Sales)
  {
    var done := Filter(bs, HasStatus(Completed));
    SumSplit(done, EventIn(now), Sales);
    FilterFilter(bs, HasStatus(Completed), EventIn(now));
    FilterCongruent(bs, And(HasStatus(Completed), EventIn(now)), CompletedIn(now));
    assert Filter(done, EventIn(now)) == Filter(bs, CompletedIn(now));
  }

  /** With non-negative sales the current month's revenue never exceeds the Completed total. */
  lemma CurrentMonthBounded(bs: seq<Budget>, now: YearMonth)
    requires forall i :: 0 <= i < |bs| ==> bs[i].totalSales >= 0.0
    ensures Kpis(bs, now).currentMonthRevenue <= Kpis(bs, now).completedValue
  {
    CurrentMonthWithinCompleted(bs, now);
    var rest := Filter(Filter(bs, HasStatus(Completed)), Not(EventIn(now)));
    forall i | 0 <= i < |rest| ensures Sales(rest[i]) >= 0.0 {
      assert rest[i] in rest;
    }
    SumNonNegative(rest, Sales);
  }

  /** The event date falls in month `ym` (any status). */
  function EventIn(ym: YearMonth): Budget -> bool
  {
    (b: Budget) => EventMonth(b.eventDate) == Some(ym)
  }

  // ---- Six-month series ----

  /** The six months of the chart, oldest first: `new Date(y, m - i, 1)` for i = 5..0. */
  function SeriesMonths(now: YearMonth): (r: seq<YearMonth>)
    requires now.Valid()
    ensures |r| == 6
  {
    seq(6, k => AddMonths(now, k - 5))
  }

  /** Position k of the series lies k - 5 months from the current month. */
  lemma SeriesMonthIndex(now: YearMonth, k: int)
    requires now.Valid() && 0 <= k < 6
    ensures SeriesMonths(now)[k].Valid()
    ensures MonthIndex(SeriesMonths(now)[k]) == MonthIndex(now) + k - 5
  {
    AddMonthsIndex(now, k - 5);
  }

  /** The series ends at the current month and its months are consecutive, with the year
      carried across January; so its six months are distinct. */
  lemma SeriesMonthsConsecutive(now: YearMonth)
    requires now.Valid()
    ensures var r := SeriesMonths(now);
      && r[5] == now
      && (forall k :: 0 <= k < 5 ==> r[k + 1] == AddMonths(r[k], 1))
      && (forall k, j :: 0 <= k < j < 6 ==> MonthIndex(r[k]) < MonthIndex(r[j]))
  {
    var r := SeriesMonths(now);
    SeriesMonthIndex(now, 5);
    MonthIndexInjective(r[5], now);
    forall k | 0 <= k < 5 ensures r[k + 1] == AddMonths(r[k], 1) {
      SeriesMonthIndex(now, k);
      SeriesMonthIndex(now, k + 1);
      AddMonthsIndex(r[k], 1);
      MonthIndexInjective(r[k + 1], AddMonths(r[k], 1));
    }
    forall k, j | 0 <= k < j < 6 ensures MonthIndex(r[k]) < MonthIndex(r[j]) {
      SeriesMonthIndex(now, k);
      SeriesMonthIndex(now, j);
    }
  }

  /** The `for` loop from five months ago to the current month, pushing a label, the
      month's revenue and the month's expenses. */
  method MonthlySeries(bs: seq<Budget>, costs: seq<Cost>, now: YearMonth)
    returns (labels: seq<YearMonth>, revenueData: seq<real>, expenseData: seq<real>)
    requires now.Valid()
    ensures labels == SeriesMonths(now)
    ensures |revenueData| == 6 && |expenseData| == 6
    ensures forall k :: 0 <= k < 6 ==> revenueData[k] == MonthRevenue(bs, labels[k])
    ensures forall k :: 0 <= k < 6 ==> expenseData[k] == MonthExpense(bs, costs, labels[k])
  {
    labels, revenueData, expenseData := [], [], [];
    var i := 5;
    while i >= 0
      invariant -1 <= i <= 5
      invariant |labels| == 5 - i && |revenueData| == 5 - i && |expenseData| == 5 - i
      invariant forall k :: 0 <= k < |labels| ==> labels[k] == AddMonths(now, k - 5)
      invariant forall k :: 0 <= k < |labels| ==> revenueData[k] == MonthRevenue(bs, labels[k])
      invariant forall k :: 0 <= k < |labels| ==> expenseData[k] == MonthExpense(bs, costs, labels[k])
    {
      var d := AddMonths(now, -i);
      var monthYearStr := MonthKey(d);
      var monthRevenue := Sum(Filter(bs, CompletedIn(d)), Sales);
      var eventExpenses := Sum(Filter(bs, CompletedIn(d)), VariableCost);
      var companyExpenses := Sum(Filter(costs, AppliesToMonth(monthYearStr)), Amount);
      labels := labels + [d];
      revenueData := revenueData + [monthRevenue];
      expenseData := expenseData + [eventExpenses + companyExpenses];
      i := i - 1;
    }
    forall k | 0 <= k < 6
      ensures labels[k] == SeriesMonths(now)[k]
    {
    }
  }

  /** A recurring cost (no month) adds its amount to the expenses of every month. */
  lemma RecurringCostEveryMonth(bs: seq<Budget>, costs: seq<Cost>, c: Cost, ym: YearMonth)
    requires ym.Valid() && c.IsRecurring()
    ensures MonthExpense(bs, costs + [c], ym) == MonthExpense(bs, costs, ym) + c.amount
  {
    SumFilterStep(costs, c, AppliesToMonth(MonthKey(ym)), Amount);
  }

  /** A cost tagged with one month adds to that month's expenses only. */
  lemma TaggedCostOneMonth(bs: seq<Budget>, costs: seq<Cost>, c: Cost, ym: YearMonth)
    requires ym.Valid() && !c.IsRecurring()
    ensures MonthExpense(bs, costs + [c], ym)
            == MonthExpense(bs, costs, ym) + (if c.monthYear == MonthKey(ym) then c.amount else 0.0)
  {
    SumFilterStep(costs, c, AppliesToMonth(MonthKey(ym)), Amount);
  }

  /** A budget that is not Completed moves neither revenue nor expenses of any month. */
  lemma OpenBudgetNoSeriesEffect(bs: seq<Budget>, costs: seq<Cost>, b: Budget, ym: YearMonth)
    requires ym.Valid() && b.status != Completed
    ensures MonthRevenue(bs + [b], ym) == MonthRevenue(bs, ym)
    ensures MonthExpense(bs + [b], costs, ym) == MonthExpense(bs, costs, ym)
  {
    FilterStep(bs, b, CompletedIn(ym));
  }

  /** `processDashboardData`: the cards and the series from the loaded budgets and costs.
      The cards read the current month in UTC (`getUTCMonth`) and the series in local time
      (`getMonth`): the same instant gives `nowUtc` and `nowLocal`, which differ near a
      month boundary. The last bar equals the month card when the two readings agree. */
  method ProcessDashboardData(bs: seq<Budget>, costs: seq<Cost>, nowUtc: YearMonth, nowLocal: YearMonth)
    returns (stats: Stats, labels: seq<YearMonth>, revenueData: seq<real>, expenseData: seq<real>)
    requires nowLocal.Valid()
    ensures stats == Kpis(bs, nowUtc)
    ensures labels == SeriesMonths(nowLocal) && |revenueData| == 6 && |expenseData| == 6
    ensures forall k :: 0 <= k < 6 ==> revenueData[k] == MonthRevenue(bs, labels[k])
    ensures forall k :: 0 <= k < 6 ==> expenseData[k] == MonthExpense(bs, costs, labels[k])
    ensures nowUtc == nowLocal ==> revenueData[5] == stats.currentMonthRevenue
  {
    stats := BucketStats(bs, nowUtc);
    labels, revenueData, expenseData := MonthlySeries(bs, costs, nowLocal);
    SeriesMonthsConsecutive(nowLocal);
  }

  /** When the UTC and local readings fall in different months, a Completed event of the
      UTC month counts on the month card and not in the last bar of the series. */
  lemma CardAndLastBarDiverge(b: Budget, costs: seq<Cost>, nowUtc: YearMonth, nowLocal: YearMonth)
    requires nowLocal.Valid() && nowUtc != nowLocal
    requires b.status == Completed && EventMonth(b.eventDate) == Some(nowUtc)
    ensures Kpis([b], nowUtc).currentMonthRevenue == b.totalSales
    ensures MonthRevenue([b], SeriesMonths(nowLocal)[5]) == 0.0
  {
    FilterSingle(b, CompletedIn(nowUtc));
    SumSingle(b, Sales);
    SeriesMonthsConsecutive(nowLocal);
    FilterSingle(b, CompletedIn(nowLocal));
  }
}
