/** The financial report of one month: a simplified income statement (DRE) over the
    Completed events of the month, the net-margin indicator and the break-even figure. */
module Reports {
  import opened Types
  import opened Seqs
  import opened Dates
  import opened Text
  import opened Pricing
  import Dashboard

  /** The sum of every fixed cost record, of any month or none. */
  function FixedCostTotal(costs: seq<Cost>): real
  {
    Sum(Filter(costs, IsFixed), Amount)
  }

  /** A Completed budget whose event falls in the selected month (0-based, as `getMonth`)
      and year. */
  predicate InReport(b: Budget, selectedMonth: int, selectedYear: int)
  {
    b.status == Completed && EventMonth(b.eventDate) == Some(YearMonth(selectedYear, selectedMonth + 1))
  }

  function InReportOf(selectedMonth: int, selectedYear: int): Budget -> bool
  {
    (b: Budget) => InReport(b, selectedMonth, selectedYear)
  }

  function RelevantBudgets(bs: seq<Budget>, selectedMonth: int, selectedYear: int): (r: seq<Budget>)
    ensures forall b :: b in r <==> b in bs && InReport(b, selectedMonth, selectedYear)
  {
    forall b ensures b in Filter(bs, InReportOf(selectedMonth, selectedYear))
                     <==> b in bs && InReport(b, selectedMonth, selectedYear) {
      FilterMembership(bs, InReportOf(selectedMonth, selectedYear), b);
    }
    Filter(bs, InReportOf(selectedMonth, selectedYear))
  }

  /** The five lines of the statement. */
  datatype Report = Report(
    totalRevenue: real,
    totalVariableCosts: real,
    actualFixedCosts: real,
    grossProfit: real,
    netResult: real)

  /** The statement of the selected month: revenue and variable costs of its Completed
      events, gross profit, the fixed total, and the net result after both kinds of cost.
      Stated against every loaded budget (those outside the month weigh 0) and, for the
      profit, event by event (each event's sales less its variable cost). */
  function BuildReport(bs: seq<Budget>, fixedCostTotal: real, selectedMonth: int, selectedYear: int): (r: Report)
    ensures r.totalRevenue == Sum(bs, Where(InReportOf(selectedMonth, selectedYear), Dashboard.Sales))
    ensures r.totalVariableCosts == Sum(bs, Where(InReportOf(selectedMonth, selectedYear), Dashboard.VariableCost))
    ensures r.grossProfit
         == Sum(RelevantBudgets(bs, selectedMonth, selectedYear), Minus(Dashboard.Sales, Dashboard.VariableCost))
    ensures r.actualFixedCosts == fixedCostTotal
    ensures r.netResult == r.grossProfit - r.actualFixedCosts
  {
    var relevant := RelevantBudgets(bs, selectedMonth, selectedYear);
    var totalRevenue := Sum(relevant, Dashboard.Sales);
    var totalVariableCosts := Sum(relevant, Dashboard.VariableCost);
    SumFilterWhere(bs, InReportOf(selectedMonth, selectedYear), Dashboard.Sales);
    SumFilterWhere(bs, InReportOf(selectedMonth, selectedYear), Dashboard.VariableCost);
    SumMinus(relevant, Dashboard.Sales, Dashboard.VariableCost);
    var grossProfit := totalRevenue - totalVariableCosts;
    Report(totalRevenue, totalVariableCosts, fixedCostTotal, grossProfit, grossProfit - fixedCostTotal)
  }

  /** The page's report from the loaded budgets and costs. */
  function MonthReport(bs: seq<Budget>, costs: seq<Cost>, selectedMonth: int, selectedYear: int): Report
  {
    BuildReport(bs, FixedCostTotal(costs), selectedMonth, selectedYear)
  }

  /** A budget that is not Completed, or is dated outside the selected month, changes
      nothing in the report. */
  lemma OutsideBudgetIgnored(xs: seq<Budget>, b: Budget, ys: seq<Budget>, costs: seq<Cost>,
                             selectedMonth: int, selectedYear: int)
    requires !InReport(b, selectedMonth, selectedYear)
    ensures MonthReport(xs + [b] + ys, costs, selectedMonth, selectedYear)
         == MonthReport(xs + ys, costs, selectedMonth, selectedYear)
  {
    FilterSkip(xs, b, ys, InReportOf(selectedMonth, selectedYear));
  }

  /** The fixed costs are charged in full to every month, whichever is selected. */
  lemma FixedCostsEveryMonth(bs: seq<Budget>, costs: seq<Cost>, m1: int, y1: int, m2: int, y2: int)
    ensures MonthReport(bs, costs, m1, y1).actualFixedCosts == MonthReport(bs, costs, m2, y2).actualFixedCosts
    ensures MonthReport(bs, costs, m1, y1).actualFixedCosts == Sum(Filter(costs, IsFixed), Amount)
  {
  }

  /** A month without Completed events reports no revenue and no variable cost, and a net
      result of minus the fixed costs. */
  lemma EmptyMonth(bs: seq<Budget>, costs: seq<Cost>, selectedMonth: int, selectedYear: int)
    requires forall i :: 0 <= i < |bs| ==> !InReport(bs[i], selectedMonth, selectedYear)
    ensures var r := MonthReport(bs, costs, selectedMonth, selectedYear);
      r.totalRevenue == 0.0 && r.totalVariableCosts == 0.0 && r.netResult == -FixedCostTotal(costs)
  {
    FilterNone(bs, InReportOf(selectedMonth, selectedYear));
  }

  /** Adding a cost record moves the fixed total by its amount when it is fixed, and not at
      all when it is variable. */
  lemma FixedTotalOfAddedCost(costs: seq<Cost>, c: Cost)
    ensures FixedCostTotal(costs + [c]) == FixedCostTotal(costs) + (if c.kind == Fixed then c.amount else 0.0)
  {
    SumFilterStep(costs, c, IsFixed, Amount);
  }

  /** The report's revenue and variable costs for a month are the dashboard chart's revenue
      and event expenses for the same month. */
  lemma AgreesWithDashboard(bs: seq<Budget>, costs: seq<Cost>, ym: YearMonth)
    requires ym.Valid()
    ensures var r := MonthReport(bs, costs, ym.month - 1, ym.year);
      && r.totalRevenue == Dashboard.MonthRevenue(bs, ym)
      && r.totalVariableCosts == Sum(Filter(bs, Dashboard.CompletedIn(ym)), Dashboard.VariableCost)
  {
    FilterCongruent(bs, InReportOf(ym.month - 1, ym.year), Dashboard.CompletedIn(ym));
  }

  // ---- The month as the page computes it ----

  /** The local month of `new Date(date)` at a UTC offset of `utcOffsetMinutes` (less than a
      day either way): a date-only string is read as UTC midnight, so west of UTC its local
      date is the previous day, and the first of a month falls in the month before. */
  function LocalEventMonth(date: string, utcOffsetMinutes: int): Option<YearMonth>
    requires -1440 < utcOffsetMinutes < 1440
  {
    match EventMonth(date)
    case None => None
    case Some(ym) =>
      var firstOfMonth := |date| == 7 || (|date| == 10 && AllDigits(date[8..10]) && ParseDigits(date[8..10]) == 1);
      if utcOffsetMinutes < 0 && firstOfMonth then Some(AddMonths(ym, -1)) else Some(ym)
  }

  /** The filter as written: `getMonth()`/`getFullYear()` read in local time. */
  predicate InReportAsWritten(b: Budget, selectedMonth: int, selectedYear: int, utcOffsetMinutes: int)
    requires -1440 < utcOffsetMinutes < 1440
  {
    b.status == Completed
    && LocalEventMonth(b.eventDate, utcOffsetMinutes) == Some(YearMonth(selectedYear, selectedMonth + 1))
  }

  /** At or east of UTC the filter as written selects exactly what InReport selects. */
  lemma AsWrittenAgreesEastOfUtc(b: Budget, selectedMonth: int, selectedYear: int, utcOffsetMinutes: int)
    requires 0 <= utcOffsetMinutes < 1440
    ensures InReportAsWritten(b, selectedMonth, selectedYear, utcOffsetMinutes)
            <==> InReport(b, selectedMonth, selectedYear)
  {
  }

  /** The digit strings of the worked dates read as the numbers they spell. */
  lemma ParsedLiterals()
    ensures ParseDigits("2024") == 2024 && ParseDigits("03") == 3 && ParseDigits("01") == 1
  {
    ParseDigitsSnoc([], '2');
    assert [] + ['2'] == "2";
    ParseDigitsSnoc("2", '0');
    assert "2" + ['0'] == "20";
    ParseDigitsSnoc("20", '2');
    assert "20" + ['2'] == "202";
    ParseDigitsSnoc("202", '4');
    assert "202" + ['4'] == "2024";
    ParseDigitsSnoc([], '0');
    assert [] + ['0'] == "0";
    ParseDigitsSnoc("0", '3');
    assert "0" + ['3'] == "03";
    ParseDigitsSnoc("0", '1');
    assert "0" + ['1'] == "01";
  }

  lemma ParseMarchFirst2024()
    ensures EventMonth("2024-03-01") == Some(YearMonth(2024, 3))
    ensures AllDigits("2024-03-01"[8..10]) && ParseDigits("2024-03-01"[8..10]) == 1
  {
    var date := "2024-03-01";
    assert date[..4] == "2024" && date[5..7] == "03" && date[8..10] == "01";
    ParsedLiterals();
  }

  /** At UTC-3 a Completed event on 2024-03-01 is reported in February, not in March,
      while the dashboard counts it in March. */
  lemma FirstOfMonthShiftsWest()
    ensures var b := Budget(None, "Ana", "", "Casamento", "", "2024-03-01", 100, Completed, [],
                            500.0, 3000.0, 10000.0, 6500.0, 20.0, 0);
      && InReportAsWritten(b, 1, 2024, -180)
      && !InReportAsWritten(b, 2, 2024, -180)
      && InReport(b, 2, 2024)
      && Dashboard.CompletedInMonth(b, YearMonth(2024, 3))
  {
    ParseMarchFirst2024();
    assert AddMonths(YearMonth(2024, 3), -1) == YearMonth(2024, 2);
  }

  /** `netResult / totalRevenue * 100`, shown as 0 when there is no revenue. */
  function NetMargin(r: Report): (m: real)
    ensures r.totalRevenue > 0.0 ==> m * r.totalRevenue == r.netResult * 100.0
    ensures r.totalRevenue <= 0.0 ==> m == 0.0
  {
    if r.totalRevenue > 0.0 then (r.netResult / r.totalRevenue) * 100.0 else 0.0
  }

  /** With revenue and non-negative costs the net margin is at most 100%. */
  lemma NetMarginAtMostHundred(bs: seq<Budget>, fixedCostTotal: real, selectedMonth: int, selectedYear: int)
    requires fixedCostTotal >= 0.0
    requires forall i :: 0 <= i < |bs| ==> bs[i].totalVariableCost >= 0.0
    requires BuildReport(bs, fixedCostTotal, selectedMonth, selectedYear).totalRevenue > 0.0
    ensures NetMargin(BuildReport(bs, fixedCostTotal, selectedMonth, selectedYear)) <= 100.0
  {
    var r := BuildReport(bs, fixedCostTotal, selectedMonth, selectedYear);
    var relevant := RelevantBudgets(bs, selectedMonth, selectedYear);
    forall i | 0 <= i < |relevant| ensures Dashboard.VariableCost(relevant[i]) >= 0.0 {
      assert relevant[i] in bs;
    }
    SumNonNegative(relevant, Dashboard.VariableCost);
    assert r.netResult <= r.totalRevenue;
    assert r.netResult / r.totalRevenue <= 1.0;
  }

  /** The break-even figure: the contribution (gross profit) needed to cover fixed costs. */
  function BreakEven(r: Report): real
  {
    r.actualFixedCosts
  }

  /** The month breaks even exactly when its gross profit reaches the break-even figure. */
  lemma BreakEvenMeaning(bs: seq<Budget>, fixedCostTotal: real, selectedMonth: int, selectedYear: int)
    ensures var r := BuildReport(bs, fixedCostTotal, selectedMonth, selectedYear);
      r.netResult >= 0.0 <==> r.grossProfit >= BreakEven(r)
  {
  }

  /** One event with 10000 of sales and 3000 of variable cost against 2000 of fixed costs:
      gross profit 7000, net result 5000, net margin 50%. */
  lemma WorkedStatement()
    ensures var b := Budget(None, "Ana", "", "Casamento", "", "2024-03-15", 100, Completed, [],
                            500.0, 3000.0, 10000.0, 6500.0, 20.0, 0);
      var r := BuildReport([b], 2000.0, 2, 2024);
      r.grossProfit == 7000.0 && r.netResult == 5000.0 && NetMargin(r) == 50.0
  {
    var b := Budget(None, "Ana", "", "Casamento", "", "2024-03-15", 100, Completed, [],
                    500.0, 3000.0, 10000.0, 6500.0, 20.0, 0);
    var date := "2024-03-15";
    assert date[..4] == "2024" && date[5..7] == "03";
    ParsedLiterals();
    assert InReport(b, 2, 2024);
    FilterSingle(b, InReportOf(2, 2024));
    SumSingle(b, Dashboard.Sales);
    SumSingle(b, Dashboard.VariableCost);
  }
}
