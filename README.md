# Buffet pricing and event tracking — verified model of the business rules

The application prices buffet events and tracks them from quote to completion. A budget
lists line items (quantity × unit cost). The company's recurring and monthly costs are
pooled and shared out over the events the month is expected to hold, and a net margin on
revenue turns the event's total cost into a selling price. Budgets move through the
statuses Draft ("Orçado"), Scheduled, Completed and Declined. The dashboard, the monthly
report, the cost page, the budget list and the calendar aggregate and present them.

This project models the logic embedded in those pages and proves its properties:

- `Pricing` — the financial chain of the budget form: relevant costs, overhead share,
  items cost, and the sale price from the margin.
- `BudgetForm` — the phone mask, the line-item operations (the `BudgetEditor` class holds
  the form state), the pre-fill of an edited or duplicated budget, and save-time
  validation with the financial snapshot.
- `Dashboard` — the KPI loop over the budgets and the six-month revenue/expense loop.
- `Reports` — the monthly simplified income statement, the net margin and the break-even
  figure.
- `Costs` — the per-month grouping loop, adding a cost, the template-group rules, the
  in-place cost sort and the split by type.
- `BudgetList` — the status and search filter, the in-place date sort and the status badge.
- `Calendar` — the month grid loops, the events of a day, the today marker and the chip
  colours.
- Shared: `Types` (the stored records), `Seqs` (filter/reduce folds), `Text` (digit
  stripping, decimal rendering, lower-casing, `includes`, `trim`, character-by-character comparison),
  `Dates` (month keys, month offsets, the Gregorian calendar, ISO dates) and `Sorting`
  (an in-place sort of an array by a string key, greatest first).

Money and quantities are exact `real`s. Dates are ISO strings. The current date, the
selected month, fresh ids and the loaded records are parameters. The settings used when
none are stored are `Types.DefaultSettings` (occupancy 70%, 22 working days,
src/services/firestore.ts:17).

## Model

| member | source | states |
|---|---|---|
| Text.DigitsOfMeaning | src/pages/BudgetForm.tsx:15 | `replace(/\D/g, '')` is the subsequence of the input that keeps every copy of every digit and nothing else, so the digits in their order |
| Text.DigitsOfAppend | src/pages/BudgetForm.tsx:15 | stripping a concatenation strips each part |
| Text.DigitsOfDigits | src/pages/BudgetForm.tsx:15 | a string of digits is left as it is |
| Text.DigitsOf | src/pages/BudgetForm.tsx:15 | defines the strip of every non-digit (`replace(/\D/g, '')`); its own contract gives a digits-only result no longer than the input, and DigitsOfMeaning states it is exactly the input's digits in order |
| Text.NatToString | src/pages/Dashboard.tsx:81 | `String(n)` is a non-empty digit string without a leading zero |
| Text.ParseNatToString | src/pages/Dashboard.tsx:81 | reading back `String(n)` gives n |
| Text.Pad2RoundTrip | src/pages/Dashboard.tsx:81 | the two-digit `padStart(2, '0')` rendering of 0..99 has length 2 and parses back to the number |
| Text.FourDigitsCanonical | src/pages/Dashboard.tsx:81 | a four-digit year from 1000 is exactly what `String(year)` renders |
| Text.TwoDigitsCanonical | src/pages/Dashboard.tsx:81 | any two-digit string is the `padStart(2, '0')` rendering of its value |
| Text.ToLower | src/pages/BudgetList.tsx:29-32 | `toLowerCase` keeps the length and lower-cases each character |
| Text.ToLowerIdempotent | src/pages/BudgetList.tsx:29-32 | lower-casing twice is lower-casing once |
| Text.Compare | src/pages/Costs.tsx:223 | string comparison is a three-way result that is 0 exactly for equal strings |
| Text.CompareAntisymmetric | src/pages/Costs.tsx:223 | swapping the operands negates the comparison |
| Text.CompareTransitive | src/pages/Costs.tsx:223 | "not less than" is transitive, so a sorted list is ordered between any two positions |
| Text.Contains | src/pages/BudgetList.tsx:31-32 | defines `includes`: the searched text occurs in the string at some offset (the empty text at every offset); the search filter's meaning is stated by BudgetList.FilterMeaning |
| Text.IsBlank | src/pages/Costs.tsx:25 | defines `trim() === ''`: every character of the name is whitespace, the empty name included; Costs.NewCategory states that exactly such names are refused |
| Dates.MonthPrefix | src/pages/BudgetForm.tsx:93 | `substring(0, 7)` is a prefix of the date, 7 long or the whole date |
| Dates.EventMonth | src/pages/Dashboard.tsx:86-89 | the month read from an event date is a valid month 1..12 of a year 0..9999, and for years from 1000 its `YYYY-MM` key is the date's own first seven characters, so the dashboard's month of a budget is the month key its costs are matched with (src/pages/BudgetForm.tsx:93-94) |
| Dates.MonthKeyShape | src/pages/Dashboard.tsx:81 | the `YYYY-MM` key ends in a hyphen and the month's two digits, which read back as the month |
| Dates.AddMonths | src/pages/Dashboard.tsx:75 | `new Date(y, m - i, 1)` always lands on a valid month |
| Dates.AddMonthsIndex | src/pages/Dashboard.tsx:75 | moving by `delta` months moves the absolute month count by exactly `delta`, across years |
| Dates.NextMonth | src/pages/Dashboard.tsx:75 | one month after December is January of the next year, otherwise the next month of the same year |
| Dates.AddMonthsZero | src/pages/Dashboard.tsx:75 | an offset of 0 is the current month |
| Dates.AddMonthsCompose | src/pages/Dashboard.tsx:75 | offsets add up |
| Dates.MonthIndexInjective | src/pages/Dashboard.tsx:75 | distinct months have distinct absolute month counts |
| Dates.DaysInMonth | src/components/Calendar.tsx:33-35 | `new Date(y, m + 1, 0).getDate()` is 28..31, and February has 29 days exactly in leap years |
| Dates.DaysBeforeMonthStep | src/components/Calendar.tsx:33-35 | the month lengths add up to the start of the next month, and to the year length in December |
| Dates.DaysBeforeYearStep | src/components/Calendar.tsx:32 | consecutive years start a year length apart, before and after year 1 |
| Dates.LeapFormulaStep | src/components/Calendar.tsx:32 | the closed Gregorian count (leap rule of 4/100/400) grows by one year length per year |
| Dates.DaysBeforeYearClosedForm | src/components/Calendar.tsx:32 | counting year by year agrees with the closed Gregorian formula for every year |
| Dates.DayNumberOfNextMonth | src/components/Calendar.tsx:32-35 | the 1st of the next month is the month length after the 1st of this one |
| Dates.JanFirstWeekday | src/components/Calendar.tsx:36 | counted from the Thursday 1970-01-01, the first of January of any year falls on a weekday 0..6 |
| Dates.Weekday | src/components/Calendar.tsx:36 | `getDay()` is in 0..6 |
| Dates.WeekdayOfNextMonth | src/components/Calendar.tsx:32-36 | the next month starts on this month's first weekday plus its length, mod 7 |
| Dates.EpochIsThursday | src/components/Calendar.tsx:36 | counting from 0001-01-01, a Monday, puts 1970-01-01 on a Thursday (weekday 4) |
| Dates.JanFirstMatchesDayCount | src/components/Calendar.tsx:36 | the epoch-anchored weekday of every first of January agrees with the count from 0001-01-01 |
| Dates.WeekdayMatchesDayCount | src/components/Calendar.tsx:32-36 | `getDay()` of every date agrees with the count from 0001-01-01 |
| Dates.IsoDate | src/components/Calendar.tsx:78 | `toISOString().slice(0, 10)` is ten characters long |
| Dates.IsoDateWhole | src/components/Calendar.tsx:78 | for years 0..9999 the slice keeps the whole `YYYY-MM-DD` date |
| Dates.ExpandedYearDatesCollide | src/components/Calendar.tsx:78 | from year 10000 on, the slice of the signed six-digit year stops at the month, so all days of a month share one date string |
| Dates.IsoDateDay | src/components/Calendar.tsx:78 | in years 0..9999 the last two characters of the ISO date of day d read back as d |
| Pricing.RelevantCosts | src/pages/BudgetForm.tsx:93-94 | a cost is relevant exactly when it has no month or its month is the event date's first 7 characters |
| Pricing.RelevantFixed | src/pages/BudgetForm.tsx:96 | defines the relevant fixed figure: the amounts of the relevant costs of type fixed; TotalRelevantIsPool and ComputeFinancials state how it enters the pool |
| Pricing.RelevantVariable | src/pages/BudgetForm.tsx:97 | defines the relevant variable figure: the amounts of the relevant costs of type variable; TotalRelevantIsPool and ComputeFinancials state how it enters the pool |
| Pricing.TotalRelevant | src/pages/BudgetForm.tsx:96-98 | defines the month's cost pool as relevant fixed plus relevant variable; TotalRelevantIsPool states it is the sum of every relevant amount |
| Pricing.ExpectedEvents | src/pages/BudgetForm.tsx:100 | defines the expected events as working days times occupancy over 100; OverheadShare's contract divides the pool by it, and ZeroGuard states that no days or no occupancy give a share of 0 |
| Pricing.TotalRelevantIsPool | src/pages/BudgetForm.tsx:96-98 | relevant fixed plus relevant variable is the sum of all relevant amounts |
| Pricing.RelevantPoolOfAddedCost | src/pages/BudgetForm.tsx:93-98 | a new cost record moves the event's pool by its amount when it is recurring or of the event's month, and not otherwise |
| Pricing.OverheadShare | src/pages/BudgetForm.tsx:100-101 | share × expected events = pool when expected events > 0, and the share is 0 otherwise |
| Pricing.ZeroGuard | src/pages/BudgetForm.tsx:100-101 | zero working days or zero occupancy give a share of exactly 0 |
| Pricing.SellingPrice | src/pages/BudgetForm.tsx:106 | price × (1 − m/100) = cost when m < 100, and price = cost when m ≥ 100 |
| Pricing.EffectiveMargin | src/pages/BudgetForm.tsx:105 | an unreadable margin counts as 0, a readable one as itself |
| Pricing.ComputeFinancials | src/pages/BudgetForm.tsx:92-113 | the whole chain: relevant fixed and relevant variable (the calculation panel's figures), their sum as the pool, equal to the sum of every relevant amount; the share is the pool over the expected events when some are expected and 0 otherwise; then items cost, total cost, price and profit = price − cost |
| Pricing.MarginIdentity | src/pages/BudgetForm.tsx:106-107 | below 100 the profit is m% of the price |
| Pricing.PriceCoversCost | src/pages/BudgetForm.tsx:106 | a margin in [0, 100) never prices a non-negative cost below cost |
| Pricing.NegativeMarginUndercuts | src/pages/BudgetForm.tsx:106 | a negative margin prices a positive cost below cost |
| Pricing.MarginFallback | src/pages/BudgetForm.tsx:106-107 | at m ≥ 100 the price is the cost and the profit 0 |
| Pricing.SnapshotBalances | src/pages/BudgetForm.tsx:103-107 | price = share + items cost + profit, for every margin |
| Pricing.LineCost | src/pages/BudgetForm.tsx:102 | defines one line's cost as unit cost times quantity; the line-edit lemmas of BudgetForm state how each edit moves the total |
| Pricing.ItemsCost | src/pages/BudgetForm.tsx:102 | defines the items cost as the sum of the line costs; ItemsCostAppend states it is additive and 0 for no items |
| Pricing.ItemsCostAppend | src/pages/BudgetForm.tsx:102 | the items cost is additive over concatenation and 0 for no items |
| Pricing.WorkedExample | src/pages/BudgetForm.tsx:102-107 | 2 × 1000 of items plus a 500 share at 20% cost 2500, sell for 3125 and earn 625 |
| Pricing.FilterCongruent | src/pages/BudgetForm.tsx:96-97 | filters by pointwise-equal conditions agree (`type === 'variable'` is "not fixed") |
| BudgetForm.FormatPhoneShape | src/pages/BudgetForm.tsx:13-19 | the two replacements give the digits as they are below 3 digits, `(dd) rest` from 3, and a hyphen before the last 4 from 7 |
| BudgetForm.FormatPhone | src/pages/BudgetForm.tsx:13-19 | defines the mask: empty stays empty, otherwise strip the non-digits, then the area-code step, then the hyphen step; its meaning is stated by FormatPhoneShape and the FormatPhone lemmas below |
| BudgetForm.MidMaskSteps | src/pages/BudgetForm.tsx:16-17 | with three to six digits the area code is parenthesised and the hyphen step leaves the result alone |
| BudgetForm.LongMaskSteps | src/pages/BudgetForm.tsx:16-17 | with seven or more digits the area code is parenthesised and a hyphen precedes the last four digits |
| BudgetForm.AreaCodeDigits | src/pages/BudgetForm.tsx:16 | the `(dd) ` prefix carries exactly the area-code digits |
| BudgetForm.MaskedMidDigits | src/pages/BudgetForm.tsx:16 | stripping a 3–6 digit mask gives the digits back |
| BudgetForm.MaskedLongDigits | src/pages/BudgetForm.tsx:16-17 | stripping a mask of 7 or more digits gives the digits back |
| BudgetForm.FormatPhoneKeepsDigits | src/pages/BudgetForm.tsx:13-19 | the digits of the masked phone are the digits typed |
| BudgetForm.FormatPhoneDigitsOnly | src/pages/BudgetForm.tsx:13-19 | the mask depends only on the digits of its input |
| BudgetForm.FormatPhoneIdempotent | src/pages/BudgetForm.tsx:13-19 | masking twice equals masking once |
| BudgetForm.FormatPhoneMarks | src/pages/BudgetForm.tsx:16-17 | `(dd) ` appears exactly with ≥ 3 digits, and the hyphen 5th from the end exactly with ≥ 7 digits |
| BudgetForm.WithDuplicate | src/pages/BudgetForm.tsx:116-121 | duplicating adds exactly one line |
| BudgetForm.WithoutIndex | src/pages/BudgetForm.tsx:127 | removing an existing position drops one line; an index out of range changes nothing |
| BudgetForm.BlankItem | src/pages/BudgetForm.tsx:115 | defines the line `addItem` appends: the given id, no name, quantity 1, unit cost 0; BlankItemCostsNothing states it adds nothing to the items cost |
| BudgetForm.SetField | src/pages/BudgetForm.tsx:122-126 | defines the edit of one field of a line with every other field kept; RenameKeepsCost states that a rename leaves the items cost unchanged, and BudgetEditor.UpdateItem that only the edited line changes |
| BudgetForm.FromTemplate | src/pages/BudgetForm.tsx:137-142 | defines one loaded line: a new id, the template's name and unit cost, quantity 1; FromTemplates and TemplatesCost state the lines a group adds and their cost |
| BudgetForm.FromTemplates | src/pages/BudgetForm.tsx:137-142 | one line per template, in order, with the template's name and cost, quantity 1 and the given id |
| BudgetForm.FindCategory | src/pages/BudgetForm.tsx:134 | `find` returns the first group with the id sought (no earlier group has it); none is found only when no group has that id |
| BudgetForm.BlankItemCostsNothing | src/pages/BudgetForm.tsx:115 | the added blank line leaves the items cost unchanged |
| BudgetForm.RemoveUndoesDuplicate | src/pages/BudgetForm.tsx:116-127 | removing the copy right after the original restores the list |
| BudgetForm.DuplicateCost | src/pages/BudgetForm.tsx:116-121 | duplicating line i adds that line's cost once more |
| BudgetForm.RemoveCost | src/pages/BudgetForm.tsx:127 | removing line i subtracts exactly its cost |
| BudgetForm.TemplatesCost | src/pages/BudgetForm.tsx:137-143 | loading a group adds the sum of its unit costs |
| BudgetForm.RenameKeepsCost | src/pages/BudgetForm.tsx:122-126 | editing a line's name leaves the items cost unchanged |
| BudgetForm.SameCostsSameTotal | src/pages/BudgetForm.tsx:102 | lists with equal line costs position by position have equal items costs |
| BudgetForm.ReloadedMargin | src/pages/BudgetForm.tsx:73 | a stored margin of 0 reloads as 20, any other as itself |
| BudgetForm.Prefill | src/pages/BudgetForm.tsx:64-84 | editing reloads every field as stored; duplicating prefixes `[CÓPIA] `, resets to Draft and gives each line its fresh id |
| BudgetForm.DuplicateIsolatesItems | src/pages/BudgetForm.tsx:72 | a duplicate's lines share no id with the original's and cost the same in total |
| BudgetForm.DuplicateIdsDistinct | src/pages/BudgetForm.tsx:72 | with pairwise distinct fresh ids, the duplicate's lines have pairwise distinct ids |
| BudgetForm.SaveBudget | src/pages/BudgetForm.tsx:146-163 | refused exactly when client name, event name or date is empty; otherwise every stored field: the form's values, the phone's digits, the snapshot figures, the effective margin, the save time, and no id when duplicating |
| BudgetForm.SavedSnapshotBalances | src/pages/BudgetForm.tsx:157-160 | a saved budget satisfies sales = share + variable cost + profit |
| BudgetForm.SavedPhoneIsTypedDigits | src/pages/BudgetForm.tsx:154 | the stored phone is the digits the user typed into the masked field |
| BudgetForm.BudgetEditor.constructor | src/pages/BudgetForm.tsx:29-42 | a new form is empty, Draft, with margin 20 and the default settings |
| BudgetForm.BudgetEditor.Init | src/pages/BudgetForm.tsx:54-90 | stores the loaded records and pre-fills from a found budget, otherwise keeps the form |
| BudgetForm.BudgetEditor.SetPhone | src/pages/BudgetForm.tsx:187 | the phone field holds the masked text; nothing else changes |
| BudgetForm.BudgetEditor.SelectCategory | src/pages/BudgetForm.tsx:207 | the group picker stores the chosen group id; the form, costs, settings and groups are unchanged |
| BudgetForm.BudgetEditor.AddItem | src/pages/BudgetForm.tsx:115 | appends one blank line; nothing else changes |
| BudgetForm.BudgetEditor.DuplicateItem | src/pages/BudgetForm.tsx:116-121 | the copy, under the new id, sits at i + 1 and the other lines keep their order |
| BudgetForm.BudgetEditor.UpdateItem | src/pages/BudgetForm.tsx:122-126 | only the given field of line i changes |
| BudgetForm.BudgetEditor.RemoveItem | src/pages/BudgetForm.tsx:127 | exactly position i is dropped |
| BudgetForm.BudgetEditor.LoadCategoryItems | src/pages/BudgetForm.tsx:129-144 | no selection or an unknown group changes nothing; otherwise the group's lines are appended |
| BudgetForm.BudgetEditor.Save | src/pages/BudgetForm.tsx:146-163 | the save of the current form with the live financials, whose snapshot balances |
| Dashboard.BucketStats | src/pages/Dashboard.tsx:46-67 | the counter loop yields per-status counts and sales and the current month's Completed sales |
| Dashboard.Kpis | src/pages/Dashboard.tsx:46-67 | defines the cards per status bucket: count and sales of Scheduled, Draft and Completed budgets, and the Completed sales of the current UTC month; BucketStats proves the loop computes it and KpisStep states each budget's effect |
| Dashboard.DeclinedIgnored | src/pages/Dashboard.tsx:49-66 | a Declined budget changes no card, whatever its amounts |
| Dashboard.CountsCoverNonDeclined | src/pages/Dashboard.tsx:49-66 | scheduled + pending + completed is the number of budgets that are not Declined |
| Dashboard.CurrentMonthWithinCompleted | src/pages/Dashboard.tsx:58-64 | the Completed total is this month's revenue plus the Completed sales of the other months |
| Dashboard.CurrentMonthBounded | src/pages/Dashboard.tsx:58-64 | with non-negative sales, this month's revenue never exceeds the Completed total |
| Dashboard.SeriesMonths | src/pages/Dashboard.tsx:74-75 | the chart has six months |
| Dashboard.SeriesMonthIndex | src/pages/Dashboard.tsx:74-75 | position k is k − 5 months from now |
| Dashboard.SeriesMonthsConsecutive | src/pages/Dashboard.tsx:74-81 | the six months end at the current month, are consecutive across the year boundary, and are distinct |
| Dashboard.MonthRevenue | src/pages/Dashboard.tsx:84-92 | defines a month's revenue bar: the sales of the Completed budgets dated in that month; MonthlySeries proves the loop computes it for each of the six months |
| Dashboard.MonthExpense | src/pages/Dashboard.tsx:95-108 | defines a month's expense bar: the variable cost of that month's Completed budgets plus every recurring cost and every cost tagged with the month; RecurringCostEveryMonth and TaggedCostOneMonth state where a cost counts |
| Dashboard.KpisStep | src/pages/Dashboard.tsx:49-66 | one more budget raises exactly the counter and value of its own status, and the month's revenue only when it is Completed in the current month |
| Dashboard.KpisStepAt | src/pages/Dashboard.tsx:49-66 | the same step, stated for the loop's position i over the budget list |
| Dashboard.MonthlySeries | src/pages/Dashboard.tsx:70-109 | the loop pushes six labels oldest first, each month's Completed sales, and its Completed variable cost plus the recurring or same-month company costs |
| Dashboard.RecurringCostEveryMonth | src/pages/Dashboard.tsx:104-108 | a recurring cost adds its amount to the expenses of every month |
| Dashboard.TaggedCostOneMonth | src/pages/Dashboard.tsx:104-106 | a cost tagged with a month adds to that month only |
| Dashboard.OpenBudgetNoSeriesEffect | src/pages/Dashboard.tsx:84-102 | a budget that is not Completed moves no revenue and no expense |
| Dashboard.ProcessDashboardData | src/pages/Dashboard.tsx:42-118 | the cards for the UTC current month and the series ending at the local current month; the last bar equals the month card when both readings fall in the same month |
| Dashboard.CardAndLastBarDiverge | src/pages/Dashboard.tsx:62-75 | when the UTC and local months differ, a Completed event of the UTC month counts on the card and not in the last bar |
| Reports.RelevantBudgets | src/pages/Reports.tsx:36-41 | exactly the Completed budgets of the selected month and year |
| Reports.BuildReport | src/pages/Reports.tsx:43-54 | revenue and variable costs are the sums over all loaded budgets with those outside the report counted as 0; gross profit is the sum of each reported event's sales less its variable cost; the net result is that less the fixed total |
| Reports.FixedCostTotal | src/pages/Reports.tsx:27-29 | defines the fixed-cost total: the amount of every fixed record, of any month or none; FixedCostsEveryMonth states it is the same for every selected month and FixedTotalOfAddedCost how one more record moves it |
| Reports.InReport | src/pages/Reports.tsx:36-41 | defines the intended selection: Completed and dated in the selected year and 0-based month, read from the date's own text; RelevantBudgets states the report holds exactly these budgets |
| Reports.MonthReport | src/pages/Reports.tsx:43-54 | defines the page's `Report` value (revenue, variable costs, fixed costs, gross profit, net result) from the loaded budgets and costs; BuildReport states each figure and OutsideBudgetIgnored and EmptyMonth what leaves it unchanged |
| Reports.OutsideBudgetIgnored | src/pages/Reports.tsx:36-41 | a budget not Completed, or of another month, changes nothing |
| Reports.FixedCostsEveryMonth | src/pages/Reports.tsx:26-29 | the fixed total is every fixed cost of any month, the same whatever month is selected |
| Reports.EmptyMonth | src/pages/Reports.tsx:43-46 | a month without Completed events shows 0 revenue, 0 variable cost and minus the fixed costs |
| Reports.FixedTotalOfAddedCost | src/pages/Reports.tsx:27-29 | a new fixed cost raises the fixed total by its amount; a variable one leaves it |
| Reports.AgreesWithDashboard | src/pages/Reports.tsx:36-44 | a month's report revenue and variable costs equal the dashboard chart's for that month |
| Reports.LocalEventMonth | src/pages/Reports.tsx:37-40 | defines the month `getMonth()`/`getFullYear()` read from a date-only string parsed as UTC midnight at a given offset: the previous month for the 1st west of UTC, the date's own month otherwise; FirstOfMonthShiftsWest exhibits the shift |
| Reports.InReportAsWritten | src/pages/Reports.tsx:37-40 | defines the selection as written, with the local month; AsWrittenAgreesEastOfUtc states it agrees with InReport at or east of UTC |
| Reports.AsWrittenAgreesEastOfUtc | src/pages/Reports.tsx:37-40 | at or east of UTC the local-time filter selects exactly the corrected set |
| Reports.ParseMarchFirst2024 | src/pages/Reports.tsx:37 | the date 2024-03-01 reads as March 2024, day 1 |
| Reports.FirstOfMonthShiftsWest | src/pages/Reports.tsx:37-40 | at UTC−3 the filter as written reports an event of 2024-03-01 in February, not March |
| Reports.NetMargin | src/pages/Reports.tsx:121 | margin × revenue = net result × 100 when there is revenue, and 0 otherwise |
| Reports.NetMarginAtMostHundred | src/pages/Reports.tsx:121 | with non-negative costs the net margin is at most 100% |
| Reports.BreakEven | src/pages/Reports.tsx:128-129 | defines the break-even figure shown as the fixed-cost total; BreakEvenMeaning states the net result is non-negative exactly when gross profit reaches it |
| Reports.BreakEvenMeaning | src/pages/Reports.tsx:128-129 | the net result is non-negative exactly when gross profit reaches the break-even figure |
| Reports.WorkedStatement | src/pages/Reports.tsx:43-46 | 10000 of sales, 3000 variable and 2000 fixed give 7000 gross, 5000 net and a 50% margin |
| Costs.GroupingStep | src/pages/Costs.tsx:141-145 | one push keeps "each key holds the costs with that key, in order" |
| Costs.GroupKey | src/pages/Costs.tsx:142 | defines a cost's group key: its month tag, or `recorrente` when it has none; EachCostOneGroup and AddedCostJoinsItsGroup state each cost lands in its own key's group only |
| Costs.GroupByMonth | src/pages/Costs.tsx:139-147 | a group per key met, holding exactly the costs with that key in input order; each key listed once |
| Seqs.FilterMultiplicity | src/pages/Costs.tsx:139-147 | a group keeps every copy of a cost of its key and none of other keys |
| Costs.EachCostOneGroup | src/pages/Costs.tsx:139-147 | every cost is in exactly the group of its key (month or `recorrente`), and groups keep input order |
| Costs.AddedCostJoinsItsGroup | src/pages/Costs.tsx:141-145 | a new cost becomes the last entry of its own group and changes no other group |
| Costs.NewCost | src/pages/Costs.tsx:149-158 | nothing without name or amount; otherwise one cost of the section's type and the form's month |
| Costs.NewCostRelevance | src/pages/Costs.tsx:149-158 | the new cost applies to an event month exactly when its month is empty or that month |
| Costs.NewCategory | src/pages/Costs.tsx:24-31 | refused exactly for a blank name; otherwise a group of that name with no items |
| Costs.AddTemplateItem | src/pages/Costs.tsx:33-52 | nothing without a form, name or cost, or for an unknown group; otherwise the old items and one new item |
| Costs.DeleteTemplateItem | src/pages/Costs.tsx:54-63 | unknown group means no change; otherwise every copy of each item with another id, none with the deleted id, in order |
| Costs.DeleteUndoesAdd | src/pages/Costs.tsx:33-63 | deleting a freshly added item restores the group |
| Costs.TypePartition | src/pages/Costs.tsx:254-255 | fixed and variable lists split the costs: each cost in one part, totals adding up |
| Costs.SortCosts | src/pages/Costs.tsx:223 | the cost array is rearranged in place into non-increasing month order |
| Costs.RecurringLast | src/pages/Costs.tsx:223 | in the sorted list months never increase and recurring costs come last |
| Sorting.DescendingAllPairs | src/pages/BudgetList.tsx:41 | adjacent order gives order between any two positions |
| Sorting.Swap | src/pages/Costs.tsx:223 | exchanging two entries only rearranges the array |
| Sorting.SwapStep | src/pages/Costs.tsx:223 | swapping the out-of-order pair at j − 1, j moves the one unordered place one step left and keeps every other adjacent pair of the first i + 1 entries in order |
| Sorting.InsertAt | src/pages/Costs.tsx:223 | inserting one entry extends the sorted prefix and only rearranges the array |
| Sorting.SortDescendingBy | src/pages/BudgetList.tsx:41 | the in-place sort leaves keys non-increasing and the same elements |
| BudgetList.FilterMeaning | src/pages/BudgetList.tsx:23-36 | a budget is listed exactly when it was loaded, has the chosen status, and matches the search case-insensitively |
| BudgetList.FilterBudgets | src/pages/BudgetList.tsx:23-36 | defines the filter effect: by status when one is chosen, then by the lower-cased search text over client and event name when it is not empty; FilterMeaning states a budget is listed exactly when it passes both and FilterKeepsOrder that the order is kept |
| BudgetList.FilterKeepsOrder | src/pages/BudgetList.tsx:23-36 | the list is a subsequence of the loaded list |
| BudgetList.NoFilterIdentity | src/pages/BudgetList.tsx:24-35 | no status and no search leave the list unchanged |
| BudgetList.SearchIgnoresCase | src/pages/BudgetList.tsx:28-33 | searching for a text or its lower-case form lists the same budgets |
| BudgetList.SortByDateDescending | src/pages/BudgetList.tsx:41 | the loaded budgets are rearranged in place newest event first |
| BudgetList.NewestFirst | src/pages/BudgetList.tsx:41 | each listed budget is dated no earlier than any after it |
| BudgetList.StatusColor | src/pages/BudgetList.tsx:62-69 | the default gray badge is exactly Draft's |
| BudgetList.StatusColorsDistinct | src/pages/BudgetList.tsx:62-69 | each status has its own badge class |
| Calendar.StartDayOfWeek | src/components/Calendar.tsx:32-36 | the first weekday is in 0..6 |
| Calendar.Grid | src/components/Calendar.tsx:38-50 | the grid holds start-weekday blanks plus one cell per day, and fits in six weeks |
| Calendar.GenerateDays | src/components/Calendar.tsx:29-51 | the two loops build exactly that grid |
| Calendar.Cells | src/components/Calendar.tsx:38-50 | a grid with `start` leading blanks and `dim` days has exactly start + dim cells |
| Calendar.PushCells | src/components/Calendar.tsx:38-50 | the blank loop and then the day loop push exactly those cells, in order |
| Calendar.BlanksAt | src/components/Calendar.tsx:40-42 | the i-th leading blank is the blank cell keyed `prev-i` |
| Calendar.CellsAt | src/components/Calendar.tsx:40-49 | cell i is blank `prev-i` before the start weekday, and day i − start + 1 after it |
| Calendar.CellShape | src/components/Calendar.tsx:40-49 | a cell is blank exactly when it precedes the start weekday; blanks are outside the month and have no date; day cells are in the month, dated, and numbered i − start + 1 |
| Calendar.IsoDateInjective | src/components/Calendar.tsx:78 | in years 0..9999 different days of a month have different ISO dates |
| Calendar.DatesDistinct | src/components/Calendar.tsx:78 | in years 0..9999 no two cells of a grid share a date |
| Calendar.TodayAtMostOnce | src/components/Calendar.tsx:78-79 | in years 0..9999 at most one cell is marked as today |
| Calendar.EventsOn | src/components/Calendar.tsx:78-85 | a cell lists exactly the events of its date, in input order; a blank cell none |
| Calendar.EventInOneCell | src/components/Calendar.tsx:85 | in years 0..9999 an event shows in at most one cell |
| Calendar.NextStartDayOfWeek | src/components/Calendar.tsx:32-36 | the next month's first weekday is this month's first weekday plus its number of days, mod 7 |
| Calendar.NextGridContinues | src/components/Calendar.tsx:32-36 | the next month's grid starts on the weekday where this one stops |
| Calendar.StatusColor | src/components/Calendar.tsx:20-27 | the default gray chip is exactly Draft's |
| Calendar.StatusColorsDistinct | src/components/Calendar.tsx:20-27 | each status has its own chip colour |

## Left out

- Firestore reads and writes, authentication, routing and the PDF export: stored records are input sequences, and a save returns the record to store.
- `crypto.randomUUID`, `Date.now()` and `new Date()`: fresh ids, the save time, today and the current month are parameters.
- App.tsx:35-36 defines no `budgets/duplicate/:id` route, although the list navigates there (src/pages/BudgetList.tsx:59). The duplicate pre-fill is modelled regardless.
- Parsing of numeric inputs (`parseFloat`, `Number`, `|| 0`): numbers arrive parsed, and an empty or unreadable field is `None`.
- BudgetForm.SaveBudget: stores `EffectiveMargin` as `marginPercent`. The source stores `Number(desiredMargin)`, which differs only for text that `Number` cannot read (NaN).
- IEEE floating point: money is exact `real`, so rounding, NaN and infinities are not modelled.
- `Intl` formatting (currency, percent, `pt-BR` month labels): the series labels are the months themselves.
- The calendar's `changeMonth` (`Date.setMonth` overflow) and the expand/collapse toggles are left out.
- `alert`/`confirm` are left out.
- Time zones: the month of an event is read from its date string, as `getUTCMonth` does. The dashboard takes the current month twice, as the UTC and the local reading of one instant; how the two derive from a clock and an offset is not modelled.
- Dates.EventMonth: checks the `YYYY-MM` shape and a month in 1..12, but not the day. A day such as `02-31` that JavaScript rejects still yields a month here.
- Dates.IsoDate: `new Date(y, m, 1)` and `Date.UTC` read years 0..99 as 1900..1999; the calendar model keeps the year as given. Such months are reached only after about 23,000 month changes back.
- Calendar.DatesDistinct, Calendar.TodayAtMostOnce, Calendar.EventInOneCell, Calendar.IsoDateInjective, Dates.IsoDateDay: stated for years 0..9999 only. From year 10000 the sliced date strings of a month coincide (Dates.ExpandedYearDatesCollide), so there the source marks every day as today and lists an event in every cell.
- Text.ToLower: lower-cases ASCII and Latin-1 capitals only. Other scripts and special casings of `toLowerCase` are not modelled.
- Sorting.SortDescendingBy: orders character by character (JavaScript's UTF-16 code-unit order for characters up to U+FFFF). The source uses `localeCompare` on months and subtracts timestamps on dates, which agree with that order on well-formed `YYYY-MM` and `YYYY-MM-DD` strings. Stability of `Array.prototype.sort` is not stated.
- Costs.GroupByMonth: states the keys without their order. `Object.keys` lists them in creation order.
- BudgetForm.BudgetEditor.UpdateItem: models the line as a value. The source writes the field into an element object shared with the previous state (aliasing).
- The phone field's `maxLength` of 15 characters is left out.
- The guest count is taken as a parsed integer.

## Findings

| source | as written | input that shows it | evidently intended | confidence | as-written member | corrected member |
|---|---|---|---|---|---|---|
| src/pages/Reports.tsx:37-40 | The month of `new Date(b.eventDate)` is read with local `getMonth()`/`getFullYear()`, but a date-only string is parsed as UTC midnight. West of UTC, an event on the 1st counts in the previous month's report. | Completed budget dated `2024-03-01`, browser at UTC−3. The March 2024 report leaves it out, February includes it, and the dashboard counts it in March. | The month written in the event date, as the dashboard (`getUTCMonth`) and the calendar (UTC date strings) read it | high; not executed | Reports.FirstOfMonthShiftsWest | Reports.AgreesWithDashboard |
