/** The records the application stores and passes between its pages.
    Money and quantities are JavaScript numbers, modelled as exact `real`s. */
module Types {

  datatype Option<+T> = None | Some(value: T)

  /** `type: 'fixed' | 'variable'` of a cost record. */
  datatype CostKind = Fixed | Variable

  /** A company cost. `monthYear` is a "YYYY-MM" string; the empty string stands for
      an absent month, i.e. a recurring cost (every use treats absent and empty alike). */
  datatype Cost = Cost(id: Option<string>, name: string, amount: real, kind: CostKind, monthYear: string)
  {
    predicate IsRecurring() { monthYear == "" }
  }

  /** The singleton settings record: expected occupancy (percent) and working days per month. */
  datatype SystemSettings = SystemSettings(occupancyRate: real, workingDaysPerMonth: real)

  /** The settings used when none are stored, and the form's initial value. */
  const DefaultSettings := SystemSettings(70.0, 22.0)

  /** The closed status enumeration ('Orçado', 'Agendado', 'Realizado', 'Declinado'). */
  datatype BudgetStatus = Draft | Scheduled | Completed | Declined

  /** One line of a budget. */
  datatype BudgetItem = BudgetItem(id: string, name: string, quantity: real, unitCost: real)

  /** A reusable item of a template group. */
  datatype ItemTemplate = ItemTemplate(id: string, name: string, unitCost: real)

  /** A named group of item templates. */
  datatype BudgetCategory = BudgetCategory(id: Option<string>, name: string, items: seq<ItemTemplate>)

  /** An event budget with its financial snapshot, computed when it was last saved. */
  datatype Budget = Budget(
    id: Option<string>,
    clientName: string,
    clientPhone: string,
    eventName: string,
    eventLocation: string,
    eventDate: string,
    guestCount: int,
    status: BudgetStatus,
    items: seq<BudgetItem>,
    totalFixedCostShare: real,
    totalVariableCost: real,
    totalSales: real,
    netProfit: real,
    marginPercent: real,
    createdAt: int)
}
