/** The costs page: the per-month grouping of a cost section, adding a cost, the template
    group rules, and the split of the cost list by type. */
module Costs {
  import opened Types
  import opened Seqs
  import opened Text
  import opened Pricing
  import BudgetForm
  import opened Sorting

  /** The label of recurring costs' group. */
  const RecurringKey := "recorrente"

  /** `cost.monthYear || 'recorrente'`. */
  function GroupKey(c: Cost): string
  {
    if c.monthYear == "" then RecurringKey else c.monthYear
  }

  function HasKey(key: string): Cost -> bool
  {
    (c: Cost) => GroupKey(c) == key
  }

  /** `groups` holds, under each key met in `s`, the costs of `s` with that key, in order. */
  ghost predicate IsGrouping(s: seq<Cost>, groups: map<string, seq<Cost>>)
  {
    && (forall k :: k in groups <==> exists i :: 0 <= i < |s| && GroupKey(s[i]) == k)
    && (forall k :: k in groups ==> groups[k] == Filter(s, HasKey(k)))
  }

  /** Pushing one more cost onto the list of its key (created empty when missing). */
  lemma GroupingStep(s: seq<Cost>, c: Cost, groups: map<string, seq<Cost>>)
    requires IsGrouping(s, groups)
    ensures var key := GroupKey(c);
      IsGrouping(s + [c], groups[key := (if key in groups then groups[key] else []) + [c]])
  {
    var key := GroupKey(c);
    var next := groups[key := (if key in groups then groups[key] else []) + [c]];
    var t := s + [c];
    forall k ensures k in next <==> exists i :: 0 <= i < |t| && GroupKey(t[i]) == k {
      if k == key {
        assert GroupKey(t[|s|]) == k;
      } else if k in groups {
        var i :| 0 <= i < |s| && GroupKey(s[i]) == k;
        assert GroupKey(t[i]) == k;
      } else {
        forall i | 0 <= i < |t| ensures GroupKey(t[i]) != k {
          if i < |s| {
            assert t[i] == s[i];
          }
        }
      }
    }
    forall k | k in next ensures next[k] == Filter(t, HasKey(k)) {
      FilterStep(s, c, HasKey(k));
      if k == key && key !in groups {
        forall i | 0 <= i < |s| ensures !HasKey(k)(s[i]) {
        }
        FilterNone(s, HasKey(k));
      }
    }
  }

  /** No key is listed twice. */
  predicate Distinct(keys: seq<string>)
  {
    forall i, j :: 0 <= i < j < |keys| ==> keys[i] != keys[j]
  }

  lemma DistinctAppend(keys: seq<string>, key: string)
    requires Distinct(keys) && key !in keys
    ensures Distinct(keys + [key])
  {
    var t := keys + [key];
    forall i, j | 0 <= i < j < |t| ensures t[i] != t[j] {
      if j == |keys| {
        assert t[i] == keys[i];
      }
    }
  }

  /** Writing a key twice keeps only the second value. */
  lemma Overwrite(m: map<string, seq<Cost>>, k: string, a: seq<Cost>, b: seq<Cost>)
    ensures m[k := a][k := b] == m[k := b]
  {
  }

  /** The `forEach` that pushes every cost onto the list of its key, creating the list the
      first time the key is met; `keys` records the keys in creation order. */
  method GroupByMonth(costs: seq<Cost>) returns (groups: map<string, seq<Cost>>, keys: seq<string>)
    ensures forall k :: k in groups <==> exists i :: 0 <= i < |costs| && GroupKey(costs[i]) == k
    ensures forall k :: k in groups ==> groups[k] == Filter(costs, HasKey(k))
    ensures forall k :: k in groups <==> k in keys
    ensures Distinct(keys)
  {
    groups, keys := map[], [];
    var n := 0;
    while n < |costs|
      invariant 0 <= n <= |costs|
      invariant IsGrouping(costs[..n], groups)
      invariant forall k :: k in groups <==> k in keys
      invariant Distinct(keys)
    {
      var cost := costs[n];
      var key := GroupKey(cost);
      assert costs[..n + 1] == costs[..n] + [cost];
      GroupingStep(costs[..n], cost, groups);
      if key !in groups {
        DistinctAppend(keys, key);
        Overwrite(groups, key, [], [] + [cost]);
        groups := groups[key := []];
        keys := keys + [key];
      }
      groups := groups[key := groups[key] + [cost]];
      n := n + 1;
    }
    assert costs[..n] == costs;
  }

  /** Every cost sits in exactly one group, the one of its key, with all its copies; the
      groups keep the order of the cost list. */
  lemma EachCostOneGroup(costs: seq<Cost>, c: Cost, k: string)
    ensures multiset(Filter(costs, HasKey(k)))[c]
            == if k == GroupKey(c) then multiset(costs)[c] else 0
    ensures Subsequence(Filter(costs, HasKey(k)), costs)
  {
    FilterMultiplicity(costs, HasKey(k), c);
    FilterIsSubsequence(costs, HasKey(k));
  }

  /** A new cost appears as the last entry of its own group and nowhere else. */
  lemma AddedCostJoinsItsGroup(costs: seq<Cost>, c: Cost, k: string)
    ensures Filter(costs + [c], HasKey(k))
            == if k == GroupKey(c) then Filter(costs, HasKey(k)) + [c] else Filter(costs, HasKey(k))
  {
    FilterStep(costs, c, HasKey(k));
  }

  /** The cost form: name, amount (None when the field is empty) and month ("" = recurring). */
  datatype CostForm = CostForm(name: string, amount: Option<real>, monthYear: string)

  /** `handleAdd`: nothing without a name or an amount; otherwise one cost of the
      section's type and the form's month. */
  function NewCost(form: CostForm, kind: CostKind): (r: Option<Cost>)
    ensures r.None? <==> form.name == "" || form.amount.None?
    ensures r.Some? ==> r.value.name == form.name && r.value.amount == form.amount.value
                        && r.value.kind == kind && r.value.monthYear == form.monthYear
                        && r.value.id.None?
  {
    if form.name == "" || form.amount.None? then None
    else Some(Cost(None, form.name, form.amount.value, kind, form.monthYear))
  }

  /** A cost added with a month applies to that month's events only; one added with the
      month cleared applies to every month. */
  lemma NewCostRelevance(form: CostForm, kind: CostKind, eventDate: string)
    requires NewCost(form, kind).Some?
    ensures AppliesTo(NewCost(form, kind).value, Dates.MonthPrefix(eventDate))
            <==> form.monthYear == "" || form.monthYear == Dates.MonthPrefix(eventDate)
    ensures GroupKey(NewCost(form, kind).value) == if form.monthYear == "" then RecurringKey else form.monthYear
  {
  }

  /** `handleAddCategory`: refused for a blank name; otherwise a new group, named as typed,
      with no items. */
  function NewCategory(name: string): (r: Option<BudgetCategory>)
    ensures r.None? <==> IsBlank(name)
    ensures r.Some? ==> r.value == BudgetCategory(None, name, [])
  {
    if IsBlank(name) then None else Some(BudgetCategory(None, name, []))
  }

  /** The per-group new-item form: name and unit cost (None when the field is empty). */
  datatype ItemForm = ItemForm(name: string, unitCost: Option<real>)

  /** `handleAddItem`: the group to save, or None when there is no form for the group, the
      name or the cost is empty, or the group is unknown. */
  function AddTemplateItem(categories: seq<BudgetCategory>, categoryId: string,
                           form: Option<ItemForm>, newId: string): (r: Option<BudgetCategory>)
    ensures r.None? <==> form.None? || form.value.name == "" || form.value.unitCost.None?
                         || BudgetForm.FindCategory(categories, categoryId).None?
    ensures r.Some? ==>
      var c := BudgetForm.FindCategory(categories, categoryId).value;
      r.value == c.(items := c.items + [ItemTemplate(newId, form.value.name, form.value.unitCost.value)])
  {
    if form.None? || form.value.name == "" || form.value.unitCost.None? then None
    else
      match BudgetForm.FindCategory(categories, categoryId)
      case None => None
      case Some(c) => Some(c.(items := c.items + [ItemTemplate(newId, form.value.name, form.value.unitCost.value)]))
  }

  function IdIsNot(itemId: string): ItemTemplate -> bool
  {
    (t: ItemTemplate) => t.id != itemId
  }

  /** `handleDeleteItem`: the group to save without the items carrying `itemId`, or None
      when the group is unknown. */
  function DeleteTemplateItem(categories: seq<BudgetCategory>, categoryId: string, itemId: string)
    : (r: Option<BudgetCategory>)
    ensures r.None? <==> BudgetForm.FindCategory(categories, categoryId).None?
    ensures r.Some? ==>
      var c := BudgetForm.FindCategory(categories, categoryId).value;
      r.value.id == c.id && r.value.name == c.name
      && (forall t :: t in r.value.items <==> t in c.items && t.id != itemId)
      && (forall t :: multiset(r.value.items)[t] == if t.id == itemId then 0 else multiset(c.items)[t])
      && Subsequence(r.value.items, c.items)
  {
    match BudgetForm.FindCategory(categories, categoryId)
    case None => None
    case Some(c) =>
      forall t ensures t in Filter(c.items, IdIsNot(itemId)) <==> t in c.items && t.id != itemId {
        FilterMembership(c.items, IdIsNot(itemId), t);
      }
      forall t ensures multiset(Filter(c.items, IdIsNot(itemId)))[t]
                       == if t.id == itemId then 0 else multiset(c.items)[t] {
        FilterMultiplicity(c.items, IdIsNot(itemId), t);
      }
      FilterIsSubsequence(c.items, IdIsNot(itemId));
      Some(c.(items := Filter(c.items, IdIsNot(itemId))))
  }

  /** Deleting the item just added, under an id no other item of the group carries, gives
      back the group as it was. */
  lemma DeleteUndoesAdd(categories: seq<BudgetCategory>, categoryId: string, form: ItemForm, newId: string)
    requires AddTemplateItem(categories, categoryId, Some(form), newId).Some?
    requires forall t :: t in BudgetForm.FindCategory(categories, categoryId).value.items ==> t.id != newId
    ensures var added := AddTemplateItem(categories, categoryId, Some(form), newId).value;
      DeleteTemplateItem([added], categoryId, newId) == BudgetForm.FindCategory(categories, categoryId)
  {
    var c := BudgetForm.FindCategory(categories, categoryId).value;
    var added := AddTemplateItem(categories, categoryId, Some(form), newId).value;
    var t := ItemTemplate(newId, form.name, form.unitCost.value);
    FilterStep(c.items, t, IdIsNot(newId));
    FilterAll(c.items, IdIsNot(newId));
  }

  /** The fixed costs and the variable costs split the cost list: together they are all of
      it, each cost in exactly one part, and their totals add up to the total. */
  lemma TypePartition(costs: seq<Cost>, c: Cost)
    ensures multiset(Filter(costs, IsFixed))[c] + multiset(Filter(costs, IsVariable))[c] == multiset(costs)[c]
    ensures Sum(Filter(costs, IsFixed), Amount) + Sum(Filter(costs, IsVariable), Amount) == Sum(costs, Amount)
  {
    FilterMultiplicity(costs, IsFixed, c);
    FilterMultiplicity(costs, IsVariable, c);
    SumSplit(costs, IsFixed, Amount);
    FilterCongruent(costs, Not(IsFixed), IsVariable);
  }

  /** The sort key of `loadData`: the month, the empty string for recurring costs. */
  function MonthSortKey(c: Cost): string
  {
    c.monthYear
  }

  /** `costs.sort((a, b) => (b.monthYear || '').localeCompare(a.monthYear || ''))`:
      the loaded costs in place, latest month first. */
  method SortCosts(costs: array<Cost>)
    modifies costs
    ensures DescendingBy(costs[..], MonthSortKey)
    ensures multiset(costs[..]) == multiset(old(costs[..]))
  {
    SortDescendingBy(costs, MonthSortKey);
  }

  /** In the sorted list months never increase, and the recurring costs come last: after a
      recurring cost there are only recurring costs. */
  lemma RecurringLast(s: seq<Cost>, i: int, j: int)
    requires DescendingBy(s, MonthSortKey) && 0 <= i < j < |s|
    ensures Compare(s[i].monthYear, s[j].monthYear) >= 0
    ensures s[i].IsRecurring() ==> s[j].IsRecurring()
  {
    DescendingAllPairs(s, MonthSortKey, i, j);
  }
}
