/** The budget form: the phone mask, the editable list of line items, the pre-fill of an
    edited or duplicated budget, and save-time validation and snapshot. */
module BudgetForm {
  import opened Types
  import opened Seqs
  import opened Text
  import opened Pricing

  // ---- Phone mask ----

  /** `s.replace(/^(\d{2})(\d)/g, '($1) $2')`: parenthesise a leading two-digit area code
      when a third digit follows. */
  function AreaCodeStep(s: string): string
  {
    if |s| >= 3 && IsDigit(s[0]) && IsDigit(s[1]) && IsDigit(s[2])
    then "(" + s[..2] + ") " + s[2..]
    else s
  }

  /** `s.replace(/(\d)(\d{4})$/, '$1-$2')`: when the string ends in five digits, put a hyphen
      before the last four. */
  function HyphenStep(s: string): string
  {
    if |s| >= 5 && AllDigits(s[|s| - 5..])
    then s[..|s| - 4] + "-" + s[|s| - 4..]
    else s
  }

  /** `formatPhone`: the mask applied on every keystroke of the phone field. */
  function FormatPhone(value: string): string
  {
    if value == "" then "" else HyphenStep(AreaCodeStep(DigitsOf(value)))
  }

  /** The mask in closed form over a string d of n digits: up to two digits are left as
      they are, from three on the area code is parenthesised, from seven on a hyphen
      precedes the last four digits. */
  function Masked(d: string): string
    requires AllDigits(d)
  {
    var n := |d|;
    if n < 3 then d
    else if n < 7 then "(" + d[..2] + ") " + d[2..]
    else "(" + d[..2] + ") " + d[2..n - 4] + "-" + d[n - 4..]
  }

  /** The two regular-expression replacements compute the closed form on the digits. */
  lemma FormatPhoneShape(value: string)
    ensures FormatPhone(value) == Masked(DigitsOf(value))
  {
    var d := DigitsOf(value);
    if value == "" {
      assert d == "";
    } else if |d| < 3 {
      assert AreaCodeStep(d) == d;
    } else if |d| < 7 {
      MidMaskSteps(d);
    } else {
      LongMaskSteps(d);
    }
  }

  /** From three to six digits the hyphen step finds the area code's ") " among the last
      five characters and leaves the string alone. */
  lemma MidMaskSteps(d: string)
    requires AllDigits(d) && 3 <= |d| < 7
    ensures HyphenStep(AreaCodeStep(d)) == Masked(d)
  {
    var t := "(" + d[..2] + ") " + d[2..];
    assert AreaCodeStep(d) == t;
    assert |t| == |d| + 3;
    var tail := t[|t| - 5..];
    assert !IsDigit(t[4]);
    assert !AllDigits(tail) by {
      assert tail[4 - (|t| - 5)] == t[4];
    }
  }

  /** From seven digits the last five characters are digits and the hyphen goes before the
      last four. */
  lemma LongMaskSteps(d: string)
    requires AllDigits(d) && |d| >= 7
    ensures HyphenStep(AreaCodeStep(d)) == Masked(d)
  {
    var n := |d|;
    var t := "(" + d[..2] + ") " + d[2..];
    assert AreaCodeStep(d) == t;
    assert |t| == n + 3;
    var tail := t[|t| - 5..];
    assert AllDigits(tail) by {
      forall i | 0 <= i < 5 ensures IsDigit(tail[i]) {
        assert tail[i] == d[n - 5 + i];
      }
    }
    assert t[..|t| - 4] == "(" + d[..2] + ") " + d[2..n - 4];
    assert t[|t| - 4..] == d[n - 4..];
  }

  /** The mask's punctuation carries no digits. */
  lemma AreaCodeDigits(d: string)
    requires AllDigits(d) && |d| >= 2
    ensures DigitsOf("(" + d[..2] + ") ") == d[..2]
  {
    DigitsOfDigits(d[..2]);
    DigitsOfAppend("(", d[..2]);
    DigitsOfAppend("(" + d[..2], ") ");
    assert DigitsOf(") ") == "" by {
      assert ") "[..1] == ")";
      assert ")"[..0] == "";
    }
    assert DigitsOf("(") == "" by { assert "("[..0] == ""; }
  }

  lemma MaskedMidDigits(d: string)
    requires AllDigits(d) && 3 <= |d| < 7
    ensures DigitsOf(Masked(d)) == d
  {
    AreaCodeDigits(d);
    DigitsOfDigits(d[2..]);
    DigitsOfAppend("(" + d[..2] + ") ", d[2..]);
    assert d[..2] + d[2..] == d;
  }

  lemma MaskedLongDigits(d: string)
    requires AllDigits(d) && |d| >= 7
    ensures DigitsOf(Masked(d)) == d
  {
    var n := |d|;
    var p := "(" + d[..2] + ") ";
    AreaCodeDigits(d);
    DigitsOfDigits(d[2..n - 4]);
    DigitsOfDigits(d[n - 4..]);
    DigitsOfAppend(p, d[2..n - 4]);
    DigitsOfAppend(p + d[2..n - 4], "-");
    assert DigitsOf("-") == "" by { assert "-"[..0] == ""; }
    DigitsOfAppend(p + d[2..n - 4] + "-", d[n - 4..]);
    assert d[..2] + d[2..n - 4] + d[n - 4..] == d;
  }

  /** Stripping the mask gives back exactly the digits typed: the phone stored at save
      (`clientPhone.replace(/\D/g, '')`) is the digits the user entered. */
  lemma FormatPhoneKeepsDigits(value: string)
    ensures DigitsOf(FormatPhone(value)) == DigitsOf(value)
  {
    FormatPhoneShape(value);
    var d := DigitsOf(value);
    if |d| < 3 {
      DigitsOfDigits(d);
    } else if |d| < 7 {
      MaskedMidDigits(d);
    } else {
      MaskedLongDigits(d);
    }
  }

  /** The mask depends only on the digits of its input. */
  lemma FormatPhoneDigitsOnly(value: string)
    ensures FormatPhone(value) == FormatPhone(DigitsOf(value))
  {
    FormatPhoneShape(value);
    FormatPhoneShape(DigitsOf(value));
    DigitsOfDigits(DigitsOf(value));
  }

  /** Masking an already masked value changes nothing. */
  lemma FormatPhoneIdempotent(value: string)
    ensures FormatPhone(FormatPhone(value)) == FormatPhone(value)
  {
    FormatPhoneDigitsOnly(FormatPhone(value));
    FormatPhoneKeepsDigits(value);
    FormatPhoneDigitsOnly(value);
  }

  /** The "(dd) " prefix appears exactly when there are at least three digits, and the
      hyphen before the last four digits exactly when there are at least seven. */
  lemma FormatPhoneMarks(value: string)
    ensures var r := FormatPhone(value); var n := |DigitsOf(value)|;
      && (n >= 3 <==> (|r| >= 5 && r[0] == '(' && r[3] == ')' && r[4] == ' '))
      && (n >= 7 <==> (|r| >= 5 && r[|r| - 5] == '-'))
  {
    FormatPhoneShape(value);
    var d := DigitsOf(value);
    var n := |d|;
    var r := FormatPhone(value);
    if n < 3 {
      assert |r| < 5;
    } else if n < 7 {
      assert r[0] == '(' && r[3] == ')' && r[4] == ' ';
      assert r[|r| - 5] == if n == 6 then ' ' else if n == 5 then ')' else if n == 4 then d[1] else d[0];
    } else {
      assert r[0] == '(' && r[3] == ')' && r[4] == ' ';
      assert r[|r| - 5] == '-';
    }
  }

  // ---- Line items ----

  /** The line `addItem` appends: no name, quantity 1, unit cost 0. */
  function BlankItem(id: string): BudgetItem
  {
    BudgetItem(id, "", 1.0, 0.0)
  }

  /** `duplicateItem(i)`: a copy of item i under a new id, inserted right after it. */
  function WithDuplicate(items: seq<BudgetItem>, i: nat, newId: string): (r: seq<BudgetItem>)
    requires i < |items|
    ensures |r| == |items| + 1
  {
    items[..i + 1] + [items[i].(id := newId)] + items[i + 1..]
  }

  /** `items.filter((_, j) => j !== i)`: every position but i, in order. */
  function WithoutIndex(items: seq<BudgetItem>, i: nat): (r: seq<BudgetItem>)
    ensures i < |items| ==> |r| == |items| - 1
    ensures i >= |items| ==> r == items
  {
    if i < |items| then items[..i] + items[i + 1..] else items
  }

  /** The field an item input edits, with its new value. */
  datatype ItemField = Name(name: string) | Quantity(quantity: real) | UnitCost(unitCost: real)

  function SetField(item: BudgetItem, field: ItemField): BudgetItem
  {
    match field
    case Name(v) => item.(name := v)
    case Quantity(v) => item.(quantity := v)
    case UnitCost(v) => item.(unitCost := v)
  }

  /** A template copied into a budget: quantity 1, same name and unit cost, a new id. */
  function FromTemplate(t: ItemTemplate, newId: string): BudgetItem
  {
    BudgetItem(newId, t.name, 1.0, t.unitCost)
  }

  /** The lines a template group adds, one per template, in template order. */
  function FromTemplates(templates: seq<ItemTemplate>, newIds: seq<string>): (r: seq<BudgetItem>)
    requires |newIds| == |templates|
    ensures |r| == |templates|
    ensures forall k :: 0 <= k < |r| ==> r[k] == FromTemplate(templates[k], newIds[k])
  {
    if templates == [] then []
    else FromTemplates(templates[..|templates| - 1], newIds[..|newIds| - 1])
         + [FromTemplate(templates[|templates| - 1], newIds[|newIds| - 1])]
  }

  /** `budgetCategories.find(c => c.id === id)`: the first group with that id. */
  function FindCategory(categories: seq<BudgetCategory>, id: string): (r: Option<BudgetCategory>)
    ensures r.Some? ==> r.value in categories && r.value.id == Some(id)
    ensures r.Some? ==> exists k :: 0 <= k < |categories| && categories[k] == r.value
                                    && forall j :: 0 <= j < k ==> categories[j].id != Some(id)
    ensures r.None? ==> forall c :: c in categories ==> c.id != Some(id)
  {
    if categories == [] then None
    else if categories[0].id == Some(id) then Some(categories[0])
    else
      var r := FindCategory(categories[1..], id);
      assert r.Some? ==> exists k :: 0 <= k < |categories| && categories[k] == r.value
                                     && forall j :: 0 <= j < k ==> categories[j].id != Some(id) by {
        if r.Some? {
          var k :| 0 <= k < |categories[1..]| && categories[1..][k] == r.value
                   && forall j :: 0 <= j < k ==> categories[1..][j].id != Some(id);
          assert categories[k + 1] == r.value;
          forall j | 0 <= j < k + 1 ensures categories[j].id != Some(id) {
            if j > 0 { assert categories[j] == categories[1..][j - 1]; }
          }
        }
      }
      r
  }

  function UnitCostOf(t: ItemTemplate): real { t.unitCost }

  /** A blank line adds nothing to the items cost. */
  lemma BlankItemCostsNothing(items: seq<BudgetItem>, id: string)
    ensures ItemsCost(items + [BlankItem(id)]) == ItemsCost(items)
  {
    SumAppend(items, [BlankItem(id)], LineCost);
    SumSingle(BlankItem(id), LineCost);
  }

  /** Removing the copy right after the original gives back the list that was duplicated. */
  lemma RemoveUndoesDuplicate(items: seq<BudgetItem>, i: nat, newId: string)
    requires i < |items|
    ensures WithoutIndex(WithDuplicate(items, i, newId), i + 1) == items
  {
    var d := WithDuplicate(items, i, newId);
    assert d[..i + 1] == items[..i + 1];
    assert d[i + 2..] == items[i + 1..];
  }

  /** Duplicating a line adds that line's cost once more. */
  lemma DuplicateCost(items: seq<BudgetItem>, i: nat, newId: string)
    requires i < |items|
    ensures ItemsCost(WithDuplicate(items, i, newId)) == ItemsCost(items) + LineCost(items[i])
  {
    SumInsert(items[..i + 1], items[i].(id := newId), items[i + 1..], LineCost);
    assert items[..i + 1] + items[i + 1..] == items;
  }

  /** Removing a line takes exactly its cost away. */
  lemma RemoveCost(items: seq<BudgetItem>, i: nat)
    requires i < |items|
    ensures ItemsCost(WithoutIndex(items, i)) == ItemsCost(items) - LineCost(items[i])
  {
    SumInsert(items[..i], items[i], items[i + 1..], LineCost);
    assert items[..i] + [items[i]] + items[i + 1..] == items;
  }

  /** Loading a group adds the sum of its unit costs (one unit of each template). */
  lemma {:induction false} TemplatesCost(templates: seq<ItemTemplate>, newIds: seq<string>)
    requires |newIds| == |templates|
    ensures ItemsCost(FromTemplates(templates, newIds)) == Sum(templates, UnitCostOf)
  {
    if templates != [] {
      var n := |templates|;
      TemplatesCost(templates[..n - 1], newIds[..n - 1]);
      var last := FromTemplate(templates[n - 1], newIds[n - 1]);
      var front := FromTemplates(templates[..n - 1], newIds[..n - 1]);
      assert FromTemplates(templates, newIds) == front + [last];
      SumAppend(front, [last], LineCost);
      SumSingle(last, LineCost);
      assert LineCost(last) == UnitCostOf(templates[n - 1]);
    }
  }

  /** Editing a name changes no amount. */
  lemma RenameKeepsCost(items: seq<BudgetItem>, i: nat, name: string)
    requires i < |items|
    ensures ItemsCost(items[i := SetField(items[i], Name(name))]) == ItemsCost(items)
  {
    var x := SetField(items[i], Name(name));
    var pre, post := items[..i], items[i + 1..];
    assert items == pre + [items[i]] + post;
    assert items[i := x] == pre + [x] + post;
    SumInsert(pre, items[i], post, LineCost);
    SumInsert(pre, x, post, LineCost);
    assert LineCost(x) == LineCost(items[i]);
  }

  // ---- Pre-fill and save ----

  /** The editable values of the form (the numeric inputs already read as numbers;
      `marginInput` is None when the margin field does not parse). */
  datatype FormValues = FormValues(
    clientName: string,
    clientPhone: string,
    eventName: string,
    eventLocation: string,
    eventDate: string,
    guestCount: int,
    status: BudgetStatus,
    items: seq<BudgetItem>,
    marginInput: Option<real>)

  /** A new form: empty fields, status Draft, no items, margin 20. */
  const EmptyForm := FormValues("", "", "", "", "", 0, Draft, [], Some(20.0))

  /** `String(existing.marginPercent || '20')`: a stored margin of 0 reloads as 20. */
  function ReloadedMargin(stored: real): (m: real)
    ensures stored == 0.0 ==> m == 20.0
    ensures stored != 0.0 ==> m == stored
  {
    if stored == 0.0 then 20.0 else stored
  }

  /** The form loaded from a stored budget: as stored when editing; when duplicating, the
      event name is marked as a copy, the status goes back to Draft and every line gets the
      fresh id given for it. */
  function Prefill(existing: Budget, duplicating: bool, freshIds: seq<string>): (f: FormValues)
    requires duplicating ==> |freshIds| == |existing.items|
    ensures f.clientName == existing.clientName && f.clientPhone == existing.clientPhone
    ensures f.eventLocation == existing.eventLocation && f.eventDate == existing.eventDate
    ensures f.guestCount == existing.guestCount
    ensures f.marginInput == Some(ReloadedMargin(existing.marginPercent))
    ensures !duplicating ==> f.eventName == existing.eventName && f.status == existing.status
                             && f.items == existing.items
    ensures duplicating ==> f.eventName == "[CÓPIA] " + existing.eventName && f.status == Draft
    ensures duplicating ==>
      (|f.items| == |existing.items|
       && forall k :: 0 <= k < |f.items| ==> f.items[k] == existing.items[k].(id := freshIds[k]))
  {
    if duplicating then
      FormValues(existing.clientName, existing.clientPhone, "[CÓPIA] " + existing.eventName,
                 existing.eventLocation, existing.eventDate, existing.guestCount, Draft,
                 seq(|existing.items|, k requires 0 <= k < |existing.items| => existing.items[k].(id := freshIds[k])),
                 Some(ReloadedMargin(existing.marginPercent)))
    else
      FormValues(existing.clientName, existing.clientPhone, existing.eventName,
                 existing.eventLocation, existing.eventDate, existing.guestCount, existing.status,
                 existing.items, Some(ReloadedMargin(existing.marginPercent)))
  }

  /** The lines of a duplicate carry only the ids given for them, so when those ids are
      fresh no line of the copy shares its identity with the original; together the lines
      cost what the original's lines cost. */
  lemma DuplicateIsolatesItems(existing: Budget, freshIds: seq<string>)
    requires |freshIds| == |existing.items|
    requires forall k :: 0 <= k < |freshIds| ==> forall j :: 0 <= j < |existing.items| ==> freshIds[k] != existing.items[j].id
    ensures var f := Prefill(existing, true, freshIds);
      forall k, j :: 0 <= k < |f.items| && 0 <= j < |existing.items| ==> f.items[k].id != existing.items[j].id
    ensures ItemsCost(Prefill(existing, true, freshIds).items) == ItemsCost(existing.items)
  {
    var f := Prefill(existing, true, freshIds);
    SameCostsSameTotal(f.items, existing.items);
  }

  /** `crypto.randomUUID()` gives every line its own id: with pairwise distinct fresh ids
      the duplicate's lines have pairwise distinct ids, whatever ids the original repeated. */
  lemma DuplicateIdsDistinct(existing: Budget, freshIds: seq<string>)
    requires |freshIds| == |existing.items|
    requires forall k, l :: 0 <= k < l < |freshIds| ==> freshIds[k] != freshIds[l]
    ensures var f := Prefill(existing, true, freshIds);
      forall k, l :: 0 <= k < l < |f.items| ==> f.items[k].id != f.items[l].id
  {
  }

  lemma {:induction false} SameCostsSameTotal(a: seq<BudgetItem>, b: seq<BudgetItem>)
    requires |a| == |b|
    requires forall k :: 0 <= k < |a| ==> LineCost(a[k]) == LineCost(b[k])
    ensures ItemsCost(a) == ItemsCost(b)
  {
    if a != [] {
      SameCostsSameTotal(a[..|a| - 1], b[..|b| - 1]);
    }
  }

  /** `handleSave`: refused (None) when the client name, event name or date is empty;
      otherwise the budget to store, with the digits of the phone and the financial snapshot. */
  function SaveBudget(routeId: Option<string>, duplicating: bool, form: FormValues,
                      fin: Financials, now: int): (r: Option<Budget>)
    ensures r.None? <==> form.clientName == "" || form.eventName == "" || form.eventDate == ""
    ensures r.Some? ==>
      var b := r.value;
      && b.id == (if duplicating then None else routeId)
      && b.clientName == form.clientName && b.eventName == form.eventName
      && b.eventLocation == form.eventLocation && b.eventDate == form.eventDate
      && b.guestCount == form.guestCount && b.status == form.status && b.items == form.items
      && b.clientPhone == DigitsOf(form.clientPhone) && AllDigits(b.clientPhone)
      && b.totalFixedCostShare == fin.fixedCostShare
      && b.totalVariableCost == fin.eventItemsCost
      && b.totalSales == fin.sellingPrice
      && b.netProfit == fin.netProfit
      && b.marginPercent == EffectiveMargin(form.marginInput) && b.createdAt == now
  {
    if form.clientName == "" || form.eventName == "" || form.eventDate == "" then None
    else Some(Budget(
      if duplicating then None else routeId,
      form.clientName, DigitsOf(form.clientPhone), form.eventName, form.eventLocation,
      form.eventDate, form.guestCount, form.status, form.items,
      fin.fixedCostShare, fin.eventItemsCost, fin.sellingPrice, fin.netProfit,
      EffectiveMargin(form.marginInput), now))
  }

  /** A saved budget's snapshot balances: sales = overhead share + item costs + profit. */
  lemma SavedSnapshotBalances(routeId: Option<string>, duplicating: bool, form: FormValues,
                              costs: seq<Cost>, settings: SystemSettings, now: int)
    ensures var r := SaveBudget(routeId, duplicating, form,
                                ComputeFinancials(form.items, costs, settings, form.eventDate, form.marginInput), now);
      r.Some? ==> r.value.totalSales == r.value.totalFixedCostShare + r.value.totalVariableCost + r.value.netProfit
  {
  }

  /** The phone stored at save is the digits typed into the masked field. */
  lemma SavedPhoneIsTypedDigits(routeId: Option<string>, duplicating: bool, form: FormValues,
                                typed: string, fin: Financials, now: int)
    requires form.clientPhone == FormatPhone(typed)
    ensures var r := SaveBudget(routeId, duplicating, form, fin, now);
      r.Some? ==> r.value.clientPhone == DigitsOf(typed)
  {
    FormatPhoneKeepsDigits(typed);
  }

  /** What "Load group" did. */
  datatype LoadOutcome = NoGroupSelected | GroupNotFound | Loaded(count: nat)

  /** The form's state: the values being edited and the records loaded for the computation. */
  class BudgetEditor {
    const routeId: Option<string>
    const duplicating: bool
    var form: FormValues
    var allCosts: seq<Cost>
    var settings: SystemSettings
    var categories: seq<BudgetCategory>
    var selectedCategory: string

    /** The form as first rendered, before anything is loaded. */
    constructor (routeId: Option<string>, duplicating: bool)
      ensures this.routeId == routeId && this.duplicating == duplicating
      ensures form == EmptyForm && allCosts == [] && settings == DefaultSettings
      ensures categories == [] && selectedCategory == ""
    {
      this.routeId := routeId;
      this.duplicating := duplicating;
      form := EmptyForm;
      allCosts := [];
      settings := DefaultSettings;
      categories := [];
      selectedCategory := "";
    }

    /** The live financial summary of the current values. */
    function Summary(): Financials
      reads this
    {
      ComputeFinancials(form.items, allCosts, settings, form.eventDate, form.marginInput)
    }

    /** `init`: store the loaded records and, when a stored budget was found for the route,
        pre-fill the form from it. */
    method Init(costs: seq<Cost>, loadedSettings: SystemSettings, cats: seq<BudgetCategory>,
                existing: Option<Budget>, freshIds: seq<string>)
      requires routeId.Some? && existing.Some? && duplicating ==> |freshIds| == |existing.value.items|
      modifies this
      ensures allCosts == costs && settings == loadedSettings && categories == cats
      ensures selectedCategory == old(selectedCategory)
      ensures form == if routeId.Some? && existing.Some?
                      then Prefill(existing.value, duplicating, freshIds) else old(form)
    {
      allCosts := costs;
      settings := loadedSettings;
      categories := cats;
      if routeId.Some? && existing.Some? {
        form := Prefill(existing.value, duplicating, freshIds);
      }
    }

    /** The phone field's change handler: the typed text is stored masked. */
    method SetPhone(typed: string)
      modifies this
      ensures form == old(form).(clientPhone := FormatPhone(typed))
      ensures allCosts == old(allCosts) && settings == old(settings)
      ensures categories == old(categories) && selectedCategory == old(selectedCategory)
    {
      form := form.(clientPhone := FormatPhone(typed));
    }

    /** The group picker's change handler: only the chosen group id changes. */
    method SelectCategory(id: string)
      modifies this
      ensures selectedCategory == id
      ensures form == old(form) && allCosts == old(allCosts) && settings == old(settings)
      ensures categories == old(categories)
    {
      selectedCategory := id;
    }

    /** `addItem`: append a blank line. */
    method AddItem(newId: string)
      modifies this
      ensures form == old(form).(items := old(form.items) + [BlankItem(newId)])
      ensures allCosts == old(allCosts) && settings == old(settings)
      ensures categories == old(categories) && selectedCategory == old(selectedCategory)
    {
      form := form.(items := form.items + [BlankItem(newId)]);
    }

    /** `duplicateItem`: copy the list, splice a copy of line `index` in after it. */
    method DuplicateItem(index: nat, newId: string)
      requires index < |form.items|
      modifies this
      ensures form == old(form).(items := WithDuplicate(old(form.items), index, newId))
      ensures form.items[..index + 1] == old(form.items)[..index + 1]
      ensures form.items[index + 1] == old(form.items)[index].(id := newId)
      ensures form.items[index + 2..] == old(form.items)[index + 1..]
      ensures allCosts == old(allCosts) && settings == old(settings)
      ensures categories == old(categories) && selectedCategory == old(selectedCategory)
    {
      var copy := form.items[index].(id := newId);
      var newItems := form.items[..index + 1] + [copy] + form.items[index + 1..];
      form := form.(items := newItems);
    }

    /** `updateItem`: overwrite one field of line `index`. */
    method UpdateItem(index: nat, field: ItemField)
      requires index < |form.items|
      modifies this
      ensures form == old(form).(items := old(form.items)[index := SetField(old(form.items)[index], field)])
      ensures allCosts == old(allCosts) && settings == old(settings)
      ensures categories == old(categories) && selectedCategory == old(selectedCategory)
    {
      var newItems := form.items;
      newItems := newItems[index := SetField(newItems[index], field)];
      form := form.(items := newItems);
    }

    /** `removeItem`: drop the line at `index`. */
    method RemoveItem(index: nat)
      modifies this
      ensures form == old(form).(items := WithoutIndex(old(form.items), index))
      ensures allCosts == old(allCosts) && settings == old(settings)
      ensures categories == old(categories) && selectedCategory == old(selectedCategory)
    {
      form := form.(items := WithoutIndex(form.items, index));
    }

    /** `handleLoadCategoryItems`: nothing without a selection or for an unknown group;
        otherwise one new line per template of the selected group. */
    method LoadCategoryItems(freshIds: seq<string>) returns (outcome: LoadOutcome)
      requires var c := FindCategory(categories, selectedCategory);
        selectedCategory != "" && c.Some? ==> |freshIds| == |c.value.items|
      modifies this
      ensures selectedCategory == "" ==> outcome == NoGroupSelected && form == old(form)
      ensures selectedCategory != "" && FindCategory(categories, selectedCategory).None? ==>
                outcome == GroupNotFound && form == old(form)
      ensures allCosts == old(allCosts) && settings == old(settings)
      ensures categories == old(categories) && selectedCategory == old(selectedCategory)
      ensures var c := FindCategory(categories, selectedCategory);
        selectedCategory != "" && c.Some? ==>
          outcome == Loaded(|c.value.items|)
          && form == old(form).(items := old(form.items) + FromTemplates(c.value.items, freshIds))
    {
      if selectedCategory == "" {
        return NoGroupSelected;
      }
      var category := FindCategory(categories, selectedCategory);
      if category.None? {
        return GroupNotFound;
      }
      var fromGroup := FromTemplates(category.value.items, freshIds);
      form := form.(items := form.items + fromGroup);
      outcome := Loaded(|fromGroup|);
    }

    /** `handleSave`: the budget to persist, or None when a required field is empty. */
    method Save(now: int) returns (r: Option<Budget>)
      ensures r == SaveBudget(routeId, duplicating, form, Summary(), now)
      ensures r.Some? ==> r.value.totalSales == r.value.totalFixedCostShare + r.value.totalVariableCost + r.value.netProfit
    {
      r := SaveBudget(routeId, duplicating, form, Summary(), now);
    }
  }
}
