/** The budget list: the status and text-search filter, the date sort and the status badge. */
module BudgetList {
  import opened Types
  import opened Seqs
  import opened Text
  import opened Sorting
  import Dashboard

  /** The case-insensitive search: the lower-cased client or event name contains `lower`. */
  predicate MatchesSearch(b: Budget, lower: string)
  {
    Contains(ToLower(b.clientName), lower) || Contains(ToLower(b.eventName), lower)
  }

  function SearchFor(lower: string): Budget -> bool
  {
    (b: Budget) => MatchesSearch(b, lower)
  }

  /** The filter effect: by status when one is chosen (None = "all"), then by the search
      text when it is not empty. */
  function FilterBudgets(bs: seq<Budget>, statusFilter: Option<BudgetStatus>, search: string): seq<Budget>
  {
    var res := if statusFilter.Some? then Filter(bs, Dashboard.HasStatus(statusFilter.value)) else bs;
    if search != "" then Filter(res, SearchFor(ToLower(search))) else res
  }

  /** What the list shows: exactly the loaded budgets that pass both filters. */
  predicate Shown(b: Budget, statusFilter: Option<BudgetStatus>, search: string)
  {
    (statusFilter.Some? ==> b.status == statusFilter.value)
    && (search != "" ==> MatchesSearch(b, ToLower(search)))
  }

  /** A budget is listed exactly when it was loaded and passes the status and search
      filters. */
  lemma FilterMeaning(bs: seq<Budget>, statusFilter: Option<BudgetStatus>, search: string, b: Budget)
    ensures b in FilterBudgets(bs, statusFilter, search) <==> b in bs && Shown(b, statusFilter, search)
  {
    var res := if statusFilter.Some? then Filter(bs, Dashboard.HasStatus(statusFilter.value)) else bs;
    if statusFilter.Some? {
      FilterMembership(bs, Dashboard.HasStatus(statusFilter.value), b);
    }
    if search != "" {
      FilterMembership(res, SearchFor(ToLower(search)), b);
    }
  }

  /** The listed budgets keep the loaded order: the list is a subsequence of the loaded one. */
  lemma FilterKeepsOrder(bs: seq<Budget>, statusFilter: Option<BudgetStatus>, search: string)
    ensures Subsequence(FilterBudgets(bs, statusFilter, search), bs)
  {
    var res := if statusFilter.Some? then Filter(bs, Dashboard.HasStatus(statusFilter.value)) else bs;
    if statusFilter.Some? {
      FilterIsSubsequence(bs, Dashboard.HasStatus(statusFilter.value));
    } else {
      SubsequenceRefl(bs);
    }
    if search != "" {
      FilterIsSubsequence(res, SearchFor(ToLower(search)));
      SubsequenceTrans(Filter(res, SearchFor(ToLower(search))), res, bs);
    }
  }

  /** With no status and no search text the list is the loaded list, unchanged. */
  lemma NoFilterIdentity(bs: seq<Budget>)
    ensures FilterBudgets(bs, None, "") == bs
  {
  }

  /** The search ignores letter case: searching for a text or its lower-case form lists the
      same budgets. */
  lemma SearchIgnoresCase(bs: seq<Budget>, statusFilter: Option<BudgetStatus>, search: string)
    ensures FilterBudgets(bs, statusFilter, search) == FilterBudgets(bs, statusFilter, ToLower(search))
  {
    ToLowerIdempotent(search);
  }

  /** The sort key of `loadBudgets`: the event date. */
  function DateKey(b: Budget): string
  {
    b.eventDate
  }

  /** `data.sort((a, b) => date(b) - date(a))`: the loaded budgets in place, newest event
      first (ISO dates compared as strings). */
  method SortByDateDescending(bs: array<Budget>)
    modifies bs
    ensures DescendingBy(bs[..], DateKey)
    ensures multiset(bs[..]) == multiset(old(bs[..]))
  {
    SortDescendingBy(bs, DateKey);
  }

  /** In the sorted list every budget is dated no earlier than any budget after it. */
  lemma NewestFirst(s: seq<Budget>, i: int, j: int)
    requires DescendingBy(s, DateKey) && 0 <= i < j < |s|
    ensures Compare(s[i].eventDate, s[j].eventDate) >= 0
  {
    DescendingAllPairs(s, DateKey, i, j);
  }

  /** `getStatusColor` of the list's status badge. */
  function StatusColor(status: BudgetStatus): (r: string)
    ensures status == Draft <==> r == "bg-gray-100 text-gray-800"
  {
    match status
    case Completed => "bg-green-100 text-green-800"
    case Scheduled => "bg-blue-100 text-blue-800"
    case Declined => "bg-red-100 text-red-800"
    case Draft => "bg-gray-100 text-gray-800"
  }

  /** Each status has its own badge class. */
  lemma StatusColorsDistinct(s1: BudgetStatus, s2: BudgetStatus)
    requires s1 != s2
    ensures StatusColor(s1) != StatusColor(s2)
  {
  }
}
