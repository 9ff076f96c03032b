/**
 * The filter bar (`FilterBar.tsx`): whether any criterion is set, the reset,
 * and the four input handlers, each of which rewrites one field.
 */
module FilterBar {
  import opened ExpenseTypes
  import Expenses

  /** `hasActiveFilters`: some text field is non-empty or the category is not `'All'`. */
  predicate HasActiveFilters(f: FilterState): (b: bool)
    ensures b <==> f != Expenses.InitialFilters
  {
    f.search != "" || f.category != All || f.dateFrom != "" || f.dateTo != ""
  }

  /** `clear`: the state the bar emits on reset. */
  function Clear(): (f: FilterState)
    ensures f == Expenses.InitialFilters
  {
    FilterState("", All, "", "")
  }

  /** The search box handler. */
  function SetSearch(f: FilterState, search: string): (r: FilterState)
    ensures r.search == search
    ensures r.category == f.category && r.dateFrom == f.dateFrom && r.dateTo == f.dateTo
  {
    f.(search := search)
  }

  /** The category select handler. */
  function SetCategory(f: FilterState, category: CategoryFilter): (r: FilterState)
    ensures r.category == category
    ensures r.search == f.search && r.dateFrom == f.dateFrom && r.dateTo == f.dateTo
  {
    f.(category := category)
  }

  /** The from-date handler. */
  function SetDateFrom(f: FilterState, dateFrom: string): (r: FilterState)
    ensures r.dateFrom == dateFrom
    ensures r.search == f.search && r.category == f.category && r.dateTo == f.dateTo
  {
    f.(dateFrom := dateFrom)
  }

  /** The to-date handler. */
  function SetDateTo(f: FilterState, dateTo: string): (r: FilterState)
    ensures r.dateTo == dateTo
    ensures r.search == f.search && r.category == f.category && r.dateFrom == f.dateFrom
  {
    f.(dateTo := dateTo)
  }

  /** Inactive filters hide nothing from the list. */
  lemma InactiveKeepsAll(xs: seq<Expense>, f: FilterState)
    requires !HasActiveFilters(f)
    ensures Expenses.FilterExpenses(xs, f) == xs
  {
    Expenses.FilterInitialIsIdentity(xs);
  }

  /** Starting from a cleared bar, setting one field makes the bar active iff the new value is not the blank one. */
  lemma SingleFieldActivates(s: string, c: CategoryFilter)
    ensures HasActiveFilters(SetSearch(Clear(), s)) <==> s != ""
    ensures HasActiveFilters(SetCategory(Clear(), c)) <==> c != All
    ensures HasActiveFilters(SetDateFrom(Clear(), s)) <==> s != ""
    ensures HasActiveFilters(SetDateTo(Clear(), s)) <==> s != ""
  {
  }

  /** Whatever was typed, clearing resets the bar. */
  lemma ClearAfterEdits(s: string, c: CategoryFilter, from: string, to: string)
    ensures SetDateTo(SetDateFrom(SetCategory(SetSearch(Clear(), s), c), from), to) == FilterState(s, c, from, to)
    ensures !HasActiveFilters(Clear()) && Expenses.FilterExpenses([], Clear()) == []
  {
  }
}
