/**
 * The expense store and its derived views (`useExpenses`): add, update and
 * delete on the ordered collection (newest first), the on-screen filter, and
 * the statistics (total, monthly total, per-category sums, top category,
 * count) with the five most recent records.
 */
module Expenses {
  import opened Optional
  import opened Seqs
  import opened Text
  import opened ExpenseTypes
  import Formatters

  // ---------------------------------------------------------------- records from form data

  /** The amount `parseFloat` reads from the form's text, in cents; `None` is NaN. */
  function ParseAmount(text: string): (r: Option<Cents>)
    ensures r.None? <==> ParseDecimal(text).None?
    ensures r.Some? && ParseDecimal(text).value.scale <= 2 ==>
              r.value * Pow10(ParseDecimal(text).value.scale) == 100 * ParseDecimal(text).value.units
  {
    match ParseDecimal(text)
    case None => None
    case Some(d) => Some(ToCents(d))
  }

  /** `toFixed(2)` text of a stored amount parses back to the same amount. */
  lemma ParseAmountOfFixed2(cents: int)
    ensures ParseAmount(FormatFixed2(cents)) == Some(cents)
  {
    ParseFixed2(cents);
  }

  /** The record `addExpense` builds from the form, with the fresh id and timestamp passed in. */
  function NewExpense(data: ExpenseFormData, id: string, createdAt: string): (e: Expense)
    requires ParseAmount(data.amount).Some?
    ensures e.id == id && e.createdAt == createdAt && e.date == data.date && e.category == data.category
    ensures Some(e.amount) == ParseAmount(data.amount)
    ensures |e.description| <= |data.description|
    ensures e.description == [] || (!IsJsSpace(e.description[0]) && !IsJsSpace(e.description[|e.description| - 1]))
  {
    Expense(id, data.date, ParseAmount(data.amount).value, data.category, Trim(data.description), createdAt)
  }

  /** `{...e, date, amount, category, description}`: the four editable fields replaced. */
  function WithForm(e: Expense, data: ExpenseFormData): (r: Expense)
    requires ParseAmount(data.amount).Some?
  {
    e.(date := data.date, amount := ParseAmount(data.amount).value,
       category := data.category, description := Trim(data.description))
  }

  /** `prev.map(e => e.id === id ? {...} : e)`. */
  function Updated(xs: seq<Expense>, id: string, data: ExpenseFormData): (r: seq<Expense>)
    requires ParseAmount(data.amount).Some?
    ensures |r| == |xs|
    ensures forall i :: 0 <= i < |r| ==> r[i].id == xs[i].id && r[i].createdAt == xs[i].createdAt
  {
    seq(|xs|, i requires 0 <= i < |xs| => if xs[i].id == id then WithForm(xs[i], data) else xs[i])
  }

  function IdDiffers(id: string): Expense -> bool
  {
    (e: Expense) => e.id != id
  }

  /** `prev.filter(e => e.id !== id)`. */
  function Deleted(xs: seq<Expense>, id: string): (r: seq<Expense>)
    ensures |r| <= |xs|
    ensures forall i :: 0 <= i < |r| ==> r[i].id != id
  {
    Select(xs, IdDiffers(id))
  }

  function Ids(xs: seq<Expense>): set<string>
  {
    set i | 0 <= i < |xs| :: xs[i].id
  }

  /** No two records share an id. */
  predicate UniqueIds(xs: seq<Expense>)
  {
    forall i, j :: 0 <= i < j < |xs| ==> xs[i].id != xs[j].id
  }

  /**
   * The `expenses` state. `saved` is the storage slot the persist effect writes:
   * once hydrated, every change is written through.
   */
  class ExpenseStore {
    var expenses: seq<Expense>
    var hydrated: bool
    var saved: seq<Expense>

    ghost predicate Valid()
      reads this
    {
      hydrated ==> saved == expenses
    }

    /** Initial state before the mount effect: empty and not hydrated. */
    constructor (slot: seq<Expense>)
      ensures Valid() && expenses == [] && !hydrated && saved == slot
    {
      expenses, hydrated, saved := [], false, slot;
    }

    /** The mount effect: the collection becomes what `loadExpenses` returned and is written back. */
    method Hydrate(loaded: seq<Expense>)
      modifies this
      ensures Valid() && hydrated && expenses == loaded
    {
      expenses, hydrated := loaded, true;
      saved := expenses;
    }

    method Add(data: ExpenseFormData, id: string, createdAt: string)
      requires Valid() && ParseAmount(data.amount).Some?
      modifies this
      ensures Valid() && hydrated == old(hydrated)
      ensures expenses == [NewExpense(data, id, createdAt)] + old(expenses)
      ensures !hydrated ==> saved == old(saved)
    {
      var e := NewExpense(data, id, createdAt);
      var updated := [e] + expenses;
      expenses := updated;
      if hydrated { saved := updated; }
    }

    method Update(id: string, data: ExpenseFormData)
      requires Valid() && ParseAmount(data.amount).Some?
      modifies this
      ensures Valid() && hydrated == old(hydrated)
      ensures expenses == Updated(old(expenses), id, data)
      ensures !hydrated ==> saved == old(saved)
    {
      expenses := Updated(expenses, id, data);
      if hydrated { saved := expenses; }
    }

    method Delete(id: string)
      requires Valid()
      modifies this
      ensures Valid() && hydrated == old(hydrated)
      ensures expenses == Deleted(old(expenses), id)
      ensures !hydrated ==> saved == old(saved)
    {
      expenses := Deleted(expenses, id);
      if hydrated { saved := expenses; }
    }
  }

  /** The added record is the new head; the old records follow in order; its text is trimmed. */
  lemma AddShape(xs: seq<Expense>, data: ExpenseFormData, id: string, createdAt: string)
    requires ParseAmount(data.amount).Some?
    ensures var ys := [NewExpense(data, id, createdAt)] + xs;
            |ys| == |xs| + 1 && ys[1..] == xs
            && ys[0].id == id && ys[0].createdAt == createdAt
            && ys[0].description == Trim(data.description)
            && Trim(ys[0].description) == ys[0].description
            && Some(ys[0].amount) == ParseAmount(data.amount)
  {
    var ys := [NewExpense(data, id, createdAt)] + xs;
    assert ys[1..] == xs;
    TrimIdempotent(data.description);
  }

  /** Adding a record whose id is fresh keeps ids unique. */
  lemma AddKeepsIdsUnique(xs: seq<Expense>, e: Expense)
    requires UniqueIds(xs) && e.id !in Ids(xs)
    ensures UniqueIds([e] + xs)
  {
    var ys := [e] + xs;
    forall i, j | 0 <= i < j < |ys| ensures ys[i].id != ys[j].id {
      assert ys[j] == xs[j - 1];
      if i > 0 { assert ys[i] == xs[i - 1]; }
    }
  }

  /**
   * `updateExpense` keeps length, order and every other record; a matching record
   * keeps its id and creation time and takes the four fields from the form.
   */
  lemma UpdatedSpec(xs: seq<Expense>, id: string, data: ExpenseFormData, i: int)
    requires ParseAmount(data.amount).Some? && 0 <= i < |xs|
    ensures |Updated(xs, id, data)| == |xs|
    ensures var r := Updated(xs, id, data)[i];
            if xs[i].id == id then
              r.id == xs[i].id && r.createdAt == xs[i].createdAt && r.date == data.date
              && Some(r.amount) == ParseAmount(data.amount) && r.category == data.category
              && r.description == Trim(data.description)
            else r == xs[i]
  {
  }

  /** An id that no record has leaves the list unchanged. */
  lemma UpdateAbsentId(xs: seq<Expense>, id: string, data: ExpenseFormData)
    requires ParseAmount(data.amount).Some? && id !in Ids(xs)
    ensures Updated(xs, id, data) == xs
  {
    forall i | 0 <= i < |xs| ensures Updated(xs, id, data)[i] == xs[i] {
      assert xs[i].id in Ids(xs);
    }
  }

  /** Applying the same update twice is the same as applying it once. */
  lemma UpdateIdempotent(xs: seq<Expense>, id: string, data: ExpenseFormData)
    requires ParseAmount(data.amount).Some?
    ensures Updated(Updated(xs, id, data), id, data) == Updated(xs, id, data)
  {
  }

  /** Updates never change the ids, so uniqueness is kept. */
  lemma UpdateKeepsIds(xs: seq<Expense>, id: string, data: ExpenseFormData)
    requires ParseAmount(data.amount).Some?
    ensures Ids(Updated(xs, id, data)) == Ids(xs)
    ensures UniqueIds(xs) ==> UniqueIds(Updated(xs, id, data))
  {
    var ys := Updated(xs, id, data);
    assert forall i :: 0 <= i < |xs| ==> ys[i].id == xs[i].id;
    assert forall k :: k in Ids(ys) ==> k in Ids(xs);
    assert forall k :: k in Ids(xs) ==> k in Ids(ys);
  }

  /**
   * `deleteExpense` keeps, in order, exactly the records with another id;
   * no record with the id remains.
   */
  lemma DeletedSpec(xs: seq<Expense>, id: string, e: Expense)
    ensures IsSubsequence(Deleted(xs, id), xs)
    ensures e in Deleted(xs, id) <==> e in xs && e.id != id
    ensures id !in Ids(Deleted(xs, id))
  {
    SelectIsSubsequence(xs, IdDiffers(id));
    SelectMembership(xs, IdDiffers(id), e);
    var ys := Deleted(xs, id);
    assert forall i :: 0 <= i < |ys| ==> IdDiffers(id)(ys[i]);
  }

  /** Deleting an id that no record has leaves the list unchanged. */
  lemma DeleteAbsentId(xs: seq<Expense>, id: string)
    requires id !in Ids(xs)
    ensures Deleted(xs, id) == xs
  {
    forall i | 0 <= i < |xs| ensures IdDiffers(id)(xs[i]) {
      assert xs[i].id in Ids(xs);
    }
    SelectAllPass(xs, IdDiffers(id));
  }

  /** Deleting removes exactly the records with that id (at most one when ids are unique). */
  lemma DeleteUniqueRemovesOne(xs: seq<Expense>, id: string)
    requires UniqueIds(xs)
    ensures |Deleted(xs, id)| == |xs| - (if id in Ids(xs) then 1 else 0)
    decreases |xs|
  {
    if xs == [] {
    } else {
      var t := xs[1..];
      assert UniqueIds(t) by {
        forall i, j | 0 <= i < j < |t| ensures t[i].id != t[j].id {
          assert t[i] == xs[i + 1] && t[j] == xs[j + 1];
        }
      }
      DeleteUniqueRemovesOne(t, id);
      assert Ids(xs) == {xs[0].id} + Ids(t) by {
        forall k | k in Ids(xs) ensures k in {xs[0].id} + Ids(t) {
          var i :| 0 <= i < |xs| && xs[i].id == k;
          if i > 0 { assert t[i - 1] == xs[i]; }
        }
        forall k | k in Ids(t) ensures k in Ids(xs) {
          var i :| 0 <= i < |t| && t[i].id == k;
          assert xs[i + 1] == t[i];
        }
      }
      if xs[0].id == id {
        forall i | 0 <= i < |t| ensures t[i].id != id {
          assert t[i] == xs[i + 1];
        }
      }
    }
  }

  // ---------------------------------------------------------------- on-screen filter

  /** The initial `filters` state. */
  const InitialFilters: FilterState := FilterState("", All, "", "")

  /** The four conditions of `filteredExpenses`, all of which a kept record meets. */
  predicate Matches(e: Expense, f: FilterState)
  {
    && (f.search == "" || Contains(Lower(e.description), Lower(f.search)))
    && (f.category == All || f.category == Only(e.category))
    && (f.dateFrom == "" || !Less(e.date, f.dateFrom))
    && (f.dateTo == "" || !Less(f.dateTo, e.date))
  }

  function MatchesFn(f: FilterState): Expense -> bool
  {
    (e: Expense) => Matches(e, f)
  }

  /** `filteredExpenses`: the records, in order, that meet all four conditions. */
  function FilterExpenses(xs: seq<Expense>, f: FilterState): (r: seq<Expense>)
    ensures |r| <= |xs|
    ensures forall i :: 0 <= i < |r| ==> Matches(r[i], f)
  {
    Select(xs, MatchesFn(f))
  }

  /** An order-preserving, idempotent filter that keeps a record iff all four conditions hold. */
  lemma FilterSpec(xs: seq<Expense>, f: FilterState, e: Expense)
    ensures IsSubsequence(FilterExpenses(xs, f), xs)
    ensures FilterExpenses(FilterExpenses(xs, f), f) == FilterExpenses(xs, f)
    ensures e in FilterExpenses(xs, f) <==>
              e in xs
              && (f.search == "" || Contains(Lower(e.description), Lower(f.search)))
              && (f.category == All || e.category == f.category.category)
              && (f.dateFrom == "" || !Less(e.date, f.dateFrom))
              && (f.dateTo == "" || !Less(f.dateTo, e.date))
  {
    SelectIsSubsequence(xs, MatchesFn(f));
    SelectIdempotent(xs, MatchesFn(f));
    SelectMembership(xs, MatchesFn(f), e);
  }

  /** The initial (cleared) filters keep every record. */
  lemma FilterInitialIsIdentity(xs: seq<Expense>)
    ensures FilterExpenses(xs, InitialFilters) == xs
  {
    SelectAllPass(xs, MatchesFn(InitialFilters));
  }

  // ---------------------------------------------------------------- sums

  /** `xs.reduce((sum, e) => sum + e.amount, 0)`. */
  function Total(xs: seq<Expense>): (r: Cents)
    ensures (forall i :: 0 <= i < |xs| ==> xs[i].amount >= 0) ==> r >= 0
  {
    if xs == [] then 0 else xs[0].amount + Total(xs[1..])
  }

  lemma {:induction false} TotalAppend(a: seq<Expense>, b: seq<Expense>)
    ensures Total(a + b) == Total(a) + Total(b)
  {
    if a == [] {
      assert a + b == b;
    } else {
      assert (a + b)[1..] == a[1..] + b;
      TotalAppend(a[1..], b);
    }
  }

  /** A total of positive amounts is positive unless the list is empty. */
  lemma {:induction false} TotalPositive(xs: seq<Expense>)
    requires forall i :: 0 <= i < |xs| ==> xs[i].amount > 0
    ensures Total(xs) >= 0 && (Total(xs) == 0 <==> xs == [])
  {
    if xs != [] {
      TotalPositive(xs[1..]);
    }
  }

  predicate InDateRange(e: Expense, from: string, to: string)
  {
    !Less(e.date, from) && !Less(to, e.date)
  }

  function InDateRangeFn(from: string, to: string): Expense -> bool
  {
    (e: Expense) => InDateRange(e, from, to)
  }

  /** `monthly`: the total over from <= date <= to. */
  function MonthlyTotal(xs: seq<Expense>, from: string, to: string): (r: Cents)
    ensures (forall i :: 0 <= i < |xs| ==> xs[i].amount >= 0) ==> 0 <= r <= Total(xs)
  {
    TotalSelectAtMost(xs, InDateRangeFn(from, to));
    Total(Select(xs, InDateRangeFn(from, to)))
  }

  /** With no negative amount, the total of a filtered list is between 0 and the whole total. */
  lemma {:induction false} TotalSelectAtMost(xs: seq<Expense>, p: Expense -> bool)
    ensures (forall i :: 0 <= i < |xs| ==> xs[i].amount >= 0) ==> 0 <= Total(Select(xs, p)) <= Total(xs)
  {
    if xs != [] {
      TotalSelectAtMost(xs[1..], p);
      var s := Select(xs[1..], p);
      if p(xs[0]) {
        assert Select(xs, p) == [xs[0]] + s;
        assert ([xs[0]] + s)[1..] == s;
      } else {
        assert Select(xs, p) == s;
      }
    }
  }

  /**
   * The monthly total is the total the list shows when only the two date
   * filters are set to the month's bounds.
   */
  lemma MonthlyTotalIsDateFilter(xs: seq<Expense>, from: string, to: string)
    requires to != ""
    ensures MonthlyTotal(xs, from, to) == Total(FilterExpenses(xs, FilterState("", All, from, to)))
  {
    var f := FilterState("", All, from, to);
    forall i | 0 <= i < |xs| ensures InDateRangeFn(from, to)(xs[i]) == MatchesFn(f)(xs[i]) {
      if from == "" {
        assert !Less(xs[i].date, from);
      }
    }
    SelectCongruent(xs, InDateRangeFn(from, to), MatchesFn(f));
  }

  function IsCategoryFn(c: Category): Expense -> bool
  {
    (e: Expense) => e.category == c
  }

  /** The sum of the amounts in one category. */
  function CategorySum(xs: seq<Expense>, c: Category): Cents
  {
    Total(Select(xs, IsCategoryFn(c)))
  }

  function CategoriesPresent(xs: seq<Expense>): set<Category>
  {
    set i | 0 <= i < |xs| :: xs[i].category
  }

  /** `byCategory`: one key per category present, holding that category's sum. */
  function ByCategory(xs: seq<Expense>): (m: map<Category, Cents>)
    ensures m.Keys == CategoriesPresent(xs)
  {
    map c | c in CategoriesPresent(xs) :: CategorySum(xs, c)
  }

  /** The order in which the `forEach` first inserts each category key: first occurrence in the list. */
  function KeyOrder(xs: seq<Expense>): (r: seq<Category>)
  {
    if xs == [] then []
    else
      var o := KeyOrder(xs[..|xs| - 1]);
      if xs[|xs| - 1].category in o then o else o + [xs[|xs| - 1].category]
  }

  lemma {:induction false} CategorySumStep(xs: seq<Expense>, e: Expense, c: Category)
    ensures CategorySum(xs + [e], c) == CategorySum(xs, c) + (if e.category == c then e.amount else 0)
  {
    SelectAppend(xs, [e], IsCategoryFn(c));
    TotalAppend(Select(xs, IsCategoryFn(c)), Select([e], IsCategoryFn(c)));
    assert [e][1..] == [];
  }

  lemma CategoriesPresentStep(xs: seq<Expense>, e: Expense)
    ensures CategoriesPresent(xs + [e]) == CategoriesPresent(xs) + {e.category}
  {
    var ys := xs + [e];
    forall c | c in CategoriesPresent(ys) ensures c in CategoriesPresent(xs) + {e.category} {
      var i :| 0 <= i < |ys| && ys[i].category == c;
      if i < |xs| { assert xs[i] == ys[i]; }
    }
    forall c | c in CategoriesPresent(xs) ensures c in CategoriesPresent(ys) {
      var i :| 0 <= i < |xs| && xs[i].category == c;
      assert ys[i] == xs[i];
    }
    assert ys[|xs|] == e;
  }

  lemma KeyOrderStep(xs: seq<Expense>, e: Expense)
    ensures KeyOrder(xs + [e]) == if e.category in KeyOrder(xs) then KeyOrder(xs) else KeyOrder(xs) + [e.category]
  {
    assert (xs + [e])[..|xs + [e]| - 1] == xs;
  }

  /** The key order is duplicate-free and lists exactly the categories present. */
  lemma KeyOrderSpec(xs: seq<Expense>)
    ensures Distinct(KeyOrder(xs))
    ensures forall c :: c in KeyOrder(xs) <==> c in CategoriesPresent(xs)
  {
    KeyOrderDistinct(xs);
    forall c ensures c in KeyOrder(xs) <==> c in CategoriesPresent(xs) {
      KeyOrderMember(xs, c);
    }
  }

  lemma {:induction false} KeyOrderDistinct(xs: seq<Expense>)
    ensures Distinct(KeyOrder(xs))
  {
    if xs != [] {
      var init, e := xs[..|xs| - 1], xs[|xs| - 1];
      KeyOrderDistinct(init);
      assert init + [e] == xs;
      KeyOrderStep(init, e);
    }
  }

  lemma {:induction false} KeyOrderMember(xs: seq<Expense>, c: Category)
    ensures c in KeyOrder(xs) <==> c in CategoriesPresent(xs)
  {
    if xs != [] {
      var init, e := xs[..|xs| - 1], xs[|xs| - 1];
      KeyOrderMember(init, c);
      assert init + [e] == xs;
      KeyOrderStep(init, e);
      CategoriesPresentStep(init, e);
    }
  }

  /** Every key in the insertion order has an entry in `byCategory`. */
  lemma KeyOrderInMap(xs: seq<Expense>)
    ensures forall k :: 0 <= k < |KeyOrder(xs)| ==> KeyOrder(xs)[k] in ByCategory(xs)
  {
    forall k | 0 <= k < |KeyOrder(xs)| ensures KeyOrder(xs)[k] in ByCategory(xs) {
      KeyOrderMember(xs, KeyOrder(xs)[k]);
    }
  }

  /** Index of the first record with category `c`. */
  function FirstIndex(xs: seq<Expense>, c: Category): (i: nat)
    requires c in CategoriesPresent(xs)
    ensures i < |xs| && xs[i].category == c
    ensures forall j :: 0 <= j < i ==> xs[j].category != c
  {
    if xs[0].category == c then 0
    else
      assert c in CategoriesPresent(xs[1..]) by {
        var k :| 0 <= k < |xs| && xs[k].category == c;
        assert xs[1..][k - 1] == xs[k];
      }
      1 + FirstIndex(xs[1..], c)
  }

  /** Earlier keys in the insertion order are categories that occur earlier in the list. */
  lemma {:induction false} KeyOrderByFirstOccurrence(xs: seq<Expense>, i: int, j: int)
    requires 0 <= i < j < |KeyOrder(xs)|
    ensures KeyOrder(xs)[i] in CategoriesPresent(xs) && KeyOrder(xs)[j] in CategoriesPresent(xs)
    ensures FirstIndex(xs, KeyOrder(xs)[i]) < FirstIndex(xs, KeyOrder(xs)[j])
  {
    var init, e := xs[..|xs| - 1], xs[|xs| - 1];
    assert init + [e] == xs;
    KeyOrderStep(init, e);
    var o := KeyOrder(init);
    var ci, cj := KeyOrder(xs)[i], KeyOrder(xs)[j];
    assert ci in KeyOrder(xs) && cj in KeyOrder(xs);
    KeyOrderMember(xs, ci);
    KeyOrderMember(xs, cj);
    KeyOrderMember(init, ci);
    KeyOrderMember(init, cj);
    if j < |o| {
      KeyOrderByFirstOccurrence(init, i, j);
      FirstIndexPrefix(init, e, ci);
      FirstIndexPrefix(init, e, cj);
    } else {
      assert cj == e.category && cj !in o;
      assert ci == o[i] && ci in o;
      FirstIndexPrefix(init, e, ci);
      assert cj !in CategoriesPresent(init);
      LastIsFirst(init, e);
    }
  }

  lemma FirstIndexPrefix(xs: seq<Expense>, e: Expense, c: Category)
    requires c in CategoriesPresent(xs)
    ensures c in CategoriesPresent(xs + [e]) && FirstIndex(xs + [e], c) == FirstIndex(xs, c)
  {
    CategoriesPresentStep(xs, e);
    var ys := xs + [e];
    var i := FirstIndex(xs, c);
    assert ys[i] == xs[i];
    forall j | 0 <= j < i ensures ys[j].category != c {
      assert ys[j] == xs[j];
    }
  }

  lemma LastIsFirst(xs: seq<Expense>, e: Expense)
    requires e.category !in CategoriesPresent(xs)
    ensures e.category in CategoriesPresent(xs + [e]) && FirstIndex(xs + [e], e.category) == |xs|
  {
    CategoriesPresentStep(xs, e);
    var ys := xs + [e];
    forall j | 0 <= j < |xs| ensures ys[j].category != e.category {
      assert ys[j] == xs[j];
      assert xs[j].category in CategoriesPresent(xs);
    }
    assert ys[|xs|] == e;
  }

  /** One `forEach` step on the running sums: `(byCategory[c] || 0) + amount`. */
  function AddAmount(m: map<Category, Cents>, e: Expense): (r: map<Category, Cents>)
  {
    m[e.category := (if e.category in m then m[e.category] else 0) + e.amount]
  }

  /** One `forEach` step on the key insertion order: a new key goes last. */
  function AddKey(keys: seq<Category>, c: Category): (r: seq<Category>)
  {
    if c in keys then keys else keys + [c]
  }

  /** `m` holds, for each category present in `done`, that category's sum. */
  predicate Tallied(m: map<Category, Cents>, done: seq<Expense>)
  {
    m.Keys == CategoriesPresent(done) && forall c :: c in m ==> m[c] == CategorySum(done, c)
  }

  /** Adding one record to the running sums of `done` gives the sums of `done + [e]`. */
  lemma TalliedAppend(m: map<Category, Cents>, done: seq<Expense>, e: Expense)
    requires Tallied(m, done)
    ensures Tallied(AddAmount(m, e), done + [e])
  {
    var m' := AddAmount(m, e);
    CategoriesPresentStep(done, e);
    assert m'.Keys == m.Keys + {e.category};
    forall c | c in m' ensures m'[c] == CategorySum(done + [e], c) {
      TalliedAppendAt(m, done, e, c);
    }
  }

  /** The running sum of one category after the step. */
  lemma TalliedAppendAt(m: map<Category, Cents>, done: seq<Expense>, e: Expense, c: Category)
    requires Tallied(m, done) && c in AddAmount(m, e)
    ensures AddAmount(m, e)[c] == CategorySum(done + [e], c)
  {
    CategorySumStep(done, e, c);
    if c != e.category {
      assert AddAmount(m, e)[c] == m[c];
    } else if c in m {
      assert AddAmount(m, e)[c] == m[c] + e.amount;
    } else {
      AbsentCategorySumsToZero(done, c);
      assert AddAmount(m, e)[c] == e.amount;
    }
  }

  lemma TalliedStep(m: map<Category, Cents>, xs: seq<Expense>, i: int)
    requires 0 <= i < |xs| && Tallied(m, xs[..i])
    ensures Tallied(AddAmount(m, xs[i]), xs[..i + 1])
  {
    assert xs[..i + 1] == xs[..i] + [xs[i]];
    TalliedAppend(m, xs[..i], xs[i]);
  }

  lemma TalliedIsByCategory(m: map<Category, Cents>, xs: seq<Expense>)
    requires Tallied(m, xs)
    ensures m == ByCategory(xs)
  {
  }

  lemma KeyOrderPrefixStep(xs: seq<Expense>, i: int)
    requires 0 <= i < |xs|
    ensures KeyOrder(xs[..i + 1]) == AddKey(KeyOrder(xs[..i]), xs[i].category)
  {
    var ys := xs[..i];
    assert xs[..i + 1] == ys + [xs[i]];
    KeyOrderStep(ys, xs[i]);
  }

  /** The `forEach` that builds `byCategory`, returning the map and its key insertion order. */
  method ComputeByCategory(xs: seq<Expense>) returns (m: map<Category, Cents>, keys: seq<Category>)
    ensures m == ByCategory(xs) && keys == KeyOrder(xs)
  {
    m, keys := map[], [];
    var i := 0;
    while i < |xs|
      invariant 0 <= i <= |xs|
      invariant Tallied(m, xs[..i]) && keys == KeyOrder(xs[..i])
    {
      TalliedStep(m, xs, i);
      KeyOrderPrefixStep(xs, i);
      m, keys := AddAmount(m, xs[i]), AddKey(keys, xs[i].category);
      i := i + 1;
    }
    assert xs[..i] == xs;
    TalliedIsByCategory(m, xs);
  }

  /** Sum of the six category totals, reading an absent key as 0. */
  function SumByCategory(m: map<Category, Cents>): Cents
  {
    (if Food in m then m[Food] else 0) + (if Transportation in m then m[Transportation] else 0)
    + (if Entertainment in m then m[Entertainment] else 0) + (if Shopping in m then m[Shopping] else 0)
    + (if Bills in m then m[Bills] else 0) + (if Other in m then m[Other] else 0)
  }

  lemma CategorySumCons(xs: seq<Expense>, c: Category)
    requires xs != []
    ensures CategorySum(xs, c) == (if xs[0].category == c then xs[0].amount else 0) + CategorySum(xs[1..], c)
  {
    var p := IsCategoryFn(c);
    var r := Select(xs[1..], p);
    if p(xs[0]) {
      assert Select(xs, p) == [xs[0]] + r;
      assert ([xs[0]] + r)[1..] == r;
    } else {
      assert Select(xs, p) == r;
    }
  }

  lemma {:induction false} CategorySumsAddUp(xs: seq<Expense>)
    ensures CategorySum(xs, Food) + CategorySum(xs, Transportation) + CategorySum(xs, Entertainment)
            + CategorySum(xs, Shopping) + CategorySum(xs, Bills) + CategorySum(xs, Other) == Total(xs)
  {
    if xs != [] {
      CategorySumsAddUp(xs[1..]);
      CategorySumCons(xs, Food);
      CategorySumCons(xs, Transportation);
      CategorySumCons(xs, Entertainment);
      CategorySumCons(xs, Shopping);
      CategorySumCons(xs, Bills);
      CategorySumCons(xs, Other);
    }
  }

  lemma AbsentCategorySumsToZero(xs: seq<Expense>, c: Category)
    requires c !in CategoriesPresent(xs)
    ensures CategorySum(xs, c) == 0
  {
    forall i | 0 <= i < |xs| ensures !IsCategoryFn(c)(xs[i]) {
      assert xs[i].category in CategoriesPresent(xs);
    }
    SelectNonePass(xs, IsCategoryFn(c));
  }

  /** The values of `byCategory` add up to `total`. */
  lemma ByCategorySumsToTotal(xs: seq<Expense>)
    ensures SumByCategory(ByCategory(xs)) == Total(xs)
  {
    CategorySumsAddUp(xs);
    LookupOrZero(xs, Food);
    LookupOrZero(xs, Transportation);
    LookupOrZero(xs, Entertainment);
    LookupOrZero(xs, Shopping);
    LookupOrZero(xs, Bills);
    LookupOrZero(xs, Other);
  }

  lemma LookupOrZero(xs: seq<Expense>, c: Category)
    ensures (if c in ByCategory(xs) then ByCategory(xs)[c] else 0) == CategorySum(xs, c)
  {
    if c !in CategoriesPresent(xs) {
      AbsentCategorySumsToZero(xs, c);
    }
  }

  // ---------------------------------------------------------------- top category and recent

  /**
   * The first key with the largest sum: the head of the stable descending sort of
   * `Object.entries(byCategory)`, whose entries come in key insertion order.
   */
  function FirstMax(keys: seq<Category>, m: map<Category, Cents>): (r: Option<Category>)
    requires forall i :: 0 <= i < |keys| ==> keys[i] in m
    ensures r.None? <==> keys == []
    ensures r.Some? ==> r.value in keys && forall i :: 0 <= i < |keys| ==> m[keys[i]] <= m[r.value]
  {
    if keys == [] then None
    else
      var rest := FirstMax(keys[1..], m);
      if rest.None? || m[keys[0]] >= m[rest.value] then Some(keys[0]) else rest
  }

  /** Every key before the first maximum is strictly smaller. */
  lemma {:induction false} FirstMaxIsFirst(keys: seq<Category>, m: map<Category, Cents>, i: int)
    requires forall k :: 0 <= k < |keys| ==> keys[k] in m
    requires keys != [] && 0 <= i < |keys|
    requires keys[i] != FirstMax(keys, m).value
    requires m[keys[i]] == m[FirstMax(keys, m).value]
    ensures exists j :: 0 <= j < i && keys[j] == FirstMax(keys, m).value
  {
    var rest := FirstMax(keys[1..], m);
    if i > 0 {
      if FirstMax(keys, m).value == keys[0] {
        assert keys[0] == FirstMax(keys, m).value;
      } else {
        assert FirstMax(keys, m) == rest;
        assert keys[1..][i - 1] == keys[i];
        FirstMaxIsFirst(keys[1..], m, i - 1);
        var j :| 0 <= j < i - 1 && keys[1..][j] == rest.value;
        assert keys[j + 1] == rest.value;
      }
    }
  }

  /** `topCategory`: `None` (undefined) for an empty list. */
  function TopCategory(xs: seq<Expense>): (r: Option<Category>)
    ensures r.Some? ==> r.value in CategoriesPresent(xs)
  {
    KeyOrderInMap(xs);
    KeyOrderSpec(xs);
    FirstMax(KeyOrder(xs), ByCategory(xs))
  }

  /** `topCategory` is undefined iff there are no expenses. */
  lemma TopCategoryNone(xs: seq<Expense>)
    ensures TopCategory(xs).None? <==> xs == []
  {
    if xs != [] {
      KeyOrderMember(xs, xs[0].category);
      assert xs[0].category in CategoriesPresent(xs);
    }
  }

  /** `topCategory` is a category present whose sum no other category exceeds. */
  lemma TopCategoryIsMax(xs: seq<Expense>, d: Category)
    requires TopCategory(xs).Some? && d in CategoriesPresent(xs)
    ensures TopCategory(xs).value in CategoriesPresent(xs)
    ensures CategorySum(xs, d) <= CategorySum(xs, TopCategory(xs).value)
  {
    var keys := KeyOrder(xs);
    KeyOrderMember(xs, d);
    KeyOrderMember(xs, TopCategory(xs).value);
    KeyOrderInMap(xs);
    var i :| 0 <= i < |keys| && keys[i] == d;
  }

  /** Among categories with the largest sum, `topCategory` is the one whose first record comes first. */
  lemma TopCategoryTieBreak(xs: seq<Expense>, d: Category)
    requires TopCategory(xs).Some? && d in CategoriesPresent(xs) && d != TopCategory(xs).value
    requires CategorySum(xs, d) == CategorySum(xs, TopCategory(xs).value)
    ensures TopCategory(xs).value in CategoriesPresent(xs)
    ensures FirstIndex(xs, TopCategory(xs).value) < FirstIndex(xs, d)
  {
    var keys, m, c := KeyOrder(xs), ByCategory(xs), TopCategory(xs).value;
    KeyOrderMember(xs, d);
    KeyOrderMember(xs, c);
    var i :| 0 <= i < |keys| && keys[i] == d;
    KeyOrderInMap(xs);
    FirstMaxIsFirst(keys, m, i);
    var j :| 0 <= j < i && keys[j] == c;
    KeyOrderByFirstOccurrence(xs, j, i);
  }

  /** `recentExpenses`: the first min(5, n) records, in list order. */
  function Recent(xs: seq<Expense>): (r: seq<Expense>)
    ensures |r| == (if |xs| < 5 then |xs| else 5) && r == xs[..|r|]
  {
    Take(xs, 5)
  }

  // ---------------------------------------------------------------- statistics

  datatype Stats = Stats(
    total: Cents,
    monthly: Cents,
    byCategory: map<Category, Cents>,
    topCategory: Option<Category>,
    count: nat)

  /** `monthly` for the clock's current year and month (`currentMonthISO`). */
  function ThisMonthTotal(xs: seq<Expense>, year: nat, monthIndex: int): Cents
    requires 0 <= monthIndex <= 11
  {
    var range := Formatters.CurrentMonthISO(year, monthIndex);
    MonthlyTotal(xs, range.0, range.1)
  }

  /** `stats` for the clock's current year and month. */
  method ComputeStats(xs: seq<Expense>, year: nat, monthIndex: int) returns (s: Stats)
    requires 0 <= monthIndex <= 11
    ensures s.total == Total(xs) && s.count == |xs|
    ensures s.monthly == ThisMonthTotal(xs, year, monthIndex)
    ensures s.byCategory == ByCategory(xs) && SumByCategory(s.byCategory) == s.total
    ensures s.topCategory == TopCategory(xs)
    ensures s.topCategory.None? <==> xs == []
  {
    TopCategoryNone(xs);
    ByCategorySumsToTotal(xs);
    var byCategory, keys := ComputeByCategory(xs);
    KeyOrderInMap(xs);
    s := Stats(Total(xs), ThisMonthTotal(xs, year, monthIndex), byCategory, FirstMax(keys, byCategory), |xs|);
  }

  // ---------------------------------------------------------------- worked scenarios

  lemma PresentOfTwo(a: Expense, b: Expense)
    ensures CategoriesPresent([a, b]) == {a.category, b.category}
  {
    var xs := [a, b];
    assert xs[0] == a && xs[1] == b;
    forall c | c in CategoriesPresent(xs) ensures c in {a.category, b.category} {
      var i :| 0 <= i < 2 && xs[i].category == c;
    }
  }

  /** Food 10.00 and Bills 30.00: the top category is Bills and the total 40.00. */
  lemma TwoCategoryScenario(a: Expense, b: Expense)
    requires a.category == Food && a.amount == 1000 && b.category == Bills && b.amount == 3000
    ensures TopCategory([a, b]) == Some(Bills) && Total([a, b]) == 4000
  {
    var xs := [a, b];
    assert xs[1..] == [b] && [b][1..] == [];
    PresentOfTwo(a, b);
    assert Select(xs, IsCategoryFn(Food)) == [a];
    assert Select(xs, IsCategoryFn(Bills)) == [b];
    assert Total([a]) == 1000 && Total([b]) == 3000;
    assert CategorySum(xs, Food) == 1000 && CategorySum(xs, Bills) == 3000;
    TopCategoryNone(xs);
    TopCategoryIsMax(xs, Bills);
  }

  /** Filtering that list by category Bills keeps only the Bills record. */
  lemma CategoryFilterScenario(a: Expense, b: Expense)
    requires a.category == Food && b.category == Bills
    ensures FilterExpenses([a, b], InitialFilters.(category := Only(Bills))) == [b]
  {
    var xs, f := [a, b], InitialFilters.(category := Only(Bills));
    assert !MatchesFn(f)(a) && MatchesFn(f)(b);
    assert xs[1..] == [b] && [b][1..] == [];
    assert Select([b], MatchesFn(f)) == [b] + Select([], MatchesFn(f));
    assert Select(xs, MatchesFn(f)) == Select([b], MatchesFn(f));
  }

  /** Equal sums: the category whose first record comes first in the list wins. */
  lemma TieScenario(a: Expense, b: Expense)
    requires a.category == Shopping && b.category == Food && a.amount == b.amount
    ensures TopCategory([a, b]) == Some(Shopping)
  {
    var xs := [a, b];
    assert xs[1..] == [b] && [b][1..] == [];
    PresentOfTwo(a, b);
    assert Select(xs, IsCategoryFn(Food)) == [b];
    assert Select(xs, IsCategoryFn(Shopping)) == [a];
    TopCategoryNone(xs);
    TopCategoryIsMax(xs, Shopping);
    if TopCategory(xs) == Some(Food) {
      TopCategoryTieBreak(xs, Shopping);
    }
  }
}
