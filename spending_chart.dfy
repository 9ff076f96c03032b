/**
 * The dashboard charts (`SpendingChart.tsx`): bar and pie entries derived from
 * the per-category totals, and the empty-state branch.
 */
module SpendingChart {
  import opened Seqs
  import opened ExpenseTypes
  import Expenses

  datatype BarEntry = BarEntry(name: string, amount: Cents, fill: string)
  datatype PieEntry = PieEntry(name: string, value: Cents, fill: string)

  /** `categoryColors` from `Badge.tsx`. */
  function Color(c: Category): (s: string)
    ensures |s| == 7 && s[0] == '#'
  {
    match c
    case Food => "#16a34a"
    case Transportation => "#2563eb"
    case Entertainment => "#9333ea"
    case Shopping => "#ea580c"
    case Bills => "#dc2626"
    case Other => "#64748b"
  }

  /** Each category has a colour of its own. */
  lemma ColorsDistinct(c: Category, d: Category)
    ensures Color(c) == Color(d) <==> c == d
  {
  }

  /** `byCategory[cat] || 0`: a missing category counts as 0. */
  function AmountOf(byCategory: map<Category, Cents>, c: Category): Cents
  {
    if c in byCategory then byCategory[c] else 0
  }

  function Bar(byCategory: map<Category, Cents>, c: Category): BarEntry
  {
    BarEntry(CategoryName(c), AmountOf(byCategory, c), Color(c))
  }

  /** One candidate bar per category, in `CATEGORIES` order, before the filter. */
  function AllBars(byCategory: map<Category, Cents>): (r: seq<BarEntry>)
    ensures |r| == |Categories|
    ensures forall i :: 0 <= i < |r| ==> r[i] == Bar(byCategory, Categories[i])
  {
    seq(|Categories|, i requires 0 <= i < |Categories| => Bar(byCategory, Categories[i]))
  }

  function PositiveFn(): BarEntry -> bool
  {
    (d: BarEntry) => d.amount > 0
  }

  /** `barData`: the bars whose amount is above 0. */
  function BarData(byCategory: map<Category, Cents>): (r: seq<BarEntry>)
    ensures |r| <= |Categories|
    ensures forall i :: 0 <= i < |r| ==> r[i].amount > 0
  {
    Select(AllBars(byCategory), PositiveFn())
  }

  /** `pieData`: the bars renamed, one pie slice per bar. */
  function PieData(bars: seq<BarEntry>): (r: seq<PieEntry>)
    ensures |r| == |bars|
    ensures forall i :: 0 <= i < |r| ==>
              r[i].name == bars[i].name && r[i].value == bars[i].amount && r[i].fill == bars[i].fill
  {
    seq(|bars|, i requires 0 <= i < |bars| => PieEntry(bars[i].name, bars[i].amount, bars[i].fill))
  }

  /** The "No data yet" branch. */
  predicate ShowsPlaceholder(byCategory: map<Category, Cents>)
  {
    |BarData(byCategory)| == 0
  }

  /**
   * The bars keep `CATEGORIES` order, hold at most six entries, and a category
   * has a bar (with its total and colour) iff its total is above 0.
   */
  lemma BarDataSpec(byCategory: map<Category, Cents>, c: Category)
    ensures IsSubsequence(BarData(byCategory), AllBars(byCategory))
    ensures |BarData(byCategory)| <= 6
    ensures Bar(byCategory, c) in BarData(byCategory) <==> AmountOf(byCategory, c) > 0
    ensures forall i :: 0 <= i < |BarData(byCategory)| ==> BarData(byCategory)[i].amount > 0
  {
    SelectIsSubsequence(AllBars(byCategory), PositiveFn());
    SelectMembership(AllBars(byCategory), PositiveFn(), Bar(byCategory, c));
    assert AllBars(byCategory)[CategoryIndex(c)] == Bar(byCategory, c);
  }

  /** Every bar belongs to a category with a positive total. */
  lemma BarsComeFromCategories(byCategory: map<Category, Cents>, d: BarEntry)
    requires d in BarData(byCategory)
    ensures exists c :: d == Bar(byCategory, c) && AmountOf(byCategory, c) > 0
  {
    SelectMembership(AllBars(byCategory), PositiveFn(), d);
    var i :| 0 <= i < |AllBars(byCategory)| && AllBars(byCategory)[i] == d;
    assert d == Bar(byCategory, Categories[i]);
  }

  /** The placeholder is shown iff no category has a positive total. */
  lemma PlaceholderIff(byCategory: map<Category, Cents>)
    ensures ShowsPlaceholder(byCategory) <==> forall c :: AmountOf(byCategory, c) <= 0
  {
    if ShowsPlaceholder(byCategory) {
      forall c ensures AmountOf(byCategory, c) <= 0 {
        BarDataSpec(byCategory, c);
      }
    } else {
      BarsComeFromCategories(byCategory, BarData(byCategory)[0]);
    }
  }

  /** The pie slices mirror the bars. */
  lemma PieMirrorsBars(byCategory: map<Category, Cents>, i: int)
    requires 0 <= i < |BarData(byCategory)|
    ensures |PieData(BarData(byCategory))| == |BarData(byCategory)|
    ensures PieData(BarData(byCategory))[i] ==
              PieEntry(BarData(byCategory)[i].name, BarData(byCategory)[i].amount, BarData(byCategory)[i].fill)
  {
  }

  /** A category holding a record whose amounts are all positive has a positive sum. */
  lemma CategorySumPositive(xs: seq<Expense>, c: Category)
    requires forall i :: 0 <= i < |xs| ==> xs[i].amount > 0
    requires c in Expenses.CategoriesPresent(xs)
    ensures Expenses.CategorySum(xs, c) > 0
  {
    var p := Expenses.IsCategoryFn(c);
    var r := Select(xs, p);
    var i :| 0 <= i < |xs| && xs[i].category == c;
    SelectMembership(xs, p, xs[i]);
    forall k | 0 <= k < |r| ensures r[k].amount > 0 {
      SelectMembership(xs, p, r[k]);
    }
    Expenses.TotalPositive(r);
  }

  /**
   * Fed by the dashboard statistics of records with positive amounts, a category
   * gets a bar iff some record has it, and the placeholder appears iff there are no records.
   */
  lemma ChartOfExpenses(xs: seq<Expense>, c: Category)
    requires forall i :: 0 <= i < |xs| ==> xs[i].amount > 0
    ensures Bar(Expenses.ByCategory(xs), c) in BarData(Expenses.ByCategory(xs)) <==> c in Expenses.CategoriesPresent(xs)
    ensures ShowsPlaceholder(Expenses.ByCategory(xs)) <==> xs == []
  {
    var m := Expenses.ByCategory(xs);
    BarDataSpec(m, c);
    if c in Expenses.CategoriesPresent(xs) {
      CategorySumPositive(xs, c);
    }
    PlaceholderIff(m);
    if xs != [] {
      CategorySumPositive(xs, xs[0].category);
      assert AmountOf(m, xs[0].category) > 0;
    }
  }
}
