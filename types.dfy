/**
 * The entities of the expense tracker: the closed set of categories and its
 * display order, the stored expense record, the on-screen filter criteria and
 * the raw form input from which a record is made.
 */
module ExpenseTypes {
  import opened Seqs

  /** Exactly six categories; nothing else can be a category. */
  datatype Category = Food | Transportation | Entertainment | Shopping | Bills | Other

  /** The string each category is in the source (its name on screen and in every export). */
  function CategoryName(c: Category): (s: string)
  {
    match c
    case Food => "Food"
    case Transportation => "Transportation"
    case Entertainment => "Entertainment"
    case Shopping => "Shopping"
    case Bills => "Bills"
    case Other => "Other"
  }

  /** `CATEGORIES`: the fixed display order. */
  const Categories: seq<Category> := [Food, Transportation, Entertainment, Shopping, Bills, Other]

  /** `CATEGORIES` lists every category exactly once. */
  lemma CategoriesComplete(c: Category)
    ensures c in Categories
    ensures Distinct(Categories) && |Categories| == 6
  {
  }

  /** Position of a category in `CATEGORIES`. */
  function CategoryIndex(c: Category): (i: nat)
    ensures i < |Categories| && Categories[i] == c
  {
    match c
    case Food => 0
    case Transportation => 1
    case Entertainment => 2
    case Shopping => 3
    case Bills => 4
    case Other => 5
  }

  /** Names identify categories, and none of them is the filter sentinel `'All'`. */
  lemma CategoryNameInjective(c: Category, d: Category)
    ensures CategoryName(c) == CategoryName(d) ==> c == d
    ensures CategoryName(c) != "All"
  {
  }

  /** An amount of money in whole cents. */
  type Cents = int

  /** A stored expense record. Dates are ISO `yyyy-MM-dd` text; `createdAt` an ISO timestamp. */
  datatype Expense = Expense(
    id: string,
    date: string,
    amount: Cents,
    category: Category,
    description: string,
    createdAt: string)

  /** `FilterState.category`: a category, or the distinct sentinel `'All'`. */
  datatype CategoryFilter = All | Only(category: Category)

  datatype FilterState = FilterState(
    search: string,
    category: CategoryFilter,
    dateFrom: string,
    dateTo: string)

  /** The form's fields: an expense without `id` and `createdAt`, with the amount as unparsed text. */
  datatype ExpenseFormData = ExpenseFormData(
    date: string,
    amount: string,
    category: Category,
    description: string)
}
