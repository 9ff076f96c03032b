/**
 * The export dialog (`ExportModal.tsx`): its selection lists and their toggles,
 * the export guard, the filename fallback, and `handleExport`, which writes one
 * file per selected format in selection order and stops at the first failure.
 */
module ExportModal {
  import opened Optional
  import opened Seqs
  import opened Text
  import opened ExpenseTypes
  import opened ExportUtils
  import Expenses

  datatype ExportState = Idle | Loading | Success | Error

  /** What one format's export produces: the file name and the data written into it. */
  datatype Payload = CsvFile(text: string) | JsonFile(summary: JsonSummary) | PdfFile(report: PdfReport)
  datatype Download = Download(name: string, payload: Payload)

  /** Where an export throws, if it does: the index of the format, and the `Error`'s message if it is one. */
  datatype Failure = Failure(at: nat, message: Option<string>)

  const DefaultFilename: string := "expense-export"
  const DefaultError: string := "Export failed. Please try again."

  /** `filename.trim() || 'expense-export'`. */
  function CleanFilename(filename: string): (r: string)
    ensures r != ""
    ensures Trim(filename) != "" ==> r == Trim(filename)
    ensures Trim(filename) == "" ==> r == DefaultFilename
  {
    var t := Trim(filename);
    if t == "" then DefaultFilename else t
  }

  /** The file one format produces from the filtered records. */
  function Produce(f: ExportFormat, xs: seq<Expense>, base: string, exportedAt: string): (d: Download)
    ensures d.name == FileName(base, f)
    ensures (d.payload.CsvFile? <==> f == CSV) && (d.payload.JsonFile? <==> f == JSON) && (d.payload.PdfFile? <==> f == PDF)
    ensures d.payload.CsvFile? ==> |d.payload.text| >= 32 && d.payload.text[..32] == "Date,Description,Category,Amount"
    ensures d.payload.JsonFile? ==> d.payload.summary.expenses == xs && d.payload.summary.exportedAt == exportedAt
    ensures d.payload.PdfFile? ==> |d.payload.report.body| == |xs|
  {
    match f
    case CSV => Download(FileName(base, CSV), CsvFile(CsvText(xs)))
    case JSON => Download(FileName(base, JSON), JsonFile(JsonData(xs, exportedAt)))
    case PDF => Download(FileName(base, PDF), PdfFile(PdfData(xs)))
  }

  /** The downloads of a whole run, one per format in selection order. */
  function Planned(fs: seq<ExportFormat>, xs: seq<Expense>, base: string, exportedAt: string): (r: seq<Download>)
    ensures |r| == |fs|
    ensures forall i :: 0 <= i < |r| ==> r[i] == Produce(fs[i], xs, base, exportedAt)
  {
    seq(|fs|, i requires 0 <= i < |fs| => Produce(fs[i], xs, base, exportedAt))
  }

  /** How many formats are written before the run stops. */
  function Completed(failure: Option<Failure>, n: nat): (k: nat)
    ensures k <= n
    ensures k < n <==> failure.Some? && failure.value.at < n
  {
    if failure.Some? && failure.value.at < n then failure.value.at else n
  }

  /** The message a throw leaves: the `Error`'s own message, or the default text. */
  function ErrorText(f: Failure): (m: string)
    ensures f.message.Some? ==> m == f.message.value
    ensures f.message.None? ==> m == DefaultError
  {
    if f.message.Some? then f.message.value else DefaultError
  }

  /**
   * The `for` loop of `handleExport`: writes the formats in order until one
   * throws; `k` is the number written.
   */
  method WriteAll(fs: seq<ExportFormat>, xs: seq<Expense>, base: string, exportedAt: string, failure: Option<Failure>)
    returns (written: seq<Download>, k: nat)
    ensures k == Completed(failure, |fs|)
    ensures written == Planned(fs, xs, base, exportedAt)[..k]
  {
    ghost var plan := Planned(fs, xs, base, exportedAt);
    written, k := [], 0;
    while k < |fs| && !(failure.Some? && failure.value.at == k)
      invariant 0 <= k <= |fs|
      invariant failure.Some? ==> k <= failure.value.at
      invariant written == plan[..k]
    {
      assert plan[..k + 1] == plan[..k] + [plan[k]];
      written := written + [Produce(fs[k], xs, base, exportedAt)];
      k := k + 1;
    }
  }

  /** `toggleAllCategories`: clear a full selection, otherwise select every category. */
  function ToggleAll(prev: seq<Category>): (r: seq<Category>)
    ensures r == [] || r == Categories
    ensures Distinct(r)
  {
    CategoriesComplete(Food);
    if |prev| == |Categories| then [] else Categories
  }

  /** The number of times `c` occurs in `xs`. */
  function Occurrences(xs: seq<Category>, c: Category): nat
  {
    if xs == [] then 0 else (if xs[0] == c then 1 else 0) + Occurrences(xs[1..], c)
  }

  lemma {:induction false} OccurrencesZero(xs: seq<Category>, c: Category)
    ensures Occurrences(xs, c) == 0 <==> c !in xs
  {
    if xs != [] {
      OccurrencesZero(xs[1..], c);
      assert xs == [xs[0]] + xs[1..];
    }
  }

  lemma {:induction false} DistinctOccursOnce(xs: seq<Category>, c: Category)
    requires Distinct(xs)
    ensures Occurrences(xs, c) <= 1
  {
    if xs != [] {
      assert Distinct(xs[1..]) by {
        forall i, j | 0 <= i < j < |xs[1..]| ensures xs[1..][i] != xs[1..][j] {
          assert xs[1..][i] == xs[i + 1] && xs[1..][j] == xs[j + 1];
        }
      }
      DistinctOccursOnce(xs[1..], c);
      if xs[0] == c {
        forall k | 0 <= k < |xs[1..]| ensures xs[1..][k] != c {
          assert xs[1..][k] == xs[k + 1];
        }
        OccurrencesZero(xs[1..], c);
      }
    }
  }

  lemma {:induction false} OccurrencesAddUp(xs: seq<Category>)
    ensures Occurrences(xs, Food) + Occurrences(xs, Transportation) + Occurrences(xs, Entertainment)
            + Occurrences(xs, Shopping) + Occurrences(xs, Bills) + Occurrences(xs, Other) == |xs|
  {
    if xs != [] {
      OccurrencesAddUp(xs[1..]);
    }
  }

  /** A duplicate-free selection of six categories holds every category: `allCategoriesSelected` means what it says. */
  lemma {:induction false} FullSelectionIsAll(xs: seq<Category>, c: Category)
    requires Distinct(xs) && |xs| == |Categories|
    ensures c in xs
  {
    OccurrencesAddUp(xs);
    DistinctOccursOnce(xs, Food);
    DistinctOccursOnce(xs, Transportation);
    DistinctOccursOnce(xs, Entertainment);
    DistinctOccursOnce(xs, Shopping);
    DistinctOccursOnce(xs, Bills);
    DistinctOccursOnce(xs, Other);
    OccurrencesZero(xs, c);
  }

  /** Toggling all either selects nothing or every category once, in `CATEGORIES` order. */
  lemma ToggleAllSpec(prev: seq<Category>, c: Category)
    ensures |prev| == |Categories| ==> ToggleAll(prev) == []
    ensures |prev| != |Categories| ==> ToggleAll(prev) == Categories && c in ToggleAll(prev)
    ensures Distinct(ToggleAll(prev))
    ensures ToggleAll(ToggleAll(prev)) == (if |prev| == |Categories| then Categories else [])
  {
  }

  /** Selecting no category exports every record in the date range, as selecting all does. */
  lemma NoneSelectedExportsAll(xs: seq<Expense>, dateFrom: string, dateTo: string)
    ensures FilterForExport(xs, ExportFilterOptions(dateFrom, dateTo, ToggleAll(Categories)))
         == FilterForExport(xs, ExportFilterOptions(dateFrom, dateTo, Categories))
  {
    NoCategoryMeansAll(xs, dateFrom, dateTo);
  }

  /** The plan writes each file under the cleaned base name, and a format selected once is written once. */
  lemma PlannedSpec(fs: seq<ExportFormat>, xs: seq<Expense>, filename: string, exportedAt: string, i: int, j: int)
    requires Distinct(fs) && 0 <= i < j < |fs|
    ensures var p := Planned(fs, xs, CleanFilename(filename), exportedAt);
            p[i].name != p[j].name && p[i].name[..|CleanFilename(filename)|] == CleanFilename(filename)
  {
    FileNameSpec(CleanFilename(filename), fs[i], fs[j]);
  }

  class ExportDialog {
    const expenses: seq<Expense>
    var dateFrom: string
    var dateTo: string
    var selectedCategories: seq<Category>
    var selectedFormats: seq<ExportFormat>
    var filename: string
    var exportState: ExportState
    var errorMsg: string
    /** The files handed to the browser so far, oldest first. */
    var downloads: seq<Download>

    /** The selections never hold a duplicate. */
    ghost predicate Valid()
      reads this
    {
      Distinct(selectedCategories) && Distinct(selectedFormats)
    }

    /** The initial state: all categories, CSV only, `expenses-<today>` as the name. */
    constructor (xs: seq<Expense>, today: string)
      ensures Valid()
      ensures expenses == xs && dateFrom == "" && dateTo == ""
      ensures selectedCategories == Categories && selectedFormats == [CSV]
      ensures filename == "expenses-" + today
      ensures exportState == Idle && errorMsg == "" && downloads == []
    {
      expenses := xs;
      dateFrom, dateTo := "", "";
      selectedCategories, selectedFormats := Categories, [CSV];
      filename := "expenses-" + today;
      exportState, errorMsg := Idle, "";
      downloads := [];
    }

    function Options(): ExportFilterOptions
      reads this
    {
      ExportFilterOptions(dateFrom, dateTo, selectedCategories)
    }

    /** `filteredExpenses`. */
    function Filtered(): (r: seq<Expense>)
      reads this
      ensures IsSubsequence(r, expenses)
    {
      SelectIsSubsequence(expenses, KeepsFn(Options()));
      FilterForExport(expenses, Options())
    }

    /** `totalAmount`: the sum of what would be exported, the same figure the JSON file reports. */
    function TotalAmount(exportedAt: string): (t: Cents)
      reads this
      ensures t == JsonData(Filtered(), exportedAt).totalAmount
    {
      Expenses.Total(Filtered())
    }

    /** `previewRows`: the first eight records to be exported. */
    function Preview(): (r: seq<Expense>)
      reads this
      ensures |r| == (if |Filtered()| < 8 then |Filtered()| else 8) && r == Filtered()[..|r|]
    {
      Take(Filtered(), 8)
    }

    /** `canExport`. */
    predicate CanExport(): (b: bool)
      reads this
      ensures b <==> |Filtered()| > 0 && |selectedFormats| > 0 && (exportState == Idle || exportState == Error)
      ensures b ==> |Preview()| > 0
    {
      |Filtered()| > 0 && |selectedFormats| > 0 && exportState != Loading && exportState != Success
    }

    method ToggleCategory(c: Category)
      requires Valid()
      modifies this
      ensures Valid()
      ensures selectedCategories == Toggle(old(selectedCategories), c)
      ensures forall d :: d in selectedCategories <==> if d == c then c !in old(selectedCategories) else d in old(selectedCategories)
      ensures selectedFormats == old(selectedFormats) && dateFrom == old(dateFrom) && dateTo == old(dateTo)
      ensures filename == old(filename) && exportState == old(exportState) && errorMsg == old(errorMsg)
      ensures downloads == old(downloads)
    {
      ToggleDistinct(selectedCategories, c);
      forall d ensures d in Toggle(selectedCategories, c) <==> if d == c then c !in selectedCategories else d in selectedCategories {
        ToggleMembership(selectedCategories, c, d);
      }
      selectedCategories := Toggle(selectedCategories, c);
    }

    method ToggleAllCategories()
      requires Valid()
      modifies this
      ensures Valid()
      ensures selectedCategories == ToggleAll(old(selectedCategories))
      ensures selectedFormats == old(selectedFormats) && dateFrom == old(dateFrom) && dateTo == old(dateTo)
      ensures filename == old(filename) && exportState == old(exportState) && errorMsg == old(errorMsg)
      ensures downloads == old(downloads)
    {
      selectedCategories := ToggleAll(selectedCategories);
    }

    method ToggleFormat(f: ExportFormat)
      requires Valid()
      modifies this
      ensures Valid()
      ensures selectedFormats == Toggle(old(selectedFormats), f)
      ensures forall g :: g in selectedFormats <==> if g == f then f !in old(selectedFormats) else g in old(selectedFormats)
      ensures selectedCategories == old(selectedCategories) && dateFrom == old(dateFrom) && dateTo == old(dateTo)
      ensures filename == old(filename) && exportState == old(exportState) && errorMsg == old(errorMsg)
      ensures downloads == old(downloads)
    {
      ToggleDistinct(selectedFormats, f);
      forall g ensures g in Toggle(selectedFormats, f) <==> if g == f then f !in selectedFormats else g in selectedFormats {
        ToggleMembership(selectedFormats, f, g);
      }
      selectedFormats := Toggle(selectedFormats, f);
    }

    /** The date inputs and the filename box. */
    method SetInputs(from: string, to: string, name: string)
      requires Valid()
      modifies this
      ensures Valid()
      ensures dateFrom == from && dateTo == to && filename == name
      ensures selectedCategories == old(selectedCategories) && selectedFormats == old(selectedFormats)
      ensures exportState == old(exportState) && errorMsg == old(errorMsg) && downloads == old(downloads)
    {
      dateFrom, dateTo, filename := from, to, name;
    }

    /** Opening the dialog resets the export state and the error message. */
    method Reopen()
      requires Valid()
      modifies this
      ensures Valid()
      ensures exportState == Idle && errorMsg == ""
      ensures CanExport() <==> |Filtered()| > 0 && |selectedFormats| > 0
      ensures selectedCategories == old(selectedCategories) && selectedFormats == old(selectedFormats)
      ensures dateFrom == old(dateFrom) && dateTo == old(dateTo) && filename == old(filename)
      ensures downloads == old(downloads)
    {
      exportState, errorMsg := Idle, "";
    }

    /**
     * `handleExport`. Nothing happens when no record or no format is selected.
     * Otherwise the formats are written in selection order under the cleaned
     * filename until one throws; the state ends as success, or as error with the
     * thrown message (or the default one).
     */
    method HandleExport(failure: Option<Failure>, exportedAt: string)
      requires Valid()
      modifies this
      ensures Valid()
      ensures selectedCategories == old(selectedCategories) && selectedFormats == old(selectedFormats)
      ensures dateFrom == old(dateFrom) && dateTo == old(dateTo) && filename == old(filename)
      ensures old(|Filtered()| == 0 || |selectedFormats| == 0) ==>
                downloads == old(downloads) && exportState == old(exportState) && errorMsg == old(errorMsg)
      ensures old(|Filtered()| > 0 && |selectedFormats| > 0) ==>
                var k := Completed(failure, |selectedFormats|);
                && downloads == old(downloads) + Planned(selectedFormats, Filtered(), CleanFilename(filename), exportedAt)[..k]
                && (k == |selectedFormats| ==> exportState == Success && errorMsg == old(errorMsg))
                && (k < |selectedFormats| ==>
                      exportState == Error && errorMsg == ErrorText(failure.value))
    {
      var xs := Filtered();
      var fs := selectedFormats;
      if |xs| == 0 || |fs| == 0 {
        return;
      }
      exportState := Loading;
      var written, k := WriteAll(fs, xs, CleanFilename(filename), exportedAt, failure);
      downloads := downloads + written;
      if k < |fs| {
        errorMsg := ErrorText(failure.value);
        exportState := Error;
      } else {
        exportState := Success;
      }
    }
  }
}
