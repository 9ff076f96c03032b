/**
 * The export pipeline (`utils/exportUtils.ts`): the export filter, and the data
 * each format writes (CSV text, the JSON summary object, the PDF table), with
 * the file names. Downloads and PDF drawing are outside the model.
 */
module ExportUtils {
  import opened Optional
  import opened Seqs
  import opened Text
  import opened ExpenseTypes
  import opened Csv
  import Expenses
  import Formatters

  datatype ExportFormat = CSV | JSON | PDF

  datatype ExportFilterOptions = ExportFilterOptions(dateFrom: string, dateTo: string, categories: seq<Category>)

  // ---------------------------------------------------------------- filter

  /** The three tests of `filterExpensesForExport`; an empty category list restricts nothing. */
  predicate Keeps(opts: ExportFilterOptions, e: Expense)
  {
    && (|opts.categories| == 0 || e.category in opts.categories)
    && (opts.dateFrom == "" || !Less(e.date, opts.dateFrom))
    && (opts.dateTo == "" || !Less(opts.dateTo, e.date))
  }

  function KeepsFn(opts: ExportFilterOptions): Expense -> bool
  {
    (e: Expense) => Keeps(opts, e)
  }

  function FilterForExport(xs: seq<Expense>, opts: ExportFilterOptions): (r: seq<Expense>)
    ensures |r| <= |xs|
    ensures forall i :: 0 <= i < |r| ==> Keeps(opts, r[i])
  {
    Select(xs, KeepsFn(opts))
  }

  /** Kept iff all three tests pass; order is preserved; filtering twice changes nothing. */
  lemma FilterForExportSpec(xs: seq<Expense>, opts: ExportFilterOptions, e: Expense)
    ensures e in FilterForExport(xs, opts) <==>
              e in xs
              && (opts.categories == [] || e.category in opts.categories)
              && (opts.dateFrom == "" || !Less(e.date, opts.dateFrom))
              && (opts.dateTo == "" || !Less(opts.dateTo, e.date))
    ensures IsSubsequence(FilterForExport(xs, opts), xs)
    ensures FilterForExport(FilterForExport(xs, opts), opts) == FilterForExport(xs, opts)
  {
    SelectMembership(xs, KeepsFn(opts), e);
    SelectIsSubsequence(xs, KeepsFn(opts));
    SelectIdempotent(xs, KeepsFn(opts));
  }

  /** No categories and no dates: everything is exported. */
  lemma FilterForExportUnrestricted(xs: seq<Expense>)
    ensures FilterForExport(xs, ExportFilterOptions("", "", [])) == xs
  {
    SelectAllPass(xs, KeepsFn(ExportFilterOptions("", "", [])));
  }

  /** Selecting no category exports the same records as selecting all six. */
  lemma NoCategoryMeansAll(xs: seq<Expense>, dateFrom: string, dateTo: string)
    ensures FilterForExport(xs, ExportFilterOptions(dateFrom, dateTo, []))
         == FilterForExport(xs, ExportFilterOptions(dateFrom, dateTo, Categories))
  {
    var none, all := ExportFilterOptions(dateFrom, dateTo, []), ExportFilterOptions(dateFrom, dateTo, Categories);
    forall e ensures KeepsFn(none)(e) == KeepsFn(all)(e) {
      CategoriesComplete(e.category);
    }
    SelectCongruent(xs, KeepsFn(none), KeepsFn(all));
  }

  // ---------------------------------------------------------------- CSV

  const CsvHeader: seq<string> := ["Date", "Description", "Category", "Amount"]

  /** The four cells of a row as written: raw date, quoted description, category, `toFixed(2)`. */
  function CsvCells(e: Expense): (r: seq<string>)
  {
    [e.date, Quote(e.description), CategoryName(e.category), FormatFixed2(e.amount)]
  }

  /** The values a reader recovers from a row. */
  function CsvValues(e: Expense): (r: seq<string>)
  {
    [e.date, e.description, CategoryName(e.category), FormatFixed2(e.amount)]
  }

  function CsvCellRows(xs: seq<Expense>): (r: seq<seq<string>>)
    ensures |r| == |xs|
  {
    seq(|xs|, i requires 0 <= i < |xs| => CsvCells(xs[i]))
  }

  /** `[headers.join(','), ...rows.map(r => r.join(','))].join('\n')`. */
  function CsvText(xs: seq<Expense>): (r: string)
    ensures |r| >= 32 && r[..32] == "Date,Description,Category,Amount"
  {
    var rows := [CsvHeader] + CsvCellRows(xs);
    var lines := Lines(rows);
    JoinHead(lines, "\n");
    HeaderLine();
    assert rows[0] == CsvHeader;
    Join(lines, "\n")
  }

  /** The header line. */
  lemma HeaderLine()
    ensures Join(CsvHeader, ",") == "Date,Description,Category,Amount"
  {
    var h := CsvHeader;
    assert h[1..] == ["Description", "Category", "Amount"];
    assert h[1..][1..] == ["Category", "Amount"];
    assert h[1..][1..][1..] == ["Amount"];
  }

  lemma PlainOfDigits(s: string)
    requires AllDigits(s)
    ensures PlainField(s)
  {
    assert forall i :: 0 <= i < |s| ==> IsDigit(s[i]);
  }

  lemma PlainAppend(a: string, b: string)
    requires PlainField(a) && PlainField(b)
    ensures PlainField(a + b)
  {
    forall i | 0 <= i < |a + b| ensures (a + b)[i] != ',' && (a + b)[i] != '\n' && (a + b)[i] != '"' {
      if i >= |a| { assert (a + b)[i] == b[i - |a|]; }
    }
  }

  /** The amount cell needs no quotes: sign, digits, point, two digits. */
  lemma AmountIsPlain(cents: int)
    ensures PlainField(FormatFixed2(cents))
  {
    var a := if cents < 0 then -cents else cents;
    var sign := if cents < 0 then "-" else "";
    assert PlainField(sign) && PlainField(".");
    PlainOfDigits(NatToString(a / 100));
    PlainOfDigits(FixedDigits(a % 100, 2));
    PlainAppend(sign, NatToString(a / 100));
    PlainAppend(sign + NatToString(a / 100), ".");
    PlainAppend(sign + NatToString(a / 100) + ".", FixedDigits(a % 100, 2));
  }

  /** The amount cell has exactly two digits after its point. */
  lemma AmountHasTwoDecimals(cents: int)
    ensures var s := FormatFixed2(cents);
            |s| >= 4 && s[|s| - 3] == '.' && IsDigit(s[|s| - 2]) && IsDigit(s[|s| - 1])
  {
  }

  lemma CategoryIsPlain(c: Category)
    ensures PlainField(CategoryName(c))
  {
  }

  function CsvValueRows(xs: seq<Expense>): (r: seq<seq<string>>)
    ensures |r| == |xs|
  {
    seq(|xs|, i requires 0 <= i < |xs| => CsvValues(xs[i]))
  }

  lemma RowEncodes(e: Expense, j: int)
    requires PlainField(e.date) && 0 <= j < 4
    ensures Encodes(CsvCells(e)[j], CsvValues(e)[j])
  {
    if j == 2 { CategoryIsPlain(e.category); }
    if j == 3 { AmountIsPlain(e.amount); }
  }

  lemma HeaderEncodes(j: int)
    requires 0 <= j < 4
    ensures Encodes(CsvHeader[j], CsvHeader[j])
  {
    LettersArePlain(CsvHeader[j]);
  }

  /**
   * Reading the CSV text back gives the header and then, in input order, each
   * record's date, description (quotes restored), category and amount; this needs
   * only that no date contains a comma, quote or line feed.
   */
  lemma CsvRoundTrip(xs: seq<Expense>)
    requires forall i :: 0 <= i < |xs| ==> PlainField(xs[i].date)
    ensures ReadDocument(CsvText(xs)) == Some([CsvHeader] + CsvValueRows(xs))
  {
    var cellRows, rows := [CsvHeader] + CsvCellRows(xs), [CsvHeader] + CsvValueRows(xs);
    forall i, j | 0 <= i < |rows| && 0 <= j < |rows[i]| ensures Encodes(cellRows[i][j], rows[i][j]) {
      if i == 0 {
        HeaderEncodes(j);
      } else {
        assert cellRows[i] == CsvCells(xs[i - 1]) && rows[i] == CsvValues(xs[i - 1]);
        RowEncodes(xs[i - 1], j);
      }
    }
    DocumentRoundTrip(cellRows, rows);
  }

  // ---------------------------------------------------------------- JSON

  datatype JsonSummary = JsonSummary(exportedAt: string, totalRecords: nat, totalAmount: Cents, expenses: seq<Expense>)

  /** The object `exportToJSON` serialises; the clock's ISO timestamp is a parameter. */
  function JsonData(xs: seq<Expense>, exportedAt: string): (r: JsonSummary)
    ensures r.expenses == xs && r.totalRecords == |r.expenses| && r.exportedAt == exportedAt
    ensures (forall i :: 0 <= i < |xs| ==> xs[i].amount >= 0) ==> r.totalAmount >= 0
  {
    JsonSummary(exportedAt, |xs|, Expenses.Total(xs), xs)
  }

  // ---------------------------------------------------------------- PDF

  /** The table and summary text `exportToPDF` hands to the PDF library. */
  datatype PdfReport = PdfReport(
    recordsLabel: string,
    totalLabel: string,
    head: seq<string>,
    body: seq<seq<string>>,
    foot: seq<string>)

  function PdfRow(e: Expense): (r: seq<string>)
  {
    [Formatters.FormatDate(e.date), e.description, CategoryName(e.category), Formatters.FormatCurrency(e.amount)]
  }

  function PdfData(xs: seq<Expense>): (r: PdfReport)
    ensures |r.body| == |xs| && |r.head| == 4 && |r.foot| == 4
    ensures r.totalLabel == "Total: " + r.foot[3]
  {
    var total := Expenses.Total(xs);
    PdfReport(
      NatToString(|xs|) + " Records",
      "Total: " + Formatters.FormatCurrency(total),
      ["Date", "Description", "Category", "Amount"],
      seq(|xs|, i requires 0 <= i < |xs| => PdfRow(xs[i])),
      ["", "", "TOTAL", Formatters.FormatCurrency(total)])
  }

  /**
   * One four-column row per record in input order; the summary count is the
   * number of records, and the summary total and the footer show the same sum.
   */
  lemma PdfConsistent(xs: seq<Expense>, i: int)
    requires 0 <= i < |xs|
    ensures var r := PdfData(xs);
            |r.body| == |xs| && |r.body[i]| == |r.head| == 4
            && r.body[i][1] == xs[i].description && r.body[i][2] == CategoryName(xs[i].category)
            && r.totalLabel == "Total: " + r.foot[3]
            && r.recordsLabel == NatToString(|r.body|) + " Records"
  {
  }

  /** JSON and PDF describe the same records: same count and the same total. */
  lemma FormatsAgree(xs: seq<Expense>, exportedAt: string)
    ensures var j, p := JsonData(xs, exportedAt), PdfData(xs);
            j.totalRecords == |p.body| == |CsvCellRows(xs)|
            && p.foot[3] == Formatters.FormatCurrency(j.totalAmount)
            && j.expenses == xs
  {
  }

  /** The JSON total is the sum of the per-category sums. */
  lemma JsonTotalByCategory(xs: seq<Expense>, exportedAt: string)
    ensures JsonData(xs, exportedAt).totalAmount == Expenses.SumByCategory(Expenses.ByCategory(xs))
  {
    Expenses.ByCategorySumsToTotal(xs);
  }

  // ---------------------------------------------------------------- files

  function Extension(f: ExportFormat): (r: string)
  {
    match f
    case CSV => "csv"
    case JSON => "json"
    case PDF => "pdf"
  }

  /** `${filename}.csv` and so on. */
  function FileName(base: string, f: ExportFormat): (r: string)
    ensures |r| == |base| + 1 + |Extension(f)| && r[..|base|] == base && r[|base|] == '.'
    ensures r[|base| + 1..] == Extension(f)
  {
    base + "." + Extension(f)
  }

  /** The base name is kept verbatim and different formats never share a file name. */
  lemma FileNameSpec(base: string, f: ExportFormat, g: ExportFormat)
    ensures FileName(base, f)[..|base|] == base
    ensures FileName(base, f) == FileName(base, g) <==> f == g
  {
    if f != g {
      var a, b := FileName(base, f), FileName(base, g);
      var ea, eb := Extension(f), Extension(g);
      assert a[|base| + 1..] == ea && b[|base| + 1..] == eb;
    }
  }
}
