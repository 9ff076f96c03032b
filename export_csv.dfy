/**
 * The older CSV export (`utils/exportCSV.ts`): header `Date,Category,Amount,Description`,
 * the readable date in the first column, and the file name used as given.
 *
 * As written, the readable date (`Jan 15, 2024`) goes into the row without
 * quotes, so its comma starts a new field and the row no longer reads back as
 * the four values under the header (`LegacyRowMisreads`). `FixedCells` quotes the
 * date as well, and that text reads back exactly (`FixedRoundTrip`).
 */
module LegacyCsv {
  import opened Optional
  import opened Text
  import opened ExpenseTypes
  import opened Csv
  import Formatters
  import ExportUtils

  const Header: seq<string> := ["Date", "Category", "Amount", "Description"]

  /** The download name: the argument as given, `expenses.csv` when omitted; no extension is added. */
  function FileName(filename: Option<string>): (r: string)
    ensures filename.Some? ==> r == filename.value
    ensures filename.None? ==> r == "expenses.csv"
  {
    match filename
    case None => "expenses.csv"
    case Some(f) => f
  }

  /** The values a row is meant to carry, in header order. */
  function Values(e: Expense): (r: seq<string>)
  {
    [Formatters.FormatDate(e.date), CategoryName(e.category), FormatFixed2(e.amount), e.description]
  }

  function ValueRows(xs: seq<Expense>): (r: seq<seq<string>>)
    ensures |r| == |xs|
  {
    seq(|xs|, i requires 0 <= i < |xs| => Values(xs[i]))
  }

  // ---------------------------------------------------------------- as written

  /** The cells as written: only the description is quoted. */
  function Cells(e: Expense): (r: seq<string>)
  {
    [Formatters.FormatDate(e.date), CategoryName(e.category), FormatFixed2(e.amount), Quote(e.description)]
  }

  function CellRows(xs: seq<Expense>): (r: seq<seq<string>>)
    ensures |r| == |xs|
  {
    seq(|xs|, i requires 0 <= i < |xs| => Cells(xs[i]))
  }

  /** `[headers.join(','), ...rows.map(r => r.join(','))].join('\n')`. */
  function CsvText(xs: seq<Expense>): (r: string)
    ensures |r| >= 32 && r[..32] == "Date,Category,Amount,Description"
  {
    var rows := [Header] + CellRows(xs);
    var lines := Lines(rows);
    JoinHead(lines, "\n");
    HeaderLine();
    assert rows[0] == Header;
    Join(lines, "\n")
  }

  /** The header line. */
  lemma HeaderLine()
    ensures Join(Header, ",") == "Date,Category,Amount,Description"
  {
    var h := Header;
    assert h[1..] == ["Category", "Amount", "Description"];
    assert h[1..][1..] == ["Amount", "Description"];
    assert h[1..][1..][1..] == ["Description"];
  }

  lemma MonthStartsWithLetter(m: int)
    requires 0 <= m < 12
    ensures |Formatters.MonthAbbrevs[m]| == 3 && 'A' <= Formatters.MonthAbbrevs[m][0] <= 'Z'
  {
  }

  /** A readable date starts with its month name and has a comma. */
  lemma ReadableDateShape(s: string)
    requires Formatters.ParseIsoDate(s).Some?
    ensures var t := Formatters.FormatDate(s);
            |t| > 0 && t[0] != '"' && ',' in t
  {
    var d := Formatters.ParseIsoDate(s).value;
    MonthStartsWithLetter(d.month - 1);
    Formatters.FormatDateHasComma(s);
  }

  /**
   * The first data row of the text does not read back as its four values: the
   * reader ends the first field at the comma inside the readable date.
   */
  lemma LegacyRowMisreads(xs: seq<Expense>)
    requires |xs| >= 1 && Formatters.ParseIsoDate(xs[0].date).Some?
    ensures ReadDocument(CsvText(xs)) != Some([Header] + ValueRows(xs))
  {
    var cellRows, rows := [Header] + CellRows(xs), [Header] + ValueRows(xs);
    forall j | 0 <= j < 4 ensures Encodes(Header[j], Header[j]) {
      LettersArePlain(Header[j]);
    }
    assert cellRows[1] == Cells(xs[0]) && rows[1] == Values(xs[0]);
    ReadableDateShape(xs[0].date);
    UnquotedCommaMisreads(cellRows, rows);
  }

  // ---------------------------------------------------------------- corrected

  /** The date cell quoted as well. */
  function FixedCells(e: Expense): (r: seq<string>)
  {
    [Quote(Formatters.FormatDate(e.date)), CategoryName(e.category), FormatFixed2(e.amount), Quote(e.description)]
  }

  function FixedCellRows(xs: seq<Expense>): (r: seq<seq<string>>)
    ensures |r| == |xs|
  {
    seq(|xs|, i requires 0 <= i < |xs| => FixedCells(xs[i]))
  }

  function FixedText(xs: seq<Expense>): (r: string)
  {
    Join(Lines([Header] + FixedCellRows(xs)), "\n")
  }

  lemma FixedRowEncodes(e: Expense, j: int)
    requires 0 <= j < 4
    ensures Encodes(FixedCells(e)[j], Values(e)[j])
  {
    if j == 1 { ExportUtils.CategoryIsPlain(e.category); }
    if j == 2 { ExportUtils.AmountIsPlain(e.amount); }
  }

  /** With the date quoted, the text reads back as the header and every record's four values, in order. */
  lemma FixedRoundTrip(xs: seq<Expense>)
    ensures ReadDocument(FixedText(xs)) == Some([Header] + ValueRows(xs))
  {
    var cellRows, rows := [Header] + FixedCellRows(xs), [Header] + ValueRows(xs);
    forall i, j | 0 <= i < |rows| && 0 <= j < |rows[i]| ensures Encodes(cellRows[i][j], rows[i][j]) {
      if i == 0 {
        LettersArePlain(Header[j]);
      } else {
        assert cellRows[i] == FixedCells(xs[i - 1]) && rows[i] == Values(xs[i - 1]);
        FixedRowEncodes(xs[i - 1], j);
      }
    }
    DocumentRoundTrip(cellRows, rows);
  }
}
