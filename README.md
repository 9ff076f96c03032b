# SpendWise expense tracker — a verified model of its core

SpendWise is a small browser app for recording personal expenses. It keeps a
list of expenses, one per purchase, with a date, an amount, one of six
categories and a description. It filters the list on screen and computes
dashboard statistics: the total, the monthly total, per-category sums, the top
category and the recent records. It also exports the records as CSV, JSON or a
PDF report, and keeps a capped log of past exports. A cloud-export dialog
offers templates, destinations, a schedule, a share link and a QR mock-up.

This project models that core in Dafny and proves what the code promises:

| file | module | models |
|---|---|---|
| `optional.dfy` | `Optional` | `Option` values (`undefined`, `NaN`, a missing key) |
| `seqs.dfy` | `Seqs` | `filter`, the remove-or-append selection toggle, `slice(0, n)`, subsequences |
| `text.dfy` | `Text` | ECMAScript `trim`, ASCII `toLowerCase`, `includes`, `<` on strings, digits, `toFixed(2)`, `parseFloat` |
| `types.dfy` | `ExpenseTypes` | `types/expense.ts`: categories and their order, records, the filter state, form data |
| `formatters.dfy` | `Formatters` | `utils/formatters.ts`: calendar dates, `yyyy-MM-dd`, `MMM d, yyyy`, `currentMonthISO`, the dollar format |
| `expenses.dfy` | `Expenses` | `hooks/useExpenses.ts`: the store, the on-screen filter and the statistics |
| `csv.dfy` | `Csv` | the CSV quoting of RFC 4180 section 2 rule 7, and a reader for it that serves as the reference for round trips |
| `export_utils.dfy` | `ExportUtils` | `utils/exportUtils.ts`: the export filter, the CSV text, the JSON summary, the PDF data, file names |
| `export_csv.dfy` | `LegacyCsv` | `utils/exportCSV.ts`: the older CSV export |
| `export_history.dfy` | `ExportHistory` | `utils/exportHistory.ts`: the capped export log, the size estimate, the share link |
| `expense_form.dfy` | `ExpenseForm` | `ExpenseForm.tsx`: validation, submission, the initial form |
| `filter_bar.dfy` | `FilterBar` | `FilterBar.tsx`: the active-filter test, the reset and the field handlers |
| `spending_chart.dfy` | `SpendingChart` | `SpendingChart.tsx`: the bar and pie data and the empty-state branch |
| `export_modal.dfy` | `ExportModal` | `ExportModal.tsx`: the selection toggles, the export guard and the export run |
| `cloud_export.dfy` | `CloudExport` | `CloudExportModal.tsx`: QR cells, destinations, the local CSV, history writes, the schedule text |

Amounts are whole cents (`Cents = int`).
- The amount text of the form is read by `Text.ParseDecimal`. It is an exact model of `parseFloat` on decimal text: leading white space, a sign, digits, an optional fraction, and the longest such prefix.
- The store keeps that value rounded to the cent (`Text.ToCents`).
- `toFixed(2)` is `Text.FormatFixed2`, which is exact on cents.

The stateful parts are classes:
- `Expenses.ExpenseStore` (the `expenses` state and what the persist effect wrote);
- `ExportHistory.HistoryStore` (the `spendwise_export_history` slot);
- `ExportModal.ExportDialog`;
- `CloudExport.CloudExportDialog`.

Each method of these classes states its whole new state in terms of the specification functions. The three loops of the source are methods with invariants:
- the `forEach` that builds `byCategory`: `Expenses.ComputeByCategory`;
- the format loop of the export dialog: `ExportModal.WriteAll`;
- the per-destination history writes: `CloudExport.WriteRecords`.

`validate` has no loop; it fills its error record one field after another, and `ExpenseForm.Validate` is a method that does the same.

The clock, `Math.random` and the random source of the QR mock-up are parameters:
- the ids and timestamps the code draws;
- today's date and the current year and month;
- the twelve token draws of the share link;
- which format of an export run throws, if any;
- the coin flips of the QR grid.

Where the code and the written design differ, the model follows the code:
- `validate` can never flag the category (the form's category is always one of the six).
- The legacy CSV writes its readable date unquoted (see Findings).
- The monthly schedule text says "21th" (see Findings).

## Model

| member | source | states |
|---|---|---|
| ExpenseTypes.CategoriesComplete | types/expense.ts:1-16 | every category is in `CATEGORIES`, which has six entries and no duplicate |
| ExpenseTypes.CategoryIndex | types/expense.ts:9-16 | each category has a position in the display order holding it |
| ExpenseTypes.CategoryNameInjective | types/expense.ts:1-7 | category names are distinct and none is the sentinel `All` of the filter |
| Seqs.Select | hooks/useExpenses.ts:69 | a filter never grows the list and every kept element passes the test |
| Seqs.SelectMembership | hooks/useExpenses.ts:69 | an element is kept iff it is in the list and passes the test |
| Seqs.SelectIsSubsequence | hooks/useExpenses.ts:69 | a filter keeps the elements in their original order |
| Seqs.SelectIdempotent | hooks/useExpenses.ts:69 | filtering twice by the same test changes nothing |
| Seqs.SelectAllPass | hooks/useExpenses.ts:69 | when every element passes, the filter is the identity |
| Seqs.SelectNonePass | hooks/useExpenses.ts:69 | when no element passes, the filter is empty |
| Seqs.SelectAppend | hooks/useExpenses.ts:91 | filtering a concatenation is concatenating the filtered parts |
| Seqs.SelectCongruent | utils/exportUtils.ts:17-24 | tests that agree on the elements keep the same elements |
| Seqs.SelectSelect | hooks/useExpenses.ts:69-83 | filtering by one test and then another is filtering once by both |
| Seqs.ToggleMembership | components/export/ExportModal.tsx:110-114 | after the toggle the element is selected iff it was not before, and every other element is unaffected |
| Seqs.SelectPreservesDistinct | components/export/ExportModal.tsx:112 | filtering a duplicate-free list leaves it duplicate-free |
| Seqs.ToggleDistinct | components/export/ExportModal.tsx:110-114 | the toggle never creates a duplicate |
| Seqs.ToggleTwice | components/export/ExportModal.tsx:110-114 | toggling the same element twice restores which elements are selected |
| Seqs.Take | hooks/useExpenses.ts:107 | `slice(0, n)` has length min(n, length) and holds the first elements unchanged |
| Text.TrimStartSpec | hooks/useExpenses.ts:41 | the start-trimmed text is a suffix of the input, the cut-off part is all white space and what is left does not start with white space |
| Text.TrimEndSpec | hooks/useExpenses.ts:41 | the same for the end: a prefix, an all-white-space rest, no white space at the end |
| Text.TrimIdempotent | hooks/useExpenses.ts:41 | trimming twice is trimming once |
| Text.Trim | hooks/useExpenses.ts:41 | the trimmed text is no longer than the input, neither starts nor ends with white space, and is empty exactly when the input is all white space |
| Text.TrimBothEnds | hooks/useExpenses.ts:41 | trimming the end after the start keeps a non-white first character, and leaves nothing only for all-white-space input |
| Text.Lower | hooks/useExpenses.ts:70 | lowering keeps the length and lowers each character |
| Text.LowerIdempotent | hooks/useExpenses.ts:70 | lowering twice is lowering once |
| Text.ContainsIff | hooks/useExpenses.ts:70 | `includes` holds iff the search text occurs at some position |
| Text.Utf16Length | components/expenses/ExpenseForm.tsx:38 | the UTF-16 length is between one and two code units per character |
| Text.LessIrreflexive | hooks/useExpenses.ts:76 | no date text sorts before itself |
| Text.LessTrichotomy | hooks/useExpenses.ts:76-79 | two texts are equal or exactly one sorts first |
| Text.LessTransitive | hooks/useExpenses.ts:76-79 | the string order is transitive |
| Text.LessCommonPrefix | utils/formatters.ts:33-34 | a shared prefix does not change the order |
| Text.NatToString | components/export/CloudExportModal.tsx:448 | `String(n)` is a non-empty digit string without a leading zero |
| Text.FixedDigits | utils/formatters.ts:33-34 | zero-padded digits have the requested width |
| Text.DigitsValueOfNatToString | components/export/CloudExportModal.tsx:448 | reading back `String(n)` gives n |
| Text.DigitsValueOfFixedDigits | utils/formatters.ts:33-34 | reading back zero-padded digits gives the number |
| Text.FixedDigitsOfDigitsValue | utils/formatters.ts:21 | padding a digit string's value to its length gives the string back |
| Text.DigitsValueAppend | hooks/useExpenses.ts:39 | the value of concatenated digits is the shifted value of the first part plus the second |
| Text.DigitRunOfDigitsThen | hooks/useExpenses.ts:39 | `parseFloat` reads digits up to the first non-digit |
| Text.ParseUnsignedPointed | hooks/useExpenses.ts:39 | digits, a point and digits read as the exact decimal they spell |
| Text.ParseDecimalOfDigitFirst | hooks/useExpenses.ts:39 | text starting with a digit is read without sign or white space handling |
| Text.ParseFixed2 | components/expenses/ExpenseForm.tsx:24 | `parseFloat` reads the `toFixed(2)` text of an amount back as that amount, and rounding to the cent keeps it |
| Text.FormatFixed2 | components/expenses/ExpenseForm.tsx:24 | the `toFixed(2)` text has at least four characters and starts with `-` iff the amount is negative, with a digit otherwise |
| Text.ParseDecimal | hooks/useExpenses.ts:39 | `parseFloat` gives a number only when the text after its leading white space starts with a digit, a point or a sign, and a negative one only after a `-` |
| Text.ToCents | hooks/useExpenses.ts:39 | with up to two decimals the cents are exact; with more they are the nearest cent, a half rounded away from zero |
| Formatters.DaysInMonth | utils/formatters.ts:34 | every month has 28 to 31 days |
| Formatters.MakeDate | utils/formatters.ts:33-34 | `new Date(y, m, d)` for days 0 to 28 is always a real calendar date |
| Formatters.YearText | utils/formatters.ts:21 | the `yyyy` token is digits, and the four-digit year itself for 1..9999 |
| Formatters.MonthBounds | utils/formatters.ts:33-34 | `from` is day 1 of the month; `to` (day 0 of the next month) is the month's last day |
| Formatters.LastDayOfMonth | utils/formatters.ts:34 | the last day is 31, 30, or 29 in a Gregorian leap year and 28 otherwise for February |
| Formatters.DecemberRollover | utils/formatters.ts:34 | in December the rollover into January still gives the 31st of December of the same year |
| Formatters.CurrentMonthShape | utils/formatters.ts:31-36 | both bounds are ten characters, share the `yyyy-MM-` prefix, `from` ends in `01`, and `from` sorts before `to` |
| Formatters.SharedPrefixBounds | utils/formatters.ts:33-34 | day `01` sorts before any last day of a month written after the same prefix |
| Formatters.ParseIsoDate | utils/formatters.ts:12 | a date `parseISO` accepts is a real date with a four-digit year |
| Formatters.FormatFallback | utils/formatters.ts:10-25 | when the date library fails, both helpers return the input unchanged |
| Formatters.FormatDateHasComma | utils/formatters.ts:12 | a readable date always contains a comma |
| Formatters.FormatDateInputIdentity | utils/formatters.ts:18-25 | `formatDateInput` returns its input unchanged unless the input starts with `0000` |
| Formatters.ParsedIsoFields | utils/formatters.ts:21 | an accepted text is exactly the zero-padded fields of the date it names |
| Formatters.ParseIsoOfFields | utils/formatters.ts:21 | zero-padded fields around two hyphens parse as the date they spell |
| Formatters.ParseFormatIso | utils/formatters.ts:21-28 | `parseISO` reads back what `format(…, 'yyyy-MM-dd')` writes, for years 1..9999 |
| Formatters.YearZeroQuirk | utils/formatters.ts:21 | a valid date of year 0000 comes back as year 0001 |
| Formatters.YearZeroWritten | utils/formatters.ts:21 | the same, stated on the zero-padded digit strings |
| Formatters.Grouped | utils/formatters.ts:4-7 | the grouped integer part starts with a digit |
| Formatters.FormatCurrency | utils/formatters.ts:3-8 | the dollar text has a point before two decimals, starts with `$` for amounts >= 0 and with `-$` below |
| Formatters.FormatIso | utils/formatters.ts:21 | for years 0 to 9999 the text has the `yyyy-MM-dd` shape |
| Formatters.TodayISO | utils/formatters.ts:27-29 | today's date has the `yyyy-MM-dd` shape and, for years 1 to 9999, parses back to that date |
| Formatters.CurrentMonthISO | utils/formatters.ts:31-36 | for years up to 9999 both month bounds have the `yyyy-MM-dd` shape |
| Formatters.FormatDate | utils/formatters.ts:10-16 | a date that parses is written starting with its month abbreviation and a space |
| Formatters.FormatDateInput | utils/formatters.ts:18-25 | a date that parses comes back in the `yyyy-MM-dd` shape |
| Expenses.ParseAmountOfFixed2 | hooks/useExpenses.ts:39 | the stored amount of a form showing `toFixed(2)` of an amount is that amount |
| Expenses.ParseAmount | hooks/useExpenses.ts:39 | there is no amount exactly when `parseFloat` fails; with up to two decimals the cents are the value read |
| Expenses.NewExpense | hooks/useExpenses.ts:36-44 | the record has the fresh id and timestamp, the form's date and category, the parsed amount, and a description no longer than typed with no white space at either end |
| Expenses.Updated | hooks/useExpenses.ts:47-61 | the list keeps its length, and each record its id and creation time |
| Expenses.Deleted | hooks/useExpenses.ts:63-65 | the list never grows and no record with the id is left |
| Expenses.FilterExpenses | hooks/useExpenses.ts:68-84 | the list never grows and every record kept matches all four filters |
| Expenses.Total | hooks/useExpenses.ts:88 | non-negative amounts give a non-negative total |
| Expenses.MonthlyTotal | hooks/useExpenses.ts:90-92 | with non-negative amounts the monthly total lies between zero and the total |
| Expenses.TotalSelectAtMost | hooks/useExpenses.ts:90-92 | the records a filter keeps, all non-negative, add up to at most the whole total |
| Expenses.MonthlyTotalIsDateFilter | hooks/useExpenses.ts:68-92 | the monthly total is the total of what the on-screen filter shows for the month's dates alone |
| Expenses.ExpenseStore.constructor | hooks/useExpenses.ts:13-14 | the state starts empty and not hydrated |
| Expenses.ExpenseStore.Hydrate | hooks/useExpenses.ts:23-33 | after mounting, the list is what was loaded and the storage slot holds it |
| Expenses.ExpenseStore.Add | hooks/useExpenses.ts:35-45 | the new record goes in front of the old list; once hydrated, the slot holds the new list |
| Expenses.ExpenseStore.Update | hooks/useExpenses.ts:47-61 | the list becomes the id-wise update; once hydrated, the slot holds it |
| Expenses.ExpenseStore.Delete | hooks/useExpenses.ts:63-65 | the list becomes the id-wise removal; once hydrated, the slot holds it |
| Expenses.AddShape | hooks/useExpenses.ts:36-44 | one record longer, the new record first and the old ones after it in order; fresh id and timestamp, trimmed description, parsed amount |
| Expenses.AddKeepsIdsUnique | hooks/useExpenses.ts:44 | adding a record with a fresh id keeps ids unique |
| Expenses.UpdatedSpec | hooks/useExpenses.ts:47-61 | same length and order; other ids untouched; the matching record keeps its id and timestamp and takes the four new fields |
| Expenses.UpdateAbsentId | hooks/useExpenses.ts:49-59 | an id that no record has leaves the list unchanged |
| Expenses.UpdateIdempotent | hooks/useExpenses.ts:47-61 | applying the same update twice is applying it once |
| Expenses.UpdateKeepsIds | hooks/useExpenses.ts:50-57 | updates keep the set of ids, and with it their uniqueness |
| Expenses.DeletedSpec | hooks/useExpenses.ts:63-65 | the result keeps the order; a record stays iff its id differs; no record with the id remains |
| Expenses.DeleteAbsentId | hooks/useExpenses.ts:64 | deleting an id that no record has leaves the list unchanged |
| Expenses.DeleteUniqueRemovesOne | hooks/useExpenses.ts:64 | with unique ids, a delete removes one record if the id is present and none otherwise |
| Expenses.FilterSpec | hooks/useExpenses.ts:68-84 | the on-screen filter keeps the order, is idempotent, and keeps a record iff all four conditions hold |
| Expenses.FilterInitialIsIdentity | hooks/useExpenses.ts:15-20 | the initial filters keep every record |
| Expenses.TotalAppend | hooks/useExpenses.ts:88 | the total of a concatenation is the sum of the totals |
| Expenses.TotalPositive | hooks/useExpenses.ts:88 | with positive amounts, the total is zero only for the empty list |
| Expenses.ByCategory | hooks/useExpenses.ts:95-98 | `byCategory` has a key exactly for each category present |
| Expenses.CategorySumStep | hooks/useExpenses.ts:97 | one more record adds its amount to its own category's sum only |
| Expenses.CategoriesPresentStep | hooks/useExpenses.ts:96-98 | one more record adds its category to the present ones |
| Expenses.KeyOrderStep | hooks/useExpenses.ts:97 | a category seen for the first time becomes the last key |
| Expenses.KeyOrderSpec | hooks/useExpenses.ts:95-100 | the key insertion order has no duplicate and lists exactly the categories present |
| Expenses.KeyOrderInMap | hooks/useExpenses.ts:100 | every key of the entry order has an entry in `byCategory` |
| Expenses.FirstIndex | hooks/useExpenses.ts:96-97 | the first record of a category is of that category and none before it is |
| Expenses.KeyOrderByFirstOccurrence | hooks/useExpenses.ts:96-100 | an earlier key is a category whose first record comes earlier |
| Expenses.FirstIndexPrefix | hooks/useExpenses.ts:96 | appending a record does not move an existing first occurrence |
| Expenses.LastIsFirst | hooks/useExpenses.ts:96 | a record of a category not yet present is that category's first occurrence |
| Expenses.TalliedAppend | hooks/useExpenses.ts:96-98 | one `forEach` step turns the running sums of a prefix into those of the longer prefix |
| Expenses.TalliedAppendAt | hooks/useExpenses.ts:97 | the running sum of one category after the step is its sum over the longer prefix |
| Expenses.TalliedStep | hooks/useExpenses.ts:96-98 | the loop invariant survives one iteration |
| Expenses.TalliedIsByCategory | hooks/useExpenses.ts:95-98 | running sums over the whole list are `byCategory` |
| Expenses.KeyOrderPrefixStep | hooks/useExpenses.ts:97 | the keys of a longer prefix are the keys of the shorter one with at most one new key last |
| Expenses.ComputeByCategory | hooks/useExpenses.ts:95-98 | the `forEach` loop builds `byCategory` and inserts the keys in first-occurrence order |
| Expenses.CategorySumCons | hooks/useExpenses.ts:97 | a category's sum over a list is its first record's share plus the sum over the rest |
| Expenses.CategorySumsAddUp | hooks/useExpenses.ts:88-98 | the six category sums add up to the total |
| Expenses.AbsentCategorySumsToZero | hooks/useExpenses.ts:97 | a category with no record sums to 0 |
| Expenses.ByCategorySumsToTotal | hooks/useExpenses.ts:88-98 | the values of `byCategory` add up to `total` |
| Expenses.LookupOrZero | hooks/useExpenses.ts:97 | `byCategory[c] \|\| 0` is the category's sum |
| Expenses.FirstMax | hooks/useExpenses.ts:100 | the first sorted entry is a key with no larger value, and there is none only for no keys |
| Expenses.FirstMaxIsFirst | hooks/useExpenses.ts:100 | a key with a value equal to the chosen one comes after it, as the stable sort keeps it |
| Expenses.TopCategoryNone | hooks/useExpenses.ts:100-102 | `topCategory` is undefined iff there are no expenses |
| Expenses.TopCategoryIsMax | hooks/useExpenses.ts:100-102 | `topCategory` is a category present whose sum no other category exceeds |
| Expenses.TopCategoryTieBreak | hooks/useExpenses.ts:100-102 | among the categories with the largest sum, `topCategory` is the one whose first record comes first |
| Expenses.TopCategory | hooks/useExpenses.ts:100-102 | a top category is always one that has a record |
| Expenses.Recent | hooks/useExpenses.ts:107 | the recent records are the first min(5, n), in list order |
| Expenses.ComputeStats | hooks/useExpenses.ts:87-105 | the statistics: total, monthly total, `byCategory` (summing to the total), `topCategory` (undefined iff no records) and count |
| Expenses.PresentOfTwo | hooks/useExpenses.ts:96-98 | the categories present in two records are their two categories |
| Expenses.TwoCategoryScenario | hooks/useExpenses.ts:88-102 | Food 10.00 and Bills 30.00: the top category is Bills and the total is 40.00 |
| Expenses.CategoryFilterScenario | hooks/useExpenses.ts:73-75 | filtering that list by Bills keeps only the Bills record |
| Expenses.TieScenario | hooks/useExpenses.ts:100 | with equal sums, the category whose record comes first wins |
| Csv.EscapeQuotes | utils/exportUtils.ts:31 | doubling quotes never shortens the text |
| Csv.LettersArePlain | utils/exportUtils.ts:28 | header words need no quotes |
| Csv.Lines | utils/exportUtils.ts:35 | one line per row |
| Csv.ReadQuotedOfEscaped | utils/exportUtils.ts:31 | collapsing doubled quotes up to the closing quote recovers the description (RFC 4180 section 2 rule 7) |
| Csv.ReadPlainOfPlain | utils/exportUtils.ts:32-33 | a value without comma, quote or line feed reads back verbatim |
| Csv.FieldRoundTrip | utils/exportUtils.ts:30-33 | a quoted or plain cell followed by a separator reads back as its value |
| Csv.RecordRoundTrip | utils/exportUtils.ts:35 | the cells of a row joined by commas read back as the row's values |
| Csv.DocumentRoundTrip | utils/exportUtils.ts:35 | rows of encoded cells joined by line feeds read back as the rows of values |
| Csv.JoinHead | utils/exportUtils.ts:35 | a joined text starts with its first part |
| Csv.LinesStart | utils/exportCSV.ts:12 | the text of non-empty rows starts with the first cell |
| Csv.DocumentAfterRecord | utils/exportUtils.ts:35 | after a record ended by a line feed, the reader goes on with the next line |
| Csv.DocumentFirstField | utils/exportCSV.ts:12 | the first value read is the first field of the text |
| Csv.FirstFieldStopsAtComma | utils/exportCSV.ts:7 | an unquoted cell with a comma is not read whole |
| Csv.FirstLineThenRest | utils/exportUtils.ts:35 | the text is the first line, a line feed, then the other lines |
| Csv.UnquotedCommaMisreads | utils/exportCSV.ts:7-12 | an unquoted value with a comma at the start of line two breaks the round trip |
| ExportUtils.FilterForExportSpec | utils/exportUtils.ts:13-25 | kept iff no category restriction or the category is listed, and both date bounds hold; order kept; idempotent |
| ExportUtils.FilterForExportUnrestricted | utils/exportUtils.ts:17-24 | no categories and no dates: every record is exported |
| ExportUtils.FilterForExport | utils/exportUtils.ts:13-25 | the export never grows the list and every record exported passes the options |
| ExportUtils.NoCategoryMeansAll | utils/exportUtils.ts:18 | an empty category list exports the same records as all six |
| ExportUtils.CsvCellRows | utils/exportUtils.ts:29-34 | one row of cells per record |
| ExportUtils.PlainOfDigits | utils/exportUtils.ts:33 | digit text needs no quotes |
| ExportUtils.PlainAppend | utils/exportUtils.ts:33 | two unquoted texts together need no quotes |
| ExportUtils.AmountIsPlain | utils/exportUtils.ts:33 | the amount cell needs no quotes |
| ExportUtils.AmountHasTwoDecimals | utils/exportUtils.ts:33 | the amount cell has exactly two digits after its point |
| ExportUtils.CategoryIsPlain | utils/exportUtils.ts:32 | category names need no quotes |
| ExportUtils.CsvValueRows | utils/exportUtils.ts:29-34 | one row of values per record |
| ExportUtils.RowEncodes | utils/exportUtils.ts:29-34 | each cell of a row encodes its value when the date has no comma, quote or line feed |
| ExportUtils.HeaderEncodes | utils/exportUtils.ts:28 | the header cells encode themselves |
| ExportUtils.CsvRoundTrip | utils/exportUtils.ts:27-35 | the CSV text reads back as `Date,Description,Category,Amount` and then each record's raw date, description, category and two-decimal amount, in order |
| ExportUtils.CsvText | utils/exportUtils.ts:27-35 | the text starts with the line `Date,Description,Category,Amount` |
| ExportUtils.HeaderLine | utils/exportUtils.ts:28 | the four header cells joined by commas are that line |
| ExportUtils.PdfConsistent | utils/exportUtils.ts:72-96 | one four-column body row per record with its description and category; the summary count is the row count; the summary total and the TOTAL footer are the same text |
| ExportUtils.JsonData | utils/exportUtils.ts:39-47 | the summary holds the records given, counts them, carries the export time, and non-negative amounts give a non-negative total |
| ExportUtils.PdfData | utils/exportUtils.ts:72-96 | one body row per record, four header and four footer cells, and the total label ends in the footer's total |
| ExportUtils.FormatsAgree | utils/exportUtils.ts:40-45 | JSON, PDF and CSV carry the same record count; the PDF footer is the JSON total formatted; the JSON holds the records unchanged |
| ExportUtils.JsonTotalByCategory | utils/exportUtils.ts:43 | the JSON total is the sum of the per-category sums |
| ExportUtils.FileNameSpec | utils/exportUtils.ts:36-120 | the base name is kept verbatim and two formats never share a file name |
| ExportUtils.FileName | utils/exportUtils.ts:36-120 | the name is the base, a point, and then exactly the format's extension |
| LegacyCsv.ValueRows | utils/exportCSV.ts:6-11 | one row of intended values per record |
| LegacyCsv.FileName | utils/exportCSV.ts:4 | the name is used as given, `expenses.csv` when omitted |
| LegacyCsv.CsvText | utils/exportCSV.ts:5-13 | the text starts with the line `Date,Category,Amount,Description` |
| LegacyCsv.HeaderLine | utils/exportCSV.ts:5 | the four header cells joined by commas are that line |
| LegacyCsv.CellRows | utils/exportCSV.ts:6-11 | one row of written cells per record |
| LegacyCsv.MonthStartsWithLetter | utils/formatters.ts:12 | month names are three letters, starting with a capital |
| LegacyCsv.ReadableDateShape | utils/exportCSV.ts:7 | a readable date is not quoted and has a comma |
| LegacyCsv.LegacyRowMisreads | utils/exportCSV.ts:7-13 | the text does not read back as the header and the record values when the first date is readable |
| LegacyCsv.FixedCellRows | utils/exportCSV.ts:6-11 | the corrected rows: one per record |
| LegacyCsv.FixedRowEncodes | utils/exportCSV.ts:6-11 | with the date quoted, every cell encodes its value |
| LegacyCsv.FixedRoundTrip | utils/exportCSV.ts:5-13 | with the date quoted, the text reads back as the header and every record's four values, in order |
| ExportHistory.MakeRecordKeepsData | utils/exportHistory.ts:25-29 | the new record carries every caller field unchanged, plus the fresh id and timestamp |
| ExportHistory.Read | utils/exportHistory.ts:15-22 | a stored log reads as its records; a missing or unreadable slot reads as an empty history |
| ExportHistory.Prepended | utils/exportHistory.ts:31 | the new log has one to fifty entries and the new record first |
| ExportHistory.PrependedSpec | utils/exportHistory.ts:31 | the new log is min(old + 1, 50) long, the record is first, and the old entries follow in order |
| ExportHistory.FullLogDropsOldest | utils/exportHistory.ts:31 | at 50 entries the oldest one goes |
| ExportHistory.HistoryStore.constructor | utils/exportHistory.ts:13 | the slot starts as given |
| ExportHistory.HistoryStore.Add | utils/exportHistory.ts:24-34 | stores the capped list with the new record first and returns that record |
| ExportHistory.HistoryStore.Clear | utils/exportHistory.ts:43-47 | the slot is removed and the history reads as empty |
| ExportHistory.AddBounded | utils/exportHistory.ts:24-34 | whatever the slot held, an add leaves at most 50 entries with the new one first |
| ExportHistory.EstimatedBytesSpec | utils/exportHistory.ts:49-56 | the estimate is at least 512 bytes and never smaller for more records |
| ExportHistory.RoundingSpec | utils/exportHistory.ts:58-59 | the KB and MB figures are within half a unit of the exact quotient |
| ExportHistory.FileSizeUnits | utils/exportHistory.ts:57-59 | below 1024 bytes the text is `<bytes> B`, below 1048576 it ends in ` KB`, beyond that in ` MB` |
| ExportHistory.EmptyExportSize | utils/exportHistory.ts:56-57 | no records is `512 B` |
| ExportHistory.KibBetween | utils/exportHistory.ts:58 | the KB figure lies between 1.0 and 1024.0 |
| ExportHistory.FileSizeText | utils/exportHistory.ts:57-59 | the size text starts with a digit and ends in `B` |
| ExportHistory.EstimateFileSize | utils/exportHistory.ts:49-60 | the estimate has that shape for any count and format |
| ExportHistory.Token | utils/exportHistory.ts:37-39 | the token has at most one character per draw |
| ExportHistory.ShareLink | utils/exportHistory.ts:36-41 | the link is the share base followed by at most twelve characters |
| ExportHistory.TokenSpec | utils/exportHistory.ts:37-39 | the token has at most one character per draw, all from [0-9a-z], and exactly twelve when every draw yields one |
| ExportHistory.ShareLinkShape | utils/exportHistory.ts:36-41 | the link is `https://spendwise.app/share/` and at most twelve characters from [0-9a-z] |
| ExpenseForm.Validate | components/expenses/ExpenseForm.tsx:30-42 | the exact message for each field; the category is never flagged; at most one description error; success iff no field is flagged iff the form is valid |
| ExpenseForm.HandleSubmit | components/expenses/ExpenseForm.tsx:44-47 | the untrimmed form is submitted iff it validates, and the errors shown are `validate`'s message for each field |
| ExpenseForm.NewFormInvalid | components/expenses/ExpenseForm.tsx:22-27 | a new form is today's Food form and does not validate |
| ExpenseForm.InitialForm | components/expenses/ExpenseForm.tsx:22-27 | a new form is today's Food form with no amount or description; an edit form keeps the record's date, category and description, and its amount text parses back to the amount |
| ExpenseForm.ValidFormParses | components/expenses/ExpenseForm.tsx:33 | a valid form's amount is one the store can parse |
| ExpenseForm.EditUnchangedRoundTrip | components/expenses/ExpenseForm.tsx:22-27 | submitting an unchanged edit form of a valid record validates and gives back the same record |
| FilterBar.Clear | components/expenses/FilterBar.tsx:15-17 | the reset state equals the initial filters of the hook |
| FilterBar.HasActiveFilters | components/expenses/FilterBar.tsx:12-13 | the filters are active iff they differ from the initial ones |
| FilterBar.SetSearch | components/expenses/FilterBar.tsx:33 | only the search text changes |
| FilterBar.SetCategory | components/expenses/FilterBar.tsx:41 | only the category changes |
| FilterBar.SetDateFrom | components/expenses/FilterBar.tsx:56 | only the from-date changes |
| FilterBar.SetDateTo | components/expenses/FilterBar.tsx:65 | only the to-date changes |
| FilterBar.InactiveKeepsAll | components/expenses/FilterBar.tsx:12-13 | inactive filters hide no record |
| FilterBar.SingleFieldActivates | components/expenses/FilterBar.tsx:12-13 | from a reset bar, setting one field activates it iff the value is not the blank one |
| FilterBar.ClearAfterEdits | components/expenses/FilterBar.tsx:15-65 | the four handlers together set every field, and the reset state hides nothing |
| SpendingChart.AllBars | components/dashboard/SpendingChart.tsx:37-40 | one candidate bar per category, in `CATEGORIES` order |
| SpendingChart.Color | components/ui/Badge.tsx:12-19 | each colour is a `#` and six hex digits |
| SpendingChart.ColorsDistinct | components/ui/Badge.tsx:12-19 | two categories share a colour only if they are the same |
| SpendingChart.BarData | components/dashboard/SpendingChart.tsx:37-41 | at most six bars, each with a positive amount |
| SpendingChart.PieData | components/dashboard/SpendingChart.tsx:43 | one slice per bar with its name, amount and colour |
| SpendingChart.BarDataSpec | components/dashboard/SpendingChart.tsx:37-41 | the bars keep the `CATEGORIES` order, are at most six, and a category has a bar iff its amount (0 when missing) is positive |
| SpendingChart.BarsComeFromCategories | components/dashboard/SpendingChart.tsx:37-41 | every bar is a category's bar with a positive amount |
| SpendingChart.PlaceholderIff | components/dashboard/SpendingChart.tsx:45-61 | the placeholder shows iff no category has a positive total |
| SpendingChart.PieMirrorsBars | components/dashboard/SpendingChart.tsx:43 | the slices have the same length, order, names, values and colours as the bars |
| SpendingChart.CategorySumPositive | components/dashboard/SpendingChart.tsx:39-41 | a category present among positive amounts has a positive sum |
| SpendingChart.ChartOfExpenses | components/dashboard/SpendingChart.tsx:37-45 | for positive amounts, a category has a bar iff it has a record, and the placeholder shows iff there are no records |
| ExportModal.CleanFilename | components/export/ExportModal.tsx:132 | the trimmed name, or `expense-export` when that is empty |
| ExportModal.Produce | components/export/ExportModal.tsx:133-136 | each format gives a file named from the base and its extension, with a payload of that format: CSV text starting with its header, a JSON summary of the records and export time, or a PDF with one row per record |
| ExportModal.Planned | components/export/ExportModal.tsx:133-137 | one file per selected format, in selection order |
| ExportModal.Completed | components/export/ExportModal.tsx:131-146 | the run stops short exactly when one of the formats throws |
| ExportModal.ErrorText | components/export/ExportModal.tsx:144 | the error's own message, or the default text for a non-Error throw |
| ExportModal.WriteAll | components/export/ExportModal.tsx:133-137 | the loop writes the planned files up to the one that throws |
| ExportModal.OccurrencesZero | components/export/ExportModal.tsx:108 | a category occurs zero times iff it is not selected |
| ExportModal.DistinctOccursOnce | components/export/ExportModal.tsx:108 | in a duplicate-free selection a category occurs at most once |
| ExportModal.OccurrencesAddUp | components/export/ExportModal.tsx:108 | the six occurrence counts add up to the selection's length |
| ExportModal.FullSelectionIsAll | components/export/ExportModal.tsx:108 | a duplicate-free selection of length six holds every category |
| ExportModal.ToggleAll | components/export/ExportModal.tsx:116-120 | the new selection is none or all of `CATEGORIES`, without duplicates |
| ExportModal.ToggleAllSpec | components/export/ExportModal.tsx:116-120 | a full selection becomes empty, any other becomes `CATEGORIES` in order; no duplicates; toggling twice alternates |
| ExportModal.NoneSelectedExportsAll | components/export/ExportModal.tsx:97-100 | selecting no category exports every record in the date range, like selecting all |
| ExportModal.PlannedSpec | components/export/ExportModal.tsx:132-137 | each file is named from the cleaned name, and a format selected once is written once |
| ExportModal.ExportDialog.constructor | components/export/ExportModal.tsx:74-80 | all categories, CSV only, `expenses-<today>`, no dates, idle, no error |
| ExportModal.ExportDialog.Filtered | components/export/ExportModal.tsx:97-100 | the exported records are a subsequence of all records |
| ExportModal.ExportDialog.TotalAmount | components/export/ExportModal.tsx:102-105 | the total shown is the total the JSON file reports |
| ExportModal.ExportDialog.Preview | components/export/ExportModal.tsx:107 | the preview is the first min(8, n) records to export |
| ExportModal.ExportDialog.CanExport | components/export/ExportModal.tsx:149-153 | export is enabled iff there is a record to export, a format is selected, and the dialog is idle or after an error; the preview is then non-empty |
| ExportModal.ExportDialog.ToggleCategory | components/export/ExportModal.tsx:110-114 | the category is removed if selected, else appended; nothing else changes; no duplicate |
| ExportModal.ExportDialog.ToggleAllCategories | components/export/ExportModal.tsx:116-120 | the category selection becomes all or none; nothing else changes |
| ExportModal.ExportDialog.ToggleFormat | components/export/ExportModal.tsx:122-126 | the format is removed if selected, else appended; nothing else changes |
| ExportModal.ExportDialog.SetInputs | components/export/ExportModal.tsx:74-78 | the date and name inputs take the typed values; nothing else changes |
| ExportModal.ExportDialog.Reopen | components/export/ExportModal.tsx:82-87 | reopening resets the state to idle and clears the error; export is then possible iff there are records and formats |
| ExportModal.ExportDialog.HandleExport | components/export/ExportModal.tsx:128-153 | nothing happens without records or formats; otherwise files are written in selection order until a throw, ending in success or in error with its message |
| CloudExport.FixedCell | components/export/CloudExportModal.tsx:35-39 | each 7 × 7 corner block shows its own finder pattern, row and column 6 are fixed, and the interior between the finders is not |
| CloudExport.InFinder | components/export/CloudExportModal.tsx:26-29 | a finder covers the 7 × 7 block from its corner |
| CloudExport.FinderFilled | components/export/CloudExportModal.tsx:30-33 | the outer ring of a finder is dark, and inside it only the 3 × 3 centre is |
| CloudExport.FinderOverridesTiming | components/export/CloudExportModal.tsx:36-39 | where a finder crosses row or column 6 the finder decides: (6, 15) is dark although the timing rule would make it light |
| CloudExport.GetCell | components/export/CloudExportModal.tsx:35-41 | a fixed cell takes its fixed colour, and a cell differs from the random draw only where it is fixed; the interior between the finders takes the draw |
| CloudExport.FinderShape | components/export/CloudExportModal.tsx:30-33 | the finder's ring at offsets 1 and 5 is light and its 3 × 3 centre is dark |
| CloudExport.RandomCells | components/export/CloudExportModal.tsx:19-41 | exactly the cells outside the three finders and off row and column 6 draw a random number |
| CloudExport.TimingPattern | components/export/CloudExportModal.tsx:39 | between the finders, row 6 and column 6 alternate, dark on even indices |
| CloudExport.FixedCellSymmetric | components/export/CloudExportModal.tsx:35-39 | the fixed part of the grid is symmetric about its diagonal |
| CloudExport.ToggleDestination | components/export/CloudExportModal.tsx:304-313 | a destination that is not usable asks to connect; any other is removed if selected, else appended |
| CloudExport.AlwaysAvailable | components/export/CloudExportModal.tsx:116-157 | the five destinations are known; exactly the three cloud services need a connection |
| CloudExport.ToggleKeepsSelectionUsable | components/export/CloudExportModal.tsx:304-313 | a selection of usable destinations stays usable; a duplicate-free one stays duplicate-free; a selected destination is removed entirely |
| CloudExport.Connect | components/export/CloudExportModal.tsx:738 | connecting marks that cloud service connected and no other |
| CloudExport.IsConnected | components/export/CloudExportModal.tsx:306 | only the three cloud services can read as connected, and none does at the start |
| CloudExport.ConnectedCount | components/export/CloudExportModal.tsx:799 | the count is between 2 and 5 |
| CloudExport.ConnectedCountIsUsable | components/export/CloudExportModal.tsx:799 | the count is the number of destinations usable without connecting; with no connection it is 2 |
| CloudExport.TemplateFields | components/export/CloudExportModal.tsx:66-112 | each template has four or five fields |
| CloudExport.Header | components/export/CloudExportModal.tsx:751-752 | the template's fields, or `Date,Description,Category,Amount` for an unknown template |
| CloudExport.LocalRows | components/export/CloudExportModal.tsx:752-754 | the header row, then one row per record |
| CloudExport.LocalCsv | components/export/CloudExportModal.tsx:752-754 | the file starts with the first header cell |
| CloudExport.LocalFileName | components/export/CloudExportModal.tsx:759 | `spendwise-`, the template, `-`, the date, `.` and the lower-cased format, each at its offset |
| CloudExport.LocalCsvReadsBackWhenPlain | components/export/CloudExportModal.tsx:750-754 | the unquoted text reads back only as far as no cell needs quotes: then it is the header and the rows |
| CloudExport.DefaultHeaderPlain | components/export/CloudExportModal.tsx:752 | the default header cells need no quotes |
| CloudExport.Records | components/export/CloudExportModal.tsx:766-776 | one completed record per destination, all with the same size estimate and record count |
| CloudExport.AddAllSpec | components/export/CloudExportModal.tsx:767-776 | after the writes the newest record is first, the older log follows, capped at 50 |
| CloudExport.AddAll | components/export/CloudExportModal.tsx:767-776 | no records leave the log as it was; otherwise it has one to fifty entries, the last record written first |
| CloudExport.WriteRecords | components/export/CloudExportModal.tsx:766-776 | the loop leaves the log that adding each record in turn would |
| CloudExport.OrdinalSuffix | components/export/CloudExportModal.tsx:400 | the suffix is one of `st`, `nd`, `rd`, `th` |
| CloudExport.NextRunText | components/export/CloudExportModal.tsx:395-401 | every repeating schedule ends with the chosen time |
| CloudExport.DigitCharInjective | components/export/CloudExportModal.tsx:448 | different digits are different characters |
| CloudExport.TensDigit | components/export/CloudExportModal.tsx:400 | a number's last two digits are its tens and units digits |
| CloudExport.SmallNatToString | components/export/CloudExportModal.tsx:448 | a two-digit day is written as its two digits |
| CloudExport.FixedSuffixIsEnglish | components/export/CloudExportModal.tsx:400 | the corrected suffix is the English ordinal suffix for every day number |
| CloudExport.AsWrittenRightUpTo20 | components/export/CloudExportModal.tsx:400 | as written, days 1 to 20 get the English suffix |
| CloudExport.AsWrittenMisnames21To23 | components/export/CloudExportModal.tsx:400 | as written, days 21, 22 and 23 get `th` |
| CloudExport.FixedNextRunText | components/export/CloudExportModal.tsx:395-401 | with the corrected suffix, every text but the monthly one is unchanged |
| CloudExport.MonthlyScheduleText | components/export/CloudExportModal.tsx:400 | the corrected monthly text carries the English suffix; as written it agrees for days 1 to 20 and differs for 21 to 23 |
| CloudExport.CloudExportDialog.constructor | components/export/CloudExportModal.tsx:713-724 | monthly summary, CSV, the local download selected, nothing connected, idle, no history shown |
| CloudExport.CloudExportDialog.Toggle | components/export/CloudExportModal.tsx:304-313 | asks to connect iff the destination is not usable, and otherwise toggles it; nothing else changes |
| CloudExport.CloudExportDialog.CompleteConnect | components/export/CloudExportModal.tsx:735-741 | the service becomes connected and is appended to the selection, even when a second click already put it there |
| CloudExport.DoubleConnectWritesTwice | components/export/CloudExportModal.tsx:735-776 | a service connected twice is connected once, but listed twice in the selection, so the export writes two history records for it |
| CloudExport.CloudExportDialog.Reopen | components/export/CloudExportModal.tsx:728-733 | opening reloads the shown log and sets the status to idle |
| CloudExport.CloudExportDialog.ClearHistory | components/export/CloudExportModal.tsx:783-786 | the log is removed and shown empty |
| CloudExport.CloudExportDialog.HandleExport | components/export/CloudExportModal.tsx:743-781 | nothing happens without a destination; otherwise the local file when selected, one record per destination in order, then the new log shown and success; a destination listed twice gets two records |

## Left out

- Storage and JSON: `loadExpenses`/`saveExpenses`, and `JSON.parse`/`JSON.stringify` of the export history. A storage key is a slot: `Expenses.ExpenseStore.saved`, and `ExportHistory.Slot`, which is absent, unreadable or a stored list. A stored value that parses but is not an array is not modelled.
- Server rendering (`typeof window === 'undefined'`): the model is always in the browser.
- Browser downloads (Blob, object URLs, `document`): a download is a `Download` value or a `LocalFile` value appended to a list.
- PDF rendering: only the text handed to the PDF library is modelled (labels, head, body, foot). Fonts, colours, coordinates and the `Generated:` date line are not.
- Floating point: amounts are whole cents.
  - `parseFloat` is exact on decimal text. Exponents, `Infinity` and hexadecimal are not read.
  - Rounding to the cent is half away from zero.
  - Sums are exact, with no accumulated binary rounding.
- `Intl.NumberFormat` is modelled for en-US dollars only. `date-fns` `parseISO` is modelled for the `yyyy-MM-dd` form only; its other ISO forms (week dates, times, offsets) are not.
- Unicode: `toLowerCase` lowers ASCII letters only. String `<` compares code points, which agrees with UTF-16 order on dates. `trim` uses the exact ECMAScript white-space and line-terminator set.
- Clocks and randomness are parameters:
  - ids, timestamps and today's date;
  - the current year and month;
  - the share-link draws;
  - the QR coin flips. The QR generator `rand` (a linear congruential step in doubles past 2^53) is not modelled.
- Timers, async and effects are not modelled: the 800 ms connect delay, the 1800 ms upload delay, the 3000 ms and 1800 ms resets to idle, and the `isOpen`/Escape/`onClose` wiring. `CloudExport.CloudExportDialog.CompleteConnect` is the end of the connect delay, and the dialogs' `Reopen` methods are the open effect.
- `CloudExport.Connections`: `connectedServices` is modelled as its three fixed keys. The source never adds another key.
- `ExportHistory.BytesPerRow`: keys of `Object.prototype` (such as `constructor`), which JavaScript would also find in `bytesPerRow`, are not modelled.
- `ExportHistory.FileSizeText`: the KB and MB figures with `toFixed` are computed exactly, rounding half up on the exact quotient. Binary rounding of a tie does not arise, because the quotient is a dyadic fraction.
- `Expenses.ExpenseStore.Add` and `Expenses.ExpenseStore.Update`: they require an amount text that parses, because a NaN amount is not representable in cents. The form never submits one (`ExpenseForm.ValidFormParses`).
- `ExportModal.ExportDialog.HandleExport`: where a format throws is a parameter (`Failure`), since the reason, jsPDF failing to load, is outside the model.
- All CSV builders end lines with LF. RFC 4180 section 2 rule 1 asks for CRLF, and the model keeps LF as the code writes it. The cloud dialog's CSV quotes nothing, so it is proved to read back only when no cell needs quotes.
- Page wiring, the sidebar, cards, lists, badges (except their colours) and buttons hold no modelled logic.

## Findings

| source | as written | input that shows it | evidently intended | confidence | as-written member | corrected member |
|---|---|---|---|---|---|---|
| utils/exportCSV.ts:6-7 | the readable date `MMM d, yyyy` is written unquoted, and its comma splits the cell | any record with a valid date, e.g. `2024-01-15` written as `Jan 15, 2024` | the date cell quoted like the description, so that a row reads back as its four values | not executed | LegacyCsv.LegacyRowMisreads | LegacyCsv.FixedRoundTrip |
| components/export/CloudExportModal.tsx:400 | the suffix is `st`/`nd`/`rd` only for the exact texts `1`, `2`, `3`, so the schedule says "21th", "22th", "23th" | day of month 21, 22 or 23 (all offered, line 448) | the English ordinal suffix (21st, 22nd, 23rd; 11th to 13th) | not executed | CloudExport.AsWrittenMisnames21To23 | CloudExport.FixedSuffixIsEnglish |
