/**
 * The cloud export dialog (`CloudExportModal.tsx`): the fixed cells of its QR
 * mock-up, the destination toggle and connection state, `handleExport` (the local
 * CSV file and one history record per destination), the schedule text's ordinal
 * suffix, and the connected-services count.
 */
module CloudExport {
  import opened Optional
  import opened Seqs
  import opened Text
  import opened ExpenseTypes
  import opened Csv
  import ExportUtils
  import opened ExportHistory

  // ---------------------------------------------------------------- QR mock-up

  const GridSize: nat := 21

  /** `inFinder`: the 7 × 7 square whose top-left corner is (or, oc). */
  predicate InFinder(r: int, c: int, or: int, oc: int): (b: bool)
    ensures b <==> or <= r < or + 7 && oc <= c < oc + 7
  {
    0 <= r - or <= 6 && 0 <= c - oc <= 6
  }

  /** `finderFilled`: the outer ring and the 3 × 3 centre are dark. */
  predicate FinderFilled(r: int, c: int, or: int, oc: int): (b: bool)
    ensures r == or || r == or + 6 || c == oc || c == oc + 6 ==> b
    ensures or < r < or + 6 && oc < c < oc + 6 ==> (b <==> or + 2 <= r <= or + 4 && oc + 2 <= c <= oc + 4)
  {
    var dr, dc := r - or, c - oc;
    dr == 0 || dr == 6 || dc == 0 || dc == 6 || (2 <= dr <= 4 && 2 <= dc <= 4)
  }

  /** The colour `getCell` fixes without drawing a random number, or `None` where it draws one. */
  function FixedCell(r: nat, c: nat): (v: Option<bool>)
    ensures r <= 6 && c <= 6 ==> v == Some(FinderFilled(r, c, 0, 0))
    ensures r <= 6 && GridSize - 7 <= c < GridSize ==> v == Some(FinderFilled(r, c, 0, GridSize - 7))
    ensures GridSize - 7 <= r < GridSize && c <= 6 ==> v == Some(FinderFilled(r, c, GridSize - 7, 0))
    ensures (r == 6 || c == 6) ==> v.Some?
    ensures 7 <= r < GridSize - 7 && 7 <= c < GridSize - 7 ==> v.None?
  {
    if InFinder(r, c, 0, 0) then Some(FinderFilled(r, c, 0, 0))
    else if InFinder(r, c, 0, GridSize - 7) then Some(FinderFilled(r, c, 0, GridSize - 7))
    else if InFinder(r, c, GridSize - 7, 0) then Some(FinderFilled(r, c, GridSize - 7, 0))
    else if r == 6 || c == 6 then Some((r + c) % 2 == 0)
    else None
  }

  /** `getCell`, with the outcome `rand() < 0.45` of the random source passed in. */
  function GetCell(r: nat, c: nat, coin: bool): (dark: bool)
    ensures FixedCell(r, c).Some? ==> dark == FixedCell(r, c).value
    ensures dark != coin ==> FixedCell(r, c).Some?
    ensures r <= 6 && c <= 6 ==> dark == FinderFilled(r, c, 0, 0)
    ensures 7 <= r < GridSize - 7 && 7 <= c < GridSize - 7 ==> dark == coin
  {
    match FixedCell(r, c)
    case Some(v) => v
    case None => coin
  }

  /** Inside a finder the ring at offsets 1 and 5 is light and the centre is dark. */
  lemma FinderShape(dr: int, dc: int)
    requires 0 <= dr <= 6 && 0 <= dc <= 6
    ensures (dr == 1 || dr == 5) && 1 <= dc <= 5 ==> !FinderFilled(dr, dc, 0, 0)
    ensures (dc == 1 || dc == 5) && 1 <= dr <= 5 ==> !FinderFilled(dr, dc, 0, 0)
    ensures 2 <= dr <= 4 && 2 <= dc <= 4 ==> FinderFilled(dr, dc, 0, 0)
  {
  }

  /** Where a finder meets row 6, the finder wins: (6, 15) is dark although the timing rule would make it light. */
  lemma FinderOverridesTiming()
    ensures FixedCell(6, 15) == Some(true) && FixedCell(15, 6) == Some(true)
    ensures (6 + 15) % 2 != 0
  {
  }

  /** Exactly the cells outside the three finders and off row and column 6 consult the random source. */
  lemma RandomCells(r: nat, c: nat)
    requires r < GridSize && c < GridSize
    ensures FixedCell(r, c).None? <==> !(r <= 6 && c <= 6) && !(r <= 6 && c >= 14) && !(r >= 14 && c <= 6) && r != 6 && c != 6
  {
  }

  /** Between the finders, row 6 and column 6 alternate dark and light, dark on even indices. */
  lemma TimingPattern(k: nat)
    requires 7 <= k <= 13
    ensures FixedCell(6, k) == Some(k % 2 == 0) && FixedCell(k, 6) == Some(k % 2 == 0)
  {
  }

  /** The fixed part of the grid is symmetric about its main diagonal. */
  lemma FixedCellSymmetric(r: nat, c: nat)
    requires r < GridSize && c < GridSize
    ensures FixedCell(r, c) == FixedCell(c, r)
  {
  }

  // ---------------------------------------------------------------- destinations

  /** Which of the three cloud services are connected (`connectedServices`; its keys never change). */
  datatype Connections = Connections(googleSheets: bool, dropbox: bool, onedrive: bool)

  const NoConnections: Connections := Connections(false, false, false)

  /** `DESTINATIONS.find(d => d.id === id)?.alwaysAvailable`: `None` for an unknown id. */
  function AlwaysAvailable(id: string): (a: Option<bool>)
    ensures a.Some? <==> id in DestinationIds
    ensures a == Some(false) <==> id in CloudIds
  {
    if id == "email" || id == "local" then Some(true)
    else if id == "google-sheets" || id == "dropbox" || id == "onedrive" then Some(false)
    else None
  }

  /** `connectedServices[id]`, where a missing key reads as not connected. */
  predicate IsConnected(conn: Connections, id: string): (b: bool)
    ensures b ==> id in CloudIds
    ensures conn == NoConnections ==> !b
  {
    (id == "google-sheets" && conn.googleSheets)
    || (id == "dropbox" && conn.dropbox)
    || (id == "onedrive" && conn.onedrive)
  }

  /** A destination the toggle lets the user select without connecting first. */
  predicate Usable(conn: Connections, id: string)
  {
    AlwaysAvailable(id) != Some(false) || IsConnected(conn, id)
  }

  /** What the destination toggle does: ask to connect, or set a new selection. */
  datatype ToggleOutcome = RequestConnect(service: string) | Select(selection: seq<string>)

  /** `DestinationsTab.toggle`. */
  function ToggleDestination(selected: seq<string>, conn: Connections, id: string): (o: ToggleOutcome)
    ensures o.RequestConnect? <==> !Usable(conn, id)
    ensures o.RequestConnect? ==> o.service == id
    ensures o.Select? ==> o.selection == Toggle(selected, id)
  {
    var dest := AlwaysAvailable(id);
    if dest.Some? && !dest.value && !IsConnected(conn, id) then RequestConnect(id)
    else Select(Toggle(selected, id))
  }

  /**
   * The toggle keeps every selected destination usable, and a duplicate-free
   * selection duplicate-free; it removes every copy of a destination listed twice.
   */
  lemma ToggleKeepsSelectionUsable(selected: seq<string>, conn: Connections, id: string)
    requires forall i :: 0 <= i < |selected| ==> Usable(conn, selected[i])
    ensures var o := ToggleDestination(selected, conn, id);
            o.Select? ==> (forall i :: 0 <= i < |o.selection| ==> Usable(conn, o.selection[i]))
                          && (Distinct(selected) ==> Distinct(o.selection))
                          && (id in selected ==> id !in o.selection)
  {
    var o := ToggleDestination(selected, conn, id);
    if o.Select? {
      if Distinct(selected) {
        ToggleDistinct(selected, id);
      }
      ToggleMembership(selected, id, id);
      forall i | 0 <= i < |o.selection| ensures Usable(conn, o.selection[i]) {
        ToggleMembership(selected, id, o.selection[i]);
      }
    }
  }

  /** `handleConnect`'s delayed update: the service is marked connected. */
  function Connect(conn: Connections, id: string): (r: Connections)
    ensures forall other :: IsConnected(r, other) <==> IsConnected(conn, other) || (other == id && AlwaysAvailable(id) == Some(false))
  {
    if id == "google-sheets" then conn.(googleSheets := true)
    else if id == "dropbox" then conn.(dropbox := true)
    else if id == "onedrive" then conn.(onedrive := true)
    else conn
  }

  const CloudIds: seq<string> := ["google-sheets", "dropbox", "onedrive"]
  const DestinationIds: seq<string> := ["email", "google-sheets", "dropbox", "onedrive", "local"]

  function ConnectedFn(conn: Connections): string -> bool
  {
    (id: string) => IsConnected(conn, id)
  }

  function UsableFn(conn: Connections): string -> bool
  {
    (id: string) => Usable(conn, id)
  }

  /** `connectedCount`: the connected cloud services, plus 2. */
  function ConnectedCount(conn: Connections): (n: nat)
    ensures 2 <= n <= 5
  {
    |Seqs.Select(CloudIds, ConnectedFn(conn))| + 2
  }

  /** The "+ 2" stands for e-mail and download: the count is the number of destinations usable right away. */
  lemma ConnectedCountIsUsable(conn: Connections)
    ensures ConnectedCount(conn) == |Seqs.Select(DestinationIds, UsableFn(conn))|
    ensures ConnectedCount(NoConnections) == 2
  {
    var u, k := UsableFn(conn), ConnectedFn(conn);
    assert DestinationIds[1..] == ["google-sheets", "dropbox", "onedrive", "local"];
    assert DestinationIds[1..][1..] == ["dropbox", "onedrive", "local"];
    assert DestinationIds[1..][1..][1..] == ["onedrive", "local"];
    assert DestinationIds[1..][1..][1..][1..] == ["local"];
    assert CloudIds[1..] == ["dropbox", "onedrive"];
    assert CloudIds[1..][1..] == ["onedrive"];
    assert Seqs.Select(["local"], u) == ["local"];
    assert |Seqs.Select(["onedrive", "local"], u)| == |Seqs.Select(["onedrive"], k)| + 1;
    assert |Seqs.Select(["dropbox", "onedrive", "local"], u)| == |Seqs.Select(["dropbox", "onedrive"], k)| + 1;
    assert |Seqs.Select(["google-sheets", "dropbox", "onedrive", "local"], u)| == |Seqs.Select(CloudIds, k)| + 1;
  }

  // ---------------------------------------------------------------- local CSV

  /** `TEMPLATES.find(t => t.id === id)?.fields`. */
  function TemplateFields(id: string): (f: Option<seq<string>>)
    ensures f.Some? ==> 4 <= |f.value| <= 5
  {
    if id == "monthly-summary" then Some(["Month", "Total Spent", "vs Prior Month", "Top Category"])
    else if id == "tax-report" then Some(["Date", "Amount", "Category", "Tax Category", "Deductible"])
    else if id == "category-analysis" then Some(["Category", "Total", "% of Spend", "Avg per Month", "Trend"])
    else if id == "business-expense" then Some(["Date", "Vendor", "Amount", "Business Purpose", "Project"])
    else if id == "travel-summary" then Some(["Trip", "Transport", "Accommodation", "Meals", "Total"])
    else None
  }

  const DefaultHeader: seq<string> := ["Date", "Description", "Category", "Amount"]

  /** The header row: the template's fields, or the default four columns for an unknown template. */
  function Header(template: string): (h: seq<string>)
    ensures |h| >= 4
    ensures TemplateFields(template).Some? ==> h == TemplateFields(template).value
    ensures TemplateFields(template).None? ==> h == DefaultHeader
  {
    match TemplateFields(template)
    case Some(f) => f
    case None => DefaultHeader
  }

  /** One row: the raw date, description and category and the two-decimal amount, none of them quoted. */
  function LocalCells(e: Expense): (r: seq<string>)
  {
    [e.date, e.description, CategoryName(e.category), FormatFixed2(e.amount)]
  }

  function LocalRows(template: string, xs: seq<Expense>): (r: seq<seq<string>>)
    ensures |r| == |xs| + 1 && r[0] == Header(template)
    ensures forall i :: 0 <= i < |xs| ==> r[i + 1] == LocalCells(xs[i])
  {
    [Header(template)] + seq(|xs|, i requires 0 <= i < |xs| => LocalCells(xs[i]))
  }

  /** The text of the downloaded file. */
  function LocalCsv(template: string, xs: seq<Expense>): (s: string)
    ensures var h := Header(template)[0]; |s| >= |h| && s[..|h|] == h
  {
    var rows := LocalRows(template, xs);
    var lines := Lines(rows);
    JoinHead(lines, "\n");
    JoinHead(rows[0], ",");
    Join(lines, "\n")
  }

  /** `spendwise-<template>-<yyyy-MM-dd>.<format in lower case>`. */
  function LocalFileName(template: string, today: string, format: string): (s: string)
    ensures |s| == 10 + |template| + 1 + |today| + 1 + |format|
    ensures s[..10] == "spendwise-" && s[|s| - |format|..] == Lower(format)
    ensures var t := 10 + |template|;
            s[10..t] == template && s[t] == '-' && s[t + 1..t + 1 + |today|] == today && s[t + 1 + |today|] == '.'
  {
    var s := "spendwise-" + template + "-" + today + "." + Lower(format);
    var t := 10 + |template|;
    assert s[|s| - |format|..] == Lower(format);
    assert s[10..t] == template && s[t + 1..t + 1 + |today|] == today;
    s
  }

  /**
   * Nothing is quoted, so the file reads back as the header and the records'
   * values only when no header field, date or description holds a comma, a
   * quote or a line feed.
   */
  lemma LocalCsvReadsBackWhenPlain(template: string, xs: seq<Expense>)
    requires forall j :: 0 <= j < |Header(template)| ==> PlainField(Header(template)[j])
    requires forall i :: 0 <= i < |xs| ==> PlainField(xs[i].date) && PlainField(xs[i].description)
    ensures ReadDocument(LocalCsv(template, xs)) == Some(LocalRows(template, xs))
  {
    var rows := LocalRows(template, xs);
    forall i, j | 0 <= i < |rows| && 0 <= j < |rows[i]| ensures Encodes(rows[i][j], rows[i][j]) {
      if i > 0 {
        var e := xs[i - 1];
        assert rows[i] == LocalCells(e);
        if j == 2 { ExportUtils.CategoryIsPlain(e.category); }
        if j == 3 { ExportUtils.AmountIsPlain(e.amount); }
      }
    }
    DocumentRoundTrip(rows, rows);
  }

  /** The default header needs no quoting. */
  lemma DefaultHeaderPlain(j: int)
    requires 0 <= j < 4
    ensures PlainField(DefaultHeader[j])
  {
    LettersArePlain(DefaultHeader[j]);
  }

  // ---------------------------------------------------------------- history writes

  /** The record `handleExport` writes for one destination. */
  function RecordFor(template: string, format: string, dest: string, count: nat): (d: RecordData)
  {
    RecordData(template, format, dest, ExportHistory.Completed, EstimateFileSize(count, format), count, None)
  }

  /** The records for the selected destinations, with the ids and timestamps the clock supplied. */
  function Records(template: string, format: string, dests: seq<string>, count: nat, ids: seq<string>, stamps: seq<string>): (rs: seq<ExportRecord>)
    requires |ids| >= |dests| && |stamps| >= |dests|
    ensures |rs| == |dests|
    ensures forall i :: 0 <= i < |rs| ==>
              rs[i].destination == dests[i] && rs[i].status == ExportHistory.Completed
              && rs[i].fileSize == EstimateFileSize(count, format) && rs[i].expenseCount == count
              && rs[i].template == template && rs[i].format == format
              && rs[i].id == ids[i] && rs[i].timestamp == stamps[i]
  {
    seq(|dests|, i requires 0 <= i < |dests| => MakeRecord(RecordFor(template, format, dests[i], count), ids[i], stamps[i]))
  }

  /** The history after `addExportRecord` has run once for each record, in order. */
  function AddAll(h: seq<ExportRecord>, rs: seq<ExportRecord>): (u: seq<ExportRecord>)
    ensures rs == [] ==> u == h
    ensures rs != [] ==> 1 <= |u| <= MaxRecords && u[0] == rs[|rs| - 1]
  {
    if rs == [] then h else Prepended(AddAll(h, rs[..|rs| - 1]), rs[|rs| - 1])
  }

  /**
   * Adding k records leaves min(n + k, 50) entries: the newest record first, the
   * records in reverse order of writing, then the old entries that still fit.
   */
  lemma {:induction false} AddAllSpec(h: seq<ExportRecord>, rs: seq<ExportRecord>, i: int)
    ensures rs != [] ==> |AddAll(h, rs)| == if |h| + |rs| < MaxRecords then |h| + |rs| else MaxRecords
    ensures 0 <= i < |rs| && i < MaxRecords ==> AddAll(h, rs)[i] == rs[|rs| - 1 - i]
    ensures |rs| <= i < |AddAll(h, rs)| ==> AddAll(h, rs)[i] == h[i - |rs|]
  {
    if rs != [] {
      var rest := rs[..|rs| - 1];
      var a := AddAll(h, rest);
      AddAllSpec(h, rest, i - 1);
      PrependedSpec(a, rs[|rs| - 1]);
      var u := AddAll(h, rs);
      if 0 < i < |u| {
        assert u[i] == u[1..][i - 1] == a[i - 1];
      }
    }
  }

  /**
   * The `for` loop of `handleExport`: one `addExportRecord` call per destination,
   * in selection order, each with the same size text and record count.
   */
  method WriteRecords(store: HistoryStore, template: string, format: string, dests: seq<string>, count: nat,
                      fileSize: string, ids: seq<string>, stamps: seq<string>)
    requires |ids| >= |dests| && |stamps| >= |dests| && fileSize == EstimateFileSize(count, format)
    modifies store
    ensures store.History() == AddAll(old(store.History()), Records(template, format, dests, count, ids, stamps))
    ensures dests != [] ==> store.slot.Stored?
    ensures dests == [] ==> store.slot == old(store.slot)
  {
    ghost var rs := Records(template, format, dests, count, ids, stamps);
    ghost var h0 := store.History();
    var k := 0;
    while k < |dests|
      invariant 0 <= k <= |dests|
      invariant store.History() == AddAll(h0, rs[..k])
      invariant k > 0 ==> store.slot.Stored?
      invariant k == 0 ==> store.slot == old(store.slot)
    {
      var data := RecordData(template, format, dests[k], ExportHistory.Completed, fileSize, count, None);
      var r := store.Add(data, ids[k], stamps[k]);
      assert rs[..k + 1][..k] == rs[..k];
      k := k + 1;
    }
    assert rs[..k] == rs;
  }

  /**
   * Two sign-ins completing for the same service (a second click on Connect
   * during the delay) leave it connected once but listed twice, and the export
   * then writes one history record for each copy.
   */
  lemma DoubleConnectWritesTwice(s: seq<string>, conn: Connections, id: string, template: string,
                                 format: string, count: nat, ids: seq<string>, stamps: seq<string>)
    requires AlwaysAvailable(id) == Some(false)
    requires |ids| >= |s| + 2 && |stamps| >= |s| + 2
    ensures Connect(Connect(conn, id), id) == Connect(conn, id)
    ensures var rs := Records(template, format, s + [id] + [id], count, ids, stamps);
            |rs| == |s| + 2 && rs[|s|].destination == id && rs[|s| + 1].destination == id
            && rs[|s|].id == ids[|s|] && rs[|s| + 1].id == ids[|s| + 1]
  {
  }

  // ---------------------------------------------------------------- schedule text

  /** `nextRunText`'s ordinal suffix as written. */
  function OrdinalSuffix(day: string): (s: string)
    ensures s == "st" || s == "nd" || s == "rd" || s == "th"
  {
    if day == "1" then "st" else if day == "2" then "nd" else if day == "3" then "rd" else "th"
  }

  /** `nextRunText`, for the time, weekday and day-of-month the schedule tab holds. */
  function NextRunText(frequency: string, time: string, dayOfWeek: string, dayOfMonth: string): (s: string)
    ensures frequency != "once" ==> |s| > |time| && s[|s| - |time|..] == time
  {
    var s :=
      if frequency == "once" then "Immediately after clicking Export"
      else if frequency == "daily" then "Tomorrow at " + time
      else if frequency == "weekly" then "Next " + dayOfWeek + " at " + time
      else "The " + dayOfMonth + OrdinalSuffix(dayOfMonth) + " of next month at " + time;
    assert frequency != "once" ==> s[|s| - |time|..] == time;
    s
  }

  /** The English ordinal suffix of a day number: 11th to 13th, otherwise by the last digit. */
  function EnglishSuffix(n: nat): (s: string)
  {
    if 11 <= n % 100 <= 13 then "th"
    else if n % 10 == 1 then "st" else if n % 10 == 2 then "nd" else if n % 10 == 3 then "rd" else "th"
  }

  /** The suffix read from the digits themselves: the last one, unless the one before it is a 1. */
  function FixedSuffix(day: string): (s: string)
  {
    if day == "" || (|day| >= 2 && day[|day| - 2] == '1') then "th"
    else if day[|day| - 1] == '1' then "st"
    else if day[|day| - 1] == '2' then "nd"
    else if day[|day| - 1] == '3' then "rd"
    else "th"
  }

  /** `nextRunText` with the corrected suffix; only the monthly text changes. */
  function FixedNextRunText(frequency: string, time: string, dayOfWeek: string, dayOfMonth: string): (s: string)
    ensures frequency == "once" || frequency == "daily" || frequency == "weekly" ==>
              s == NextRunText(frequency, time, dayOfWeek, dayOfMonth)
  {
    if frequency == "once" then "Immediately after clicking Export"
    else if frequency == "daily" then "Tomorrow at " + time
    else if frequency == "weekly" then "Next " + dayOfWeek + " at " + time
    else "The " + dayOfMonth + FixedSuffix(dayOfMonth) + " of next month at " + time
  }

  lemma DigitCharInjective(a: nat, b: nat)
    requires a < 10 && b < 10
    ensures DigitChar(a) == DigitChar(b) <==> a == b
  {
  }

  lemma TensDigit(n: nat)
    ensures n % 100 == 10 * ((n / 10) % 10) + n % 10
  {
  }

  /** The day-of-month choices 1 to 28 as `String(i + 1)` spells them. */
  lemma SmallNatToString(n: nat)
    requires 10 <= n < 100
    ensures NatToString(n) == [DigitChar(n / 10), DigitChar(n % 10)]
  {
  }

  /** The corrected suffix is the English one for every day number. */
  lemma {:induction false} FixedSuffixIsEnglish(n: nat)
    ensures FixedSuffix(NatToString(n)) == EnglishSuffix(n)
  {
    var s := NatToString(n);
    var last := n % 10;
    assert s[|s| - 1] == DigitChar(last);
    DigitCharInjective(last, 1);
    DigitCharInjective(last, 2);
    DigitCharInjective(last, 3);
    TensDigit(n);
    if n >= 10 {
      var t := NatToString(n / 10);
      assert s == t + [DigitChar(last)];
      var tens := (n / 10) % 10;
      assert s[|s| - 2] == t[|t| - 1] == DigitChar(tens);
      DigitCharInjective(tens, 1);
    }
  }

  /** As written, the days 1 to 20 get their English suffix... */
  lemma {:induction false} AsWrittenRightUpTo20(n: nat)
    requires 1 <= n <= 20
    ensures OrdinalSuffix(NatToString(n)) == EnglishSuffix(n)
  {
    if n >= 10 {
      SmallNatToString(n);
      assert |NatToString(n)| == 2;
    } else {
      assert NatToString(n) == [DigitChar(n)];
    }
  }

  /** ...but the 21st, 22nd and 23rd read "21th", "22th" and "23th". */
  lemma AsWrittenMisnames21To23(n: nat)
    requires 21 <= n <= 23
    ensures OrdinalSuffix(NatToString(n)) == "th" != EnglishSuffix(n)
  {
    SmallNatToString(n);
  }

  /**
   * The monthly schedule text for day n: corrected, it carries the English suffix;
   * as written it agrees for days 1 to 20 and differs for 21 to 23.
   */
  lemma MonthlyScheduleText(n: nat, time: string, dayOfWeek: string)
    ensures FixedNextRunText("monthly", time, dayOfWeek, NatToString(n))
            == "The " + NatToString(n) + EnglishSuffix(n) + " of next month at " + time
    ensures 1 <= n <= 20 ==> NextRunText("monthly", time, dayOfWeek, NatToString(n))
                             == FixedNextRunText("monthly", time, dayOfWeek, NatToString(n))
    ensures 21 <= n <= 23 ==> NextRunText("monthly", time, dayOfWeek, NatToString(n))
                              != FixedNextRunText("monthly", time, dayOfWeek, NatToString(n))
  {
    var d := NatToString(n);
    FixedSuffixIsEnglish(n);
    if 1 <= n <= 20 {
      AsWrittenRightUpTo20(n);
    }
    if 21 <= n <= 23 {
      AsWrittenMisnames21To23(n);
      var k := 4 + |d|;
      assert NextRunText("monthly", time, dayOfWeek, d)[k] == 't';
      assert FixedNextRunText("monthly", time, dayOfWeek, d)[k] == EnglishSuffix(n)[0] != 't';
    }
  }

  // ---------------------------------------------------------------- the dialog

  datatype ExportStatus = Idle | Exporting | Success

  /** A file the dialog hands to the browser. */
  datatype LocalFile = LocalFile(name: string, text: string)

  class CloudExportDialog {
    const expenses: seq<Expense>
    const store: HistoryStore
    var selectedTemplate: string
    var selectedFormat: string
    var selectedDestinations: seq<string>
    var connections: Connections
    var exportStatus: ExportStatus
    /** `exportHistory`: the copy of the log the history tab shows. */
    var shownHistory: seq<ExportRecord>
    /** Files downloaded so far, oldest first. */
    var files: seq<LocalFile>

    /**
     * The selection never holds an unconnected cloud service. It may list a
     * service twice: every completed sign-in appends the service again.
     */
    ghost predicate Valid()
      reads this
    {
      forall i :: 0 <= i < |selectedDestinations| ==> Usable(connections, selectedDestinations[i])
    }

    constructor (xs: seq<Expense>, history: HistoryStore)
      ensures Valid()
      ensures expenses == xs && store == history
      ensures selectedTemplate == "monthly-summary" && selectedFormat == "CSV"
      ensures selectedDestinations == ["local"] && connections == NoConnections
      ensures exportStatus == Idle && shownHistory == [] && files == []
    {
      expenses, store := xs, history;
      selectedTemplate, selectedFormat := "monthly-summary", "CSV";
      selectedDestinations, connections := ["local"], NoConnections;
      exportStatus, shownHistory, files := Idle, [], [];
    }

    /** The toggle on a destination card; returns whether it asked to connect instead. */
    method Toggle(id: string) returns (connectRequested: bool)
      requires Valid()
      modifies this
      ensures Valid()
      ensures connectRequested <==> !Usable(connections, id)
      ensures connectRequested ==> selectedDestinations == old(selectedDestinations)
      ensures !connectRequested ==> selectedDestinations == Seqs.Toggle(old(selectedDestinations), id)
      ensures connections == old(connections) && selectedTemplate == old(selectedTemplate)
      ensures selectedFormat == old(selectedFormat) && exportStatus == old(exportStatus)
      ensures shownHistory == old(shownHistory) && files == old(files)
    {
      ToggleKeepsSelectionUsable(selectedDestinations, connections, id);
      var o := ToggleDestination(selectedDestinations, connections, id);
      match o
      case RequestConnect(_) =>
        connectRequested := true;
      case Select(s) =>
        connectRequested := false;
        selectedDestinations := s;
    }

    /**
     * The end of `handleConnect`'s simulated sign-in: the service is connected and
     * appended to the selection, even when an earlier sign-in already appended it.
     */
    method CompleteConnect(id: string)
      requires Valid() && AlwaysAvailable(id) == Some(false)
      modifies this
      ensures Valid()
      ensures connections == Connect(old(connections), id) && IsConnected(connections, id)
      ensures selectedDestinations == old(selectedDestinations) + [id]
      ensures selectedTemplate == old(selectedTemplate) && selectedFormat == old(selectedFormat)
      ensures exportStatus == old(exportStatus) && shownHistory == old(shownHistory) && files == old(files)
    {
      var before := selectedDestinations;
      connections := Connect(connections, id);
      selectedDestinations := before + [id];
      forall i | 0 <= i < |selectedDestinations| ensures Usable(connections, selectedDestinations[i]) {
        if i < |before| { assert selectedDestinations[i] == before[i]; }
      }
    }

    /** Opening the dialog: the history tab reloads the log and the status returns to idle. */
    method Reopen()
      requires Valid()
      modifies this
      ensures Valid()
      ensures shownHistory == store.History() && exportStatus == Idle
      ensures selectedDestinations == old(selectedDestinations) && connections == old(connections)
      ensures selectedTemplate == old(selectedTemplate) && selectedFormat == old(selectedFormat)
      ensures files == old(files)
    {
      shownHistory := store.History();
      exportStatus := Idle;
    }

    /** `handleClearHistory`: the log is removed and the history tab shows it empty. */
    method ClearHistory()
      requires Valid()
      modifies this, store
      ensures Valid()
      ensures store.slot == Absent && shownHistory == []
      ensures selectedDestinations == old(selectedDestinations) && connections == old(connections)
      ensures selectedTemplate == old(selectedTemplate) && selectedFormat == old(selectedFormat)
      ensures exportStatus == old(exportStatus) && files == old(files)
    {
      store.Clear();
      shownHistory := store.History();
    }

    /**
     * `handleExport`. Nothing happens without a destination. Otherwise the CSV
     * file is downloaded when `local` is selected, one completed record per
     * destination is written to the history in selection order, all with the
     * same size estimate and record count, and the dialog shows the new history.
     */
    method HandleExport(ids: seq<string>, stamps: seq<string>, today: string)
      requires Valid()
      requires |ids| >= |selectedDestinations| && |stamps| >= |selectedDestinations|
      modifies this, store
      ensures Valid()
      ensures selectedDestinations == old(selectedDestinations) && connections == old(connections)
      ensures selectedTemplate == old(selectedTemplate) && selectedFormat == old(selectedFormat)
      ensures old(selectedDestinations) == [] ==>
                store.slot == old(store.slot) && files == old(files)
                && exportStatus == old(exportStatus) && shownHistory == old(shownHistory)
      ensures old(selectedDestinations) != [] ==>
                && store.History() == AddAll(old(store.History()),
                     Records(selectedTemplate, selectedFormat, selectedDestinations, |expenses|, ids, stamps))
                && store.slot.Stored?
                && files == old(files) + (if "local" in selectedDestinations
                     then [LocalFile(LocalFileName(selectedTemplate, today, selectedFormat), LocalCsv(selectedTemplate, expenses))]
                     else [])
                && shownHistory == store.History() && exportStatus == Success
    {
      var dests := selectedDestinations;
      if |dests| == 0 {
        return;
      }
      exportStatus := Exporting;
      if "local" in dests {
        files := files + [LocalFile(LocalFileName(selectedTemplate, today, selectedFormat), LocalCsv(selectedTemplate, expenses))];
      }
      var fileSize := EstimateFileSize(|expenses|, selectedFormat);
      WriteRecords(store, selectedTemplate, selectedFormat, dests, |expenses|, fileSize, ids, stamps);
      shownHistory := store.History();
      exportStatus := Success;
    }
  }
}
