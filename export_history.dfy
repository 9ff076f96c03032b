/**
 * The export history (`utils/exportHistory.ts`): a log in one storage slot,
 * newest first and capped at 50 entries, with the file-size estimate and the
 * share-link format.
 */
module ExportHistory {
  import opened Optional
  import opened Seqs
  import opened Text

  datatype Status = Completed | Failed | Pending

  datatype ExportRecord = ExportRecord(
    id: string,
    template: string,
    format: string,
    destination: string,
    status: Status,
    timestamp: string,
    fileSize: string,
    expenseCount: int,
    shareLink: Option<string>)

  /** `Omit<ExportRecord, 'id' | 'timestamp'>`: what callers pass in. */
  datatype RecordData = RecordData(
    template: string,
    format: string,
    destination: string,
    status: Status,
    fileSize: string,
    expenseCount: int,
    shareLink: Option<string>)

  /** What the storage key holds: nothing, text `JSON.parse` rejects, or a stored list. */
  datatype Slot = Absent | Unparsable | Stored(records: seq<ExportRecord>)

  const MaxRecords: nat := 50

  /** `{...data, id, timestamp}` with the fresh id and clock reading passed in. */
  function MakeRecord(data: RecordData, id: string, timestamp: string): (r: ExportRecord)
  {
    ExportRecord(id, data.template, data.format, data.destination, data.status,
                 timestamp, data.fileSize, data.expenseCount, data.shareLink)
  }

  /** The new record carries every caller field unchanged. */
  lemma MakeRecordKeepsData(data: RecordData, id: string, timestamp: string)
    ensures var r := MakeRecord(data, id, timestamp);
            RecordData(r.template, r.format, r.destination, r.status, r.fileSize, r.expenseCount, r.shareLink) == data
            && r.id == id && r.timestamp == timestamp
  {
  }

  /** `getExportHistory`: the stored list, or `[]` when there is none or it does not parse. */
  function Read(slot: Slot): (h: seq<ExportRecord>)
    ensures slot.Stored? ==> h == slot.records
    ensures slot == Absent || slot == Unparsable ==> h == []
  {
    if slot.Stored? then slot.records else []
  }

  /** `[record, ...history].slice(0, 50)`. */
  function Prepended(h: seq<ExportRecord>, r: ExportRecord): (u: seq<ExportRecord>)
    ensures 1 <= |u| <= MaxRecords && u[0] == r
  {
    Take([r] + h, MaxRecords)
  }

  /**
   * The new record is the head; after it come the first min(n, 49) old entries in
   * order, so at 50 entries the oldest is dropped.
   */
  lemma PrependedSpec(h: seq<ExportRecord>, r: ExportRecord)
    ensures var u := Prepended(h, r);
            |u| == (if |h| + 1 < MaxRecords then |h| + 1 else MaxRecords)
            && u[0] == r
            && u[1..] == h[..|u| - 1]
  {
    var u := Prepended(h, r);
    forall i | 0 <= i < |u| - 1 ensures u[1..][i] == h[i] {
      assert u[i + 1] == ([r] + h)[i + 1];
    }
  }

  /** When the log is full, the oldest entry is the one that goes. */
  lemma FullLogDropsOldest(h: seq<ExportRecord>, r: ExportRecord)
    requires |h| == MaxRecords
    ensures Prepended(h, r) == [r] + h[..MaxRecords - 1]
  {
    PrependedSpec(h, r);
  }

  /** The history slot (`spendwise_export_history`). */
  class HistoryStore {
    var slot: Slot

    constructor (initial: Slot)
      ensures slot == initial
    {
      slot := initial;
    }

    function History(): (h: seq<ExportRecord>)
      reads this
    {
      Read(slot)
    }

    /** `addExportRecord`: store the capped list with the new record first, and return it. */
    method Add(data: RecordData, id: string, timestamp: string) returns (r: ExportRecord)
      modifies this
      ensures r == MakeRecord(data, id, timestamp)
      ensures slot == Stored(Prepended(old(History()), r))
      ensures History()[0] == r && |History()| <= MaxRecords
    {
      r := MakeRecord(data, id, timestamp);
      var history := History();
      slot := Stored(Prepended(history, r));
    }

    /** `clearExportHistory`: the slot is removed and the history reads as empty. */
    method Clear()
      modifies this
      ensures slot == Absent && History() == []
    {
      slot := Absent;
    }
  }

  /** However long the stored list was, one add leaves at most 50 entries, newest first. */
  lemma AddBounded(slot: Slot, r: ExportRecord)
    ensures var u := Read(Stored(Prepended(Read(slot), r)));
            |u| <= MaxRecords && u[0] == r
  {
  }

  // ---------------------------------------------------------------- file size

  /** `bytesPerRow[format] ?? 100`. */
  function BytesPerRow(format: string): (n: nat)
  {
    if format == "CSV" then 80
    else if format == "XLSX" then 150
    else if format == "JSON" then 200
    else if format == "PDF" then 500
    else 100
  }

  function EstimatedBytes(expenseCount: nat, format: string): (b: nat)
  {
    expenseCount * BytesPerRow(format) + 512
  }

  lemma MulMonotone(a: nat, b: nat, k: nat)
    requires a <= b
    ensures a * k <= b * k
  {
  }

  /** At least the 512-byte base; never smaller for more records. */
  lemma EstimatedBytesSpec(n: nat, m: nat, format: string)
    ensures EstimatedBytes(n, format) >= 512
    ensures n <= m ==> EstimatedBytes(n, format) <= EstimatedBytes(m, format)
  {
    if n <= m {
      MulMonotone(n, m, BytesPerRow(format));
    }
  }

  /** Tenths of a KiB, rounded half up (`toFixed(1)` on the exact quotient). */
  function KibTenths(bytes: nat): (t: nat)
  {
    (bytes * 10 + 512) / 1024
  }

  /** Hundredths of a MiB, rounded half up (`toFixed(2)` on the exact quotient). */
  function MibHundredths(bytes: nat): (h: nat)
  {
    (bytes * 100 + 524288) / 1048576
  }

  /** The text `estimateFileSize` returns. */
  function FileSizeText(bytes: nat): (s: string)
    ensures |s| >= 3 && s[|s| - 1] == 'B' && IsDigit(s[0])
  {
    if bytes < 1024 then NatToString(bytes) + " B"
    else if bytes < 1024 * 1024 then
      var t := KibTenths(bytes);
      NatToString(t / 10) + "." + [DigitChar(t % 10)] + " KB"
    else
      var h := MibHundredths(bytes);
      NatToString(h / 100) + "." + FixedDigits(h % 100, 2) + " MB"
  }

  function EstimateFileSize(expenseCount: nat, format: string): (s: string)
    ensures |s| >= 3 && s[|s| - 1] == 'B' && IsDigit(s[0])
  {
    FileSizeText(EstimatedBytes(expenseCount, format))
  }

  /** The rounded figures are within half a unit of the exact quotient. */
  lemma RoundingSpec(bytes: nat)
    ensures KibTenths(bytes) * 1024 <= bytes * 10 + 512 < KibTenths(bytes) * 1024 + 1024
    ensures MibHundredths(bytes) * 1048576 <= bytes * 100 + 524288 < MibHundredths(bytes) * 1048576 + 1048576
  {
  }

  function Suffix(s: string, n: nat): (r: string)
    requires n <= |s|
  {
    s[|s| - n..]
  }

  /** The unit follows the thresholds 1024 and 1048576. */
  lemma FileSizeUnits(bytes: nat)
    ensures bytes < 1024 ==> FileSizeText(bytes) == NatToString(bytes) + " B"
    ensures 1024 <= bytes < 1048576 ==> |FileSizeText(bytes)| >= 3 && Suffix(FileSizeText(bytes), 3) == " KB"
    ensures 1048576 <= bytes ==> |FileSizeText(bytes)| >= 3 && Suffix(FileSizeText(bytes), 3) == " MB"
  {
  }

  /** No exported records is the 512-byte base, shown in bytes. */
  lemma EmptyExportSize(format: string)
    ensures EstimateFileSize(0, format) == "512 B"
  {
    assert NatToString(512) == NatToString(51) + [DigitChar(2)];
    assert NatToString(51) == NatToString(5) + [DigitChar(1)];
  }

  /** In the KB band the figure shown runs from 1.0 to 1024.0. */
  lemma KibBetween(bytes: nat)
    requires 1024 <= bytes < 1048576
    ensures 10 <= KibTenths(bytes) <= 10240
  {
  }

  // ---------------------------------------------------------------- share link

  const ShareBase: string := "https://spendwise.app/share/"

  predicate IsBase36Digit(c: char)
  {
    '0' <= c <= '9' || 'a' <= c <= 'z'
  }

  /**
   * The token from its twelve draws: each draw is the third character of
   * `Math.random().toString(36)`, or nothing when that string is shorter.
   */
  function Token(draws: seq<Option<char>>): (t: string)
    ensures |t| <= |draws|
  {
    if draws == [] then ""
    else (if draws[0].Some? then [draws[0].value] else "") + Token(draws[1..])
  }

  function ShareLink(draws: seq<Option<char>>): (s: string)
    requires |draws| == 12
    ensures |ShareBase| <= |s| <= |ShareBase| + 12 && s[..|ShareBase|] == ShareBase
  {
    ShareBase + Token(draws)
  }

  lemma {:induction false} TokenSpec(draws: seq<Option<char>>)
    requires forall i :: 0 <= i < |draws| && draws[i].Some? ==> IsBase36Digit(draws[i].value)
    ensures |Token(draws)| <= |draws|
    ensures forall i :: 0 <= i < |Token(draws)| ==> IsBase36Digit(Token(draws)[i])
    ensures (forall i :: 0 <= i < |draws| ==> draws[i].Some?) ==> |Token(draws)| == |draws|
  {
    if draws != [] {
      TokenSpec(draws[1..]);
    }
  }

  /** The link is the share base followed by at most twelve characters from [0-9a-z]. */
  lemma ShareLinkShape(draws: seq<Option<char>>)
    requires |draws| == 12
    requires forall i :: 0 <= i < 12 && draws[i].Some? ==> IsBase36Digit(draws[i].value)
    ensures var s := ShareLink(draws);
            StartsWith(s, ShareBase) && |s| <= |ShareBase| + 12
            && forall i :: |ShareBase| <= i < |s| ==> IsBase36Digit(s[i])
  {
    TokenSpec(draws);
    var s := ShareLink(draws);
    assert s[..|ShareBase|] == ShareBase;
    forall i | |ShareBase| <= i < |s| ensures IsBase36Digit(s[i]) {
      assert s[i] == Token(draws)[i - |ShareBase|];
    }
  }
}
