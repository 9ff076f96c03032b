/**
 * Date and currency display helpers: the calendar arithmetic of `new Date(y, m, d)`,
 * date-fns `yyyy-MM-dd` and `MMM d, yyyy` formatting of ISO calendar dates
 * (ISO 8601:2004 section 4.1.2.2, extended format), `currentMonthISO`, and the
 * en-US dollar format of `Intl.NumberFormat`.
 */
module Formatters {
  import opened Optional
  import opened Text

  /** A calendar date; `month` is 1..12. */
  datatype Date = Date(year: int, month: int, day: int)

  /** The Gregorian leap-year rule. */
  predicate IsLeapYear(y: int)
  {
    (y % 4 == 0 && y % 100 != 0) || y % 400 == 0
  }

  function DaysInMonth(y: int, m: int): (n: int)
    requires 1 <= m <= 12
    ensures 28 <= n <= 31
  {
    if m == 2 then (if IsLeapYear(y) then 29 else 28)
    else if m == 4 || m == 6 || m == 9 || m == 11 then 30
    else 31
  }

  predicate ValidDate(d: Date)
  {
    1 <= d.month <= 12 && 1 <= d.day <= DaysInMonth(d.year, d.month)
  }

  /** The `Date` constructor reads a year 0..99 as 1900..1999. */
  function CtorYear(y: int): int
  {
    if 0 <= y <= 99 then 1900 + y else y
  }

  /**
   * `new Date(y, monthIndex, day)` for the days the source uses (0..28): a month
   * index outside 0..11 carries into the year, and day 0 is the last day of the
   * previous month.
   */
  function MakeDate(y: int, monthIndex: int, day: int): (d: Date)
    requires 0 <= day <= 28
    ensures ValidDate(d)
  {
    var yy := CtorYear(y) + monthIndex / 12;
    var m := monthIndex % 12 + 1;
    if day >= 1 then Date(yy, m, day)
    else if m == 1 then Date(yy - 1, 12, 31)
    else Date(yy, m - 1, DaysInMonth(yy, m - 1))
  }

  /** The date-fns `yyyy` token: era year (1 - y for y <= 0), at least four digits. */
  function YearText(y: int): (s: string)
    ensures AllDigits(s)
    ensures 1 <= y <= 9999 ==> s == FixedDigits(y, 4)
    ensures 0 <= y <= 9999 ==> |s| == 4
  {
    var e: nat := if y > 0 then y else 1 - y;
    if e < 10000 then FixedDigits(e, 4) else NatToString(e)
  }

  /** `format(date, 'yyyy-MM-dd')`. */
  function FormatIso(d: Date): (s: string)
    requires ValidDate(d)
    ensures 0 <= d.year <= 9999 ==> IsoShaped(s)
  {
    var y, m, dd := YearText(d.year), FixedDigits(d.month, 2), FixedDigits(d.day, 2);
    var s := y + "-" + m + "-" + dd;
    assert 0 <= d.year <= 9999 ==> s[..4] == y && s[5..7] == m && s[8..] == dd;
    s
  }

  /** `todayISO()`, with the clock's date passed in. */
  function TodayISO(now: Date): (s: string)
    requires ValidDate(now)
    ensures 0 <= now.year <= 9999 ==> IsoShaped(s)
    ensures 1 <= now.year <= 9999 ==> ParseIsoDate(s) == Some(now)
  {
    var s := FormatIso(now);
    if 1 <= now.year <= 9999 then ParseFormatIso(now); s else s
  }

  /**
   * `currentMonthISO()`, with the clock's `getFullYear()` and `getMonth()` passed
   * in: the first day of the month, and day 0 of the following month.
   */
  function CurrentMonthISO(year: nat, monthIndex: int): (r: (string, string))
    requires 0 <= monthIndex <= 11
    ensures CtorYear(year) <= 9999 ==> IsoShaped(r.0) && IsoShaped(r.1)
  {
    MonthBounds(year, monthIndex);
    (FormatIso(MakeDate(year, monthIndex, 1)), FormatIso(MakeDate(year, monthIndex + 1, 0)))
  }

  /** Day 0 of the next month is the last day of this one, December rolling into January included. */
  lemma MonthBounds(year: nat, monthIndex: int)
    requires 0 <= monthIndex <= 11
    ensures MakeDate(year, monthIndex, 1) == Date(CtorYear(year), monthIndex + 1, 1)
    ensures var m := monthIndex + 1;
            MakeDate(year, monthIndex + 1, 0) == Date(CtorYear(year), m, DaysInMonth(CtorYear(year), m))
  {
  }

  /** The last day is 31, 30, or 29/28 for February under the Gregorian rule. */
  lemma LastDayOfMonth(year: nat, monthIndex: int)
    requires 0 <= monthIndex <= 11
    ensures var y, m := CtorYear(year), monthIndex + 1;
            var last := MakeDate(year, monthIndex + 1, 0).day;
            (m == 2 ==> (last == 29 <==> IsLeapYear(y)) && (last == 28 <==> !IsLeapYear(y)))
            && (m in {4, 6, 9, 11} ==> last == 30)
            && (m in {1, 3, 5, 7, 8, 10, 12} ==> last == 31)
  {
    MonthBounds(year, monthIndex);
  }

  /** In December the rollover into January still yields the 31st of December of the same year. */
  lemma DecemberRollover(year: nat)
    ensures MakeDate(year, 12, 0) == Date(CtorYear(year), 12, 31)
    ensures CurrentMonthISO(year, 11).1 == YearText(CtorYear(year)) + "-12-31"
  {
    MonthBounds(year, 11);
    assert FixedDigits(12, 2) == "12" && FixedDigits(31, 2) == "31";
  }

  /** Both bounds share the `yyyy-MM-` prefix, have the fixed width 10 and are in order. */
  lemma CurrentMonthShape(year: nat, monthIndex: int)
    requires 0 <= monthIndex <= 11
    requires CtorYear(year) <= 9999
    ensures var (from, to) := CurrentMonthISO(year, monthIndex);
            |from| == 10 && |to| == 10
            && from[..8] == to[..8]
            && from[8..] == "01"
            && Less(from, to)
  {
    MonthBounds(year, monthIndex);
    var y, m := CtorYear(year), monthIndex + 1;
    var prefix := YearText(y) + "-" + FixedDigits(m, 2) + "-";
    var (from, to) := CurrentMonthISO(year, monthIndex);
    assert from == prefix + FixedDigits(1, 2);
    assert to == prefix + FixedDigits(DaysInMonth(y, m), 2);
    SharedPrefixBounds(prefix, DaysInMonth(y, m));
  }

  /** The first and the last day written after the same eight-character prefix. */
  lemma SharedPrefixBounds(prefix: string, last: nat)
    requires |prefix| == 8 && 28 <= last <= 31
    ensures var from, to := prefix + FixedDigits(1, 2), prefix + FixedDigits(last, 2);
            |from| == 10 && |to| == 10 && from[..8] == to[..8] && from[8..] == "01" && Less(from, to)
  {
    var a, b := FixedDigits(1, 2), FixedDigits(last, 2);
    TwoDigits(1);
    TwoDigits(last);
    assert last / 10 >= 2;
    assert (prefix + a)[..8] == prefix == (prefix + b)[..8];
    assert (prefix + a)[8..] == a;
    LessCommonPrefix(prefix, a, b);
  }

  // ---------------------------------------------------------------- parsing ISO dates

  const MonthAbbrevs: seq<string> :=
    ["Jan", "Feb", "Mar", "Apr", "May", "Jun", "Jul", "Aug", "Sep", "Oct", "Nov", "Dec"]

  /** Has the `yyyy-MM-dd` shape: ten characters, digits around two hyphens. */
  predicate IsoShaped(s: string)
  {
    |s| == 10 && s[4] == '-' && s[7] == '-'
    && AllDigits(s[..4]) && AllDigits(s[5..7]) && AllDigits(s[8..])
  }

  /**
   * date-fns `parseISO` on a calendar date: the date when `s` is `yyyy-MM-dd`
   * naming a real day; `None` is the Invalid Date on which `format` throws.
   */
  function ParseIsoDate(s: string): (r: Option<Date>)
    ensures r.Some? ==> ValidDate(r.value) && 0 <= r.value.year <= 9999
  {
    if !IsoShaped(s) then None
    else
      var d := Date(DigitsValue(s[..4]), DigitsValue(s[5..7]), DigitsValue(s[8..]));
      if ValidDate(d) then Some(d) else None
  }

  /** `formatDate`: `MMM d, yyyy`, or the input unchanged when the date library throws. */
  function FormatDate(s: string): (r: string)
    ensures ParseIsoDate(s).Some? ==> |r| >= 4 && r[..3] == MonthAbbrevs[ParseIsoDate(s).value.month - 1] && r[3] == ' '
  {
    match ParseIsoDate(s)
    case None => s
    case Some(d) => MonthAbbrevs[d.month - 1] + " " + NatToString(d.day) + ", " + YearText(d.year)
  }

  /** `formatDateInput`: `yyyy-MM-dd`, or the input unchanged when the date library throws. */
  function FormatDateInput(s: string): (r: string)
    ensures ParseIsoDate(s).Some? ==> IsoShaped(r)
  {
    match ParseIsoDate(s)
    case None => s
    case Some(d) => FormatIso(d)
  }

  /** When the date library fails, both helpers hand back the input string. */
  lemma FormatFallback(s: string)
    requires ParseIsoDate(s).None?
    ensures FormatDate(s) == s && FormatDateInput(s) == s
  {
  }

  /** A readable date always carries a comma (`Jan 15, 2024`). */
  lemma FormatDateHasComma(s: string)
    requires ParseIsoDate(s).Some?
    ensures ',' in FormatDate(s)
  {
    var d := ParseIsoDate(s).value;
    var head := MonthAbbrevs[d.month - 1] + " " + NatToString(d.day);
    assert FormatDate(s) == head + ", " + YearText(d.year);
    assert FormatDate(s)[|head|] == ',';
  }

  /**
   * `formatDateInput` is the identity on every string except a valid date in
   * year 0000, which the era-based `yyyy` token writes as 0001.
   */
  lemma FormatDateInputIdentity(s: string)
    ensures !StartsWith(s, "0000") ==> FormatDateInput(s) == s
  {
    match ParseIsoDate(s)
    case None =>
    case Some(d) =>
      var y := FixedDigits(d.year, 4);
      var rest := "-" + FixedDigits(d.month, 2) + "-" + FixedDigits(d.day, 2);
      ParsedIsoFields(s);
      assert s == y + rest;
      if d.year == 0 {
        SmallFixedDigits();
        assert s[..4] == y;
      } else {
        assert FormatIso(d) == y + rest;
      }
  }

  /** A string `parseISO` accepts is the fixed-width digits of the date it names. */
  lemma ParsedIsoFields(s: string)
    requires ParseIsoDate(s).Some?
    ensures var d := ParseIsoDate(s).value;
            s == FixedDigits(d.year, 4) + "-" + FixedDigits(d.month, 2) + "-" + FixedDigits(d.day, 2)
  {
    var y, m, dd := s[..4], s[5..7], s[8..];
    FixedDigitsOfDigitsValue(y);
    FixedDigitsOfDigitsValue(m);
    FixedDigitsOfDigitsValue(dd);
    assert s == y + "-" + m + "-" + dd;
  }

  /** Two fixed digits are the tens digit and the units digit. */
  lemma TwoDigits(n: nat)
    requires n < 100
    ensures FixedDigits(n, 2) == [DigitChar(n / 10), DigitChar(n % 10)]
  {
    var t := n / 10;
    assert t < 10 && t % 10 == t && t / 10 == 0;
    assert FixedDigits(n, 2) == FixedDigits(t, 1) + [DigitChar(n % 10)];
    assert FixedDigits(t, 1) == FixedDigits(0, 0) + [DigitChar(t)];
  }

  /** The digit strings of the year-0000 quirk. */
  lemma SmallFixedDigits()
    ensures FixedDigits(0, 2) == "00" && FixedDigits(1, 2) == "01"
    ensures FixedDigits(0, 4) == "0000" && FixedDigits(1, 4) == "0001"
  {
    var z1 := FixedDigits(0, 1);
    assert z1 == [] + [DigitChar(0)];
    assert FixedDigits(0, 2) == z1 + [DigitChar(0)];
    assert FixedDigits(1, 2) == z1 + [DigitChar(1)];
    var z3 := FixedDigits(0, 3);
    assert z3 == FixedDigits(0, 2) + [DigitChar(0)];
    assert FixedDigits(0, 4) == z3 + [DigitChar(0)];
    assert FixedDigits(1, 4) == z3 + [DigitChar(1)];
  }

  /** Fixed-width digits around two hyphens read back as the date they spell. */
  lemma ParseIsoOfFields(y: nat, m: nat, d: nat)
    requires y <= 9999 && ValidDate(Date(y, m, d))
    ensures ParseIsoDate(FixedDigits(y, 4) + "-" + FixedDigits(m, 2) + "-" + FixedDigits(d, 2)) == Some(Date(y, m, d))
  {
    var ys, ms, ds := FixedDigits(y, 4), FixedDigits(m, 2), FixedDigits(d, 2);
    var s := ys + "-" + ms + "-" + ds;
    assert s[..4] == ys && s[5..7] == ms && s[8..] == ds;
    assert s[4] == '-' && s[7] == '-';
    DigitsValueOfFixedDigits(y, 4);
    DigitsValueOfFixedDigits(m, 2);
    DigitsValueOfFixedDigits(d, 2);
  }

  /** `parseISO` reads back what `format(date, 'yyyy-MM-dd')` writes, for years 1..9999. */
  lemma ParseFormatIso(d: Date)
    requires ValidDate(d) && 1 <= d.year <= 9999
    ensures ParseIsoDate(FormatIso(d)) == Some(d)
  {
    ParseIsoOfFields(d.year, d.month, d.day);
  }

  /** Every valid date of year 0000 is written back with year 0001: `0000-MM-dd` becomes `0001-MM-dd`. */
  lemma YearZeroQuirk(m: nat, d: nat)
    requires ValidDate(Date(0, m, d))
    ensures var rest := "-" + FixedDigits(m, 2) + "-" + FixedDigits(d, 2);
            FormatDateInput("0000" + rest) == "0001" + rest
  {
    var rest := "-" + FixedDigits(m, 2) + "-" + FixedDigits(d, 2);
    var s := FixedDigits(0, 4) + rest;
    YearZeroWritten(m, d);
    SmallFixedDigits();
    assert s == "0000" + rest;
  }

  /** The same in terms of the digit strings. */
  lemma YearZeroWritten(m: nat, d: nat)
    requires ValidDate(Date(0, m, d))
    ensures var rest := "-" + FixedDigits(m, 2) + "-" + FixedDigits(d, 2);
            FormatDateInput(FixedDigits(0, 4) + rest) == FixedDigits(1, 4) + rest
  {
    var rest := "-" + FixedDigits(m, 2) + "-" + FixedDigits(d, 2);
    ParseIsoOfFields(0, m, d);
    assert FixedDigits(0, 4) + "-" + FixedDigits(m, 2) + "-" + FixedDigits(d, 2) == FixedDigits(0, 4) + rest;
    assert FormatIso(Date(0, m, d)) == FixedDigits(1, 4) + rest;
  }

  // ---------------------------------------------------------------- currency

  /** Thousands grouped by commas. */
  function Grouped(n: nat): (s: string)
    ensures |s| >= 1 && IsDigit(s[0])
  {
    if n < 1000 then NatToString(n) else Grouped(n / 1000) + "," + FixedDigits(n % 1000, 3)
  }

  /** `Intl.NumberFormat('en-US', {style: 'currency', currency: 'USD'})` on an amount in cents: `-$1,234.56`. */
  function FormatCurrency(cents: int): (s: string)
    ensures |s| >= 5 && s[|s| - 3] == '.'
    ensures (cents >= 0 ==> s[0] == '$') && (cents < 0 ==> s[..2] == "-$")
  {
    var a := if cents < 0 then -cents else cents;
    (if cents < 0 then "-$" else "$") + Grouped(a / 100) + "." + FixedDigits(a % 100, 2)
  }
}
