/**
 * Comma-separated text as the export builders write it (LF between records,
 * double quotes escaped by doubling, after RFC 4180 section 2 rules 5-7), and a
 * reader for that text. The reader is the reference against which the writers'
 * output is checked: a field the writer quotes, or a plain field without a
 * comma, quote or line feed, reads back as the value written.
 */
module Csv {
  import opened Optional
  import opened Text

  // ---------------------------------------------------------------- writing

  /** `s.replace(/"/g, '""')`: every double quote doubled. */
  function EscapeQuotes(s: string): (r: string)
    ensures |r| >= |s|
  {
    if s == [] then [] else (if s[0] == '"' then "\"\"" else [s[0]]) + EscapeQuotes(s[1..])
  }

  /** `"${s.replace(/"/g, '""')}"`. */
  function Quote(s: string): (r: string)
  {
    "\"" + EscapeQuotes(s) + "\""
  }

  /** A value that may be written without quotes. */
  predicate PlainField(s: string)
  {
    forall i :: 0 <= i < |s| ==> s[i] != ',' && s[i] != '\n' && s[i] != '"'
  }

  /** Letters (and the few signs between `Z` and `a`) never need quotes. */
  lemma LettersArePlain(s: string)
    requires forall i :: 0 <= i < |s| ==> 'A' <= s[i] <= 'z'
    ensures PlainField(s)
  {
  }

  /** `cell` is how `value` appears in the text: quoted, or verbatim when plain. */
  predicate Encodes(cell: string, value: string)
  {
    cell == Quote(value) || (cell == value && PlainField(value))
  }

  /** `cells.join(',')` for each row. */
  function Lines(rows: seq<seq<string>>): (r: seq<string>)
    ensures |r| == |rows|
  {
    if rows == [] then [] else [Join(rows[0], ",")] + Lines(rows[1..])
  }

  // ---------------------------------------------------------------- reading

  /** The body of a quoted field, just after its opening quote: up to the lone closing quote. */
  function ReadQuoted(s: string): (r: Option<(string, string)>)
    ensures r.Some? ==> |r.value.1| < |s|
  {
    if s == [] then None
    else if s[0] == '"' then
      if |s| > 1 && s[1] == '"' then
        match ReadQuoted(s[2..])
        case None => None
        case Some(p) => Some(("\"" + p.0, p.1))
      else Some(("", s[1..]))
    else
      match ReadQuoted(s[1..])
      case None => None
      case Some(p) => Some(([s[0]] + p.0, p.1))
  }

  /** An unquoted field: up to the next comma or line feed. */
  function ReadPlain(s: string): (r: (string, string))
    ensures r.0 + r.1 == s
    ensures r.1 == [] || r.1[0] == ',' || r.1[0] == '\n'
    ensures forall i :: 0 <= i < |r.0| ==> r.0[i] != ',' && r.0[i] != '\n'
  {
    if s == [] || s[0] == ',' || s[0] == '\n' then ("", s)
    else
      var p := ReadPlain(s[1..]);
      ([s[0]] + p.0, p.1)
  }

  function ReadField(s: string): (r: Option<(string, string)>)
    ensures r.Some? ==> |r.value.1| <= |s|
  {
    if s != [] && s[0] == '"' then ReadQuoted(s[1..]) else Some(ReadPlain(s))
  }

  /** The fields of one record; what is left is empty or starts at the line feed that ends it. */
  function ReadRecord(s: string): (r: Option<(seq<string>, string)>)
    ensures r.Some? ==> |r.value.0| >= 1 && |r.value.1| <= |s|
    ensures r.Some? ==> r.value.1 == [] || r.value.1[0] == '\n'
    decreases |s|
  {
    match ReadField(s)
    case None => None
    case Some(p) =>
      var (f, rest) := p;
      if rest != [] && rest[0] == ',' then
        match ReadRecord(rest[1..])
        case None => None
        case Some(q) => Some(([f] + q.0, q.1))
      else if rest == [] || rest[0] == '\n' then Some(([f], rest))
      else None
  }

  /** Records separated by line feeds, none after the last. */
  function ReadDocument(s: string): (r: Option<seq<seq<string>>>)
    ensures r.Some? ==> |r.value| >= 1
    decreases |s|
  {
    match ReadRecord(s)
    case None => None
    case Some(p) =>
      if p.1 == [] then Some([p.0])
      else
        match ReadDocument(p.1[1..])
        case None => None
        case Some(rs) => Some([p.0] + rs)
  }

  // ---------------------------------------------------------------- round trip

  /** Collapsing the doubled quotes up to the closing quote recovers the value. */
  lemma {:induction false} ReadQuotedOfEscaped(v: string, rest: string)
    requires rest == [] || rest[0] != '"'
    ensures ReadQuoted(EscapeQuotes(v) + "\"" + rest) == Some((v, rest))
  {
    var s := EscapeQuotes(v) + "\"" + rest;
    if v == [] {
      assert s == "\"" + rest;
      assert s[1..] == rest;
    } else {
      ReadQuotedOfEscaped(v[1..], rest);
      var t := EscapeQuotes(v[1..]) + "\"" + rest;
      if v[0] == '"' {
        assert s == "\"\"" + t && s[2..] == t;
        assert "\"" + v[1..] == v;
      } else {
        assert s == [v[0]] + t && s[1..] == t;
        assert [v[0]] + v[1..] == v;
      }
    }
  }

  lemma {:induction false} ReadPlainOfPlain(v: string, rest: string)
    requires PlainField(v)
    requires rest == [] || rest[0] == ',' || rest[0] == '\n'
    ensures ReadPlain(v + rest) == (v, rest)
  {
    if v == [] {
      assert v + rest == rest;
    } else {
      assert (v + rest)[0] == v[0] && (v + rest)[1..] == v[1..] + rest;
      assert PlainField(v[1..]) by {
        forall i | 0 <= i < |v[1..]| ensures v[1..][i] != ',' && v[1..][i] != '\n' && v[1..][i] != '"' {
          assert v[1..][i] == v[i + 1];
        }
      }
      ReadPlainOfPlain(v[1..], rest);
      assert [v[0]] + v[1..] == v;
    }
  }

  /** A field, quoted or plain, followed by a separator or the end, reads back as its value. */
  lemma FieldRoundTrip(cell: string, value: string, rest: string)
    requires Encodes(cell, value)
    requires rest == [] || rest[0] == ',' || rest[0] == '\n'
    ensures ReadField(cell + rest) == Some((value, rest))
  {
    if cell == Quote(value) {
      assert (cell + rest)[1..] == EscapeQuotes(value) + "\"" + rest;
      ReadQuotedOfEscaped(value, rest);
    } else {
      if value != [] { assert value[0] != '"'; }
      ReadPlainOfPlain(value, rest);
    }
  }

  /** A record of encoded fields reads back as the values, leaving what follows it. */
  lemma {:induction false} RecordRoundTrip(cells: seq<string>, values: seq<string>, rest: string)
    requires |cells| == |values| >= 1
    requires forall j :: 0 <= j < |cells| ==> Encodes(cells[j], values[j])
    requires rest == [] || rest[0] == '\n'
    ensures ReadRecord(Join(cells, ",") + rest) == Some((values, rest))
  {
    if |cells| == 1 {
      FieldRoundTrip(cells[0], values[0], rest);
      assert [values[0]] == values;
    } else {
      var tail := Join(cells[1..], ",") + rest;
      assert Join(cells, ",") + rest == cells[0] + ("," + tail);
      FieldRoundTrip(cells[0], values[0], "," + tail);
      assert ("," + tail)[1..] == tail;
      RecordRoundTrip(cells[1..], values[1..], rest);
      assert [values[0]] + values[1..] == values;
    }
  }

  /** Rows of encoded fields, one per line joined by line feeds, read back as the rows of values. */
  lemma {:induction false} DocumentRoundTrip(cellRows: seq<seq<string>>, rows: seq<seq<string>>)
    requires |cellRows| == |rows| >= 1
    requires forall i :: 0 <= i < |rows| ==> |cellRows[i]| == |rows[i]| >= 1
    requires forall i, j :: 0 <= i < |rows| && 0 <= j < |rows[i]| ==> Encodes(cellRows[i][j], rows[i][j])
    ensures ReadDocument(Join(Lines(cellRows), "\n")) == Some(rows)
  {
    var lines := Lines(cellRows);
    if |rows| == 1 {
      assert lines == [Join(cellRows[0], ",")];
      RecordRoundTrip(cellRows[0], rows[0], "");
      assert Join(cellRows[0], ",") + "" == Join(cellRows[0], ",");
      assert [rows[0]] == rows;
    } else {
      var tail := Join(Lines(cellRows[1..]), "\n");
      assert lines[1..] == Lines(cellRows[1..]);
      assert Join(lines, "\n") == Join(cellRows[0], ",") + ("\n" + tail);
      RecordRoundTrip(cellRows[0], rows[0], "\n" + tail);
      assert ("\n" + tail)[1..] == tail;
      DocumentRoundTrip(cellRows[1..], rows[1..]);
      assert [rows[0]] + rows[1..] == rows;
    }
  }

  /** A join starts with its first part. */
  lemma JoinHead(cells: seq<string>, sep: string)
    requires |cells| >= 1
    ensures |Join(cells, sep)| >= |cells[0]| && Join(cells, sep)[..|cells[0]|] == cells[0]
  {
    if |cells| > 1 {
      assert Join(cells, sep) == cells[0] + (sep + Join(cells[1..], sep));
    }
  }

  /** After a record that ends at a line feed, the document goes on with the text after it. */
  lemma DocumentAfterRecord(s: string, fs: seq<string>, rest: string)
    requires ReadRecord(s) == Some((fs, "\n" + rest))
    ensures ReadDocument(s) == match ReadDocument(rest) case None => None case Some(rs) => Some([fs] + rs)
  {
    assert ("\n" + rest)[1..] == rest;
  }

  /** The first value of a document is its first field. */
  lemma DocumentFirstField(s: string)
    requires ReadDocument(s).Some?
    ensures ReadField(s).Some? && ReadDocument(s).value[0][0] == ReadField(s).value.0
  {
  }

  /** An unquoted field ends at its first comma, so a text with a comma is not read whole. */
  lemma FirstFieldStopsAtComma(t: string, rest: string)
    requires |t| > 0 && t[0] != '"' && ',' in t
    ensures ReadField(t + rest).Some? && ReadField(t + rest).value.0 != t
  {
    assert (t + rest)[0] == t[0];
  }

  /** The first line, a line feed, then the remaining lines. */
  lemma FirstLineThenRest(cellRows: seq<seq<string>>)
    requires |cellRows| >= 2
    ensures Join(Lines(cellRows), "\n") == Join(cellRows[0], ",") + ("\n" + Join(Lines(cellRows[1..]), "\n"))
  {
    var lines := Lines(cellRows);
    assert lines[0] == Join(cellRows[0], ",") && lines[1..] == Lines(cellRows[1..]);
    var head, rest := lines[0], Join(lines[1..], "\n");
    assert Join(lines, "\n") == head + "\n" + rest;
    assert head + "\n" + rest == head + ("\n" + rest);
  }

  /** The lines of non-empty rows start with the first cell of the first row. */
  lemma LinesStart(cellRows: seq<seq<string>>)
    requires |cellRows| >= 1 && |cellRows[0]| >= 1
    ensures var doc, t := Join(Lines(cellRows), "\n"), cellRows[0][0];
            |doc| >= |t| && doc[..|t|] == t
  {
    var line := Lines(cellRows)[0];
    JoinHead(Lines(cellRows), "\n");
    JoinHead(cellRows[0], ",");
    var doc := Join(Lines(cellRows), "\n");
    assert doc[..|line|][..|cellRows[0][0]|] == doc[..|cellRows[0][0]|];
  }

  /**
   * A value with a comma written unquoted at the start of the second line does
   * not read back: the reader ends that field at the comma.
   */
  lemma UnquotedCommaMisreads(cellRows: seq<seq<string>>, rows: seq<seq<string>>)
    requires |cellRows| == |rows| >= 2 && |cellRows[0]| == |rows[0]| >= 1 && |cellRows[1]| >= 1 && |rows[1]| >= 1
    requires forall j :: 0 <= j < |rows[0]| ==> Encodes(cellRows[0][j], rows[0][j])
    requires var t := cellRows[1][0]; t == rows[1][0] && |t| > 0 && t[0] != '"' && ',' in t
    ensures ReadDocument(Join(Lines(cellRows), "\n")) != Some(rows)
  {
    var t := cellRows[1][0];
    var rest := Join(Lines(cellRows[1..]), "\n");
    FirstLineThenRest(cellRows);
    LinesStart(cellRows[1..]);
    RecordRoundTrip(cellRows[0], rows[0], "\n" + rest);
    DocumentAfterRecord(Join(cellRows[0], ",") + ("\n" + rest), rows[0], rest);
    var tail := rest[|t|..];
    assert rest == t + tail;
    FirstFieldStopsAtComma(t, tail);
    if ReadDocument(rest).Some? {
      DocumentFirstField(rest);
    }
  }
}
