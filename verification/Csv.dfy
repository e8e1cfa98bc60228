/** The CSV printer behind the lead import templates (`_csv` in
    static/leads/lead_create.js), and readers of section 2 of RFC 4180. */
module Csv {
  import opened Text

  /** A cell; None is null or undefined. */
  type Cell = Option<string>
  type Row = seq<Cell>

  const CRLF := "\r\n"

  function CellText(v: Cell): string {
    if v.Some? then v.value else ""
  }

  predicate NeedsQuotes(s: string) {
    exists i :: 0 <= i < |s| && (s[i] == '"' || s[i] == ',' || s[i] == '\n')
  }

  function Doubled(s: string): string {
    if s == "" then "" else (if s[0] == '"' then "\"\"" else [s[0]]) + Doubled(s[1..])
  }

  function PrintCell(v: Cell): string {
    var s := CellText(v);
    if NeedsQuotes(s) then "\"" + Doubled(s) + "\"" else s
  }

  function Join(parts: seq<string>, separator: string): string {
    if parts == [] then ""
    else if |parts| == 1 then parts[0]
    else parts[0] + separator + Join(parts[1..], separator)
  }

  function PrintCells(row: Row): (r: seq<string>)
    ensures |r| == |row|
  {
    seq(|row|, i requires 0 <= i < |row| => PrintCell(row[i]))
  }

  function PrintRow(row: Row): string {
    Join(PrintCells(row), ",")
  }

  function Print(rows: seq<Row>): string {
    Join(seq(|rows|, i requires 0 <= i < |rows| => PrintRow(rows[i])), CRLF)
  }

  // ---- A reader ----

  /** A field and what follows it. */
  datatype Field = Field(text: string, rest: string)

  predicate EndsField(s: string) {
    s == "" || s[0] == ',' || CRLF <= s
  }

  /** An unquoted field: no quote and no bare LF; a CR not before LF is data. */
  function ReadBare(s: string): (f: Option<Field>)
    ensures f.Some? ==> |f.value.rest| <= |s| && EndsField(f.value.rest)
  {
    if EndsField(s) then Some(Field("", s))
    else if s[0] == '"' || s[0] == '\n' then None
    else
      match ReadBare(s[1..])
      case None => None
      case Some(f) => Some(Field([s[0]] + f.text, f.rest))
  }

  /** The inside of a quoted field, up to and past the closing quote. */
  function ReadQuoted(s: string): (f: Option<Field>)
    ensures f.Some? ==> |f.value.rest| <= |s|
  {
    if s == "" then None
    else if s[0] == '"' then
      if |s| > 1 && s[1] == '"' then
        match ReadQuoted(s[2..])
        case None => None
        case Some(f) => Some(Field("\"" + f.text, f.rest))
      else Some(Field("", s[1..]))
    else
      match ReadQuoted(s[1..])
      case None => None
      case Some(f) => Some(Field([s[0]] + f.text, f.rest))
  }

  function ReadField(s: string): (f: Option<Field>)
    ensures f.Some? ==> |f.value.rest| <= |s| && EndsField(f.value.rest)
  {
    if s != "" && s[0] == '"' then
      match ReadQuoted(s[1..])
      case None => None
      case Some(f) => if EndsField(f.rest) then Some(f) else None
    else ReadBare(s)
  }

  /** Reads the rest of the text, given the fields of the current record. */
  function ReadFrom(s: string, fields: seq<string>): Option<seq<seq<string>>>
    decreases |s|
  {
    match ReadField(s)
    case None => None
    case Some(f) =>
      var record := fields + [f.text];
      if f.rest == "" then Some([record])
      else if f.rest[0] == ',' then ReadFrom(f.rest[1..], record)
      else
        match ReadFrom(f.rest[2..], [])
        case None => None
        case Some(records) => Some([record] + records)
  }

  /** Line breaks separate records. */
  function Read(s: string): Option<seq<seq<string>>> {
    ReadFrom(s, [])
  }

  /** What a print of `rows` must read back as. */
  function Texts(rows: seq<Row>): seq<seq<string>> {
    seq(|rows|, i requires 0 <= i < |rows| => RowTexts(rows[i]))
  }

  function RowTexts(row: Row): (r: seq<string>)
    ensures |r| == |row|
  {
    seq(|row|, i requires 0 <= i < |row| => CellText(row[i]))
  }

  // ---- Round trip ----

  lemma {:induction false} ReadQuotedInverts(s: string, tail: string)
    requires EndsField(tail)
    ensures ReadQuoted(Doubled(s) + "\"" + tail) == Some(Field(s, tail))
  {
    var text := Doubled(s) + "\"" + tail;
    if s == "" {
      assert text == "\"" + tail;
      assert text[1..] == tail;
    } else {
      ReadQuotedInverts(s[1..], tail);
      var inner := Doubled(s[1..]) + "\"" + tail;
      if s[0] == '"' {
        assert text == "\"\"" + inner;
        assert text[2..] == inner;
      } else {
        assert text == [s[0]] + inner;
        assert text[1..] == inner;
      }
      assert s == [s[0]] + s[1..];
    }
  }

  lemma {:induction false} ReadBareInverts(s: string, tail: string)
    requires !NeedsQuotes(s) && EndsField(tail)
    ensures ReadBare(s + tail) == Some(Field(s, tail))
  {
    var text := s + tail;
    if s == "" {
      assert text == tail;
    } else {
      assert s[0] != '"' && s[0] != ',' && s[0] != '\n';
      assert !NeedsQuotes(s[1..]);
      ReadBareInverts(s[1..], tail);
      assert text[1..] == s[1..] + tail;
      assert s == [s[0]] + s[1..];
      assert !EndsField(text) by {
        if |s| > 1 {
          assert text[1] == s[1] != '\n';
        } else if tail != "" {
          assert text[1] == tail[0] != '\n';
        }
      }
    }
  }

  lemma ReadAfterQuote(inner: string, f: Field)
    requires ReadQuoted(inner) == Some(f) && EndsField(f.rest)
    ensures ReadField("\"" + inner) == Some(f)
  {
    var text := "\"" + inner;
    assert text[0] == '"' && text[1..] == inner;
  }

  lemma QuoteApart(a: string, b: string, c: string, d: string)
    ensures a + b + c + d == a + (b + c + d)
  {}

  lemma ReadQuotedField(s: string, tail: string)
    requires EndsField(tail)
    ensures ReadField("\"" + Doubled(s) + "\"" + tail) == Some(Field(s, tail))
  {
    ReadQuotedInverts(s, tail);
    ReadAfterQuote(Doubled(s) + "\"" + tail, Field(s, tail));
    QuoteApart("\"", Doubled(s), "\"", tail);
  }

  lemma ReadBareField(s: string, tail: string)
    requires !NeedsQuotes(s) && EndsField(tail)
    ensures ReadField(s + tail) == Some(Field(s, tail))
  {
    ReadBareInverts(s, tail);
    var text := s + tail;
    if s == "" {
      assert text == tail;
    } else {
      assert text[0] == s[0] != '"';
    }
  }

  lemma ReadFieldInverts(v: Cell, tail: string)
    requires EndsField(tail)
    ensures ReadField(PrintCell(v) + tail) == Some(Field(CellText(v), tail))
  {
    if NeedsQuotes(CellText(v)) {
      ReadQuotedField(CellText(v), tail);
    } else {
      ReadBareField(CellText(v), tail);
    }
  }

  /** Quotes are put exactly around the cells that hold a quote, a comma or a
      line feed; any other is printed as it is. */
  lemma PlainCellUnchanged(v: Cell)
    ensures PrintCell(v) == CellText(v) <==>
      forall i :: 0 <= i < |CellText(v)| ==> CellText(v)[i] !in {'"', ',', '\n'}
  {
    DoubledLonger(CellText(v));
  }

  lemma {:induction false} DoubledLonger(s: string)
    ensures |Doubled(s)| >= |s|
  {
    if s != "" {
      DoubledLonger(s[1..]);
    }
  }

  /** What is read once the record so far is `record` and `rest` is left. */
  function Continue(rest: string, record: seq<string>): Option<seq<seq<string>>>
    requires EndsField(rest)
  {
    if rest == "" then Some([record])
    else if rest[0] == ',' then ReadFrom(rest[1..], record)
    else
      match ReadFrom(rest[2..], [])
      case None => None
      case Some(records) => Some([record] + records)
  }

  lemma ReadCell(v: Cell, fields: seq<string>, tail: string)
    requires EndsField(tail)
    ensures ReadFrom(PrintCell(v) + tail, fields) == Continue(tail, fields + [CellText(v)])
  {
    ReadFieldInverts(v, tail);
  }

  lemma PrintFirstCell(row: Row, tail: string)
    requires |row| > 1
    ensures PrintRow(row) + tail == PrintCell(row[0]) + ("," + (PrintRow(row[1..]) + tail))
  {
    assert PrintCells(row)[1..] == PrintCells(row[1..]);
  }

  lemma ReadCellComma(v: Cell, fields: seq<string>, rest: string)
    ensures ReadFrom(PrintCell(v) + ("," + rest), fields) == ReadFrom(rest, fields + [CellText(v)])
  {
    ReadCell(v, fields, "," + rest);
    assert ("," + rest)[1..] == rest;
  }

  lemma RowTextsFirst(row: Row, fields: seq<string>)
    requires row != []
    ensures fields + [CellText(row[0])] + RowTexts(row[1..]) == fields + RowTexts(row)
  {}

  /** Printed rows read back, in front of any well-formed continuation. */
  lemma {:induction false} ReadRow(row: Row, fields: seq<string>, tail: string)
    requires row != [] && (tail == "" || CRLF <= tail)
    ensures ReadFrom(PrintRow(row) + tail, fields) == Continue(tail, fields + RowTexts(row))
    decreases |row|
  {
    if |row| == 1 {
      ReadCell(row[0], fields, tail);
      assert RowTexts(row) == [CellText(row[0])];
    } else {
      PrintFirstCell(row, tail);
      ReadCellComma(row[0], fields, PrintRow(row[1..]) + tail);
      ReadRow(row[1..], fields + [CellText(row[0])], tail);
      RowTextsFirst(row, fields);
    }
  }

  predicate NonEmptyRows(rows: seq<Row>) {
    rows != [] && forall i :: 0 <= i < |rows| ==> rows[i] != []
  }

  lemma PrintFirst(rows: seq<Row>)
    requires |rows| > 1
    ensures Print(rows) == PrintRow(rows[0]) + CRLF + Print(rows[1..])
  {
    var lines := seq(|rows|, i requires 0 <= i < |rows| => PrintRow(rows[i]));
    assert lines[1..] == seq(|rows[1..]|, i requires 0 <= i < |rows[1..]| => PrintRow(rows[1..][i]));
  }

  lemma TextsFirst(rows: seq<Row>)
    requires rows != []
    ensures Texts(rows) == [RowTexts(rows[0])] + Texts(rows[1..])
  {}

  /** Any non-empty list of non-empty rows reads back as printed, null as the
      empty string. */
  lemma {:induction false} RoundTrip(rows: seq<Row>)
    requires NonEmptyRows(rows)
    ensures Read(Print(rows)) == Some(Texts(rows))
  {
    if |rows| == 1 {
      ReadRow(rows[0], [], "");
      assert Print(rows) == PrintRow(rows[0]) + "";
      assert [] + RowTexts(rows[0]) == RowTexts(rows[0]);
      assert Texts(rows) == [RowTexts(rows[0])];
    } else {
      RoundTrip(rows[1..]);
      PrintFirst(rows);
      var tail := CRLF + Print(rows[1..]);
      assert Print(rows) == PrintRow(rows[0]) + tail;
      assert tail[2..] == Print(rows[1..]);
      ReadRow(rows[0], [], tail);
      assert [] + RowTexts(rows[0]) == RowTexts(rows[0]);
      TextsFirst(rows);
    }
  }

  // ---- A reader that takes the last line break as an ending ----

  predicate Blank(row: seq<string>) {
    row == [""]
  }

  /** The last record may end in a line break, so an empty last line is none. */
  function ReadEnded(s: string): Option<seq<seq<string>>> {
    match Read(s)
    case None => None
    case Some(records) =>
      if |records| > 1 && Blank(records[|records| - 1]) then Some(records[..|records| - 1])
      else Some(records)
  }

  /** Under that reading, a print survives exactly if it does not end, after
      other rows, in a row of one blank cell. */
  lemma RoundTripEnded(rows: seq<Row>)
    requires NonEmptyRows(rows)
    ensures ReadEnded(Print(rows)) == Some(Texts(rows))
       <==> |rows| == 1 || RowTexts(rows[|rows| - 1]) != [""]
  {
    RoundTrip(rows);
    assert Texts(rows)[|rows| - 1] == RowTexts(rows[|rows| - 1]);
  }
}
