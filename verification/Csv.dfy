/**
 The CSV writer of the report service, against an independent reader for section 2 of
 RFC 4180 in which only CRLF breaks records.
 */
module Csv {
  import opened Outcomes

  const BOM: char := '\U{FEFF}'
  const CR: char := '\r'
  const LF: char := '\n'
  const QUOTE: char := '"'
  const CRLF: string := "\r\n"

  // ---------------------------------------------------------------------------
  // The writer
  // ---------------------------------------------------------------------------

  predicate NeedsQuotes(s: string) {
    ',' in s || QUOTE in s || LF in s
  }

  /** Every quote is doubled. */
  function Doubled(s: string): string {
    if s == [] then []
    else (if s[0] == QUOTE then [QUOTE, QUOTE] else [s[0]]) + Doubled(s[1..])
  }

  /** The cell of an absent value is empty. */
  function CsvCell(v: Option<string>): string {
    match v
    case None => ""
    case Some(s) => if NeedsQuotes(s) then [QUOTE] + Doubled(s) + [QUOTE] else s
  }

  /** A cell is written as it is exactly when it has no comma, no quote and no line feed; absent ones are empty. */
  lemma PlainCellsAreVerbatim(s: string)
    ensures CsvCell(Some(s)) == s <==> forall c :: c in s ==> c != ',' && c != QUOTE && c != LF
    ensures CsvCell(Some(s)) != s ==> |CsvCell(Some(s))| >= |s| + 2
    ensures CsvCell(Some(s)) != s ==> CsvCell(Some(s))[0] == QUOTE && CsvCell(Some(s))[|CsvCell(Some(s))| - 1] == QUOTE
    ensures CsvCell(None) == ""
  {
    DoubledIsLonger(s);
  }

  lemma {:induction false} DoubledIsLonger(s: string)
    ensures |Doubled(s)| >= |s|
  {
    if s != [] {
      DoubledIsLonger(s[1..]);
    }
  }

  function Join(parts: seq<string>, sep: string): string {
    if parts == [] then ""
    else if |parts| == 1 then parts[0]
    else parts[0] + sep + Join(parts[1..], sep)
  }

  type Row = map<string, Option<string>>

  /** `row[h]`, where a missing key reads as undefined. */
  function Cell(row: Row, h: string): Option<string> {
    if h in row then row[h] else None
  }

  function HeaderCells(headers: seq<string>): seq<Option<string>> {
    seq(|headers|, i requires 0 <= i < |headers| => Some(headers[i]))
  }

  function RowCells(headers: seq<string>, row: Row): seq<Option<string>> {
    seq(|headers|, i requires 0 <= i < |headers| => Cell(row, headers[i]))
  }

  function Line(cells: seq<Option<string>>): string {
    Join(seq(|cells|, i requires 0 <= i < |cells| => CsvCell(cells[i])), ",")
  }

  /** The table that the writer lays out: the header and then one line of cells per row. */
  function Table(headers: seq<string>, rows: seq<Row>): seq<seq<Option<string>>> {
    [HeaderCells(headers)] + seq(|rows|, i requires 0 <= i < |rows| => RowCells(headers, rows[i]))
  }

  function Lines(table: seq<seq<Option<string>>>): seq<string> {
    seq(|table|, i requires 0 <= i < |table| => Line(table[i]))
  }

  /** `headers` are the keys of the first row, in insertion order. */
  method ToCsv(headers: seq<string>, rows: seq<Row>) returns (csv: string)
    requires rows != [] ==> (forall h :: h in headers <==> h in rows[0])
    ensures rows == [] ==> csv == [BOM]
    ensures rows != [] ==> csv == [BOM] + Join(Lines(Table(headers, rows)), CRLF)
  {
    if |rows| == 0 {
      return [BOM];
    }
    var lines := [Line(HeaderCells(headers))];
    for i := 0 to |rows|
      invariant lines == Lines(Table(headers, rows[..i]))
    {
      lines := lines + [Line(RowCells(headers, rows[i]))];
    }
    assert rows[..|rows|] == rows;
    return [BOM] + Join(lines, CRLF);
  }

  // ---------------------------------------------------------------------------
  // The reader
  // ---------------------------------------------------------------------------

  predicate StartsWithBreak(s: string) {
    |s| >= 2 && s[0] == CR && s[1] == LF
  }

  /** A bare field runs to the next comma, to CRLF or to the end. */
  function ReadBare(s: string): (r: (string, string))
    ensures s == r.0 + r.1
    ensures r.1 == "" || r.1[0] == ',' || StartsWithBreak(r.1)
  {
    if s == "" || s[0] == ',' || StartsWithBreak(s) then ("", s)
    else
      var (field, rest) := ReadBare(s[1..]);
      ([s[0]] + field, rest)
  }

  /** What follows the opening quote: up to the next quote that is not doubled. */
  function ReadQuoted(s: string): (r: Option<(string, string)>)
    ensures r.Some? ==> |r.value.1| < |s|
  {
    if s == "" then None
    else if s[0] != QUOTE then
      match ReadQuoted(s[1..])
      case None => None
      case Some((field, rest)) => Some(([s[0]] + field, rest))
    else if |s| >= 2 && s[1] == QUOTE then
      match ReadQuoted(s[2..])
      case None => None
      case Some((field, rest)) => Some(([QUOTE] + field, rest))
    else Some(("", s[1..]))
  }

  function ReadField(s: string): (r: Option<(string, string)>)
    ensures r.Some? ==> |r.value.1| <= |s|
  {
    if s != "" && s[0] == QUOTE then ReadQuoted(s[1..]) else Some(ReadBare(s))
  }

  /** One record and what follows its line break; `None` if the text is malformed. */
  function ReadRecord(s: string): (r: Option<(seq<string>, Option<string>)>)
    ensures r.Some? && r.value.1.Some? ==> |r.value.1.value| < |s|
    ensures r.Some? ==> r.value.0 != []
    decreases |s|
  {
    match ReadField(s)
    case None => None
    case Some((field, rest)) =>
      if rest == "" then Some(([field], None))
      else if rest[0] == ',' then
        (match ReadRecord(rest[1..])
         case None => None
         case Some((fields, next)) => Some(([field] + fields, next)))
      else if StartsWithBreak(rest) then Some(([field], Some(rest[2..])))
      else None
  }

  /** All records; a line break at the very end is optional. */
  function ReadAll(s: string): (r: Option<seq<seq<string>>>)
    ensures r.Some? ==> r.value != [] && r.value[0] != []
    decreases |s|
  {
    match ReadRecord(s)
    case None => None
    case Some((record, None)) => Some([record])
    case Some((record, Some(next))) =>
      if next == "" then Some([record])
      else match ReadAll(next)
        case None => None
        case Some(records) => Some([record] + records)
  }

  // ---------------------------------------------------------------------------
  // Round trip
  // ---------------------------------------------------------------------------

  function Text(v: Option<string>): string {
    match v case None => "" case Some(s) => s
  }

  function Texts(cells: seq<Option<string>>): seq<string> {
    seq(|cells|, i requires 0 <= i < |cells| => Text(cells[i]))
  }

  /** What may follow a field: nothing, a separator or a line break. */
  predicate Delimiter(rest: string) {
    rest == "" || rest[0] == ',' || StartsWithBreak(rest)
  }

  lemma {:induction false} BareReadsBack(cell: string, rest: string)
    requires !NeedsQuotes(cell) && Delimiter(rest)
    ensures ReadBare(cell + rest) == (cell, rest)
  {
    if cell == "" {
      assert cell + rest == rest;
    } else {
      assert (cell + rest)[1..] == cell[1..] + rest;
      BareReadsBack(cell[1..], rest);
      assert cell == [cell[0]] + cell[1..];
      assert !StartsWithBreak(cell + rest) by {
        if |cell| == 1 {
          assert (cell + rest)[1..] == rest;
        } else {
          assert (cell + rest)[1] == cell[1] && cell[1] in cell;
        }
      }
    }
  }

  lemma {:induction false} QuotedReadsBack(cell: string, rest: string)
    requires Delimiter(rest)
    ensures ReadQuoted(Doubled(cell) + [QUOTE] + rest) == Some((cell, rest))
  {
    var s := Doubled(cell) + [QUOTE] + rest;
    if cell == "" {
      assert s == [QUOTE] + rest;
    } else {
      QuotedReadsBack(cell[1..], rest);
      var tail := Doubled(cell[1..]) + [QUOTE] + rest;
      assert cell == [cell[0]] + cell[1..];
      if cell[0] == QUOTE {
        assert s == [QUOTE, QUOTE] + tail;
        assert s[2..] == tail;
      } else {
        assert s == [cell[0]] + tail;
        assert s[1..] == tail;
      }
    }
  }

  lemma QuotedFieldReadsBack(cell: string, rest: string)
    requires Delimiter(rest)
    ensures ReadField([QUOTE] + (Doubled(cell) + [QUOTE] + rest)) == Some((cell, rest))
  {
    var tail := Doubled(cell) + [QUOTE] + rest;
    assert ([QUOTE] + tail)[1..] == tail;
    QuotedReadsBack(cell, rest);
  }

  lemma FieldReadsBack(v: Option<string>, rest: string)
    requires Delimiter(rest)
    ensures ReadField(CsvCell(v) + rest) == Some((Text(v), rest))
  {
    var cell := Text(v);
    if NeedsQuotes(cell) {
      assert CsvCell(v) + rest == [QUOTE] + (Doubled(cell) + [QUOTE] + rest);
      QuotedFieldReadsBack(cell, rest);
    } else {
      assert CsvCell(v) == cell;
      BareReadsBack(cell, rest);
      if cell != "" {
        assert cell[0] in cell;
      }
    }
  }

  lemma LineSplitsOffFirst(cells: seq<Option<string>>)
    requires |cells| >= 2
    ensures Line(cells) == CsvCell(cells[0]) + ([','] + Line(cells[1..]))
    ensures Texts(cells) == [Text(cells[0])] + Texts(cells[1..])
  {
    var parts := seq(|cells|, i requires 0 <= i < |cells| => CsvCell(cells[i]));
    assert parts[1..] == seq(|cells[1..]|, i requires 0 <= i < |cells[1..]| => CsvCell(cells[1..][i]));
  }

  /** Reading a field and the comma after it. */
  lemma FieldThenRecord(v: Option<string>, more: string)
    ensures ReadRecord(CsvCell(v) + ([','] + more)) ==
      match ReadRecord(more)
      case None => None
      case Some((fields, next)) => Some(([Text(v)] + fields, next))
  {
    var after := [','] + more;
    FieldReadsBack(v, after);
    assert after[1..] == more;
  }

  lemma {:induction false} RecordReadsBack(cells: seq<Option<string>>, rest: string)
    requires cells != []
    requires rest == "" || StartsWithBreak(rest)
    ensures ReadRecord(Line(cells) + rest) == Some((Texts(cells), if rest == "" then None else Some(rest[2..])))
    decreases |cells|
  {
    if |cells| == 1 {
      FieldReadsBack(cells[0], rest);
      assert Texts(cells) == [Text(cells[0])];
    } else {
      LineSplitsOffFirst(cells);
      assert Line(cells) + rest == CsvCell(cells[0]) + ([','] + (Line(cells[1..]) + rest));
      FieldThenRecord(cells[0], Line(cells[1..]) + rest);
      RecordReadsBack(cells[1..], rest);
    }
  }

  function TableTexts(table: seq<seq<Option<string>>>): seq<seq<string>> {
    seq(|table|, i requires 0 <= i < |table| => Texts(table[i]))
  }

  function LastLine(table: seq<seq<Option<string>>>): string
    requires table != []
  {
    Line(table[|table| - 1])
  }

  lemma JoinSplitsOffFirst(table: seq<seq<Option<string>>>)
    requires |table| >= 2
    ensures Join(Lines(table), CRLF) == Line(table[0]) + (CRLF + Join(Lines(table[1..]), CRLF))
    ensures TableTexts(table) == [Texts(table[0])] + TableTexts(table[1..])
  {
    assert Lines(table)[1..] == Lines(table[1..]);
  }

  lemma TextIsNotEmpty(table: seq<seq<Option<string>>>)
    requires |table| >= 2 || (|table| == 1 && LastLine(table) != "")
    ensures Join(Lines(table), CRLF) != ""
  {
    if |table| >= 2 {
      JoinSplitsOffFirst(table);
    }
  }

  lemma {:induction false} LinesReadBack(table: seq<seq<Option<string>>>)
    requires table != [] && LastLine(table) != ""
    requires forall i :: 0 <= i < |table| ==> table[i] != []
    ensures ReadAll(Join(Lines(table), CRLF)) == Some(TableTexts(table))
    decreases |table|
  {
    if |table| == 1 {
      RecordReadsBack(table[0], "");
      assert Line(table[0]) + "" == Line(table[0]);
      assert TableTexts(table) == [Texts(table[0])];
    } else {
      var next := Join(Lines(table[1..]), CRLF);
      JoinSplitsOffFirst(table);
      RecordReadsBack(table[0], CRLF + next);
      assert (CRLF + next)[2..] == next;
      TextIsNotEmpty(table[1..]);
      LinesReadBack(table[1..]);
    }
  }

  /** An empty last line is taken for the optional final line break. */
  lemma {:induction false} EmptyLastLineIsLost(table: seq<seq<Option<string>>>)
    requires |table| >= 2 && LastLine(table) == ""
    requires forall i :: 0 <= i < |table| ==> table[i] != []
    ensures ReadAll(Join(Lines(table), CRLF)) == Some(TableTexts(table[..|table| - 1]))
    decreases |table|
  {
    var next := Join(Lines(table[1..]), CRLF);
    JoinSplitsOffFirst(table);
    RecordReadsBack(table[0], CRLF + next);
    assert (CRLF + next)[2..] == next;
    var front := table[..|table| - 1];
    if |table| == 2 {
      assert next == "";
      assert TableTexts(front) == [Texts(table[0])];
    } else {
      TextIsNotEmpty(table[1..]);
      EmptyLastLineIsLost(table[1..]);
      assert table[1..][..|table| - 2] == front[1..];
      JoinSplitsOffFirst(front);
    }
  }

  /** At least two columns, or one whose last cell is not empty. */
  predicate Readable(headers: seq<string>, rows: seq<Row>)
    requires rows != []
  {
    |headers| >= 2 || (|headers| == 1 && Text(Cell(rows[|rows| - 1], headers[0])) != "")
  }

  lemma LastLineIsEmpty(cells: seq<Option<string>>)
    requires cells != []
    ensures Line(cells) == "" <==> |cells| == 1 && Text(cells[0]) == ""
  {
  }

  /**
   Reading the text after the byte order mark gives back the header and every cell, whatever
   commas, quotes, line feeds or lone carriage returns they contain, exactly when there are
   at least two columns or the single cell of the last row is not empty.
   */
  lemma CsvRoundTrip(headers: seq<string>, rows: seq<Row>)
    requires rows != []
    ensures
      var csv := [BOM] + Join(Lines(Table(headers, rows)), CRLF);
      ReadAll(csv[1..]) == Some(TableTexts(Table(headers, rows))) <==> Readable(headers, rows)
  {
    var table := Table(headers, rows);
    assert ([BOM] + Join(Lines(table), CRLF))[1..] == Join(Lines(table), CRLF);
    if headers == [] {
      assert TableTexts(table)[0] == [];
    } else {
      LastLineIsEmpty(table[|table| - 1]);
      if LastLine(table) == "" {
        EmptyLastLineIsLost(table);
        assert |TableTexts(table[..|table| - 1])| != |TableTexts(table)|;
      } else {
        LinesReadBack(table);
      }
    }
  }

  /** What the table of texts holds: the header first, then each row's cells under their keys. */
  lemma TableHoldsTheCells(headers: seq<string>, rows: seq<Row>)
    ensures |TableTexts(Table(headers, rows))| == |rows| + 1
    ensures TableTexts(Table(headers, rows))[0] == headers
    ensures forall i, j :: 0 <= i < |rows| && 0 <= j < |headers| ==>
              |TableTexts(Table(headers, rows))[i + 1]| == |headers|
              && TableTexts(Table(headers, rows))[i + 1][j] == Text(Cell(rows[i], headers[j]))
  {
    assert Texts(HeaderCells(headers)) == headers;
  }
}
