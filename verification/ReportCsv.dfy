/** The CSV export of a report (frontend/reports/export.ts), read back by the grammar in section 2 of
    RFC 4180. */
module ReportCsv {
  import opened Results

  /** A cell of a row is the text of its value; keys whose value is null or undefined are absent. */
  datatype Column = Column(key: string, heading: string)

  datatype Report = Report(columns: seq<Column>, rows: seq<map<string, string>>)

  const BOM: char := '\U{FEFF}'

  /******* Printing *******/

  function Escape(text: string): string {
    if text == "" then ""
    else (if text[0] == '"' then "\"\"" else [text[0]]) + Escape(text[1..])
  }

  function Cell(text: string): string {
    "\"" + Escape(text) + "\""
  }

  function Line(cells: seq<string>): string {
    if cells == [] then ""
    else if |cells| == 1 then Cell(cells[0])
    else Cell(cells[0]) + "," + Line(cells[1..])
  }

  function Lines(table: seq<seq<string>>): string {
    if table == [] then ""
    else if |table| == 1 then Line(table[0])
    else Line(table[0]) + "\r\n" + Lines(table[1..])
  }

  function Text(row: map<string, string>, key: string): string {
    if key in row then row[key] else ""
  }

  function RowCells(columns: seq<Column>, row: map<string, string>): (cells: seq<string>)
    ensures |cells| == |columns|
  {
    seq(|columns|, i requires 0 <= i < |columns| => Text(row, columns[i].key))
  }

  function Headings(columns: seq<Column>): (cells: seq<string>)
    ensures |cells| == |columns|
  {
    seq(|columns|, i requires 0 <= i < |columns| => columns[i].heading)
  }

  /** The header and the rows as cell texts. */
  function Table(r: Report): (table: seq<seq<string>>)
    ensures |table| == |r.rows| + 1 && forall cells | cells in table :: |cells| == |r.columns|
  {
    [Headings(r.columns)] + seq(|r.rows|, i requires 0 <= i < |r.rows| => RowCells(r.columns, r.rows[i]))
  }

  /** What stands where: the headings above, and in each row the value it has for the column, or nothing. */
  lemma TableMeans(r: Report, c: nat)
    requires c < |r.columns|
    ensures Table(r)[0][c] == r.columns[c].heading
    ensures forall i | 0 <= i < |r.rows| :: Table(r)[i + 1][c] == if r.columns[c].key in r.rows[i] then r.rows[i][r.columns[c].key] else ""
  {}

  /** Without columns there are only empty lines. */
  lemma NoColumns(r: Report)
    requires r.columns == []
    ensures forall i | 0 <= i < |Table(r)| :: Line(Table(r)[i]) == ""
  {
    assert forall i | 0 <= i < |Table(r)| :: Table(r)[i] in Table(r);
  }

  function JoinLines(lines: seq<string>): string {
    if lines == [] then "" else if |lines| == 1 then lines[0] else lines[0] + "\r\n" + JoinLines(lines[1..])
  }

  /** One line after another is pushed, then all are joined behind the byte order mark. */
  method PrintReport(r: Report) returns (text: string)
    ensures text == [BOM] + Lines(Table(r))
  {
    hide Line, RowCells, Headings;
    var lines := [Line(Headings(r.columns))];
    for i := 0 to |r.rows|
      invariant |lines| == i + 1
      invariant forall k | 0 <= k < |lines| :: lines[k] == Line(Table(r)[k])
    {
      lines := lines + [Line(RowCells(r.columns, r.rows[i]))];
    }
    JoinedLines(Table(r), lines);
    text := [BOM] + JoinLines(lines);
  }

  lemma {:induction false} JoinedLines(table: seq<seq<string>>, lines: seq<string>)
    requires |table| == |lines| && forall k | 0 <= k < |lines| :: lines[k] == Line(table[k])
    ensures JoinLines(lines) == Lines(table)
  {
    if |lines| > 1 {
      JoinedLines(table[1..], lines[1..]);
    }
  }

  /******* Reading: section 2 of RFC 4180 *******/

  datatype Read<T> = Read(value: T, rest: string) | Malformed

  /** The inside of a quoted field, up to the quote that closes it. Two quotes stand for one. */
  function ReadQuoted(s: string): (r: Read<string>)
    ensures r.Read? ==> |r.rest| < |s|
  {
    if s == "" then Malformed
    else if s[0] == '"' then
      if |s| > 1 && s[1] == '"' then Prepend('"', ReadQuoted(s[2..])) else Read("", s[1..])
    else Prepend(s[0], ReadQuoted(s[1..]))
  }

  function Prepend(c: char, r: Read<string>): Read<string> {
    if r.Read? then Read([c] + r.value, r.rest) else Malformed
  }

  predicate IsTextData(c: char) {
    c != '"' && c != ',' && c != '\r' && c != '\n'
  }

  function ReadBare(s: string): (r: Read<string>)
    ensures r.Read? && |r.rest| <= |s|
  {
    if s == "" || !IsTextData(s[0]) then Read("", s) else Prepend(s[0], ReadBare(s[1..]))
  }

  function ReadField(s: string): (r: Read<string>)
    ensures r.Read? ==> |r.rest| <= |s|
  {
    if s != "" && s[0] == '"' then ReadQuoted(s[1..]) else ReadBare(s)
  }

  function ReadRecord(s: string): (r: Read<seq<string>>)
    ensures r.Read? ==> |r.rest| <= |s| && r.value != []
    decreases |s|
  {
    var field := ReadField(s);
    if field.Malformed? then Malformed
    else if field.rest != "" && field.rest[0] == ',' then
      var more := ReadRecord(field.rest[1..]);
      if more.Malformed? then Malformed else Read([field.value] + more.value, more.rest)
    else Read([field.value], field.rest)
  }

  /** Records separated by CRLF; the last one may or may not be followed by one. */
  function ReadFile(s: string): (r: Option<seq<seq<string>>>)
    ensures r.Some? ==> forall record | record in r.value :: record != []
    decreases |s|
  {
    var record := ReadRecord(s);
    if record.Malformed? then None
    else if record.rest == "" then Some([record.value])
    else if |record.rest| >= 2 && record.rest[0] == '\r' && record.rest[1] == '\n' then
      if |record.rest| == 2 then Some([record.value])
      else
        var more := ReadFile(record.rest[2..]);
        if more.None? then None else Some([record.value] + more.value)
    else None
  }

  /******* The reader undoes the printer *******/

  lemma {:induction false} QuotedRoundTrip(text: string, rest: string)
    requires rest == "" || rest[0] != '"'
    ensures ReadQuoted(Escape(text) + "\"" + rest) == Read(text, rest)
  {
    if text == "" {
      assert Escape(text) + "\"" + rest == ['"'] + rest;
    } else {
      var tail := Escape(text[1..]) + "\"" + rest;
      QuotedRoundTrip(text[1..], rest);
      var head := if text[0] == '"' then "\"\"" else [text[0]];
      assert Escape(text) + "\"" + rest == head + tail;
      assert (head + tail)[|head|..] == tail;
      assert [text[0]] + text[1..] == text;
    }
  }

  lemma FieldRoundTrip(text: string, rest: string)
    requires rest == "" || rest[0] != '"'
    ensures ReadField(Cell(text) + rest) == Read(text, rest)
  {
    QuotedRoundTrip(text, rest);
    assert (Cell(text) + rest)[1..] == Escape(text) + "\"" + rest;
  }

  lemma {:induction false} RecordRoundTrip(cells: seq<string>, rest: string)
    requires cells != [] && (rest == "" || rest[0] == '\r')
    ensures ReadRecord(Line(cells) + rest) == Read(cells, rest)
  {
    hide ReadField, Cell;
    if |cells| == 1 {
      FieldRoundTrip(cells[0], rest);
      assert cells == [cells[0]];
    } else {
      RecordRoundTrip(cells[1..], rest);
      LineSplit(cells, rest);
      NextField(cells[0], Line(cells[1..]) + rest);
      assert [cells[0]] + cells[1..] == cells;
    }
  }

  lemma LineSplit(cells: seq<string>, rest: string)
    requires |cells| > 1
    ensures Line(cells) + rest == Cell(cells[0]) + ("," + (Line(cells[1..]) + rest))
  {
    Regroup(Cell(cells[0]), ",", Line(cells[1..]), rest);
  }

  lemma Regroup(x: string, y: string, z: string, rest: string)
    ensures x + y + z + rest == x + (y + (z + rest))
  {}

  lemma NextField(text: string, tail: string)
    ensures ReadRecord(Cell(text) + ("," + tail))
            == var more := ReadRecord(tail); if more.Malformed? then Malformed else Read([text] + more.value, more.rest)
  {
    hide ReadField, Cell;
    FieldRoundTrip(text, "," + tail);
    assert ("," + tail)[1..] == tail;
  }

  lemma {:induction false} FileRoundTrip(table: seq<seq<string>>)
    requires table != [] && forall cells | cells in table :: cells != []
    ensures ReadFile(Lines(table)) == Some(table)
  {
    hide ReadFile, Line, Lines;
    assert table[0] in table;
    if |table| == 1 {
      LastRecord(table[0]);
      LinesSplit(table);
      assert table == [table[0]];
    } else {
      assert table[1] in table && forall cells | cells in table[1..] :: cells in table;
      FileRoundTrip(table[1..]);
      LinesNonEmpty(table[1..]);
      LinesSplit(table);
      NextRecord(table[0], Lines(table[1..]));
      assert [table[0]] + table[1..] == table;
    }
  }

  lemma LinesSplit(table: seq<seq<string>>)
    requires table != []
    ensures Lines(table) == if |table| == 1 then Line(table[0]) else Line(table[0]) + ("\r\n" + Lines(table[1..]))
  {
    if |table| > 1 {
      Grouped(Line(table[0]), "\r\n", Lines(table[1..]));
    }
  }

  lemma Grouped(x: string, y: string, z: string)
    ensures x + y + z == x + (y + z)
  {}

  lemma LastRecord(cells: seq<string>)
    requires cells != []
    ensures ReadFile(Line(cells)) == Some([cells])
  {
    hide ReadRecord, Line;
    RecordRoundTrip(cells, "");
    assert Line(cells) + "" == Line(cells);
  }

  lemma NextRecord(cells: seq<string>, tail: string)
    requires cells != [] && tail != ""
    ensures ReadFile(Line(cells) + ("\r\n" + tail)) == var more := ReadFile(tail); if more.None? then None else Some([cells] + more.value)
  {
    hide ReadRecord, Line;
    RecordRoundTrip(cells, "\r\n" + tail);
    assert ("\r\n" + tail)[2..] == tail;
  }

  lemma LinesNonEmpty(table: seq<seq<string>>)
    requires table != [] && table[0] != []
    ensures Lines(table) != ""
  {}

  /** What a reader sees of a printed report, past the byte order mark. */
  function ReadBack(text: string): Option<seq<seq<string>>> {
    if text != "" && text[0] == BOM then ReadFile(text[1..]) else None
  }

  /** Reading a printed report gives its cells back, whatever they contain, exactly when it has a column. */
  lemma ReportRoundTripIff(r: Report)
    ensures ReadBack([BOM] + Lines(Table(r))) == Some(Table(r)) <==> r.columns != []
  {
    assert ([BOM] + Lines(Table(r)))[1..] == Lines(Table(r));
    if r.columns != [] {
      FileRoundTrip(Table(r));
    } else {
      assert Table(r)[0] in Table(r);
    }
  }

  /** Reports whose tables differ print differently. */
  lemma PrintInjective(r: Report, q: Report)
    requires r.columns != [] && q.columns != []
    ensures Lines(Table(r)) == Lines(Table(q)) <==> Table(r) == Table(q)
  {
    FileRoundTrip(Table(r));
    FileRoundTrip(Table(q));
  }
}
