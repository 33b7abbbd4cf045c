/** The CSV export, and a reader by the quoting rules of section 2 of RFC 4180 with LF line breaks. */
module Csv {
  import opened Wrappers

  // ----- the export -----

  function Escape(cell: string): string {
    if cell == "" then ""
    else if cell[0] == '"' then "\"\"" + Escape(cell[1..])
    else [cell[0]] + Escape(cell[1..])
  }

  function Quote(cell: string): string {
    ['"'] + (Escape(cell) + ['"'])
  }

  function Join(parts: seq<string>, separator: char): string {
    if parts == [] then ""
    else if |parts| == 1 then parts[0]
    else parts[0] + ([separator] + Join(parts[1..], separator))
  }

  function QuoteAll(cells: seq<string>): (r: seq<string>)
    ensures |r| == |cells|
  {
    if cells == [] then [] else [Quote(cells[0])] + QuoteAll(cells[1..])
  }

  function Line(cells: seq<string>): string {
    Join(QuoteAll(cells), ',')
  }

  function Lines(table: seq<seq<string>>): (r: seq<string>)
    ensures |r| == |table|
  {
    if table == [] then [] else [Line(table[0])] + Lines(table[1..])
  }

  /** The exported text: bare headers, then one line of quoted cells per row. */
  function Text(headers: seq<string>, table: seq<seq<string>>): string {
    Join([Join(headers, ',')] + Lines(table), '\n')
  }

  // ----- the reader -----

  /** The rest of a quoted field after its opening quote, and the text behind its closing quote. */
  function ReadQuoted(t: string): (r: Option<(string, string)>)
    ensures r.Some? ==> |r.value.1| < |t|
  {
    if t == "" then None
    else if t[0] != '"' then
      var r := ReadQuoted(t[1..]);
      if r.Some? then Some(([t[0]] + r.value.0, r.value.1)) else None
    else if |t| > 1 && t[1] == '"' then
      var r := ReadQuoted(t[2..]);
      if r.Some? then Some((['"'] + r.value.0, r.value.1)) else None
    else Some(("", t[1..]))
  }

  predicate AtEnd(t: string) {
    t == "" || t[0] == ',' || t[0] == '\n'
  }

  function ReadBare(t: string): (r: Option<(string, string)>)
    ensures r.Some? ==> |r.value.1| <= |t|
  {
    if AtEnd(t) then Some(("", t))
    else if t[0] == '"' || t[0] == '\r' then None
    else
      var r := ReadBare(t[1..]);
      if r.Some? then Some(([t[0]] + r.value.0, r.value.1)) else None
  }

  function ReadField(t: string): (r: Option<(string, string)>)
    ensures r.Some? ==> |r.value.1| <= |t| && AtEnd(r.value.1)
  {
    var r := if t != "" && t[0] == '"' then ReadQuoted(t[1..]) else ReadBare(t);
    if r.Some? && AtEnd(r.value.1) then r else None
  }

  /** At least one field, and the text from the end of the line on. */
  function ReadRecord(t: string): (r: Option<(seq<string>, string)>)
    ensures r.Some? ==> r.value.0 != [] && |r.value.1| <= |t| && (r.value.1 == "" || r.value.1[0] == '\n')
    decreases |t|
  {
    var f := ReadField(t);
    if f.None? then None
    else if f.value.1 != "" && f.value.1[0] == ',' then
      var r := ReadRecord(f.value.1[1..]);
      if r.Some? then Some(([f.value.0] + r.value.0, r.value.1)) else None
    else Some(([f.value.0], f.value.1))
  }

  /** All records; a final line break ends the last one. */
  function ReadAll(t: string): Option<seq<seq<string>>>
    decreases |t|
  {
    var r := ReadRecord(t);
    if r.None? then None
    else if r.value.1 == "" || r.value.1 == "\n" then Some([r.value.0])
    else
      var rest := ReadAll(r.value.1[1..]);
      if rest.Some? then Some([r.value.0] + rest.value) else None
  }

  // ----- reading back what was written -----

  lemma {:induction false} ReadsQuoted(cell: string, rest: string)
    requires rest == "" || rest[0] != '"'
    ensures ReadQuoted(Escape(cell) + (['"'] + rest)) == Some((cell, rest))
  {
    var t := Escape(cell) + (['"'] + rest);
    if cell == "" {
      assert t == ['"'] + rest && t[1..] == rest;
    } else {
      ReadsQuoted(cell[1..], rest);
      var tail := Escape(cell[1..]) + (['"'] + rest);
      if cell[0] == '"' {
        assert t == "\"\"" + tail && t[2..] == tail;
      } else {
        assert t == [cell[0]] + tail && t[1..] == tail;
      }
      assert cell == [cell[0]] + cell[1..];
    }
  }

  /** A header RFC 4180 may leave unquoted. */
  predicate Plain(header: string) {
    forall c | c in header :: c != ',' && c != '"' && c != '\n' && c != '\r'
  }

  lemma {:induction false} ReadsBare(header: string, rest: string)
    requires Plain(header) && AtEnd(rest)
    ensures ReadBare(header + rest) == Some((header, rest))
  {
    if header == "" {
      assert header + rest == rest;
    } else {
      assert header[0] in header;
      assert forall c | c in header[1..] :: c in header;
      ReadsBare(header[1..], rest);
      assert (header + rest)[1..] == header[1..] + rest;
      assert header == [header[0]] + header[1..];
    }
  }

  lemma ReadsCell(cell: string, rest: string)
    requires AtEnd(rest)
    ensures ReadField(Quote(cell) + rest) == Some((cell, rest))
  {
    ReadsQuoted(cell, rest);
    assert (Quote(cell) + rest)[1..] == Escape(cell) + (['"'] + rest);
  }

  lemma ReadsHeader(header: string, rest: string)
    requires Plain(header) && AtEnd(rest)
    ensures ReadField(header + rest) == Some((header, rest))
  {
    ReadsBare(header, rest);
    if header != "" {
      assert header[0] in header;
    }
  }

  /** A field read before a comma goes in front of the fields behind it. */
  lemma RecordStep(field: string, t: string, cell: string, fields: seq<string>, rest: string)
    requires ReadField(field + ([','] + t)) == Some((cell, [','] + t)) && ReadRecord(t) == Some((fields, rest))
    ensures ReadRecord(field + ([','] + t)) == Some(([cell] + fields, rest))
  {
    assert ([','] + t)[1..] == t;
  }

  lemma LineSplits(cells: seq<string>, rest: string)
    requires cells != []
    ensures Line(cells) + rest == Quote(cells[0]) + if |cells| == 1 then rest else [','] + (Line(cells[1..]) + rest)
  {
    assert QuoteAll(cells)[1..] == QuoteAll(cells[1..]);
  }

  lemma {:induction false} ReadsLine(cells: seq<string>, rest: string)
    requires cells != [] && (rest == "" || rest[0] == '\n')
    ensures ReadRecord(Line(cells) + rest) == Some((cells, rest))
  {
    LineSplits(cells, rest);
    assert cells == [cells[0]] + cells[1..];
    if |cells| == 1 {
      ReadsCell(cells[0], rest);
      assert cells == [cells[0]];
    } else {
      var t := Line(cells[1..]) + rest;
      ReadsCell(cells[0], [','] + t);
      ReadsLine(cells[1..], rest);
      RecordStep(Quote(cells[0]), t, cells[0], cells[1..], rest);
    }
  }

  lemma {:induction false} ReadsHeaders(headers: seq<string>, rest: string)
    requires headers != [] && (rest == "" || rest[0] == '\n') && forall h | h in headers :: Plain(h)
    ensures ReadRecord(Join(headers, ',') + rest) == Some((headers, rest))
  {
    assert headers[0] in headers && headers == [headers[0]] + headers[1..];
    if |headers| == 1 {
      ReadsHeader(headers[0], rest);
      assert headers == [headers[0]];
    } else {
      var t := Join(headers[1..], ',') + rest;
      assert Join(headers, ',') + rest == headers[0] + ([','] + t);
      ReadsHeader(headers[0], [','] + t);
      assert forall h | h in headers[1..] :: h in headers;
      ReadsHeaders(headers[1..], rest);
      RecordStep(headers[0], t, headers[0], headers[1..], rest);
    }
  }

  /** The text of the rows. */
  function Body(table: seq<seq<string>>): string {
    Join(Lines(table), '\n')
  }

  lemma BodySplits(table: seq<seq<string>>)
    requires table != []
    ensures Body(table) == Line(table[0]) + if |table| == 1 then "" else ['\n'] + Body(table[1..])
  {
    assert Lines(table)[1..] == Lines(table[1..]);
    assert Line(table[0]) + "" == Line(table[0]);
  }

  lemma {:induction false} ReadsTable(table: seq<seq<string>>)
    requires table != [] && forall row | row in table :: row != []
    ensures ReadAll(Body(table)) == Some(table) && Body(table) != ""
  {
    assert table[0] in table && table == [table[0]] + table[1..];
    LineIsNotEmpty(table[0]);
    BodySplits(table);
    if |table| == 1 {
      ReadsLine(table[0], "");
      assert table == [table[0]];
    } else {
      assert forall row | row in table[1..] :: row in table;
      ReadsTable(table[1..]);
      ReadsRow(table[0], Body(table[1..]), table[1..]);
    }
  }

  lemma ReadsRow(row: seq<string>, below: string, rest: seq<seq<string>>)
    requires row != [] && below != "" && ReadAll(below) == Some(rest)
    ensures ReadAll(Line(row) + (['\n'] + below)) == Some([row] + rest)
  {
    ReadsLine(row, ['\n'] + below);
    assert (['\n'] + below)[1..] == below;
  }

  lemma LineIsNotEmpty(cells: seq<string>)
    requires cells != []
    ensures Line(cells) != ""
  {
    assert QuoteAll(cells)[0] == Quote(cells[0]) && Quote(cells[0]) != "";
  }

  // ----- no other headers survive -----

  function Quotes(s: string): nat {
    if s == "" then 0 else (if s[0] == '"' then 1 else 0) + Quotes(s[1..])
  }

  lemma {:induction false} QuotesConcat(a: string, b: string)
    ensures Quotes(a + b) == Quotes(a) + Quotes(b)
  {
    if a == "" {
      assert a + b == b;
    } else {
      QuotesConcat(a[1..], b);
      assert (a + b)[1..] == a[1..] + b;
    }
  }

  lemma {:induction false} QuotesBound(s: string)
    ensures Quotes(s) <= |s|
  {
    if s != "" {
      QuotesBound(s[1..]);
    }
  }

  /**
   What a quoted field consumes: two quotes for each one it contains, one more to close, and every other character
   once.
   */
  lemma {:induction false} QuotedConsumes(t: string) returns (used: string)
    requires ReadQuoted(t).Some?
    ensures t == used + ReadQuoted(t).value.1
    ensures Quotes(used) == 2 * Quotes(ReadQuoted(t).value.0) + 1
    ensures |used| - Quotes(used) == |ReadQuoted(t).value.0| - Quotes(ReadQuoted(t).value.0)
  {
    if t[0] != '"' {
      used := QuotedConsumes(t[1..]);
      var field := ReadQuoted(t[1..]).value.0;
      used := [t[0]] + used;
      assert used[1..] + ReadQuoted(t).value.1 == t[1..];
      assert ([t[0]] + field)[1..] == field;
    } else if |t| > 1 && t[1] == '"' {
      used := QuotedConsumes(t[2..]);
      var field := ReadQuoted(t[2..]).value.0;
      QuotesConcat("\"\"", used);
      assert Quotes("\"\"") == 2 by {
        assert "\"\""[1..] == "\"" && "\""[1..] == "";
      }
      used := "\"\"" + used;
      assert t == "\"\"" + t[2..];
      assert (['"'] + field)[1..] == field;
    } else {
      used := ['"'];
      assert used[1..] == "" && t == used + t[1..];
    }
  }

  lemma PrefixHasNoMoreQuotes(used: string, h: string, rest: string, tail: string)
    requires used + tail == h + rest && |used| <= |h|
    ensures Quotes(used) <= Quotes(h)
  {
    assert used == (used + tail)[..|used|] && (h + rest)[..|used|] == h[..|used|];
    assert h == h[..|used|] + h[|used|..];
    QuotesConcat(h[..|used|], h[|used|..]);
  }

  lemma LongerHasMoreOthers(used: string, h: string, rest: string, tail: string)
    requires used + tail == h + rest && |used| > |h| && rest != "" && rest[0] != '"'
    ensures |used| - Quotes(used) > |h| - Quotes(h)
  {
    var more := used[|h|..];
    assert (used + tail)[..|h|] == h && (used + tail)[|h|] == rest[0];
    assert used == h + more && more[0] == rest[0];
    QuotesConcat(h, more);
    QuotesBound(more[1..]);
  }

  /** A header that starts with a quote is never read back: its field cannot contain as many quotes as it needs. */
  lemma QuotedIsNotItself(h: string, rest: string)
    requires rest != "" && rest[0] != '"' && ReadQuoted(h + rest).Some?
    ensures ReadQuoted(h + rest).value.0 != ['"'] + h
  {
    var used := QuotedConsumes(h + rest);
    var tail := ReadQuoted(h + rest).value.1;
    assert (['"'] + h)[1..] == h;
    assert Quotes(['"'] + h) == 1 + Quotes(h);
    if |used| <= |h| {
      PrefixHasNoMoreQuotes(used, h, rest, tail);
    } else {
      LongerHasMoreOthers(used, h, rest, tail);
    }
  }

  lemma {:induction false} BareIsPlain(t: string)
    requires ReadBare(t).Some?
    ensures Plain(ReadBare(t).value.0) && t == ReadBare(t).value.0 + ReadBare(t).value.1
  {
    if !AtEnd(t) {
      BareIsPlain(t[1..]);
    }
  }

  lemma ReadHeaderIsPlain(h: string, rest: string)
    requires rest != "" && AtEnd(rest) && ReadField(h + rest).Some? && ReadField(h + rest).value.0 == h
    ensures Plain(h) && ReadField(h + rest).value.1 == rest
  {
    var t := h + rest;
    if h != "" && h[0] == '"' {
      assert t[1..] == h[1..] + rest && h == ['"'] + h[1..];
      QuotedIsNotItself(h[1..], rest);
    } else {
      BareIsPlain(t);
      assert t[|h|..] == rest;
    }
  }

  lemma {:induction false} ReadHeadersArePlain(headers: seq<string>, rest: string)
    requires headers != [] && rest != "" && rest[0] == '\n'
    requires ReadRecord(Join(headers, ',') + rest).Some? && ReadRecord(Join(headers, ',') + rest).value.0 == headers
    ensures forall h :: h in headers ==> Plain(h)
  {
    var t := Join(headers, ',') + rest;
    var tail := if |headers| == 1 then rest else [','] + (Join(headers[1..], ',') + rest);
    assert t == headers[0] + tail;
    assert ReadField(t).value.0 == headers[0];
    ReadHeaderIsPlain(headers[0], tail);
    if |headers| > 1 {
      assert tail[1..] == Join(headers[1..], ',') + rest;
      assert ReadRecord(tail[1..]).value.0 == headers[1..];
      ReadHeadersArePlain(headers[1..], rest);
    }
    assert headers == [headers[0]] + headers[1..];
  }

  lemma TextSplits(headers: seq<string>, table: seq<seq<string>>)
    requires table != []
    ensures Text(headers, table) == Join(headers, ',') + (['\n'] + Body(table))
  {
    assert ([Join(headers, ',')] + Lines(table))[1..] == Lines(table);
  }

  lemma ReadsPlain(headers: seq<string>, table: seq<seq<string>>)
    requires table != [] && forall row | row in table :: row != []
    requires headers != [] && forall h | h in headers :: Plain(h)
    ensures ReadAll(Text(headers, table)) == Some([headers] + table)
  {
    var below := Body(table);
    TextSplits(headers, table);
    ReadsHeaders(headers, ['\n'] + below);
    ReadsTable(table);
    assert (['\n'] + below)[1..] == below;
  }

  /**
   The export can be read back, headers and every cell, if and only if there is a header and all headers are plain;
   the cells may contain anything.
   */
  lemma ReadsBackIffPlain(headers: seq<string>, table: seq<seq<string>>)
    requires table != [] && forall row | row in table :: |row| == |headers|
    ensures ReadAll(Text(headers, table)) == Some([headers] + table) <==>
            headers != [] && forall h | h in headers :: Plain(h)
  {
    if headers != [] && forall h | h in headers :: Plain(h) {
      ReadsPlain(headers, table);
    } else if ReadAll(Text(headers, table)) == Some([headers] + table) {
      TextSplits(headers, table);
      var rest := ['\n'] + Body(table);
      assert ReadRecord(Join(headers, ',') + rest).value.0 == ([headers] + table)[0];
      if headers != [] {
        ReadHeadersArePlain(headers, rest);
      }
    }
  }

  // ----- the service -----

  /** `String(row[header])`, for rows whose values are already texts. */
  function Cell(row: map<string, string>, header: string): string {
    if header in row then row[header] else "undefined"
  }

  function Cells(row: map<string, string>, headers: seq<string>): seq<string> {
    seq(|headers|, i requires 0 <= i < |headers| => Cell(row, headers[i]))
  }

  function Table(data: seq<map<string, string>>, headers: seq<string>): seq<seq<string>> {
    seq(|data|, i requires 0 <= i < |data| => Cells(data[i], headers))
  }

  lemma {:induction false} LinesAppend(table: seq<seq<string>>, row: seq<string>)
    ensures Lines(table + [row]) == Lines(table) + [Line(row)]
  {
    if table == [] {
      assert table + [row] == [row] && [row][1..] == [];
    } else {
      LinesAppend(table[1..], row);
      assert (table + [row])[1..] == table[1..] + [row];
    }
  }

  lemma {:induction false} QuoteAllAppend(cells: seq<string>, cell: string)
    ensures QuoteAll(cells + [cell]) == QuoteAll(cells) + [Quote(cell)]
  {
    if cells == [] {
      assert cells + [cell] == [cell] && [cell][1..] == [];
    } else {
      QuoteAllAppend(cells[1..], cell);
      assert (cells + [cell])[1..] == cells[1..] + [cell];
    }
  }

  /** How long quoted cells are: every character, every quote once more, two quotes around each cell, commas between. */
  function QuotedLength(cells: seq<string>): nat {
    if cells == [] then 0 else |cells[0]| + Quotes(cells[0]) + 3 + QuotedLength(cells[1..])
  }

  lemma {:induction false} EscapeLength(cell: string)
    ensures |Escape(cell)| == |cell| + Quotes(cell)
  {
    if cell != "" {
      EscapeLength(cell[1..]);
    }
  }

  /** Every cell is quoted, whether it needs it or not, and nothing else is added. */
  lemma {:induction false} LineLength(cells: seq<string>)
    requires cells != []
    ensures |Line(cells)| + 1 == QuotedLength(cells) && Line(cells)[0] == '"' && Line(cells)[|Line(cells)| - 1] == '"'
  {
    EscapeLength(cells[0]);
    LineSplits(cells, "");
    assert Line(cells) + "" == Line(cells);
    if |cells| > 1 {
      LineLength(cells[1..]);
      assert Line(cells[1..]) + "" == Line(cells[1..]);
    } else {
      assert QuotedLength(cells[1..]) == 0 && Quote(cells[0]) + "" == Quote(cells[0]);
    }
  }

  /** The quoted values of one row. */
  method QuoteRow(row: map<string, string>, headers: seq<string>) returns (values: seq<string>)
    ensures values == QuoteAll(Cells(row, headers))
  {
    var cells := Cells(row, headers);
    values := [];
    for j := 0 to |headers|
      invariant values == QuoteAll(cells[..j])
    {
      QuoteAllAppend(cells[..j], cells[j]);
      assert cells[..j + 1] == cells[..j] + [cells[j]];
      values := values + [Quote(Cell(row, headers[j]))];
    }
    assert cells[..|headers|] == cells;
  }

  /** Record i + 1, field j of the text is the value of header j in row i, or `undefined` where the row has none. */
  lemma RecordsAreRows(data: seq<map<string, string>>, headers: seq<string>, i: nat, j: nat)
    requires headers != [] && (forall h | h in headers :: Plain(h)) && i < |data| && j < |headers|
    ensures
      var records := ReadAll(Text(headers, Table(data, headers)));
      && records.Some? && |records.value| == |data| + 1 && records.value[0] == headers
      && |records.value[i + 1]| == |headers|
      && (headers[j] in data[i] ==> records.value[i + 1][j] == data[i][headers[j]])
      && (headers[j] !in data[i] ==> records.value[i + 1][j] == "undefined")
  {
    ReadsBackIffPlain(headers, Table(data, headers));
    assert ([headers] + Table(data, headers))[i + 1] == Table(data, headers)[i];
  }

  /** `convertToCSV`; `headers` are the keys of the first row. */
  method ConvertToCSV(data: seq<map<string, string>>, headers: seq<string>) returns (csv: string)
    ensures data == [] ==> csv == ""
    ensures data != [] ==> csv == Text(headers, Table(data, headers))
    ensures data != [] && headers != [] && (forall h | h in headers :: Plain(h)) ==>
              ReadAll(csv) == Some([headers] + Table(data, headers))
  {
    if data == [] {
      return "";
    }
    var csvRows := QuoteRows(data, headers);
    if headers != [] && forall h | h in headers :: Plain(h) {
      ReadsBackIffPlain(headers, Table(data, headers));
    }
    csv := Join(csvRows, '\n');
  }

  /** The header row and the rows of quoted values. */
  method QuoteRows(data: seq<map<string, string>>, headers: seq<string>) returns (csvRows: seq<string>)
    ensures csvRows == [Join(headers, ',')] + Lines(Table(data, headers))
  {
    var table := Table(data, headers);
    csvRows := [Join(headers, ',')];
    for i := 0 to |data|
      invariant csvRows == [Join(headers, ',')] + Lines(table[..i])
    {
      var values := QuoteRow(data[i], headers);
      LinesAppend(table[..i], table[i]);
      assert table[..i + 1] == table[..i] + [table[i]];
      csvRows := csvRows + [Join(values, ',')];
    }
    assert table[..|data|] == table;
  }
}
