/**
 * The CSV exporter's text, and a decoder for it written from RFC 4180, section 2, rules 2 and 5 to 7,
 * with LF in place of CRLF.
 */
module ExportCsv {
  import opened Options

  /** A cell value: `null` or `undefined`, or anything else as its string. */
  datatype Cell = Nothing | Text(text: string)

  /** An object: its own keys in order and its values. */
  datatype Row = Row(keys: seq<string>, cells: map<string, Cell>)

  const BYTE_ORDER_MARK: string := "\U{FEFF}"

  // ----- Encoding -----

  function DisplayHeader(headers: map<string, string>, key: string): string {
    if key in headers && headers[key] != "" then headers[key] else key
  }

  function CellText(row: Row, key: string): string {
    if key in row.cells && row.cells[key].Text? then row.cells[key].text else ""
  }

  function DoubleQuotes(s: string): string {
    if s == "" then ""
    else (if s[0] == '"' then "\"\"" else [s[0]]) + DoubleQuotes(s[1..])
  }

  function Quote(s: string): string {
    "\"" + DoubleQuotes(s) + "\""
  }

  function Join(parts: seq<string>, separator: char): string {
    if parts == [] then ""
    else if |parts| == 1 then parts[0]
    else parts[0] + [separator] + Join(parts[1..], separator)
  }

  /** One line: the fields, each in quotes, joined by commas. */
  function Line(fields: seq<string>): string {
    Join(seq(|fields|, i requires 0 <= i < |fields| => Quote(fields[i])), ',')
  }

  function HeaderFields(keys: seq<string>, headers: map<string, string>): seq<string> {
    seq(|keys|, i requires 0 <= i < |keys| => DisplayHeader(headers, keys[i]))
  }

  function RowFields(row: Row, keys: seq<string>): seq<string> {
    seq(|keys|, i requires 0 <= i < |keys| => CellText(row, keys[i]))
  }

  /** The file's text, its columns the keys of the first row; nothing is exported when there are no rows. */
  function Export(data: seq<Row>, headers: map<string, string>): Option<string> {
    if data == [] then None
    else
      var keys := data[0].keys;
      var dataLines := seq(|data|, i requires 0 <= i < |data| => Line(RowFields(data[i], keys)));
      Some(BYTE_ORDER_MARK + Join([Line(HeaderFields(keys, headers))] + dataLines, '\n'))
  }

  /** What the file is meant to hold: the header and the cells as strings. */
  function Table(data: seq<Row>, headers: map<string, string>): (table: seq<seq<string>>)
    requires data != []
    ensures |table| == |data| + 1 && forall i | 0 <= i < |table| :: |table[i]| == |data[0].keys|
  {
    var keys := data[0].keys;
    [HeaderFields(keys, headers)] + seq(|data|, i requires 0 <= i < |data| => RowFields(data[i], keys))
  }

  // ----- Decoding -----

  datatype Mode = FieldStart | Bare | Quoted | Closed

  /**
   * Reads on from `mode` with the field, record and records read so far. A field may be enclosed in
   * quotes; one that is not has no quote inside; a quote inside an enclosed one is written twice. The
   * last record may or may not end in a line break.
   */
  function Parse(s: string, mode: Mode, field: string, record: seq<string>, done: seq<seq<string>>)
    : Option<seq<seq<string>>>
    decreases |s|
  {
    if s == "" then
      if mode == Quoted then None
      else if mode == FieldStart && record == [] then Some(done)
      else Some(done + [record + [field]])
    else
      var c, rest := s[0], s[1..];
      if mode == Quoted then
        if c == '"' then Parse(rest, Closed, field, record, done) else Parse(rest, Quoted, field + [c], record, done)
      else if c == ',' then Parse(rest, FieldStart, "", record + [field], done)
      else if c == '\n' then Parse(rest, FieldStart, "", [], done + [record + [field]])
      else if mode == Closed then if c == '"' then Parse(rest, Quoted, field + [c], record, done) else None
      else if c == '"' then if mode == FieldStart then Parse(rest, Quoted, "", record, done) else None
      else Parse(rest, Bare, field + [c], record, done)
  }

  /** A byte order mark at the front is not part of the first field. */
  function Decode(s: string): Option<seq<seq<string>>> {
    if BYTE_ORDER_MARK <= s then Parse(s[1..], FieldStart, "", [], []) else Parse(s, FieldStart, "", [], [])
  }

  // ----- Round trip -----

  lemma DoubledUnfolds(s: string, rest: string)
    requires s != ""
    ensures DoubleQuotes(s) + rest == (if s[0] == '"' then ['"', '"'] else [s[0]]) + (DoubleQuotes(s[1..]) + rest)
  {
  }

  lemma ParseTwoQuotes(tail: string, field: string, record: seq<string>, done: seq<seq<string>>)
    ensures Parse(['"', '"'] + tail, Quoted, field, record, done) == Parse(tail, Quoted, field + ['"'], record, done)
  {
    var s := ['"', '"'] + tail;
    assert s[1..] == ['"'] + tail && s[1..][1..] == tail;
  }

  lemma ParseInQuotes(c: char, tail: string, field: string, record: seq<string>, done: seq<seq<string>>)
    requires c != '"'
    ensures Parse([c] + tail, Quoted, field, record, done) == Parse(tail, Quoted, field + [c], record, done)
  {
    assert ([c] + tail)[1..] == tail;
  }

  /** One character of the field is read back from its one or two characters. */
  lemma ParseHead(s: string, rest: string, field: string, record: seq<string>, done: seq<seq<string>>)
    requires s != ""
    ensures Parse(DoubleQuotes(s) + rest, Quoted, field, record, done) ==
            Parse(DoubleQuotes(s[1..]) + rest, Quoted, field + [s[0]], record, done)
  {
    DoubledUnfolds(s, rest);
    if s[0] == '"' {
      ParseTwoQuotes(DoubleQuotes(s[1..]) + rest, field, record, done);
    } else {
      ParseInQuotes(s[0], DoubleQuotes(s[1..]) + rest, field, record, done);
    }
  }

  lemma {:induction false} ParseDoubled(
    s: string, rest: string, field: string, record: seq<string>, done: seq<seq<string>>)
    ensures Parse(DoubleQuotes(s) + rest, Quoted, field, record, done) == Parse(rest, Quoted, field + s, record, done)
    decreases |s|
  {
    if s == "" {
      assert field + s == field && DoubleQuotes(s) + rest == rest;
    } else {
      ParseHead(s, rest, field, record, done);
      ParseDoubled(s[1..], rest, field + [s[0]], record, done);
      Reassociated(field, s);
    }
  }

  lemma Reassociated(field: string, s: string)
    requires s != ""
    ensures (field + [s[0]]) + s[1..] == field + s
  {
  }

  lemma ParseQuote(s: string, rest: string, record: seq<string>, done: seq<seq<string>>)
    ensures Parse(Quote(s) + rest, FieldStart, "", record, done) == Parse(rest, Closed, s, record, done)
  {
    var whole := Quote(s) + rest;
    assert whole[0] == '"' && whole[1..] == DoubleQuotes(s) + ("\"" + rest);
    ParseDoubled(s, "\"" + rest, "", record, done);
    assert "" + s == s && ("\"" + rest)[1..] == rest;
  }

  lemma LineUnfolds(fields: seq<string>)
    requires fields != []
    ensures |fields| == 1 ==> Line(fields) == Quote(fields[0])
    ensures |fields| > 1 ==> Line(fields) == Quote(fields[0]) + [','] + Line(fields[1..])
  {
    var parts := seq(|fields|, i requires 0 <= i < |fields| => Quote(fields[i]));
    var rest := fields[1..];
    assert parts[1..] == seq(|rest|, i requires 0 <= i < |rest| => Quote(rest[i]));
  }

  lemma ParseSeparator(rest: string, field: string, record: seq<string>, done: seq<seq<string>>)
    ensures Parse([','] + rest, Closed, field, record, done) == Parse(rest, FieldStart, "", record + [field], done)
    ensures Parse(['\n'] + rest, Closed, field, record, done) ==
            Parse(rest, FieldStart, "", [], done + [record + [field]])
  {
    assert ([','] + rest)[1..] == rest && (['\n'] + rest)[1..] == rest;
  }

  lemma {:induction false} ParseLine(fields: seq<string>, rest: string, record: seq<string>, done: seq<seq<string>>)
    requires fields != []
    ensures Parse(Line(fields) + rest, FieldStart, "", record, done) ==
            Parse(rest, Closed, fields[|fields| - 1], record + fields[..|fields| - 1], done)
    decreases |fields|
  {
    var first := fields[0];
    LineUnfolds(fields);
    if |fields| == 1 {
      ParseQuote(first, rest, record, done);
      assert record + fields[..0] == record;
    } else {
      var more := Line(fields[1..]) + rest;
      Regrouped(Quote(first), Line(fields[1..]), rest);
      ParseQuoteAndSeparator(first, more, record, done);
      ParseLine(fields[1..], rest, record + [first], done);
      FirstAndRest(record, fields);
    }
  }

  lemma Regrouped(head: string, tail: string, rest: string)
    ensures (head + [','] + tail) + rest == head + ([','] + (tail + rest))
  {
  }

  lemma ParseQuoteAndSeparator(first: string, more: string, record: seq<string>, done: seq<seq<string>>)
    ensures Parse(Quote(first) + ([','] + more), FieldStart, "", record, done) ==
            Parse(more, FieldStart, "", record + [first], done)
  {
    ParseQuote(first, [','] + more, record, done);
    ParseSeparator(more, first, record, done);
  }

  lemma FirstAndRest(record: seq<string>, fields: seq<string>)
    requires |fields| > 1
    ensures var rest := fields[1..];
      && record + [fields[0]] + rest[..|rest| - 1] == record + fields[..|fields| - 1]
      && rest[|rest| - 1] == fields[|fields| - 1]
  {
  }

  function Lines(table: seq<seq<string>>): string {
    Join(seq(|table|, i requires 0 <= i < |table| => Line(table[i])), '\n')
  }

  lemma LinesUnfold(table: seq<seq<string>>)
    requires table != []
    ensures |table| == 1 ==> Lines(table) == Line(table[0])
    ensures |table| > 1 ==> Lines(table) == Line(table[0]) + ['\n'] + Lines(table[1..])
  {
    var parts := seq(|table|, i requires 0 <= i < |table| => Line(table[i]));
    var rest := table[1..];
    assert parts[1..] == seq(|rest|, i requires 0 <= i < |rest| => Line(rest[i]));
  }

  lemma {:induction false} ParseLines(table: seq<seq<string>>, done: seq<seq<string>>)
    requires table != [] && forall i | 0 <= i < |table| :: table[i] != []
    ensures Parse(Lines(table), FieldStart, "", [], done) == Some(done + table)
    decreases |table|
  {
    var first := table[0];
    var last := first[|first| - 1];
    assert [] + first[..|first| - 1] + [last] == first;
    LinesUnfold(table);
    if |table| == 1 {
      ParseLine(first, "", [], done);
      assert Line(first) + "" == Lines(table);
      assert done + [first] == done + table;
    } else {
      var more := Lines(table[1..]);
      assert Lines(table) == Line(first) + (['\n'] + more);
      ParseLine(first, ['\n'] + more, [], done);
      ParseSeparator(more, last, [] + first[..|first| - 1], done);
      ParseLines(table[1..], done + [first]);
      assert done + [first] + table[1..] == done + table;
    }
  }

  lemma ExportIsTheTableInLines(data: seq<Row>, headers: map<string, string>)
    requires data != []
    ensures Export(data, headers) == Some(BYTE_ORDER_MARK + Lines(Table(data, headers)))
  {
    var keys := data[0].keys;
    var table := Table(data, headers);
    var dataLines := seq(|data|, i requires 0 <= i < |data| => Line(RowFields(data[i], keys)));
    var lines := seq(|table|, i requires 0 <= i < |table| => Line(table[i]));
    assert [Line(HeaderFields(keys, headers))] + dataLines == lines;
  }

  predicate HaveFields(records: seq<seq<string>>) {
    forall i | 0 <= i < |records| :: records[i] != []
  }

  /** A decoded record always has a field. */
  lemma {:induction false} DecodedRecordsHaveFields(
    s: string, mode: Mode, field: string, record: seq<string>, done: seq<seq<string>>)
    requires HaveFields(done)
    ensures var parsed := Parse(s, mode, field, record, done); parsed.Some? ==> HaveFields(parsed.value)
    decreases |s|
  {
    assert HaveFields(done + [record + [field]]);
    if s != "" {
      var c, rest := s[0], s[1..];
      DecodedRecordsHaveFields(rest, Quoted, field + [c], record, done);
      DecodedRecordsHaveFields(rest, Quoted, "", record, done);
      DecodedRecordsHaveFields(rest, Closed, field, record, done);
      DecodedRecordsHaveFields(rest, Bare, field + [c], record, done);
      DecodedRecordsHaveFields(rest, FieldStart, "", record + [field], done);
      DecodedRecordsHaveFields(rest, FieldStart, "", [], done + [record + [field]]);
    }
  }

  /**
   * Whatever the cells hold, quotes, commas and line breaks included, the text decodes to exactly the
   * header and the cell strings when the first row has a key, and to something else when it has none.
   */
  lemma RoundTripExactlyWhenThereIsAColumn(data: seq<Row>, headers: map<string, string>)
    requires data != []
    ensures Export(data, headers).Some?
    ensures Decode(Export(data, headers).value) == Some(Table(data, headers)) <==> data[0].keys != []
  {
    var table := Table(data, headers);
    var body := Lines(table);
    ExportIsTheTableInLines(data, headers);
    assert (BYTE_ORDER_MARK + body)[1..] == body;
    if data[0].keys != [] {
      ParseLines(table, []);
      assert [] + table == table;
    } else {
      DecodedRecordsHaveFields(body, FieldStart, "", [], []);
      assert table[0] == [] && !HaveFields(table);
    }
  }

  /** Two exports with a column and the same text hold the same header and cells. */
  lemma TextDeterminesTheTable(
    data: seq<Row>, headers: map<string, string>, other: seq<Row>, otherHeaders: map<string, string>)
    requires data != [] && data[0].keys != [] && other != [] && other[0].keys != []
    requires Export(data, headers) == Export(other, otherHeaders)
    ensures Table(data, headers) == Table(other, otherHeaders)
  {
    RoundTripExactlyWhenThereIsAColumn(data, headers);
    RoundTripExactlyWhenThereIsAColumn(other, otherHeaders);
  }
}
