/** The comma-separated-values reader that `scripts/auto-update/scrape-rates.ts`,
    `scripts/parse-csv.ts` and `scripts/update-tax-rates.ts` each carry a copy
    of: the text is trimmed and split into lines, the first line names the
    columns, and every other line is scanned character by character, a double
    quote toggling a quoted section and a comma outside one ending a field. */
module Csv {
  import opened Strings

  // ---------------------------------------------------------------------------
  // One line

  /** The scanner after some characters of a line: the fields closed so far,
      the field being read and whether a quoted section is open. */
  datatype Scan = Scan(values: seq<string>, current: string, inQuotes: bool)

  const Start := Scan([], "", false)

  /** One character: a quote toggles the quoted section and is dropped, a
      comma outside quotes closes the trimmed field, anything else is kept. */
  function Step(st: Scan, c: char): Scan {
    if c == '"' then Scan(st.values, st.current, !st.inQuotes)
    else if c == ',' && !st.inQuotes then Scan(st.values + [Trim(st.current)], "", false)
    else Scan(st.values, st.current + [c], st.inQuotes)
  }

  /** The scanner after reading `s` from `st`. */
  function ScanFrom(st: Scan, s: string): Scan
    decreases |s|
  {
    if s == [] then st else ScanFrom(Step(st, s[0]), s[1..])
  }

  /** The end of a line closes the last field, trimmed. */
  function Close(st: Scan): seq<string> {
    st.values + [Trim(st.current)]
  }

  /** The fields of one line. */
  function Fields(line: string): seq<string> {
    Close(ScanFrom(Start, line))
  }

  /** The character loop of `parseCSV`. */
  method SplitFields(line: string) returns (values: seq<string>)
    ensures values == Fields(line)
  {
    values := [];
    var current, inQuotes := "", false;
    assert line[0..] == line;
    for i := 0 to |line|
      invariant ScanFrom(Scan(values, current, inQuotes), line[i..]) == ScanFrom(Start, line)
    {
      assert line[i..][1..] == line[i + 1..];
      if line[i] == '"' {
        inQuotes := !inQuotes;
      } else if line[i] == ',' && !inQuotes {
        values := values + [Trim(current)];
        current := "";
      } else {
        current := current + [line[i]];
      }
    }
    assert line[|line|..] == [];
    values := values + [Trim(current)];
  }

  // ---------------------------------------------------------------------------
  // What a line's fields look like

  /** Every closed field is trimmed and quote-free, and so is the open one. */
  predicate Clean(st: Scan) {
    '"' !in st.current &&
    forall k :: 0 <= k < |st.values| ==> '"' !in st.values[k] && Trim(st.values[k]) == st.values[k]
  }

  lemma StepKeepsClean(st: Scan, c: char)
    requires Clean(st)
    ensures Clean(Step(st, c))
  {
    if c != '"' && c == ',' && !st.inQuotes {
      TrimKeeps(st.current, '"');
      TrimIdempotent(st.current);
    }
  }

  lemma {:induction false} ScanKeepsClean(st: Scan, s: string)
    requires Clean(st)
    ensures Clean(ScanFrom(st, s))
    decreases |s|
  {
    if s != [] {
      StepKeepsClean(st, s[0]);
      ScanKeepsClean(Step(st, s[0]), s[1..]);
    }
  }

  /** Every field is trimmed and holds no double quote. */
  lemma FieldsClean(line: string)
    ensures forall k :: 0 <= k < |Fields(line)| ==>
              '"' !in Fields(line)[k] && Trim(Fields(line)[k]) == Fields(line)[k]
  {
    var st := ScanFrom(Start, line);
    ScanKeepsClean(Start, line);
    TrimKeeps(st.current, '"');
    TrimIdempotent(st.current);
  }

  /** The number of double quotes in `s`. */
  function Quotes(s: string): nat {
    multiset(s)['"']
  }

  /** The commas of `s` at or after position `i` that have an even number of
      quotes before them, that is, that lie outside every quoted section. */
  function UnquotedCommasFrom(s: string, i: nat): nat
    requires i <= |s|
    decreases |s| - i
  {
    if i == |s| then 0
    else (if s[i] == ',' && Quotes(s[..i]) % 2 == 0 then 1 else 0) + UnquotedCommasFrom(s, i + 1)
  }

  lemma {:induction false} ScanCount(s: string, i: nat, st: Scan)
    requires i <= |s|
    requires st.inQuotes <==> Quotes(s[..i]) % 2 == 1
    ensures |ScanFrom(st, s[i..]).values| == |st.values| + UnquotedCommasFrom(s, i)
    decreases |s| - i
  {
    if i < |s| {
      assert s[i..][1..] == s[i + 1..];
      assert s[..i + 1] == s[..i] + [s[i]];
      ScanCount(s, i + 1, Step(st, s[i]));
    }
  }

  /** A line has one field more than it has commas outside quotes. */
  lemma FieldCount(line: string)
    ensures |Fields(line)| == 1 + UnquotedCommasFrom(line, 0)
  {
    assert line[..0] == [];
    assert line[0..] == line;
    ScanCount(line, 0, Start);
  }

  // ---------------------------------------------------------------------------
  // A table

  /** `content.trim().split('\n')`. */
  function Lines(content: string): seq<string> {
    Split(Trim(content), '\n')
  }

  /** A split has one piece more than the text has separators. */
  lemma {:induction false} SplitCount(s: string, c: char)
    ensures |Split(s, c)| == multiset(s)[c] + 1
    decreases |s|
  {
    if s != [] {
      SplitFirst(s, c);
      SplitCount(s[1..], c);
      assert s == [s[0]] + s[1..];
    }
  }

  /** How the column names are cleaned: the scraper trims them and removes
      every double quote; the two CDTFA scripts only trim them. */
  datatype HeaderStyle = TrimUnquote | TrimOnly

  /** `s.replace(/"/g, '')`. */
  function Unquote(s: string): (r: string)
    ensures '"' !in r
    ensures '"' !in s ==> r == s
  {
    if s == [] then []
    else (if s[0] == '"' then [] else [s[0]]) + Unquote(s[1..])
  }

  /** The column names: the header line split at every comma (quotes are not
      honoured there), each cleaned. */
  function HeaderKeys(line: string, style: HeaderStyle): (r: seq<string>)
    ensures |r| == |Split(line, ',')|
  {
    var cells := Split(line, ',');
    seq(|cells|, i requires 0 <= i < |cells| =>
      if style == TrimUnquote then Unquote(Trim(cells[i])) else Trim(cells[i]))
  }

  /** `values[i] || ''`: a missing column reads as the empty text. */
  function Cell(values: seq<string>, i: nat): string {
    if i < |values| then values[i] else ""
  }

  /** A cell of a row object; a column the table lacks reads as the empty
      text, which every reader of a row treats like `undefined`. */
  function FieldOf(row: map<string, string>, name: string): string {
    if name in row then row[name] else ""
  }

  /** The row object after the `forEach` over the headers: each header in
      turn set to its cell, so a repeated header keeps its last cell. */
  function RowOf(headers: seq<string>, values: seq<string>): (row: map<string, string>)
    decreases |headers|
  {
    if headers == [] then map[]
    else RowOf(headers[..|headers| - 1], values)[headers[|headers| - 1] := Cell(values, |headers| - 1)]
  }

  /** The row has exactly the headers as keys. */
  lemma {:induction false} RowKeys(headers: seq<string>, values: seq<string>)
    ensures RowOf(headers, values).Keys == set h | h in headers
    decreases |headers|
  {
    if headers != [] {
      var init := headers[..|headers| - 1];
      RowKeys(init, values);
      assert headers == init + [headers[|headers| - 1]];
    }
  }

  /** A header that does not occur again later holds its own column's cell,
      or the empty text when the line has fewer fields. */
  lemma {:induction false} RowCell(headers: seq<string>, values: seq<string>, i: nat)
    requires i < |headers|
    requires forall j :: i < j < |headers| ==> headers[j] != headers[i]
    ensures headers[i] in RowOf(headers, values)
    ensures RowOf(headers, values)[headers[i]] == if i < |values| then values[i] else ""
    decreases |headers|
  {
    if i < |headers| - 1 {
      RowCell(headers[..|headers| - 1], values, i);
    }
  }

  /** The headers' `forEach` of `parseCSV`. */
  method BuildRow(headers: seq<string>, values: seq<string>) returns (row: map<string, string>)
    ensures row == RowOf(headers, values)
  {
    row := map[];
    for i := 0 to |headers|
      invariant row == RowOf(headers[..i], values)
    {
      assert headers[..i + 1][..i] == headers[..i];
      row := row[headers[i] := if i < |values| then values[i] else ""];
    }
    assert headers[..|headers|] == headers;
  }

  /** The row objects of the lines after the header. */
  function RowsOf(headers: seq<string>, body: seq<string>): (rows: seq<map<string, string>>)
    ensures |rows| == |body|
  {
    seq(|body|, i requires 0 <= i < |body| => RowOf(headers, Fields(body[i])))
  }

  /** What `parseCSV` returns: one row object per line after the header. */
  function Table(content: string, style: HeaderStyle): seq<map<string, string>> {
    var lines := Lines(content);
    RowsOf(HeaderKeys(lines[0], style), lines[1..])
  }

  /** There are as many rows as line breaks in the trimmed text. */
  lemma RowCount(content: string, style: HeaderStyle)
    ensures |Table(content, style)| == multiset(Trim(content))['\n']
  {
    SplitCount(Trim(content), '\n');
  }

  lemma RowsStep(headers: seq<string>, body: seq<string>, i: nat)
    requires i < |body|
    ensures RowsOf(headers, body[..i + 1]) == RowsOf(headers, body[..i]) + [RowOf(headers, Fields(body[i]))]
  {
    var a, b := RowsOf(headers, body[..i + 1]), RowsOf(headers, body[..i]) + [RowOf(headers, Fields(body[i]))];
    forall k | 0 <= k <= i
      ensures a[k] == b[k]
    {
      assert body[..i + 1][k] == body[k];
    }
  }

  /** The `map` over the lines after the header. */
  method ParseRows(headers: seq<string>, body: seq<string>) returns (rows: seq<map<string, string>>)
    ensures rows == RowsOf(headers, body)
  {
    rows := [];
    for i := 0 to |body|
      invariant rows == RowsOf(headers, body[..i])
    {
      var values := SplitFields(body[i]);
      var row := BuildRow(headers, values);
      RowsStep(headers, body, i);
      rows := rows + [row];
    }
    assert body[..|body|] == body;
  }

  /** `parseCSV`. */
  method ParseTable(content: string, style: HeaderStyle) returns (rows: seq<map<string, string>>)
    ensures rows == Table(content, style)
  {
    var lines := Lines(content);
    rows := ParseRows(HeaderKeys(lines[0], style), lines[1..]);
  }
}
