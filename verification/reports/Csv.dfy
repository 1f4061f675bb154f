/** The CSV export of a report, against the grammar of section 2 of RFC 4180 with TEXTDATA taken
    as any character except comma, quote, CR and LF. */
module Csv {
  import opened Options

  /** A cell before escaping; objects and numbers arrive as the text JavaScript gives them. */
  datatype Cell = Missing | Text(text: string)

  const BOM: string := "\U{FEFF}"
  const CRLF: string := "\r\n"

  // ── printing ─────────────────────────────────────────────────────────────

  predicate Special(c: char) {
    c == '"' || c == ',' || c == '\n' || c == '\r'
  }

  predicate NeedsQuotes(s: string) {
    exists i | 0 <= i < |s| :: Special(s[i])
  }

  /** `s.replace(/"/g, '""')` */
  function DoubleQuotes(s: string): string {
    if s == "" then ""
    else (if s[0] == '"' then "\"\"" else [s[0]]) + DoubleQuotes(s[1..])
  }

  function CsvEscape(cell: Cell): string {
    match cell
    case Missing => ""
    case Text(s) => if NeedsQuotes(s) then "\"" + DoubleQuotes(s) + "\"" else s
  }

  function PrintRow(row: seq<Cell>): string {
    if row == [] then ""
    else if |row| == 1 then CsvEscape(row[0])
    else CsvEscape(row[0]) + "," + PrintRow(row[1..])
  }

  function JoinLines(lines: seq<string>): string {
    if lines == [] then ""
    else if |lines| == 1 then lines[0]
    else lines[0] + CRLF + JoinLines(lines[1..])
  }

  function PrintRows(rows: seq<seq<Cell>>): (lines: seq<string>)
    ensures |lines| == |rows| && forall i :: 0 <= i < |rows| ==> lines[i] == PrintRow(rows[i])
  {
    seq(|rows|, i requires 0 <= i < |rows| => PrintRow(rows[i]))
  }

  lemma {:induction false} DoubleQuotesGrows(s: string)
    ensures |DoubleQuotes(s)| >= |s|
  {
    if s != "" {
      DoubleQuotesGrows(s[1..]);
    }
  }

  /** A cell is printed as it is exactly when it has no comma, quote or line break. */
  lemma QuotedExactlyWhen(s: string)
    ensures CsvEscape(Text(s)) == s <==> ',' !in s && '"' !in s && '\n' !in s && '\r' !in s
  {
    if NeedsQuotes(s) {
      DoubleQuotesGrows(s);
      assert |CsvEscape(Text(s))| > |s|;
      var i :| 0 <= i < |s| && Special(s[i]);
      assert s[i] in s;
    } else {
      forall c | c in s ensures !Special(c) {
        var i :| 0 <= i < |s| && s[i] == c;
      }
    }
  }

  // ── the grammar, as a parser ─────────────────────────────────────────────

  datatype Parsed<T> = Parsed(value: T, rest: string)

  /** non-escaped = *TEXTDATA */
  function ParsePlain(s: string): (p: Parsed<string>)
    ensures |p.rest| <= |s|
  {
    if s == "" || Special(s[0]) then Parsed("", s)
    else
      var p := ParsePlain(s[1..]);
      Parsed([s[0]] + p.value, p.rest)
  }

  /** The part of an escaped field after its opening quote. */
  function ParseQuoted(s: string): (p: Option<Parsed<string>>)
    ensures p.Some? ==> |p.value.rest| < |s|
  {
    if s == "" then None
    else if s[0] != '"' then
      match ParseQuoted(s[1..])
      case None => None
      case Some(p) => Some(Parsed([s[0]] + p.value, p.rest))
    else if |s| >= 2 && s[1] == '"' then
      match ParseQuoted(s[2..])
      case None => None
      case Some(p) => Some(Parsed("\"" + p.value, p.rest))
    else Some(Parsed("", s[1..]))
  }

  function ParseField(s: string): (p: Option<Parsed<string>>)
    ensures p.Some? ==> |p.value.rest| <= |s|
  {
    if s != "" && s[0] == '"' then ParseQuoted(s[1..]) else Some(ParsePlain(s))
  }

  /** record = field *(COMMA field) */
  function ParseRecord(s: string): (p: Option<Parsed<seq<string>>>)
    ensures p.Some? ==> |p.value.rest| <= |s|
    decreases |s|
  {
    match ParseField(s)
    case None => None
    case Some(f) =>
      if f.rest != "" && f.rest[0] == ',' then
        match ParseRecord(f.rest[1..])
        case None => None
        case Some(more) => Some(Parsed([f.value] + more.value, more.rest))
      else Some(Parsed([f.value], f.rest))
  }

  /** file = record *(CRLF record) [CRLF] */
  function ParseFile(s: string): Option<seq<seq<string>>>
    decreases |s|
  {
    match ParseRecord(s)
    case None => None
    case Some(r) =>
      if r.rest == "" || r.rest == CRLF then Some([r.value])
      else if |r.rest| >= 2 && r.rest[..2] == CRLF then
        match ParseFile(r.rest[2..])
        case None => None
        case Some(rows) => Some([r.value] + rows)
      else None
  }

  function ParseCsv(csv: string): Option<seq<seq<string>>> {
    if BOM <= csv then ParseFile(csv[|BOM|..]) else None
  }

  // ── round trips, from the field up ───────────────────────────────────────

  /** A field ends where the text does, at a comma or at a line break. */
  predicate EndsField(rest: string) {
    rest == "" || rest[0] == ',' || rest[0] == '\r'
  }

  lemma {:induction false} PlainRoundTrip(f: string, rest: string)
    requires !NeedsQuotes(f) && EndsField(rest)
    ensures ParsePlain(f + rest) == Parsed(f, rest)
  {
    if f == "" {
      assert f + rest == rest;
    } else {
      forall i | 0 <= i < |f[1..]| ensures !Special(f[1..][i]) {
        assert !Special(f[i + 1]);
      }
      PlainRoundTrip(f[1..], rest);
      assert (f + rest)[1..] == f[1..] + rest;
      assert !Special(f[0]);
      assert f == [f[0]] + f[1..];
    }
  }

  lemma Regroup3(a: string, b: string, c: string)
    ensures a + b + c == a + (b + c)
  {
  }

  lemma Regroup4(a: string, b: string, c: string, d: string)
    ensures a + b + c + d == a + (b + (c + d))
  {
    Regroup3(a + b, c, d);
    Regroup3(a, b, c + d);
  }

  lemma Drop(a: string, b: string)
    ensures (a + b)[|a|..] == b && (a + b)[..|a|] == a
  {
  }

  lemma {:induction false} QuotedRoundTrip(f: string, rest: string)
    requires EndsField(rest)
    ensures ParseQuoted(DoubleQuotes(f) + "\"" + rest) == Some(Parsed(f, rest))
  {
    if f == "" {
      Drop("\"", rest);
      assert DoubleQuotes(f) + "\"" + rest == "\"" + rest;
    } else {
      QuotedRoundTrip(f[1..], rest);
      var first := if f[0] == '"' then "\"\"" else [f[0]];
      var tail := DoubleQuotes(f[1..]) + "\"" + rest;
      Regroup4(first, DoubleQuotes(f[1..]), "\"", rest);
      Regroup3(DoubleQuotes(f[1..]), "\"", rest);
      Drop(first, tail);
      assert f == [f[0]] + f[1..];
    }
  }

  function TextOf(cell: Cell): string {
    match cell
    case Missing => ""
    case Text(s) => s
  }

  lemma QuotedFieldRoundTrip(f: string, rest: string)
    requires EndsField(rest)
    ensures ParseField("\"" + DoubleQuotes(f) + "\"" + rest) == Some(Parsed(f, rest))
  {
    QuotedRoundTrip(f, rest);
    var tail := DoubleQuotes(f) + "\"" + rest;
    Regroup4("\"", DoubleQuotes(f), "\"", rest);
    Regroup3(DoubleQuotes(f), "\"", rest);
    Drop("\"", tail);
  }

  lemma FieldRoundTrip(cell: Cell, rest: string)
    requires EndsField(rest)
    ensures ParseField(CsvEscape(cell) + rest) == Some(Parsed(TextOf(cell), rest))
  {
    var f := TextOf(cell);
    if NeedsQuotes(f) {
      QuotedFieldRoundTrip(f, rest);
    } else {
      PlainRoundTrip(f, rest);
      if f != "" {
        assert !Special(f[0]);
        assert (f + rest)[0] == f[0];
      } else {
        assert f + rest == rest;
      }
    }
  }

  function TextsOf(row: seq<Cell>): (texts: seq<string>)
    ensures |texts| == |row| && forall i :: 0 <= i < |row| ==> texts[i] == TextOf(row[i])
  {
    seq(|row|, i requires 0 <= i < |row| => TextOf(row[i]))
  }

  lemma PrintRowSplits(row: seq<Cell>, rest: string)
    requires |row| > 1
    ensures PrintRow(row) + rest == CsvEscape(row[0]) + ("," + (PrintRow(row[1..]) + rest))
  {
    Regroup4(CsvEscape(row[0]), ",", PrintRow(row[1..]), rest);
  }

  lemma TextsSplit(row: seq<Cell>)
    requires row != []
    ensures TextsOf(row) == [TextOf(row[0])] + TextsOf(row[1..])
  {
  }

  lemma {:induction false} RecordRoundTrip(row: seq<Cell>, rest: string)
    requires row != [] && (rest == "" || rest[0] == '\r')
    ensures ParseRecord(PrintRow(row) + rest) == Some(Parsed(TextsOf(row), rest))
    decreases |row|
  {
    if |row| == 1 {
      FieldRoundTrip(row[0], rest);
      assert TextsOf(row) == [TextOf(row[0])];
    } else {
      var next := PrintRow(row[1..]) + rest;
      PrintRowSplits(row, rest);
      TextsSplit(row);
      FieldRoundTrip(row[0], "," + next);
      assert ("," + next)[1..] == next;
      RecordRoundTrip(row[1..], rest);
    }
  }

  predicate Tabular(rows: seq<seq<Cell>>) {
    rows != [] && forall i :: 0 <= i < |rows| ==> rows[i] != []
  }

  function TableOf(rows: seq<seq<Cell>>): (table: seq<seq<string>>)
    ensures |table| == |rows| && forall i :: 0 <= i < |rows| ==> table[i] == TextsOf(rows[i])
  {
    seq(|rows|, i requires 0 <= i < |rows| => TextsOf(rows[i]))
  }

  lemma AfterBreak(x: string)
    ensures (CRLF + x)[0] == '\r' && (CRLF + x)[..2] == CRLF && (CRLF + x)[2..] == x
  {
  }

  lemma LinesSplit(rows: seq<seq<Cell>>)
    requires |rows| > 1
    ensures JoinLines(PrintRows(rows)) + CRLF == PrintRow(rows[0]) + (CRLF + (JoinLines(PrintRows(rows[1..])) + CRLF))
  {
    assert PrintRows(rows)[1..] == PrintRows(rows[1..]);
    Regroup4(PrintRow(rows[0]), CRLF, JoinLines(PrintRows(rows[1..])), CRLF);
  }

  lemma TableSplit(rows: seq<seq<Cell>>)
    requires rows != []
    ensures TableOf(rows) == [TextsOf(rows[0])] + TableOf(rows[1..])
  {
  }

  lemma {:induction false} FileRoundTrip(rows: seq<seq<Cell>>)
    requires Tabular(rows)
    ensures ParseFile(JoinLines(PrintRows(rows)) + CRLF) == Some(TableOf(rows))
    decreases |rows|
  {
    if |rows| == 1 {
      RecordRoundTrip(rows[0], CRLF);
      assert TableOf(rows) == [TextsOf(rows[0])];
    } else {
      var rest := JoinLines(PrintRows(rows[1..])) + CRLF;
      LinesSplit(rows);
      TableSplit(rows);
      AfterBreak(rest);
      RecordRoundTrip(rows[0], CRLF + rest);
      FileRoundTrip(rows[1..]);
      assert |rest| >= |CRLF|;
    }
  }

  /** Two tables are printed alike only if their texts are the same: nothing in a cell can pass
      for a separator. */
  lemma PrintIsInjective(rows: seq<seq<Cell>>, rows': seq<seq<Cell>>)
    requires Tabular(rows) && Tabular(rows')
    ensures JoinLines(PrintRows(rows)) == JoinLines(PrintRows(rows')) <==> TableOf(rows) == TableOf(rows')
  {
    FileRoundTrip(rows);
    FileRoundTrip(rows');
    if TableOf(rows) == TableOf(rows') {
      forall i | 0 <= i < |rows| ensures PrintRow(rows[i]) == PrintRow(rows'[i]) {
        assert TextsOf(rows[i]) == TableOf(rows)[i] == TextsOf(rows'[i]);
        SameTextsPrintAlike(rows[i], rows'[i]);
      }
      assert PrintRows(rows) == PrintRows(rows');
    }
  }

  lemma {:induction false} SameTextsPrintAlike(row: seq<Cell>, row': seq<Cell>)
    requires TextsOf(row) == TextsOf(row')
    ensures PrintRow(row) == PrintRow(row')
    decreases |row|
  {
    assert |row| == |TextsOf(row)| == |row'|;
    if row != [] {
      assert TextOf(row[0]) == TextsOf(row)[0] == TextOf(row'[0]);
      assert CsvEscape(row[0]) == CsvEscape(row'[0]);
      assert TextsOf(row[1..]) == TextsOf(row)[1..] == TextsOf(row'[1..]);
      SameTextsPrintAlike(row[1..], row'[1..]);
    }
  }

  lemma PrintRowsNext(header: seq<Cell>, results: seq<seq<Cell>>, p: nat)
    requires p < |results|
    ensures PrintRows([header] + results[..p + 1]) == PrintRows([header] + results[..p]) + [PrintRow(results[p])]
  {
  }

  lemma AfterBom(x: string)
    ensures BOM <= BOM + x + CRLF && (BOM + x + CRLF)[|BOM|..] == x + CRLF
  {
  }

  function Sample(): seq<seq<Cell>> {
    [[Text("a"), Missing], [Text("b,c"), Text("d\"e")]]
  }

  lemma CommaIsQuoted()
    ensures CsvEscape(Text("b,c")) == "\"b,c\""
  {
    var s := "b,c";
    assert Special(s[1]);
    assert s[1..] == ",c" && s[1..][1..] == "c" && s[1..][1..][1..] == "";
    assert DoubleQuotes(s) == s;
  }

  lemma QuoteIsDoubled()
    ensures CsvEscape(Text("d\"e")) == "\"d\"\"e\""
  {
    var s := "d\"e";
    assert Special(s[1]);
    assert s[1..] == "\"e" && s[1..][1..] == "e" && s[1..][1..][1..] == "";
    assert DoubleQuotes("e") == "e";
    assert DoubleQuotes(s[1..]) == "\"\"" + "e";
    assert DoubleQuotes(s) == "d\"\"e";
  }

  lemma SampleRows()
    ensures PrintRow(Sample()[0]) == "a," && PrintRow(Sample()[1]) == "\"b,c\",\"d\"\"e\""
  {
    QuotedExactlyWhen("a");
    CommaIsQuoted();
    QuoteIsDoubled();
    assert Sample()[0][1..] == [Missing] && Sample()[1][1..] == [Text("d\"e")];
  }

  /** The separators, on a table of two lines: fields are joined by a comma, lines by CR and LF, and
      a quote in a quoted field is doubled. */
  lemma SampleIsPrinted()
    ensures JoinLines(PrintRows(Sample())) == "a,\r\n\"b,c\",\"d\"\"e\""
  {
    SampleRows();
    assert PrintRows(Sample()) == ["a,", "\"b,c\",\"d\"\"e\""];
  }

  /** The export reads back as exactly the header and the rows: for every table with at least one
      column, whatever the cells contain. Absent cells read back as empty text. */
  method ExportReportCsv(header: seq<Cell>, results: seq<seq<Cell>>) returns (csv: string)
    requires header != [] && forall i :: 0 <= i < |results| ==> results[i] != []
    ensures csv == "\U{FEFF}" + JoinLines(PrintRows([header] + results)) + "\r\n"
    ensures ParseCsv(csv) == Some(TableOf([header] + results))
  {
    var lines := [PrintRow(header)];
    assert [header] + results[..0] == [header];
    for p := 0 to |results|
      invariant lines == PrintRows([header] + results[..p])
    {
      PrintRowsNext(header, results, p);
      lines := lines + [PrintRow(results[p])];
    }
    assert results[..|results|] == results;
    csv := BOM + JoinLines(lines) + CRLF;
    FileRoundTrip([header] + results);
    AfterBom(JoinLines(lines));
  }
}
