/** The CSV exports, and a reader for the format of section 2 of RFC 4180. */
module CsvExport {
  import opened Basics

  /** A cell value as exported; None stands for null or undefined. */
  type Cell = Option<string>

  type CellTable = seq<seq<Cell>>

  // ----- the writer -----

  function Text(c: Cell): string { if c.None? then "" else c.value }

  /** `value.replace(/"/g, '""')`. */
  function DoubleQuotes(s: string): string {
    if s == "" then "" else (if s[0] == '"' then "\"\"" else [s[0]]) + DoubleQuotes(s[1..])
  }

  function CsvCell(c: Cell): string { "\"" + DoubleQuotes(Text(c)) + "\"" }

  /** `cells.map(csvCell).join(',')`. */
  function CsvRow(row: seq<Cell>): string {
    if row == [] then "" else if |row| == 1 then CsvCell(row[0]) else CsvCell(row[0]) + "," + CsvRow(row[1..])
  }

  function CsvRows(table: CellTable): string {
    if table == [] then "" else if |table| == 1 then CsvRow(table[0]) else CsvRow(table[0]) + "\r\n" + CsvRows(table[1..])
  }

  const BOM := "\U{FEFF}"

  function Csv(table: CellTable): string { BOM + CsvRows(table) }

  // ----- the reader -----

  /** The rest of an escaped field, after its opening quote. */
  function ReadQuoted(s: string): (r: Option<(string, string)>)
    ensures r.Some? ==> |r.value.1| < |s|
    decreases |s|
  {
    if s == "" then None
    else if s[0] != '"' then
      match ReadQuoted(s[1..])
      case None => None
      case Some((text, rest)) => Some(([s[0]] + text, rest))
    else if |s| > 1 && s[1] == '"' then
      match ReadQuoted(s[2..])
      case None => None
      case Some((text, rest)) => Some((['"'] + text, rest))
    else Some(("", s[1..]))
  }

  /** A non-escaped field: text up to a comma or a line break. */
  function ReadPlain(s: string): (r: (string, string))
    ensures |r.1| <= |s|
  {
    if s == "" || s[0] in {',', '\r', '\n', '"'} then ("", s)
    else
      var (text, rest) := ReadPlain(s[1..]);
      ([s[0]] + text, rest)
  }

  function ReadField(s: string): (r: Option<(string, string)>)
    ensures r.Some? ==> |r.value.1| <= |s|
  {
    if s != "" && s[0] == '"' then ReadQuoted(s[1..]) else Some(ReadPlain(s))
  }

  function ReadRecord(s: string): (r: Option<(seq<string>, string)>)
    ensures r.Some? ==> |r.value.1| <= |s| && r.value.0 != []
    decreases |s|
  {
    match ReadField(s)
    case None => None
    case Some((field, rest)) =>
      if rest != "" && rest[0] == ',' then
        match ReadRecord(rest[1..])
        case None => None
        case Some((fields, more)) => Some(([field] + fields, more))
      else Some(([field], rest))
  }

  function ReadRecords(s: string): (r: Option<seq<seq<string>>>)
    ensures r.Some? ==> r.value != [] && forall i :: 0 <= i < |r.value| ==> r.value[i] != []
    decreases |s|
  {
    match ReadRecord(s)
    case None => None
    case Some((record, rest)) =>
      if rest == "" || rest == "\r\n" then Some([record])
      else if "\r\n" <= rest then
        match ReadRecords(rest[2..])
        case None => None
        case Some(records) => Some([record] + records)
      else None
  }

  function ReadCsv(s: string): Option<seq<seq<string>>> {
    ReadRecords(if BOM <= s then s[|BOM|..] else s)
  }

  // ----- what is written is what is read -----

  function TextRow(row: seq<Cell>): (r: seq<string>)
    ensures |r| == |row|
  {
    if row == [] then [] else [Text(row[0])] + TextRow(row[1..])
  }

  function Texts(table: CellTable): (r: seq<seq<string>>)
    ensures |r| == |table| && forall i :: 0 <= i < |table| ==> |r[i]| == |table[i]|
  {
    if table == [] then [] else [TextRow(table[0])] + Texts(table[1..])
  }

  predicate StartsQuote(s: string) { s != "" && s[0] == '"' }

  lemma {:induction false} QuotedBack(text: string, rest: string)
    requires !StartsQuote(rest)
    ensures ReadQuoted(DoubleQuotes(text) + "\"" + rest) == Some((text, rest))
  {
    var s := DoubleQuotes(text) + "\"" + rest;
    if text == "" {
      assert s == "\"" + rest;
    } else {
      QuotedBack(text[1..], rest);
      var tail := DoubleQuotes(text[1..]) + "\"" + rest;
      assert text == [text[0]] + text[1..];
      if text[0] == '"' {
        assert s == "\"\"" + tail && s[2..] == tail;
      } else {
        assert s == [text[0]] + tail && s[1..] == tail;
      }
    }
  }

  lemma CellBack(c: Cell, rest: string)
    requires !StartsQuote(rest)
    ensures ReadField(CsvCell(c) + rest) == Some((Text(c), rest))
  {
    QuotedBack(Text(c), rest);
    assert (CsvCell(c) + rest)[1..] == DoubleQuotes(Text(c)) + "\"" + rest;
  }

  /** The text after a row: nothing, or a line break. */
  predicate RowEnd(rest: string) { rest == "" || rest[0] == '\r' }

  lemma Regroup(a: string, b: string, c: string, d: string)
    ensures a + b + c + d == a + (b + (c + d))
  {
  }

  lemma {:induction false} RowBack(row: seq<Cell>, rest: string)
    requires row != [] && RowEnd(rest)
    ensures ReadRecord(CsvRow(row) + rest) == Some((TextRow(row), rest))
  {
    if |row| == 1 {
      CellBack(row[0], rest);
      assert TextRow(row) == [Text(row[0])];
    } else {
      var tail := CsvRow(row[1..]) + rest;
      RowBack(row[1..], rest);
      CellBack(row[0], "," + tail);
      Regroup(CsvCell(row[0]), ",", CsvRow(row[1..]), rest);
    }
  }

  lemma {:induction false} RowsBack(table: CellTable)
    requires table != [] && forall i :: 0 <= i < |table| ==> table[i] != []
    ensures ReadRecords(CsvRows(table)) == Some(Texts(table))
  {
    if |table| == 1 {
      RowBack(table[0], "");
      assert CsvRow(table[0]) + "" == CsvRow(table[0]);
      assert Texts(table) == [TextRow(table[0])];
    } else {
      var tail := CsvRows(table[1..]);
      RowsBack(table[1..]);
      RowBack(table[0], "\r\n" + tail);
      assert CsvRows(table) == CsvRow(table[0]) + ("\r\n" + tail);
      assert tail != "" by { assert table[1] != []; }
    }
  }

  /** Reading an export gives back exactly the exported texts, whatever quotes, commas and line breaks they hold,
      precisely when there is at least one row and no row is without cells. */
  lemma {:induction false} RoundTrip(table: CellTable)
    ensures ReadCsv(Csv(table)) == Some(Texts(table)) <==> table != [] && forall i :: 0 <= i < |table| ==> table[i] != []
  {
    assert Csv(table)[|BOM|..] == CsvRows(table);
    if table != [] && forall i :: 0 <= i < |table| ==> table[i] != [] {
      RowsBack(table);
    } else if table != [] {
      var i :| 0 <= i < |table| && table[i] == [];
      assert Texts(table)[i] == [];
    }
  }

  /** Two tables of texts that export to the same file are the same table. */
  lemma {:induction false} ExportInjective(a: CellTable, b: CellTable)
    requires a != [] && b != []
    requires (forall i :: 0 <= i < |a| ==> a[i] != []) && (forall i :: 0 <= i < |b| ==> b[i] != [])
    requires Csv(a) == Csv(b)
    ensures Texts(a) == Texts(b)
  {
    RoundTrip(a);
    RoundTrip(b);
  }

  // ----- on the cells themselves -----

  lemma {:induction false} TextRowAt(row: seq<Cell>, j: nat)
    requires j < |row|
    ensures TextRow(row)[j] == match row[j] case None => "" case Some(s) => s
  {
    if j > 0 { TextRowAt(row[1..], j - 1); }
  }

  lemma {:induction false} TextsAt(table: CellTable, i: nat)
    requires i < |table|
    ensures Texts(table)[i] == TextRow(table[i])
  {
    if i > 0 { TextsAt(table[1..], i - 1); }
  }

  /** Reading an export of any table with rows and cells gives a table of its shape: every text as it was, and nothing for a
      missing value. */
  lemma CellsComeBack(table: CellTable)
    requires table != [] && forall i :: 0 <= i < |table| ==> table[i] != []
    ensures ReadCsv(Csv(table)).Some?
    ensures var rows := ReadCsv(Csv(table)).value;
            && |rows| == |table|
            && forall i :: 0 <= i < |table| ==>
                 && |rows[i]| == |table[i]|
                 && forall j :: 0 <= j < |table[i]| ==> rows[i][j] == match table[i][j] case None => "" case Some(s) => s
  {
    hide ReadCsv, Csv;
    RoundTrip(table);
    forall i, j | 0 <= i < |table| && 0 <= j < |table[i]|
      ensures Texts(table)[i][j] == match table[i][j] case None => "" case Some(s) => s
    {
      TextsAt(table, i);
      TextRowAt(table[i], j);
    }
  }

  predicate AllPresent(table: CellTable) {
    forall i :: 0 <= i < |table| ==> table[i] != [] && forall j :: 0 <= j < |table[i]| ==> table[i][j].Some?
  }

  /** Tables without a missing value that export to the same file are the same table. */
  lemma SameFileSameTable(a: CellTable, b: CellTable)
    requires a != [] && b != [] && AllPresent(a) && AllPresent(b) && Csv(a) == Csv(b)
    ensures a == b
  {
    hide ReadCsv, Csv;
    CellsComeBack(a);
    CellsComeBack(b);
    forall i | 0 <= i < |a| ensures a[i] == b[i] {
      forall j | 0 <= j < |a[i]| ensures a[i][j] == b[i][j] {
      }
    }
  }

  /** The file starts with a byte order mark, and every field stands in quotes, those inside it doubled. */
  lemma ExportedAsQuoted(s: string)
    requires '"' !in s
    ensures Csv([[Some(s)]]) == "\U{FEFF}\"" + s + "\"" && Csv([[None]]) == "\U{FEFF}\"\""
  {
    NoQuotes(s);
    assert Csv([[Some(s)]]) == "\U{FEFF}" + CsvCell(Some(s));
  }

  lemma {:induction false} NoQuotes(s: string)
    requires '"' !in s
    ensures DoubleQuotes(s) == s
  {
    if s != "" {
      assert s == [s[0]] + s[1..];
      NoQuotes(s[1..]);
    }
  }
}
