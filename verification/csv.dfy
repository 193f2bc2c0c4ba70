/** `generateCSV` (src/generate-report-file.js:79-108): a header row, one row
    per `fileStats` entry, and a `"TOTAL"` row, each ended by a newline. The
    method columns follow the keys of `methodStats`. Paths are wrapped in
    double quotes as written, without escaping. */
module Csv {
  import opened Wrappers
  import opened Text
  import opened Report

  /** `,<cell(key)>` for every key of `methodStats`, in key order. */
  function Cells(keys: seq<MethodCount>, cell: MethodCount -> string): string
    decreases |keys|
  {
    if keys == [] then "" else "," + cell(keys[0]) + Cells(keys[1..], cell)
  }

  function HeaderCell(e: MethodCount): string {
    "console." + e.name
  }

  /** `file.methodBreakdown[method] || 0`. */
  function FileCell(f: FileEntry): MethodCount -> string {
    (e: MethodCount) => NatToString(Lookup(f.methodBreakdown, e.name))
  }

  function TotalCell(e: MethodCount): string {
    NatToString(e.count)
  }

  function Quote(s: string): string {
    "\"" + s + "\""
  }

  function HeaderLine(keys: seq<MethodCount>): string {
    "File,Total Logs Removed" + Cells(keys, HeaderCell)
  }

  function FileRow(f: FileEntry, keys: seq<MethodCount>): string {
    Quote(f.path) + "," + NatToString(f.logsRemoved) + Cells(keys, FileCell(f))
  }

  function DataRows(files: seq<FileEntry>, keys: seq<MethodCount>): string
    decreases |files|
  {
    if files == [] then "" else FileRow(files[0], keys) + "\n" + DataRows(files[1..], keys)
  }

  function TotalRow(r: Report): string {
    Quote("TOTAL") + "," + NatToString(r.summary.totalLogsRemoved) + Cells(r.methodStats, TotalCell)
  }

  /** `generateCSV(report)`. */
  function GenerateCsv(r: Report): string {
    HeaderLine(r.methodStats) + "\n" + DataRows(r.fileStats, r.methodStats) + TotalRow(r) + "\n"
  }
  // ---------------------------------------------------------------------------
  // Reference definition: the table the CSV text encodes, and a reader.

  /** The cells of one method column section, in key order. */
  function Column(keys: seq<MethodCount>, cell: MethodCount -> string): (col: seq<string>)
    ensures |col| == |keys|
    ensures forall i :: 0 <= i < |keys| ==> col[i] == cell(keys[i])
    decreases |keys|
  {
    if keys == [] then []
    else
      var rest := Column(keys[1..], cell);
      assert forall i :: 1 <= i < |keys| ==> keys[i] == keys[1..][i - 1];
      [cell(keys[0])] + rest
  }

  /** The lines of the data rows, one per file. */
  function RowLines(files: seq<FileEntry>, keys: seq<MethodCount>): (rows: seq<string>)
    ensures |rows| == |files|
    decreases |files|
  {
    if files == [] then [] else [FileRow(files[0], keys)] + RowLines(files[1..], keys)
  }

  lemma {:induction false} RowLinesAt(files: seq<FileEntry>, keys: seq<MethodCount>, i: nat)
    requires i < |files|
    ensures RowLines(files, keys)[i] == FileRow(files[i], keys)
    decreases i
  {
    if i > 0 {
      RowLinesAt(files[1..], keys, i - 1);
    }
  }

  function HeaderFields(keys: seq<MethodCount>): seq<string> {
    ["File", "Total Logs Removed"] + Column(keys, HeaderCell)
  }

  function FileFields(f: FileEntry, keys: seq<MethodCount>): seq<string> {
    [f.path, NatToString(f.logsRemoved)] + Column(keys, FileCell(f))
  }

  function TotalFields(r: Report): seq<string> {
    ["TOTAL", NatToString(r.summary.totalLogsRemoved)] + Column(r.methodStats, TotalCell)
  }

  /** Rows of field values: header, one row per file in `fileStats` order,
      total. */
  function CsvTable(r: Report): seq<seq<string>> {
    [HeaderFields(r.methodStats)]
      + seq(|r.fileStats|, i requires 0 <= i < |r.fileStats| => FileFields(r.fileStats[i], r.methodStats))
      + [TotalFields(r)]
  }

  /** Position of the first `c` in `s`, or `|s|` when there is none. */
  function Find(s: string, c: char): (k: nat)
    ensures k <= |s|
    ensures k < |s| ==> s[k] == c
    decreases |s|
  {
    if s == [] || s[0] == c then 0 else 1 + Find(s[1..], c)
  }

  /** Where the closing quote is, when `s` starts with a quoted field that
      the end of the line or a comma follows. */
  function QuotedEnd(s: string): (k: Option<nat>)
    ensures k.Some? ==> 1 <= k.value < |s|
  {
    if |s| >= 2 && s[0] == '"' then
      var k := 1 + Find(s[1..], '"');
      if k < |s| && (k + 1 == |s| || s[k + 1] == ',') then Some(k) else None
    else None
  }

  /** The fields of one line. A field that starts with `"` and whose closing
      `"` the end of the line or a comma follows is read without its quotes,
      commas inside it included; any other field runs up to the next comma. */
  function Fields(s: string): (fs: seq<string>)
    ensures |fs| >= 1
    decreases |s|
  {
    match QuotedEnd(s)
    case Some(k) => [s[1..k]] + (if k + 1 == |s| then [] else Fields(s[k + 2..]))
    case None =>
      var c := Find(s, ',');
      if c == |s| then [s] else [s[..c]] + Fields(s[c + 1..])
  }

  /** Reads newline-terminated lines of fields. */
  function ParseCsv(text: string): seq<seq<string>> {
    var lines := SplitOn(text, '\n');
    seq(|lines| - 1, i requires 0 <= i < |lines| - 1 => Fields(lines[i]))
  }

  /** Method names hold no comma or newline: the header cells are not
      quoted. */
  ghost predicate NamesSafe(keys: seq<MethodCount>) {
    forall i :: 0 <= i < |keys| ==> ',' !in keys[i].name && '\n' !in keys[i].name
  }

  /** Paths hold no double quote or newline: they are quoted but not
      escaped. */
  ghost predicate PathsSafe(files: seq<FileEntry>) {
    forall i :: 0 <= i < |files| ==> '"' !in files[i].path && '\n' !in files[i].path
  }

  ghost predicate CsvSafe(r: Report) {
    NamesSafe(r.methodStats) && PathsSafe(r.fileStats)
  }

  // ---------------------------------------------------------------------------
  // Proofs: fields.

  /** A field the reader takes as it stands, up to the next comma. */
  predicate PlainCell(x: string) {
    ',' !in x && (x == [] || x[0] != '"')
  }

  lemma {:induction false} FindAfter(x: string, y: string, c: char)
    requires c !in x
    ensures Find(x + [c] + y, c) == |x|
    ensures Find(x, c) == |x|
    decreases |x|
  {
    if x != [] {
      assert x[0] in x;
      assert forall k :: 0 <= k < |x[1..]| ==> x[1..][k] in x;
      assert (x + [c] + y)[1..] == x[1..] + [c] + y;
      FindAfter(x[1..], y, c);
    }
  }

  /** An unquoted field, then a comma: the reader takes it as it stands. */
  lemma PlainField(x: string, rest: string)
    requires PlainCell(x)
    ensures Fields(x + [','] + rest) == [x] + Fields(rest)
    ensures Fields(x) == [x]
  {
    FindAfter(x, rest, ',');
    var s := x + [','] + rest;
    assert s[0] != '"' by {
      if x != [] {
        assert s[0] == x[0];
      }
    }
    assert s[..|x|] == x;
    assert s[|x| + 1..] == rest;
  }

  /** A quoted field, then a comma: the reader takes what is inside the
      quotes, commas included. */
  lemma QuotedField(p: string, rest: string)
    requires '"' !in p
    ensures Fields(Quote(p) + [','] + rest) == [p] + Fields(rest)
  {
    var s := Quote(p) + [','] + rest;
    assert s[1..] == p + ['"'] + ([','] + rest);
    FindAfter(p, [','] + rest, '"');
    var k := |p| + 1;
    assert s[k] == '"' && s[k + 1] == ',';
    assert QuotedEnd(s) == Some(k);
    assert s[1..k] == p;
    assert s[k + 2..] == rest;
  }

  lemma CommaThen(x: string, c: string, tail: string)
    ensures x + ("," + c + tail) == x + [','] + (c + tail)
    ensures x + "," + c + tail == x + [','] + (c + tail)
  {
  }

  /** A plain field followed by plain cells reads back as those fields. */
  lemma {:induction false} CellsFields(x: string, keys: seq<MethodCount>, cell: MethodCount -> string)
    requires PlainCell(x)
    requires forall i :: 0 <= i < |keys| ==> PlainCell(cell(keys[i]))
    ensures Fields(x + Cells(keys, cell)) == [x] + Column(keys, cell)
    decreases |keys|
  {
    if keys == [] {
      assert x + Cells(keys, cell) == x;
      PlainField(x, []);
    } else {
      var rest := keys[1..];
      var c := cell(keys[0]);
      var tail := Cells(rest, cell);
      assert forall i :: 0 <= i < |rest| ==> rest[i] == keys[i + 1];
      CellsFields(c, rest, cell);
      CommaThen(x, c, tail);
      PlainField(x, c + tail);
    }
  }

  lemma {:induction false} CellsNoNewline(keys: seq<MethodCount>, cell: MethodCount -> string)
    requires forall i :: 0 <= i < |keys| ==> '\n' !in cell(keys[i])
    ensures '\n' !in Cells(keys, cell)
    decreases |keys|
  {
    if keys != [] {
      var rest := keys[1..];
      assert forall i :: 0 <= i < |rest| ==> rest[i] == keys[i + 1];
      CellsNoNewline(rest, cell);
    }
  }

  lemma DigitsPlain(n: nat)
    ensures PlainCell(NatToString(n)) && '\n' !in NatToString(n)
  {
    var s := NatToString(n);
    assert forall i :: 0 <= i < |s| ==> IsDigit(s[i]);
  }

  lemma NumberCells(keys: seq<MethodCount>, f: FileEntry)
    ensures forall i :: 0 <= i < |keys| ==> PlainCell(TotalCell(keys[i])) && '\n' !in TotalCell(keys[i])
    ensures forall i :: 0 <= i < |keys| ==> PlainCell(FileCell(f)(keys[i])) && '\n' !in FileCell(f)(keys[i])
  {
    forall i | 0 <= i < |keys|
      ensures PlainCell(TotalCell(keys[i])) && '\n' !in TotalCell(keys[i])
      ensures PlainCell(FileCell(f)(keys[i])) && '\n' !in FileCell(f)(keys[i])
    {
      DigitsPlain(keys[i].count);
      DigitsPlain(Lookup(f.methodBreakdown, keys[i].name));
    }
  }

  lemma HeaderCellsSafe(keys: seq<MethodCount>)
    requires NamesSafe(keys)
    ensures forall i :: 0 <= i < |keys| ==> PlainCell(HeaderCell(keys[i])) && '\n' !in HeaderCell(keys[i])
  {
    forall i | 0 <= i < |keys|
      ensures PlainCell(HeaderCell(keys[i])) && '\n' !in HeaderCell(keys[i])
    {
      var h := HeaderCell(keys[i]);
      forall k | 0 <= k < |h| ensures h[k] != ',' && h[k] != '\n' {
        if k >= 8 {
          assert h[k] == keys[i].name[k - 8];
        }
      }
      assert h[0] == 'c';
    }
  }

  lemma HeaderNamesSafe()
    ensures PlainCell("File") && '\n' !in "File"
    ensures PlainCell("Total Logs Removed") && '\n' !in "Total Logs Removed"
  {
    var a := "File";
    var b := "Total Logs Removed";
    forall k | 0 <= k < |a| ensures a[k] != ',' && a[k] != '\n' {
    }
    forall k | 0 <= k < |b| ensures b[k] != ',' && b[k] != '\n' {
    }
  }

  lemma RowNoNewline(x: string, n: string, keys: seq<MethodCount>, cell: MethodCount -> string)
    requires '\n' !in x && '\n' !in n
    requires forall i :: 0 <= i < |keys| ==> '\n' !in cell(keys[i])
    ensures '\n' !in x + "," + n + Cells(keys, cell)
  {
    CellsNoNewline(keys, cell);
  }

  lemma QuoteNoNewline(s: string)
    requires '\n' !in s
    ensures '\n' !in Quote(s)
  {
    var q := Quote(s);
    assert forall k :: 0 <= k < |q| ==> q[k] == '"' || q[k] in s;
  }

  lemma HeaderStart()
    ensures "File,Total Logs Removed" == "File" + "," + "Total Logs Removed"
  {
  }

  lemma HeaderLineNoNewline(keys: seq<MethodCount>)
    requires NamesSafe(keys)
    ensures '\n' !in HeaderLine(keys)
  {
    HeaderCellsSafe(keys);
    HeaderNamesSafe();
    HeaderStart();
    RowNoNewline("File", "Total Logs Removed", keys, HeaderCell);
  }

  lemma HeaderLineFields(keys: seq<MethodCount>)
    requires NamesSafe(keys)
    ensures Fields(HeaderLine(keys)) == HeaderFields(keys)
  {
    HeaderCellsSafe(keys);
    HeaderNamesSafe();
    HeaderStart();
    var tail := Cells(keys, HeaderCell);
    CellsFields("Total Logs Removed", keys, HeaderCell);
    CommaThen("File", "Total Logs Removed", tail);
    PlainField("File", "Total Logs Removed" + tail);
  }

  lemma FileRowNoNewline(f: FileEntry, keys: seq<MethodCount>)
    requires '\n' !in f.path
    ensures '\n' !in FileRow(f, keys)
  {
    NumberCells(keys, f);
    QuoteNoNewline(f.path);
    DigitsPlain(f.logsRemoved);
    RowNoNewline(Quote(f.path), NatToString(f.logsRemoved), keys, FileCell(f));
  }

  lemma FileRowFields(f: FileEntry, keys: seq<MethodCount>)
    requires '"' !in f.path
    ensures Fields(FileRow(f, keys)) == FileFields(f, keys)
  {
    NumberCells(keys, f);
    var n := NatToString(f.logsRemoved);
    DigitsPlain(f.logsRemoved);
    CellsFields(n, keys, FileCell(f));
    CommaThen(Quote(f.path), n, Cells(keys, FileCell(f)));
    QuotedField(f.path, n + Cells(keys, FileCell(f)));
  }

  lemma TotalWord()
    ensures '"' !in "TOTAL" && '\n' !in "TOTAL"
  {
    var w := "TOTAL";
    forall k | 0 <= k < |w| ensures w[k] != '"' && w[k] != '\n' {
    }
  }

  lemma TotalRowNoNewline(r: Report)
    ensures '\n' !in TotalRow(r)
  {
    NumberCells(r.methodStats, FileEntry("", 0, []));
    DigitsPlain(r.summary.totalLogsRemoved);
    TotalWord();
    QuoteNoNewline("TOTAL");
    RowNoNewline(Quote("TOTAL"), NatToString(r.summary.totalLogsRemoved), r.methodStats, TotalCell);
  }

  lemma TotalRowFields(r: Report)
    ensures Fields(TotalRow(r)) == TotalFields(r)
  {
    var keys := r.methodStats;
    NumberCells(keys, FileEntry("", 0, []));
    var n := NatToString(r.summary.totalLogsRemoved);
    DigitsPlain(r.summary.totalLogsRemoved);
    TotalWord();
    CellsFields(n, keys, TotalCell);
    CommaThen(Quote("TOTAL"), n, Cells(keys, TotalCell));
    QuotedField("TOTAL", n + Cells(keys, TotalCell));
  }

  // ---------------------------------------------------------------------------
  // Proofs: lines.

  lemma LineThenRest(row: string, d: string, rest: string)
    ensures row + "\n" + d + rest == row + ['\n'] + (d + rest)
  {
  }

  /** A line without a newline, then text that splits into `rows` ahead of
      `rest`. */
  lemma LineCons(row: string, tail: string, rest: string, rows: seq<string>)
    requires '\n' !in row
    requires SplitOn(tail + rest, '\n') == rows + SplitOn(rest, '\n')
    ensures SplitOn(row + "\n" + tail + rest, '\n') == [row] + rows + SplitOn(rest, '\n')
  {
    LineThenRest(row, tail, rest);
    SplitAfterSegment(row, tail + rest, '\n');
  }

  lemma {:induction false} DataRowsSplit(files: seq<FileEntry>, keys: seq<MethodCount>, rest: string)
    requires forall i :: 0 <= i < |files| ==> '\n' !in files[i].path
    ensures SplitOn(DataRows(files, keys) + rest, '\n')
            == RowLines(files, keys) + SplitOn(rest, '\n')
    decreases |files|
  {
    if files == [] {
      assert DataRows(files, keys) + rest == rest;
    } else {
      var tail := files[1..];
      assert forall i :: 0 <= i < |tail| ==> '\n' !in tail[i].path by {
        assert forall i :: 0 <= i < |tail| ==> tail[i] == files[i + 1];
      }
      DataRowsSplit(tail, keys, rest);
      var row := FileRow(files[0], keys);
      FileRowNoNewline(files[0], keys);
      LineCons(row, DataRows(tail, keys), rest, RowLines(tail, keys));
      assert RowLines(files, keys) == [row] + RowLines(tail, keys);
    }
  }

  /** The data rows are empty or end with a newline. */
  lemma {:induction false} DataRowsEnd(files: seq<FileEntry>, keys: seq<MethodCount>)
    ensures DataRows(files, keys) == [] || DataRows(files, keys)[|DataRows(files, keys)| - 1] == '\n'
    decreases |files|
  {
    if files != [] {
      DataRowsEnd(files[1..], keys);
    }
  }

  lemma ShapeConcat(h: string, d: string, t: string)
    ensures h + "\n" + d + t + "\n" == h + ['\n'] + (d + (t + ['\n'] + []))
  {
  }

  lemma LastPieces(t: string)
    requires '\n' !in t
    ensures SplitOn(t + ['\n'] + [], '\n') == [t, []]
  {
    SplitAfterSegment(t, [], '\n');
  }

  /** A header line, text splitting into `rows`, then a last line: the
      lines in order, and the empty piece after the final newline. */
  lemma CsvShape(h: string, d: string, t: string, rows: seq<string>)
    requires '\n' !in h && '\n' !in t
    requires SplitOn(d + (t + ['\n'] + []), '\n') == rows + SplitOn(t + ['\n'] + [], '\n')
    ensures SplitOn(h + "\n" + d + t + "\n", '\n') == [h] + rows + [t, []]
  {
    ShapeConcat(h, d, t);
    LastPieces(t);
    SplitAfterSegment(h, d + (t + ['\n'] + []), '\n');
  }

  /** The last line of a text that ends with `t` and a newline, after a
      newline or at the start, is `t`. */
  lemma {:induction false} SplitLastLine(a: string, t: string)
    requires '\n' !in t
    requires a == [] || a[|a| - 1] == '\n'
    ensures |SplitOn(a + t + ['\n'], '\n')| >= 2
    ensures a != [] ==> |SplitOn(a + t + ['\n'], '\n')| >= 3
    ensures SplitOn(a + t + ['\n'], '\n')[|SplitOn(a + t + ['\n'], '\n')| - 2] == t
    ensures SplitOn(a + t + ['\n'], '\n')[|SplitOn(a + t + ['\n'], '\n')| - 1] == []
    decreases |a|
  {
    var s := a + t + ['\n'];
    if a == [] {
      assert s == t + ['\n'] + [];
      SplitAfterSegment(t, [], '\n');
    } else {
      var tail := a[1..];
      assert s[1..] == tail + t + ['\n'];
      assert tail == [] || tail[|tail| - 1] == '\n';
      SplitLastLine(tail, t);
      assert a[0] != '\n' ==> tail != [];
    }
  }

  /** The CSV text is the header line, the file rows and the total row, each
      ended by a newline. */
  lemma CsvLines(r: Report)
    requires CsvSafe(r)
    ensures SplitOn(GenerateCsv(r), '\n')
            == [HeaderLine(r.methodStats)] + RowLines(r.fileStats, r.methodStats) + [TotalRow(r), []]
  {
    var keys := r.methodStats;
    var files := r.fileStats;
    var h := HeaderLine(keys);
    var t := TotalRow(r);
    var d := DataRows(files, keys);
    HeaderLineNoNewline(keys);
    TotalRowNoNewline(r);
    DataRowsSplit(files, keys, t + ['\n'] + []);
    CsvShape(h, d, t, RowLines(files, keys));
  }

  /** Whatever the paths hold, the first line is the header line. */
  lemma HeaderFirst(r: Report)
    requires NamesSafe(r.methodStats)
    ensures |SplitOn(GenerateCsv(r), '\n')| >= 2
    ensures SplitOn(GenerateCsv(r), '\n')[0] == HeaderLine(r.methodStats)
  {
    var h := HeaderLine(r.methodStats);
    var rest := DataRows(r.fileStats, r.methodStats) + TotalRow(r) + "\n";
    HeaderLineNoNewline(r.methodStats);
    assert GenerateCsv(r) == h + ['\n'] + rest;
    SplitAfterSegment(h, rest, '\n');
  }

  /** Whatever the paths hold, the last line is the total row. */
  lemma TotalLast(r: Report)
    ensures |SplitOn(GenerateCsv(r), '\n')| >= 2
    ensures SplitOn(GenerateCsv(r), '\n')[|SplitOn(GenerateCsv(r), '\n')| - 2] == TotalRow(r)
    ensures SplitOn(GenerateCsv(r), '\n')[|SplitOn(GenerateCsv(r), '\n')| - 1] == []
  {
    var d := DataRows(r.fileStats, r.methodStats);
    var a := HeaderLine(r.methodStats) + "\n" + d;
    DataRowsEnd(r.fileStats, r.methodStats);
    TotalRowNoNewline(r);
    assert a != [] && a[|a| - 1] == '\n' by {
      if d == [] {
        assert a == HeaderLine(r.methodStats) + "\n";
      } else {
        assert a[|a| - 1] == d[|d| - 1];
      }
    }
    assert GenerateCsv(r) == a + TotalRow(r) + ['\n'];
    SplitLastLine(a, TotalRow(r));
  }

  lemma TableRows(r: Report)
    ensures |CsvTable(r)| == |r.fileStats| + 2
    ensures CsvTable(r)[0] == HeaderFields(r.methodStats)
    ensures forall i :: 0 <= i < |r.fileStats| ==> CsvTable(r)[i + 1] == FileFields(r.fileStats[i], r.methodStats)
    ensures CsvTable(r)[|r.fileStats| + 1] == TotalFields(r)
  {
  }

  lemma ParsedRows(text: string)
    ensures |ParseCsv(text)| == |SplitOn(text, '\n')| - 1
    ensures forall i :: 0 <= i < |ParseCsv(text)| ==> ParseCsv(text)[i] == Fields(SplitOn(text, '\n')[i])
  {
  }

  // ---------------------------------------------------------------------------
  // What the CSV says.

  /** Reading the CSV text back gives the table: header, one row per file
      in order, then the total row, each path as written, commas included.
      Holds when no path holds a double quote or a newline and no method
      name a comma or a newline. */
  lemma CsvRoundTrip(r: Report)
    requires CsvSafe(r)
    ensures ParseCsv(GenerateCsv(r)) == CsvTable(r)
  {
    var keys := r.methodStats;
    var files := r.fileStats;
    CsvLines(r);
    TableRows(r);
    ParsedRows(GenerateCsv(r));
    var lines := SplitOn(GenerateCsv(r), '\n');
    var table := CsvTable(r);
    var parsed := ParseCsv(GenerateCsv(r));
    forall i | 0 <= i < |table| ensures parsed[i] == table[i] {
      if i == 0 {
        HeaderLineFields(keys);
      } else if i <= |files| {
        assert lines[i] == RowLines(files, keys)[i - 1];
        RowLinesAt(files, keys, i - 1);
        FileRowFields(files[i - 1], keys);
      } else {
        TotalRowFields(r);
      }
    }
  }

  /** The CSV has |fileStats| + 2 lines, each with 2 + |methodStats| fields. */
  lemma CsvDimensions(r: Report)
    requires CsvSafe(r)
    ensures |ParseCsv(GenerateCsv(r))| == |r.fileStats| + 2
    ensures forall i :: 0 <= i < |ParseCsv(GenerateCsv(r))| ==> |ParseCsv(GenerateCsv(r))[i]| == 2 + |r.methodStats|
  {
    CsvRoundTrip(r);
    TableRows(r);
  }

  /** The header is `File,Total Logs Removed` followed by `console.<name>`
      for each key of `methodStats`, in key order, whatever the paths
      hold. */
  lemma CsvHeader(r: Report)
    requires NamesSafe(r.methodStats)
    ensures |ParseCsv(GenerateCsv(r))| > 0
    ensures ParseCsv(GenerateCsv(r))[0] == ["File", "Total Logs Removed"] + Column(r.methodStats, HeaderCell)
    ensures forall j :: 0 <= j < |r.methodStats| ==> ParseCsv(GenerateCsv(r))[0][2 + j] == "console." + r.methodStats[j].name
  {
    HeaderFirst(r);
    ParsedRows(GenerateCsv(r));
    HeaderLineFields(r.methodStats);
  }

  /** Row i + 1 is file i: its path, commas included, its total, then under
      each key of `methodStats` the count its breakdown holds for that
      method, or 0 when the breakdown lacks the method. */
  lemma CsvFileRow(r: Report, i: nat, j: nat)
    requires CsvSafe(r)
    requires i < |r.fileStats| && j < |r.methodStats|
    ensures i + 1 < |ParseCsv(GenerateCsv(r))|
    ensures |ParseCsv(GenerateCsv(r))[i + 1]| == 2 + |r.methodStats|
    ensures ParseCsv(GenerateCsv(r))[i + 1][..2] == [r.fileStats[i].path, NatToString(r.fileStats[i].logsRemoved)]
    ensures ParseCsv(GenerateCsv(r))[i + 1][2 + j] == NatToString(Lookup(r.fileStats[i].methodBreakdown, r.methodStats[j].name))
    ensures (forall k :: 0 <= k < |r.fileStats[i].methodBreakdown| ==> r.fileStats[i].methodBreakdown[k].name != r.methodStats[j].name)
            ==> ParseCsv(GenerateCsv(r))[i + 1][2 + j] == "0"
  {
    CsvRoundTrip(r);
    TableRows(r);
    FileFieldsAt(r.fileStats[i], r.methodStats, j);
  }

  lemma FileFieldsAt(f: FileEntry, keys: seq<MethodCount>, j: nat)
    requires j < |keys|
    ensures |FileFields(f, keys)| == 2 + |keys|
    ensures FileFields(f, keys)[..2] == [f.path, NatToString(f.logsRemoved)]
    ensures FileFields(f, keys)[2 + j] == NatToString(Lookup(f.methodBreakdown, keys[j].name))
    ensures (forall k :: 0 <= k < |f.methodBreakdown| ==> f.methodBreakdown[k].name != keys[j].name)
            ==> FileFields(f, keys)[2 + j] == "0"
  {
    var row := FileFields(f, keys);
    assert row[2 + j] == FileCell(f)(keys[j]);
    assert NatToString(0) == "0";
  }

  /** The last row is `TOTAL`, the summary total, then each `methodStats`
      count in key order, whatever the paths hold; it is row
      |fileStats| + 1 when the paths are safe. */
  lemma CsvTotalRow(r: Report)
    ensures |ParseCsv(GenerateCsv(r))| >= 1
    ensures var rows := ParseCsv(GenerateCsv(r));
            && |rows[|rows| - 1]| == 2 + |r.methodStats|
            && rows[|rows| - 1][..2] == ["TOTAL", NatToString(r.summary.totalLogsRemoved)]
            && forall j :: 0 <= j < |r.methodStats| ==> rows[|rows| - 1][2 + j] == NatToString(r.methodStats[j].count)
    ensures CsvSafe(r) ==> |ParseCsv(GenerateCsv(r))| == |r.fileStats| + 2
  {
    TotalLast(r);
    TotalRowFields(r);
    LastRow(GenerateCsv(r), TotalRow(r));
    TotalFieldsAt(r);
    if CsvSafe(r) {
      CsvDimensions(r);
    }
  }

  /** A text whose last line is `t` reads back with `Fields(t)` last. */
  lemma LastRow(text: string, t: string)
    requires |SplitOn(text, '\n')| >= 2
    requires SplitOn(text, '\n')[|SplitOn(text, '\n')| - 2] == t
    ensures |ParseCsv(text)| >= 1
    ensures ParseCsv(text)[|ParseCsv(text)| - 1] == Fields(t)
  {
  }

  lemma TotalFieldsAt(r: Report)
    ensures |TotalFields(r)| == 2 + |r.methodStats|
    ensures TotalFields(r)[..2] == ["TOTAL", NatToString(r.summary.totalLogsRemoved)]
    ensures forall j :: 0 <= j < |r.methodStats| ==> TotalFields(r)[2 + j] == NatToString(r.methodStats[j].count)
  {
  }
}
