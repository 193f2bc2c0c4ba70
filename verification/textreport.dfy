/** `generateTextReport` (src/generate-report-file.js:36-77): a title, the
    summary, the method breakdown and the modified files, each breakdown
    limited to positive counts and ranked, the files in a sorted copy. */
module TextReport {
  import opened Text
  import opened Report

  /** One breakdown line per entry: `<indent>console.<name>: <count>`. */
  function BreakdownText(entries: seq<MethodCount>, indent: string): string
    decreases |entries|
  {
    if entries == [] then ""
    else indent + "console." + entries[0].name + ": " + NatToString(entries[0].count) + "\n"
         + BreakdownText(entries[1..], indent)
  }

  /** One pass of the `forEach` over the sorted files: the heading, the
      ranked breakdown, a blank line. */
  function FileText(f: FileEntry): string {
    f.path + ": " + NatToString(f.logsRemoved) + " statement(s)\n"
    + BreakdownText(Ranked(f.methodBreakdown), "  - ") + "\n"
  }

  function FilesText(files: seq<FileEntry>): string
    decreases |files|
  {
    if files == [] then "" else FileText(files[0]) + FilesText(files[1..])
  }

  /** Each `text +=` of lines 40-44 appends one piece. */
  function SummaryText(s: Summary): string {
    "=== Summary ===\n"
    + ("Files checked: " + NatToString(s.filesChecked) + "\n")
    + ("Files modified: " + NatToString(s.filesModified) + "\n")
    + ("Total console statements removed: " + NatToString(s.totalLogsRemoved) + "\n")
    + ("Generated: " + s.timestamp + "\n\n")
  }

  function MethodSection(methodStats: seq<MethodCount>): string {
    "=== Method Breakdown ===\n" + BreakdownText(Ranked(methodStats), "") + "\n"
  }

  function FilesSection(files: seq<FileEntry>): string {
    "=== Modified Files ===\n" + FilesText(SortedFiles(files))
  }

  /** `generateTextReport(report)`. */
  function GenerateTextReport(r: Report): string {
    "=== Log Removal Report ===\n\n" + SummaryText(r.summary) + MethodSection(r.methodStats) + FilesSection(r.fileStats)
  }

  // ---------------------------------------------------------------------------
  // Reference definition: the report as a list of lines.

  function EntryLine(e: MethodCount, indent: string): string {
    indent + "console." + e.name + ": " + NatToString(e.count)
  }

  function BreakdownLines(entries: seq<MethodCount>, indent: string): (lines: seq<string>)
    ensures |lines| == |entries|
    ensures forall i :: 0 <= i < |entries| ==> lines[i] == EntryLine(entries[i], indent)
    decreases |entries|
  {
    if entries == [] then []
    else
      var rest := BreakdownLines(entries[1..], indent);
      assert forall i :: 1 <= i < |entries| ==> entries[i] == entries[1..][i - 1];
      [EntryLine(entries[0], indent)] + rest
  }

  function FileHeading(f: FileEntry): string {
    f.path + ": " + NatToString(f.logsRemoved) + " statement(s)"
  }

  /** A file's block: heading, ranked breakdown, blank line. */
  function FileBlock(f: FileEntry): seq<string> {
    [FileHeading(f)] + BreakdownLines(Ranked(f.methodBreakdown), "  - ") + [""]
  }

  function FileLines(files: seq<FileEntry>): seq<string>
    decreases |files|
  {
    if files == [] then [] else FileBlock(files[0]) + FileLines(files[1..])
  }

  function SummaryLines(s: Summary): seq<string> {
    [ "=== Summary ===",
      "Files checked: " + NatToString(s.filesChecked),
      "Files modified: " + NatToString(s.filesModified),
      "Total console statements removed: " + NatToString(s.totalLogsRemoved),
      "Generated: " + s.timestamp,
      "" ]
  }

  function TitleLines(): seq<string> {
    ["=== Log Removal Report ===", ""]
  }

  function MethodBlock(methodStats: seq<MethodCount>): seq<string> {
    ["=== Method Breakdown ==="] + BreakdownLines(Ranked(methodStats), "") + [""]
  }

  function FilesBlock(files: seq<FileEntry>): seq<string> {
    ["=== Modified Files ==="] + FileLines(SortedFiles(files))
  }

  /** The lines of the report, in order. */
  function ReportLines(r: Report): seq<string> {
    TitleLines() + SummaryLines(r.summary) + MethodBlock(r.methodStats) + FilesBlock(r.fileStats)
  }

  /** No newline inside the timestamp, a path or a method name. */
  ghost predicate TextSafe(r: Report) {
    && '\n' !in r.summary.timestamp
    && (forall i :: 0 <= i < |r.methodStats| ==> '\n' !in r.methodStats[i].name)
    && (forall i :: 0 <= i < |r.fileStats| ==> '\n' !in r.fileStats[i].path)
    && (forall i, k :: 0 <= i < |r.fileStats| && 0 <= k < |r.fileStats[i].methodBreakdown| ==>
          '\n' !in r.fileStats[i].methodBreakdown[k].name)
  }

  // ---------------------------------------------------------------------------
  // Proofs.

  lemma {:induction false} BreakdownAsLines(entries: seq<MethodCount>, indent: string)
    ensures BreakdownText(entries, indent) == Unlines(BreakdownLines(entries, indent))
    decreases |entries|
  {
    if entries != [] {
      BreakdownAsLines(entries[1..], indent);
      assert BreakdownLines(entries, indent) == [EntryLine(entries[0], indent)] + BreakdownLines(entries[1..], indent);
    }
  }

  lemma HeadingAsLine(f: FileEntry)
    ensures f.path + ": " + NatToString(f.logsRemoved) + " statement(s)\n" == Unlines([FileHeading(f)])
  {
    UnlinesOne(FileHeading(f));
    assert " statement(s)\n" == " statement(s)" + "\n";
  }

  /** Three blocks of text that are each the lines of a list make, in order,
      the lines of the joined list. */
  lemma JoinThree(t: seq<string>, a: seq<string>, b: seq<string>, x: string, y: string, z: string)
    requires x == Unlines(t) && y == Unlines(a) && z == Unlines(b)
    ensures x + y + z == Unlines(t + a + b)
  {
    UnlinesAppend(t, a);
    UnlinesAppend(t + a, b);
  }

  lemma FileAsLines(f: FileEntry)
    ensures FileText(f) == Unlines(FileBlock(f))
  {
    BreakdownAsLines(Ranked(f.methodBreakdown), "  - ");
    HeadingAsLine(f);
    UnlinesOne("");
    assert "\n" == "" + "\n";
    JoinThree([FileHeading(f)], BreakdownLines(Ranked(f.methodBreakdown), "  - "), [""],
              f.path + ": " + NatToString(f.logsRemoved) + " statement(s)\n",
              BreakdownText(Ranked(f.methodBreakdown), "  - "), "\n");
  }

  lemma {:induction false} FilesAsLines(files: seq<FileEntry>)
    ensures FilesText(files) == Unlines(FileLines(files))
    decreases |files|
  {
    if files != [] {
      FilesAsLines(files[1..]);
      FileAsLines(files[0]);
      UnlinesAppend(FileBlock(files[0]), FileLines(files[1..]));
    }
  }

  lemma UnlinesOne(x: string)
    ensures Unlines([x]) == x + "\n"
  {
    assert [x][1..] == [];
  }

  /** Four blocks of text that are each the lines of a list make, in order,
      the lines of the joined list. */
  lemma JoinBlocks(t: seq<string>, a: seq<string>, b: seq<string>, c: seq<string>,
                   x: string, y: string, z: string, w: string)
    requires x == Unlines(t) && y == Unlines(a) && z == Unlines(b) && w == Unlines(c)
    ensures x + y + z + w == Unlines(t + a + b + c)
  {
    UnlinesAppend(t, a);
    UnlinesAppend(t + a, b);
    UnlinesAppend(t + a + b, c);
  }

  /** The last summary piece ends the timestamp line and adds the blank one. */
  lemma LastSummaryPiece(l: string)
    ensures l + "\n\n" == Unlines([l, ""])
  {
    UnlinesOne("");
    UnlinesCons(l, [""]);
    assert [l, ""] == [l] + [""];
    assert l + "\n\n" == (l + "\n") + ("" + "\n");
  }

  lemma SummaryPieces(l1: string, l2: string, l3: string, l4: string)
    ensures "=== Summary ===\n" + (l1 + "\n") + (l2 + "\n") + (l3 + "\n") + (l4 + "\n\n")
            == Unlines(["=== Summary ===", l1, l2, l3, l4, ""])
  {
    UnlinesOne("=== Summary ===");
    UnlinesOne(l1);
    UnlinesOne(l2);
    UnlinesOne(l3);
    LastSummaryPiece(l4);
    assert "=== Summary ===\n" == "=== Summary ===" + "\n";
    var x := "=== Summary ===\n" + (l1 + "\n");
    UnlinesAppend(["=== Summary ==="], [l1]);
    assert x == Unlines(["=== Summary ===", l1]) by {
      assert ["=== Summary ===", l1] == ["=== Summary ==="] + [l1];
    }
    JoinBlocks(["=== Summary ===", l1], [l2], [l3], [l4, ""], x, l2 + "\n", l3 + "\n", l4 + "\n\n");
    assert ["=== Summary ===", l1] + [l2] + [l3] + [l4, ""] == ["=== Summary ===", l1, l2, l3, l4, ""];
  }

  lemma SummaryAsLines(s: Summary)
    ensures SummaryText(s) == Unlines(SummaryLines(s))
  {
    SummaryPieces("Files checked: " + NatToString(s.filesChecked),
                  "Files modified: " + NatToString(s.filesModified),
                  "Total console statements removed: " + NatToString(s.totalLogsRemoved),
                  "Generated: " + s.timestamp);
  }

  lemma TitleAsLines()
    ensures "=== Log Removal Report ===\n\n" == Unlines(TitleLines())
  {
    LastSummaryPiece("=== Log Removal Report ===");
  }

  lemma MethodSectionAsLines(methodStats: seq<MethodCount>)
    ensures MethodSection(methodStats) == Unlines(MethodBlock(methodStats))
  {
    var ms := BreakdownLines(Ranked(methodStats), "");
    BreakdownAsLines(Ranked(methodStats), "");
    UnlinesOne("=== Method Breakdown ===");
    UnlinesOne("");
    assert "=== Method Breakdown ===\n" == "=== Method Breakdown ===" + "\n";
    assert "\n" == "" + "\n";
    UnlinesAppend(["=== Method Breakdown ==="], ms);
    UnlinesAppend(["=== Method Breakdown ==="] + ms, [""]);
  }

  lemma FilesSectionAsLines(files: seq<FileEntry>)
    ensures FilesSection(files) == Unlines(FilesBlock(files))
  {
    FilesAsLines(SortedFiles(files));
    UnlinesOne("=== Modified Files ===");
    UnlinesAppend(["=== Modified Files ==="], FileLines(SortedFiles(files)));
    assert "=== Modified Files ===\n" == "=== Modified Files ===" + "\n";
  }

  lemma ReportAsLines(r: Report)
    ensures GenerateTextReport(r) == Unlines(ReportLines(r))
  {
    TitleAsLines();
    SummaryAsLines(r.summary);
    MethodSectionAsLines(r.methodStats);
    FilesSectionAsLines(r.fileStats);
    JoinBlocks(TitleLines(), SummaryLines(r.summary), MethodBlock(r.methodStats), FilesBlock(r.fileStats),
               "=== Log Removal Report ===\n\n", SummaryText(r.summary),
               MethodSection(r.methodStats), FilesSection(r.fileStats));
  }

  ghost predicate NoNewlines(lines: seq<string>) {
    forall i :: 0 <= i < |lines| ==> '\n' !in lines[i]
  }

  lemma NoNewlinesAppend(a: seq<string>, b: seq<string>)
    requires NoNewlines(a) && NoNewlines(b)
    ensures NoNewlines(a + b)
  {
    forall i | 0 <= i < |a + b| ensures '\n' !in (a + b)[i] {
      if i >= |a| {
        assert (a + b)[i] == b[i - |a|];
      }
    }
  }

  lemma TitleLiteralsSafe()
    ensures '\n' !in "=== Log Removal Report ==="
         && '\n' !in ""
         && '\n' !in "=== Summary ==="
         && '\n' !in "=== Method Breakdown ==="
         && '\n' !in "=== Modified Files ==="
  {
    forall k | 0 <= k < |"=== Log Removal Report ==="| ensures "=== Log Removal Report ==="[k] != '\n' {
    }
    forall k | 0 <= k < |"=== Summary ==="| ensures "=== Summary ==="[k] != '\n' {
    }
    forall k | 0 <= k < |"=== Method Breakdown ==="| ensures "=== Method Breakdown ==="[k] != '\n' {
    }
    forall k | 0 <= k < |"=== Modified Files ==="| ensures "=== Modified Files ==="[k] != '\n' {
    }
  }

  lemma SummaryLiteralsSafe()
    ensures '\n' !in "Files checked: "
         && '\n' !in "Files modified: "
         && '\n' !in "Total console statements removed: "
         && '\n' !in "Generated: "
  {
    forall k | 0 <= k < |"Files checked: "| ensures "Files checked: "[k] != '\n' {
    }
    forall k | 0 <= k < |"Files modified: "| ensures "Files modified: "[k] != '\n' {
    }
    forall k | 0 <= k < |"Total console statements removed: "| ensures "Total console statements removed: "[k] != '\n' {
    }
    forall k | 0 <= k < |"Generated: "| ensures "Generated: "[k] != '\n' {
    }
  }

  lemma EntryLiteralsSafe()
    ensures '\n' !in "console."
         && '\n' !in ": "
         && '\n' !in "  - "
         && '\n' !in " statement(s)"
  {
    forall k | 0 <= k < |"console."| ensures "console."[k] != '\n' {
    }
    forall k | 0 <= k < |": "| ensures ": "[k] != '\n' {
    }
    forall k | 0 <= k < |"  - "| ensures "  - "[k] != '\n' {
    }
    forall k | 0 <= k < |" statement(s)"| ensures " statement(s)"[k] != '\n' {
    }
  }

  lemma DigitsHaveNoNewline(n: nat)
    ensures '\n' !in NatToString(n)
  {
    var s := NatToString(n);
    assert forall i :: 0 <= i < |s| ==> IsDigit(s[i]);
  }

  lemma {:induction false} BreakdownLinesSafe(entries: seq<MethodCount>, indent: string)
    requires '\n' !in indent
    requires forall k :: 0 <= k < |entries| ==> '\n' !in entries[k].name
    ensures NoNewlines(BreakdownLines(entries, indent))
  {
    EntryLiteralsSafe();
    forall i | 0 <= i < |entries| ensures '\n' !in EntryLine(entries[i], indent) {
      DigitsHaveNoNewline(entries[i].count);
    }
  }

  lemma RankedNamesSafe(entries: seq<MethodCount>)
    requires forall k :: 0 <= k < |entries| ==> '\n' !in entries[k].name
    ensures forall k :: 0 <= k < |Ranked(entries)| ==> '\n' !in Ranked(entries)[k].name
  {
    RankedBreakdown(entries, 0);
    forall k | 0 <= k < |Ranked(entries)| ensures '\n' !in Ranked(entries)[k].name {
      var e := Ranked(entries)[k];
      assert e in entries;
      var j :| 0 <= j < |entries| && entries[j] == e;
    }
  }

  lemma {:induction false} FileLinesSafe(files: seq<FileEntry>)
    requires forall i :: 0 <= i < |files| ==> '\n' !in files[i].path
    requires forall i, k :: 0 <= i < |files| && 0 <= k < |files[i].methodBreakdown| ==>
               '\n' !in files[i].methodBreakdown[k].name
    ensures NoNewlines(FileLines(files))
    decreases |files|
  {
    if files != [] {
      var f := files[0];
      var tail := files[1..];
      assert forall i :: 0 <= i < |tail| ==> tail[i] == files[i + 1];
      FileLinesSafe(tail);
      EntryLiteralsSafe();
      DigitsHaveNoNewline(f.logsRemoved);
      assert '\n' !in FileHeading(f);
      RankedNamesSafe(f.methodBreakdown);
      BreakdownLinesSafe(Ranked(f.methodBreakdown), "  - ");
      NoNewlinesAppend([FileHeading(f)], BreakdownLines(Ranked(f.methodBreakdown), "  - "));
      NoNewlinesAppend([FileHeading(f)] + BreakdownLines(Ranked(f.methodBreakdown), "  - "), [""]);
      NoNewlinesAppend(FileBlock(f), FileLines(tail));
    }
  }

  lemma SortedFilesSafe(files: seq<FileEntry>)
    requires forall i :: 0 <= i < |files| ==> '\n' !in files[i].path
    requires forall i, k :: 0 <= i < |files| && 0 <= k < |files[i].methodBreakdown| ==>
               '\n' !in files[i].methodBreakdown[k].name
    ensures NoNewlines(FileLines(SortedFiles(files)))
  {
    var sorted := SortedFiles(files);
    SortedFilesListing(files, 0);
    forall i | 0 <= i < |sorted|
      ensures '\n' !in sorted[i].path
      ensures forall k :: 0 <= k < |sorted[i].methodBreakdown| ==> '\n' !in sorted[i].methodBreakdown[k].name
    {
      assert sorted[i] in multiset(files);
      var j :| 0 <= j < |files| && files[j] == sorted[i];
    }
    FileLinesSafe(sorted);
  }

  lemma ReportLinesSafe(r: Report)
    requires TextSafe(r)
    ensures NoNewlines(ReportLines(r))
  {
    TitleLiteralsSafe();
    SummaryLiteralsSafe();
    var ms := BreakdownLines(Ranked(r.methodStats), "");
    var fl := FileLines(SortedFiles(r.fileStats));
    DigitsHaveNoNewline(r.summary.filesChecked);
    DigitsHaveNoNewline(r.summary.filesModified);
    DigitsHaveNoNewline(r.summary.totalLogsRemoved);
    assert NoNewlines(TitleLines());
    assert NoNewlines(SummaryLines(r.summary));
    RankedNamesSafe(r.methodStats);
    BreakdownLinesSafe(Ranked(r.methodStats), "");
    SortedFilesSafe(r.fileStats);
    NoNewlinesAppend(["=== Method Breakdown ==="], ms);
    NoNewlinesAppend(["=== Method Breakdown ==="] + ms, [""]);
    NoNewlinesAppend(["=== Modified Files ==="], fl);
    NoNewlinesAppend(TitleLines(), SummaryLines(r.summary));
    NoNewlinesAppend(TitleLines() + SummaryLines(r.summary), MethodBlock(r.methodStats));
    NoNewlinesAppend(TitleLines() + SummaryLines(r.summary) + MethodBlock(r.methodStats), FilesBlock(r.fileStats));
  }

  /** Read back line by line, the text report is exactly its line list (plus
      the empty segment after the final newline). */
  lemma TextReportLines(r: Report)
    requires TextSafe(r)
    ensures SplitOn(GenerateTextReport(r), '\n') == ReportLines(r) + [""]
  {
    ReportAsLines(r);
    ReportLinesSafe(r);
    SplitUnlines(ReportLines(r), "");
    assert Unlines(ReportLines(r)) + "" == Unlines(ReportLines(r));
  }

  /** Slicing a list made of four parts gives the parts back. */
  lemma FourParts(p: seq<string>, q: seq<string>, u: seq<string>, v: seq<string>)
    ensures var all := p + q + u + v;
            && |all| == |p| + |q| + |u| + |v|
            && all[..|p|] == p
            && all[|p|..|p| + |q|] == q
            && all[|p| + |q|..|p| + |q| + |u|] == u
            && all[|p| + |q| + |u|..] == v
  {
  }

  lemma Regroup(t: seq<string>, a: seq<string>, m: string, ms: seq<string>, f: string, fl: seq<string>)
    ensures t + a + ([m] + ms + [""]) + ([f] + fl) == (t + a + [m]) + ms + ["", f] + fl
  {
  }

  /** The line list, section by section. */
  lemma ReportLinesLayout(r: Report)
    ensures var lines := ReportLines(r);
            var ranked := Ranked(r.methodStats);
            && |lines| == 11 + |ranked| + |FileLines(SortedFiles(r.fileStats))|
            && lines[..9] == TitleLines() + SummaryLines(r.summary) + ["=== Method Breakdown ==="]
            && lines[9..9 + |ranked|] == BreakdownLines(ranked, "")
            && lines[9 + |ranked|..11 + |ranked|] == ["", "=== Modified Files ==="]
            && lines[11 + |ranked|..] == FileLines(SortedFiles(r.fileStats))
  {
    var front := TitleLines() + SummaryLines(r.summary) + ["=== Method Breakdown ==="];
    var ms := BreakdownLines(Ranked(r.methodStats), "");
    var fl := FileLines(SortedFiles(r.fileStats));
    Regroup(TitleLines(), SummaryLines(r.summary), "=== Method Breakdown ===", ms, "=== Modified Files ===", fl);
    FourParts(front, ms, ["", "=== Modified Files ==="], fl);
  }

  /** The summary block of the report, read line by line. */
  lemma TextReportSummary(r: Report)
    requires TextSafe(r)
    ensures var lines := SplitOn(GenerateTextReport(r), '\n');
            && |lines| >= 12
            && lines[0] == "=== Log Removal Report ==="
            && lines[2] == "=== Summary ==="
            && lines[3] == "Files checked: " + NatToString(r.summary.filesChecked)
            && lines[4] == "Files modified: " + NatToString(r.summary.filesModified)
            && lines[5] == "Total console statements removed: " + NatToString(r.summary.totalLogsRemoved)
            && lines[6] == "Generated: " + r.summary.timestamp
            && lines[8] == "=== Method Breakdown ==="
  {
    TextReportLines(r);
    ReportLinesLayout(r);
    var lines := ReportLines(r);
    var front := lines[..9];
    var sl := SummaryLines(r.summary);
    assert front == TitleLines() + sl + ["=== Method Breakdown ==="];
    assert front[0] == "=== Log Removal Report ===";
    assert front[2] == sl[0] && front[3] == sl[1] && front[4] == sl[2];
    assert front[5] == sl[3] && front[6] == sl[4] && front[8] == "=== Method Breakdown ===";
    var all := SplitOn(GenerateTextReport(r), '\n');
    assert all == lines + [""];
    assert forall i :: 0 <= i < 9 ==> all[i] == front[i];
  }

  lemma EntriesAt(all: seq<string>, lines: seq<string>, ranked: seq<MethodCount>)
    requires all == lines + [""]
    requires |lines| >= 11 + |ranked|
    requires lines[9..9 + |ranked|] == BreakdownLines(ranked, "")
    ensures forall i :: 0 <= i < |ranked| ==>
              all[9 + i] == "console." + ranked[i].name + ": " + NatToString(ranked[i].count)
  {
    forall i | 0 <= i < |ranked|
      ensures all[9 + i] == "console." + ranked[i].name + ": " + NatToString(ranked[i].count)
    {
      assert all[9 + i] == lines[9 + i];
      assert lines[9 + i] == lines[9..9 + |ranked|][i];
      EntryLineUnindented(ranked[i]);
    }
  }

  /** A breakdown line without indentation. */
  lemma EntryLineUnindented(e: MethodCount)
    ensures EntryLine(e, "") == "console." + e.name + ": " + NatToString(e.count)
  {
    assert "" + "console." == "console.";
  }

  lemma SuffixOfAppend(lines: seq<string>, x: string, j: nat)
    requires j <= |lines|
    ensures (lines + [x])[j..] == lines[j..] + [x]
  {
  }

  /** Reading the breakdown and the files heading back from a line list laid
      out as `ReportLinesLayout` states. */
  lemma BreakdownRead(all: seq<string>, lines: seq<string>, ranked: seq<MethodCount>, fl: seq<string>)
    requires all == lines + [""]
    requires |lines| == 11 + |ranked| + |fl|
    requires lines[9..9 + |ranked|] == BreakdownLines(ranked, "")
    requires lines[9 + |ranked|..11 + |ranked|] == ["", "=== Modified Files ==="]
    requires lines[11 + |ranked|..] == fl
    ensures |all| == 12 + |ranked| + |fl|
    ensures forall i :: 0 <= i < |ranked| ==>
              all[9 + i] == "console." + ranked[i].name + ": " + NatToString(ranked[i].count)
    ensures all[10 + |ranked|] == "=== Modified Files ==="
    ensures all[11 + |ranked|..] == fl + [""]
  {
    var k := |ranked|;
    EntriesAt(all, lines, ranked);
    assert all[10 + k] == lines[9 + k..11 + k][1];
    SuffixOfAppend(lines, "", 11 + k);
  }

  /** The method breakdown, read line by line from line 9: one line per
      ranked entry (see `Report.RankedBreakdown`: the methods with a positive
      count, largest first), then the files heading and the blocks of the
      files in sorted order. */
  lemma TextReportBreakdown(r: Report)
    requires TextSafe(r)
    ensures var lines := SplitOn(GenerateTextReport(r), '\n');
            var ranked := Ranked(r.methodStats);
            && |lines| == 12 + |ranked| + |FileLines(SortedFiles(r.fileStats))|
            && (forall i :: 0 <= i < |ranked| ==>
                  lines[9 + i] == "console." + ranked[i].name + ": " + NatToString(ranked[i].count))
            && lines[10 + |ranked|] == "=== Modified Files ==="
            && lines[11 + |ranked|..] == FileLines(SortedFiles(r.fileStats)) + [""]
  {
    TextReportLines(r);
    ReportLinesLayout(r);
    BreakdownRead(SplitOn(GenerateTextReport(r), '\n'), ReportLines(r), Ranked(r.methodStats),
                  FileLines(SortedFiles(r.fileStats)));
  }
}
