/** The pure part of `generateReportFile` (src/generate-report-file.js:4-30):
    choosing the serialiser and extension from the format name, and choosing
    where the report goes. Whether the location is an existing directory, the
    working directory and the clock are inputs. */
module ReportFile {
  import opened Text
  import opened Report
  import Csv
  import TextReport

  /** `toLowerCase` on one character, for the ASCII letters. */
  function LowerChar(c: char): char {
    if 'A' <= c <= 'Z' then (c as int + 32) as char else c
  }

  /** `s.toLowerCase()` restricted to ASCII letters. */
  function ToLowerAscii(s: string): (r: string)
    ensures |r| == |s|
    ensures forall i :: 0 <= i < |s| ==> !('A' <= r[i] <= 'Z')
    ensures forall i :: 0 <= i < |s| ==> (r[i] == s[i] || (r[i] as int == s[i] as int + 32 && 'A' <= s[i] <= 'Z'))
  {
    seq(|s|, i requires 0 <= i < |s| => LowerChar(s[i]))
  }

  /** Lower-casing twice is lower-casing once. */
  lemma ToLowerIdempotent(s: string)
    ensures ToLowerAscii(ToLowerAscii(s)) == ToLowerAscii(s)
  {
  }

  datatype Format = JsonFormat | CsvFormat | TextFormat

  /** The `switch (format.toLowerCase())` of lines 10-22. */
  function FormatOf(format: string): Format {
    var f := ToLowerAscii(format);
    if f == "json" then JsonFormat else if f == "csv" then CsvFormat else TextFormat
  }

  function Extension(f: Format): string {
    match f
    case JsonFormat => "json"
    case CsvFormat => "csv"
    case TextFormat => "txt"
  }

  /** The format name is read without regard to case: names that lower-case
      alike choose the same format, and so the same extension. */
  lemma FormatIgnoresCase(a: string, b: string)
    requires ToLowerAscii(a) == ToLowerAscii(b)
    ensures FormatOf(a) == FormatOf(b)
    ensures Extension(FormatOf(a)) == Extension(FormatOf(b))
  {
  }

  /** `json` and `csv` in any case pick their own extension; every other name,
      the empty one included, falls back to the text report and `txt`. */
  lemma FormatChoices(format: string)
    ensures Extension(FormatOf(format)) == "json" <==> ToLowerAscii(format) == "json"
    ensures Extension(FormatOf(format)) == "csv" <==> ToLowerAscii(format) == "csv"
    ensures Extension(FormatOf(format)) == "txt" <==> ToLowerAscii(format) != "json" && ToLowerAscii(format) != "csv"
  {
  }

  /** A few names as the command line may spell them. */
  lemma FormatExamples()
    ensures Extension(FormatOf("json")) == "json" && Extension(FormatOf("JSON")) == "json"
    ensures Extension(FormatOf("csv")) == "csv" && Extension(FormatOf("CsV")) == "csv"
    ensures Extension(FormatOf("")) == "txt" && Extension(FormatOf("text")) == "txt"
  {
    assert ToLowerAscii("JSON") == "json";
    assert ToLowerAscii("CsV") == "csv";
    assert ToLowerAscii("text") != "json" && ToLowerAscii("text") != "csv" by {
      assert ToLowerAscii("text")[0] == 't';
    }
  }

  /** What gets written. `JSON.stringify` output is not part of this model. */
  datatype Content = JsonOf(report: Report) | CsvText(csv: string) | PlainText(text: string)

  function ContentFor(r: Report, f: Format): Content {
    match f
    case JsonFormat => JsonOf(r)
    case CsvFormat => CsvText(Csv.GenerateCsv(r))
    case TextFormat => PlainText(TextReport.GenerateTextReport(r))
  }

  /** Each kind of content comes with its own extension. */
  lemma ContentKind(r: Report, f: Format)
    ensures ContentFor(r, f).JsonOf? ==> "." + Extension(f) == ".json"
    ensures ContentFor(r, f).CsvText? ==> "." + Extension(f) == ".csv"
    ensures ContentFor(r, f).PlainText? ==> "." + Extension(f) == ".txt"
  {
  }

  /** `${reportPath}.${extension}` unless `reportPath.endsWith(.${extension})`. */
  function WithSuffix(path: string, ext: string): (p: string)
    ensures EndsWith(p, "." + ext)
    ensures |p| >= |path| && p[..|path|] == path
    ensures EndsWith(path, "." + ext) ==> p == path
  {
    if EndsWith(path, "." + ext) then path else path + "." + ext
  }

  /** Adding the suffix a second time changes nothing. */
  lemma WithSuffixIdempotent(path: string, ext: string)
    ensures WithSuffix(WithSuffix(path, ext), ext) == WithSuffix(path, ext)
  {
  }

  /** The suffix is appended exactly when it is missing. */
  lemma WithSuffixAppends(path: string, ext: string)
    requires !EndsWith(path, "." + ext)
    ensures WithSuffix(path, ext) == path + "." + ext
  {
  }

  /** `new Date().toISOString().replace(/[:.]/g, "-")`. */
  function FileStamp(iso: string): (s: string)
    ensures |s| == |iso|
    ensures ':' !in s && '.' !in s
    ensures forall i :: 0 <= i < |iso| ==> s[i] == (if iso[i] == ':' || iso[i] == '.' then '-' else iso[i])
  {
    seq(|iso|, i requires 0 <= i < |iso| => if iso[i] == ':' || iso[i] == '.' then '-' else iso[i])
  }

  /** Where the report is written: a new file in a directory, or a path. */
  datatype Target = InDirectory(dir: string, fileName: string) | AtPath(path: string)

  /** `customReportPath || process.cwd()`, then the directory or suffix rule
      of lines 24-30. `isDirectory` stands for the existence and `lstat`
      check of that location. */
  function ReportTarget(custom: string, cwd: string, isDirectory: bool, iso: string, ext: string): Target {
    var base := if custom != "" then custom else cwd;
    if isDirectory then InDirectory(base, "logaway-" + FileStamp(iso) + "." + ext)
    else AtPath(WithSuffix(base, ext))
  }

  /** The report location always carries the chosen extension. A directory
      gets the file `logaway-<stamp>.<ext>`, whose stamp has no `:` or `.`; a
      path that is not a directory gets the suffix rule and stays the prefix;
      an empty custom path means the working directory. */
  lemma ReportTargetShape(custom: string, cwd: string, isDirectory: bool, iso: string, ext: string)
    ensures var t := ReportTarget(custom, cwd, isDirectory, iso, ext);
            var base := if custom != "" then custom else cwd;
            && (t.InDirectory? <==> isDirectory)
            && (t.InDirectory? ==> t.fileName == "logaway-" + FileStamp(iso) + "." + ext)
            && (t.AtPath? ==> t.path == WithSuffix(base, ext))
            && (t.InDirectory? ==> t.dir == base && EndsWith(t.fileName, "." + ext)
                                   && t.fileName[..8] == "logaway-"
                                   && ':' !in t.fileName[8..|t.fileName| - |ext| - 1]
                                   && '.' !in t.fileName[8..|t.fileName| - |ext| - 1])
            && (t.AtPath? ==> EndsWith(t.path, "." + ext) && t.path[..|base|] == base)
  {
    var t := ReportTarget(custom, cwd, isDirectory, iso, ext);
    if isDirectory {
      var stamp := FileStamp(iso);
      var name := "logaway-" + stamp + "." + ext;
      assert name[8..|name| - |ext| - 1] == stamp;
      assert name[|name| - |"." + ext|..] == "." + ext;
    }
  }

  /** The file name the report ends up under. */
  function TargetName(t: Target): string {
    match t
    case InDirectory(_, fileName) => fileName
    case AtPath(path) => path
  }

  /** Whatever the location, the report's file name ends in `.<ext>`. */
  lemma TargetCarriesExtension(custom: string, cwd: string, isDirectory: bool, iso: string, ext: string)
    ensures EndsWith(TargetName(ReportTarget(custom, cwd, isDirectory, iso, ext)), "." + ext)
  {
    ReportTargetShape(custom, cwd, isDirectory, iso, ext);
  }

  /** `generateReportFile` without the write: what is written, and where.
      The format name picks the content, read without regard to case, and
      the location is a directory exactly when `isDirectory` says so. */
  function GenerateReportFile(r: Report, format: string, custom: string, cwd: string,
                              isDirectory: bool, iso: string): (out: (Target, Content))
    ensures out.1.JsonOf? <==> ToLowerAscii(format) == "json"
    ensures out.1.CsvText? <==> ToLowerAscii(format) == "csv"
    ensures out.1.JsonOf? ==> out.1.report == r
    ensures out.1.CsvText? ==> out.1.csv == Csv.GenerateCsv(r)
    ensures out.1.PlainText? ==> out.1.text == TextReport.GenerateTextReport(r)
    ensures out.0.InDirectory? <==> isDirectory
  {
    var f := FormatOf(format);
    (ReportTarget(custom, cwd, isDirectory, iso, Extension(f)), ContentFor(r, f))
  }

  /** The file always carries the extension of the content written to it:
      `.json` for the report object, `.csv` for the CSV table, `.txt` for
      the text report. */
  lemma ContentMatchesExtension(r: Report, format: string, custom: string, cwd: string,
                                isDirectory: bool, iso: string)
    ensures var out := GenerateReportFile(r, format, custom, cwd, isDirectory, iso);
            && (out.1.JsonOf? ==> EndsWith(TargetName(out.0), ".json"))
            && (out.1.CsvText? ==> EndsWith(TargetName(out.0), ".csv"))
            && (out.1.PlainText? ==> EndsWith(TargetName(out.0), ".txt"))
  {
    var f := FormatOf(format);
    TargetCarriesExtension(custom, cwd, isDirectory, iso, Extension(f));
    ContentKind(r, f);
  }
}
