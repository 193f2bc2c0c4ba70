# logaway in Dafny

A model of the core of `logaway`, a command-line tool that strips
`console.log(...)` statements from JavaScript and TypeScript sources and
writes a report of what it removed. The model covers these parts.

- **The statement pattern of `src/index.js`.** The `/g` regular expression
  `((\/\/)?\s*console\.log\((?:[^()]+|\((?:[^()]+|\([^()]*\))*\))*\);?)`
  becomes a deterministic scanner (`Matcher`). The scanner takes the
  method name `m` as a parameter; the shipped code is the instance
  `m = "log"`. A declarative reference grammar (`Matcher.Parts`,
  `Matcher.StatementShape`) describes a statement as:
  - an optional `//`;
  - whitespace;
  - `console.<m>(`;
  - an argument run whose parens balance and nest at most two groups deep;
  - `)` and an optional `;`.

  The scanner is proved to find exactly the longest such statement.
- **`match` and `replace`.** `match(regex)` and `replace(regex, "")` become a
  leftmost-first, non-overlapping scan (`Remover`).
- **The statistics fold of `removeConsoleLogs`** (`Statistics`). It runs over
  the already-filtered `(relative path, content)` pairs the directory walk
  visits.
- **The report writers of `src/generate-report-file.js`** (`Csv`,
  `TextReport`, `ReportFile`). They are pure functions over the report record
  (`Report`). Their stable descending sort is in `Sorting`.
- **Option handling of `bin/logaway.js`** (`Config`, `Cli`): the defaults,
  the comma-list normalisation, the merge of command-line options over the
  defaults, and the renamed object handed to the remover. The predicates of
  `src/utils.js` over JavaScript values are in `JsValues`.

`Vectors` evaluates the scanner on statements from the repository's fixture,
`tests/test-cases.js`, and on edge cases.

Modelling choices:
- Strings are `seq<char>`.
- JavaScript objects keyed by method name are sequences of
  `(name, count)` entries in key order.
- The directory walk, the clock, `lstat` and the file system are inputs.

### Where the intended behaviour and the code differ

The model follows the code in each case below.

- **Idempotence.** Removal is not a fixed point: a second pass can find
  statements the first pass did not. `Vectors.RemovalNotIdempotent` exhibits
  the text `console.loconsole.log()g()`:
  - one pass removes the inner statement and leaves `console.log()`;
  - a second pass would count and remove that statement.
- **Preview mode.** Preview mode is meant to write no files.
  - `bin/logaway.js:207-218` passes `preview` to the remover.
  - `removeConsoleLogs` reads `dryRun` (`src/index.js:14`), which that object
    never has.
  - So every file with a match is written even under `--preview`.
    `Cli.PreviewStillWrites` states this.
- **String literals.** The pattern does not know string literals: a paren
  inside a string argument counts like any other, as
  `Vectors.ParenInString` shows.

## Model

| member | source | states |
|---|---|---|
| Matcher.SkipSpace | src/index.js:5 | `\s*` consumes the whole whitespace run at a position (ECMAScript whitespace and line terminators) and stops at the first other character |
| Matcher.ScanRunExact | src/index.js:5 | the argument scanner stops at `j` exactly when, from `k` on, the paren depth stays between 0 and the allowed nesting and first drops below 0 at the `)` at `j`: the argument part of the pattern followed by `)` matches that stretch |
| Matcher.MatchAtSound | src/index.js:4-5 | every match the scanner reports is a statement of the reference grammar: optional `//`, whitespace, `console.<m>(`, a balanced run nesting at most two deep, `)`, optional `;` |
| Matcher.MatchAtComplete | src/index.js:4-5 | whenever a statement of the grammar starts at a position, the scanner matches there and reaches at least as far |
| Matcher.MatchAtExact | src/index.js:4-5 | the scanner's match at a position is exactly the longest statement of the grammar starting there, and there is none when it reports none |
| Matcher.SlashFallbackFails | src/index.js:5 | at a `/` the alternative without `//` can never match, so the engine's order of alternatives does not matter |
| Matcher.NameBoundary | src/index.js:5 | every match, after its optional `//` and leading whitespace, continues with `console.<m>` followed immediately by `(` inside the match, so a longer identifier such as `console.logger` never matches |
| Remover.Spans | src/index.js:49-50 | the reported matches are non-empty, left to right, non-overlapping and within the text |
| Remover.SpansAreStatements | src/index.js:49-50 | each reported span is the scanner's match at its start, a statement of the reference grammar, and the longest statement starting there (the regex engine's greedy choice) |
| Remover.KeptPositionsDoNotMatch | src/index.js:49-54 | leftmost-first: no statement of the grammar starts at any position that lies outside every span |
| Remover.StripDeletesSpans | src/index.js:54 | `replace` deletes exactly the spans `match` reports and keeps every other character in order |
| Remover.CountMatchesRemoval | src/index.js:49-54 | the count is the number of deleted spans; the output's length is the input's minus the covered characters; nothing is removed exactly when the count is 0 |
| Remover.SpaceJoinsCall | src/index.js:5 | whitespace in front of a plain call belongs to the same match |
| Remover.PlainSpanTakesLeadingSpace | src/index.js:5 | a span without `//` never leaves a whitespace character directly before it: the leading whitespace run, newlines included, is deleted with the call |
| Remover.NoMatchAtPlain | src/index.js:5 | no match starts at a character other than `c`, `/` or whitespace |
| Remover.PlainStretchSpans | src/index.js:49-50 | a stretch of such characters holds no span |
| Remover.PlainStretchStrip | src/index.js:54 | `replace` keeps such a stretch unchanged |
| Statistics.RunConsistent | src/index.js:43-77 | after the fold `filesChecked` is the number of files, `fileStats` lists exactly the files with a match in visiting order, `filesModified` is their number, `totalLogsRemoved` is the sum of their counts, and the writes are the edited texts of those files unless it is a dry run |
| Statistics.TouchedPositive | src/index.js:53-61 | every `fileStats` entry records a positive count |
| Statistics.TouchedBounds | src/index.js:53-76 | no more files are recorded than visited, and the recorded counts add up to at least the number of recorded files |
| Statistics.StatsBounds | src/index.js:87-92 | the returned counters satisfy `filesModified <= filesChecked` and `filesModified <= totalLogsRemoved` |
| Statistics.DryRunOnlyGatesWrites | src/index.js:71-76 | the statistics are the same with and without a dry run, and a dry run writes nothing |
| Statistics.UntouchedFile | src/index.js:43-53 | a file without a match only increments `filesChecked` |
| Cli.DryRunOf | bin/logaway.js:207-218 | reading `dryRun` from the object handed to the remover, keyed by that object's own property names, yields `undefined`, a falsy value, whatever the options |
| Cli.PreviewStillWrites | bin/logaway.js:259 | with `preview` set to true the object handed over says so, yet the remover writes every edited file, exactly as in a normal run |
| Vectors.OneStatement | src/index.js:49-54 | a text whose only possible match is `t[p..e]` (no match at the start, nothing before or after that can begin one) counts one statement, and the removal leaves `t[..p] + t[e..]` |
| Vectors.NoStatement | src/index.js:49-54 | a text with no match at its start and no character after it that can begin one counts nothing and is returned unchanged |
| Vectors.PlainArgument | tests/test-cases.js:3 | `console.log(userId);` counts once and is removed entirely |
| Vectors.NestedCall | tests/test-cases.js:9 | a call nested inside the arguments is one statement, removed entirely |
| Vectors.MultiLineStatement | tests/test-cases.js:10-12 | the fixture's three-line `console.log(` with a template-literal argument holding `${...}` and quotes is one statement, counted once and removed entirely |
| Vectors.CommentedOut | tests/test-cases.js:20 | a commented-out statement is removed together with its `//` |
| Vectors.EmptyArguments | tests/test-cases.js:45 | `console.log();` counts once and is removed entirely |
| Vectors.IndentedStatement | src/index.js:5 | the line break and indentation before a statement are removed with it |
| Vectors.TooDeep | src/index.js:5 | arguments nesting three groups deep produce no match at all: count 0, text unchanged |
| Vectors.LongerName | src/index.js:5 | `console.logger(x);` is not counted and is kept |
| Vectors.ParenInString | src/index.js:5 | a `)` inside a string argument ends the statement early and the rest stays behind |
| Vectors.RemovalNotIdempotent | src/index.js:49-54 | one pass over `console.loconsole.log()g()` leaves `console.log()`, which a second pass would count again |
| Text.NatToStringRoundTrip | src/generate-report-file.js:91 | the decimal text of a count written by a template literal reads back as the same number |
| Sorting.SortDescCorrect | src/generate-report-file.js:59-61 | the comparator sort `b - a` yields a permutation in non-increasing key order |
| Sorting.SortDescStable | src/generate-report-file.js:59-61 | the sort is stable: entries with equal keys keep their relative order |
| Report.Lookup | src/generate-report-file.js:95 | reading a method's count from a breakdown, with 0 as the fallback, gives the count stored under that name, or 0 when the name is absent |
| Report.LookupFindsEntry | src/generate-report-file.js:95 | with distinct keys the lookup returns the entry's own count |
| Report.Positive | src/generate-report-file.js:49 | the filter keeps exactly the entries with a positive count and never grows the list |
| Report.PositiveFilters | src/generate-report-file.js:49 | the filter keeps a single entry exactly when its count is positive and distributes over concatenation, so it keeps the kept entries in their original order |
| Report.PositiveByCount | src/generate-report-file.js:49 | for a positive count `c` the entries with count `c` after the filter are exactly those of the input, in the same order; for any other `c` there are none |
| Report.RankedBreakdown | src/generate-report-file.js:48-53 | a ranked breakdown is a permutation of the entries with a positive count, in non-increasing order of count; for every positive count `c` its entries with count `c` are those of `methodStats` in key order, and it holds no entry with a count of 0 or less |
| Report.SortedFilesListing | src/generate-report-file.js:59-61 | the sorted copy of `fileStats` is a permutation in non-increasing order of `logsRemoved`, ties in original order |
| Csv.CsvRoundTrip | src/generate-report-file.js:79-108 | reading the CSV back, a `"`-delimited field without its quotes, gives the header, one row per file in `fileStats` order with its path as written (commas included), then the total row |
| Csv.CsvDimensions | src/generate-report-file.js:90-105 | the CSV has two more lines than there are files, and every line has two more fields than there are `methodStats` keys |
| Csv.CsvHeader | src/generate-report-file.js:81-87 | whatever the paths hold, the first line reads as `File`, `Total Logs Removed`, then `console.<name>` per `methodStats` key in key order |
| Csv.CsvFileRow | src/generate-report-file.js:90-98 | row `i + 1` is file `i`: its path as written, its total, then per `methodStats` key the breakdown's count for that method, `0` when the breakdown lacks it |
| Csv.CsvTotalRow | src/generate-report-file.js:101-105 | whatever the paths hold, the last line reads as `TOTAL`, the summary total, then each `methodStats` count in key order; with safe paths it is line `|fileStats| + 1` |
| TextReport.TextReportLines | src/generate-report-file.js:36-77 | split at newlines the text report is exactly its list of lines followed by the empty segment after the final newline |
| TextReport.ReportLinesLayout | src/generate-report-file.js:36-77 | the lines are the title, the summary block, the method heading, the ranked breakdown, a blank line, the files heading and the blocks of the sorted files |
| TextReport.TextReportSummary | src/generate-report-file.js:37-47 | lines 0-8 carry the title, the summary heading, the three counters, the timestamp and the method heading |
| TextReport.TextReportBreakdown | src/generate-report-file.js:47-74 | from line 9 on there is one `console.<name>: <count>` line per ranked entry, then the files heading, then the file blocks in sorted order |
| ReportFile.ToLowerAscii | src/generate-report-file.js:10 | lower-casing keeps the length and maps exactly the capital letters to small ones |
| ReportFile.FormatIgnoresCase | src/generate-report-file.js:10-22 | format names that lower-case alike choose the same serialiser and extension |
| ReportFile.FormatChoices | src/generate-report-file.js:10-22 | for every format name: the extension is `json` exactly when the name lower-cases to `json`, `csv` exactly when it lower-cases to `csv`, and `txt` exactly when it lower-cases to neither |
| ReportFile.FormatExamples | src/generate-report-file.js:10-22 | `json`, `JSON`, `csv` and `CsV` choose their own extension; the empty name and `text` choose `txt` |
| ReportFile.WithSuffix | src/generate-report-file.js:28-30 | the path ends in `.<ext>`, keeps the original path as its prefix, and is unchanged when it already had the suffix |
| ReportFile.WithSuffixIdempotent | src/generate-report-file.js:28-30 | applying the suffix rule twice is applying it once |
| ReportFile.WithSuffixAppends | src/generate-report-file.js:28-30 | a path without the suffix gets `.<ext>` appended |
| ReportFile.FileStamp | src/generate-report-file.js:26 | the timestamp keeps its length, has no `:` or `.`, and every other character is kept |
| ReportFile.ReportTargetShape | src/generate-report-file.js:24-30 | the target is a directory exactly when the location is one; a directory gets the file `"logaway-" + FileStamp(iso) + "." + ext` in it, free of `:` and `.` in the stamp; any other location is `WithSuffix` of the path, which ends in `.<ext>` and starts with the path; an empty custom path means the working directory |
| ReportFile.TargetCarriesExtension | src/generate-report-file.js:24-30 | wherever the report goes, its file name ends in `.<ext>` |
| ReportFile.GenerateReportFile | src/generate-report-file.js:4-30 | the format picks JSON or CSV case-insensitively and otherwise the text report; the location is a directory exactly when the path names one |
| ReportFile.ContentMatchesExtension | src/generate-report-file.js:10-30 | the file carries the extension of the content written to it: `.json` for the report object, `.csv` for the CSV, `.txt` for the text report |
| JsValues.IsUndefined | src/utils.js:1-3 | holds exactly for `undefined` |
| JsValues.IsEmptyArray | src/utils.js:9-12 | true for every non-array value; for an array, true exactly when it has no elements |
| JsValues.ArrayHasLength | src/utils.js:14-16 | holds exactly for arrays with at least one element |
| Config.NonEmpty | bin/logaway.js:40 | `.filter(Boolean)` keeps exactly the non-empty strings |
| Config.NonEmptyFilters | bin/logaway.js:40 | the filter keeps a single string exactly when it is non-empty and distributes over concatenation, so the kept strings stay in their original order |
| Config.SplitList | bin/logaway.js:40 | every segment of a split comma list is non-empty and comma-free |
| Config.SplitListKeepsText | bin/logaway.js:40 | the segments together hold every character of the list text except the commas, in order |
| Config.SplitListJoin | bin/logaway.js:36-41 | joining non-empty, comma-free names with commas and normalising gives the names back |
| Config.NormalizeListMeaning | bin/logaway.js:34-62 | normalisation turns a non-empty string into an array of non-empty, comma-free strings that together spell the string with its commas removed; it leaves arrays and every other value unchanged, and is idempotent |
| Config.NormalizeJoin | bin/logaway.js:36-41 | a non-empty string made of non-empty, comma-free names joined with commas normalises to exactly the array of those names |
| Config.NormalizeExample | tests/config.test.js:125-140 | `ignoredDirs: "node_modules,dist"` becomes `["node_modules", "dist"]` and keys other than the four list keys are untouched |
| Config.KeepCliEntryMeaning | bin/logaway.js:192-203 | a command-line entry is kept exactly when its key does not start with `$` or `_`, its value is defined, and it is not an empty array |
| Config.MergedConfigMeaning | bin/logaway.js:189-205 | the merged keys are the defaults' plus the kept ones; a kept entry wins and every other default survives |
| Config.ReservedKeysDropped | bin/logaway.js:192-203 | keys starting with `$` or `_` never reach the merged options |
| Config.UnsetOptionsKeepDefaults | bin/logaway.js:189-205 | options left `undefined` or `[]` leave the defaults exactly as they are |
| Config.DefaultRunConfig | bin/logaway.js:13-24 | with nothing set the remover sees `./`, the four script extensions, `log`, empty ignore lists and preview off |
| Config.RunConfigRoundTrip | bin/logaway.js:207-218 | the renaming into the remover's object loses nothing: mapping the fields back gives every default key's merged value |

## Left out

- The directory walk and the extension and ignore filters
  (`src/index.js:24-41`), plus reading and writing files. The fold takes the
  visited files as a sequence of `(relative path, content)` pairs, and writes
  are values in the result.
- The error paths of the walk (`src/index.js:26-28, 80-82`). They concern the
  file system only.
- Per-method passes, `methodStats` and `methodBreakdown` production.
  `removeConsoleLogs` (`src/index.js:43-77`) hardcodes `log` and returns only
  the four statistics.
  The report writers take `methodStats` and `methodBreakdown` as given.
- `printSummary` (`src/index.js:95-129`, `src/print-summary.js`). It only
  writes to the console.
- The version checker (`bin/version-checker.js`). It is networking.
- yargs and cosmiconfig parsing, the `init` command and the `process.exit`
  paths of `bin/logaway.js`. The command-line options are a given map. The
  configuration file reaches the merge only through yargs' `.config(...)`, so
  its normalisation is modelled on its own (`Config.NormalizeFileConfig`).
- `JSON.stringify`, the clock and `lstat` in `generateReportFile`. JSON
  content is the report value itself; the ISO timestamp and "is a directory"
  are inputs.
- Regex performance, including catastrophic backtracking. Only the match
  semantics are modelled.
- The whole fixture of `tests/test-cases.js` as one text. It is too long to
  evaluate inside the verifier; `Vectors` evaluates representative lines of it
  one at a time.
- `toLowerCase` beyond ASCII letters. No other character lower-cases to a
  letter of `json` or `csv`.
- Non-integer numbers in option values. `JsValues.Num` holds integers.
- The order `Object.keys` gives to integer-like keys. Method names are
  identifiers, so key order is insertion order.
- Csv.CsvRoundTrip, Csv.CsvDimensions, Csv.CsvFileRow: hold when no path
  contains a double quote or a newline and no method name a comma or a
  newline. The writer wraps paths in quotes without escaping and writes
  method names bare, so such a character changes how the text splits into
  lines or fields.
- Csv.CsvHeader: holds when no method name contains a comma or a newline.
- Csv.CsvTotalRow: its line count holds under the same assumption as the
  round trip.
- TextReport.TextReportLines, TextReport.TextReportSummary,
  TextReport.TextReportBreakdown: hold when no path, method name or timestamp
  contains a newline.
- The verbose per-file `console.info` line (`src/index.js:63-69`). It only
  writes to the console.
- Objects as option values. `JsValues.JsValue` has no object case, since no
  option the merge or the normalisation inspects is an object.
- A report format that is not a string. `format.toLowerCase()`
  (`src/generate-report-file.js:10`) throws on one; the model's format is
  always a string.
- Inherited property names in `file.methodBreakdown[method] || 0`
  (`src/generate-report-file.js:95`). A method named like a property of
  `Object.prototype`, such as `constructor`, reads the inherited value there;
  `Report.Lookup` falls back to 0.
