/** The per-file step and the statistics of `removeConsoleLogs`
    (src/index.js:43-77, 87-92), as a fold over the files the directory walk
    hands over, already filtered by extension and ignore lists.
    `removeConsoleLogs` hardcodes the pattern for `console.log`
    (src/index.js:4-5). */
module Statistics {
  import opened Remover

  /** The method name the pattern of src/index.js:4-5 is written for. */
  const LogMethod: string := "log"

  /** A visited file: its path relative to the target directory and its text. */
  datatype SourceFile = SourceFile(path: string, content: string)

  /** One entry of `fileStats`. */
  datatype FileStat = FileStat(path: string, logsRemoved: nat)

  /** The record `removeConsoleLogs` returns. */
  datatype Stats = Stats(filesChecked: nat, filesModified: nat, totalLogsRemoved: nat, fileStats: seq<FileStat>)

  /** A `writeFileSync` of the edited text. */
  datatype Write = Write(path: string, content: string)

  /** The statistics together with the writes performed so far. */
  datatype Run = Run(stats: Stats, writes: seq<Write>)

  const EmptyRun: Run := Run(Stats(0, 0, 0, []), [])

  /** Sum of `logsRemoved` over a `fileStats` list. */
  function SumLogs(fs: seq<FileStat>): nat
    decreases |fs|
  {
    if fs == [] then 0 else SumLogs(fs[..|fs| - 1]) + fs[|fs| - 1].logsRemoved
  }

  /** Visiting one file: count, and if anything matched, record the file,
      and write the edited text unless this is a dry run. */
  function Visit(run: Run, f: SourceFile, dryRun: bool): Run {
    var count := Count(f.content, LogMethod);
    var st := run.stats;
    if count > 0 then
      var updated := Remove(f.content, LogMethod);
      Run(Stats(st.filesChecked + 1, st.filesModified + 1, st.totalLogsRemoved + count,
                st.fileStats + [FileStat(f.path, count)]),
          if dryRun then run.writes else run.writes + [Write(f.path, updated)])
    else
      Run(Stats(st.filesChecked + 1, st.filesModified, st.totalLogsRemoved, st.fileStats), run.writes)
  }

  /** `removeConsoleLogs` over the files in visiting order. */
  function RemoveConsoleLogs(files: seq<SourceFile>, dryRun: bool): Run
    decreases |files|
  {
    if files == [] then EmptyRun
    else Visit(RemoveConsoleLogs(files[..|files| - 1], dryRun), files[|files| - 1], dryRun)
  }

  // ---------------------------------------------------------------------------
  // Reference definitions: what the statistics should be, file by file.

  /** The `fileStats` entries the files should produce: one per file with a
      match, in visiting order. */
  function Touched(files: seq<SourceFile>): seq<FileStat>
    decreases |files|
  {
    if files == [] then []
    else
      var f := files[|files| - 1];
      var n := Count(f.content, LogMethod);
      Touched(files[..|files| - 1]) + (if n > 0 then [FileStat(f.path, n)] else [])
  }

  /** The writes a real run should perform: the edited text of every file
      with a match, in visiting order. */
  function Edits(files: seq<SourceFile>): seq<Write>
    decreases |files|
  {
    if files == [] then []
    else
      var f := files[|files| - 1];
      Edits(files[..|files| - 1])
        + (if Count(f.content, LogMethod) > 0 then [Write(f.path, Remove(f.content, LogMethod))] else [])
  }

  /** What one visit adds: the statistics follow the reference definitions and
      every recorded file has at least one match. */
  ghost predicate Consistent(run: Run, files: seq<SourceFile>, dryRun: bool) {
    && run.stats.filesChecked == |files|
    && run.stats.fileStats == Touched(files)
    && run.stats.filesModified == |run.stats.fileStats|
    && run.stats.totalLogsRemoved == SumLogs(run.stats.fileStats)
    && run.writes == (if dryRun then [] else Edits(files))
  }

  /** The fold keeps the statistics consistent: `filesChecked` counts every
      file, `fileStats` holds exactly the files with a match in order,
      `filesModified` is their number, `totalLogsRemoved` is the sum of their
      counts, and the writes are the edited texts unless this is a dry run. */
  lemma {:induction false} RunConsistent(files: seq<SourceFile>, dryRun: bool)
    ensures Consistent(RemoveConsoleLogs(files, dryRun), files, dryRun)
    decreases |files|
  {
    if files != [] {
      var init := files[..|files| - 1];
      RunConsistent(init, dryRun);
      var f := files[|files| - 1];
      var n := Count(f.content, LogMethod);
      var prev := RemoveConsoleLogs(init, dryRun).stats.fileStats;
      if n > 0 {
        var cur := prev + [FileStat(f.path, n)];
        assert cur[..|cur| - 1] == prev;
      }
    }
  }

  /** Every `fileStats` entry has a positive count. */
  lemma {:induction false} TouchedPositive(files: seq<SourceFile>)
    ensures forall i :: 0 <= i < |Touched(files)| ==> Touched(files)[i].logsRemoved > 0
    decreases |files|
  {
    if files != [] {
      TouchedPositive(files[..|files| - 1]);
    }
  }

  /** No more files are modified than checked, and every modified file
      removed at least one statement. */
  lemma {:induction false} TouchedBounds(files: seq<SourceFile>)
    ensures |Touched(files)| <= |files|
    ensures |Touched(files)| <= SumLogs(Touched(files))
    decreases |files|
  {
    if files != [] {
      var init := files[..|files| - 1];
      TouchedBounds(init);
      var f := files[|files| - 1];
      var n := Count(f.content, LogMethod);
      if n > 0 {
        var cur := Touched(init) + [FileStat(f.path, n)];
        assert Touched(files) == cur;
        assert cur[..|cur| - 1] == Touched(init);
        assert SumLogs(cur) == SumLogs(Touched(init)) + n;
      } else {
        assert Touched(files) == Touched(init) + [];
        assert Touched(init) + [] == Touched(init);
      }
    }
  }

  /** The returned counters satisfy
      `filesModified <= filesChecked` and `filesModified <= totalLogsRemoved`. */
  lemma StatsBounds(files: seq<SourceFile>, dryRun: bool)
    ensures var st := RemoveConsoleLogs(files, dryRun).stats;
            st.filesModified <= st.filesChecked && st.filesModified <= st.totalLogsRemoved
  {
    RunConsistent(files, dryRun);
    TouchedBounds(files);
  }

  /** The statistics do not depend on the dry-run flag; it only gates the
      writes. */
  lemma {:induction false} DryRunOnlyGatesWrites(files: seq<SourceFile>)
    ensures RemoveConsoleLogs(files, true).stats == RemoveConsoleLogs(files, false).stats
    ensures RemoveConsoleLogs(files, true).writes == []
    decreases |files|
  {
    if files != [] {
      DryRunOnlyGatesWrites(files[..|files| - 1]);
    }
  }

  /** A file without a match changes nothing but `filesChecked`. */
  lemma UntouchedFile(run: Run, f: SourceFile, dryRun: bool)
    requires Count(f.content, LogMethod) == 0
    ensures Visit(run, f, dryRun).stats.filesChecked == run.stats.filesChecked + 1
    ensures Visit(run, f, dryRun).stats.filesModified == run.stats.filesModified
    ensures Visit(run, f, dryRun).stats.totalLogsRemoved == run.stats.totalLogsRemoved
    ensures Visit(run, f, dryRun).stats.fileStats == run.stats.fileStats
    ensures Visit(run, f, dryRun).writes == run.writes
  {
  }
}
