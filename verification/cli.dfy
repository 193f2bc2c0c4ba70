/** The hand-over at bin/logaway.js:259: the object built from the merged
    options is passed to `removeConsoleLogs`, which reads its dry-run flag
    from a `dryRun` property (src/index.js:9-16). */
module Cli {
  import opened JsValues
  import opened Config
  import opened Statistics

  /** `const { dryRun } = config` on the object of lines 207-218: that object
      has a `preview` property but no `dryRun` one, so the destructured value
      is `undefined` whatever the options say. */
  function DryRunOf(c: RunConfig): (v: JsValue)
    ensures v == Undefined && !Truthy(v)
  {
    Get(ConfigObject(c), "dryRun")
  }

  /** `removeConsoleLogs(configObj)` over the files the walk visits. */
  function RunWith(cli: Options, files: seq<SourceFile>): Run {
    RemoveConsoleLogs(files, Truthy(DryRunOf(ToRunConfig(MergedConfig(cli)))))
  }

  /** Preview mode does not reach the remover: even with `preview` set to
      `true` every file with a match is written back, exactly as in a normal
      run. */
  lemma PreviewStillWrites(cli: Options, files: seq<SourceFile>)
    requires "preview" in cli && cli["preview"] == Bool(true)
    ensures ToRunConfig(MergedConfig(cli)).preview == Bool(true)
    ensures RunWith(cli, files).writes == Edits(files)
    ensures RunWith(cli, files) == RemoveConsoleLogs(files, false)
  {
    assert "preview"[0..1] == "p";
    assert KeepCliEntry("preview", Bool(true));
    RunConsistent(files, false);
  }
}
