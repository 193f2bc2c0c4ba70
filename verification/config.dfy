/** Option handling of bin/logaway.js: the defaults (lines 13-24), the
    comma-list normalisation of the configuration file (lines 34-62), the
    merge of command-line options over the defaults (lines 189-205) and the
    renaming into the object handed to the remover (lines 207-218). Options
    are maps from key to value; yargs and cosmiconfig, which produce them,
    are not part of this model. */
module Config {
  import opened Text
  import opened JsValues

  type Options = map<string, JsValue>

  /** `DefaultValues`. */
  const DefaultValues: Options := map[
    "targetDir" := Str("./"),
    "extensions" := Arr([Str(".js"), Str(".jsx"), Str(".ts"), Str(".tsx")]),
    "methods" := Arr([Str("log")]),
    "reportFormat" := Str(""),
    "reportPath" := Str(""),
    "preview" := Bool(false),
    "prettier" := Bool(false),
    "verbose" := Bool(false),
    "ignoredDirs" := Arr([]),
    "ignoredFiles" := Arr([])
  ]

  // ---------------------------------------------------------------------------
  // Comma lists.

  /** `.filter(Boolean)` on strings: drops the empty ones. */
  function NonEmpty(xs: seq<string>): (r: seq<string>)
    ensures forall i :: 0 <= i < |r| ==> r[i] != []
    ensures forall x :: x in r <==> x in xs && x != []
    decreases |xs|
  {
    if xs == [] then []
    else
      var rest := NonEmpty(xs[1..]);
      assert forall x :: x in xs <==> x == xs[0] || x in xs[1..];
      if xs[0] == [] then rest else [xs[0]] + rest
  }

  /** `filter` works element by element: a one-element list is kept exactly
      when its string is non-empty, and the parts of a concatenation are
      filtered separately, so the kept strings keep their order. */
  lemma {:induction false} NonEmptyFilters(a: seq<string>, b: seq<string>, x: string)
    ensures NonEmpty([x]) == (if x == [] then [] else [x])
    ensures NonEmpty(a + b) == NonEmpty(a) + NonEmpty(b)
    decreases |a|
  {
    assert [x][1..] == [];
    if a == [] {
      assert a + b == b;
    } else {
      assert (a + b)[1..] == a[1..] + b;
      NonEmptyFilters(a[1..], b, x);
    }
  }

  /** `s.split(",").filter(Boolean)`. */
  function SplitList(s: string): (parts: seq<string>)
    ensures forall i :: 0 <= i < |parts| ==> parts[i] != [] && ',' !in parts[i]
  {
    var r := NonEmpty(SplitOn(s, ','));
    assert forall i :: 0 <= i < |r| ==> r[i] in SplitOn(s, ',');
    r
  }

  function Concat(parts: seq<string>): string
    decreases |parts|
  {
    if parts == [] then [] else parts[0] + Concat(parts[1..])
  }

  /** `s` with every `c` taken out. */
  function Without(s: string, c: char): string
    decreases |s|
  {
    if s == [] then [] else (if s[0] == c then [] else [s[0]]) + Without(s[1..], c)
  }

  lemma {:induction false} ConcatNonEmpty(xs: seq<string>)
    ensures Concat(NonEmpty(xs)) == Concat(xs)
    decreases |xs|
  {
    if xs != [] {
      ConcatNonEmpty(xs[1..]);
    }
  }

  lemma {:induction false} ConcatSplit(s: string, c: char)
    ensures Concat(SplitOn(s, c)) == Without(s, c)
    decreases |s|
  {
    if s != [] {
      ConcatSplit(s[1..], c);
      var rest := SplitOn(s[1..], c);
      if s[0] != c {
        var parts := SplitOn(s, c);
        assert parts[1..] == rest[1..];
        assert Concat(rest) == rest[0] + Concat(rest[1..]);
      } else {
        assert SplitOn(s, c)[1..] == rest;
      }
    }
  }

  /** The segments hold every character of the list text except the commas,
      in order, and none of them is empty. */
  lemma SplitListKeepsText(s: string)
    ensures Concat(SplitList(s)) == Without(s, ',')
  {
    ConcatNonEmpty(SplitOn(s, ','));
    ConcatSplit(s, ',');
  }

  lemma {:induction false} NonEmptyKeeps(xs: seq<string>)
    requires forall i :: 0 <= i < |xs| ==> xs[i] != []
    ensures NonEmpty(xs) == xs
    decreases |xs|
  {
    if xs != [] {
      NonEmptyKeeps(xs[1..]);
    }
  }

  /** Joining non-empty, comma-free names with commas and normalising gives
      the names back. */
  lemma SplitListJoin(parts: seq<string>)
    requires |parts| >= 1
    requires forall i :: 0 <= i < |parts| ==> parts[i] != [] && ',' !in parts[i]
    ensures SplitList(Join(parts, ',')) == parts
  {
    SplitJoin(parts, ',');
    NonEmptyKeeps(parts);
  }

  /** The list values as strings. */
  function Strs(xs: seq<string>): (vs: seq<JsValue>)
    ensures |vs| == |xs|
    ensures forall i :: 0 <= i < |xs| ==> vs[i] == Str(xs[i])
  {
    seq(|xs|, i requires 0 <= i < |xs| => Str(xs[i]))
  }

  /** The strings of a list of values; other values contribute nothing. */
  function Texts(vs: seq<JsValue>): seq<string>
    decreases |vs|
  {
    if vs == [] then [] else (if vs[0].Str? then [vs[0].s] else []) + Texts(vs[1..])
  }

  lemma {:induction false} TextsOfStrs(xs: seq<string>)
    ensures Texts(Strs(xs)) == xs
    decreases |xs|
  {
    if xs != [] {
      assert Strs(xs)[1..] == Strs(xs[1..]);
      TextsOfStrs(xs[1..]);
    }
  }

  /** One of the four blocks of lines 34-62: an array value stays, a
      non-empty string becomes its comma-split list, anything else stays. */
  function NormalizeList(v: JsValue): JsValue {
    if Truthy(v) && IsArray(v) then v
    else if Truthy(v) && TypeOf(v) == "string" then Arr(Strs(SplitList(v.s)))
    else v
  }

  /** Normalisation leaves every value except a non-empty string unchanged,
      turns that string into an array of non-empty, comma-free strings that
      hold its characters other than commas, in order, and is idempotent. */
  lemma NormalizeListMeaning(v: JsValue)
    ensures v.Arr? ==> NormalizeList(v) == v
    ensures !(v.Str? && v.s != "") ==> NormalizeList(v) == v
    ensures v.Str? && v.s != "" ==>
              && NormalizeList(v).Arr?
              && (forall i :: 0 <= i < |NormalizeList(v).elems| ==>
                    NormalizeList(v).elems[i].Str?
                    && NormalizeList(v).elems[i].s != []
                    && ',' !in NormalizeList(v).elems[i].s)
              && Concat(Texts(NormalizeList(v).elems)) == Without(v.s, ',')
    ensures NormalizeList(NormalizeList(v)) == NormalizeList(v)
  {
    if v.Str? && v.s != "" {
      TextsOfStrs(SplitList(v.s));
      SplitListKeepsText(v.s);
    }
  }

  /** A comma list written from non-empty, comma-free names normalises to
      exactly those names. */
  lemma NormalizeJoin(parts: seq<string>)
    requires |parts| >= 1
    requires forall i :: 0 <= i < |parts| ==> parts[i] != [] && ',' !in parts[i]
    ensures NormalizeList(Str(Join(parts, ','))) == Arr(Strs(parts))
  {
    SplitListJoin(parts);
    assert |Join(parts, ',')| >= |parts[0]|;
  }

  /** The keys the file configuration normalises. */
  const ListKeys: set<string> := {"ignoredDirs", "ignoredFiles", "extensions", "methods"}

  /** Lines 34-62 applied to the configuration file's options. */
  function NormalizeFileConfig(fc: Options): Options {
    map k | k in fc :: if k in ListKeys then NormalizeList(fc[k]) else fc[k]
  }

  /** Example from the configuration tests: `ignoredDirs: "node_modules,dist"`
      becomes `["node_modules", "dist"]`, other keys are untouched. */
  lemma NormalizeExample(fc: Options)
    requires "ignoredDirs" in fc && fc["ignoredDirs"] == Str("node_modules,dist")
    ensures NormalizeFileConfig(fc)["ignoredDirs"] == Arr([Str("node_modules"), Str("dist")])
    ensures forall k :: k in fc && k !in ListKeys ==> NormalizeFileConfig(fc)[k] == fc[k]
  {
    ExampleList();
    assert "ignoredDirs" in ListKeys;
  }

  /** `"node_modules,dist"` splits into its two names. */
  lemma ExampleList()
    ensures NormalizeList(Str("node_modules,dist")) == Arr([Str("node_modules"), Str("dist")])
  {
    var names := ["node_modules", "dist"];
    ExampleJoin();
    forall i, k | 0 <= i < |names| && 0 <= k < |names[i]| ensures names[i][k] != ',' {
    }
    SplitListJoin(names);
    assert Strs(names) == [Str("node_modules"), Str("dist")];
  }

  lemma ExampleJoin()
    ensures Join(["node_modules", "dist"], ',') == "node_modules,dist"
  {
    var names := ["node_modules", "dist"];
    assert Join(names, ',') == "node_modules" + [','] + "dist" by {
      assert names[1..] == ["dist"];
    }
    assert "node_modules" + [','] + "dist" == "node_modules,dist";
  }

  // ---------------------------------------------------------------------------
  // Merging command-line options over the defaults.

  /** Keys yargs adds for itself (`$0`) or for unmatched arguments (`_`). */
  predicate Reserved(key: string) {
    HasPrefixAt(key, 0, "$") || HasPrefixAt(key, 0, "_")
  }

  /** The filter callback of lines 192-203. */
  predicate KeepCliEntry(key: string, value: JsValue) {
    if IsArray(value) then
      var hasCliValue := ArrayHasLength(value);
      hasCliValue && !HasPrefixAt(key, 0, "$") && !HasPrefixAt(key, 0, "_")
    else
      value != Undefined && !HasPrefixAt(key, 0, "$") && !HasPrefixAt(key, 0, "_")
  }

  /** A command-line entry is kept exactly when its key is not reserved, its
      value is defined, and it is not an empty array. */
  lemma KeepCliEntryMeaning(key: string, value: JsValue)
    ensures KeepCliEntry(key, value)
            <==> !Reserved(key) && value != Undefined && value != Arr([])
  {
  }

  /** `{ ...DefaultValues, ...Object.fromEntries(kept entries) }`. */
  function MergedConfig(cli: Options): Options {
    DefaultValues + map k | k in cli && KeepCliEntry(k, cli[k]) :: cli[k]
  }

  /** The merged options are the defaults' keys and the kept keys; a kept
      entry wins, every other default survives. */
  lemma MergedConfigMeaning(cli: Options)
    ensures MergedConfig(cli).Keys == DefaultValues.Keys + set k | k in cli && KeepCliEntry(k, cli[k])
    ensures forall k :: k in cli && KeepCliEntry(k, cli[k]) ==> MergedConfig(cli)[k] == cli[k]
    ensures forall k :: k in DefaultValues && !(k in cli && KeepCliEntry(k, cli[k])) ==>
              MergedConfig(cli)[k] == DefaultValues[k]
  {
  }

  lemma DefaultKeysNotReserved()
    ensures forall k :: k in DefaultValues ==> !Reserved(k)
  {
    forall k | k in DefaultValues ensures !Reserved(k) {
      assert k[0] != '$' && k[0] != '_';
    }
  }

  /** Keys beginning with `$` or `_` never reach the merged options. */
  lemma ReservedKeysDropped(cli: Options)
    ensures forall k :: Reserved(k) ==> k !in MergedConfig(cli)
  {
    DefaultKeysNotReserved();
  }

  /** Options yargs leaves unset (`undefined`, or `[]` for the array options)
      change nothing: the merge gives the defaults. */
  lemma UnsetOptionsKeepDefaults(cli: Options)
    requires forall k :: k in cli ==> cli[k] == Undefined || cli[k] == Arr([]) || Reserved(k)
    ensures MergedConfig(cli) == DefaultValues
  {
    var kept := map k | k in cli && KeepCliEntry(k, cli[k]) :: cli[k];
    forall k | k in cli ensures !KeepCliEntry(k, cli[k]) {
      KeepCliEntryMeaning(k, cli[k]);
    }
    assert kept == map[];
  }

  // ---------------------------------------------------------------------------
  // The object handed to the remover.

  /** `configObj`. */
  datatype RunConfig = RunConfig(
    targetDir: JsValue,
    ignoredDirectories: JsValue,
    ignoredFiles: JsValue,
    fileExtensions: JsValue,
    preview: JsValue,
    verbose: JsValue,
    methods: JsValue,
    prettier: JsValue,
    reportFormat: JsValue,
    reportPath: JsValue)

  /** Property access: a missing key reads as `undefined`. */
  function Get(m: Options, key: string): JsValue {
    if key in m then m[key] else Undefined
  }

  /** Lines 207-218. */
  function ToRunConfig(m: Options): RunConfig {
    RunConfig(
      targetDir := Get(m, "targetDir"),
      ignoredDirectories := Get(m, "ignoredDirs"),
      ignoredFiles := Get(m, "ignoredFiles"),
      fileExtensions := Get(m, "extensions"),
      preview := Get(m, "preview"),
      verbose := Get(m, "verbose"),
      methods := Get(m, "methods"),
      prettier := Get(m, "prettier"),
      reportFormat := Get(m, "reportFormat"),
      reportPath := Get(m, "reportPath"))
  }

  /** The object literal of lines 207-218, keyed by its property names. */
  function ConfigObject(c: RunConfig): Options {
    map[
      "targetDir" := c.targetDir,
      "ignoredDirectories" := c.ignoredDirectories,
      "ignoredFiles" := c.ignoredFiles,
      "fileExtensions" := c.fileExtensions,
      "preview" := c.preview,
      "verbose" := c.verbose,
      "methods" := c.methods,
      "prettier" := c.prettier,
      "reportFormat" := c.reportFormat,
      "reportPath" := c.reportPath]
  }

  /** The merged options again, under their option names. */
  function FromRunConfig(c: RunConfig): Options {
    map[
      "targetDir" := c.targetDir,
      "ignoredDirs" := c.ignoredDirectories,
      "ignoredFiles" := c.ignoredFiles,
      "extensions" := c.fileExtensions,
      "preview" := c.preview,
      "verbose" := c.verbose,
      "methods" := c.methods,
      "prettier" := c.prettier,
      "reportFormat" := c.reportFormat,
      "reportPath" := c.reportPath]
  }

  /** The renaming loses nothing: every option of the merged configuration
      comes back under its own name. */
  lemma RunConfigRoundTrip(cli: Options)
    ensures FromRunConfig(ToRunConfig(MergedConfig(cli)))
            == map k | k in MergedConfig(cli) && k in DefaultValues :: MergedConfig(cli)[k]
  {
  }

  /** With nothing set on the command line the remover sees the defaults:
      the current directory, the four script extensions, `log`, and no
      ignore lists. */
  lemma DefaultRunConfig(cli: Options)
    requires forall k :: k in cli ==> cli[k] == Undefined || cli[k] == Arr([]) || Reserved(k)
    ensures ToRunConfig(MergedConfig(cli)).targetDir == Str("./")
    ensures ToRunConfig(MergedConfig(cli)).fileExtensions == Arr([Str(".js"), Str(".jsx"), Str(".ts"), Str(".tsx")])
    ensures ToRunConfig(MergedConfig(cli)).methods == Arr([Str("log")])
    ensures ToRunConfig(MergedConfig(cli)).ignoredDirectories == Arr([])
    ensures ToRunConfig(MergedConfig(cli)).ignoredFiles == Arr([])
    ensures ToRunConfig(MergedConfig(cli)).preview == Bool(false)
  {
    UnsetOptionsKeepDefaults(cli);
  }
}
