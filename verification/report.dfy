/** The report record the writers in src/generate-report-file.js consume.
    JavaScript objects keyed by method name (`methodStats`,
    `methodBreakdown`) are sequences of entries in key order, which is the
    order `Object.keys` and `Object.entries` use for names that are not
    array indices. */
module Report {
  import opened Sorting

  /** One `[method, count]` entry. */
  datatype MethodCount = MethodCount(name: string, count: nat)

  /** One `fileStats` entry of the report. */
  datatype FileEntry = FileEntry(path: string, logsRemoved: nat, methodBreakdown: seq<MethodCount>)

  datatype Summary = Summary(filesChecked: nat, filesModified: nat, totalLogsRemoved: nat, timestamp: string)

  datatype Report = Report(summary: Summary, methodStats: seq<MethodCount>, fileStats: seq<FileEntry>)

  /** `breakdown[name] || 0`: the count stored under `name`, or 0 when
      there is none. */
  function Lookup(breakdown: seq<MethodCount>, name: string): (n: nat)
    ensures (exists i :: 0 <= i < |breakdown| && breakdown[i].name == name)
            ==> exists i :: 0 <= i < |breakdown| && breakdown[i].name == name && n == breakdown[i].count
    ensures (forall i :: 0 <= i < |breakdown| ==> breakdown[i].name != name) ==> n == 0
    decreases |breakdown|
  {
    if breakdown == [] then 0
    else if breakdown[0].name == name then breakdown[0].count
    else
      var n := Lookup(breakdown[1..], name);
      assert forall i :: 1 <= i < |breakdown| ==> breakdown[i] == breakdown[1..][i - 1];
      n
  }

  /** Object keys are distinct, so the entry found is the only one. */
  ghost predicate DistinctKeys(entries: seq<MethodCount>) {
    forall i, j :: 0 <= i < j < |entries| ==> entries[i].name != entries[j].name
  }

  lemma LookupFindsEntry(breakdown: seq<MethodCount>, i: nat)
    requires DistinctKeys(breakdown) && i < |breakdown|
    ensures Lookup(breakdown, breakdown[i].name) == breakdown[i].count
  {
    var m := breakdown[i].name;
    var j :| 0 <= j < |breakdown| && breakdown[j].name == m && Lookup(breakdown, m) == breakdown[j].count;
    assert j == i;
  }

  function CountKey(e: MethodCount): int {
    e.count
  }

  function LogsKey(f: FileEntry): int {
    f.logsRemoved
  }

  /** `.filter(([_, count]) => count > 0)`. */
  function Positive(entries: seq<MethodCount>): (r: seq<MethodCount>)
    ensures forall e :: e in r <==> e in entries && e.count > 0
    ensures |r| <= |entries|
    decreases |entries|
  {
    if entries == [] then []
    else
      var rest := Positive(entries[1..]);
      assert forall e :: e in entries <==> e == entries[0] || e in entries[1..];
      if entries[0].count > 0 then [entries[0]] + rest else rest
  }

  /** `filter` works element by element: it keeps a one-entry list exactly
      when the count is positive, and filters the parts of a concatenation
      separately, so it keeps the kept entries in their order. */
  lemma {:induction false} PositiveFilters(a: seq<MethodCount>, b: seq<MethodCount>, e: MethodCount)
    ensures Positive([e]) == (if e.count > 0 then [e] else [])
    ensures Positive(a + b) == Positive(a) + Positive(b)
    decreases |a|
  {
    assert [e][1..] == [];
    if a == [] {
      assert a + b == b;
    } else {
      assert (a + b)[1..] == a[1..] + b;
      PositiveFilters(a[1..], b, e);
    }
  }

  /** The entries with a given positive count appear in the filtered list
      exactly as in the original, in the same order; no other count does. */
  lemma {:induction false} PositiveByCount(entries: seq<MethodCount>, c: int)
    ensures c > 0 ==> WithKey(Positive(entries), CountKey, c) == WithKey(entries, CountKey, c)
    ensures c <= 0 ==> WithKey(Positive(entries), CountKey, c) == []
    decreases |entries|
  {
    if entries != [] {
      var init := entries[..|entries| - 1];
      var last := entries[|entries| - 1];
      assert entries == init + [last];
      PositiveFilters(init, [last], last);
      PositiveByCount(init, c);
      WithKeyAppend(Positive(init), Positive([last]), CountKey, c);
      WithKeySingle(last, CountKey, c);
    }
  }

  /** A breakdown as the text report lists it: the entries with a positive
      count, largest first, ties in key order. */
  function Ranked(entries: seq<MethodCount>): seq<MethodCount> {
    SortDesc(Positive(entries), CountKey)
  }

  /** The ranked list holds exactly the entries with a positive count, in
      non-increasing order of count, and lists the entries of each count in
      their key order in `entries`. */
  lemma RankedBreakdown(entries: seq<MethodCount>, c: int)
    ensures forall e :: e in Ranked(entries) <==> e in entries && e.count > 0
    ensures forall i, j :: 0 <= i < j < |Ranked(entries)| ==> Ranked(entries)[i].count >= Ranked(entries)[j].count
    ensures multiset(Ranked(entries)) == multiset(Positive(entries))
    ensures WithKey(Ranked(entries), CountKey, c) == WithKey(Positive(entries), CountKey, c)
    ensures c > 0 ==> WithKey(Ranked(entries), CountKey, c) == WithKey(entries, CountKey, c)
    ensures c <= 0 ==> WithKey(Ranked(entries), CountKey, c) == []
  {
    SortDescCorrect(Positive(entries), CountKey);
    SortDescStable(Positive(entries), CountKey, c);
    PositiveByCount(entries, c);
    var r := Ranked(entries);
    forall e ensures e in r <==> e in Positive(entries) {
      assert e in r <==> e in multiset(r);
    }
    forall i, j | 0 <= i < j < |r| ensures r[i].count >= r[j].count {
      assert CountKey(r[i]) >= CountKey(r[j]);
    }
  }

  /** The files as the text report lists them: a sorted copy, largest count
      first, ties in `fileStats` order. */
  function SortedFiles(files: seq<FileEntry>): seq<FileEntry> {
    SortDesc(files, LogsKey)
  }

  /** The sorted copy is a permutation of the files in non-increasing order
      of `logsRemoved`, stable among equal counts. */
  lemma SortedFilesListing(files: seq<FileEntry>, c: int)
    ensures multiset(SortedFiles(files)) == multiset(files)
    ensures |SortedFiles(files)| == |files|
    ensures forall i, j :: 0 <= i < j < |SortedFiles(files)| ==> SortedFiles(files)[i].logsRemoved >= SortedFiles(files)[j].logsRemoved
    ensures WithKey(SortedFiles(files), LogsKey, c) == WithKey(files, LogsKey, c)
  {
    SortDescCorrect(files, LogsKey);
    SortDescStable(files, LogsKey, c);
    var r := SortedFiles(files);
    forall i, j | 0 <= i < j < |r| ensures r[i].logsRemoved >= r[j].logsRemoved {
      assert LogsKey(r[i]) >= LogsKey(r[j]);
    }
  }
}
