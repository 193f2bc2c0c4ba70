/** The statement matcher of src/index.js:4-5: the regular expression
      ((\/\/)?\s*console\.<m>\((?:[^()]+|\((?:[^()]+|\([^()]*\))*\))*\);?)
    read as a grammar and implemented as a deterministic scanner over the text.

    The pattern admits exactly one way to match at a given position, so the
    scanner below reproduces the backtracking engine's choice:
    - the optional `//` is tried first; without it the pattern needs
      whitespace or `c` where the text has `/`, so the fallback never matches;
    - `\s*` is followed by `c`, which is not whitespace, so only the maximal
      whitespace run can be followed by `console`;
    - the argument run cannot cross a `)` at its own level and each group
      closes at its matching `)`, so there is exactly one place where the
      call's closing `)` can be;
    - `;?` is greedy and nothing follows it.

    The method name `m` is a parameter; src/index.js uses `m = "log"`. */
module Matcher {
  import opened Wrappers
  import opened Text

  /** Characters matched by `\s` in an ECMAScript regular expression:
      WhiteSpace and LineTerminator code points. */
  predicate IsSpace(c: char) {
    || c == '\t' || c == '\n' || c == '\U{B}' || c == '\U{C}' || c == '\r'
    || c == ' ' || c == '\U{A0}' || c == '\U{1680}'
    || ('\U{2000}' <= c <= '\U{200A}')
    || c == '\U{2028}' || c == '\U{2029}' || c == '\U{202F}' || c == '\U{205F}'
    || c == '\U{3000}' || c == '\U{FEFF}'
  }

  /** Every character of `t[a..b]` is whitespace. */
  ghost predicate AllSpace(t: string, a: nat, b: nat)
    requires a <= b <= |t|
  {
    forall i :: a <= i < b ==> IsSpace(t[i])
  }

  /** The text the pattern requires literally: `console.<m>(`. */
  function Head(m: string): string {
    "console." + m + "("
  }

  /** `\s*` at `q`: the end of the whitespace run starting there. */
  function SkipSpace(t: string, q: nat): (w: nat)
    requires q <= |t|
    ensures q <= w <= |t|
    ensures AllSpace(t, q, w)
    ensures w == |t| || !IsSpace(t[w])
    decreases |t| - q
  {
    if q < |t| && IsSpace(t[q]) then SkipSpace(t, q + 1) else q
  }

  // ---------------------------------------------------------------------------
  // Reference definition of a balanced argument run: the paren-depth profile.

  function Delta(c: char): int {
    if c == '(' then 1 else if c == ')' then -1 else 0
  }

  /** Opened minus closed parentheses in `t[k..j]`. */
  function Depth(t: string, k: nat, j: nat): int
    requires k <= j <= |t|
    decreases j - k
  {
    if j == k then 0 else Depth(t, k, j - 1) + Delta(t[j - 1])
  }

  /** `t[k..j]` is balanced, never nests deeper than `d`, and the `)` at `j`
      closes the level the run started at. */
  ghost predicate Closes(t: string, k: nat, j: nat, d: nat) {
    && k <= j < |t|
    && t[j] == ')'
    && Depth(t, k, j) == 0
    && forall i :: k <= i <= j ==> 0 <= Depth(t, k, i) <= d
  }

  lemma {:induction false} DepthSplit(t: string, k: nat, m: nat, j: nat)
    requires k <= m <= j <= |t|
    ensures Depth(t, k, j) == Depth(t, k, m) + Depth(t, m, j)
    decreases j - m
  {
    if j > m {
      DepthSplit(t, k, m, j - 1);
    }
  }

  /** Just past its closing paren a run is one level below where it started. */
  lemma ClosesDrop(t: string, k: nat, j: nat, d: nat)
    requires Closes(t, k, j, d)
    ensures Depth(t, k, j + 1) == -1
  {
  }

  /** At most one `)` closes a run that starts at `k`. */
  lemma ClosesUnique(t: string, k: nat, j1: nat, j2: nat, d1: nat, d2: nat)
    requires Closes(t, k, j1, d1) && Closes(t, k, j2, d2)
    ensures j1 == j2
  {
    ClosesDrop(t, k, j1, d1);
    ClosesDrop(t, k, j2, d2);
  }

  // ---------------------------------------------------------------------------
  // The scanner.

  /** The argument run of the pattern with `d` further levels of groups
      allowed: non-paren characters and groups, up to the `)` closing the
      current level. `d = 2` is the call's argument list, `d = 1` the inside of
      a group `\((?:[^()]+|\([^()]*\))*\)`, `d = 0` the inside of `\([^()]*\)`.
      None when the text ends first or a `(` would nest deeper than allowed. */
  function ScanRun(t: string, k: nat, d: nat): (r: Option<nat>)
    requires k <= |t|
    ensures r.Some? ==> k <= r.value < |t| && t[r.value] == ')'
    decreases |t| - k
  {
    if k == |t| then None
    else if t[k] == ')' then Some(k)
    else if t[k] == '(' then
      if d == 0 then None
      else
        match ScanRun(t, k + 1, d - 1)
        case None => None
        case Some(j) => ScanRun(t, j + 1, d)
    else ScanRun(t, k + 1, d)
  }

  /** The scanner only reports a closing paren of a well-nested run. */
  lemma {:induction false} ScanRunSound(t: string, k: nat, d: nat)
    requires k <= |t|
    ensures ScanRun(t, k, d).Some? ==> Closes(t, k, ScanRun(t, k, d).value, d)
    decreases |t| - k
  {
    if k < |t| && t[k] != ')' {
      if t[k] == '(' {
        if d > 0 && ScanRun(t, k + 1, d - 1).Some? {
          var j1 := ScanRun(t, k + 1, d - 1).value;
          ScanRunSound(t, k + 1, d - 1);
          if ScanRun(t, j1 + 1, d).Some? {
            var j := ScanRun(t, j1 + 1, d).value;
            ScanRunSound(t, j1 + 1, d);
            assert Depth(t, k, k + 1) == 1;
            DepthSplit(t, k, k + 1, j1 + 1);
            assert Depth(t, k, j1 + 1) == 0;
            forall i | k <= i <= j
              ensures 0 <= Depth(t, k, i) <= d
            {
              if k < i <= j1 + 1 {
                DepthSplit(t, k, k + 1, i);
              } else if i > j1 + 1 {
                DepthSplit(t, k, j1 + 1, i);
              }
            }
            DepthSplit(t, k, j1 + 1, j);
          }
        }
      } else {
        ScanRunSound(t, k + 1, d);
        if ScanRun(t, k + 1, d).Some? {
          var j := ScanRun(t, k + 1, d).value;
          assert Depth(t, k, k + 1) == 0;
          forall i | k < i <= j
            ensures Depth(t, k, i) == Depth(t, k + 1, i)
          {
            DepthSplit(t, k, k + 1, i);
          }
        }
      }
    }
  }

  /** The first return of the depth profile to zero after an opening paren. */
  lemma FirstReturn(t: string, k: nat, j: nat) returns (z: nat)
    requires k < j <= |t|
    requires Depth(t, k, k + 1) == 1 && Depth(t, k, j) == 0
    ensures k + 1 < z <= j
    ensures Depth(t, k, z) == 0
    ensures forall i :: k < i < z ==> Depth(t, k, i) != 0
  {
    z := k + 1;
    while Depth(t, k, z) != 0
      invariant k + 1 <= z <= j
      invariant forall i :: k < i < z ==> Depth(t, k, i) != 0
      decreases j - z
    {
      z := z + 1;
    }
  }

  /** The scanner finds the closing paren of every well-nested run. */
  lemma {:induction false} ScanRunComplete(t: string, k: nat, j: nat, d: nat)
    requires Closes(t, k, j, d)
    ensures ScanRun(t, k, d) == Some(j)
    decreases |t| - k
  {
    var k1 := k + 1;
    if t[k] == ')' {
      assert Closes(t, k, k, d);
      ClosesUnique(t, k, k, j, d, d);
    } else if t[k] == '(' {
      assert Depth(t, k, k1) == 1;
      assert k1 <= j;
      assert d >= 1;
      var z := FirstReturn(t, k, j);
      var z1 := z - 1;
      DepthSplit(t, k, z1, z);
      assert Depth(t, z1, z) == Delta(t[z1]);
      assert Depth(t, k, z1) >= 1;
      assert t[z1] == ')';
      forall i | k1 <= i <= z1
        ensures Depth(t, k1, i) == Depth(t, k, i) - 1
        ensures 0 <= Depth(t, k1, i) <= d - 1
      {
        DepthSplit(t, k, k1, i);
        assert Depth(t, k, i) != 0;
      }
      assert Closes(t, k1, z1, d - 1);
      ScanRunComplete(t, k1, z1, d - 1);
      forall i | z <= i <= j
        ensures Depth(t, z, i) == Depth(t, k, i)
      {
        DepthSplit(t, k, z, i);
      }
      assert Closes(t, z, j, d);
      ScanRunComplete(t, z, j, d);
    } else {
      assert Depth(t, k, k1) == 0;
      assert k1 <= j;
      forall i | k1 <= i <= j
        ensures Depth(t, k1, i) == Depth(t, k, i)
      {
        DepthSplit(t, k, k1, i);
      }
      assert Closes(t, k1, j, d);
      ScanRunComplete(t, k1, j, d);
    }
  }

  /** The scanner reports a closing paren exactly when the reference
      definition has one. */
  lemma ScanRunExact(t: string, k: nat, d: nat, j: nat)
    requires k <= |t|
    ensures ScanRun(t, k, d) == Some(j) <==> Closes(t, k, j, d)
  {
    ScanRunSound(t, k, d);
    if Closes(t, k, j, d) {
      ScanRunComplete(t, k, j, d);
    }
  }

  // ---------------------------------------------------------------------------
  // One match of the whole pattern.

  /** `\s*console\.<m>\(ARGS\);?` at `q`; the result is the end of the
      matched text. */
  function CallAt(t: string, q: nat, m: string): (r: Option<nat>)
    requires q <= |t|
    ensures r.Some? ==> q + |Head(m)| < r.value <= |t|
  {
    var w := SkipSpace(t, q);
    if HasPrefixAt(t, w, Head(m)) then
      match ScanRun(t, w + |Head(m)|, 2)
      case None => None
      case Some(j) => if j + 1 < |t| && t[j + 1] == ';' then Some(j + 2) else Some(j + 1)
    else None
  }

  /** The match of the whole pattern at `p`, in the engine's order: first
      with the leading `//`, then without it. */
  function MatchAt(t: string, p: nat, m: string): (r: Option<nat>)
    requires p <= |t|
    ensures r.Some? ==> p + |Head(m)| < r.value <= |t|
  {
    if HasPrefixAt(t, p, "//") && CallAt(t, p + 2, m).Some? then CallAt(t, p + 2, m)
    else CallAt(t, p, m)
  }

  /** Reference definition of one statement `t[p..e]`, with its split points:
      `//` optionally, then whitespace `t[..c]`, then `console.<m>(` at `c`,
      then an argument run closed by the `)` at `j` whose parens nest at most
      two deep, then an optional `;`. */
  ghost predicate Parts(t: string, p: nat, c: nat, j: nat, e: nat, m: string) {
    && p <= c && c + |Head(m)| <= |t|
    && (AllSpace(t, p, c) || (HasPrefixAt(t, p, "//") && p + 2 <= c && AllSpace(t, p + 2, c)))
    && HasPrefixAt(t, c, Head(m))
    && Closes(t, c + |Head(m)|, j, 2)
    && (e == j + 1 || (e == j + 2 && j + 1 < |t| && t[j + 1] == ';'))
  }

  /** Some way of reading `t[p..e]` as a statement exists. */
  ghost predicate StatementShape(t: string, p: nat, e: nat, m: string) {
    exists c: nat, j: nat :: Parts(t, p, c, j, e, m)
  }

  lemma CallAtSound(t: string, q: nat, m: string)
    requires q <= |t|
    requires CallAt(t, q, m).Some?
    ensures Parts(t, q, SkipSpace(t, q), ScanRun(t, SkipSpace(t, q) + |Head(m)|, 2).value, CallAt(t, q, m).value, m)
  {
    ScanRunSound(t, SkipSpace(t, q) + |Head(m)|, 2);
  }

  /** Every match the scanner reports is a statement of the grammar. */
  lemma MatchAtSound(t: string, p: nat, m: string)
    requires p <= |t|
    requires MatchAt(t, p, m).Some?
    ensures StatementShape(t, p, MatchAt(t, p, m).value, m)
  {
    var e := MatchAt(t, p, m).value;
    if HasPrefixAt(t, p, "//") && CallAt(t, p + 2, m).Some? {
      CallAtSound(t, p + 2, m);
      var c := SkipSpace(t, p + 2);
      assert Parts(t, p, c, ScanRun(t, c + |Head(m)|, 2).value, e, m);
    } else {
      CallAtSound(t, p, m);
      var c := SkipSpace(t, p);
      assert Parts(t, p, c, ScanRun(t, c + |Head(m)|, 2).value, e, m);
    }
  }

  /** A whitespace run followed by `console` ends exactly where `\s*` stops. */
  lemma SpaceRunEnd(t: string, q: nat, c: nat, m: string)
    requires q <= c <= |t| && AllSpace(t, q, c) && HasPrefixAt(t, c, Head(m))
    ensures SkipSpace(t, q) == c
  {
    assert t[c] == Head(m)[0] == 'c';
    assert !IsSpace(t[c]);
  }

  lemma CallAtComplete(t: string, q: nat, c: nat, j: nat, e: nat, m: string)
    requires q <= c && c + |Head(m)| <= |t| && AllSpace(t, q, c)
    requires HasPrefixAt(t, c, Head(m)) && Closes(t, c + |Head(m)|, j, 2)
    requires e == j + 1 || (e == j + 2 && j + 1 < |t| && t[j + 1] == ';')
    ensures CallAt(t, q, m).Some? && e <= CallAt(t, q, m).value
  {
    SpaceRunEnd(t, q, c, m);
    ScanRunComplete(t, c + |Head(m)|, j, 2);
  }

  /** Whenever the grammar can read a statement at `p`, the scanner matches
      there, and it takes the longest such statement (the `;` when present). */
  lemma MatchAtComplete(t: string, p: nat, e: nat, m: string)
    requires p <= |t|
    requires StatementShape(t, p, e, m)
    ensures MatchAt(t, p, m).Some? && e <= MatchAt(t, p, m).value
  {
    var c: nat, j: nat :| Parts(t, p, c, j, e, m);
    assert t[c] == Head(m)[0] == 'c';
    if HasPrefixAt(t, p, "//") {
      assert t[p] == '/' && !IsSpace(t[p]);
      assert c != p;
      assert !AllSpace(t, p, c);
      CallAtComplete(t, p + 2, c, j, e, m);
    } else {
      CallAtComplete(t, p, c, j, e, m);
    }
  }

  /** The scanner's match at `p` is exactly the longest statement of the
      grammar starting at `p`, and there is none when it reports none. */
  lemma MatchAtExact(t: string, p: nat, e: nat, m: string)
    requires p <= |t|
    ensures MatchAt(t, p, m) == Some(e) <==>
              StatementShape(t, p, e, m) && forall e': nat :: StatementShape(t, p, e', m) ==> e' <= e
  {
    if MatchAt(t, p, m) == Some(e) {
      MatchAtSound(t, p, m);
      forall e': nat | StatementShape(t, p, e', m)
        ensures e' <= e
      {
        MatchAtComplete(t, p, e', m);
      }
    }
    if StatementShape(t, p, e, m) && forall e': nat :: StatementShape(t, p, e', m) ==> e' <= e {
      MatchAtComplete(t, p, e, m);
      MatchAtSound(t, p, m);
    }
  }

  /** In the engine's order the fallback without `//` never matches where the
      text starts with `/`: a `//` either leads the statement or blocks it. */
  lemma SlashFallbackFails(t: string, p: nat, m: string)
    requires p < |t| && t[p] == '/'
    ensures CallAt(t, p, m).None?
  {
    assert SkipSpace(t, p) == p;
  }

  lemma HeadSplit(t: string, c: nat, m: string)
    requires HasPrefixAt(t, c, Head(m))
    ensures HasPrefixAt(t, c, "console." + m)
    ensures c + |"console." + m| < |t| && t[c + |"console." + m|] == '('
  {
    var L := |"console." + m|;
    assert Head(m) == ("console." + m) + "(";
    assert t[c..c + L] == t[c..c + |Head(m)|][..L];
    assert t[c + L] == t[c..c + |Head(m)|][L];
  }

  /** A `(` must follow the method name directly: `console.logger(...)`
      never starts a match for `log`. Every match holds `console.<m>(` at the
      end of its leading whitespace run, after the `//` when there is one. */
  lemma NameBoundary(t: string, p: nat, m: string)
    requires p <= |t|
    requires MatchAt(t, p, m).Some?
    ensures exists c: nat ::
              && p <= c
              && (c == SkipSpace(t, p) || (p + 2 <= |t| && HasPrefixAt(t, p, "//") && c == SkipSpace(t, p + 2)))
              && c + |"console." + m| < MatchAt(t, p, m).value
              && HasPrefixAt(t, c, "console." + m)
              && t[c + |"console." + m|] == '('
  {
    var q := if HasPrefixAt(t, p, "//") && CallAt(t, p + 2, m).Some? then p + 2 else p;
    var c := SkipSpace(t, q);
    CallAtSound(t, q, m);
    HeadSplit(t, c, m);
    assert c + |"console." + m| < MatchAt(t, p, m).value;
  }
}
