/** The global scan of src/index.js:49-54: `content.match(regex)` lists the
    matches of the `/g` pattern and `content.replace(regex, "")` deletes the
    same matches. Both scan left to right, try every position in turn, take
    the match at the first position where there is one, and continue after
    it; matches are never empty, so the scan always advances. */
module Remover {
  import opened Wrappers
  import opened Matcher
  import opened Text

  /** A matched statement `t[start..end]`. */
  datatype Span = Span(start: nat, end: nat)

  /** Spans are non-empty, left to right, non-overlapping, at or after
      `from` and within a text of length `n`. */
  ghost predicate Ordered(sp: seq<Span>, from: nat, n: nat)
    decreases |sp|
  {
    sp == [] || (from <= sp[0].start < sp[0].end <= n && Ordered(sp[1..], sp[0].end, n))
  }

  /** The matches of the global pattern in `t[from..]`, as `match` reports
      them. */
  function Spans(t: string, m: string, from: nat): (sp: seq<Span>)
    requires from <= |t|
    ensures Ordered(sp, from, |t|)
    ensures forall i :: 0 <= i < |sp| ==> from <= sp[i].start < sp[i].end <= |t|
    decreases |t| - from
  {
    if from == |t| then []
    else
      match MatchAt(t, from, m)
      case Some(e) => [Span(from, e)] + Spans(t, m, e)
      case None => Spans(t, m, from + 1)
  }

  /** `t[from..]` after `replace` with the global pattern and `""`. */
  function Strip(t: string, m: string, from: nat): string
    requires from <= |t|
    decreases |t| - from
  {
    if from == |t| then []
    else
      match MatchAt(t, from, m)
      case Some(e) => Strip(t, m, e)
      case None => [t[from]] + Strip(t, m, from + 1)
  }

  /** `matches ? matches.length : 0`. */
  function Count(t: string, m: string): nat {
    |Spans(t, m, 0)|
  }

  /** `content.replace(regex, "")`. */
  function Remove(t: string, m: string): string {
    Strip(t, m, 0)
  }

  /** The text with the given spans cut out: every character outside them,
      in order. */
  function Delete(t: string, sp: seq<Span>, from: nat): string
    requires from <= |t| && Ordered(sp, from, |t|)
    decreases |sp|
  {
    if sp == [] then t[from..] else t[from..sp[0].start] + Delete(t, sp[1..], sp[0].end)
  }

  /** Total length of the spans. */
  function Covered(sp: seq<Span>): int
    decreases |sp|
  {
    if sp == [] then 0 else sp[0].end - sp[0].start + Covered(sp[1..])
  }

  /** Position `q` lies inside one of the spans. */
  ghost predicate InSome(sp: seq<Span>, q: nat) {
    exists i :: 0 <= i < |sp| && sp[i].start <= q < sp[i].end
  }

  /** One step of the scan at a position where a statement starts. */
  lemma MatchStep(t: string, m: string, p: nat, e: nat)
    requires p < |t| && MatchAt(t, p, m) == Some(e)
    ensures Spans(t, m, p) == [Span(p, e)] + Spans(t, m, e)
    ensures Strip(t, m, p) == Strip(t, m, e)
  {
  }

  /** One step of the scan at a position where none starts. */
  lemma KeepStep(t: string, m: string, p: nat)
    requires p < |t| && MatchAt(t, p, m).None?
    ensures Spans(t, m, p) == Spans(t, m, p + 1)
    ensures Strip(t, m, p) == [t[p]] + Strip(t, m, p + 1)
  {
  }

  /** Every span the scan reports is where the pattern, tried at the span's
      start, matches, and it ends where that match ends. */
  lemma {:induction false} SpansMatch(t: string, m: string, from: nat, i: nat)
    requires from <= |t|
    requires i < |Spans(t, m, from)|
    ensures MatchAt(t, Spans(t, m, from)[i].start, m) == Some(Spans(t, m, from)[i].end)
    decreases |t| - from, 1
  {
    if MatchAt(t, from, m).Some? {
      SpansMatchAfterHit(t, m, from, i);
    } else {
      KeepStep(t, m, from);
      SpansMatch(t, m, from + 1, i);
    }
  }

  /** The same, when a statement starts at `from`. */
  lemma {:induction false} SpansMatchAfterHit(t: string, m: string, from: nat, i: nat)
    requires from < |t| && MatchAt(t, from, m).Some?
    requires i < |Spans(t, m, from)|
    ensures MatchAt(t, Spans(t, m, from)[i].start, m) == Some(Spans(t, m, from)[i].end)
    decreases |t| - from, 0
  {
    var e := MatchAt(t, from, m).value;
    MatchStep(t, m, from, e);
    if i > 0 {
      SpansMatch(t, m, e, i - 1);
      assert Spans(t, m, from)[i] == Spans(t, m, e)[i - 1];
    }
  }

  /** Every span the scan reports is a statement of the grammar, and the
      longest one starting at its position. */
  lemma SpansAreStatements(t: string, m: string, from: nat, i: nat)
    requires from <= |t|
    requires i < |Spans(t, m, from)|
    ensures MatchAt(t, Spans(t, m, from)[i].start, m) == Some(Spans(t, m, from)[i].end)
    ensures StatementShape(t, Spans(t, m, from)[i].start, Spans(t, m, from)[i].end, m)
    ensures forall e: nat :: StatementShape(t, Spans(t, m, from)[i].start, e, m) ==> e <= Spans(t, m, from)[i].end
  {
    var s := Spans(t, m, from)[i];
    SpansMatch(t, m, from, i);
    MatchAtExact(t, s.start, s.end, m);
  }

  /** Leftmost-first: no statement of the grammar starts at a position the
      scan keeps. */
  lemma {:induction false} KeptPositionsDoNotMatch(t: string, m: string, from: nat, q: nat)
    requires from <= q < |t|
    requires !InSome(Spans(t, m, from), q)
    ensures MatchAt(t, q, m).None?
    ensures forall e: nat :: !StatementShape(t, q, e, m)
    decreases |t| - from
  {
    var sp := Spans(t, m, from);
    match MatchAt(t, from, m)
    case Some(e) =>
      assert sp[0] == Span(from, e);
      assert q >= e;
      var rest := Spans(t, m, e);
      forall i | 0 <= i < |rest|
        ensures !(rest[i].start <= q < rest[i].end)
      {
        assert sp[i + 1] == rest[i];
      }
      KeptPositionsDoNotMatch(t, m, e, q);
    case None =>
      if q > from {
        KeptPositionsDoNotMatch(t, m, from + 1, q);
      }
      forall e: nat | StatementShape(t, q, e, m)
        ensures false
      {
        MatchAtComplete(t, q, e, m);
      }
  }

  lemma {:induction false} DeleteStep(t: string, sp: seq<Span>, from: nat)
    requires from < |t| && Ordered(sp, from + 1, |t|)
    ensures Ordered(sp, from, |t|)
    ensures Delete(t, sp, from) == [t[from]] + Delete(t, sp, from + 1)
  {
    if sp == [] {
      assert t[from..] == [t[from]] + t[from + 1..];
    } else {
      var s := sp[0];
      assert Delete(t, sp, from) == t[from..s.start] + Delete(t, sp[1..], s.end);
      assert Delete(t, sp, from + 1) == t[from + 1..s.start] + Delete(t, sp[1..], s.end);
      assert t[from..s.start] == [t[from]] + t[from + 1..s.start];
    }
  }

  /** `replace` deletes exactly the spans `match` reports and keeps every
      other character in order. */
  lemma {:induction false} StripDeletesSpans(t: string, m: string, from: nat)
    requires from <= |t|
    ensures Strip(t, m, from) == Delete(t, Spans(t, m, from), from)
    decreases |t| - from
  {
    if from < |t| {
      match MatchAt(t, from, m)
      case Some(e) =>
        StripDeletesSpans(t, m, e);
        var sp := Spans(t, m, from);
        assert sp[1..] == Spans(t, m, e);
        assert t[from..from] == [];
      case None =>
        StripDeletesSpans(t, m, from + 1);
        DeleteStep(t, Spans(t, m, from + 1), from);
    }
  }

  lemma {:induction false} DeleteLength(t: string, sp: seq<Span>, from: nat)
    requires from <= |t| && Ordered(sp, from, |t|)
    ensures |Delete(t, sp, from)| == |t| - from - Covered(sp)
    decreases |sp|
  {
    if sp != [] {
      DeleteLength(t, sp[1..], sp[0].end);
    }
  }

  /** The count `match` reports is the number of spans `replace` deletes, and
      the output is the input with exactly those spans cut out. */
  lemma CountMatchesRemoval(t: string, m: string)
    ensures Remove(t, m) == Delete(t, Spans(t, m, 0), 0)
    ensures Count(t, m) == |Spans(t, m, 0)|
    ensures |Remove(t, m)| == |t| - Covered(Spans(t, m, 0))
    ensures Count(t, m) == 0 <==> Remove(t, m) == t
  {
    StripDeletesSpans(t, m, 0);
    DeleteLength(t, Spans(t, m, 0), 0);
    var sp := Spans(t, m, 0);
    if sp != [] {
      CoveredPositive(sp, 0, |t|);
    } else {
      assert t[0..] == t;
    }
  }

  lemma {:induction false} CoveredPositive(sp: seq<Span>, from: nat, n: nat)
    requires Ordered(sp, from, n)
    ensures Covered(sp) >= |sp|
    decreases |sp|
  {
    if sp != [] {
      CoveredPositive(sp[1..], sp[0].end, n);
    }
  }

  /** Whitespace in front of a plain call belongs to the same match. */
  lemma SpaceJoinsCall(t: string, q: nat, m: string)
    requires q < |t|
    ensures IsSpace(t[q]) ==> CallAt(t, q, m) == CallAt(t, q + 1, m)
  {
  }

  /** A plain call takes the whitespace run before `console` with it: a span
      that does not start with `//` starts right after a character the scan
      keeps only if that character is not whitespace. */
  lemma PlainSpanTakesLeadingSpace(t: string, m: string, i: nat)
    requires i < |Spans(t, m, 0)|
    requires !HasPrefixAt(t, Spans(t, m, 0)[i].start, "//")
    requires Spans(t, m, 0)[i].start > 0
    requires !InSome(Spans(t, m, 0), Spans(t, m, 0)[i].start - 1)
    ensures !IsSpace(t[Spans(t, m, 0)[i].start - 1])
  {
    var s := Spans(t, m, 0)[i].start;
    SpansAreStatements(t, m, 0, i);
    KeptPositionsDoNotMatch(t, m, 0, s - 1);
    assert CallAt(t, s, m).Some?;
    assert CallAt(t, s - 1, m).None?;
    SpaceJoinsCall(t, s - 1, m);
  }

  /** A position holding neither `c`, `/` nor whitespace cannot start a
      match: every match begins with `//`, whitespace or `console`. */
  lemma NoMatchAtPlain(t: string, q: nat, m: string)
    requires q < |t| && t[q] != 'c' && t[q] != '/' && !IsSpace(t[q])
    ensures MatchAt(t, q, m).None?
  {
    assert SkipSpace(t, q) == q;
    assert Head(m)[0] == 'c';
    if q + |Head(m)| <= |t| {
      assert t[q..q + |Head(m)|][0] == t[q];
    }
  }

  /** The scan passes over such a character, keeping it. */
  lemma PlainStep(t: string, m: string, q: nat)
    requires q < |t| && t[q] != 'c' && t[q] != '/' && !IsSpace(t[q])
    ensures Spans(t, m, q) == Spans(t, m, q + 1)
    ensures Strip(t, m, q) == [t[q]] + Strip(t, m, q + 1)
  {
    NoMatchAtPlain(t, q, m);
    KeepStep(t, m, q);
  }

  /** No character of `t[from..to]` can begin a match. */
  ghost predicate Plain(t: string, from: nat, to: nat)
    requires from <= to <= |t|
  {
    forall i :: from <= i < to ==> t[i] != 'c' && t[i] != '/' && !IsSpace(t[i])
  }

  /** The scan passes over a stretch of such characters without a match. */
  lemma {:induction false} PlainStretchSpans(t: string, m: string, from: nat, to: nat)
    requires from <= to <= |t| && Plain(t, from, to)
    ensures Spans(t, m, from) == Spans(t, m, to)
    decreases |t| - from
  {
    if from < to {
      PlainStep(t, m, from);
      assert Plain(t, from + 1, to);
      PlainStretchSpans(t, m, from + 1, to);
    }
  }

  /** ... and `replace` keeps the whole stretch. */
  lemma {:induction false} PlainStretchStrip(t: string, m: string, from: nat, to: nat)
    requires from <= to <= |t| && Plain(t, from, to)
    ensures Strip(t, m, from) == t[from..to] + Strip(t, m, to)
    decreases |t| - from
  {
    if from < to {
      PlainStep(t, m, from);
      assert Plain(t, from + 1, to);
      PlainStretchStrip(t, m, from + 1, to);
      ConsFront(t, from, to, Strip(t, m, to));
    }
  }

  lemma ConsFront(t: string, from: nat, to: nat, rest: string)
    requires from < to <= |t|
    ensures [t[from]] + (t[from + 1..to] + rest) == t[from..to] + rest
  {
    assert [t[from]] + (t[from + 1..to] + rest) == ([t[from]] + t[from + 1..to]) + rest;
    assert [t[from]] + t[from + 1..to] == t[from..to];
  }
}
