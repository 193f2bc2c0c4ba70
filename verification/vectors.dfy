/** Concrete statements from the repository's test fixture
    (tests/test-cases.js) and a few edge cases, evaluated through the
    scanner, the count and the removal. */
module Vectors {
  import opened Wrappers
  import opened Text
  import opened Matcher
  import opened Remover

  /** The argument scanner passes over a stretch without parens unchanged. */
  lemma {:induction false} ScanRunPlain(t: string, k: nat, to: nat, d: nat)
    requires k <= to <= |t|
    requires forall i :: k <= i < to ==> t[i] != '(' && t[i] != ')'
    ensures ScanRun(t, k, d) == ScanRun(t, to, d)
    decreases |t| - k
  {
    if k < to {
      ScanRunPlain(t, k + 1, to, d);
    }
  }

  /** No `//` where the text does not hold a `/`: the pattern is the call
      alone. */
  lemma NoCommentAt(t: string, p: nat, m: string)
    requires p < |t| && t[p] != '/'
    ensures MatchAt(t, p, m) == CallAt(t, p, m)
  {
    if p + 2 <= |t| {
      assert t[p..p + 2][0] == t[p];
    }
  }

  /** A text that starts with `console.log(` directly. */
  lemma LogStart(t: string)
    requires 12 <= |t| && t[..12] == "console.log("
    ensures SkipSpace(t, 0) == 0 && t[0] != '/'
    ensures HasPrefixAt(t, 0, Head("log"))
  {
    assert t[0] == t[..12][0];
    assert Head("log") == "console.log(";
  }

  /** `console.log(` at the start of the text, with an argument run that
      closes at `j`. */
  lemma LogCallAtStart(t: string, j: nat)
    requires 12 <= |t| && t[..12] == "console.log("
    requires ScanRun(t, 12, 2) == Some(j)
    ensures MatchAt(t, 0, "log") == Some(if j + 1 < |t| && t[j + 1] == ';' then j + 2 else j + 1)
  {
    LogStart(t);
    CallCloses(t, 0, 0, "log", j);
    NoCommentAt(t, 0, "log");
  }

  /** A commented-out call: `//` followed by a call. */
  lemma CommentAt(t: string, p: nat, m: string)
    requires HasPrefixAt(t, p, "//") && CallAt(t, p + 2, m).Some?
    ensures MatchAt(t, p, m) == CallAt(t, p + 2, m)
  {
  }

  /** A call whose argument run closes at `j`. */
  lemma CallCloses(t: string, q: nat, w: nat, m: string, j: nat)
    requires q <= w <= |t| && SkipSpace(t, q) == w && HasPrefixAt(t, w, Head(m))
    requires ScanRun(t, w + |Head(m)|, 2) == Some(j)
    ensures CallAt(t, q, m) == Some(if j + 1 < |t| && t[j + 1] == ';' then j + 2 else j + 1)
  {
  }

  /** A call whose argument run does not close. */
  lemma CallOpen(t: string, q: nat, w: nat, m: string)
    requires q <= w <= |t| && SkipSpace(t, q) == w && HasPrefixAt(t, w, Head(m))
    requires ScanRun(t, w + |Head(m)|, 2) == None
    ensures CallAt(t, q, m) == None
  {
  }

  /** No call where the text does not hold the head. */
  lemma NoHead(t: string, q: nat, w: nat, m: string)
    requires q <= w <= |t| && SkipSpace(t, q) == w && !HasPrefixAt(t, w, Head(m))
    ensures CallAt(t, q, m) == None
  {
  }

  // ---------------------------------------------------------------------------
  // Texts with at most one statement.

  /** The scan before a statement at `p`: nothing matches in `t[..p]`. */
  lemma LeadInSpans(t: string, m: string, p: nat)
    requires 0 < p < |t|
    requires MatchAt(t, 0, m).None? && Plain(t, 1, p)
    ensures Spans(t, m, 0) == Spans(t, m, p)
  {
    KeepStep(t, m, 0);
    PlainStretchSpans(t, m, 1, p);
  }

  /** ... and `replace` keeps `t[..p]`. */
  lemma LeadInStrip(t: string, m: string, p: nat)
    requires 0 < p < |t|
    requires MatchAt(t, 0, m).None? && Plain(t, 1, p)
    ensures Strip(t, m, 0) == t[..p] + Strip(t, m, p)
  {
    KeepStep(t, m, 0);
    PlainStretchStrip(t, m, 1, p);
    ConsFront(t, 0, p, Strip(t, m, p));
    assert t[0..p] == t[..p];
  }

  /** The scan after a statement ending at `e`: nothing matches in `t[e..]`. */
  lemma LeadOut(t: string, m: string, e: nat)
    requires e <= |t| && Plain(t, e, |t|)
    ensures Spans(t, m, e) == []
    ensures Strip(t, m, e) == t[e..]
  {
    PlainStretchSpans(t, m, e, |t|);
    PlainStretchStrip(t, m, e, |t|);
    assert t[e..|t|] + Strip(t, m, |t|) == t[e..] + [];
  }

  /** A text whose only statement is `t[p..e]`, with nothing before it that
      can start a match and nothing after it that can: one match, and the
      removal leaves the text around it. */
  lemma OneStatement(t: string, m: string, p: nat, e: nat)
    requires p < e <= |t|
    requires p == 0 || (MatchAt(t, 0, m).None? && Plain(t, 1, p))
    requires MatchAt(t, p, m) == Some(e)
    requires Plain(t, e, |t|)
    ensures Spans(t, m, 0) == [Span(p, e)]
    ensures Count(t, m) == 1
    ensures Remove(t, m) == t[..p] + t[e..]
  {
    if p > 0 {
      LeadInSpans(t, m, p);
      LeadInStrip(t, m, p);
    }
    MatchStep(t, m, p, e);
    LeadOut(t, m, e);
  }

  /** A text with nothing that can start a match after its first position,
      and no match at that position: nothing counted, nothing removed. */
  lemma FirstMiss(t: string, m: string)
    requires 0 < |t| && MatchAt(t, 0, m).None?
    requires Spans(t, m, 1) == [] && Strip(t, m, 1) == t[1..]
    ensures Count(t, m) == 0
    ensures Remove(t, m) == t
  {
    KeepStep(t, m, 0);
    assert [t[0]] + t[1..] == t;
  }

  lemma NoStatement(t: string, m: string)
    requires 0 < |t|
    requires MatchAt(t, 0, m).None? && Plain(t, 1, |t|)
    ensures Count(t, m) == 0
    ensures Remove(t, m) == t
  {
    LeadOut(t, m, 1);
    FirstMiss(t, m);
  }

  // ---------------------------------------------------------------------------
  // The fixture's statements.

  const UserIdLine := "console.log(userId);"

  lemma UserIdArguments()
    ensures |UserIdLine| == 20
    ensures ScanRun(UserIdLine, 12, 2) == Some(18)
  {
    var t := UserIdLine;
    ScanRunPlain(t, 12, 18, 2);
    assert t[18] == ')';
    assert ScanRun(t, 18, 2) == Some(18);
  }

  lemma UserIdMatch()
    ensures |UserIdLine| == 20
    ensures MatchAt(UserIdLine, 0, "log") == Some(20)
  {
    var t := UserIdLine;
    UserIdArguments();
    assert t[..12] == "console.log(";
    assert t[19] == ';';
    LogCallAtStart(t, 18);
  }

  /** `console.log(userId);` (tests/test-cases.js:3) is one statement and
      is removed entirely. */
  lemma PlainArgument()
    ensures Count(UserIdLine, "log") == 1
    ensures Remove(UserIdLine, "log") == ""
  {
    UserIdMatch();
    OneStatement(UserIdLine, "log", 0, 20);
  }

  const EmptyCall := "console.log();"

  lemma EmptyCallMatch()
    ensures |EmptyCall| == 14
    ensures MatchAt(EmptyCall, 0, "log") == Some(14)
  {
    var t := EmptyCall;
    assert ScanRun(t, 12, 2) == Some(12);
    assert t[..12] == "console.log(";
    assert t[13] == ';';
    LogCallAtStart(t, 12);
  }

  /** `console.log();` (tests/test-cases.js:45): an empty argument list. */
  lemma EmptyArguments()
    ensures Count(EmptyCall, "log") == 1
    ensures Remove(EmptyCall, "log") == ""
  {
    EmptyCallMatch();
    OneStatement(EmptyCall, "log", 0, 14);
  }

  const NestedLine := "console.log(calculateTotalPrice(items));"

  /** The argument run of `NestedLine` closes at its second-to-last `)`. */
  lemma NestedArguments()
    ensures |NestedLine| == 40
    ensures ScanRun(NestedLine, 12, 2) == Some(38)
  {
    var t := NestedLine;
    assert t[31] == '(' && t[37] == ')' && t[38] == ')';
    forall i | 32 <= i < 37
      ensures t[i] != '(' && t[i] != ')'
    {
    }
    ScanRunPlain(t, 32, 37, 1);
    assert ScanRun(t, 38, 2) == Some(38);
    forall i | 12 <= i < 31
      ensures t[i] != '(' && t[i] != ')'
    {
    }
    ScanRunPlain(t, 12, 31, 2);
  }

  lemma NestedMatch()
    ensures |NestedLine| == 40
    ensures MatchAt(NestedLine, 0, "log") == Some(40)
  {
    var t := NestedLine;
    NestedArguments();
    assert t[..12] == "console.log(";
    assert t[39] == ';';
    LogCallAtStart(t, 38);
  }

  /** `console.log(calculateTotalPrice(items));` (tests/test-cases.js:9):
      a call inside the arguments is one nested group. */
  lemma NestedCall()
    ensures Count(NestedLine, "log") == 1
    ensures Remove(NestedLine, "log") == ""
  {
    NestedMatch();
    OneStatement(NestedLine, "log", 0, 40);
  }

  /** The argument of tests/test-cases.js:10-12 as the fixture's template
      string holds it, in three pieces. */
  const LoginArgs1 := "\n  `Login ${isSuccessful ? "
  const LoginArgs2 := "\"successful\" : \"failed\"}"
  const LoginArgs3 := " for user ${userName}`\n"
  const MultiLine := "console.log(" + LoginArgs1 + LoginArgs2 + LoginArgs3 + ");"

  lemma LoginPieces()
    ensures |LoginArgs1| == 27 && |LoginArgs2| == 24 && |LoginArgs3| == 23
    ensures forall i :: 0 <= i < 27 ==> LoginArgs1[i] != '(' && LoginArgs1[i] != ')'
    ensures forall i :: 0 <= i < 24 ==> LoginArgs2[i] != '(' && LoginArgs2[i] != ')'
    ensures forall i :: 0 <= i < 23 ==> LoginArgs3[i] != '(' && LoginArgs3[i] != ')'
  {
  }

  lemma MultiLineArguments()
    ensures |MultiLine| == 88
    ensures ScanRun(MultiLine, 12, 2) == Some(86)
  {
    var t := MultiLine;
    LoginPieces();
    forall i | 12 <= i < 86
      ensures t[i] != '(' && t[i] != ')'
    {
      if i < 39 {
        assert t[i] == LoginArgs1[i - 12];
      } else if i < 63 {
        assert t[i] == LoginArgs2[i - 39];
      } else {
        assert t[i] == LoginArgs3[i - 63];
      }
    }
    ScanRunPlain(t, 12, 86, 2);
    assert t[86] == ')';
    assert ScanRun(t, 86, 2) == Some(86);
  }

  lemma MultiLineMatch()
    ensures |MultiLine| == 88
    ensures MatchAt(MultiLine, 0, "log") == Some(88)
  {
    var t := MultiLine;
    MultiLineArguments();
    assert t[..12] == "console.log(";
    assert t[87] == ';';
    LogCallAtStart(t, 86);
  }

  /** The statement of tests/test-cases.js:10-12, whose template-literal
      argument spans three lines: `[^()]+` crosses the line breaks, and the
      whole statement is one match, removed entirely. */
  lemma MultiLineStatement()
    ensures Count(MultiLine, "log") == 1
    ensures Remove(MultiLine, "log") == ""
  {
    MultiLineMatch();
    OneStatement(MultiLine, "log", 0, 88);
  }

  const CommentHead := "// console.log("
  const Message := "\"Debugging user authentication\""
  const CommentLine := CommentHead + Message + ");"

  lemma CommentLineParts()
    ensures |CommentHead| == 15 && |Message| == 31 && |CommentLine| == 48
    ensures forall i :: 15 <= i < 46 ==> CommentLine[i] != '(' && CommentLine[i] != ')'
    ensures CommentLine[46] == ')' && CommentLine[47] == ';'
    ensures CommentLine[..15] == CommentHead
  {
    var t := CommentLine;
    forall i | 0 <= i < 31
      ensures Message[i] != '(' && Message[i] != ')'
    {
    }
    forall i | 15 <= i < 46
      ensures t[i] != '(' && t[i] != ')'
    {
      assert t[i] == Message[i - 15];
    }
  }

  lemma CommentStart()
    ensures |CommentLine| == 48
    ensures HasPrefixAt(CommentLine, 0, "//")
    ensures SkipSpace(CommentLine, 2) == 3
    ensures HasPrefixAt(CommentLine, 3, Head("log"))
  {
    var t := CommentLine;
    CommentLineParts();
    assert t[0..2] == CommentHead[0..2];
    assert t[2] == CommentHead[2] && t[3] == CommentHead[3];
    assert SkipSpace(t, 3) == 3;
    assert t[3..15] == CommentHead[3..15];
  }

  lemma CommentArguments()
    ensures |CommentLine| == 48
    ensures ScanRun(CommentLine, 15, 2) == Some(46)
    ensures CommentLine[47] == ';'
  {
    var t := CommentLine;
    CommentLineParts();
    ScanRunPlain(t, 15, 46, 2);
  }

  lemma CommentMatch()
    ensures |CommentLine| == 48
    ensures MatchAt(CommentLine, 0, "log") == Some(48)
  {
    var t := CommentLine;
    CommentStart();
    CommentArguments();
    CallCloses(t, 2, 3, "log", 46);
    CommentAt(t, 0, "log");
  }

  /** `// console.log("Debugging user authentication");`
      (tests/test-cases.js:20): a commented-out statement is removed together
      with its `//`. */
  lemma CommentedOut()
    ensures Count(CommentLine, "log") == 1
    ensures Remove(CommentLine, "log") == ""
  {
    CommentMatch();
    OneStatement(CommentLine, "log", 0, 48);
  }

  // ---------------------------------------------------------------------------
  // Edge cases of the pattern.

  const Indented := "x;\n  console.log(1);"

  lemma IndentedParts()
    ensures |Indented| == 20 && Indented[..2] == "x;"
    ensures Plain(Indented, 0, 2)
    ensures MatchAt(Indented, 2, "log") == Some(20)
  {
    var t := Indented;
    assert t[2..4][0] == '\n';
    assert SkipSpace(t, 5) == 5;
    assert SkipSpace(t, 2) == 5;
    assert HasPrefixAt(t, 5, Head("log"));
    assert ScanRun(t, 17, 2) == Some(18);
    assert t[19] == ';';
    CallCloses(t, 2, 5, "log", 18);
    NoCommentAt(t, 2, "log");
  }

  /** An indented statement on its own line: `\s*` takes the line break
      and the indentation before it, so the text before the statement is all
      that remains. */
  lemma IndentedStatement()
    ensures Spans(Indented, "log", 0) == [Span(2, 20)]
    ensures Count(Indented, "log") == 1
    ensures Remove(Indented, "log") == "x;"
  {
    IndentedParts();
    NoMatchAtPlain(Indented, 0, "log");
    OneStatement(Indented, "log", 2, 20);
  }

  const Deep := "console.log(a(b(c(d))))"

  /** The argument run after `console.log(` never closes within two levels. */
  lemma DeepArguments()
    ensures |Deep| == 23
    ensures ScanRun(Deep, 12, 2) == None
  {
    var t := Deep;
    assert ScanRun(t, 17, 0) == None;
    assert ScanRun(t, 15, 1) == None;
    assert ScanRun(t, 13, 2) == None;
  }

  lemma DeepNoMatch()
    ensures |Deep| == 23
    ensures MatchAt(Deep, 0, "log").None?
  {
    var t := Deep;
    DeepArguments();
    assert t[..12] == "console.log(";
    LogStart(t);
    CallOpen(t, 0, 0, "log");
    NoCommentAt(t, 0, "log");
  }

  lemma DeepInnerNoMatch()
    ensures |Deep| == 23
    ensures MatchAt(Deep, 16, "log").None?
  {
    var t := Deep;
    assert SkipSpace(t, 16) == 16;
    assert |Head("log")| == 12;
    NoHead(t, 16, 16, "log");
    NoCommentAt(t, 16, "log");
  }

  lemma DeepPlain()
    ensures |Deep| == 23
    ensures Plain(Deep, 1, 16) && Plain(Deep, 17, 23)
  {
    var t := Deep;
    forall i | 1 <= i < 16 || 17 <= i < 23
      ensures t[i] != 'c' && t[i] != '/' && !IsSpace(t[i])
    {
    }
  }

  /** Past its first position, the text's only candidate is at `h`, and it
      does not match. */
  lemma OneMissSpans(t: string, m: string, h: nat)
    requires 1 <= h < |t|
    requires Plain(t, 1, h) && MatchAt(t, h, m).None? && Plain(t, h + 1, |t|)
    ensures Spans(t, m, 1) == []
  {
    PlainStretchSpans(t, m, 1, h);
    KeepStep(t, m, h);
    LeadOut(t, m, h + 1);
  }

  lemma OneMissStrip(t: string, m: string, h: nat)
    requires 1 <= h < |t|
    requires Plain(t, 1, h) && MatchAt(t, h, m).None? && Plain(t, h + 1, |t|)
    ensures Strip(t, m, 1) == t[1..]
  {
    PlainStretchStrip(t, m, 1, h);
    KeepStep(t, m, h);
    LeadOut(t, m, h + 1);
    Rejoin(t, h);
  }

  lemma Rejoin(t: string, h: nat)
    requires 1 <= h < |t|
    ensures t[1..h] + ([t[h]] + t[h + 1..]) == t[1..]
  {
  }

  lemma DeepTail()
    ensures |Deep| == 23
    ensures Spans(Deep, "log", 1) == [] && Strip(Deep, "log", 1) == Deep[1..]
  {
    DeepInnerNoMatch();
    DeepPlain();
    OneMissSpans(Deep, "log", 16);
    OneMissStrip(Deep, "log", 16);
  }

  /** Arguments nesting three groups deep are beyond the pattern: nothing
      is counted and nothing is removed. */
  lemma TooDeep()
    ensures MatchAt(Deep, 0, "log").None?
    ensures Count(Deep, "log") == 0
    ensures Remove(Deep, "log") == Deep
  {
    DeepNoMatch();
    DeepTail();
    FirstMiss(Deep, "log");
  }

  const Logger := "console.logger(x);"

  lemma LoggerParts()
    ensures |Logger| == 18
    ensures MatchAt(Logger, 0, "log").None?
    ensures Plain(Logger, 1, 18)
  {
    LoggerNoMatch();
    LoggerPlain();
  }

  lemma LoggerPlain()
    ensures |Logger| == 18
    ensures Plain(Logger, 1, 18)
  {
    var t := Logger;
    forall i | 1 <= i < 18
      ensures t[i] != 'c' && t[i] != '/' && !IsSpace(t[i])
    {
    }
  }

  lemma LoggerNoMatch()
    ensures MatchAt(Logger, 0, "log").None?
  {
    var t := Logger;
    assert SkipSpace(t, 0) == 0;
    assert t[0..12][11] == 'g';
    NoHead(t, 0, 0, "log");
    NoCommentAt(t, 0, "log");
  }

  /** `console.logger(x);` is not a `console.log(` call: the `(` must follow
      the method name directly. */
  lemma LongerName()
    ensures Count(Logger, "log") == 0
    ensures Remove(Logger, "log") == Logger
  {
    LoggerParts();
    NoStatement(Logger, "log");
  }

  const QuotedParen := "console.log(\")\");"

  lemma QuotedParenParts()
    ensures |QuotedParen| == 17 && QuotedParen[14..] == "\");"
    ensures MatchAt(QuotedParen, 0, "log") == Some(14)
    ensures Plain(QuotedParen, 14, 17)
  {
    QuotedParenMatch();
    var t := QuotedParen;
    assert t[14] == '"' && t[15] == ')' && t[16] == ';';
  }

  lemma QuotedParenMatch()
    ensures MatchAt(QuotedParen, 0, "log") == Some(14)
  {
    var t := QuotedParen;
    assert t[13] == ')' && t[14] == '"';
    assert t[..12] == "console.log(";
    LogStart(t);
    assert ScanRun(t, 12, 2) == Some(13);
    CallCloses(t, 0, 0, "log", 13);
    NoCommentAt(t, 0, "log");
  }

  /** The pattern does not know string literals: a `)` inside a string
      argument ends the statement early and the rest of it stays behind. */
  lemma ParenInString()
    ensures Count(QuotedParen, "log") == 1
    ensures Remove(QuotedParen, "log") == "\");"
  {
    QuotedParenParts();
    OneStatement(QuotedParen, "log", 0, 14);
  }

  const Bare := "console.log()"

  lemma BareMatch()
    ensures |Bare| == 13
    ensures MatchAt(Bare, 0, "log") == Some(13)
  {
    var t := Bare;
    assert ScanRun(t, 12, 2) == Some(12);
    assert t[..12] == "console.log(";
    LogCallAtStart(t, 12);
  }

  /** `console.log()`, without the semicolon, is one statement. */
  lemma BareCall()
    ensures Count(Bare, "log") == 1
  {
    BareMatch();
    OneStatement(Bare, "log", 0, 13);
  }

  const Spliced := "console.loconsole.log()g()"

  lemma SplicedHead()
    ensures |Spliced| == 26
    ensures MatchAt(Spliced, 0, "log").None?
  {
    var t := Spliced;
    assert SkipSpace(t, 0) == 0;
    assert t[0..12][10] == 'c';
    NoHead(t, 0, 0, "log");
    NoCommentAt(t, 0, "log");
  }

  lemma SplicedCall()
    ensures |Spliced| == 26
    ensures MatchAt(Spliced, 10, "log") == Some(23)
  {
    var t := Spliced;
    assert SkipSpace(t, 10) == 10;
    assert HasPrefixAt(t, 10, Head("log"));
    assert ScanRun(t, 22, 2) == Some(22);
    assert t[23] == 'g';
    CallCloses(t, 10, 10, "log", 22);
    NoCommentAt(t, 10, "log");
  }

  lemma SplicedPlain()
    ensures |Spliced| == 26
    ensures Plain(Spliced, 1, 10) && Plain(Spliced, 23, 26)
  {
    var t := Spliced;
    forall i | 1 <= i < 10
      ensures t[i] != 'c' && t[i] != '/' && !IsSpace(t[i])
    {
    }
    forall i | 23 <= i < 26
      ensures t[i] != 'c' && t[i] != '/' && !IsSpace(t[i])
    {
    }
  }

  lemma SplicedJoin()
    ensures |Spliced| == 26
    ensures Spliced[..10] + Spliced[23..] == Bare
  {
    var t := Spliced;
    var r := t[..10] + t[23..];
    forall i | 0 <= i < 13
      ensures r[i] == Bare[i]
    {
    }
  }

  /** Removal is not idempotent: cutting a statement out of the middle of
      `console.lo…g()` joins the two halves into a new statement, which a
      second run would count and remove. */
  lemma RemovalNotIdempotent()
    ensures Count(Spliced, "log") == 1
    ensures Remove(Spliced, "log") == Bare
    ensures Count(Remove(Spliced, "log"), "log") == 1
  {
    SplicedHead();
    SplicedCall();
    SplicedPlain();
    SplicedJoin();
    OneStatement(Spliced, "log", 10, 23);
    BareCall();
  }
}
