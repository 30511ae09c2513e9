/** What stands below a list item of the report, read without knowing how it was written:
    the indented explanation and the marked lines of assessment and evidence
    (renderFindingFormat, internal/markdown/codec.go). */
module ItemBody {
  import opened Domain
  import opened Text
  import opened ReportText
  import opened Rendering
  import opened Markers
  import opened Lines

  // ----- The reader -----

  datatype Below = Below(explanation: string, assessment: Option<string>, evidence: seq<string>)

  const ASSESSMENT_MARK := "  - **Assessment:** "

  const EVIDENCE_MARK := "  - **Evidence:** "

  // The next item, a heading or a tag.
  predicate EndsItem(x: char) {
    x == '-' || x == '#' || x == '<'
  }

  // The rest of every line that starts with `mark`, as long as the item lasts.
  function MarkedLines(t: string, start: bool, mark: string): seq<string> {
    if |t| == 0 || (start && EndsItem(t[0])) then []
    else
      (if start && mark <= t then [LineOf(t[|mark|..])] else []) + MarkedLines(t[1..], t[0] == '\n', mark)
  }

  // The lines indented by two blanks that come first and start no list, without those blanks.
  function BlockOf(t: string): string
    decreases |t|
  {
    if !("  " <= t) || "  -" <= t then ""
    else
      var line := LineOf(t[2..]);
      if |t| == 2 + |line| then line else line + "\n" + BlockOf(t[3 + |line|..])
  }

  function ReadBelow(t: string): Below {
    if |t| == 0 || t[0] != '\n' then Below("", None, [])
    else
      var block, judged := BlockOf(t[1..]), MarkedLines(t[1..], true, ASSESSMENT_MARK);
      Below(if block == "" then "" else Unescape(block[..|block| - 1]),
            if |judged| == 1 then Some(Unescape(judged[0])) else None,
            MarkedLines(t[1..], true, EVIDENCE_MARK))
  }

  // Nothing of what follows belongs to the item.
  predicate Silent(rest: string) {
    MarkedLines(rest, true, ASSESSMENT_MARK) == [] && MarkedLines(rest, true, EVIDENCE_MARK) == []
  }

  lemma SilentEnd(rest: string)
    requires rest == "" || EndsItem(rest[0])
    ensures Silent(rest)
  {
  }

  // ----- Lines that are passed over -----

  predicate Dashed(s: string, i: nat) {
    i + 2 < |s| && s[i] == ' ' && s[i + 1] == ' ' && s[i + 2] == '-'
  }

  // No line that starts here ends the item or starts a list below it.
  predicate Passed(s: string, start: bool) {
    forall i :: 0 <= i < |s| && LineStart(s, i, start) ==> !EndsItem(s[i]) && !Dashed(s, i)
  }

  predicate Closed(s: string) {
    s == "" || s[|s| - 1] == '\n'
  }

  lemma PassedTail(s: string, start: bool)
    requires |s| > 0 && Passed(s, start)
    ensures Passed(s[1..], s[0] == '\n')
  {
    forall i | 0 <= i < |s[1..]| && LineStart(s[1..], i, s[0] == '\n')
      ensures !EndsItem(s[1..][i]) && !Dashed(s[1..], i)
    {
      assert LineStart(s, i + 1, start) && s[1..][i] == s[i + 1];
      assert i + 3 < |s| ==> s[1..][i + 1] == s[i + 2] && s[1..][i + 2] == s[i + 3];
    }
  }

  lemma NoMark(s: string, rest: string, mark: string)
    requires s != "" && Closed(s) && !Dashed(s, 0) && "  -" <= mark
    ensures !(mark <= s + rest)
  {
    var t := s + rest;
    assert t[|s| - 1] == '\n' && mark[0] == ' ' && mark[1] == ' ' && mark[2] == '-';
    assert |s| > 2 ==> t[0] == s[0] && t[1] == s[1] && t[2] == s[2];
  }

  lemma {:induction false} SkipLines(s: string, rest: string, start: bool, mark: string)
    requires Passed(s, start) && Closed(s) && "  -" <= mark
    ensures MarkedLines(s + rest, start, mark) == MarkedLines(rest, EndsLine(s, start), mark)
  {
    var t := s + rest;
    if |s| == 0 {
      assert t == rest;
    } else {
      PassedTail(s, start);
      assert t[0] == s[0] && t[1..] == s[1..] + rest;
      assert LineStart(s, 0, start) == start;
      if start { NoMark(s, rest, mark); }
      if |s| > 1 { assert s[1..][|s| - 2] == s[|s| - 1]; }
      SkipLines(s[1..], rest, s[0] == '\n', mark);
    }
  }

  lemma SilentBehind(s: string, rest: string)
    requires Passed(s, true) && Closed(s) && Silent(rest)
    ensures Silent(s + rest)
  {
    hide MarkedLines;
    SkipLines(s, rest, true, ASSESSMENT_MARK);
    SkipLines(s, rest, true, EVIDENCE_MARK);
  }

  lemma PassedJoin(a: string, b: string, start: bool)
    requires Free(a, '\n') && a != "" && Passed(b, false)
    requires start ==> !EndsItem(a[0]) && !Dashed(a + b, 0)
    ensures Passed(a + b, start)
  {
    var s := a + b;
    forall i | 0 <= i < |a| ensures s[i] != '\n' { assert a[i] in a; }
    forall i | 0 <= i < |s| && LineStart(s, i, start) ensures !EndsItem(s[i]) && !Dashed(s, i) {
      if i > |a| {
        assert LineStart(b, i - |a|, false) && s[i] == b[i - |a|];
        assert i + 2 < |s| ==> s[i + 1] == b[i + 1 - |a|] && s[i + 2] == b[i + 2 - |a|];
      }
    }
  }

  lemma MarkFound(t: string, mark: string)
    requires "  -" <= t
    ensures MarkedLines(t, true, mark) ==
      (if mark <= t then [LineOf(t[|mark|..])] else []) + MarkedLines(t[1..], false, mark)
  {
    assert t[0] == ' ';
  }

  // A marked line is read, or passed over by who looks for another mark.
  lemma MarkedLine(mark: string, other: string, line: string, rest: string)
    requires "  -" <= mark && "  -" <= other && Free(other, '\n')
    requires mark == other || Diverges(other, mark)
    requires Passed(line, false) && Closed(line) && line != ""
    ensures MarkedLines(other + line + rest, true, mark) ==
      (if mark == other then [LineOf(line + rest)] else []) + MarkedLines(rest, true, mark)
  {
    hide MarkedLines, LineOf, Passed, Diverges;
    var t, s := other + line + rest, other[1..] + line;
    assert t[..3] == other[..3] && t[1..] == s + rest;
    assert other[1..] != "" && Free(other[1..], '\n') by { assert forall x :: x in other[1..] ==> x in other; }
    PassedJoin(other[1..], line, false);
    assert s[|s| - 1] == line[|line| - 1];
    SkipLines(s, rest, false, mark);
    MarkFound(t, mark);
    assert t == other + (line + rest);
    if mark == other {
      assert t[|mark|..] == line + rest;
    } else {
      DivergesStays(other, line + rest, mark);
    }
  }

  // ----- Text in which no dash follows a blank -----

  predicate DashSafe(s: string) {
    forall i :: 0 <= i < |s| && s[i] == '-' ==> i > 0 && s[i - 1] != ' '
  }

  lemma SafeJoin(a: string, b: string)
    requires DashSafe(a) && DashSafe(b)
    ensures DashSafe(a + b)
  {
    forall i | 0 <= i < |a + b| && (a + b)[i] == '-' ensures i > 0 && (a + b)[i - 1] != ' ' {
      if i >= |a| {
        assert b[i - |a|] == '-' && i - |a| > 0;
        assert (a + b)[i - 1] == b[i - |a| - 1];
      } else {
        assert a[i] == '-' && (a + b)[i - 1] == a[i - 1];
      }
    }
  }

  lemma {:induction false} EscapedSafe(s: string, guard: bool)
    ensures DashSafe(GuardLines(EscapedAll(s), guard))
    decreases |s|
  {
    if |s| > 0 {
      var x, tail := s[0], EscapedAll(s[1..]);
      if x == '\n' || x == ' ' || x == '\t' || x == '/' {
        var next := x == '\n' || (guard && (x == ' ' || x == '\t'));
        BlankEscaped(x);
        GuardOne(x, tail, guard);
        EscapedSafe(s[1..], next);
        SafeJoin(if guard && x == '/' then ['\\', x] else [x], GuardLines(tail, next));
      } else {
        PlainStart(x);
        GuardPiece(Escaped(x), tail, guard);
        EscapedSafe(s[1..], false);
        SafePiece(x);
        SafeJoin(Escaped(x), GuardLines(tail, false));
      }
    }
  }

  lemma SafePiece(x: char)
    ensures DashSafe(Escaped(x))
  {
  }

  lemma EscapeSafe(s: string)
    ensures DashSafe(Escape(s))
  {
    StagesArePerCharacter(s);
    EscapedSafe(s, true);
  }

  lemma NoDash(s: string)
    requires Free(s, '-')
    ensures DashSafe(s)
  {
    forall i | 0 <= i < |s| ensures s[i] != '-' { assert s[i] in s; }
  }

  lemma ProseSafe(c: Codings, value: string)
    ensures DashSafe(Prose(c, value))
  {
    hide Escape;
    EscapeSafe(value);
    assert Free(OMITTED, '-') by { OmittedDashless(); }
    NoDash(OMITTED);
  }

  lemma OmittedDashless()
    ensures Free(OMITTED, '-')
  {
  }

  lemma DigitsSafe(n: nat)
    ensures Free(Decimal(n), '-') && Free(Decimal(n), ' ') && Decimal(n) != ""
  {
    DecimalIsPlain(n);
    assert !IsDigit('-') && !IsDigit(' ');
  }

  lemma RangeSafe(a: string, b: string)
    requires Free(a, '-') && Free(a, ' ') && a != "" && Free(b, '-')
    ensures DashSafe(":" + a + "-" + b) && DashSafe(":" + a)
  {
    NoDash(":" + a);
    var s := ":" + a + "-" + b;
    forall i | 0 <= i < |a| ensures s[i + 1] == a[i] && a[i] != '-' && a[i] != ' ' { assert a[i] in a; }
    forall i | 0 <= i < |b| ensures s[|a| + 2 + i] == b[i] && b[i] != '-' { assert b[i] in b; }
    assert s[0] == ':' && s[|a|] == a[|a| - 1];
    assert forall i :: 0 <= i < |s| && s[i] == '-' ==> i == |a| + 1;
  }

  lemma LocationSafe(l: Location)
    ensures DashSafe(LocationText(l))
  {
    hide Decimal, Escape;
    EscapeSafe(l.path);
    DigitsSafe(l.startLine);
    DigitsSafe(l.endLine);
    RangeSafe(Decimal(l.startLine), Decimal(l.endLine));
    hide DashSafe;
    var a, b := ":" + Decimal(l.startLine), "-" + Decimal(l.endLine);
    NoDash("");
    SafeJoin(Escape(l.path), a);
    SafeJoin(Escape(l.path), a + b);
    SafeJoin(Escape(l.path), "");
    assert a + "" == a;
  }

  lemma {:induction false} LocationsSafe(ls: seq<Location>)
    ensures DashSafe(LocationsText(ls))
  {
    hide LocationText;
    if |ls| > 0 {
      var l := ls[|ls| - 1];
      LocationSafe(l);
      if |ls| > 1 {
        LocationsSafe(ls[..|ls| - 1]);
        NoDash(", ");
        SafeJoin(LocationsText(ls[..|ls| - 1]), ", ");
        SafeJoin(LocationsText(ls[..|ls| - 1]) + ", ", LocationText(l));
      }
    }
  }

  // ----- Evidence lines -----

  function EvidenceLine(c: Codings, e: Evidence): string {
    var places := LocationsText(e.locations);
    Prose(c, e.explanation) + if places != "" then " — " + places else ""
  }

  // What each piece of evidence says on its first line.
  function FirstLines(c: Codings, evidence: seq<Evidence>): seq<string> {
    if |evidence| == 0 then []
    else FirstLines(c, evidence[..|evidence| - 1]) + [LineOf(EvidenceLine(c, evidence[|evidence| - 1]))]
  }

  lemma CalmIsPassed(s: string)
    requires Calm(s) && DashSafe(s) && Free(s, '<')
    ensures Passed(s + "\n", false)
  {
    var t := s + "\n";
    forall i | 0 <= i < |t| && LineStart(t, i, false) ensures !EndsItem(t[i]) && !Dashed(t, i) {
      if i < |s| {
        assert LineStart(s, i, true) && t[i] == s[i] && s[i] in s;
        assert i + 2 < |s| && s[i + 2] == '-' ==> s[i + 1] != ' ';
      }
    }
  }

  lemma EvidenceLinePassed(c: Codings, e: Evidence)
    ensures Passed(EvidenceLine(c, e) + "\n", false)
  {
    hide Prose, LocationsText;
    var places := LocationsText(e.locations);
    ProseCalm(c, e.explanation);
    ProsePlain(c, e.explanation);
    ProseSafe(c, e.explanation);
    LocationsCalm(e.locations);
    LocationsPlain(e.locations);
    LocationsSafe(e.locations);
    CalmLine(" — ");
    NoDash(" — ");
    hide Calm, DashSafe;
    CalmBoth(" — ", places);
    SafeJoin(" — ", places);
    if places != "" {
      CalmBoth(Prose(c, e.explanation), " — " + places);
      SafeJoin(Prose(c, e.explanation), " — " + places);
    } else {
      assert EvidenceLine(c, e) == Prose(c, e.explanation);
    }
    CalmIsPassed(EvidenceLine(c, e));
  }

  lemma {:induction false} LineOfJoin(s: string, rest: string)
    ensures LineOf(s + "\n" + rest) == LineOf(s)
  {
    var t := s + "\n" + rest;
    if |s| > 0 {
      assert t[0] == s[0] && t[1..] == s[1..] + "\n" + rest;
      LineOfJoin(s[1..], rest);
    }
  }

  lemma EvidenceStep(c: Codings, evidence: seq<Evidence>)
    requires |evidence| > 0
    ensures EvidenceText(c, evidence) ==
      EvidenceText(c, evidence[..|evidence| - 1]) + (EVIDENCE_MARK + EvidenceLine(c, evidence[|evidence| - 1]) + "\n")
  {
    hide Prose, LocationsText;
  }

  lemma MarksDiverge()
    ensures Diverges(EVIDENCE_MARK, ASSESSMENT_MARK) && Diverges(ASSESSMENT_MARK, EVIDENCE_MARK)
    ensures Free(EVIDENCE_MARK, '\n') && Free(ASSESSMENT_MARK, '\n')
    ensures "  -" <= EVIDENCE_MARK && "  -" <= ASSESSMENT_MARK
  {
    assert EVIDENCE_MARK[6] == 'E' && ASSESSMENT_MARK[6] == 'A';
  }

  lemma {:induction false} EvidenceRead(c: Codings, evidence: seq<Evidence>, rest: string)
    ensures MarkedLines(EvidenceText(c, evidence) + rest, true, EVIDENCE_MARK) ==
      FirstLines(c, evidence) + MarkedLines(rest, true, EVIDENCE_MARK)
    ensures MarkedLines(EvidenceText(c, evidence) + rest, true, ASSESSMENT_MARK) ==
      MarkedLines(rest, true, ASSESSMENT_MARK)
    decreases |evidence|
  {
    hide EvidenceLine, MarkedLines, LineOf, EvidenceText;
    if |evidence| == 0 {
      NoEvidence(c);
      assert "" + rest == rest;
      assert [] + MarkedLines(rest, true, EVIDENCE_MARK) == MarkedLines(rest, true, EVIDENCE_MARK);
    } else {
      var front, e := evidence[..|evidence| - 1], evidence[|evidence| - 1];
      var line := EvidenceLine(c, e) + "\n";
      EvidenceStep(c, evidence);
      EvidenceRead(c, front, EVIDENCE_MARK + line + rest);
      OneEvidenceRead(c, e, rest);
      assert EvidenceText(c, evidence) + rest == EvidenceText(c, front) + (EVIDENCE_MARK + line + rest);
    }
  }

  lemma NoEvidence(c: Codings)
    ensures EvidenceText(c, []) == ""
  {
  }

  lemma OneEvidenceRead(c: Codings, e: Evidence, rest: string)
    ensures MarkedLines(EVIDENCE_MARK + (EvidenceLine(c, e) + "\n") + rest, true, EVIDENCE_MARK) ==
      [LineOf(EvidenceLine(c, e))] + MarkedLines(rest, true, EVIDENCE_MARK)
    ensures MarkedLines(EVIDENCE_MARK + (EvidenceLine(c, e) + "\n") + rest, true, ASSESSMENT_MARK) ==
      MarkedLines(rest, true, ASSESSMENT_MARK)
  {
    EvidenceLinePassed(c, e);
    MarksDiverge();
    hide EvidenceLine, MarkedLines, LineOf, Passed, Diverges;
    var line := EvidenceLine(c, e) + "\n";
    MarkedLine(EVIDENCE_MARK, EVIDENCE_MARK, line, rest);
    MarkedLine(ASSESSMENT_MARK, EVIDENCE_MARK, line, rest);
    LineOfJoin(EvidenceLine(c, e), rest);
    assert [] + MarkedLines(rest, true, ASSESSMENT_MARK) == MarkedLines(rest, true, ASSESSMENT_MARK);
  }

  // ----- The explanation -----

  lemma {:induction false} LineOfLine(s: string)
    requires Free(s, '\n')
    ensures LineOf(s) == s
  {
    if |s| > 0 {
      assert s == [s[0]] + s[1..] && s[0] in s;
      LineOfLine(s[1..]);
    }
  }

  lemma CalmDrop(s: string, k: nat)
    requires Calm(s) && 0 < k <= |s| && s[k - 1] == '\n'
    ensures Calm(s[k..])
  {
    forall i | 0 <= i < |s[k..]| && LineStart(s[k..], i, true) ensures OpensNothing(s[k..][i]) {
      assert s[k..][i] == s[k + i] && LineStart(s, k + i, true);
    }
  }

  // No indented line comes first.
  predicate StopsBlock(t: string) {
    !("  " <= t) || "  -" <= t
  }

  lemma BlockStep(line: string, rest: string)
    requires Free(line, '\n') && (line != "" ==> line[0] != '-')
    ensures BlockOf("  " + line + "\n" + rest) == line + "\n" + BlockOf(rest)
  {
    var t := "  " + line + "\n" + rest;
    assert t[2..] == line + "\n" + rest && t[..2] == "  ";
    LineOfJoin(line, rest);
    LineOfLine(line);
    assert t[3 + |line|..] == rest;
    assert "  -"[2] == '-' && t[2] != '-';
  }

  /** An indented text comes back as it was, line by line. */
  lemma {:induction false} BlockRead(s: string, rest: string)
    requires Calm(s) && StopsBlock(rest)
    ensures BlockOf("  " + IndentMultiline(s, "  ") + "\n" + rest) == s + "\n"
    decreases |s|
  {
    hide BlockOf, ReplaceAll, Calm, StopsBlock;
    var line := LineOf(s);
    CalmStart(s);
    if |line| == |s| {
      assert line == s;
      ReplaceAbsent(s, '\n', "\n" + "  ");
      BlockStep(s, rest);
      BlockStops(rest);
    } else {
      var tail := s[|line| + 1..];
      assert s == line + ("\n" + tail);
      CalmDrop(s, |line| + 1);
      BlockRead(tail, rest);
      IndentedLines(line, tail);
      assert line != "" ==> line[0] == s[0];
      OneLineMore(line, IndentMultiline(tail, "  "), tail, rest);
    }
  }

  lemma CalmStart(s: string)
    requires Calm(s)
    ensures s != "" ==> s[0] != '-'
  {
    if s != "" { assert LineStart(s, 0, true); }
  }

  lemma BlockStops(rest: string)
    requires StopsBlock(rest)
    ensures BlockOf(rest) == ""
  {
  }

  lemma OneLineMore(line: string, indented: string, tail: string, rest: string)
    requires Free(line, '\n') && (line != "" ==> line[0] != '-')
    requires BlockOf("  " + indented + "\n" + rest) == tail + "\n"
    ensures BlockOf("  " + (line + ("\n" + ("  " + indented))) + "\n" + rest) == line + ("\n" + tail) + "\n"
  {
    hide BlockOf;
    var behind := "  " + indented + "\n" + rest;
    BlockStep(line, behind);
    assert "  " + (line + ("\n" + ("  " + indented))) + "\n" + rest == "  " + line + "\n" + behind;
    assert line + ("\n" + tail) + "\n" == line + "\n" + (tail + "\n");
  }

  lemma IndentedLines(line: string, tail: string)
    requires Free(line, '\n')
    ensures IndentMultiline(line + ("\n" + tail), "  ") == line + ("\n" + ("  " + IndentMultiline(tail, "  ")))
  {
    ReplaceJoin(line, "\n" + tail, '\n', "\n" + "  ");
    ReplaceAbsent(line, '\n', "\n" + "  ");
    assert ("\n" + tail)[1..] == tail;
    assert "\n" + "  " + IndentMultiline(tail, "  ") == "\n" + ("  " + IndentMultiline(tail, "  "));
  }

  // Lines behind an indentation of two blanks are passed over.
  lemma {:induction false} IndentedPassed(s: string, rest: string, mark: string)
    requires Calm(s) && "  -" <= mark
    ensures MarkedLines("  " + IndentMultiline(s, "  ") + "\n" + rest, true, mark) == MarkedLines(rest, true, mark)
    decreases |s|
  {
    hide MarkedLines, ReplaceAll, Calm;
    var line := LineOf(s);
    CalmStart(s);
    if |line| == |s| {
      assert line == s;
      ReplaceAbsent(s, '\n', "\n" + "  ");
      OneIndentedPassed(s, rest, mark);
    } else {
      var tail := s[|line| + 1..];
      assert s == line + ("\n" + tail);
      CalmDrop(s, |line| + 1);
      IndentedPassed(tail, rest, mark);
      IndentedLines(line, tail);
      assert line != "" ==> line[0] == s[0];
      OneIndentedMore(line, IndentMultiline(tail, "  "), rest, mark);
    }
  }

  lemma OneIndentedMore(line: string, indented: string, rest: string, mark: string)
    requires Free(line, '\n') && (line != "" ==> line[0] != '-') && "  -" <= mark
    requires MarkedLines("  " + indented + "\n" + rest, true, mark) == MarkedLines(rest, true, mark)
    ensures MarkedLines("  " + (line + ("\n" + ("  " + indented))) + "\n" + rest, true, mark) ==
      MarkedLines(rest, true, mark)
  {
    hide MarkedLines;
    var behind := "  " + indented + "\n" + rest;
    OneIndentedPassed(line, behind, mark);
    assert "  " + (line + ("\n" + ("  " + indented))) + "\n" + rest == "  " + line + "\n" + behind;
  }

  lemma OneIndentedPassed(line: string, rest: string, mark: string)
    requires Free(line, '\n') && (line != "" ==> line[0] != '-') && "  -" <= mark
    ensures MarkedLines("  " + line + "\n" + rest, true, mark) == MarkedLines(rest, true, mark)
  {
    var s := "  " + line + "\n";
    assert Free("  " + line, '\n');
    assert Passed("\n", false);
    assert s == ("  " + line) + "\n" && s[2] != '-';
    PassedJoin("  " + line, "\n", true);
    SkipLines(s, rest, true, mark);
    assert s + rest == "  " + line + "\n" + rest;
  }

  // ----- Everything below an item -----

  // What the report says of a text the model wrote: the text, or that it is withheld.
  function Said(c: Codings, value: string): string {
    if c.inert(value) then value else OMITTED
  }

  // What a reader is to find below the item of a finding.
  function BelowOf(c: Codings, f: Finding): Below {
    Below(if f.explanation == "" then "" else Said(c, f.explanation),
          match f.assessment
          case Present => Some("Present")
          case Addressed => None
          case NotApplicable => Some("Not applicable")
          case Unknown => Some("Unknown"),
          FirstLines(c, f.evidence))
  }

  function Explained(c: Codings, f: Finding): string {
    if f.explanation != "" then "  " + IndentMultiline(Prose(c, f.explanation), "  ") + "\n" else ""
  }

  function Judged(f: Finding): string {
    if f.assessment != Addressed then ASSESSMENT_MARK + Escape(AssessmentLabel(f.assessment)) + "\n" else ""
  }

  lemma DetailsAre(c: Codings, f: Finding, rest: string)
    ensures Details(c, f) + "\n" + rest ==
      "\n" + (Explained(c, f) + (Judged(f) + (EvidenceText(c, f.evidence) + ("\n" + rest))))
  {
    hide Prose, IndentMultiline, Escape, AssessmentLabel, EvidenceText;
    var e, j, told := Explained(c, f), Judged(f), EvidenceText(c, f.evidence);
    assert Details(c, f) == "\n" + e + j + told;
    Regrouped("\n" + e, j, told, "\n" + rest);
    Regrouped("\n", e, j + told, "\n" + rest);
    assert Details(c, f) + "\n" + rest == Details(c, f) + ("\n" + rest);
  }

  lemma Regrouped(a: string, b: string, d: string, e: string)
    ensures a + b + d + e == a + (b + (d + e)) == a + ((b + d) + e)
  {
  }

  lemma LabelShown(a: Assessment)
    requires a != Addressed
    ensures Some(AssessmentLabel(a)) == match a
      case Present => Some("Present")
      case Addressed => None
      case NotApplicable => Some("Not applicable")
      case Unknown => Some("Unknown")
    ensures Free(AssessmentLabel(a), '\n')
  {
  }

  lemma EscapeKeepsLine(s: string)
    requires Free(s, '\n')
    ensures Free(Escape(s), '\n')
  {
    var a := ReplaceAll(s, '&', "&amp;");
    var b := ReplaceAll(a, '<', "&lt;");
    ReplaceKeepsFree(s, '&', "&amp;", '\n');
    ReplaceKeepsFree(a, '<', "&lt;", '\n');
    ReplaceKeepsFree(b, '>', "&gt;", '\n');
    SubstituteKeepsFree(ReplaceAll(b, '>', "&gt;"), '\n');
    GuardKeepsFree(Substitute(ReplaceAll(b, '>', "&gt;")), true, '\n');
  }

  // The assessment is one marked line, or none for what is addressed.
  lemma JudgedRead(f: Finding, rest: string)
    ensures MarkedLines(Judged(f) + rest, true, ASSESSMENT_MARK) ==
      (if f.assessment != Addressed then [Escape(AssessmentLabel(f.assessment))] else []) +
      MarkedLines(rest, true, ASSESSMENT_MARK)
    ensures MarkedLines(Judged(f) + rest, true, EVIDENCE_MARK) == MarkedLines(rest, true, EVIDENCE_MARK)
  {
    hide MarkedLines, LineOf, Escape;
    if f.assessment == Addressed {
      assert "" + rest == rest;
      assert [] + MarkedLines(rest, true, ASSESSMENT_MARK) == MarkedLines(rest, true, ASSESSMENT_MARK);
    } else {
      LabelShown(f.assessment);
      hide AssessmentLabel;
      LabelRead(Escape(AssessmentLabel(f.assessment)), AssessmentLabel(f.assessment), rest);
    }
  }

  lemma LabelRead(shown: string, name: string, rest: string)
    requires shown == Escape(name) && Free(name, '\n')
    ensures MarkedLines(ASSESSMENT_MARK + shown + "\n" + rest, true, ASSESSMENT_MARK) ==
      [shown] + MarkedLines(rest, true, ASSESSMENT_MARK)
    ensures MarkedLines(ASSESSMENT_MARK + shown + "\n" + rest, true, EVIDENCE_MARK) ==
      MarkedLines(rest, true, EVIDENCE_MARK)
  {
    hide MarkedLines, LineOf, Escape, Passed, Diverges, Calm, DashSafe;
    EscapeKeepsLine(name);
    EscapeCalm(name);
    EscapeSafe(name);
    EscapeHasNoAngles(name);
    CalmIsPassed(shown);
    MarksDiverge();
    MarkedLine(ASSESSMENT_MARK, ASSESSMENT_MARK, shown + "\n", rest);
    MarkedLine(EVIDENCE_MARK, ASSESSMENT_MARK, shown + "\n", rest);
    LineOfJoin(shown, rest);
    LineOfLine(shown);
    assert ASSESSMENT_MARK + (shown + "\n") + rest == ASSESSMENT_MARK + shown + "\n" + rest;
    assert [] + MarkedLines(rest, true, EVIDENCE_MARK) == MarkedLines(rest, true, EVIDENCE_MARK);
  }

  lemma ExplainedPassed(c: Codings, f: Finding, rest: string, mark: string)
    requires "  -" <= mark
    ensures MarkedLines(Explained(c, f) + rest, true, mark) == MarkedLines(rest, true, mark)
  {
    hide MarkedLines, Prose, IndentMultiline;
    if f.explanation == "" {
      assert "" + rest == rest;
    } else {
      ProseCalm(c, f.explanation);
      IndentedPassed(Prose(c, f.explanation), rest, mark);
    }
  }

  lemma {:induction false} EvidenceStarts(c: Codings, evidence: seq<Evidence>)
    ensures evidence != [] ==> EVIDENCE_MARK <= EvidenceText(c, evidence)
  {
    if |evidence| > 0 {
      EvidenceStarts(c, evidence[..|evidence| - 1]);
      EvidenceStep(c, evidence);
      hide EvidenceText, EvidenceLine;
      if |evidence| == 1 { NoEvidence(c); }
    }
  }

  // What comes behind the explanation is no indented line.
  lemma BehindStops(c: Codings, f: Finding, rest: string)
    ensures StopsBlock(Judged(f) + (EvidenceText(c, f.evidence) + ("\n" + rest)))
  {
    EvidenceStarts(c, f.evidence);
    MarksDiverge();
    if f.assessment != Addressed {
      assert ASSESSMENT_MARK <= Judged(f) + (EvidenceText(c, f.evidence) + ("\n" + rest));
    } else if f.evidence != [] {
      assert EVIDENCE_MARK <= EvidenceText(c, f.evidence) + ("\n" + rest);
    } else {
      NoEvidence(c);
      var t := Judged(f) + (EvidenceText(c, f.evidence) + ("\n" + rest));
      assert t == "\n" + rest && t[0] == '\n';
    }
  }

  lemma ExplanationRead(c: Codings, f: Finding, rest: string)
    requires StopsBlock(rest)
    ensures BlockOf(Explained(c, f) + rest) == if f.explanation == "" then "" else Prose(c, f.explanation) + "\n"
  {
    hide Prose, BlockOf, IndentMultiline, StopsBlock;
    if f.explanation == "" {
      assert "" + rest == rest;
      BlockStops(rest);
    } else {
      ProseCalm(c, f.explanation);
      BlockRead(Prose(c, f.explanation), rest);
    }
  }

  /** Below an item a reader finds the explanation as it was written, the assessment unless the
      finding is addressed, and one line for every piece of evidence, in order. */
  lemma BelowRead(c: Codings, f: Finding, rest: string)
    requires Silent(rest)
    ensures ReadBelow(Details(c, f) + "\n" + rest) == BelowOf(c, f)
  {
    var behind := EvidenceText(c, f.evidence) + ("\n" + rest);
    var t := Explained(c, f) + (Judged(f) + behind);
    DetailsAre(c, f, rest);
    BehindStops(c, f, rest);
    ExplanationRead(c, f, Judged(f) + behind);
    MarksDiverge();
    assert Passed("\n", true);
    SilentBehind("\n", rest);
    hide MarkedLines, Details, Explained, Judged, EvidenceText, Prose, Unescape, FirstLines, BlockOf, Escape, Diverges;
    ExplainedPassed(c, f, Judged(f) + behind, ASSESSMENT_MARK);
    ExplainedPassed(c, f, Judged(f) + behind, EVIDENCE_MARK);
    JudgedRead(f, behind);
    EvidenceRead(c, f.evidence, "\n" + rest);
    assert ("\n" + t)[1..] == t;
    ProseRead(c, f.explanation);
    assert (Prose(c, f.explanation) + "\n")[..|Prose(c, f.explanation) + "\n"| - 1] == Prose(c, f.explanation);
    if f.assessment != Addressed {
      UnescapeEscape(AssessmentLabel(f.assessment));
      LabelShown(f.assessment);
    }
    assert FirstLines(c, f.evidence) + [] == FirstLines(c, f.evidence);
  }
}
