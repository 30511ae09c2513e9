/** Text line by line: which lines open an item or a heading, and which escaped text
    keeps them from doing so (escape and indentMultiline, internal/markdown/codec.go). */
module Lines {
  import opened Domain
  import opened Text
  import opened ReportText
  import opened Rendering

  // ----- Lines that open nothing -----

  function LineOf(t: string): (line: string)
    ensures line <= t && '\n' !in line && (|line| < |t| ==> t[|line|] == '\n')
  {
    if |t| == 0 || t[0] == '\n' then "" else [t[0]] + LineOf(t[1..])
  }

  predicate LineStart(s: string, i: nat, start: bool)
    requires i < |s|
  {
    if i == 0 then start else s[i - 1] == '\n'
  }

  predicate OpensNothing(x: char) {
    x != '-' && x != '#'
  }

  // No line that starts here starts an item or a heading.
  predicate CalmFrom(s: string, start: bool) {
    forall i :: 0 <= i < |s| && LineStart(s, i, start) ==> OpensNothing(s[i])
  }

  predicate Calm(s: string) {
    CalmFrom(s, true)
  }

  predicate EndsLine(s: string, start: bool) {
    if s == "" then start else s[|s| - 1] == '\n'
  }

  lemma CalmTail(s: string, start: bool)
    requires |s| > 0 && CalmFrom(s, start)
    ensures CalmFrom(s[1..], s[0] == '\n') && EndsLine(s[1..], s[0] == '\n') == EndsLine(s, start)
  {
    forall i | 0 <= i < |s[1..]| && LineStart(s[1..], i, s[0] == '\n') ensures OpensNothing(s[1..][i]) {
      assert LineStart(s, i + 1, start) && s[1..][i] == s[i + 1];
    }
  }

  lemma CalmJoin(a: string, b: string, start: bool)
    requires CalmFrom(a, start) && CalmFrom(b, EndsLine(a, start))
    ensures CalmFrom(a + b, start)
  {
    forall i | 0 <= i < |a + b| && LineStart(a + b, i, start) ensures OpensNothing((a + b)[i]) {
      if i < |a| {
        assert LineStart(a, i, start) && (a + b)[i] == a[i];
      } else {
        assert LineStart(b, i - |a|, EndsLine(a, start)) && (a + b)[i] == b[i - |a|];
      }
    }
  }

  lemma CalmBoth(a: string, b: string)
    requires Calm(a) && Calm(b)
    ensures Calm(a + b)
  {
    CalmJoin(a, b, true);
  }

  // One line that does not start with a dash or a hash.
  lemma CalmLine(s: string)
    requires Free(s, '\n') && (s == "" || OpensNothing(s[0]))
    ensures Calm(s) && Calm(s + "\n")
  {
    forall i | 0 <= i < |s| ensures s[i] != '\n' { assert s[i] in s; }
  }

  // A paragraph of one line.
  lemma CalmParagraph(s: string)
    requires Free(s, '\n') && (s == "" || OpensNothing(s[0]))
    ensures Calm(s + "\n\n")
  {
    CalmLine(s);
    CalmBoth(s + "\n", "\n");
    assert s + "\n" + "\n" == s + "\n\n";
  }

  lemma {:induction false} LineRead(line: string, rest: string)
    requires Free(line, '\n')
    ensures LineOf(line + "\n" + rest) == line
  {
    var t := line + "\n" + rest;
    if |line| > 0 {
      assert line == [line[0]] + line[1..] && line[0] in line;
      assert t[0] == line[0] && t[1..] == line[1..] + "\n" + rest;
      LineRead(line[1..], rest);
    }
  }

  // ----- First occurrences -----

  lemma {:induction false} FirstAt(s: string, t: string, m: string)
    requires |m| > 0 && Free(s, m[0]) && m <= t
    ensures IndexOf(s + t, m) == Some(|s|)
  {
    if |s| == 0 {
      assert s + t == t;
    } else {
      assert s[0] in s && (s + t)[0] == s[0] && (s + t)[1..] == s[1..] + t;
      assert s == [s[0]] + s[1..];
      FirstAt(s[1..], t, m);
    }
  }

  // What follows the first occurrence of a literal.
  function Behind(t: string, literal: string): Option<string> {
    var at := IndexOf(t, literal);
    if at.None? then None else Some(t[at.value + |literal|..])
  }

  lemma BehindFirst(s: string, literal: string, t: string)
    requires |literal| > 0 && Free(s, literal[0])
    ensures Behind(s + (literal + t), literal) == Some(t)
  {
    FirstAt(s, literal + t, literal);
    assert (s + (literal + t))[|s| + |literal|..] == t;
  }

  lemma NotPrefix(literal: string, t: string)
    requires |literal| > 0 && |t| > 0 && literal[0] != t[0]
    ensures !(literal <= t)
  {
  }

  // ----- Every part of a finding is calm -----

  lemma BlankEscaped(x: char)
    requires x == '\n' || x == ' ' || x == '\t' || x == '/'
    ensures Escaped(x) == [x]
  {
  }

  lemma CalmPiece(x: char)
    requires x != '\n' && x != ' ' && x != '\t' && x != '/'
    ensures Calm(Escaped(x))
  {
    PlainStart(x);
    CalmLine(Escaped(x));
  }

  lemma {:induction false} EscapedCalm(s: string, guard: bool)
    ensures Calm(GuardLines(EscapedAll(s), guard))
    decreases |s|
  {
    if |s| > 0 {
      var x, tail := s[0], EscapedAll(s[1..]);
      if x == '\n' || x == ' ' || x == '\t' || x == '/' {
        var next := x == '\n' || (guard && (x == ' ' || x == '\t'));
        BlankEscaped(x);
        GuardOne(x, tail, guard);
        EscapedCalm(s[1..], next);
        var piece := if guard && x == '/' then ['\\', x] else [x];
        CalmBoth(piece, GuardLines(tail, next));
      } else {
        PlainStart(x);
        GuardPiece(Escaped(x), tail, guard);
        EscapedCalm(s[1..], false);
        CalmPiece(x);
        CalmBoth(Escaped(x), GuardLines(tail, false));
      }
    }
  }

  lemma EscapeCalm(s: string)
    ensures Calm(Escape(s))
  {
    StagesArePerCharacter(s);
    EscapedCalm(s, true);
  }

  lemma OmittedLine()
    ensures Free(OMITTED, '\n') && OMITTED[0] == 'C'
  {
  }

  lemma ProseCalm(c: Codings, value: string)
    ensures Calm(Prose(c, value))
  {
    hide Escape;
    EscapeCalm(value);
    OmittedLine();
    CalmLine(OMITTED);
  }

  lemma {:induction false} IndentedCalm(s: string, start: bool)
    requires |s| > 0 && start ==> OpensNothing(s[0])
    ensures CalmFrom(IndentMultiline(s, "  "), start)
  {
    if |s| > 0 {
      IndentedCalm(s[1..], false);
      var piece := if s[0] == '\n' then "\n  " else [s[0]];
      assert CalmFrom(piece, start);
      CalmJoin(piece, IndentMultiline(s[1..], "  "), start);
    }
  }

  lemma DigitsLine(n: nat)
    ensures Free(Decimal(n), '\n')
  {
    DecimalIsPlain(n);
    assert !IsDigit('\n');
  }

  lemma LocationCalm(l: Location)
    ensures Calm(LocationText(l))
  {
    hide Decimal, Escape;
    EscapeCalm(l.path);
    DigitsLine(l.startLine);
    DigitsLine(l.endLine);
    var lines := ":" + Decimal(l.startLine) + if l.endLine > l.startLine then "-" + Decimal(l.endLine) else "";
    CalmLine(lines);
    CalmLine("");
    CalmBoth(Escape(l.path), if l.startLine > 0 then lines else "");
  }

  lemma {:induction false} LocationsCalm(ls: seq<Location>)
    ensures Calm(LocationsText(ls))
  {
    hide LocationText;
    if |ls| > 0 {
      var l := ls[|ls| - 1];
      LocationCalm(l);
      if |ls| > 1 {
        LocationsCalm(ls[..|ls| - 1]);
        CalmLine(", ");
        CalmBoth(LocationsText(ls[..|ls| - 1]), ", ");
        CalmBoth(LocationsText(ls[..|ls| - 1]) + ", ", LocationText(l));
      }
    }
  }

  lemma EvidenceLineCalm(c: Codings, e: Evidence)
    ensures var places := LocationsText(e.locations);
      Calm("  - **Evidence:** " + Prose(c, e.explanation) + (if places != "" then " — " + places else "") + "\n")
  {
    hide Prose, LocationsText;
    var places := LocationsText(e.locations);
    ProseCalm(c, e.explanation);
    LocationsCalm(e.locations);
    CalmLine("  - **Evidence:** ");
    CalmLine(" — ");
    CalmLine("");
    CalmBoth(" — ", places);
    var said := "  - **Evidence:** " + Prose(c, e.explanation);
    CalmBoth("  - **Evidence:** ", Prose(c, e.explanation));
    var shown := if places != "" then " — " + places else "";
    CalmBoth(said, shown);
    CalmBoth(said + shown, "\n");
  }

  lemma {:induction false} EvidenceCalm(c: Codings, evidence: seq<Evidence>)
    ensures Calm(EvidenceText(c, evidence))
  {
    hide Prose, LocationsText;
    if |evidence| > 0 {
      var e, before := evidence[|evidence| - 1], EvidenceText(c, evidence[..|evidence| - 1]);
      EvidenceCalm(c, evidence[..|evidence| - 1]);
      EvidenceLineCalm(c, e);
      var places := LocationsText(e.locations);
      var behind := if places != "" then " — " + places else "";
      var line := "  - **Evidence:** " + Prose(c, e.explanation) + behind + "\n";
      CalmBoth(before, line);
      assert EvidenceText(c, evidence) == before + line;
    }
  }

  lemma ExplanationCalm(c: Codings, value: string)
    ensures Calm("  " + IndentMultiline(Prose(c, value), "  ") + "\n")
  {
    hide Prose, IndentMultiline;
    var prose := Prose(c, value);
    ProseCalm(c, value);
    assert |prose| > 0 ==> LineStart(prose, 0, true);
    IndentedCalm(prose, true);
    CalmLine("  ");
    CalmBoth("  ", IndentMultiline(prose, "  "));
    CalmBoth("  " + IndentMultiline(prose, "  "), "\n");
  }

  lemma DetailsCalm(c: Codings, f: Finding)
    ensures Calm(Details(c, f) + "\n") && EndsLine(Details(c, f) + "\n", false)
  {
    hide Prose, Escape, EvidenceText, IndentMultiline;
    var explained := if f.explanation != "" then "  " + IndentMultiline(Prose(c, f.explanation), "  ") + "\n" else "";
    var named := Escape(AssessmentLabel(f.assessment));
    var judged := if f.assessment != Addressed then "  - **Assessment:** " + named + "\n" else "";
    ExplanationCalm(c, f.explanation);
    EscapeCalm(AssessmentLabel(f.assessment));
    EvidenceCalm(c, f.evidence);
    CalmLine("  - **Assessment:** ");
    CalmBoth("  - **Assessment:** ", named);
    CalmBoth("  - **Assessment:** " + named, "\n");
    CalmBoth("\n", explained);
    CalmBoth("\n" + explained, judged);
    CalmBoth("\n" + explained + judged, EvidenceText(c, f.evidence));
    CalmBoth(Details(c, f), "\n");
  }

  // ----- Shown text is read back -----

  lemma ProseRead(c: Codings, value: string)
    ensures Unescape(Prose(c, value)) == if c.inert(value) then value else OMITTED
  {
    hide Escape, Unescape;
    UnescapeEscape(value);
    OmittedRead();
  }

  lemma OmittedRead()
    ensures Unescape(OMITTED) == OMITTED
  {
    var a, b := "Code excerpt omitted; ", "refer to the cited source.";
    assert Free(a, '\\') && Free(a, '&') && Free(b, '\\') && Free(b, '&');
    hide Unescape, Free;
    UnescapePlain(a, b);
    UnescapePlain(b, "");
    assert b + "" == b;
    assert Unescape("") == "" by { UnescapeNothing(); }
  }

  lemma UnescapeNothing()
    ensures Unescape("") == ""
  {
  }

  lemma {:induction false} UnescapePlain(s: string, rest: string)
    requires Free(s, '\\') && Free(s, '&')
    ensures Unescape(s + rest) == s + Unescape(rest)
  {
    hide Unescape;
    if |s| == 0 {
      assert s + rest == rest;
    } else {
      assert s[0] in s && s == [s[0]] + s[1..];
      assert (s + rest)[0] == s[0] && (s + rest)[1..] == s[1..] + rest;
      UnescapeFirst(s + rest);
      UnescapePlain(s[1..], rest);
    }
  }

  lemma UnescapeFirst(t: string)
    requires |t| > 0 && t[0] != '\\' && t[0] != '&'
    ensures Unescape(t) == [t[0]] + Unescape(t[1..])
  {
    NotPrefix("&amp;", t);
    NotPrefix("&lt;", t);
    NotPrefix("&gt;", t);
  }
}
