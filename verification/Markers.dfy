/** What a rendered report guarantees whatever the findings say: one state marker,
    one marker for every finding, and a state that reads back. */
module Markers {
  import opened Domain
  import opened Text
  import opened ReportCodec
  import opened ReportText
  import opened Rendering

  // ----- The marker looked for: the state's, or the one of a finding -----

  function PatternOf(c: Codings, want: Option<FindingId>): string {
    if want.None? then STATE_PREFIX else FindingMarker(c, want.value)
  }

  predicate Wanted(want: Option<FindingId>) {
    want.Some? ==> want.value != ""
  }

  lemma FindingMarkerShape(c: Codings, id: FindingId)
    requires Lawful(c) && id != ""
    ensures Base64Text(c.base64(id))
    ensures TagPattern(FindingMarker(c, id))
  {
    assert LawfulBase64(c, id);
    Base64Free(c.base64(id), '<');
    assert FindingMarker(c, id)[1..] == FINDING_PREFIX[1..] + c.base64(id) + CLOSE;
  }

  lemma PatternIsTag(c: Codings, want: Option<FindingId>)
    requires Lawful(c) && Wanted(want)
    ensures TagPattern(PatternOf(c, want))
  {
    if want.Some? { FindingMarkerShape(c, want.value); }
  }

  // Two different values closed by a blank they do not contain part within both.
  lemma {:induction false} ClosedDiverge(a: string, b: string, close: string)
    requires a != b && Free(a, ' ') && Free(b, ' ') && |close| > 0 && close[0] == ' '
    ensures Diverges(a + close, b + close)
  {
    var x, y := a + close, b + close;
    if |a| == 0 {
      assert x[0] == ' ' && y[0] == b[0] && b[0] in b;
    } else if |b| == 0 {
      assert y[0] == ' ' && x[0] == a[0] && a[0] in a;
    } else if a[0] != b[0] {
      assert x[0] == a[0] && y[0] == b[0];
    } else {
      assert a == [a[0]] + a[1..] && b == [b[0]] + b[1..];
      ClosedDiverge(a[1..], b[1..], close);
      assert x == [a[0]] + (a[1..] + close) && y == [a[0]] + (b[1..] + close);
      PrefixDiverge([a[0]], a[1..] + close, b[1..] + close);
    }
  }

  lemma PrefixDiverge(p: string, x: string, y: string)
    requires Diverges(x, y)
    ensures Diverges(p + x, p + y)
  {
    var k :| 0 <= k < |y| && k < |x| && x[k] != y[k];
    assert (p + x)[|p| + k] == x[k] && (p + y)[|p| + k] == y[k];
  }

  /** A finding's marker is the wanted one or parts from it within both. */
  lemma MarkersApart(c: Codings, id: FindingId, want: Option<FindingId>)
    requires Lawful(c) && id != "" && Wanted(want)
    ensures want == Some(id) ==> PatternOf(c, want) == FindingMarker(c, id)
    ensures want != Some(id) ==> Diverges(FindingMarker(c, id), PatternOf(c, want))
  {
    var m := FindingMarker(c, id);
    if want.None? {
      assert m[15] == FINDING_PREFIX[15] == 'f' && STATE_PREFIX[15] == 's';
    } else if want.value != id {
      FindingMarkerShape(c, id);
      FindingMarkerShape(c, want.value);
      assert LawfulBase64(c, id) && LawfulBase64(c, want.value);
      Base64Free(c.base64(id), ' ');
      Base64Free(c.base64(want.value), ' ');
      ClosedDiverge(c.base64(id), c.base64(want.value), CLOSE);
      PrefixDiverge(FINDING_PREFIX, c.base64(id) + CLOSE, c.base64(want.value) + CLOSE);
      assert FINDING_PREFIX + (c.base64(id) + CLOSE) == m;
      assert FINDING_PREFIX + (c.base64(want.value) + CLOSE) == FindingMarker(c, want.value);
    }
  }

  lemma DivergingIsNoPrefix(s: string, m: string)
    requires Diverges(s, m)
    ensures !(m <= s) && DecidedAt(s, m)
  {
  }

  lemma MarkerCount(c: Codings, id: FindingId, want: Option<FindingId>)
    requires Lawful(c) && id != "" && Wanted(want)
    ensures PatternOf(c, want) != ""
    ensures Decided(FindingMarker(c, id), PatternOf(c, want))
    ensures Count(FindingMarker(c, id), PatternOf(c, want)) == if want == Some(id) then 1 else 0
  {
    var s, m := FindingMarker(c, id), PatternOf(c, want);
    hide FindingMarker, PatternOf, Count, Decided, TagPattern;
    FindingMarkerShape(c, id);
    PatternIsTag(c, want);
    MarkersApart(c, id, want);
    TagNotEmpty(m);
    if want != Some(id) { DivergingIsNoPrefix(s, m); }
    assert FindingMarker(c, id) == s;
    TagPiece(s, m);
  }

  lemma TagNotEmpty(m: string)
    requires TagPattern(m)
    ensures m != ""
  {
  }

  // ----- Everything but markers is plain -----

  lemma DecimalPlain(n: nat)
    ensures Free(Decimal(n), '<')
  {
    DecimalIsPlain(n);
    assert !IsDigit('<');
  }

  lemma ProsePlain(c: Codings, value: string)
    ensures Free(Prose(c, value), '<')
  {
    EscapeHasNoAngles(value);
    OmittedPlain();
  }

  lemma OmittedPlain()
    ensures Free(OMITTED, '<')
  {
  }

  lemma {:induction false} LocationsPlain(ls: seq<Location>)
    ensures Free(LocationsText(ls), '<')
  {
    hide Decimal, Escape;
    if |ls| > 0 {
      var l := ls[|ls| - 1];
      EscapeHasNoAngles(l.path);
      DecimalPlain(l.startLine);
      DecimalPlain(l.endLine);
      assert Free(LocationText(l), '<');
      if |ls| > 1 { LocationsPlain(ls[..|ls| - 1]); }
    }
  }

  lemma {:induction false} EvidencePlain(c: Codings, evidence: seq<Evidence>)
    ensures Free(EvidenceText(c, evidence), '<')
  {
    hide Prose, LocationsText;
    if |evidence| > 0 {
      EvidencePlain(c, evidence[..|evidence| - 1]);
      ProsePlain(c, evidence[|evidence| - 1].explanation);
      LocationsPlain(evidence[|evidence| - 1].locations);
    }
  }

  lemma HeadlinePlain(c: Codings, f: Finding, st: FindingState)
    ensures Free(Headline(c, f, st), '<')
  {
    hide Prose;
    ProsePlain(c, f.title);
  }

  lemma DetailsPlain(c: Codings, f: Finding)
    ensures Free(Details(c, f) + "\n", '<')
  {
    hide Prose, Escape, EvidenceText;
    ProsePlain(c, f.explanation);
    ReplaceKeepsFree(Prose(c, f.explanation), '\n', "\n" + "  ", '<');
    EscapeHasNoAngles(AssessmentLabel(f.assessment));
    EvidencePlain(c, f.evidence);
  }

  // ----- Counting markers through the groups -----

  function Named(fs: seq<Finding>, want: Option<FindingId>): nat {
    if |fs| == 0 then 0
    else Named(fs[..|fs| - 1], want) + if want == Some(fs[|fs| - 1].id) then 1 else 0
  }

  lemma NobodyNamed(want: Option<FindingId>)
    ensures Named([], want) == 0
  {
  }

  lemma {:induction false} NamedJoin(a: seq<Finding>, b: seq<Finding>, want: Option<FindingId>)
    ensures Named(a + b, want) == Named(a, want) + Named(b, want)
  {
    if |b| == 0 {
      assert a + b == a;
    } else {
      assert (a + b)[..|a + b| - 1] == a + b[..|b| - 1];
      NamedJoin(a, b[..|b| - 1], want);
    }
  }

  // These pieces hold the wanted marker `n` times, whatever follows them.
  predicate Holds(pieces: seq<string>, m: string, n: nat) {
    m != "" && AllDecided(pieces, m) && CountIn(pieces, m) == n
  }

  lemma HoldsJoin(a: seq<string>, b: seq<string>, m: string, n: nat, k: nat)
    requires Holds(a, m, n) && Holds(b, m, k)
    ensures Holds(a + b, m, n + k)
  {
    CountInJoin(a, b, m);
  }

  lemma HoldsPlain(s: string, m: string)
    requires Free(s, '<') && TagPattern(m)
    ensures Holds([s], m, 0)
  {
    PlainPiece(s, m);
    assert [s][1..] == [];
  }

  lemma HoldsNothing(m: string)
    requires m != ""
    ensures Holds([], m, 0)
  {
  }

  lemma HoldsOne(b: string, m: string, n: nat)
    requires m != "" && Decided(b, m) && Count(b, m) == n
    ensures Holds([b], m, n)
  {
    assert [b][1..] == [];
  }

  lemma HoldsBetween(a: string, b: string, d: string, m: string, n: nat)
    requires TagPattern(m) && Free(a, '<') && Free(d, '<')
    requires Decided(b, m) && Count(b, m) == n
    ensures Holds([a, b, d], m, n)
  {
    TagNotEmpty(m);
    hide Count, Decided, TagPattern, Free, Holds;
    HoldsPlain(a, m);
    HoldsPlain(d, m);
    HoldsOne(b, m, n);
    HoldsJoin([b], [d], m, n, 0);
    HoldsJoin([a], [b] + [d], m, 0, n);
    assert [a] + ([b] + [d]) == [a, b, d];
  }

  // A group behind its heading.
  lemma HoldsHeaded(before: seq<string>, heading: string, pieces: seq<string>, m: string, k: nat, n: nat)
    requires TagPattern(m) && Holds(before, m, k) && Free(heading, '<') && Holds(pieces, m, n)
    ensures Holds(before + ([heading] + pieces), m, k + n)
  {
    hide Holds, TagPattern, Free;
    HoldsPlain(heading, m);
    HoldsJoin([heading], pieces, m, 0, n);
    HoldsJoin(before, [heading] + pieces, m, k, n);
  }

  lemma FindingHolds(c: Codings, f: Finding, st: FindingState, want: Option<FindingId>)
    requires Lawful(c) && f.id != "" && Wanted(want)
    ensures Holds(FindingPieces(c, f, st), PatternOf(c, want), if want == Some(f.id) then 1 else 0)
  {
    hide Headline, FindingMarker, Details, PatternOf, Count, Decided, TagPattern, Free, Holds, Lawful;
    PatternIsTag(c, want);
    HeadlinePlain(c, f, st);
    DetailsPlain(c, f);
    MarkerCount(c, f.id, want);
    HoldsBetween(Headline(c, f, st), FindingMarker(c, f.id), Details(c, f) + "\n", PatternOf(c, want),
                 if want == Some(f.id) then 1 else 0);
  }

  predicate Identified(fs: seq<Finding>) {
    forall i :: 0 <= i < |fs| ==> fs[i].id != ""
  }

  lemma {:induction false} ListHolds(c: Codings, fs: seq<Finding>, st: FindingState, want: Option<FindingId>)
    requires Lawful(c) && Wanted(want) && Identified(fs)
    ensures Holds(ListPieces(c, fs, st), PatternOf(c, want), Named(fs, want))
  {
    hide Lawful, Holds, FindingPieces, PatternOf;
    if |fs| == 0 {
      PatternIsTag(c, want);
      TagNotEmpty(PatternOf(c, want));
      HoldsNothing(PatternOf(c, want));
    } else {
      var f := fs[|fs| - 1];
      ListHolds(c, fs[..|fs| - 1], st, want);
      FindingHolds(c, f, st, want);
      HoldsJoin(ListPieces(c, fs[..|fs| - 1], st), FindingPieces(c, f, st), PatternOf(c, want),
                Named(fs[..|fs| - 1], want), if want == Some(f.id) then 1 else 0);
    }
  }

  lemma {:induction false} SelectIdentified(fs: seq<Finding>, st: FindingState, cat: Category, sub: Subcategory)
    requires Identified(fs)
    ensures Identified(Select(fs, st, cat, sub))
  {
    if |fs| > 0 { SelectIdentified(fs[..|fs| - 1], st, cat, sub); }
  }

  lemma HeadingsPlain(cat: Category, sub: Subcategory)
    ensures Free("#### " + SubcategoryLabel(sub) + "\n\n", '<')
    ensures Free("### " + CategoryLabel(cat) + "\n\n", '<')
  {
    assert Free(SubcategoryLabel(sub), '<') && Free(CategoryLabel(cat), '<');
  }

  lemma {:induction false} SubcategoriesHold(c: Codings, fs: seq<Finding>, st: FindingState, cat: Category,
                                             subs: seq<Subcategory>, want: Option<FindingId>)
    requires Lawful(c) && Wanted(want) && Identified(fs)
    ensures Holds(SubcategoryPieces(c, fs, st, cat, subs), PatternOf(c, want),
                  Named(InSubcategories(fs, st, cat, subs), want))
  {
    hide Lawful, Holds, PatternOf, ListPieces, Select, TagPattern, Identified, Named, Free, SubcategoryLabel;
    var m := PatternOf(c, want);
    PatternIsTag(c, want);
    TagNotEmpty(m);
    HoldsNothing(m);
    NobodyNamed(want);
    if |subs| > 0 {
      var front, sub := subs[..|subs| - 1], subs[|subs| - 1];
      var group, heading := Select(fs, st, cat, sub), "#### " + SubcategoryLabel(sub) + "\n\n";
      var before := SubcategoryPieces(c, fs, st, cat, front);
      SubcategoriesHold(c, fs, st, cat, front, want);
      SelectIdentified(fs, st, cat, sub);
      NamedJoin(InSubcategories(fs, st, cat, front), group, want);
      HeadingsPlain(cat, sub);
      if group == [] {
        assert before + [] == before;
        assert InSubcategories(fs, st, cat, front) + [] == InSubcategories(fs, st, cat, front);
      } else {
        ListHolds(c, group, st, want);
        HoldsHeaded(before, heading, ListPieces(c, group, st), m,
                    Named(InSubcategories(fs, st, cat, front), want), Named(group, want));
      }
    }
  }

  lemma {:induction false} CategoriesHold(c: Codings, fs: seq<Finding>, st: FindingState, cats: seq<Category>,
                                          subs: seq<Subcategory>, want: Option<FindingId>)
    requires Lawful(c) && Wanted(want) && Identified(fs)
    ensures Holds(CategoryPieces(c, fs, st, cats, subs), PatternOf(c, want),
                  Named(InCategories(fs, st, cats, subs), want))
  {
    hide Lawful, Holds, PatternOf, SubcategoryPieces, InSubcategories, TagPattern, Identified, ContainsGroup, Named;
    hide Free, CategoryLabel;
    var m := PatternOf(c, want);
    PatternIsTag(c, want);
    TagNotEmpty(m);
    HoldsNothing(m);
    NobodyNamed(want);
    if |cats| > 0 {
      var front, cat := cats[..|cats| - 1], cats[|cats| - 1];
      var heading := "### " + CategoryLabel(cat) + "\n\n";
      var before, groups := CategoryPieces(c, fs, st, front, subs), SubcategoryPieces(c, fs, st, cat, subs);
      CategoriesHold(c, fs, st, front, subs, want);
      NamedJoin(InCategories(fs, st, front, subs), InSubcategories(fs, st, cat, subs), want);
      HeadingsPlain(cat, Security);
      if !ContainsGroup(fs, st, cat) {
        EmptyCategory(fs, st, cat, subs);
        assert before + [] == before;
        assert InCategories(fs, st, front, subs) + [] == InCategories(fs, st, front, subs);
      } else {
        SubcategoriesHold(c, fs, st, cat, subs, want);
        HoldsHeaded(before, heading, groups, m,
                    Named(InCategories(fs, st, front, subs), want), Named(InSubcategories(fs, st, cat, subs), want));
      }
    }
  }

  // ----- The whole report -----

  lemma {:induction false} NoneInState(fs: seq<Finding>, st: FindingState, cats: seq<Category>, subs: seq<Subcategory>)
    requires StateCount(fs, st) == 0
    ensures InCategories(fs, st, cats, subs) == []
  {
    if |cats| > 0 {
      NoneInState(fs, st, cats[..|cats| - 1], subs);
      NoGroup(fs, st, cats[|cats| - 1]);
      EmptyCategory(fs, st, cats[|cats| - 1], subs);
    }
  }

  lemma {:induction false} NoGroup(fs: seq<Finding>, st: FindingState, cat: Category)
    requires StateCount(fs, st) == 0
    ensures !ContainsGroup(fs, st, cat)
  {
    if |fs| > 0 {
      var front := fs[..|fs| - 1];
      NoGroup(front, st, cat);
      forall i | 0 <= i < |fs| ensures !(fs[i].state == st && fs[i].category == cat) {
        if i < |front| { assert front[i] == fs[i]; }
      }
    }
  }

  lemma SectionHolds(c: Codings, fs: seq<Finding>, st: FindingState, want: Option<FindingId>)
    requires Lawful(c) && Wanted(want) && Identified(fs)
    ensures Holds(SectionPieces(c, fs, st), PatternOf(c, want), Named(InState(fs, st), want))
  {
    CategoriesHold(c, fs, st, CATEGORY_ORDER, SUBCATEGORY_ORDER, want);
  }

  lemma OpenHolds(c: Codings, fs: seq<Finding>, want: Option<FindingId>)
    requires Lawful(c) && Wanted(want) && Identified(fs)
    ensures Holds(OpenPieces(c, fs), PatternOf(c, want), Named(InState(fs, Open), want))
  {
    hide Lawful, Holds, PatternOf, CategoryPieces, InCategories, TagPattern;
    PatternIsTag(c, want);
    SectionHolds(c, fs, Open, want);
    if StateCount(fs, Open) == 0 {
      NoneInState(fs, Open, CATEGORY_ORDER, SUBCATEGORY_ORDER);
      HoldsPlain("No open findings.\n", PatternOf(c, want));
    }
  }

  // A tag of the layout is neither kind of marker: its second character differs.
  lemma LayoutTag(tag: string, c: Codings, want: Option<FindingId>)
    requires Lawful(c) && Wanted(want) && TagPattern(tag) && |tag| > 1 && tag[1] != '!'
    ensures Holds([tag], PatternOf(c, want), 0)
  {
    var m := PatternOf(c, want);
    PatternIsTag(c, want);
    assert m[1] == '!';
    assert Diverges(tag, m);
    hide TagPattern, PatternOf, Lawful, Diverges, Holds;
    DivergingIsNoPrefix(tag, m);
    TagPiece(tag, m);
    TagNotEmpty(m);
    HoldsOne(tag, m, 0);
  }

  lemma SummaryIsTag(n: nat)
    ensures var tag := "<summary>Acknowledged (" + Decimal(n) + ")"; TagPattern(tag) && |tag| > 1 && tag[1] == 's'
  {
    hide Decimal;
    DecimalPlain(n);
    var tag := "<summary>Acknowledged (" + Decimal(n) + ")";
    assert tag[1..] == "summary>Acknowledged (" + Decimal(n) + ")";
  }

  lemma AcknowledgedHolds(c: Codings, fs: seq<Finding>, want: Option<FindingId>)
    requires Lawful(c) && Wanted(want) && Identified(fs)
    ensures Holds(AcknowledgedPieces(c, fs), PatternOf(c, want), Named(InState(fs, Acknowledged), want))
  {
    var m, n := PatternOf(c, want), StateCount(fs, Acknowledged);
    hide Lawful, Holds, PatternOf, CategoryPieces, InCategories, TagPattern, Decimal;
    PatternIsTag(c, want);
    SectionHolds(c, fs, Acknowledged, want);
    if n == 0 {
      NoneInState(fs, Acknowledged, CATEGORY_ORDER, SUBCATEGORY_ORDER);
      TagNotEmpty(m);
      HoldsNothing(m);
    } else {
      var summary := "<summary>Acknowledged (" + Decimal(n) + ")";
      SummaryIsTag(n);
      LayoutTags();
      DetailsHold(c, summary, SectionPieces(c, fs, Acknowledged), want, Named(InState(fs, Acknowledged), want));
    }
  }

  lemma LayoutTags()
    ensures TagPattern("<details>\n") && TagPattern("</summary>\n\n") && TagPattern("</details>\n")
  {
  }

  lemma DetailsHold(c: Codings, summary: string, sections: seq<string>, want: Option<FindingId>, n: nat)
    requires Lawful(c) && Wanted(want) && Holds(sections, PatternOf(c, want), n)
    requires TagPattern(summary) && |summary| > 1 && summary[1] == 's'
    requires TagPattern("<details>\n") && TagPattern("</summary>\n\n") && TagPattern("</details>\n")
    ensures Holds(["\n", "<details>\n", summary, "</summary>\n\n"] + sections + ["</details>\n"], PatternOf(c, want), n)
  {
    var m := PatternOf(c, want);
    var a, b, d, e := "\n", "<details>\n", "</summary>\n\n", "</details>\n";
    PatternIsTag(c, want);
    HoldsPlain(a, m);
    assert b[1] == 'd' && d[1] == '/' && e[1] == '/';
    hide Lawful, Holds, PatternOf, TagPattern;
    LayoutTag(b, c, want);
    LayoutTag(summary, c, want);
    LayoutTag(d, c, want);
    LayoutTag(e, c, want);
    HoldsJoin([summary], [d], m, 0, 0);
    HoldsJoin([b], [summary] + [d], m, 0, 0);
    HoldsJoin([a], [b] + ([summary] + [d]), m, 0, 0);
    assert [a] + ([b] + ([summary] + [d])) == [a, b, summary, d];
    HoldsJoin([a, b, summary, d], sections, m, 0, n);
    HoldsJoin([a, b, summary, d] + sections, [e], m, n, 0);
  }

  lemma OpeningPlain(s: State)
    ensures Free(Opening(s), '<')
  {
    FindingsPlain(s.findings);
    CoveragePlain(s.runs);
    NotePlain();
    hide CoverageLabel, ShownVerdict, FindingsLine;
    VerdictPlain(ShownVerdict(s));
    OpeningParts(VerdictLabel(ShownVerdict(s)), FindingsLine(s.findings), CoverageLabel(s.runs), COVERAGE_NOTE);
  }

  lemma FindingsPlain(fs: seq<Finding>)
    ensures Free(FindingsLine(fs), '<')
  {
    DecimalPlain(StateCount(fs, Open));
    DecimalPlain(StateCount(fs, Acknowledged));
    hide Decimal, StateCount;
  }

  lemma OpeningParts(a: string, b: string, c: string, d: string)
    requires Free(a, '<') && Free(b, '<') && Free(c, '<') && Free(d, '<')
    ensures Free(("## Verdict: " + a + "\n\n") +
                 (("## Stats\n\n" + b + ("**Assigned review units:** " + c + "\n\n") + (d + "\n\n")) + "## Open\n\n"),
                 '<')
  {
  }

  lemma VerdictPlain(v: Verdict)
    ensures Free(VerdictLabel(v), '<')
  {
  }

  lemma SixPlain(a: string, b: string, c: string, d: string, e: string, f: string)
    requires Free(a, '<') && Free(b, '<') && Free(c, '<') && Free(d, '<') && Free(e, '<') && Free(f, '<')
    ensures Free(a + b + c + d + e + f, '<') && Free("\n" + (a + b + c + d + e + f) + "\n\n", '<')
  {
  }

  lemma DisclaimerOpens()
    ensures Free(DISCLAIMER_SOURCE, '<') && Free(DISCLAIMER_SUBJECT, '<') && Free(DISCLAIMER_LIMITS, '<')
  {
  }

  lemma DisclaimerCloses()
    ensures Free(DISCLAIMER_VERDICT, '<') && Free(DISCLAIMER_HUMAN, '<') && Free(DISCLAIMER_CLAIM, '<')
  {
  }

  lemma NotePlain()
    ensures Free(COVERAGE_NOTE, '<') && Free("\n" + DISCLAIMER + "\n\n", '<')
  {
    assert Free(NOTE_COUNTS, '<') && Free(NOTE_WORK, '<') && Free(NOTE_LIMITS, '<');
    DisclaimerOpens();
    DisclaimerCloses();
    hide Free;
    SixPlain(DISCLAIMER_SOURCE, DISCLAIMER_SUBJECT, DISCLAIMER_LIMITS, DISCLAIMER_VERDICT, DISCLAIMER_HUMAN,
             DISCLAIMER_CLAIM);
    ThreePlain(NOTE_COUNTS, NOTE_WORK, NOTE_LIMITS);
  }

  lemma ThreePlain(a: string, b: string, c: string)
    requires Free(a, '<') && Free(b, '<') && Free(c, '<')
    ensures Free(a + (b + c), '<')
  {
  }

  lemma CoveragePlain(runs: seq<Run>)
    ensures Free(CoverageLabel(runs), '<')
  {
    hide Decimal, OutcomeCount;
    if |runs| > 0 {
      var items := runs[|runs| - 1].coverage;
      DecimalPlain(OutcomeCount(items, Covered));
      DecimalPlain(OutcomeCount(items, PartlyCovered));
      DecimalPlain(OutcomeCount(items, Failed));
      DecimalPlain(OutcomeCount(items, ExcludedByPolicy));
    }
  }

  lemma BodyHolds(c: Codings, s: State, want: Option<FindingId>)
    requires Lawful(c) && Wanted(want) && Identified(s.findings)
    ensures Holds(BodyPieces(c, s), PatternOf(c, want), Named(RenderOrder(s.findings), want))
  {
    var m, fs := PatternOf(c, want), s.findings;
    hide Lawful, Holds, PatternOf, TagPattern, Opening, OpenPieces, AcknowledgedPieces, InState;
    PatternIsTag(c, want);
    OpeningPlain(s);
    NotePlain();
    HoldsPlain(Opening(s), m);
    HoldsPlain("\n" + DISCLAIMER + "\n\n", m);
    OpenHolds(c, fs, want);
    AcknowledgedHolds(c, fs, want);
    var n, k := Named(InState(fs, Open), want), Named(InState(fs, Acknowledged), want);
    NamedJoin(InState(fs, Open), InState(fs, Acknowledged), want);
    HoldsJoin([Opening(s)], OpenPieces(c, fs), m, 0, n);
    HoldsJoin([Opening(s)] + OpenPieces(c, fs), AcknowledgedPieces(c, fs), m, n, k);
    HoldsJoin([Opening(s)] + OpenPieces(c, fs) + AcknowledgedPieces(c, fs), ["\n" + DISCLAIMER + "\n\n"], m, n + k, 0);
  }

  lemma {:induction false} NamedUnique(fs: seq<Finding>, want: Option<FindingId>)
    requires UniqueIds(fs)
    ensures Named(fs, want) == if want.Some? && want.value in FindingIds(fs) then 1 else 0
  {
    if |fs| > 0 {
      var front, f := fs[..|fs| - 1], fs[|fs| - 1];
      assert fs == front + [f];
      NamedUnique(front, want);
      FindingIdsAppend(front, f);
    }
  }

  lemma NamedInOrder(fs: seq<Finding>, want: Option<FindingId>)
    requires UniqueIds(fs) && forall i :: 0 <= i < |fs| ==> ValidFinding(fs[i])
    ensures Named(RenderOrder(fs), want) == if want.Some? && want.value in FindingIds(fs) then 1 else 0
  {
    hide ValidFinding, RenderOrder;
    RenderedExactlyOnce(fs);
    var order := RenderOrder(fs);
    PermutationUnique(order, fs);
    NamedUnique(order, want);
    if want.Some? {
      assert want.value in FindingIds(fs) ==> want.value in FindingIds(order) by {
        if want.value in FindingIds(fs) {
          var i :| 0 <= i < |fs| && fs[i].id == want.value;
          assert fs[i] in order;
        }
      }
      assert want.value in FindingIds(order) ==> want.value in FindingIds(fs) by {
        if want.value in FindingIds(order) {
          var i :| 0 <= i < |order| && order[i].id == want.value;
          assert order[i] in fs;
        }
      }
    }
  }

  lemma FindingMarkerStarts(c: Codings, id: FindingId)
    ensures FINDING_PREFIX <= FindingMarker(c, id)
  {
  }

  lemma PrefixesPart(marker: string, m: string)
    requires STATE_PREFIX <= marker && FINDING_PREFIX <= m
    ensures Diverges(marker, m)
  {
    assert STATE_PREFIX[15] == 's' && FINDING_PREFIX[15] == 'f';
    assert marker[15] == STATE_PREFIX[15] && m[15] == FINDING_PREFIX[15];
  }

  // The state marker at the end is no finding's marker.
  lemma StateMarkerIsNoFinding(c: Codings, s: State, marker: string, id: FindingId)
    requires Lawful(c) && EncodeStateMarker(c, s) == Ok(marker) && id != ""
    ensures FindingMarker(c, id) != "" && Count(marker + "\n", FindingMarker(c, id)) == 0
  {
    var m := FindingMarker(c, id);
    hide FindingMarker, Count, EncodeStateMarker, Lawful, TagPattern, ParseMarker;
    FindingMarkerShape(c, id);
    FindingMarkerStarts(c, id);
    MarkerOf(c, s, marker);
    PrefixesPart(marker, m);
    hide Diverges;
    DivergingIsNoPrefix(marker, m);
    TagPiece(marker, m);
    TagNotEmpty(m);
    assert Free("\n", '<');
    PlainPiece("\n", m);
    CountJoin(marker, "\n", m);
  }

  /** Whatever the findings say: a report exists exactly for a valid state that fits
      the codec, it holds exactly one state marker and exactly one marker for every
      finding, and decoding it gives the canonical state, first by its marker alone
      and then, if the Markdown parser sees the rendered controls, in full. */
  lemma ReportRoundTrip(c: Codings, s: State)
    requires Lawful(c)
    ensures EncodeText(c, s).Ok? <==> ValidState(s) && |c.write(Canonicalize(s))| <= MAX_STATE_LENGTH
    ensures EncodeText(c, s).Ok? ==>
      var text := EncodeText(c, s).value;
      && Count(text, STATE_PREFIX) == 1
      && DecodeStateMarker(c, text) == Ok(Canonicalize(s))
      && (c.controls(text) == RenderedControls(Canonicalize(s).findings) ==> DecodeText(c, text) == Ok(Canonicalize(s)))
    ensures EncodeText(c, s).Ok? ==> forall f :: f in s.findings ==>
      FindingMarker(c, f.id) != "" && Count(EncodeText(c, s).value, FindingMarker(c, f.id)) == 1
  {
    hide Lawful, Count, DecodeStateMarker, FindingMarker, BodyPieces, Join, ValidState, BindingsOk;
    CanonicalKeepsValid(s);
    if EncodeText(c, s).Ok? {
      var k := Canonicalize(s);
      var marker := EncodeStateMarker(c, k).value;
      StateMarked(c, k, marker);
      EncodedBindings(s);
      forall f | f in s.findings
        ensures FindingMarker(c, f.id) != "" && Count(EncodeText(c, s).value, FindingMarker(c, f.id)) == 1
      {
        var i :| 0 <= i < |s.findings| && s.findings[i] == f;
        assert k.findings[i].id == f.id;
        FindingMarked(c, k, marker, i);
      }
    }
  }

  lemma StateMarked(c: Codings, k: State, marker: string)
    requires Lawful(c) && ValidState(k) && EncodeStateMarker(c, k) == Ok(marker)
    ensures Count(Join(BodyPieces(c, k)) + (marker + "\n"), STATE_PREFIX) == 1
    ensures DecodeStateMarker(c, Join(BodyPieces(c, k)) + (marker + "\n")) == Ok(k)
  {
    assert Identified(k.findings) by { assert forall i :: 0 <= i < |k.findings| ==> ValidFinding(k.findings[i]); }
    hide Lawful, Count, DecodeStateMarker, BodyPieces, Join, EncodeStateMarker, RenderOrder, Identified;
    BodyHolds(c, k, None);
    NamedInOrder(k.findings, None);
    CountPieces(BodyPieces(c, k), STATE_PREFIX);
    DecodeMarked(c, k, Join(BodyPieces(c, k)), marker, "\n");
  }

  lemma FindingMarked(c: Codings, k: State, marker: string, i: nat)
    requires Lawful(c) && ValidState(k) && EncodeStateMarker(c, k) == Ok(marker) && i < |k.findings|
    ensures FindingMarker(c, k.findings[i].id) != ""
    ensures Count(Join(BodyPieces(c, k)) + (marker + "\n"), FindingMarker(c, k.findings[i].id)) == 1
  {
    var id := k.findings[i].id;
    var m := FindingMarker(c, id);
    assert Identified(k.findings) by { assert forall j :: 0 <= j < |k.findings| ==> ValidFinding(k.findings[j]); }
    assert id in FindingIds(k.findings);
    assert ValidFinding(k.findings[i]);
    hide Lawful, Count, BodyPieces, Join, EncodeStateMarker, RenderOrder, Identified, FindingMarker;
    BodyHolds(c, k, Some(id));
    NamedInOrder(k.findings, Some(id));
    StateMarkerIsNoFinding(c, k, marker, id);
    CountPieces(BodyPieces(c, k), m);
    CountJoin(Join(BodyPieces(c, k)), marker + "\n", m);
  }
}
