/** Rendering a report (Encode and its helpers, internal/markdown/codec.go), and what
    that rendering guarantees for any finding text: one state marker, one marker for
    every finding, and a state that can be read back. */
module Rendering {
  import opened Domain
  import opened Text
  import opened ReportCodec
  import opened ReportText
  import opened Validation
  import opened Verdicts

  // ----- Labels -----

  const OMITTED := "Code excerpt omitted; " + "refer to the cited source."

  // The fixed sentences, in clauses.
  const DISCLAIMER_SOURCE := "AI-generated review. "
  const DISCLAIMER_SUBJECT := "Findings and assessments may be "
  const DISCLAIMER_LIMITS := "incorrect or incomplete. "
  const DISCLAIMER_VERDICT := "‘Approved’ is an AI reviewer verdict, "
  const DISCLAIMER_HUMAN := "not a human approval or "
  const DISCLAIMER_CLAIM := "a guarantee of correctness."

  const DISCLAIMER :=
    DISCLAIMER_SOURCE + DISCLAIMER_SUBJECT + DISCLAIMER_LIMITS + DISCLAIMER_VERDICT + DISCLAIMER_HUMAN +
    DISCLAIMER_CLAIM

  const NOTE_COUNTS := "Coverage counts accepted outcomes for "
  const NOTE_WORK := "host-assigned review work, "
  const NOTE_LIMITS := "not tests or full-project coverage."

  const COVERAGE_NOTE := NOTE_COUNTS + (NOTE_WORK + NOTE_LIMITS)

  function CategoryLabel(c: Category): string {
    match c
    case Blocker => "🛑 Blocker"
    case Risk => "⚠️ Risk"
    case Question => "❓ Question"
    case Info => "ℹ️ Info"
    case OtherCategory(_) => ""
  }

  function SubcategoryLabel(s: Subcategory): string {
    match s
    case Security => "🔒 Security"
    case Corrections => "🐛 Corrections"
    case Reliability => "🛡️ Reliability"
    case Maintenance => "🧰 Maintenance"
    case Operational => "⚙️ Operational"
    case SubInfo => "📘 Info"
    case OtherSubcategory(_) => ""
  }

  function AssessmentLabel(a: Assessment): string {
    match a
    case Present => "Present"
    case Addressed => "Addressed"
    case NotApplicable => "Not applicable"
    case Unknown => "Unknown"
  }

  // The latest run's verdict, or the default policy's when it recorded none.
  function ShownVerdict(s: State): Verdict {
    if |s.runs| == 0 then NeedsReview
    else
      var latest := s.runs[|s.runs| - 1];
      if latest.verdict.Some? then latest.verdict.value
      else if latest.completion == Complete && (forall c :: c in latest.coverage ==> Done(c.outcome)) &&
              NoGate(s.findings, DEFAULT_GATING)
      then Approved else NeedsReview
  }

  function VerdictLabel(v: Verdict): string {
    match v
    case Approved => "✅ Approved"
    case NeedsReview => "⚠️ Needs Review"
  }

  function OutcomeCount(items: seq<UnitCoverage>, o: Outcome): nat {
    if |items| == 0 then 0
    else OutcomeCount(items[..|items| - 1], o) + if items[|items| - 1].outcome == o then 1 else 0
  }

  function CoverageLabel(runs: seq<Run>): string {
    if |runs| == 0 then "unknown"
    else
      var items := runs[|runs| - 1].coverage;
      "complete " + Decimal(OutcomeCount(items, Covered)) +
      " · partial " + Decimal(OutcomeCount(items, PartlyCovered)) +
      " · failed " + Decimal(OutcomeCount(items, Failed)) +
      " · excluded " + Decimal(OutcomeCount(items, ExcludedByPolicy))
  }

  function StateCount(fs: seq<Finding>, st: FindingState): nat {
    if |fs| == 0 then 0
    else StateCount(fs[..|fs| - 1], st) + if fs[|fs| - 1].state == st then 1 else 0
  }

  // ----- One finding -----

  function Prose(c: Codings, value: string): string {
    if c.inert(value) then Escape(value) else OMITTED
  }

  function LocationText(l: Location): string {
    Escape(l.path) +
    if l.startLine > 0 then
      ":" + Decimal(l.startLine) + if l.endLine > l.startLine then "-" + Decimal(l.endLine) else ""
    else ""
  }

  function LocationsText(ls: seq<Location>): string {
    if |ls| == 0 then ""
    else if |ls| == 1 then LocationText(ls[0])
    else LocationsText(ls[..|ls| - 1]) + ", " + LocationText(ls[|ls| - 1])
  }

  function EvidenceText(c: Codings, evidence: seq<Evidence>): string {
    if |evidence| == 0 then ""
    else
      var e := evidence[|evidence| - 1];
      var places := LocationsText(e.locations);
      EvidenceText(c, evidence[..|evidence| - 1]) + "  - **Evidence:** " + Prose(c, e.explanation) +
      (if places != "" then " — " + places else "") + "\n"
  }

  function BoxText(f: Finding, st: FindingState): string {
    if st == Open then "- [ ] "
    else if f.ack.Some? && f.ack.value.how != Checkbox then "- ✅ "
    else "- [x] "
  }

  function Headline(c: Codings, f: Finding, st: FindingState): string {
    BoxText(f, st) + "**" + Prose(c, f.title) + "** "
  }

  function Details(c: Codings, f: Finding): string {
    "\n" +
    (if f.explanation != "" then "  " + IndentMultiline(Prose(c, f.explanation), "  ") + "\n" else "") +
    (if f.assessment != Addressed then "  - **Assessment:** " + Escape(AssessmentLabel(f.assessment)) + "\n" else "") +
    EvidenceText(c, f.evidence)
  }

  function FindingPieces(c: Codings, f: Finding, st: FindingState): seq<string> {
    [Headline(c, f, st), FindingMarker(c, f.id), Details(c, f) + "\n"]
  }

  // ----- Groups -----

  function ListPieces(c: Codings, fs: seq<Finding>, st: FindingState): seq<string> {
    if |fs| == 0 then [] else ListPieces(c, fs[..|fs| - 1], st) + FindingPieces(c, fs[|fs| - 1], st)
  }

  function SubcategoryPieces(c: Codings, fs: seq<Finding>, st: FindingState, cat: Category, subs: seq<Subcategory>)
    : seq<string>
  {
    if |subs| == 0 then []
    else
      var group := Select(fs, st, cat, subs[|subs| - 1]);
      SubcategoryPieces(c, fs, st, cat, subs[..|subs| - 1]) +
      if group == [] then [] else ["#### " + SubcategoryLabel(subs[|subs| - 1]) + "\n\n"] + ListPieces(c, group, st)
  }

  function CategoryPieces(c: Codings, fs: seq<Finding>, st: FindingState, cats: seq<Category>, subs: seq<Subcategory>)
    : seq<string>
  {
    if |cats| == 0 then []
    else
      var cat := cats[|cats| - 1];
      CategoryPieces(c, fs, st, cats[..|cats| - 1], subs) +
      if !ContainsGroup(fs, st, cat) then []
      else ["### " + CategoryLabel(cat) + "\n\n"] + SubcategoryPieces(c, fs, st, cat, subs)
  }

  function SectionPieces(c: Codings, fs: seq<Finding>, st: FindingState): seq<string> {
    CategoryPieces(c, fs, st, CATEGORY_ORDER, SUBCATEGORY_ORDER)
  }

  // ----- The whole report -----

  function FindingsLine(fs: seq<Finding>): string {
    "**Findings:** open " + Decimal(StateCount(fs, Open)) +
    " · acknowledged " + Decimal(StateCount(fs, Acknowledged)) + "\n\n"
  }

  function UnitsLine(runs: seq<Run>): string {
    "**Assigned review units:** " + CoverageLabel(runs) + "\n\n"
  }

  function Opening(s: State): string {
    ("## Verdict: " + VerdictLabel(ShownVerdict(s)) + "\n\n") +
    (("## Stats\n\n" + FindingsLine(s.findings) + UnitsLine(s.runs) + (COVERAGE_NOTE + "\n\n")) + "## Open\n\n")
  }

  function OpenPieces(c: Codings, fs: seq<Finding>): seq<string> {
    if StateCount(fs, Open) == 0 then ["No open findings.\n"] else SectionPieces(c, fs, Open)
  }

  function AcknowledgedPieces(c: Codings, fs: seq<Finding>): seq<string> {
    var n := StateCount(fs, Acknowledged);
    if n == 0 then []
    else
      ["\n", "<details>\n", "<summary>Acknowledged (" + Decimal(n) + ")", "</summary>\n\n"] +
      SectionPieces(c, fs, Acknowledged) + ["</details>\n"]
  }

  // Everything before the state marker.
  function BodyPieces(c: Codings, s: State): seq<string> {
    [Opening(s)] + OpenPieces(c, s.findings) + AcknowledgedPieces(c, s.findings) + ["\n" + DISCLAIMER + "\n\n"]
  }

  function EncodeText(c: Codings, s: State): Result<string> {
    var k := Canonicalize(s);
    if !ValidState(k) then Err
    else
      var marker := EncodeStateMarker(c, k);
      if marker.Err? then Err else Ok(Join(BodyPieces(c, k)) + (marker.value + "\n"))
  }

  // ----- The builder that writes it -----

  lemma JoinPieces(a: seq<string>, b: seq<string>)
    ensures Join(a + b) == Join(a) + Join(b)
  {
    CountInJoin(a, b, "<");
  }

  lemma JoinOne(a: string)
    ensures Join([a]) == a
  {
    assert [a][1..] == [] && a + "" == a;
  }

  function FindingText(c: Codings, f: Finding, st: FindingState): string {
    Headline(c, f, st) + (FindingMarker(c, f.id) + (Details(c, f) + "\n"))
  }

  lemma JoinFinding(c: Codings, f: Finding, st: FindingState)
    ensures Join(FindingPieces(c, f, st)) == FindingText(c, f, st)
  {
    var a, b, d := Headline(c, f, st), FindingMarker(c, f.id), Details(c, f) + "\n";
    hide Headline, FindingMarker, Details, Join;
    assert [a, b, d] == [a] + ([b] + [d]);
    JoinPieces([a], [b] + [d]);
    JoinPieces([b], [d]);
    JoinOne(a);
    JoinOne(b);
    JoinOne(d);
  }

  lemma ListStep(c: Codings, list: seq<Finding>, f: Finding, st: FindingState)
    ensures Join(ListPieces(c, list + [f], st)) == Join(ListPieces(c, list, st)) + FindingText(c, f, st)
  {
    hide FindingPieces, Join, FindingText;
    assert (list + [f])[..|list|] == list;
    JoinPieces(ListPieces(c, list, st), FindingPieces(c, f, st));
    JoinFinding(c, f, st);
  }

  lemma HeadingStep(before: seq<string>, heading: string, pieces: seq<string>)
    ensures Join(before + ([heading] + pieces)) == Join(before) + (heading + Join(pieces))
  {
    hide Join;
    JoinPieces(before, [heading] + pieces);
    JoinPieces([heading], pieces);
    JoinOne(heading);
  }

  method WriteGroup(c: Codings, fs: seq<Finding>, st: FindingState, cat: Category, sub: Subcategory)
    returns (out: string)
    ensures out == Join(ListPieces(c, Select(fs, st, cat, sub), st))
  {
    hide FindingText, Join;
    out := "";
    assert Join(ListPieces(c, [], st)) == "" by { NothingWritten(); }
    for i := 0 to |fs|
      invariant out == Join(ListPieces(c, Select(fs[..i], st, cat, sub), st))
    {
      assert fs[..i + 1][..i] == fs[..i];
      var before := Select(fs[..i], st, cat, sub);
      if fs[i].state == st && fs[i].category == cat && fs[i].subcategory == sub {
        ListStep(c, before, fs[i], st);
        out := out + FindingText(c, fs[i], st);
      } else {
        assert before + [] == before;
      }
    }
    assert fs[..|fs|] == fs;
  }

  lemma NothingWritten()
    ensures Join([]) == ""
  {
  }

  lemma SubcategoryStep(c: Codings, fs: seq<Finding>, st: FindingState, cat: Category, subs: seq<Subcategory>, i: nat)
    requires i < |subs|
    ensures var group := Select(fs, st, cat, subs[i]);
      Join(SubcategoryPieces(c, fs, st, cat, subs[..i + 1])) ==
      Join(SubcategoryPieces(c, fs, st, cat, subs[..i])) +
      if group == [] then "" else "#### " + SubcategoryLabel(subs[i]) + "\n\n" + Join(ListPieces(c, group, st))
  {
    var group := Select(fs, st, cat, subs[i]);
    var before, heading := SubcategoryPieces(c, fs, st, cat, subs[..i]), "#### " + SubcategoryLabel(subs[i]) + "\n\n";
    hide Join, ListPieces, Select, SubcategoryLabel;
    assert subs[..i + 1][..i] == subs[..i];
    if group == [] {
      assert before + [] == before;
    } else {
      HeadingStep(before, heading, ListPieces(c, group, st));
    }
  }

  method WriteCategory(c: Codings, fs: seq<Finding>, st: FindingState, cat: Category, subs: seq<Subcategory>)
    returns (out: string)
    ensures out == Join(SubcategoryPieces(c, fs, st, cat, subs))
  {
    hide Join, SubcategoryLabel, Select, ListPieces, SubcategoryPieces;
    out := "";
    assert Join(SubcategoryPieces(c, fs, st, cat, subs[..0])) == "" by { NoSubcategory(c, fs, st, cat); }
    for i := 0 to |subs|
      invariant out == Join(SubcategoryPieces(c, fs, st, cat, subs[..i]))
    {
      SubcategoryStep(c, fs, st, cat, subs, i);
      if Select(fs, st, cat, subs[i]) != [] {
        var group := WriteGroup(c, fs, st, cat, subs[i]);
        out := out + ("#### " + SubcategoryLabel(subs[i]) + "\n\n" + group);
      }
    }
    assert subs[..|subs|] == subs;
  }

  lemma NoSubcategory(c: Codings, fs: seq<Finding>, st: FindingState, cat: Category)
    ensures Join(SubcategoryPieces(c, fs, st, cat, [])) == ""
  {
  }

  lemma CategoryStep(c: Codings, fs: seq<Finding>, st: FindingState, cats: seq<Category>, subs: seq<Subcategory>,
                     i: nat)
    requires i < |cats|
    ensures Join(CategoryPieces(c, fs, st, cats[..i + 1], subs)) ==
      Join(CategoryPieces(c, fs, st, cats[..i], subs)) +
      if !ContainsGroup(fs, st, cats[i]) then ""
      else "### " + CategoryLabel(cats[i]) + "\n\n" + Join(SubcategoryPieces(c, fs, st, cats[i], subs))
  {
    var before, heading := CategoryPieces(c, fs, st, cats[..i], subs), "### " + CategoryLabel(cats[i]) + "\n\n";
    hide Join, SubcategoryPieces, ContainsGroup, CategoryLabel;
    assert cats[..i + 1][..i] == cats[..i];
    if !ContainsGroup(fs, st, cats[i]) {
      assert before + [] == before;
    } else {
      HeadingStep(before, heading, SubcategoryPieces(c, fs, st, cats[i], subs));
    }
  }

  method WriteSections(c: Codings, fs: seq<Finding>, st: FindingState, cats: seq<Category>, subs: seq<Subcategory>)
    returns (out: string)
    ensures out == Join(CategoryPieces(c, fs, st, cats, subs))
  {
    hide Join, CategoryLabel, ContainsGroup, SubcategoryPieces, CategoryPieces;
    out := "";
    assert Join(CategoryPieces(c, fs, st, cats[..0], subs)) == "" by { NoCategory(c, fs, st, subs); }
    for i := 0 to |cats|
      invariant out == Join(CategoryPieces(c, fs, st, cats[..i], subs))
    {
      CategoryStep(c, fs, st, cats, subs, i);
      if ContainsGroup(fs, st, cats[i]) {
        var groups := WriteCategory(c, fs, st, cats[i], subs);
        out := out + ("### " + CategoryLabel(cats[i]) + "\n\n" + groups);
      }
    }
    assert cats[..|cats|] == cats;
  }

  lemma NoCategory(c: Codings, fs: seq<Finding>, st: FindingState, subs: seq<Subcategory>)
    ensures Join(CategoryPieces(c, fs, st, [], subs)) == ""
  {
  }

  method CountFindings(fs: seq<Finding>) returns (open: nat, acknowledged: nat)
    ensures open == StateCount(fs, Open) && acknowledged == StateCount(fs, Acknowledged)
  {
    open, acknowledged := 0, 0;
    for i := 0 to |fs|
      invariant open == StateCount(fs[..i], Open) && acknowledged == StateCount(fs[..i], Acknowledged)
    {
      assert fs[..i + 1][..i] == fs[..i];
      if fs[i].state == Acknowledged { acknowledged := acknowledged + 1; } else { open := open + 1; }
    }
    assert fs[..|fs|] == fs;
  }

  method WriteOpen(c: Codings, fs: seq<Finding>, open: nat) returns (out: string)
    requires open == StateCount(fs, Open)
    ensures out == Join(OpenPieces(c, fs))
  {
    hide Join, CategoryPieces;
    if open == 0 {
      JoinOne("No open findings.\n");
      return "No open findings.\n";
    }
    out := WriteSections(c, fs, Open, CATEGORY_ORDER, SUBCATEGORY_ORDER);
  }

  lemma JoinDetails(summary: string, sections: seq<string>, closing: string)
    ensures Join(["\n", "<details>\n", summary, "</summary>\n\n"] + sections + [closing]) ==
      ("\n" + ("<details>\n" + (summary + "</summary>\n\n"))) + Join(sections) + closing
  {
    var a, b, d := "\n", "<details>\n", "</summary>\n\n";
    assert [a, b, summary, d] == [a] + ([b] + ([summary] + [d]));
    hide Join;
    JoinPieces([a, b, summary, d] + sections, [closing]);
    JoinPieces([a, b, summary, d], sections);
    JoinPieces([a], [b] + ([summary] + [d]));
    JoinPieces([b], [summary] + [d]);
    JoinPieces([summary], [d]);
    JoinOne(a);
    JoinOne(b);
    JoinOne(summary);
    JoinOne(d);
    JoinOne(closing);
  }

  method WriteAcknowledged(c: Codings, fs: seq<Finding>, acknowledged: nat) returns (out: string)
    requires acknowledged == StateCount(fs, Acknowledged)
    ensures out == Join(AcknowledgedPieces(c, fs))
  {
    hide Join, CategoryPieces, Decimal;
    if acknowledged == 0 {
      NothingWritten();
      return "";
    }
    var summary := "<summary>Acknowledged (" + Decimal(acknowledged) + ")";
    var sections := WriteSections(c, fs, Acknowledged, CATEGORY_ORDER, SUBCATEGORY_ORDER);
    JoinDetails(summary, SectionPieces(c, fs, Acknowledged), "</details>\n");
    return ("\n" + ("<details>\n" + (summary + "</summary>\n\n"))) + sections + "</details>\n";
  }

  lemma JoinBody(opening: string, open: seq<string>, acknowledged: seq<string>, closing: string)
    ensures Join([opening] + open + acknowledged + [closing]) == opening + Join(open) + Join(acknowledged) + closing
  {
    hide Join;
    JoinPieces([opening] + open + acknowledged, [closing]);
    JoinPieces([opening] + open, acknowledged);
    JoinPieces([opening], open);
    JoinOne(opening);
    JoinOne(closing);
  }

  method EncodeReport(c: Codings, s: State) returns (r: Result<string>)
    ensures r == EncodeText(c, s)
  {
    hide Join, OpenPieces, AcknowledgedPieces, Opening, ValidState, EncodeStateMarker, Canonicalize;
    var k := Canonicalize(s);
    var valid := ValidateState(k);
    if !valid { return Err; }
    var open, acknowledged := CountFindings(k.findings);
    var first := WriteOpen(c, k.findings, open);
    var second := WriteAcknowledged(c, k.findings, acknowledged);
    var marker := EncodeStateMarker(c, k);
    if marker.Err? { return Err; }
    JoinBody(Opening(k), OpenPieces(c, k.findings), AcknowledgedPieces(c, k.findings), "\n" + DISCLAIMER + "\n\n");
    return Ok(Opening(k) + first + second + ("\n" + DISCLAIMER + "\n\n") + (marker.value + "\n"));
  }
}
