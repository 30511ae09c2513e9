/** The report as the decoder sees it (internal/markdown/codec.go): the state its
    marker carries and the list of controls the Markdown parser finds. This
    module covers canonical form, the validity of a decoded state, the binding of
    controls to findings, the order in which findings are rendered, and the
    reconciliation of human checkbox edits. */
module ReportCodec {
  import opened Domain

  datatype Control = Control(finding: FindingId, task: bool, checked: bool)

  datatype Report = Report(state: State, controls: seq<Control>)

  datatype Interaction = Interaction(ref: SourceId, human: bool, finding: FindingId, at: Instant)

  const STATE_VERSION := 1

  // ----- Canonical form -----

  function CanonicalBox(f: Finding): Option<bool> {
    if f.state == Open then Some(false)
    else if f.ack.Some? && f.ack.value.how == Checkbox then Some(true)
    else None
  }

  function CanonicalFinding(f: Finding): Finding {
    f.(rendered := CanonicalBox(f))
  }

  /** Findings with their boxes as a stored report shows them. */
  function Redrawn(fs: seq<Finding>): (gs: seq<Finding>)
    ensures |gs| == |fs|
    ensures forall i :: 0 <= i < |fs| ==> gs[i] == CanonicalFinding(fs[i])
  {
    seq(|fs|, i requires 0 <= i < |fs| => CanonicalFinding(fs[i]))
  }

  function Canonicalize(s: State): (c: State)
    ensures |c.findings| == |s.findings|
    ensures forall i :: 0 <= i < |s.findings| ==> c.findings[i] == CanonicalFinding(s.findings[i])
  {
    s.(findings := Redrawn(s.findings))
  }

  predicate IsCanonical(s: State) {
    forall f :: f in s.findings ==> f.rendered == CanonicalBox(f)
  }

  /** Canonicalising is a projection onto the canonical states. */
  lemma CanonicalizeProjects(s: State)
    ensures IsCanonical(Canonicalize(s))
    ensures Canonicalize(Canonicalize(s)) == Canonicalize(s)
    ensures IsCanonical(s) ==> Canonicalize(s) == s
    ensures FindingIds(Canonicalize(s).findings) == FindingIds(s.findings)
  {
    var c := Canonicalize(s);
    forall f | f in c.findings ensures f.rendered == CanonicalBox(f) {
      var i :| 0 <= i < |c.findings| && c.findings[i] == f;
    }
    assert Canonicalize(c).findings == c.findings;
    if IsCanonical(s) {
      forall i | 0 <= i < |s.findings| ensures CanonicalFinding(s.findings[i]) == s.findings[i] {
        assert s.findings[i] in s.findings;
      }
      assert c.findings == s.findings;
    }
    assert forall i :: 0 <= i < |s.findings| ==> c.findings[i].id == s.findings[i].id;
  }

  // ----- Valid states -----

  const CATEGORY_ORDER := [Blocker, Risk, Question, Info]

  const SUBCATEGORY_ORDER := [Security, Corrections, Reliability, Maintenance, Operational, SubInfo]

  predicate ValidRecord(r: SourceRecord) {
    r.id != "" && r.body != "" && r.kind in {GitLabDiscussion, GitLabNote}
  }

  predicate ValidFinding(f: Finding) {
    && f.id != ""
    && f.category in CATEGORY_ORDER
    && f.subcategory in SUBCATEGORY_ORDER
    && (f.state == Open <==> f.ack.None?)
  }

  predicate DistinctRecords(rs: seq<SourceRecord>) {
    forall i, j :: 0 <= i < j < |rs| ==> rs[i].id != rs[j].id
  }

  predicate ValidState(s: State) {
    && s.schema == STATE_VERSION
    && s.mr.baseURL != "" && s.mr.project != "" && s.mr.iid > 0
    && (forall i :: 0 <= i < |s.sources| ==> ValidRecord(s.sources[i]))
    && DistinctRecords(s.sources)
    && (forall i :: 0 <= i < |s.findings| ==> ValidFinding(s.findings[i]))
    && UniqueIds(s.findings)
  }

  /** Exactly what a state has to be: bound to a merge request, its records complete, its
      findings in known groups and acknowledged exactly when they are not open, and
      neither records nor findings twice. */
  lemma ValidExactly(s: State)
    ensures ValidState(s) <==>
      && s.schema == 1 && s.mr.baseURL != "" && s.mr.project != "" && s.mr.iid > 0
      && (forall r :: r in s.sources ==> r.id != "" && r.body != "" && r.kind in {GitLabDiscussion, GitLabNote})
      && (forall i, j :: 0 <= i < j < |s.sources| ==> s.sources[i].id != s.sources[j].id)
      && (forall f :: f in s.findings ==>
            && f.id != "" && !f.category.OtherCategory? && !f.subcategory.OtherSubcategory?
            && (f.state == Open <==> f.ack == None))
      && (forall i, j :: 0 <= i < j < |s.findings| ==> s.findings[i].id != s.findings[j].id)
  {
    KnownGroups();
    forall f ensures ValidFinding(f) <==>
      && f.id != "" && !f.category.OtherCategory? && !f.subcategory.OtherSubcategory?
      && (f.state == Open <==> f.ack == None)
    {
    }
    hide ValidFinding;
    assert (forall i :: 0 <= i < |s.findings| ==> ValidFinding(s.findings[i])) <==>
      forall f :: f in s.findings ==> ValidFinding(f);
  }

  lemma KnownGroups()
    ensures forall c :: c in CATEGORY_ORDER <==> !c.OtherCategory?
    ensures forall sub :: sub in SUBCATEGORY_ORDER <==> !sub.OtherSubcategory?
  {
    forall c ensures c in CATEGORY_ORDER <==> !c.OtherCategory? {
      assert CATEGORY_ORDER[0] == Blocker && CATEGORY_ORDER[1] == Risk;
      assert CATEGORY_ORDER[2] == Question && CATEGORY_ORDER[3] == Info;
    }
    forall sub ensures sub in SUBCATEGORY_ORDER <==> !sub.OtherSubcategory? {
      assert SUBCATEGORY_ORDER[0] == Security && SUBCATEGORY_ORDER[1] == Corrections;
      assert SUBCATEGORY_ORDER[2] == Reliability && SUBCATEGORY_ORDER[3] == Maintenance;
      assert SUBCATEGORY_ORDER[4] == Operational && SUBCATEGORY_ORDER[5] == SubInfo;
    }
  }

  method ValidateState(s: State) returns (ok: bool)
    ensures ok <==> ValidState(s)
  {
    if s.schema != STATE_VERSION { return false; }
    if s.mr.baseURL == "" || s.mr.project == "" || s.mr.iid <= 0 { return false; }
    var sources: set<SourceId> := {};
    for i := 0 to |s.sources|
      invariant forall k :: 0 <= k < i ==> ValidRecord(s.sources[k])
      invariant forall j, k :: 0 <= j < k < i ==> s.sources[j].id != s.sources[k].id
      invariant forall id :: id in sources <==> exists k :: 0 <= k < i && s.sources[k].id == id
    {
      var r := s.sources[i];
      if r.id == "" || r.body == "" { return false; }
      if r.id in sources { return false; }
      sources := sources + {r.id};
      if r.kind != GitLabDiscussion && r.kind != GitLabNote { return false; }
    }
    var seen: set<FindingId> := {};
    for i := 0 to |s.findings|
      invariant forall k :: 0 <= k < i ==> ValidFinding(s.findings[k])
      invariant forall j, k :: 0 <= j < k < i ==> s.findings[j].id != s.findings[k].id
      invariant forall id :: id in seen <==> exists k :: 0 <= k < i && s.findings[k].id == id
    {
      var f := s.findings[i];
      if f.id == "" { return false; }
      if f.id in seen { return false; }
      seen := seen + {f.id};
      if f.category !in CATEGORY_ORDER || f.subcategory !in SUBCATEGORY_ORDER { return false; }
      match f.state {
        case Open => if f.ack.Some? { return false; }
        case Acknowledged => if f.ack.None? { return false; }
      }
    }
    return true;
  }

  /** Canonical form changes nothing a reader of the state can object to. */
  lemma CanonicalKeepsValid(s: State)
    ensures ValidState(s) <==> ValidState(Canonicalize(s))
  {
    var c := Canonicalize(s);
    forall i | 0 <= i < |s.findings| ensures ValidFinding(s.findings[i]) <==> ValidFinding(c.findings[i]) {}
    assert UniqueIds(s.findings) <==> UniqueIds(c.findings) by {
      assert forall i :: 0 <= i < |s.findings| ==> c.findings[i].id == s.findings[i].id;
    }
    if ValidState(c) {
      forall i | 0 <= i < |s.findings| ensures ValidFinding(s.findings[i]) { assert ValidFinding(c.findings[i]); }
    }
  }

  // ----- The order of rendering -----

  predicate InGroup(f: Finding, st: FindingState, c: Category, sub: Subcategory) {
    f.state == st && f.category == c && f.subcategory == sub
  }

  function Select(fs: seq<Finding>, st: FindingState, c: Category, sub: Subcategory): seq<Finding> {
    if |fs| == 0 then []
    else
      var f := fs[|fs| - 1];
      Select(fs[..|fs| - 1], st, c, sub) + if InGroup(f, st, c, sub) then [f] else []
  }

  function InSubcategories(fs: seq<Finding>, st: FindingState, c: Category, subs: seq<Subcategory>): seq<Finding> {
    if |subs| == 0 then []
    else InSubcategories(fs, st, c, subs[..|subs| - 1]) + Select(fs, st, c, subs[|subs| - 1])
  }

  function InCategories(fs: seq<Finding>, st: FindingState, cats: seq<Category>, subs: seq<Subcategory>): seq<Finding> {
    if |cats| == 0 then []
    else InCategories(fs, st, cats[..|cats| - 1], subs) + InSubcategories(fs, st, cats[|cats| - 1], subs)
  }

  function InState(fs: seq<Finding>, st: FindingState): seq<Finding> {
    InCategories(fs, st, CATEGORY_ORDER, SUBCATEGORY_ORDER)
  }

  /** The findings in the order the report lists them: open ones first. */
  function RenderOrder(fs: seq<Finding>): seq<Finding> {
    InState(fs, Open) + InState(fs, Acknowledged)
  }

  predicate ContainsGroup(fs: seq<Finding>, st: FindingState, c: Category) {
    exists i :: 0 <= i < |fs| && fs[i].state == st && fs[i].category == c
  }

  method RenderGroup(fs: seq<Finding>, st: FindingState, c: Category, sub: Subcategory) returns (out: seq<Finding>)
    ensures out == Select(fs, st, c, sub)
  {
    out := [];
    for i := 0 to |fs|
      invariant out == Select(fs[..i], st, c, sub)
    {
      assert fs[..i + 1][..i] == fs[..i];
      if fs[i].state == st && fs[i].category == c && fs[i].subcategory == sub { out := out + [fs[i]]; }
    }
    assert fs[..|fs|] == fs;
  }

  method RenderCategory(fs: seq<Finding>, st: FindingState, c: Category, subs: seq<Subcategory>)
    returns (out: seq<Finding>)
    ensures out == InSubcategories(fs, st, c, subs)
  {
    out := [];
    for s := 0 to |subs|
      invariant out == InSubcategories(fs, st, c, subs[..s])
    {
      assert subs[..s + 1][..s] == subs[..s];
      var group := RenderGroup(fs, st, c, subs[s]);
      out := out + group;
    }
    assert subs[..|subs|] == subs;
  }

  // A category without findings is skipped together with its heading.
  method RenderFindingGroups(fs: seq<Finding>, st: FindingState, cats: seq<Category>, subs: seq<Subcategory>)
    returns (out: seq<Finding>)
    ensures out == InCategories(fs, st, cats, subs)
  {
    out := [];
    for c := 0 to |cats|
      invariant out == InCategories(fs, st, cats[..c], subs)
    {
      assert cats[..c + 1][..c] == cats[..c];
      if ContainsGroup(fs, st, cats[c]) {
        var groups := RenderCategory(fs, st, cats[c], subs);
        out := out + groups;
      } else {
        EmptyCategory(fs, st, cats[c], subs);
      }
    }
    assert cats[..|cats|] == cats;
  }

  lemma {:induction false} EmptySelect(fs: seq<Finding>, st: FindingState, c: Category, sub: Subcategory)
    requires !ContainsGroup(fs, st, c)
    ensures Select(fs, st, c, sub) == []
  {
    if |fs| > 0 {
      assert forall i :: 0 <= i < |fs| - 1 ==> fs[..|fs| - 1][i] == fs[i];
      EmptySelect(fs[..|fs| - 1], st, c, sub);
      assert !InGroup(fs[|fs| - 1], st, c, sub);
    }
  }

  lemma {:induction false} EmptyCategory(fs: seq<Finding>, st: FindingState, c: Category, subs: seq<Subcategory>)
    requires !ContainsGroup(fs, st, c)
    ensures InSubcategories(fs, st, c, subs) == []
  {
    if |subs| > 0 {
      EmptyCategory(fs, st, c, subs[..|subs| - 1]);
      EmptySelect(fs, st, c, subs[|subs| - 1]);
    }
  }

  // How one more finding enlarges each grouping.
  function Once(present: bool, f: Finding): multiset<Finding> {
    if present then multiset{f} else multiset{}
  }

  lemma JoinCounts(a: seq<Finding>, b: seq<Finding>)
    ensures multiset(a + b) == multiset(a) + multiset(b)
  {
  }

  lemma JoinGrown(a: seq<Finding>, b: seq<Finding>, a': seq<Finding>, b': seq<Finding>, p: bool, q: bool, f: Finding)
    requires multiset(a') == multiset(a) + Once(p, f) && multiset(b') == multiset(b) + Once(q, f)
    requires !(p && q)
    ensures multiset(a' + b') == multiset(a + b) + Once(p || q, f)
  {
    JoinCounts(a, b);
    JoinCounts(a', b');
  }

  lemma OneMoreSelected(fs: seq<Finding>, f: Finding, st: FindingState, c: Category, sub: Subcategory)
    ensures multiset(Select(fs + [f], st, c, sub)) == multiset(Select(fs, st, c, sub)) + Once(InGroup(f, st, c, sub), f)
  {
    assert (fs + [f])[..|fs|] == fs;
  }

  lemma {:induction false} OneMoreInSubcategories(fs: seq<Finding>, f: Finding, st: FindingState, c: Category,
                                                  subs: seq<Subcategory>)
    requires DistinctSeq(subs)
    ensures multiset(InSubcategories(fs + [f], st, c, subs)) ==
      multiset(InSubcategories(fs, st, c, subs)) + Once(f.state == st && f.category == c && f.subcategory in subs, f)
  {
    if |subs| > 0 {
      var front, last := subs[..|subs| - 1], subs[|subs| - 1];
      OneMoreInSubcategories(fs, f, st, c, front);
      OneMoreSelected(fs, f, st, c, last);
      assert f.subcategory in subs <==> f.subcategory in front || f.subcategory == last by {
        assert subs == front + [last];
      }
      assert last !in front;
      JoinGrown(InSubcategories(fs, st, c, front), Select(fs, st, c, last),
                InSubcategories(fs + [f], st, c, front), Select(fs + [f], st, c, last),
                f.state == st && f.category == c && f.subcategory in front, InGroup(f, st, c, last), f);
    }
  }

  lemma {:induction false} OneMoreInCategories(fs: seq<Finding>, f: Finding, st: FindingState, cats: seq<Category>,
                                               subs: seq<Subcategory>)
    requires DistinctSeq(cats) && DistinctSeq(subs)
    requires f.subcategory in subs
    ensures multiset(InCategories(fs + [f], st, cats, subs)) ==
      multiset(InCategories(fs, st, cats, subs)) + Once(f.state == st && f.category in cats, f)
  {
    if |cats| > 0 {
      var front, last := cats[..|cats| - 1], cats[|cats| - 1];
      OneMoreInCategories(fs, f, st, front, subs);
      OneMoreInSubcategories(fs, f, st, last, subs);
      assert f.category in cats <==> f.category in front || f.category == last by { assert cats == front + [last]; }
      assert last !in front;
      JoinGrown(InCategories(fs, st, front, subs), InSubcategories(fs, st, last, subs),
                InCategories(fs + [f], st, front, subs), InSubcategories(fs + [f], st, last, subs),
                f.state == st && f.category in front, f.state == st && f.category == last, f);
    }
  }

  lemma {:induction false} NothingToRender(st: FindingState, cats: seq<Category>, subs: seq<Subcategory>)
    ensures InCategories([], st, cats, subs) == []
  {
    if |cats| > 0 {
      NothingToRender(st, cats[..|cats| - 1], subs);
      EmptyCategory([], st, cats[|cats| - 1], subs);
    }
  }

  // The same for any complete list of categories and subcategories.
  lemma {:induction false} GroupsPermute(fs: seq<Finding>, cats: seq<Category>, subs: seq<Subcategory>)
    requires DistinctSeq(cats) && DistinctSeq(subs)
    requires forall i :: 0 <= i < |fs| ==> fs[i].category in cats && fs[i].subcategory in subs
    ensures multiset(InCategories(fs, Open, cats, subs)) + multiset(InCategories(fs, Acknowledged, cats, subs)) ==
      multiset(fs)
  {
    if |fs| == 0 {
      NothingToRender(Open, cats, subs);
      NothingToRender(Acknowledged, cats, subs);
    } else {
      var front, f := fs[..|fs| - 1], fs[|fs| - 1];
      assert fs == front + [f];
      GroupsPermute(front, cats, subs);
      OneMoreInCategories(front, f, Open, cats, subs);
      OneMoreInCategories(front, f, Acknowledged, cats, subs);
    }
  }

  /** Every finding of a valid state is rendered exactly once, whatever its category. */
  lemma RenderedExactlyOnce(fs: seq<Finding>)
    requires forall i :: 0 <= i < |fs| ==> ValidFinding(fs[i])
    ensures multiset(RenderOrder(fs)) == multiset(fs)
  {
    GroupsPermute(fs, CATEGORY_ORDER, SUBCATEGORY_ORDER);
    JoinCounts(InState(fs, Open), InState(fs, Acknowledged));
  }

  // What comes first in a report: by category, then by subcategory.
  function Urgency(c: Category): nat {
    match c
    case Blocker => 0
    case Risk => 1
    case Question => 2
    case Info => 3
    case OtherCategory(_) => 4
  }

  function Field(sub: Subcategory): nat {
    match sub
    case Security => 0
    case Corrections => 1
    case Reliability => 2
    case Maintenance => 3
    case Operational => 4
    case SubInfo => 5
    case OtherSubcategory(_) => 6
  }

  predicate Before(f: Finding, g: Finding) {
    Urgency(f.category) < Urgency(g.category) ||
    (f.category == g.category && Field(f.subcategory) <= Field(g.subcategory))
  }

  predicate InReportOrder(fs: seq<Finding>) {
    forall i, j :: 0 <= i < j < |fs| ==> Before(fs[i], fs[j])
  }

  predicate AllBefore(fs: seq<Finding>, gs: seq<Finding>) {
    forall i, j :: 0 <= i < |fs| && 0 <= j < |gs| ==> Before(fs[i], gs[j])
  }

  lemma OrderJoin(a: seq<Finding>, b: seq<Finding>)
    requires InReportOrder(a) && InReportOrder(b) && AllBefore(a, b)
    ensures InReportOrder(a + b)
  {
  }

  lemma {:induction false} SelectedAlike(fs: seq<Finding>, st: FindingState, c: Category, sub: Subcategory)
    ensures forall i :: 0 <= i < |Select(fs, st, c, sub)| ==> InGroup(Select(fs, st, c, sub)[i], st, c, sub)
  {
    if |fs| > 0 { SelectedAlike(fs[..|fs| - 1], st, c, sub); }
  }

  lemma {:induction false} SubcategoriesInOrder(fs: seq<Finding>, st: FindingState, c: Category, subs: seq<Subcategory>)
    requires forall i, j :: 0 <= i < j < |subs| ==> Field(subs[i]) < Field(subs[j])
    ensures InReportOrder(InSubcategories(fs, st, c, subs))
    ensures forall f :: f in InSubcategories(fs, st, c, subs) ==>
      f.state == st && f.category == c && f.subcategory in subs
  {
    if |subs| > 0 {
      var front, last := subs[..|subs| - 1], subs[|subs| - 1];
      SubcategoriesInOrder(fs, st, c, front);
      SelectedAlike(fs, st, c, last);
      var a, b := InSubcategories(fs, st, c, front), Select(fs, st, c, last);
      forall i, j | 0 <= i < |a| && 0 <= j < |b| ensures Before(a[i], b[j]) {
        assert a[i] in a && b[j] in b;
        var k :| 0 <= k < |front| && front[k] == a[i].subcategory;
        assert subs[k] == front[k];
      }
      OrderJoin(a, b);
    }
  }

  lemma {:induction false} CategoriesInOrder(fs: seq<Finding>, st: FindingState, cats: seq<Category>,
                                             subs: seq<Subcategory>)
    requires forall i, j :: 0 <= i < j < |cats| ==> Urgency(cats[i]) < Urgency(cats[j])
    requires forall i, j :: 0 <= i < j < |subs| ==> Field(subs[i]) < Field(subs[j])
    ensures InReportOrder(InCategories(fs, st, cats, subs))
    ensures forall f :: f in InCategories(fs, st, cats, subs) ==> f.state == st && f.category in cats
  {
    if |cats| > 0 {
      var front, last := cats[..|cats| - 1], cats[|cats| - 1];
      CategoriesInOrder(fs, st, front, subs);
      SubcategoriesInOrder(fs, st, last, subs);
      var a, b := InCategories(fs, st, front, subs), InSubcategories(fs, st, last, subs);
      forall i, j | 0 <= i < |a| && 0 <= j < |b| ensures Before(a[i], b[j]) {
        assert a[i] in a && b[j] in b;
        var k :| 0 <= k < |front| && front[k] == a[i].category;
        assert cats[k] == front[k];
      }
      OrderJoin(a, b);
    }
  }

  /** A report lists open findings before acknowledged ones, and either by urgency,
      blockers first, and within a category by subcategory, security first. */
  lemma RenderedInOrder(fs: seq<Finding>)
    ensures RenderOrder(fs) == InState(fs, Open) + InState(fs, Acknowledged)
    ensures forall f :: f in InState(fs, Open) ==> f.state == Open
    ensures forall f :: f in InState(fs, Acknowledged) ==> f.state == Acknowledged
    ensures InReportOrder(InState(fs, Open)) && InReportOrder(InState(fs, Acknowledged))
  {
    CategoriesInOrder(fs, Open, CATEGORY_ORDER, SUBCATEGORY_ORDER);
    CategoriesInOrder(fs, Acknowledged, CATEGORY_ORDER, SUBCATEGORY_ORDER);
  }

  // ----- Controls and their bindings -----

  /** The list item a finding is rendered as: a box, or a tick without a box. */
  function RenderedControl(f: Finding): Control {
    if f.state == Acknowledged && IsAI(f.ack) then Control(f.id, false, false)
    else Control(f.id, true, f.state == Acknowledged)
  }

  function RenderedControls(fs: seq<Finding>): (cs: seq<Control>)
    ensures |cs| == |RenderOrder(fs)|
    ensures forall i :: 0 <= i < |cs| ==> cs[i] == RenderedControl(RenderOrder(fs)[i])
  {
    var order := RenderOrder(fs);
    seq(|order|, i requires 0 <= i < |order| => RenderedControl(order[i]))
  }

  function FindFinding(fs: seq<Finding>, id: FindingId): (r: Option<Finding>)
    ensures r.Some? ==> r.value in fs && r.value.id == id
    ensures r.None? <==> id !in FindingIds(fs)
  {
    if |fs| == 0 then None
    else if fs[0].id == id then Some(fs[0])
    else
      assert forall i :: 0 < i < |fs| ==> fs[i] == fs[1..][i - 1];
      FindFinding(fs[1..], id)
  }

  lemma {:induction false} FoundAt(fs: seq<Finding>, i: nat)
    requires i < |fs| && UniqueIds(fs)
    ensures FindFinding(fs, fs[i].id) == Some(fs[i])
  {
    if i > 0 {
      assert fs[0].id != fs[i].id;
      FoundAt(fs[1..], i - 1);
    }
  }

  // A finding that was rendered with a box must still show one.
  predicate BoxKept(f: Finding, c: Control) {
    (IsAI(f.ack) && c.task) || f.rendered.None? || c.task
  }

  predicate DistinctControls(cs: seq<Control>) {
    forall i, j :: 0 <= i < j < |cs| ==> cs[i].finding != cs[j].finding
  }

  predicate HasControl(cs: seq<Control>, id: FindingId) {
    exists i :: 0 <= i < |cs| && cs[i].finding == id
  }

  predicate BindingsOk(fs: seq<Finding>, cs: seq<Control>) {
    && (forall i :: 0 <= i < |cs| ==> ControlBound(fs, cs[i]))
    && DistinctControls(cs)
    && (forall k :: 0 <= k < |fs| ==> HasControl(cs, fs[k].id))
  }

  ghost predicate HoldsFindings(expected: map<FindingId, Finding>, fs: seq<Finding>) {
    forall id :: FindFinding(fs, id) == if id in expected then Some(expected[id]) else None
  }

  method FindingsById(fs: seq<Finding>) returns (expected: map<FindingId, Finding>)
    requires UniqueIds(fs)
    ensures HoldsFindings(expected, fs)
  {
    expected := map[];
    for k := 0 to |fs|
      invariant forall id :: id in expected ==> exists j :: 0 <= j < k && fs[j].id == id && expected[id] == fs[j]
      invariant forall j :: 0 <= j < k ==> fs[j].id in expected
    {
      expected := expected[fs[k].id := fs[k]];
    }
    forall id ensures FindFinding(fs, id) == if id in expected then Some(expected[id]) else None {
      if id in expected {
        var j :| 0 <= j < |fs| && fs[j].id == id && expected[id] == fs[j];
        FoundAt(fs, j);
      }
    }
  }

  predicate ControlBound(fs: seq<Finding>, c: Control) {
    FindFinding(fs, c.finding).Some? && BoxKept(FindFinding(fs, c.finding).value, c)
  }

  method CheckControls(fs: seq<Finding>, expected: map<FindingId, Finding>, cs: seq<Control>)
    returns (ok: bool, seen: set<FindingId>)
    requires HoldsFindings(expected, fs)
    ensures ok <==> (forall i :: 0 <= i < |cs| ==> ControlBound(fs, cs[i])) && DistinctControls(cs)
    ensures ok ==> forall id :: id in seen <==> exists k :: 0 <= k < |cs| && cs[k].finding == id
  {
    hide FindFinding;
    seen := {};
    for i := 0 to |cs|
      invariant forall k :: 0 <= k < i ==> ControlBound(fs, cs[k])
      invariant forall j, k :: 0 <= j < k < i ==> cs[j].finding != cs[k].finding
      invariant forall id :: id in seen <==> exists k :: 0 <= k < i && cs[k].finding == id
    {
      var c := cs[i];
      assert FindFinding(fs, c.finding) == if c.finding in expected then Some(expected[c.finding]) else None;
      if c.finding !in expected { return false, seen; }
      if c.finding in seen { return false, seen; }
      seen := seen + {c.finding};
      var f := expected[c.finding];
      if f.ack.Some? && f.ack.value.how != Checkbox && c.task { continue; }
      if f.rendered.Some? && !c.task { return false, seen; }
    }
    return true, seen;
  }

  method ValidateControlBindings(fs: seq<Finding>, cs: seq<Control>) returns (ok: bool)
    requires UniqueIds(fs)
    ensures ok <==> BindingsOk(fs, cs)
  {
    hide ControlBound;
    var expected := FindingsById(fs);
    var seen;
    ok, seen := CheckControls(fs, expected, cs);
    if !ok { return; }
    var rest := expected.Keys;
    while rest != {}
      invariant rest <= expected.Keys
      invariant forall id :: id in expected && id !in rest ==> id in seen
      decreases |rest|
    {
      var id :| id in rest;
      if id !in seen {
        assert FindFinding(fs, id).Some?;
        return false;
      }
      rest := rest - {id};
    }
    forall k | 0 <= k < |fs| ensures HasControl(cs, fs[k].id) {
      FoundAt(fs, k);
      assert fs[k].id in seen;
    }
    return true;
  }

  lemma UniqueCount(fs: seq<Finding>, x: Finding)
    requires UniqueIds(fs)
    ensures multiset(fs)[x] <= 1
  {
    if x in fs {
      var k :| 0 <= k < |fs| && fs[k] == x;
      assert fs == fs[..k] + [x] + fs[k + 1..];
      assert x !in fs[..k] && x !in fs[k + 1..];
    }
  }

  lemma PermutationUnique(a: seq<Finding>, b: seq<Finding>)
    requires multiset(a) == multiset(b) && UniqueIds(b)
    ensures UniqueIds(a)
    ensures forall x :: x in a <==> x in b
  {
    forall x ensures x in a <==> x in b {
      assert x in a <==> x in multiset(a);
      assert x in b <==> x in multiset(b);
    }
    forall i, j | 0 <= i < j < |a| ensures a[i].id != a[j].id {
      if a[i].id == a[j].id { SameIdTwice(a, b, i, j); }
    }
  }

  lemma SameIdTwice(a: seq<Finding>, b: seq<Finding>, i: nat, j: nat)
    requires multiset(a) == multiset(b) && i < j < |a| && a[i].id == a[j].id && a[i] in b && a[j] in b
    ensures !UniqueIds(b)
  {
    if UniqueIds(b) {
      var p :| 0 <= p < |b| && b[p] == a[i];
      var q :| 0 <= q < |b| && b[q] == a[j];
      assert p == q;
      assert a == a[..i] + [a[i]] + a[i + 1..j] + [a[i]] + a[j + 1..];
      UniqueCount(b, a[i]);
      assert false;
    }
  }

  // ----- Printing and reading a report -----

  function Encode(s: State): (r: Result<Report>) {
    var c := Canonicalize(s);
    if ValidState(c) then Ok(Report(c, RenderedControls(c.findings))) else Err
  }

  function Decode(r: Report): Result<State> {
    if ValidState(r.state) && BindingsOk(r.state.findings, r.controls) then Ok(r.state) else Err
  }

  // The controls of a list that holds every finding once, in any order.
  lemma ControlsOfPermutation(fs: seq<Finding>, order: seq<Finding>, cs: seq<Control>)
    requires UniqueIds(fs) && multiset(order) == multiset(fs)
    requires forall f :: f in fs ==> f.rendered == CanonicalBox(f)
    requires |cs| == |order| && forall i :: 0 <= i < |cs| ==> cs[i] == RenderedControl(order[i])
    ensures BindingsOk(fs, cs)
    ensures forall i :: 0 <= i < |cs| ==> FindFinding(fs, cs[i].finding) == Some(order[i])
  {
    PermutationUnique(order, fs);
    forall i | 0 <= i < |cs|
      ensures FindFinding(fs, cs[i].finding) == Some(order[i]) && BoxKept(order[i], cs[i])
    {
      assert order[i] in order && order[i] in fs;
      var k :| 0 <= k < |fs| && fs[k] == order[i];
      FoundAt(fs, k);
    }
    forall k | 0 <= k < |fs| ensures HasControl(cs, fs[k].id) {
      assert fs[k] in order;
      var i :| 0 <= i < |order| && order[i] == fs[k];
      assert cs[i] == RenderedControl(order[i]);
    }
    forall i, j | 0 <= i < j < |cs| ensures cs[i].finding != cs[j].finding {
      assert cs[i] == RenderedControl(order[i]) && cs[j] == RenderedControl(order[j]);
    }
  }

  /** An encoded report binds every finding to exactly one control. */
  lemma EncodedBindings(s: State)
    requires ValidState(s)
    ensures BindingsOk(Canonicalize(s).findings, RenderedControls(Canonicalize(s).findings))
  {
    CanonicalKeepsValid(s);
    CanonicalizeProjects(s);
    var fs := Canonicalize(s).findings;
    RenderedExactlyOnce(fs);
    ControlsOfPermutation(fs, RenderOrder(fs), RenderedControls(fs));
  }

  /** Reading back what was printed gives the canonical state, for every state
      that can be printed at all. */
  lemma DecodeEncode(s: State)
    ensures Encode(s).Ok? <==> ValidState(s)
    ensures Encode(s).Ok? ==> Decode(Encode(s).value) == Ok(Canonicalize(s))
  {
    CanonicalKeepsValid(s);
    if ValidState(s) { EncodedBindings(s); }
  }

  // ----- Reconciling human checkbox edits -----

  function FindControl(cs: seq<Control>, id: FindingId): (c: Control)
    ensures c.finding == id || c == Control("", false, false)
  {
    if |cs| == 0 then Control("", false, false)
    else if cs[|cs| - 1].finding == id then cs[|cs| - 1]
    else FindControl(cs[..|cs| - 1], id)
  }

  predicate Eligible(x: Interaction, id: FindingId, at: Instant) {
    x.human && x.ref != "" && (x.finding == "" || x.finding == id) && x.at <= at
  }

  // The first of the newest eligible interactions.
  function NewestInteraction(xs: seq<Interaction>, id: FindingId, at: Instant): (r: Option<Interaction>)
    ensures r.Some? ==> r.value in xs && Eligible(r.value, id, at)
    ensures forall x :: x in xs && Eligible(x, id, at) ==> r.Some? && x.at <= r.value.at
  {
    if |xs| == 0 then None
    else
      var best := NewestInteraction(xs[..|xs| - 1], id, at);
      var x := xs[|xs| - 1];
      assert xs == xs[..|xs| - 1] + [x];
      if Eligible(x, id, at) && (best.None? || x.at > best.value.at) then Some(x) else best
  }

  function InteractionRefs(xs: seq<Interaction>, id: FindingId, at: Instant): seq<SourceId> {
    var newest := NewestInteraction(xs, id, at);
    if newest.None? then [] else [newest.value.ref]
  }

  method InteractionSources(xs: seq<Interaction>, id: FindingId, at: Instant) returns (refs: seq<SourceId>)
    ensures refs == InteractionRefs(xs, id, at)
  {
    var newest: Option<Interaction> := None;
    for i := 0 to |xs|
      invariant newest == NewestInteraction(xs[..i], id, at)
    {
      var x := xs[i];
      assert xs[..i + 1][..i] == xs[..i];
      if !x.human || x.ref == "" || (x.finding != "" && x.finding != id) || x.at > at { continue; }
      if newest.None? || x.at > newest.value.at { newest := Some(x); }
    }
    assert xs[..|xs|] == xs;
    refs := if newest.None? then [] else [newest.value.ref];
  }

  function Checked(f: Finding, refs: seq<SourceId>, at: Instant): Finding {
    f.(state := Acknowledged, ack := Some(Ack(Checkbox, refs, at)), rendered := Some(true),
       history := f.history + [Event(WasAcknowledged, at, "", None, Some(Checkbox), refs)])
  }

  function Unchecked(f: Finding, refs: seq<SourceId>, at: Instant): Finding {
    f.(state := Open, ack := None, rendered := Some(false),
       history := f.history + [Event(Reopened, at, "", None, Some(Checkbox), refs)])
  }

  // The box value an observed control is compared with. A successor's AI
  // acknowledgement does not count as having redrawn the box.
  function Baseline(f: Finding, prior: Finding): Option<bool> {
    if f.rendered.None? || IsAI(f.ack) then prior.rendered else f.rendered
  }

  predicate BoxMoved(f: Finding, prior: Option<Finding>, observed: Control) {
    && prior.Some? && prior.value.rendered.Some?
    && observed.task
    && Baseline(f, prior.value) != Some(observed.checked)
  }

  /** What the box the human left behind does to one finding of the successor. */
  function Controlled(f: Finding, prior: Option<Finding>, observed: Control, refs: seq<SourceId>, at: Instant)
    : (g: Finding)
    ensures g.id == f.id
  {
    if !BoxMoved(f, prior, observed) then f
    else if observed.checked then Checked(f, refs, at)
    else Unchecked(f, refs, at)
  }

  function ControlledAt(f: Finding, r: Report, xs: seq<Interaction>, at: Instant): (g: Finding)
    ensures g.id == f.id
  {
    Controlled(f, FindFinding(r.state.findings, f.id), FindControl(r.controls, f.id), InteractionRefs(xs, f.id, at), at)
  }

  function ControlledAll(fs: seq<Finding>, r: Report, xs: seq<Interaction>, at: Instant): (gs: seq<Finding>)
    ensures |gs| == |fs|
    ensures forall i :: 0 <= i < |fs| ==> gs[i] == ControlledAt(fs[i], r, xs, at)
  {
    seq(|fs|, i requires 0 <= i < |fs| => ControlledAt(fs[i], r, xs, at))
  }

  predicate BoxMovedAt(f: Finding, r: Report) {
    BoxMoved(f, FindFinding(r.state.findings, f.id), FindControl(r.controls, f.id))
  }

  predicate SomeBoxMoved(fs: seq<Finding>, r: Report) {
    exists i :: 0 <= i < |fs| && BoxMovedAt(fs[i], r)
  }

  predicate ControlsApply(r: Report, s: State, at: Instant) {
    Decode(r).Ok? && at != 0 && r.state.mr == s.mr && FindingIds(r.state.findings) <= FindingIds(s.findings)
  }

  ghost predicate HoldsControls(byId: map<FindingId, Control>, cs: seq<Control>) {
    forall id :: FindControl(cs, id) == if id in byId then byId[id] else Control("", false, false)
  }

  method ControlsById(cs: seq<Control>) returns (byId: map<FindingId, Control>)
    ensures HoldsControls(byId, cs)
  {
    byId := map[];
    for k := 0 to |cs|
      invariant HoldsControls(byId, cs[..k])
    {
      assert cs[..k + 1][..k] == cs[..k];
      byId := byId[cs[k].finding := cs[k]];
    }
    assert cs[..|cs|] == cs;
  }

  method ReconcileControl(f: Finding, prior: Option<Finding>, observed: Control, xs: seq<Interaction>, at: Instant)
    returns (g: Finding, changed: bool)
    ensures g == Controlled(f, prior, observed, InteractionRefs(xs, f.id, at), at)
    ensures changed <==> BoxMoved(f, prior, observed)
  {
    if prior.None? { return f, false; }
    if prior.value.rendered.None? { return f, false; }
    var baseline := f.rendered;
    if baseline.None? || (f.ack.Some? && f.ack.value.how != Checkbox) { baseline := prior.value.rendered; }
    if !observed.task || baseline.None? || observed.checked == baseline.value { return f, false; }
    var refs := InteractionSources(xs, f.id, at);
    if observed.checked {
      return Checked(f, refs, at), true;
    } else {
      return Unchecked(f, refs, at), true;
    }
  }

  method ReconcileFindings(findings: seq<Finding>, r: Report, xs: seq<Interaction>, at: Instant)
    returns (fs: seq<Finding>, changed: bool)
    ensures fs == ControlledAll(findings, r, xs, at)
    ensures changed <==> SomeBoxMoved(findings, r)
  {
    hide FindControl, BoxMoved, InteractionRefs;
    changed := false;
    var byId := ControlsById(r.controls);
    fs := findings;
    for i := 0 to |fs|
      invariant |fs| == |findings|
      invariant forall k :: 0 <= k < i ==> fs[k] == ControlledAt(findings[k], r, xs, at)
      invariant forall k :: i <= k < |fs| ==> fs[k] == findings[k]
      invariant changed <==> exists k :: 0 <= k < i && BoxMovedAt(findings[k], r)
    {
      var f := fs[i];
      var observed := if f.id in byId then byId[f.id] else Control("", false, false);
      assert observed == FindControl(r.controls, f.id);
      var g, moved := ReconcileControl(f, FindFinding(r.state.findings, f.id), observed, xs, at);
      if moved {
        fs := fs[i := g];
        changed := true;
      }
    }
  }

  method ReconcileControls(r: Report, s: State, xs: seq<Interaction>, at: Instant)
    returns (result: Result<State>, changed: bool)
    ensures result.Ok? <==> ControlsApply(r, s, at)
    ensures result.Ok? <==>
      && ValidState(r.state) && BindingsOk(r.state.findings, r.controls)
      && at != 0 && r.state.mr == s.mr && forall f :: f in r.state.findings ==> f.id in FindingIds(s.findings)
    ensures result.Ok? ==> result.value == s.(findings := ControlledAll(s.findings, r, xs, at))
    ensures result.Ok? ==> (changed <==> SomeBoxMoved(s.findings, r))
  {
    var embedded := Decode(r);
    if embedded.Err? { return Err, false; }
    if at == 0 { return Err, false; }
    if embedded.value.mr != s.mr || !(FindingIds(embedded.value.findings) <= FindingIds(s.findings)) {
      return Err, false;
    }
    var fs;
    fs, changed := ReconcileFindings(s.findings, r, xs, at);
    return Ok(s.(findings := fs)), changed;
  }

  // Something a human did by `at`, about this finding or about none.
  predicate HumanTrace(x: Interaction, id: FindingId, at: Instant) {
    x.human && x.ref != "" && x.at <= at && x.finding in {"", id}
  }

  // The reference of a newest such interaction, or none if there is no such interaction.
  predicate TracedTo(refs: seq<SourceId>, xs: seq<Interaction>, id: FindingId, at: Instant) {
    if exists x :: x in xs && HumanTrace(x, id, at) then
      exists x :: x in xs && refs == [x.ref] && HumanTrace(x, id, at) &&
        forall y :: y in xs && HumanTrace(y, id, at) ==> y.at <= x.at
    else refs == []
  }

  // The box as the predecessor drew it, was it ever drawn, and as it was found.
  predicate Moved(f: Finding, drawn: Option<bool>, found: Control) {
    && drawn.Some? && found.task
    && if f.rendered.None? || (f.ack.Some? && f.ack.value.how != Checkbox) then found.checked != drawn.value
       else found.checked != f.rendered.value
  }

  /** Reading a box changes a finding exactly when the box was drawn and moved from where
      it is remembered. The finding then takes the state the box shows, by checkbox, one
      event records that together with the newest trace a human left of it, and nothing
      else about the finding changes. */
  lemma BoxSettles(f: Finding, r: Report, xs: seq<Interaction>, at: Instant)
    ensures var g := ControlledAt(f, r, xs, at);
      var prior, box := FindFinding(r.state.findings, f.id), FindControl(r.controls, f.id);
      && g.(state := f.state, ack := f.ack, rendered := f.rendered, history := f.history) == f
      && (!(prior.Some? && Moved(f, prior.value.rendered, box)) ==> g == f)
      && (prior.Some? && Moved(f, prior.value.rendered, box) ==>
            var refs := InteractionRefs(xs, f.id, at);
            && TracedTo(refs, xs, f.id, at) && g.rendered == Some(box.checked)
            && (if box.checked then
                  && g.state == Acknowledged && g.ack == Some(Ack(Checkbox, refs, at))
                  && g.history == f.history + [Event(WasAcknowledged, at, "", None, Some(Checkbox), refs)]
                else
                  && g.state == Open && g.ack == None
                  && g.history == f.history + [Event(Reopened, at, "", None, Some(Checkbox), refs)]))
  {
    forall x ensures Eligible(x, f.id, at) <==> HumanTrace(x, f.id, at) {}
    hide Eligible, HumanTrace;
    var newest := NewestInteraction(xs, f.id, at);
    if newest.Some? { assert newest.value in xs && HumanTrace(newest.value, f.id, at); }
  }

  /** Reconciling the same edited report a second time, whenever that is, changes nothing. */
  lemma ControlsIdempotent(fs: seq<Finding>, r: Report, xs: seq<Interaction>, at: Instant, later: Instant)
    ensures var once := ControlledAll(fs, r, xs, at);
      ControlledAll(once, r, xs, later) == once && !SomeBoxMoved(once, r)
  {
    var once := ControlledAll(fs, r, xs, at);
    forall i | 0 <= i < |fs|
      ensures !BoxMovedAt(once[i], r)
    {
    }
    assert ControlledAll(once, r, xs, later) == once;
  }

  // The successor's memory of a box is the predecessor's, or an AI
  // acknowledgement has made that memory irrelevant.
  predicate RemembersBox(f: Finding, prior: Finding) {
    f.rendered == prior.rendered || f.rendered.None? || IsAI(f.ack)
  }

  predicate RemembersBoxes(fs: seq<Finding>, priors: seq<Finding>) {
    forall i :: 0 <= i < |fs| ==>
      var p := FindFinding(priors, fs[i].id);
      p.Some? ==> RemembersBox(fs[i], p.value)
  }

  // No human has touched a box of the report.
  predicate UntouchedBoxes(fs: seq<Finding>, cs: seq<Control>) {
    forall c :: c in cs ==>
      var f := FindFinding(fs, c.finding);
      f.Some? && f.value.rendered.Some? && c.task ==> f.value.rendered == Some(c.checked)
  }

  predicate Untouched(r: Report) {
    UntouchedBoxes(r.state.findings, r.controls)
  }

  lemma {:induction false} FoundControl(cs: seq<Control>, id: FindingId)
    ensures FindControl(cs, id).task ==> FindControl(cs, id) in cs && FindControl(cs, id).finding == id
  {
    if |cs| > 0 {
      assert cs == cs[..|cs| - 1] + [cs[|cs| - 1]];
      FoundControl(cs[..|cs| - 1], id);
    }
  }

  lemma PermutationUntouched(fs: seq<Finding>, order: seq<Finding>, cs: seq<Control>)
    requires UniqueIds(fs) && multiset(order) == multiset(fs)
    requires forall f :: f in fs ==> f.rendered == CanonicalBox(f)
    requires |cs| == |order| && forall i :: 0 <= i < |cs| ==> cs[i] == RenderedControl(order[i])
    ensures UntouchedBoxes(fs, cs)
  {
    ControlsOfPermutation(fs, order, cs);
    PermutationUnique(order, fs);
    forall c | c in cs
      ensures var f := FindFinding(fs, c.finding);
        f.Some? && f.value.rendered.Some? && c.task ==> f.value.rendered == Some(c.checked)
    {
      var i :| 0 <= i < |cs| && cs[i] == c;
      assert order[i] in fs;
    }
  }

  /** A freshly encoded report counts as untouched. */
  lemma EncodedUntouched(s: State)
    requires ValidState(s)
    ensures Encode(s).Ok? && Untouched(Encode(s).value)
  {
    CanonicalKeepsValid(s);
    CanonicalizeProjects(s);
    var fs := Canonicalize(s).findings;
    RenderedExactlyOnce(fs);
    PermutationUntouched(fs, RenderOrder(fs), RenderedControls(fs));
  }

  /** Reconciling an untouched report changes nothing, also after AI transitions. */
  lemma UntouchedChangesNothing(fs: seq<Finding>, r: Report, xs: seq<Interaction>, at: Instant)
    requires Untouched(r)
    requires RemembersBoxes(fs, r.state.findings)
    ensures ControlledAll(fs, r, xs, at) == fs && !SomeBoxMoved(fs, r)
  {
    forall i | 0 <= i < |fs|
      ensures !BoxMovedAt(fs[i], r)
    {
      var p := FindFinding(r.state.findings, fs[i].id);
      FoundControl(r.controls, fs[i].id);
    }
    assert ControlledAll(fs, r, xs, at) == fs;
  }
}
