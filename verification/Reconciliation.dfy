/** Folding an accepted submission into the stored findings
    (internal/review/reconcile.go). The source updates findings through an index
    by id; the specification looks at one finding at a time and says what the
    submission does to it, whatever else the submission contains. */
module Reconciliation {
  import opened Domain

  /** `matches` maps a submitted finding to the prior finding it restates. `newIds`
      holds the id each other submitted finding receives, supplied by the host
      or drawn at random. */
  datatype Metadata = Metadata(run: RunId, at: Instant, matches: map<int, FindingId>, newIds: seq<FindingId>)

  // ----- The source references of evidence, each once, in order of first use -----

  function AppendNew(seen: seq<SourceId>, refs: seq<SourceId>): seq<SourceId>
    decreases |refs|
  {
    if |refs| == 0 then seen
    else AppendNew(if refs[0] in seen then seen else seen + [refs[0]], refs[1..])
  }

  function EvidenceRefsFrom(seen: seq<SourceId>, evidence: seq<Evidence>): seq<SourceId>
    decreases |evidence|
  {
    if |evidence| == 0 then seen
    else EvidenceRefsFrom(AppendNew(seen, evidence[0].refs), evidence[1..])
  }

  function EvidenceRefs(evidence: seq<Evidence>): seq<SourceId> {
    EvidenceRefsFrom([], evidence)
  }

  lemma {:induction false} AppendNewIsUnion(seen: seq<SourceId>, refs: seq<SourceId>)
    requires DistinctSeq(seen)
    ensures DistinctSeq(AppendNew(seen, refs))
    ensures SetOf(AppendNew(seen, refs)) == SetOf(seen) + SetOf(refs)
    decreases |refs|
  {
    if |refs| > 0 {
      assert refs == [refs[0]] + refs[1..];
      AppendNewIsUnion(if refs[0] in seen then seen else seen + [refs[0]], refs[1..]);
    }
  }

  lemma {:induction false} EvidenceRefsFromIsUnion(seen: seq<SourceId>, evidence: seq<Evidence>)
    requires DistinctSeq(seen)
    ensures DistinctSeq(EvidenceRefsFrom(seen, evidence))
    ensures SetOf(EvidenceRefsFrom(seen, evidence)) == SetOf(seen) + EvidenceRefSet(evidence)
    decreases |evidence|
  {
    if |evidence| > 0 {
      var next := AppendNew(seen, evidence[0].refs);
      AppendNewIsUnion(seen, evidence[0].refs);
      EvidenceRefsFromIsUnion(next, evidence[1..]);
      assert evidence == [evidence[0]] + evidence[1..];
      assert EvidenceRefSet(evidence) == SetOf(evidence[0].refs) + EvidenceRefSet(evidence[1..]);
    }
  }

  /** An event records exactly the sources its evidence cites, none of them twice. */
  lemma EvidenceRefsExact(evidence: seq<Evidence>)
    ensures DistinctSeq(EvidenceRefs(evidence))
    ensures SetOf(EvidenceRefs(evidence)) == EvidenceRefSet(evidence)
  {
    EvidenceRefsFromIsUnion([], evidence);
  }

  method AppendUnseen(result: seq<SourceId>, refs: seq<SourceId>) returns (r: seq<SourceId>)
    ensures r == AppendNew(result, refs)
  {
    var seen := SetOf(result);
    r := result;
    for j := 0 to |refs|
      invariant seen == SetOf(r)
      invariant AppendNew(r, refs[j..]) == AppendNew(result, refs)
    {
      var id := refs[j];
      assert refs[j..][1..] == refs[j + 1..];
      if id !in seen {
        SetOfAppend(r, id);
        seen := seen + {id};
        r := r + [id];
      }
    }
  }

  method EvidenceSourceRefs(evidence: seq<Evidence>) returns (result: seq<SourceId>)
    ensures result == EvidenceRefs(evidence)
  {
    result := [];
    for i := 0 to |evidence|
      invariant EvidenceRefsFrom(result, evidence[i..]) == EvidenceRefs(evidence)
    {
      assert evidence[i..][1..] == evidence[i + 1..];
      result := AppendUnseen(result, evidence[i].refs);
    }
  }

  // ----- What a submission does to one finding -----

  function FreshFinding(s: SubmittedFinding, id: FindingId, m: Metadata): Finding {
    Finding(id, s.identityKey, s.category, s.subcategory, s.relationship, s.title, s.explanation,
            s.evidence, s.units, Present, Open, None, None,
            [Event(Created, m.at, m.run, Some(Present), None, EvidenceRefs(s.evidence))], m.at, m.at)
  }

  function Restate(f: Finding, s: SubmittedFinding, m: Metadata): Finding {
    f.(identityKey := s.identityKey, category := s.category, subcategory := s.subcategory,
       relationship := s.relationship, title := s.title, explanation := s.explanation,
       evidence := s.evidence, units := s.units, assessment := Present, lastSeen := m.at,
       history := f.history + [Event(Reassessed, m.at, m.run, Some(Present), None, EvidenceRefs(s.evidence))])
  }

  function Reassess(f: Finding, r: Reassessment, m: Metadata): Finding {
    f.(assessment := r.assessment, explanation := r.explanation, evidence := r.evidence,
       units := r.units, lastSeen := m.at,
       history := f.history + [Event(Reassessed, m.at, m.run, Some(r.assessment), None, EvidenceRefs(r.evidence))])
  }

  function Transit(f: Finding, t: Transition, m: Metadata): Finding {
    match t.action
    case Acknowledge =>
      f.(state := Acknowledged, ack := Some(Ack(t.how, t.refs, m.at)),
         history := f.history + [Event(WasAcknowledged, m.at, m.run, None, Some(t.how), t.refs)])
    case Reopen =>
      f.(state := Open, ack := None,
         history := f.history + [Event(Reopened, m.at, m.run, None, Some(t.how), t.refs)])
  }

  // The first `n` submitted findings, seen from one prior finding.
  function RestateUpTo(f: Finding, sub: Submission, m: Metadata, n: nat): (g: Finding)
    requires n <= |sub.findings|
    ensures g.id == f.id
  {
    if n == 0 then f
    else
      var g := RestateUpTo(f, sub, m, n - 1);
      if n - 1 in m.matches && m.matches[n - 1] == f.id then Restate(g, sub.findings[n - 1], m) else g
  }

  function ReassessAll(f: Finding, rs: seq<Reassessment>, m: Metadata): (g: Finding)
    ensures g.id == f.id
  {
    if |rs| == 0 then f
    else
      var g := ReassessAll(f, rs[..|rs| - 1], m);
      var r := rs[|rs| - 1];
      if r.finding == f.id then Reassess(g, r, m) else g
  }

  function TransitAll(f: Finding, ts: seq<Transition>, m: Metadata): (g: Finding)
    ensures g.id == f.id
  {
    if |ts| == 0 then f
    else
      var g := TransitAll(f, ts[..|ts| - 1], m);
      var t := ts[|ts| - 1];
      if t.finding == f.id then Transit(g, t, m) else g
  }

  /** Reassessments come before workflow changes, whichever order the model wrote them in. */
  function Settle(f: Finding, sub: Submission, m: Metadata): (g: Finding)
    ensures g.id == f.id
  {
    TransitAll(ReassessAll(f, sub.reassessments, m), sub.transitions, m)
  }

  // The findings the first `n` submitted findings create.
  function CreatedUpTo(sub: Submission, m: Metadata, n: nat): (r: seq<Finding>)
    requires n <= |sub.findings| && |m.newIds| == |sub.findings|
    ensures |r| <= n
  {
    if n == 0 then []
    else if n - 1 in m.matches then CreatedUpTo(sub, m, n - 1)
    else CreatedUpTo(sub, m, n - 1) + [FreshFinding(sub.findings[n - 1], m.newIds[n - 1], m)]
  }

  /** Prior findings keep their positions; created ones follow in submission order. */
  function Reconciled(previous: seq<Finding>, sub: Submission, m: Metadata): (r: seq<Finding>)
    requires |m.newIds| == |sub.findings|
    ensures |r| == |previous| + |CreatedUpTo(sub, m, |sub.findings|)|
  {
    var created := CreatedUpTo(sub, m, |sub.findings|);
    seq(|previous|, i requires 0 <= i < |previous| =>
      Settle(RestateUpTo(previous[i], sub, m, |sub.findings|), sub, m)) +
    seq(|created|, j requires 0 <= j < |created| => Settle(created[j], sub, m))
  }

  // ----- What a finding says afterwards -----

  // What a finding is about, and since when.
  predicate SameTopic(f: Finding, g: Finding) {
    && g.id == f.id && g.identityKey == f.identityKey
    && g.category == f.category && g.subcategory == f.subcategory
    && g.relationship == f.relationship && g.title == f.title
    && g.firstSeen == f.firstSeen
  }

  // What is said about it.
  predicate SameCase(f: Finding, g: Finding) {
    g.explanation == f.explanation && g.evidence == f.evidence && g.units == f.units && g.assessment == f.assessment
  }

  predicate SaysAs(g: Finding, s: SubmittedFinding) {
    && g.identityKey == s.identityKey
    && g.category == s.category && g.subcategory == s.subcategory
    && g.relationship == s.relationship && g.title == s.title
  }

  predicate ArguesAs(g: Finding, s: SubmittedFinding) {
    g.explanation == s.explanation && g.evidence == s.evidence && g.units == s.units && g.assessment == Present
  }

  predicate JudgedAs(g: Finding, r: Reassessment) {
    g.explanation == r.explanation && g.evidence == r.evidence && g.units == r.units && g.assessment == r.assessment
  }

  // Every event that is not in the history before was recorded by this run, now.
  predicate RecordedBy(f: Finding, g: Finding, m: Metadata) {
    && f.history <= g.history
    && forall i :: |f.history| <= i < |g.history| ==> g.history[i].run == m.run && g.history[i].at == m.at
  }

  // The submission's last word on a finding it may have reassessed.
  predicate LastWord(f: Finding, g: Finding, sub: Submission) {
    var r := FindReassessment(sub.reassessments, f.id);
    if r.Some? then JudgedAs(g, r.value) else SameCase(f, g)
  }

  lemma {:induction false} ReassessAllSays(f: Finding, rs: seq<Reassessment>, m: Metadata)
    ensures var g := ReassessAll(f, rs, m);
      && SameTopic(f, g) && RecordedBy(f, g, m)
      && var r := FindReassessment(rs, f.id); if r.Some? then JudgedAs(g, r.value) else SameCase(f, g)
  {
    if |rs| > 0 { ReassessAllSays(f, rs[..|rs| - 1], m); }
  }

  lemma {:induction false} TransitAllSays(f: Finding, ts: seq<Transition>, m: Metadata)
    ensures var g := TransitAll(f, ts, m); SameTopic(f, g) && SameCase(f, g) && RecordedBy(f, g, m)
  {
    if |ts| > 0 { TransitAllSays(f, ts[..|ts| - 1], m); }
  }

  /** Whatever a submission says of a finding: its topic stays, its case is that of its last
      reassessment, and a workflow change says nothing about either. */
  lemma SettleSays(f: Finding, sub: Submission, m: Metadata)
    ensures SameTopic(f, Settle(f, sub, m)) && LastWord(f, Settle(f, sub, m), sub)
    ensures RecordedBy(f, Settle(f, sub, m), m)
  {
    ReassessAllSays(f, sub.reassessments, m);
    TransitAllSays(ReassessAll(f, sub.reassessments, m), sub.transitions, m);
  }

  // The workflow is that of the submission's transition, and the box waits to be redrawn.
  predicate ActsAs(f: Finding, g: Finding, sub: Submission, m: Metadata) {
    var t := FindTransition(sub.transitions, f.id);
    && g.rendered == f.rendered
    && if t.None? then g.state == f.state && g.ack == f.ack
       else if t.value.action == Acknowledge then
         g.state == Acknowledged && g.ack == Some(Ack(t.value.how, t.value.refs, m.at))
       else g.state == Open && g.ack == None
  }

  lemma {:induction false} ReassessAllKeeps(f: Finding, rs: seq<Reassessment>, m: Metadata)
    ensures var g := ReassessAll(f, rs, m);
      && g.state == f.state && g.ack == f.ack && g.rendered == f.rendered
      && g.lastSeen == if FindReassessment(rs, f.id).Some? then m.at else f.lastSeen
  {
    if |rs| > 0 { ReassessAllKeeps(f, rs[..|rs| - 1], m); }
  }

  lemma {:induction false} TransitAllActs(f: Finding, ts: seq<Transition>, m: Metadata)
    ensures var g, t := TransitAll(f, ts, m), FindTransition(ts, f.id);
      && g.rendered == f.rendered && g.lastSeen == f.lastSeen
      && if t.None? then g.state == f.state && g.ack == f.ack
         else if t.value.action == Acknowledge then
           g.state == Acknowledged && g.ack == Some(Ack(t.value.how, t.value.refs, m.at))
         else g.state == Open && g.ack == None
  {
    if |ts| > 0 { TransitAllActs(f, ts[..|ts| - 1], m); }
  }

  /** Whatever a submission does to a finding's workflow is what its transition says, with
      the sources it cites, now; a reassessment only makes the finding seen. */
  lemma SettleActs(f: Finding, sub: Submission, m: Metadata)
    ensures ActsAs(f, Settle(f, sub, m), sub, m)
    ensures Settle(f, sub, m).lastSeen == if FindReassessment(sub.reassessments, f.id).Some? then m.at else f.lastSeen
  {
    ReassessAllKeeps(f, sub.reassessments, m);
    TransitAllActs(ReassessAll(f, sub.reassessments, m), sub.transitions, m);
  }

  lemma {:induction false} RestateKeepsWorkflow(f: Finding, sub: Submission, m: Metadata, n: nat)
    requires n <= |sub.findings|
    ensures var g := RestateUpTo(f, sub, m, n); g.state == f.state && g.ack == f.ack && g.rendered == f.rendered
  {
    if n > 0 { RestateKeepsWorkflow(f, sub, m, n - 1); }
  }

  predicate Unmatched(id: FindingId, m: Metadata) {
    forall k :: k in m.matches ==> m.matches[k] != id
  }

  lemma {:induction false} UnmatchedStays(f: Finding, sub: Submission, m: Metadata, n: nat)
    requires n <= |sub.findings| && Unmatched(f.id, m)
    ensures RestateUpTo(f, sub, m, n) == f
  {
    if n > 0 { UnmatchedStays(f, sub, m, n - 1); }
  }

  lemma {:induction false} MatchedSays(f: Finding, sub: Submission, m: Metadata, n: nat, k: nat)
    requires k < n <= |sub.findings| && k in m.matches && m.matches[k] == f.id
    requires forall j :: j in m.matches && j != k ==> m.matches[j] != f.id
    ensures var g := RestateUpTo(f, sub, m, n);
      SaysAs(g, sub.findings[k]) && ArguesAs(g, sub.findings[k]) && g.firstSeen == f.firstSeen && RecordedBy(f, g, m)
  {
    if k < n - 1 {
      MatchedSays(f, sub, m, n - 1, k);
    } else {
      NotYetMatched(f, sub, m, k);
    }
  }

  lemma {:induction false} NotYetMatched(f: Finding, sub: Submission, m: Metadata, n: nat)
    requires n <= |sub.findings|
    requires forall j :: j in m.matches && j < n ==> m.matches[j] != f.id
    ensures RestateUpTo(f, sub, m, n) == f
  {
    if n > 0 { NotYetMatched(f, sub, m, n - 1); }
  }

  /** A prior finding keeps its topic unless the caller matched it with a submitted
      finding, and then takes that one's; the last reassessment has the last word. */
  predicate PriorSays(f: Finding, g: Finding, sub: Submission, m: Metadata) {
    && g.id == f.id && g.firstSeen == f.firstSeen && RecordedBy(f, g, m) && ActsAs(f, g, sub, m)
    && (Unmatched(f.id, m) ==> SameTopic(f, g) && LastWord(f, g, sub))
    && (forall k :: k in m.matches && 0 <= k < |sub.findings| && m.matches[k] == f.id ==>
          && SaysAs(g, sub.findings[k])
          && var r := FindReassessment(sub.reassessments, f.id);
             if r.Some? then JudgedAs(g, r.value) else ArguesAs(g, sub.findings[k]))
  }

  /** A created finding is what was submitted, open since now, unless the submission
      goes on to speak about it. */
  predicate CreatedSays(g: Finding, sub: Submission, m: Metadata, k: nat)
    requires k < |sub.findings| == |m.newIds|
  {
    && k !in m.matches && g.id == m.newIds[k] && SaysAs(g, sub.findings[k]) && g.firstSeen == m.at
    && (forall e :: e in g.history ==> e.run == m.run && e.at == m.at)
    && (FindTransition(sub.transitions, g.id).None? ==> g.state == Open && g.ack == None)
    && var r := FindReassessment(sub.reassessments, g.id);
       if r.Some? then JudgedAs(g, r.value) else ArguesAs(g, sub.findings[k])
  }

  lemma PriorIsSaid(f: Finding, sub: Submission, m: Metadata)
    requires forall k :: k in m.matches ==> 0 <= k < |sub.findings|
    requires forall j, k :: j in m.matches && k in m.matches && j != k ==> m.matches[j] != m.matches[k]
    ensures PriorSays(f, Settle(RestateUpTo(f, sub, m, |sub.findings|), sub, m), sub, m)
  {
    hide Settle, RestateUpTo, ReassessAll;
    var n := |sub.findings|;
    var h := RestateUpTo(f, sub, m, n);
    SettleSays(h, sub, m);
    SettleActs(h, sub, m);
    RestateKeepsWorkflow(f, sub, m, n);
    if Unmatched(f.id, m) {
      UnmatchedStays(f, sub, m, n);
    } else {
      var k :| k in m.matches && m.matches[k] == f.id;
      MatchedSays(f, sub, m, n, k);
    }
  }

  lemma CreatedIsSaid(sub: Submission, m: Metadata, k: nat)
    requires k < |sub.findings| == |m.newIds| && k !in m.matches
    ensures CreatedSays(Settle(FreshFinding(sub.findings[k], m.newIds[k], m), sub, m), sub, m, k)
  {
    hide Settle;
    var f := FreshFinding(sub.findings[k], m.newIds[k], m);
    SettleSays(f, sub, m);
    SettleActs(f, sub, m);
    var g := Settle(f, sub, m);
    forall e | e in g.history ensures e.run == m.run && e.at == m.at {
      var i :| 0 <= i < |g.history| && g.history[i] == e;
      if i < |f.history| { assert g.history[i] == f.history[i]; }
    }
  }

  predicate IsFresh(f: Finding, sub: Submission, m: Metadata, k: nat) {
    k < |sub.findings| == |m.newIds| && k !in m.matches && f == FreshFinding(sub.findings[k], m.newIds[k], m)
  }

  // Which submitted finding the `j`-th created one comes from.
  lemma {:induction false} CreatedFromOne(sub: Submission, m: Metadata, n: nat, j: nat)
    requires n <= |sub.findings| == |m.newIds| && j < |CreatedUpTo(sub, m, n)|
    ensures exists k: nat :: IsFresh(CreatedUpTo(sub, m, n)[j], sub, m, k)
  {
    if j < |CreatedUpTo(sub, m, n - 1)| {
      CreatedFromOne(sub, m, n - 1, j);
      var k: nat :| IsFresh(CreatedUpTo(sub, m, n - 1)[j], sub, m, k);
      assert IsFresh(CreatedUpTo(sub, m, n)[j], sub, m, k);
    } else {
      assert IsFresh(CreatedUpTo(sub, m, n)[j], sub, m, n - 1);
    }
  }

  lemma {:induction false} EachIsCreated(sub: Submission, m: Metadata, n: nat, k: nat)
    requires k < n <= |sub.findings| == |m.newIds| && k !in m.matches
    ensures FreshFinding(sub.findings[k], m.newIds[k], m) in CreatedUpTo(sub, m, n)
  {
    if k < n - 1 { EachIsCreated(sub, m, n - 1, k); }
  }

  predicate SaysSomeSubmitted(g: Finding, sub: Submission, m: Metadata)
    requires |m.newIds| == |sub.findings|
  {
    exists k :: 0 <= k < |sub.findings| && CreatedSays(g, sub, m, k)
  }

  predicate SaidBehind(r: seq<Finding>, n: nat, sub: Submission, m: Metadata, k: nat)
    requires k < |sub.findings| == |m.newIds|
  {
    exists j :: n <= j < |r| && CreatedSays(r[j], sub, m, k)
  }

  /** What reconciliation leaves every finding saying: prior findings first, in their
      places, then one for every submitted finding that was not matched. */
  predicate AllSaid(previous: seq<Finding>, r: seq<Finding>, sub: Submission, m: Metadata)
    requires |m.newIds| == |sub.findings|
  {
    && |r| >= |previous|
    && (forall i :: 0 <= i < |previous| ==> PriorSays(previous[i], r[i], sub, m))
    && (forall j :: |previous| <= j < |r| ==> SaysSomeSubmitted(r[j], sub, m))
    && (forall k :: 0 <= k < |sub.findings| && k !in m.matches ==> SaidBehind(r, |previous|, sub, m, k))
  }

  lemma ReconciledSays(previous: seq<Finding>, sub: Submission, m: Metadata)
    requires |m.newIds| == |sub.findings| && MatchesOk(previous, sub, m)
    ensures AllSaid(previous, Reconciled(previous, sub, m), sub, m)
  {
    hide Settle, RestateUpTo, PriorSays, CreatedSays, FreshFinding;
    var r, created := Reconciled(previous, sub, m), CreatedUpTo(sub, m, |sub.findings|);
    forall i | 0 <= i < |previous| ensures PriorSays(previous[i], r[i], sub, m) {
      PriorIsSaid(previous[i], sub, m);
    }
    forall j | |previous| <= j < |r| ensures SaysSomeSubmitted(r[j], sub, m) {
      CreatedFromOne(sub, m, |sub.findings|, j - |previous|);
      var k: nat :| IsFresh(created[j - |previous|], sub, m, k);
      CreatedIsSaid(sub, m, k);
      assert CreatedSays(r[j], sub, m, k);
    }
    forall k | 0 <= k < |sub.findings| && k !in m.matches ensures SaidBehind(r, |previous|, sub, m, k) {
      EachIsCreated(sub, m, |sub.findings|, k);
      var j :| 0 <= j < |created| && created[j] == FreshFinding(sub.findings[k], m.newIds[k], m);
      CreatedIsSaid(sub, m, k);
      assert CreatedSays(r[|previous| + j], sub, m, k);
    }
  }

  // ----- When reconciliation succeeds -----

  predicate MatchesOk(previous: seq<Finding>, sub: Submission, m: Metadata) {
    && (forall k :: k in m.matches ==> 0 <= k < |sub.findings| && m.matches[k] in FindingIds(previous))
    && (forall j, k :: j in m.matches && k in m.matches && j != k ==> m.matches[j] != m.matches[k])
  }

  predicate NewIdsOk(previous: seq<Finding>, sub: Submission, m: Metadata, n: nat)
    requires n <= |sub.findings| && |m.newIds| == |sub.findings|
  {
    && (forall k :: 0 <= k < n && k !in m.matches ==> m.newIds[k] !in FindingIds(previous))
    && (forall j, k :: 0 <= j < k < n && j !in m.matches && k !in m.matches ==> m.newIds[j] != m.newIds[k])
  }

  function IdsAfter(previous: seq<Finding>, sub: Submission, m: Metadata, n: nat): set<FindingId>
    requires n <= |sub.findings| && |m.newIds| == |sub.findings|
  {
    FindingIds(previous) + FindingIds(CreatedUpTo(sub, m, n))
  }

  predicate Reconcilable(previous: seq<Finding>, sub: Submission, m: Metadata)
    requires |m.newIds| == |sub.findings|
  {
    && m.at != 0 && m.run != ""
    && MatchesOk(previous, sub, m)
    && NewIdsOk(previous, sub, m, |sub.findings|)
    && (forall r :: r in sub.reassessments ==> r.finding in IdsAfter(previous, sub, m, |sub.findings|))
    && (forall t :: t in sub.transitions ==> t.finding in IdsAfter(previous, sub, m, |sub.findings|))
  }

  // A finding that was there, or one the submission creates.
  predicate IsKnown(id: FindingId, previous: seq<Finding>, sub: Submission, m: Metadata)
    requires |m.newIds| == |sub.findings|
  {
    || (exists i :: 0 <= i < |previous| && previous[i].id == id)
    || (exists k :: 0 <= k < |sub.findings| && k !in m.matches && m.newIds[k] == id)
  }

  lemma {:induction false} CreatedIdsExact(sub: Submission, m: Metadata, n: nat, id: FindingId)
    requires n <= |sub.findings| == |m.newIds|
    ensures id in FindingIds(CreatedUpTo(sub, m, n)) <==>
      exists k :: 0 <= k < n && k !in m.matches && m.newIds[k] == id
  {
    if n > 0 {
      CreatedIdsExact(sub, m, n - 1, id);
      if n - 1 !in m.matches {
        FindingIdsAppend(CreatedUpTo(sub, m, n - 1), FreshFinding(sub.findings[n - 1], m.newIds[n - 1], m));
      }
    }
  }

  /** Exactly when a submission can be reconciled: the run and the time are known, matches
      pair submitted findings with prior ones, no two with one, every created finding has an
      id of its own, and nothing is said of a finding that is neither there nor created. */
  lemma ReconcilableExactly(previous: seq<Finding>, sub: Submission, m: Metadata)
    requires |m.newIds| == |sub.findings|
    ensures Reconcilable(previous, sub, m) <==>
      && m.run != "" && m.at != 0
      && (forall k :: k in m.matches ==>
            0 <= k < |sub.findings| && exists i :: 0 <= i < |previous| && previous[i].id == m.matches[k])
      && (forall j, k :: j in m.matches && k in m.matches && m.matches[j] == m.matches[k] ==> j == k)
      && (forall k :: 0 <= k < |sub.findings| && k !in m.matches ==>
            && (forall i :: 0 <= i < |previous| ==> previous[i].id != m.newIds[k])
            && (forall j :: 0 <= j < |sub.findings| && j !in m.matches && m.newIds[j] == m.newIds[k] ==> j == k))
      && (forall r :: r in sub.reassessments ==> IsKnown(r.finding, previous, sub, m))
      && (forall t :: t in sub.transitions ==> IsKnown(t.finding, previous, sub, m))
  {
    forall id ensures id in IdsAfter(previous, sub, m, |sub.findings|) <==> IsKnown(id, previous, sub, m) {
      CreatedIdsExact(sub, m, |sub.findings|, id);
    }
    hide IsKnown, IdsAfter;
  }

  // ----- The loops of the source -----

  // Each id points at its finding.
  ghost predicate Indexed(result: seq<Finding>, index: map<FindingId, nat>) {
    && (forall id :: id in index ==> index[id] < |result| && result[index[id]].id == id)
    && (forall i :: 0 <= i < |result| ==> result[i].id in index && index[result[i].id] == i)
  }

  method IndexById(findings: seq<Finding>) returns (index: map<FindingId, nat>)
    requires UniqueIds(findings)
    ensures Indexed(findings, index)
    ensures index.Keys == FindingIds(findings)
  {
    index := map[];
    for i := 0 to |findings|
      invariant forall id :: id in index ==> index[id] < i && findings[index[id]].id == id
      invariant forall k :: 0 <= k < i ==> findings[k].id in index && index[findings[k].id] == k
    {
      index := index[findings[i].id := i];
    }
  }

  method CheckMatches(previous: seq<Finding>, sub: Submission, m: Metadata, index: map<FindingId, nat>)
    returns (ok: bool)
    requires index.Keys == FindingIds(previous)
    ensures ok <==> MatchesOk(previous, sub, m)
  {
    var matched: set<FindingId> := {};
    var rest := m.matches.Items;
    while rest != {}
      invariant rest <= m.matches.Items
      invariant forall k :: k in m.matches && (k, m.matches[k]) !in rest ==>
        0 <= k < |sub.findings| && m.matches[k] in FindingIds(previous) && m.matches[k] in matched
      invariant forall id :: id in matched ==>
        exists k :: k in m.matches && (k, m.matches[k]) !in rest && m.matches[k] == id
      invariant forall j, k ::
        j in m.matches && k in m.matches && j != k && (j, m.matches[j]) !in rest && (k, m.matches[k]) !in rest
        ==> m.matches[j] != m.matches[k]
      decreases |rest|
    {
      var item :| item in rest;
      var (k, id) := item;
      if k < 0 || k >= |sub.findings| { return false; }
      if id !in index { return false; }
      if id in matched { return false; }
      matched := matched + {id};
      rest := rest - {item};
    }
    return true;
  }

  // The findings after the submitted ones are merged and before anything is reassessed.
  ghost predicate Merged(result: seq<Finding>, previous: seq<Finding>, sub: Submission, m: Metadata, n: nat)
    requires n <= |sub.findings| && |m.newIds| == |sub.findings|
  {
    && |result| == |previous| + |CreatedUpTo(sub, m, n)|
    && (forall i :: 0 <= i < |previous| ==> result[i] == RestateUpTo(previous[i], sub, m, n))
    && (forall j :: 0 <= j < |CreatedUpTo(sub, m, n)| ==> result[|previous| + j] == CreatedUpTo(sub, m, n)[j])
  }

  lemma MergedIds(result: seq<Finding>, previous: seq<Finding>, sub: Submission, m: Metadata, n: nat)
    requires n <= |sub.findings| && |m.newIds| == |sub.findings|
    requires Merged(result, previous, sub, m, n)
    ensures FindingIds(result) == IdsAfter(previous, sub, m, n)
  {
    var created := CreatedUpTo(sub, m, n);
    forall id | id in FindingIds(previous) ensures id in FindingIds(result) {
      var i :| 0 <= i < |previous| && previous[i].id == id;
      assert result[i].id == id;
    }
    forall id | id in FindingIds(created) ensures id in FindingIds(result) {
      var j :| 0 <= j < |created| && created[j].id == id;
      assert result[|previous| + j].id == id;
    }
    forall id | id in FindingIds(result) ensures id in IdsAfter(previous, sub, m, n) {
      var i :| 0 <= i < |result| && result[i].id == id;
      if i < |previous| { assert previous[i].id == id; }
      else { assert created[i - |previous|].id == id; }
    }
  }

  lemma {:induction false} CreatedIds(sub: Submission, m: Metadata, n: nat)
    requires n <= |sub.findings| && |m.newIds| == |sub.findings|
    ensures forall id :: id in FindingIds(CreatedUpTo(sub, m, n)) <==>
      exists k :: 0 <= k < n && k !in m.matches && m.newIds[k] == id
  {
    if n > 0 {
      CreatedIds(sub, m, n - 1);
      var before := CreatedUpTo(sub, m, n - 1);
      if n - 1 !in m.matches {
        var f := FreshFinding(sub.findings[n - 1], m.newIds[n - 1], m);
        FindingIdsAppend(before, f);
      }
    }
  }

  lemma RestatedStep(result: seq<Finding>, previous: seq<Finding>, sub: Submission, m: Metadata, n: nat, at: nat)
    requires n < |sub.findings| && |m.newIds| == |sub.findings|
    requires UniqueIds(previous)
    requires Merged(result, previous, sub, m, n)
    requires n in m.matches && at < |previous| && previous[at].id == m.matches[n]
    ensures Merged(result[at := Restate(result[at], sub.findings[n], m)], previous, sub, m, n + 1)
  {
  }

  lemma NewIdFits(previous: seq<Finding>, sub: Submission, m: Metadata, n: nat)
    requires n < |sub.findings| && |m.newIds| == |sub.findings|
    requires NewIdsOk(previous, sub, m, n)
    requires n !in m.matches && m.newIds[n] !in IdsAfter(previous, sub, m, n)
    ensures NewIdsOk(previous, sub, m, n + 1)
  {
    CreatedIds(sub, m, n);
  }

  lemma NewIdCollides(previous: seq<Finding>, sub: Submission, m: Metadata, n: nat)
    requires n < |sub.findings| && |m.newIds| == |sub.findings|
    requires n !in m.matches && m.newIds[n] in IdsAfter(previous, sub, m, n)
    ensures !NewIdsOk(previous, sub, m, |sub.findings|)
  {
    CreatedIds(sub, m, n);
  }

  lemma CreatedStep(result: seq<Finding>, previous: seq<Finding>, sub: Submission, m: Metadata, n: nat)
    requires n < |sub.findings| && |m.newIds| == |sub.findings|
    requires Merged(result, previous, sub, m, n)
    requires n !in m.matches
    ensures Merged(result + [FreshFinding(sub.findings[n], m.newIds[n], m)], previous, sub, m, n + 1)
  {
    forall i | 0 <= i < |previous|
      ensures RestateUpTo(previous[i], sub, m, n + 1) == RestateUpTo(previous[i], sub, m, n)
    {
    }
  }

  lemma IndexedUpdate(result: seq<Finding>, index: map<FindingId, nat>, at: nat, f: Finding)
    requires Indexed(result, index) && at < |result| && f.id == result[at].id
    ensures Indexed(result[at := f], index)
  {
  }

  lemma IndexedAppend(result: seq<Finding>, index: map<FindingId, nat>, f: Finding)
    requires Indexed(result, index) && f.id !in index
    ensures Indexed(result + [f], index[f.id := |result|])
  {
  }

  ghost predicate Merging(result: seq<Finding>, index: map<FindingId, nat>, prior: map<FindingId, nat>,
                          previous: seq<Finding>, sub: Submission, m: Metadata, n: nat)
    requires n <= |sub.findings| && |m.newIds| == |sub.findings|
  {
    && NewIdsOk(previous, sub, m, n)
    && Merged(result, previous, sub, m, n)
    && Indexed(result, index)
    && (forall id :: id in prior ==> id in index && index[id] == prior[id])
  }

  lemma MergeRestated(result: seq<Finding>, index: map<FindingId, nat>, prior: map<FindingId, nat>,
                      previous: seq<Finding>, sub: Submission, m: Metadata, n: nat)
    requires n < |sub.findings| && |m.newIds| == |sub.findings|
    requires UniqueIds(previous) && Indexed(previous, prior) && MatchesOk(previous, sub, m)
    requires prior.Keys == FindingIds(previous)
    requires Merging(result, index, prior, previous, sub, m, n)
    requires n in m.matches
    ensures m.matches[n] in index && index[m.matches[n]] < |result|
    ensures var at := index[m.matches[n]];
      Merging(result[at := Restate(result[at], sub.findings[n], m)], index, prior, previous, sub, m, n + 1)
  {
    var at := prior[m.matches[n]];
    RestatedStep(result, previous, sub, m, n, at);
    IndexedUpdate(result, index, at, Restate(result[at], sub.findings[n], m));
  }

  lemma MergeCreated(result: seq<Finding>, index: map<FindingId, nat>, prior: map<FindingId, nat>,
                     previous: seq<Finding>, sub: Submission, m: Metadata, n: nat)
    requires n < |sub.findings| && |m.newIds| == |sub.findings|
    requires Indexed(previous, prior)
    requires Merging(result, index, prior, previous, sub, m, n)
    requires n !in m.matches
    ensures m.newIds[n] in index ==> !NewIdsOk(previous, sub, m, |sub.findings|)
    ensures m.newIds[n] !in index ==>
      var f := FreshFinding(sub.findings[n], m.newIds[n], m);
      Merging(result + [f], index[f.id := |result|], prior, previous, sub, m, n + 1)
  {
    MergedIds(result, previous, sub, m, n);
    var id := m.newIds[n];
    if id in index {
      assert result[index[id]].id == id;
      NewIdCollides(previous, sub, m, n);
    } else {
      assert id !in FindingIds(result);
      NewIdFits(previous, sub, m, n);
      CreatedStep(result, previous, sub, m, n);
      IndexedAppend(result, index, FreshFinding(sub.findings[n], id, m));
    }
  }

  method MergeFindings(previous: seq<Finding>, sub: Submission, m: Metadata, prior: map<FindingId, nat>)
    returns (ok: bool, result: seq<Finding>, index: map<FindingId, nat>)
    requires UniqueIds(previous)
    requires Indexed(previous, prior) && prior.Keys == FindingIds(previous)
    requires MatchesOk(previous, sub, m)
    requires |m.newIds| == |sub.findings|
    ensures ok <==> NewIdsOk(previous, sub, m, |sub.findings|)
    ensures ok ==> Merged(result, previous, sub, m, |sub.findings|) && Indexed(result, index)
  {
    hide UniqueIds, Restate;
    result, index := previous, prior;
    for n := 0 to |sub.findings|
      invariant Merging(result, index, prior, previous, sub, m, n)
    {
      var s := sub.findings[n];
      if n in m.matches {
        MergeRestated(result, index, prior, previous, sub, m, n);
        var at := index[m.matches[n]];
        result := result[at := Restate(result[at], s, m)];
      } else {
        var id := m.newIds[n];
        MergeCreated(result, index, prior, previous, sub, m, n);
        if id in index { return false, result, index; }
        index := index[id := |result|];
        result := result + [FreshFinding(s, id, m)];
      }
    }
    return true, result, index;
  }

  method ApplyReassessments(merged: seq<Finding>, index: map<FindingId, nat>, rs: seq<Reassessment>, m: Metadata)
    returns (ok: bool, result: seq<Finding>)
    requires Indexed(merged, index)
    ensures ok <==> forall r :: r in rs ==> r.finding in FindingIds(merged)
    ensures ok ==> |result| == |merged| && Indexed(result, index)
    ensures ok ==> forall i :: 0 <= i < |result| ==> result[i] == ReassessAll(merged[i], rs, m)
  {
    result := merged;
    for k := 0 to |rs|
      invariant |result| == |merged|
      invariant forall i :: 0 <= i < |result| ==> result[i] == ReassessAll(merged[i], rs[..k], m)
      invariant forall j :: 0 <= j < k ==> rs[j].finding in FindingIds(merged)
    {
      assert rs[..k + 1][..k] == rs[..k];
      assert rs[k] in rs;
      if rs[k].finding !in index {
        NotIndexed(merged, index, rs[k].finding);
        return false, result;
      }
      var at := index[rs[k].finding];
      result := result[at := Reassess(result[at], rs[k], m)];
    }
    assert rs[..|rs|] == rs;
    return true, result;
  }

  method ApplyTransitions(merged: seq<Finding>, index: map<FindingId, nat>, ts: seq<Transition>, m: Metadata)
    returns (ok: bool, result: seq<Finding>)
    requires Indexed(merged, index)
    ensures ok <==> forall t :: t in ts ==> t.finding in FindingIds(merged)
    ensures ok ==> |result| == |merged|
    ensures ok ==> forall i :: 0 <= i < |result| ==> result[i] == TransitAll(merged[i], ts, m)
  {
    result := merged;
    for k := 0 to |ts|
      invariant |result| == |merged|
      invariant forall i :: 0 <= i < |result| ==> result[i] == TransitAll(merged[i], ts[..k], m)
      invariant forall j :: 0 <= j < k ==> ts[j].finding in FindingIds(merged)
    {
      assert ts[..k + 1][..k] == ts[..k];
      assert ts[k] in ts;
      if ts[k].finding !in index {
        NotIndexed(merged, index, ts[k].finding);
        return false, result;
      }
      var at := index[ts[k].finding];
      result := result[at := Transit(result[at], ts[k], m)];
    }
    assert ts[..|ts|] == ts;
    return true, result;
  }

  lemma SameIds(a: seq<Finding>, b: seq<Finding>)
    requires |a| == |b| && forall i :: 0 <= i < |a| ==> a[i].id == b[i].id
    ensures FindingIds(a) == FindingIds(b)
  {
    forall id | id in FindingIds(a) ensures id in FindingIds(b) {
      var i :| 0 <= i < |a| && a[i].id == id;
      assert b[i].id == id;
    }
    forall id | id in FindingIds(b) ensures id in FindingIds(a) {
      var i :| 0 <= i < |b| && b[i].id == id;
      assert a[i].id == id;
    }
  }

  lemma PartsMakeReconciled(previous: seq<Finding>, sub: Submission, m: Metadata,
                            merged: seq<Finding>, reassessed: seq<Finding>, result: seq<Finding>)
    requires |m.newIds| == |sub.findings|
    requires Merged(merged, previous, sub, m, |sub.findings|)
    requires |reassessed| == |merged| == |result|
    requires forall i :: 0 <= i < |merged| ==> reassessed[i] == ReassessAll(merged[i], sub.reassessments, m)
    requires forall i :: 0 <= i < |merged| ==> result[i] == TransitAll(reassessed[i], sub.transitions, m)
    ensures result == Reconciled(previous, sub, m)
  {
    var whole := Reconciled(previous, sub, m);
    assert |result| == |whole|;
    forall i | 0 <= i < |result| ensures result[i] == whole[i] {
      assert result[i] == Settle(merged[i], sub, m);
      if i >= |previous| { assert merged[|previous| + (i - |previous|)] == merged[i]; }
    }
  }

  method Reconcile(previous: seq<Finding>, sub: Submission, m: Metadata) returns (r: Result<seq<Finding>>)
    requires UniqueIds(previous)
    requires |m.newIds| == |sub.findings|
    ensures r.Ok? <==> Reconcilable(previous, sub, m)
    ensures r.Ok? ==> r.value == Reconciled(previous, sub, m)
    ensures r.Ok? ==> AllSaid(previous, r.value, sub, m)
  {
    hide AllSaid;
    if m.at == 0 || m.run == "" { return Err; }
    var prior := IndexById(previous);
    var matchesOk := CheckMatches(previous, sub, m, prior);
    if !matchesOk { return Err; }
    var ok, merged, index := MergeFindings(previous, sub, m, prior);
    if !ok { return Err; }
    MergedIds(merged, previous, sub, m, |sub.findings|);
    var reassessed;
    ok, reassessed := ApplyReassessments(merged, index, sub.reassessments, m);
    if !ok { return Err; }
    SameIds(merged, reassessed);
    var result;
    ok, result := ApplyTransitions(reassessed, index, sub.transitions, m);
    if !ok { return Err; }
    PartsMakeReconciled(previous, sub, m, merged, reassessed, result);
    ReconciledSays(previous, sub, m);
    return Ok(result);
  }

  lemma NotIndexed(merged: seq<Finding>, index: map<FindingId, nat>, id: FindingId)
    requires Indexed(merged, index) && id !in index
    ensures id !in FindingIds(merged)
  {
  }

  // ----- What a submission with one entry per finding does -----

  function Change(f: Finding, r: Option<Reassessment>, t: Option<Transition>, m: Metadata): Finding {
    var g := if r.Some? then Reassess(f, r.value, m) else f;
    if t.Some? then Transit(g, t.value, m) else g
  }

  lemma {:induction false} ReassessOnce(f: Finding, rs: seq<Reassessment>, m: Metadata)
    requires DistinctReassessments(rs)
    ensures ReassessAll(f, rs, m) ==
      (var r := FindReassessment(rs, f.id); if r.Some? then Reassess(f, r.value, m) else f)
  {
    if |rs| > 0 {
      var front := rs[..|rs| - 1];
      ReassessOnce(f, front, m);
    }
  }

  lemma {:induction false} TransitOnce(f: Finding, ts: seq<Transition>, m: Metadata)
    requires DistinctTransitions(ts)
    ensures TransitAll(f, ts, m) ==
      (var t := FindTransition(ts, f.id); if t.Some? then Transit(f, t.value, m) else f)
  {
    if |ts| > 0 {
      var front := ts[..|ts| - 1];
      TransitOnce(f, front, m);
    }
  }

  /** A submission with at most one reassessment and one transition for a finding
      changes that finding by exactly those two entries. */
  lemma SettleIsChange(f: Finding, sub: Submission, m: Metadata)
    requires DistinctReassessments(sub.reassessments) && DistinctTransitions(sub.transitions)
    ensures Settle(f, sub, m) ==
      Change(f, FindReassessment(sub.reassessments, f.id), FindTransition(sub.transitions, f.id), m)
  {
    ReassessOnce(f, sub.reassessments, m);
    TransitOnce(ReassessAll(f, sub.reassessments, m), sub.transitions, m);
  }

  lemma {:induction false} NoMatchesNoRestate(f: Finding, sub: Submission, m: Metadata, n: nat)
    requires n <= |sub.findings| && m.matches == map[]
    ensures RestateUpTo(f, sub, m, n) == f
  {
    if n > 0 { NoMatchesNoRestate(f, sub, m, n - 1); }
  }

  // `r` holds findings with the ids of `a`, then findings with the ids of `b`.
  lemma JoinedIds(a: seq<Finding>, b: seq<Finding>, r: seq<Finding>)
    requires UniqueIds(a) && UniqueIds(b) && FindingIds(a) !! FindingIds(b)
    requires |r| == |a| + |b|
    requires forall i :: 0 <= i < |a| ==> r[i].id == a[i].id
    requires forall j :: 0 <= j < |b| ==> r[|a| + j].id == b[j].id
    ensures UniqueIds(r) && FindingIds(r) == FindingIds(a) + FindingIds(b)
  {
    forall i | 0 <= i < |r| ensures r[i].id in if i < |a| then FindingIds(a) else FindingIds(b) {
      if i < |a| { assert a[i].id == r[i].id; } else { assert b[i - |a|].id == r[i].id; }
    }
    forall id | id in FindingIds(a) ensures id in FindingIds(r) {
      var i :| 0 <= i < |a| && a[i].id == id;
      assert r[i].id == id;
    }
    forall id | id in FindingIds(b) ensures id in FindingIds(r) {
      var j :| 0 <= j < |b| && b[j].id == id;
      assert r[|a| + j].id == id;
    }
    forall i, j | 0 <= i < j < |r| ensures r[i].id != r[j].id {
      if |a| <= i { assert r[i].id == b[i - |a|].id && r[j].id == b[j - |a|].id; }
    }
  }

  /** Reconciliation keeps ids unique and never drops a finding. */
  lemma ReconciledIds(previous: seq<Finding>, sub: Submission, m: Metadata)
    requires UniqueIds(previous) && |m.newIds| == |sub.findings|
    requires Reconcilable(previous, sub, m)
    ensures UniqueIds(Reconciled(previous, sub, m))
    ensures forall i :: 0 <= i < |previous| ==> Reconciled(previous, sub, m)[i].id == previous[i].id
    ensures FindingIds(Reconciled(previous, sub, m)) == IdsAfter(previous, sub, m, |sub.findings|)
  {
    hide UniqueIds, FindingIds, Settle, RestateUpTo, MatchesOk;
    var n := |sub.findings|;
    CreatedIds(sub, m, n);
    CreatedUnique(sub, m, n);
    JoinedIds(previous, CreatedUpTo(sub, m, n), Reconciled(previous, sub, m));
  }

  lemma {:induction false} CreatedUnique(sub: Submission, m: Metadata, n: nat)
    requires n <= |sub.findings| && |m.newIds| == |sub.findings|
    requires forall j, k :: 0 <= j < k < n && j !in m.matches && k !in m.matches ==> m.newIds[j] != m.newIds[k]
    ensures UniqueIds(CreatedUpTo(sub, m, n))
  {
    if n > 0 {
      CreatedUnique(sub, m, n - 1);
      CreatedIds(sub, m, n - 1);
      var before := CreatedUpTo(sub, m, n - 1);
      forall i | 0 <= i < |before| && n - 1 !in m.matches ensures before[i].id != m.newIds[n - 1] {
        assert before[i].id in FindingIds(before);
      }
    }
  }
}
