/** Domain validation of a submission against the host's assignment
    (internal/review/validate.go). The predicates say what an acceptable
    submission is; the methods are the checking loops, proved to accept exactly
    those submissions. */
module Validation {
  import opened Domain

  // ----- What an acceptable submission is -----

  predicate Done(o: Outcome) {
    o == Covered || o == ExcludedByPolicy
  }

  predicate UnitsKnown(units: seq<UnitId>, known: set<UnitId>) {
    forall u :: u in units ==> u in known
  }

  predicate EvidenceKnown(evidence: seq<Evidence>, sources: map<SourceId, SourceRef>) {
    forall e, id :: e in evidence && id in e.refs ==> id in sources
  }

  predicate ReportsCovered(coverage: seq<UnitCoverage>, u: UnitId) {
    UnitCoverage(u, Covered) in coverage
  }

  predicate RequirementMet(u: UnitId, need: Requirement, coverage: seq<UnitCoverage>, units: set<UnitId>) {
    && u in units
    && (need.enclosing != "" ==> need.enclosing != u && need.enclosing in units)
    && (ReportsCovered(coverage, u) ==>
          need.retrieved && (need.enclosing != "" ==> ReportsCovered(coverage, need.enclosing)))
  }

  predicate OneEntryEach(coverage: seq<UnitCoverage>, units: set<UnitId>) {
    && (forall i :: 0 <= i < |coverage| ==> coverage[i].unit in units)
    && (forall i, j :: 0 <= i < j < |coverage| ==> coverage[i].unit != coverage[j].unit)
    && (forall u :: u in units ==> exists i :: 0 <= i < |coverage| && coverage[i].unit == u)
  }

  predicate ValidCoverage(sub: Submission, a: Assignment) {
    && OneEntryEach(sub.coverage, a.units)
    && (sub.completion == Complete ==> forall c :: c in sub.coverage ==> Done(c.outcome))
    && (forall u :: u in a.requirements ==> RequirementMet(u, a.requirements[u], sub.coverage, a.units))
  }

  predicate ValidReassessment(r: Reassessment, a: Assignment) {
    && r.finding in a.findings
    && UnitsKnown(r.units, a.units)
    && EvidenceKnown(r.evidence, a.sources)
    && (forall e, id :: e in r.evidence && id in e.refs && id in a.sources ==>
          a.sources[id].finding == "" || a.sources[id].finding == r.finding)
  }

  // What one cited source must satisfy to support a workflow change.
  predicate SupportsTransition(id: SourceId, t: Transition, known: Known, r: Option<Reassessment>,
                               sources: map<SourceId, SourceRef>)
  {
    && id in sources
    && !sources[id].consumed
    && id !in known.consumed
    && var s := sources[id];
       match t.how
       case Checkbox => false
       case AIDiscussion =>
         s.finding == t.finding && s.kind in {GitLabDiscussion, GitLabNote} && s.human
       case AICodeChange =>
         && s.kind in {RepositoryDiff, RepositorySource, RepositoryAST}
         && (s.finding == "" || s.finding == t.finding)
         && (match t.action
             case Acknowledge =>
               r.Some? && r.value.assessment == Addressed && id in EvidenceRefSet(r.value.evidence)
             case Reopen => s.finding == t.finding)
  }

  predicate TransitionEvidenceOk(t: Transition, known: Known, r: Option<Reassessment>,
                                 sources: map<SourceId, SourceRef>)
  {
    forall id :: id in t.refs ==> SupportsTransition(id, t, known, r, sources)
  }

  // The workflow rules a transition obeys beside its evidence.
  predicate TransitionAllowed(t: Transition, known: Known, r: Option<Reassessment>) {
    && t.how != Checkbox
    && (r.Some? && r.value.assessment == Addressed ==> t.how == AICodeChange)
    && match t.action
       case Acknowledge => known.state == Open
       case Reopen =>
         && known.state == Acknowledged
         && IsAI(known.ack)
         && known.ack.value.how == t.how
         && r.Some?
         && (r.value.assessment == Present || r.value.assessment == Unknown)
  }

  predicate ValidTransition(t: Transition, rs: seq<Reassessment>, a: Assignment) {
    && t.finding in a.findings
    && TransitionEvidenceOk(t, a.findings[t.finding], FindReassessment(rs, t.finding), a.sources)
    && TransitionAllowed(t, a.findings[t.finding], FindReassessment(rs, t.finding))
  }

  // An open finding may be called addressed only together with its acknowledgement.
  predicate AddressedIsAcknowledged(r: Reassessment, known: Known, ts: seq<Transition>) {
    known.state == Open && r.assessment == Addressed ==>
      var t := FindTransition(ts, r.finding);
      t.Some? && t.value.action == Acknowledge && t.value.how == AICodeChange
  }

  predicate ValidSubmission(sub: Submission, a: Assignment) {
    && ValidCoverage(sub, a)
    && (forall f :: f in sub.findings ==> UnitsKnown(f.units, a.units) && EvidenceKnown(f.evidence, a.sources))
    && DistinctReassessments(sub.reassessments)
    && (forall r :: r in sub.reassessments ==> ValidReassessment(r, a))
    && (sub.completion == Complete ==>
          forall id :: id in a.findings ==> FindReassessment(sub.reassessments, id).Some?)
    && DistinctTransitions(sub.transitions)
    && (forall t :: t in sub.transitions ==> ValidTransition(t, sub.reassessments, a))
    && (forall r :: r in sub.reassessments ==>
          r.finding in a.findings && AddressedIsAcknowledged(r, a.findings[r.finding], sub.transitions))
  }

  // ----- The same, case by case -----

  // Known to the host, and used up neither by anybody nor for this finding.
  predicate Unused(id: SourceId, known: Known, sources: map<SourceId, SourceRef>) {
    id in sources && !sources[id].consumed && id !in known.consumed
  }

  // Something a human wrote in a note or discussion about the finding.
  predicate HumanWord(id: SourceId, finding: FindingId, sources: map<SourceId, SourceRef>) {
    && id in sources && sources[id].human && sources[id].finding == finding
    && (sources[id].kind == GitLabNote || sources[id].kind == GitLabDiscussion)
  }

  predicate CodeEvidence(id: SourceId, sources: map<SourceId, SourceRef>) {
    && id in sources
    && (sources[id].kind == RepositoryDiff || sources[id].kind == RepositorySource || sources[id].kind == RepositoryAST)
  }

  predicate CitedIn(id: SourceId, r: Reassessment) {
    exists e :: e in r.evidence && id in e.refs
  }

  // A human's word acknowledges an open finding that is not called addressed.
  predicate DiscussionAcknowledges(t: Transition, known: Known, r: Option<Reassessment>,
                                   sources: map<SourceId, SourceRef>)
  {
    && t.action == Acknowledge && t.how == AIDiscussion && known.state == Open
    && (r.None? || r.value.assessment != Addressed)
    && forall id :: id in t.refs ==> HumanWord(id, t.finding, sources)
  }

  // Code acknowledges an open finding that is called addressed because of that code.
  predicate ChangeAcknowledges(t: Transition, known: Known, r: Option<Reassessment>, sources: map<SourceId, SourceRef>)
  {
    && t.action == Acknowledge && t.how == AICodeChange && known.state == Open
    && forall id :: id in t.refs ==>
         && CodeEvidence(id, sources) && sources[id].finding in {"", t.finding}
         && r.Some? && r.value.assessment == Addressed && CitedIn(id, r.value)
  }

  // What was acknowledged by AI is reopened on the same ground, if it is there or unknown.
  predicate Reopens(t: Transition, known: Known, r: Option<Reassessment>, sources: map<SourceId, SourceRef>) {
    && t.action == Reopen && known.state == Acknowledged && known.ack.Some? && known.ack.value.how == t.how
    && r.Some? && (r.value.assessment == Present || r.value.assessment == Unknown)
    && match t.how
       case Checkbox => false
       case AIDiscussion => forall id :: id in t.refs ==> HumanWord(id, t.finding, sources)
       case AICodeChange => forall id :: id in t.refs ==> CodeEvidence(id, sources) && sources[id].finding == t.finding
  }

  predicate ChangesWorkflow(t: Transition, rs: seq<Reassessment>, a: Assignment) {
    && t.finding in a.findings
    && var known, r := a.findings[t.finding], FindReassessment(rs, t.finding);
    && (forall id :: id in t.refs ==> Unused(id, known, a.sources))
    && (|| DiscussionAcknowledges(t, known, r, a.sources) || ChangeAcknowledges(t, known, r, a.sources)
        || Reopens(t, known, r, a.sources))
  }

  /** A change of a finding's workflow is valid exactly when all it cites is unused and it
      is one of four: an acknowledgement or a reopening, by a human's word or by code. */
  lemma WorkflowChanges(t: Transition, rs: seq<Reassessment>, a: Assignment)
    ensures ValidTransition(t, rs, a) <==> ChangesWorkflow(t, rs, a)
  {
    if t.finding in a.findings {
      var known, r := a.findings[t.finding], FindReassessment(rs, t.finding);
      if r.Some? {
        forall id ensures id in EvidenceRefSet(r.value.evidence) <==> CitedIn(id, r.value) {}
      }
    }
  }

  // One entry, and no second one.
  predicate ReportedOnce(u: UnitId, coverage: seq<UnitCoverage>) {
    exists i :: 0 <= i < |coverage| && coverage[i].unit == u &&
      forall j :: 0 <= j < |coverage| && j != i ==> coverage[j].unit != u
  }

  predicate ReportedDone(u: UnitId, coverage: seq<UnitCoverage>) {
    exists c :: c in coverage && c.unit == u && c.outcome == Covered
  }

  // Reported as covered only after it was retrieved, and together with what encloses it.
  predicate CoveredFairly(u: UnitId, sub: Submission, a: Assignment)
    requires u in a.requirements
  {
    var need := a.requirements[u];
    && u in a.units && (need.enclosing == "" || (need.enclosing != u && need.enclosing in a.units))
    && (ReportedDone(u, sub.coverage) ==>
          need.retrieved && (need.enclosing == "" || ReportedDone(need.enclosing, sub.coverage)))
  }

  predicate CitesKnown(evidence: seq<Evidence>, a: Assignment) {
    forall e :: e in evidence ==> forall id :: id in e.refs ==> id in a.sources
  }

  // Evidence for one finding that is associated with it or with none.
  predicate CitesOwn(r: Reassessment, a: Assignment) {
    CitesKnown(r.evidence, a) &&
    forall e :: e in r.evidence ==> forall id :: id in e.refs ==> a.sources[id].finding in {"", r.finding}
  }

  // What is said of a known finding: about units of the assignment, by known sources of its
  // own, and not that an open one is addressed unless code acknowledges it.
  predicate SaidWell(r: Reassessment, sub: Submission, a: Assignment) {
    && r.finding in a.findings && (forall u :: u in r.units ==> u in a.units) && CitesOwn(r, a)
    && (a.findings[r.finding].state == Open && r.assessment == Addressed ==>
          exists t ::
            t in sub.transitions && t.finding == r.finding && t.action == Acknowledge && t.how == AICodeChange)
  }

  predicate SpokenOf(id: FindingId, rs: seq<Reassessment>) {
    exists r :: r in rs && r.finding == id
  }

  lemma CoverageMeans(coverage: seq<UnitCoverage>, units: set<UnitId>)
    ensures OneEntryEach(coverage, units) <==>
      (forall u :: u in units ==> ReportedOnce(u, coverage)) && (forall c :: c in coverage ==> c.unit in units)
  {
    if OneEntryEach(coverage, units) {
      forall u | u in units ensures ReportedOnce(u, coverage) {
        var i :| 0 <= i < |coverage| && coverage[i].unit == u;
      }
    } else if (forall u :: u in units ==> ReportedOnce(u, coverage)) &&
              (forall c :: c in coverage ==> c.unit in units) {
      forall i, j | 0 <= i < j < |coverage| ensures coverage[i].unit != coverage[j].unit {
        assert coverage[i] in coverage && ReportedOnce(coverage[i].unit, coverage);
      }
      forall i | 0 <= i < |coverage| ensures coverage[i].unit in units { assert coverage[i] in coverage; }
    }
  }

  lemma FairMeans(u: UnitId, sub: Submission, a: Assignment)
    requires u in a.requirements
    ensures RequirementMet(u, a.requirements[u], sub.coverage, a.units) <==> CoveredFairly(u, sub, a)
  {
    forall v ensures ReportsCovered(sub.coverage, v) <==> ReportedDone(v, sub.coverage) {
      if ReportedDone(v, sub.coverage) {
        var c :| c in sub.coverage && c.unit == v && c.outcome == Covered;
        assert c == UnitCoverage(v, Covered);
      }
    }
  }

  lemma WordMeans(r: Reassessment, sub: Submission, a: Assignment)
    requires DistinctTransitions(sub.transitions)
    ensures SaidWell(r, sub, a) ==> r.finding in a.findings
    ensures r.finding in a.findings ==>
      (SaidWell(r, sub, a) <==>
         ValidReassessment(r, a) && AddressedIsAcknowledged(r, a.findings[r.finding], sub.transitions))
  {
    var t := FindTransition(sub.transitions, r.finding);
    assert forall x :: x in sub.transitions && x.finding == r.finding ==> t == Some(x);
  }

  /** Exactly what is accepted: every assigned unit reported once and no other, covered ones
      fairly; known units and sources; one word and one change at most per known finding;
      and of a complete submission, every unit done and every known finding spoken of. */
  lemma AcceptedExactly(sub: Submission, a: Assignment)
    ensures ValidSubmission(sub, a) <==>
      && (forall u :: u in a.units ==> ReportedOnce(u, sub.coverage))
      && (forall c :: c in sub.coverage ==> c.unit in a.units)
      && (forall u :: u in a.requirements ==> CoveredFairly(u, sub, a))
      && (forall f :: f in sub.findings ==> CitesKnown(f.evidence, a) && forall u :: u in f.units ==> u in a.units)
      && DistinctReassessments(sub.reassessments) && DistinctTransitions(sub.transitions)
      && (forall r :: r in sub.reassessments ==> SaidWell(r, sub, a))
      && (forall t :: t in sub.transitions ==> ChangesWorkflow(t, sub.reassessments, a))
      && (sub.completion == Complete ==>
            && (forall c :: c in sub.coverage ==> c.outcome == Covered || c.outcome == ExcludedByPolicy)
            && (forall id :: id in a.findings ==> SpokenOf(id, sub.reassessments)))
  {
    hide OneEntryEach, RequirementMet, ReportedOnce, CoveredFairly, ValidReassessment, AddressedIsAcknowledged,
      SaidWell, ValidTransition, ChangesWorkflow, DistinctReassessments;
    CoverageMeans(sub.coverage, a.units);
    forall u | u in a.requirements
      ensures RequirementMet(u, a.requirements[u], sub.coverage, a.units) <==> CoveredFairly(u, sub, a)
    {
      FairMeans(u, sub, a);
    }
    if DistinctTransitions(sub.transitions) {
      forall r | r in sub.reassessments
        ensures SaidWell(r, sub, a) ==> r.finding in a.findings
        ensures r.finding in a.findings ==>
          (SaidWell(r, sub, a) <==>
             ValidReassessment(r, a) && AddressedIsAcknowledged(r, a.findings[r.finding], sub.transitions))
      {
        WordMeans(r, sub, a);
      }
    }
    forall t | t in sub.transitions
      ensures ValidTransition(t, sub.reassessments, a) <==> ChangesWorkflow(t, sub.reassessments, a)
    {
      WorkflowChanges(t, sub.reassessments, a);
    }
  }

  /** What the JSON schema adds (internal/review/submit_review.schema.json): lists that
      may not be empty or hold an item twice. */
  predicate SchemaOk(sub: Submission) {
    && (forall f :: f in sub.findings ==> CitedWell(f.evidence) && ListedWell(f.units))
    && (forall r :: r in sub.reassessments ==> CitedWell(r.evidence) && ListedWell(r.units))
    && (forall t :: t in sub.transitions ==> ListedWell(t.refs))
  }

  predicate ListedWell(items: seq<string>) {
    |items| > 0 && DistinctSeq(items)
  }

  predicate CitedWell(evidence: seq<Evidence>) {
    |evidence| > 0 && forall e :: e in evidence ==> ListedWell(e.refs)
  }

  // ----- The checking loops -----

  method CheckUnits(units: seq<UnitId>, known: set<UnitId>) returns (ok: bool)
    ensures ok <==> UnitsKnown(units, known)
  {
    for i := 0 to |units|
      invariant forall k :: 0 <= k < i ==> units[k] in known
    {
      if units[i] !in known { return false; }
    }
    return true;
  }

  method CheckEvidence(evidence: seq<Evidence>, sources: map<SourceId, SourceRef>) returns (ok: bool)
    ensures ok <==> EvidenceKnown(evidence, sources)
  {
    for i := 0 to |evidence|
      invariant forall k, id :: 0 <= k < i && id in evidence[k].refs ==> id in sources
    {
      var refs := evidence[i].refs;
      for j := 0 to |refs|
        invariant forall m :: 0 <= m < j ==> refs[m] in sources
      {
        if refs[j] !in sources {
          assert evidence[i] in evidence && refs[j] in evidence[i].refs;
          return false;
        }
      }
    }
    return true;
  }

  method CheckReassessmentEvidence(r: Reassessment, sources: map<SourceId, SourceRef>) returns (ok: bool)
    ensures ok <==>
      && EvidenceKnown(r.evidence, sources)
      && (forall e, id :: e in r.evidence && id in e.refs && id in sources ==>
            sources[id].finding == "" || sources[id].finding == r.finding)
  {
    ok := CheckEvidence(r.evidence, sources);
    if !ok { return; }
    for i := 0 to |r.evidence|
      invariant forall k, id :: 0 <= k < i && id in r.evidence[k].refs ==>
        sources[id].finding == "" || sources[id].finding == r.finding
    {
      var refs := r.evidence[i].refs;
      assert r.evidence[i] in r.evidence;
      for j := 0 to |refs|
        invariant forall m :: 0 <= m < j ==>
          sources[refs[m]].finding == "" || sources[refs[m]].finding == r.finding
      {
        var source := sources[refs[j]];
        if source.finding != "" && source.finding != r.finding {
          assert r.evidence[i] in r.evidence && refs[j] in r.evidence[i].refs;
          return false;
        }
      }
    }
    return true;
  }

  method CheckTransitionEvidence(t: Transition, known: Known, r: Option<Reassessment>,
                                 sources: map<SourceId, SourceRef>)
    returns (ok: bool)
    ensures ok <==> TransitionEvidenceOk(t, known, r, sources)
  {
    var cited: set<SourceId> := {};
    if r.Some? { cited := EvidenceRefSet(r.value.evidence); }
    for i := 0 to |t.refs|
      invariant forall k :: 0 <= k < i ==> SupportsTransition(t.refs[k], t, known, r, sources)
    {
      var id := t.refs[i];
      assert id in t.refs;
      if id !in sources { return false; }
      var source := sources[id];
      if source.consumed { return false; }
      if id in known.consumed { return false; }
      match t.how {
        case AIDiscussion =>
          if source.finding != t.finding { return false; }
          if (source.kind != GitLabDiscussion && source.kind != GitLabNote) || !source.human { return false; }
        case AICodeChange =>
          if source.kind != RepositoryDiff && source.kind != RepositorySource && source.kind != RepositoryAST {
            return false;
          }
          if source.finding != "" && source.finding != t.finding { return false; }
          if t.action == Acknowledge {
            if r.None? || r.value.assessment != Addressed { return false; }
            if id !in cited { return false; }
          } else if source.finding != t.finding {
            return false;
          }
        case Checkbox =>
          return false;
      }
    }
    return true;
  }

  // Each unit once, and its outcome.
  ghost predicate HoldsOutcomes(outcomes: map<UnitId, Outcome>, coverage: seq<UnitCoverage>) {
    && (forall u :: u in outcomes <==> exists k :: 0 <= k < |coverage| && coverage[k].unit == u)
    && (forall k :: 0 <= k < |coverage| ==> outcomes[coverage[k].unit] == coverage[k].outcome)
  }

  method CollectOutcomes(sub: Submission, units: set<UnitId>) returns (ok: bool, outcomes: map<UnitId, Outcome>)
    ensures ok <==>
      && (forall i :: 0 <= i < |sub.coverage| ==> sub.coverage[i].unit in units)
      && (forall i, j :: 0 <= i < j < |sub.coverage| ==> sub.coverage[i].unit != sub.coverage[j].unit)
      && (sub.completion == Complete ==> forall c :: c in sub.coverage ==> Done(c.outcome))
    ensures ok ==> HoldsOutcomes(outcomes, sub.coverage)
  {
    outcomes := map[];
    for i := 0 to |sub.coverage|
      invariant forall k :: 0 <= k < i ==> sub.coverage[k].unit in units
      invariant forall j, k :: 0 <= j < k < i ==> sub.coverage[j].unit != sub.coverage[k].unit
      invariant forall u :: u in outcomes <==> exists k :: 0 <= k < i && sub.coverage[k].unit == u
      invariant forall k :: 0 <= k < i ==> outcomes[sub.coverage[k].unit] == sub.coverage[k].outcome
      invariant sub.completion == Complete ==> forall k :: 0 <= k < i ==> Done(sub.coverage[k].outcome)
    {
      var c := sub.coverage[i];
      if c.unit !in units { return false, outcomes; }
      if c.unit in outcomes { return false, outcomes; }
      outcomes := outcomes[c.unit := c.outcome];
      if sub.completion == Complete && c.outcome != Covered && c.outcome != ExcludedByPolicy {
        assert c in sub.coverage;
        return false, outcomes;
      }
    }
    ok := true;
  }

  method CheckRequirement(u: UnitId, need: Requirement, a: Assignment, outcomes: map<UnitId, Outcome>,
                          ghost coverage: seq<UnitCoverage>) returns (ok: bool)
    requires forall x :: ReportsCovered(coverage, x) <==> x in outcomes && outcomes[x] == Covered
    ensures ok <==> RequirementMet(u, need, coverage, a.units)
  {
    hide ReportsCovered;
    if u !in a.units { return false; }
    if need.enclosing != "" {
      if need.enclosing == u { return false; }
      if need.enclosing !in a.units { return false; }
    }
    if u in outcomes && outcomes[u] == Covered {
      if !need.retrieved { return false; }
      if need.enclosing != "" && !(need.enclosing in outcomes && outcomes[need.enclosing] == Covered) {
        return false;
      }
    }
    return true;
  }

  lemma CoveredInOutcomes(outcomes: map<UnitId, Outcome>, coverage: seq<UnitCoverage>, u: UnitId)
    requires HoldsOutcomes(outcomes, coverage)
    ensures ReportsCovered(coverage, u) <==> u in outcomes && outcomes[u] == Covered
  {
    if u in outcomes && outcomes[u] == Covered {
      var k :| 0 <= k < |coverage| && coverage[k].unit == u;
      assert coverage[k] == UnitCoverage(u, Covered);
    }
  }

  method CheckCoverage(sub: Submission, a: Assignment) returns (ok: bool)
    ensures ok <==> ValidCoverage(sub, a)
  {
    hide RequirementMet, ReportsCovered;
    var outcomes;
    ok, outcomes := CollectOutcomes(sub, a.units);
    if !ok { return; }
    var rest := a.units;
    while rest != {}
      invariant rest <= a.units
      invariant forall u :: u in a.units && u !in rest ==> u in outcomes
      decreases |rest|
    {
      var u :| u in rest;
      if u !in outcomes { return false; }
      rest := rest - {u};
    }
    assert OneEntryEach(sub.coverage, a.units);
    forall u ensures ReportsCovered(sub.coverage, u) <==> u in outcomes && outcomes[u] == Covered {
      CoveredInOutcomes(outcomes, sub.coverage, u);
    }
    hide HoldsOutcomes, OneEntryEach;
    var todo := a.requirements.Keys;
    while todo != {}
      invariant todo <= a.requirements.Keys
      invariant forall u :: u in a.requirements && u !in todo ==>
        RequirementMet(u, a.requirements[u], sub.coverage, a.units)
      decreases |todo|
    {
      var u :| u in todo;
      var met := CheckRequirement(u, a.requirements[u], a, outcomes, sub.coverage);
      if !met { return false; }
      todo := todo - {u};
    }
    return true;
  }

  // The map a checking loop has filled agrees with looking an entry up.
  ghost predicate HoldsReassessments(byId: map<FindingId, Reassessment>, rs: seq<Reassessment>) {
    forall id :: FindReassessment(rs, id) == if id in byId then Some(byId[id]) else None
  }

  ghost predicate HoldsTransitions(changes: map<FindingId, Transition>, ts: seq<Transition>) {
    forall id :: FindTransition(ts, id) == if id in changes then Some(changes[id]) else None
  }

  lemma HoldsOneMore(changes: map<FindingId, Transition>, ts: seq<Transition>, i: nat)
    requires i < |ts|
    requires HoldsTransitions(changes, ts[..i])
    ensures HoldsTransitions(changes[ts[i].finding := ts[i]], ts[..i + 1])
  {
    assert ts[..i + 1][..i] == ts[..i];
  }

  lemma ReassessedOneMore(byId: map<FindingId, Reassessment>, rs: seq<Reassessment>, i: nat)
    requires i < |rs| && HoldsReassessments(byId, rs[..i])
    ensures HoldsReassessments(byId[rs[i].finding := rs[i]], rs[..i + 1])
  {
    assert rs[..i + 1][..i] == rs[..i];
  }

  lemma RepeatedReassessment(rs: seq<Reassessment>, i: nat)
    requires i < |rs| && FindReassessment(rs[..i], rs[i].finding).Some?
    ensures !DistinctReassessments(rs)
  {
    var found := FindReassessment(rs[..i], rs[i].finding).value;
    var j :| 0 <= j < i && rs[..i][j] == found;
    assert rs[j].finding == rs[i].finding;
  }

  lemma RepeatedTransition(ts: seq<Transition>, i: nat)
    requires i < |ts|
    requires FindTransition(ts[..i], ts[i].finding).Some?
    ensures !DistinctTransitions(ts)
  {
    var found := FindTransition(ts[..i], ts[i].finding).value;
    var j :| 0 <= j < i && ts[..i][j] == found;
    assert ts[j].finding == ts[i].finding;
  }

  method CheckReassessments(sub: Submission, a: Assignment)
    returns (ok: bool, byId: map<FindingId, Reassessment>)
    ensures ok <==>
      && DistinctReassessments(sub.reassessments)
      && (forall r :: r in sub.reassessments ==> ValidReassessment(r, a))
      && (sub.completion == Complete ==>
            forall id :: id in a.findings ==> FindReassessment(sub.reassessments, id).Some?)
    ensures ok ==> HoldsReassessments(byId, sub.reassessments)
  {
    hide FindReassessment;
    byId := map[];
    var rs := sub.reassessments;
    for i := 0 to |rs|
      invariant forall j, k :: 0 <= j < k < i ==> rs[j].finding != rs[k].finding
      invariant forall k :: 0 <= k < i ==> ValidReassessment(rs[k], a)
      invariant HoldsReassessments(byId, rs[..i])
    {
      var r := rs[i];
      assert r in rs;
      assert FindReassessment(rs[..i], r.finding) == if r.finding in byId then Some(byId[r.finding]) else None;
      if r.finding !in a.findings { return false, byId; }
      if r.finding in byId {
        RepeatedReassessment(rs, i);
        return false, byId;
      }
      ReassessedOneMore(byId, rs, i);
      byId := byId[r.finding := r];
      var unitsOk := CheckUnits(r.units, a.units);
      if !unitsOk { return false, byId; }
      var evidenceOk := CheckReassessmentEvidence(r, a.sources);
      if !evidenceOk { return false, byId; }
    }
    assert rs[..|rs|] == rs;
    if sub.completion == Complete {
      var reassessed := EveryReassessed(a.findings.Keys, byId);
      return reassessed, byId;
    }
    return true, byId;
  }

  method EveryReassessed(ids: set<FindingId>, byId: map<FindingId, Reassessment>) returns (ok: bool)
    ensures ok <==> forall id :: id in ids ==> id in byId
  {
    var rest := ids;
    while rest != {}
      invariant rest <= ids
      invariant forall id :: id in ids && id !in rest ==> id in byId
      decreases |rest|
    {
      var id :| id in rest;
      if id !in byId { return false; }
      rest := rest - {id};
    }
    return true;
  }

  method CheckTransition(t: Transition, rs: seq<Reassessment>, a: Assignment, byId: map<FindingId, Reassessment>)
    returns (ok: bool)
    requires HoldsReassessments(byId, rs)
    ensures ok <==> ValidTransition(t, rs, a)
  {
    if t.finding !in a.findings { return false; }
    var known := a.findings[t.finding];
    if t.how == Checkbox { return false; }
    var r := if t.finding in byId then Some(byId[t.finding]) else None;
    assert r == FindReassessment(rs, t.finding);
    var evidenceOk := CheckTransitionEvidence(t, known, r, a.sources);
    if !evidenceOk { return false; }
    if r.Some? && r.value.assessment == Addressed && t.how != AICodeChange { return false; }
    match t.action {
      case Acknowledge =>
        return known.state == Open;
      case Reopen =>
        if known.state != Acknowledged || known.ack.None? || known.ack.value.how == Checkbox { return false; }
        if known.ack.value.how != t.how { return false; }
        return r.Some? && (r.value.assessment == Present || r.value.assessment == Unknown);
    }
  }

  method CheckTransitions(sub: Submission, a: Assignment, byId: map<FindingId, Reassessment>)
    returns (ok: bool, changes: map<FindingId, Transition>)
    requires HoldsReassessments(byId, sub.reassessments)
    ensures ok <==>
      && DistinctTransitions(sub.transitions)
      && (forall t :: t in sub.transitions ==> ValidTransition(t, sub.reassessments, a))
    ensures ok ==> HoldsTransitions(changes, sub.transitions)
  {
    hide FindTransition, ValidTransition;
    changes := map[];
    var ts := sub.transitions;
    for i := 0 to |ts|
      invariant forall j, k :: 0 <= j < k < i ==> ts[j].finding != ts[k].finding
      invariant forall k :: 0 <= k < i ==> ValidTransition(ts[k], sub.reassessments, a)
      invariant HoldsTransitions(changes, ts[..i])
    {
      var t := ts[i];
      assert t in ts;
      assert FindTransition(ts[..i], t.finding) == if t.finding in changes then Some(changes[t.finding]) else None;
      if t.finding in changes {
        RepeatedTransition(ts, i);
        return false, changes;
      }
      var valid := CheckTransition(t, sub.reassessments, a, byId);
      if !valid { return false, changes; }
      HoldsOneMore(changes, ts, i);
      changes := changes[t.finding := t];
    }
    assert ts[..|ts|] == ts;
    return true, changes;
  }

  method CheckAddressed(sub: Submission, a: Assignment,
                        byId: map<FindingId, Reassessment>, changes: map<FindingId, Transition>)
    returns (ok: bool)
    requires HoldsReassessments(byId, sub.reassessments) && HoldsTransitions(changes, sub.transitions)
    requires DistinctReassessments(sub.reassessments)
    requires forall r :: r in sub.reassessments ==> r.finding in a.findings
    ensures ok <==> forall r :: r in sub.reassessments ==>
      AddressedIsAcknowledged(r, a.findings[r.finding], sub.transitions)
  {
    var rest := byId.Keys;
    assert forall id :: id in byId ==> FindReassessment(sub.reassessments, id) == Some(byId[id]);
    while rest != {}
      invariant rest <= byId.Keys
      invariant forall id :: id in byId && id !in rest ==>
        AddressedIsAcknowledged(byId[id], a.findings[id], sub.transitions)
      decreases |rest|
    {
      var id :| id in rest;
      var r := byId[id];
      assert FindReassessment(sub.reassessments, id) == Some(r);
      if a.findings[id].state == Open && r.assessment == Addressed {
        assert FindTransition(sub.transitions, id) == if id in changes then Some(changes[id]) else None;
        if id !in changes || changes[id].action != Acknowledge || changes[id].how != AICodeChange {
          return false;
        }
      }
      rest := rest - {id};
    }
    forall r | r in sub.reassessments
      ensures AddressedIsAcknowledged(r, a.findings[r.finding], sub.transitions)
    {
      FoundIsUnique(sub.reassessments, r);
      assert r.finding in byId && byId[r.finding] == r;
    }
    return true;
  }

  method ValidateSubmission(sub: Submission, a: Assignment) returns (ok: bool)
    ensures ok <==> ValidSubmission(sub, a)
  {
    ok := CheckCoverage(sub, a);
    if !ok { return; }
    for i := 0 to |sub.findings|
      invariant forall k :: 0 <= k < i ==>
        UnitsKnown(sub.findings[k].units, a.units) && EvidenceKnown(sub.findings[k].evidence, a.sources)
    {
      assert sub.findings[i] in sub.findings;
      var unitsOk := CheckUnits(sub.findings[i].units, a.units);
      if !unitsOk { return false; }
      var evidenceOk := CheckEvidence(sub.findings[i].evidence, a.sources);
      if !evidenceOk { return false; }
    }
    var byId, changes;
    ok, byId := CheckReassessments(sub, a);
    if !ok { return; }
    ok, changes := CheckTransitions(sub, a, byId);
    if !ok { return; }
    ok := CheckAddressed(sub, a, byId, changes);
  }

  lemma FoundIsUnique(rs: seq<Reassessment>, r: Reassessment)
    requires DistinctReassessments(rs) && r in rs
    ensures FindReassessment(rs, r.finding) == Some(r)
  {
    var found := FindReassessment(rs, r.finding).value;
    var i :| 0 <= i < |rs| && rs[i] == r;
    var j :| 0 <= j < |rs| && rs[j] == found;
  }
}
