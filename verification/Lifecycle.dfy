/** The life of a finding under its three actors: AI submissions, human checkbox
    edits and the host that decides which evidence is used up. The claims are
    about whole runs: any sequence of validated submissions, of stored submissions
    replayed without validation, of box edits and of storing the report, which
    redraws every box, in any order. */
module Lifecycle {
  import opened Domain
  import opened Validation
  import opened Reconciliation
  import opened ReportCodec

  // ----- What the host tells a validator about a finding -----

  predicate HumanReopen(e: Event) {
    e.kind == Reopened && e.how == Some(Checkbox)
  }

  predicate ReopenedByHumanFrom(h: seq<Event>, i: nat) {
    exists j :: i <= j < |h| && HumanReopen(h[j])
  }

  predicate UsedUp(h: seq<Event>, i: nat)
    requires i < |h|
  {
    h[i].kind == WasAcknowledged || ReopenedByHumanFrom(h, i)
  }

  /** Evidence that can no longer support an acknowledgement: whatever an earlier
      acknowledgement cited, and everything recorded up to the last human reopen. */
  function Consumed(h: seq<Event>): set<SourceId> {
    set i, id | 0 <= i < |h| && UsedUp(h, i) && id in h[i].refs :: id
  }

  function KnownOf(f: Finding): Known {
    Known(f.state, f.ack, Consumed(f.history))
  }

  method KnownFinding(f: Finding) returns (known: Known)
    ensures known == KnownOf(f)
  {
    var h := f.history;
    var lastHumanReopen := -1;
    for i := 0 to |h|
      invariant -1 <= lastHumanReopen < i
      invariant lastHumanReopen >= 0 ==> HumanReopen(h[lastHumanReopen])
      invariant forall j :: lastHumanReopen < j < i ==> !HumanReopen(h[j])
    {
      if h[i].kind == Reopened && h[i].how == Some(Checkbox) { lastHumanReopen := i; }
    }
    forall i | 0 <= i < |h| ensures UsedUp(h, i) <==> h[i].kind == WasAcknowledged || i <= lastHumanReopen {
    }
    var consumed: set<SourceId> := {};
    for i := 0 to |h|
      invariant consumed == set j, id | 0 <= j < i && UsedUp(h, j) && id in h[j].refs :: id
    {
      if h[i].kind == WasAcknowledged || i <= lastHumanReopen {
        consumed := consumed + SetOf(h[i].refs);
      }
    }
    known := Known(f.state, f.ack, consumed);
  }

  /** One more event uses up nothing old unless it is a human reopen, which uses up everything. */
  lemma ConsumedAppend(h: seq<Event>, e: Event)
    ensures !HumanReopen(e) ==>
      Consumed(h + [e]) == Consumed(h) + if e.kind == WasAcknowledged then SetOf(e.refs) else {}
    ensures HumanReopen(e) ==> Consumed(h + [e]) == HistoryRefSet(h + [e])
  {
    var g := h + [e];
    assert g[|h|] == e;
    if HumanReopen(e) {
      assert forall i :: 0 <= i < |g| ==> ReopenedByHumanFrom(g, i);
      forall id | id in HistoryRefSet(g) ensures id in Consumed(g) {
        var x :| x in g && id in x.refs;
        var i :| 0 <= i < |g| && g[i] == x;
        assert UsedUp(g, i);
      }
    } else {
      forall i | 0 <= i < |h| ensures UsedUp(g, i) <==> UsedUp(h, i) {
        if ReopenedByHumanFrom(g, i) {
          var j :| i <= j < |g| && HumanReopen(g[j]);
          assert h[j] == g[j];
        }
        if ReopenedByHumanFrom(h, i) {
          var j :| i <= j < |h| && HumanReopen(h[j]);
          assert g[j] == h[j];
        }
      }
      assert UsedUp(g, |h|) <==> e.kind == WasAcknowledged;
      ConsumedSplit(h, e);
    }
  }

  lemma ConsumedSplit(h: seq<Event>, e: Event)
    requires forall i :: 0 <= i < |h| ==> (UsedUp(h + [e], i) <==> UsedUp(h, i))
    ensures Consumed(h + [e]) == Consumed(h) + if UsedUp(h + [e], |h|) then SetOf(e.refs) else {}
  {
    var g := h + [e];
    forall id | id in Consumed(h) ensures id in Consumed(g) {
      var i :| 0 <= i < |h| && UsedUp(h, i) && id in h[i].refs;
      assert UsedUp(g, i) && g[i] == h[i];
    }
    forall id | id in e.refs && UsedUp(g, |h|) ensures id in Consumed(g) {
      assert g[|h|] == e;
    }
    forall id | id in Consumed(g) && id !in Consumed(h) ensures UsedUp(g, |h|) && id in e.refs {
      var i :| 0 <= i < |g| && UsedUp(g, i) && id in g[i].refs;
    }
  }

  // ----- Fresh evidence -----

  predicate AIAcknowledged(e: Event) {
    e.kind == WasAcknowledged && e.how.Some? && e.how.value != Checkbox
  }

  /** Every AI acknowledgement cites only evidence that was not used up when it was made. */
  predicate FreshEvidence(h: seq<Event>) {
    forall k :: 0 <= k < |h| && AIAcknowledged(h[k]) ==> SetOf(h[k].refs) !! Consumed(h[..k])
  }

  lemma FreshAppend(h: seq<Event>, e: Event)
    ensures FreshEvidence(h + [e]) <==> FreshEvidence(h) && (AIAcknowledged(e) ==> SetOf(e.refs) !! Consumed(h))
  {
    var g := h + [e];
    assert g[..|h|] == h && g[|h|] == e;
    assert forall k :: 0 <= k < |h| ==> g[..k] == h[..k] && g[k] == h[k];
    if FreshEvidence(g) {
      forall k | 0 <= k < |h| && AIAcknowledged(h[k]) ensures SetOf(h[k].refs) !! Consumed(h[..k]) {
        assert AIAcknowledged(g[k]);
      }
      if AIAcknowledged(e) { assert AIAcknowledged(g[|h|]); }
    }
  }

  /** What fresh evidence says about two acknowledgements and about a human reopen in between. */
  lemma FreshEvidenceMeans(h: seq<Event>, j: nat, k: nat)
    requires FreshEvidence(h) && j < k < |h| && AIAcknowledged(h[k])
    ensures h[j].kind == WasAcknowledged ==> SetOf(h[k].refs) !! SetOf(h[j].refs)
    ensures forall r :: j <= r < k && HumanReopen(h[r]) ==> SetOf(h[k].refs) !! SetOf(h[j].refs)
  {
    var g := h[..k];
    assert g[j] == h[j];
    forall r | j <= r < k && HumanReopen(h[r]) ensures UsedUp(g, j) {
      assert HumanReopen(g[r]);
    }
    if UsedUp(g, j) { assert SetOf(h[j].refs) <= Consumed(g); }
  }

  // ----- Replaying a history -----

  datatype View = View(
    assessment: Assessment,
    state: FindingState,
    ack: Option<Ack>,
    firstSeen: Instant,
    lastSeen: Instant)

  function Advance(v: View, e: Event): View {
    match e.kind
    case Created => View(AssessmentOf(e), Open, None, e.at, e.at)
    case Reassessed => v.(assessment := AssessmentOf(e), lastSeen := e.at)
    case WasAcknowledged =>
      v.(state := Acknowledged, ack := if e.how.Some? then Some(Ack(e.how.value, e.refs, e.at)) else None)
    case Reopened => v.(state := Open, ack := None)
  }

  function AssessmentOf(e: Event): Assessment {
    if e.assessment.Some? then e.assessment.value else Unknown
  }

  function ReplayHistory(h: seq<Event>): View {
    if |h| == 0 then View(Unknown, Open, None, 0, 0)
    else Advance(ReplayHistory(h[..|h| - 1]), h[|h| - 1])
  }

  lemma ReplayAppend(h: seq<Event>, e: Event)
    ensures ReplayHistory(h + [e]) == Advance(ReplayHistory(h), e)
  {
    assert (h + [e])[..|h|] == h;
  }

  function ViewOf(f: Finding): View {
    View(f.assessment, f.state, f.ack, f.firstSeen, f.lastSeen)
  }

  // ----- The last decision about acknowledgement -----

  function LastWorkflow(h: seq<Event>): Option<Event> {
    if |h| == 0 then None
    else
      var e := h[|h| - 1];
      if e.kind == WasAcknowledged || e.kind == Reopened then Some(e) else LastWorkflow(h[..|h| - 1])
  }

  lemma LastWorkflowAppend(h: seq<Event>, e: Event)
    ensures LastWorkflow(h + [e]) ==
      if e.kind == WasAcknowledged || e.kind == Reopened then Some(e) else LastWorkflow(h)
  {
    assert (h + [e])[..|h|] == h;
  }

  predicate ReopenedByHumanLast(f: Finding) {
    LastWorkflow(f.history).Some? && HumanReopen(LastWorkflow(f.history).value)
  }

  predicate OpenAddressedOnlyByHuman(f: Finding) {
    f.state == Open && f.assessment == Addressed ==> ReopenedByHumanLast(f)
  }

  // ----- Provenance: what a finding cites now, its history has recorded -----

  predicate CitesHistory(f: Finding) {
    EvidenceRefSet(f.evidence) + AckRefSet(f.ack) <= HistoryRefSet(f.history)
  }

  lemma HistoryRefsAppend(h: seq<Event>, e: Event)
    ensures HistoryRefSet(h + [e]) == HistoryRefSet(h) + SetOf(e.refs)
  {
    var g := h + [e];
    assert forall x :: x in g <==> x in h || x == e;
  }

  // ----- What every step keeps of one finding -----

  /** The finding is what its history says. */
  predicate Recorded(f: Finding) {
    && ViewOf(f) == ReplayHistory(f.history)
    && CitesHistory(f)
    && (f.state == Open <==> f.ack.None?)
  }

  predicate Good(f: Finding) {
    Recorded(f) && FreshEvidence(f.history) && OpenAddressedOnlyByHuman(f)
  }

  // One event appended to a history, with the fields the event stands for.
  lemma RecordedStep(f: Finding, g: Finding, e: Event)
    requires Recorded(f)
    requires g.history == f.history + [e]
    requires ViewOf(g) == Advance(ViewOf(f), e)
    requires EvidenceRefSet(g.evidence) + AckRefSet(g.ack) <=
      EvidenceRefSet(f.evidence) + AckRefSet(f.ack) + SetOf(e.refs)
    requires g.state == Open <==> g.ack.None?
    ensures Recorded(g)
  {
    ReplayAppend(f.history, e);
    HistoryRefsAppend(f.history, e);
  }

  lemma {:induction false} ReassessAllIsRecorded(f: Finding, rs: seq<Reassessment>, m: Metadata)
    ensures f.history <= ReassessAll(f, rs, m).history
    ensures Recorded(f) ==> Recorded(ReassessAll(f, rs, m))
  {
    hide Recorded;
    if |rs| > 0 {
      ReassessAllIsRecorded(f, rs[..|rs| - 1], m);
      var g, r := ReassessAll(f, rs[..|rs| - 1], m), rs[|rs| - 1];
      if r.finding == f.id && Recorded(g) { ReassessIsRecorded(g, r, m); }
    }
  }

  lemma ReassessIsRecorded(f: Finding, r: Reassessment, m: Metadata)
    requires Recorded(f)
    ensures Recorded(Reassess(f, r, m))
  {
    EvidenceRefsExact(r.evidence);
    RecordedStep(f, Reassess(f, r, m), Reassess(f, r, m).history[|f.history|]);
  }

  lemma {:induction false} TransitAllIsRecorded(f: Finding, ts: seq<Transition>, m: Metadata)
    ensures f.history <= TransitAll(f, ts, m).history
    ensures Recorded(f) ==> Recorded(TransitAll(f, ts, m))
  {
    hide Recorded;
    if |ts| > 0 {
      TransitAllIsRecorded(f, ts[..|ts| - 1], m);
      var g, t := TransitAll(f, ts[..|ts| - 1], m), ts[|ts| - 1];
      if t.finding == f.id && Recorded(g) { TransitIsRecorded(g, t, m); }
    }
  }

  lemma TransitIsRecorded(f: Finding, t: Transition, m: Metadata)
    requires Recorded(f)
    ensures Recorded(Transit(f, t, m))
  {
    RecordedStep(f, Transit(f, t, m), Transit(f, t, m).history[|f.history|]);
  }

  /** A submission, whatever it says and whatever it was validated against, only
      appends to a finding's history and leaves the finding its history describes. */
  lemma SettleIsRecorded(f: Finding, sub: Submission, m: Metadata)
    ensures f.history <= Settle(f, sub, m).history
    ensures Recorded(f) ==> Recorded(Settle(f, sub, m))
  {
    hide Recorded;
    ReassessAllIsRecorded(f, sub.reassessments, m);
    TransitAllIsRecorded(ReassessAll(f, sub.reassessments, m), sub.transitions, m);
  }

  /** So does any checkbox edit, whatever report it was read from. */
  lemma EditIsRecorded(f: Finding, r: Report, xs: seq<Interaction>, at: Instant)
    ensures f.history <= ControlledAt(f, r, xs, at).history
    ensures Recorded(f) ==> Recorded(ControlledAt(f, r, xs, at))
  {
    var g := ControlledAt(f, r, xs, at);
    if g != f && Recorded(f) { RecordedStep(f, g, g.history[|f.history|]); }
  }

  /** A checkbox edit also keeps evidence fresh and human precedence. */
  lemma EditKeepsGood(f: Finding, r: Report, xs: seq<Interaction>, at: Instant)
    requires Good(f)
    ensures Good(ControlledAt(f, r, xs, at))
  {
    var g := ControlledAt(f, r, xs, at);
    EditIsRecorded(f, r, xs, at);
    if g != f {
      var e := g.history[|f.history|];
      FreshAppend(f.history, e);
      LastWorkflowAppend(f.history, e);
    }
  }

  /** Redrawing its box changes nothing else about a finding. */
  lemma StoreIsRecorded(f: Finding)
    ensures CanonicalFinding(f).id == f.id && CanonicalFinding(f).history == f.history
    ensures Recorded(CanonicalFinding(f)) <==> Recorded(f)
    ensures Good(CanonicalFinding(f)) <==> Good(f)
    ensures FindingRefSet(CanonicalFinding(f)) == FindingRefSet(f)
  {
  }

  lemma CreatedIsGood(s: SubmittedFinding, id: FindingId, m: Metadata)
    ensures Good(FreshFinding(s, id, m))
  {
    var f := FreshFinding(s, id, m);
    var e := f.history[0];
    assert f.history == [] + [e];
    EvidenceRefsExact(s.evidence);
    ReplayAppend([], e);
    FreshAppend([], e);
    HistoryRefsAppend([], e);
  }

  // ----- What a submission does to evidence, workflow and boxes, exactly -----

  /** What validation establishes of a submission's entries whatever it validates against. */
  predicate WellFormed(sub: Submission) {
    && DistinctReassessments(sub.reassessments)
    && DistinctTransitions(sub.transitions)
    && forall t :: t in sub.transitions ==> t.how != Checkbox
  }

  lemma ValidIsWellFormed(sub: Submission, a: Assignment)
    requires ValidSubmission(sub, a)
    ensures WellFormed(sub)
  {
    forall t | t in sub.transitions ensures t.how != Checkbox {
      assert ValidTransition(t, sub.reassessments, a);
    }
  }

  /** An acknowledgement of this finding cites only evidence that is not used up. */
  predicate CitesUnused(f: Finding, sub: Submission) {
    var t := FindTransition(sub.transitions, f.id);
    t.Some? && t.value.action == Acknowledge ==> SetOf(t.value.refs) !! Consumed(f.history)
  }

  /** A finding that ends addressed is acknowledged along with it, is acknowledged
      already, or was last reopened by a human. */
  predicate LeavesNoneOpen(f: Finding, sub: Submission) {
    var r, t := FindReassessment(sub.reassessments, f.id), FindTransition(sub.transitions, f.id);
    (if r.Some? then r.value.assessment else f.assessment) == Addressed ==>
      if t.Some? then t.value.action == Acknowledge else f.state == Open ==> ReopenedByHumanLast(f)
  }

  predicate Careful(f: Finding, sub: Submission) {
    CitesUnused(f, sub) && LeavesNoneOpen(f, sub)
  }

  lemma ReassessKeepsPast(f: Finding, r: Reassessment, m: Metadata)
    ensures var h := Reassess(f, r, m).history;
      && (FreshEvidence(h) <==> FreshEvidence(f.history))
      && Consumed(h) == Consumed(f.history)
      && LastWorkflow(h) == LastWorkflow(f.history)
  {
    var e := Reassess(f, r, m).history[|f.history|];
    FreshAppend(f.history, e);
    ConsumedAppend(f.history, e);
    LastWorkflowAppend(f.history, e);
  }

  /** Reconciling a submission, however old its validation, keeps evidence fresh
      exactly when its acknowledgement cites nothing used up since. */
  lemma ReplayFreshExactly(f: Finding, sub: Submission, m: Metadata)
    requires WellFormed(sub)
    ensures FreshEvidence(Settle(f, sub, m).history) <==> FreshEvidence(f.history) && CitesUnused(f, sub)
  {
    hide FreshEvidence, Consumed;
    SettleIsChange(f, sub, m);
    var r, t := FindReassessment(sub.reassessments, f.id), FindTransition(sub.transitions, f.id);
    var g := if r.Some? then Reassess(f, r.value, m) else f;
    if r.Some? { ReassessKeepsPast(f, r.value, m); }
    if t.Some? { FreshAppend(g.history, Transit(g, t.value, m).history[|g.history|]); }
  }

  /** It leaves an addressed finding open against human precedence exactly when it
      does not acknowledge what it leaves addressed and open. */
  lemma ReplayOpenExactly(f: Finding, sub: Submission, m: Metadata)
    requires WellFormed(sub)
    ensures OpenAddressedOnlyByHuman(Settle(f, sub, m)) <==> LeavesNoneOpen(f, sub)
  {
    SettleIsChange(f, sub, m);
    var r, t := FindReassessment(sub.reassessments, f.id), FindTransition(sub.transitions, f.id);
    var g := if r.Some? then Reassess(f, r.value, m) else f;
    if r.Some? { ReassessKeepsPast(f, r.value, m); }
    if t.Some? { LastWorkflowAppend(g.history, Transit(g, t.value, m).history[|g.history|]); }
  }

  /** What it calls addressed ends acknowledged exactly when it acknowledges it, or
      says nothing about the workflow of a finding that is acknowledged now. */
  lemma ReplayAddressedExactly(f: Finding, sub: Submission, m: Metadata)
    requires WellFormed(sub)
    requires var r := FindReassessment(sub.reassessments, f.id); r.Some? && r.value.assessment == Addressed
    ensures Settle(f, sub, m).assessment == Addressed
    ensures var t := FindTransition(sub.transitions, f.id);
      Settle(f, sub, m).state == Acknowledged <==>
        if t.Some? then t.value.action == Acknowledge else f.state == Acknowledged
  {
    SettleIsChange(f, sub, m);
  }

  lemma SettleGoodExactly(f: Finding, sub: Submission, m: Metadata)
    requires Good(f) && WellFormed(sub)
    ensures Good(Settle(f, sub, m)) <==> Careful(f, sub)
  {
    SettleIsRecorded(f, sub, m);
    ReplayFreshExactly(f, sub, m);
    ReplayOpenExactly(f, sub, m);
  }

  // ----- A validated submission is careful -----

  lemma TransitionIsFresh(t: Transition, rs: seq<Reassessment>, a: Assignment)
    requires ValidTransition(t, rs, a)
    ensures SetOf(t.refs) !! a.findings[t.finding].consumed
  {
    forall id | id in t.refs ensures id !in a.findings[t.finding].consumed {
      assert SupportsTransition(id, t, a.findings[t.finding], FindReassessment(rs, t.finding), a.sources);
    }
  }

  lemma ReviewIsCareful(f: Finding, sub: Submission, a: Assignment)
    requires OpenAddressedOnlyByHuman(f)
    requires ValidSubmission(sub, a)
    requires f.id in a.findings ==> a.findings[f.id] == KnownOf(f)
    ensures Careful(f, sub)
  {
    var r, t := FindReassessment(sub.reassessments, f.id), FindTransition(sub.transitions, f.id);
    if t.Some? {
      assert ValidTransition(t.value, sub.reassessments, a);
      TransitionIsFresh(t.value, sub.reassessments, a);
    }
    if r.Some? { assert AddressedIsAcknowledged(r.value, a.findings[r.value.finding], sub.transitions); }
  }

  /** A validated submission keeps every invariant of a finding the host described truthfully. */
  lemma ReviewKeepsGood(f: Finding, sub: Submission, a: Assignment, m: Metadata)
    requires Good(f)
    requires ValidSubmission(sub, a)
    requires f.id in a.findings ==> a.findings[f.id] == KnownOf(f)
    ensures Good(Settle(f, sub, m))
    ensures f.history <= Settle(f, sub, m).history
  {
    ValidIsWellFormed(sub, a);
    ReviewIsCareful(f, sub, a);
    SettleIsRecorded(f, sub, m);
    SettleGoodExactly(f, sub, m);
  }

  // ----- Human precedence -----

  predicate CheckboxAcknowledged(f: Finding) {
    f.state == Acknowledged && f.ack.Some? && f.ack.value.how == Checkbox
  }

  // Nothing is said about the workflow of a finding a human has acknowledged.
  predicate SparesBox(f: Finding, sub: Submission) {
    CheckboxAcknowledged(f) ==> FindTransition(sub.transitions, f.id).None?
  }

  lemma ReviewSparesBox(f: Finding, sub: Submission, a: Assignment)
    requires ValidSubmission(sub, a)
    requires f.id in a.findings ==> a.findings[f.id] == KnownOf(f)
    ensures SparesBox(f, sub)
  {
    var t := FindTransition(sub.transitions, f.id);
    if t.Some? { assert ValidTransition(t.value, sub.reassessments, a); }
  }

  /** A validated submission leaves a human acknowledgement as it is, and what it
      calls addressed ends acknowledged. */
  lemma HumanPrecedence(f: Finding, sub: Submission, a: Assignment, m: Metadata)
    requires ValidSubmission(sub, a)
    requires f.id in a.findings && a.findings[f.id] == KnownOf(f)
    ensures var g := Settle(f, sub, m);
      && (CheckboxAcknowledged(f) ==> g.state == f.state && g.ack == f.ack)
      && (var r := FindReassessment(sub.reassessments, f.id);
          r.Some? && r.value.assessment == Addressed ==> g.assessment == Addressed && g.state == Acknowledged)
  {
    SettleIsChange(f, sub, m);
    var r, t := FindReassessment(sub.reassessments, f.id), FindTransition(sub.transitions, f.id);
    if t.Some? { assert ValidTransition(t.value, sub.reassessments, a); }
    if r.Some? { assert AddressedIsAcknowledged(r.value, a.findings[r.value.finding], sub.transitions); }
  }

  /** A replayed submission keeps a human acknowledgement exactly when it does not
      change the workflow of that finding. */
  lemma ReplayPrecedenceExactly(f: Finding, sub: Submission, m: Metadata)
    requires CheckboxAcknowledged(f) && WellFormed(sub)
    ensures var g := Settle(f, sub, m);
      g.state == f.state && g.ack == f.ack <==> SparesBox(f, sub)
  {
    SettleIsChange(f, sub, m);
  }

  /** With the schema's promise that a change cites something, a code-change
      acknowledgement is always backed by an addressed reassessment that cites the
      same evidence. */
  lemma CodeChangeIsAddressed(sub: Submission, a: Assignment, t: Transition)
    requires ValidSubmission(sub, a) && SchemaOk(sub)
    requires t in sub.transitions && t.action == Acknowledge && t.how == AICodeChange
    ensures var r := FindReassessment(sub.reassessments, t.finding);
      r.Some? && r.value.assessment == Addressed && SetOf(t.refs) <= EvidenceRefSet(r.value.evidence)
  {
    var r := FindReassessment(sub.reassessments, t.finding);
    assert ValidTransition(t, sub.reassessments, a);
    assert SupportsTransition(t.refs[0], t, a.findings[t.finding], r, a.sources);
    forall id | id in t.refs ensures id in EvidenceRefSet(r.value.evidence) {
      assert SupportsTransition(id, t, a.findings[t.finding], r, a.sources);
    }
  }

  // ----- Whole runs -----

  /** A replayed submission was validated against its assignment in an earlier run.
      Storing a report leaves its findings in canonical form. */
  datatype Step =
    | Review(sub: Submission, assignment: Assignment, meta: Metadata)
    | Replay(sub: Submission, assignment: Assignment, meta: Metadata)
    | Edit(report: Report, interactions: seq<Interaction>, at: Instant)
    | Store

  // The two kinds of step that reconcile a submission.
  predicate Folds(step: Step) {
    step.Review? || step.Replay?
  }

  // The host told the validator the truth about every finding it assigned.
  predicate Truthful(fs: seq<Finding>, a: Assignment) {
    forall id :: id in a.findings ==> FindFinding(fs, id).Some? && a.findings[id] == KnownOf(FindFinding(fs, id).value)
  }

  // Reconciliation succeeds, and the submission was valid for findings that are still there.
  predicate Foldable(fs: seq<Finding>, sub: Submission, a: Assignment, m: Metadata) {
    && |m.newIds| == |sub.findings| && m.matches == map[]
    && Reconcilable(fs, sub, m)
    && ValidSubmission(sub, a)
    && a.findings.Keys <= FindingIds(fs)
  }

  predicate Applicable(fs: seq<Finding>, step: Step) {
    match step
    case Review(sub, a, m) => Foldable(fs, sub, a, m) && Truthful(fs, a)
    case Replay(sub, a, m) => Foldable(fs, sub, a, m)
    case Edit(_, _, _) => true
    case Store => true
  }

  function Apply(fs: seq<Finding>, step: Step): seq<Finding>
    requires Applicable(fs, step)
  {
    match step
    case Review(sub, _, m) => Reconciled(fs, sub, m)
    case Replay(sub, _, m) => Reconciled(fs, sub, m)
    case Edit(r, xs, at) => ControlledAll(fs, r, xs, at)
    case Store => Redrawn(fs)
  }

  predicate ValidRun(start: seq<Finding>, steps: seq<Step>)
    decreases |steps|, 0
  {
    |steps| == 0 ||
    (ValidRun(start, steps[..|steps| - 1]) &&
     Applicable(After(start, steps[..|steps| - 1]), steps[|steps| - 1]))
  }

  function After(start: seq<Finding>, steps: seq<Step>): seq<Finding>
    requires ValidRun(start, steps)
    decreases |steps|, 1
  {
    if |steps| == 0 then start else Apply(After(start, steps[..|steps| - 1]), steps[|steps| - 1])
  }

  /** Findings keep their places and their past. */
  predicate Extends(fs: seq<Finding>, gs: seq<Finding>) {
    && |fs| <= |gs|
    && forall i :: 0 <= i < |fs| ==> gs[i].id == fs[i].id && fs[i].history <= gs[i].history
  }

  predicate CreatedFrom(f: Finding, sub: Submission, m: Metadata, k: nat) {
    k < |sub.findings| && k < |m.newIds| && k !in m.matches && f == FreshFinding(sub.findings[k], m.newIds[k], m)
  }

  lemma {:induction false} CreatedShape(sub: Submission, m: Metadata, n: nat)
    requires n <= |sub.findings| && |m.newIds| == |sub.findings|
    ensures forall f :: f in CreatedUpTo(sub, m, n) ==> exists k :: CreatedFrom(f, sub, m, k)
  {
    if n > 0 {
      CreatedShape(sub, m, n - 1);
      if n - 1 !in m.matches {
        assert CreatedFrom(FreshFinding(sub.findings[n - 1], m.newIds[n - 1], m), sub, m, n - 1);
      }
    }
  }

  // A submission cannot speak about a finding it was not given.
  lemma UnknownUntouched(f: Finding, sub: Submission, a: Assignment, m: Metadata)
    requires ValidSubmission(sub, a) && f.id !in a.findings
    ensures Settle(f, sub, m) == f
  {
    SettleIsChange(f, sub, m);
    assert forall r :: r in sub.reassessments ==> ValidReassessment(r, a);
    assert forall t :: t in sub.transitions ==> ValidTransition(t, sub.reassessments, a);
  }

  lemma PriorSettled(fs: seq<Finding>, sub: Submission, m: Metadata, i: nat)
    requires |m.newIds| == |sub.findings| && m.matches == map[] && i < |fs|
    ensures Reconciled(fs, sub, m)[i] == Settle(fs[i], sub, m)
  {
    NoMatchesNoRestate(fs[i], sub, m, |sub.findings|);
  }

  lemma CreatedUntouched(fs: seq<Finding>, sub: Submission, a: Assignment, m: Metadata, f: Finding, k: nat)
    requires Foldable(fs, sub, a, m) && CreatedFrom(f, sub, m, k)
    ensures Settle(f, sub, m) == f
  {
    assert m.newIds[k] !in FindingIds(fs);
    UnknownUntouched(f, sub, a, m);
  }

  /** A finding the submission creates is good, and stays as it was submitted. */
  lemma CreatedAt(fs: seq<Finding>, sub: Submission, a: Assignment, m: Metadata, i: nat)
    requires Foldable(fs, sub, a, m)
    requires |fs| <= i < |Reconciled(fs, sub, m)|
    ensures exists k :: CreatedFrom(Reconciled(fs, sub, m)[i], sub, m, k)
    ensures Good(Reconciled(fs, sub, m)[i])
  {
    hide Good, ValidSubmission, Reconcilable, Settle, RestateUpTo;
    var n := |sub.findings|;
    var f := CreatedUpTo(sub, m, n)[i - |fs|];
    assert Reconciled(fs, sub, m)[i] == Settle(f, sub, m);
    CreatedShape(sub, m, n);
    assert f in CreatedUpTo(sub, m, n);
    var k: nat :| CreatedFrom(f, sub, m, k);
    CreatedUntouched(fs, sub, a, m, f, k);
    CreatedIsGood(sub.findings[k], m.newIds[k], m);
  }

  predicate AllRecorded(fs: seq<Finding>) {
    UniqueIds(fs) && forall i :: 0 <= i < |fs| ==> Recorded(fs[i])
  }

  predicate AllGood(fs: seq<Finding>) {
    UniqueIds(fs) && forall i :: 0 <= i < |fs| ==> Good(fs[i])
  }

  lemma StepExtendsAt(fs: seq<Finding>, step: Step, i: nat)
    requires Applicable(fs, step) && i < |fs|
    ensures Apply(fs, step)[i].id == fs[i].id && fs[i].history <= Apply(fs, step)[i].history
    ensures Recorded(fs[i]) ==> Recorded(Apply(fs, step)[i])
  {
    hide Recorded, ValidSubmission, Reconcilable, Settle;
    if step.Edit? {
      EditIsRecorded(fs[i], step.report, step.interactions, step.at);
    } else if step.Store? {
      StoreIsRecorded(fs[i]);
    } else {
      PriorSettled(fs, step.sub, step.meta, i);
      SettleIsRecorded(fs[i], step.sub, step.meta);
    }
  }

  lemma StepExtends(fs: seq<Finding>, step: Step)
    requires Applicable(fs, step)
    ensures Extends(fs, Apply(fs, step))
    ensures UniqueIds(fs) ==> UniqueIds(Apply(fs, step))
  {
    hide Recorded, ValidSubmission, Reconcilable, Settle;
    forall i | 0 <= i < |fs|
      ensures Apply(fs, step)[i].id == fs[i].id && fs[i].history <= Apply(fs, step)[i].history
    {
      StepExtendsAt(fs, step, i);
    }
    if UniqueIds(fs) && Folds(step) { ReconciledIds(fs, step.sub, step.meta); }
  }

  lemma StepKeepsRecord(fs: seq<Finding>, step: Step)
    requires AllRecorded(fs) && Applicable(fs, step)
    ensures AllRecorded(Apply(fs, step))
  {
    hide Recorded, Applicable;
    StepExtends(fs, step);
    forall i | 0 <= i < |Apply(fs, step)| ensures Recorded(Apply(fs, step)[i]) {
      if i < |fs| { StepExtendsAt(fs, step, i); } else { NewIsGood(fs, step, i); }
    }
  }

  lemma NewIsGood(fs: seq<Finding>, step: Step, i: nat)
    requires Applicable(fs, step) && |fs| <= i < |Apply(fs, step)|
    ensures Good(Apply(fs, step)[i]) && Recorded(Apply(fs, step)[i])
  {
    CreatedAt(fs, step.sub, step.assignment, step.meta, i);
  }

  /** A careless replay is the only step that can spoil a good finding. */
  predicate CarefulStep(fs: seq<Finding>, step: Step) {
    step.Replay? ==> forall i :: 0 <= i < |fs| ==> Careful(fs[i], step.sub)
  }

  lemma ReviewStepIsCareful(fs: seq<Finding>, step: Step, i: nat)
    requires UniqueIds(fs) && i < |fs| && OpenAddressedOnlyByHuman(fs[i])
    requires step.Review? && Applicable(fs, step)
    ensures Careful(fs[i], step.sub) && SparesBox(fs[i], step.sub)
  {
    FoundAt(fs, i);
    ReviewIsCareful(fs[i], step.sub, step.assignment);
    ReviewSparesBox(fs[i], step.sub, step.assignment);
  }

  lemma StepGoodAt(fs: seq<Finding>, step: Step, i: nat)
    requires UniqueIds(fs) && Applicable(fs, step) && i < |fs| && Good(fs[i])
    ensures Good(Apply(fs, step)[i]) <==> (step.Replay? ==> Careful(fs[i], step.sub))
  {
    if step.Edit? {
      EditKeepsGood(fs[i], step.report, step.interactions, step.at);
    } else if step.Store? {
      StoreIsRecorded(fs[i]);
    } else {
      PriorSettled(fs, step.sub, step.meta, i);
      ValidIsWellFormed(step.sub, step.assignment);
      SettleGoodExactly(fs[i], step.sub, step.meta);
      if step.Review? { ReviewStepIsCareful(fs, step, i); }
    }
  }

  /** One step keeps all findings good exactly when, if it is a replay, it is careful. */
  lemma StepGoodExactly(fs: seq<Finding>, step: Step)
    requires AllGood(fs) && Applicable(fs, step)
    ensures AllGood(Apply(fs, step)) <==> CarefulStep(fs, step)
  {
    hide Good, Careful, Applicable;
    StepExtends(fs, step);
    forall i | 0 <= i < |fs| ensures Good(Apply(fs, step)[i]) <==> (step.Replay? ==> Careful(fs[i], step.sub)) {
      StepGoodAt(fs, step, i);
    }
    forall i | |fs| <= i < |Apply(fs, step)| ensures Good(Apply(fs, step)[i]) {
      NewIsGood(fs, step, i);
    }
  }

  lemma {:induction false} RunsKeepRecord(start: seq<Finding>, steps: seq<Step>)
    requires AllRecorded(start) && ValidRun(start, steps)
    ensures AllRecorded(After(start, steps))
  {
    if |steps| > 0 {
      RunsKeepRecord(start, steps[..|steps| - 1]);
      StepKeepsRecord(After(start, steps[..|steps| - 1]), steps[|steps| - 1]);
    }
  }

  /** Even a submission nobody validated, once reconciled, leaves findings their
      histories record and only appends to them. */
  lemma ReconciledIsRecorded(fs: seq<Finding>, sub: Submission, m: Metadata)
    requires |m.newIds| == |sub.findings| && m.matches == map[] && UniqueIds(fs) && Reconcilable(fs, sub, m)
    ensures Extends(fs, Reconciled(fs, sub, m)) && UniqueIds(Reconciled(fs, sub, m))
    ensures AllRecorded(fs) ==> AllRecorded(Reconciled(fs, sub, m))
  {
    hide Recorded, Reconcilable, Settle, UniqueIds;
    var gs, n := Reconciled(fs, sub, m), |sub.findings|;
    ReconciledIds(fs, sub, m);
    forall i | 0 <= i < |fs|
      ensures gs[i].id == fs[i].id && fs[i].history <= gs[i].history && (Recorded(fs[i]) ==> Recorded(gs[i]))
    {
      PriorSettled(fs, sub, m, i);
      SettleIsRecorded(fs[i], sub, m);
    }
    forall i | |fs| <= i < |gs| ensures Recorded(gs[i]) {
      var f := CreatedUpTo(sub, m, n)[i - |fs|];
      CreatedShape(sub, m, n);
      assert f in CreatedUpTo(sub, m, n);
      var k: nat :| CreatedFrom(f, sub, m, k);
      CreatedIsGood(sub.findings[k], m.newIds[k], m);
      GoodIsRecorded(f);
      SettleIsRecorded(f, sub, m);
    }
  }

  lemma GoodIsRecorded(f: Finding)
    requires Good(f)
    ensures Recorded(f)
  {
  }

  /** After any run from the empty state, replays included: ids are unique,
      replaying a history reproduces the finding, citations stay inside the history,
      and a finding is open exactly when nothing acknowledges it. */
  lemma RunsAreRecorded(steps: seq<Step>)
    requires ValidRun([], steps)
    ensures UniqueIds(After([], steps))
    ensures forall f :: f in After([], steps) ==>
      ViewOf(f) == ReplayHistory(f.history) && CitesHistory(f) && (f.state == Open <==> f.ack.None?)
  {
    RunsKeepRecord([], steps);
  }

  /** A run never moves, drops or rewrites what a shorter run has recorded. */
  lemma {:induction false} RunsOnlyAppend(start: seq<Finding>, steps: seq<Step>, k: nat)
    requires ValidRun(start, steps) && k <= |steps|
    ensures ValidRun(start, steps[..k])
    ensures Extends(After(start, steps[..k]), After(start, steps))
    ensures UniqueIds(start) ==> UniqueIds(After(start, steps))
    decreases |steps|, k
  {
    if k == |steps| {
      assert steps[..k] == steps;
      if |steps| > 0 { RunsOnlyAppend(start, steps, |steps| - 1); }
    } else {
      var front := steps[..|steps| - 1];
      assert front[..k] == steps[..k];
      RunsOnlyAppend(start, front, k);
      StepExtends(After(start, front), steps[|steps| - 1]);
    }
  }

  // Good, careful or in step at every moment of a run.
  predicate GoodThroughout(start: seq<Finding>, steps: seq<Step>)
    requires ValidRun(start, steps)
    decreases |steps|
  {
    AllGood(After(start, steps)) && (|steps| > 0 ==> GoodThroughout(start, steps[..|steps| - 1]))
  }

  predicate CarefulThroughout(start: seq<Finding>, steps: seq<Step>)
    requires ValidRun(start, steps)
    decreases |steps|
  {
    |steps| > 0 ==>
      && CarefulThroughout(start, steps[..|steps| - 1])
      && CarefulStep(After(start, steps[..|steps| - 1]), steps[|steps| - 1])
  }

  /** A run keeps every finding good at every moment exactly when every replay in it
      is careful: it acknowledges with unused evidence only and leaves no addressed
      finding open that a human did not reopen. */
  lemma {:induction false} RunsGoodExactly(start: seq<Finding>, steps: seq<Step>)
    requires AllGood(start) && ValidRun(start, steps)
    ensures GoodThroughout(start, steps) <==> CarefulThroughout(start, steps)
  {
    hide AllGood, Applicable;
    if |steps| > 0 {
      var front := steps[..|steps| - 1];
      RunsGoodExactly(start, front);
      if CarefulThroughout(start, front) {
        GoodNow(start, front);
        StepGoodExactly(After(start, front), steps[|steps| - 1]);
      }
    }
  }

  lemma GoodNow(start: seq<Finding>, steps: seq<Step>)
    requires ValidRun(start, steps) && GoodThroughout(start, steps)
    ensures AllGood(After(start, steps))
  {
  }

  lemma {:induction false} WithoutReplays(start: seq<Finding>, steps: seq<Step>)
    requires ValidRun(start, steps) && forall i :: 0 <= i < |steps| ==> !steps[i].Replay?
    ensures CarefulThroughout(start, steps) && SparedThroughout(start, start, steps)
  {
    if |steps| > 0 { WithoutReplays(start, steps[..|steps| - 1]); }
  }

  /** So after any run of validated submissions, careful replays and box edits from
      the empty state, AI acknowledgements cite fresh evidence and only a human
      leaves an addressed finding open. */
  lemma RunsAreGood(steps: seq<Step>)
    requires ValidRun([], steps) && CarefulThroughout([], steps)
    ensures forall f :: f in After([], steps) ==> FreshEvidence(f.history) && OpenAddressedOnlyByHuman(f)
  {
    RunsGoodExactly([], steps);
    GoodNow([], steps);
  }

  predicate AllFresh(fs: seq<Finding>) {
    forall i :: 0 <= i < |fs| ==> FreshEvidence(fs[i].history)
  }

  predicate UnusedThroughout(start: seq<Finding>, steps: seq<Step>)
    requires ValidRun(start, steps)
    decreases |steps|
  {
    |steps| > 0 ==>
      && UnusedThroughout(start, steps[..|steps| - 1])
      && (steps[|steps| - 1].Replay? ==>
            var fs := After(start, steps[..|steps| - 1]);
            forall i :: 0 <= i < |fs| ==> CitesUnused(fs[i], steps[|steps| - 1].sub))
  }

  lemma StepFreshAt(fs: seq<Finding>, step: Step, i: nat)
    requires UniqueIds(fs) && Applicable(fs, step) && i < |Apply(fs, step)|
    ensures FreshEvidence(Apply(fs, step)[i].history) <==>
      i < |fs| ==> FreshEvidence(fs[i].history) && (step.Replay? ==> CitesUnused(fs[i], step.sub))
  {
    if i >= |fs| {
      NewIsGood(fs, step, i);
    } else if step.Edit? {
      var g := ControlledAt(fs[i], step.report, step.interactions, step.at);
      if g != fs[i] { FreshAppend(fs[i].history, g.history[|fs[i].history|]); }
    } else if step.Store? {
      StoreIsRecorded(fs[i]);
    } else {
      PriorSettled(fs, step.sub, step.meta, i);
      ValidIsWellFormed(step.sub, step.assignment);
      ReplayFreshExactly(fs[i], step.sub, step.meta);
      if step.Review? {
        FoundAt(fs, i);
        ReviewCitesUnused(fs[i], step.sub, step.assignment);
      }
    }
  }

  lemma ReviewCitesUnused(f: Finding, sub: Submission, a: Assignment)
    requires ValidSubmission(sub, a)
    requires f.id in a.findings ==> a.findings[f.id] == KnownOf(f)
    ensures CitesUnused(f, sub)
  {
    var t := FindTransition(sub.transitions, f.id);
    if t.Some? {
      assert ValidTransition(t.value, sub.reassessments, a);
      TransitionIsFresh(t.value, sub.reassessments, a);
    }
  }

  /** The evidence of a run's acknowledgements is fresh exactly when each replay in it
      acknowledged with evidence unused at that moment. Nothing later repairs it. */
  lemma {:induction false} RunsFreshExactly(start: seq<Finding>, steps: seq<Step>)
    requires UniqueIds(start) && ValidRun(start, steps)
    ensures AllFresh(After(start, steps)) <==> AllFresh(start) && UnusedThroughout(start, steps)
  {
    hide FreshEvidence, Applicable, CitesUnused;
    if |steps| > 0 {
      var front, step := steps[..|steps| - 1], steps[|steps| - 1];
      RunsFreshExactly(start, front);
      RunsOnlyAppend(start, front, |front|);
      var fs := After(start, front);
      StepExtends(fs, step);
      forall i | 0 <= i < |Apply(fs, step)|
        ensures FreshEvidence(Apply(fs, step)[i].history) <==>
          i < |fs| ==> FreshEvidence(fs[i].history) && (step.Replay? ==> CitesUnused(fs[i], step.sub))
      {
        StepFreshAt(fs, step, i);
      }
    }
  }

  // ----- The last position of a box decides -----

  // The successor's memory of the box agrees with its workflow state.
  predicate InSync(f: Finding) {
    && (f.state == Open <==> f.ack.None?)
    && f.rendered == Some(CheckboxAcknowledged(f))
  }

  /** What the last position `b` of a box that was drawn as `prior` requires of
      the surviving finding. An AI acknowledgement made meanwhile stands only
      while the box still has the position it was drawn with. */
  predicate SettledBy(f: Finding, prior: Finding, b: bool) {
    || (f.state == Acknowledged && IsAI(f.ack) && prior.rendered == Some(b))
    || (b && CheckboxAcknowledged(f))
    || (!b && f.state == Open && f.ack.None?)
  }

  /** A submission keeps a box in step exactly when it spares a human acknowledgement. */
  lemma ReplaySyncExactly(f: Finding, sub: Submission, m: Metadata)
    requires InSync(f) && WellFormed(sub)
    ensures InSync(Settle(f, sub, m)) <==> SparesBox(f, sub)
  {
    SettleIsChange(f, sub, m);
  }

  lemma EditSettles(f: Finding, prior: Finding, observed: Control, refs: seq<SourceId>, at: Instant)
    requires InSync(f) && prior.rendered.Some?
    ensures var g := Controlled(f, Some(prior), observed, refs, at);
      InSync(g) && (observed.task ==> SettledBy(g, prior, observed.checked))
  {
  }

  // Findings of the report that had a box stay in step with it.
  predicate BoxesInSync(fs: seq<Finding>, start: seq<Finding>) {
    && |start| <= |fs|
    && forall i :: 0 <= i < |start| ==>
         fs[i].id == start[i].id && (start[i].rendered.Some? ==> InSync(fs[i]))
  }

  // A replay spares every human acknowledgement among the boxes that were drawn.
  predicate SparesBoxes(fs: seq<Finding>, start: seq<Finding>, step: Step)
    requires |start| <= |fs|
  {
    step.Replay? ==>
      forall i :: 0 <= i < |start| && start[i].rendered.Some? ==> SparesBox(fs[i], step.sub)
  }

  // Between recovering a report and retiring it nothing is stored, and its boxes are the
  // ones that are read.
  predicate EditsOf(steps: seq<Step>, start: seq<Finding>) {
    forall i :: 0 <= i < |steps| ==>
      !steps[i].Store? && (steps[i].Edit? ==> steps[i].report.state.findings == start)
  }

  lemma SyncStepAt(fs: seq<Finding>, start: seq<Finding>, step: Step, i: nat)
    requires UniqueIds(start) && UniqueIds(fs) && BoxesInSync(fs, start)
    requires Applicable(fs, step)
    requires !step.Store? && (step.Edit? ==> step.report.state.findings == start)
    requires i < |start| && start[i].rendered.Some?
    ensures InSync(Apply(fs, step)[i]) <==> (step.Replay? ==> SparesBox(fs[i], step.sub))
  {
    if step.Edit? {
      var r, xs := step.report, step.interactions;
      FoundAt(start, i);
      EditSettles(fs[i], start[i], FindControl(r.controls, fs[i].id), InteractionRefs(xs, fs[i].id, step.at), step.at);
    } else {
      PriorSettled(fs, step.sub, step.meta, i);
      ValidIsWellFormed(step.sub, step.assignment);
      ReplaySyncExactly(fs[i], step.sub, step.meta);
      if step.Review? {
        FoundAt(fs, i);
        ReviewSparesBox(fs[i], step.sub, step.assignment);
      }
    }
  }

  lemma SyncStep(fs: seq<Finding>, start: seq<Finding>, step: Step)
    requires UniqueIds(start) && UniqueIds(fs) && BoxesInSync(fs, start)
    requires Applicable(fs, step)
    requires !step.Store? && (step.Edit? ==> step.report.state.findings == start)
    ensures BoxesInSync(Apply(fs, step), start) <==> SparesBoxes(fs, start, step)
  {
    hide InSync, SparesBox, Applicable;
    StepExtends(fs, step);
    forall i | 0 <= i < |start| && start[i].rendered.Some?
      ensures InSync(Apply(fs, step)[i]) <==> (step.Replay? ==> SparesBox(fs[i], step.sub))
    {
      SyncStepAt(fs, start, step, i);
    }
  }

  predicate SparedThroughout(start: seq<Finding>, drawn: seq<Finding>, steps: seq<Step>)
    requires ValidRun(start, steps) && |drawn| <= |start|
    decreases |steps|
  {
    |steps| > 0 ==>
      var front := steps[..|steps| - 1];
      && SparedThroughout(start, drawn, front)
      && |drawn| <= |After(start, front)|
      && SparesBoxes(After(start, front), drawn, steps[|steps| - 1])
  }

  /** The boxes of a report stay in step with its findings through any validated
      submissions, box edits, and replays that spare human acknowledgements. */
  lemma {:induction false} RunsStayInSync(start: seq<Finding>, steps: seq<Step>)
    requires UniqueIds(start) && BoxesInSync(start, start)
    requires ValidRun(start, steps) && EditsOf(steps, start)
    requires SparedThroughout(start, start, steps)
    ensures BoxesInSync(After(start, steps), start)
  {
    hide InSync, SparesBox, Applicable;
    if |steps| > 0 {
      var front := steps[..|steps| - 1];
      RunsStayInSync(start, front);
      RunsOnlyAppend(start, front, |front|);
      SyncStep(After(start, front), start, steps[|steps| - 1]);
    }
  }

  lemma CanonicalInSync(f: Finding)
    requires f.rendered == CanonicalBox(f) && f.rendered.Some?
    requires f.state == Open <==> f.ack.None?
    ensures InSync(f)
  {
  }

  /** The findings of a stored report are in step with its boxes. */
  lemma DrawnInSync(start: seq<Finding>)
    requires forall f :: f in start ==> f.rendered == CanonicalBox(f) && (f.state == Open <==> f.ack.None?)
    ensures BoxesInSync(start, start)
  {
    forall j | 0 <= j < |start| && start[j].rendered.Some? ensures InSync(start[j]) {
      assert start[j] in start;
      CanonicalInSync(start[j]);
    }
  }

  /** Start from the findings of a published report, let any submissions and any
      earlier box positions pass, and reconcile the report once more: every finding
      that was drawn with a box is settled by the box's last position. Replays
      must have spared what a human had acknowledged. */
  lemma LastPositionDecides(start: seq<Finding>, steps: seq<Step>, r: Report, xs: seq<Interaction>, at: Instant, i: nat)
    requires UniqueIds(start)
    requires forall f :: f in start ==> f.rendered == CanonicalBox(f) && (f.state == Open <==> f.ack.None?)
    requires ValidRun(start, steps) && EditsOf(steps, start) && SparedThroughout(start, start, steps)
    requires r.state.findings == start
    requires i < |start| && start[i].rendered.Some? && FindControl(r.controls, start[i].id).task
    ensures i < |After(start, steps)|
    ensures var g := ControlledAll(After(start, steps), r, xs, at)[i];
      g.id == start[i].id && SettledBy(g, start[i], FindControl(r.controls, start[i].id).checked)
  {
    DrawnInSync(start);
    RunsStayInSync(start, steps);
    var f := After(start, steps)[i];
    FoundAt(start, i);
    EditSettles(f, start[i], FindControl(r.controls, f.id), InteractionRefs(xs, f.id, at), at);
  }

  // ----- An untouched report -----

  lemma {:induction false} ReassessKeepsBox(f: Finding, rs: seq<Reassessment>, m: Metadata)
    ensures ReassessAll(f, rs, m).rendered == f.rendered
  {
    if |rs| > 0 { ReassessKeepsBox(f, rs[..|rs| - 1], m); }
  }

  lemma {:induction false} TransitKeepsBox(f: Finding, ts: seq<Transition>, m: Metadata)
    ensures TransitAll(f, ts, m).rendered == f.rendered
  {
    if |ts| > 0 { TransitKeepsBox(f, ts[..|ts| - 1], m); }
  }

  // Reviews, replays and readings of this very report.
  predicate OnlyReads(steps: seq<Step>, r: Report) {
    forall i :: 0 <= i < |steps| ==> Folds(steps[i]) || (steps[i].Edit? && steps[i].report == r)
  }

  // The findings of the report, possibly settled, with the boxes it was drawn with.
  predicate BoxesRemembered(fs: seq<Finding>, start: seq<Finding>) {
    && |start| <= |fs|
    && forall i :: 0 <= i < |start| ==> fs[i].id == start[i].id && fs[i].rendered == start[i].rendered
  }

  lemma RememberedBoxesStay(fs: seq<Finding>, r: Report, xs: seq<Interaction>, at: Instant)
    requires UniqueIds(fs) && UniqueIds(r.state.findings) && Untouched(r)
    requires BoxesRemembered(fs, r.state.findings)
    ensures ControlledAll(fs, r, xs, at) == fs && !SomeBoxMoved(fs, r)
  {
    var start := r.state.findings;
    forall i | 0 <= i < |start| ensures FindFinding(start, fs[i].id) == Some(start[i]) { FoundAt(start, i); }
    assert RemembersBoxes(fs, start);
    UntouchedChangesNothing(fs, r, xs, at);
  }

  lemma RememberedStep(fs: seq<Finding>, r: Report, step: Step)
    requires UniqueIds(fs) && UniqueIds(r.state.findings) && Untouched(r)
    requires BoxesRemembered(fs, r.state.findings) && Applicable(fs, step)
    requires Folds(step) || (step.Edit? && step.report == r)
    ensures BoxesRemembered(Apply(fs, step), r.state.findings)
  {
    hide Settle, ValidSubmission, Reconcilable, Untouched;
    if step.Edit? {
      RememberedBoxesStay(fs, r, step.interactions, step.at);
    } else {
      forall i | 0 <= i < |r.state.findings|
        ensures Apply(fs, step)[i].id == fs[i].id && Apply(fs, step)[i].rendered == fs[i].rendered
      {
        PriorSettled(fs, step.sub, step.meta, i);
        SettleKeepsBox(fs[i], step.sub, step.meta);
      }
    }
  }

  lemma SettleKeepsBox(f: Finding, sub: Submission, m: Metadata)
    ensures Settle(f, sub, m).rendered == f.rendered
  {
    ReassessKeepsBox(f, sub.reassessments, m);
    TransitKeepsBox(ReassessAll(f, sub.reassessments, m), sub.transitions, m);
  }

  lemma {:induction false} RunsRememberBoxes(steps: seq<Step>, r: Report)
    requires UniqueIds(r.state.findings) && Untouched(r)
    requires ValidRun(r.state.findings, steps) && OnlyReads(steps, r)
    ensures BoxesRemembered(After(r.state.findings, steps), r.state.findings)
  {
    hide Untouched, Applicable, Apply;
    if |steps| > 0 {
      var start, front := r.state.findings, steps[..|steps| - 1];
      RunsRememberBoxes(front, r);
      RunsOnlyAppend(start, front, |front|);
      RememberedStep(After(start, front), r, steps[|steps| - 1]);
    }
  }

  /** Whatever was reviewed or replayed since a report was recovered, AI transitions
      included: as long as no human touched its boxes, reading it changes nothing. */
  lemma UntouchedRunsChangeNothing(steps: seq<Step>, r: Report, xs: seq<Interaction>, at: Instant)
    requires UniqueIds(r.state.findings) && Untouched(r)
    requires ValidRun(r.state.findings, steps) && OnlyReads(steps, r)
    ensures ControlledAll(After(r.state.findings, steps), r, xs, at) == After(r.state.findings, steps)
    ensures !SomeBoxMoved(After(r.state.findings, steps), r)
  {
    RunsRememberBoxes(steps, r);
    RunsOnlyAppend(r.state.findings, steps, |steps|);
    RememberedBoxesStay(After(r.state.findings, steps), r, xs, at);
  }

  // ----- Runs one after another -----

  lemma {:induction false} RunsJoin(start: seq<Finding>, first: seq<Step>, second: seq<Step>)
    requires ValidRun(start, first) && ValidRun(After(start, first), second)
    ensures ValidRun(start, first + second)
    ensures After(start, first + second) == After(After(start, first), second)
  {
    hide Applicable, Apply;
    var both := first + second;
    if |second| == 0 {
      assert both == first;
    } else {
      assert both[..|both| - 1] == first + second[..|second| - 1];
      RunsJoin(start, first, second[..|second| - 1]);
    }
  }
}
