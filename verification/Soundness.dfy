/** What one run hands to the next (Run, internal/coordinator/coordinator.go, and
    Publish, internal/gitlab/publish.go): a state recovered sound, decided on and
    stored is sound again. */
module Soundness {
  import opened Domain
  import opened Validation
  import opened ReportCodec
  import opened Lifecycle
  import opened Planner
  import opened Coordinator
  import opened Accounting
  import opened Approval
  import opened Decisions
  import opened Storing
  import Provenance

  // ----- From the inputs alone -----

  // An assignment of this input, whatever is known of its findings.
  predicate TaskOf(a: Assignment, input: Input) {
    && a.sources == input.capture.sources
    && a.requirements == map u | u in a.units && u in input.capture.needs :: input.capture.needs[u]
  }

  // Valid for the task, with repository evidence and public notes read now.
  predicate ValidFor(sub: Submission, a: Assignment, now: seq<SourceRecord>, v: Assignment) {
    && ValidSubmission(sub, v) && SameTask(v, a)
    && forall id :: id in v.sources ==> Provenance.IsRepositoryId(id) || id in Provenance.Index(now)
  }

  ghost predicate Answered(sub: Submission, a: Assignment, now: seq<SourceRecord>) {
    exists v :: ValidFor(sub, a, now, v)
  }

  ghost predicate AnsweredEither(a: Assignment, input: Input) {
    var e, stored, now := input.ask(a), Load(input.checkpoints, KeyOf(a)), input.capture.records;
    && (!e.failed && e.reply.accepted.Some? ==> Answered(e.reply.accepted.value.value, a, now))
    && (stored.Ok? && stored.value.Some? && stored.value.value.accepted.Some? ==>
          Answered(stored.value.value.accepted.value.value, a, now))
  }

  /** What the host sees to: a session's submission is accepted only when it is valid
      for what the session was asked, and checkpoints are those of the same input. */
  ghost predicate Honest(input: Input) {
    && (forall a :: TaskOf(a, input) ==> AnsweredEither(a, input))
    && (forall r :: r in input.capture.records ==> !Provenance.IsRepositoryId(r.id))
  }

  lemma TraceIsAnswered(findings: seq<Finding>, input: Input, i: nat)
    requires UniqueIds(findings) && InputOk(input) && TraceOf(findings, input).Ok? && Honest(input)
    requires i < |TraceOf(findings, input).value.fold.executions|
    ensures var e := TraceOf(findings, input).value.fold.executions[i];
      !BatchFailed(e) ==> Answered(SubmissionOf(e), e.assignment, input.capture.records)
  {
    hide UniqueIds, Batches, PlannedUnits, Answered, FindingsOf, UnitIds, Load;
    var t := TraceOf(findings, input).value;
    var scene := SceneOf(findings, t.batches, input);
    var plan := PlanOf(scene, |t.batches|).value;
    assert PlannedAt(plan, scene, i);
    assert TaskOf(plan.assignments[i], input);
    assert AnsweredEither(plan.assignments[i], input);
  }

  /** Then the accepted submissions of every review were validated, each for its own task. */
  lemma HonestIsVetted(findings: seq<Finding>, input: Input) returns (vetted: seq<Assignment>)
    requires UniqueIds(findings) && InputOk(input) && TraceOf(findings, input).Ok? && Honest(input)
    ensures AllVetted(TraceOf(findings, input).value.fold.executions, vetted)
    ensures OffersKnown(TraceOf(findings, input).value.fold, vetted, input.capture.records)
  {
    hide UniqueIds, TraceOf, Honest, ValidSubmission, SameTask;
    var now, es := input.capture.records, TraceOf(findings, input).value.fold.executions;
    vetted := [];
    for i := 0 to |es|
      invariant |vetted| == i
      invariant forall k :: 0 <= k < i && !BatchFailed(es[k]) ==>
        ValidFor(SubmissionOf(es[k]), es[k].assignment, now, vetted[k])
    {
      TraceIsAnswered(findings, input, i);
      var v := es[i].assignment;
      if !BatchFailed(es[i]) { v :| ValidFor(SubmissionOf(es[i]), es[i].assignment, now, v); }
      vetted := vetted + [v];
    }
  }

  // ----- A sound state stays sound -----

  /** What the next run needs of the report it recovers: findings that follow their
      histories, a record of everything they cite, and an approval that is earned. */
  ghost predicate Sound(s: State, inputsOf: string -> Inputs) {
    AllRecorded(s.findings) && Provenance.Durable(s) && Warranted(s, inputsOf)
  }

  ghost predicate Reaches(start: seq<Finding>, end: seq<Finding>) {
    exists steps :: ValidRun(start, steps) && After(start, steps) == end
  }

  // The fingerprint digests what approval depends on.
  predicate Digests(input: Input, inputsOf: string -> Inputs) {
    inputsOf(input.capture.fingerprint) == Inputs(input.config.gating, UnitIds(input.capture.inventory))
  }

  // The kinds the publisher would be told, without captured notes.
  function KindsFor(s: State): map<SourceId, SourceKind> {
    var cited := AllRefs(s.findings);
    map id | id in Provenance.Index(s.sources).Keys + cited && Provenance.KindOf(id, map[], s.sources, cited).Some?
      :: Provenance.KindOf(id, map[], s.sources, cited).value
  }

  lemma KindsAreTold(s: State)
    ensures forall id ::
      (if id in KindsFor(s) then Some(KindsFor(s)[id]) else None) ==
      Provenance.KindOf(id, map[], s.sources, AllRefs(s.findings))
  {
    hide AllRefs;
  }

  lemma HonestIsTaken(d: Decision, s: State, current: Option<Report>, superseded: nat, input: Input, started: Instant)
    returns (vetted: seq<Assignment>)
    requires UniqueIds(s.findings) && InputOk(input) && Honest(input)
    requires Decided(d, s, current, superseded, input, started)
    ensures TakenFrom(d, s, current, superseded, input, started, vetted)
    ensures OffersRead(s, current, input, started, vetted)
  {
    hide UniqueIds, Decided, TraceOf, Honest, AllVetted, OffersKnown, ControlledAll;
    var t := Edited(s, current, started);
    vetted := [];
    if TraceOf(t.findings, input).Ok? { vetted := HonestIsVetted(t.findings, input); OffersLength(t, input, vetted); }
  }

  lemma OffersLength(t: State, input: Input, vetted: seq<Assignment>)
    requires UniqueIds(t.findings) && InputOk(input) && TraceOf(t.findings, input).Ok?
    requires AllVetted(TraceOf(t.findings, input).value.fold.executions, vetted)
    ensures |vetted| == |TraceOf(t.findings, input).value.fold.executions|
  {
  }

  /** A decision over a sound state is sound again, and its findings are what a run of
      the lifecycle makes of the recovered ones. */
  lemma DecisionIsSound(d: Decision, s: State, current: Option<Report>, superseded: nat, input: Input,
                        started: Instant, inputsOf: string -> Inputs)
    requires UniqueIds(s.findings) && InputOk(input) && Honest(input) && Digests(input, inputsOf)
    requires Decided(d, s, current, superseded, input, started) && KeepsSources(d, s, input.capture.records)
    ensures Reaches(s.findings, d.state.findings)
    ensures Sound(s, inputsOf) ==> Sound(d.state, inputsOf)
  {
    hide UniqueIds, Decided, TraceOf, AllVetted, OffersKnown, OffersRead, KeepsSources, Warranted, ValidRun, After;
    hide AnsweredEither, Provenance.Durable, Provenance.KindOf, Provenance.Index, SessionsVetted, AllRefs, Recorded,
      KindsFor;
    var vetted := HonestIsTaken(d, s, current, superseded, input, started);
    DecisionIsRun(d, s, current, superseded, input, started, vetted);
    if Sound(s, inputsOf) {
      DecisionKeepsRecord(d, s, current, superseded, input, started);
      KindsAreTold(d.state);
      DecisionRetains(d, s, current, superseded, input, started, vetted, map[], KindsFor(d.state));
      DecisionIsWarranted(d, s, current, superseded, input, started, vetted, inputsOf);
    }
  }

  // ----- Storing keeps it so -----

  lemma StoresAt(fs: seq<Finding>, xs: seq<Interaction>, step: Step, i: nat)
    requires Applicable(fs, step) && Stores(step, xs) && i < |fs|
    ensures |Apply(fs, step)| == |fs|
    ensures Apply(fs, step)[i].category == fs[i].category && Apply(fs, step)[i].assessment == fs[i].assessment
  {
  }

  lemma {:induction false} StoresGateAlike(start: seq<Finding>, xs: seq<Interaction>, steps: seq<Step>, i: nat)
    requires OnlyStores(steps, xs) && ValidRun(start, steps) && i < |start|
    ensures var end := After(start, steps);
      |end| == |start| && end[i].category == start[i].category && end[i].assessment == start[i].assessment
  {
    if |steps| > 0 {
      var front := steps[..|steps| - 1];
      StoresGateAlike(start, xs, front, i);
      StoresAt(After(start, front), xs, steps[|steps| - 1], i);
    }
  }

  lemma {:induction false} StoresOfferNothing(steps: seq<Step>)
    requires OnlyStores(steps, [])
    ensures Provenance.AllOffered(steps) == {}
  {
    if |steps| > 0 { StoresOfferNothing(steps[..|steps| - 1]); }
  }

  lemma {:induction false} StoresKeepLength(start: seq<Finding>, xs: seq<Interaction>, steps: seq<Step>)
    requires OnlyStores(steps, xs) && ValidRun(start, steps)
    ensures |After(start, steps)| == |start|
  {
    if |steps| > 0 { StoresKeepLength(start, xs, steps[..|steps| - 1]); }
  }

  lemma CarriedIsWarranted(s: State, t: State, inputsOf: string -> Inputs)
    requires Carries(s, [], t) && Warranted(s, inputsOf)
    ensures Warranted(t, inputsOf)
  {
    var steps :| Leads(s.findings, [], steps, t.findings);
    StoresKeepLength(s.findings, [], steps);
    forall f | f in t.findings
      ensures exists g :: g in s.findings && g.category == f.category && g.assessment == f.assessment
    {
      var i :| 0 <= i < |t.findings| && t.findings[i] == f;
      StoresGateAlike(s.findings, [], steps, i);
      assert s.findings[i] in s.findings;
    }
  }

  /** So is a sound state on its way into the store, boxes taken over late included. */
  lemma CarriedIsSound(s: State, t: State, inputsOf: string -> Inputs)
    requires Carries(s, [], t)
    ensures Reaches(s.findings, t.findings)
    ensures AllRecorded(s.findings) ==> AllRecorded(t.findings)
    ensures Extends(s.findings, t.findings)
    ensures Sound(s, inputsOf) ==> Sound(t, inputsOf)
  {
    hide AllRefs, Warranted, Recorded;
    var steps :| Leads(s.findings, [], steps, t.findings);
    RunsOnlyAppend(s.findings, steps, 0);
    assert steps[..0] == [];
    if AllRecorded(s.findings) { RunsKeepRecord(s.findings, steps); }
    if Sound(s, inputsOf) {
      CarriedIsWarranted(s, t, inputsOf);
      StoresOfferNothing(steps);
      Provenance.RunRefs(s.findings, steps);
    }
  }
}
