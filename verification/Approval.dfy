/** From a recovered state to a verdict (Run and reviewBatches,
    internal/coordinator/coordinator.go): take over the human's boxes, reuse the stored review when its input is
    unchanged, or review every planned unit, and approve only what has earned it. */
module Approval {
  import opened Domain
  import opened Validation
  import opened ReportCodec
  import opened Reconciliation
  import opened Lifecycle
  import opened Planner
  import opened Merging
  import opened Executor
  import opened Coordinator
  import opened Accounting
  import opened Verdicts
  import Provenance

  // ----- Inputs of a run -----

  datatype Config = Config(maxUnits: int, maxSessions: nat, maxConcurrency: nat, gating: set<Category>)

  // `sources` is the evidence offered to the batches, `records` the public notes read now.
  datatype Capture = Capture(
    inventory: seq<Unit>,
    excluded: seq<UnitCoverage>,
    needs: Requirements,
    sources: map<SourceId, SourceRef>,
    records: seq<SourceRecord>,
    snapshot: string,
    fingerprint: string)

  datatype Decision = Decision(state: State, verdict: Verdict, completion: Completion, reused: bool, changed: bool)

  predicate Reusable(runs: seq<Run>, fingerprint: string) {
    && |runs| > 0
    && var run := runs[|runs| - 1];
       run.fingerprint == fingerprint && run.completion == Complete && CompleteCoverage(run.coverage)
  }

  function LatestVerdict(s: State): Verdict {
    if |s.runs| == 0 then NeedsReview
    else var v := s.runs[|s.runs| - 1].verdict; if v.None? then NeedsReview else v.value
  }

  // ----- What an approval in the durable state is worth -----

  /** What an input fingerprint digests, as far as approval depends on it: the
      gating categories and the inventory of the snapshot. */
  datatype Inputs = Inputs(gating: set<Category>, inventory: set<UnitId>)

  /** The approval recorded by the latest run is still earned: its review was
      complete, it covered the whole inventory of its input, and no gating finding
      of the state is present or unknown. */
  ghost predicate Warranted(s: State, inputsOf: string -> Inputs) {
    LatestVerdict(s) == Approved ==>
      && |s.runs| > 0
      && var run := s.runs[|s.runs| - 1];
      && run.completion == Complete
      && CompleteCoverage(run.coverage)
      && inputsOf(run.fingerprint).inventory <= KeysOf(run.coverage, UnitOf)
      && NoGate(s.findings, inputsOf(run.fingerprint).gating)
  }

  /** Checkbox edits, during a run or late in a publication, cannot spoil an approval. */
  lemma EditKeepsWarrant(s: State, r: Report, xs: seq<Interaction>, at: Instant, inputsOf: string -> Inputs)
    requires Warranted(s, inputsOf)
    ensures Warranted(s.(findings := ControlledAll(s.findings, r, xs, at)), inputsOf)
  {
    var t := s.(findings := ControlledAll(s.findings, r, xs, at));
    forall f | f in t.findings
      ensures exists g :: g in s.findings && g.category == f.category && g.assessment == f.assessment
    {
      var i :| 0 <= i < |t.findings| && t.findings[i] == f;
      assert s.findings[i] in s.findings;
    }
  }

  /** Neither can storing the state. */
  lemma StoringKeepsWarrant(s: State, inputsOf: string -> Inputs)
    ensures Warranted(Canonicalize(s), inputsOf) <==> Warranted(s, inputsOf)
  {
    var t := Canonicalize(s);
    forall g | g in s.findings
      ensures exists f :: f in t.findings && g.category == f.category && g.assessment == f.assessment
    {
      var i :| 0 <= i < |s.findings| && s.findings[i] == g;
      assert t.findings[i] in t.findings;
    }
    forall f | f in t.findings
      ensures exists g :: g in s.findings && g.category == f.category && g.assessment == f.assessment
    {
      var i :| 0 <= i < |t.findings| && t.findings[i] == f;
      assert s.findings[i] in s.findings;
    }
  }

  // ----- Reviewing every planned unit -----

  /** Everything a review depends on beside the state: `ask` stands for a session
      and the storing of its checkpoint, `clock` for the time of each reconciliation. */
  datatype Input = Input(
    capture: Capture,
    config: Config,
    checkpoints: map<BatchKey, Checkpoint>,
    ask: Assignment -> SessionEnd,
    run: RunId,
    clock: nat -> Instant)

  predicate InputOk(input: Input) {
    |input.capture.fingerprint| >= 19 && input.config.maxConcurrency >= 1
  }

  function PlannedFor(findings: seq<Finding>, input: Input): seq<Unit>
    requires InputOk(input)
  {
    PlannedUnits(input.capture.inventory, findings, input.config.maxUnits, input.capture.fingerprint)
  }

  function SceneOf(findings: seq<Finding>, batches: seq<seq<Unit>>, input: Input): Scene {
    Scene(findings, batches, input.capture.needs, input.capture.sources, input.checkpoints, input.config.maxSessions)
  }

  function JobsOf(plan: Plan, input: Input): Jobs<SessionEnd>
    requires |plan.assignments| == |plan.run| == |plan.slots|
  {
    Jobs(plan.run, plan.slots,
         seq(|plan.assignments|, i requires 0 <= i < |plan.assignments| => input.ask(plan.assignments[i])),
         input.config.maxConcurrency)
  }

  function ExecutionsOf(batches: seq<seq<Unit>>, assignments: seq<Assignment>, slots: seq<Option<SessionEnd>>)
    : seq<Execution>
    requires |batches| == |assignments| == |slots|
  {
    seq(|batches|, i requires 0 <= i < |batches| => Execution(batches[i], assignments[i], slots[i]))
  }

  /** The batches of a review and the fold over their executions, were they run one by one. */
  datatype Trace = Trace(batches: seq<seq<Unit>>, fold: Fold)

  function TraceOf(findings: seq<Finding>, input: Input): Result<Trace>
    requires UniqueIds(findings) && InputOk(input)
  {
    var batches := Batches(PlannedFor(findings, input), input.capture.needs, input.config.maxUnits);
    if batches.None? then Err
    else
      var plan := PlanOf(SceneOf(findings, batches.value, input), |batches.value|);
      if plan.Err? then Err
      else
        var executions := ExecutionsOf(batches.value, plan.value.assignments, OneByOne(JobsOf(plan.value, input)));
        var times := seq(|batches.value|, i requires 0 <= i < |batches.value| => input.clock(i));
        Ok(Trace(batches.value, Fold(findings, input.capture.excluded, executions, input.run, times)))
  }

  /** What reviewing every planned unit comes to. */
  function ReviewOf(findings: seq<Finding>, input: Input): Result<Tally>
    requires UniqueIds(findings) && InputOk(input)
  {
    var trace := TraceOf(findings, input);
    if trace.Err? then Err else Folded(trace.value.fold)
  }

  /** A review stays within its limits: no batch is larger than a session may be, no more
      sessions start than the budget allows, no more run at once than the configuration
      allows, and a batch has a result only if its session ran or its checkpoint was used. */
  lemma ReviewWithinLimits(findings: seq<Finding>, input: Input)
    requires UniqueIds(findings) && InputOk(input) && TraceOf(findings, input).Ok?
    ensures var batches := TraceOf(findings, input).value.batches;
      var scene := SceneOf(findings, batches, input);
      && (forall i :: 0 <= i < |batches| ==> |batches[i]| <= input.config.maxUnits)
      && PlanOf(scene, |batches|).Ok?
      && var plan := PlanOf(scene, |batches|).value;
      && Runnable(plan.run) <= input.config.maxSessions
      && JobsOf(plan, input).limit == input.config.maxConcurrency
      && forall i :: 0 <= i < |batches| ==>
           var e := TraceOf(findings, input).value.fold.executions[i];
           && (e.slot.Some? ==> plan.run[i] || StoredFor(scene, i).value.Some?)
           && (e.slot.Some? && !plan.run[i] ==> e.slot.value.reply == StoredFor(scene, i).value.value)
  {
    hide Batches, PlannedUnits, UniqueIds, AssignmentFor, Load;
    var batches := TraceOf(findings, input).value.batches;
    var scene := SceneOf(findings, batches, input);
    var plan := PlanOf(scene, |batches|).value;
    BatchesPartition(PlannedFor(findings, input), input.capture.needs, input.config.maxUnits);
    BudgetRespected(plan, scene, |batches|);
    forall i | 0 <= i < |batches|
      ensures var e := TraceOf(findings, input).value.fold.executions[i];
        && (e.slot.Some? ==> plan.run[i] || StoredFor(scene, i).value.Some?)
        && (e.slot.Some? && !plan.run[i] ==> e.slot.value.reply == StoredFor(scene, i).value.value)
    {
      assert PlannedAt(plan, scene, i);
      var e := TraceOf(findings, input).value.fold.executions[i];
      assert e.slot == OneByOne(JobsOf(plan, input))[i];
    }
  }

  method ReviewBatches(findings: seq<Finding>, input: Input) returns (r: Result<Tally>)
    requires UniqueIds(findings) && InputOk(input)
    ensures r == ReviewOf(findings, input)
  {
    hide UniqueIds, Folded, Batches, PlannedUnits;
    var units := PlannedFor(findings, input);
    var grouped := BatchUnits(units, input.capture.needs, input.config.maxUnits);
    if grouped.None? { return Err; }
    var batches := grouped.value;
    var planned := PlanExecutions(SceneOf(findings, batches, input));
    if planned.Err? { return Err; }
    var plan := planned.value;
    var slots := ReviewConcurrently(JobsOf(plan, input));
    var times := seq(|batches|, i requires 0 <= i < |batches| => input.clock(i));
    var executions := ExecutionsOf(batches, plan.assignments, slots);
    r := FoldExecutions(Fold(findings, input.capture.excluded, executions, input.run, times));
  }

  // Every accepted submission among the executions was validated for the same task.
  predicate AllVetted(executions: seq<Execution>, vetted: seq<Assignment>) {
    |vetted| == |executions| && forall i :: 0 <= i < |executions| ==> Vetted(executions[i], vetted[i])
  }

  lemma TraceIsRun(findings: seq<Finding>, input: Input, vetted: seq<Assignment>)
    requires UniqueIds(findings) && InputOk(input) && TraceOf(findings, input).Ok?
    requires AllVetted(TraceOf(findings, input).value.fold.executions, vetted)
    ensures RunOf(TraceOf(findings, input).value.fold, TraceOf(findings, input).value.batches, vetted)
  {
    hide Vetted, Batches, PlannedUnits, UniqueIds;
    var t := TraceOf(findings, input).value;
    var scene := SceneOf(findings, t.batches, input);
    var plan := PlanOf(scene, |t.batches|).value;
    forall i | 0 <= i < |t.batches|
      ensures ExecutionOf(t.fold.executions[i], findings, t.batches, i, vetted[i])
    {
      assert PlannedAt(plan, scene, i);
    }
  }

  lemma AcceptedIsWhole(findings: seq<Finding>, input: Input, vetted: seq<Assignment>, i: nat)
    requires UniqueIds(findings) && InputOk(input) && TraceOf(findings, input).Ok?
    requires AllVetted(TraceOf(findings, input).value.fold.executions, vetted)
    requires i < |TraceOf(findings, input).value.batches|
    requires !BatchFailed(TraceOf(findings, input).value.fold.executions[i])
    ensures var e := TraceOf(findings, input).value.fold.executions[i];
      CoveredProperly(e, vetted[i]) && WholeBatch(e.batch, input.capture.needs)
  {
    hide Vetted, CoveredProperly, Batches, PlannedUnits, UniqueIds, OneByOne, AssignmentFor, Whole, WholeBatch;
    var t := TraceOf(findings, input).value;
    var scene := SceneOf(findings, t.batches, input);
    var plan := PlanOf(scene, |t.batches|).value;
    assert PlannedAt(plan, scene, i);
    VettedIsWhole(t.fold.executions[i], vetted[i]);
    PlannedIsWhole(scene, i);
  }

  /** An approval by a fresh review: every batch was whole, accepted, complete and itself
      approving; a unit with a requirement was reported covered only once it had been
      retrieved and together with its enclosing unit; every planned unit has exactly
      one coverage entry and no entry is partial or failed. */
  lemma ApprovalEarned(findings: seq<Finding>, input: Input, vetted: seq<Assignment>)
    requires UniqueIds(findings) && InputOk(input) && TraceOf(findings, input).Ok?
    requires AllVetted(TraceOf(findings, input).value.fold.executions, vetted)
    requires ReviewOf(findings, input).Ok?
    requires ReviewOf(findings, input).value.complete && ReviewOf(findings, input).value.proposed == Approved
    ensures forall i :: 0 <= i < |TraceOf(findings, input).value.batches| ==>
      var e := TraceOf(findings, input).value.fold.executions[i];
      && !BatchFailed(e) && SubmissionOf(e).completion == Complete && SubmissionOf(e).verdict == Approved
      && CoveredProperly(e, vetted[i]) && WholeBatch(e.batch, input.capture.needs)
    ensures CompleteCoverage(ReviewOf(findings, input).value.coverage)
    ensures DistinctKeys(ReviewOf(findings, input).value.coverage, UnitOf)
    ensures UnitIds(PlannedFor(findings, input)) + UnitIds(input.capture.inventory) <=
      KeysOf(ReviewOf(findings, input).value.coverage, UnitOf)
  {
    hide ExecutionOf, Planned, PlanOf, PlannedUnits, Batches, ExecutionsOf, OneByOne, FoldUpTo, FoldOne, AllVetted;
    TraceIsRun(findings, input, vetted);
    var t, units := TraceOf(findings, input).value, PlannedFor(findings, input);
    BatchesPartition(units, input.capture.needs, input.config.maxUnits);
    CoveredExactlyOnce(t.fold, t.batches, vetted);
    PlanCoversInventory(input.capture.inventory, findings, input.config.maxUnits, input.capture.fingerprint);
    forall i | 0 <= i < |t.batches|
      ensures var e := t.fold.executions[i];
        && !BatchFailed(e) && SubmissionOf(e).completion == Complete && SubmissionOf(e).verdict == Approved
        && CoveredProperly(e, vetted[i]) && WholeBatch(e.batch, input.capture.needs)
    {
      CompleteFold(t.fold, |t.batches|, i);
      AcceptedIsWhole(findings, input, vetted, i);
    }
    if |t.batches| > 0 {
      FlattenLength(t.batches, input.config.maxUnits);
      assert Flatten(t.batches)[0].id in UnitIds(Flatten(t.batches));
    }
    CompleteOutcomes(t.fold);
  }

  // A complete fold has entries, all of them done, and removing duplicates keeps that.
  lemma CompleteOutcomes(fold: Fold)
    requires FoldOk(fold) && Folded(fold).Ok? && Folded(fold).value.complete
    requires |fold.executions| > 0 ==> KeysOf(Folded(fold).value.coverage, UnitOf) != {}
    ensures CompleteCoverage(Folded(fold).value.coverage)
  {
    var all := FoldUpTo(fold, |fold.executions|).value.coverage;
    var c := Deduped(all);
    AppendAbsentKeepsFirst([], all, UnitOf);
    assert [] + all == all;
    if |fold.executions| == 0 { assert UnitOf(all[0]) in KeysOf(all, UnitOf); }
    assert |c| > 0;
    forall x | x in c ensures Done(x.outcome) {
      DistinctFirst(c, UnitOf, x);
      assert First(all, UnitOf, x.unit) == Some(x);
    }
  }

  // ----- The whole run up to publication -----

  predicate Speaks(c: seq<UnitCoverage>, id: UnitId) {
    exists x :: x in c && x.unit == id
  }

  /** What a fresh review records of coverage, complete or not: every excluded and every planned
      unit once and no other, the excluded ones as the policy has them. */
  lemma RunReports(d: Decision, s: State, input: Input, vetted: seq<Assignment>)
    requires UniqueIds(s.findings) && InputOk(input) && Reviewed(d, s, input)
    requires AllVetted(TraceOf(s.findings, input).value.fold.executions, vetted)
    ensures |d.state.runs| == |s.runs| + 1
    ensures var c, excluded := d.state.runs[|s.runs|].coverage, input.capture.excluded;
      && DistinctKeys(c, UnitOf)
      && (forall id :: Speaks(c, id) <==> Speaks(excluded, id) || id in UnitIds(PlannedFor(s.findings, input)))
      && (forall x :: x in c && Speaks(excluded, x.unit) ==> x in excluded)
  {
    hide ExecutionOf, Planned, PlanOf, PlannedUnits, Batches, ExecutionsOf, OneByOne, FoldUpTo, AllVetted, Folded;
    hide KeysOf, Speaks;
    TraceIsRun(s.findings, input, vetted);
    var t := TraceOf(s.findings, input).value;
    BatchesPartition(PlannedFor(s.findings, input), input.capture.needs, input.config.maxUnits);
    CoveredExactlyOnce(t.fold, t.batches, vetted);
    ExcludedStay(t.fold);
    var c, excluded := d.state.runs[|s.runs|].coverage, input.capture.excluded;
    assert c == Folded(t.fold).value.coverage;
    forall id ensures Speaks(c, id) <==> id in KeysOf(c, UnitOf) { SpeaksKey(c, id); }
    forall id ensures Speaks(excluded, id) <==> id in KeysOf(excluded, UnitOf) { SpeaksKey(excluded, id); }
  }

  lemma SpeaksKey(c: seq<UnitCoverage>, id: UnitId)
    ensures Speaks(c, id) <==> id in KeysOf(c, UnitOf)
  {
    if x :| x in c && x.unit == id {
      var i :| 0 <= i < |c| && c[i] == x;
      assert UnitOf(c[i]) == id;
    }
  }

  /** A decision taken by a fresh review of the state `s`. */
  predicate Reviewed(d: Decision, s: State, input: Input)
    requires UniqueIds(s.findings) && InputOk(input)
  {
    && ReviewOf(s.findings, input).Ok?
    && var tally := ReviewOf(s.findings, input).value;
    && d.completion == (if tally.complete then Complete else Partial)
    && d.state.findings == tally.findings
    && d.state.runs == s.runs +
         [Run(input.run, input.capture.fingerprint, d.completion, Some(d.verdict), tally.coverage, tally.telemetry)]
    && d.state.fingerprint == input.capture.fingerprint && d.state.snapshot == input.capture.snapshot
    && (d.verdict == Approved <==>
          && tally.complete && tally.proposed == Approved
          && (forall c :: c in tally.coverage ==> Done(c.outcome))
          && NoGate(tally.findings, input.config.gating))
  }

  /** A fresh review leaves an earned approval or none. */
  lemma ReviewedIsWarranted(d: Decision, s: State, input: Input, vetted: seq<Assignment>, inputsOf: string -> Inputs)
    requires UniqueIds(s.findings) && InputOk(input) && Reviewed(d, s, input)
    requires AllVetted(TraceOf(s.findings, input).value.fold.executions, vetted)
    requires inputsOf(input.capture.fingerprint) == Inputs(input.config.gating, UnitIds(input.capture.inventory))
    ensures Warranted(d.state, inputsOf)
    ensures LatestVerdict(d.state) == d.verdict
  {
    hide TraceOf, Folded, AllVetted;
    if d.verdict == Approved { ApprovalEarned(s.findings, input, vetted); }
  }

  lemma DedupedDone(items: seq<UnitCoverage>)
    requires NoneLeft(items)
    ensures forall c :: c in Deduped(items) ==> Done(c.outcome)
  {
    AppendAbsentKeepsFirst([], items, UnitOf);
    assert [] + items == items;
    forall c | c in Deduped(items) ensures Done(c.outcome) {
      DistinctFirst(Deduped(items), UnitOf, c);
      assert First(items, UnitOf, c.unit) == Some(c) && c in items;
    }
  }

  /** A fresh review approves exactly when every batch has an accepted, complete
      submission that does not object and leaves none of its units partial or failed,
      there was anything to cover, and no finding of a gating category is present or
      unknown in the end. */
  lemma ApprovedExactly(d: Decision, s: State, input: Input)
    requires UniqueIds(s.findings) && InputOk(input) && Reviewed(d, s, input)
    ensures var fold := TraceOf(s.findings, input).value.fold;
      d.verdict == Approved <==>
      && (forall i :: 0 <= i < |fold.executions| ==>
            && AcceptedWhole(fold.executions[i]) && !Objects(fold.executions[i])
            && NoneLeft(AcceptedBy(fold.executions[i]).value.coverage))
      && NoneLeft(input.capture.excluded) && (|fold.executions| > 0 || |input.capture.excluded| > 0)
      && forall f :: f in d.state.findings && f.category in input.config.gating ==>
           f.assessment != Present && f.assessment != Unknown
  {
    hide FoldUpTo, UniqueIds, Deduped, OneByOne, PlanOf, Batches, PlannedFor;
    var fold := TraceOf(s.findings, input).value.fold;
    FoldedExactly(fold);
    if Folded(fold).value.complete {
      var all := FoldUpTo(fold, |fold.executions|).value.coverage;
      DedupedDone(all);
    }
  }

  // The state once the human's box positions are taken over.
  function Edited(s: State, current: Option<Report>, started: Instant): (t: State)
    ensures UniqueIds(s.findings) ==> UniqueIds(t.findings)
  {
    if current.None? then s else s.(findings := ControlledAll(s.findings, current.value, [], started))
  }

  // The stored review answers for this very input.
  predicate Reuses(s: State, input: Input) {
    && s.fingerprint == input.capture.fingerprint && s.snapshot == input.capture.snapshot
    && Reusable(s.runs, input.capture.fingerprint)
  }

  /** A decision of a run over the state `s`: the stored review again, or a fresh one,
      in either case after the human's boxes were taken over. */
  predicate Decided(d: Decision, s: State, current: Option<Report>, superseded: nat, input: Input, started: Instant)
    requires UniqueIds(s.findings) && InputOk(input)
  {
    && (current.Some? ==> ControlsApply(current.value, s, started))
    && d.state.mr == s.mr
    && (d.reused <==> Reuses(s, input))
    && if d.reused then
         && d.state.findings == Edited(s, current, started).findings && d.state.runs == s.runs
         && d.state.fingerprint == s.fingerprint && d.state.snapshot == s.snapshot
         && d.verdict == LatestVerdict(s) && d.completion == Complete
         && (d.changed <==> superseded > 0 || (current.Some? && SomeBoxMoved(s.findings, current.value)))
       else Reviewed(d, Edited(s, current, started), input) && d.changed
  }

  // The records stored and read now, merged and then pruned to what is cited.
  ghost predicate KeepsSources(d: Decision, s: State, now: seq<SourceRecord>) {
    exists merged ::
      && Provenance.SortedRecords(merged) && Provenance.Lists(merged, Provenance.Merged(s.sources, now))
      && d.state.sources == Provenance.Keep(merged, AllRefs(d.state.findings))
  }

  // The latest decision again, with the records that are still cited.
  method StoredDecision(s: State, fingerprint: string, merged: seq<SourceRecord>, changed: bool) returns (d: Decision)
    requires Reusable(s.runs, fingerprint)
    ensures d.state == s.(sources := Provenance.Keep(merged, AllRefs(s.findings)))
    ensures d.verdict == LatestVerdict(s) && d.completion == Complete
    ensures d.reused && d.changed == changed
  {
    var sources := Provenance.ReferencedSourceRecords(s.findings, merged);
    d := Decision(s.(sources := sources), LatestVerdict(s), s.runs[|s.runs| - 1].completion, true, changed);
  }

  method ReviewAfresh(s: State, input: Input, merged: seq<SourceRecord>) returns (r: Result<Decision>)
    requires UniqueIds(s.findings) && InputOk(input)
    ensures r.Err? <==> ReviewOf(s.findings, input).Err?
    ensures r.Ok? ==> Reviewed(r.value, s, input) && !r.value.reused && r.value.changed
    ensures r.Ok? ==> r.value.state.mr == s.mr
    ensures r.Ok? ==> r.value.state.sources == Provenance.Keep(merged, AllRefs(r.value.state.findings))
  {
    hide UniqueIds, ReviewOf, AllRefs;
    var capture := input.capture;
    var tally := ReviewBatches(s.findings, input);
    if tally.Err? { return Err; }
    var sources := Provenance.ReferencedSourceRecords(tally.value.findings, merged);
    var completion := if tally.value.complete then Complete else Partial;
    var verdict := DeriveVerdict(tally.value.proposed, completion, tally.value.coverage, tally.value.findings, false,
                                 input.config.gating);
    var entry := Run(input.run, capture.fingerprint, completion, Some(verdict), tally.value.coverage,
                     tally.value.telemetry);
    var next := s.(fingerprint := capture.fingerprint, snapshot := capture.snapshot,
                   findings := tally.value.findings, sources := sources, runs := s.runs + [entry]);
    r := Ok(Decision(next, verdict, completion, false, true));
  }

  method RunReview(s: State, current: Option<Report>, superseded: nat, input: Input, started: Instant)
    returns (r: Result<Decision>)
    requires UniqueIds(s.findings) && InputOk(input)
    ensures r.Err? <==>
      || (current.Some? && !ControlsApply(current.value, s, started))
      || (!Reuses(s, input) && ReviewOf(Edited(s, current, started).findings, input).Err?)
    ensures r.Ok? ==> Decided(r.value, s, current, superseded, input, started)
    ensures r.Ok? ==> KeepsSources(r.value, s, input.capture.records)
  {
    hide UniqueIds, ReviewOf, ControlledAll, SomeBoxMoved, Decode, Reviewed, Reusable;
    var capture := input.capture;
    var state, controlsChanged := s, false;
    if current.Some? {
      var controlled;
      controlled, controlsChanged := ReportCodec.ReconcileControls(current.value, state, [], started);
      if controlled.Err? { return Err; }
      state := controlled.value;
    }
    assert state == Edited(s, current, started);
    var merged := Provenance.MergeSourceRecords(state.sources, capture.records);
    if state.fingerprint == capture.fingerprint && state.snapshot == capture.snapshot
       && Reusable(state.runs, capture.fingerprint) {
      var d := StoredDecision(state, capture.fingerprint, merged, controlsChanged || superseded > 0);
      r := Ok(d);
    } else {
      r := ReviewAfresh(state, input, merged);
    }
  }

  // The sessions of a fresh review, each accepted submission validated for its task.
  predicate SessionsVetted(s: State, input: Input, vetted: seq<Assignment>)
    requires UniqueIds(s.findings) && InputOk(input)
  {
    TraceOf(s.findings, input).Ok? ==> AllVetted(TraceOf(s.findings, input).value.fold.executions, vetted)
  }

  /** Approval is sound end to end. From a state whose approval is earned, every
      decision of a run, after the human's boxes were taken over and whether the
      stored review was reused or made afresh, is the new state's and is earned again. */
  lemma DecisionIsWarranted(d: Decision, s: State, current: Option<Report>, superseded: nat, input: Input,
                            started: Instant, vetted: seq<Assignment>, inputsOf: string -> Inputs)
    requires UniqueIds(s.findings) && InputOk(input)
    requires Decided(d, s, current, superseded, input, started) && Warranted(s, inputsOf)
    requires SessionsVetted(Edited(s, current, started), input, vetted)
    requires inputsOf(input.capture.fingerprint) == Inputs(input.config.gating, UnitIds(input.capture.inventory))
    ensures d.verdict == LatestVerdict(d.state) && Warranted(d.state, inputsOf)
  {
    hide UniqueIds, ControlledAll, AllVetted, TraceOf, Folded, ControlsApply;
    var t := Edited(s, current, started);
    if !d.reused {
      hide Warranted;
      ReviewedIsWarranted(d, t, input, vetted, inputsOf);
    } else {
      if current.Some? { EditKeepsWarrant(s, current.value, [], started, inputsOf); }
      assert Warranted(t, inputsOf);
    }
  }

  // ----- What a decision answers -----

  /** The stored review is used again exactly when it was made of this very input, was
      complete, and covered something and all of it. */
  lemma ReusedExactly(d: Decision, s: State, current: Option<Report>, superseded: nat, input: Input, started: Instant)
    requires UniqueIds(s.findings) && InputOk(input)
    requires Decided(d, s, current, superseded, input, started)
    ensures d.reused <==>
      && s.snapshot == input.capture.snapshot && s.fingerprint == input.capture.fingerprint
      && |s.runs| > 0
      && var last := s.runs[|s.runs| - 1];
      && last.fingerprint == input.capture.fingerprint && last.completion == Complete
      && |last.coverage| > 0
      && forall c :: c in last.coverage ==> c.outcome == Covered || c.outcome == ExcludedByPolicy
  {
    hide Reviewed;
  }

  /** Every decision, reused or fresh, answers for the input it was taken on. */
  lemma DecisionAnswersInput(d: Decision, s: State, current: Option<Report>, superseded: nat, input: Input,
                             started: Instant)
    requires UniqueIds(s.findings) && InputOk(input)
    requires Decided(d, s, current, superseded, input, started)
    ensures |d.state.runs| > 0
    ensures d.state.runs[|d.state.runs| - 1].fingerprint == input.capture.fingerprint
    ensures d.state.fingerprint == input.capture.fingerprint && d.state.snapshot == input.capture.snapshot
    ensures d.verdict == Approved <==> d.state.runs[|d.state.runs| - 1].verdict == Some(Approved)
    ensures d.completion == d.state.runs[|d.state.runs| - 1].completion
  {
    hide ReviewOf;
  }

  /** What is reused is the stored review with the boxes of the current report taken over, and there is
      something new to publish exactly when a box was moved, an older report is left or a review was made. */
  lemma ChangedExactly(d: Decision, s: State, current: Option<Report>, superseded: nat, input: Input, started: Instant)
    requires UniqueIds(s.findings) && InputOk(input)
    requires Decided(d, s, current, superseded, input, started)
    ensures d.changed <==>
      || !d.reused || superseded > 0
      || (current.Some? && exists i :: 0 <= i < |s.findings| && MovedIn(s.findings[i], current.value))
    ensures d.reused ==> |d.state.findings| == |s.findings| && d.state.runs == s.runs
    ensures d.reused && current.None? ==> d.state.findings == s.findings
    ensures d.reused && current.Some? ==> forall i :: 0 <= i < |s.findings| ==>
      d.state.findings[i] == ControlledAt(s.findings[i], current.value, [], started)
  {
    hide Reviewed, Controlled, Moved, BoxMoved;
    if current.Some? {
      var r := current.value;
      forall f | f in s.findings ensures MovedIn(f, r) <==> BoxMovedAt(f, r) { MovedMeans(f, r); }
    }
  }

  // The box was drawn in the current report and moved from where it is remembered.
  predicate MovedIn(f: Finding, r: Report) {
    var prior, box := FindFinding(r.state.findings, f.id), FindControl(r.controls, f.id);
    prior.Some? && Moved(f, prior.value.rendered, box)
  }

  lemma MovedMeans(f: Finding, r: Report)
    ensures MovedIn(f, r) <==> BoxMovedAt(f, r)
  {
  }

  /** So an approval says of this very input, after the boxes were taken over, that no
      finding of one of its gating categories is present or unknown, and that every unit
      of its inventory was covered or excluded. */
  lemma ApprovedInput(d: Decision, s: State, current: Option<Report>, superseded: nat, input: Input, started: Instant,
                      vetted: seq<Assignment>, inputsOf: string -> Inputs)
    requires UniqueIds(s.findings) && InputOk(input)
    requires Decided(d, s, current, superseded, input, started) && Warranted(s, inputsOf)
    requires SessionsVetted(Edited(s, current, started), input, vetted)
    requires inputsOf(input.capture.fingerprint) == Inputs(input.config.gating, UnitIds(input.capture.inventory))
    requires d.verdict == Approved
    ensures forall f :: f in d.state.findings && f.category in input.config.gating ==>
      f.assessment != Present && f.assessment != Unknown
    ensures |d.state.runs| > 0
    ensures var last := d.state.runs[|d.state.runs| - 1];
      && last.completion == Complete
      && forall u :: u in input.capture.inventory ==>
           exists c :: c in last.coverage && c.unit == u.id && (c.outcome == Covered || c.outcome == ExcludedByPolicy)
  {
    hide Decided, SessionsVetted, Edited, UniqueIds;
    DecisionIsWarranted(d, s, current, superseded, input, started, vetted, inputsOf);
    DecisionAnswersInput(d, s, current, superseded, input, started);
    var last := d.state.runs[|d.state.runs| - 1];
    forall u | u in input.capture.inventory
      ensures exists c ::
        c in last.coverage && c.unit == u.id && (c.outcome == Covered || c.outcome == ExcludedByPolicy)
    {
      var k :| 0 <= k < |input.capture.inventory| && input.capture.inventory[k] == u;
      assert u.id in UnitIds(input.capture.inventory);
      var i :| 0 <= i < |last.coverage| && UnitOf(last.coverage[i]) == u.id;
      assert last.coverage[i] in last.coverage;
    }
  }

  /** A new finding of a gating category keeps a review from approving, whatever the
      submission itself proposes and whatever the other batches say. */
  lemma ProposedGateBlocks(d: Decision, s: State, input: Input, vetted: seq<Assignment>, i: nat, k: nat)
    requires UniqueIds(s.findings) && InputOk(input) && Reviewed(d, s, input)
    requires AllVetted(TraceOf(s.findings, input).value.fold.executions, vetted)
    requires i < |TraceOf(s.findings, input).value.fold.executions|
    requires var e := TraceOf(s.findings, input).value.fold.executions[i];
      && !BatchFailed(e) && k < |SubmissionOf(e).findings|
      && SubmissionOf(e).findings[k].category in input.config.gating
    ensures d.verdict == NeedsReview
    ensures var proposed := SubmissionOf(TraceOf(s.findings, input).value.fold.executions[i]).findings[k];
      exists f :: f in d.state.findings && SaysAs(f, proposed) && ArguesAs(f, proposed)
  {
    hide TraceOf, FoldUpTo, AllVetted, RunOf, UniqueIds;
    TraceIsRun(s.findings, input, vetted);
    var t := TraceOf(s.findings, input).value;
    RunShape(t.fold, t.batches, vetted);
    ProposedStays(t.fold, t.batches, vetted, i, k, |t.batches|);
    var f := Proposed(t.fold, i, k);
    assert f in d.state.findings;
    assert Gates(f, input.config.gating);
  }
}
