/** What a coordinator decision (Run, internal/coordinator/coordinator.go) owes the
    state it started from: histories, provenance, lifecycle invariants and the boxes
    of the recovered report, whether the stored review was reused or batches were
    accepted, failed, skipped or replayed. */
module Decisions {
  import opened Domain
  import opened Validation
  import opened ReportCodec
  import opened Lifecycle
  import opened Coordinator
  import opened Accounting
  import opened Approval
  import Provenance
  import Publication

  // ----- A decision is the end of a run -----

  // The accepted submissions of a decision's review, or none when it was reused.
  function ReviewSteps(d: Decision, findings: seq<Finding>, input: Input, vetted: seq<Assignment>): seq<Step>
    requires UniqueIds(findings) && InputOk(input)
    requires !d.reused ==> TraceOf(findings, input).Ok?
    requires !d.reused ==> |vetted| == |TraceOf(findings, input).value.fold.executions|
  {
    if d.reused then [] else FoldSteps(TraceOf(findings, input).value.fold, vetted, |vetted|)
  }

  // The human's boxes first, then the batches in order.
  function StepsOf(d: Decision, s: State, current: Option<Report>, input: Input, started: Instant,
                   vetted: seq<Assignment>): seq<Step>
    requires UniqueIds(s.findings) && InputOk(input)
    requires var fs := Edited(s, current, started).findings;
      !d.reused ==> TraceOf(fs, input).Ok? && |vetted| == |TraceOf(fs, input).value.fold.executions|
  {
    (if current.None? then [] else [Edit(current.value, [], started)]) +
      ReviewSteps(d, Edited(s, current, started).findings, input, vetted)
  }

  /** The setting of every claim below: a decision over `s`, its accepted submissions
      validated for the tasks they were given. */
  predicate TakenFrom(d: Decision, s: State, current: Option<Report>, superseded: nat, input: Input, started: Instant,
                   vetted: seq<Assignment>)
  {
    && UniqueIds(s.findings) && InputOk(input)
    && Decided(d, s, current, superseded, input, started)
    && SessionsVetted(Edited(s, current, started), input, vetted)
  }

  lemma ReviewIsRun(d: Decision, s: State, input: Input, vetted: seq<Assignment>)
    requires UniqueIds(s.findings) && InputOk(input)
    requires Reviewed(d, s, input) && SessionsVetted(s, input, vetted)
    ensures TraceOf(s.findings, input).Ok? && Folded(TraceOf(s.findings, input).value.fold).Ok?
    ensures var t := TraceOf(s.findings, input).value;
      && RunOf(t.fold, t.batches, vetted) && |vetted| == |t.fold.executions|
      && t.fold.findings == s.findings
      && d.state.findings == Folded(t.fold).value.findings
  {
    hide UniqueIds, AllVetted;
    TraceIsRun(s.findings, input, vetted);
  }

  lemma EditIsRun(s: State, current: Option<Report>, started: Instant)
    ensures var take := if current.None? then [] else [Edit(current.value, [], started)];
      ValidRun(s.findings, take) && After(s.findings, take) == Edited(s, current, started).findings
  {
    if current.Some? {
      var take := [Edit(current.value, [], started)];
      assert take[..0] == [];
      assert ValidRun(s.findings, take[..0]) && After(s.findings, take[..0]) == s.findings;
    }
  }

  /** A decision's findings are what a run of the lifecycle makes of the recovered ones. */
  lemma DecisionIsRun(d: Decision, s: State, current: Option<Report>, superseded: nat, input: Input, started: Instant,
                      vetted: seq<Assignment>)
    requires TakenFrom(d, s, current, superseded, input, started, vetted)
    ensures var fs := Edited(s, current, started).findings;
      !d.reused ==> TraceOf(fs, input).Ok? && |vetted| == |TraceOf(fs, input).value.fold.executions|
    ensures var steps := StepsOf(d, s, current, input, started, vetted);
      ValidRun(s.findings, steps) && After(s.findings, steps) == d.state.findings
  {
    hide UniqueIds, RunOf, ControlledAll, ControlsApply, SessionsVetted, Apply, Applicable;
    var t := Edited(s, current, started);
    var take := if current.None? then [] else [Edit(current.value, [], started)];
    EditIsRun(s, current, started);
    if d.reused {
      assert take + [] == take;
    } else {
      ReviewIsRun(d, t, input, vetted);
      var trace := TraceOf(t.findings, input).value;
      FoldIsRun(trace.fold, trace.batches, vetted, |vetted|);
      RunsJoin(s.findings, take, FoldSteps(trace.fold, vetted, |vetted|));
    }
  }

  /** Whatever was reused, accepted or replayed, and whatever the sessions answered:
      the findings are what their histories record, and nothing recovered was moved,
      dropped or rewritten. */
  lemma DecisionKeepsRecord(d: Decision, s: State, current: Option<Report>, superseded: nat, input: Input,
                            started: Instant)
    requires UniqueIds(s.findings) && InputOk(input)
    requires Decided(d, s, current, superseded, input, started)
    ensures Extends(s.findings, d.state.findings) && UniqueIds(d.state.findings)
    ensures AllRecorded(s.findings) ==> AllRecorded(d.state.findings)
  {
    hide UniqueIds, ControlledAll, ControlsApply, Folded, AllRecorded, Extends;
    var t := Edited(s, current, started);
    EditedKeepsRecord(s, current, started);
    if !d.reused {
      var fold := TraceOf(t.findings, input).value.fold;
      RunKeepsRecord(fold);
      ExtendsThen(s.findings, t.findings, d.state.findings);
    }
  }

  lemma EditedKeepsRecord(s: State, current: Option<Report>, started: Instant)
    requires UniqueIds(s.findings)
    ensures var t := Edited(s, current, started);
      && Extends(s.findings, t.findings) && UniqueIds(t.findings)
      && (AllRecorded(s.findings) ==> AllRecorded(t.findings))
  {
    if current.Some? {
      var step := Edit(current.value, [], started);
      StepExtends(s.findings, step);
      if AllRecorded(s.findings) { StepKeepsRecord(s.findings, step); }
    }
  }

  // ----- Provenance -----

  // What the sessions were offered, now or when a replayed submission was made.
  predicate OffersRead(s: State, current: Option<Report>, input: Input, started: Instant, vetted: seq<Assignment>)
    requires UniqueIds(s.findings) && InputOk(input)
  {
    var trace := TraceOf(Edited(s, current, started).findings, input);
    !Reuses(s, input) && trace.Ok? ==>
      |vetted| == |trace.value.fold.executions| && OffersKnown(trace.value.fold, vetted, input.capture.records)
  }

  lemma {:induction false} OfferedJoin(first: seq<Step>, second: seq<Step>)
    ensures Provenance.AllOffered(first + second) == Provenance.AllOffered(first) + Provenance.AllOffered(second)
  {
    var both := first + second;
    if |second| == 0 {
      assert both == first;
    } else {
      assert both[..|both| - 1] == first + second[..|second| - 1];
      OfferedJoin(first, second[..|second| - 1]);
    }
  }

  lemma StepsOffer(d: Decision, s: State, current: Option<Report>, superseded: nat, input: Input, started: Instant,
                   vetted: seq<Assignment>)
    requires TakenFrom(d, s, current, superseded, input, started, vetted)
    requires OffersRead(s, current, input, started, vetted)
    ensures var fs := Edited(s, current, started).findings;
      !d.reused ==> TraceOf(fs, input).Ok? && |vetted| == |TraceOf(fs, input).value.fold.executions|
    ensures forall id :: id in Provenance.AllOffered(StepsOf(d, s, current, input, started, vetted)) ==>
      Provenance.IsRepositoryId(id) || id in Provenance.Index(input.capture.records)
  {
    hide UniqueIds, ControlledAll, RunOf, OffersKnown;
    DecisionIsRun(d, s, current, superseded, input, started, vetted);
    var t := Edited(s, current, started);
    var take := if current.None? then [] else [Edit(current.value, [], started)];
    if current.Some? { assert take[..0] == []; }
    OfferedJoin(take, ReviewSteps(d, t.findings, input, vetted));
    if !d.reused {
      OfferedByBatches(TraceOf(t.findings, input).value.fold, vetted, input.capture.records, |vetted|);
    }
  }

  /** From a durable state, every decision's state is durable again, and the
      publisher's retention check passes for it exactly when the notes read now agree
      with what had been stored of them: box positions taken over, stored review
      reused, batches accepted, failed, skipped or replayed. */
  lemma DecisionRetains(d: Decision, s: State, current: Option<Report>, superseded: nat, input: Input,
                        started: Instant, vetted: seq<Assignment>, captured: map<SourceId, SourceRef>,
                        kinds: map<SourceId, SourceKind>)
    requires TakenFrom(d, s, current, superseded, input, started, vetted)
    requires OffersRead(s, current, input, started, vetted)
    requires KeepsSources(d, s, input.capture.records)
    requires Provenance.Durable(s) && AllRecorded(s.findings)
    requires forall r :: r in input.capture.records ==> !Provenance.IsRepositoryId(r.id)
    requires forall id :: id in captured ==> !Provenance.IsRepositoryId(id)
    requires forall id ::
      (if id in kinds then Some(kinds[id]) else None) ==
      Provenance.KindOf(id, captured, d.state.sources, AllRefs(d.state.findings))
    ensures Provenance.Durable(d.state)
    ensures Provenance.Retained(s, d.state, kinds) <==> Provenance.RereadAgrees(s, input.capture.records)
  {
    hide Decided, Recorded, SessionsVetted, OffersRead, AllRefs, Provenance.Durable, Provenance.Retained,
      Provenance.RereadAgrees, Provenance.KindOf;
    StepsOffer(d, s, current, superseded, input, started, vetted);
    DecisionIsRun(d, s, current, superseded, input, started, vetted);
    var now := input.capture.records;
    var merged :|
      && Provenance.SortedRecords(merged) && Provenance.Lists(merged, Provenance.Merged(s.sources, now))
      && d.state.sources == Provenance.Keep(merged, AllRefs(d.state.findings));
    var steps := StepsOf(d, s, current, input, started, vetted);
    Provenance.RunRetainsProvenance(s, now, merged, steps, d.state, captured, kinds);
  }

  // ----- What replays can spoil, exactly -----

  /** The stored submission that is replayed for a recovered finding, if any. */
  function ReplayedOn(s: State, current: Option<Report>, input: Input, started: Instant, vetted: seq<Assignment>,
                      p: nat): Option<Submission>
    requires UniqueIds(s.findings) && InputOk(input)
  {
    var trace := TraceOf(Edited(s, current, started).findings, input);
    if Reuses(s, input) || trace.Err? then None
    else
      var fold := trace.value.fold;
      if |vetted| != |fold.executions| || p >= |fold.findings| then None
      else ReplayedFor(fold, trace.value.batches, vetted, p)
  }

  lemma EditedAt(s: State, current: Option<Report>, started: Instant, p: nat)
    requires p < |s.findings|
    ensures var t := Edited(s, current, started);
      && |t.findings| == |s.findings|
      && (FreshEvidence(t.findings[p].history) <==> FreshEvidence(s.findings[p].history))
      && (Good(s.findings[p]) ==> Good(t.findings[p]))
  {
    if current.Some? {
      var f := s.findings[p];
      var g := ControlledAt(f, current.value, [], started);
      if g != f { FreshAppend(f.history, g.history[|f.history|]); }
      if Good(f) { EditKeepsGood(f, current.value, [], started); }
    }
  }

  /** Evidence stays fresh over a run exactly when no replayed submission acknowledges
      a finding, as it is after the boxes were taken over, with evidence used up. */
  lemma DecisionFreshExactly(d: Decision, s: State, current: Option<Report>, superseded: nat, input: Input,
                             started: Instant, vetted: seq<Assignment>)
    requires TakenFrom(d, s, current, superseded, input, started, vetted)
    ensures |Edited(s, current, started).findings| == |s.findings|
    ensures AllFresh(d.state.findings) <==>
      && AllFresh(s.findings)
      && forall p :: 0 <= p < |s.findings| ==>
           var sub := ReplayedOn(s, current, input, started, vetted, p);
           sub.Some? ==> CitesUnused(Edited(s, current, started).findings[p], sub.value)
  {
    hide UniqueIds, ControlledAt, ControlsApply, RunOf, SessionsVetted, FreshEvidence, CitesUnused, ReplayedFor,
      TraceOf, Folded;
    var t := Edited(s, current, started);
    assert |t.findings| == |s.findings|;
    forall p | 0 <= p < |s.findings|
      ensures FreshEvidence(t.findings[p].history) <==> FreshEvidence(s.findings[p].history)
    {
      EditedAt(s, current, started, p);
    }
    if !d.reused {
      ReviewIsRun(d, t, input, vetted);
      var trace := TraceOf(t.findings, input).value;
      RunFreshExactly(trace.fold, trace.batches, vetted);
    }
  }

  /** Every lifecycle invariant is kept over a run exactly when its replays are
      careful with the findings as they are after the boxes were taken over. */
  lemma DecisionGoodExactly(d: Decision, s: State, current: Option<Report>, superseded: nat, input: Input,
                            started: Instant, vetted: seq<Assignment>)
    requires TakenFrom(d, s, current, superseded, input, started, vetted) && AllGood(s.findings)
    ensures |Edited(s, current, started).findings| == |s.findings|
    ensures AllGood(d.state.findings) <==>
      forall p :: 0 <= p < |s.findings| ==>
        var sub := ReplayedOn(s, current, input, started, vetted, p);
        sub.Some? ==> Careful(Edited(s, current, started).findings[p], sub.value)
  {
    hide UniqueIds, ControlledAt, ControlsApply, RunOf, SessionsVetted, Good, Careful, ReplayedFor, TraceOf, Folded;
    var t := Edited(s, current, started);
    assert |t.findings| == |s.findings|;
    forall p | 0 <= p < |s.findings| ensures Good(t.findings[p]) { EditedAt(s, current, started, p); }
    assert AllGood(t.findings);
    if !d.reused {
      ReviewIsRun(d, t, input, vetted);
      var trace := TraceOf(t.findings, input).value;
      RunGoodExactly(trace.fold, trace.batches, vetted);
    }
  }

  // ----- In step with the recovered report -----

  // No replayed submission changes the workflow of a finding whose box a human had ticked.
  predicate BoxesSpared(s: State, report: Report, input: Input, started: Instant, vetted: seq<Assignment>)
    requires UniqueIds(s.findings) && InputOk(input)
  {
    var fs := Edited(s, Some(report), started).findings;
    forall p :: 0 <= p < |fs| && p < |s.findings| && s.findings[p].rendered.Some? ==>
      var sub := ReplayedOn(s, Some(report), input, started, vetted, p);
      sub.Some? ==> SparesBox(fs[p], sub.value)
  }

  lemma TakenOverInSync(s: State, report: Report, started: Instant)
    requires UniqueIds(s.findings) && IsCanonical(s) && report.state == s
    requires ControlsApply(report, s, started)
    ensures BoxesInSync(Edited(s, Some(report), started).findings, s.findings)
  {
    var t, start := Edited(s, Some(report), started), s.findings;
    forall f | f in start ensures f.state == Open <==> f.ack.None? {
      var i :| 0 <= i < |start| && start[i] == f;
      assert ValidFinding(start[i]);
    }
    DrawnInSync(start);
    forall i | 0 <= i < |start| && start[i].rendered.Some? ensures InSync(t.findings[i]) {
      var f := start[i];
      FoundAt(start, i);
      EditSettles(f, f, FindControl(report.controls, f.id), InteractionRefs([], f.id, started), started);
    }
  }

  /** The decision taken from a recovered report is in step with the boxes of that
      report exactly when its replays spare the boxes a human has ticked. */
  lemma DecisionInStep(d: Decision, s: State, report: Report, superseded: nat, input: Input, started: Instant,
                       vetted: seq<Assignment>)
    requires TakenFrom(d, s, Some(report), superseded, input, started, vetted)
    requires IsCanonical(s) && report.state == s
    ensures Publication.SyncWith(d.state.findings, s.findings) <==>
      BoxesSpared(s, report, input, started, vetted)
  {
    hide UniqueIds, ControlledAt, RunOf, SessionsVetted, InSync, SparesBox, ReplayedFor, Decode, Publication.SyncWith,
      TraceOf, Folded;
    var t := Edited(s, Some(report), started);
    assert |t.findings| == |s.findings|;
    TakenOverInSync(s, report, started);
    DecisionKeepsRecord(d, s, Some(report), superseded, input, started);
    Publication.InStep(d.state.findings, s.findings);
    if !d.reused {
      ReviewIsRun(d, t, input, vetted);
      var trace := TraceOf(t.findings, input).value;
      RunSyncExactly(trace.fold, trace.batches, vetted, s.findings);
    }
  }

  lemma {:induction false} BatchesOnlyRead(fold: Fold, vetted: seq<Assignment>, n: nat, report: Report)
    requires FoldOk(fold) && n <= |fold.executions| == |vetted|
    ensures OnlyReads(FoldSteps(fold, vetted, n), report)
  {
    if n > 0 { BatchesOnlyRead(fold, vetted, n - 1, report); }
  }

  /** As long as no human touched the boxes of the recovered report, reading them again
      changes nothing about the decision, whatever the model did to the workflow. */
  lemma DecisionLeavesUntouched(d: Decision, s: State, report: Report, superseded: nat, input: Input, started: Instant,
                                vetted: seq<Assignment>, xs: seq<Interaction>, at: Instant)
    requires TakenFrom(d, s, Some(report), superseded, input, started, vetted)
    requires report.state == s && Untouched(report)
    ensures ControlledAll(d.state.findings, report, xs, at) == d.state.findings
    ensures !SomeBoxMoved(d.state.findings, report)
  {
    hide Decided, SessionsVetted, Untouched, ControlledAll, SomeBoxMoved, ValidRun, After;
    DecisionIsRun(d, s, Some(report), superseded, input, started, vetted);
    var steps := StepsOf(d, s, Some(report), input, started, vetted);
    if !d.reused {
      var fold := TraceOf(Edited(s, Some(report), started).findings, input).value.fold;
      BatchesOnlyRead(fold, vetted, |vetted|, report);
    }
    assert OnlyReads(steps, report);
    UntouchedRunsChangeNothing(steps, report, xs, at);
  }
}
