/** One run of the coordinator (reviewBatches, internal/coordinator/coordinator.go):
    the sessions it starts, replays or skips, and the ordered fold of their results
    into findings, coverage and telemetry. */
module Coordinator {
  import opened Domain
  import opened Validation
  import opened Reconciliation
  import opened ReportCodec
  import opened Lifecycle
  import opened Planner
  import opened Merging
  import opened Executor

  // ----- What a session brings back -----

  datatype AcceptedSubmission = Accepted(value: Submission, ids: seq<FindingId>)

  // The host derives one id from the receipt for every submitted finding.
  type Acceptance = a: AcceptedSubmission | |a.ids| == |a.value.findings|
    witness Accepted(Submission(NeedsReview, Partial, [], [], [], []), [])

  datatype Reply = Reply(accepted: Option<Acceptance>, telemetry: Telemetry)

  // `stored` says whether an accepted reply could be saved as a checkpoint.
  datatype SessionEnd = SessionEnd(reply: Reply, failed: bool, stored: bool)

  // A batch with an empty slot was skipped: the session budget was used up.
  datatype Execution = Execution(batch: seq<Unit>, assignment: Assignment, slot: Option<SessionEnd>)

  predicate BatchFailed(e: Execution) {
    e.slot.None? || e.slot.value.failed || e.slot.value.reply.accepted.None?
  }

  predicate Broken(e: Execution) {
    !BatchFailed(e) && !e.slot.value.stored
  }

  function AcceptanceOf(e: Execution): Acceptance
    requires !BatchFailed(e)
  {
    e.slot.value.reply.accepted.value
  }

  function SubmissionOf(e: Execution): Submission
    requires !BatchFailed(e)
  {
    AcceptanceOf(e).value
  }

  // ----- Checkpoints -----

  datatype BatchKey = BatchKey(units: set<UnitId>, findings: set<FindingId>)

  datatype Checkpoint = Unreadable | Saved(reply: Reply)

  function KeyOf(a: Assignment): BatchKey {
    BatchKey(a.units, a.findings.Keys)
  }

  predicate CompleteCoverage(items: seq<UnitCoverage>) {
    |items| > 0 && forall c :: c in items ==> Done(c.outcome)
  }

  // Only a complete submission is worth replaying; an unreadable checkpoint stops the run.
  function Load(checkpoints: map<BatchKey, Checkpoint>, key: BatchKey): Result<Option<Reply>> {
    if key !in checkpoints then Ok(None)
    else
      match checkpoints[key]
      case Unreadable => Err
      case Saved(reply) =>
        if reply.accepted.None? then Err
        else
          var sub := reply.accepted.value.value;
          if sub.completion == Complete && CompleteCoverage(sub.coverage) then Ok(Some(reply)) else Ok(None)
  }

  /** A checkpoint is found by exactly what was asked: the same units and the same findings. */
  lemma SameKey(a: Assignment, b: Assignment)
    ensures KeyOf(a) == KeyOf(b) <==> a.units == b.units && a.findings.Keys == b.findings.Keys
  {
  }

  /** What a checkpoint gives back: nothing without one; an error if it cannot be read or holds
      no accepted submission; the stored reply exactly if its submission is complete and
      leaves none of its units partial or failed. */
  lemma LoadedExactly(checkpoints: map<BatchKey, Checkpoint>, key: BatchKey)
    ensures key !in checkpoints ==> Load(checkpoints, key) == Ok(None)
    ensures Load(checkpoints, key).Err? <==>
      key in checkpoints && (checkpoints[key].Unreadable? || checkpoints[key].reply.accepted.None?)
    ensures key in checkpoints && checkpoints[key].Saved? && checkpoints[key].reply.accepted.Some? ==>
      var reply := checkpoints[key].reply;
      var sub := reply.accepted.value.value;
      if sub.completion == Complete && |sub.coverage| > 0
         && (forall c :: c in sub.coverage ==> c.outcome == Covered || c.outcome == ExcludedByPolicy)
      then Load(checkpoints, key) == Ok(Some(reply))
      else Load(checkpoints, key) == Ok(None)
  {
  }

  // ----- Assignments and the session budget -----

  // What planning a run starts from.
  datatype Scene = Scene(
    findings: seq<Finding>,
    batches: seq<seq<Unit>>,
    needs: Requirements,
    sources: map<SourceId, SourceRef>,
    checkpoints: map<BatchKey, Checkpoint>,
    budget: nat)

  // The prior findings of batch `index`: those whose first planned unit lies there.
  function FindingsOf(findings: seq<Finding>, batches: seq<seq<Unit>>, index: nat): map<FindingId, Known>
    requires UniqueIds(findings)
  {
    map i | 0 <= i < |findings| && AssignedBatch(findings[i].units, batches) == index
      :: findings[i].id := KnownOf(findings[i])
  }

  function AssignmentFor(s: Scene, index: nat): Assignment
    requires UniqueIds(s.findings) && index < |s.batches|
  {
    var units := UnitIds(s.batches[index]);
    Assignment(units, map u | u in units && u in s.needs :: s.needs[u],
               FindingsOf(s.findings, s.batches, index), s.sources)
  }

  /** A planned batch admits a valid submission exactly when no unit in it is separated
      from its enclosing unit, and a complete one exactly when, besides, there is
      something to cite for each of its findings. */
  lemma PlannedAdmitsExactly(s: Scene, index: nat)
    requires UniqueIds(s.findings) && index < |s.batches|
    ensures (exists sub :: ValidSubmission(sub, AssignmentFor(s, index)) && SchemaOk(sub)) <==>
      WholeBatch(s.batches[index], s.needs)
    ensures (exists sub :: ValidSubmission(sub, AssignmentFor(s, index)) && SchemaOk(sub) && sub.completion == Complete)
      <==> WholeBatch(s.batches[index], s.needs) && Reassessable(AssignmentFor(s, index))
  {
    hide ValidSubmission, SchemaOk, UnitIds, FindingsOf, Reassessable;
    AdmitsExactly(AssignmentFor(s, index));
    PlannedIsWhole(s, index);
  }

  lemma PlannedIsWhole(s: Scene, index: nat)
    requires UniqueIds(s.findings) && index < |s.batches|
    ensures Whole(AssignmentFor(s, index)) <==> WholeBatch(s.batches[index], s.needs)
  {
    var a := AssignmentFor(s, index);
    if Whole(a) {
      forall u | u in a.units && u in s.needs && s.needs[u].enclosing != ""
        ensures s.needs[u].enclosing != u && s.needs[u].enclosing in a.units
      {
        assert u in a.requirements;
      }
    }
  }

  /** Every prior finding is assigned to exactly one batch, and truthfully. */
  lemma AssignedOnce(findings: seq<Finding>, batches: seq<seq<Unit>>, i: nat, index: nat)
    requires UniqueIds(findings) && i < |findings| && |batches| > 0
    ensures AssignedBatch(findings[i].units, batches) < |batches|
    ensures findings[i].id in FindingsOf(findings, batches, index) <==>
      index == AssignedBatch(findings[i].units, batches)
    ensures findings[i].id in FindingsOf(findings, batches, index) ==>
      FindingsOf(findings, batches, index)[findings[i].id] == KnownOf(findings[i])
  {
  }

  /** A batch is told exactly the findings whose first planned unit it holds, the first
      batch besides those with no planned unit. */
  lemma ToldExactly(s: Scene, i: nat, index: nat)
    requires UniqueIds(s.findings) && i < |s.findings| && index < |s.batches| && DistinctUnits(Flatten(s.batches))
    ensures s.findings[i].id in AssignmentFor(s, index).findings <==>
      FollowsFirst(s.findings[i].units, s.batches, index)
    ensures s.findings[i].id in AssignmentFor(s, index).findings && !NonePlanned(s.findings[i].units, s.batches) ==>
      exists u :: u in s.findings[i].units && u in AssignmentFor(s, index).units
  {
    var f := s.findings[i];
    AssignedOnce(s.findings, s.batches, i, index);
    AssignedFollowsFirst(f.units, s.batches);
    if FollowsFirst(f.units, s.batches, index) {
      FollowsOne(f.units, s.batches, index, AssignedBatch(f.units, s.batches));
      if !NonePlanned(f.units, s.batches) {
        var j :| 0 <= j < |f.units| && f.units[j] in UnitIds(s.batches[index]) && NonePlanned(f.units[..j], s.batches);
        assert f.units[j] in f.units;
      }
    }
  }

  datatype Plan = Plan(assignments: seq<Assignment>, run: seq<bool>, slots: seq<Option<SessionEnd>>)

  function StoredFor(s: Scene, i: nat): Result<Option<Reply>>
    requires UniqueIds(s.findings) && i < |s.batches|
  {
    Load(s.checkpoints, KeyOf(AssignmentFor(s, i)))
  }

  function ReplaySlot(stored: Option<Reply>): Option<SessionEnd> {
    if stored.Some? then Some(SessionEnd(stored.value, false, true)) else None
  }

  // Batches are considered in order; a batch without a checkpoint starts a session while the budget lasts.
  predicate PlannedAt(p: Plan, s: Scene, i: nat)
    requires UniqueIds(s.findings) && i < |s.batches| && |p.assignments| == |p.run| == |p.slots| && i < |p.run|
  {
    && p.assignments[i] == AssignmentFor(s, i)
    && StoredFor(s, i).Ok?
    && (p.run[i] <==> StoredFor(s, i).value.None? && Runnable(p.run[..i]) < s.budget)
    && p.slots[i] == ReplaySlot(StoredFor(s, i).value)
  }

  predicate Planned(p: Plan, s: Scene, n: nat)
    requires UniqueIds(s.findings) && n <= |s.batches|
  {
    && |p.assignments| == |p.run| == |p.slots| == n
    && forall i :: 0 <= i < n ==> PlannedAt(p, s, i)
  }

  method AssignFindings(findings: seq<Finding>, batches: seq<seq<Unit>>, findingBatches: map<FindingId, nat>,
                        index: nat)
    returns (known: map<FindingId, Known>)
    requires UniqueIds(findings)
    requires findingBatches.Keys == FindingIds(findings)
    requires forall i :: 0 <= i < |findings| ==>
      findingBatches[findings[i].id] == AssignedBatch(findings[i].units, batches)
    ensures known == FindingsOf(findings, batches, index)
  {
    known := map[];
    for i := 0 to |findings|
      invariant UniqueIds(findings[..i])
      invariant known == FindingsOf(findings[..i], batches, index)
    {
      FindingsOneMore(findings, batches, index, i);
      var f := findings[i];
      assert f.id in FindingIds(findings);
      if findingBatches[f.id] == index {
        var entry := KnownFinding(f);
        known := known[f.id := entry];
      }
    }
    assert findings[..|findings|] == findings;
  }

  lemma FindingsOneMore(findings: seq<Finding>, batches: seq<seq<Unit>>, index: nat, i: nat)
    requires UniqueIds(findings) && i < |findings|
    ensures UniqueIds(findings[..i]) && UniqueIds(findings[..i + 1])
    ensures FindingsOf(findings[..i + 1], batches, index) ==
      if AssignedBatch(findings[i].units, batches) == index
      then FindingsOf(findings[..i], batches, index)[findings[i].id := KnownOf(findings[i])]
      else FindingsOf(findings[..i], batches, index)
  {
    hide KnownOf, AssignedBatch;
    var more, before := findings[..i + 1], findings[..i];
    assert more == before + [findings[i]];
    var left, right := FindingsOf(more, batches, index), FindingsOf(before, batches, index);
    forall k | 0 <= k < i && AssignedBatch(before[k].units, batches) == index
      ensures before[k].id in left && left[before[k].id] == KnownOf(before[k])
    {
      assert more[k] == before[k];
    }
    if AssignedBatch(findings[i].units, batches) == index { assert more[i].id in left; }
  }

  lemma PlannedStep(p: Plan, s: Scene, n: nat)
    requires UniqueIds(s.findings) && n < |s.batches| && Planned(p, s, n) && StoredFor(s, n).Ok?
    ensures var start := StoredFor(s, n).value.None? && Runnable(p.run) < s.budget;
      Planned(Plan(p.assignments + [AssignmentFor(s, n)], p.run + [start],
                   p.slots + [ReplaySlot(StoredFor(s, n).value)]), s, n + 1)
  {
    hide AssignmentFor, Load;
    var start := StoredFor(s, n).value.None? && Runnable(p.run) < s.budget;
    var q := Plan(p.assignments + [AssignmentFor(s, n)], p.run + [start],
                  p.slots + [ReplaySlot(StoredFor(s, n).value)]);
    forall i | 0 <= i <= n ensures PlannedAt(q, s, i) {
      assert q.run[..i] == p.run[..i];
      if i < n { assert PlannedAt(p, s, i); } else { assert q.run[..n] == p.run; }
    }
  }

  /** The plan of the first `n` batches; it fails exactly when a checkpoint among them is unreadable. */
  function PlanOf(s: Scene, n: nat): (r: Result<Plan>)
    requires UniqueIds(s.findings) && n <= |s.batches|
    ensures r.Ok? ==> Planned(r.value, s, n)
    ensures r.Ok? <==> forall i :: 0 <= i < n ==> StoredFor(s, i).Ok?
  {
    if n == 0 then Ok(Plan([], [], []))
    else
      var before, stored := PlanOf(s, n - 1), StoredFor(s, n - 1);
      if before.Err? || stored.Err? then Err
      else
        var p := before.value;
        PlannedStep(p, s, n - 1);
        Ok(Plan(p.assignments + [AssignmentFor(s, n - 1)],
                p.run + [stored.value.None? && Runnable(p.run) < s.budget],
                p.slots + [ReplaySlot(stored.value)]))
  }

  lemma {:induction false} NoPlanLater(s: Scene, k: nat, n: nat)
    requires UniqueIds(s.findings) && k <= n <= |s.batches| && PlanOf(s, k).Err?
    ensures PlanOf(s, n).Err?
  {
    if k < n { NoPlanLater(s, k, n - 1); }
  }

  method PrepareAssignment(s: Scene, findingBatches: map<FindingId, nat>, index: nat) returns (a: Assignment)
    requires UniqueIds(s.findings) && index < |s.batches|
    requires findingBatches.Keys == FindingIds(s.findings)
    requires forall i :: 0 <= i < |s.findings| ==>
      findingBatches[s.findings[i].id] == AssignedBatch(s.findings[i].units, s.batches)
    ensures a == AssignmentFor(s, index)
  {
    hide FindingsOf, AssignedBatch;
    var units := UnitIds(s.batches[index]);
    var known := AssignFindings(s.findings, s.batches, findingBatches, index);
    a := Assignment(units, map u | u in units && u in s.needs :: s.needs[u], known, s.sources);
  }

  // One more batch, planned or unreadable.
  lemma PlanOneMore(s: Scene, p: Plan, index: nat)
    requires UniqueIds(s.findings) && index < |s.batches| && PlanOf(s, index) == Ok(p)
    ensures var stored := StoredFor(s, index);
      PlanOf(s, index + 1) ==
        if stored.Err? then Err
        else Ok(Plan(p.assignments + [AssignmentFor(s, index)],
                     p.run + [stored.value.None? && Runnable(p.run) < s.budget],
                     p.slots + [ReplaySlot(stored.value)]))
  {
    hide Load, AssignmentFor, Planned;
  }

  method PlanExecutions(s: Scene) returns (r: Result<Plan>)
    requires UniqueIds(s.findings)
    ensures r == PlanOf(s, |s.batches|)
  {
    assert PlanOf(s, 0) == Ok(Plan([], [], []));
    hide PlanOf, Load, AssignmentFor, Planned, UniqueIds, AssignedBatch, FindingIds;
    var findingBatches := AssignFindingBatches(s.findings, s.batches);
    var used := 0;
    var p := Plan([], [], []);
    for index := 0 to |s.batches|
      invariant PlanOf(s, index) == Ok(p)
      invariant used == Runnable(p.run)
    {
      var a := PrepareAssignment(s, findingBatches, index);
      var stored := Load(s.checkpoints, KeyOf(a));
      PlanOneMore(s, p, index);
      if stored.Err? {
        NoPlanLater(s, index + 1, |s.batches|);
        return Err;
      }
      var start := stored.value.None? && used < s.budget;
      RunnableAppend(p.run, start);
      p := Plan(p.assignments + [a], p.run + [start], p.slots + [ReplaySlot(stored.value)]);
      if start { used := used + 1; }
    }
    return Ok(p);
  }

  lemma RunnableAppend(run: seq<bool>, start: bool)
    ensures Runnable(run + [start]) == Runnable(run) + if start then 1 else 0
  {
    assert (run + [start])[..|run|] == run;
  }

  /** The session budget is never exceeded, and a batch is skipped only when it is used up. */
  lemma {:induction false} BudgetRespected(p: Plan, s: Scene, n: nat)
    requires UniqueIds(s.findings) && n <= |s.batches| && Planned(p, s, n)
    ensures Runnable(p.run) <= s.budget
    ensures (exists i :: 0 <= i < n && !p.run[i] && p.slots[i].None?) ==> Runnable(p.run) == s.budget
    decreases n
  {
    hide AssignmentFor, Load;
    if n > 0 {
      var front := Plan(p.assignments[..n - 1], p.run[..n - 1], p.slots[..n - 1]);
      forall i | 0 <= i < n - 1 ensures PlannedAt(front, s, i) {
        assert front.run[..i] == p.run[..i];
        assert PlannedAt(p, s, i);
      }
      BudgetRespected(front, s, n - 1);
      assert PlannedAt(p, s, n - 1);
      if i :| 0 <= i < n && !p.run[i] && p.slots[i].None? {
        if i < n - 1 { assert !front.run[i] && front.slots[i].None?; }
      }
    }
  }

  // ----- The fold -----

  datatype Tally = Tally(
    findings: seq<Finding>,
    coverage: seq<UnitCoverage>,
    telemetry: Telemetry,
    proposed: Verdict,
    complete: bool)

  function FailedEntries(batch: seq<Unit>): seq<UnitCoverage> {
    seq(|batch|, i requires 0 <= i < |batch| => UnitCoverage(batch[i].id, Failed))
  }

  function MetadataOf(run: RunId, at: Instant, a: Acceptance): Metadata {
    Metadata(run, at, map[], a.ids)
  }

  // The coverage a batch contributes.
  function EntriesOf(e: Execution): seq<UnitCoverage> {
    if BatchFailed(e) then FailedEntries(e.batch) else SubmissionOf(e).coverage
  }

  function FoldOne(t: Tally, e: Execution, run: RunId, at: Instant): Result<Tally> {
    var telemetry := if e.slot.Some? then Joined(t.telemetry, e.slot.value.reply.telemetry) else t.telemetry;
    if Broken(e) then Err
    else if BatchFailed(e) then
      Ok(t.(telemetry := telemetry, complete := false, coverage := t.coverage + EntriesOf(e)))
    else
      var sub, m := SubmissionOf(e), MetadataOf(run, at, AcceptanceOf(e));
      if !Reconcilable(t.findings, sub, m) then Err
      else Ok(Tally(Reconciled(t.findings, sub, m), t.coverage + EntriesOf(e), telemetry,
                    if sub.verdict == NeedsReview then NeedsReview else t.proposed,
                    t.complete && sub.completion == Complete))
  }

  // Each fold step has its own instant: the clock is read once per reconciliation.
  datatype Fold = Fold(findings: seq<Finding>, excluded: seq<UnitCoverage>, executions: seq<Execution>,
                       run: RunId, times: seq<Instant>)

  predicate FoldOk(fold: Fold) {
    UniqueIds(fold.findings) && |fold.times| == |fold.executions|
  }

  const NO_TELEMETRY := Telemetry([], [], [], [], true)

  function FoldUpTo(fold: Fold, n: nat): Result<Tally>
    requires FoldOk(fold) && n <= |fold.executions|
  {
    if n == 0 then Ok(Tally(fold.findings, fold.excluded, NO_TELEMETRY, Approved, true))
    else
      var before := FoldUpTo(fold, n - 1);
      if before.Err? then Err else FoldOne(before.value, fold.executions[n - 1], fold.run, fold.times[n - 1])
  }

  function Finished(t: Tally, batches: nat): Tally {
    t.(complete := && t.complete && !(batches == 0 && |t.coverage| == 0)
                   && (forall c :: c in t.coverage ==> Done(c.outcome)),
       coverage := Deduped(t.coverage))
  }

  /** What reviewing the batches returns. */
  function Folded(fold: Fold): Result<Tally>
    requires FoldOk(fold)
  {
    var t := FoldUpTo(fold, |fold.executions|);
    if t.Err? then Err else Ok(Finished(t.value, |fold.executions|))
  }

  lemma {:induction false} FoldStaysBroken(fold: Fold, k: nat, n: nat)
    requires FoldOk(fold) && k <= n <= |fold.executions| && FoldUpTo(fold, k).Err?
    ensures FoldUpTo(fold, n).Err?
  {
    if k < n { FoldStaysBroken(fold, k, n - 1); }
  }

  lemma FoldOneKeepsUnique(t: Tally, e: Execution, run: RunId, at: Instant)
    requires UniqueIds(t.findings) && FoldOne(t, e, run, at).Ok?
    ensures UniqueIds(FoldOne(t, e, run, at).value.findings)
  {
    if !BatchFailed(e) { ReconciledIds(t.findings, SubmissionOf(e), MetadataOf(run, at, AcceptanceOf(e))); }
  }

  method FailBatch(batch: seq<Unit>, coverage: seq<UnitCoverage>) returns (result: seq<UnitCoverage>)
    ensures result == coverage + FailedEntries(batch)
  {
    result := coverage;
    for i := 0 to |batch|
      invariant result == coverage + FailedEntries(batch)[..i]
    {
      result := result + [UnitCoverage(batch[i].id, Failed)];
    }
  }

  method FoldExecution(t: Tally, e: Execution, run: RunId, at: Instant) returns (r: Result<Tally>)
    requires UniqueIds(t.findings)
    ensures r == FoldOne(t, e, run, at)
  {
    if Broken(e) { return Err; }
    var telemetry := t.telemetry;
    if e.slot.Some? { telemetry := MergeTelemetry(telemetry, e.slot.value.reply.telemetry); }
    if BatchFailed(e) {
      var coverage := FailBatch(e.batch, t.coverage);
      return Ok(t.(telemetry := telemetry, complete := false, coverage := coverage));
    }
    var accepted := AcceptanceOf(e);
    var complete := t.complete;
    if accepted.value.completion != Complete { complete := false; }
    var proposed := t.proposed;
    if accepted.value.verdict == NeedsReview { proposed := NeedsReview; }
    var findings := Reconcile(t.findings, accepted.value, MetadataOf(run, at, accepted));
    if findings.Err? { return Err; }
    return Ok(Tally(findings.value, t.coverage + accepted.value.coverage, telemetry, proposed, complete));
  }

  method CheckOutcomes(coverage: seq<UnitCoverage>) returns (ok: bool)
    ensures ok <==> forall c :: c in coverage ==> Done(c.outcome)
  {
    ok := true;
    for i := 0 to |coverage|
      invariant ok <==> forall k :: 0 <= k < i ==> Done(coverage[k].outcome)
    {
      if coverage[i].outcome != Covered && coverage[i].outcome != ExcludedByPolicy { ok := false; }
    }
  }

  method FoldExecutions(fold: Fold) returns (r: Result<Tally>)
    requires FoldOk(fold)
    ensures r == Folded(fold)
  {
    hide FoldOne, UniqueIds, Deduped;
    var es := fold.executions;
    var t := Tally(fold.findings, fold.excluded, NO_TELEMETRY, Approved, true);
    for i := 0 to |es|
      invariant UniqueIds(t.findings)
      invariant FoldUpTo(fold, i) == Ok(t)
    {
      var next := FoldExecution(t, es[i], fold.run, fold.times[i]);
      if next.Err? {
        FoldStaysBroken(fold, i + 1, |es|);
        return Err;
      }
      FoldOneKeepsUnique(t, es[i], fold.run, fold.times[i]);
      t := next.value;
    }
    var complete := t.complete;
    if |es| == 0 && |t.coverage| == 0 { complete := false; }
    var outcomes := CheckOutcomes(t.coverage);
    var deduped := DedupeCoverage(t.coverage);
    return Ok(t.(complete := complete && outcomes, coverage := deduped));
  }
}
