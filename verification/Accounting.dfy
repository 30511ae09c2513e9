/** What one coordinator run owes its units and findings, whatever mix of accepted,
    failed, replayed and skipped batches it went through. */
module Accounting {
  import opened Domain
  import opened Validation
  import opened Reconciliation
  import opened ReportCodec
  import opened Lifecycle
  import opened Planner
  import opened Merging
  import opened Coordinator
  import Provenance
  import Retrieval

  // ----- The setting -----

  /** `v` describes the same work as `a`. A replayed submission was validated in an
      earlier run of the same input against the same units, unit requirements and
      finding ids; what was known of the findings may have changed since. */
  predicate SameTask(v: Assignment, a: Assignment) {
    && v.units == a.units
    && v.findings.Keys == a.findings.Keys
    && v.requirements.Keys == a.requirements.Keys
    && forall u :: u in a.requirements ==> v.requirements[u].enclosing == a.requirements[u].enclosing
  }

  /** The registry's snapshot, against which a submission is validated, describes
      the same work and the same findings as the assignment it started from. */
  lemma SnapshotIsSameTask(a: Assignment, snapshot: Assignment)
    requires Retrieval.Grew(a, snapshot)
    ensures SameTask(snapshot, a) && snapshot.findings == a.findings
  {
  }

  predicate Vetted(e: Execution, v: Assignment) {
    BatchFailed(e) || (ValidSubmission(SubmissionOf(e), v) && SameTask(v, e.assignment))
  }

  predicate ExecutionOf(e: Execution, findings: seq<Finding>, batches: seq<seq<Unit>>, i: nat, v: Assignment)
    requires UniqueIds(findings) && i < |batches|
  {
    && e.batch == batches[i]
    && e.assignment.units == UnitIds(batches[i])
    && e.assignment.findings == FindingsOf(findings, batches, i)
    && Vetted(e, v)
  }

  /** The executions of a planned run, each accepted submission validated against its entry of `vetted`. */
  predicate RunOf(fold: Fold, batches: seq<seq<Unit>>, vetted: seq<Assignment>) {
    && FoldOk(fold)
    && |fold.executions| == |batches| == |vetted|
    && forall i :: 0 <= i < |batches| ==> ExecutionOf(fold.executions[i], fold.findings, batches, i, vetted[i])
  }

  // ----- Coverage: every planned unit exactly once -----

  lemma FailedEntriesCover(batch: seq<Unit>)
    requires DistinctUnits(batch)
    ensures DistinctKeys(FailedEntries(batch), UnitOf)
    ensures KeysOf(FailedEntries(batch), UnitOf) == UnitIds(batch)
  {
    var es := FailedEntries(batch);
    forall u | u in UnitIds(batch) ensures u in KeysOf(es, UnitOf) {
      var i :| 0 <= i < |batch| && batch[i].id == u;
      assert UnitOf(es[i]) == u;
    }
    forall u | u in KeysOf(es, UnitOf) ensures u in UnitIds(batch) {
      var i :| 0 <= i < |es| && UnitOf(es[i]) == u;
      assert batch[i].id == u;
    }
  }

  lemma EntriesCover(e: Execution, v: Assignment)
    requires DistinctUnits(e.batch) && e.assignment.units == UnitIds(e.batch) && Vetted(e, v)
    ensures DistinctKeys(EntriesOf(e), UnitOf)
    ensures KeysOf(EntriesOf(e), UnitOf) == UnitIds(e.batch)
  {
    if BatchFailed(e) {
      FailedEntriesCover(e.batch);
    } else {
      var c := SubmissionOf(e).coverage;
      assert OneEntryEach(c, v.units);
      forall u | u in v.units ensures u in KeysOf(c, UnitOf) {
        var i :| 0 <= i < |c| && c[i].unit == u;
        assert UnitOf(c[i]) == u;
      }
    }
  }

  function AllEntries(es: seq<Execution>): seq<UnitCoverage> {
    if |es| == 0 then [] else AllEntries(es[..|es| - 1]) + EntriesOf(es[|es| - 1])
  }

  lemma FoldOneCoverage(t: Tally, e: Execution, run: RunId, at: Instant)
    requires FoldOne(t, e, run, at).Ok?
    ensures FoldOne(t, e, run, at).value.coverage == t.coverage + EntriesOf(e)
  {
    hide Reconcilable, Reconciled, Joined;
  }

  lemma {:induction false} FoldCoverage(fold: Fold, n: nat)
    requires FoldOk(fold) && n <= |fold.executions| && FoldUpTo(fold, n).Ok?
    ensures FoldUpTo(fold, n).value.coverage == fold.excluded + AllEntries(fold.executions[..n])
  {
    hide FoldOne, EntriesOf, UniqueIds;
    if n > 0 {
      FoldCoverage(fold, n - 1);
      FoldOneCoverage(FoldUpTo(fold, n - 1).value, fold.executions[n - 1], fold.run, fold.times[n - 1]);
      assert fold.executions[..n][..n - 1] == fold.executions[..n - 1];
    }
  }

  lemma {:induction false} DistinctParts(batches: seq<seq<Unit>>, i: nat)
    requires DistinctUnits(Flatten(batches)) && i < |batches|
    ensures DistinctUnits(batches[i])
    ensures DistinctUnits(Flatten(batches[..|batches| - 1]))
    ensures UnitIds(Flatten(batches[..|batches| - 1])) !! UnitIds(batches[|batches| - 1])
  {
    var front, last := Flatten(batches[..|batches| - 1]), batches[|batches| - 1];
    var flat := Flatten(batches);
    assert forall k :: 0 <= k < |front| ==> flat[k] == front[k];
    assert forall k :: 0 <= k < |last| ==> flat[|front| + k] == last[k];
    if i < |batches| - 1 { DistinctParts(batches[..|batches| - 1], i); }
    forall u | u in UnitIds(front) ensures u !in UnitIds(last) {
      var k :| 0 <= k < |front| && front[k].id == u;
      assert flat[k].id == u;
    }
  }

  lemma {:induction false} EntriesOfRun(fold: Fold, batches: seq<seq<Unit>>, vetted: seq<Assignment>, n: nat)
    requires RunOf(fold, batches, vetted) && n <= |batches|
    requires DistinctUnits(Flatten(batches[..n]))
    ensures KeysOf(AllEntries(fold.executions[..n]), UnitOf) == UnitIds(Flatten(batches[..n]))
    ensures forall i, x :: 0 <= i < n && x in EntriesOf(fold.executions[i]) ==>
      First(AllEntries(fold.executions[..n]), UnitOf, x.unit) == Some(x)
  {
    hide Vetted, EntriesOf;
    if n > 0 {
      var es, bs := fold.executions[..n], batches[..n];
      assert es[..n - 1] == fold.executions[..n - 1] && bs[..n - 1] == batches[..n - 1];
      DistinctParts(bs, n - 1);
      EntriesOfRun(fold, batches, vetted, n - 1);
      assert ExecutionOf(fold.executions[n - 1], fold.findings, batches, n - 1, vetted[n - 1]);
      var e := es[n - 1];
      EntriesCover(e, vetted[n - 1]);
      var front := AllEntries(es[..n - 1]);
      KeysJoin(front, EntriesOf(e), UnitOf);
      UnitIdsJoin(Flatten(bs[..n - 1]), bs[n - 1]);
      forall i, x | 0 <= i < n && x in EntriesOf(fold.executions[i])
        ensures First(AllEntries(es), UnitOf, x.unit) == Some(x)
      {
        FirstOfJoin(front, EntriesOf(e), UnitOf, x.unit);
        var k :| 0 <= k < |EntriesOf(fold.executions[i])| && EntriesOf(fold.executions[i])[k] == x;
        if i == n - 1 {
          assert UnitOf(EntriesOf(e)[k]) in KeysOf(EntriesOf(e), UnitOf);
          DistinctFirst(EntriesOf(e), UnitOf, x);
        }
      }
    }
  }

  lemma DedupedJoin(excluded: seq<UnitCoverage>, entries: seq<UnitCoverage>)
    ensures DistinctKeys(Deduped(excluded + entries), UnitOf)
    ensures KeysOf(Deduped(excluded + entries), UnitOf) == KeysOf(excluded, UnitOf) + KeysOf(entries, UnitOf)
    ensures forall x :: First(entries, UnitOf, UnitOf(x)) == Some(x) && x.unit !in KeysOf(excluded, UnitOf) ==>
      x in Deduped(excluded + entries)
  {
    var all := excluded + entries;
    assert [] + all == all;
    AppendAbsentKeepsFirst([], all, UnitOf);
    KeysJoin(excluded, entries, UnitOf);
    forall x | First(entries, UnitOf, UnitOf(x)) == Some(x) && x.unit !in KeysOf(excluded, UnitOf)
      ensures x in Deduped(all)
    {
      FirstOfJoin(excluded, entries, UnitOf, x.unit);
      assert First(Deduped(all), UnitOf, x.unit) == Some(x);
    }
  }

  // What the policy excludes is reported as the policy has it.
  lemma ExcludedStay(fold: Fold)
    requires FoldOk(fold) && Folded(fold).Ok?
    ensures forall x :: x in Folded(fold).value.coverage && x.unit in KeysOf(fold.excluded, UnitOf) ==>
      x in fold.excluded
  {
    hide FoldUpTo, AllEntries, KeysOf;
    var es := fold.executions;
    assert es[..|es|] == es;
    FoldCoverage(fold, |es|);
    var all := fold.excluded + AllEntries(es);
    assert [] + all == all;
    AppendAbsentKeepsFirst([], all, UnitOf);
    forall x | x in Deduped(all) && x.unit in KeysOf(fold.excluded, UnitOf) ensures x in fold.excluded {
      FirstOfJoin(fold.excluded, AllEntries(es), UnitOf, x.unit);
      DistinctFirst(Deduped(all), UnitOf, x);
    }
  }

  /** Every planned unit and every excluded one has exactly one coverage entry, no
      other unit has any, and a planned unit's entry is the one its own batch gave:
      failed when the batch failed, otherwise what its submission says. */
  lemma CoveredExactlyOnce(fold: Fold, batches: seq<seq<Unit>>, vetted: seq<Assignment>)
    requires RunOf(fold, batches, vetted) && DistinctUnits(Flatten(batches)) && Folded(fold).Ok?
    ensures var c := Folded(fold).value.coverage;
      && DistinctKeys(c, UnitOf)
      && KeysOf(c, UnitOf) == KeysOf(fold.excluded, UnitOf) + UnitIds(Flatten(batches))
      && forall i, x :: 0 <= i < |batches| && x in EntriesOf(fold.executions[i]) ==>
           x.unit in KeysOf(fold.excluded, UnitOf) || x in c
  {
    hide ExecutionOf, EntriesOf, DistinctUnits, Deduped, First, KeysOf, Flatten, UnitIds, AllEntries, FoldUpTo;
    hide DistinctKeys;
    var es := fold.executions;
    assert es[..|es|] == es && batches[..|batches|] == batches;
    EntriesOfRun(fold, batches, vetted, |batches|);
    FoldCoverage(fold, |es|);
    DedupedJoin(fold.excluded, AllEntries(es));
  }

  // An entry a batch gives for each of its units, failed when the batch failed.
  lemma EntryAt(fold: Fold, batches: seq<seq<Unit>>, vetted: seq<Assignment>, i: nat, k: nat)
    requires RunOf(fold, batches, vetted) && DistinctUnits(Flatten(batches)) && i < |batches| && k < |batches[i]|
    ensures exists x :: x in EntriesOf(fold.executions[i]) && x.unit == batches[i][k].id
    ensures BatchFailed(fold.executions[i]) ==> forall x :: x in EntriesOf(fold.executions[i]) ==> x.outcome == Failed
  {
    hide Flatten, ValidSubmission, SameTask;
    var e, id := fold.executions[i], batches[i][k].id;
    assert ExecutionOf(e, fold.findings, batches, i, vetted[i]);
    DistinctParts(batches, i);
    EntriesCover(e, vetted[i]);
    assert id in KeysOf(EntriesOf(e), UnitOf);
    var m :| 0 <= m < |EntriesOf(e)| && UnitOf(EntriesOf(e)[m]) == id;
    assert EntriesOf(e)[m] in EntriesOf(e);
  }

  // Two entries of a list without repetitions that speak of the same unit are one entry.
  lemma SameEntry(c: seq<UnitCoverage>, x: UnitCoverage, y: UnitCoverage)
    requires DistinctKeys(c, UnitOf) && x in c && y in c && x.unit == y.unit
    ensures x == y
  {
    var i :| 0 <= i < |c| && c[i] == x;
    var j :| 0 <= j < |c| && c[j] == y;
    assert UnitOf(c[i]) == UnitOf(c[j]);
  }

  /** What the coverage of a run says of a planned unit is what became of its batch: a
      unit of a batch without an accepted submission is reported as failed, any other
      unit exactly as the accepted submission reports it. */
  lemma ReportedAsReviewed(fold: Fold, batches: seq<seq<Unit>>, vetted: seq<Assignment>, i: nat, k: nat)
    requires RunOf(fold, batches, vetted) && DistinctUnits(Flatten(batches)) && Folded(fold).Ok?
    requires i < |batches| && k < |batches[i]| && batches[i][k].id !in KeysOf(fold.excluded, UnitOf)
    ensures var c := Folded(fold).value.coverage;
      && (exists x :: x in c && x.unit == batches[i][k].id)
      && forall x :: x in c && x.unit == batches[i][k].id ==>
           if AcceptedBy(fold.executions[i]).None? then x.outcome == Failed
           else x in AcceptedBy(fold.executions[i]).value.coverage
  {
    hide FoldUpTo, Deduped, DistinctUnits, DistinctKeys, ExecutionOf, FailedEntries;
    var c, e, id := Folded(fold).value.coverage, fold.executions[i], batches[i][k].id;
    CoveredExactlyOnce(fold, batches, vetted);
    EntryAt(fold, batches, vetted, i, k);
    var mine :| mine in EntriesOf(e) && mine.unit == id;
    assert mine in c;
    forall x | x in c && x.unit == id ensures x == mine {
      SameEntry(c, x, mine);
    }
  }

  // ----- Findings: only the own batch speaks -----

  function OwnBatch(fold: Fold, batches: seq<seq<Unit>>, p: nat): nat
    requires p < |fold.findings|
  {
    AssignedBatch(fold.findings[p].units, batches)
  }

  /** What batch `b` makes of a finding: nothing when it failed. */
  function ChangedBy(f: Finding, fold: Fold, b: nat): Finding
    requires FoldOk(fold) && b < |fold.executions|
  {
    var e := fold.executions[b];
    if BatchFailed(e) then f else Settle(f, SubmissionOf(e), MetadataOf(fold.run, fold.times[b], AcceptanceOf(e)))
  }

  lemma StepAt(t: Tally, e: Execution, run: RunId, at: Instant, p: nat)
    requires FoldOne(t, e, run, at).Ok? && p < |t.findings|
    ensures p < |FoldOne(t, e, run, at).value.findings|
    ensures FoldOne(t, e, run, at).value.findings[p] ==
      if BatchFailed(e) then t.findings[p]
      else Settle(t.findings[p], SubmissionOf(e), MetadataOf(run, at, AcceptanceOf(e)))
  {
    if !BatchFailed(e) {
      var sub, m := SubmissionOf(e), MetadataOf(run, at, AcceptanceOf(e));
      NoMatchesNoRestate(t.findings[p], sub, m, |sub.findings|);
    }
  }

  lemma {:induction false} FindingsSoFar(fold: Fold, batches: seq<seq<Unit>>, vetted: seq<Assignment>, n: nat, p: nat)
    requires RunOf(fold, batches, vetted) && n <= |batches| && p < |fold.findings| && |batches| > 0
    requires FoldUpTo(fold, n).Ok?
    ensures var fs := FoldUpTo(fold, n).value.findings; var b := OwnBatch(fold, batches, p);
      p < |fs| && fs[p] == if b < n then ChangedBy(fold.findings[p], fold, b) else fold.findings[p]
  {
    hide ValidSubmission, FoldOne, Settle, Reconcilable;
    if n > 0 {
      FindingsSoFar(fold, batches, vetted, n - 1, p);
      var t, e := FoldUpTo(fold, n - 1).value, fold.executions[n - 1];
      StepAt(t, e, fold.run, fold.times[n - 1], p);
      AssignedOnce(fold.findings, batches, p, n - 1);
      assert ExecutionOf(e, fold.findings, batches, n - 1, vetted[n - 1]);
      if OwnBatch(fold, batches, p) != n - 1 && !BatchFailed(e) {
        UnknownUntouched(t.findings[p], SubmissionOf(e), vetted[n - 1],
                         MetadataOf(fold.run, fold.times[n - 1], AcceptanceOf(e)));
      }
    }
  }

  /** A prior finding ends as its own batch alone left it: changed by that batch's
      submission, or untouched when that batch failed. In a complete run the
      submission reassesses it exactly once. */
  lemma OwnBatchDecides(fold: Fold, batches: seq<seq<Unit>>, vetted: seq<Assignment>, p: nat)
    requires RunOf(fold, batches, vetted) && |batches| > 0 && p < |fold.findings| && Folded(fold).Ok?
    ensures var b := OwnBatch(fold, batches, p); var r := Folded(fold).value;
      && b < |batches| && p < |r.findings|
      && r.findings[p] == ChangedBy(fold.findings[p], fold, b)
      && (r.complete ==>
            && !BatchFailed(fold.executions[b])
            && var rs := SubmissionOf(fold.executions[b]).reassessments;
               DistinctReassessments(rs) && FindReassessment(rs, fold.findings[p].id).Some?)
  {
    FindingsSoFar(fold, batches, vetted, |batches|, p);
    var b := OwnBatch(fold, batches, p);
    AssignedOnce(fold.findings, batches, p, b);
    assert ExecutionOf(fold.executions[b], fold.findings, batches, b, vetted[b]);
    if Folded(fold).value.complete { CompleteFold(fold, |batches|, b); }
  }

  lemma FoldOneComplete(t: Tally, e: Execution, run: RunId, at: Instant)
    requires FoldOne(t, e, run, at).Ok?
    ensures FoldOne(t, e, run, at).value.complete <==>
      t.complete && !BatchFailed(e) && SubmissionOf(e).completion == Complete
    ensures FoldOne(t, e, run, at).value.proposed == Approved <==>
      t.proposed == Approved && (BatchFailed(e) || SubmissionOf(e).verdict == Approved)
  {
    hide Reconcilable, Reconciled, Joined;
  }

  lemma {:induction false} CompleteFold(fold: Fold, n: nat, i: nat)
    requires FoldOk(fold) && i < n <= |fold.executions|
    requires FoldUpTo(fold, n).Ok?
    ensures FoldUpTo(fold, n).value.complete ==>
      !BatchFailed(fold.executions[i]) && SubmissionOf(fold.executions[i]).completion == Complete
    ensures FoldUpTo(fold, n).value.complete && FoldUpTo(fold, n).value.proposed == Approved ==>
      SubmissionOf(fold.executions[i]).verdict == Approved
  {
    hide FoldOne, UniqueIds;
    FoldOneComplete(FoldUpTo(fold, n - 1).value, fold.executions[n - 1], fold.run, fold.times[n - 1]);
    if i < n - 1 { CompleteFold(fold, n - 1, i); }
  }

  // A batch with an accepted, complete submission.
  // The submission of a batch that was given a session or an earlier result, neither of which failed.
  function AcceptedBy(e: Execution): Option<Submission> {
    if e.slot.Some? && !e.slot.value.failed && e.slot.value.reply.accepted.Some?
    then Some(e.slot.value.reply.accepted.value.value) else None
  }

  predicate AcceptedWhole(e: Execution) {
    AcceptedBy(e).Some? && AcceptedBy(e).value.completion == Complete
  }

  predicate Objects(e: Execution) {
    AcceptedBy(e).Some? && AcceptedBy(e).value.verdict == NeedsReview
  }

  lemma {:induction false} FoldDecides(fold: Fold, n: nat)
    requires FoldOk(fold) && n <= |fold.executions| && FoldUpTo(fold, n).Ok?
    ensures FoldUpTo(fold, n).value.complete <==> forall i :: 0 <= i < n ==> AcceptedWhole(fold.executions[i])
    ensures FoldUpTo(fold, n).value.proposed == Approved <==> forall i :: 0 <= i < n ==> !Objects(fold.executions[i])
  {
    hide FoldOne, UniqueIds;
    if n > 0 {
      FoldDecides(fold, n - 1);
      FoldOneComplete(FoldUpTo(fold, n - 1).value, fold.executions[n - 1], fold.run, fold.times[n - 1]);
    }
  }

  /** A run fails if the reply of a batch was accepted and could not be stored. */
  lemma {:induction false} UnstoredStops(fold: Fold, n: nat, i: nat)
    requires FoldOk(fold) && i < n <= |fold.executions|
    requires var slot := fold.executions[i].slot;
      slot.Some? && !slot.value.failed && slot.value.reply.accepted.Some? && !slot.value.stored
    ensures FoldUpTo(fold, n).Err? && Folded(fold).Err?
  {
    hide UniqueIds, Reconcilable, Reconciled, Joined;
    if i < n - 1 {
      UnstoredStops(fold, n - 1, i);
    } else if FoldUpTo(fold, n - 1).Ok? {
      assert FoldOne(FoldUpTo(fold, n - 1).value, fold.executions[i], fold.run, fold.times[i]).Err?;
    }
    FoldStaysBroken(fold, n, |fold.executions|);
  }

  predicate NoneLeft(items: seq<UnitCoverage>) {
    forall i :: 0 <= i < |items| ==> items[i].outcome == Covered || items[i].outcome == ExcludedByPolicy
  }

  lemma {:induction false} EntriesDone(es: seq<Execution>)
    ensures NoneLeft(AllEntries(es)) <==> forall i :: 0 <= i < |es| ==> NoneLeft(EntriesOf(es[i]))
  {
    hide EntriesOf;
    if |es| > 0 {
      EntriesDone(es[..|es| - 1]);
      DoneJoin(AllEntries(es[..|es| - 1]), EntriesOf(es[|es| - 1]));
      assert forall i :: 0 <= i < |es| - 1 ==> es[..|es| - 1][i] == es[i];
    }
  }

  lemma DoneJoin(a: seq<UnitCoverage>, b: seq<UnitCoverage>)
    ensures NoneLeft(a + b) <==> NoneLeft(a) && NoneLeft(b)
  {
    if NoneLeft(a + b) {
      assert forall i :: 0 <= i < |a| ==> (a + b)[i] == a[i];
      assert forall i :: 0 <= i < |b| ==> (a + b)[|a| + i] == b[i];
    }
  }

  /** A run is complete exactly when every batch has an accepted, complete submission,
      there was anything to cover, and every entry of every submission and of the
      policy is done; it proposes approval exactly when no accepted submission objects. */
  lemma FoldedExactly(fold: Fold)
    requires FoldOk(fold) && Folded(fold).Ok?
    ensures Folded(fold).value.complete <==>
      && (forall i :: 0 <= i < |fold.executions| ==>
            AcceptedWhole(fold.executions[i]) && NoneLeft(AcceptedBy(fold.executions[i]).value.coverage))
      && NoneLeft(fold.excluded)
      && (|fold.executions| > 0 || |fold.excluded| > 0)
    ensures Folded(fold).value.proposed == Approved <==>
      forall i :: 0 <= i < |fold.executions| ==> !Objects(fold.executions[i])
  {
    hide FoldUpTo, Deduped, UniqueIds;
    var es := fold.executions;
    var t := FoldUpTo(fold, |es|).value;
    assert es[..|es|] == es;
    FoldDecides(fold, |es|);
    FoldCoverage(fold, |es|);
    EntriesDone(es);
    DoneJoin(fold.excluded, AllEntries(es));
    assert NoneLeft(t.coverage) <==> forall c :: c in t.coverage ==> Done(c.outcome);
  }

  // ----- A run is a run of the lifecycle -----

  /** Validated against what the host says of the findings in this run. What is
      accepted otherwise is a replayed submission. */
  predicate AcceptedNow(e: Execution, v: Assignment) {
    BatchFailed(e) || v.findings == e.assignment.findings
  }

  function StepOf(fold: Fold, vetted: seq<Assignment>, i: nat): Step
    requires FoldOk(fold) && i < |fold.executions| == |vetted| && !BatchFailed(fold.executions[i])
  {
    var e := fold.executions[i];
    var m := MetadataOf(fold.run, fold.times[i], AcceptanceOf(e));
    if AcceptedNow(e, vetted[i]) then Review(SubmissionOf(e), vetted[i], m) else Replay(SubmissionOf(e), vetted[i], m)
  }

  function FoldSteps(fold: Fold, vetted: seq<Assignment>, n: nat): seq<Step>
    requires FoldOk(fold) && n <= |fold.executions| == |vetted|
  {
    if n == 0 then []
    else
      FoldSteps(fold, vetted, n - 1) +
      if BatchFailed(fold.executions[n - 1]) then [] else [StepOf(fold, vetted, n - 1)]
  }

  lemma BatchIsKnown(fold: Fold, batches: seq<seq<Unit>>, vetted: seq<Assignment>, n: nat)
    requires RunOf(fold, batches, vetted) && n < |batches| && FoldUpTo(fold, n).Ok?
    requires !BatchFailed(fold.executions[n])
    ensures vetted[n].findings.Keys <= FindingIds(FoldUpTo(fold, n).value.findings)
  {
    hide ValidSubmission, FoldUpTo, KnownOf, Settle, AssignedBatch;
    var fs := FoldUpTo(fold, n).value.findings;
    assert ExecutionOf(fold.executions[n], fold.findings, batches, n, vetted[n]);
    forall id | id in vetted[n].findings ensures id in FindingIds(fs) {
      var p :| 0 <= p < |fold.findings| && fold.findings[p].id == id;
      FindingsSoFar(fold, batches, vetted, n, p);
      assert fs[p].id == id;
    }
  }

  lemma BatchIsTruthful(fold: Fold, batches: seq<seq<Unit>>, vetted: seq<Assignment>, n: nat)
    requires RunOf(fold, batches, vetted) && n < |batches| && FoldUpTo(fold, n).Ok?
    requires UniqueIds(FoldUpTo(fold, n).value.findings)
    requires AcceptedNow(fold.executions[n], vetted[n]) && !BatchFailed(fold.executions[n])
    ensures Truthful(FoldUpTo(fold, n).value.findings, vetted[n])
  {
    var fs, v := FoldUpTo(fold, n).value.findings, vetted[n];
    assert ExecutionOf(fold.executions[n], fold.findings, batches, n, v);
    forall id | id in v.findings
      ensures FindFinding(fs, id).Some? && v.findings[id] == KnownOf(FindFinding(fs, id).value)
    {
      var p :| 0 <= p < |fold.findings| && fold.findings[p].id == id
        && AssignedBatch(fold.findings[p].units, batches) == n;
      FindingsSoFar(fold, batches, vetted, n, p);
      AssignedOnce(fold.findings, batches, p, n);
      FoundAt(fs, p);
    }
  }

  lemma {:induction false} FoldKeepsUnique(fold: Fold, n: nat)
    requires FoldOk(fold) && n <= |fold.executions| && FoldUpTo(fold, n).Ok?
    ensures UniqueIds(FoldUpTo(fold, n).value.findings)
  {
    if n > 0 {
      FoldKeepsUnique(fold, n - 1);
      FoldOneKeepsUnique(FoldUpTo(fold, n - 1).value, fold.executions[n - 1], fold.run, fold.times[n - 1]);
    }
  }

  lemma BatchIsStep(fold: Fold, batches: seq<seq<Unit>>, vetted: seq<Assignment>, n: nat)
    requires RunOf(fold, batches, vetted) && n < |batches| && FoldUpTo(fold, n + 1).Ok?
    requires !BatchFailed(fold.executions[n])
    ensures FoldUpTo(fold, n).Ok?
    ensures Applicable(FoldUpTo(fold, n).value.findings, StepOf(fold, vetted, n))
    ensures Apply(FoldUpTo(fold, n).value.findings, StepOf(fold, vetted, n)) == FoldUpTo(fold, n + 1).value.findings
  {
    hide ValidSubmission, Reconcilable, Settle, Reconciled, Truthful;
    FoldKeepsUnique(fold, n);
    assert ExecutionOf(fold.executions[n], fold.findings, batches, n, vetted[n]);
    BatchIsKnown(fold, batches, vetted, n);
    if AcceptedNow(fold.executions[n], vetted[n]) { BatchIsTruthful(fold, batches, vetted, n); }
  }

  /** Folding the batches in order is a run: what was accepted now is a validated
      review, whatever the other batches did before it, and what was stored is a replay. */
  lemma {:induction false} FoldIsRun(fold: Fold, batches: seq<seq<Unit>>, vetted: seq<Assignment>, n: nat)
    requires RunOf(fold, batches, vetted) && n <= |batches| && FoldUpTo(fold, n).Ok?
    ensures ValidRun(fold.findings, FoldSteps(fold, vetted, n))
    ensures After(fold.findings, FoldSteps(fold, vetted, n)) == FoldUpTo(fold, n).value.findings
  {
    hide RunOf, Applicable, Apply, StepOf;
    assert |batches| == |fold.executions| == |vetted| && FoldOk(fold) by { RunShape(fold, batches, vetted); }
    if n > 0 {
      FoldIsRun(fold, batches, vetted, n - 1);
      var steps, front := FoldSteps(fold, vetted, n), FoldSteps(fold, vetted, n - 1);
      if BatchFailed(fold.executions[n - 1]) {
        assert steps == front;
      } else {
        BatchIsStep(fold, batches, vetted, n - 1);
        assert steps[..|steps| - 1] == front;
      }
    }
  }

  lemma RunShape(fold: Fold, batches: seq<seq<Unit>>, vetted: seq<Assignment>)
    requires RunOf(fold, batches, vetted)
    ensures FoldOk(fold) && |batches| == |fold.executions| == |vetted|
  {
  }

  lemma ExtendsThen(fs: seq<Finding>, gs: seq<Finding>, hs: seq<Finding>)
    requires Extends(fs, gs) && Extends(gs, hs)
    ensures Extends(fs, hs)
  {
  }

  /** Recording does not depend on any of this: whatever a session answered and
      whatever a checkpoint held, a fold only appends and leaves recorded findings. */
  lemma {:induction false} FoldKeepsRecord(fold: Fold, n: nat)
    requires FoldOk(fold) && n <= |fold.executions| && FoldUpTo(fold, n).Ok?
    ensures UniqueIds(FoldUpTo(fold, n).value.findings)
    ensures Extends(fold.findings, FoldUpTo(fold, n).value.findings)
    ensures AllRecorded(fold.findings) ==> AllRecorded(FoldUpTo(fold, n).value.findings)
  {
    hide UniqueIds, AllRecorded, Extends, Reconcilable, Reconciled;
    if n == 0 {
      ExtendsSelf(fold.findings);
    } else {
      FoldKeepsRecord(fold, n - 1);
      var before, e := FoldUpTo(fold, n - 1).value, fold.executions[n - 1];
      if BatchFailed(e) {
        assert FoldUpTo(fold, n).value.findings == before.findings;
      } else {
        var sub, m := SubmissionOf(e), MetadataOf(fold.run, fold.times[n - 1], AcceptanceOf(e));
        ReconciledIsRecorded(before.findings, sub, m);
        ExtendsThen(fold.findings, before.findings, Reconciled(before.findings, sub, m));
      }
    }
  }

  lemma RunKeepsRecord(fold: Fold)
    requires FoldOk(fold) && Folded(fold).Ok?
    ensures AllRecorded(fold.findings) ==> AllRecorded(Folded(fold).value.findings)
    ensures Extends(fold.findings, Folded(fold).value.findings)
    ensures UniqueIds(Folded(fold).value.findings)
  {
    hide FoldUpTo, AllRecorded, Extends, UniqueIds;
    FoldKeepsRecord(fold, |fold.executions|);
  }

  lemma ExtendsSelf(fs: seq<Finding>)
    ensures Extends(fs, fs)
  {
  }

  // ----- What replays do to a run, exactly -----

  // The submission accepted for the own batch of a prior finding.
  function AcceptedFor(fold: Fold, batches: seq<seq<Unit>>, p: nat): Option<Submission>
    requires p < |fold.findings|
  {
    var b := OwnBatch(fold, batches, p);
    if b < |fold.executions| && !BatchFailed(fold.executions[b]) then Some(SubmissionOf(fold.executions[b])) else None
  }

  /** The stored submission replayed for a prior finding, if its own batch was replayed. */
  function ReplayedFor(fold: Fold, batches: seq<seq<Unit>>, vetted: seq<Assignment>, p: nat): Option<Submission>
    requires |vetted| == |fold.executions| && p < |fold.findings|
  {
    var b := OwnBatch(fold, batches, p);
    if b < |fold.executions| && !AcceptedNow(fold.executions[b], vetted[b]) then AcceptedFor(fold, batches, p) else None
  }

  /** What became of a prior finding, and what is known of the submission that did it. */
  lemma OwnSettles(fold: Fold, batches: seq<seq<Unit>>, vetted: seq<Assignment>, p: nat)
    requires RunOf(fold, batches, vetted) && Folded(fold).Ok? && p < |fold.findings|
    ensures p < |Folded(fold).value.findings|
    ensures var f, sub := fold.findings[p], AcceptedFor(fold, batches, p);
      if sub.None? then Folded(fold).value.findings[p] == f
      else
        && WellFormed(sub.value)
        && (exists m :: Folded(fold).value.findings[p] == Settle(f, sub.value, m))
        && (ReplayedFor(fold, batches, vetted, p).None? ==>
              exists v :: ValidSubmission(sub.value, v) && (f.id in v.findings ==> v.findings[f.id] == KnownOf(f)))
  {
    hide ValidSubmission, FoldUpTo, KnownOf, Settle, WellFormed;
    if |batches| > 0 {
      OwnBatchDecides(fold, batches, vetted, p);
      var b := OwnBatch(fold, batches, p);
      var e, v := fold.executions[b], vetted[b];
      assert ExecutionOf(e, fold.findings, batches, b, v);
      if !BatchFailed(e) {
        ValidIsWellFormed(SubmissionOf(e), v);
        AssignedOnce(fold.findings, batches, p, b);
      }
    } else {
      RunKeepsRecord(fold);
      NothingFolded(fold);
    }
  }

  lemma NothingFolded(fold: Fold)
    requires FoldOk(fold) && |fold.executions| == 0
    ensures Folded(fold).Ok? && Folded(fold).value.findings == fold.findings
  {
  }

  // A batch leaves a finding that an earlier one created as it is, and creates good ones.
  lemma StepKeepsNew(fold: Fold, batches: seq<seq<Unit>>, vetted: seq<Assignment>, n: nat, i: nat)
    requires RunOf(fold, batches, vetted) && n < |batches| && FoldUpTo(fold, n + 1).Ok? && FoldUpTo(fold, n).Ok?
    requires !BatchFailed(fold.executions[n])
    requires |fold.findings| <= i < |FoldUpTo(fold, n + 1).value.findings|
    requires i < |FoldUpTo(fold, n).value.findings| ==> Good(FoldUpTo(fold, n).value.findings[i])
    ensures Good(FoldUpTo(fold, n + 1).value.findings[i])
  {
    hide ValidSubmission, RunOf, Good, Settle, Reconcilable, FoldUpTo;
    RunShape(fold, batches, vetted);
    BatchIsStep(fold, batches, vetted, n);
    var fs, step := FoldUpTo(fold, n).value.findings, StepOf(fold, vetted, n);
    if i < |fs| {
      NewIsUnassigned(fold, batches, vetted, n, i);
      PriorSettled(fs, step.sub, step.meta, i);
      UnknownUntouched(fs[i], step.sub, step.assignment, step.meta);
    } else {
      NewIsGood(fs, step, i);
    }
  }

  lemma {:induction false} NewAreGood(fold: Fold, batches: seq<seq<Unit>>, vetted: seq<Assignment>, n: nat, i: nat)
    requires RunOf(fold, batches, vetted) && n <= |batches| && FoldUpTo(fold, n).Ok?
    requires |fold.findings| <= i < |FoldUpTo(fold, n).value.findings|
    ensures Good(FoldUpTo(fold, n).value.findings[i])
  {
    hide RunOf, Good, FoldOne;
    RunShape(fold, batches, vetted);
    var e, t := fold.executions[n - 1], FoldUpTo(fold, n - 1).value;
    if i < |t.findings| { NewAreGood(fold, batches, vetted, n - 1, i); }
    if BatchFailed(e) {
      FailedKeepsFindings(t, e, fold.run, fold.times[n - 1]);
    } else {
      StepKeepsNew(fold, batches, vetted, n - 1, i);
    }
  }

  lemma FailedKeepsFindings(t: Tally, e: Execution, run: RunId, at: Instant)
    requires BatchFailed(e) && FoldOne(t, e, run, at).Ok?
    ensures FoldOne(t, e, run, at).value.findings == t.findings
  {
  }

  // The finding that batch `i` creates for its `k`-th submitted one.
  function Proposed(fold: Fold, i: nat, k: nat): Finding
    requires FoldOk(fold) && i < |fold.executions| && !BatchFailed(fold.executions[i])
    requires k < |SubmissionOf(fold.executions[i]).findings|
  {
    var a := AcceptanceOf(fold.executions[i]);
    FreshFinding(a.value.findings[k], a.ids[k], MetadataOf(fold.run, fold.times[i], a))
  }

  ghost predicate AddedTo(fold: Fold, fs: seq<Finding>, f: Finding) {
    exists p :: |fold.findings| <= p < |fs| && fs[p] == f
  }

  lemma ProposedIsAdded(fold: Fold, batches: seq<seq<Unit>>, vetted: seq<Assignment>, i: nat, k: nat)
    requires RunOf(fold, batches, vetted) && i < |batches| && FoldUpTo(fold, i + 1).Ok?
    requires !BatchFailed(fold.executions[i]) && k < |SubmissionOf(fold.executions[i]).findings|
    ensures AddedTo(fold, FoldUpTo(fold, i + 1).value.findings, Proposed(fold, i, k))
  {
    hide ValidSubmission, RunOf, Good, Settle, Reconcilable, FreshFinding, Recorded, FoldUpTo;
    RunShape(fold, batches, vetted);
    BatchIsStep(fold, batches, vetted, i);
    FoldKeepsRecord(fold, i);
    var fs, step := FoldUpTo(fold, i).value.findings, StepOf(fold, vetted, i);
    var f, created := Proposed(fold, i, k), CreatedUpTo(step.sub, step.meta, |step.sub.findings|);
    EachIsCreated(step.sub, step.meta, |step.sub.findings|, k);
    var j :| 0 <= j < |created| && created[j] == f;
    CreatedUntouched(fs, step.sub, step.assignment, step.meta, f, k);
    assert Reconciled(fs, step.sub, step.meta)[|fs| + j] == f;
  }

  /** A finding a batch proposes is in the result of the run as it was proposed: no
      other batch can speak about it. */
  lemma {:induction false} ProposedStays(fold: Fold, batches: seq<seq<Unit>>, vetted: seq<Assignment>, i: nat, k: nat,
                                         n: nat)
    requires RunOf(fold, batches, vetted) && i < n <= |batches| && FoldUpTo(fold, n).Ok?
    requires !BatchFailed(fold.executions[i]) && k < |SubmissionOf(fold.executions[i]).findings|
    ensures AddedTo(fold, FoldUpTo(fold, n).value.findings, Proposed(fold, i, k))
  {
    hide ValidSubmission, RunOf, Good, Settle, Reconcilable, Proposed;
    RunShape(fold, batches, vetted);
    if n == i + 1 {
      ProposedIsAdded(fold, batches, vetted, i, k);
    } else {
      ProposedStays(fold, batches, vetted, i, k, n - 1);
      var fs := FoldUpTo(fold, n - 1).value.findings;
      var p :| |fold.findings| <= p < |fs| && fs[p] == Proposed(fold, i, k);
      if !BatchFailed(fold.executions[n - 1]) {
        BatchIsStep(fold, batches, vetted, n - 1);
        var step := StepOf(fold, vetted, n - 1);
        NewIsUnassigned(fold, batches, vetted, n - 1, p);
        PriorSettled(fs, step.sub, step.meta, p);
        UnknownUntouched(fs[p], step.sub, step.assignment, step.meta);
        assert FoldUpTo(fold, n).value.findings[p] == fs[p];
      }
    }
  }

  // A finding created in this run is in nobody's assignment.
  lemma NewIsUnassigned(fold: Fold, batches: seq<seq<Unit>>, vetted: seq<Assignment>, n: nat, i: nat)
    requires RunOf(fold, batches, vetted) && n < |batches| && FoldUpTo(fold, n).Ok?
    requires !BatchFailed(fold.executions[n])
    requires |fold.findings| <= i < |FoldUpTo(fold, n).value.findings|
    ensures FoldUpTo(fold, n).value.findings[i].id !in vetted[n].findings
  {
    hide ValidSubmission, FoldUpTo, KnownOf, AssignedBatch;
    var fs := FoldUpTo(fold, n).value.findings;
    assert ExecutionOf(fold.executions[n], fold.findings, batches, n, vetted[n]);
    FoldKeepsUnique(fold, n);
    if fs[i].id in vetted[n].findings {
      var p :| 0 <= p < |fold.findings| && fold.findings[p].id == fs[i].id;
      FindingsSoFar(fold, batches, vetted, n, p);
    }
  }

  lemma FreshAt(fold: Fold, batches: seq<seq<Unit>>, vetted: seq<Assignment>, p: nat)
    requires RunOf(fold, batches, vetted) && Folded(fold).Ok? && p < |fold.findings|
    ensures p < |Folded(fold).value.findings|
    ensures FreshEvidence(Folded(fold).value.findings[p].history) <==>
      && FreshEvidence(fold.findings[p].history)
      && var sub := ReplayedFor(fold, batches, vetted, p); sub.Some? ==> CitesUnused(fold.findings[p], sub.value)
  {
    hide ValidSubmission, RunOf, Folded, Settle, WellFormed, FreshEvidence, KnownOf, CitesUnused;
    RunShape(fold, batches, vetted);
    OwnSettles(fold, batches, vetted, p);
    var f, sub := fold.findings[p], AcceptedFor(fold, batches, p);
    if sub.Some? {
      var m :| Folded(fold).value.findings[p] == Settle(f, sub.value, m);
      ReplayFreshExactly(f, sub.value, m);
      if ReplayedFor(fold, batches, vetted, p).None? {
        var v :| ValidSubmission(sub.value, v) && (f.id in v.findings ==> v.findings[f.id] == KnownOf(f));
        ReviewCitesUnused(f, sub.value, v);
      }
    }
  }

  /** A run leaves all evidence fresh exactly when every replayed submission
      acknowledges its findings with evidence that is still unused. */
  lemma RunFreshExactly(fold: Fold, batches: seq<seq<Unit>>, vetted: seq<Assignment>)
    requires RunOf(fold, batches, vetted) && Folded(fold).Ok?
    ensures AllFresh(Folded(fold).value.findings) <==>
      && AllFresh(fold.findings)
      && forall p :: 0 <= p < |fold.findings| ==>
           var sub := ReplayedFor(fold, batches, vetted, p); sub.Some? ==> CitesUnused(fold.findings[p], sub.value)
  {
    hide RunOf, FreshEvidence, CitesUnused, ReplayedFor, Good;
    RunShape(fold, batches, vetted);
    RunKeepsRecord(fold);
    var fs := Folded(fold).value.findings;
    forall p | 0 <= p < |fold.findings|
      ensures FreshEvidence(fs[p].history) <==>
        && FreshEvidence(fold.findings[p].history)
        && var sub := ReplayedFor(fold, batches, vetted, p); sub.Some? ==> CitesUnused(fold.findings[p], sub.value)
    {
      FreshAt(fold, batches, vetted, p);
    }
    forall i | |fold.findings| <= i < |fs| ensures FreshEvidence(fs[i].history) {
      NewAreGood(fold, batches, vetted, |batches|, i);
      GoodIsFresh(fs[i]);
    }
  }

  lemma GoodIsFresh(f: Finding)
    requires Good(f)
    ensures FreshEvidence(f.history)
  {
  }

  lemma GoodAt(fold: Fold, batches: seq<seq<Unit>>, vetted: seq<Assignment>, p: nat)
    requires RunOf(fold, batches, vetted) && Folded(fold).Ok? && p < |fold.findings| && Good(fold.findings[p])
    ensures p < |Folded(fold).value.findings|
    ensures Good(Folded(fold).value.findings[p]) <==>
      var sub := ReplayedFor(fold, batches, vetted, p); sub.Some? ==> Careful(fold.findings[p], sub.value)
  {
    hide ValidSubmission, RunOf, Folded, Settle, WellFormed, Recorded, FreshEvidence, KnownOf, Careful;
    RunShape(fold, batches, vetted);
    OwnSettles(fold, batches, vetted, p);
    var f, sub := fold.findings[p], AcceptedFor(fold, batches, p);
    if sub.Some? {
      var m :| Folded(fold).value.findings[p] == Settle(f, sub.value, m);
      SettleGoodExactly(f, sub.value, m);
      if ReplayedFor(fold, batches, vetted, p).None? {
        var v :| ValidSubmission(sub.value, v) && (f.id in v.findings ==> v.findings[f.id] == KnownOf(f));
        ReviewIsCareful(f, sub.value, v);
      }
    }
  }

  /** A run keeps every lifecycle invariant exactly when every replay in it is careful
      with the findings as they are now. A run without replays always does. */
  lemma RunGoodExactly(fold: Fold, batches: seq<seq<Unit>>, vetted: seq<Assignment>)
    requires RunOf(fold, batches, vetted) && AllGood(fold.findings) && Folded(fold).Ok?
    ensures AllGood(Folded(fold).value.findings) <==>
      forall p :: 0 <= p < |fold.findings| ==>
        var sub := ReplayedFor(fold, batches, vetted, p); sub.Some? ==> Careful(fold.findings[p], sub.value)
  {
    hide RunOf, Good, Careful, ReplayedFor;
    RunShape(fold, batches, vetted);
    RunKeepsRecord(fold);
    var fs := Folded(fold).value.findings;
    forall p | 0 <= p < |fold.findings|
      ensures Good(fs[p]) <==>
        var sub := ReplayedFor(fold, batches, vetted, p); sub.Some? ==> Careful(fold.findings[p], sub.value)
    {
      GoodAt(fold, batches, vetted, p);
    }
    forall i | |fold.findings| <= i < |fs| ensures Good(fs[i]) { NewAreGood(fold, batches, vetted, |batches|, i); }
  }

  lemma SyncAt(fold: Fold, batches: seq<seq<Unit>>, vetted: seq<Assignment>, p: nat)
    requires RunOf(fold, batches, vetted) && Folded(fold).Ok? && p < |fold.findings| && InSync(fold.findings[p])
    ensures p < |Folded(fold).value.findings|
    ensures InSync(Folded(fold).value.findings[p]) <==>
      var sub := ReplayedFor(fold, batches, vetted, p); sub.Some? ==> SparesBox(fold.findings[p], sub.value)
  {
    hide ValidSubmission, RunOf, Folded, Settle, WellFormed, InSync, KnownOf, SparesBox;
    RunShape(fold, batches, vetted);
    OwnSettles(fold, batches, vetted, p);
    var f, sub := fold.findings[p], AcceptedFor(fold, batches, p);
    if sub.Some? {
      var m :| Folded(fold).value.findings[p] == Settle(f, sub.value, m);
      ReplaySyncExactly(f, sub.value, m);
      if ReplayedFor(fold, batches, vetted, p).None? {
        var v :| ValidSubmission(sub.value, v) && (f.id in v.findings ==> v.findings[f.id] == KnownOf(f));
        ReviewSparesBox(f, sub.value, v);
      }
    }
  }

  /** A run keeps the findings in step with the boxes of the report it started from
      exactly when its replays spare what a human has acknowledged. */
  lemma RunSyncExactly(fold: Fold, batches: seq<seq<Unit>>, vetted: seq<Assignment>, start: seq<Finding>)
    requires RunOf(fold, batches, vetted) && Folded(fold).Ok?
    requires BoxesInSync(fold.findings, start)
    ensures BoxesInSync(Folded(fold).value.findings, start) <==>
      forall p :: 0 <= p < |start| && start[p].rendered.Some? ==>
        var sub := ReplayedFor(fold, batches, vetted, p); sub.Some? ==> SparesBox(fold.findings[p], sub.value)
  {
    hide RunOf, InSync, SparesBox, ReplayedFor, Recorded;
    RunShape(fold, batches, vetted);
    RunKeepsRecord(fold);
    var fs := Folded(fold).value.findings;
    forall p | 0 <= p < |start| && start[p].rendered.Some?
      ensures InSync(fs[p]) <==>
        var sub := ReplayedFor(fold, batches, vetted, p); sub.Some? ==> SparesBox(fold.findings[p], sub.value)
    {
      SyncAt(fold, batches, vetted, p);
    }
  }

  // ----- Provenance across a run -----

  // Batches are offered repository evidence and the public notes read now.
  predicate OffersKnown(fold: Fold, vetted: seq<Assignment>, now: seq<SourceRecord>)
    requires |vetted| == |fold.executions|
  {
    forall i, id :: 0 <= i < |vetted| && !BatchFailed(fold.executions[i]) && id in vetted[i].sources ==>
      Provenance.IsRepositoryId(id) || id in Provenance.Index(now)
  }

  /** Replayed batches cited only what they had been offered, which the input
      fingerprint they share with this run digests. */
  lemma {:induction false} OfferedByBatches(fold: Fold, vetted: seq<Assignment>, now: seq<SourceRecord>, n: nat)
    requires FoldOk(fold) && n <= |fold.executions| == |vetted|
    requires OffersKnown(fold, vetted, now)
    ensures forall id :: id in Provenance.AllOffered(FoldSteps(fold, vetted, n)) ==>
      Provenance.IsRepositoryId(id) || id in Provenance.Index(now)
  {
    if n > 0 {
      OfferedByBatches(fold, vetted, now, n - 1);
      var steps, front := FoldSteps(fold, vetted, n), FoldSteps(fold, vetted, n - 1);
      if BatchFailed(fold.executions[n - 1]) {
        assert steps == front;
      } else {
        assert steps[..|steps| - 1] == front;
      }
    }
  }

  // ----- Telemetry -----

  lemma FoldOneTelemetry(t: Tally, e: Execution, run: RunId, at: Instant)
    requires FoldOne(t, e, run, at).Ok?
    ensures FoldOne(t, e, run, at).value.telemetry ==
      if e.slot.Some? then Joined(t.telemetry, e.slot.value.reply.telemetry) else t.telemetry
  {
    hide Reconcilable, Reconciled, Joined;
  }

  lemma KeyIsListed(us: seq<UsageEvent>, u: UsageEvent)
    requires u in us
    ensures UsageKey(u) in KeysOf(us, UsageKey)
  {
    var k :| 0 <= k < |us| && us[k] == u;
  }

  // Every usage event a batch reported is counted under its key.
  predicate Counts(t: Telemetry, e: Execution) {
    e.slot.Some? ==> forall u :: u in e.slot.value.reply.telemetry.usage ==> UsageKey(u) in KeysOf(t.usage, UsageKey)
  }

  /** Every usage event of a run is counted, and none twice, whatever was replayed. */
  lemma {:induction false} FoldCountsOnce(fold: Fold, n: nat)
    requires FoldOk(fold) && n <= |fold.executions| && FoldUpTo(fold, n).Ok?
    ensures CountsOnce(FoldUpTo(fold, n).value.telemetry)
    ensures forall i :: 0 <= i < n ==> Counts(FoldUpTo(fold, n).value.telemetry, fold.executions[i])
  {
    hide FoldOne, Joined, UniqueIds;
    if n > 0 {
      FoldCountsOnce(fold, n - 1);
      var t, e := FoldUpTo(fold, n - 1).value, fold.executions[n - 1];
      FoldOneTelemetry(t, e, fold.run, fold.times[n - 1]);
      if e.slot.Some? {
        var more := e.slot.value.reply.telemetry;
        JoinedCountsOnce(t.telemetry, more);
        forall u | u in more.usage ensures UsageKey(u) in KeysOf(more.usage, UsageKey) { KeyIsListed(more.usage, u); }
      }
    }
  }

  predicate UsedModel(e: Execution, x: ModelObservation) {
    e.slot.Some? && x in e.slot.value.reply.telemetry.observed
  }

  predicate RanTool(e: Execution, x: ToolExecution) {
    e.slot.Some? && x in e.slot.value.reply.telemetry.tools
  }

  predicate CountedFully(e: Execution) {
    e.slot.Some? ==> e.slot.value.reply.telemetry.usageComplete
  }

  /** A run has used a model or executed a tool exactly when one of its sessions did,
      and its usage is complete exactly when the usage of all of them is. */
  lemma {:induction false} FoldObserves(fold: Fold, n: nat)
    requires FoldOk(fold) && n <= |fold.executions| && FoldUpTo(fold, n).Ok?
    ensures FoldUpTo(fold, n).value.telemetry.usageComplete <==>
      forall i :: 0 <= i < n ==> CountedFully(fold.executions[i])
    ensures forall x :: x in FoldUpTo(fold, n).value.telemetry.observed <==>
      exists i :: 0 <= i < n && UsedModel(fold.executions[i], x)
    ensures forall x :: x in FoldUpTo(fold, n).value.telemetry.tools <==>
      exists i :: 0 <= i < n && RanTool(fold.executions[i], x)
  {
    hide FoldOne, Joined, UniqueIds;
    if n > 0 {
      FoldObserves(fold, n - 1);
      var t, e := FoldUpTo(fold, n - 1).value, fold.executions[n - 1];
      FoldOneTelemetry(t, e, fold.run, fold.times[n - 1]);
      if e.slot.Some? { JoinedMeans(t.telemetry, e.slot.value.reply.telemetry); }
    }
  }

  // ----- A batch that lacks an enclosing unit -----

  /** What was accepted reported a unit with a requirement as covered only after the
      unit had been retrieved and together with its enclosing unit. */
  predicate CoveredProperly(e: Execution, v: Assignment) {
    !BatchFailed(e) ==>
      forall u :: u in v.requirements && ReportsCovered(SubmissionOf(e).coverage, u) ==>
        && v.requirements[u].retrieved
        && (v.requirements[u].enclosing != "" ==> ReportsCovered(SubmissionOf(e).coverage, v.requirements[u].enclosing))
  }

  lemma VettedIsWhole(e: Execution, v: Assignment)
    requires Vetted(e, v)
    ensures CoveredProperly(e, v)
    ensures !BatchFailed(e) ==> Whole(e.assignment)
  {
    if !BatchFailed(e) {
      ValidIsWhole(SubmissionOf(e), v);
      forall u | u in v.requirements ensures RequirementMet(u, v.requirements[u], SubmissionOf(e).coverage, v.units) {
      }
    }
  }

  /** A run with a batch that lacks the enclosing unit of one of its units is never
      complete, whatever the sessions do. */
  lemma SplitRunIncomplete(fold: Fold, batches: seq<seq<Unit>>, vetted: seq<Assignment>)
    requires RunOf(fold, batches, vetted) && Folded(fold).Ok?
    ensures Folded(fold).value.complete ==> forall e :: e in fold.executions ==> Whole(e.assignment)
  {
    hide Whole, Vetted;
    if Folded(fold).value.complete {
      forall e | e in fold.executions ensures Whole(e.assignment) {
        var i :| 0 <= i < |fold.executions| && fold.executions[i] == e;
        CompleteFold(fold, |batches|, i);
        assert ExecutionOf(fold.executions[i], fold.findings, batches, i, vetted[i]);
        VettedIsWhole(e, vetted[i]);
      }
    }
  }
}
