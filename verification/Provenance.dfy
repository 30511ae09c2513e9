/** Durable provenance: the source records a report keeps, how a run merges and
    prunes them (internal/coordinator), and the publisher's check that nothing a
    retiring report relies on is lost (internal/gitlab/publish.go). */
module Provenance {
  import opened Domain
  import opened Validation
  import opened Reconciliation
  import opened ReportCodec
  import opened Lifecycle
  import opened Ordering

  // Repository evidence ids are generated by the host's analyzer in one namespace.
  const REPOSITORY_PREFIX: string := "src_"

  predicate IsRepositoryId(id: SourceId) {
    REPOSITORY_PREFIX <= id
  }

  // ----- Records by id; a later record shadows an earlier one -----

  function Index(rs: seq<SourceRecord>): (m: map<SourceId, SourceRecord>)
    ensures forall id :: id in m ==> m[id].id == id && m[id] in rs
    ensures forall r :: r in rs ==> r.id in m
  {
    if |rs| == 0 then map[]
    else
      assert rs == rs[..|rs| - 1] + [rs[|rs| - 1]];
      Index(rs[..|rs| - 1])[rs[|rs| - 1].id := rs[|rs| - 1]]
  }

  lemma IndexOneMore(start: map<SourceId, SourceRecord>, rs: seq<SourceRecord>, i: nat)
    requires i < |rs|
    ensures (start + Index(rs[..i]))[rs[i].id := rs[i]] == start + Index(rs[..i + 1])
  {
    assert rs[..i + 1][..i] == rs[..i];
    assert Index(rs[..i + 1]) == Index(rs[..i])[rs[i].id := rs[i]];
  }

  method IndexRecords(rs: seq<SourceRecord>, start: map<SourceId, SourceRecord>)
    returns (byId: map<SourceId, SourceRecord>)
    ensures byId == start + Index(rs)
  {
    byId := start;
    for i := 0 to |rs|
      invariant byId == start + Index(rs[..i])
    {
      IndexOneMore(start, rs, i);
      byId := byId[rs[i].id := rs[i]];
    }
    assert rs[..|rs|] == rs;
  }

  lemma {:induction false} IndexOfDistinct(rs: seq<SourceRecord>, r: SourceRecord)
    requires DistinctRecords(rs) && r in rs
    ensures Index(rs)[r.id] == r
  {
    var front, last := rs[..|rs| - 1], rs[|rs| - 1];
    assert rs == front + [last];
    if r != last { IndexOfDistinct(front, r); }
  }

  // ----- Sorting by id -----

  function RecordName(r: SourceRecord): string {
    r.id
  }

  predicate SortedRecords(rs: seq<SourceRecord>) {
    SortedByName(rs, RecordName)
  }

  // ----- Merging freshly read records into the stored ones -----

  /** The records of a run before pruning: what was read now replaces what was stored. */
  function Merged(stored: seq<SourceRecord>, now: seq<SourceRecord>): map<SourceId, SourceRecord> {
    Index(stored) + Index(now)
  }

  // The sequence holds exactly the records of the map.
  predicate Lists(rs: seq<SourceRecord>, m: map<SourceId, SourceRecord>) {
    && (forall r :: r in rs ==> r.id in m && m[r.id] == r)
    && (forall id :: id in m ==> m[id] in rs)
  }

  method SortedValues(byId: map<SourceId, SourceRecord>) returns (result: seq<SourceRecord>)
    requires forall id :: id in byId ==> byId[id].id == id
    ensures SortedRecords(result) && Lists(result, byId)
  {
    result := [];
    var rest := byId.Keys;
    while rest != {}
      invariant rest <= byId.Keys
      invariant SortedRecords(result)
      invariant forall r :: r in result ==> r.id in byId && r.id !in rest && byId[r.id] == r
      invariant forall id :: id in byId && id !in rest ==> byId[id] in result
      decreases |rest|
    {
      var id :| id in rest;
      InsertSortsByName(result, byId[id], RecordName);
      result := InsertByName(result, byId[id], RecordName);
      rest := rest - {id};
    }
  }

  method MergeSourceRecords(stored: seq<SourceRecord>, now: seq<SourceRecord>) returns (result: seq<SourceRecord>)
    ensures SortedRecords(result) && Lists(result, Merged(stored, now))
  {
    var byId := IndexRecords(stored, map[]);
    byId := IndexRecords(now, byId);
    assert byId == Merged(stored, now);
    result := SortedValues(byId);
  }

  /** A record read now is in the merged ones; a stored one is exactly if none was read now under
      its id, and no other record is. */
  lemma MergedExactly(rs: seq<SourceRecord>, stored: seq<SourceRecord>, now: seq<SourceRecord>)
    requires Lists(rs, Merged(stored, now)) && DistinctRecords(stored) && DistinctRecords(now)
    ensures forall r :: r in rs <==> r in now || (r in stored && forall n :: n in now ==> n.id != r.id)
  {
    forall r | r in stored ensures Index(stored)[r.id] == r { IndexOfDistinct(stored, r); }
    forall r | r in now ensures Index(now)[r.id] == r { IndexOfDistinct(now, r); }
    hide DistinctRecords, Index;
    forall r ensures r in rs <==> r.id in Merged(stored, now) && Merged(stored, now)[r.id] == r {}
  }

  lemma SortedAreDistinct(rs: seq<SourceRecord>)
    requires SortedRecords(rs)
    ensures DistinctRecords(rs)
  {
    forall i, j | 0 <= i < j < |rs| ensures rs[i].id != rs[j].id {
      assert Less(RecordName(rs[i]), RecordName(rs[j]));
      LessAsymmetric(rs[i].id, rs[j].id);
    }
  }

  // ----- Pruning to what the findings cite -----

  function Keep(rs: seq<SourceRecord>, ids: set<SourceId>): seq<SourceRecord> {
    if |rs| == 0 then []
    else Keep(rs[..|rs| - 1], ids) + if rs[|rs| - 1].id in ids then [rs[|rs| - 1]] else []
  }

  method FindingSourceIds(fs: seq<Finding>) returns (ids: set<SourceId>)
    ensures ids == AllRefs(fs)
  {
    ids := {};
    for i := 0 to |fs|
      invariant ids == AllRefs(fs[..i])
    {
      var f := fs[i];
      ghost var before := ids;
      for k := 0 to |f.evidence|
        invariant ids == before + EvidenceRefSet(f.evidence[..k])
      {
        assert f.evidence[..k + 1] == f.evidence[..k] + [f.evidence[k]];
        ids := ids + SetOf(f.evidence[k].refs);
      }
      assert f.evidence[..|f.evidence|] == f.evidence;
      if f.ack.Some? { ids := ids + SetOf(f.ack.value.refs); }
      ghost var cited := ids;
      for k := 0 to |f.history|
        invariant ids == cited + HistoryRefSet(f.history[..k])
      {
        assert f.history[..k + 1] == f.history[..k] + [f.history[k]];
        ids := ids + SetOf(f.history[k].refs);
      }
      assert f.history[..|f.history|] == f.history;
      assert ids == before + FindingRefSet(f);
      AllRefsAppend(fs[..i], f);
      assert fs[..i + 1] == fs[..i] + [f];
    }
    assert fs[..|fs|] == fs;
  }

  lemma AllRefsAppend(fs: seq<Finding>, f: Finding)
    ensures AllRefs(fs + [f]) == AllRefs(fs) + FindingRefSet(f)
  {
    var all := fs + [f];
    assert forall x :: x in all <==> x in fs || x == f;
  }

  method ReferencedSourceRecords(fs: seq<Finding>, available: seq<SourceRecord>) returns (result: seq<SourceRecord>)
    ensures result == Keep(available, AllRefs(fs))
  {
    var references := FindingSourceIds(fs);
    result := [];
    for i := 0 to |available|
      invariant result == Keep(available[..i], references)
    {
      assert available[..i + 1][..i] == available[..i];
      if available[i].id in references { result := result + [available[i]]; }
    }
    assert available[..|available|] == available;
  }

  lemma {:induction false} KeepIndex(rs: seq<SourceRecord>, ids: set<SourceId>)
    requires DistinctRecords(rs)
    ensures forall r :: r in Keep(rs, ids) <==> r in rs && r.id in ids
    ensures DistinctRecords(Keep(rs, ids))
  {
    if |rs| > 0 {
      var front, last := rs[..|rs| - 1], rs[|rs| - 1];
      assert rs == front + [last];
      KeepIndex(front, ids);
      forall r | r in Keep(front, ids) ensures r.id != last.id { assert r in front; }
    }
  }

  // ----- The kinds of source the publisher is told -----

  function KindOf(id: SourceId, captured: map<SourceId, SourceRef>, sources: seq<SourceRecord>, cited: set<SourceId>)
    : Option<SourceKind>
  {
    if id in Index(sources) then Some(Index(sources)[id].kind)
    else if id in captured then Some(captured[id].kind)
    else if id in cited && IsRepositoryId(id) then Some(RepositorySource)
    else None
  }

  /** The kind a stored record gives comes first, then what was captured, then what the id of a
      cited source says; of nothing else is the kind told. */
  lemma KindsExactly(id: SourceId, captured: map<SourceId, SourceRef>, sources: seq<SourceRecord>,
                     cited: set<SourceId>)
    requires DistinctRecords(sources)
    ensures forall r :: r in sources && r.id == id ==> KindOf(id, captured, sources, cited) == Some(r.kind)
    ensures (forall r :: r in sources ==> r.id != id) ==>
      && (id in captured ==> KindOf(id, captured, sources, cited) == Some(captured[id].kind))
      && (id !in captured && id in cited && "src_" <= id ==>
            KindOf(id, captured, sources, cited) == Some(RepositorySource))
      && (id !in captured && !(id in cited && "src_" <= id) ==> KindOf(id, captured, sources, cited) == None)
  {
    forall r | r in sources && r.id == id ensures Index(sources)[id] == r { IndexOfDistinct(sources, r); }
  }

  method PublicationSourceKinds(s: State, captured: map<SourceId, SourceRef>) returns (kinds: map<SourceId, SourceKind>)
    ensures forall id ::
      (if id in kinds then Some(kinds[id]) else None) == KindOf(id, captured, s.sources, AllRefs(s.findings))
  {
    hide AllRefs;
    kinds := map id | id in captured :: captured[id].kind;
    var rs := s.sources;
    for i := 0 to |rs|
      invariant forall id :: (if id in kinds then Some(kinds[id]) else None) == KindOf(id, captured, rs[..i], {})
    {
      assert rs[..i + 1][..i] == rs[..i];
      kinds := kinds[rs[i].id := rs[i].kind];
    }
    assert rs[..|rs|] == rs;
    var cited := FindingSourceIds(s.findings);
    var rest := cited;
    ghost var before := kinds;
    while rest != {}
      invariant rest <= cited
      invariant forall id :: id in before ==> id in kinds && kinds[id] == before[id]
      invariant forall id :: id in kinds && id !in before ==>
        id in cited && IsRepositoryId(id) && kinds[id] == RepositorySource
      invariant forall id :: id in cited && id !in rest && IsRepositoryId(id) ==> id in kinds
      decreases |rest|
    {
      var id :| id in rest;
      if id !in kinds && IsRepositoryId(id) { kinds := kinds[id := RepositorySource]; }
      rest := rest - {id};
    }
  }

  // ----- The publisher's retention check -----

  predicate IsRepositoryKind(k: SourceKind) {
    k in {RepositorySource, RepositoryDiff, RepositorySearch, RepositoryAST}
  }

  predicate RefRetained(ref: SourceId, previous: State, successor: State, kinds: map<SourceId, SourceKind>) {
    if ref in Index(previous.sources) then
      ref in Index(successor.sources) && Index(successor.sources)[ref] == Index(previous.sources)[ref]
    else
      ref in kinds && IsRepositoryKind(kinds[ref])
  }

  /** Nothing a retiring report cites may lose its record or change it. */
  predicate Retained(previous: State, successor: State, kinds: map<SourceId, SourceKind>) {
    forall ref :: ref in AllRefs(previous.findings) ==> RefRetained(ref, previous, successor, kinds)
  }

  method ValidateRetainedSourceRecords(previous: State, successor: State, kinds: map<SourceId, SourceKind>)
    returns (ok: bool)
    ensures ok <==> Retained(previous, successor, kinds)
  {
    var previousRecords := IndexRecords(previous.sources, map[]);
    var successorRecords := IndexRecords(successor.sources, map[]);
    assert previousRecords == Index(previous.sources) && successorRecords == Index(successor.sources);
    var refs := FindingSourceIds(previous.findings);
    var rest := refs;
    while rest != {}
      invariant rest <= refs
      invariant forall ref :: ref in refs && ref !in rest ==> RefRetained(ref, previous, successor, kinds)
      decreases |rest|
    {
      var ref :| ref in rest;
      if ref !in previousRecords {
        if ref !in kinds || !IsRepositoryKind(kinds[ref]) { return false; }
      } else {
        if ref !in successorRecords { return false; }
        if successorRecords[ref] != previousRecords[ref] { return false; }
      }
      rest := rest - {ref};
    }
    return true;
  }

  // ----- What a run may cite -----

  // The sources a step makes available to the findings.
  function Offered(step: Step): set<SourceId> {
    match step
    case Review(_, a, _) => a.sources.Keys
    case Replay(_, a, _) => a.sources.Keys
    case Edit(_, xs, _) => set x | x in xs :: x.ref
    case Store => {}
  }

  lemma RefsWithin(f: Finding)
    requires CitesHistory(f)
    ensures FindingRefSet(f) == HistoryRefSet(f.history)
  {
  }

  lemma SettleCites(f: Finding, sub: Submission, a: Assignment, m: Metadata)
    requires CitesHistory(f) && ValidSubmission(sub, a)
    ensures HistoryRefSet(f.history) <= HistoryRefSet(Settle(f, sub, m).history)
    ensures HistoryRefSet(Settle(f, sub, m).history) <= HistoryRefSet(f.history) + a.sources.Keys
  {
    SettleIsChange(f, sub, m);
    var r, t := FindReassessment(sub.reassessments, f.id), FindTransition(sub.transitions, f.id);
    var g := if r.Some? then Reassess(f, r.value, m) else f;
    if r.Some? {
      assert ValidReassessment(r.value, a);
      EvidenceRefsExact(r.value.evidence);
      HistoryRefsAppend(f.history, g.history[|f.history|]);
    }
    if t.Some? {
      assert ValidTransition(t.value, sub.reassessments, a);
      var k := Transit(g, t.value, m);
      forall id | id in t.value.refs ensures id in a.sources {
        assert SupportsTransition(id, t.value, a.findings[t.value.finding], r, a.sources);
      }
      HistoryRefsAppend(g.history, k.history[|g.history|]);
    }
  }

  lemma CreatedCites(s: SubmittedFinding, id: FindingId, m: Metadata, sources: map<SourceId, SourceRef>)
    requires EvidenceKnown(s.evidence, sources)
    ensures HistoryRefSet(FreshFinding(s, id, m).history) <= sources.Keys
  {
    var h := FreshFinding(s, id, m).history;
    EvidenceRefsExact(s.evidence);
    HistoryRefsAppend([], h[0]);
    assert h == [] + [h[0]];
  }

  lemma EditCites(f: Finding, r: Report, xs: seq<Interaction>, at: Instant)
    ensures HistoryRefSet(f.history) <= HistoryRefSet(ControlledAt(f, r, xs, at).history)
    ensures HistoryRefSet(ControlledAt(f, r, xs, at).history) <= HistoryRefSet(f.history) + Offered(Edit(r, xs, at))
  {
    var g := ControlledAt(f, r, xs, at);
    if g != f { HistoryRefsAppend(f.history, g.history[|f.history|]); }
  }

  // The citations of position `i` after one step.
  lemma StepCites(fs: seq<Finding>, step: Step, i: nat)
    requires AllRecorded(fs) && Applicable(fs, step) && i < |Apply(fs, step)|
    ensures HistoryRefSet(Apply(fs, step)[i].history) <=
      (if i < |fs| then HistoryRefSet(fs[i].history) else {}) + Offered(step)
    ensures i < |fs| ==> HistoryRefSet(fs[i].history) <= HistoryRefSet(Apply(fs, step)[i].history)
  {
    if step.Edit? {
      EditCites(fs[i], step.report, step.interactions, step.at);
    } else if step.Store? {
      StoreIsRecorded(fs[i]);
    } else if i < |fs| {
      PriorSettled(fs, step.sub, step.meta, i);
      SettleCites(fs[i], step.sub, step.assignment, step.meta);
    } else {
      CreatedAt(fs, step.sub, step.assignment, step.meta, i);
      var k: nat :| CreatedFrom(Apply(fs, step)[i], step.sub, step.meta, k);
      CreatedCites(step.sub.findings[k], step.meta.newIds[k], step.meta, step.assignment.sources);
    }
  }

  lemma RefsAt(fs: seq<Finding>, i: nat)
    requires i < |fs| && Recorded(fs[i])
    ensures HistoryRefSet(fs[i].history) <= AllRefs(fs)
  {
    assert fs[i] in fs;
    forall id | id in HistoryRefSet(fs[i].history) ensures id in AllRefs(fs) {
      assert id in FindingRefSet(fs[i]);
    }
  }

  lemma RefsFrom(fs: seq<Finding>, id: SourceId)
    requires AllRecorded(fs) && id in AllRefs(fs)
    ensures exists i :: 0 <= i < |fs| && id in HistoryRefSet(fs[i].history)
  {
    var f :| f in fs && id in FindingRefSet(f);
    var i :| 0 <= i < |fs| && fs[i] == f;
    RefsWithin(fs[i]);
  }

  lemma StepRefs(fs: seq<Finding>, step: Step)
    requires AllRecorded(fs) && Applicable(fs, step)
    ensures AllRefs(fs) <= AllRefs(Apply(fs, step)) <= AllRefs(fs) + Offered(step)
  {
    hide Applicable, AllRefs, HistoryRefSet, Recorded, Offered;
    var gs := Apply(fs, step);
    StepKeepsRecord(fs, step);
    StepExtends(fs, step);
    forall id | id in AllRefs(fs) ensures id in AllRefs(gs) {
      RefsFrom(fs, id);
      var i :| 0 <= i < |fs| && id in HistoryRefSet(fs[i].history);
      StepCites(fs, step, i);
      RefsAt(gs, i);
    }
    forall id | id in AllRefs(gs) ensures id in AllRefs(fs) + Offered(step) {
      RefsFrom(gs, id);
      var i :| 0 <= i < |gs| && id in HistoryRefSet(gs[i].history);
      StepCites(fs, step, i);
      if i < |fs| { RefsAt(fs, i); }
    }
  }

  function AllOffered(steps: seq<Step>): set<SourceId> {
    if |steps| == 0 then {} else AllOffered(steps[..|steps| - 1]) + Offered(steps[|steps| - 1])
  }

  /** A run, replays included, forgets no citation and adds only what its steps offered. */
  lemma {:induction false} RunRefs(start: seq<Finding>, steps: seq<Step>)
    requires AllRecorded(start) && ValidRun(start, steps)
    ensures AllRefs(start) <= AllRefs(After(start, steps)) <= AllRefs(start) + AllOffered(steps)
  {
    if |steps| > 0 {
      var front := steps[..|steps| - 1];
      RunRefs(start, front);
      RunsKeepRecord(start, front);
      StepRefs(After(start, front), steps[|steps| - 1]);
    }
  }

  predicate HasRecord(rs: seq<SourceRecord>, id: SourceId) {
    exists r :: r in rs && r.id == id
  }

  /** Exactly when a report may be retired: of everything it cites, what it has a record of
      has that very record in the successor, and the rest is evidence from the repository. */
  lemma RetainedExactly(previous: State, successor: State, kinds: map<SourceId, SourceKind>)
    requires DistinctRecords(previous.sources) && DistinctRecords(successor.sources)
    ensures Retained(previous, successor, kinds) <==> forall ref :: ref in AllRefs(previous.findings) ==>
      && (forall r :: r in previous.sources && r.id == ref ==> r in successor.sources)
      && (!HasRecord(previous.sources, ref) ==>
            ref in kinds && kinds[ref] in {RepositorySource, RepositoryDiff, RepositorySearch, RepositoryAST})
  {
    forall ref ensures RefRetained(ref, previous, successor, kinds) <==>
      && (forall r :: r in previous.sources && r.id == ref ==> r in successor.sources)
      && (!HasRecord(previous.sources, ref) ==>
            ref in kinds && kinds[ref] in {RepositorySource, RepositoryDiff, RepositorySearch, RepositoryAST})
    {
      forall r | r in previous.sources ensures Index(previous.sources)[r.id] == r {
        IndexOfDistinct(previous.sources, r);
      }
      forall r | r in successor.sources ensures Index(successor.sources)[r.id] == r {
        IndexOfDistinct(successor.sources, r);
      }
    }
  }

  // ----- Durable states -----

  /** Every citation outside the repository namespace has a record, and no record
      claims a repository id. */
  predicate Durable(s: State) {
    && DistinctRecords(s.sources)
    && (forall r :: r in s.sources ==> !IsRepositoryId(r.id))
    && (forall ref :: ref in AllRefs(s.findings) ==> IsRepositoryId(ref) || ref in Index(s.sources))
  }

  // What was read now agrees with what the prior report had stored and cites.
  predicate RereadAgrees(prior: State, now: seq<SourceRecord>) {
    forall ref :: ref in AllRefs(prior.findings) && ref in Index(prior.sources) && ref in Index(now) ==>
      Index(now)[ref] == Index(prior.sources)[ref]
  }

  lemma PrunedIndex(prior: State, now: seq<SourceRecord>, merged: seq<SourceRecord>, cited: set<SourceId>)
    requires SortedRecords(merged)
    requires Lists(merged, Merged(prior.sources, now))
    ensures var kept := Keep(merged, cited);
      && DistinctRecords(kept)
      && (forall r :: r in kept ==> r.id in Merged(prior.sources, now) && r.id in cited)
      && (forall id :: id in Index(kept) <==> id in Merged(prior.sources, now) && id in cited)
      && (forall id :: id in Index(kept) ==> Index(kept)[id] == Merged(prior.sources, now)[id])
  {
    SortedAreDistinct(merged);
    KeepIndex(merged, cited);
    var kept := Keep(merged, cited);
    var all := Merged(prior.sources, now);
    forall id | id in all && id in cited ensures id in Index(kept) && Index(kept)[id] == all[id] {
      assert all[id].id == id;
      assert all[id] in merged;
      IndexOfDistinct(kept, all[id]);
    }
  }

  /** From a durable report, through any run, replays included, whose steps offer
      only repository evidence and freshly read notes: the pruned successor is durable again, and
      it passes the publisher's retention check exactly when the reread notes
      still say what the report had stored. */
  lemma RunRetainsProvenance(prior: State, now: seq<SourceRecord>, merged: seq<SourceRecord>, steps: seq<Step>,
                             successor: State, captured: map<SourceId, SourceRef>, kinds: map<SourceId, SourceKind>)
    requires Durable(prior) && AllRecorded(prior.findings)
    requires forall r :: r in now ==> !IsRepositoryId(r.id)
    requires ValidRun(prior.findings, steps)
    requires forall id :: id in AllOffered(steps) ==> IsRepositoryId(id) || id in Index(now)
    requires SortedRecords(merged)
    requires Lists(merged, Merged(prior.sources, now))
    requires successor.findings == After(prior.findings, steps)
    requires successor.sources == Keep(merged, AllRefs(successor.findings))
    requires forall id :: id in captured ==> !IsRepositoryId(id)
    requires forall id ::
      (if id in kinds then Some(kinds[id]) else None) ==
      KindOf(id, captured, successor.sources, AllRefs(successor.findings))
    ensures Durable(successor)
    ensures Retained(prior, successor, kinds) <==> RereadAgrees(prior, now)
  {
    RunRefs(prior.findings, steps);
    var cited := AllRefs(successor.findings);
    PrunedIndex(prior, now, merged, cited);
    forall ref | ref in AllRefs(prior.findings)
      ensures RefRetained(ref, prior, successor, kinds) <==>
        (ref in Index(prior.sources) && ref in Index(now) ==> Index(now)[ref] == Index(prior.sources)[ref])
    {
      if ref !in Index(prior.sources) {
        assert IsRepositoryId(ref) && ref in cited;
        assert KindOf(ref, captured, successor.sources, cited) == Some(RepositorySource);
      }
    }
  }
}
