/** Inputs on which replaying a checkpoint (reviewBatches,
    internal/coordinator/coordinator.go) does what a validated submission cannot. A
    first run of an input has one session for three batches: it accepts and stores
    the batch of its one finding, skips the others and so ends partial. When the same
    input comes up again, the run loads the checkpoint, which is keyed by units and
    finding ids alone, and reconciles it unseen. Every run below goes from planning to
    the fold, and every report is stored before it is recovered. */
module Replays {
  import opened Domain
  import opened Validation
  import opened Reconciliation
  import opened ReportCodec
  import opened Lifecycle
  import opened Planner
  import opened Merging
  import opened Executor
  import opened Coordinator
  import opened Approval
  import Ordering
  import Retrieval

  // ----- The inputs -----

  const INVENTORY := [Unit("u", ""), Unit("v", "")]

  // The unit the host adds when one session cannot hold the inventory.
  function HostOf(fingerprint: string): Unit
    requires |fingerprint| >= 19
  {
    HostUnit("integration:", fingerprint, "cross-batch integration")
  }

  function BatchesOf(fingerprint: string): seq<seq<Unit>>
    requires |fingerprint| >= 19
  {
    [[Unit("u", "")], [Unit("v", "")], [HostOf(fingerprint)]]
  }

  /** One run: the fingerprint and the public notes of its input, its id and its time. */
  datatype Turn = Turn(fingerprint: string, notes: map<SourceId, SourceRef>, run: RunId, at: Instant)

  predicate Real(turn: Turn) {
    |turn.fingerprint| >= 19 && turn.run != "" && turn.at != 0 && DIFF !in turn.notes
  }

  predicate SameInput(one: Turn, other: Turn) {
    one.fingerprint == other.fingerprint && one.notes == other.notes
  }

  // One unit to a session and one session to a run; `checkpoints` is what earlier runs
  // of this input have stored.
  function InputAt(turn: Turn, checkpoints: map<BatchKey, Checkpoint>, ask: Assignment -> SessionEnd): Input {
    Input(Capture(INVENTORY, [], map[], turn.notes, [], "snapshot", turn.fingerprint), Config(1, 1, 1, {}),
          checkpoints, ask, turn.run, _ => turn.at)
  }

  lemma PlannedBatches(f: Finding, fingerprint: string)
    requires |fingerprint| >= 19
    ensures PlannedUnits(INVENTORY, [f], 1, fingerprint) == INVENTORY + [HostOf(fingerprint)]
    ensures Batches(PlannedUnits(INVENTORY, [f], 1, fingerprint), map[], 1) == Some(BatchesOf(fingerprint))
  {
    var u, v, host := Unit("u", ""), Unit("v", ""), HostOf(fingerprint);
    assert Ordering.Less(u.id, v.id);
    assert Ordering.SortedByName(INVENTORY, UnitName);
    Ordering.SortByNameIdentity(INVENTORY, UnitName);
    assert PlannedUnits(INVENTORY, [f], 1, fingerprint) == [u, v, host];
    assert |host.id| > 1;
    OneEach(u, v, host);
  }

  // What is submitted about the batch of the one finding.
  predicate OneBatch(sub: Submission) {
    && sub.findings == [] && sub.completion == Complete && sub.coverage == [UnitCoverage("u", Covered)]
    && (forall r :: r in sub.reassessments ==> r.finding == "f")
    && (forall t :: t in sub.transitions ==> t.finding == "f")
  }

  type Answer = sub: Submission | OneBatch(sub)
    witness Submission(Approved, Complete, [], [], [], [UnitCoverage("u", Covered)])

  function ReplyOf(sub: Answer): Reply
  {
    Reply(Some(Accepted(sub, [])), NO_TELEMETRY)
  }

  function StoredBy(sub: Answer): map<BatchKey, Checkpoint>
  {
    map[BatchKey({"u"}, {"f"}) := Saved(ReplyOf(sub))]
  }

  // Every session answers with this submission, or every session fails.
  function Answering(sub: Answer): Assignment -> SessionEnd
  {
    _ => SessionEnd(ReplyOf(sub), false, true)
  }

  function Failing(): Assignment -> SessionEnd {
    _ => SessionEnd(Reply(None, NO_TELEMETRY), true, false)
  }

  // ----- What a run makes of the finding -----

  predicate Leaves(f: Finding, input: Input, after: Finding)
    requires InputOk(input)
  {
    var r := ReviewOf([f], input);
    r.Ok? && !r.value.complete && r.value.findings == [after]
  }

  /** A session is asked about the finding, answers with this submission, and the run ends
      partial with the finding `after`. */
  predicate AskedTo(f: Finding, turn: Turn, sub: Answer, after: Finding)
    requires Real(turn)
  {
    Leaves(f, InputAt(turn, map[], Answering(sub)), after)
  }

  /** The stored submission is loaded in place of a session, although every session of
      this run fails, and the run ends partial with the finding `after`. */
  predicate ReplaysTo(f: Finding, turn: Turn, sub: Answer, after: Finding)
    requires Real(turn)
  {
    Leaves(f, InputAt(turn, StoredBy(sub), Failing()), after)
  }

  // What the first session is asked.
  function AskedAbout(f: Finding, notes: map<SourceId, SourceRef>): Assignment {
    Assignment({"u"}, map[], map["f" := KnownOf(f)], notes)
  }

  lemma AssignmentsOf(f: Finding, fingerprint: string, input: Input)
    requires f.id == "f" && f.units == ["u"] && |fingerprint| >= 19 && input.capture.needs == map[]
    ensures var s := SceneOf([f], BatchesOf(fingerprint), input);
      AssignmentFor(s, 0) == AskedAbout(f, input.capture.sources)
      && KeyOf(AssignmentFor(s, 0)) == BatchKey({"u"}, {"f"})
      && KeyOf(AssignmentFor(s, 1)) == BatchKey({"v"}, {})
      && KeyOf(AssignmentFor(s, 2)) == BatchKey({HostOf(fingerprint).id}, {})
  {
    var bs := BatchesOf(fingerprint);
    UnitIdsOfOne(bs[0][0]);
    UnitIdsOfOne(bs[1][0]);
    UnitIdsOfOne(bs[2][0]);
    assert |HostOf(fingerprint).id| > 1;
    assert bs[..2][..1] == [bs[0]] && bs[..1] == [bs[0]];
    assert BatchOfUnit(bs[..1], "u") == Some(0);
    assert BatchOfUnit(bs[..2], "u") == Some(0);
    assert BatchOfUnit(bs, "u") == Some(0);
    assert AssignedBatch(f.units, bs) == 0;
    assert [f][0].id == "f";
    assert FindingsOf([f], bs, 0) == map["f" := KnownOf(f)];
    assert map["f" := KnownOf(f)].Keys == {"f"};
  }

  // The first batch accepted with `sub`, the others failed or skipped.
  lemma FoldsTo(f: Finding, sub: Answer, fold: Fold)
    requires f.id == "f" && FoldOk(fold) && fold.findings == [f] && |fold.executions| == 3
    requires fold.run != "" && fold.times[0] != 0
    requires fold.executions[0].slot == Some(SessionEnd(ReplyOf(sub), false, true))
    requires BatchFailed(fold.executions[1]) && BatchFailed(fold.executions[2])
    ensures Folded(fold).Ok? && !Folded(fold).value.complete
    ensures Folded(fold).value.findings == [Settle(f, sub, Metadata(fold.run, fold.times[0], map[], []))]
  {
    var m := Metadata(fold.run, fold.times[0], map[], []);
    assert [f][0].id == "f";
    assert FindingIds([f]) == {"f"};
    assert CreatedUpTo(sub, m, 0) == [];
    assert MetadataOf(fold.run, fold.times[0], AcceptanceOf(fold.executions[0])) == m;
    NoMatchesNoRestate(f, sub, m, 0);
    assert FoldUpTo(fold, 0).Ok?;
    assert FoldUpTo(fold, 1).Ok? && FoldUpTo(fold, 1).value.findings == [Settle(f, sub, m)];
    assert FoldUpTo(fold, 2).Ok? && FoldUpTo(fold, 2).value.findings == [Settle(f, sub, m)];
    assert FoldUpTo(fold, 3).Ok? && FoldUpTo(fold, 3).value.findings == [Settle(f, sub, m)];
  }

  // Only the batch of the finding may have a checkpoint.
  lemma StoredForEach(f: Finding, fingerprint: string, input: Input)
    requires f.id == "f" && f.units == ["u"] && |fingerprint| >= 19 && input.capture.needs == map[]
    requires input.checkpoints.Keys <= {BatchKey({"u"}, {"f"})}
    ensures var s := SceneOf([f], BatchesOf(fingerprint), input);
      && StoredFor(s, 0) == Load(input.checkpoints, BatchKey({"u"}, {"f"}))
      && StoredFor(s, 1) == Ok(None) && StoredFor(s, 2) == Ok(None)
  {
    hide AssignmentFor, AskedAbout;
    AssignmentsOf(f, fingerprint, input);
    assert |HostOf(fingerprint).id| > 1;
  }

  // The slots of the three batches once the sessions have ended.
  lemma SlotsOf(f: Finding, fingerprint: string, input: Input)
    requires f.id == "f" && f.units == ["u"] && |fingerprint| >= 19
    requires input.capture.needs == map[] && input.config.maxSessions == 1
    requires input.checkpoints.Keys <= {BatchKey({"u"}, {"f"})}
    requires Load(input.checkpoints, BatchKey({"u"}, {"f"})).Ok?
    ensures var s := SceneOf([f], BatchesOf(fingerprint), input);
      var stored := Load(input.checkpoints, BatchKey({"u"}, {"f"})).value;
      && PlanOf(s, 3).Ok?
      && PlanOf(s, 3).value.run == (if stored.None? then [true, false, false] else [false, true, false])
      && PlanOf(s, 3).value.slots == [ReplaySlot(stored), None, None]
      && PlanOf(s, 3).value.assignments == [AssignmentFor(s, 0), AssignmentFor(s, 1), AssignmentFor(s, 2)]
  {
    hide AssignmentFor, KeyOf, Load, StoredFor, PlanOf;
    StoredForEach(f, fingerprint, input);
    var s := SceneOf([f], BatchesOf(fingerprint), input);
    var p := PlanOf(s, 3).value;
    assert PlannedAt(p, s, 0) && PlannedAt(p, s, 1) && PlannedAt(p, s, 2);
    assert p.run[..0] == [] && p.run[..1] == [p.run[0]] && p.run[..2] == [p.run[0], p.run[1]];
    assert Runnable([p.run[0]]) == if p.run[0] then 1 else 0;
    assert [p.run[0], p.run[1]][..1] == [p.run[0]];
  }

  // The submission about the batch of the finding comes from a session or a checkpoint.
  ghost predicate Brings(input: Input, fingerprint: string, sub: Answer)
  {
    && input.capture.inventory == INVENTORY && input.capture.needs == map[]
    && input.capture.fingerprint == fingerprint && input.config.maxUnits == 1
    && input.config.maxSessions == 1 && input.config.maxConcurrency == 1
    && input.run != "" && input.clock(0) != 0
    && ((input.checkpoints == map[] && input.ask == Answering(sub)) ||
        (input.checkpoints == StoredBy(sub) && input.ask == Failing()))
  }

  // The sessions have ended: the finding's batch is accepted with `sub`, the others are not.
  lemma TracedTo(f: Finding, fingerprint: string, input: Input, sub: Answer)
    requires f.id == "f" && f.units == ["u"] && |fingerprint| >= 19 && Brings(input, fingerprint, sub)
    ensures TraceOf([f], input).Ok?
    ensures var fold := TraceOf([f], input).value.fold;
      && FoldOk(fold) && fold.findings == [f] && |fold.executions| == 3
      && fold.run == input.run && fold.times[0] == input.clock(0)
      && fold.executions[0].slot == Some(SessionEnd(ReplyOf(sub), false, true))
      && BatchFailed(fold.executions[1]) && BatchFailed(fold.executions[2])
  {
    hide AssignmentFor, SceneOf, PlannedUnits, Batches, PlanOf;
    PlannedBatches(f, fingerprint);
    SlotsOf(f, fingerprint, input);
  }

  lemma LeavesSettled(f: Finding, fingerprint: string, input: Input, sub: Answer)
    requires f.id == "f" && f.units == ["u"] && |fingerprint| >= 19 && Brings(input, fingerprint, sub)
    ensures Leaves(f, input, Settle(f, sub, Metadata(input.run, input.clock(0), map[], [])))
  {
    hide TraceOf, Folded, Settle, BatchFailed, ReplyOf;
    TracedTo(f, fingerprint, input, sub);
    FoldsTo(f, sub, TraceOf([f], input).value.fold);
  }

  // What reconciling a submission in this run makes of the finding.
  function Next(f: Finding, sub: Submission, turn: Turn): Finding {
    Settle(f, sub, Metadata(turn.run, turn.at, map[], []))
  }

  /** A first run of an input asks about the finding, a later one replays the answer,
      and either reconciles it. */
  lemma AskedAndReplayed(f: Finding, turn: Turn, sub: Answer)
    requires f.id == "f" && f.units == ["u"] && Real(turn)
    ensures AskedTo(f, turn, sub, Next(f, sub, turn))
    ensures ReplaysTo(f, turn, sub, Next(f, sub, turn))
  {
    hide Leaves, StoredBy, Answering, Failing, HostOf, Settle;
    LeavesSettled(f, turn.fingerprint, InputAt(turn, map[], Answering(sub)), sub);
    LeavesSettled(f, turn.fingerprint, InputAt(turn, StoredBy(sub), Failing()), sub);
  }

  // ----- The prior finding and what is submitted about it -----

  // The part of the change a session reads and registers as evidence.
  const DIFF: SourceId := "src_1"

  function SnapshotOf(a: Assignment): Assignment {
    a.(sources := a.sources[DIFF := SourceRef(RepositoryDiff, false, "", false)])
  }

  // What the session of this run may submit about the finding, once it has read the change.
  predicate Submittable(f: Finding, turn: Turn, sub: Submission) {
    var asked := AskedAbout(f, turn.notes);
    Retrieval.Grew(asked, SnapshotOf(asked)) && ValidSubmission(sub, SnapshotOf(asked)) && SchemaOk(sub)
  }

  const SUBMITTED := SubmittedFinding(
    "key", Risk, Security, Introduced, "title", "text", [Evidence("seen", ["src_0"], [])], ["u"])

  // The finding as a stored report holds it.
  const PRIOR := CanonicalFinding(FreshFinding(SUBMITTED, "f", Metadata("run_0", 1, map[], [])))

  lemma PriorIsOpen()
    ensures PRIOR.id == "f" && PRIOR.units == ["u"] && PRIOR.state == Open
    ensures Consumed(PRIOR.history) == {} && FreshEvidence(PRIOR.history)
  {
  }

  const COVERED := [UnitCoverage("u", Covered)]

  function Judged(assessment: Assessment): Reassessment {
    Reassessment("f", assessment, "text", [Evidence("seen", [DIFF], [])], ["u"])
  }

  function Judging(assessment: Assessment, transitions: seq<Transition>): Answer
    requires forall t :: t in transitions ==> t.finding == "f"
  {
    Submission(Approved, Complete, [], [Judged(assessment)], transitions, COVERED)
  }

  // The model calls the finding addressed and acknowledges it, citing the change.
  const FIX := Transition("f", Acknowledge, AICodeChange, [DIFF])
  const ACKNOWLEDGING := Judging(Addressed, [FIX])

  // The model calls an acknowledged finding addressed and leaves it at that.
  const CONFIRMING := Judging(Addressed, [])

  lemma JudgedIsFound(assessment: Assessment, transitions: seq<Transition>)
    requires forall t :: t in transitions ==> t.finding == "f"
    ensures var sub := Judging(assessment, transitions);
      FindReassessment(sub.reassessments, "f") == Some(Judged(assessment))
  {
  }

  lemma JudgingIsKnown(f: Finding, turn: Turn, assessment: Assessment, transitions: seq<Transition>)
    requires Real(turn) && forall t :: t in transitions ==> t.finding == "f"
    ensures var a := AskedAbout(f, turn.notes);
      && Retrieval.Grew(a, SnapshotOf(a))
      && ValidCoverage(Judging(assessment, transitions), SnapshotOf(a))
      && ValidReassessment(Judged(assessment), SnapshotOf(a))
    ensures CitedWell(Judged(assessment).evidence) && ListedWell(Judged(assessment).units)
  {
    assert COVERED[0].unit == "u";
    assert OneEntryEach(COVERED, {"u"});
  }

  lemma JudgingIsChange(f: Finding, assessment: Assessment, transitions: seq<Transition>, turn: Turn)
    requires f.id == "f" && |transitions| <= 1
    requires forall t :: t in transitions ==> t.finding == "f"
    ensures var m := Metadata(turn.run, turn.at, map[], []);
      var g := Reassess(f, Judged(assessment), m);
      Next(f, Judging(assessment, transitions), turn) ==
        if |transitions| == 0 then g else Transit(g, transitions[0], m)
  {
    var sub := Judging(assessment, transitions);
    JudgedIsFound(assessment, transitions);
    SettleIsChange(f, sub, Metadata(turn.run, turn.at, map[], []));
    assert FindTransition(transitions, "f") == if |transitions| == 0 then None else Some(transitions[0]);
  }

  // ----- One source supports two acknowledgements -----

  lemma AcknowledgingIsSubmittable(turn: Turn)
    requires Real(turn)
    ensures Submittable(PRIOR, turn, ACKNOWLEDGING)
  {
    hide ValidCoverage, ValidReassessment, CitedWell, CanonicalFinding, FreshFinding, Consumed, OneBatch;
    JudgingIsKnown(PRIOR, turn, Addressed, [FIX]);
    JudgedIsFound(Addressed, [FIX]);
    PriorIsOpen();
    assert FindTransition([FIX], "f") == Some(FIX);
    assert Judged(Addressed).evidence[0] in Judged(Addressed).evidence;
    assert ValidTransition(FIX, ACKNOWLEDGING.reassessments, SnapshotOf(AskedAbout(PRIOR, turn.notes)));
  }

  lemma TwiceFromOneSource(turn: Turn, again: Turn)
    ensures var f := Next(PRIOR, ACKNOWLEDGING, turn);
      && f.id == "f" && f.units == ["u"] && FreshEvidence(f.history)
      && !FreshEvidence(Next(CanonicalFinding(f), ACKNOWLEDGING, again).history)
  {
    hide Settle;
    var m := Metadata(turn.run, turn.at, map[], []);
    JudgingIsChange(PRIOR, Addressed, [FIX], turn);
    assert FindTransition([FIX], "f") == Some(FIX);
    var f := Next(PRIOR, ACKNOWLEDGING, turn);
    PriorIsOpen();
    ReplayFreshExactly(PRIOR, ACKNOWLEDGING, m);
    var h := Reassess(PRIOR, Judged(Addressed), m).history;
    ConsumedAppend(h, f.history[|h|]);
    assert DIFF in SetOf(FIX.refs);
    ReplayFreshExactly(CanonicalFinding(f), ACKNOWLEDGING, Metadata(again.run, again.at, map[], []));
  }

  /** The stored acknowledgement is replayed on its own result, and the one source
      then supports two acknowledgements. */
  lemma ReplayBreaksFreshEvidence(turn: Turn, again: Turn)
    requires Real(turn) && Real(again) && SameInput(turn, again)
    ensures Submittable(PRIOR, turn, ACKNOWLEDGING)
    ensures var f := Next(PRIOR, ACKNOWLEDGING, turn);
      var g := Next(CanonicalFinding(f), ACKNOWLEDGING, again);
      && AskedTo(PRIOR, turn, ACKNOWLEDGING, f) && FreshEvidence(f.history)
      && ReplaysTo(CanonicalFinding(f), again, ACKNOWLEDGING, g) && !FreshEvidence(g.history)
  {
    hide Next, AskedTo, ReplaysTo, FreshEvidence, Submittable;
    PriorIsOpen();
    AcknowledgingIsSubmittable(turn);
    TwiceFromOneSource(turn, again);
    AskedAndReplayed(PRIOR, turn, ACKNOWLEDGING);
    AskedAndReplayed(CanonicalFinding(Next(PRIOR, ACKNOWLEDGING, turn)), again, ACKNOWLEDGING);
  }

  // ----- Addressed and open after a human has unticked the box -----

  // The finding once a human has ticked its box.
  const TICKED := Checked(PRIOR, [], 2)

  // The box of the report that shows `f` is unticked.
  function Unticked(f: Finding, at: Instant): Finding {
    Controlled(CanonicalFinding(f), Some(CanonicalFinding(f)), Control(f.id, true, false), [], at)
  }

  lemma ConfirmingIsSubmittable(f: Finding, turn: Turn)
    requires Real(turn) && f.state == Acknowledged
    ensures Submittable(f, turn, CONFIRMING)
  {
    hide ValidCoverage, ValidReassessment, CitedWell;
    JudgingIsKnown(f, turn, Addressed, []);
    JudgedIsFound(Addressed, []);
  }

  lemma ConfirmedThenUnticked(turn: Turn, at: Instant, again: Turn)
    ensures var f := Next(TICKED, CONFIRMING, turn);
      && TICKED.id == "f" && TICKED.units == ["u"] && CheckboxAcknowledged(f) && f.assessment == Addressed
      && Unticked(f, at).id == "f" && Unticked(f, at).units == ["u"] && Unticked(f, at).state == Open
      && var g := Next(Unticked(f, at), CONFIRMING, again);
         g.assessment == Addressed && g.state == Open && g.ack.None?
  {
    hide Next;
    JudgingIsChange(TICKED, Addressed, [], turn);
    JudgingIsChange(Unticked(Next(TICKED, CONFIRMING, turn), at), Addressed, [], again);
  }

  /** A human ticks the box, the model confirms the fix, the human unticks the box, and
      the replayed confirmation leaves the finding addressed and open. */
  lemma ReplayLeavesAddressedOpen(turn: Turn, again: Turn)
    requires Real(turn) && Real(again) && SameInput(turn, again)
    ensures Submittable(TICKED, turn, CONFIRMING)
    ensures var f := Next(TICKED, CONFIRMING, turn);
      var g := Next(Unticked(f, again.at), CONFIRMING, again);
      && AskedTo(TICKED, turn, CONFIRMING, f) && CheckboxAcknowledged(f)
      && ReplaysTo(Unticked(f, again.at), again, CONFIRMING, g)
      && g.assessment == Addressed && g.state == Open && g.ack.None?
  {
    hide Next, AskedTo, ReplaysTo, Submittable, Unticked;
    ConfirmingIsSubmittable(TICKED, turn);
    ConfirmedThenUnticked(turn, again.at, again);
    AskedAndReplayed(TICKED, turn, CONFIRMING);
    AskedAndReplayed(Unticked(Next(TICKED, CONFIRMING, turn), again.at), again, CONFIRMING);
  }

  // ----- Addressed and open although nobody reopened it but the model -----

  const NOTE := SourceRef(GitLabNote, true, "f", false)
  const EARLIER: map<SourceId, SourceRef> := map["note_0" := NOTE]
  const LATER: map<SourceId, SourceRef> := map["note_0" := NOTE, "note_1" := NOTE]

  // The model gives way to what a human wrote, in either direction.
  const DISMISS := Transition("f", Acknowledge, AIDiscussion, ["note_0"])
  const REVIVE := Transition("f", Reopen, AIDiscussion, ["note_1"])
  const DISMISSING := Judging(Present, [DISMISS])
  const REVIVING := Judging(Present, [REVIVE])

  lemma DismissingIsSubmittable(turn: Turn)
    requires Real(turn) && turn.notes == EARLIER
    ensures Submittable(PRIOR, turn, DISMISSING)
  {
    hide ValidCoverage, ValidReassessment, CitedWell, CanonicalFinding, FreshFinding, Consumed, OneBatch;
    JudgingIsKnown(PRIOR, turn, Present, [DISMISS]);
    JudgedIsFound(Present, [DISMISS]);
    PriorIsOpen();
    assert ValidTransition(DISMISS, DISMISSING.reassessments, SnapshotOf(AskedAbout(PRIOR, turn.notes)));
  }

  lemma RevivingIsSubmittable(f: Finding, turn: Turn)
    requires Real(turn) && turn.notes == LATER && f.state == Acknowledged
    requires f.ack.Some? && f.ack.value.how == AIDiscussion && "note_1" !in Consumed(f.history)
    ensures Submittable(f, turn, REVIVING)
  {
    hide ValidCoverage, ValidReassessment, CitedWell, Consumed;
    JudgingIsKnown(f, turn, Present, [REVIVE]);
    JudgedIsFound(Present, [REVIVE]);
    assert KnownOf(f) == Known(f.state, f.ack, Consumed(f.history));
    assert ValidTransition(REVIVE, REVIVING.reassessments, SnapshotOf(AskedAbout(f, turn.notes)));
  }

  // What the first of the runs before the replay leaves.
  lemma Dismissed(before: Turn)
    ensures var d := CanonicalFinding(Next(PRIOR, DISMISSING, before));
      && d.id == "f" && d.units == ["u"] && d.state == Acknowledged
      && d.ack.Some? && d.ack.value.how == AIDiscussion && Consumed(d.history) == {"note_0"}
  {
    hide Next, Consumed;
    var m := Metadata(before.run, before.at, map[], []);
    JudgingIsChange(PRIOR, Present, [DISMISS], before);
    var d := CanonicalFinding(Next(PRIOR, DISMISSING, before));
    PriorIsOpen();
    ReassessKeepsPast(PRIOR, Judged(Present), m);
    var h := Reassess(PRIOR, Judged(Present), m).history;
    ConsumedAppend(h, d.history[|h|]);
    assert SetOf(["note_0"]) == {"note_0"};
  }

  // A confirmation changes what is said of a finding and leaves its workflow.
  lemma Confirmed(d: Finding, turn: Turn)
    requires d.id == "f"
    ensures var f := CanonicalFinding(Next(d, CONFIRMING, turn));
      && f.id == d.id && f.units == ["u"] && f.state == d.state && f.assessment == Addressed
      && f.ack == d.ack && Consumed(f.history) == Consumed(d.history)
  {
    hide Next, Consumed;
    JudgingIsChange(d, Addressed, [], turn);
    ReassessKeepsPast(d, Judged(Addressed), Metadata(turn.run, turn.at, map[], []));
  }

  // What the first two runs before the replay leave.
  lemma DismissedAndConfirmed(before: Turn, turn: Turn)
    ensures var d := CanonicalFinding(Next(PRIOR, DISMISSING, before));
      && d.id == "f" && d.units == ["u"] && d.state == Acknowledged
      && var f := CanonicalFinding(Next(d, CONFIRMING, turn));
         && f.id == "f" && f.units == ["u"] && f.state == Acknowledged && f.assessment == Addressed
         && f.ack.Some? && f.ack.value.how == AIDiscussion && Consumed(f.history) == {"note_0"}
  {
    hide Next, Consumed, CanonicalFinding;
    Dismissed(before);
    Confirmed(CanonicalFinding(Next(PRIOR, DISMISSING, before)), turn);
  }

  lemma RevivedThenReplayed(f: Finding, other: Turn, again: Turn)
    requires f.id == "f" && f.units == ["u"]
    ensures var g := CanonicalFinding(Next(f, REVIVING, other));
      && g.id == "f" && g.units == ["u"] && g.state == Open
      && !OpenAddressedOnlyByHuman(Next(g, CONFIRMING, again))
  {
    hide Next;
    var m := Metadata(other.run, other.at, map[], []);
    JudgingIsChange(f, Present, [REVIVE], other);
    var g, h := CanonicalFinding(Next(f, REVIVING, other)), Reassess(f, Judged(Present), m).history;
    LastWorkflowAppend(h, g.history[|h|]);
    JudgingIsChange(g, Addressed, [], again);
    ReassessKeepsPast(g, Judged(Addressed), Metadata(again.run, again.at, map[], []));
  }

  /** Of four runs the first acknowledges the finding because of what a human wrote, the
      second confirms its fix, the third is one of another input, with a further human
      note, and reopens the finding because of that. When the fourth has the input of
      the second again, the confirmation replayed by it leaves the finding addressed
      and open although no human reopened it. */
  lemma ReplayLeavesOpenUnasked(before: Turn, turn: Turn, other: Turn, again: Turn)
    requires Real(before) && Real(turn) && Real(other) && Real(again) && SameInput(turn, again)
    requires before.notes == turn.notes == EARLIER && other.notes == LATER
    requires before.fingerprint != turn.fingerprint && other.fingerprint != turn.fingerprint
    ensures var d := CanonicalFinding(Next(PRIOR, DISMISSING, before));
      var f := CanonicalFinding(Next(d, CONFIRMING, turn));
      var g := CanonicalFinding(Next(f, REVIVING, other));
      var h := Next(g, CONFIRMING, again);
      && Submittable(PRIOR, before, DISMISSING) && AskedTo(PRIOR, before, DISMISSING, Next(PRIOR, DISMISSING, before))
      && Submittable(d, turn, CONFIRMING) && AskedTo(d, turn, CONFIRMING, Next(d, CONFIRMING, turn))
      && Submittable(f, other, REVIVING) && AskedTo(f, other, REVIVING, Next(f, REVIVING, other))
      && ReplaysTo(g, again, CONFIRMING, h) && !OpenAddressedOnlyByHuman(h)
  {
    hide Next, AskedTo, ReplaysTo, Submittable, OpenAddressedOnlyByHuman, CanonicalFinding, Consumed;
    PriorIsOpen();
    DismissingIsSubmittable(before);
    DismissedAndConfirmed(before, turn);
    AskedAndReplayed(PRIOR, before, DISMISSING);
    var d := CanonicalFinding(Next(PRIOR, DISMISSING, before));
    ConfirmingIsSubmittable(d, turn);
    AskedAndReplayed(d, turn, CONFIRMING);
    var f := CanonicalFinding(Next(d, CONFIRMING, turn));
    RevivingIsSubmittable(f, other);
    AskedAndReplayed(f, other, REVIVING);
    RevivedThenReplayed(f, other, again);
    AskedAndReplayed(CanonicalFinding(Next(f, REVIVING, other)), again, CONFIRMING);
  }
}
