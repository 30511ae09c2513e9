# ci-signal: a verified model of its durable review state

ci-signal reviews a GitLab merge request with an AI reviewer and keeps everything
it knows in one bot note: a Markdown report whose hidden marker holds the
durable state and whose checkboxes let humans acknowledge findings. This project
models that state and the machines that change it, and proves what they promise.

Three machines share the state.

* **The finding lifecycle** (`Domain`, `Validation`, `Reconciliation`, `ReportCodec`,
  `Lifecycle`, `Provenance`). A submission by the model is validated against the
  host's assignment and folded into an append-only history per finding; a human
  moves checkboxes; the host decides which evidence is used up. The claims are about
  every sequence of validated submissions, of stored submissions that are replayed
  unseen, of box edits and of reports stored in between, which draws their boxes afresh:
  histories, citations and provenance hold for all of them, and what a replay can spoil
  is characterised exactly.
* **The coordinator** (`Planner`, `Executor`, `Merging`, `Coordinator`, `Accounting`,
  `Verdicts`, `Approval`, `Decisions`, `Replays`). Review units are packed into batches,
  sessions run under a budget and a semaphore, their results are folded in batch order,
  and a verdict is derived or an earlier one reused. `Decisions` says what one run as a
  whole owes the report it recovered.
* **The publication protocol** (`NoteStore`, `CurrentReport`, `Server`, `Storing`,
  `Publication`, `Undisturbed`, `Publisher`). A new report replaces the old one on a server
  without transactions: create, update, read back, take over late box positions, delete
  oldest first. The server is a class with a script of disturbances: before every call humans
  may act any number of times, and the call may be lost, may take effect without its reply
  arriving, or may find the snapshot stale. Losing every call from some point on is a stop at
  that point, so the contracts cover a stop after any mutation. The server remembers what
  each note said when it was last read by itself and when it was deleted. An attempt that
  nothing disturbs is proved to succeed.

`EndToEnd` joins the three: recover, take over the boxes, review or reuse, publish. With
`Soundness` it closes the loop: however a run ends, the newest report goes on from the one
before, and what the next run needs of it (findings that follow their histories, a record of
everything cited, an approval that is earned) is there again, after any number of runs. If
the host validated whatever it accepted, the findings of a merge request are thus the end of
one run of the lifecycle from nothing, as the claims about runs take them to be.

Four algorithms with their own arithmetic or continuation logic stand beside them:
the report as a string and what a reader finds in it (`Text`, `ReportText`, `Rendering`,
`Markers`, `Lines`, `ItemBody`, `Reading`), token accounting in 64 bits (`Tokens`), the
resumable structural scan (`Scan`), chunked retrieval with its registry (`Retrieval`), and
label synchronisation (`Labels`). `Ordering` holds string order and sorting.

Conventions. Code that changes things step by step is a method with loops, and a
class where the source updates an object; the specification it is proved against is
a function of its inputs, and the laws of that function are lemmas. Identifiers and
text are strings, instants are integers with 0 for the unset time, a returned error is
`Err` (or `Stopped` with the kind of error in the publication protocol). `Decode` of a
report is defined on the state its marker carries and the list of controls the
Markdown parser finds; `Markers.ReportRoundTrip` connects that view to the string, and
`Reading` says what a reader of lines, list items, headings and markers finds in it.

Assumptions that are part of the model: publications of one merge request are
serialised; the server's note ids increase strictly; a create stores at most one
note (`CurrentReport.TwinsThenSuccessorConflict` shows what two would do); SHA-256
digests and JSON encodings are injective; only the bot edits and deletes its own
notes, except that humans move the checkboxes in them.

Four results differ from what one might expect of the code. Each has an input that shows
it and the exact condition under which the code does meet the expectation.

* A checkpoint is replayed without validating the stored submission again, although the
  findings may have moved on. One source can then support two acknowledgements
  (`Replays.ReplayBreaksFreshEvidence`), what the model calls addressed can stay open
  (`Replays.ReplayLeavesAddressedOpen`), and an addressed finding can be left open that no
  human reopened (`Replays.ReplayLeavesOpenUnasked`). In each a run of three batches with one
  session ends partial, and a later run of the same input loads its checkpoint: the next run
  in the first two, in the third the run after one of another input, with a further note.
  Every submission in them is valid when it is accepted, and every run goes from planning to
  the fold. The conditions, per finding: `Lifecycle.ReplayFreshExactly`,
  `Lifecycle.ReplayAddressedExactly`, `Lifecycle.ReplayOpenExactly`,
  `Lifecycle.ReplayPrecedenceExactly` and `Lifecycle.ReplaySyncExactly`; over sequences of
  steps: `Lifecycle.RunsGoodExactly` and `Lifecycle.RunsFreshExactly`; for one run of the
  coordinator: `Decisions.DecisionGoodExactly`, `Decisions.DecisionFreshExactly` and
  `Decisions.DecisionInStep`. They can be read off the stored submission and the findings
  before it is replayed.
* A token budget is enforced on every session exactly when it is at most 2^63
  (`Tokens.BudgetEnforcedExactly`); a larger one can be evaded by wrap-around.
* The planner may separate a unit from its enclosing unit (`Planner.PlannerSplits`). A batch
  admits a valid submission exactly when it holds every enclosing unit, and a complete one
  exactly when, besides, each of its findings has a source to cite (`Planner.AdmitsExactly`,
  `Coordinator.PlannedAdmitsExactly`), so a run with a split batch is never complete
  (`Accounting.SplitRunIncomplete`); units that fit into one session are never split
  (`Planner.OneSessionIsWhole`).
* A title may hold a blank line. The list item of its finding then ends before the finding's
  marker, and the report of a valid state cannot be read back (`Reading.SplitTitleIsLost`).
  A report is read back as its canonical state exactly when no blank line splits a title
  that it shows, and its controls are then the rendered ones (`Reading.ReadsBackExactly`).

`Labels.DeriveLabels` says exactly when derivation fails. Under a validated configuration labels
compete for a scope exactly when one made from a model or tool name has a scope and another
derived label is in it (`Labels.ExclusiveExactly`): never as long as no name holds a colon
(`Labels.DerivedAreExclusive`), while two names with the same text before a last double colon do
compete (`Labels.ColonNamesCompete`).

Run `dafny verify dfyconfig.toml` with a generous resource limit (2000000 or more).

## Model

| member | source | states |
|---|---|---|
| Validation.ValidateSubmission | internal/review/validate.go:125-239 | the checking loops accept exactly the acceptable submissions: one entry per unit, evidence known, one reassessment and one transition per finding at most, every rule of workflow and evidence met |
| Validation.AcceptedExactly | internal/review/validate.go:125-239 | exactly what is accepted, said of units, sources and findings one by one: every assigned unit reported once, covered ones only when retrieved and with what encloses them, known units and sources, one word and one change per known finding, and of a complete submission every unit done and every finding spoken of |
| Validation.CheckCoverage | internal/review/validate.go:241-285 | accepted exactly when every assigned unit has one outcome, a complete submission has only done outcomes, and completeness of a unit implies its retrieval and its enclosing unit's completeness |
| Validation.CheckReassessments | internal/review/validate.go:166-188 | accepted exactly when reassessments are distinct, known, evidenced and, for a complete submission, cover every assigned finding |
| Validation.CheckTransitionEvidence | internal/review/validate.go:344-394 | accepted exactly when every cited source is known, unused and of a kind, author and association that supports the transition |
| Validation.WorkflowChanges | internal/review/validate.go:190-227 | a change of a finding's workflow is valid exactly when all it cites is unused and it is one of four, each with its own ground: an acknowledgement or a reopening, by a human's word or by code |
| Validation.CheckTransition | internal/review/validate.go:191-227 | accepted exactly when method, prior state, prior acknowledgement and paired reassessment allow the change |
| Validation.CheckTransitions | internal/review/validate.go:190-227 | accepted exactly when each finding has at most one transition and each is allowed |
| Validation.CheckAddressed | internal/review/validate.go:228-238 | accepted exactly when every open finding called addressed is also acknowledged by code change |
| Validation.CheckReassessmentEvidence | internal/review/validate.go:315-328 | evidence may not cite a source associated with another finding |
| Reconciliation.EvidenceSourceRefs | internal/review/reconcile.go:136-149 | computes the references recorded in an event |
| Reconciliation.EvidenceRefsExact | internal/review/reconcile.go:136-149 | an event records exactly the sources its evidence cites, none twice |
| Reconciliation.Reconcile | internal/review/reconcile.go:28-134 | succeeds exactly when run, time, matches, new ids and named findings are in order, and then every prior finding keeps its position and its topic unless matched, says what its own reassessment says and has the workflow its own transition gives it; behind them one finding for every unmatched submitted one, which says what was submitted |
| Reconciliation.ReconcilableExactly | internal/review/reconcile.go:28-131 | exactly when: run and time are given, matches pair submitted with prior findings one to one, every created finding has an id of its own, and nothing is said of a finding neither there nor created |
| Reconciliation.SettleSays | internal/review/reconcile.go:87-131 | category, subcategory, relationship, title, identity and first sight of a finding never change by reassessment or transition; explanation, evidence, units and assessment are those of its last reassessment |
| Reconciliation.SettleActs | internal/review/reconcile.go:116-131 | state and acknowledgement are those of its transition, with its method and the sources it cites, now; otherwise they stay |
| Reconciliation.ReconciledSays | internal/review/reconcile.go:28-134 | every finding that was there, and one for every submitted finding, says what it should; nothing else is created |
| Reconciliation.SettleIsChange | internal/review/reconcile.go:87-131 | reassessment first, transition second, each at most once, whatever order the submission lists them in |
| Reconciliation.ReconciledIds | internal/review/reconcile.go:28-86 | ids stay unique, prior ids keep their places, no finding is dropped |
| Lifecycle.KnownFinding | internal/coordinator/coordinator.go:469-487 | the two loops compute exactly the evidence that is used up: cited by an acknowledgement, or recorded up to the last human reopen |
| Lifecycle.ConsumedAppend | internal/coordinator/coordinator.go:469-487 | how one event uses evidence up: an acknowledgement its own, a human reopen everything |
| Lifecycle.FreshEvidenceMeans | internal/coordinator/coordinator.go:469-487 | references of an AI acknowledgement are disjoint from every earlier acknowledgement and from everything at or before an earlier human reopen |
| Lifecycle.SettleIsRecorded | internal/review/reconcile.go:54-131 | whatever a submission says and whatever it was validated against, it only appends to a finding's history and leaves the finding its history describes |
| Lifecycle.ReconciledIsRecorded | internal/review/reconcile.go:28-134 | even a submission nobody validated, once reconciled, only appends and leaves findings their histories record |
| Lifecycle.RunsAreRecorded | internal/review/reconcile.go:28-134 | after any run from the empty state, replays and stored reports included: ids are unique, replaying a history reproduces the finding, citations stay inside the history, open means unacknowledged |
| Lifecycle.RunsGoodExactly | internal/coordinator/coordinator.go:169-240 | a run keeps every finding good at every moment if and only if each replay in it acknowledges with unused evidence and leaves no addressed finding open that a human did not reopen; validated submissions, box edits and storing always do |
| Lifecycle.RunsFreshExactly | internal/coordinator/coordinator.go:469-487 | AI acknowledgements of a whole run, reports stored in between included, cite fresh evidence if and only if every replay acknowledged with evidence unused at that moment |
| Lifecycle.RunsAreGood | internal/review/reconcile.go:28-134 | after any run of validated submissions, careful replays, box edits and stored reports from the empty state, AI acknowledgements cite fresh evidence and only a human leaves an addressed finding open |
| Lifecycle.RunsOnlyAppend | internal/review/reconcile.go:54-131 | a run, replays and stored reports included, never moves, drops or rewrites what a shorter run recorded |
| Lifecycle.ReviewKeepsGood | internal/review/validate.go:190-238 | a validated submission keeps every invariant of a finding the host described truthfully |
| Lifecycle.EditKeepsGood | internal/markdown/codec.go:162-199 | so does any checkbox edit, whatever report it was read from |
| Lifecycle.StoreIsRecorded | internal/markdown/codec.go:60-81 | drawing a box afresh changes nothing else: history, citations and invariants of the finding stay |
| Lifecycle.HumanPrecedence | internal/review/validate.go:200-238 | a submission leaves a human acknowledgement as it is, and what it calls addressed ends acknowledged |
| Lifecycle.CodeChangeIsAddressed | internal/review/validate.go:372-388 | a code-change acknowledgement is backed by an addressed reassessment citing the same evidence |
| Lifecycle.LastPositionDecides | internal/markdown/codec.go:162-199 | after any submissions and earlier edits, the last position of a box that was drawn decides the finding, except that an AI acknowledgement stands while the box keeps its drawn position; replays must have spared what a human had ticked |
| Lifecycle.UntouchedRunsChangeNothing | internal/markdown/codec.go:162-199 | after any submissions and replays, AI transitions included, reading the report they started from changes nothing as long as no human touched its boxes |
| Lifecycle.ReplayFreshExactly | internal/coordinator/coordinator.go:169-174 | replaying a stored submission keeps evidence fresh if and only if its acknowledgement cites nothing used up since |
| Lifecycle.ReplayOpenExactly | internal/coordinator/coordinator.go:169-174 | it leaves no addressed finding open against human precedence if and only if what ends addressed is acknowledged by it, is acknowledged already or was last reopened by a human |
| Lifecycle.ReplayAddressedExactly | internal/review/validate.go:228-238 | what a replayed submission calls addressed ends acknowledged if and only if it acknowledges it, or makes no transition and the finding is acknowledged now |
| Lifecycle.ReplaySyncExactly | internal/markdown/codec.go:162-199 | it keeps a box in step with its finding if and only if it spares a human acknowledgement |
| Lifecycle.ReplayPrecedenceExactly | internal/coordinator/coordinator.go:169-174 | replaying keeps a human acknowledgement if and only if the stored submission does not change that finding's workflow |
| Replays.PlannedBatches | internal/coordinator/coordinator.go:131-147 | the two units of the runs below, one to a session, are planned as three batches, the last the host's own |
| Replays.AskedAndReplayed | internal/coordinator/coordinator.go:153-252 | with one session a run accepts what it is told about the finding, skips the rest and ends partial; a later run of the same input loads that submission, keyed by units and finding ids, though all its sessions fail, and reconciles it with whatever the finding has become |
| Replays.ReplayBreaksFreshEvidence | internal/coordinator/coordinator.go:169-174 | over two such runs, the report stored in between, one source supports two acknowledgements |
| Replays.ReplayLeavesAddressedOpen | internal/coordinator/coordinator.go:169-174 | a box is ticked, the fix confirmed, the report stored, the box unticked, and the replayed confirmation leaves the finding addressed and open |
| Replays.ReplayLeavesOpenUnasked | internal/coordinator/coordinator.go:169-174 | the model acknowledges after a human note, confirms, and in a run of another input reopens after a further note; when the first input comes back, its replayed confirmation leaves the finding addressed and open although no human reopened it |
| ReportCodec.CanonicalizeProjects | internal/markdown/codec.go:60-81 | canonical form is a projection: idempotent, the identity on canonical states, ids unchanged |
| ReportCodec.ValidateState | internal/markdown/codec.go:354-416 | accepts exactly the states with a bound merge request, complete distinct sources, distinct findings in the bounded domain and acknowledgement exactly when acknowledged |
| ReportCodec.ValidExactly | internal/markdown/codec.go:354-416 | the same, said of the state's own fields |
| ReportCodec.RenderFindingGroups | internal/markdown/codec.go:472-500 | the nested loops list the findings of one state by category and subcategory |
| ReportCodec.RenderedExactlyOnce | internal/markdown/codec.go:472-500 | every finding of a valid state is listed exactly once over both sections |
| ReportCodec.RenderedInOrder | internal/markdown/codec.go:472-491 | open findings come before acknowledged ones, and either by urgency, blockers first, and then by subcategory, security first |
| ReportCodec.ValidateControlBindings | internal/markdown/codec.go:322-352 | accepts exactly the control lists that name every finding once, nothing foreign, and keep every designated checkbox |
| ReportCodec.DecodeEncode | internal/markdown/codec.go:83-138 | every state that can be encoded is decoded to its canonical form |
| ReportCodec.InteractionSources | internal/markdown/codec.go:659-674 | the newest eligible human interaction supplies the reference of a box change |
| ReportCodec.ReconcileControls | internal/markdown/codec.go:140-201 | succeeds exactly for a decodable report of the same merge request whose findings are all present; each box that moved away from its baseline decides its finding; reports whether any did |
| ReportCodec.BoxSettles | internal/markdown/codec.go:162-199 | a finding changes exactly when its box was drawn and moved from where it is remembered; it then takes the state the box shows, one event records that with the newest eligible trace of a human, and nothing else about it changes |
| ReportCodec.ControlsIdempotent | internal/markdown/codec.go:140-201 | reconciling the same edited report twice equals doing it once |
| ReportCodec.UntouchedChangesNothing | internal/markdown/codec.go:162-199 | an untouched report changes nothing about findings that remember the boxes they were drawn with |
| ReportCodec.EncodedUntouched | internal/markdown/codec.go:83-117 | a freshly encoded report is untouched |
| Provenance.MergeSourceRecords | internal/coordinator/coordinator.go:425-439 | sorted, one record per id, a record read now replacing the stored one |
| Provenance.MergedExactly | internal/coordinator/coordinator.go:425-439 | every record read now is merged, a stored one exactly if none was read now under its id, and nothing else |
| Provenance.ReferencedSourceRecords | internal/coordinator/coordinator.go:441-467 | keeps in order exactly the records some finding cites |
| Provenance.PublicationSourceKinds | internal/coordinator/production.go:165-204 | stored kind first, captured kind next, repository kind for cited repository ids, nothing else |
| Provenance.KindsExactly | internal/coordinator/production.go:165-204 | a stored record's kind comes first, then the captured one, then the repository for a cited id of its namespace; no other id has a kind |
| Provenance.ValidateRetainedSourceRecords | internal/gitlab/publish.go:685-737 | accepts exactly when every citation of the retiring report keeps its record unchanged, or is repository evidence |
| Provenance.RetainedExactly | internal/gitlab/publish.go:685-737 | a report may be retired exactly when what it cites has in the successor the very record it has here, and what has none here is repository evidence |
| Provenance.RunRefs | internal/review/reconcile.go:54-131 | a run, replays included, forgets no citation and adds only what its steps offered |
| Provenance.RunRetainsProvenance | internal/coordinator/coordinator.go:425-467 | merge, any run with or without replays, prune: the state is durable again and passes the retention check if and only if the reread notes agree with the stored ones |
| Planner.BatchUnits | internal/coordinator/coordinator.go:361-397 | the grouping and packing loops compute the batches of the specification, failing exactly when it does |
| Planner.BatchesPartition | internal/coordinator/coordinator.go:361-397 | on success the batches hold every unit exactly once, none exceeds the maximum, and every batch but the last has at least maximum minus one units |
| Planner.PairStaysTogether | internal/coordinator/coordinator.go:361-397 | a unit is in one batch with the unit that encloses it, unless either was placed because of an earlier unit |
| Planner.BatchesPermute | internal/coordinator/coordinator.go:361-397 | distinct units are permuted, none lost or repeated |
| Planner.BatchCountBound | internal/coordinator/coordinator.go:386-396 | how many sessions a plan can need, from the number of units and the limit |
| Planner.PlanningSucceeds | internal/coordinator/coordinator.go:373-391 | planning fails only for an absent enclosing unit or a limit below two |
| Planner.AdmitsExactly | internal/review/validate.go:262-283 | an assignment admits a valid submission the schema allows if and only if it holds every unit that has a requirement and, apart from it, its enclosing unit; a complete one if and only if, besides, every finding has a unit to name and a source to cite |
| Planner.PlannerSplits | internal/coordinator/coordinator.go:132-147 | three units of an inventory of which the last needs the first, two to a session: the host adds its integration unit, and the planner separates the two |
| Planner.OneSessionIsWhole | internal/coordinator/coordinator.go:386-396 | units that fit into one session make at most one batch, whole if and only if the units are |
| Planner.AssignFindingBatches | internal/coordinator/coordinator.go:678-697 | every prior finding goes to the batch that holds its first planned unit, and to the first batch if none of its units is planned |
| Planner.AssignedFollowsFirst | internal/coordinator/coordinator.go:678-697 | the batch a finding goes to holds one of its units, and no unit named before that one is in any batch |
| Planner.PlanCoversInventory | internal/coordinator/coordinator.go:132-139 | the sorted units with the host's additions still cover the inventory, and prior findings always find a unit |
| Planner.PlannedExactly | internal/coordinator/coordinator.go:131-139 | the inventory in strict order of id, or one host unit when it is empty and there are findings, and one more exactly when they exceed one session |
| Executor.EverySchedule | internal/coordinator/coordinator.go:186-214 | on every schedule at most the limit holds the semaphore, and work done plus work left is constant |
| Executor.Progress | internal/coordinator/coordinator.go:186-214 | no schedule gets stuck before every worker has finished |
| Executor.MaximalSchedule | internal/coordinator/coordinator.go:186-214 | every schedule that cannot be continued has taken exactly three steps per worker and left what running the batches one by one leaves |
| Executor.SchedulesAgree | internal/coordinator/coordinator.go:186-214 | any two complete schedules leave the same results |
| Executor.ReviewConcurrently | internal/coordinator/coordinator.go:186-214 | workers under an arbitrary scheduler terminate with the sequential results |
| Merging.AppendAbsentKeepsFirst | internal/coordinator/coordinator.go:732-796 | nothing lost, nothing repeated: the union of keys, and under each key the first entry |
| Merging.DedupeCoverage | internal/coordinator/coordinator.go:732-743 | coverage without duplicate units, the first entry kept |
| Merging.MergeTelemetry | internal/coordinator/coordinator.go:745-796 | joins each list by its key and usage completeness by conjunction |
| Merging.JoinedMeans | internal/coordinator/coordinator.go:745-782 | joining drops no model or tool and invents none, and usage is complete only if it is on both sides |
| Merging.JoinedCountsOnce | internal/coordinator/coordinator.go:768-780 | no usage event is counted twice |
| Coordinator.AssignFindings | internal/coordinator/coordinator.go:164-168 | a batch is told exactly its own findings, truthfully |
| Coordinator.ToldExactly | internal/coordinator/coordinator.go:160-168 | a batch is told of exactly the findings whose first planned unit it holds, the first batch besides of those with none |
| Coordinator.PlannedAdmitsExactly | internal/coordinator/coordinator.go:155-163 | a planned batch admits a valid submission the schema allows if and only if no unit in it is separated from its enclosing unit, and a complete one if and only if, besides, each of its findings can be reassessed |
| Coordinator.PlanOf | internal/coordinator/coordinator.go:153-184 | batches in order: truthful assignment, replay of a complete checkpoint, a session while the budget lasts; fails exactly when some checkpoint is unreadable |
| Coordinator.LoadedExactly | internal/coordinator/checkpoint.go:37-54 | a checkpoint is replayed exactly when it holds an accepted, complete submission with every unit done, ignored when that is not so, and an error when it cannot be read or holds none |
| Coordinator.SameKey | internal/coordinator/coordinator.go:168-170 | a checkpoint is found for the same units and findings only |
| Coordinator.PlanExecutions | internal/coordinator/coordinator.go:153-184 | the loop over batches, with its running session count, computes that plan |
| Coordinator.BudgetRespected | internal/coordinator/coordinator.go:175-183 | never more sessions than the budget, and a batch is skipped only when it is used up |
| Coordinator.FoldExecution | internal/coordinator/coordinator.go:216-240 | one batch's effect on findings, coverage, telemetry, proposal and completeness, on success, failure and error |
| Coordinator.FoldExecutions | internal/coordinator/coordinator.go:216-252 | the ordered fold with its final completeness check and deduplicated coverage |
| Accounting.CoveredExactlyOnce | internal/coordinator/coordinator.go:216-252 | every planned and every excluded unit has exactly one coverage entry, no other unit has any, and it is the one its own batch gave |
| Accounting.ReportedAsReviewed | internal/coordinator/coordinator.go:216-252 | a planned unit of a batch without an accepted submission is reported as failed, any other exactly as the accepted submission reports it |
| Accounting.UnstoredStops | internal/coordinator/coordinator.go:219-221 | a run with a batch whose accepted result could not be stored ends in an error |
| Accounting.FoldedExactly | internal/coordinator/coordinator.go:218-258 | a run is complete exactly when every batch has an accepted and complete submission that leaves nothing partial or failed and there was anything to cover; it proposes approval exactly when no accepted submission objects |
| Accounting.ProposedStays | internal/coordinator/coordinator.go:218-247 | a finding that one batch proposes is in the result as it was proposed, whatever the other batches say |
| Accounting.FoldObserves | internal/coordinator/coordinator.go:222-224 | a model was used or a tool executed exactly when it was in some session, and usage is complete exactly when it is for all of them |
| Accounting.OwnBatchDecides | internal/coordinator/coordinator.go:164-168 | a prior finding ends as its own batch alone left it, untouched when that batch failed, reassessed exactly once in a complete run |
| Accounting.FoldIsRun | internal/coordinator/coordinator.go:216-240 | folding any batches in order is a run: what was accepted now is a validated review whatever the other batches did before it, what was stored is a replay |
| Accounting.RunKeepsRecord | internal/coordinator/coordinator.go:216-240 | every fold, whatever sessions answered and checkpoints held, leaves findings their histories describe and only appends |
| Accounting.RunGoodExactly | internal/coordinator/coordinator.go:216-240 | it keeps every lifecycle invariant if and only if each replayed submission is careful with its own batch's findings as they are now |
| Accounting.RunFreshExactly | internal/coordinator/coordinator.go:216-240 | its findings end with fresh evidence if and only if they began so and no replay acknowledges one of them with used evidence |
| Accounting.RunSyncExactly | internal/coordinator/coordinator.go:216-240 | it keeps findings in step with the boxes of the report it started from if and only if its replays spare human acknowledgements |
| Accounting.FoldCountsOnce | internal/coordinator/coordinator.go:220-222 | every usage event of a run is counted, and none twice, replays included |
| Accounting.SplitRunIncomplete | internal/coordinator/coordinator.go:216-252 | a complete run has no batch that lacks an enclosing unit, whatever its sessions did |
| Accounting.SnapshotIsSameTask | internal/copilot/registry.go:76-107 | the registry's snapshot describes the work and findings of the assignment it started from |
| Verdicts.DeriveVerdict | internal/review/policy.go:28-60 | approved if and only if fresh, complete, covered, proposed and without a present or unknown gating finding |
| Approval.RunReview | internal/coordinator/coordinator.go:46-129 | takes over the human's boxes, reuses exactly when fingerprint, snapshot and a complete covered run allow, otherwise records a reviewed run with its derived verdict; sources merged and pruned either way; fails exactly when the boxes cannot be taken over or a needed review fails |
| Approval.ReviewBatches | internal/coordinator/coordinator.go:131-252 | planning, budget, concurrent sessions and ordered fold together come to what running the batches one by one would |
| Approval.ReviewWithinLimits | internal/coordinator/coordinator.go:131-216 | no batch exceeds a session, no more sessions start than the budget allows nor run at once than configured, and a batch has a result only from its session or its checkpoint |
| Approval.ApprovalEarned | internal/coordinator/coordinator.go:216-252 | a complete approving fold: every batch whole, accepted, complete and approving, units with requirements covered only once retrieved and with their enclosing units, every planned and inventory unit covered once and done |
| Approval.RunReports | internal/coordinator/coordinator.go:252-252 | a fresh review records every excluded and every planned unit once and no other, the excluded ones as the policy has them |
| Approval.ApprovedExactly | internal/coordinator/coordinator.go:95-118 | a fresh review approves exactly when every batch has an accepted, complete submission that does not object and leaves nothing partial or failed, there was anything to cover, and no finding of a gating category is present or unknown |
| Approval.ProposedGateBlocks | internal/coordinator/coordinator.go:218-247 | a new finding of a gating category excludes approval, whatever its submission proposes and the other batches say |
| Approval.ReusedExactly | internal/coordinator/coordinator.go:83-83 | the stored review is used again exactly when snapshot and fingerprint are those of the input and its last run was made of it, complete and with every unit done |
| Approval.DecisionAnswersInput | internal/coordinator/coordinator.go:83-118 | every decision, reused or fresh, ends in a run made of this very input |
| Approval.ChangedExactly | internal/coordinator/coordinator.go:83-98 | what is reused is the stored review with the moved boxes taken over, and there is something to publish exactly when a box was moved, an older report is left or a review was made |
| Approval.ApprovedInput | internal/coordinator/coordinator.go:83-118 | an approval says of this very input that no finding of a gating category is present or unknown and every unit of its inventory is covered or excluded |
| Approval.ReviewedIsWarranted | internal/coordinator/coordinator.go:107-126 | a fresh review leaves an earned approval or none |
| Approval.EditKeepsWarrant | internal/markdown/codec.go:162-199 | checkbox edits cannot spoil a recorded approval |
| Approval.StoringKeepsWarrant | internal/markdown/codec.go:62-81 | neither can storing the state |
| Approval.DecisionIsWarranted | internal/coordinator/coordinator.go:46-129 | end to end: whenever a run, fresh or reused, decides approved, the approval in the new state is earned |
| Decisions.DecisionIsRun | internal/coordinator/coordinator.go:46-129 | a decision's findings are what a run of the lifecycle makes of the recovered ones: the boxes first, then the batches in order |
| Decisions.DecisionKeepsRecord | internal/coordinator/coordinator.go:46-129 | whatever was reused, accepted or replayed and whatever the sessions answered, nothing recovered is moved, dropped or rewritten and findings are what their histories describe |
| Decisions.DecisionRetains | internal/coordinator/coordinator.go:63-104 | from a durable state every decision's state is durable and passes the publisher's retention check if and only if reread notes agree: boxes taken over, review reused or made, batches accepted, failed, skipped or replayed |
| Decisions.DecisionFreshExactly | internal/coordinator/coordinator.go:46-129 | a run keeps evidence fresh if and only if no replayed submission acknowledges a finding, as it is after the boxes were taken over, with used evidence |
| Decisions.DecisionGoodExactly | internal/coordinator/coordinator.go:46-129 | it keeps every lifecycle invariant if and only if its replays are careful with the findings as they are then |
| Decisions.DecisionInStep | internal/coordinator/coordinator.go:63-68 | the decision is in step with the boxes of the recovered report if and only if its replays spare the boxes a human has ticked |
| Decisions.DecisionLeavesUntouched | internal/markdown/codec.go:162-199 | as long as no human touched the boxes of the recovered report, reading them again, as publication does, changes nothing about the decision |
| Soundness.HonestIsVetted | internal/coordinator/coordinator.go:153-240 | if sessions and checkpoints hold only submissions that are valid for their tasks, so do the executions of every review, each with sources that are known |
| Soundness.DecisionIsSound | internal/coordinator/coordinator.go:46-129 | a decision over a sound state is sound (recorded, with provenance, its approval earned) and the end of a lifecycle run from it |
| Soundness.CarriedIsSound | internal/gitlab/publish.go:275-461 | whatever publication makes of a sound state, late boxes included, is sound and a continuation of it |
| CurrentReport.SelectCurrentReport | internal/gitlab/publish.go:582-620 | heads, twins and the order of the superseded, or a conflict exactly when heads are not twins |
| CurrentReport.SelectableExactly | internal/gitlab/publish.go:586-609 | a report can be selected exactly when some report is named by no other and all such agree in generation, predecessor and digest |
| CurrentReport.SelectedExactly | internal/gitlab/publish.go:610-619 | the newest unnamed report is current and every other report is superseded once, the oldest first |
| CurrentReport.ChainSelects | internal/gitlab/publish.go:582-620 | on a chain the newest report is current, the rest superseded oldest first, never a conflict |
| CurrentReport.TwinsThenSuccessorConflict | internal/gitlab/publish.go:582-620 | two stored notes of one create followed by another generation do conflict: why at most one note per create is assumed |
| Server.HumansKeepLedger | internal/gitlab/publish.go:126-190 | no human action changes the line of reports or spoils a note |
| Server.HumansKeepLedgerAll | internal/gitlab/publish.go:126-190 | neither does any number of them between two calls |
| Server.NoteServer.CreateNote | internal/gitlab/publish.go:318-328 | at most one note is stored, and it may have been when the reply is lost |
| Server.NoteServer.UpdateNote | internal/gitlab/publish.go:337-341 | the newest report is rewritten or everything is as before |
| Server.NoteServer.GetNote | internal/gitlab/publish.go:388-393 | the one call that reads a note by itself; what it returned is remembered |
| Server.NoteServer.DeleteNote | internal/gitlab/publish.go:533-548 | a deletion at either end of the chain, acknowledged or not, leaves a chain, and removes what the note says at that moment |
| Publication.RecoverFrom | internal/gitlab/publish.go:87-124 | recovers the selection, or stops exactly for an unacceptable owned note or conflicting heads |
| Publication.RecoverableExactly | internal/gitlab/publish.go:255-273 | exactly which note of the bot is accepted: public, a valid state of this merge request with bound controls, and publication data that fit the note and the state's digest |
| Publication.ChainRecovers | internal/gitlab/publish.go:87-124 | a well-kept store recovers its last report and, oldest first, the rest |
| Publication.StorableEntry | internal/gitlab/publish.go:741-791 | a state with its own digest makes an entry recovery accepts, before and after it knows its note |
| Publication.ReportsToRetire | internal/gitlab/publish.go:833-850 | superseded reports and then the former current one, each once, never the successor |
| Publication.RetiresAllOthers | internal/gitlab/publish.go:833-850 | what is retired is every report but the successor, from the oldest on |
| Publication.InStep | internal/gitlab/publish.go:383-426 | findings that follow a report's are in step with it if and only if each that was drawn with a box is |
| Publication.LateControlsSettle | internal/gitlab/publish.go:383-426 | after the late reconciliation every box that was drawn is settled by its last position |
| Publication.LateBoxesObeyed | internal/gitlab/publish.go:383-426 | the same for the successor as it was prepared and the predecessor as it was reread, when the request was in step with it |
| Undisturbed.CandidatesRemovable | internal/gitlab/publish.go:495-528 | undisturbed, every report that was recovered passes the cleanup checks when its provenance is retained |
| Publisher.ReportPublisher.Recover | internal/gitlab/publish.go:87-124 | on a well-kept store recovery never reports a conflict |
| Publisher.ReportPublisher.VerifyReport | internal/gitlab/publish.go:441-461 | what was written is read back: same owner, same body, same publication |
| Publisher.ReportPublisher.FindGeneration | internal/gitlab/publish.go:472-493 | the newest stored report of a generation, predecessor and digest; none found means none stored, and a failed recovery is an error |
| Publisher.ReportPublisher.ResumeSuccessor | internal/gitlab/publish.go:349-381 | a publication of the same generation continues on its note, rewriting at most that report |
| Publisher.ReportPublisher.DraftState | internal/gitlab/publish.go:283-317 | the draft is the requested state with the current report's boxes taken over, digested; a valid request that has all its findings and fits is always drafted |
| Publisher.ReportPublisher.PrepareSuccessor | internal/gitlab/publish.go:275-347 | a stored, verified successor of this generation is the newest report, or the store is as it was; nothing is removed; undisturbed it succeeds for a request that can be drafted |
| Publisher.ReportPublisher.ReconcileLateControls | internal/gitlab/publish.go:383-426 | the reread predecessor's boxes are folded in and stored, or the successor stays as prepared, as it does when nobody moved a box |
| Publisher.ReportPublisher.EnsureCleanupSafe | internal/gitlab/publish.go:495-528 | every candidate was unreplied when the discussions were listed, was reread as an own report unchanged where a body was expected, and has its provenance kept |
| Publisher.ReportPublisher.DeleteSuperseded | internal/gitlab/publish.go:533-548 | deletes oldest first, so a stop leaves a chain with the same newest report; each deleted report still showed its state |
| Publisher.ReportPublisher.RemoveUnpublishedSuccessor | internal/gitlab/publish.go:572-580 | the stale path withdraws only the note this attempt created, and success means it is gone |
| Publisher.ReportPublisher.VerifyOnlyCurrent | internal/gitlab/publish.go:550-559 | success means exactly one report of this generation is left |
| Publisher.ReportPublisher.Publish | internal/gitlab/publish.go:126-190 | an attempt that is not for the head that is there, or whose expectation is malformed, stops and changes nothing; every look at freshness precedes what it guards, so an attempt that finds the merge request moved on creates or deletes nothing after that; however it ends, reports form a chain, nothing is lost and the newest report says what it said or what was requested; on success one report is left that fits and was read back, every look was fresh, every replaced report was without replies and deleted with the state it had and its provenance is retained, and if the direct predecessor said at its deletion what it said when last read, its last box positions are obeyed by a request in step with it; on a server nobody disturbs, without replies and with the expected head, kept provenance and a valid request that fits, it succeeds |
| Publisher.ReportPublisher.RecoverHead | internal/gitlab/publish.go:130-139 | recovery goes on only for the expected note and generation, for no report when none is expected, or for a report of this generation behind the expected note |
| Publisher.ReportPublisher.WithdrawStale | internal/gitlab/publish.go:145-153 | what a stale attempt created is withdrawn and nothing else |
| Publisher.PublishRepeatedly | internal/gitlab/publish.go:126-190 | after any number of attempts, each stopped anywhere, one chain, still a report, and no finding gone from the current one |
| EndToEnd.Finish | internal/coordinator/coordinator.go:264-287 | a last look at freshness and a publication for the head that is there; a stale review is published, if at all, under a name of its own and the run fails |
| EndToEnd.ReviewAndPublish | internal/coordinator/coordinator.go:46-129 | a whole run over the server: chain, report and findings survive any ending, and the newest report continues the one before, sound if that was and the host validated what it accepted; when it replaces the recovered report, that report was deleted with its state and, if deleted as last read, the last position of each of its boxes settles its finding, unless a replay overrode a tick |
| EndToEnd.RunRepeatedly | internal/coordinator/coordinator.go:46-129 | after any number of runs, each ending anywhere: findings only grow and stay recorded, they are the end of one lifecycle run, and a sound or empty store is sound |
| Text.EscapeHasNoAngles | internal/markdown/codec.go:564-584 | escaped text can open no tag and no comment |
| Text.UnescapeEscape | internal/markdown/codec.go:564-584 | a Markdown reader sees exactly the text that was escaped |
| ReportText.CountJoin | internal/markdown/codec.go:215-223 | occurrences add up over pieces that decide where a marker starts |
| ReportText.ParseMarkerText | internal/markdown/codec.go:35-35 | the marker pattern reads back the fields that were written |
| ReportText.DecodeMarked | internal/markdown/codec.go:215-255 | a text with one state marker between decided parts decodes to its state |
| Rendering.EncodeReport | internal/markdown/codec.go:83-117 | the builder writes verdict, counts, sections, disclaimer and marker, failing exactly for invalid or oversized states; what a reader finds in the text is said by `Reading.ReportShows` and `Reading.SummaryShows` |
| Markers.BodyHolds | internal/markdown/codec.go:472-543 | the body holds no state marker and each finding's marker once, whatever the text |
| Markers.ReportRoundTrip | internal/markdown/codec.go:83-138 | for any valid state and any finding text: exactly one state marker, exactly one marker per finding, and decoding gives the canonical state |
| Reading.FindingRead | internal/markdown/codec.go:502-543 | a finding tells the reader one box as it stands, none for an AI acknowledgement, its own title unescaped, under the headings it stands below, and what stands below it; nothing if a blank line splits its title |
| ItemBody.BelowRead | internal/markdown/codec.go:530-542 | below an item a reader finds the finding's own explanation, its assessment unless it is addressed, and the first line of every piece of evidence in order |
| Reading.StaysEscaped | internal/markdown/codec.go:564-584 | escaping moves no blank line: a written title keeps its list item open exactly when no blank line splits the title itself |
| Reading.ReportShows | internal/markdown/codec.go:83-117 | for every valid state the reader finds, in the order of the report, exactly the items of the findings whose titles are not split: box, title, category and subcategory, explanation, assessment and evidence |
| Reading.ReadsBackExactly | internal/markdown/codec.go:119-138 | read with this reader, a written report has the rendered controls and decodes to its canonical state if no shown title is split, and does not decode otherwise |
| Reading.SplitTitleIsLost | internal/markdown/codec.go:528-528 | the report of one open finding whose title holds a paragraph break does not decode |
| Reading.SummaryShows | internal/markdown/codec.go:90-95 | the head of a report names the recorded verdict of the latest run and the number of findings in either section |
| Tokens.EventCollector.Handle | internal/copilot/telemetry.go:60-142 | wrapped totals of the true sums over distinct calls, integrity lost exactly on the first failure, one cancel |
| Tokens.CountersAreTrue | internal/copilot/telemetry.go:77-91 | the counters hold what the distinct calls report, each at its first report, negative and missing numbers as nothing |
| Tokens.FailedExactly | internal/copilot/telemetry.go:60-112 | a session has failed exactly when some observation was of another model, of a call that was not the user's own, or took a counter beyond its budget; usage is fully known exactly when every report tells what it should |
| Tokens.EventCollector.UsageReport | internal/copilot/telemetry.go:218-233 | reports exactly the distinct calls counted, complete exactly when some call was seen and every call was fully known |
| Tokens.BudgetTrips | internal/copilot/telemetry.go:99-101 | a budget up to 2^63 catches every session that truly exceeds it |
| Tokens.BudgetEnforcedExactly | internal/copilot/telemetry.go:99-101 | an input or output budget is enforced on every session if and only if it is at most 2^63 |
| Tokens.FailureSticks | internal/copilot/telemetry.go:154-161 | a failure is never taken back |
| Tokens.AddUint64 | internal/gitlab/labels.go:243-248 | exact or an error, never a wrap |
| Tokens.UsageEventTotal | internal/gitlab/labels.go:232-241 | the reported total, or input plus output, or an error on overflow |
| Tokens.ReportedTokenUsage | internal/gitlab/labels.go:181-230 | an error or the exact sum over sessions of the largest cumulative value, else all deltas; a function of the set of events, so independent of order and duplicates |
| Tokens.ReportableExactly | internal/gitlab/labels.go:190-230 | usage can be reported exactly when events are named, no name stands for two, and no addition overflows 64 bits |
| Tokens.SessionIsLargest | internal/gitlab/labels.go:181-230 | a session with cumulative events is worth the largest of them, one without events nothing |
| Tokens.CallAdds | internal/gitlab/labels.go:203-216 | without cumulative events each of its calls adds its total, or input plus output, and no other event adds anything |
| Tokens.SessionAdds | internal/gitlab/labels.go:217-229 | the total adds up over sessions |
| Tokens.CollectedTotalIsTrue | internal/copilot/telemetry.go:218-233 | what one collector reports is worth its true sums, and countable exactly when they fit 64 bits |
| Scan.LimitedBuffer.Write | internal/repository/analyzer.go:179-191 | keeps what fits and remembers overflow; any write to a full buffer, even an empty one, is an error |
| Scan.RunLimited | internal/repository/analyzer.go:96-121 | however output is split into writes, it is returned whole exactly when every write finds room, which for non-empty writes is when it fits |
| Scan.RunStructuralScan | internal/repository/scan.go:35-90 | a page handles the files behind the cursor up to its own: their matches, their output in order, one limitation for each that cannot fit, at least one eligible file if more remain, and stops early only before an eligible file that no longer fits |
| Scan.PageIsFull | internal/repository/scan.go:63-75 | every eligible file of a page but the first was within what the others had left, and the next one behind it is too large or finds too little left |
| Scan.PageIsDetermined | internal/repository/scan.go:35-90 | files, limits and cursor determine the page |
| Scan.FileStandsForItself | internal/repository/scan.go:47-86 | each file contributes on its own: an eligible one within both limits its matches and output, an eligible one beyond either a limitation, any other nothing |
| Scan.CursorAdvances | internal/repository/scan.go:47-89 | the cursor increases strictly and continues right behind its file |
| Scan.ScanToEnd | internal/repository/scan.go:47-89 | following the cursor equals one unlimited scan, each eligible file once and in path order, in at most as many pages as eligible files |
| Retrieval.RunGitChunk | internal/repository/analyzer.go:123-171 | the chunk at an offset, its continuation, completeness and size, including offsets past the end |
| Retrieval.ReadSource | internal/repository/retrieve.go:17-47 | a piece of the blob within the limit; complete exactly when nothing follows, which is when it reaches the end; total always the blob's size |
| Retrieval.FollowContinuations | internal/copilot/registry.go:49-74 | chunks join to exactly the blob in the fewest reads, all accepted, the unit retrieved at the last |
| Retrieval.AssignmentRegistry.RegisterSource | internal/copilot/registry.go:28-45 | accepted exactly when new or identical; otherwise nothing changes |
| Retrieval.AssignmentRegistry.RecordUnitRetrieval | internal/copilot/registry.go:49-74 | accepted exactly for the expected offset with a valid continuation; a rejected read changes nothing |
| Retrieval.RecordedMeans | internal/copilot/registry.go:63-72 | a recorded read makes the unit retrieved and expected from the start, or moves its expected offset forward; other units, findings and sources stay |
| Retrieval.AssignmentRegistry.ReadUnit | internal/coordinator/tools.go:45-63 | the read tool: nothing is recorded unless the read and the registration succeeded |
| Retrieval.OffsetsAreHonest | internal/copilot/registry.go:49-74 | whatever is asked, a unit's expected offset is a position up to which every byte was returned in order |
| Retrieval.RetrievedOnceCompleted | internal/copilot/registry.go:49-74 | a unit counts as retrieved exactly from its first completing read on |
| Retrieval.CompletionReturnsAll | internal/copilot/registry.go:49-74 | completion means the whole blob was returned |
| Retrieval.CoveredWasRead | internal/review/validate.go:262-283 | a unit with a requirement can be reported covered only after its whole blob was returned in order |
| Retrieval.ServeCalls | internal/copilot/registry.go:28-80 | any calls only ever add to an assignment |
| Retrieval.GrowingKeepsValid | internal/copilot/registry.go:76-107 | a submission valid against one snapshot stays valid against every later one |
| Labels.ValidateDesiredScopes | internal/gitlab/labels.go:261-274 | accepts exactly the label sets with at most one label per scope |
| Labels.DeriveLabels | internal/gitlab/labels.go:32-92 | the desired labels are exactly the fixed ones and those some mapping calls for, exclusive per scope, with the managed names, scopes and prefixes and the exact token total; fails exactly when usage cannot be counted, a mapping has no label or a bad one, or two labels share a scope |
| Labels.LabelsMean | internal/gitlab/labels.go:94-179 | what each source reads of the run and which labels it calls for: the label of its value, one for every name, the exact total or the first fitting bucket, or the label for what is missing |
| Labels.DesiredExactly | internal/gitlab/labels.go:32-92 | a label is desired exactly when it is fixed or some mapping gives it, and a given one is not blank, at most 255 long and on one line |
| Labels.ManagedExactly | internal/gitlab/labels.go:33-66 | a label is managed exactly when it is reserved or fixed, in a reserved scope or that of a fixed label, or what some mapping can name, scope or prefix |
| Labels.MappingFailsExactly | internal/config/config.go:663-705 | a validated mapping has no label if and only if it sorts usage into buckets and the total lies beyond them all |
| Labels.ExclusiveExactly | internal/gitlab/labels.go:261-274 | under a validated configuration derived labels are exclusive if and only if no label made from a model or tool name meets another derived label in its scope |
| Labels.DerivedAreExclusive | internal/config/config.go:640-656 | so they are as long as no model or tool name holds a colon |
| Labels.ColonNamesCompete | internal/gitlab/labels.go:261-274 | two model names with the same text before a last double colon give labels that share a scope |
| Labels.ScopeExactly | internal/gitlab/labels.go:276-282 | a label's scope is what stands before its last double colon, if something stands on either side |
| Labels.SameScope | internal/gitlab/labels.go:276-282 | the scope of a generated label comes from its prefix alone |
| Labels.DerivedAreManaged | internal/gitlab/labels.go:51-77 | under a validated configuration every derived label is managed |
| Labels.EarlierLabelsRetracted | internal/gitlab/labels_sync.go:18-59 | a label an earlier run derived survives a verified sync only if it is still desired |
| Labels.SyncLabels | internal/gitlab/labels_sync.go:18-59 | success means verified labels whatever others did; on a faithful server it succeeds, every label nobody manages stays, and of the managed ones exactly the desired are left |
| Labels.VerifyManagedLabels | internal/gitlab/labels_sync.go:114-132 | accepts exactly when nothing desired is missing and nothing managed is stale |
| Labels.SecondSyncIdle | internal/gitlab/labels_sync.go:18-59 | settled labels leave a second sync nothing to add or remove |
| Labels.SyncTwice | internal/gitlab/labels_sync.go:18-59 | derive and sync twice: the first settles, the second changes nothing |
| Labels.VerifiedOnePerScope | internal/gitlab/labels_sync.go:99-132 | at most one label in each managed scope |

## Left out

- Validation.ValidateSubmission: prose and location checks, error texts and their order, and the JSON schema are not modelled; what the schema adds to the proofs is the predicate SchemaOk.
- Validation.CheckReassessments: accepts any explanation and any evidence location.
- Validation.CheckReassessmentEvidence: accepts any explanation and any evidence location.
- Planner.AdmitsExactly: of the schema only its non-empty lists without repetition are modelled; lengths, patterns and the prose check are not.
- Reconciliation.Reconcile: requires unique prior ids, which decoding guarantees; slices shared between the old and the new findings are values here; random ids are inputs.
- ReportCodec.ValidateState: enumeration values outside the domain exist only for category and subcategory; the others are closed datatypes.
- Reconciliation.EvidenceRefsExact: the ids of matched findings come from the caller; production passes no matches.
- Lifecycle.RunsAreGood: replays in the run must be careful; `Lifecycle.RunsGoodExactly` says that this is also necessary, and what every run keeps without it is `Lifecycle.RunsAreRecorded`.
- Lifecycle.LastPositionDecides: a box is read from the list of controls; recognising list items and markers in Markdown is not part of this model.
- ReportCodec.DecodeEncode: here a report is its state and its rendered controls, which the text carries exactly when no shown title is split (`Reading.ReadsBackExactly`); the limit on its payload belongs to `Rendering.EncodeReport`.
- Markers.ReportRoundTrip: the Markdown parser is a parameter; `Reading.ReadsBackExactly` says when a reader of lines finds the rendered controls.
- Reading.ReadsBackExactly: the reader knows list items, headings, blank lines and markers; the rest of Markdown, a second marker in one item, and lines ended by a carriage return alone are not modelled.
- Reading.ReportShows: of each piece of evidence only the first line is read, as it is written, and a withheld text is read as the sentence that replaces it.
- Planner.PlanCoversInventory: inventory ids are distinct in the source, so the order among equal ids is not modelled.
- Coordinator.PlanExecutions: a checkpoint key is the pair of sets it is built from, not its digest; failing to draw a random submission id is not modelled.
- Accounting.CoveredExactlyOnce: a replayed submission is assumed to have been validated against the same units, unit requirements and finding ids in an earlier run.
- Approval.RunReview: the recheck and the publication that follow are in `EndToEnd`; dry runs and labels are left out, and the order of records with one id is that of the merge.
- Approval.DecisionIsWarranted: the gating categories and the inventory are what the input fingerprint digests of its input.
- Decisions.DecisionRetains: what replayed sessions had been offered is taken to be public now as well, since the fingerprint they share digests the notes.
- EndToEnd.ReviewAndPublish: that accepted submissions were validated for their tasks is a premise of the clauses about boxes and soundness; repairing labels of an unchanged report is not modelled.
- EndToEnd.RunRepeatedly: what fingerprints digest is one assignment for all runs.
- Publisher.ReportPublisher.PrepareSuccessor: that the draft fits is asked for every note id, while the source probes with the largest one.
- Server.NoteServer.CreateNote: at most one note per create.
- Publisher.ReportPublisher.VerifyReport: GitLab's removal of one final newline is not modelled.
- Publisher.ReportPublisher.Publish: an edit between the final reread of the predecessor and its deletion is lost, as the source documents, and that is what the condition on the two bodies excludes; edits on older superseded reports and on the successor between its create and its last update are not merged; report size is a predicate; labels are synchronised separately.
- Publisher.ReportPublisher.ResumeSuccessor: resuming after the predecessor was already deleted stops with a read failure, as in the code; success is claimed for new generations only.
- Publication.RecoverFrom: trailing slashes of the base URL, trailing newlines GitLab strips and legacy unprefixed digests are not modelled.
- Provenance.ValidateRetainedSourceRecords: the check of visible sources against restricted references is not modelled.
- Tokens.EventCollector.Handle: tool, skill and reasoning events and diagnostics are not modelled.
- Tokens.EventCollector.UsageReport: observed models and tools are left empty; only usage is reported here.
- Scan.RunStructuralScan: which files are eligible, what the scanner prints and how it decodes are inputs; failing git or scanner processes are not modelled.
- Retrieval.RetrievedOnceCompleted: reads of a unit are taken to be reads of one blob; the registry itself binds a unit to offsets, not to a path.
- Retrieval.ReadSource: diff and search reads go through the same chunking and are not modelled separately.
- Labels.SyncLabels: a server that rejects a label definition, and scoped labels the server itself makes exclusive, are not modelled.
- Labels.DeriveLabels: lists are sets, and blank means ASCII white space.
- The HTTP client, credentials, pagination, the Copilot runtime, process execution, the inventory builder and configuration loading: wiring around the modelled logic.
- Prompt construction and the association of notes with findings by title: text heuristics that only choose inputs.
