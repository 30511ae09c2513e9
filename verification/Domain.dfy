/** The durable review domain: findings, their append-only histories, submissions
    by the model, and the assignments the host validates them against.
    Identifiers are strings and an instant is an integer whose zero stands for
    the unset time. */
module Domain {

  type FindingId = string
  type UnitId = string
  type SourceId = string
  type RunId = string
  type Instant = int

  datatype Option<+T> = None | Some(value: T)

  datatype Result<+T> = Ok(value: T) | Err

  // The two enumerations that drive rendering keep a constructor for values
  // outside the bounded domain, because the codec has to reject them.
  datatype Category = Blocker | Risk | Question | Info | OtherCategory(name: string)

  datatype Subcategory =
    | Security | Corrections | Reliability | Maintenance | Operational | SubInfo
    | OtherSubcategory(name: string)

  datatype Relationship = Introduced | Regressed | PreExisting | UnknownRelationship

  datatype Assessment = Present | Addressed | NotApplicable | Unknown

  datatype FindingState = Open | Acknowledged

  datatype Method = Checkbox | AIDiscussion | AICodeChange

  datatype Action = Acknowledge | Reopen

  datatype Verdict = Approved | NeedsReview

  datatype Completion = Complete | Partial

  datatype Outcome = Covered | PartlyCovered | Failed | ExcludedByPolicy

  datatype SourceKind =
    | RepositorySource | RepositoryDiff | RepositorySearch | RepositoryAST
    | GitLabDiscussion | GitLabNote

  datatype Location = Location(path: string, startLine: nat, endLine: nat)

  datatype Evidence = Evidence(explanation: string, refs: seq<SourceId>, locations: seq<Location>)

  datatype Ack = Ack(how: Method, refs: seq<SourceId>, at: Instant)

  datatype EventKind = Created | Reassessed | WasAcknowledged | Reopened

  datatype Event = Event(
    kind: EventKind,
    at: Instant,
    run: RunId,
    assessment: Option<Assessment>,
    how: Option<Method>,
    refs: seq<SourceId>)

  datatype Finding = Finding(
    id: FindingId,
    identityKey: string,
    category: Category,
    subcategory: Subcategory,
    relationship: Relationship,
    title: string,
    explanation: string,
    evidence: seq<Evidence>,
    units: seq<UnitId>,
    assessment: Assessment,
    state: FindingState,
    ack: Option<Ack>,
    rendered: Option<bool>,
    history: seq<Event>,
    firstSeen: Instant,
    lastSeen: Instant)

  datatype SubmittedFinding = SubmittedFinding(
    identityKey: string,
    category: Category,
    subcategory: Subcategory,
    relationship: Relationship,
    title: string,
    explanation: string,
    evidence: seq<Evidence>,
    units: seq<UnitId>)

  datatype Reassessment = Reassessment(
    finding: FindingId,
    assessment: Assessment,
    explanation: string,
    evidence: seq<Evidence>,
    units: seq<UnitId>)

  datatype Transition = Transition(
    finding: FindingId,
    action: Action,
    how: Method,
    refs: seq<SourceId>)

  datatype UnitCoverage = UnitCoverage(unit: UnitId, outcome: Outcome)

  datatype Submission = Submission(
    verdict: Verdict,
    completion: Completion,
    findings: seq<SubmittedFinding>,
    reassessments: seq<Reassessment>,
    transitions: seq<Transition>,
    coverage: seq<UnitCoverage>)

  datatype Known = Known(state: FindingState, ack: Option<Ack>, consumed: set<SourceId>)

  // `enclosing` is empty when the unit needs no enclosing assessment.
  datatype Requirement = Requirement(retrieved: bool, enclosing: UnitId)

  // `finding` is empty when the source is not associated with one finding.
  datatype SourceRef = SourceRef(kind: SourceKind, human: bool, finding: FindingId, consumed: bool)

  datatype Assignment = Assignment(
    units: set<UnitId>,
    requirements: map<UnitId, Requirement>,
    findings: map<FindingId, Known>,
    sources: map<SourceId, SourceRef>)

  datatype SourceRecord = SourceRecord(
    id: SourceId,
    kind: SourceKind,
    author: string,
    human: bool,
    body: string,
    at: Instant)

  // ----- Durable state -----

  const UINT64_LIMIT: nat := 0x1_0000_0000_0000_0000

  type Uint64 = x: int | 0 <= x < UINT64_LIMIT

  datatype ModelObservation = ModelObservation(session: string, model: string)

  datatype ToolExecution = ToolExecution(session: string, tool: string, succeeded: bool)

  datatype UsageEvent = UsageEvent(
    id: string,
    session: string,
    input: Uint64,
    output: Uint64,
    total: Uint64,
    cumulative: bool)

  datatype Telemetry = Telemetry(
    requested: seq<string>,
    observed: seq<ModelObservation>,
    tools: seq<ToolExecution>,
    usage: seq<UsageEvent>,
    usageComplete: bool)

  datatype Run = Run(
    id: RunId,
    fingerprint: string,
    completion: Completion,
    verdict: Option<Verdict>,
    coverage: seq<UnitCoverage>,
    telemetry: Telemetry)

  datatype MergeRequest = MergeRequest(baseURL: string, project: string, iid: int)

  type NoteId = int

  // SHA-256 over the canonical payload is taken to be injective: a digest is
  // the state it was computed from.
  datatype Digest = NoDigest | DigestOf(state: State)

  datatype Publication = Publication(
    generation: string,
    note: NoteId,
    predecessor: NoteId,
    digest: Digest,
    publishedAt: Instant)

  datatype State = State(
    schema: int,
    mr: MergeRequest,
    snapshot: string,
    fingerprint: string,
    findings: seq<Finding>,
    sources: seq<SourceRecord>,
    runs: seq<Run>,
    publication: Option<Publication>)

  // ----- Sets and sequences of identifiers -----

  function SetOf<T>(s: seq<T>): set<T> {
    set x | x in s
  }

  predicate DistinctSeq<T(==)>(s: seq<T>) {
    forall i, j :: 0 <= i < j < |s| ==> s[i] != s[j]
  }

  function FindingIds(fs: seq<Finding>): set<FindingId> {
    set i | 0 <= i < |fs| :: fs[i].id
  }

  lemma FindingIdsAppend(fs: seq<Finding>, f: Finding)
    ensures FindingIds(fs + [f]) == FindingIds(fs) + {f.id}
  {
    var all := fs + [f];
    assert all[|fs|].id == f.id;
    forall id | id in FindingIds(fs) ensures id in FindingIds(all) {
      var i :| 0 <= i < |fs| && fs[i].id == id;
      assert all[i].id == id;
    }
  }

  lemma SetOfAppend<T>(s: seq<T>, x: T)
    ensures SetOf(s + [x]) == SetOf(s) + {x}
  {
  }

  predicate UniqueIds(fs: seq<Finding>) {
    forall i, j :: 0 <= i < j < |fs| ==> fs[i].id != fs[j].id
  }

  predicate IsAI(ack: Option<Ack>) {
    ack.Some? && ack.value.how != Checkbox
  }

  // ----- Source references -----

  function EvidenceRefSet(evidence: seq<Evidence>): set<SourceId> {
    set e, id | e in evidence && id in e.refs :: id
  }

  function AckRefSet(ack: Option<Ack>): set<SourceId> {
    if ack.None? then {} else SetOf(ack.value.refs)
  }

  function HistoryRefSet(history: seq<Event>): set<SourceId> {
    set e, id | e in history && id in e.refs :: id
  }

  /** Every source a finding cites: in its evidence, its acknowledgement or its history. */
  function FindingRefSet(f: Finding): set<SourceId> {
    EvidenceRefSet(f.evidence) + AckRefSet(f.ack) + HistoryRefSet(f.history)
  }

  function AllRefs(fs: seq<Finding>): set<SourceId> {
    set f, id | f in fs && id in FindingRefSet(f) :: id
  }

  // ----- Looking up the entry for one finding; a later entry shadows an earlier one -----

  function FindReassessment(rs: seq<Reassessment>, id: FindingId): (r: Option<Reassessment>)
    ensures r.Some? ==> r.value in rs && r.value.finding == id
    ensures r.None? <==> forall x :: x in rs ==> x.finding != id
  {
    if |rs| == 0 then None
    else if rs[|rs| - 1].finding == id then Some(rs[|rs| - 1])
    else
      assert rs == rs[..|rs| - 1] + [rs[|rs| - 1]];
      FindReassessment(rs[..|rs| - 1], id)
  }

  function FindTransition(ts: seq<Transition>, id: FindingId): (t: Option<Transition>)
    ensures t.Some? ==> t.value in ts && t.value.finding == id
    ensures t.None? <==> forall x :: x in ts ==> x.finding != id
  {
    if |ts| == 0 then None
    else if ts[|ts| - 1].finding == id then Some(ts[|ts| - 1])
    else
      assert ts == ts[..|ts| - 1] + [ts[|ts| - 1]];
      FindTransition(ts[..|ts| - 1], id)
  }

  predicate DistinctReassessments(rs: seq<Reassessment>) {
    forall i, j :: 0 <= i < j < |rs| ==> rs[i].finding != rs[j].finding
  }

  predicate DistinctTransitions(ts: seq<Transition>) {
    forall i, j :: 0 <= i < j < |ts| ==> ts[i].finding != ts[j].finding
  }
}
