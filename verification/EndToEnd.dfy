/** One whole run against the note server (Run and finish,
    internal/coordinator/coordinator.go): recover, take over the boxes, review or
    reuse, and publish under a new generation; and any number of runs one after another. */
module EndToEnd {
  import opened Domain
  import opened Validation
  import opened ReportCodec
  import opened NoteStore
  import opened CurrentReport
  import opened Server
  import opened Publication
  import opened Publisher
  import opened Approval
  import opened Soundness
  import Decisions
  import Lifecycle
  import Provenance
  import Storing

  // What a run brings along beside its input: the names of its two possible
  // publications and the limits of a report.
  datatype Setting = Setting(
    generation: string,
    staleGeneration: string,
    publishedAt: Instant,
    fits: Report -> bool,
    kinds: map<SourceId, SourceKind>)

  // The state of a merge request without a report.
  function InitialState(input: Input, target: MergeRequest): (s: State)
    ensures UniqueIds(s.findings)
  {
    State(1, target, input.capture.snapshot, "", [], [], [], None)
  }

  function RequestFor(d: Decision, recovery: Selection, setting: Setting, generation: string): Request {
    var note, expected :=
      HeadNote(recovery), if recovery.current.Some? then PublicationOf(recovery.current.value).generation else "";
    Request(d.state, generation, note, expected, setting.publishedAt, setting.fits, setting.kinds, [])
  }

  predicate StillReported(l0: seq<Entry>, l: seq<Entry>) {
    |l0| > 0 ==> |l| > 0 && FindingIds(LastOf(l0).state.findings) <= FindingIds(LastOf(l).state.findings)
  }

  /** What the run owes a human who moved the boxes of the recovered report until it was
      deleted: if no replay overrode a ticked box, the last position of each box settles
      its finding. */
  predicate BoxesSettled(last: Entry, recovered: Report, input: Input, started: Instant, vetted: seq<Assignment>,
                         final: State, retired: Body)
    requires UniqueIds(last.state.findings) && InputOk(input)
  {
    && recovered.state == last.state && Shows(retired, last)
    && (SessionsVetted(Edited(last.state, Some(recovered), started), input, vetted) &&
        Decisions.BoxesSpared(last.state, recovered, input, started, vetted) ==>
          AllSettled(final.findings, retired.report))
  }

  // ----- What one run hands to the next -----

  function FindingsIn(l: seq<Entry>): seq<Finding> {
    if |l| == 0 then [] else LastOf(l).state.findings
  }

  ghost predicate SoundIn(l: seq<Entry>, inputsOf: string -> Inputs) {
    |l| > 0 ==> Sound(LastOf(l).state, inputsOf)
  }

  /** The findings of the newest report go on from where they were, with nothing moved,
      dropped or rewritten and recorded as before; and if the host validated what it
      accepted, they are what a run of the lifecycle, storing included, makes of them,
      and a sound report is followed by a sound one. */
  ghost predicate Continues(l0: seq<Entry>, l: seq<Entry>, honest: bool, inputsOf: string -> Inputs) {
    && Lifecycle.Extends(FindingsIn(l0), FindingsIn(l))
    && (Lifecycle.AllRecorded(FindingsIn(l0)) ==> Lifecycle.AllRecorded(FindingsIn(l)))
    && (honest ==>
          && Reaches(FindingsIn(l0), FindingsIn(l))
          && (SoundIn(l0, inputsOf) ==> SoundIn(l, inputsOf)))
  }

  lemma ContinuesSelf(l: seq<Entry>, honest: bool, inputsOf: string -> Inputs)
    ensures Continues(l, l, honest, inputsOf)
  {
    assert Lifecycle.After(FindingsIn(l), []) == FindingsIn(l);
  }

  lemma ReachesThen(start: seq<Finding>, between: seq<Finding>, end: seq<Finding>)
    requires Reaches(start, between) && Reaches(between, end)
    ensures Reaches(start, end)
  {
    var first :| Lifecycle.ValidRun(start, first) && Lifecycle.After(start, first) == between;
    var second :| Lifecycle.ValidRun(between, second) && Lifecycle.After(between, second) == end;
    Lifecycle.RunsJoin(start, first, second);
  }

  lemma ContinuesThen(l0: seq<Entry>, l1: seq<Entry>, l2: seq<Entry>, before: bool, honest: bool,
                      inputsOf: string -> Inputs)
    requires Continues(l0, l1, before, inputsOf) && Continues(l1, l2, honest, inputsOf)
    ensures Continues(l0, l2, before && honest, inputsOf)
  {
    hide Reaches, Sound, Lifecycle.Recorded;
    if before && honest { ReachesThen(FindingsIn(l0), FindingsIn(l1), FindingsIn(l2)); }
  }

  lemma InitialIsSound(input: Input, target: MergeRequest, inputsOf: string -> Inputs)
    ensures Sound(InitialState(input, target), inputsOf)
  {
  }

  ghost predicate Trusted(input: Input, inputsOf: string -> Inputs) {
    Honest(input) && Digests(input, inputsOf)
  }

  // The ledger after a decision over its newest report was delivered.
  lemma DeliveredContinues(d: Decision, s: State, current: Option<Report>, superseded: nat, input: Input,
                           started: Instant, request: Request, l0: seq<Entry>, l: seq<Entry>, target: MergeRequest,
                           inputsOf: string -> Inputs)
    requires UniqueIds(s.findings) && InputOk(input)
    requires Decided(d, s, current, superseded, input, started) && KeepsSources(d, s, input.capture.records)
    requires s == if |l0| > 0 then LastOf(l0).state else InitialState(input, target)
    requires request.state == d.state && request.interactions == [] && Delivers(request, l0, l)
    requires |l0| > 0 ==> |l| > 0
    ensures Continues(l0, l, Trusted(input, inputsOf), inputsOf)
  {
    hide UniqueIds, Decided, KeepsSources, Reaches, Sound, Honest, Digests, Storing.Carries, Lifecycle.Recorded;
    if |l| == 0 || (|l0| > 0 && LastOf(l).state == LastOf(l0).state) {
      ContinuesSelf(l0, Trusted(input, inputsOf), inputsOf);
    } else {
      var t := LastOf(l).state;
      Decisions.DecisionKeepsRecord(d, s, current, superseded, input, started);
      CarriedIsSound(d.state, t, inputsOf);
      if Trusted(input, inputsOf) {
        DecisionIsSound(d, s, current, superseded, input, started, inputsOf);
        ReachesThen(s.findings, d.state.findings, t.findings);
        InitialIsSound(input, target, inputsOf);
      }
    }
  }

  lemma RequestIsObeyed(d: Decision, last: Entry, recovered: Report, superseded: nat, input: Input, started: Instant,
                        vetted: seq<Assignment>, request: Request, final: State, retired: Body, target: MergeRequest)
    requires EntryOk(last, target) && InputOk(input) && recovered.state == last.state
    requires UniqueIds(last.state.findings)
    requires Decided(d, last.state, Some(recovered), superseded, input, started)
    requires request.state == d.state && Shows(retired, last) && BoxesObeyed(request, final, retired)
    ensures BoxesSettled(last, recovered, input, started, vetted, final, retired)
  {
    hide UniqueIds, Decided, SessionsVetted, Decisions.BoxesSpared, SyncWith, AllSettled, Edited, ValidState;
    if SessionsVetted(Edited(last.state, Some(recovered), started), input, vetted) {
      Decisions.DecisionInStep(d, last.state, recovered, superseded, input, started, vetted);
    }
  }

  // A last look at freshness, then publication. A stale review is published, if at
  // all, under a name of its own, and the run fails all the same.
  method Finish(publisher: ReportPublisher, d: Decision, recovery: Selection, setting: Setting)
    returns (r: Attempt<Published>)
    requires publisher.server.Inv()
    modifies publisher.server
    ensures publisher.server.Inv()
    ensures StillReported(old(publisher.server.Reports()), publisher.server.Reports())
    ensures Delivers(RequestFor(d, recovery, setting, setting.generation), old(publisher.server.Reports()),
                     publisher.server.Reports())
    ensures r.Done? ==>
      ForThisHead(RequestFor(d, recovery, setting, setting.generation), old(publisher.server.Reports()))
    ensures
      !ForThisHead(RequestFor(d, recovery, setting, setting.generation), old(publisher.server.Reports())) &&
      !ForThisHead(RequestFor(d, recovery, setting, setting.staleGeneration), old(publisher.server.Reports())) ==>
        r.Stopped? && publisher.server.Reports() == old(publisher.server.Reports())
    ensures old(publisher.server.looks) + [false] <= publisher.server.looks ==> r == Stopped(Stale)
    ensures r.Done? && Replaces(old(publisher.server.Reports()), setting.generation) ==>
      var server, last := publisher.server, LastOf(old(publisher.server.Reports()));
      && last.note in server.retired && last.note in server.lastRead
      && Shows(server.retired[last.note], last)
      && (server.lastRead[last.note] == server.retired[last.note] ==>
            BoxesObeyed(RequestFor(d, recovery, setting, setting.generation), r.value.state, server.retired[last.note]))
  {
    hide WellKept, BoxesObeyed, Storing.Carries, ReadBack, ForThisHead;
    DeliversNothing(RequestFor(d, recovery, setting, setting.generation), publisher.server.Reports());
    var upToDate := publisher.server.CheckFreshness();
    if !upToDate {
      var stale := publisher.Publish(RequestFor(d, recovery, setting, setting.staleGeneration));
      return Stopped(Stale);
    }
    r := publisher.Publish(RequestFor(d, recovery, setting, setting.generation));
    LookedFurther(old(publisher.server.looks), publisher.server.looks);
  }

  lemma LastIsUnique(notes: seq<Note>, nextId: NoteId, bot: int, target: MergeRequest)
    requires WellKept(notes, nextId, bot, target)
    ensures var l := Ledger(notes, bot);
      |l| > 0 ==> EntryOk(LastOf(l), target) && UniqueIds(LastOf(l).state.findings)
  {
  }

  /** However the run ends the reports form a chain, a report is still there, no finding
      has gone and its newest report continues the one before. When it publishes over a
      recovered report, that report is the one it took over, was deleted with its state,
      and if it was deleted as last read, the last position of each of its boxes settles
      its finding unless a replay had overridden a tick. */
  method ReviewAndPublish(publisher: ReportPublisher, input: Input, started: Instant, setting: Setting,
                          ghost vetted: seq<Assignment>, ghost inputsOf: string -> Inputs)
    returns (r: Attempt<Option<Published>>, recovered: Option<Report>)
    requires publisher.server.Inv() && InputOk(input)
    modifies publisher.server
    ensures publisher.server.Inv()
    ensures StillReported(old(publisher.server.Reports()), publisher.server.Reports())
    ensures Continues(old(publisher.server.Reports()), publisher.server.Reports(), Trusted(input, inputsOf), inputsOf)
    ensures r.Done? && r.value.Some? && Replaces(old(publisher.server.Reports()), setting.generation) ==>
      var server, last := publisher.server, LastOf(old(publisher.server.Reports()));
      && recovered.Some? && UniqueIds(last.state.findings)
      && last.note in server.retired && last.note in server.lastRead
      && (server.lastRead[last.note] == server.retired[last.note] ==>
            BoxesSettled(last, recovered.value, input, started, vetted, r.value.value.state, server.retired[last.note]))
  {
    hide UniqueIds, WellKept, EntryOk, Decided, BoxesObeyed, BoxesSettled, Shows, Decode, StillReported, Continues,
      Delivers, KeepsSources, Trusted;
    var server := publisher.server;
    ghost var l0 := server.Reports();
    LastIsUnique(server.notes, server.nextId, server.bot, server.target);
    assert StillReported(l0, l0) by { SameIsReported(l0); }
    ContinuesSelf(l0, Trusted(input, inputsOf), inputsOf);
    recovered := None;
    var recovery := publisher.Recover();
    if recovery.Stopped? { return Stopped(recovery.why), recovered; }
    var s := InitialState(input, server.target);
    if recovery.value.current.Some? {
      recovered := Some(recovery.value.current.value.report);
      s := recovered.value.state;
    }
    var decision := RunReview(s, recovered, |recovery.value.superseded|, input, started);
    if decision.Err? { return Stopped(Invalid), recovered; }
    var d := decision.value;
    if d.reused && !d.changed { return Done(None), recovered; }
    var published := Finish(publisher, d, recovery.value, setting);
    StillThere(l0, server.Reports());
    DeliveredContinues(d, s, recovered, |recovery.value.superseded|, input, started,
                       RequestFor(d, recovery.value, setting, setting.generation), l0, server.Reports(), server.target,
                       inputsOf);
    if published.Stopped? { return Stopped(published.why), recovered; }
    r := Done(Some(published.value));
    if Replaces(l0, setting.generation) && server.lastRead[LastOf(l0).note] == server.retired[LastOf(l0).note] {
      RequestIsObeyed(d, LastOf(l0), recovered.value, |recovery.value.superseded|, input, started, vetted,
                      RequestFor(d, recovery.value, setting, setting.generation),
                      published.value.state, server.retired[LastOf(l0).note], server.target);
    }
  }

  lemma SameIsReported(l: seq<Entry>)
    ensures StillReported(l, l)
  {
  }

  lemma StillThere(l0: seq<Entry>, l: seq<Entry>)
    requires StillReported(l0, l)
    ensures |l0| > 0 ==> |l| > 0
  {
  }

  // ----- Runs one after another -----

  datatype Job = Job(input: Input, started: Instant, setting: Setting)

  ghost predicate AllTrusted(jobs: seq<Job>, inputsOf: string -> Inputs) {
    forall job :: job in jobs ==> Trusted(job.input, inputsOf)
  }

  /** After any number of runs, each ending anywhere: the findings of the newest report
      go on from those of the first, and if the host validated whatever it accepted,
      they are the end of one lifecycle run from there, and a store that was sound, as an
      empty one is, still is. */
  method RunRepeatedly(publisher: ReportPublisher, jobs: seq<Job>, ghost inputsOf: string -> Inputs)
    requires publisher.server.Inv() && forall job :: job in jobs ==> InputOk(job.input)
    modifies publisher.server
    ensures publisher.server.Inv()
    ensures Continues(old(publisher.server.Reports()), publisher.server.Reports(), AllTrusted(jobs, inputsOf), inputsOf)
  {
    hide WellKept, Continues, Trusted, BoxesSettled, StillReported;
    ghost var l0 := publisher.server.Reports();
    ContinuesSelf(l0, AllTrusted([], inputsOf), inputsOf);
    assert jobs[..0] == [];
    for i := 0 to |jobs|
      invariant publisher.server.Inv()
      invariant Continues(l0, publisher.server.Reports(), AllTrusted(jobs[..i], inputsOf), inputsOf)
    {
      ghost var l := publisher.server.Reports();
      var job := jobs[i];
      var r, recovered := ReviewAndPublish(publisher, job.input, job.started, job.setting, [], inputsOf);
      ContinuesThen(l0, l, publisher.server.Reports(), AllTrusted(jobs[..i], inputsOf), Trusted(job.input, inputsOf),
                    inputsOf);
      OneMoreTrusted(jobs, i, inputsOf);
    }
    assert jobs[..|jobs|] == jobs;
  }

  lemma OneMoreTrusted(jobs: seq<Job>, i: nat, inputsOf: string -> Inputs)
    requires i < |jobs|
    ensures AllTrusted(jobs[..i + 1], inputsOf) == (AllTrusted(jobs[..i], inputsOf) && Trusted(jobs[i].input, inputsOf))
  {
    hide Trusted;
    assert jobs[..i + 1] == jobs[..i] + [jobs[i]];
  }
}
