/** What the publisher finds on a server nobody disturbs: the notes it recovered, each
    saying what it said then, and what it wrote itself. */
module Undisturbed {
  import opened Domain
  import opened ReportCodec
  import opened NoteStore
  import opened CurrentReport
  import opened Server
  import opened Ordering
  import opened Publication
  import opened Storing
  import Provenance

  // A report as the bot posted it, without a reply.
  function PostOf(r: Recovered, bot: int): Note {
    Note(r.note, bot, false, Owned(r.report), false)
  }

  predicate Posted(notes: seq<Note>, bot: int, r: Recovered) {
    PostOf(r, bot) in notes
  }

  predicate NoReplies(notes: seq<Note>) {
    forall n :: n in notes ==> !n.replied
  }

  predicate AllPosted(s: Selection, notes: seq<Note>, bot: int) {
    && (s.current.Some? ==> Posted(notes, bot, s.current.value))
    && forall r :: r in s.superseded ==> Posted(notes, bot, r)
  }

  // One note may have come or changed, the others are there as they were.
  predicate OthersStay(before: seq<Note>, after: seq<Note>, id: NoteId) {
    && (forall n :: n in before && n.id != id ==> n in after)
    && (NoReplies(before) ==> NoReplies(after))
  }

  predicate AllStay(before: seq<Note>, after: seq<Note>) {
    (forall n :: n in before ==> n in after) && (NoReplies(before) ==> NoReplies(after))
  }

  lemma NewNoteIsNew(before: seq<Note>, r: Recovered, nextId: NoteId, bot: int, after: seq<Note>)
    requires NotesOk(before + [PostOf(r, bot)], nextId, bot)
    requires OthersStay(before + [PostOf(r, bot)], after, r.note)
    ensures AllStay(before, after)
  {
    var all := before + [PostOf(r, bot)];
    forall n | n in before ensures n in after {
      var i :| 0 <= i < |before| && before[i] == n;
      assert all[i] == n && all[|before|].id == r.note;
    }
  }

  /** However large the id of its note, the report with this state fits. */
  ghost predicate FitsNamed(request: Request, s: State)
    requires s.publication.Some?
  {
    forall id :: id >= 1 && Encode(WithNote(s, id)).Ok? ==> request.fits(Encode(WithNote(s, id)).value)
  }

  lemma PostedIsRead(notes: seq<Note>, nextId: NoteId, bot: int, r: Recovered)
    requires NotesOk(notes, nextId, bot) && Posted(notes, bot, r)
    ensures NoteUnder(notes, r.note) == Some(PostOf(r, bot))
  {
    var i :| 0 <= i < |notes| && notes[i] == PostOf(r, bot);
    var k := IndexOf(notes, r.note).value;
    assert notes[k].id == notes[i].id;
  }

  lemma {:induction false} RecoveredIsPosted(notes: seq<Note>, nextId: NoteId, bot: int, r: Recovered)
    requires NotesOk(notes, nextId, bot) && NoReplies(notes) && r in ReportsIn(notes, bot)
    ensures Posted(notes, bot, r)
  {
    var front, last := notes[..|notes| - 1], notes[|notes| - 1];
    assert notes == front + [last];
    if r in ReportsIn(front, bot) {
      RecoveredIsPosted(front, nextId, bot, r);
    } else {
      assert r == Recovered(last.id, last.body.report);
      assert notes[|notes| - 1] == PostOf(r, bot);
    }
  }

  lemma {:induction false} OthersAreAmong(rs: seq<Recovered>, id: NoteId)
    ensures forall r :: r in Others(rs, id) ==> r in rs
  {
    if |rs| > 0 { OthersAreAmong(rs[..|rs| - 1], id); }
  }

  lemma SelectedIsPosted(notes: seq<Note>, nextId: NoteId, bot: int, s: Selection)
    requires NotesOk(notes, nextId, bot) && NoReplies(notes)
    requires if |ReportsIn(notes, bot)| == 0 then s == Selection(None, []) else SelectsFrom(ReportsIn(notes, bot), s)
    ensures AllPosted(s, notes, bot)
  {
    var rs := ReportsIn(notes, bot);
    if |rs| > 0 {
      RecoveredIsPosted(notes, nextId, bot, s.current.value);
      var others := Others(rs, s.current.value.note);
      SortSorts(others, NoteRank);
      OthersAreAmong(rs, s.current.value.note);
      forall r | r in s.superseded ensures Posted(notes, bot, r) {
        assert r in multiset(s.superseded);
        assert r in multiset(others);
        RecoveredIsPosted(notes, nextId, bot, r);
      }
    }
  }

  lemma RebodiedIsPosted(notes: seq<Note>, nextId: NoteId, bot: int, r: Recovered, body: Report)
    requires NotesOk(notes, nextId, bot) && Posted(notes, bot, r)
    ensures Posted(Rebodied(notes, r.note, body), bot, Recovered(r.note, body))
    ensures OthersStay(notes, Rebodied(notes, r.note, body), r.note)
  {
    PostedIsRead(notes, nextId, bot, r);
    var i, after := IndexOf(notes, r.note).value, Rebodied(notes, r.note, body);
    assert after[i] == PostOf(Recovered(r.note, body), bot);
    forall n | n in notes && n.id != r.note ensures n in after {
      var k :| 0 <= k < |notes| && notes[k] == n;
      assert after[k] == n;
    }
  }

  // ----- What the publisher makes of the state it is asked to publish -----

  // The requested state over the current report: its boxes taken over, and digested.
  function DraftOf(request: Request, current: Option<Recovered>): (s: State)
    ensures s.publication.Some?
  {
    var predecessor := if current.Some? then current.value.note else 0;
    var s := request.state.(publication :=
      Some(Domain.Publication(request.generation, 0, predecessor, NoDigest, request.publishedAt)));
    WithDigest(if current.None? then s
               else s.(findings := ControlledAll(s.findings, current.value.report, request.interactions,
                                                 request.publishedAt)))
  }

  // The current report can be read, and the requested state has all its findings.
  predicate CarriedBy(request: Request, r: Recovered, target: MergeRequest) {
    && Decode(r.report).Ok? && EntryOk(EntryFor(r), target)
    && FindingIds(r.report.state.findings) <= FindingIds(request.state.findings)
  }

  /** A valid request that goes on from the current report and fits. */
  ghost predicate Welcome(request: Request, current: Option<Recovered>, target: MergeRequest) {
    && RequestOk(request, target) && ValidState(request.state)
    && (current.Some? ==> CarriedBy(request, current.value, target))
    && FitsNamed(request, DraftOf(request, current))
  }

  lemma EditKeepsValid(s: State, r: Report, xs: seq<Interaction>, at: Instant)
    requires ValidState(s)
    ensures ValidState(s.(findings := ControlledAll(s.findings, r, xs, at)))
  {
    var fs, gs := s.findings, ControlledAll(s.findings, r, xs, at);
    forall i | 0 <= i < |gs| ensures ValidFinding(gs[i]) { assert ValidFinding(fs[i]); }
  }

  lemma DraftIsValid(request: Request, current: Option<Recovered>)
    requires ValidState(request.state)
    ensures ValidState(DraftOf(request, current))
  {
    hide ControlledAll;
    if current.Some? {
      EditKeepsValid(request.state, current.value.report, request.interactions, request.publishedAt);
    }
  }

  // A valid state has a digest and can be written under any note.
  lemma ValidIsWritten(s: State, note: NoteId)
    requires ValidState(s) && s.publication.Some?
    ensures CalculateDigest(s) == Ok(WithDigest(s).publication.value.digest)
    ensures Encode(WithNote(s, note)).Ok?
  {
    DigestStateShape(s);
    DecodeEncode(WithNote(s, note));
  }

  lemma WelcomeFits(request: Request, current: Option<Recovered>, target: MergeRequest)
    requires Welcome(request, current, target)
    ensures var s := WithNote(DraftOf(request, current), MAX_INT64); Encode(s).Ok? && request.fits(Encode(s).value)
  {
    hide DraftOf, Encode;
    DraftIsValid(request, current);
    ValidIsWritten(DraftOf(request, current), MAX_INT64);
  }

  // The successor was drafted over this report, which is found again as it was recovered.
  predicate FoundAgain(request: Request, current: Recovered, note: Note, bot: int, s: State, target: MergeRequest) {
    && RequestOk(request, target) && CarriedBy(request, current, target) && note == PostOf(current, bot)
    && s.publication.Some? && s.publication.value.predecessor == current.note && s.mr == target
    && s.findings == DraftOf(request, Some(current)).findings
  }

  // Its boxes have been taken over already.
  lemma FoundAgainUnmoved(request: Request, current: Recovered, note: Note, bot: int, s: State, target: MergeRequest)
    requires FoundAgain(request, current, note, bot, s, target)
    ensures ControlsApply(current.report, s, request.publishedAt) && !SomeBoxMoved(s.findings, current.report)
    ensures PublicationIn(current.report.state).note in {0, current.note} && current.report.state.publication.Some?
    ensures Decode(current.report) == Ok(current.report.state)
    ensures note == PostOf(current, bot) && s.publication.value.predecessor == current.note
  {
    hide ControlledAll, SomeBoxMoved, ValidState;
    ControlsIdempotent(request.state.findings, current.report, request.interactions, request.publishedAt,
                       request.publishedAt);
    ControlledIds(request.state.findings, current.report, request.interactions, request.publishedAt);
  }

  // The successor was drafted over the current report, which is still posted.
  predicate DraftedOver(request: Request, current: Option<Recovered>, notes: seq<Note>, bot: int, s: State) {
    && s.publication.Some?
    && s.publication.value.predecessor == (if current.Some? then current.value.note else 0)
    && s.findings == DraftOf(request, current).findings
    && (current.Some? ==> Posted(notes, bot, current.value))
  }

  lemma DraftedIsFound(request: Request, current: Recovered, notes: seq<Note>, nextId: NoteId, bot: int, s: State,
                       target: MergeRequest)
    requires NotesOk(notes, nextId, bot) && DraftedOver(request, Some(current), notes, bot, s)
    requires Welcome(request, Some(current), target) && s.mr == target
    ensures NoteUnder(notes, current.note) == Some(PostOf(current, bot))
    ensures FoundAgain(request, current, PostOf(current, bot), bot, s, target)
  {
    hide DraftOf, CarriedBy, FitsNamed, ValidState;
    PostedIsRead(notes, nextId, bot, current);
  }

  // A report of the bot that says what is expected and whose provenance the successor keeps.
  predicate Removable(id: NoteId, notes: seq<Note>, bot: int, expected: map<NoteId, Report>, retained: Option<State>,
                      kinds: map<SourceId, SourceKind>)
  {
    var n := NoteUnder(notes, id);
    && n.Some? && IsReport(n.value, bot)
    && (id in expected ==> expected[id] == n.value.body.report)
    && (retained.Some? ==> Provenance.Retained(n.value.body.report.state, retained.value, kinds))
  }

  lemma ReportIsRecoverable(notes: seq<Note>, nextId: NoteId, bot: int, target: MergeRequest, id: NoteId)
    requires WellKept(notes, nextId, bot, target)
    ensures var n := NoteUnder(notes, id);
      n.Some? && IsReport(n.value, bot) ==>
        && RecoverableNote(n.value, target) && Decode(n.value.body.report) == Ok(n.value.body.report.state)
        && n.value.id == id
  {
    WellKeptIsRecoverable(notes, nextId, bot, target);
  }

  // Two recoveries of one ledger agree on its last report.
  lemma SameLedgerSameHead(a: Selection, b: Selection, l: seq<Entry>)
    requires RecoveredFrom(a, l) && RecoveredFrom(b, l)
    ensures SameRecovered(a.current, b.current)
  {
    if |l| > 0 { assert EntryFor(a.current.value) == EntryFor(b.current.value); }
  }

  // ----- Retiring what was recovered -----

  predicate AllRetained(l: seq<Entry>, s: State, kinds: map<SourceId, SourceKind>) {
    forall e :: e in l ==> Provenance.Retained(e.state, s, kinds)
  }

  lemma RetainedAlike(l: seq<Entry>, s: State, t: State, kinds: map<SourceId, SourceKind>)
    requires AllRetained(l, s, kinds) && t.sources == s.sources
    ensures AllRetained(l, t, kinds)
  {
    hide AllRefs;
    forall e | e in l ensures Provenance.Retained(e.state, t, kinds) {
      assert Provenance.Retained(e.state, s, kinds);
    }
  }

  // Nothing blocks the removal of the recovered reports, and what was reread is what was recovered.
  predicate Retirable(recovery: Selection, l0: seq<Entry>, notes: seq<Note>, bot: int, s: State,
                      kinds: map<SourceId, SourceKind>, reread: Option<Report>)
  {
    && NoReplies(notes) && AllPosted(recovery, notes, bot) && AllRetained(l0, s, kinds)
    && (reread.Some? ==>
          && recovery.current.Some? && s.publication.Some?
          && recovery.current.value.note == s.publication.value.predecessor
          && reread.value == recovery.current.value.report)
  }

  lemma RetirableIsUnreplied(recovery: Selection, l0: seq<Entry>, notes: seq<Note>, bot: int, s: State,
                             kinds: map<SourceId, SourceKind>, reread: Option<Report>)
    requires Retirable(recovery, l0, notes, bot, s, kinds, reread)
    ensures NoReplies(notes)
  {
  }

  lemma PostedAlike(notes: seq<Note>, nextId: NoteId, bot: int, a: Recovered, b: Recovered)
    requires NotesOk(notes, nextId, bot) && Posted(notes, bot, a) && Posted(notes, bot, b) && a.note == b.note
    ensures a == b
  {
    PostedIsRead(notes, nextId, bot, a);
    PostedIsRead(notes, nextId, bot, b);
  }

  lemma {:induction false} UnretiredAmong(rs: seq<Recovered>, successor: NoteId)
    ensures forall r :: r in Unretired(rs, successor) ==> r in rs
  {
    if |rs| > 0 { UnretiredAmong(rs[..|rs| - 1], successor); }
  }

  lemma RecoveredInLedger(recovery: Selection, l0: seq<Entry>, r: Recovered)
    requires RecoveredFrom(recovery, l0)
    requires r in recovery.superseded || (recovery.current.Some? && r == recovery.current.value)
    ensures EntryFor(r) in l0
  {
    AllRecovered(recovery, l0);
    var all := recovery.superseded + if recovery.current.Some? then [recovery.current.value] else [];
    var i :| 0 <= i < |all| && all[i] == r;
    assert l0[i] == EntryFor(r);
  }

  /** So every candidate passes the cleanup checks. */
  lemma CandidatesRemovable(recovery: Selection, l0: seq<Entry>, notes: seq<Note>, nextId: NoteId, bot: int, s: State,
                            kinds: map<SourceId, SourceKind>, reread: Option<Report>, successor: NoteId,
                            expected: map<NoteId, Report>)
    requires NotesOk(notes, nextId, bot) && RecoveredFrom(recovery, l0)
    requires Retirable(recovery, l0, notes, bot, s, kinds, reread) && s.publication.Some?
    requires forall r :: r in Unretired(Retiring(recovery, successor), successor) ==>
      r.note in expected && expected[r.note] == r.report
    ensures var p := s.publication.value.predecessor;
      var final := if p > 0 && reread.Some? then expected[p := reread.value] else expected;
      forall r :: r in Unretired(Retiring(recovery, successor), successor) ==>
        Removable(r.note, notes, bot, final, Some(s), kinds)
  {
    hide Provenance.Retained;
    UnretiredAmong(Retiring(recovery, successor), successor);
    forall r | r in Unretired(Retiring(recovery, successor), successor)
      ensures Posted(notes, bot, r) && NoteUnder(notes, r.note) == Some(PostOf(r, bot))
      ensures Provenance.Retained(r.report.state, s, kinds)
      ensures recovery.current.Some? && r.note == recovery.current.value.note ==> r == recovery.current.value
    {
      RecoveredInLedger(recovery, l0, r);
      assert Provenance.Retained(EntryFor(r).state, s, kinds);
      PostedIsRead(notes, nextId, bot, r);
      if recovery.current.Some? && r.note == recovery.current.value.note {
        PostedAlike(notes, nextId, bot, r, recovery.current.value);
      }
    }
  }

  // The newest report as its note shows it.
  function CurrentIn(notes: seq<Note>, bot: int): Option<Recovered> {
    var l := Ledger(notes, bot);
    if |l| == 0 then None
    else
      var body := BodyOf(notes, LastOf(l).note);
      if body.Prose? then None else Some(Recovered(LastOf(l).note, body.report))
  }

  lemma RecoveredIsCurrent(notes: seq<Note>, nextId: NoteId, bot: int, s: Selection)
    requires NotesOk(notes, nextId, bot) && RecoveredFrom(s, Ledger(notes, bot)) && AllPosted(s, notes, bot)
    ensures s.current == CurrentIn(notes, bot)
  {
    if s.current.Some? { PostedIsRead(notes, nextId, bot, s.current.value); }
  }

  // A successor drafted over the recovered head, and nothing in the way of finishing.
  ghost predicate Ready(request: Request, recovery: Selection, notes: seq<Note>, bot: int, s: State, l0: seq<Entry>) {
    && DraftedOver(request, recovery.current, notes, bot, s)
    && NoReplies(notes) && AllPosted(recovery, notes, bot) && AllRetained(l0, s, request.kinds)
  }

  lemma ReadyIsRetirable(request: Request, recovery: Selection, notes: seq<Note>, bot: int, s: State, l0: seq<Entry>)
    requires Ready(request, recovery, notes, bot, s, l0)
    ensures DraftedOver(request, recovery.current, notes, bot, s)
    ensures Retirable(recovery, l0, notes, bot, s, request.kinds, None)
    ensures recovery.current.Some? ==>
      Retirable(recovery, l0, notes, bot, s, request.kinds, Some(recovery.current.value.report))
  {
  }

  lemma PreparedIsReady(request: Request, recovery: Selection, before: seq<Note>, after: seq<Note>, bot: int, s: State,
                        l0: seq<Entry>)
    requires AllPosted(recovery, before, bot) && NoReplies(before) && AllStay(before, after)
    requires AllRetained(l0, request.state, request.kinds) && Carries(request.state, request.interactions, s)
    requires s.publication.Some? && s.publication.value.predecessor == HeadNote(recovery)
    requires s.findings == DraftOf(request, recovery.current).findings
    ensures Ready(request, recovery, after, bot, s, l0)
  {
    hide DraftOf, Carries, AllRetained;
    StaysPosted(recovery, before, after, bot);
    CarriesSources(request.state, request.interactions, s);
    RetainedAlike(l0, request.state, s, request.kinds);
  }

  /** What an undisturbed attempt needs to find: no replies, the expected head, another
      generation, kept provenance, and a request it may store. */
  ghost predicate Promising(request: Request, notes: seq<Note>, bot: int, target: MergeRequest) {
    var current := CurrentIn(notes, bot);
    && NoReplies(notes)
    && ExpectationMet(current, request)
    && (current.Some? ==> PublicationOf(current.value).generation != request.generation)
    && Welcome(request, current, target)
    && AllRetained(Ledger(notes, bot), request.state, request.kinds)
  }

  lemma PromisingIsOk(request: Request, notes: seq<Note>, bot: int, target: MergeRequest)
    requires Promising(request, notes, bot, target)
    ensures RequestOk(request, target)
  {
  }

  // What is left to find once the request has been accepted.
  ghost predicate Undistracted(request: Request, recovery: Selection, notes: seq<Note>, bot: int, target: MergeRequest)
  {
    && NoReplies(notes) && AllPosted(recovery, notes, bot) && !Resumes(request, recovery)
    && Welcome(request, recovery.current, target) && AllRetained(Ledger(notes, bot), request.state, request.kinds)
  }

  lemma PromisingParts(request: Request, notes: seq<Note>, nextId: NoteId, bot: int, target: MergeRequest, s: Selection)
    requires WellKept(notes, nextId, bot, target) && RecoveredFrom(s, Ledger(notes, bot))
    requires NoReplies(notes) ==> AllPosted(s, notes, bot)
    requires Promising(request, notes, bot, target)
    ensures ExpectationMet(s.current, request) && Undistracted(request, s, notes, bot, target)
  {
    hide FitsNamed, DraftOf, CarriedBy, AllRetained, ExpectationMet, AllPosted, NoReplies;
    RecoveredIsCurrent(notes, nextId, bot, s);
  }

  lemma StaysPosted(s: Selection, before: seq<Note>, after: seq<Note>, bot: int)
    requires AllPosted(s, before, bot) && AllStay(before, after)
    ensures AllPosted(s, after, bot)
  {
  }
}
