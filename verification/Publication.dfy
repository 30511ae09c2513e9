/** The publication protocol (internal/gitlab/publish.go): recover, create a
    successor, read it back, take over late box positions, and only then retire
    what it replaces. One publisher runs at a time; the server's script supplies
    humans, lost requests and replies, staleness and, by losing every later call,
    a stop after any mutation. */
module Publication {
  import opened Domain
  import opened ReportCodec
  import opened NoteStore
  import opened CurrentReport
  import opened Server
  import opened Ordering
  import opened Storing
  import Lifecycle
  import Provenance

  datatype Request = Request(
    state: State,
    generation: string,
    expectedNote: NoteId,
    expectedGeneration: string,
    publishedAt: Instant,
    fits: Report -> bool,
    kinds: map<SourceId, SourceKind>,
    interactions: seq<Interaction>)

  datatype Prepared = Prepared(state: State, successor: Recovered)

  datatype Published = Published(state: State, note: NoteId, replaced: seq<NoteId>)

  const MAX_INT64: int := 0x7fff_ffff_ffff_ffff

  // ----- Recovery -----

  function ReportsIn(notes: seq<Note>, bot: int): seq<Recovered> {
    if |notes| == 0 then []
    else
      var n := notes[|notes| - 1];
      ReportsIn(notes[..|notes| - 1], bot) + if IsReport(n, bot) then [Recovered(n.id, n.body.report)] else []
  }

  // What makes a stored report acceptable to recovery.
  predicate RecoverableNote(n: Note, target: MergeRequest)
    requires n.body.Owned?
  {
    var s := n.body.report.state;
    && !n.restricted
    && Decode(n.body.report).Ok?
    && n.id >= 1
    && s.mr == target
    && s.publication.Some?
    && var p := s.publication.value;
       && p.generation != "" && p.digest != NoDigest && p.publishedAt != 0
       && (p.note == 0 || p.note == n.id)
       && CalculateDigest(s) == Ok(p.digest)
  }

  /** Exactly which note of the bot recovery accepts: a public one with a valid state for this
      merge request, every finding bound to one control, complete publication data that name
      no other note, and the digest of that state. */
  lemma RecoverableExactly(n: Note, target: MergeRequest)
    requires n.body.Owned?
    ensures RecoverableNote(n, target) <==>
      var s := n.body.report.state;
      && n.id >= 1 && !n.restricted && s.mr == target
      && ValidState(s) && BindingsOk(s.findings, n.body.report.controls)
      && s.publication.Some? && s.publication.value.generation != "" && s.publication.value.publishedAt != 0
      && s.publication.value.note in {0, n.id}
      && s.publication.value.digest != NoDigest && s.publication.value.digest == DigestOf(DigestState(s))
  {
    hide ValidState, BindingsOk, DigestState;
    DigestStateShape(n.body.report.state);
    if ValidState(n.body.report.state) { DigestIsOfState(n.body.report.state); }
  }

  lemma DigestIsOfState(s: State)
    requires ValidState(s)
    ensures CalculateDigest(s) == Ok(DigestOf(DigestState(s)))
  {
    DigestStateShape(s);
  }

  predicate AllRecoverable(notes: seq<Note>, bot: int, target: MergeRequest) {
    forall i :: 0 <= i < |notes| && IsReport(notes[i], bot) ==> RecoverableNote(notes[i], target)
  }

  method ValidateRecovered(n: Note, target: MergeRequest) returns (ok: bool)
    requires n.body.Owned?
    ensures ok <==> RecoverableNote(n, target)
  {
    if n.restricted { return false; }
    var decoded := Decode(n.body.report);
    if decoded.Err? { return false; }
    if n.id < 1 || decoded.value.mr != target { return false; }
    if decoded.value.publication.None? { return false; }
    var p := decoded.value.publication.value;
    if p.generation == "" || p.digest == NoDigest || p.publishedAt == 0 { return false; }
    if p.note != 0 && p.note != n.id { return false; }
    var digest := CalculateDigest(decoded.value);
    return digest.Ok? && digest.value == p.digest;
  }

  method RecoverFrom(notes: seq<Note>, bot: int, target: MergeRequest) returns (r: Attempt<Selection>)
    ensures r.Stopped? <==>
      !AllRecoverable(notes, bot, target) ||
      (|ReportsIn(notes, bot)| > 0 && Unselectable(ReportsIn(notes, bot)))
    ensures r.Stopped? ==> r.why == Conflict
    ensures r.Done? ==>
      if |ReportsIn(notes, bot)| == 0 then r.value == Selection(None, [])
      else SelectsFrom(ReportsIn(notes, bot), r.value)
  {
    var reports: seq<Recovered> := [];
    for i := 0 to |notes|
      invariant forall k :: 0 <= k < i && IsReport(notes[k], bot) ==> RecoverableNote(notes[k], target)
      invariant reports == ReportsIn(notes[..i], bot)
    {
      var n := notes[i];
      assert notes[..i + 1][..i] == notes[..i];
      if n.author != bot || n.body.Prose? { continue; }
      var valid := ValidateRecovered(n, target);
      if !valid { return Stopped(Conflict); }
      reports := reports + [Recovered(n.id, n.body.report)];
    }
    assert notes[..|notes|] == notes;
    r := SelectCurrentReport(reports);
  }

  lemma {:induction false} ReportsAreLedger(notes: seq<Note>, bot: int)
    ensures EntriesFor(ReportsIn(notes, bot)) == Ledger(notes, bot)
  {
    if |notes| > 0 {
      ReportsAreLedger(notes[..|notes| - 1], bot);
      var before := ReportsIn(notes[..|notes| - 1], bot);
      var n := notes[|notes| - 1];
      if IsReport(n, bot) {
        var last := Recovered(n.id, n.body.report);
        assert EntriesFor(before + [last]) == EntriesFor(before) + [EntryFor(last)];
      } else {
        assert ReportsIn(notes, bot) == before;
      }
    }
  }

  lemma {:induction false} ReportsAreBound(notes: seq<Note>, nextId: NoteId, bot: int)
    requires NotesOk(notes, nextId, bot)
    ensures forall r :: r in ReportsIn(notes, bot) ==> BindingsOk(r.report.state.findings, r.report.controls)
  {
    if |notes| > 0 {
      ReportsAreBound(notes[..|notes| - 1], nextId, bot);
      assert IsReport(notes[|notes| - 1], bot) ==>
        BindingsOk(notes[|notes| - 1].body.report.state.findings, notes[|notes| - 1].body.report.controls);
    }
  }

  lemma WellKeptIsRecoverable(notes: seq<Note>, nextId: NoteId, bot: int, target: MergeRequest)
    requires WellKept(notes, nextId, bot, target)
    ensures AllRecoverable(notes, bot, target)
  {
    forall i | 0 <= i < |notes| && IsReport(notes[i], bot) ensures RecoverableNote(notes[i], target) {
      LedgerHas(notes, bot, notes[i]);
      var l := Ledger(notes, bot);
      var k :| 0 <= k < |l| && l[k] == EntryOf(notes[i]);
      assert EntryOk(l[k], target);
      DigestStateShape(notes[i].body.report.state);
    }
  }

  /** What recovery returns from a chain: its last report and, oldest first, the rest. */
  predicate RecoveredFrom(s: Selection, l: seq<Entry>) {
    if |l| == 0 then s == Selection(None, [])
    else
      && s.current.Some?
      && EntryFor(s.current.value) == l[|l| - 1]
      && EntriesFor(s.superseded) == l[..|l| - 1]
      && Decode(s.current.value.report).Ok?
  }

  lemma ChainRecovers(notes: seq<Note>, nextId: NoteId, bot: int, target: MergeRequest, s: Selection)
    requires WellKept(notes, nextId, bot, target)
    ensures |ReportsIn(notes, bot)| > 0 ==> !Unselectable(ReportsIn(notes, bot))
    ensures |ReportsIn(notes, bot)| == |Ledger(notes, bot)|
    ensures |ReportsIn(notes, bot)| > 0 && SelectsFrom(ReportsIn(notes, bot), s) ==>
      RecoveredFrom(s, Ledger(notes, bot))
  {
    hide Unselectable, NotesOk;
    var rs, l := ReportsIn(notes, bot), Ledger(notes, bot);
    ReportsAreLedger(notes, bot);
    ReportsAreBound(notes, nextId, bot);
    if |rs| > 0 {
      ChainSelects(rs, target, s);
      assert EntriesFor(rs[..|rs| - 1]) == l[..|l| - 1];
      assert rs[|rs| - 1] in rs;
      assert EntryOk(l[|l| - 1], target);
    }
  }

  // ----- Checks on a request -----

  predicate RequestOk(request: Request, target: MergeRequest) {
    && request.generation != ""
    && request.publishedAt != 0
    && request.state.mr == target
    && request.expectedNote >= 0
    && (request.expectedNote == 0 <==> request.expectedGeneration == "")
  }

  predicate ExpectationMet(current: Option<Recovered>, request: Request) {
    if current.None? then request.expectedNote == 0
    else
      var p := PublicationOf(current.value);
      || (current.value.note == request.expectedNote && p.generation == request.expectedGeneration)
      || (p.generation == request.generation && p.predecessor == request.expectedNote)
  }

  /** A request that nothing is done about: without a generation or a time, for another
      merge request, or expecting a note without its generation or the other way round. */
  predicate Malformed(request: Request, target: MergeRequest) {
    || request.generation == "" || request.publishedAt == 0 || request.state.mr != target
    || request.expectedNote < 0 || (request.expectedNote == 0) != (request.expectedGeneration == "")
  }

  lemma RequestShape(request: Request, target: MergeRequest)
    ensures RequestOk(request, target) <==> !Malformed(request, target)
  {
  }

  /** The request was made over the newest report there is, or goes on with it. */
  predicate ForThisHead(request: Request, l: seq<Entry>) {
    if |l| == 0 then request.expectedNote == 0
    else
      var head := l[|l| - 1];
      || (head.note == request.expectedNote && GenerationOf(head) == request.expectedGeneration)
      || (GenerationOf(head) == request.generation && PredecessorOf(head) == request.expectedNote)
  }

  lemma ExpectsThisHead(recovery: Selection, l: seq<Entry>, request: Request)
    requires RecoveredFrom(recovery, l)
    ensures ExpectationMet(recovery.current, request) <==> ForThisHead(request, l)
  {
    if |l| > 0 { assert EntryFor(recovery.current.value) == l[|l| - 1]; }
  }

  predicate SameRecovered(a: Option<Recovered>, b: Option<Recovered>) {
    if a.None? || b.None? then a.None? && b.None?
    else
      && a.value.note == b.value.note
      && PublicationOf(a.value).generation == PublicationOf(b.value).generation
      && PublicationOf(a.value).digest == PublicationOf(b.value).digest
  }

  function ReportById(s: Selection, id: NoteId): Option<Recovered> {
    if s.current.Some? && s.current.value.note == id then s.current else FindReport(s.superseded, id)
  }

  function FindReport(rs: seq<Recovered>, id: NoteId): Option<Recovered> {
    if |rs| == 0 then None else if rs[0].note == id then Some(rs[0]) else FindReport(rs[1..], id)
  }

  // ----- States ready to be stored -----

  predicate Storable(s: State, note: NoteId, target: MergeRequest) {
    && ValidState(s)
    && s.mr == target
    && s.publication.Some?
    && var p := s.publication.value;
       && p.generation != "" && p.publishedAt != 0 && p.predecessor >= 0
       && p.note == note
       && p.digest == DigestOf(DigestState(s))
  }

  function WithDigest(s: State): State
    requires s.publication.Some?
  {
    s.(publication := Some(s.publication.value.(digest := DigestOf(DigestState(s)))))
  }

  function WithNote(s: State, note: NoteId): State
    requires s.publication.Some?
  {
    s.(publication := Some(s.publication.value.(note := note)))
  }

  lemma DigestIgnores(s: State, p: Domain.Publication)
    requires s.publication.Some?
    requires p.generation == s.publication.value.generation && p.predecessor == s.publication.value.predecessor
    ensures DigestState(s.(publication := Some(p))) == DigestState(s)
    ensures ValidState(s.(publication := Some(p))) <==> ValidState(s)
    ensures Canonicalize(s.(publication := Some(p))).findings == Canonicalize(s).findings
  {
    assert Canonicalize(s.(publication := Some(p))).findings == Canonicalize(s).findings;
  }

  /** A storable state makes an entry the chain accepts, under its own note or
      before it knows one. */
  lemma StorableEntry(s: State, note: NoteId, id: NoteId, target: MergeRequest)
    requires Storable(s, note, target)
    requires id >= 1 && (note == 0 || note == id)
    ensures Encode(s) == Ok(Report(Canonicalize(s), RenderedControls(Canonicalize(s).findings)))
    ensures EntryOk(Entry(id, Canonicalize(s)), target)
    ensures BindingsOk(Canonicalize(s).findings, RenderedControls(Canonicalize(s).findings))
    ensures FindingIds(Canonicalize(s).findings) == FindingIds(s.findings)
  {
    CanonicalizeProjects(s);
    CanonicalKeepsValid(s);
    EncodedBindings(s);
    DigestStateShape(s);
  }

  /** Naming its note keeps a state storable, and the report what it was. */
  lemma NamedIsStorable(s: State, id: NoteId, target: MergeRequest)
    requires Storable(s, 0, target) && id >= 1
    ensures Storable(WithNote(s, id), id, target)
    ensures GenerationOf(Entry(id, Canonicalize(WithNote(s, id)))) == GenerationOf(Entry(id, Canonicalize(s)))
    ensures PredecessorOf(Entry(id, Canonicalize(s))) == s.publication.value.predecessor
    ensures FindingIds(Canonicalize(s).findings) == FindingIds(WithNote(s, id).findings)
    ensures FindingIds(Canonicalize(WithNote(s, id)).findings) == FindingIds(Canonicalize(s).findings)
  {
    DigestIgnores(s, WithNote(s, id).publication.value);
    CanonicalizeProjects(s);
    CanonicalizeProjects(WithNote(s, id));
  }

  lemma SameDigestSameFindings(s: State, t: State)
    requires DigestState(s) == DigestState(t)
    ensures FindingIds(s.findings) == FindingIds(t.findings)
  {
    CanonicalizeProjects(s);
    CanonicalizeProjects(t);
    DigestStateShape(s);
    DigestStateShape(t);
  }

  /** A state whose digest can be calculated is storable once it carries it. */
  lemma DigestedIsStorable(s: State, target: MergeRequest)
    requires CalculateDigest(s).Ok? && s.mr == target && s.publication.Some?
    requires s.publication.value.generation != "" && s.publication.value.publishedAt != 0
    requires s.publication.value.predecessor >= 0
    ensures CalculateDigest(s).value == WithDigest(s).publication.value.digest
    ensures Storable(WithDigest(s), s.publication.value.note, target)
  {
    DigestStateShape(s);
    DigestIgnores(s, WithDigest(s).publication.value);
  }

  lemma ControlledIds(fs: seq<Finding>, r: Report, xs: seq<Interaction>, at: Instant)
    ensures FindingIds(ControlledAll(fs, r, xs, at)) == FindingIds(fs)
  {
    var gs := ControlledAll(fs, r, xs, at);
    forall i | 0 <= i < |fs| ensures gs[i].id == fs[i].id {}
    forall id | id in FindingIds(fs) ensures id in FindingIds(gs) {
      var i :| 0 <= i < |fs| && fs[i].id == id;
      assert gs[i].id == id;
    }
    forall id | id in FindingIds(gs) ensures id in FindingIds(fs) {
      var i :| 0 <= i < |gs| && gs[i].id == id;
      assert fs[i].id == id;
    }
  }

  lemma NothingMoved(fs: seq<Finding>, r: Report, xs: seq<Interaction>, at: Instant)
    requires !SomeBoxMoved(fs, r)
    ensures ControlledAll(fs, r, xs, at) == fs
  {
    forall i | 0 <= i < |fs| ensures ControlledAt(fs[i], r, xs, at) == fs[i] {
      assert !BoxMovedAt(fs[i], r);
    }
  }

  // ----- Finding a generation again -----

  predicate IsPublication(e: Entry, generation: string, predecessor: NoteId, digest: Digest) {
    var p := PublicationIn(e.state);
    p.generation == generation && p.predecessor == predecessor && p.digest == digest
  }

  // The recovered reports, oldest first, are the ledger.
  lemma AllRecovered(s: Selection, l: seq<Entry>)
    requires RecoveredFrom(s, l)
    ensures var all := s.superseded + if s.current.Some? then [s.current.value] else [];
      |all| == |l| && forall i :: 0 <= i < |l| ==> EntryFor(all[i]) == l[i]
  {
    var es := EntriesFor(s.superseded);
    forall i | 0 <= i < |s.superseded| ensures EntryFor(s.superseded[i]) == l[i] {
      assert es[i] == EntryFor(s.superseded[i]);
    }
  }

  lemma NewestIsFirst(rs: seq<Recovered>)
    requires |rs| > 0
    ensures |SortBy(rs, NewestFirst)| > 0
    ensures var newest := SortBy(rs, NewestFirst)[0]; newest in rs && forall r :: r in rs ==> r.note <= newest.note
  {
    SortSorts(rs, NewestFirst);
    var sorted := SortBy(rs, NewestFirst);
    assert sorted[0] in multiset(rs);
    forall r | r in rs ensures r.note <= sorted[0].note {
      assert r in multiset(sorted);
      var i :| 0 <= i < |sorted| && sorted[i] == r;
      assert NewestFirst(sorted[0]) <= NewestFirst(sorted[i]);
    }
  }

  // Only the note just created can name the previous head as its predecessor.
  lemma NewestIsCreated(l0: seq<Entry>, l: seq<Entry>, c: Recovered, predecessor: NoteId, target: MergeRequest)
    requires Chain(l0, target) && Chain(l, target)
    requires l == l0 || (|l| == |l0| + 1 && l[..|l0|] == l0)
    requires |l0| > 0 ==> predecessor == l0[|l0| - 1].note
    requires EntryFor(c) in l && PredecessorOf(EntryFor(c)) == predecessor
    ensures |l| == |l0| + 1 && l[|l0|] == EntryFor(c)
  {
    forall k | 0 <= k < |l0| ensures PredecessorOf(l0[k]) < l0[|l0| - 1].note {
      if k > 0 { assert PredecessorOf(l0[k]) == l0[k - 1].note < l0[|l0| - 1].note; }
    }
    var i :| 0 <= i < |l| && l[i] == EntryFor(c);
  }

  /** What was written about this state was read back as it was written. */
  ghost predicate ReadBack(s: State, note: NoteId, lastRead: map<NoteId, Body>, fits: Report -> bool) {
    Encode(s).Ok? && fits(Encode(s).value) && note in lastRead && lastRead[note] == Owned(Encode(s).value)
  }

  lemma ReadElsewhere(s: State, note: NoteId, before: map<NoteId, Body>, after: map<NoteId, Body>, fits: Report -> bool)
    requires note in before ==> note in after && after[note] == before[note]
    ensures ReadBack(s, note, before, fits) ==> ReadBack(s, note, after, fits)
  {
  }

  // ----- How the ledger may develop during one attempt -----

  function LastOf(l: seq<Entry>): Entry
    requires |l| > 0
  {
    l[|l| - 1]
  }

  // There is a report, and it is not one of this publication.
  predicate Replaces(l: seq<Entry>, generation: string) {
    |l| > 0 && GenerationOf(LastOf(l)) != generation
  }

  // There is a report, and it is one of this publication.
  predicate GoesOn(l: seq<Entry>, generation: string) {
    |l| > 0 && GenerationOf(LastOf(l)) == generation
  }

  /** A publication looks at the freshness four times, or three when it goes on with a
      report it finds, and has found the merge request fresh each time. */
  predicate AllFresh(before: seq<bool>, after: seq<bool>, continues: bool) {
    after == before + if continues then [true, true, true] else [true, true, true, true]
  }

  lemma LookedFurther(before: seq<bool>, after: seq<bool>)
    requires before + [true] <= after
    ensures !(before + [false] <= after)
    ensures SomeStale(before, after) <==> SomeStale(before + [true], after)
  {
    assert after[|before|] == (before + [true])[|before|];
  }

  // Some look since then has found the merge request moved on.
  predicate SomeStale(before: seq<bool>, after: seq<bool>) {
    exists k :: |before| <= k < |after| && !after[k]
  }

  lemma LookedOnce(before: seq<bool>, x: bool)
    ensures !SomeStale(before, before) && (SomeStale(before, before + [x]) <==> !x)
  {
    assert (before + [x])[|before|] == x;
  }

  lemma StaleFirst(before: seq<bool>, after: seq<bool>)
    requires before + [false] <= after
    ensures SomeStale(before, after)
  {
    assert after[|before|] == (before + [false])[|before|];
  }

  lemma StaleThen(a: seq<bool>, b: seq<bool>, c: seq<bool>)
    requires a <= b <= c
    ensures SomeStale(a, c) <==> SomeStale(a, b) || SomeStale(b, c)
  {
    if SomeStale(a, b) {
      var k :| |a| <= k < |b| && !b[k];
      assert !c[k];
    }
    if SomeStale(a, c) && !SomeStale(b, c) {
      var k :| |a| <= k < |c| && !c[k];
      assert b[k] == c[k];
    }
  }

  // The looks of an attempt: one before a note is created, one behind it and what follows.
  lemma LooksBehind(a: seq<bool>, b: seq<bool>, d: seq<bool>, created: bool)
    requires b == a + (if created then [true] else []) && b + [true] <= d
    ensures a <= d && (SomeStale(a, d) <==> SomeStale(b + [true], d))
    ensures created ==> !(a + [false] <= d)
    ensures d == b + [true] + [true] ==>
      d == a + (if created then [true, true, true] else [true, true]) && !SomeStale(a, d)
  {
    LookedOnce(a, true);
    LookedOnce(b, true);
    LookedOnce(b + [true], true);
    StaleThen(a, b, b + [true]);
    StaleThen(a, b + [true], d);
    if created { LookedFurther(a, d); }
  }

  lemma LooksUntil(a: seq<bool>, b: seq<bool>, created: bool)
    requires b == a + if created then [true] else []
    ensures a <= b + [false]
    ensures created ==> !(a + [false] <= b + [false])
  {
    if created { LookedFurther(a, b + [false]); }
  }

  // Every report that was there still is, whatever it says now.
  predicate Spared(l0: seq<Entry>, l: seq<Entry>) {
    forall e :: e in l0 ==> exists x :: x in l && x.note == e.note
  }

  lemma SparedSame(l0: seq<Entry>, l: seq<Entry>)
    requires |l0| <= |l| && forall i :: 0 <= i < |l0| ==> l[i].note == l0[i].note
    ensures Spared(l0, l)
  {
    forall e | e in l0 ensures exists x :: x in l && x.note == e.note {
      var i :| 0 <= i < |l0| && l0[i] == e;
      assert l[i] in l;
    }
  }

  // Two versions of one report.
  predicate SameReport(a: Entry, b: Entry) {
    && a.note == b.note
    && GenerationOf(a) == GenerationOf(b) && PredecessorOf(a) == PredecessorOf(b)
    && FindingIds(a.state.findings) == FindingIds(b.state.findings)
  }

  /** The ledger has a newest report of this generation and still everything it had
      before: either one more entry, or its last entry of the same generation rewritten. */
  predicate Grown(l0: seq<Entry>, l: seq<Entry>, generation: string) {
    && |l| > 0
    && GenerationOf(LastOf(l)) == generation
    && (|l0| > 0 ==> FindingIds(LastOf(l0).state.findings) <= FindingIds(LastOf(l).state.findings))
    && (l[..|l| - 1] == l0 ||
        (|l0| == |l| && l[..|l| - 1] == l0[..|l| - 1] && LastOf(l0).note == LastOf(l).note))
  }

  lemma GrownSpares(l0: seq<Entry>, l: seq<Entry>, generation: string)
    requires Grown(l0, l, generation)
    ensures Spared(l0, l)
    ensures l[..|l| - 1] == l0 ==> Spared(l0, l[..|l| - 1])
  {
    assert forall i :: 0 <= i < |l| - 1 ==> l[..|l| - 1][i] == l[i];
    if l[..|l| - 1] != l0 { assert forall i :: 0 <= i < |l| - 1 ==> l0[..|l| - 1][i] == l0[i]; }
    SparedSame(l0, l);
  }

  lemma GrownByOne(l0: seq<Entry>, l: seq<Entry>, s: State, generation: string)
    requires GenerationOf(Entry(0, s)) == generation
    requires |l0| > 0 ==> FindingIds(LastOf(l0).state.findings) <= FindingIds(s.findings)
    requires l == l0 || exists id :: l == l0 + [Entry(id, s)]
    ensures l == l0 || Grown(l0, l, generation)
  {
    if l != l0 {
      var id :| l == l0 + [Entry(id, s)];
      assert l[..|l| - 1] == l0;
    }
  }

  // One more entry, possibly rewritten once.
  lemma GrownByNamed(l0: seq<Entry>, l: seq<Entry>, e: Entry, named: Entry, generation: string)
    requires l == l0 + [e] || l == Rewritten(l0 + [e], named)
    requires GenerationOf(e) == generation && GenerationOf(named) == generation
    requires |l0| > 0 ==>
      && FindingIds(LastOf(l0).state.findings) <= FindingIds(e.state.findings)
      && FindingIds(LastOf(l0).state.findings) <= FindingIds(named.state.findings)
    ensures Grown(l0, l, generation) && l[..|l| - 1] == l0
  {
    RewrittenAfterOne(l0, e, named);
    assert l == l0 + [e] || l == l0 + [named];
    assert l[..|l0|] == l0;
  }

  lemma RewrittenAfterOne(l0: seq<Entry>, e: Entry, e': Entry)
    ensures Rewritten(l0 + [e], e') == l0 + [e']
    ensures (l0 + [e'])[..|l0|] == l0
  {
  }

  predicate HasNote(l: seq<Entry>, id: NoteId) {
    exists i :: 0 <= i < |l| && l[i].note == id
  }

  predicate CarriedOver(e: Entry, l: seq<Entry>, generation: string) {
    && |l| > 0
    && GenerationOf(LastOf(l)) == generation
    && FindingIds(e.state.findings) <= FindingIds(LastOf(l).state.findings)
  }

  /** Nothing is lost: the store keeps a report, findings are never dropped, and an
      older report is gone only where a successor of this generation stands that
      carries all its findings. */
  predicate NothingLost(l0: seq<Entry>, l: seq<Entry>, generation: string) {
    && (|l0| > 0 ==> |l| > 0 && FindingIds(LastOf(l0).state.findings) <= FindingIds(LastOf(l).state.findings))
    && (forall i :: 0 <= i < |l0| ==>
          HasNote(l, l0[i].note) || CarriedOver(l0[i], l, generation))
  }

  lemma UnchangedLosesNothing(l0: seq<Entry>, generation: string)
    ensures NothingLost(l0, l0, generation)
  {
    forall i | 0 <= i < |l0| ensures HasNote(l0, l0[i].note) {}
  }

  lemma RetiringLosesNothing(l0: seq<Entry>, l1: seq<Entry>, k: nat, generation: string, target: MergeRequest)
    requires Grown(l0, l1, generation) && Chain(l0, target) && k < |l1|
    ensures NothingLost(l0, l1[k..], generation)
  {
    var l := l1[k..];
    assert LastOf(l) == LastOf(l1);
    forall i | 0 <= i < |l0|
      ensures FindingIds(l0[i].state.findings) <= FindingIds(LastOf(l).state.findings)
    {
      ChainIdsGrow(l0, target, i, |l0| - 1);
    }
  }

  lemma WithdrawingLosesNothing(l0: seq<Entry>, l1: seq<Entry>, generation: string)
    requires |l1| > 0 && l1[..|l1| - 1] == l0
    ensures NothingLost(l0, l1[..|l1| - 1], generation)
  {
    UnchangedLosesNothing(l0, generation);
  }

  // ----- What the newest report may say -----

  /** The newest report says what the newest one said before, or what was requested,
      on its way into the store. */
  ghost predicate Delivers(request: Request, l0: seq<Entry>, l: seq<Entry>) {
    |l| > 0 ==>
      || (|l0| > 0 && LastOf(l).state == LastOf(l0).state)
      || Carries(request.state, request.interactions, LastOf(l).state)
  }

  lemma DeliversLast(request: Request, l0: seq<Entry>, l: seq<Entry>, s: State)
    requires Carries(request.state, request.interactions, s)
    requires l == l0 || (|l| > 0 && LastOf(l).state == Canonicalize(s))
    ensures Delivers(request, l0, l)
  {
    CarriesStore(request.state, request.interactions, s);
  }

  lemma DeliversThen(request: Request, l0: seq<Entry>, l1: seq<Entry>, l2: seq<Entry>)
    requires Delivers(request, l0, l1) && Delivers(request, l1, l2)
    ensures Delivers(request, l0, l2)
  {
  }

  lemma DeliversNothing(request: Request, l0: seq<Entry>)
    ensures Delivers(request, l0, l0)
  {
  }

  lemma DeliversRest(request: Request, l0: seq<Entry>, l: seq<Entry>, k: nat)
    requires Delivers(request, l0, l) && k < |l|
    ensures Delivers(request, l0, l[k..])
  {
    assert LastOf(l[k..]) == LastOf(l);
  }

  // ----- Boxes in step with the predecessor -----

  predicate SyncWith(fs: seq<Finding>, priors: seq<Finding>) {
    forall i :: 0 <= i < |fs| ==> SyncAt(fs[i], priors)
  }

  predicate SyncAt(f: Finding, priors: seq<Finding>) {
    var p := FindFinding(priors, f.id);
    p.Some? && p.value.rendered.Some? ==> Lifecycle.InSync(f)
  }

  predicate SettledAt(f: Finding, r: Report) {
    var p := FindFinding(r.state.findings, f.id);
    p.Some? && p.value.rendered.Some? ==> Lifecycle.SettledBy(f, p.value, FindControl(r.controls, f.id).checked)
  }

  predicate AllSettled(fs: seq<Finding>, r: Report) {
    forall i :: 0 <= i < |fs| ==> SettledAt(fs[i], r)
  }

  /** Findings that follow the findings of a report are in step with it exactly when
      each finding that was drawn with a box is. */
  lemma InStep(fs: seq<Finding>, start: seq<Finding>)
    requires UniqueIds(fs) && UniqueIds(start) && |start| <= |fs|
    requires forall i :: 0 <= i < |start| ==> fs[i].id == start[i].id
    ensures SyncWith(fs, start) <==> Lifecycle.BoxesInSync(fs, start)
  {
    hide Lifecycle.InSync;
    forall i | 0 <= i < |start| ensures FindFinding(start, fs[i].id) == Some(start[i]) { FoundAt(start, i); }
    if SyncWith(fs, start) {
      forall i | 0 <= i < |start| && start[i].rendered.Some? ensures Lifecycle.InSync(fs[i]) {
        assert SyncAt(fs[i], start);
      }
    }
    if Lifecycle.BoxesInSync(fs, start) {
      forall k | 0 <= k < |fs| ensures SyncAt(fs[k], start) {}
    }
  }

  lemma ControlsKeepSync(fs: seq<Finding>, r: Report, xs: seq<Interaction>, at: Instant)
    requires SyncWith(fs, r.state.findings)
    ensures SyncWith(ControlledAll(fs, r, xs, at), r.state.findings)
  {
    forall i | 0 <= i < |fs| ensures SyncAt(ControlledAll(fs, r, xs, at)[i], r.state.findings) {
      assert SyncAt(fs[i], r.state.findings);
      var p := FindFinding(r.state.findings, fs[i].id);
      if p.Some? && p.value.rendered.Some? {
        Lifecycle.EditSettles(fs[i], p.value, FindControl(r.controls, fs[i].id), InteractionRefs(xs, fs[i].id, at), at);
      }
    }
  }

  lemma {:induction false} BoundControlFound(cs: seq<Control>, id: FindingId)
    requires HasControl(cs, id)
    ensures exists i :: 0 <= i < |cs| && cs[i].finding == id && FindControl(cs, id) == cs[i]
  {
    var front, last := cs[..|cs| - 1], cs[|cs| - 1];
    if last.finding != id {
      var i :| 0 <= i < |cs| && cs[i].finding == id;
      assert front[i].finding == id;
      BoundControlFound(front, id);
      var k :| 0 <= k < |front| && front[k].finding == id && FindControl(front, id) == front[k];
      assert cs[k] == front[k];
    }
  }

  // The box of a finding that was drawn with one is always found.
  lemma BoxIsFound(r: Report, id: FindingId)
    requires BindingsOk(r.state.findings, r.controls)
    requires FindFinding(r.state.findings, id).Some? && FindFinding(r.state.findings, id).value.rendered.Some?
    ensures FindControl(r.controls, id).task
  {
    var f := FindFinding(r.state.findings, id).value;
    var k :| 0 <= k < |r.state.findings| && r.state.findings[k] == f;
    BoundControlFound(r.controls, id);
    var i :| 0 <= i < |r.controls| && r.controls[i].finding == id && FindControl(r.controls, id) == r.controls[i];
    assert ControlBound(r.state.findings, r.controls[i]);
  }

  /** After the late reconciliation every box that was drawn is settled by its last position. */
  lemma LateControlsSettle(fs: seq<Finding>, r: Report, xs: seq<Interaction>, at: Instant)
    requires SyncWith(fs, r.state.findings)
    requires BindingsOk(r.state.findings, r.controls)
    ensures AllSettled(ControlledAll(fs, r, xs, at), r)
  {
    forall i | 0 <= i < |fs| ensures SettledAt(ControlledAll(fs, r, xs, at)[i], r) {
      assert SyncAt(fs[i], r.state.findings);
      var p := FindFinding(r.state.findings, fs[i].id);
      if p.Some? && p.value.rendered.Some? {
        BoxIsFound(r, fs[i].id);
        Lifecycle.EditSettles(fs[i], p.value, FindControl(r.controls, fs[i].id), InteractionRefs(xs, fs[i].id, at), at);
      }
    }
  }

  // ----- Retiring -----

  predicate Resumes(request: Request, recovery: Selection) {
    recovery.current.Some? && PublicationOf(recovery.current.value).generation == request.generation
  }

  function HeadNote(recovery: Selection): NoteId {
    if recovery.current.Some? then recovery.current.value.note else 0
  }

  // The candidates are the oldest reports, in order, and never the newest one.
  predicate OldestFirst(candidates: seq<NoteId>, l: seq<Entry>) {
    |candidates| < |l| && forall i :: 0 <= i < |candidates| ==> candidates[i] == l[i].note
  }

  /** Every note of the list is gone and was, when deleted, its entry of the ledger. */
  ghost predicate AllRetired(ids: seq<NoteId>, l: seq<Entry>, retired: map<NoteId, Body>) {
    |ids| <= |l| && forall i :: 0 <= i < |ids| ==> ids[i] in retired && Shows(retired[ids[i]], l[i])
  }

  predicate AscendingLedger(l: seq<Entry>) {
    forall i, j :: 0 <= i < j < |l| ==> l[i].note < l[j].note
  }

  lemma AscendingNotes(notes: seq<Note>, nextId: NoteId, bot: int, target: MergeRequest)
    requires WellKept(notes, nextId, bot, target)
    ensures AscendingLedger(Ledger(notes, bot))
  {
  }

  lemma LastIsNewest(l0: seq<Entry>, l: seq<Entry>, target: MergeRequest)
    requires Chain(l, target) && |l0| > 0 && |l| == |l0| + 1 && l[..|l0|] == l0
    ensures LastOf(l0).note < LastOf(l).note
  {
    assert l[|l0| - 1] == l0[|l0| - 1];
  }

  lemma NothingRetired(l: seq<Entry>, retired: map<NoteId, Body>)
    ensures AllRetired([], l, retired)
  {
  }

  lemma RetiredOneMore(ids: seq<NoteId>, l: seq<Entry>, i: nat, before: map<NoteId, Body>, after: map<NoteId, Body>)
    requires OldestFirst(ids, l) && i < |ids| && AllRetired(ids[..i], l, before)
    requires AscendingLedger(l)
    requires ids[i] in after && Shows(after[ids[i]], l[i])
    requires forall x :: x != ids[i] && x in before ==> x in after && after[x] == before[x]
    ensures AllRetired(ids[..i + 1], l, after)
  {
    forall k | 0 <= k < i ensures ids[k] in after && Shows(after[ids[k]], l[k]) {
      assert ids[..i][k] == ids[k];
    }
  }

  lemma PredecessorIsOlder(l: seq<Entry>, target: MergeRequest)
    requires Chain(l, target) && |l| > 0
    ensures PredecessorOf(LastOf(l)) < LastOf(l).note
  {
    if |l| > 1 { assert PredecessorOf(l[|l| - 1]) == l[|l| - 2].note; }
  }

  lemma NoteIdsPositive(l: seq<Entry>, ids: seq<NoteId>, target: MergeRequest)
    requires Chain(l, target) && OldestFirst(ids, l)
    ensures 0 !in ids
  {
    assert forall i :: 0 <= i < |l| ==> EntryOk(l[i], target);
  }

  predicate ProvenanceKept(id: NoteId, l: seq<Entry>, successor: State, kinds: map<SourceId, SourceKind>) {
    exists i :: 0 <= i < |l| && l[i].note == id && Provenance.Retained(l[i].state, successor, kinds)
  }

  lemma WithoutOldest(notes: seq<Note>, nextId: NoteId, bot: int, target: MergeRequest)
    requires WellKept(notes, nextId, bot, target) && |Ledger(notes, bot)| > 0
    ensures var l := Ledger(notes, bot); WithoutEntry(l, l[0].note) == l[1..]
  {
    WithoutFirst(Ledger(notes, bot));
  }

  lemma WithoutNewest(notes: seq<Note>, nextId: NoteId, bot: int, target: MergeRequest)
    requires WellKept(notes, nextId, bot, target) && |Ledger(notes, bot)| > 0
    ensures var l := Ledger(notes, bot); WithoutEntry(l, l[|l| - 1].note) == l[..|l| - 1]
  {
    WithoutLast(Ledger(notes, bot));
  }

  function Unretired(rs: seq<Recovered>, successor: NoteId): seq<Recovered> {
    if |rs| == 0 then []
    else
      var front, r := Unretired(rs[..|rs| - 1], successor), rs[|rs| - 1];
      if r.note < 1 || r.note == successor || r.note in NotesOf(front) then front else front + [r]
  }

  function NotesOf(rs: seq<Recovered>): set<NoteId> {
    set i | 0 <= i < |rs| :: rs[i].note
  }

  lemma NotesOfAppend(rs: seq<Recovered>, r: Recovered)
    ensures NotesOf(rs + [r]) == NotesOf(rs) + {r.note}
  {
    var all := rs + [r];
    assert all[|rs|].note == r.note;
    forall id | id in NotesOf(rs) ensures id in NotesOf(all) {
      var i :| 0 <= i < |rs| && rs[i].note == id;
      assert all[i].note == id;
    }
  }

  // Superseded reports first, oldest first, then the report that was current.
  method ReportsToRetire(recovery: Selection, successor: NoteId) returns (unique: seq<Recovered>)
    ensures unique == Unretired(Retiring(recovery, successor), successor)
  {
    var result := recovery.superseded;
    if recovery.current.Some? && recovery.current.value.note != successor {
      result := result + [recovery.current.value];
    }
    var seen: set<NoteId> := {};
    unique := [];
    for i := 0 to |result|
      invariant unique == Unretired(result[..i], successor)
      invariant seen == NotesOf(unique)
    {
      assert result[..i + 1][..i] == result[..i];
      var r := result[i];
      if r.note < 1 || r.note == successor { continue; }
      if r.note !in seen {
        NotesOfAppend(unique, r);
        seen := seen + {r.note};
        unique := unique + [r];
      }
    }
    assert result[..|result|] == result == Retiring(recovery, successor);
  }

  function Retiring(recovery: Selection, successor: NoteId): seq<Recovered> {
    recovery.superseded +
      if recovery.current.Some? && recovery.current.value.note != successor then [recovery.current.value] else []
  }

  lemma {:induction false} UnretiredKeepsAll(rs: seq<Recovered>, successor: NoteId)
    requires forall i, j :: 0 <= i < j < |rs| ==> rs[i].note < rs[j].note
    requires forall i :: 0 <= i < |rs| ==> rs[i].note >= 1 && rs[i].note != successor
    ensures Unretired(rs, successor) == rs
  {
    if |rs| > 0 {
      UnretiredKeepsAll(rs[..|rs| - 1], successor);
      assert rs == rs[..|rs| - 1] + [rs[|rs| - 1]];
    }
  }

  /** What is retired is every report but the successor, from the oldest on. */
  lemma RetiresAllOthers(recovery: Selection, l0: seq<Entry>, l: seq<Entry>, generation: string, target: MergeRequest)
    requires RecoveredFrom(recovery, l0) && Chain(l0, target) && Chain(l, target)
    requires Grown(l0, l, generation)
    ensures var rs := Unretired(Retiring(recovery, LastOf(l).note), LastOf(l).note);
      |rs| == |l| - 1 && forall i :: 0 <= i < |rs| ==> rs[i].note == l[i].note
  {
    hide DigestState, ValidState, Canonicalize;
    var successor := LastOf(l).note;
    var rs := Retiring(recovery, successor);
    if |l0| > 0 {
      RecoveredNotes(recovery, l0);
      assert recovery.current.value.note == LastOf(l0).note;
    }
    if l[..|l| - 1] == l0 {
      assert |rs| == |l0|;
    } else {
      CommonPrefix(l0, l, |l| - 1);
    }
    assert forall i :: 0 <= i < |rs| ==> rs[i].note == l[i].note;
    forall i | 0 <= i < |rs| ensures rs[i].note >= 1 && rs[i].note != successor { assert EntryOk(l[i], target); }
    UnretiredKeepsAll(rs, successor);
  }

  lemma RecoveredNotes(recovery: Selection, l0: seq<Entry>)
    requires |l0| > 0 && RecoveredFrom(recovery, l0)
    ensures |recovery.superseded| == |l0| - 1
    ensures forall i :: 0 <= i < |l0| - 1 ==> recovery.superseded[i].note == l0[i].note
  {
    var es := EntriesFor(recovery.superseded);
    forall i | 0 <= i < |l0| - 1 ensures recovery.superseded[i].note == l0[i].note {
      assert es[i] == l0[..|l0| - 1][i];
    }
  }

  lemma CommonPrefix(a: seq<Entry>, b: seq<Entry>, n: nat)
    requires n <= |a| && n <= |b| && a[..n] == b[..n]
    ensures forall i :: 0 <= i < n ==> a[i] == b[i]
  {
    forall i | 0 <= i < n ensures a[i] == b[i] {
      assert a[..n][i] == b[..n][i];
    }
  }

  lemma GrownRewritten(l0: seq<Entry>, l1: seq<Entry>, l2: seq<Entry>, generation: string)
    requires Grown(l0, l1, generation)
    requires l2 == l1 || exists e :: l2 == Rewritten(l1, e) && SameReport(LastOf(l1), e)
    ensures Grown(l0, l2, generation)
    ensures |l2| == |l1| && l2[..|l2| - 1] == l1[..|l1| - 1] && LastOf(l2).note == LastOf(l1).note
  {
    if l2 != l1 {
      var e :| l2 == Rewritten(l1, e) && SameReport(LastOf(l1), e);
      assert l2[..|l2| - 1] == l1[..|l1| - 1];
    }
  }

  lemma EntryIsHead(l0: seq<Entry>, l: seq<Entry>, e: Entry, target: MergeRequest)
    requires Chain(l, target) && |l0| > 0 && |l| == |l0| + 1 && l[..|l0|] == l0
    requires e in l && e.note == LastOf(l0).note
    ensures e == LastOf(l0)
  {
    var i :| 0 <= i < |l| && l[i] == e;
    assert l[|l0| - 1] == l0[|l0| - 1];
  }

  // Which boxes the successor is measured against, given how it was prepared.
  lemma PreparedInSync(request: Request, recovery: Selection, l0: seq<Entry>, l1: seq<Entry>, s: State,
                       reread: Report, target: MergeRequest)
    requires RecoveredFrom(recovery, l0) && Chain(l1, target)
    requires s.publication.Some?
    requires Entry(s.publication.value.predecessor, reread.state) in l1
    requires SyncWith(request.state.findings, reread.state.findings)
    requires Resumes(request, recovery) ==> s.findings == request.state.findings
    requires !Resumes(request, recovery) ==>
      && |l1| == |l0| + 1 && l1[..|l0|] == l0
      && s.publication.value.predecessor == HeadNote(recovery)
      && (recovery.current.Some? ==>
            var priors := recovery.current.value.report.state.findings;
            SyncWith(request.state.findings, priors) ==> SyncWith(s.findings, priors))
    ensures SyncWith(s.findings, reread.state.findings)
  {
    if !Resumes(request, recovery) {
      var e := Entry(s.publication.value.predecessor, reread.state);
      var i :| 0 <= i < |l1| && l1[i] == e;
      assert EntryOk(e, target);
      assert |l0| > 0;
      EntryIsHead(l0, l1, e, target);
      assert EntryFor(recovery.current.value) == LastOf(l0);
    }
  }

  /** If the request was in step with the boxes of this report, then each of them
      has settled its finding. */
  predicate BoxesObeyed(request: Request, s: State, retired: Body) {
    retired.Owned? && SyncWith(request.state.findings, retired.report.state.findings) ==>
      AllSettled(s.findings, retired.report)
  }

  lemma LateBoxesObeyed(request: Request, recovery: Selection, l0: seq<Entry>, l1: seq<Entry>, s: State,
                        reread: Report, final: State, target: MergeRequest)
    requires RecoveredFrom(recovery, l0) && Chain(l1, target)
    requires s.publication.Some?
    requires Entry(s.publication.value.predecessor, reread.state) in l1
    requires Decode(reread).Ok?
    requires final.findings == ControlledAll(s.findings, reread, request.interactions, request.publishedAt)
    requires Resumes(request, recovery) ==> s.findings == request.state.findings
    requires !Resumes(request, recovery) ==>
      && |l1| == |l0| + 1 && l1[..|l0|] == l0
      && s.publication.value.predecessor == HeadNote(recovery)
      && (recovery.current.Some? ==>
            var priors := recovery.current.value.report.state.findings;
            SyncWith(request.state.findings, priors) ==> SyncWith(s.findings, priors))
    ensures BoxesObeyed(request, final, Owned(reread))
  {
    if SyncWith(request.state.findings, reread.state.findings) {
      PreparedInSync(request, recovery, l0, l1, s, reread, target);
      LateControlsSettle(s.findings, reread, request.interactions, request.publishedAt);
    }
  }

  lemma GrownGeneration(l0: seq<Entry>, l: seq<Entry>, generation: string)
    requires Grown(l0, l, generation)
    ensures GenerationOf(LastOf(l)) == generation
  {
  }

  lemma KeptAt(l: seq<Entry>, i: nat, s: State, kinds: map<SourceId, SourceKind>, target: MergeRequest)
    requires Chain(l, target) && i < |l|
    ensures ProvenanceKept(l[i].note, l, s, kinds) <==> Provenance.Retained(l[i].state, s, kinds)
  {
    hide EntryOk, Provenance.Retained;
    if ProvenanceKept(l[i].note, l, s, kinds) {
      var k :| 0 <= k < |l| && l[k].note == l[i].note && Provenance.Retained(l[k].state, s, kinds);
      assert !(k < i) && !(i < k);
    }
  }

  // The entries before the last are the same ones in both ledgers.
  lemma KeptBefore(l1: seq<Entry>, l2: seq<Entry>, ids: seq<NoteId>, s: State, kinds: map<SourceId, SourceKind>,
                   target: MergeRequest)
    requires Chain(l1, target) && Chain(l2, target) && |l1| == |l2| > 0
    requires forall i :: 0 <= i < |l1| - 1 ==> l1[i] == l2[i]
    requires OldestFirst(ids, l2)
    requires forall id :: id in ids ==> ProvenanceKept(id, l2, s, kinds)
    ensures forall id :: id in ids ==> ProvenanceKept(id, l1, s, kinds)
  {
    hide EntryOk, Provenance.Retained, ProvenanceKept;
    forall id | id in ids ensures ProvenanceKept(id, l1, s, kinds) {
      var k :| 0 <= k < |ids| && ids[k] == id;
      assert l1[k] == l2[k] && l2[k].note == id;
      KeptAt(l2, k, s, kinds, target);
      KeptAt(l1, k, s, kinds, target);
    }
  }

  // Every report of the old ledger but the one that is left was replaced as it was.
  ghost predicate ReplacedAll(l0: seq<Entry>, left: NoteId, ids: seq<NoteId>, s: State,
                              kinds: map<SourceId, SourceKind>, retired: map<NoteId, Body>)
  {
    forall i :: 0 <= i < |l0| && l0[i].note != left ==>
      && l0[i].note in ids
      && l0[i].note in retired && Shows(retired[l0[i].note], l0[i])
      && Provenance.Retained(l0[i].state, s, kinds)
  }

  lemma AllOthersReplaced(l0: seq<Entry>, l1: seq<Entry>, ids: seq<NoteId>, s: State, kinds: map<SourceId, SourceKind>,
                          retired: map<NoteId, Body>, generation: string, target: MergeRequest)
    requires Grown(l0, l1, generation) && Chain(l1, target)
    requires OldestFirst(ids, l1) && |ids| == |l1| - 1
    requires forall id :: id in ids ==> ProvenanceKept(id, l1, s, kinds)
    requires AllRetired(ids, l1, retired)
    ensures ReplacedAll(l0, LastOf(l1).note, ids, s, kinds, retired)
  {
    hide EntryOk, Provenance.Retained, ProvenanceKept, Shows;
    if l1[..|l1| - 1] == l0 {
      CommonPrefix(l0, l1[..|l1| - 1], |l0|);
    } else {
      CommonPrefix(l0, l1, |l1| - 1);
    }
    forall i | 0 <= i < |l0| && l0[i].note != LastOf(l1).note
      ensures l0[i].note in ids && Provenance.Retained(l0[i].state, s, kinds)
      ensures l0[i].note in retired && Shows(retired[l0[i].note], l0[i])
    {
      assert l0[i] == l1[i];
      assert ids[i] == l1[i].note && ids[i] in ids;
      KeptAt(l1, i, s, kinds, target);
    }
  }

  // Entries before the last are the same in both ledgers, and only such were retired.
  lemma RetiredBefore(l1: seq<Entry>, l2: seq<Entry>, ids: seq<NoteId>, retired: map<NoteId, Body>)
    requires |l1| == |l2| > 0 && |ids| == |l2| - 1
    requires forall i :: 0 <= i < |l1| - 1 ==> l1[i] == l2[i]
    requires AllRetired(ids, l2, retired)
    ensures AllRetired(ids, l1, retired)
  {
  }

  /** A publication of this request that succeeded over the reports `l0`. */
  ghost predicate Succeeded(request: Request, l0: seq<Entry>, p: Published, l: seq<Entry>, retired: map<NoteId, Body>,
                            lastRead: map<NoteId, Body>, lastReplied: set<NoteId>)
  {
    && l == [Entry(p.note, Canonicalize(p.state))] && GenerationOf(l[0]) == request.generation
    && p.state.publication.Some?
    && ReadBack(p.state, p.note, lastRead, request.fits)
    && (forall id :: id in p.replaced ==> id !in lastReplied)
    && ReplacedAll(l0, p.note, p.replaced, p.state, request.kinds, retired)
    && (Replaces(l0, request.generation) ==>
          && p.state.publication.value.predecessor == LastOf(l0).note && LastOf(l0).note in p.replaced
          && p.note != LastOf(l0).note)
    && var head := p.state.publication.value.predecessor;
       head in p.replaced ==>
         && head in retired && head in lastRead
         && (lastRead[head] == retired[head] ==> BoxesObeyed(request, p.state, retired[head]))
  }

  /** A successor that stands behind the recovered reports, or in place of the newest
      one when that is of its generation. */
  ghost predicate PreparedOver(request: Request, recovery: Selection, l0: seq<Entry>, l1: seq<Entry>, s: State) {
    && RecoveredFrom(recovery, l0) && Grown(l0, l1, request.generation)
    && s.publication.Some?
    && if Resumes(request, recovery) then s.findings == request.state.findings
       else
         && l1[..|l1| - 1] == l0
         && s.publication.value.predecessor == HeadNote(recovery)
         && (recovery.current.Some? ==>
               var priors := recovery.current.value.report.state.findings;
               SyncWith(request.state.findings, priors) ==> SyncWith(s.findings, priors))
  }

  /** What the retirement leaves is a publication that succeeded. */
  lemma SucceededOver(request: Request, recovery: Selection, l0: seq<Entry>, l1: seq<Entry>, prepared: State,
                      reread: Option<Report>, p: Published, l: seq<Entry>, retired: map<NoteId, Body>,
                      lastRead: map<NoteId, Body>, lastReplied: set<NoteId>, target: MergeRequest)
    requires PreparedOver(request, recovery, l0, l1, prepared) && Chain(l1, target) && p.state.publication.Some?
    requires p.state.publication.value.predecessor == prepared.publication.value.predecessor
    requires l == [Entry(p.note, Canonicalize(p.state))] && GenerationOf(l[0]) == request.generation
    requires p.note == LastOf(l1).note && ReadBack(p.state, p.note, lastRead, request.fits)
    requires OldestFirst(p.replaced, l1) && |p.replaced| == |l1| - 1 && AllRetired(p.replaced, l1, retired)
    requires forall id :: id in p.replaced ==>
      id !in lastReplied && id in lastRead && ProvenanceKept(id, l1, p.state, request.kinds)
    requires reread.None? ==> prepared.publication.value.predecessor == 0
    requires reread.Some? ==>
      var head := prepared.publication.value.predecessor;
      && p.state.findings == ControlledAll(prepared.findings, reread.value, request.interactions, request.publishedAt)
      && Entry(head, reread.value.state) in l1 && Decode(reread.value).Ok?
      && (head in p.replaced ==> lastRead[head] == Owned(reread.value))
    ensures Succeeded(request, l0, p, l, retired, lastRead, lastReplied)
  {
    hide EntryOk, ProvenanceKept, ReplacedAll, SyncWith, BoxesObeyed, ReadBack, Canonicalize, Decode, ControlledAll,
      FindingIds, Chain;
    AllOthersReplaced(l0, l1, p.replaced, p.state, request.kinds, retired, request.generation, target);
    NoteIdsPositive(l1, p.replaced, target);
    if !Resumes(request, recovery) && |l0| > 0 { LastIsNewest(l0, l1, target); }
    if reread.Some? {
      LateBoxesObeyed(request, recovery, l0, l1, prepared, reread.value, p.state, target);
    }
  }
}
