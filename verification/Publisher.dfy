/** The publisher's steps over the note server, with their control flow and every
    way out (Publish and its helpers, internal/gitlab/publish.go). */
module Publisher {
  import opened Domain
  import opened ReportCodec
  import opened NoteStore
  import opened CurrentReport
  import opened Server
  import opened Ordering
  import opened Publication
  import opened Storing
  import opened Undisturbed
  import Provenance

  class ReportPublisher {
    const server: NoteServer

    constructor (server: NoteServer)
      ensures this.server == server
    {
      this.server := server;
    }

    /** Under the chain invariant recovery stops only when the notes cannot be
        read: it never reports a conflict. */
    method Recover() returns (r: Attempt<Selection>)
      requires server.Inv()
      modifies server
      ensures server.Inv() && server.Reports() == old(server.Reports())
      ensures server.retired == old(server.retired) && server.lastRead == old(server.lastRead)
      ensures server.looks == old(server.looks) && server.lastReplied == old(server.lastReplied)
      ensures r.Stopped? ==> r.why == ReadFailure
      ensures r.Done? ==> RecoveredFrom(r.value, server.Reports())
      ensures r.Done? && NoReplies(server.notes) ==> AllPosted(r.value, server.notes, server.bot)
      ensures old(server.Quiet()) ==> server.Quiet() && server.notes == old(server.notes) && r.Done?
    {
      hide AllPosted, NoReplies, SelectsFrom, Unselectable, NotesOk, Chain;
      var list := server.ListNotes();
      if list.None? { return Stopped(ReadFailure); }
      WellKeptIsRecoverable(server.notes, server.nextId, server.bot, server.target);
      r := RecoverFrom(list.value, server.bot, server.target);
      ChainRecovers(server.notes, server.nextId, server.bot, server.target,
                    if r.Done? then r.value else Selection(None, []));
      if r.Done? && NoReplies(server.notes) { SelectedIsPosted(server.notes, server.nextId, server.bot, r.value); }
    }

    /** The newest stored report of a generation, predecessor and digest. Finding none
        means that none is stored; not being able to look is a failure of its own. */
    method FindGeneration(generation: string, predecessor: NoteId, digest: Digest)
      returns (r: Attempt<Option<Recovered>>)
      requires server.Inv()
      modifies server
      ensures server.Inv() && server.Reports() == old(server.Reports())
      ensures server.retired == old(server.retired) && server.lastRead == old(server.lastRead)
      ensures server.looks == old(server.looks)
      ensures r.Stopped? ==> r.why == ReadFailure
      ensures r.Done? && r.value.Some? ==>
        var e := EntryFor(r.value.value);
        e in server.Reports() && IsPublication(e, generation, predecessor, digest)
      ensures r.Done? ==> forall e :: e in server.Reports() && IsPublication(e, generation, predecessor, digest) ==>
        r.value.Some? && e.note <= r.value.value.note
    {
      hide WellKept, NotesOk, Chain, BindingsOk, ValidState, EntryOk, IsPublication;
      var recovery := Recover();
      if recovery.Stopped? { return Stopped(recovery.why); }
      var current := recovery.value.current;
      var all := recovery.value.superseded + if current.Some? then [current.value] else [];
      AllRecovered(recovery.value, server.Reports());
      var candidates := Matching(all, generation, predecessor, digest);
      if |candidates| == 0 {
        forall e | e in server.Reports() ensures !IsPublication(e, generation, predecessor, digest) {
          var i :| 0 <= i < |all| && server.Reports()[i] == e;
          assert all[i] in all;
        }
        return Done(None);
      }
      var newest := SortBy(candidates, NewestFirst)[0];
      NewestIsFirst(candidates);
      forall e | e in server.Reports() && IsPublication(e, generation, predecessor, digest)
        ensures e.note <= newest.note
      {
        var i :| 0 <= i < |all| && server.Reports()[i] == e;
        assert all[i] in all && all[i] in candidates;
      }
      return Done(Some(newest));
    }

    // The reports that publish this generation, after this predecessor, with this digest.
    method Matching(all: seq<Recovered>, generation: string, predecessor: NoteId, digest: Digest)
      returns (candidates: seq<Recovered>)
      ensures forall c :: c in candidates <==>
        c in all && IsPublication(EntryFor(c), generation, predecessor, digest)
    {
      candidates := [];
      for i := 0 to |all|
        invariant forall c :: c in candidates <==>
          c in all[..i] && IsPublication(EntryFor(c), generation, predecessor, digest)
      {
        var p := PublicationOf(all[i]);
        assert all[..i + 1] == all[..i] + [all[i]];
        if p.generation == generation && p.predecessor == predecessor && p.digest == digest {
          candidates := candidates + [all[i]];
        }
      }
      assert all[..|all|] == all;
    }

    /** Read back what was written: same owner, same body, same publication. */
    method VerifyReport(id: NoteId, expected: State, body: Report) returns (r: Attempt<Recovered>)
      requires server.Inv()
      modifies server
      ensures server.Inv() && server.Reports() == old(server.Reports()) && server.retired == old(server.retired)
      ensures server.looks == old(server.looks)
      ensures r.Done? ==> r.value == Recovered(id, body) && EntryFor(r.value) in server.Reports()
      ensures old(server.Quiet()) ==> server.Quiet() && server.notes == old(server.notes)
      ensures old(server.Quiet()) && Posted(old(server.notes), server.bot, Recovered(id, body)) ==>
        (Encode(expected) == Ok(body) && Storable(expected, id, server.target) ==> r.Done?)
      ensures r.Done? ==> id in server.lastRead && server.lastRead[id] == Owned(body)
    {
      VerifiesPosted(id, expected, body);
      var n := server.GetNote(id);
      if n.None? { return Stopped(ReadFailure); }
      var note := n.value;
      if note.author != server.bot || note.restricted || note.body != Owned(body) { return Stopped(Conflict); }
      var decoded := Decode(body);
      if decoded.Err? || decoded.value.publication.None? || expected.publication.None? { return Stopped(Conflict); }
      var digest := CalculateDigest(decoded.value);
      var p := decoded.value.publication.value;
      if digest.Err? || digest.value != p.digest || p.note != id
         || p.generation != expected.publication.value.generation || decoded.value.mr != expected.mr {
        return Stopped(Conflict);
      }
      LedgerHas(server.notes, server.bot, note);
      return Done(Recovered(id, body));
    }

    // What was posted passes the checks.
    lemma VerifiesPosted(id: NoteId, expected: State, body: Report)
      requires server.Inv()
      ensures Posted(server.notes, server.bot, Recovered(id, body)) ==>
        NoteUnder(server.notes, id) == Some(PostOf(Recovered(id, body), server.bot))
      ensures Encode(expected) == Ok(body) && Storable(expected, id, server.target) ==>
        && Decode(body) == Ok(body.state) && body.state.publication == expected.publication
        && CalculateDigest(body.state) == Ok(expected.publication.value.digest)
        && body.state.mr == expected.mr
    {
      if Posted(server.notes, server.bot, Recovered(id, body)) {
        PostedIsRead(server.notes, server.nextId, server.bot, Recovered(id, body));
      }
      if Encode(expected) == Ok(body) {
        DecodeEncode(expected);
        DigestStateShape(expected);
        DigestStateShape(body.state);
      }
    }

    // The ledger after a successor was stored, and what is known about its state.
    ghost predicate Stored(s: State, successor: Recovered)
      reads server
    {
      && |server.Reports()| > 0
      && LastOf(server.Reports()) == Entry(successor.note, Canonicalize(s))
      && Storable(s, successor.note, server.target)
    }

    method StoreFinal(s: State, id: NoteId, stored: Report, fits: Report -> bool) returns (r: Attempt<Prepared>)
      requires server.Inv()
      requires Storable(s, id, server.target) && |server.Reports()| > 0
      requires var last := LastOf(server.Reports());
        && last == Entry(id, stored.state)
        && PredecessorOf(last) == s.publication.value.predecessor
        && FindingIds(stored.state.findings) == FindingIds(s.findings)
      modifies server
      ensures server.Inv() && server.retired == old(server.retired)
      ensures server.looks == old(server.looks)
      ensures server.Reports() == old(server.Reports()) ||
        server.Reports() == Rewritten(old(server.Reports()), Entry(id, Canonicalize(s)))
      ensures r.Done? ==> r.value.state == s && r.value.successor.note == id && Stored(s, r.value.successor)
      ensures old(server.Quiet()) && Posted(old(server.notes), server.bot, Recovered(id, stored)) ==>
        (Encode(s).Ok? && fits(Encode(s).value) ==>
           r.Done? && server.Quiet() && OthersStay(old(server.notes), server.notes, id))
      ensures r.Done? ==> ReadBack(s, id, server.lastRead, fits)
    {
      hide BindingsOk, ValidState, DigestState, FindingIds;
      StorableEntry(s, id, id, server.target);
      var body := Encode(s).value;
      if !fits(body) { return Stopped(Invalid); }
      if Posted(server.notes, server.bot, Recovered(id, stored)) {
        RebodiedIsPosted(server.notes, server.nextId, server.bot, Recovered(id, stored), body);
      }
      if stored != body {
        var ok := server.UpdateNote(id, body);
        if !ok { return Stopped(WriteFailure); }
      }
      var verified := VerifyReport(id, s, body);
      if verified.Stopped? { return Stopped(verified.why); }
      return Done(Prepared(s, verified.value));
    }

    // A resumed publication has to be about the very state that is stored.
    method ResumedState(request: Request, current: Recovered) returns (r: Attempt<State>)
      requires RequestOk(request, server.target) && EntryOk(EntryFor(current), server.target)
      requires PublicationOf(current).generation == request.generation
      ensures r.Done? ==>
        && Storable(r.value, current.note, server.target)
        && r.value.findings == request.state.findings
        && Carries(request.state, request.interactions, r.value)
        && FindingIds(r.value.findings) == FindingIds(current.report.state.findings)
        && r.value.publication.value.generation == request.generation
        && r.value.publication.value.predecessor == PublicationOf(current).predecessor
    {
      var p := PublicationOf(current);
      var s := request.state.(publication :=
        Some(Domain.Publication(request.generation, current.note, p.predecessor, NoDigest, p.publishedAt)));
      var digest := CalculateDigest(s);
      if digest.Err? { return Stopped(Invalid); }
      var currentDigest := CalculateDigest(current.report.state);
      if currentDigest.Err? || digest.value != currentDigest.value { return Stopped(Conflict); }
      SameDigestSameFindings(s, current.report.state);
      DigestedIsStorable(s, server.target);
      CarriesSelf(request.state, request.interactions, WithDigest(s).publication);
      return Done(WithDigest(s));
    }

    /** A publication of the same generation is continued on the note it already has. */
    method ResumeSuccessor(request: Request, recovery: Selection) returns (r: Attempt<Prepared>)
      requires server.Inv() && RequestOk(request, server.target)
      requires RecoveredFrom(recovery, server.Reports()) && recovery.current.Some?
      requires PublicationOf(recovery.current.value).generation == request.generation
      modifies server
      ensures server.Inv() && server.retired == old(server.retired)
      ensures server.looks == old(server.looks)
      ensures Grown(old(server.Reports()), server.Reports(), request.generation)
      ensures Delivers(request, old(server.Reports()), server.Reports())
      ensures r.Done? ==>
        && Stored(r.value.state, r.value.successor)
        && Carries(request.state, request.interactions, r.value.state)
        && r.value.state.findings == request.state.findings
        && r.value.state.publication.value.generation == request.generation
      ensures r.Done? ==> ReadBack(r.value.state, r.value.successor.note, server.lastRead, request.fits)
    {
      hide BindingsOk, ValidState, Carries, Delivers;
      var current := recovery.current.value;
      ghost var l0 := server.Reports();
      assert EntryOk(LastOf(l0), server.target);
      DeliversNothing(request, l0);
      var resumed := ResumedState(request, current);
      if resumed.Stopped? { return Stopped(resumed.why); }
      var s := resumed.value;
      StorableEntry(s, current.note, current.note, server.target);
      var body := Encode(s).value;
      if !request.fits(body) { return Stopped(Invalid); }
      if current.report != body || PublicationOf(current).note == 0 {
        var ok := server.UpdateNote(current.note, body);
        DeliversLast(request, l0, server.Reports(), s);
        if !ok { return Stopped(WriteFailure); }
      }
      var verified := VerifyReport(current.note, s, body);
      if verified.Stopped? { return Stopped(verified.why); }
      return Done(Prepared(s, verified.value));
    }

    // The successor's state before it has a note: the predecessor's boxes taken
    // over, digested, and small enough under any note id.
    method DraftState(request: Request, recovery: Selection) returns (r: Attempt<State>)
      requires RequestOk(request, server.target)
      requires recovery.current.Some? ==> recovery.current.value.note >= 0
      ensures r.Done? ==>
        && Storable(r.value, 0, server.target)
        && Carries(request.state, request.interactions, r.value)
        && r.value.publication.value.generation == request.generation
        && r.value.publication.value.predecessor ==
             (if recovery.current.Some? then recovery.current.value.note else 0)
        && (recovery.current.Some? ==>
              var priors := recovery.current.value.report.state.findings;
              && FindingIds(priors) <= FindingIds(r.value.findings)
              && (SyncWith(request.state.findings, priors) ==> SyncWith(r.value.findings, priors)))
      ensures r.Done? ==> r.value == DraftOf(request, recovery.current)
      ensures Welcome(request, recovery.current, server.target) ==> r.Done?
    {
      hide ControlledAll, SyncWith, Carries, ValidFinding;
      if Welcome(request, recovery.current, server.target) { WelcomeFits(request, recovery.current, server.target); }
      var predecessor := if recovery.current.Some? then recovery.current.value.note else 0;
      var s := request.state.(publication :=
        Some(Domain.Publication(request.generation, 0, predecessor, NoDigest, request.publishedAt)));
      CarriesSelf(request.state, request.interactions, s.publication);
      if recovery.current.Some? {
        var current := recovery.current.value.report;
        var reconciled, changed := ReconcileControls(current, s, request.interactions, request.publishedAt);
        if reconciled.Err? { return Stopped(Conflict); }
        ControlledIds(s.findings, current, request.interactions, request.publishedAt);
        CarriesEdit(request.state, request.interactions, s, current, request.publishedAt);
        if ValidState(s) { EditKeepsValid(s, current, request.interactions, request.publishedAt); }
        if SyncWith(s.findings, current.state.findings) {
          ControlsKeepSync(s.findings, current, request.interactions, request.publishedAt);
        }
        s := reconciled.value;
      }
      var digest := CalculateDigest(s);
      if ValidState(s) { ValidIsWritten(s, 0); }
      if digest.Err? { return Stopped(Invalid); }
      DigestedIsStorable(s, server.target);
      CarriesNamed(request.state, request.interactions, s, WithDigest(s).publication);
      s := WithDigest(s);
      assert s == DraftOf(request, recovery.current);
      var probe := Encode(WithNote(s, MAX_INT64));
      if probe.Err? || !request.fits(probe.value) { return Stopped(Invalid); }
      return Done(s);
    }

    // The note whose creation was not confirmed, if it is there.
    method FindCreated(s: State, body: Report, ghost l0: seq<Entry>) returns (r: Option<Recovered>)
      requires server.Inv()
      requires s.publication.Some? && s.publication.value.generation != "" && Chain(l0, server.target)
      requires body.state == Canonicalize(s) && Successor(l0, Entry(0, s))
      requires server.Reports() == l0 || exists id :: server.Reports() == l0 + [Entry(id, body.state)]
      modifies server
      ensures server.Inv() && server.retired == old(server.retired) && server.Reports() == old(server.Reports())
      ensures server.looks == old(server.looks)
      ensures r.Some? ==> server.Reports() == l0 + [EntryFor(r.value)] && r.value.report.state == body.state
    {
      hide NotesOk, Chain, ValidState, BindingsOk;
      var p := s.publication.value;
      var found := FindGeneration(p.generation, p.predecessor, p.digest);
      if found.Stopped? { return None; }
      r := found.value;
      if r.Some? { NewestIsCreated(l0, server.Reports(), r.value, p.predecessor, server.target); }
    }

    // Create the note, or find the one a lost reply may have left behind.
    method CreateOrFind(generation: string, s: State, body: Report) returns (r: Option<Recovered>)
      requires server.Inv()
      requires Storable(s, 0, server.target)
      requires body.state == Canonicalize(s) && BindingsOk(body.state.findings, body.controls)
      requires s.publication.value.generation == generation
      requires Successor(server.Reports(), Entry(0, s))
      modifies server
      ensures server.Inv() && server.retired == old(server.retired)
      ensures server.looks == old(server.looks)
      ensures r.Some? ==>
        server.Reports() == old(server.Reports()) + [EntryFor(r.value)] && r.value.report.state == body.state
      ensures r.None? ==>
        || server.Reports() == old(server.Reports())
        || exists id :: server.Reports() == old(server.Reports()) + [Entry(id, body.state)]
      ensures old(server.Quiet()) ==>
        && server.Quiet() && r.Some? && r.value.report == body
        && server.notes == old(server.notes) + [PostOf(r.value, server.bot)]
    {
      ghost var l0 := server.Reports();
      forall id | id >= 1 ensures EntryOk(Entry(id, body.state), server.target) {
        StorableEntry(s, 0, id, server.target);
      }
      StorableEntry(s, 0, 1, server.target);
      var note := server.CreateNote(body);
      if note.Some? { return Some(Recovered(note.value, body)); }
      r := FindCreated(s, body, l0);
    }

    /** Either the ledger is as it was, or a report of this generation is its newest
        entry and nothing has been removed. */
    method PrepareSuccessor(request: Request, recovery: Selection)
      returns (r: Attempt<Prepared>, created: bool)
      requires server.Inv() && RequestOk(request, server.target)
      requires RecoveredFrom(recovery, server.Reports())
      modifies server
      ensures old(server.looks) <= server.looks
      ensures r.Done? ==> server.looks == old(server.looks) + if created then [true] else []
      ensures SomeStale(old(server.looks), server.looks) ==> r.Stopped? && server.Reports() == old(server.Reports())
      ensures server.Inv() && server.retired == old(server.retired)
      ensures server.Reports() == old(server.Reports()) ||
        Grown(old(server.Reports()), server.Reports(), request.generation)
      ensures Delivers(request, old(server.Reports()), server.Reports())
      ensures created ==> |server.Reports()| > 0 && server.Reports()[..|server.Reports()| - 1] == old(server.Reports())
      ensures r.Done? ==>
        && PreparedOver(request, recovery, old(server.Reports()), server.Reports(), r.value.state)
        && Stored(r.value.state, r.value.successor)
        && Carries(request.state, request.interactions, r.value.state)
        && (created <==> !Resumes(request, recovery))
      ensures old(server.Quiet()) && !Resumes(request, recovery) ==>
        (Welcome(request, recovery.current, server.target) ==>
           && r.Done? && server.Quiet() && AllStay(old(server.notes), server.notes)
           && r.value.state.findings == DraftOf(request, recovery.current).findings)
      ensures r.Done? ==> ReadBack(r.value.state, r.value.successor.note, server.lastRead, request.fits)
    {
      hide BindingsOk, ValidState, Carries, Delivers, DraftOf, AllStay, CarriedBy, FitsNamed, AllPosted,
        SyncWith, NotesOk, Ledger, SomeStale, ReadBack, FindingIds;
      DeliversNothing(request, server.Reports());
      LookedOnce(server.looks, false);
      LookedOnce(server.looks, true);
      if Resumes(request, recovery) {
        r := ResumeSuccessor(request, recovery);
        return r, false;
      }
      ghost var l0 := server.Reports();
      assert |l0| > 0 ==> EntryOk(LastOf(l0), server.target);
      var draft := DraftState(request, recovery);
      if draft.Stopped? { return Stopped(draft.why), false; }
      var s := draft.value;
      StorableEntry(s, 0, 1, server.target);
      var body := Encode(s).value;
      var upToDate := server.CheckFreshness();
      if !upToDate { return Stopped(Stale), false; }
      var latest := Recover();
      if latest.Stopped? { return Stopped(latest.why), false; }
      SameLedgerSameHead(latest.value, recovery, l0);
      if !SameRecovered(latest.value.current, recovery.current) { return Stopped(Stale), false; }
      r, created := CreateSuccessor(request, s, body);
    }

    // The note exists; store the state that names it.
    method NameSuccessor(request: Request, s: State, note: Recovered, ghost l0: seq<Entry>)
      returns (r: Attempt<Prepared>)
      requires server.Inv()
      requires Storable(s, 0, server.target) && note.report.state == Canonicalize(s)
      requires s.publication.value.generation == request.generation
      requires server.Reports() == l0 + [EntryFor(note)]
      requires |l0| > 0 ==> FindingIds(LastOf(l0).state.findings) <= FindingIds(s.findings)
      requires Carries(request.state, request.interactions, s)
      modifies server
      ensures server.Inv() && server.retired == old(server.retired)
      ensures server.looks == old(server.looks)
      ensures Grown(l0, server.Reports(), request.generation)
      ensures Delivers(request, l0, server.Reports())
      ensures server.Reports()[..|server.Reports()| - 1] == l0
      ensures old(server.Quiet()) && Posted(old(server.notes), server.bot, note) && FitsNamed(request, s) ==>
        r.Done? && server.Quiet() && OthersStay(old(server.notes), server.notes, note.note)
      ensures r.Done? ==>
        && Stored(r.value.state, r.value.successor)
        && Carries(request.state, request.interactions, r.value.state)
        && r.value.state.findings == s.findings
        && r.value.state.publication.value.generation == request.generation
        && r.value.state.publication.value.predecessor == s.publication.value.predecessor
      ensures r.Done? ==> ReadBack(r.value.state, r.value.successor.note, server.lastRead, request.fits)
    {
      hide BindingsOk, ValidState, DigestState, NotesOk, Encode, Carries, Delivers, ReadBack, FindingIds, Grown;
      var id := note.note;
      ghost var l1 := server.Reports();
      assert EntryOk(LastOf(l1), server.target);
      DeliversLast(request, l0, l1, s);
      NamedIsStorable(s, id, server.target);
      StorableEntry(WithNote(s, id), id, id, server.target);
      CarriesNamed(request.state, request.interactions, s, WithNote(s, id).publication);
      r := StoreFinal(WithNote(s, id), id, note.report, request.fits);
      if server.Reports() != l1 { DeliversLast(request, l0, server.Reports(), WithNote(s, id)); }
      GrownByNamed(l0, server.Reports(), EntryFor(note), Entry(id, Canonicalize(WithNote(s, id))), request.generation);
    }

    // Create the note, then name it.
    method CreateSuccessor(request: Request, s: State, body: Report) returns (r: Attempt<Prepared>, created: bool)
      requires server.Inv()
      requires Storable(s, 0, server.target)
      requires body.state == Canonicalize(s) && BindingsOk(body.state.findings, body.controls)
      requires s.publication.value.generation == request.generation
      requires Successor(server.Reports(), Entry(0, s))
      requires Carries(request.state, request.interactions, s)
      modifies server
      ensures server.Inv() && server.retired == old(server.retired)
      ensures server.looks == old(server.looks)
      ensures server.Reports() == old(server.Reports()) ||
        Grown(old(server.Reports()), server.Reports(), request.generation)
      ensures Delivers(request, old(server.Reports()), server.Reports())
      ensures created ==> |server.Reports()| > 0 && server.Reports()[..|server.Reports()| - 1] == old(server.Reports())
      ensures r.Done? ==>
        && created
        && Grown(old(server.Reports()), server.Reports(), request.generation)
        && Stored(r.value.state, r.value.successor)
        && Carries(request.state, request.interactions, r.value.state)
        && r.value.state.findings == s.findings
        && r.value.state.publication.value.generation == request.generation
        && r.value.state.publication.value.predecessor == s.publication.value.predecessor
      ensures old(server.Quiet()) && FitsNamed(request, s) ==>
        r.Done? && server.Quiet() && AllStay(old(server.notes), server.notes)
      ensures r.Done? ==> ReadBack(r.value.state, r.value.successor.note, server.lastRead, request.fits)
    {
      hide BindingsOk, ValidState, DigestState, NotesOk, Encode, Carries, Delivers, FitsNamed, AllStay, OthersStay;
      ghost var l0, notes0 := server.Reports(), server.notes;
      StorableEntry(s, 0, 1, server.target);
      var note := CreateOrFind(request.generation, s, body);
      DeliversLast(request, l0, server.Reports(), s);
      if note.None? {
        GrownByOne(l0, server.Reports(), body.state, request.generation);
        return Stopped(WriteFailure), false;
      }
      created := true;
      ghost var notes1, nextId1 := server.notes, server.nextId;
      r := NameSuccessor(request, s, note.value, l0);
      if notes1 == notes0 + [PostOf(note.value, server.bot)] && OthersStay(notes1, server.notes, note.value.note) {
        NewNoteIsNew(notes0, note.value, nextId1, server.bot, server.notes);
      }
    }

    // What the late reconciliation makes of a reread predecessor.
    method LateState(request: Request, recovery: Selection, note: Note, s: State)
      returns (r: Attempt<State>, changed: bool)
      requires s.publication.Some? && Storable(s, s.publication.value.note, server.target)
      requires Carries(request.state, request.interactions, s)
      ensures r.Done? ==> Carries(request.state, request.interactions, r.value)
      ensures r.Done? ==>
        && note.body.Owned? && note.author == server.bot && Decode(note.body.report).Ok?
        && r.value.findings == ControlledAll(s.findings, note.body.report, request.interactions, request.publishedAt)
        && FindingIds(r.value.findings) == FindingIds(s.findings)
        && Storable(r.value, s.publication.value.note, server.target)
        && r.value.publication.value.generation == s.publication.value.generation
        && r.value.publication.value.predecessor == s.publication.value.predecessor
      ensures r.Done? && !changed ==> r.value == s
      ensures recovery.current.Some? ==>
        (FoundAgain(request, recovery.current.value, note, server.bot, s, server.target) ==> r.Done? && !changed)
    {
      hide FoundAgain, Carries, ControlledAll, SomeBoxMoved, ControlsApply, Decode;
      if recovery.current.Some? && FoundAgain(request, recovery.current.value, note, server.bot, s, server.target) {
        FoundAgainUnmoved(request, recovery.current.value, note, server.bot, s, server.target);
      }
      changed := false;
      var predecessor := s.publication.value.predecessor;
      var prior := ReportById(recovery, predecessor);
      if prior.None? || note.author != server.bot || note.restricted { return Stopped(Conflict), changed; }
      if note.body.Prose? { return Stopped(Conflict), changed; }
      var decoded := Decode(note.body.report);
      if decoded.Err? || decoded.value.publication.None? { return Stopped(Conflict), changed; }
      var noted := decoded.value.publication.value.note;
      if noted != 0 && noted != predecessor { return Stopped(Conflict), changed; }
      var reconciled;
      reconciled, changed := ReconcileControls(note.body.report, s, request.interactions, request.publishedAt);
      if reconciled.Err? { return Stopped(Conflict), changed; }
      var s' := reconciled.value;
      CarriesEdit(request.state, request.interactions, s, note.body.report, request.publishedAt);
      ControlledIds(s.findings, note.body.report, request.interactions, request.publishedAt);
      if !changed {
        NothingMoved(s.findings, note.body.report, request.interactions, request.publishedAt);
        return Done(s'), false;
      }
      var digest := CalculateDigest(s');
      if digest.Err? { return Stopped(Invalid), changed; }
      DigestedIsStorable(s', server.target);
      CarriesNamed(request.state, request.interactions, s', WithDigest(s').publication);
      return Done(WithDigest(s')), true;
    }

    /** Take over what humans did to the direct predecessor's boxes meanwhile. */
    method ReconcileLateControls(request: Request, recovery: Selection, successor: Recovered, s: State)
      returns (r: Attempt<State>, reread: Option<Report>)
      requires server.Inv() && Stored(s, successor)
      requires Carries(request.state, request.interactions, s)
      modifies server
      ensures server.Inv() && server.retired == old(server.retired)
      ensures server.looks == old(server.looks)
      ensures Delivers(request, old(server.Reports()), server.Reports())
      ensures server.Reports() == old(server.Reports()) ||
        exists e ::
          server.Reports() == Rewritten(old(server.Reports()), e) && SameReport(LastOf(old(server.Reports())), e)
      ensures r.Done? ==>
        && Stored(r.value, successor)
        && r.value.publication.value.generation == s.publication.value.generation
        && r.value.publication.value.predecessor == s.publication.value.predecessor
      ensures r.Done? && reread.None? ==> s.publication.value.predecessor == 0
      ensures r.Done? && reread.Some? ==>
        && s.publication.value.predecessor > 0
        && r.value.findings == ControlledAll(s.findings, reread.value, request.interactions, request.publishedAt)
        && Entry(s.publication.value.predecessor, reread.value.state) in old(server.Reports())
        && Decode(reread.value).Ok?
      ensures old(server.Quiet()) && DraftedOver(request, recovery.current, old(server.notes), server.bot, s) ==>
        (Welcome(request, recovery.current, server.target) ==>
           && r == Done(s) && server.Quiet() && server.notes == old(server.notes)
           && (reread.Some? ==> recovery.current.Some? && reread.value == recovery.current.value.report))
      ensures r.Done? && ReadBack(s, successor.note, old(server.lastRead), request.fits) ==>
        ReadBack(r.value, successor.note, server.lastRead, request.fits)
    {
      hide BindingsOk, ValidState, DigestState, NotesOk, Decode, ControlledAll, Carries, Delivers, FoundAgain, Chain,
        ReadBack;
      PredecessorIsOlder(server.Reports(), server.target);
      if DraftedOver(request, recovery.current, server.notes, server.bot, s) {
        if Welcome(request, recovery.current, server.target) && recovery.current.Some? {
          DraftedIsFound(request, recovery.current.value, server.notes, server.nextId, server.bot, s, server.target);
        }
      }
      DeliversNothing(request, server.Reports());
      StorableEntry(s, successor.note, successor.note, server.target);
      var predecessor := s.publication.value.predecessor;
      if predecessor == 0 { return Done(s), None; }
      var n := server.GetNote(predecessor);
      if n.None? { return Stopped(ReadFailure), None; }
      ghost var l := server.Reports();
      var late, changed := LateState(request, recovery, n.value, s);
      if late.Stopped? { return Stopped(late.why), None; }
      LedgerHas(server.notes, server.bot, n.value);
      if !changed {
        ReadElsewhere(s, successor.note, old(server.lastRead), server.lastRead, request.fits);
        return late, Some(n.value.body.report);
      }
      r := StoreLate(request, late.value, successor.note);
      return r, if r.Done? then Some(n.value.body.report) else None;
    }

    // The successor is stored again, with the boxes taken over.
    method StoreLate(request: Request, s: State, id: NoteId) returns (r: Attempt<State>)
      requires server.Inv() && Storable(s, id, server.target) && |server.Reports()| > 0
      requires var last := LastOf(server.Reports());
        && last.note == id
        && PredecessorOf(last) == s.publication.value.predecessor
        && GenerationOf(last) == s.publication.value.generation
        && FindingIds(last.state.findings) == FindingIds(s.findings)
      requires Carries(request.state, request.interactions, s)
      modifies server
      ensures server.Inv() && server.retired == old(server.retired)
      ensures server.looks == old(server.looks)
      ensures Delivers(request, old(server.Reports()), server.Reports())
      ensures server.Reports() == old(server.Reports()) ||
        (server.Reports() == Rewritten(old(server.Reports()), Entry(id, Canonicalize(s))) &&
         SameReport(LastOf(old(server.Reports())), Entry(id, Canonicalize(s))))
      ensures r.Done? ==> r.value == s && Stored(s, Recovered(id, Encode(s).value))
      ensures r.Done? ==> ReadBack(s, id, server.lastRead, request.fits)
    {
      hide BindingsOk, ValidState, DigestState, NotesOk, Decode, Carries, Delivers;
      ghost var l := server.Reports();
      DeliversNothing(request, l);
      StorableEntry(s, id, id, server.target);
      var body := Encode(s).value;
      if !request.fits(body) { return Stopped(Invalid); }
      var ok := server.UpdateNote(id, body);
      DeliversLast(request, l, server.Reports(), s);
      if !ok { return Stopped(WriteFailure); }
      var verified := VerifyReport(id, s, body);
      if verified.Stopped? { return Stopped(verified.why); }
      return Done(s);
    }

    // One candidate: ownership, an unchanged body, kept provenance and no replies.
    method EnsureCandidateSafe(id: NoteId, expected: map<NoteId, Report>, replied: set<NoteId>,
                               retained: Option<State>, kinds: map<SourceId, SourceKind>)
      returns (r: Attempt<()>)
      requires server.Inv()
      modifies server
      ensures server.Inv() && server.Reports() == old(server.Reports())
      ensures server.retired == old(server.retired) && server.lastReplied == old(server.lastReplied)
      ensures server.looks == old(server.looks)
      ensures forall x :: x != id && x in old(server.lastRead) ==>
        x in server.lastRead && server.lastRead[x] == old(server.lastRead)[x]
      ensures r.Done? ==>
        id !in replied && id in server.lastRead &&
        Rechecked(id, server.lastRead[id], expected, retained, server.Reports(), kinds)
      ensures old(server.Quiet()) ==> server.Quiet() && server.notes == old(server.notes)
      ensures old(server.Quiet()) && id !in replied ==>
        (Removable(id, old(server.notes), server.bot, expected, retained, kinds) ==> r.Done?)
    {
      hide BindingsOk, ValidState, WellKept, Provenance.Retained, Decode;
      ReportIsRecoverable(server.notes, server.nextId, server.bot, server.target, id);
      var n := server.GetNote(id);
      if n.None? { return Stopped(ReadFailure); }
      var note := n.value;
      if note.author != server.bot || note.restricted { return Stopped(CleanupBlocked); }
      if id in expected && note.body != Owned(expected[id]) { return Stopped(CleanupBlocked); }
      if note.body.Prose? { return Stopped(CleanupBlocked); }
      var decoded := Decode(note.body.report);
      if decoded.Err? || decoded.value.publication.None? || decoded.value.mr != server.target {
        return Stopped(CleanupBlocked);
      }
      var noted := decoded.value.publication.value.note;
      if noted != 0 && noted != id { return Stopped(CleanupBlocked); }
      if retained.Some? {
        var kept := Provenance.ValidateRetainedSourceRecords(note.body.report.state, retained.value, kinds);
        if !kept { return Stopped(CleanupBlocked); }
      }
      if id in replied { return Stopped(CleanupBlocked); }
      LedgerHas(server.notes, server.bot, note);
      ghost var l := server.Reports();
      ghost var at :| 0 <= at < |l| && l[at] == EntryOf(note);
      return Done(());
    }

    /** What a candidate said when it was last read: a report, unchanged where a body was
        expected, whose provenance the successor keeps. */
    static ghost predicate Rechecked(id: NoteId, body: Body, expected: map<NoteId, Report>, retained: Option<State>,
                                     l: seq<Entry>, kinds: map<SourceId, SourceKind>)
    {
      && body.Owned?
      && (id in expected ==> body == Owned(expected[id]))
      && (retained.Some? ==>
            && ProvenanceKept(id, l, retained.value, kinds)
            && Provenance.Retained(body.report.state, retained.value, kinds))
    }

    /** Everything about the candidates is read again just before anything is deleted:
        none had a reply when the discussions were listed, and each said what was expected. */
    method EnsureCleanupSafe(candidates: seq<NoteId>, expected: map<NoteId, Report>, retained: Option<State>,
                             kinds: map<SourceId, SourceKind>)
      returns (r: Attempt<()>)
      requires server.Inv()
      modifies server
      ensures server.Inv() && server.Reports() == old(server.Reports()) && server.retired == old(server.retired)
      ensures server.looks == old(server.looks)
      ensures r.Done? ==> forall id :: id in candidates ==>
        && id !in server.lastReplied
        && id in server.lastRead && Rechecked(id, server.lastRead[id], expected, retained, server.Reports(), kinds)
      ensures old(server.Quiet()) ==> server.Quiet() && server.notes == old(server.notes)
      ensures old(server.Quiet()) && NoReplies(old(server.notes)) ==>
        ((forall id :: id in candidates ==> Removable(id, old(server.notes), server.bot, expected, retained, kinds)) ==>
           r.Done?)
      ensures forall x :: x !in candidates && x in old(server.lastRead) ==>
        x in server.lastRead && server.lastRead[x] == old(server.lastRead)[x]
    {
      hide BindingsOk, ValidState, WellKept, NotesOk, Chain, EntryOk, Rechecked, Removable;
      if |candidates| == 0 { return Done(()); }
      var replied := server.ListDiscussions();
      if replied.None? { return Stopped(ReadFailure); }
      for i := 0 to |candidates|
        invariant server.Inv() && server.Reports() == old(server.Reports()) && server.retired == old(server.retired)
        invariant server.looks == old(server.looks)
        invariant server.lastReplied == replied.value
        invariant forall x :: x !in candidates && x in old(server.lastRead) ==>
          x in server.lastRead && server.lastRead[x] == old(server.lastRead)[x]
        invariant old(server.Quiet()) ==> server.Quiet() && server.notes == old(server.notes)
        invariant forall k :: 0 <= k < i ==>
          && candidates[k] !in replied.value
          && candidates[k] in server.lastRead
          && Rechecked(candidates[k], server.lastRead[candidates[k]], expected, retained, server.Reports(), kinds)
      {
        assert candidates[i] in candidates;
        var safe := EnsureCandidateSafe(candidates[i], expected, replied.value, retained, kinds);
        if safe.Stopped? { return safe; }
      }
      return Done(());
    }

    // A delete whose reply was lost counts once the note is gone.
    method DeleteOldest(id: NoteId) returns (r: Attempt<()>)
      requires server.Inv() && |server.Reports()| > 0 && server.Reports()[0].note == id
      modifies server
      ensures server.looks == old(server.looks)
      ensures server.Inv() && server.lastRead == old(server.lastRead) && server.lastReplied == old(server.lastReplied)
      ensures server.Reports() == old(server.Reports()) || server.Reports() == old(server.Reports())[1..]
      ensures r.Done? ==>
        && server.Reports() == old(server.Reports())[1..]
        && id in server.retired && Shows(server.retired[id], old(server.Reports())[0])
      ensures forall x :: x != id && x in old(server.retired) ==>
        x in server.retired && server.retired[x] == old(server.retired)[x]
      ensures old(server.Quiet()) ==> r.Done? && server.Quiet()
    {
      hide BindingsOk, ValidState, EntryOk;
      ghost var before := server.Reports();
      assert before[0] in before;
      WithoutOldest(server.notes, server.nextId, server.bot, server.target);
      var ok := server.DeleteNote(id);
      if !ok {
        var list := server.ListNotes();
        if list.None? || IndexOf(list.value, id).Some? { return Stopped(WriteFailure); }
        if server.Reports() == before { EntryHasNote(server.notes, server.bot, before[0]); }
      }
      return Done(());
    }

    /** Each retired report is remembered as it was when it was deleted. */
    method DeleteSuperseded(candidates: seq<NoteId>) returns (r: Attempt<seq<NoteId>>)
      requires server.Inv() && OldestFirst(candidates, server.Reports())
      modifies server
      ensures server.looks == old(server.looks)
      ensures server.Inv() && server.lastRead == old(server.lastRead) && server.lastReplied == old(server.lastReplied)
      ensures exists k :: 0 <= k <= |candidates| && server.Reports() == old(server.Reports())[k..]
      ensures r.Done? ==>
        && r.value == candidates
        && server.Reports() == old(server.Reports())[|candidates|..]
        && AllRetired(candidates, old(server.Reports()), server.retired)
      ensures old(server.Quiet()) ==> r.Done? && server.Quiet()
    {
      hide BindingsOk, ValidState, WellKept, Shows, AllRetired;
      ghost var l := server.Reports();
      AscendingNotes(server.notes, server.nextId, server.bot, server.target);
      var deleted: seq<NoteId> := [];
      NothingRetired(l, server.retired);
      assert candidates[..0] == [];
      for i := 0 to |candidates|
        invariant server.Inv() && server.Reports() == l[i..]
        invariant server.lastRead == old(server.lastRead) && server.lastReplied == old(server.lastReplied)
        invariant server.looks == old(server.looks)
        invariant deleted == candidates[..i]
        invariant old(server.Quiet()) ==> server.Quiet()
        invariant AllRetired(candidates[..i], l, server.retired)
      {
        assert l[i..][1..] == l[i + 1..];
        ghost var before := server.retired;
        var gone := DeleteOldest(candidates[i]);
        if gone.Stopped? { return Stopped(gone.why); }
        RetiredOneMore(candidates, l, i, before, server.retired);
        deleted := deleted + [candidates[i]];
      }
      assert candidates[..|candidates|] == candidates;
      return Done(deleted);
    }

    /** Only the note this attempt created is withdrawn, and success means it is gone. */
    method RemoveUnpublishedSuccessor(id: NoteId) returns (r: Attempt<()>)
      requires server.Inv() && |server.Reports()| > 0 && LastOf(server.Reports()).note == id
      modifies server
      ensures server.looks == old(server.looks)
      ensures server.Inv()
      ensures server.Reports() == old(server.Reports()) ||
        server.Reports() == old(server.Reports())[..|old(server.Reports())| - 1]
      ensures r.Done? ==> server.Reports() == old(server.Reports())[..|old(server.Reports())| - 1]
    {
      hide BindingsOk, ValidState, Rechecked;
      ghost var before := server.Reports();
      var safe := EnsureCleanupSafe([id], map[], None, map[]);
      if safe.Stopped? { return safe; }
      assert LastOf(before) in before;
      WithoutNewest(server.notes, server.nextId, server.bot, server.target);
      var ok := server.DeleteNote(id);
      if !ok {
        var list := server.ListNotes();
        if list.None? || IndexOf(list.value, id).Some? { return Stopped(WriteFailure); }
        if server.Reports() == before { EntryHasNote(server.notes, server.bot, LastOf(before)); }
      }
      return Done(());
    }

    method VerifyOnlyCurrent(id: NoteId, generation: string) returns (r: Attempt<()>)
      requires server.Inv()
      modifies server
      ensures server.Inv() && server.Reports() == old(server.Reports())
      ensures server.retired == old(server.retired) && server.lastRead == old(server.lastRead)
      ensures server.looks == old(server.looks) && server.lastReplied == old(server.lastReplied)
      ensures r.Done? ==>
        |server.Reports()| == 1 && server.Reports()[0].note == id && GenerationOf(server.Reports()[0]) == generation
      ensures old(server.Quiet()) && |server.Reports()| == 1 ==>
        (server.Reports()[0].note == id && GenerationOf(server.Reports()[0]) == generation ==> r.Done?)
    {
      var recovery := Recover();
      if recovery.Stopped? { return Stopped(recovery.why); }
      var s := recovery.value;
      if s.current.None? || s.current.value.note != id || PublicationOf(s.current.value).generation != generation
         || |s.superseded| != 0 {
        return Stopped(Conflict);
      }
      return Done(());
    }

    // The reports to retire pass every cleanup check.
    method CheckRetirement(request: Request, recovery: Selection, successor: NoteId, s: State, reread: Option<Report>,
                           ghost l0: seq<Entry>)
      returns (r: Attempt<seq<NoteId>>)
      requires server.Inv() && |server.Reports()| > 0
      requires LastOf(server.Reports()).note == successor
      requires RecoveredFrom(recovery, l0) && Chain(l0, server.target)
      requires Grown(l0, server.Reports(), request.generation)
      requires s.publication.Some?
      modifies server
      ensures server.Inv() && server.Reports() == old(server.Reports()) && server.retired == old(server.retired)
      ensures server.looks == old(server.looks)
      ensures r.Done? ==>
        && |r.value| == |server.Reports()| - 1
        && OldestFirst(r.value, server.Reports())
        && forall id :: id in r.value ==>
             && id !in server.lastReplied && id in server.lastRead
             && ProvenanceKept(id, server.Reports(), s, request.kinds)
             && (id == s.publication.value.predecessor && reread.Some? && id > 0 ==>
                   server.lastRead[id] == Owned(reread.value))
      ensures old(server.Quiet()) &&
              Retirable(recovery, l0, old(server.notes), server.bot, s, request.kinds, reread) ==>
        r.Done? && server.Quiet()
      ensures successor in old(server.lastRead) ==>
        successor in server.lastRead && server.lastRead[successor] == old(server.lastRead)[successor]
    {
      hide BindingsOk, ValidState, NotesOk, EntryOk, ProvenanceKept, Removable, Retirable;
      var retiring := ReportsToRetire(recovery, successor);
      RetiresAllOthers(recovery, l0, server.Reports(), request.generation, server.target);
      var candidates := seq(|retiring|, i requires 0 <= i < |retiring| => retiring[i].note);
      var expected := ExpectedSources(retiring);
      var predecessor := s.publication.value.predecessor;
      if Retirable(recovery, l0, server.notes, server.bot, s, request.kinds, reread) {
        CandidatesRemovable(recovery, l0, server.notes, server.nextId, server.bot, s, request.kinds, reread, successor,
                            expected);
        RetirableIsUnreplied(recovery, l0, server.notes, server.bot, s, request.kinds, reread);
      }
      if predecessor > 0 && reread.Some? { expected := expected[predecessor := reread.value]; }
      var safe := EnsureCleanupSafe(candidates, expected, Some(s), request.kinds);
      if safe.Stopped? { return Stopped(safe.why); }
      return Done(candidates);
    }

    // Cleanup checks, a last look at freshness, the deletes and the final recovery.
    method Retire(request: Request, recovery: Selection, successor: NoteId, s: State, reread: Option<Report>,
                  ghost l0: seq<Entry>)
      returns (r: Attempt<seq<NoteId>>)
      requires server.Inv() && |server.Reports()| > 0
      requires LastOf(server.Reports()).note == successor
      requires RecoveredFrom(recovery, l0) && Chain(l0, server.target)
      requires Grown(l0, server.Reports(), request.generation)
      requires s.publication.Some?
      modifies server
      ensures old(server.looks) <= server.looks
      ensures r.Done? ==> server.looks == old(server.looks) + [true]
      ensures SomeStale(old(server.looks), server.looks) ==> server.Reports() == old(server.Reports())
      ensures server.Inv()
      ensures exists k :: 0 <= k < |old(server.Reports())| && server.Reports() == old(server.Reports())[k..]
      ensures r.Done? ==>
        && server.Reports() == [LastOf(old(server.Reports()))]
        && OldestFirst(r.value, old(server.Reports())) && |r.value| == |old(server.Reports())| - 1
        && AllRetired(r.value, old(server.Reports()), server.retired)
        && forall id :: id in r.value ==>
             && id !in server.lastReplied && id in server.lastRead
             && ProvenanceKept(id, old(server.Reports()), s, request.kinds)
             && (id == s.publication.value.predecessor && reread.Some? && id > 0 ==>
                   server.lastRead[id] == Owned(reread.value))
      ensures old(server.Quiet()) ==>
        (Retirable(recovery, l0, old(server.notes), server.bot, s, request.kinds, reread) ==> r.Done?)
      ensures successor in old(server.lastRead) ==>
        successor in server.lastRead && server.lastRead[successor] == old(server.lastRead)[successor]
    {
      hide BindingsOk, ValidState, WellKept, ProvenanceKept, Grown, AllRetired, Retirable, SomeStale;
      LookedOnce(server.looks, false);
      LookedOnce(server.looks, true);
      GrownGeneration(l0, server.Reports(), request.generation);
      ghost var l := server.Reports();
      var candidates := CheckRetirement(request, recovery, successor, s, reread, l0);
      assert l[0..] == l;
      if candidates.Stopped? { return candidates; }
      var upToDate := server.CheckFreshness();
      if !upToDate { return Stopped(Stale); }
      r := DeleteSuperseded(candidates.value);
      if r.Stopped? { return r; }
      assert l[|l| - 1..] == [LastOf(l)];
      var only := VerifyOnlyCurrent(successor, request.generation);
      if only.Stopped? { return Stopped(only.why); }
    }

    method ExpectedSources(rs: seq<Recovered>) returns (expected: map<NoteId, Report>)
      ensures forall i :: 0 <= i < |rs| ==> rs[i].note in expected
      ensures DistinctNotes(rs) ==> forall i :: 0 <= i < |rs| ==> expected[rs[i].note] == rs[i].report
    {
      expected := map[];
      for i := 0 to |rs|
        invariant forall k :: 0 <= k < i ==> rs[k].note in expected
        invariant DistinctNotes(rs) ==> forall k :: 0 <= k < i ==> expected[rs[k].note] == rs[k].report
      {
        expected := expected[rs[i].note := rs[i].report];
      }
    }

    // The late controls are stored; retire the rest.
    method FinishRetiring(request: Request, recovery: Selection, successor: NoteId, s: State, reread: Option<Report>,
                          ghost l0: seq<Entry>, ghost l1: seq<Entry>)
      returns (r: Attempt<Published>)
      requires server.Inv() && |server.Reports()| > 0 && s.publication.Some?
      requires LastOf(server.Reports()) == Entry(successor, Canonicalize(s))
      requires RecoveredFrom(recovery, l0) && Chain(l0, server.target) && Chain(l1, server.target)
      requires |l1| == |server.Reports()| && forall i :: 0 <= i < |l1| - 1 ==> l1[i] == server.Reports()[i]
      requires Grown(l0, server.Reports(), request.generation)
      requires Delivers(request, l0, server.Reports())
      modifies server
      ensures old(server.looks) <= server.looks
      ensures r.Done? ==> server.looks == old(server.looks) + [true]
      ensures SomeStale(old(server.looks), server.looks) ==> server.Reports() == old(server.Reports())
      ensures server.Inv()
      ensures NothingLost(l0, server.Reports(), request.generation)
      ensures Delivers(request, l0, server.Reports())
      ensures r.Done? ==>
        && r.value.note == successor && r.value.state == s
        && server.Reports() == [Entry(successor, Canonicalize(s))]
        && |r.value.replaced| == |l1| - 1
        && OldestFirst(r.value.replaced, l1)
        && AllRetired(r.value.replaced, l1, server.retired)
        && (forall id :: id in r.value.replaced ==>
              id !in server.lastReplied && id in server.lastRead && ProvenanceKept(id, l1, s, request.kinds))
        && var p := s.publication.value.predecessor;
           reread.Some? && p > 0 && p in r.value.replaced ==> server.lastRead[p] == Owned(reread.value)
      ensures old(server.Quiet()) ==>
        (Retirable(recovery, l0, old(server.notes), server.bot, s, request.kinds, reread) ==> r.Done?)
      ensures successor in old(server.lastRead) ==>
        successor in server.lastRead && server.lastRead[successor] == old(server.lastRead)[successor]
    {
      hide BindingsOk, ValidState, NotesOk, EntryOk, ProvenanceKept, Grown, DigestState, NothingLost, Chain, AllRetired,
        Carries, Delivers, Retirable, Canonicalize, RecoveredFrom, Ledger, SomeStale, NoteServer.Quiet;
      ghost var l := server.Reports();
      var replaced := Retire(request, recovery, successor, s, reread, l0);
      ghost var k :| 0 <= k < |l| && server.Reports() == l[k..];
      DeliversRest(request, l0, l, k);
      RetiringLosesNothing(l0, l, k, request.generation, server.target);
      if replaced.Stopped? { return Stopped(replaced.why); }
      KeptBefore(l1, l, replaced.value, s, request.kinds, server.target);
      RetiredBefore(l1, l, replaced.value, server.retired);
      r := Done(Published(s, successor, replaced.value));
    }

    // From a stored successor to its late controls and the retirement of the rest.
    method FinishPublication(request: Request, recovery: Selection, prepared: Prepared, ghost l0: seq<Entry>)
      returns (r: Attempt<Published>, reread: Option<Report>)
      requires server.Inv() && Stored(prepared.state, prepared.successor)
      requires RecoveredFrom(recovery, l0) && Chain(l0, server.target)
      requires Grown(l0, server.Reports(), request.generation)
      requires Carries(request.state, request.interactions, prepared.state)
      requires Delivers(request, l0, server.Reports())
      modifies server
      ensures old(server.looks) <= server.looks
      ensures r.Done? ==> server.looks == old(server.looks) + [true]
      ensures SomeStale(old(server.looks), server.looks) ==> Spared(l0, server.Reports())
      ensures server.Inv()
      ensures NothingLost(l0, server.Reports(), request.generation)
      ensures Delivers(request, l0, server.Reports())
      ensures r.Done? ==> r.value.note == prepared.successor.note
      ensures r.Done? ==>
        && server.Reports() == [Entry(r.value.note, Canonicalize(r.value.state))]
        && r.value.state.publication.Some?
        && r.value.state.publication.value.predecessor == prepared.state.publication.value.predecessor
        && |r.value.replaced| == |old(server.Reports())| - 1
        && OldestFirst(r.value.replaced, old(server.Reports()))
        && AllRetired(r.value.replaced, old(server.Reports()), server.retired)
        && (forall id :: id in r.value.replaced ==>
              && id !in server.lastReplied && id in server.lastRead
              && ProvenanceKept(id, old(server.Reports()), r.value.state, request.kinds))
      ensures r.Done? ==> GenerationOf(server.Reports()[0]) == request.generation
      ensures r.Done? && reread.None? ==> prepared.state.publication.value.predecessor == 0
      ensures r.Done? && reread.Some? ==>
        var p := prepared.state.publication.value.predecessor;
        && r.value.state.findings ==
             ControlledAll(prepared.state.findings, reread.value, request.interactions, request.publishedAt)
        && Entry(p, reread.value.state) in old(server.Reports())
        && Decode(reread.value).Ok?
        && (p in r.value.replaced ==> server.lastRead[p] == Owned(reread.value))
      ensures old(server.Quiet()) && Ready(request, recovery, old(server.notes), server.bot, prepared.state, l0) ==>
        (Welcome(request, recovery.current, server.target) ==> r.Done?)
      ensures r.Done? && ReadBack(prepared.state, prepared.successor.note, old(server.lastRead), request.fits) ==>
        ReadBack(r.value.state, r.value.note, server.lastRead, request.fits)
    {
      hide BindingsOk, ValidState, NotesOk, EntryOk, ProvenanceKept, Decode, Grown, DigestState, NothingLost, Chain,
        AllRetired, Carries, Delivers, Ready, Retirable, DraftedOver, Welcome, SomeStale, Spared, ReadBack;
      LookedOnce(server.looks, true);
      if Ready(request, recovery, server.notes, server.bot, prepared.state, l0) {
        ReadyIsRetirable(request, recovery, server.notes, server.bot, prepared.state, l0);
      }
      ghost var l1 := server.Reports();
      var late;
      late, reread := ReconcileLateControls(request, recovery, prepared.successor, prepared.state);
      ghost var l2 := server.Reports();
      DeliversThen(request, l0, l1, l2);
      GrownRewritten(l0, l1, l2, request.generation);
      CommonPrefix(l1, l2, |l2| - 1);
      GrownGeneration(l0, l2, request.generation);
      GrownSpares(l0, l2, request.generation);
      if late.Stopped? {
        assert l2[0..] == l2;
        RetiringLosesNothing(l0, l2, 0, request.generation, server.target);
        return Stopped(late.why), reread;
      }
      ghost var lastRead := server.lastRead;
      r := FinishRetiring(request, recovery, prepared.successor.note, late.value, reread, l0, l1);
      ReadElsewhere(late.value, prepared.successor.note, lastRead, server.lastRead, request.fits);
    }

    // The merge request moved on: what this attempt created goes again.
    method WithdrawStale(request: Request, successor: NoteId, created: bool, ghost l0: seq<Entry>)
      requires server.Inv() && Grown(l0, server.Reports(), request.generation)
      requires LastOf(server.Reports()).note == successor
      requires created ==> server.Reports()[..|server.Reports()| - 1] == l0
      requires NothingLost(l0, server.Reports(), request.generation)
      requires Delivers(request, l0, server.Reports())
      modifies server
      ensures server.Inv() && server.looks == old(server.looks)
      ensures NothingLost(l0, server.Reports(), request.generation)
      ensures Delivers(request, l0, server.Reports())
      ensures Spared(l0, server.Reports())
    {
      hide WellKept, NothingLost, Delivers, Spared, Ledger, FindingIds, GenerationOf;
      GrownSpares(l0, server.Reports(), request.generation);
      DeliversNothing(request, l0);
      if created {
        WithdrawingLosesNothing(l0, server.Reports(), request.generation);
        var removed := RemoveUnpublishedSuccessor(successor);
      }
    }

    // From the stored successor to the end.
    method PublishPrepared(request: Request, recovery: Selection, prepared: Prepared, created: bool,
                           ghost l0: seq<Entry>, ghost looks0: seq<bool>)
      returns (r: Attempt<Published>)
      requires server.Inv() && Stored(prepared.state, prepared.successor) && Chain(l0, server.target)
      requires PreparedOver(request, recovery, l0, server.Reports(), prepared.state)
      requires Carries(request.state, request.interactions, prepared.state)
      requires created <==> !Resumes(request, recovery)
      requires ReadBack(prepared.state, prepared.successor.note, server.lastRead, request.fits)
      requires server.looks == looks0 + if created then [true] else []
      requires NothingLost(l0, server.Reports(), request.generation)
      requires Delivers(request, l0, server.Reports())
      modifies server
      ensures server.Inv()
      ensures NothingLost(l0, server.Reports(), request.generation)
      ensures Delivers(request, l0, server.Reports())
      ensures looks0 <= server.looks && (created ==> !(looks0 + [false] <= server.looks))
      ensures r.Done? ==> server.looks == looks0 + if created then [true, true, true] else [true, true]
      ensures SomeStale(looks0, server.looks) ==> r.Stopped? && Spared(l0, server.Reports())
      ensures r.Done? ==>
        Succeeded(request, l0, r.value, server.Reports(), server.retired, server.lastRead, server.lastReplied)
      ensures old(server.Quiet()) && Ready(request, recovery, old(server.notes), server.bot, prepared.state, l0) ==>
        (Welcome(request, recovery.current, server.target) ==> r.Done?)
    {
      hide BindingsOk, ValidState, NotesOk, EntryOk, Storable, Chain, SyncWith, BoxesObeyed, NothingLost, Carries,
        Delivers, Welcome, Ready, ProvenanceKept, ReplacedAll, Ledger, FindingIds, Decode, ReadBack, Succeeded,
        AllRetired, SomeStale, Spared, RecoveredFrom;
      ghost var l1, looks1 := server.Reports(), server.looks;
      var upToDate := server.CheckFreshness();
      if !upToDate {
        LooksUntil(looks0, looks1, created);
        WithdrawStale(request, prepared.successor.note, created, l0);
        return Stopped(Stale);
      }
      var reread;
      r, reread := FinishPublication(request, recovery, prepared, l0);
      LooksBehind(looks0, looks1, server.looks, created);
      if r.Done? {
        SucceededOver(request, recovery, l0, l1, prepared.state, reread, r.value, server.Reports(),
                      server.retired, server.lastRead, server.lastReplied, server.target);
      }
    }

    // From an accepted request to the end, over the reports that were recovered.
    method PublishOver(request: Request, recovery: Selection) returns (r: Attempt<Published>)
      requires server.Inv() && RequestOk(request, server.target) && RecoveredFrom(recovery, server.Reports())
      modifies server
      ensures server.Inv()
      ensures NothingLost(old(server.Reports()), server.Reports(), request.generation)
      ensures Delivers(request, old(server.Reports()), server.Reports())
      ensures old(server.looks) <= server.looks
      ensures r.Done? ==>
        server.looks == old(server.looks) + if Resumes(request, recovery) then [true, true] else [true, true, true]
      ensures SomeStale(old(server.looks), server.looks) ==>
        r.Stopped? && Spared(old(server.Reports()), server.Reports())
      ensures !Resumes(request, recovery) && old(server.looks) + [false] <= server.looks ==>
        server.Reports() == old(server.Reports())
      ensures r.Done? ==> Succeeded(request, old(server.Reports()), r.value, server.Reports(), server.retired,
                                    server.lastRead, server.lastReplied)
      ensures old(server.Quiet()) && Undistracted(request, recovery, old(server.notes), server.bot, server.target) ==>
        r.Done?
    {
      hide BindingsOk, ValidState, NotesOk, EntryOk, Storable, Chain, SyncWith, BoxesObeyed, NothingLost, Carries,
        Delivers, Welcome, AllPosted, AllRetained, NoReplies, AllStay, Ready, DraftOf, ProvenanceKept, ReplacedAll,
        Ledger, FindingIds, Decode, ReadBack, RequestOk, Succeeded, AllRetired, SomeStale, Spared, RecoveredFrom;
      DeliversNothing(request, server.Reports());
      ghost var l0, notes0 := server.Reports(), server.notes;
      ghost var undistracted := server.Quiet() && Undistracted(request, recovery, notes0, server.bot, server.target);
      UnchangedLosesNothing(l0, request.generation);
      var prepared, created := PrepareSuccessor(request, recovery);
      ghost var l1, looks1 := server.Reports(), server.looks;
      assert l1[0..] == l1;
      SparedSame(l0, l0);
      if old(server.looks) + [false] <= looks1 { StaleFirst(old(server.looks), looks1); }
      if l1 != l0 { RetiringLosesNothing(l0, l1, 0, request.generation, server.target); }
      if prepared.Stopped? { return Stopped(prepared.why); }
      if undistracted {
        PreparedIsReady(request, recovery, notes0, server.notes, server.bot, prepared.value.state, l0);
      }
      r := PublishPrepared(request, recovery, prepared.value, created, l0, old(server.looks));
    }

    // A look at freshness, and the reports if their head is the expected one.
    method RecoverHead(request: Request) returns (r: Attempt<Selection>)
      requires server.Inv() && RequestOk(request, server.target)
      modifies server
      ensures server.Inv() && server.Reports() == old(server.Reports())
      ensures server.looks == old(server.looks) + [true] || (server.looks == old(server.looks) + [false] && r.Stopped?)
      ensures !ForThisHead(request, server.Reports()) ==> r.Stopped?
      ensures r.Done? ==>
        && RecoveredFrom(r.value, server.Reports())
        && (Resumes(request, r.value) <==> GoesOn(server.Reports(), request.generation))
      ensures old(server.Quiet()) && Promising(request, old(server.notes), server.bot, server.target) ==>
        && server.Quiet() && r.Done?
        && Undistracted(request, r.value, server.notes, server.bot, server.target)
    {
      hide WellKept, Promising, Undistracted, AllPosted, NoReplies, RequestOk, ExpectationMet, ForThisHead, Ledger,
        Chain;
      ghost var notes0 := server.notes;
      ghost var promising := server.Quiet() && Promising(request, notes0, server.bot, server.target);
      if promising { PromisingIsOk(request, notes0, server.bot, server.target); }
      var upToDate := server.CheckFreshness();
      if !upToDate { return Stopped(Stale); }
      r := Recover();
      if r.Stopped? { return; }
      if promising {
        PromisingParts(request, notes0, server.nextId, server.bot, server.target, r.value);
      }
      ExpectsThisHead(r.value, server.Reports(), request);
      if !ExpectationMet(r.value.current, request) { return Stopped(Stale); }
    }

    // The attempt itself, up to a request that is not about the head that is there.
    method PublishHead(request: Request) returns (r: Attempt<Published>)
      requires server.Inv()
      modifies server
      ensures server.Inv()
      ensures !ForThisHead(request, old(server.Reports())) ==> r.Stopped? && server.Reports() == old(server.Reports())
      ensures Malformed(request, server.target) ==>
        r == Stopped(Invalid) && server.Reports() == old(server.Reports()) && server.looks == old(server.looks)
      ensures old(server.looks) <= server.looks
      ensures old(server.looks) + [false] <= server.looks ==> r.Stopped? && server.Reports() == old(server.Reports())
      ensures SomeStale(old(server.looks), server.looks) ==>
        r.Stopped? && Spared(old(server.Reports()), server.Reports())
      ensures old(server.looks) + [true, false] <= server.looks && !GoesOn(old(server.Reports()), request.generation)
        ==> server.Reports() == old(server.Reports())
      ensures r.Done? ==> AllFresh(old(server.looks), server.looks, GoesOn(old(server.Reports()), request.generation))
      ensures NothingLost(old(server.Reports()), server.Reports(), request.generation)
      ensures Delivers(request, old(server.Reports()), server.Reports())
      ensures r.Done? ==> Succeeded(request, old(server.Reports()), r.value, server.Reports(), server.retired,
                                    server.lastRead, server.lastReplied)
      ensures old(server.Quiet()) && Promising(request, old(server.notes), server.bot, server.target) ==> r.Done?
    {
      hide WellKept, BoxesObeyed, NothingLost, Delivers, Promising, Undistracted, AllPosted, NoReplies, RequestOk,
        ExpectationMet, ForThisHead, Succeeded, Ledger, Chain, SomeStale, Spared, GoesOn, Resumes, RecoveredFrom;
      ghost var l0 := server.Reports();
      DeliversNothing(request, l0);
      UnchangedLosesNothing(l0, request.generation);
      LookedOnce(server.looks, true);
      SparedSame(l0, l0);
      if server.Quiet() && Promising(request, server.notes, server.bot, server.target) {
        PromisingIsOk(request, server.notes, server.bot, server.target);
      }
      RequestShape(request, server.target);
      if !RequestOk(request, server.target) { return Stopped(Invalid); }
      var recovered := RecoverHead(request);
      if recovered.Stopped? {
        if server.looks == old(server.looks) + [true] { LookedFurther(old(server.looks), server.looks); }
        return Stopped(recovered.why);
      }
      r := PublishOver(request, recovered.value);
      LookedFurther(old(server.looks), server.looks);
      assert old(server.looks) + [true, false] == old(server.looks) + [true] + [false];
    }

    /** One publication attempt. However it ends, the reports still form a chain,
        nothing is lost, and the newest report says what it said or what was requested.
        When it succeeds exactly the successor is left; every report it replaced was
        deleted with the state it had, and its provenance is retained. If the direct
        predecessor said at its deletion what it had said when it was last read, the last
        position of each of its boxes has been obeyed. On a server nobody disturbs, a
        promising attempt succeeds. */
    method Publish(request: Request) returns (r: Attempt<Published>)
      requires server.Inv()
      modifies server
      ensures server.Inv()
      ensures !ForThisHead(request, old(server.Reports())) ==> r.Stopped? && server.Reports() == old(server.Reports())
      ensures Malformed(request, server.target) ==>
        r == Stopped(Invalid) && server.Reports() == old(server.Reports()) && server.looks == old(server.looks)
      ensures old(server.looks) <= server.looks
      ensures old(server.looks) + [false] <= server.looks ==> r.Stopped? && server.Reports() == old(server.Reports())
      ensures SomeStale(old(server.looks), server.looks) ==>
        r.Stopped? && Spared(old(server.Reports()), server.Reports())
      ensures old(server.looks) + [true, false] <= server.looks && !GoesOn(old(server.Reports()), request.generation)
        ==> server.Reports() == old(server.Reports())
      ensures r.Done? ==> AllFresh(old(server.looks), server.looks, GoesOn(old(server.Reports()), request.generation))
      ensures NothingLost(old(server.Reports()), server.Reports(), request.generation)
      ensures Delivers(request, old(server.Reports()), server.Reports())
      ensures r.Done? ==>
        && server.Reports() == [Entry(r.value.note, Canonicalize(r.value.state))]
        && GenerationOf(server.Reports()[0]) == request.generation
        && r.value.state.publication.Some?
        && ReadBack(r.value.state, r.value.note, server.lastRead, request.fits)
        && forall id :: id in r.value.replaced ==> id !in server.lastReplied
      ensures r.Done? ==>
        ReplacedAll(old(server.Reports()), r.value.note, r.value.replaced, r.value.state, request.kinds, server.retired)
      ensures r.Done? && Replaces(old(server.Reports()), request.generation) ==>
        && r.value.state.publication.value.predecessor == LastOf(old(server.Reports())).note
        && LastOf(old(server.Reports())).note in r.value.replaced
        && r.value.note != LastOf(old(server.Reports())).note
      ensures r.Done? ==>
        var p := r.value.state.publication.value.predecessor;
        p in r.value.replaced ==>
          && p in server.retired && p in server.lastRead
          && (server.lastRead[p] == server.retired[p] ==> BoxesObeyed(request, r.value.state, server.retired[p]))
      ensures old(server.Quiet()) && Promising(request, old(server.notes), server.bot, server.target) ==> r.Done?
    {
      hide WellKept, BoxesObeyed, NothingLost, Delivers, Promising, ForThisHead, ReplacedAll, ReadBack, Canonicalize,
        SomeStale, Spared, AllFresh, GoesOn;
      r := PublishHead(request);
    }
  }

  /** Jobs are serialised, and each may end anywhere: after any number of attempts
      the reports form one chain, a store that held a report still holds one, and no
      finding has disappeared from the current report. */
  method PublishRepeatedly(publisher: ReportPublisher, requests: seq<Request>)
    requires publisher.server.Inv()
    modifies publisher.server
    ensures publisher.server.Inv()
    ensures |old(publisher.server.Reports())| > 0 ==>
      && |publisher.server.Reports()| > 0
      && FindingIds(LastOf(old(publisher.server.Reports())).state.findings) <=
           FindingIds(LastOf(publisher.server.Reports()).state.findings)
  {
    for i := 0 to |requests|
      invariant publisher.server.Inv()
      invariant |old(publisher.server.Reports())| > 0 ==>
        && |publisher.server.Reports()| > 0
        && FindingIds(LastOf(old(publisher.server.Reports())).state.findings) <=
             FindingIds(LastOf(publisher.server.Reports()).state.findings)
    {
      hide WellKept, ReplacedAll;
      var attempt := publisher.Publish(requests[i]);
    }
  }
}
