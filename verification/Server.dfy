/** The remote note store with everything that can go wrong around a call. A
    script says, for every call, which human actions land just before it, whether
    the request or its reply is lost, and whether the merge request still counts
    as fresh. Proving a method for every script proves it for every interleaving
    with humans, every lost reply and, since a script may lose every later call,
    every point at which the publisher stops. */
module Server {
  import opened Domain
  import opened ReportCodec
  import opened NoteStore

  datatype Fate = Delivered | RequestLost | ReplyLost

  datatype HumanAction =
    | MoveBoxes(note: NoteId, controls: seq<Control>)
    | ReplyTo(note: NoteId)
    | Comment(author: int, body: Body)

  datatype Disturbance = Disturbance(actions: seq<HumanAction>, fate: Fate, upToDate: bool)

  // A human moves boxes and may draw a box beside a tick, but the bound list
  // items stay.
  predicate MovedBoxes(before: seq<Control>, after: seq<Control>) {
    && |before| == |after|
    && forall i :: 0 <= i < |before| ==>
         after[i].finding == before[i].finding && (before[i].task ==> after[i].task)
  }

  lemma MovedBoxesBound(fs: seq<Finding>, before: seq<Control>, after: seq<Control>)
    requires BindingsOk(fs, before) && MovedBoxes(before, after)
    ensures BindingsOk(fs, after)
  {
    forall i | 0 <= i < |after| ensures ControlBound(fs, after[i]) { assert ControlBound(fs, before[i]); }
    forall k | 0 <= k < |fs| ensures HasControl(after, fs[k].id) {
      assert HasControl(before, fs[k].id);
      var i :| 0 <= i < |before| && before[i].finding == fs[k].id;
      assert after[i].finding == fs[k].id;
    }
  }

  function Acted(notes: seq<Note>, nextId: NoteId, bot: int, action: HumanAction): seq<Note> {
    match action
    case MoveBoxes(id, controls) =>
      var i := IndexOf(notes, id);
      if i.Some? && IsReport(notes[i.value], bot) && MovedBoxes(notes[i.value].body.report.controls, controls) then
        var n := notes[i.value];
        notes[i.value := n.(body := Owned(n.body.report.(controls := controls)))]
      else notes
    case ReplyTo(id) =>
      var i := IndexOf(notes, id);
      if i.Some? then notes[i.value := notes[i.value].(replied := true)] else notes
    case Comment(author, body) =>
      if author == bot then notes else notes + [Note(nextId, author, false, body, false)]
  }

  function NextIdAfter(nextId: NoteId, bot: int, action: HumanAction): NoteId {
    if action.Comment? && action.author != bot then nextId + 1 else nextId
  }

  lemma ReplacedNoteOk(notes: seq<Note>, nextId: NoteId, bot: int, i: nat, n: Note)
    requires NotesOk(notes, nextId, bot) && i < |notes|
    requires n.id == notes[i].id && n.author == notes[i].author && n.restricted == notes[i].restricted
    requires IsReport(notes[i], bot) <==> IsReport(n, bot)
    requires IsReport(n, bot) ==>
      && n.body.report.state == notes[i].body.report.state
      && BindingsOk(n.body.report.state.findings, n.body.report.controls)
    ensures NotesOk(notes[i := n], nextId, bot)
    ensures Ledger(notes[i := n], bot) == Ledger(notes, bot)
  {
    LedgerSame(notes, bot, i, n);
  }

  lemma NoteBound(notes: seq<Note>, nextId: NoteId, bot: int, i: nat)
    requires NotesOk(notes, nextId, bot) && i < |notes| && IsReport(notes[i], bot)
    ensures !notes[i].restricted
    ensures BindingsOk(notes[i].body.report.state.findings, notes[i].body.report.controls)
  {
  }

  lemma CommentOk(notes: seq<Note>, nextId: NoteId, bot: int, n: Note)
    requires NotesOk(notes, nextId, bot) && n.id == nextId && n.author != bot
    ensures NotesOk(notes + [n], nextId + 1, bot) && Ledger(notes + [n], bot) == Ledger(notes, bot)
  {
    hide BindingsOk;
    LedgerAppend(notes, bot, n);
  }

  /** No human action changes the ledger of reports or spoils a note. */
  lemma HumansKeepLedger(notes: seq<Note>, nextId: NoteId, bot: int, action: HumanAction)
    requires NotesOk(notes, nextId, bot)
    ensures Ledger(Acted(notes, nextId, bot, action), bot) == Ledger(notes, bot)
    ensures NotesOk(Acted(notes, nextId, bot, action), NextIdAfter(nextId, bot, action), bot)
  {
    hide BindingsOk, NotesOk;
    match action
    case MoveBoxes(id, controls) =>
      var i := IndexOf(notes, id);
      if i.Some? && IsReport(notes[i.value], bot) && MovedBoxes(notes[i.value].body.report.controls, controls) {
        var n := notes[i.value];
        NoteBound(notes, nextId, bot, i.value);
        MovedBoxesBound(n.body.report.state.findings, n.body.report.controls, controls);
        ReplacedNoteOk(notes, nextId, bot, i.value, n.(body := Owned(n.body.report.(controls := controls))));
      }
    case ReplyTo(id) =>
      var i := IndexOf(notes, id);
      if i.Some? {
        if IsReport(notes[i.value], bot) { NoteBound(notes, nextId, bot, i.value); }
        ReplacedNoteOk(notes, nextId, bot, i.value, notes[i.value].(replied := true));
      }
    case Comment(author, body) =>
      if author != bot { CommentOk(notes, nextId, bot, Note(nextId, author, false, body, false)); }
  }

  // Any number of actions, one after another.
  function ActedAll(notes: seq<Note>, nextId: NoteId, bot: int, actions: seq<HumanAction>): seq<Note>
    decreases |actions|
  {
    if |actions| == 0 then notes
    else ActedAll(Acted(notes, nextId, bot, actions[0]), NextIdAfter(nextId, bot, actions[0]), bot, actions[1..])
  }

  function NextIdAfterAll(nextId: NoteId, bot: int, actions: seq<HumanAction>): (id: NoteId)
    ensures id >= nextId
    decreases |actions|
  {
    if |actions| == 0 then nextId else NextIdAfterAll(NextIdAfter(nextId, bot, actions[0]), bot, actions[1..])
  }

  /** Neither does any number of them. */
  lemma {:induction false} HumansKeepLedgerAll(notes: seq<Note>, nextId: NoteId, bot: int, actions: seq<HumanAction>)
    requires NotesOk(notes, nextId, bot)
    ensures Ledger(ActedAll(notes, nextId, bot, actions), bot) == Ledger(notes, bot)
    ensures NotesOk(ActedAll(notes, nextId, bot, actions), NextIdAfterAll(nextId, bot, actions), bot)
    decreases |actions|
  {
    hide NotesOk, Acted;
    if |actions| > 0 {
      HumansKeepLedger(notes, nextId, bot, actions[0]);
      var acted := Acted(notes, nextId, bot, actions[0]);
      HumansKeepLedgerAll(acted, NextIdAfter(nextId, bot, actions[0]), bot, actions[1..]);
    }
  }

  /** A report stored under the next id. */
  lemma ReportAppended(notes: seq<Note>, nextId: NoteId, bot: int, target: MergeRequest, r: Report)
    requires WellKept(notes, nextId, bot, target)
    requires BindingsOk(r.state.findings, r.controls)
    requires EntryOk(Entry(nextId, r.state), target) && Successor(Ledger(notes, bot), Entry(0, r.state))
    ensures var more := notes + [Note(nextId, bot, false, Owned(r), false)];
      WellKept(more, nextId + 1, bot, target) && Ledger(more, bot) == Ledger(notes, bot) + [Entry(nextId, r.state)]
  {
    hide Chain, EntryOk, BindingsOk;
    var n := Note(nextId, bot, false, Owned(r), false);
    LedgerAppend(notes, bot, n);
    forall e | e in Ledger(notes, bot) ensures e.note < nextId { LedgerFrom(notes, bot, e); }
    ChainAppend(Ledger(notes, bot), EntryOf(n), target);
  }

  /** Giving the newest report another body. */
  lemma LastRewritten(notes: seq<Note>, nextId: NoteId, bot: int, target: MergeRequest, id: NoteId, r: Report)
    requires WellKept(notes, nextId, bot, target) && |Ledger(notes, bot)| > 0
    requires var last := Ledger(notes, bot)[|Ledger(notes, bot)| - 1];
      && last.note == id
      && PredecessorOf(Entry(id, r.state)) == PredecessorOf(last)
      && FindingIds(last.state.findings) <= FindingIds(r.state.findings)
    requires BindingsOk(r.state.findings, r.controls) && EntryOk(Entry(id, r.state), target)
    ensures IndexOf(notes, id).Some?
    ensures var i := IndexOf(notes, id).value;
      && WellKept(notes[i := notes[i].(body := Owned(r))], nextId, bot, target)
      && Ledger(notes[i := notes[i].(body := Owned(r))], bot) == Rewritten(Ledger(notes, bot), Entry(id, r.state))
  {
    var l := Ledger(notes, bot);
    var last := l[|l| - 1];
    assert last in l;
    EntryHasNote(notes, bot, last);
    var i := IndexOf(notes, id).value;
    NoteIsEntry(notes, nextId, bot, notes[i], last);
    forall e | e in l ensures e.note <= id {
      var k :| 0 <= k < |l| && l[k] == e;
    }
    LastEntryIsLastReport(notes, nextId, bot, i);
    LedgerUpdateLast(notes, bot, i, r);
    ChainRewriteLast(l, Entry(id, r.state), target);
  }

  // The notes once the one under this id says something else.
  function Rebodied(notes: seq<Note>, id: NoteId, r: Report): seq<Note> {
    var i := IndexOf(notes, id);
    if i.Some? then notes[i.value := notes[i.value].(body := Owned(r))] else notes
  }

  function NoteUnder(notes: seq<Note>, id: NoteId): Option<Note> {
    var i := IndexOf(notes, id);
    if i.Some? then Some(notes[i.value]) else None
  }

  predicate AtEnd(l: seq<Entry>, id: NoteId) {
    |l| > 0 && (id == l[0].note || id == l[|l| - 1].note)
  }

  /** Removing the note at either end of the chain. */
  lemma EndRemoved(notes: seq<Note>, nextId: NoteId, bot: int, target: MergeRequest, id: NoteId)
    requires WellKept(notes, nextId, bot, target) && AtEnd(Ledger(notes, bot), id)
    ensures IndexOf(notes, id).Some?
    ensures WellKept(RemoveNote(notes, id), nextId, bot, target)
    ensures Ledger(RemoveNote(notes, id), bot) == WithoutEntry(Ledger(notes, bot), id)
  {
    var l := Ledger(notes, bot);
    assert l[0] in l && l[|l| - 1] in l;
    EntryHasNote(notes, bot, if id == l[0].note then l[0] else l[|l| - 1]);
    LedgerRemove(notes, bot, id);
    RemoveNoteOk(notes, nextId, bot, id);
    ChainShrinks(l, target);
    if id == l[0].note { WithoutFirst(l); } else { WithoutLast(l); }
  }

  lemma WithoutFirst(l: seq<Entry>)
    requires |l| > 0
    requires forall j, k :: 0 <= j < k < |l| ==> l[j].note < l[k].note
    ensures WithoutEntry(l, l[0].note) == l[1..]
  {
    WithoutAt(l, 0);
    assert l[..0] == [];
  }

  lemma WithoutLast(l: seq<Entry>)
    requires |l| > 0
    requires forall j, k :: 0 <= j < k < |l| ==> l[j].note < l[k].note
    ensures WithoutEntry(l, l[|l| - 1].note) == l[..|l| - 1]
  {
    WithoutAt(l, |l| - 1);
    assert l[|l|..] == [];
  }

  lemma EndChanges(l: seq<Entry>, id: NoteId, target: MergeRequest)
    requires Chain(l, target) && AtEnd(l, id)
    ensures |WithoutEntry(l, id)| == |l| - 1
    ensures WithoutEntry(l, id) != l
  {
    if id == l[0].note { WithoutFirst(l); } else { WithoutLast(l); }
  }

  // What the note under this id says.
  function BodyOf(notes: seq<Note>, id: NoteId): Body {
    var i := IndexOf(notes, id);
    if i.Some? then notes[i.value].body else Prose
  }

  // A body that shows the state of an entry, wherever its boxes stand.
  predicate Shows(body: Body, e: Entry) {
    body.Owned? && body.report.state == e.state
  }

  lemma EntryIsShown(notes: seq<Note>, nextId: NoteId, bot: int, e: Entry)
    requires NotesOk(notes, nextId, bot) && e in Ledger(notes, bot)
    ensures Shows(BodyOf(notes, e.note), e)
  {
    EntryHasNote(notes, bot, e);
    NoteIsEntry(notes, nextId, bot, notes[IndexOf(notes, e.note).value], e);
  }

  lemma EndIsShown(notes: seq<Note>, nextId: NoteId, bot: int, target: MergeRequest, id: NoteId)
    requires WellKept(notes, nextId, bot, target) && AtEnd(Ledger(notes, bot), id)
    ensures forall e :: e in Ledger(notes, bot) && e.note == id ==> Shows(BodyOf(notes, id), e)
  {
    forall e | e in Ledger(notes, bot) && e.note == id ensures Shows(BodyOf(notes, id), e) {
      EntryIsShown(notes, nextId, bot, e);
    }
  }

  class NoteServer {
    const bot: int
    const target: MergeRequest
    var notes: seq<Note>
    var nextId: NoteId
    var script: seq<Disturbance>
    // What each retired note said at the moment it was deleted, what each note said
    // when it was last read by itself, and which notes had replies when the
    // discussions were last listed.
    ghost var retired: map<NoteId, Body>
    ghost var lastRead: map<NoteId, Body>
    ghost var lastReplied: set<NoteId>
    // What every look at the freshness of the merge request has found.
    ghost var looks: seq<bool>

    ghost predicate Inv()
      reads this
    {
      WellKept(notes, nextId, bot, target)
    }

    function Reports(): seq<Entry>
      reads this
    {
      Ledger(notes, bot)
    }

    // The notes as the next call finds them.
    ghost function NextNotes(): seq<Note>
      reads this
    {
      if |script| == 0 then notes else ActedAll(notes, nextId, bot, script[0].actions)
    }

    // Nobody disturbs the calls to come.
    predicate Quiet()
      reads this
    {
      script == []
    }

    constructor (bot: int, target: MergeRequest, script: seq<Disturbance>)
      ensures Inv() && Reports() == [] && this.bot == bot && this.target == target
      ensures this.script == script && retired == map[] && lastRead == map[] && lastReplied == {}
      ensures looks == []
    {
      this.bot := bot;
      this.target := target;
      this.notes := [];
      this.nextId := 1;
      this.script := script;
      this.retired := map[];
      this.lastRead := map[];
      this.lastReplied := {};
      this.looks := [];
    }

    // The world moves on; then the call is made.
    method Pass() returns (fate: Fate, upToDate: bool)
      requires Inv()
      modifies this
      ensures Inv() && Reports() == old(Reports())
      ensures notes == old(NextNotes()) && nextId >= old(nextId)
      ensures retired == old(retired) && lastRead == old(lastRead) && lastReplied == old(lastReplied)
      ensures looks == old(looks)
      ensures old(Quiet()) ==> Quiet() && fate == Delivered && upToDate && nextId == old(nextId)
    {
      if |script| == 0 { return Delivered, true; }
      var d := script[0];
      script := script[1..];
      HumansKeepLedgerAll(notes, nextId, bot, d.actions);
      notes, nextId := ActedAll(notes, nextId, bot, d.actions), NextIdAfterAll(nextId, bot, d.actions);
      return d.fate, d.upToDate;
    }

    method CheckFreshness() returns (upToDate: bool)
      requires Inv()
      modifies this
      ensures Inv() && Reports() == old(Reports())
      ensures notes == old(NextNotes())
      ensures retired == old(retired) && lastRead == old(lastRead) && lastReplied == old(lastReplied)
      ensures looks == old(looks) + [upToDate]
      ensures old(Quiet()) ==> Quiet() && upToDate && notes == old(notes)
    {
      var fate;
      fate, upToDate := Pass();
      looks := looks + [upToDate];
    }

    method ListNotes() returns (r: Option<seq<Note>>)
      requires Inv()
      modifies this
      ensures Inv() && Reports() == old(Reports())
      ensures notes == old(NextNotes())
      ensures retired == old(retired) && lastRead == old(lastRead) && lastReplied == old(lastReplied)
      ensures looks == old(looks)
      ensures r.Some? ==> r.value == notes
      ensures old(Quiet()) ==> Quiet() && r.Some? && notes == old(notes)
    {
      var fate, upToDate := Pass();
      r := if fate == Delivered then Some(notes) else None;
    }

    /** The only call that reads one note by itself. */
    method GetNote(id: NoteId) returns (r: Option<Note>)
      requires Inv()
      modifies this
      ensures Inv() && Reports() == old(Reports())
      ensures notes == old(NextNotes())
      ensures retired == old(retired) && lastReplied == old(lastReplied)
      ensures looks == old(looks)
      ensures r.Some? ==> r.value in notes && r.value.id == id
      ensures lastRead == if r.Some? then old(lastRead)[id := r.value.body] else old(lastRead)
      ensures old(Quiet()) ==> Quiet() && notes == old(notes) && r == NoteUnder(notes, id)
    {
      var fate, upToDate := Pass();
      var i := IndexOf(notes, id);
      r := if fate == Delivered && i.Some? then Some(notes[i.value]) else None;
      if r.Some? { lastRead := lastRead[id := r.value.body]; }
    }

    // The notes that somebody has replied to.
    method ListDiscussions() returns (r: Option<set<NoteId>>)
      requires Inv()
      modifies this
      ensures Inv() && Reports() == old(Reports())
      ensures notes == old(NextNotes())
      ensures retired == old(retired) && lastRead == old(lastRead)
      ensures r.Some? ==> r.value == set n | n in notes && n.replied :: n.id
      ensures lastReplied == if r.Some? then r.value else old(lastReplied)
      ensures looks == old(looks)
      ensures old(Quiet()) ==> Quiet() && r.Some? && notes == old(notes)
    {
      var fate, upToDate := Pass();
      r := if fate == Delivered then Some(set n | n in notes && n.replied :: n.id) else None;
      if r.Some? { lastReplied := r.value; }
    }

    /** At most one note is stored; when the reply is lost it may have been. */
    method CreateNote(report: Report) returns (r: Option<NoteId>)
      requires Inv()
      requires BindingsOk(report.state.findings, report.controls)
      requires forall id :: id >= nextId ==> EntryOk(Entry(id, report.state), target)
      requires Successor(Reports(), Entry(0, report.state))
      modifies this
      ensures Inv()
      ensures retired == old(retired) && lastRead == old(lastRead) && lastReplied == old(lastReplied)
      ensures looks == old(looks)
      ensures r.Some? ==>
        r.value >= old(nextId) && Reports() == old(Reports()) + [Entry(r.value, report.state)]
      ensures r.None? ==>
        || Reports() == old(Reports())
        || exists id :: id >= old(nextId) && Reports() == old(Reports()) + [Entry(id, report.state)]
      ensures old(Quiet()) ==>
        Quiet() && r.Some? && notes == old(notes) + [Note(r.value, bot, false, Owned(report), false)]
    {
      hide WellKept, EntryOk, BindingsOk, Successor;
      var fate, upToDate := Pass();
      if fate == RequestLost { return None; }
      var id := nextId;
      ReportAppended(notes, nextId, bot, target, report);
      notes, nextId := notes + [Note(id, bot, false, Owned(report), false)], nextId + 1;
      assert Reports() == old(Reports()) + [Entry(id, report.state)];
      r := if fate == Delivered then Some(id) else None;
    }

    /** Only the newest report is ever rewritten. */
    method UpdateNote(id: NoteId, report: Report) returns (ok: bool)
      requires Inv() && |Reports()| > 0
      requires Reports()[|Reports()| - 1].note == id
      requires BindingsOk(report.state.findings, report.controls)
      requires EntryOk(Entry(id, report.state), target)
      requires PredecessorOf(Entry(id, report.state)) == PredecessorOf(Reports()[|Reports()| - 1])
      requires FindingIds(Reports()[|Reports()| - 1].state.findings) <= FindingIds(report.state.findings)
      modifies this
      ensures Inv()
      ensures retired == old(retired) && lastRead == old(lastRead) && lastReplied == old(lastReplied)
      ensures looks == old(looks)
      ensures ok ==> Reports() == Rewritten(old(Reports()), Entry(id, report.state))
      ensures !ok ==>
        || Reports() == old(Reports())
        || Reports() == Rewritten(old(Reports()), Entry(id, report.state))
      ensures old(Quiet()) ==> Quiet() && ok && notes == Rebodied(old(notes), id, report)
    {
      hide NotesOk, Chain, EntryOk, BindingsOk;
      var fate, upToDate := Pass();
      if fate == RequestLost { return false; }
      LastRewritten(notes, nextId, bot, target, id, report);
      var i := IndexOf(notes, id).value;
      notes := notes[i := notes[i].(body := Owned(report))];
      ok := fate == Delivered;
    }

    /** The publisher deletes only at the two ends of the chain. What a deleted note
        said last is what the delete found. */
    method DeleteNote(id: NoteId) returns (ok: bool)
      requires Inv() && AtEnd(Reports(), id)
      modifies this
      ensures Inv()
      ensures lastRead == old(lastRead) && lastReplied == old(lastReplied)
      ensures looks == old(looks)
      ensures ok ==> Reports() == WithoutEntry(old(Reports()), id)
      ensures
        || (Reports() == old(Reports()) && retired == old(retired))
        || (&& Reports() == WithoutEntry(old(Reports()), id)
            && retired == old(retired)[id := BodyOf(old(NextNotes()), id)])
      ensures Reports() != old(Reports()) ==> forall e :: e in old(Reports()) && e.note == id ==> Shows(retired[id], e)
      ensures old(Quiet()) ==> Quiet() && ok
    {
      hide Chain, NotesOk, Ledger, WithoutEntry, RemoveNote, BodyOf, Shows, ActedAll;
      var fate, upToDate := Pass();
      EndChanges(Reports(), id, target);
      if fate == RequestLost { return false; }
      EndIsShown(notes, nextId, bot, target, id);
      EndRemoved(notes, nextId, bot, target, id);
      retired := retired[id := BodyOf(notes, id)];
      notes := RemoveNote(notes, id);
      ok := fate == Delivered;
    }
  }
}
