/** The note store as a value: the notes of a merge request, the ledger of reports
    the bot owns among them, and the chain those reports have to form
    (internal/gitlab/publish.go). A ledger entry is a report without its boxes:
    humans move boxes, only the publisher changes the ledger. */
module NoteStore {
  import opened Domain
  import opened ReportCodec
  import opened Ordering

  datatype Body = Prose | Owned(report: Report)

  datatype Note = Note(id: NoteId, author: int, restricted: bool, body: Body, replied: bool)

  datatype Recovered = Recovered(note: NoteId, report: Report)

  datatype Entry = Entry(note: NoteId, state: State)

  // ----- Digests -----

  /** The part of a state its digest covers: everything but the note that holds
      it, the time of publication and the digest itself. */
  function DigestState(s: State): State {
    var c := Canonicalize(s);
    if c.publication.None? then c
    else c.(publication := Some(c.publication.value.(note := 0, digest := NoDigest, publishedAt := 0)))
  }

  function CalculateDigest(s: State): Result<Digest> {
    if Encode(DigestState(s)).Ok? then Ok(DigestOf(DigestState(s))) else Err
  }

  lemma DigestStateShape(s: State)
    ensures DigestState(s).findings == Canonicalize(s).findings
    ensures CalculateDigest(s).Ok? <==> ValidState(s)
    ensures DigestState(Canonicalize(s)) == DigestState(s)
  {
    CanonicalizeProjects(s);
    CanonicalizeProjects(DigestState(s));
    CanonicalKeepsValid(s);
    DecodeEncode(DigestState(s));
  }

  // ----- The ledger -----

  predicate IsReport(n: Note, bot: int) {
    n.author == bot && n.body.Owned?
  }

  function EntryOf(n: Note): Entry
    requires n.body.Owned?
  {
    Entry(n.id, n.body.report.state)
  }

  function Ledger(notes: seq<Note>, bot: int): seq<Entry> {
    if |notes| == 0 then []
    else
      var n := notes[|notes| - 1];
      Ledger(notes[..|notes| - 1], bot) + if IsReport(n, bot) then [EntryOf(n)] else []
  }

  predicate EntryOk(e: Entry, target: MergeRequest) {
    && e.note >= 1
    && ValidState(e.state) && IsCanonical(e.state)
    && e.state.mr == target
    && e.state.publication.Some?
    && var p := e.state.publication.value;
       && p.generation != "" && p.publishedAt != 0 && p.predecessor >= 0
       && (p.note == 0 || p.note == e.note)
       && p.digest == DigestOf(DigestState(e.state))
  }

  function PredecessorOf(e: Entry): NoteId {
    if e.state.publication.Some? then e.state.publication.value.predecessor else 0
  }

  function GenerationOf(e: Entry): string {
    if e.state.publication.Some? then e.state.publication.value.generation else ""
  }

  /** One line of reports, each naming the one before it, with ascending notes and
      findings that are never dropped. What precedes the first is gone. */
  predicate Chain(l: seq<Entry>, target: MergeRequest) {
    && (forall i :: 0 <= i < |l| ==> EntryOk(l[i], target))
    && (forall i, j :: 0 <= i < j < |l| ==> l[i].note < l[j].note)
    && (forall i, j :: 0 <= i && j == i + 1 < |l| ==>
          PredecessorOf(l[j]) == l[i].note && FindingIds(l[i].state.findings) <= FindingIds(l[j].state.findings))
    && (|l| > 0 ==> PredecessorOf(l[0]) < l[0].note)
  }

  predicate NotesOk(notes: seq<Note>, nextId: NoteId, bot: int) {
    && nextId >= 1
    && (forall i :: 0 <= i < |notes| ==> 1 <= notes[i].id < nextId)
    && (forall i, j :: 0 <= i < j < |notes| ==> notes[i].id < notes[j].id)
    && (forall i :: 0 <= i < |notes| && IsReport(notes[i], bot) ==>
          !notes[i].restricted && BindingsOk(notes[i].body.report.state.findings, notes[i].body.report.controls))
  }

  predicate WellKept(notes: seq<Note>, nextId: NoteId, bot: int, target: MergeRequest) {
    NotesOk(notes, nextId, bot) && Chain(Ledger(notes, bot), target)
  }

  // ----- How the ledger follows the notes -----

  lemma {:induction false} LedgerHas(notes: seq<Note>, bot: int, n: Note)
    requires n in notes && IsReport(n, bot)
    ensures EntryOf(n) in Ledger(notes, bot)
  {
    var front, last := notes[..|notes| - 1], notes[|notes| - 1];
    assert notes == front + [last];
    if n != last { LedgerHas(front, bot, n); }
  }

  lemma {:induction false} LedgerFrom(notes: seq<Note>, bot: int, e: Entry)
    requires e in Ledger(notes, bot)
    ensures exists i :: 0 <= i < |notes| && IsReport(notes[i], bot) && EntryOf(notes[i]) == e
  {
    var front, last := notes[..|notes| - 1], notes[|notes| - 1];
    if e in Ledger(front, bot) {
      LedgerFrom(front, bot, e);
      var i :| 0 <= i < |front| && IsReport(front[i], bot) && EntryOf(front[i]) == e;
      assert notes[i] == front[i];
    } else {
      assert EntryOf(notes[|notes| - 1]) == e;
    }
  }

  /** A note found under the id of a ledger entry is that entry. */
  lemma NoteIsEntry(notes: seq<Note>, nextId: NoteId, bot: int, n: Note, e: Entry)
    requires NotesOk(notes, nextId, bot)
    requires n in notes && e in Ledger(notes, bot) && n.id == e.note
    ensures IsReport(n, bot) && EntryOf(n) == e
    ensures !n.restricted && BindingsOk(e.state.findings, n.body.report.controls)
  {
    LedgerFrom(notes, bot, e);
    var i :| 0 <= i < |notes| && IsReport(notes[i], bot) && EntryOf(notes[i]) == e;
    var j :| 0 <= j < |notes| && notes[j] == n;
    assert i == j;
  }

  lemma EntryHasNote(notes: seq<Note>, bot: int, e: Entry)
    requires e in Ledger(notes, bot)
    ensures exists n :: n in notes && n.id == e.note
  {
    LedgerFrom(notes, bot, e);
    var i :| 0 <= i < |notes| && IsReport(notes[i], bot) && EntryOf(notes[i]) == e;
    assert notes[i] in notes;
  }

  lemma LedgerAppend(notes: seq<Note>, bot: int, n: Note)
    ensures Ledger(notes + [n], bot) == Ledger(notes, bot) + if IsReport(n, bot) then [EntryOf(n)] else []
  {
    assert (notes + [n])[..|notes|] == notes;
  }

  // A note replaced by one with the same author, id and state leaves the ledger alone.
  lemma {:induction false} LedgerSame(notes: seq<Note>, bot: int, i: nat, n: Note)
    requires i < |notes|
    requires IsReport(notes[i], bot) <==> IsReport(n, bot)
    requires IsReport(n, bot) ==> EntryOf(n) == EntryOf(notes[i])
    ensures Ledger(notes[i := n], bot) == Ledger(notes, bot)
  {
    var after := notes[i := n];
    if i == |notes| - 1 {
      assert after[..|after| - 1] == notes[..|notes| - 1];
    } else {
      LedgerSame(notes[..|notes| - 1], bot, i, n);
      assert after[..|after| - 1] == notes[..|notes| - 1][i := n];
    }
  }

  function IndexOf(notes: seq<Note>, id: NoteId): (r: Option<nat>)
    ensures r.Some? ==> r.value < |notes| && notes[r.value].id == id
    ensures r.None? ==> forall n :: n in notes ==> n.id != id
  {
    if |notes| == 0 then None
    else if notes[|notes| - 1].id == id then Some(|notes| - 1)
    else
      assert notes == notes[..|notes| - 1] + [notes[|notes| - 1]];
      IndexOf(notes[..|notes| - 1], id)
  }

  // Rewriting the last report of the ledger.
  lemma {:induction false} LedgerUpdateLast(notes: seq<Note>, bot: int, i: nat, r: Report)
    requires i < |notes| && IsReport(notes[i], bot)
    requires forall j :: i < j < |notes| ==> !IsReport(notes[j], bot)
    ensures |Ledger(notes, bot)| > 0
    ensures Ledger(notes[i := notes[i].(body := Owned(r))], bot) ==
      Rewritten(Ledger(notes, bot), Entry(notes[i].id, r.state))
  {
    var after := notes[i := notes[i].(body := Owned(r))];
    var front := notes[..|notes| - 1];
    if i == |notes| - 1 {
      assert after[..|after| - 1] == front;
      assert Ledger(notes, bot)[..|Ledger(notes, bot)| - 1] == Ledger(front, bot);
    } else {
      LedgerUpdateLast(front, bot, i, r);
      assert after[..|after| - 1] == front[i := front[i].(body := Owned(r))];
      assert !IsReport(notes[|notes| - 1], bot);
    }
  }

  lemma LastEntryIsLastReport(notes: seq<Note>, nextId: NoteId, bot: int, i: nat)
    requires NotesOk(notes, nextId, bot) && i < |notes|
    requires |Ledger(notes, bot)| > 0
    requires forall e :: e in Ledger(notes, bot) ==> e.note <= notes[i].id
    ensures forall j :: i < j < |notes| ==> !IsReport(notes[j], bot)
  {
    forall j | i < j < |notes| ensures !IsReport(notes[j], bot) {
      if IsReport(notes[j], bot) { LedgerHas(notes, bot, notes[j]); }
    }
  }

  // ----- Removing a note -----

  function RemoveNote(notes: seq<Note>, id: NoteId): seq<Note> {
    if |notes| == 0 then []
    else RemoveNote(notes[..|notes| - 1], id) + if notes[|notes| - 1].id == id then [] else [notes[|notes| - 1]]
  }

  function WithoutEntry(l: seq<Entry>, id: NoteId): seq<Entry> {
    if |l| == 0 then []
    else WithoutEntry(l[..|l| - 1], id) + if l[|l| - 1].note == id then [] else [l[|l| - 1]]
  }

  lemma WithoutAppend(l: seq<Entry>, e: Entry, id: NoteId)
    ensures WithoutEntry(l + [e], id) == WithoutEntry(l, id) + if e.note == id then [] else [e]
  {
    assert (l + [e])[..|l|] == l;
  }

  lemma {:induction false} LedgerRemove(notes: seq<Note>, bot: int, id: NoteId)
    ensures Ledger(RemoveNote(notes, id), bot) == WithoutEntry(Ledger(notes, bot), id)
  {
    if |notes| > 0 {
      var front, n := notes[..|notes| - 1], notes[|notes| - 1];
      LedgerRemove(front, bot, id);
      assert Ledger(notes, bot) == if IsReport(n, bot) then Ledger(front, bot) + [EntryOf(n)] else Ledger(front, bot);
      assert RemoveNote(notes, id) == if n.id == id then RemoveNote(front, id) else RemoveNote(front, id) + [n];
      if IsReport(n, bot) { WithoutAppend(Ledger(front, bot), EntryOf(n), id); }
      if n.id != id { LedgerAppend(RemoveNote(front, id), bot, n); }
    }
  }

  lemma {:induction false} WithoutAbsent(l: seq<Entry>, id: NoteId)
    requires forall e :: e in l ==> e.note != id
    ensures WithoutEntry(l, id) == l
  {
    if |l| > 0 {
      assert l == l[..|l| - 1] + [l[|l| - 1]];
      WithoutAbsent(l[..|l| - 1], id);
    }
  }

  /** Taking out one entry of an ascending ledger. */
  lemma {:induction false} WithoutAt(l: seq<Entry>, i: nat)
    requires i < |l|
    requires forall j, k :: 0 <= j < k < |l| ==> l[j].note < l[k].note
    ensures WithoutEntry(l, l[i].note) == l[..i] + l[i + 1..]
  {
    var front, last := l[..|l| - 1], l[|l| - 1];
    assert l == front + [last];
    if i == |l| - 1 {
      WithoutAbsent(front, last.note);
    } else {
      WithoutAt(front, i);
      assert front[..i] + front[i + 1..] + [last] == l[..i] + l[i + 1..];
    }
  }

  lemma {:induction false} RemoveNoteMembers(notes: seq<Note>, id: NoteId)
    ensures forall n :: n in RemoveNote(notes, id) <==> n in notes && n.id != id
  {
    if |notes| > 0 {
      assert notes == notes[..|notes| - 1] + [notes[|notes| - 1]];
      RemoveNoteMembers(notes[..|notes| - 1], id);
    }
  }

  lemma NotesOkFront(notes: seq<Note>, nextId: NoteId, bot: int)
    requires NotesOk(notes, nextId, bot) && |notes| > 0
    ensures NotesOk(notes[..|notes| - 1], nextId, bot)
    ensures forall n :: n in notes[..|notes| - 1] ==> n.id < notes[|notes| - 1].id
  {
  }

  lemma NotesOkAppend(notes: seq<Note>, nextId: NoteId, bot: int, n: Note)
    requires NotesOk(notes, nextId, bot) && 1 <= n.id < nextId
    requires forall x :: x in notes ==> x.id < n.id
    requires IsReport(n, bot) ==>
      !n.restricted && BindingsOk(n.body.report.state.findings, n.body.report.controls)
    ensures NotesOk(notes + [n], nextId, bot)
  {
    hide BindingsOk;
    forall i | 0 <= i < |notes| ensures notes[i].id < n.id { assert notes[i] in notes; }
  }

  lemma {:induction false} RemoveNoteOk(notes: seq<Note>, nextId: NoteId, bot: int, id: NoteId)
    requires NotesOk(notes, nextId, bot)
    ensures NotesOk(RemoveNote(notes, id), nextId, bot)
  {
    if |notes| > 0 {
      var front, last := notes[..|notes| - 1], notes[|notes| - 1];
      NotesOkFront(notes, nextId, bot);
      RemoveNoteMembers(front, id);
      assert 1 <= last.id < nextId;
      assert IsReport(last, bot) ==>
        !last.restricted && BindingsOk(last.body.report.state.findings, last.body.report.controls);
      hide NotesOk, BindingsOk;
      RemoveNoteOk(front, nextId, bot, id);
      if last.id == id {
        assert RemoveNote(front, id) + [] == RemoveNote(front, id);
      } else {
        NotesOkAppend(RemoveNote(front, id), nextId, bot, last);
      }
    }
  }

  // ----- What each kind of mutation does to a chain -----

  /** The ledger with its last entry replaced. */
  function Rewritten(l: seq<Entry>, e: Entry): (r: seq<Entry>)
    requires |l| > 0
  {
    l[|l| - 1 := e]
  }

  predicate Successor(l: seq<Entry>, e: Entry) {
    if |l| == 0 then PredecessorOf(e) == 0
    else
      && PredecessorOf(e) == l[|l| - 1].note
      && FindingIds(l[|l| - 1].state.findings) <= FindingIds(e.state.findings)
  }

  lemma ChainAppend(l: seq<Entry>, e: Entry, target: MergeRequest)
    requires Chain(l, target) && EntryOk(e, target) && Successor(l, e)
    requires forall x :: x in l ==> x.note < e.note
    ensures Chain(l + [e], target)
  {
    hide DigestState;
    assert forall i :: 0 <= i < |l| ==> l[i] in l;
  }

  lemma ChainRewriteLast(l: seq<Entry>, e: Entry, target: MergeRequest)
    requires |l| > 0 && Chain(l, target) && EntryOk(e, target)
    requires e.note == l[|l| - 1].note
    requires PredecessorOf(e) == PredecessorOf(l[|l| - 1])
    requires FindingIds(l[|l| - 1].state.findings) <= FindingIds(e.state.findings)
    ensures Chain(Rewritten(l, e), target)
  {
  }

  /** Retiring the oldest report, or withdrawing the newest, leaves a chain. */
  lemma ChainShrinks(l: seq<Entry>, target: MergeRequest)
    requires |l| > 0 && Chain(l, target)
    ensures Chain(l[1..], target)
    ensures Chain(l[..|l| - 1], target)
  {
  }

  lemma {:induction false} ChainIdsGrow(l: seq<Entry>, target: MergeRequest, i: nat, j: nat)
    requires Chain(l, target) && i <= j < |l|
    ensures FindingIds(l[i].state.findings) <= FindingIds(l[j].state.findings)
  {
    if i < j { ChainIdsGrow(l, target, i, j - 1); }
  }
}
