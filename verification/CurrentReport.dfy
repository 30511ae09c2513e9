/** Choosing the current report among those recovered
    (selectCurrentReport, internal/gitlab/publish.go). */
module CurrentReport {
  import opened Domain
  import opened ReportCodec
  import opened NoteStore
  import opened Ordering

  datatype Failure = ReadFailure | WriteFailure | Conflict | Stale | CleanupBlocked | Invalid

  datatype Attempt<+T> = Done(value: T) | Stopped(why: Failure)

  datatype Selection = Selection(current: Option<Recovered>, superseded: seq<Recovered>)

  function PublicationIn(s: State): Publication {
    if s.publication.Some? then s.publication.value else Publication("", 0, 0, NoDigest, 0)
  }

  function PublicationOf(r: Recovered): Publication {
    PublicationIn(r.report.state)
  }

  function EntryFor(r: Recovered): Entry {
    Entry(r.note, r.report.state)
  }

  function EntriesFor(rs: seq<Recovered>): (l: seq<Entry>)
    ensures |l| == |rs|
    ensures forall i :: 0 <= i < |rs| ==> l[i] == EntryFor(rs[i])
  {
    seq(|rs|, i requires 0 <= i < |rs| => EntryFor(rs[i]))
  }

  predicate Referenced(rs: seq<Recovered>, id: NoteId) {
    exists i :: 0 <= i < |rs| && PublicationOf(rs[i]).predecessor == id && id > 0
  }

  // A report nobody names as predecessor.
  predicate IsHead(rs: seq<Recovered>, r: Recovered) {
    r in rs && !Referenced(rs, r.note)
  }

  predicate Twins(a: Recovered, b: Recovered) {
    var p, q := PublicationOf(a), PublicationOf(b);
    p.generation == q.generation && p.predecessor == q.predecessor && p.digest == q.digest
  }

  predicate DistinctNotes(rs: seq<Recovered>) {
    forall i, j :: 0 <= i < j < |rs| ==> rs[i].note != rs[j].note
  }

  function NoteRank(r: Recovered): int {
    r.note
  }

  function NewestFirst(r: Recovered): int {
    -r.note
  }

  function Others(rs: seq<Recovered>, id: NoteId): seq<Recovered> {
    if |rs| == 0 then []
    else Others(rs[..|rs| - 1], id) + if rs[|rs| - 1].note == id then [] else [rs[|rs| - 1]]
  }

  predicate SelectsFrom(rs: seq<Recovered>, s: Selection) {
    && s.current.Some?
    && IsHead(rs, s.current.value)
    && (forall h :: h in rs && IsHead(rs, h) ==> h.note <= s.current.value.note && Twins(h, s.current.value))
    && s.superseded == SortBy(Others(rs, s.current.value.note), NoteRank)
  }

  ghost predicate Unselectable(rs: seq<Recovered>) {
    || (forall r :: r in rs ==> Referenced(rs, r.note))
    || (exists a, b :: a in rs && b in rs && IsHead(rs, a) && IsHead(rs, b) && !Twins(a, b))
  }

  method FindHeads(rs: seq<Recovered>) returns (heads: seq<Recovered>)
    ensures forall r :: r in heads <==> IsHead(rs, r)
  {
    var referenced: set<NoteId> := {};
    for i := 0 to |rs|
      invariant forall id :: id in referenced <==>
        exists k :: 0 <= k < i && PublicationOf(rs[k]).predecessor == id && id > 0
    {
      var predecessor := PublicationOf(rs[i]).predecessor;
      if predecessor > 0 { referenced := referenced + {predecessor}; }
    }
    assert forall id :: id in referenced <==> Referenced(rs, id);
    heads := [];
    for i := 0 to |rs|
      invariant forall r :: r in heads <==> r in rs[..i] && r.note !in referenced
    {
      assert rs[..i + 1] == rs[..i] + [rs[i]];
      if rs[i].note !in referenced { heads := heads + [rs[i]]; }
    }
    assert rs[..|rs|] == rs;
  }

  method AllTwins(heads: seq<Recovered>) returns (ok: bool)
    requires |heads| > 0
    ensures ok <==> forall a, b :: a in heads && b in heads ==> Twins(a, b)
  {
    for i := 1 to |heads|
      invariant forall k :: 0 <= k < i ==> Twins(heads[k], heads[0])
    {
      if !Twins(heads[i], heads[0]) {
        assert heads[i] in heads && heads[0] in heads;
        return false;
      }
    }
    forall a, b | a in heads && b in heads ensures Twins(a, b) {
      var i :| 0 <= i < |heads| && heads[i] == a;
      var j :| 0 <= j < |heads| && heads[j] == b;
    }
    return true;
  }

  method OtherReports(rs: seq<Recovered>, id: NoteId) returns (others: seq<Recovered>)
    ensures others == Others(rs, id)
  {
    others := [];
    for i := 0 to |rs|
      invariant others == Others(rs[..i], id)
    {
      assert rs[..i + 1][..i] == rs[..i];
      if rs[i].note != id { others := others + [rs[i]]; }
    }
    assert rs[..|rs|] == rs;
  }

  method SelectCurrentReport(rs: seq<Recovered>) returns (r: Attempt<Selection>)
    ensures |rs| == 0 ==> r == Done(Selection(None, []))
    ensures r.Stopped? ==> r.why == Conflict
    ensures |rs| > 0 ==> (r.Stopped? <==> Unselectable(rs))
    ensures |rs| > 0 && r.Done? ==> SelectsFrom(rs, r.value)
  {
    if |rs| == 0 { return Done(Selection(None, [])); }
    var heads := FindHeads(rs);
    if |heads| == 0 {
      forall x | x in rs ensures Referenced(rs, x.note) {
        assert x in heads <==> IsHead(rs, x);
      }
      return Stopped(Conflict);
    }
    assert heads[0] in heads;
    var twins := AllTwins(heads);
    if !twins { return Stopped(Conflict); }
    assert !Unselectable(rs) by {
      assert IsHead(rs, heads[0]);
      assert !Referenced(rs, heads[0].note);
    }
    var ranked := SortBy(heads, NewestFirst);
    SortSorts(heads, NewestFirst);
    var current := ranked[0];
    forall h | IsHead(rs, h) ensures h.note <= current.note && Twins(h, current) {
      assert h in heads && h in multiset(ranked) && current in multiset(heads);
      var k :| 0 <= k < |ranked| && ranked[k] == h;
    }
    assert current in multiset(heads);
    var others := OtherReports(rs, current.note);
    return Done(Selection(Some(current), SortBy(others, NoteRank)));
  }

  // No report names this one as its predecessor.
  ghost predicate Unnamed(rs: seq<Recovered>, r: Recovered) {
    forall q :: q in rs ==> PublicationOf(q).predecessor != r.note || r.note <= 0
  }

  lemma HeadIsUnnamed(rs: seq<Recovered>, r: Recovered)
    requires r in rs
    ensures Unnamed(rs, r) <==> IsHead(rs, r)
    ensures Unnamed(rs, r) <==> !Referenced(rs, r.note)
  {
    if q :| q in rs && PublicationOf(q).predecessor == r.note && r.note > 0 {
      var i :| 0 <= i < |rs| && rs[i] == q;
      assert Referenced(rs, r.note);
    } else {
      assert forall i :: 0 <= i < |rs| ==> rs[i] in rs;
    }
  }

  // Every unnamed report is of the same generation, predecessor and digest as `h`.
  ghost predicate AllLike(rs: seq<Recovered>, h: Recovered) {
    forall r :: r in rs && Unnamed(rs, r) ==>
      && PublicationOf(r).generation == PublicationOf(h).generation
      && PublicationOf(r).predecessor == PublicationOf(h).predecessor
      && PublicationOf(r).digest == PublicationOf(h).digest
  }

  /** A current report can be selected exactly when some report is unnamed and all the unnamed
      ones agree with it in generation, predecessor and digest. */
  lemma SelectableExactly(rs: seq<Recovered>)
    ensures !Unselectable(rs) <==> exists h :: h in rs && Unnamed(rs, h) && AllLike(rs, h)
  {
    hide IsHead, Referenced, Unnamed;
    forall r | r in rs ensures Unnamed(rs, r) <==> IsHead(rs, r) && !Referenced(rs, r.note) {
      HeadIsUnnamed(rs, r);
    }
    if !Unselectable(rs) {
      var h :| h in rs && !Referenced(rs, h.note);
      HeadIsUnnamed(rs, h);
      assert AllLike(rs, h);
    } else if h :| h in rs && Unnamed(rs, h) && AllLike(rs, h) {
      HeadIsUnnamed(rs, h);
      var a, b :| a in rs && b in rs && IsHead(rs, a) && IsHead(rs, b) && !Twins(a, b);
      HeadIsUnnamed(rs, a);
      HeadIsUnnamed(rs, b);
      assert false;
    }
  }

  lemma {:induction false} OthersLack(rs: seq<Recovered>, current: Recovered)
    requires DistinctNotes(rs) && current in rs
    ensures multiset(Others(rs, current.note)) == multiset(rs) - multiset{current}
  {
    var front, last := rs[..|rs| - 1], rs[|rs| - 1];
    assert rs == front + [last];
    if last.note == current.note {
      var i :| 0 <= i < |rs| && rs[i] == current;
      assert i == |rs| - 1;
      OthersOfLast(rs);
    } else {
      OthersLack(front, current);
    }
  }

  /** What is selected is the newest report no other names, and what is superseded is every
      other report, the oldest first. */
  lemma SelectedExactly(rs: seq<Recovered>, s: Selection)
    requires SelectsFrom(rs, s) && DistinctNotes(rs)
    ensures s.current.value in rs && multiset(s.superseded) == multiset(rs) - multiset{s.current.value}
    ensures forall i, j :: 0 <= i < j < |s.superseded| ==> s.superseded[i].note <= s.superseded[j].note
    ensures forall r :: r in rs && r.note > s.current.value.note ==>
      exists q :: q in rs && PublicationOf(q).predecessor == r.note
  {
    var current := s.current.value;
    OthersLack(rs, current);
    SortSorts(Others(rs, current.note), NoteRank);
    forall r | r in rs && r.note > current.note ensures exists q :: q in rs && PublicationOf(q).predecessor == r.note {
      assert !IsHead(rs, r);
      HeadIsUnnamed(rs, r);
    }
  }

  lemma {:induction false} OthersOfLast(rs: seq<Recovered>)
    requires |rs| > 0 && DistinctNotes(rs)
    ensures Others(rs, rs[|rs| - 1].note) == rs[..|rs| - 1]
  {
    OthersAbsent(rs[..|rs| - 1], rs[|rs| - 1].note);
  }

  lemma {:induction false} OthersAbsent(rs: seq<Recovered>, id: NoteId)
    requires forall i :: 0 <= i < |rs| ==> rs[i].note != id
    ensures Others(rs, id) == rs
  {
    if |rs| > 0 {
      OthersAbsent(rs[..|rs| - 1], id);
      assert rs == rs[..|rs| - 1] + [rs[|rs| - 1]];
    }
  }

  lemma ChainReferences(rs: seq<Recovered>, target: MergeRequest, i: nat)
    requires Chain(EntriesFor(rs), target) && i < |rs|
    ensures Referenced(rs, rs[i].note) <==> i < |rs| - 1
  {
    var l := EntriesFor(rs);
    if i < |rs| - 1 {
      assert PredecessorOf(l[i + 1]) == l[i].note;
      assert EntryOk(l[i], target);
      assert PublicationOf(rs[i + 1]).predecessor == rs[i].note;
    } else {
      forall k | 0 <= k < |rs| ensures PublicationOf(rs[k]).predecessor < rs[i].note {
        if k > 0 { assert PredecessorOf(l[k]) == l[k - 1].note < l[i].note; }
        else { assert PredecessorOf(l[0]) < l[0].note <= l[i].note; }
      }
    }
  }

  /** On a chain the newest report is current, the others are superseded from the
      oldest on, and there is never a conflict. */
  lemma ChainSelects(rs: seq<Recovered>, target: MergeRequest, s: Selection)
    requires |rs| > 0 && Chain(EntriesFor(rs), target)
    ensures !Unselectable(rs)
    ensures SelectsFrom(rs, s) ==> s == Selection(Some(rs[|rs| - 1]), rs[..|rs| - 1])
  {
    var last := rs[|rs| - 1];
    var l := EntriesFor(rs);
    forall i, j | 0 <= i < j < |rs| ensures rs[i].note < rs[j].note { assert l[i].note < l[j].note; }
    forall r | r in rs ensures IsHead(rs, r) <==> r == last {
      var i :| 0 <= i < |rs| && rs[i] == r;
      ChainReferences(rs, target, i);
    }
    assert last in rs;
    OthersOfLast(rs);
    SortIdentity(rs[..|rs| - 1], NoteRank);
  }

  // ----- Why at most one note per create has to be assumed -----

  function TwinState(base: State, generation: string, predecessor: NoteId, note: NoteId): State {
    base.(publication := Some(Publication(generation, note, predecessor, NoDigest, 1)))
  }

  /** Two stored notes of one generation are tolerated until a run under another
      generation adds a successor of one of them; the other then blocks recovery. */
  lemma TwinsThenSuccessorConflict(base: State, p: NoteId, a: NoteId, b: NoteId, c: NoteId)
    requires 0 <= p < a < b < c
    ensures var x := Recovered(a, Report(TwinState(base, "one", p, 0), []));
      var y := Recovered(b, Report(TwinState(base, "one", p, 0), []));
      var z := Recovered(c, Report(TwinState(base, "two", b, 0), []));
      !Unselectable([x, y]) && Unselectable([x, y, z])
  {
    var x := Recovered(a, Report(TwinState(base, "one", p, 0), []));
    var y := Recovered(b, Report(TwinState(base, "one", p, 0), []));
    var z := Recovered(c, Report(TwinState(base, "two", b, 0), []));
    assert x in [x, y] && !Referenced([x, y], x.note);
    assert x in [x, y, z] && z in [x, y, z];
    assert !Referenced([x, y, z], x.note) && !Referenced([x, y, z], z.note);
    assert IsHead([x, y, z], x) && IsHead([x, y, z], z) && !Twins(x, z);
  }
}
