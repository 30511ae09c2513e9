/** Dividing review units into sessions (batchUnits, assignFindingBatches and the
    preparation of units, internal/coordinator/coordinator.go). */
module Planner {
  import opened Domain
  import opened Validation
  import opened Ordering

  datatype Unit = Unit(id: UnitId, symbol: string)

  type Requirements = map<UnitId, Requirement>

  function UnitIds(us: seq<Unit>): set<UnitId> {
    set i | 0 <= i < |us| :: us[i].id
  }

  predicate DistinctUnits(us: seq<Unit>) {
    forall i, j :: 0 <= i < j < |us| ==> us[i].id != us[j].id
  }

  lemma UnitIdsJoin(a: seq<Unit>, b: seq<Unit>)
    ensures UnitIds(a + b) == UnitIds(a) + UnitIds(b)
  {
    var c := a + b;
    forall id | id in UnitIds(a) ensures id in UnitIds(c) {
      var i :| 0 <= i < |a| && a[i].id == id;
      assert c[i].id == id;
    }
    forall id | id in UnitIds(b) ensures id in UnitIds(c) {
      var i :| 0 <= i < |b| && b[i].id == id;
      assert c[|a| + i].id == id;
    }
  }

  lemma UnitIdsOfOne(u: Unit)
    ensures UnitIds([u]) == {u.id}
  {
    assert [u][0].id == u.id;
  }

  lemma DistinctJoin(a: seq<Unit>, b: seq<Unit>)
    requires DistinctUnits(a) && DistinctUnits(b) && UnitIds(a) !! UnitIds(b)
    ensures DistinctUnits(a + b)
  {
    var c := a + b;
    forall i, j | 0 <= i < j < |c| ensures c[i].id != c[j].id {
      if i < |a| <= j {
        assert c[i].id in UnitIds(a) && b[j - |a|].id in UnitIds(b);
      }
    }
  }

  // A later unit shadows an earlier one with the same id.
  function FindUnit(us: seq<Unit>, id: UnitId): (r: Option<Unit>)
    ensures r.Some? ==> r.value in us && r.value.id == id
    ensures r.None? <==> id !in UnitIds(us)
  {
    if |us| == 0 then None
    else if us[|us| - 1].id == id then Some(us[|us| - 1])
    else
      assert forall i :: 0 <= i < |us| - 1 ==> us[..|us| - 1][i] == us[i];
      FindUnit(us[..|us| - 1], id)
  }

  function Flatten(gs: seq<seq<Unit>>): seq<Unit> {
    if |gs| == 0 then [] else Flatten(gs[..|gs| - 1]) + gs[|gs| - 1]
  }

  lemma FlattenAppend(gs: seq<seq<Unit>>, g: seq<Unit>)
    ensures Flatten(gs + [g]) == Flatten(gs) + g
  {
    assert (gs + [g])[..|gs|] == gs;
  }

  // ----- Groups: a unit, with its enclosing unit if that is not placed yet -----

  function EnclosingOf(u: Unit, needs: Requirements): UnitId {
    if u.id in needs then needs[u.id].enclosing else ""
  }

  // The group a unit not placed yet opens, or nothing when its enclosing unit is absent.
  function GroupOf(u: Unit, units: seq<Unit>, needs: Requirements, placed: set<UnitId>): Option<seq<Unit>> {
    var enclosing := EnclosingOf(u, needs);
    if enclosing == "" then Some([u])
    else
      var e := FindUnit(units, enclosing);
      if e.None? then None
      else if enclosing in placed + {u.id} then Some([u])
      else Some([u, e.value])
  }

  function GroupsUpTo(units: seq<Unit>, needs: Requirements, n: nat): Option<seq<seq<Unit>>>
    requires n <= |units|
  {
    if n == 0 then Some([])
    else
      var before := GroupsUpTo(units, needs, n - 1);
      if before.None? then None
      else
        var placed := UnitIds(Flatten(before.value));
        var u := units[n - 1];
        if u.id in placed then before
        else
          var g := GroupOf(u, units, needs, placed);
          if g.None? then None else Some(before.value + [g.value])
  }

  // ----- Packing groups into batches in order -----

  function Packed(gs: seq<seq<Unit>>, maximum: int): Option<seq<seq<Unit>>> {
    if |gs| == 0 then Some([])
    else
      var before := Packed(gs[..|gs| - 1], maximum);
      var g := gs[|gs| - 1];
      if before.None? || |g| > maximum then None
      else
        var bs := before.value;
        if |bs| == 0 || |bs[|bs| - 1]| + |g| > maximum then Some(bs + [g])
        else Some(bs[|bs| - 1 := bs[|bs| - 1] + g])
  }

  /** The batches of a run, or nothing when planning fails. */
  function Batches(units: seq<Unit>, needs: Requirements, maximum: int): Option<seq<seq<Unit>>> {
    var gs := GroupsUpTo(units, needs, |units|);
    if gs.None? then None else Packed(gs.value, maximum)
  }

  ghost predicate HoldsUnits(byId: map<UnitId, Unit>, us: seq<Unit>) {
    forall id :: FindUnit(us, id) == if id in byId then Some(byId[id]) else None
  }

  method IndexUnits(units: seq<Unit>) returns (byId: map<UnitId, Unit>)
    ensures HoldsUnits(byId, units)
  {
    byId := map[];
    for i := 0 to |units|
      invariant HoldsUnits(byId, units[..i])
    {
      assert units[..i + 1][..i] == units[..i];
      byId := byId[units[i].id := units[i]];
    }
    assert units[..|units|] == units;
  }

  method OpenGroup(u: Unit, units: seq<Unit>, byId: map<UnitId, Unit>, needs: Requirements, used: set<UnitId>)
    returns (r: Option<seq<Unit>>, placed: set<UnitId>)
    requires HoldsUnits(byId, units)
    ensures r == GroupOf(u, units, needs, used)
    ensures r.Some? ==> placed == used + UnitIds(r.value)
  {
    var group := [u];
    placed := used + {u.id};
    assert group[0].id == u.id;
    if u.id in needs && needs[u.id].enclosing != "" {
      var enclosing := needs[u.id].enclosing;
      assert FindUnit(units, enclosing) == if enclosing in byId then Some(byId[enclosing]) else None;
      if enclosing !in byId { return None, placed; }
      if enclosing !in placed {
        group := group + [byId[enclosing]];
        placed := placed + {enclosing};
        assert group == [u, byId[enclosing]];
        assert group[0].id == u.id && group[1].id == enclosing;
      }
    }
    return Some(group), placed;
  }

  // One more unit: placed already, without its enclosing unit, or opening a group.
  lemma OneUnitMore(units: seq<Unit>, needs: Requirements, groups: seq<seq<Unit>>, n: nat)
    requires n < |units| && GroupsUpTo(units, needs, n) == Some(groups)
    ensures var placed := UnitIds(Flatten(groups));
      if units[n].id in placed then GroupsUpTo(units, needs, n + 1) == Some(groups)
      else
        var g := GroupOf(units[n], units, needs, placed);
        if g.None? then GroupsUpTo(units, needs, n + 1).None?
        else
          && GroupsUpTo(units, needs, n + 1) == Some(groups + [g.value])
          && UnitIds(Flatten(groups + [g.value])) == placed + UnitIds(g.value)
  {
    var placed := UnitIds(Flatten(groups));
    var g := GroupOf(units[n], units, needs, placed);
    hide UnitIds, GroupOf, Flatten;
    if units[n].id !in placed && g.Some? {
      FlattenAppend(groups, g.value);
      UnitIdsJoin(Flatten(groups), g.value);
    }
  }

  method GroupUnits(units: seq<Unit>, needs: Requirements) returns (r: Option<seq<seq<Unit>>>)
    ensures r == GroupsUpTo(units, needs, |units|)
  {
    assert GroupsUpTo(units, needs, 0) == Some([]) && UnitIds(Flatten([])) == {};
    hide GroupsUpTo, UnitIds, GroupOf, Flatten;
    var byId := IndexUnits(units);
    var used: set<UnitId> := {};
    var groups: seq<seq<Unit>> := [];
    for n := 0 to |units|
      invariant GroupsUpTo(units, needs, n) == Some(groups)
      invariant used == UnitIds(Flatten(groups))
    {
      OneUnitMore(units, needs, groups, n);
      if units[n].id !in used {
        var group, placed := OpenGroup(units[n], units, byId, needs, used);
        if group.None? {
          NoGroupsLater(units, needs, n + 1, |units|);
          return None;
        }
        groups := groups + [group.value];
        used := placed;
      }
    }
    return Some(groups);
  }

  lemma {:induction false} NoGroupsLater(units: seq<Unit>, needs: Requirements, k: nat, n: nat)
    requires k <= n <= |units| && GroupsUpTo(units, needs, k).None?
    ensures GroupsUpTo(units, needs, n).None?
  {
    if k < n { NoGroupsLater(units, needs, k, n - 1); }
  }

  lemma {:induction false} NoPackingLater(gs: seq<seq<Unit>>, maximum: int, k: nat)
    requires k <= |gs| && Packed(gs[..k], maximum).None?
    ensures Packed(gs, maximum).None?
  {
    if k == |gs| {
      assert gs[..k] == gs;
    } else {
      assert gs[..|gs| - 1][..k] == gs[..k];
      NoPackingLater(gs[..|gs| - 1], maximum, k);
    }
  }

  lemma OneGroupPacked(gs: seq<seq<Unit>>, maximum: int, i: nat, bs: seq<seq<Unit>>)
    requires i < |gs| && Packed(gs[..i], maximum) == Some(bs)
    ensures var g := gs[i];
      Packed(gs[..i + 1], maximum) ==
        if |g| > maximum then None
        else if |bs| == 0 || |bs[|bs| - 1]| + |g| > maximum then Some(bs + [g])
        else Some(bs[|bs| - 1 := bs[|bs| - 1] + g])
  {
    assert gs[..i + 1][..i] == gs[..i];
  }

  method BatchUnits(units: seq<Unit>, needs: Requirements, maximum: int) returns (r: Option<seq<seq<Unit>>>)
    ensures r == Batches(units, needs, maximum)
  {
    var groups := GroupUnits(units, needs);
    if groups.None? { return None; }
    var gs := groups.value;
    assert Packed(gs[..0], maximum) == Some([]);
    hide Packed;
    var result: seq<seq<Unit>> := [];
    for i := 0 to |gs|
      invariant Packed(gs[..i], maximum) == Some(result)
    {
      OneGroupPacked(gs, maximum, i, result);
      var group := gs[i];
      if |group| > maximum {
        NoPackingLater(gs, maximum, i + 1);
        return None;
      }
      ghost var before := result;
      if |result| == 0 || |result[|result| - 1]| + |group| > maximum {
        result := result + [[]];
        assert [] + group == group;
        assert result[|before| := group] == before + [group];
      }
      result := result[|result| - 1 := result[|result| - 1] + group];
    }
    assert gs[..|gs|] == gs;
    return Some(result);
  }

  // ----- The batches partition the units -----

  lemma GroupShape(u: Unit, units: seq<Unit>, needs: Requirements, placed: set<UnitId>)
    requires u in units && u.id !in placed
    requires GroupOf(u, units, needs, placed).Some?
    ensures var g := GroupOf(u, units, needs, placed).value;
      1 <= |g| <= 2 && g[0] == u && DistinctUnits(g) && UnitIds(g) !! placed &&
      forall x :: x in g ==> x in units
  {
    var g := GroupOf(u, units, needs, placed).value;
    if |g| == 2 { assert g == [u, g[1]]; }
  }

  predicate GroupSizes(gs: seq<seq<Unit>>) {
    forall i :: 0 <= i < |gs| ==> 1 <= |gs[i]| <= 2
  }

  lemma {:induction false} GroupsPartition(units: seq<Unit>, needs: Requirements, n: nat)
    requires n <= |units| && GroupsUpTo(units, needs, n).Some?
    ensures var gs := GroupsUpTo(units, needs, n).value;
      && GroupSizes(gs)
      && DistinctUnits(Flatten(gs))
      && UnitIds(units[..n]) <= UnitIds(Flatten(gs))
      && forall x :: x in Flatten(gs) ==> x in units
  {
    if n > 0 {
      GroupsPartition(units, needs, n - 1);
      var before := GroupsUpTo(units, needs, n - 1).value;
      var placed := UnitIds(Flatten(before));
      var u := units[n - 1];
      assert units[..n] == units[..n - 1] + [u];
      UnitIdsJoin(units[..n - 1], [u]);
      if u.id !in placed {
        GroupShape(u, units, needs, placed);
        var g := GroupOf(u, units, needs, placed).value;
        FlattenAppend(before, g);
        UnitIdsJoin(Flatten(before), g);
        DistinctJoin(Flatten(before), g);
        assert g[0].id in UnitIds(g);
        assert forall x :: x in Flatten(before) + g ==> x in Flatten(before) || x in g;
      }
      assert forall id :: id in UnitIds([u]) ==> id == u.id;
    }
  }

  predicate BatchSizes(bs: seq<seq<Unit>>, maximum: int) {
    && (forall i :: 0 <= i < |bs| ==> 1 <= |bs[i]| <= maximum)
    && (forall i :: 0 <= i < |bs| - 1 ==> |bs[i]| >= maximum - 1)
  }

  lemma {:induction false} PackedSizes(gs: seq<seq<Unit>>, maximum: int)
    requires GroupSizes(gs) && Packed(gs, maximum).Some?
    ensures BatchSizes(Packed(gs, maximum).value, maximum)
    ensures |gs| > 0 ==> |Packed(gs, maximum).value| > 0
  {
    if |gs| > 0 { PackedSizes(gs[..|gs| - 1], maximum); }
  }

  lemma FlattenExtendLast(bs: seq<seq<Unit>>, g: seq<Unit>)
    requires |bs| > 0
    ensures Flatten(bs[|bs| - 1 := bs[|bs| - 1] + g]) == Flatten(bs) + g
  {
    var init, last := bs[..|bs| - 1], bs[|bs| - 1];
    var extended := bs[|bs| - 1 := last + g];
    assert extended[..|extended| - 1] == init;
    assert Flatten(init) + last + g == Flatten(init) + (last + g);
  }

  lemma {:induction false} PackedContents(gs: seq<seq<Unit>>, maximum: int)
    requires Packed(gs, maximum).Some?
    ensures Flatten(Packed(gs, maximum).value) == Flatten(gs)
  {
    if |gs| > 0 {
      PackedContents(gs[..|gs| - 1], maximum);
      var bs, g := Packed(gs[..|gs| - 1], maximum).value, gs[|gs| - 1];
      FlattenAppend(bs, g);
      if |bs| > 0 { FlattenExtendLast(bs, g); }
    }
  }

  /** Planning that succeeds puts every unit into exactly one batch, keeps every
      batch within the limit and leaves no batch but the last more than one unit
      short of it. */
  lemma BatchesPartition(units: seq<Unit>, needs: Requirements, maximum: int)
    requires Batches(units, needs, maximum).Some?
    ensures var bs := Batches(units, needs, maximum).value;
      && BatchSizes(bs, maximum)
      && DistinctUnits(Flatten(bs))
      && UnitIds(Flatten(bs)) == UnitIds(units)
      && (forall x :: x in Flatten(bs) ==> x in units)
      && (|units| > 0 ==> |bs| > 0)
  {
    var gs := GroupsUpTo(units, needs, |units|).value;
    GroupsPartition(units, needs, |units|);
    PackedSizes(gs, maximum);
    PackedContents(gs, maximum);
    assert units[..|units|] == units;
    var flat := Flatten(gs);
    forall id | id in UnitIds(flat) ensures id in UnitIds(units) {
      var i :| 0 <= i < |flat| && flat[i].id == id;
      assert flat[i] in units;
    }
    if |units| > 0 { assert units[0].id in UnitIds(flat); }
  }

  /** Distinct units are a permutation of what the batches hold. */
  lemma BatchesPermute(units: seq<Unit>, needs: Requirements, maximum: int)
    requires DistinctUnits(units) && Batches(units, needs, maximum).Some?
    ensures multiset(Flatten(Batches(units, needs, maximum).value)) == multiset(units)
  {
    BatchesPartition(units, needs, maximum);
    var flat := Flatten(Batches(units, needs, maximum).value);
    forall x ensures multiset(flat)[x] == multiset(units)[x] {
      UnitCount(flat, x);
      UnitCount(units, x);
      if x in units {
        var i :| 0 <= i < |units| && units[i] == x;
        assert x.id in UnitIds(flat);
        var j :| 0 <= j < |flat| && flat[j].id == x.id;
        assert flat[j] in units;
        var k :| 0 <= k < |units| && units[k] == flat[j];
        assert k == i;
      }
    }
  }

  lemma UnitCount(us: seq<Unit>, x: Unit)
    requires DistinctUnits(us)
    ensures multiset(us)[x] == if x in us then 1 else 0
  {
    if x in us {
      var k :| 0 <= k < |us| && us[k] == x;
      assert us == us[..k] + [x] + us[k + 1..];
      assert x !in us[..k] && x !in us[k + 1..];
    }
  }

  lemma {:induction false} FlattenLength(bs: seq<seq<Unit>>, maximum: int)
    requires BatchSizes(bs, maximum) && |bs| > 0
    ensures |Flatten(bs)| >= (|bs| - 1) * (maximum - 1) + 1
    ensures |Flatten(bs)| >= |bs|
  {
    var front := bs[..|bs| - 1];
    if |front| > 0 {
      FlattenLength(front, maximum);
      FlattenFull(front, maximum);
    }
  }

  lemma {:induction false} FlattenFull(bs: seq<seq<Unit>>, maximum: int)
    requires forall i :: 0 <= i < |bs| ==> |bs[i]| >= maximum - 1
    ensures |Flatten(bs)| >= |bs| * (maximum - 1)
  {
    if |bs| > 0 { FlattenFull(bs[..|bs| - 1], maximum); }
  }

  /** How many sessions a plan can need: the number of batches is bounded by the
      number of units and the limit. */
  lemma BatchCountBound(units: seq<Unit>, needs: Requirements, maximum: int)
    requires DistinctUnits(units) && |units| > 0 && Batches(units, needs, maximum).Some?
    ensures var k := |Batches(units, needs, maximum).value|;
      (k - 1) * (maximum - 1) < |units| && k <= |units|
  {
    BatchesPartition(units, needs, maximum);
    BatchesPermute(units, needs, maximum);
    var bs := Batches(units, needs, maximum).value;
    assert |multiset(Flatten(bs))| == |multiset(units)|;
    FlattenLength(bs, maximum);
  }

  /** Planning fails only for an absent enclosing unit or a limit below two. */
  lemma PlanningSucceeds(units: seq<Unit>, needs: Requirements, maximum: int)
    requires maximum >= 2
    requires forall u :: u in units && EnclosingOf(u, needs) != "" ==> EnclosingOf(u, needs) in UnitIds(units)
    ensures Batches(units, needs, maximum).Some?
  {
    GroupingSucceeds(units, needs, |units|);
    GroupsPartition(units, needs, |units|);
    PackingSucceeds(GroupsUpTo(units, needs, |units|).value, maximum);
  }

  lemma {:induction false} GroupingSucceeds(units: seq<Unit>, needs: Requirements, n: nat)
    requires n <= |units|
    requires forall u :: u in units && EnclosingOf(u, needs) != "" ==> EnclosingOf(u, needs) in UnitIds(units)
    ensures GroupsUpTo(units, needs, n).Some?
  {
    if n > 0 {
      GroupingSucceeds(units, needs, n - 1);
      assert units[n - 1] in units;
    }
  }

  lemma {:induction false} PackingSucceeds(gs: seq<seq<Unit>>, maximum: int)
    requires maximum >= 2 && GroupSizes(gs)
    ensures Packed(gs, maximum).Some?
  {
    if |gs| > 0 { PackingSucceeds(gs[..|gs| - 1], maximum); }
  }

  // ----- Batches that lack an enclosing unit -----

  /** Every unit with a requirement is there, and so is the other unit it is enclosed by. */
  predicate Whole(a: Assignment) {
    forall u :: u in a.requirements ==>
      u in a.units && (var e := a.requirements[u].enclosing; e == "" || (e != u && e in a.units))
  }

  lemma Enumerate<T>(s: set<T>) returns (q: seq<T>)
    ensures forall x :: x in q <==> x in s
    ensures DistinctSeq(q)
    decreases |s|
  {
    if s == {} { return []; }
    var x :| x in s;
    q := Enumerate(s - {x});
    q := q + [x];
  }

  lemma {:induction false} CoverageOf(units: seq<UnitId>) returns (coverage: seq<UnitCoverage>)
    requires DistinctSeq(units)
    ensures OneEntryEach(coverage, SetOf(units))
    ensures forall c :: c in coverage ==> c.outcome == ExcludedByPolicy
  {
    coverage := seq(|units|, i requires 0 <= i < |units| => UnitCoverage(units[i], ExcludedByPolicy));
    forall u | u in SetOf(units) ensures exists i :: 0 <= i < |coverage| && coverage[i].unit == u {
      var i :| 0 <= i < |units| && units[i] == u;
      assert coverage[i].unit == u;
    }
  }

  // What a reassessment of this finding may cite.
  predicate Citable(ref: SourceId, id: FindingId, a: Assignment) {
    ref in a.sources && (a.sources[ref].finding == "" || a.sources[ref].finding == id)
  }

  /** Every finding can be reassessed: there is a unit to name and a source to cite. */
  predicate Reassessable(a: Assignment) {
    forall id :: id in a.findings ==> a.units != {} && exists ref :: ref in a.sources && Citable(ref, id, a)
  }

  predicate PlainReassessment(r: Reassessment, a: Assignment) {
    && r.finding in a.findings && r.assessment == Unknown
    && |r.units| == 1 && r.units[0] in a.units
    && |r.evidence| == 1 && |r.evidence[0].refs| == 1 && Citable(r.evidence[0].refs[0], r.finding, a)
  }

  lemma ReassessOne(id: FindingId, a: Assignment) returns (r: Reassessment)
    requires id in a.findings && Reassessable(a)
    ensures r.finding == id && PlainReassessment(r, a)
  {
    var u :| u in a.units;
    var ref :| ref in a.sources && Citable(ref, id, a);
    r := Reassessment(id, Unknown, "text", [Evidence("text", [ref], [])], [u]);
  }

  lemma {:induction false} ReassessedOf(ids: seq<FindingId>, a: Assignment) returns (rs: seq<Reassessment>)
    requires DistinctSeq(ids) && Reassessable(a) && forall id :: id in ids ==> id in a.findings
    ensures |rs| == |ids| && forall i :: 0 <= i < |rs| ==> rs[i].finding == ids[i] && PlainReassessment(rs[i], a)
  {
    hide PlainReassessment, Reassessable;
    if |ids| == 0 { return []; }
    rs := ReassessedOf(ids[..|ids| - 1], a);
    var r := ReassessOne(ids[|ids| - 1], a);
    rs := rs + [r];
  }

  lemma PlainIsValid(r: Reassessment, a: Assignment, ts: seq<Transition>)
    requires PlainReassessment(r, a)
    ensures ValidReassessment(r, a) && AddressedIsAcknowledged(r, a.findings[r.finding], ts)
    ensures CitedWell(r.evidence) && ListedWell(r.units)
  {
  }

  lemma ExcludedIsValid(sub: Submission, a: Assignment)
    requires Whole(a) && OneEntryEach(sub.coverage, a.units)
    requires forall c :: c in sub.coverage ==> c.outcome == ExcludedByPolicy
    ensures ValidCoverage(sub, a)
  {
    hide OneEntryEach;
  }

  lemma CoveredSubmission(a: Assignment, completion: Completion, rs: seq<Reassessment>) returns (sub: Submission)
    requires Whole(a)
    ensures sub.completion == completion && sub.findings == [] && sub.reassessments == rs && sub.transitions == []
    ensures ValidCoverage(sub, a)
  {
    var units := Enumerate(a.units);
    var coverage := CoverageOf(units);
    assert SetOf(units) == a.units;
    sub := Submission(NeedsReview, completion, [], rs, [], coverage);
    ExcludedIsValid(sub, a);
  }

  lemma WholeAdmits(a: Assignment)
    requires Whole(a)
    ensures exists sub :: ValidSubmission(sub, a) && SchemaOk(sub)
  {
    var sub := CoveredSubmission(a, Partial, []);
    assert ValidSubmission(sub, a) && SchemaOk(sub);
  }

  lemma WholeAdmitsComplete(a: Assignment)
    requires Whole(a) && Reassessable(a)
    ensures exists sub :: ValidSubmission(sub, a) && SchemaOk(sub) && sub.completion == Complete
  {
    hide Whole, Reassessable, ValidCoverage, PlainReassessment;
    var ids := Enumerate(a.findings.Keys);
    var rs := ReassessedOf(ids, a);
    var sub := CoveredSubmission(a, Complete, rs);
    forall r | r in sub.reassessments
      ensures ValidReassessment(r, a) && AddressedIsAcknowledged(r, a.findings[r.finding], [])
      ensures CitedWell(r.evidence) && ListedWell(r.units)
    {
      var i :| 0 <= i < |rs| && rs[i] == r;
      PlainIsValid(rs[i], a, []);
    }
    forall id | id in a.findings ensures FindReassessment(rs, id).Some? {
      var i :| 0 <= i < |ids| && ids[i] == id;
      assert rs[i] in rs;
    }
    hide ValidReassessment, AddressedIsAcknowledged, CitedWell, ListedWell;
    assert ValidSubmission(sub, a) && SchemaOk(sub);
  }

  lemma ValidIsWhole(sub: Submission, a: Assignment)
    requires ValidSubmission(sub, a)
    ensures Whole(a)
  {
    forall u | u in a.requirements
      ensures u in a.units && (var e := a.requirements[u].enclosing; e == "" || (e != u && e in a.units))
    {
      assert RequirementMet(u, a.requirements[u], sub.coverage, a.units);
    }
  }

  lemma CompleteReassesses(sub: Submission, a: Assignment)
    requires ValidSubmission(sub, a) && SchemaOk(sub) && sub.completion == Complete
    ensures Reassessable(a)
  {
    forall id | id in a.findings ensures a.units != {} && exists ref :: ref in a.sources && Citable(ref, id, a) {
      var r := FindReassessment(sub.reassessments, id).value;
      assert ValidReassessment(r, a) && r.units[0] in r.units;
      var e := r.evidence[0];
      assert e in r.evidence && e.refs[0] in e.refs;
      assert Citable(e.refs[0], id, a);
    }
  }

  /** A batch admits a valid submission exactly when it holds the enclosing unit of each
      of its units, and a complete one exactly when, besides, there is something to
      cite for each of its findings. */
  lemma AdmitsExactly(a: Assignment)
    ensures (exists sub :: ValidSubmission(sub, a) && SchemaOk(sub)) <==> Whole(a)
    ensures (exists sub :: ValidSubmission(sub, a) && SchemaOk(sub) && sub.completion == Complete) <==>
      Whole(a) && Reassessable(a)
  {
    hide Whole, Reassessable;
    if Whole(a) { WholeAdmits(a); }
    if Whole(a) && Reassessable(a) { WholeAdmitsComplete(a); }
    hide ValidSubmission, SchemaOk;
    if sub :| ValidSubmission(sub, a) && SchemaOk(sub) { ValidIsWhole(sub, a); }
    if sub :| ValidSubmission(sub, a) && SchemaOk(sub) && sub.completion == Complete { CompleteReassesses(sub, a); }
  }

  // The same for a batch of a plan.
  // ----- A unit and what encloses it -----

  // Every placed unit is one of the first `n` or encloses one of them.
  lemma {:induction false} PlacedFrom(units: seq<Unit>, needs: Requirements, n: nat, id: UnitId)
    requires n <= |units| && GroupsUpTo(units, needs, n).Some?
    requires id in UnitIds(Flatten(GroupsUpTo(units, needs, n).value))
    ensures exists j :: 0 <= j < n && (units[j].id == id || EnclosingOf(units[j], needs) == id)
  {
    if n > 0 {
      var before, u := GroupsUpTo(units, needs, n - 1).value, units[n - 1];
      var placed := UnitIds(Flatten(before));
      if id in placed {
        PlacedFrom(units, needs, n - 1, id);
      } else {
        var g := GroupOf(u, units, needs, placed).value;
        FlattenAppend(before, g);
        UnitIdsJoin(Flatten(before), g);
        assert id in UnitIds(g);
        assert units[n - 1].id == id || EnclosingOf(units[n - 1], needs) == id;
      }
    }
  }

  lemma {:induction false} GroupsStay(units: seq<Unit>, needs: Requirements, k: nat, n: nat)
    requires k <= n <= |units| && GroupsUpTo(units, needs, n).Some?
    ensures GroupsUpTo(units, needs, k).Some?
    ensures GroupsUpTo(units, needs, k).value <= GroupsUpTo(units, needs, n).value
  {
    if k < n { GroupsStay(units, needs, k, n - 1); }
  }

  lemma {:induction false} PackedTogether(gs: seq<seq<Unit>>, maximum: int, k: nat) returns (b: nat)
    requires k < |gs| && Packed(gs, maximum).Some?
    ensures b < |Packed(gs, maximum).value|
    ensures forall x :: x in gs[k] ==> x in Packed(gs, maximum).value[b]
  {
    var bs := Packed(gs, maximum).value;
    if k == |gs| - 1 {
      b := |bs| - 1;
    } else {
      b := PackedTogether(gs[..|gs| - 1], maximum, k);
      assert gs[..|gs| - 1][k] == gs[k];
    }
  }

  // Nothing before unit `i` is this unit or is enclosed by it.
  predicate Untouched(id: UnitId, units: seq<Unit>, needs: Requirements, i: nat)
    requires i <= |units|
  {
    forall j :: 0 <= j < i ==> units[j].id != id && EnclosingOf(units[j], needs) != id
  }

  /** A unit is reviewed in one batch with the unit that encloses it, unless either was
      placed because of an earlier unit. */
  lemma PairStaysTogether(units: seq<Unit>, needs: Requirements, maximum: int, i: nat) returns (b: nat)
    requires i < |units| && Batches(units, needs, maximum).Some?
    requires EnclosingOf(units[i], needs) != "" && EnclosingOf(units[i], needs) != units[i].id
    requires Untouched(units[i].id, units, needs, i) && Untouched(EnclosingOf(units[i], needs), units, needs, i)
    ensures b < |Batches(units, needs, maximum).value|
    ensures units[i].id in UnitIds(Batches(units, needs, maximum).value[b])
    ensures EnclosingOf(units[i], needs) in UnitIds(Batches(units, needs, maximum).value[b])
  {
    hide GroupsUpTo, Packed, EnclosingOf, Untouched;
    var gs := GroupsUpTo(units, needs, |units|).value;
    var k := PairIsGrouped(units, needs, i);
    b := PackedTogether(gs, maximum, k);
    assert gs[k][0] in gs[k] && gs[k][1] in gs[k];
  }

  lemma PairIsGrouped(units: seq<Unit>, needs: Requirements, i: nat) returns (k: nat)
    requires i < |units| && GroupsUpTo(units, needs, |units|).Some?
    requires EnclosingOf(units[i], needs) != "" && EnclosingOf(units[i], needs) != units[i].id
    requires Untouched(units[i].id, units, needs, i) && Untouched(EnclosingOf(units[i], needs), units, needs, i)
    ensures k < |GroupsUpTo(units, needs, |units|).value|
    ensures var g := GroupsUpTo(units, needs, |units|).value[k];
      |g| == 2 && g[0].id == units[i].id && g[1].id == EnclosingOf(units[i], needs)
  {
    hide EnclosingOf, FindUnit;
    GroupsStay(units, needs, i, |units|);
    GroupsStay(units, needs, i + 1, |units|);
    var before := GroupsUpTo(units, needs, i).value;
    k := |before|;
    NotPlaced(units, needs, i, units[i].id);
    NotPlaced(units, needs, i, EnclosingOf(units[i], needs));
    assert GroupsUpTo(units, needs, |units|).value[k] == GroupsUpTo(units, needs, i + 1).value[k];
  }

  lemma NotPlaced(units: seq<Unit>, needs: Requirements, i: nat, id: UnitId)
    requires i <= |units| && GroupsUpTo(units, needs, i).Some? && Untouched(id, units, needs, i)
    ensures id !in UnitIds(Flatten(GroupsUpTo(units, needs, i).value))
  {
    hide GroupsUpTo, Flatten;
    if id in UnitIds(Flatten(GroupsUpTo(units, needs, i).value)) { PlacedFrom(units, needs, i, id); }
  }

  predicate WholeBatch(batch: seq<Unit>, needs: Requirements) {
    forall u :: u in UnitIds(batch) && u in needs && needs[u].enclosing != "" ==>
      needs[u].enclosing != u && needs[u].enclosing in UnitIds(batch)
  }

  lemma PackedBeside(gs: seq<seq<Unit>>, bs: seq<seq<Unit>>, g: seq<Unit>, maximum: int)
    requires Packed(gs, maximum) == Some(bs) && |g| <= maximum
    requires |bs| == 0 || |bs[|bs| - 1]| + |g| > maximum
    ensures Packed(gs + [g], maximum) == Some(bs + [g])
  {
    assert (gs + [g])[..|gs|] == gs;
  }

  lemma PackedOnto(gs: seq<seq<Unit>>, front: seq<seq<Unit>>, last: seq<Unit>, g: seq<Unit>, maximum: int)
    requires Packed(gs, maximum) == Some(front + [last]) && |last| + |g| <= maximum
    ensures Packed(gs + [g], maximum) == Some(front + [last + g])
  {
    assert (gs + [g])[..|gs|] == gs;
    assert (front + [last])[|front| := last + g] == front + [last + g];
  }

  // Groups of one unit each.
  function Singles(us: seq<Unit>): seq<seq<Unit>> {
    if |us| == 0 then [] else Singles(us[..|us| - 1]) + [[us[|us| - 1]]]
  }

  lemma {:induction false} FlattenSingles(us: seq<Unit>)
    ensures Flatten(Singles(us)) == us
  {
    if |us| > 0 {
      FlattenSingles(us[..|us| - 1]);
      FlattenAppend(Singles(us[..|us| - 1]), [us[|us| - 1]]);
      assert us == us[..|us| - 1] + [us[|us| - 1]];
    }
  }

  // Nothing is to be enclosed by a unit that is not placed yet.
  predicate EnclosedEarlier(us: seq<Unit>, needs: Requirements) {
    forall k :: 0 <= k < |us| && EnclosingOf(us[k], needs) != "" ==> EnclosingOf(us[k], needs) in UnitIds(us[..k])
  }

  lemma {:induction false} GroupedSingly(us: seq<Unit>, needs: Requirements, n: nat)
    requires n <= |us| && DistinctUnits(us) && EnclosedEarlier(us, needs)
    ensures GroupsUpTo(us, needs, n) == Some(Singles(us[..n]))
  {
    if n > 0 {
      var front := us[..n - 1];
      GroupedSingly(us, needs, n - 1);
      OpensAlone(us, needs, n - 1);
      FlattenSingles(front);
      assert Singles(us[..n]) == Singles(front) + [[us[n - 1]]] by { assert us[..n][..n - 1] == front; }
      hide *;
      OneUnitMore(us, needs, Singles(front), n - 1);
    }
  }

  lemma OpensAlone(us: seq<Unit>, needs: Requirements, n: nat)
    requires n < |us| && DistinctUnits(us) && EnclosedEarlier(us, needs)
    ensures us[n].id !in UnitIds(us[..n])
    ensures GroupOf(us[n], us, needs, UnitIds(us[..n])) == Some([us[n]])
  {
    assert us == us[..n] + us[n..];
    UnitIdsJoin(us[..n], us[n..]);
  }

  lemma SinglesOfThree(a: Unit, b: Unit, c: Unit)
    ensures Singles([a, b, c]) == [[a], [b], [c]]
  {
    assert [a, b, c][..2] == [a, b] && [a, b][..1] == [a] && [a][..0] == [];
    assert Singles([a]) == [[a]];
    assert Singles([a, b]) == [[a]] + [[b]] == [[a], [b]];
    assert Singles([a, b, c]) == [[a], [b]] + [[c]];
  }

  /** Three units, one to a session. */
  lemma OneEach(a: Unit, b: Unit, c: Unit)
    requires DistinctUnits([a, b, c])
    ensures Batches([a, b, c], map[], 1) == Some([[a], [b], [c]])
  {
    GroupedSingly([a, b, c], map[], 3);
    assert [a, b, c][..3] == [a, b, c];
    SinglesOfThree(a, b, c);
    assert Packed([], 1) == Some([]);
    hide Packed, GroupsUpTo;
    PackedBeside([], [], [a], 1);
    assert [] + [[a]] == [[a]];
    PackedBeside([[a]], [[a]], [b], 1);
    assert [[a]] + [[b]] == [[a], [b]];
    PackedBeside([[a], [b]], [[a], [b]], [c], 1);
    assert [[a], [b]] + [[c]] == [[a], [b], [c]];
  }

  lemma TwoAndTwo(a: Unit, b: Unit, c: Unit, d: Unit)
    ensures Packed(Singles([a, b, c, d]), 2) == Some([[a, b], [c, d]])
  {
    SinglesOfThree(a, b, c);
    assert [a, b, c, d][..3] == [a, b, c];
    assert Singles([a, b, c, d]) == [[a], [b], [c]] + [[d]];
    assert Packed([], 2) == Some([]);
    hide Packed, Singles;
    PackedBeside([], [], [a], 2);
    assert [] + [[a]] == [[a]];
    PackedOnto([[a]], [], [a], [b], 2);
    assert [a] + [b] == [a, b];
    assert [[a]] + [[b]] == [[a], [b]] && [] + [[a, b]] == [[a, b]];
    PackedBeside([[a], [b]], [[a, b]], [c], 2);
    assert [[a], [b]] + [[c]] == [[a], [b], [c]] && [[a, b]] + [[c]] == [[a, b], [c]];
    PackedOnto([[a], [b], [c]], [[a, b]], [c], [d], 2);
    assert [c] + [d] == [c, d] && [[a, b]] + [[c, d]] == [[a, b], [c, d]];
  }

  /** The planner does split a unit from its enclosing unit. Of three units in order, two
      to a session, the last needs the first; the host adds its integration unit; and
      the one that is needed has been packed with the second before the last is reached. */
  lemma PlannerSplits(a: Unit, b: Unit, c: Unit, needs: Requirements, findings: seq<Finding>, fingerprint: string)
    requires |fingerprint| >= 19 && a.id != "" && Less(a.id, b.id) && Less(b.id, c.id)
    requires c.id in needs && needs[c.id].enclosing == a.id && a.id !in needs && b.id !in needs
    requires var host := HostUnit("integration:", fingerprint, "cross-batch integration");
      host.id !in {a.id, b.id, c.id} && host.id !in needs
    ensures var host := HostUnit("integration:", fingerprint, "cross-batch integration");
      Batches(PlannedUnits([a, b, c], findings, 2, fingerprint), needs, 2) == Some([[a, b], [c, host]])
      && !WholeBatch([c, host], needs)
  {
    var host := HostUnit("integration:", fingerprint, "cross-batch integration");
    var us := [a, b, c, host];
    LessTransitive(a.id, b.id, c.id);
    assert SortedByName([a, b, c], UnitName);
    SortByNameIdentity([a, b, c], UnitName);
    assert PlannedUnits([a, b, c], findings, 2, fingerprint) == us;
    SplitPlan(a, b, c, host, needs);
  }

  lemma SplitPlan(a: Unit, b: Unit, c: Unit, host: Unit, needs: Requirements)
    requires a.id != "" && Less(a.id, b.id) && Less(b.id, c.id) && host.id !in {a.id, b.id, c.id}
    requires c.id in needs && needs[c.id].enclosing == a.id && a.id !in needs && b.id !in needs && host.id !in needs
    ensures Batches([a, b, c, host], needs, 2) == Some([[a, b], [c, host]])
    ensures !WholeBatch([c, host], needs)
  {
    var us := [a, b, c, host];
    LessTransitive(a.id, b.id, c.id);
    LessAsymmetric(a.id, b.id);
    LessAsymmetric(b.id, c.id);
    LessAsymmetric(a.id, c.id);
    assert us[..2][0] == a && a.id in UnitIds(us[..2]);
    GroupedSingly(us, needs, 4);
    assert us[..4] == us;
    TwoAndTwo(a, b, c, host);
    assert [c, host][0].id == c.id && forall id :: id in UnitIds([c, host]) ==> id == c.id || id == host.id;
  }

  lemma {:induction false} IdsAtMost(us: seq<Unit>)
    ensures |UnitIds(us)| <= |us|
    ensures DistinctUnits(us) ==> |UnitIds(us)| == |us|
  {
    if |us| > 0 {
      var front, last := us[..|us| - 1], us[|us| - 1];
      assert us == front + [last];
      IdsAtMost(front);
      UnitIdsJoin(front, [last]);
      UnitIdsOfOne(last);
    }
  }

  lemma {:induction false} PacksIntoOne(gs: seq<seq<Unit>>, maximum: int)
    requires Packed(gs, maximum).Some? && |Flatten(gs)| <= maximum
    ensures |Packed(gs, maximum).value| <= 1
  {
    if |gs| > 0 {
      PacksIntoOne(gs[..|gs| - 1], maximum);
      PackedContents(gs[..|gs| - 1], maximum);
      var bs := Packed(gs[..|gs| - 1], maximum).value;
      if |bs| == 1 { assert Flatten(bs) == Flatten(bs[..0]) + bs[0]; }
    }
  }

  /** Units that fit into one session are never split: their batch is whole exactly
      when the units themselves are. */
  lemma OneSessionIsWhole(units: seq<Unit>, needs: Requirements, maximum: int)
    requires Batches(units, needs, maximum).Some? && |units| <= maximum
    ensures var bs := Batches(units, needs, maximum).value;
      |bs| <= 1 && ((forall b :: b in bs ==> WholeBatch(b, needs)) <==> WholeBatch(units, needs))
  {
    var gs, bs := GroupsUpTo(units, needs, |units|).value, Batches(units, needs, maximum).value;
    BatchesPartition(units, needs, maximum);
    PackedContents(gs, maximum);
    IdsAtMost(Flatten(bs));
    IdsAtMost(units);
    PacksIntoOne(gs, maximum);
    if |bs| == 1 {
      assert Flatten(bs) == Flatten(bs[..0]) + bs[0] == bs[0];
      assert bs[0] in bs && forall b :: b in bs ==> b == bs[0];
      assert UnitIds(bs[0]) == UnitIds(units);
    }
  }

  // ----- Prior findings follow the first of their units that is planned -----

  function BatchOfUnit(bs: seq<seq<Unit>>, id: UnitId): (r: Option<nat>)
    ensures r.Some? ==> r.value < |bs| && id in UnitIds(bs[r.value])
    ensures r.None? ==> id !in UnitIds(Flatten(bs))
  {
    if |bs| == 0 then None
    else if id in UnitIds(bs[|bs| - 1]) then Some(|bs| - 1)
    else
      UnitIdsJoin(Flatten(bs[..|bs| - 1]), bs[|bs| - 1]);
      BatchOfUnit(bs[..|bs| - 1], id)
  }

  function AssignedBatch(units: seq<UnitId>, bs: seq<seq<Unit>>): (i: nat)
    ensures |bs| > 0 ==> i < |bs|
  {
    if |units| == 0 then 0
    else
      var first := BatchOfUnit(bs, units[0]);
      if first.Some? then first.value else AssignedBatch(units[1..], bs)
  }

  predicate NonePlanned(units: seq<UnitId>, bs: seq<seq<Unit>>) {
    forall j, b :: 0 <= j < |units| && 0 <= b < |bs| ==> units[j] !in UnitIds(bs[b])
  }

  /** Batch `k` holds the first of these units that any batch holds, or no batch holds
      any of them and it is the first batch. */
  predicate FollowsFirst(units: seq<UnitId>, bs: seq<seq<Unit>>, k: nat) {
    || (k == 0 && NonePlanned(units, bs))
    || (k < |bs| && exists j :: 0 <= j < |units| && units[j] in UnitIds(bs[k]) && NonePlanned(units[..j], bs))
  }

  lemma {:induction false} AbsentFromAll(bs: seq<seq<Unit>>, id: UnitId)
    ensures BatchOfUnit(bs, id).None? <==> forall b :: 0 <= b < |bs| ==> id !in UnitIds(bs[b])
  {
    if |bs| > 0 {
      var front := bs[..|bs| - 1];
      AbsentFromAll(front, id);
      if BatchOfUnit(bs, id).None? {
        forall b | 0 <= b < |bs| ensures id !in UnitIds(bs[b]) {
          if b < |front| { assert id !in UnitIds(front[b]); }
        }
      }
    }
  }

  lemma {:induction false} AssignedFollowsFirst(units: seq<UnitId>, bs: seq<seq<Unit>>)
    ensures FollowsFirst(units, bs, AssignedBatch(units, bs))
  {
    if |units| > 0 {
      var k, tail := AssignedBatch(units, bs), units[1..];
      AbsentFromAll(bs, units[0]);
      if BatchOfUnit(bs, units[0]).Some? {
        assert units[0] in UnitIds(bs[k]) && NonePlanned(units[..0], bs);
      } else {
        AssignedFollowsFirst(tail, bs);
        if NonePlanned(tail, bs) {
          forall j, b | 0 <= j < |units| && 0 <= b < |bs| ensures units[j] !in UnitIds(bs[b]) {
            if j > 0 { assert units[j] == tail[j - 1]; }
          }
        } else {
          var j :| 0 <= j < |tail| && tail[j] in UnitIds(bs[k]) && NonePlanned(tail[..j], bs);
          var upTo := units[..j + 1];
          forall i, b | 0 <= i < |upTo| && 0 <= b < |bs| ensures upTo[i] !in UnitIds(bs[b]) {
            if i > 0 { assert upTo[i] == tail[..j][i - 1]; }
          }
          assert units[j + 1] == tail[j];
        }
      }
    }
  }

  // A unit lies in one batch at most.
  lemma {:induction false} OneBatchEach(bs: seq<seq<Unit>>, id: UnitId, a: nat, b: nat)
    requires DistinctUnits(Flatten(bs)) && a < b < |bs|
    requires id in UnitIds(bs[a])
    ensures id !in UnitIds(bs[b])
  {
    var front := bs[..|bs| - 1];
    var flat, last := Flatten(front), bs[|bs| - 1];
    assert forall k :: 0 <= k < |flat| ==> Flatten(bs)[k] == flat[k];
    if b < |bs| - 1 {
      OneBatchEach(front, id, a, b);
    } else {
      InFlat(front, id, a);
      var i :| 0 <= i < |flat| && flat[i].id == id;
      forall k | 0 <= k < |last| ensures last[k].id != id {
        assert Flatten(bs)[|flat| + k] == last[k] && Flatten(bs)[i] == flat[i];
      }
    }
  }

  lemma {:induction false} InFlat(bs: seq<seq<Unit>>, id: UnitId, a: nat)
    requires a < |bs| && id in UnitIds(bs[a])
    ensures id in UnitIds(Flatten(bs))
  {
    var front := bs[..|bs| - 1];
    UnitIdsJoin(Flatten(front), bs[|bs| - 1]);
    if a < |front| { InFlat(front, id, a); }
  }

  lemma UnplannedBefore(units: seq<UnitId>, bs: seq<seq<Unit>>, i: nat, j: nat)
    requires i < |units| && j < |units|
    ensures i < j && NonePlanned(units[..j], bs) ==> forall b :: 0 <= b < |bs| ==> units[i] !in UnitIds(bs[b])
  {
    if i < j { assert units[..j][i] == units[i]; }
  }

  /** Over batches that share no unit, only one batch does. */
  lemma FollowsOne(units: seq<UnitId>, bs: seq<seq<Unit>>, a: nat, b: nat)
    requires DistinctUnits(Flatten(bs)) && FollowsFirst(units, bs, a) && FollowsFirst(units, bs, b)
    ensures a == b
  {
    if !NonePlanned(units, bs) {
      var i :| 0 <= i < |units| && units[i] in UnitIds(bs[a]) && NonePlanned(units[..i], bs);
      var j :| 0 <= j < |units| && units[j] in UnitIds(bs[b]) && NonePlanned(units[..j], bs);
      UnplannedBefore(units, bs, i, j);
      UnplannedBefore(units, bs, j, i);
      assert i == j;
      if a < b { OneBatchEach(bs, units[i], a, b); }
      if b < a { OneBatchEach(bs, units[i], b, a); }
    } else {
      NoneFollowed(units, bs, a);
      NoneFollowed(units, bs, b);
    }
  }

  lemma NoneFollowed(units: seq<UnitId>, bs: seq<seq<Unit>>, k: nat)
    requires NonePlanned(units, bs) && FollowsFirst(units, bs, k)
    ensures k == 0
  {
  }

  ghost predicate HoldsBatches(unitBatch: map<UnitId, nat>, bs: seq<seq<Unit>>) {
    forall id :: BatchOfUnit(bs, id) == if id in unitBatch then Some(unitBatch[id]) else None
  }

  // `m` is `before` with the units in `us` moved to batch `b`.
  ghost predicate Overlaid(m: map<UnitId, nat>, before: map<UnitId, nat>, us: seq<Unit>, b: nat) {
    && (forall id :: id in m <==> id in before || id in UnitIds(us))
    && (forall id :: id in m ==> m[id] == if id in UnitIds(us) then b else before[id])
  }

  lemma OverlaidOneMore(m: map<UnitId, nat>, before: map<UnitId, nat>, us: seq<Unit>, k: nat, b: nat)
    requires k < |us| && Overlaid(m, before, us[..k], b)
    ensures Overlaid(m[us[k].id := b], before, us[..k + 1], b)
  {
    assert us[..k + 1] == us[..k] + [us[k]];
    UnitIdsJoin(us[..k], [us[k]]);
    assert [us[k]][0].id in UnitIds([us[k]]);
    assert forall id :: id in UnitIds([us[k]]) ==> id == us[k].id;
  }

  method IndexBatches(bs: seq<seq<Unit>>) returns (unitBatch: map<UnitId, nat>)
    ensures HoldsBatches(unitBatch, bs)
  {
    unitBatch := map[];
    for b := 0 to |bs|
      invariant HoldsBatches(unitBatch, bs[..b])
    {
      assert bs[..b + 1][..b] == bs[..b];
      ghost var before := unitBatch;
      var batch := bs[b];
      for k := 0 to |batch|
        invariant Overlaid(unitBatch, before, batch[..k], b)
      {
        OverlaidOneMore(unitBatch, before, batch, k, b);
        unitBatch := unitBatch[batch[k].id := b];
      }
      assert batch[..|batch|] == batch;
    }
    assert bs[..|bs|] == bs;
  }

  method FirstPlanned(units: seq<UnitId>, bs: seq<seq<Unit>>, unitBatch: map<UnitId, nat>) returns (chosen: nat)
    requires HoldsBatches(unitBatch, bs)
    ensures chosen == AssignedBatch(units, bs)
  {
    for j := 0 to |units|
      invariant AssignedBatch(units, bs) == AssignedBatch(units[j..], bs)
    {
      assert units[j..][1..] == units[j + 1..];
      assert BatchOfUnit(bs, units[j]) == if units[j] in unitBatch then Some(unitBatch[units[j]]) else None;
      if units[j] in unitBatch { return unitBatch[units[j]]; }
    }
    return 0;
  }

  method AssignFindingBatches(findings: seq<Finding>, bs: seq<seq<Unit>>) returns (result: map<FindingId, nat>)
    requires UniqueIds(findings)
    ensures result.Keys == FindingIds(findings)
    ensures forall i :: 0 <= i < |findings| ==> result[findings[i].id] == AssignedBatch(findings[i].units, bs)
    ensures forall i :: 0 <= i < |findings| ==> FollowsFirst(findings[i].units, bs, result[findings[i].id])
  {
    forall i | 0 <= i < |findings|
      ensures FollowsFirst(findings[i].units, bs, AssignedBatch(findings[i].units, bs))
    {
      AssignedFollowsFirst(findings[i].units, bs);
    }
    hide FollowsFirst, AssignedBatch;
    var unitBatch := IndexBatches(bs);
    result := map[];
    for i := 0 to |findings|
      invariant result.Keys == set k | 0 <= k < i :: findings[k].id
      invariant forall k :: 0 <= k < i ==> result[findings[k].id] == AssignedBatch(findings[k].units, bs)
    {
      var chosen := FirstPlanned(findings[i].units, bs, unitBatch);
      result := result[findings[i].id := chosen];
    }
  }

  // ----- The units of a run -----

  function UnitName(u: Unit): string {
    u.id
  }

  // Sixteen digits of the input fingerprint name the units the host adds.
  function HostUnit(prefix: string, fingerprint: string, symbol: string): Unit
    requires |fingerprint| >= 19
  {
    Unit(prefix + fingerprint[3..19], symbol)
  }

  /** What a run plans: the inventory's units in order of id, a unit that exists only
      to reassess findings when there is nothing else, and a final integration unit
      when one session cannot hold them all. */
  function PlannedUnits(inventory: seq<Unit>, findings: seq<Finding>, maximum: int, fingerprint: string): seq<Unit>
    requires |fingerprint| >= 19
  {
    var units := if |inventory| == 0 && |findings| != 0
      then [HostUnit("reassessment:", fingerprint, "prior finding reassessment")] else inventory;
    var sorted := SortByName(units, UnitName);
    if |sorted| > maximum then sorted + [HostUnit("integration:", fingerprint, "cross-batch integration")] else sorted
  }

  lemma HostSorted(u: Unit)
    ensures SortByName([u], UnitName) == [u]
  {
    assert [u][..0] == [];
  }

  /** A run plans its inventory, each unit once and in order of id; instead, when that is empty
      and there are findings, one unit of the host; and behind them another one of the host
      exactly when they are more than one session holds. */
  lemma PlannedExactly(inventory: seq<Unit>, findings: seq<Finding>, maximum: int, fingerprint: string)
    requires |fingerprint| >= 19
    ensures var us := PlannedUnits(inventory, findings, maximum, fingerprint);
      var n := if |inventory| == 0 && |findings| > 0 then 1 else |inventory|;
      && |us| == n + (if n > maximum then 1 else 0)
      && (|inventory| > 0 || |findings| == 0 ==> multiset(us[..n]) == multiset(inventory))
      && (|inventory| == 0 && |findings| > 0 ==> us[0].id == "reassessment:" + fingerprint[3..19])
      && (n > maximum ==> us[n].id == "integration:" + fingerprint[3..19])
      && (DistinctUnits(inventory) ==> forall i, j :: 0 <= i < j < n ==> Less(us[i].id, us[j].id))
  {
    var host := HostUnit("reassessment:", fingerprint, "prior finding reassessment");
    var us := PlannedUnits(inventory, findings, maximum, fingerprint);
    HostSorted(host);
    SortPermutes(inventory, UnitName);
    var sorted := SortByName(inventory, UnitName);
    assert |multiset(sorted)| == |multiset(inventory)|;
    if |inventory| > 0 || |findings| == 0 { assert us[..|inventory|] == sorted; }
    if DistinctUnits(inventory) {
      SortSortsByName(inventory, UnitName);
      forall i, j | 0 <= i < j < |sorted| ensures Less(sorted[i].id, sorted[j].id) {
        assert Less(UnitName(sorted[i]), UnitName(sorted[j]));
      }
    }
  }

  /** Every inventory unit is planned, and prior findings always find a batch. */
  lemma PlanCoversInventory(inventory: seq<Unit>, findings: seq<Finding>, maximum: int, fingerprint: string)
    requires |fingerprint| >= 19
    ensures var us := PlannedUnits(inventory, findings, maximum, fingerprint);
      UnitIds(inventory) <= UnitIds(us) && (|findings| > 0 ==> |us| > 0)
  {
    var us := PlannedUnits(inventory, findings, maximum, fingerprint);
    SortPermutes(inventory, UnitName);
    SortPermutes([HostUnit("reassessment:", fingerprint, "prior finding reassessment")], UnitName);
    var sorted := SortByName(inventory, UnitName);
    forall id | id in UnitIds(inventory) ensures id in UnitIds(us) {
      var i :| 0 <= i < |inventory| && inventory[i].id == id;
      assert inventory[i] in multiset(sorted);
      var j :| 0 <= j < |sorted| && sorted[j] == inventory[i];
      assert us[j].id == id;
    }
    if |inventory| > 0 { assert |multiset(sorted)| == |multiset(inventory)|; }
    else if |findings| > 0 {
      var one := [HostUnit("reassessment:", fingerprint, "prior finding reassessment")];
      assert |multiset(SortByName(one, UnitName))| == |multiset(one)| == 1;
    }
  }
}
