/** Appending what is not there yet, by key: how the coordinator removes duplicate
    coverage and joins the telemetry of several sessions
    (dedupeCoverage, mergeTelemetry and appendUnique, internal/coordinator/coordinator.go). */
module Merging {
  import opened Domain

  function KeysOf<T, K>(items: seq<T>, key: T -> K): set<K> {
    set i | 0 <= i < |items| :: key(items[i])
  }

  lemma KeysJoin<T, K>(a: seq<T>, b: seq<T>, key: T -> K)
    ensures KeysOf(a + b, key) == KeysOf(a, key) + KeysOf(b, key)
  {
    var c := a + b;
    forall k | k in KeysOf(a, key) ensures k in KeysOf(c, key) {
      var i :| 0 <= i < |a| && key(a[i]) == k;
      assert key(c[i]) == k;
    }
    forall k | k in KeysOf(b, key) ensures k in KeysOf(c, key) {
      var i :| 0 <= i < |b| && key(b[i]) == k;
      assert key(c[|a| + i]) == k;
    }
  }

  function AppendAbsent<T, K(==)>(items: seq<T>, additions: seq<T>, key: T -> K): seq<T> {
    if |additions| == 0 then items
    else
      var before := AppendAbsent(items, additions[..|additions| - 1], key);
      var last := additions[|additions| - 1];
      if key(last) in KeysOf(before, key) then before else before + [last]
  }

  method AppendUnique<T, K(==)>(items: seq<T>, additions: seq<T>, key: T -> K) returns (result: seq<T>)
    ensures result == AppendAbsent(items, additions, key)
  {
    result := items;
    var seen := KeysOf(items, key);
    for i := 0 to |additions|
      invariant result == AppendAbsent(items, additions[..i], key)
      invariant seen == KeysOf(result, key)
    {
      assert additions[..i + 1][..i] == additions[..i];
      var x := additions[i];
      if key(x) !in seen {
        KeysJoin(result, [x], key);
        assert key([x][0]) in KeysOf([x], key);
        seen := seen + {key(x)};
        result := result + [x];
      }
    }
    assert additions[..|additions|] == additions;
  }

  // ----- What appending by key means -----

  predicate DistinctKeys<T, K(==)>(items: seq<T>, key: T -> K) {
    forall i, j :: 0 <= i < j < |items| ==> key(items[i]) != key(items[j])
  }

  /** The first entry under a key. */
  function First<T, K(==)>(items: seq<T>, key: T -> K, k: K): (r: Option<T>)
    ensures r.Some? ==> r.value in items && key(r.value) == k
    ensures r.None? <==> k !in KeysOf(items, key)
  {
    if |items| == 0 then None
    else if key(items[0]) == k then Some(items[0])
    else
      assert forall i :: 0 < i < |items| ==> items[1..][i - 1] == items[i];
      First(items[1..], key, k)
  }

  lemma {:induction false} FirstOfJoin<T, K>(a: seq<T>, b: seq<T>, key: T -> K, k: K)
    ensures First(a + b, key, k) == if k in KeysOf(a, key) then First(a, key, k) else First(b, key, k)
  {
    if |a| == 0 {
      assert a + b == b;
    } else {
      assert (a + b)[1..] == a[1..] + b;
      FirstOfJoin(a[1..], b, key, k);
      assert a == [a[0]] + a[1..];
      KeysJoin([a[0]], a[1..], key);
      assert forall x :: x in KeysOf([a[0]], key) ==> x == key(a[0]);
      assert key([a[0]][0]) in KeysOf([a[0]], key);
    }
  }

  /** Nothing is lost and nothing repeated: the result starts with what was there,
      holds every key of both, each once when the start held each once, and under
      every key the entry that came first. */
  lemma {:induction false} AppendAbsentKeepsFirst<T, K>(items: seq<T>, additions: seq<T>, key: T -> K)
    ensures items <= AppendAbsent(items, additions, key)
    ensures KeysOf(AppendAbsent(items, additions, key), key) == KeysOf(items, key) + KeysOf(additions, key)
    ensures DistinctKeys(items, key) ==> DistinctKeys(AppendAbsent(items, additions, key), key)
    ensures forall k :: First(AppendAbsent(items, additions, key), key, k) == First(items + additions, key, k)
  {
    if |additions| == 0 {
      assert items + additions == items;
    } else {
      var front, last := additions[..|additions| - 1], additions[|additions| - 1];
      AppendAbsentKeepsFirst(items, front, key);
      var before := AppendAbsent(items, front, key);
      assert additions == front + [last];
      KeysJoin(front, [last], key);
      KeysJoin(before, [last], key);
      KeysJoin(items, front, key);
      OneKey(last, key);
      assert items + additions == (items + front) + [last];
      forall k ensures First(AppendAbsent(items, additions, key), key, k) == First(items + additions, key, k) {
        FirstOfJoin(before, [last], key, k);
        FirstOfJoin(items + front, [last], key, k);
      }
    }
  }

  lemma OneKey<T, K>(x: T, key: T -> K)
    ensures KeysOf([x], key) == {key(x)}
  {
    assert key([x][0]) in KeysOf([x], key);
  }

  lemma {:induction false} DistinctFirst<T, K>(items: seq<T>, key: T -> K, x: T)
    requires DistinctKeys(items, key) && x in items
    ensures First(items, key, key(x)) == Some(x)
  {
    if items[0] != x {
      assert items == [items[0]] + items[1..];
      var i :| 0 < i < |items| && items[i] == x;
      DistinctFirst(items[1..], key, x);
    }
  }

  // ----- Coverage -----

  function UnitOf(c: UnitCoverage): UnitId {
    c.unit
  }

  function Deduped(items: seq<UnitCoverage>): seq<UnitCoverage> {
    AppendAbsent([], items, UnitOf)
  }

  method DedupeCoverage(items: seq<UnitCoverage>) returns (result: seq<UnitCoverage>)
    ensures result == Deduped(items)
  {
    result := AppendUnique([], items, UnitOf);
  }

  // ----- Telemetry -----

  function ModelKey(m: ModelObservation): (string, string) {
    (m.session, m.model)
  }

  function ToolKey(t: ToolExecution): (string, string, bool) {
    (t.session, t.tool, t.succeeded)
  }

  function UsageKey(u: UsageEvent): (string, string) {
    (u.session, u.id)
  }

  function Same(s: string): string {
    s
  }

  function Joined(left: Telemetry, right: Telemetry): Telemetry {
    Telemetry(
      AppendAbsent(left.requested, right.requested, Same),
      AppendAbsent(left.observed, right.observed, ModelKey),
      AppendAbsent(left.tools, right.tools, ToolKey),
      AppendAbsent(left.usage, right.usage, UsageKey),
      left.usageComplete && right.usageComplete)
  }

  method MergeTelemetry(left: Telemetry, right: Telemetry) returns (result: Telemetry)
    ensures result == Joined(left, right)
  {
    var requested := AppendUnique(left.requested, right.requested, Same);
    var observed := AppendUnique(left.observed, right.observed, ModelKey);
    var tools := AppendUnique(left.tools, right.tools, ToolKey);
    var usage := AppendUnique(left.usage, right.usage, UsageKey);
    result := Telemetry(requested, observed, tools, usage, left.usageComplete && right.usageComplete);
  }

  // No usage event is counted twice in a run's telemetry.
  predicate CountsOnce(t: Telemetry) {
    DistinctKeys(t.usage, UsageKey)
  }

  lemma JoinedCountsOnce(left: Telemetry, right: Telemetry)
    requires CountsOnce(left)
    ensures CountsOnce(Joined(left, right))
    ensures KeysOf(Joined(left, right).usage, UsageKey) == KeysOf(left.usage, UsageKey) + KeysOf(right.usage, UsageKey)
    ensures left.usage <= Joined(left, right).usage
  {
    AppendAbsentKeepsFirst(left.usage, right.usage, UsageKey);
  }

  lemma AppendedMembers<T, K>(items: seq<T>, additions: seq<T>, key: T -> K)
    requires forall x, y :: key(x) == key(y) ==> x == y
    ensures forall x :: x in AppendAbsent(items, additions, key) <==> x in items || x in additions
  {
    AppendAbsentKeepsFirst(items, additions, key);
    var all := AppendAbsent(items, additions, key);
    forall x ensures x in all <==> x in items || x in additions {
      MemberKey(all, key, x);
      MemberKey(items, key, x);
      MemberKey(additions, key, x);
    }
  }

  lemma MemberKey<T, K>(items: seq<T>, key: T -> K, x: T)
    requires forall x, y :: key(x) == key(y) ==> x == y
    ensures x in items <==> key(x) in KeysOf(items, key)
  {
    if x in items {
      var i :| 0 <= i < |items| && items[i] == x;
      assert key(items[i]) in KeysOf(items, key);
    }
  }

  /** Joining records drops no observation and invents none, and usage is complete only
      if it is on both sides. */
  lemma JoinedMeans(left: Telemetry, right: Telemetry)
    ensures Joined(left, right).usageComplete <==> left.usageComplete && right.usageComplete
    ensures forall x :: x in Joined(left, right).requested <==> x in left.requested || x in right.requested
    ensures forall x :: x in Joined(left, right).observed <==> x in left.observed || x in right.observed
    ensures forall x :: x in Joined(left, right).tools <==> x in left.tools || x in right.tools
  {
    AppendedMembers(left.requested, right.requested, Same);
    AppendedMembers(left.observed, right.observed, ModelKey);
    AppendedMembers(left.tools, right.tools, ToolKey);
  }
}
