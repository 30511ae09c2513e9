/** Byte-wise string order and sorting by a key, the two library facilities the
    modelled code leans on. */
module Ordering {

  /** Lexicographic order; a proper prefix comes first. */
  predicate Less(a: string, b: string) {
    |b| > 0 && (|a| == 0 || a[0] < b[0] || (a[0] == b[0] && Less(a[1..], b[1..])))
  }

  lemma {:induction false} LessAsymmetric(a: string, b: string)
    requires Less(a, b)
    ensures !Less(b, a) && a != b
  {
    if |a| > 0 && a[0] == b[0] { LessAsymmetric(a[1..], b[1..]); }
  }

  lemma {:induction false} LessTransitive(a: string, b: string, c: string)
    requires Less(a, b) && Less(b, c)
    ensures Less(a, c)
  {
    if |a| > 0 && a[0] == b[0] && b[0] == c[0] { LessTransitive(a[1..], b[1..], c[1..]); }
  }

  lemma {:induction false} LessTotal(a: string, b: string)
    ensures Less(a, b) || a == b || Less(b, a)
  {
    if |a| > 0 && |b| > 0 && a[0] == b[0] {
      LessTotal(a[1..], b[1..]);
      if a[1..] == b[1..] { assert a == [a[0]] + a[1..] && b == [b[0]] + b[1..]; }
    }
  }

  // ----- Sorting by an integer rank -----

  function InsertBy<T>(s: seq<T>, x: T, rank: T -> int): seq<T> {
    if |s| == 0 || rank(s[|s| - 1]) <= rank(x) then s + [x]
    else InsertBy(s[..|s| - 1], x, rank) + [s[|s| - 1]]
  }

  function SortBy<T>(s: seq<T>, rank: T -> int): seq<T> {
    if |s| == 0 then [] else InsertBy(SortBy(s[..|s| - 1], rank), s[|s| - 1], rank)
  }

  predicate Ascending<T>(s: seq<T>, rank: T -> int) {
    forall i, j :: 0 <= i < j < |s| ==> rank(s[i]) <= rank(s[j])
  }

  lemma {:induction false} InsertSorts<T>(s: seq<T>, x: T, rank: T -> int)
    requires Ascending(s, rank)
    ensures multiset(InsertBy(s, x, rank)) == multiset(s) + multiset{x}
    ensures Ascending(InsertBy(s, x, rank), rank)
    ensures |InsertBy(s, x, rank)| == |s| + 1
  {
    if |s| > 0 && rank(x) < rank(s[|s| - 1]) {
      var front, last := s[..|s| - 1], s[|s| - 1];
      assert s == front + [last];
      InsertSorts(front, x, rank);
      var r := InsertBy(front, x, rank);
      forall i | 0 <= i < |r| ensures rank(r[i]) <= rank(last) {
        assert r[i] in multiset(r);
        assert r[i] in front || r[i] == x;
      }
    }
  }

  /** Sorting permutes and orders. */
  lemma {:induction false} SortSorts<T>(s: seq<T>, rank: T -> int)
    ensures multiset(SortBy(s, rank)) == multiset(s)
    ensures Ascending(SortBy(s, rank), rank)
    ensures |SortBy(s, rank)| == |s|
  {
    if |s| > 0 {
      SortSorts(s[..|s| - 1], rank);
      InsertSorts(SortBy(s[..|s| - 1], rank), s[|s| - 1], rank);
      assert s == s[..|s| - 1] + [s[|s| - 1]];
    }
  }

  lemma SortStep<T>(s: seq<T>, rank: T -> int)
    ensures SortBy(s, rank) == if |s| == 0 then [] else InsertBy(SortBy(s[..|s| - 1], rank), s[|s| - 1], rank)
  {
  }

  /** What is in order already stays as it is. */
  lemma {:induction false} SortIdentity<T>(s: seq<T>, rank: T -> int)
    requires Ascending(s, rank)
    ensures SortBy(s, rank) == s
  {
    hide SortBy;
    if |s| == 0 {
      SortStep(s, rank);
    } else {
      var front, last := s[..|s| - 1], s[|s| - 1];
      SortIdentity(front, rank);
      SortStep(s, rank);
      assert s == front + [last];
      assert |front| > 0 ==> rank(front[|front| - 1]) <= rank(last);
    }
  }

  // ----- Sorting by a name -----

  predicate SortedByName<T>(s: seq<T>, name: T -> string) {
    forall i, j :: 0 <= i < j < |s| ==> Less(name(s[i]), name(s[j]))
  }

  function InsertByName<T>(s: seq<T>, x: T, name: T -> string): seq<T> {
    if |s| == 0 || Less(name(x), name(s[0])) then [x] + s else [s[0]] + InsertByName(s[1..], x, name)
  }

  function SortByName<T>(s: seq<T>, name: T -> string): seq<T> {
    if |s| == 0 then [] else InsertByName(SortByName(s[..|s| - 1], name), s[|s| - 1], name)
  }

  lemma {:induction false} InsertPermutes<T>(s: seq<T>, x: T, name: T -> string)
    ensures multiset(InsertByName(s, x, name)) == multiset(s) + multiset{x}
  {
    if |s| > 0 && !Less(name(x), name(s[0])) {
      InsertPermutes(s[1..], x, name);
      assert s == [s[0]] + s[1..];
    }
  }

  lemma {:induction false} SortPermutes<T>(s: seq<T>, name: T -> string)
    ensures multiset(SortByName(s, name)) == multiset(s)
  {
    if |s| > 0 {
      SortPermutes(s[..|s| - 1], name);
      InsertPermutes(SortByName(s[..|s| - 1], name), s[|s| - 1], name);
      assert s == s[..|s| - 1] + [s[|s| - 1]];
    }
  }

  lemma {:induction false} InsertSortsByName<T>(s: seq<T>, x: T, name: T -> string)
    requires SortedByName(s, name) && forall y :: y in s ==> name(y) != name(x)
    ensures SortedByName(InsertByName(s, x, name), name)
    ensures forall y :: y in InsertByName(s, x, name) <==> y in s || y == x
  {
    if |s| > 0 {
      assert s == [s[0]] + s[1..];
      if Less(name(x), name(s[0])) {
        forall i | 0 < i < |s| ensures Less(name(x), name(s[i])) { LessTransitive(name(x), name(s[0]), name(s[i])); }
      } else {
        InsertSortsByName(s[1..], x, name);
        InsertPermutes(s[1..], x, name);
        LessTotal(name(x), name(s[0]));
        var rest := InsertByName(s[1..], x, name);
        assert s[0] in s && name(s[0]) != name(x);
        forall i | 0 <= i < |rest| ensures Less(name(s[0]), name(rest[i])) {
          var y := rest[i];
          assert y in multiset(rest);
          if y != x {
            assert y in s[1..];
            var k :| 1 <= k < |s| && s[k] == y;
            assert Less(name(s[0]), name(s[k]));
          } else {
            assert Less(name(s[0]), name(x));
          }
        }
      }
    }
  }

  /** Distinct names end up in strict order. */
  lemma {:induction false} SortSortsByName<T>(s: seq<T>, name: T -> string)
    requires forall i, j :: 0 <= i < j < |s| ==> name(s[i]) != name(s[j])
    ensures SortedByName(SortByName(s, name), name)
  {
    if |s| > 0 {
      var front, last := s[..|s| - 1], s[|s| - 1];
      SortSortsByName(front, name);
      SortPermutes(front, name);
      var sorted := SortByName(front, name);
      forall y | y in sorted ensures name(y) != name(last) {
        assert y in multiset(sorted) && y in front;
        var i :| 0 <= i < |front| && front[i] == y;
        assert s[i] == y;
      }
      InsertSortsByName(sorted, last, name);
    }
  }

  lemma {:induction false} InsertsLast<T>(s: seq<T>, x: T, name: T -> string)
    requires forall y :: y in s ==> Less(name(y), name(x))
    ensures InsertByName(s, x, name) == s + [x]
  {
    if |s| > 0 {
      assert s == [s[0]] + s[1..] && s[0] in s;
      LessAsymmetric(name(s[0]), name(x));
      InsertsLast(s[1..], x, name);
    }
  }

  /** What is in order already stays as it is. */
  lemma {:induction false} SortByNameIdentity<T>(s: seq<T>, name: T -> string)
    requires SortedByName(s, name)
    ensures SortByName(s, name) == s
  {
    if |s| > 0 {
      var front, last := s[..|s| - 1], s[|s| - 1];
      assert s == front + [last];
      SortByNameIdentity(front, name);
      forall y | y in front ensures Less(name(y), name(last)) {
        var i :| 0 <= i < |front| && front[i] == y;
        assert s[i] == y;
      }
      InsertsLast(front, last, name);
    }
  }
}
