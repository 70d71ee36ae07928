/**
 * A stable insertion sort over any total preorder, standing for the
 * `ORDER BY` clauses of the SQL queries, with the facts the report and listing
 * lemmas need: the output is ordered, is a permutation of the input, keeps
 * sums, and keeps distinct elements distinct. `WHERE` clauses and
 * `DELETE ... WHERE` are filters that keep the rowid order.
 */
module Sorting {

  ghost predicate TotalPreorder<T(!new)>(le: (T, T) -> bool) {
    && (forall a, b :: le(a, b) || le(b, a))
    && (forall a, b, c :: le(a, b) && le(b, c) ==> le(a, c))
  }

  predicate Sorted<T>(s: seq<T>, le: (T, T) -> bool) {
    forall i, j :: 0 <= i < j < |s| ==> le(s[i], s[j])
  }

  predicate Distinct<T(==)>(s: seq<T>) {
    forall i, j :: 0 <= i < j < |s| ==> s[i] != s[j]
  }

  /** Places `x` in front of the first element it sorts at or before. */
  function Insert<T>(x: T, s: seq<T>, le: (T, T) -> bool): (r: seq<T>)
    ensures |r| == |s| + 1
    ensures multiset(r) == multiset(s) + multiset{x}
  {
    if s == [] then [x]
    else if le(x, s[0]) then [x] + s
    else
      assert s == [s[0]] + s[1..];
      [s[0]] + Insert(x, s[1..], le)
  }

  function Sort<T>(s: seq<T>, le: (T, T) -> bool): (r: seq<T>)
    ensures |r| == |s|
    ensures multiset(r) == multiset(s)
  {
    if s == [] then []
    else
      assert s == [s[0]] + s[1..];
      Insert(s[0], Sort(s[1..], le), le)
  }

  lemma {:induction false} InsertSorted<T(!new)>(x: T, s: seq<T>, le: (T, T) -> bool)
    requires TotalPreorder(le) && Sorted(s, le)
    ensures Sorted(Insert(x, s, le), le)
  {
    if s != [] && !le(x, s[0]) {
      InsertSorted(x, s[1..], le);
      var r := Insert(x, s, le);
      assert r == [s[0]] + Insert(x, s[1..], le);
      forall j | 1 <= j < |r|
        ensures le(r[0], r[j])
      {
        assert r[j] in multiset(Insert(x, s[1..], le));
        assert r[j] == x || r[j] in s[1..];
      }
    }
  }

  /** The sort orders its output. */
  lemma {:induction false} SortSorted<T(!new)>(s: seq<T>, le: (T, T) -> bool)
    requires TotalPreorder(le)
    ensures Sorted(Sort(s, le), le)
  {
    if s != [] {
      SortSorted(s[1..], le);
      InsertSorted(s[0], Sort(s[1..], le), le);
    }
  }

  lemma SortMembership<T>(s: seq<T>, le: (T, T) -> bool, x: T)
    ensures x in Sort(s, le) <==> x in s
  {
    assert x in multiset(Sort(s, le)) <==> x in multiset(s);
  }

  function SumBy<T>(s: seq<T>, f: T -> int): int {
    if s == [] then 0 else SumBy(s[..|s| - 1], f) + f(s[|s| - 1])
  }

  lemma {:induction false} SumByAppend<T>(a: seq<T>, b: seq<T>, f: T -> int)
    ensures SumBy(a + b, f) == SumBy(a, f) + SumBy(b, f)
    decreases |b|
  {
    if b != [] {
      assert (a + b)[..|a + b| - 1] == a + b[..|b| - 1];
      SumByAppend(a, b[..|b| - 1], f);
    } else {
      assert a + b == a;
    }
  }

  lemma {:induction false} InsertSumBy<T>(x: T, s: seq<T>, le: (T, T) -> bool, f: T -> int)
    ensures SumBy(Insert(x, s, le), f) == f(x) + SumBy(s, f)
  {
    if s == [] {
      assert SumBy([x], f) == SumBy([], f) + f(x);
    } else if le(x, s[0]) {
      SumByAppend([x], s, f);
      assert SumBy([x], f) == SumBy([], f) + f(x);
    } else {
      InsertSumBy(x, s[1..], le, f);
      SumByAppend([s[0]], Insert(x, s[1..], le), f);
      SumByAppend([s[0]], s[1..], f);
      assert [s[0]] + s[1..] == s;
      assert SumBy([s[0]], f) == SumBy([], f) + f(s[0]);
    }
  }

  /** Sorting keeps every sum over the elements. */
  lemma {:induction false} SortSumBy<T>(s: seq<T>, le: (T, T) -> bool, f: T -> int)
    ensures SumBy(Sort(s, le), f) == SumBy(s, f)
  {
    if s != [] {
      SortSumBy(s[1..], le, f);
      InsertSumBy(s[0], Sort(s[1..], le), le, f);
      SumByAppend([s[0]], s[1..], f);
      assert [s[0]] + s[1..] == s;
      assert SumBy([s[0]], f) == SumBy([], f) + f(s[0]);
    }
  }

  lemma {:induction false} InsertDistinct<T>(x: T, s: seq<T>, le: (T, T) -> bool)
    requires Distinct(s) && x !in s
    ensures Distinct(Insert(x, s, le))
  {
    if s != [] && !le(x, s[0]) {
      InsertDistinct(x, s[1..], le);
      var r := Insert(x, s, le);
      forall j | 1 <= j < |r|
        ensures r[0] != r[j]
      {
        assert r[j] in multiset(Insert(x, s[1..], le));
      }
    }
  }

  /** Sorting a duplicate-free sequence gives a duplicate-free sequence. */
  lemma {:induction false} SortDistinct<T>(s: seq<T>, le: (T, T) -> bool)
    requires Distinct(s)
    ensures Distinct(Sort(s, le))
  {
    if s != [] {
      SortDistinct(s[1..], le);
      SortMembership(s[1..], le, s[0]);
      InsertDistinct(s[0], Sort(s[1..], le), le);
    }
  }

  // ---------------------------------------------------------------------------
  // Filtering in rowid order

  /** The elements of `s` that `keep` accepts, in their order in `s`. */
  function Filter<T(!new)>(s: seq<T>, keep: T -> bool): (r: seq<T>)
    ensures |r| <= |s|
    ensures forall x :: x in r <==> x in s && keep(x)
    ensures forall x :: multiset(r)[x] == if keep(x) then multiset(s)[x] else 0
  {
    if s == [] then []
    else
      assert s == s[..|s| - 1] + [s[|s| - 1]];
      Filter(s[..|s| - 1], keep) + (if keep(s[|s| - 1]) then [s[|s| - 1]] else [])
  }

  /** A relation that holds between every earlier and later element still holds after filtering. */
  lemma {:induction false} FilterPairwise<T(!new)>(s: seq<T>, keep: T -> bool, rel: (T, T) -> bool)
    requires forall i, j :: 0 <= i < j < |s| ==> rel(s[i], s[j])
    ensures forall i, j :: 0 <= i < j < |Filter(s, keep)| ==> rel(Filter(s, keep)[i], Filter(s, keep)[j])
  {
    if s != [] {
      var init := s[..|s| - 1];
      var last := s[|s| - 1];
      FilterPairwise(init, keep, rel);
      var ri := Filter(init, keep);
      var r := Filter(s, keep);
      if keep(last) {
        assert r == ri + [last];
        forall i, j | 0 <= i < j < |r|
          ensures rel(r[i], r[j])
        {
          if j == |ri| {
            assert r[i] == ri[i] && ri[i] in ri;
            var k :| 0 <= k < |init| && init[k] == ri[i];
            assert s[k] == r[i] && s[|s| - 1] == r[j];
            assert rel(s[k], s[|s| - 1]);
          } else {
            assert r[i] == ri[i] && r[j] == ri[j];
          }
        }
      } else {
        assert r == ri + [];
      }
    }
  }

  /** A filter that accepts everything returns its input. */
  lemma {:induction false} FilterKeepsAll<T(!new)>(s: seq<T>, keep: T -> bool)
    requires forall i :: 0 <= i < |s| ==> keep(s[i])
    ensures Filter(s, keep) == s
  {
    if s != [] {
      var init := s[..|s| - 1];
      assert init + [s[|s| - 1]] == s;
      FilterKeepsAll(init, keep);
    }
  }

  /** A filter that rejects exactly one position drops exactly one element. */
  lemma {:induction false} FilterDropsOne<T(!new)>(s: seq<T>, keep: T -> bool, k: nat)
    requires k < |s| && !keep(s[k]) && forall i :: 0 <= i < |s| && i != k ==> keep(s[i])
    ensures |Filter(s, keep)| == |s| - 1
  {
    var init := s[..|s| - 1];
    if k == |s| - 1 {
      FilterKeepsAll(init, keep);
    } else {
      FilterDropsOne(init, keep, k);
    }
  }
}
