/**
 * Grouping rows by a key in first-appearance order, which stands both for an
 * SQL `GROUP BY` whose output order the query leaves open and for the
 * `rows.reduce((acc, item) => { acc[key].push(item) ... }, {})` idiom the report
 * pages and the Excel export use. It comes with the reference definition
 * `Members` (the rows with that key, in order) and the facts the reports need:
 * keys are distinct, each group is exactly its members, and sums over the
 * groups add up to the sum over the rows.
 */
module Grouping {
  import opened Wrappers
  import opened Sorting

  /** One group: its key and its rows, in the order they came in. */
  datatype Group<K, T> = Group(key: K, items: seq<T>)

  predicate KeysDistinct<K(==), T>(gs: seq<Group<K, T>>) {
    forall i, j :: 0 <= i < j < |gs| ==> gs[i].key != gs[j].key
  }

  predicate HasKey<K(==), T>(gs: seq<Group<K, T>>, k: K) {
    exists i :: 0 <= i < |gs| && gs[i].key == k
  }

  /** The rows of `xs` whose key is `k`, in their order in `xs`. */
  function Members<T, K(==)>(xs: seq<T>, key: T -> K, k: K): (r: seq<T>)
    ensures |r| <= |xs|
    ensures forall i :: 0 <= i < |r| ==> key(r[i]) == k
  {
    if xs == [] then []
    else Members(xs[..|xs| - 1], key, k) + (if key(xs[|xs| - 1]) == k then [xs[|xs| - 1]] else [])
  }

  /** The items of the first group with key `k`. */
  function FindGroup<K(==), T>(gs: seq<Group<K, T>>, k: K): (r: Option<seq<T>>)
    ensures r.Some? <==> HasKey(gs, k)
  {
    if gs == [] then None
    else if gs[0].key == k then Some(gs[0].items)
    else
      assert HasKey(gs, k) ==> HasKey(gs[1..], k) by {
        if HasKey(gs, k) {
          var i :| 0 <= i < |gs| && gs[i].key == k;
          assert gs[1..][i - 1].key == k;
        }
      }
      assert HasKey(gs[1..], k) ==> HasKey(gs, k) by {
        if HasKey(gs[1..], k) {
          var i :| 0 <= i < |gs[1..]| && gs[1..][i].key == k;
          assert gs[i + 1].key == k;
        }
      }
      FindGroup(gs[1..], k)
  }

  /** Files `x` under `k`: at the end of the group with that key, or in a new group after all the others. */
  function AddToGroup<K(==), T>(gs: seq<Group<K, T>>, k: K, x: T): seq<Group<K, T>> {
    if gs == [] then [Group(k, [x])]
    else if gs[0].key == k then [Group(k, gs[0].items + [x])] + gs[1..]
    else [gs[0]] + AddToGroup(gs[1..], k, x)
  }

  /** The rows of `xs` grouped by `key`: groups in the order their first row appears, rows in their own order. */
  function GroupBy<T, K(==)>(xs: seq<T>, key: T -> K): seq<Group<K, T>> {
    if xs == [] then []
    else AddToGroup(GroupBy(xs[..|xs| - 1], key), key(xs[|xs| - 1]), xs[|xs| - 1])
  }

  /** The sum of `val` over every row of every group. */
  function GroupsSum<K, T>(gs: seq<Group<K, T>>, val: T -> int): int {
    if gs == [] then 0 else SumBy(gs[0].items, val) + GroupsSum(gs[1..], val)
  }

  /** The number of rows over all groups. */
  function GroupsSize<K, T>(gs: seq<Group<K, T>>): nat {
    if gs == [] then 0 else |gs[0].items| + GroupsSize(gs[1..])
  }

  // ---------------------------------------------------------------------------
  // Filing one row

  lemma {:induction false} AddToGroupFind<K, T>(gs: seq<Group<K, T>>, k: K, x: T, k2: K)
    ensures FindGroup(AddToGroup(gs, k, x), k2) ==
      if k2 != k then FindGroup(gs, k2)
      else match FindGroup(gs, k) case None => Some([x]) case Some(s) => Some(s + [x])
  {
    if gs != [] && gs[0].key != k {
      AddToGroupFind(gs[1..], k, x, k2);
    }
  }

  lemma {:induction false} AddToGroupKeys<K, T>(gs: seq<Group<K, T>>, k: K, x: T, k2: K)
    ensures HasKey(AddToGroup(gs, k, x), k2) <==> k2 == k || HasKey(gs, k2)
  {
    AddToGroupFind(gs, k, x, k2);
  }

  lemma {:induction false} AddToGroupDistinct<K, T>(gs: seq<Group<K, T>>, k: K, x: T)
    requires KeysDistinct(gs)
    ensures KeysDistinct(AddToGroup(gs, k, x))
  {
    if gs != [] && gs[0].key != k {
      var rest := AddToGroup(gs[1..], k, x);
      AddToGroupDistinct(gs[1..], k, x);
      forall j | 0 <= j < |rest|
        ensures rest[j].key != gs[0].key
      {
        AddToGroupKeys(gs[1..], k, x, rest[j].key);
        if rest[j].key != k {
          var i :| 0 <= i < |gs[1..]| && gs[1..][i].key == rest[j].key;
          assert gs[i + 1].key == rest[j].key;
        }
      }
      var r := AddToGroup(gs, k, x);
      assert r == [gs[0]] + rest;
      forall i, j | 0 <= i < j < |r|
        ensures r[i].key != r[j].key
      {
        if i > 0 {
          assert r[i] == rest[i - 1] && r[j] == rest[j - 1];
        } else {
          assert r[j] == rest[j - 1];
        }
      }
    } else if gs != [] {
      var r := AddToGroup(gs, k, x);
      forall i, j | 0 <= i < j < |r|
        ensures r[i].key != r[j].key
      {
        assert r[j] == gs[j];
        if i > 0 {
          assert r[i] == gs[i];
        }
      }
    }
  }

  lemma {:induction false} AddToGroupSum<K, T>(gs: seq<Group<K, T>>, k: K, x: T, val: T -> int)
    ensures GroupsSum(AddToGroup(gs, k, x), val) == GroupsSum(gs, val) + val(x)
    ensures GroupsSize(AddToGroup(gs, k, x)) == GroupsSize(gs) + 1
  {
    if gs == [] {
      assert SumBy([x], val) == SumBy([], val) + val(x);
    } else if gs[0].key == k {
      var r := AddToGroup(gs, k, x);
      assert r[1..] == gs[1..];
      SumByAppend(gs[0].items, [x], val);
      assert SumBy([x], val) == SumBy([], val) + val(x);
    } else {
      var r := AddToGroup(gs, k, x);
      AddToGroupSum(gs[1..], k, x, val);
      assert r[0] == gs[0] && r[1..] == AddToGroup(gs[1..], k, x);
    }
  }

  // ---------------------------------------------------------------------------
  // What grouping computes

  /**
   * The grouping keeps keys distinct, and the group under `k` is exactly the
   * rows with key `k` in their order, present only when there is at least one.
   */
  lemma {:induction false} GroupByFind<T, K>(xs: seq<T>, key: T -> K, k: K)
    ensures KeysDistinct(GroupBy(xs, key))
    ensures FindGroup(GroupBy(xs, key), k) == if Members(xs, key, k) == [] then None else Some(Members(xs, key, k))
  {
    if xs != [] {
      var init := xs[..|xs| - 1];
      var last := xs[|xs| - 1];
      GroupByFind(init, key, k);
      GroupByFind(init, key, key(last));
      AddToGroupDistinct(GroupBy(init, key), key(last), last);
      AddToGroupFind(GroupBy(init, key), key(last), last, k);
      assert GroupBy(xs, key) == AddToGroup(GroupBy(init, key), key(last), last);
      if key(last) == k {
        assert Members(xs, key, k) == Members(init, key, k) + [last];
        if Members(init, key, k) == [] {
          assert Members(init, key, k) + [last] == [last];
        }
      } else {
        assert Members(xs, key, k) == Members(init, key, k) + [];
        assert Members(init, key, k) + [] == Members(init, key, k);
      }
    }
  }

  /** Every group of a grouping with distinct keys is the one `FindGroup` returns for its key. */
  lemma {:induction false} FindGroupAt<K, T>(gs: seq<Group<K, T>>, i: nat)
    requires KeysDistinct(gs) && i < |gs|
    ensures FindGroup(gs, gs[i].key) == Some(gs[i].items)
  {
    if i > 0 {
      assert gs[0].key != gs[i].key;
      assert KeysDistinct(gs[1..]) by {
        forall a, b | 0 <= a < b < |gs[1..]|
          ensures gs[1..][a].key != gs[1..][b].key
        {
          assert gs[1..][a] == gs[a + 1] && gs[1..][b] == gs[b + 1];
        }
      }
      FindGroupAt(gs[1..], i - 1);
    }
  }

  /** Each group holds exactly the rows with its key, in order, and at least one of them. */
  lemma GroupByGroups<T, K>(xs: seq<T>, key: T -> K)
    ensures forall i :: 0 <= i < |GroupBy(xs, key)| ==>
      GroupBy(xs, key)[i].items == Members(xs, key, GroupBy(xs, key)[i].key) != []
  {
    var gs := GroupBy(xs, key);
    forall i | 0 <= i < |gs|
      ensures gs[i].items == Members(xs, key, gs[i].key) != []
    {
      GroupByFind(xs, key, gs[i].key);
      FindGroupAt(gs, i);
    }
  }

  /** A row of `xs` is among the members of its key, and only rows of `xs` are. */
  lemma {:induction false} MembersIn<T, K>(xs: seq<T>, key: T -> K, k: K, x: T)
    ensures x in Members(xs, key, k) <==> x in xs && key(x) == k
  {
    if xs != [] {
      var init := xs[..|xs| - 1];
      MembersIn(init, key, k, x);
      assert xs == init + [xs[|xs| - 1]];
    }
  }

  /** There is a group for `k` exactly when some row has key `k`. */
  lemma GroupByHasKey<T, K>(xs: seq<T>, key: T -> K, k: K)
    ensures HasKey(GroupBy(xs, key), k) <==> exists i :: 0 <= i < |xs| && key(xs[i]) == k
  {
    GroupByFind(xs, key, k);
    if Members(xs, key, k) != [] {
      var m := Members(xs, key, k);
      MembersIn(xs, key, k, m[0]);
    }
    if i :| 0 <= i < |xs| && key(xs[i]) == k {
      MembersIn(xs, key, k, xs[i]);
    }
  }

  /** Grouping neither adds nor loses a row: the groups' sums add up to the sum over all rows. */
  lemma {:induction false} GroupBySum<T, K>(xs: seq<T>, key: T -> K, val: T -> int)
    ensures GroupsSum(GroupBy(xs, key), val) == SumBy(xs, val)
    ensures GroupsSize(GroupBy(xs, key)) == |xs|
  {
    if xs != [] {
      var init := xs[..|xs| - 1];
      GroupBySum(init, key, val);
      AddToGroupSum(GroupBy(init, key), key(xs[|xs| - 1]), xs[|xs| - 1], val);
    }
  }

  /** The keys of the groups, in group order. */
  function Keys<K, T>(gs: seq<Group<K, T>>): (r: seq<K>)
    ensures |r| == |gs|
    ensures forall i :: 0 <= i < |gs| ==> r[i] == gs[i].key
  {
    if gs == [] then [] else [gs[0].key] + Keys(gs[1..])
  }

  /** `SELECT DISTINCT`: the keys of a grouping are duplicate-free, and are exactly the keys some row has. */
  lemma GroupByKeys<T, K>(xs: seq<T>, key: T -> K)
    ensures Distinct(Keys(GroupBy(xs, key)))
    ensures forall k :: k in Keys(GroupBy(xs, key)) <==> exists i :: 0 <= i < |xs| && key(xs[i]) == k
  {
    var gs := GroupBy(xs, key);
    if xs != [] {
      GroupByFind(xs, key, key(xs[0]));
      assert KeysDistinct(gs);
      forall i, j | 0 <= i < j < |gs|
        ensures Keys(gs)[i] != Keys(gs)[j]
      {
        assert gs[i].key != gs[j].key;
      }
    }
    forall k
      ensures k in Keys(gs) <==> exists i :: 0 <= i < |xs| && key(xs[i]) == k
    {
      GroupByHasKey(xs, key, k);
      if k in Keys(gs) {
        var i :| 0 <= i < |gs| && Keys(gs)[i] == k;
      }
    }
  }
}
