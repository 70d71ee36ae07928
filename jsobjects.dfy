/**
 * Plain JavaScript objects used as dictionaries, the way the report page and
 * the Excel export group the report lines:
 * `rows.reduce((acc, item) => { if (!acc[k]) acc[k] = []; acc[k].push(item); return acc; }, {})`
 * followed by `Object.entries`. Two behaviours of `{}` matter there. A key
 * that names a property every object inherits (`constructor`, `toString`, ...)
 * already has a truthy value, which has no `push`, so the reduce throws. And
 * `Object.entries` lists the keys that are array indices first, in numeric
 * order, and only then the other keys in the order they were added.
 */
module JsObjects {
  import opened Wrappers
  import opened Text
  import opened Sorting
  import opened Grouping

  /** The properties of `Object.prototype`: `{}` answers them without owning them. */
  predicate IsInheritedName(k: string) {
    k in {"constructor", "__proto__", "__defineGetter__", "__defineSetter__", "__lookupGetter__",
          "__lookupSetter__", "hasOwnProperty", "isPrototypeOf", "propertyIsEnumerable",
          "toLocaleString", "toString", "valueOf"}
  }

  /** An array index: the canonical decimal text (no leading zero) of a number below 2^32 - 1. */
  predicate IsArrayIndex(k: string) {
    k != [] && AllDigits(k) && (k[0] != '0' || |k| == 1) && DigitsValue(k) < 0xFFFF_FFFF
  }

  function IndexValue(k: string): nat {
    if AllDigits(k) then DigitsValue(k) else 0
  }

  function IndexKeyed<T>(): Group<string, T> -> bool {
    (g: Group<string, T>) => IsArrayIndex(g.key)
  }

  function NameKeyed<T>(): Group<string, T> -> bool {
    (g: Group<string, T>) => !IsArrayIndex(g.key)
  }

  function ByIndex<T>(): (Group<string, T>, Group<string, T>) -> bool {
    (a: Group<string, T>, b: Group<string, T>) => IndexValue(a.key) <= IndexValue(b.key)
  }

  /** `Object.entries` of an object whose keys were added in the order of `gs`. */
  function Entries<T(!new)>(gs: seq<Group<string, T>>): seq<Group<string, T>> {
    Sort(Filter(gs, IndexKeyed()), ByIndex()) + Filter(gs, NameKeyed())
  }

  /** The reduce into `{}`, then `Object.entries`; None where the reduce throws. */
  function ObjectGroupBy<T(!new)>(xs: seq<T>, key: T -> string): (r: Option<seq<Group<string, T>>>)
    ensures r.None? <==> exists i :: 0 <= i < |xs| && IsInheritedName(key(xs[i]))
  {
    if exists i :: 0 <= i < |xs| && IsInheritedName(key(xs[i])) then None
    else Some(Entries(GroupBy(xs, key)))
  }

  lemma ByIndexOrder<T(!new)>()
    ensures TotalPreorder(ByIndex<T>())
  {
  }

  /** The entries are the groups themselves, only reordered. */
  lemma EntriesMembers<T(!new)>(gs: seq<Group<string, T>>, g: Group<string, T>)
    ensures g in Entries(gs) <==> g in gs
  {
    SortMembership(Filter(gs, IndexKeyed()), ByIndex(), g);
  }

  /** `Object.entries` lists the groups keyed by array indices first, in numeric order. */
  lemma EntriesOrder<T(!new)>(gs: seq<Group<string, T>>)
    ensures IndexFirst(Entries(gs))
  {
    var f := Filter(gs, IndexKeyed());
    var a := Sort(f, ByIndex());
    var b := Filter(gs, NameKeyed());
    ByIndexOrder<T>();
    SortSorted(f, ByIndex());
    forall i | 0 <= i < |a|
      ensures IsArrayIndex(a[i].key)
    {
      SortMembership(f, ByIndex(), a[i]);
    }
    forall i | 0 <= i < |b|
      ensures !IsArrayIndex(b[i].key)
    {
      assert b[i] in b;
    }
    IndexFirstAppend(a, b);
  }

  /** Groups keyed by array indices come before every other group, in increasing numeric order. */
  predicate IndexFirst<T>(r: seq<Group<string, T>>) {
    forall i, j :: 0 <= i < j < |r| && IsArrayIndex(r[j].key) ==>
      IsArrayIndex(r[i].key) && IndexValue(r[i].key) <= IndexValue(r[j].key)
  }

  lemma IndexFirstAppend<T>(a: seq<Group<string, T>>, b: seq<Group<string, T>>)
    requires Sorted(a, ByIndex()) && forall i :: 0 <= i < |a| ==> IsArrayIndex(a[i].key)
    requires forall i :: 0 <= i < |b| ==> !IsArrayIndex(b[i].key)
    ensures IndexFirst(a + b)
  {
    var r := a + b;
    forall i, j | 0 <= i < j < |r| && IsArrayIndex(r[j].key)
      ensures IsArrayIndex(r[i].key) && IndexValue(r[i].key) <= IndexValue(r[j].key)
    {
      assert j < |a|;
      assert r[i] == a[i] && r[j] == a[j];
    }
  }

  /** Without an inherited name among the keys, the grouping holds every group of GroupBy, and no other. */
  lemma ObjectGroupByGroups<T(!new)>(xs: seq<T>, key: T -> string)
    requires forall i :: 0 <= i < |xs| ==> !IsInheritedName(key(xs[i]))
    ensures ObjectGroupBy(xs, key).Some?
    ensures forall g :: g in ObjectGroupBy(xs, key).value <==> g in GroupBy(xs, key)
  {
    forall g
      ensures g in ObjectGroupBy(xs, key).value <==> g in GroupBy(xs, key)
    {
      EntriesMembers(GroupBy(xs, key), g);
    }
  }
}
