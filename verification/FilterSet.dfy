/** The set of filters modulo `Equals` that the reconciler computes with, kept in a list without equal items. */
module FilterSets {
  import opened Collections
  import opened TcTypes

  /** The items after adding `f`. */
  function Added(items: seq<Filter>, f: Filter): seq<Filter> {
    if Canon(f) in Keys(items) then items else items + [f]
  }

  /** The items after adding each filter of `fs` to an empty set. */
  function Dedup(fs: seq<Filter>): seq<Filter> {
    if fs == [] then [] else Added(Dedup(fs[..|fs| - 1]), fs[|fs| - 1])
  }

  lemma DedupStep(fs: seq<Filter>, i: nat)
    requires i < |fs|
    ensures Dedup(fs[..i + 1]) == Added(Dedup(fs[..i]), fs[i])
  {
    assert fs[..i + 1][..i] == fs[..i];
  }

  lemma AddedKeys(items: seq<Filter>, f: Filter)
    requires Distinct(items)
    ensures Distinct(Added(items, f)) && Keys(Added(items, f)) == Keys(items) + {Canon(f)}
  {
    KeysAppend(items, [f]);
    assert Keys([f]) == {Canon(f)} by {
      assert [f][0] == f;
    }
  }

  lemma {:induction false} DedupKeys(fs: seq<Filter>)
    ensures Distinct(Dedup(fs)) && Keys(Dedup(fs)) == Keys(fs)
  {
    if fs != [] {
      var n := |fs| - 1;
      DedupKeys(fs[..n]);
      AddedKeys(Dedup(fs[..n]), fs[n]);
      KeysStep(fs, n);
      assert fs[..n + 1] == fs;
    }
  }

  function KeyIn(keys: set<Filter>): Filter -> bool {
    f => Canon(f) in keys
  }

  function KeyNotIn(keys: set<Filter>): Filter -> bool {
    f => Canon(f) !in keys
  }

  lemma SelectKeys(keep: Filter -> bool, items: seq<Filter>)
    ensures forall x :: x in Keys(Select(keep, items)) <==>
      exists i :: 0 <= i < |items| && keep(items[i]) && Canon(items[i]) == x
  {
    SelectMember(keep, items);
    var r := Select(keep, items);
    forall x | x in Keys(r)
      ensures exists i :: 0 <= i < |items| && keep(items[i]) && Canon(items[i]) == x
    {
      var k :| 0 <= k < |r| && Canon(r[k]) == x;
      assert r[k] in items;
    }
    forall i | 0 <= i < |items| && keep(items[i])
      ensures Canon(items[i]) in Keys(r)
    {
      assert items[i] in r;
    }
  }

  /** Removing the items of a second set leaves the difference of the key sets; keeping them leaves the intersection. */
  lemma SelectKeySets(items: seq<Filter>, keys: set<Filter>)
    ensures Keys(Select(KeyNotIn(keys), items)) == Keys(items) - keys
    ensures Keys(Select(KeyIn(keys), items)) == Keys(items) * keys
  {
    SelectKeys(KeyNotIn(keys), items);
    SelectKeys(KeyIn(keys), items);
  }

  lemma {:induction false} SelectDistinct(keep: Filter -> bool, items: seq<Filter>)
    requires Distinct(items)
    ensures Distinct(Select(keep, items))
  {
    if items != [] {
      var n := |items| - 1;
      SelectDistinct(keep, items[..n]);
      var r := Select(keep, items[..n]);
      SelectMember(keep, items[..n]);
      forall k | 0 <= k < |r|
        ensures Canon(r[k]) != Canon(items[n])
      {
        assert r[k] in items[..n];
      }
    }
  }

  lemma SubsetOfSameSize<T>(a: set<T>, b: set<T>)
    requires a <= b && |a| == |b|
    ensures a == b
  {
    if b - a != {} {
      var x :| x in b - a;
      SubsetSize(a, b - {x});
    } else {
      assert b == a + (b - a);
    }
  }

  lemma SubsetSize<T>(a: set<T>, b: set<T>)
    requires a <= b
    ensures |a| <= |b|
  {
    assert |b| == |a| + |b - a| by {
      assert b == a + (b - a);
    }
  }

  class FilterSet {
    var items: seq<Filter>

    ghost predicate Valid()
      reads this
    {
      Distinct(items)
    }

    constructor ()
      ensures Valid() && items == []
    {
      items := [];
    }

    method Has(filter: Filter) returns (b: bool)
      ensures b <==> Canon(filter) in Keys(items)
    {
      for i := 0 to |items|
        invariant Canon(filter) !in Keys(items[..i])
      {
        EqualsIsCanonEquality(filter, items[i]);
        if FilterEquals(filter, items[i]) {
          return true;
        }
        KeysStep(items, i);
      }
      assert items[..|items|] == items;
      return false;
    }

    method Add(filter: Filter)
      requires Valid()
      modifies this
      ensures Valid() && items == Added(old(items), filter)
      ensures Keys(items) == old(Keys(items)) + {Canon(filter)}
    {
      var present := Has(filter);
      AddedKeys(items, filter);
      if !present {
        items := items + [filter];
      }
    }

    /** The last item takes the place of the removed one. */
    method Remove(filter: Filter)
      requires Valid()
      modifies this
      ensures Valid()
      ensures Keys(items) == old(Keys(items)) - {Canon(filter)}
      ensures Canon(filter) !in old(Keys(items)) ==> items == old(items)
      ensures forall f :: f in items ==> f in old(items)
    {
      var foundIdx := -1;
      for idx := 0 to |items|
        invariant items == old(items)
        invariant foundIdx == -1 && Canon(filter) !in Keys(items[..idx])
      {
        EqualsIsCanonEquality(filter, items[idx]);
        if FilterEquals(filter, items[idx]) {
          foundIdx := idx;
          break;
        }
        KeysStep(items, idx);
      }
      assert foundIdx == -1 ==> items[..|items|] == items;
      if foundIdx != -1 {
        var last := |items| - 1;
        ghost var was := items;
        items := items[foundIdx := items[last]];
        items := items[..last];
        assert forall k :: 0 <= k < last ==> items[k] == if k == foundIdx then was[last] else was[k];
        RemovedKeys(was, items, foundIdx);
      }
    }

    lemma RemovedKeys(was: seq<Filter>, now: seq<Filter>, at: int)
      requires Distinct(was) && 0 <= at < |was| && |now| == |was| - 1
      requires forall k :: 0 <= k < |now| ==> now[k] == if k == at then was[|was| - 1] else was[k]
      ensures Distinct(now) && Keys(now) == Keys(was) - {Canon(was[at])}
    {
    }

    method Len() returns (n: nat)
      requires Valid()
      ensures n == |items| == |Keys(items)|
    {
      DistinctCardinality(items);
      n := |items|;
    }

    /** Inclusion; the shortcut on lengths is sound because neither list holds an item twice. */
    method In(other: FilterSet) returns (b: bool)
      requires Valid() && other.Valid()
      ensures b <==> Keys(items) <= Keys(other.items)
    {
      var n := Len();
      var m := other.Len();
      if n > m {
        if Keys(items) <= Keys(other.items) {
          SubsetSize(Keys(items), Keys(other.items));
        }
        return false;
      }
      for i := 0 to |items|
        invariant Keys(items[..i]) <= Keys(other.items)
      {
        var has := other.Has(items[i]);
        if !has {
          assert Canon(items[i]) in Keys(items);
          return false;
        }
        KeysStep(items, i);
      }
      assert items[..|items|] == items;
      return true;
    }

    method Intersect(other: FilterSet) returns (fs: FilterSet)
      requires Valid() && other.Valid()
      ensures fresh(fs) && fs.Valid()
      ensures fs.items == Select(KeyIn(Keys(other.items)), items)
      ensures Keys(fs.items) == Keys(items) * Keys(other.items)
    {
      fs := new FilterSet();
      ghost var keep := KeyIn(Keys(other.items));
      for i := 0 to |items|
        invariant fresh(fs) && fs.Valid()
        invariant fs.items == Select(keep, items[..i])
      {
        var has := other.Has(items[i]);
        SelectStep(keep, items, i);
        if has {
          NewKey(keep, items, i);
          fs.Add(items[i]);
        }
      }
      SelectAll(keep, items);
      SelectKeySets(items, Keys(other.items));
    }

    method Difference(other: FilterSet) returns (fs: FilterSet)
      requires Valid() && other.Valid()
      ensures fresh(fs) && fs.Valid()
      ensures fs.items == Select(KeyNotIn(Keys(other.items)), items)
      ensures Keys(fs.items) == Keys(items) - Keys(other.items)
    {
      fs := new FilterSet();
      ghost var keep := KeyNotIn(Keys(other.items));
      for i := 0 to |items|
        invariant fresh(fs) && fs.Valid()
        invariant fs.items == Select(keep, items[..i])
      {
        var has := other.Has(items[i]);
        SelectStep(keep, items, i);
        if !has {
          NewKey(keep, items, i);
          fs.Add(items[i]);
        }
      }
      SelectAll(keep, items);
      SelectKeySets(items, Keys(other.items));
    }

    static lemma NewKey(keep: Filter -> bool, all: seq<Filter>, i: nat)
      requires Distinct(all) && i < |all|
      ensures Canon(all[i]) !in Keys(Select(keep, all[..i]))
    {
      SelectKeys(keep, all[..i]);
    }

    /** Set equality by length and inclusion. */
    method Equals(other: FilterSet) returns (b: bool)
      requires Valid() && other.Valid()
      ensures b <==> Keys(items) == Keys(other.items)
    {
      var n := Len();
      var m := other.Len();
      if n != m {
        return false;
      }
      b := In(other);
      if b {
        SubsetOfSameSize(Keys(items), Keys(other.items));
      }
    }

    method List() returns (r: seq<Filter>)
      ensures r == items
    {
      r := items;
    }
  }
}
