/**
 Grouping a list by a key the way an insertion-ordered map of lists does:
 keys in order of first appearance, each with its items in list order. Nothing
 is lost, nothing is doubled, and order is kept.
 */
module Buckets {

  /** An insertion-ordered map of lists: its keys in order, and each key's list. */
  datatype Grouping<K, V> = Grouping(order: seq<K>, lists: map<K, seq<V>>) {

    /** Append `v` to `k`'s list, opening the list the first time. */
    function Put(k: K, v: V): Grouping<K, V> {
      if k in lists then Grouping(order, lists[k := lists[k] + [v]])
      else Grouping(order + [k], lists[k := [v]])
    }
  }

  /** The items filed under `k`, in list order. */
  function Picked<K(==), V>(keys: seq<K>, items: seq<V>, k: K): seq<V>
    requires |keys| == |items|
  {
    if keys == [] then []
    else Picked(keys[..|keys| - 1], items[..|keys| - 1], k)
         + if keys[|keys| - 1] == k then [items[|keys| - 1]] else []
  }

  ghost predicate Distinct<T>(s: seq<T>) {
    forall i, j :: 0 <= i < j < |s| ==> s[i] != s[j]
  }

  /** The keys in order of first appearance. */
  function FirstSeen<K(==)>(keys: seq<K>): seq<K> {
    if keys == [] then []
    else FirstSeen(keys[..|keys| - 1]) + if keys[|keys| - 1] in keys[..|keys| - 1] then [] else [keys[|keys| - 1]]
  }

  /** `g` groups `items` by `keys`. */
  ghost predicate Groups<K(!new), V>(g: Grouping<K, V>, keys: seq<K>, items: seq<V>)
    requires |keys| == |items|
  {
    && g.order == FirstSeen(keys) && Distinct(g.order)
    && (forall k :: k in g.order <==> k in keys)
    && (forall k :: k in g.lists <==> k in keys)
    && (forall k :: k in keys ==> g.lists[k] == Picked(keys, items, k))
  }

  lemma PickedNone<K(!new), V>(keys: seq<K>, items: seq<V>, k: K)
    requires |keys| == |items| && k !in keys
    ensures Picked(keys, items, k) == []
  {
    if keys != [] {
      var n := |keys| - 1;
      assert k !in keys[..n];
      PickedNone(keys[..n], items[..n], k);
    }
  }

  lemma PutGroups<K(!new), V>(g: Grouping<K, V>, keys: seq<K>, items: seq<V>, k: K, v: V)
    requires |keys| == |items| && Groups(g, keys, items)
    ensures Groups(g.Put(k, v), keys + [k], items + [v])
  {
    var h, ks, vs := g.Put(k, v), keys + [k], items + [v];
    assert ks[..|keys|] == keys && vs[..|keys|] == items;
    assert forall j :: j in ks <==> j in keys || j == k;
    if k !in keys { PickedNone(keys, items, k); }
    forall j | j in ks ensures j in h.lists && h.lists[j] == Picked(ks, vs, j) {}
  }

  /** The items filed one after another under their keys. */
  function Filed<K(==), V>(keys: seq<K>, items: seq<V>): Grouping<K, V>
    requires |keys| == |items|
  {
    if keys == [] then Grouping([], map[])
    else
      var n := |keys| - 1;
      Filed(keys[..n], items[..n]).Put(keys[n], items[n])
  }

  lemma FiledOn<K, V>(keys: seq<K>, items: seq<V>, k: K, v: V)
    requires |keys| == |items|
    ensures Filed(keys + [k], items + [v]) == Filed(keys, items).Put(k, v)
  {
    assert (keys + [k])[..|keys|] == keys && (items + [v])[..|keys|] == items;
  }

  lemma PutLast<K(!new), V>(g: Grouping<K, V>, keys: seq<K>, items: seq<V>, n: nat)
    requires |keys| == |items| == n + 1 && Groups(g, keys[..n], items[..n])
    ensures Groups(g.Put(keys[n], items[n]), keys, items)
  {
    PutGroups(g, keys[..n], items[..n], keys[n], items[n]);
    assert keys[..n] + [keys[n]] == keys && items[..n] + [items[n]] == items;
  }

  lemma {:induction false} FiledGroups<K(!new), V>(keys: seq<K>, items: seq<V>)
    requires |keys| == |items|
    ensures Groups(Filed(keys, items), keys, items)
  {
    if keys != [] {
      var n := |keys| - 1;
      FiledGroups(keys[..n], items[..n]);
      PutLast(Filed(keys[..n], items[..n]), keys, items, n);
    }
  }

  /** What a bucket holds is exactly what was filed under its key. */
  lemma {:induction false} PickedExactly<K(!new), V>(keys: seq<K>, items: seq<V>, k: K, v: V)
    requires |keys| == |items|
    ensures v in Picked(keys, items, k) <==> exists i :: 0 <= i < |keys| && keys[i] == k && items[i] == v
  {
    if keys != [] {
      var n := |keys| - 1;
      PickedExactly(keys[..n], items[..n], k, v);
      var rest := Picked(keys[..n], items[..n], k);
      if v in rest {
        var i :| 0 <= i < n && keys[..n][i] == k && items[..n][i] == v;
        assert keys[i] == k && items[i] == v;
      }
      if exists i :: 0 <= i < |keys| && keys[i] == k && items[i] == v {
        var i :| 0 <= i < |keys| && keys[i] == k && items[i] == v;
        if i < n { assert keys[..n][i] == k && items[..n][i] == v; }
      }
    }
  }

  /** The lists one after another. */
  function Flat<K, V>(order: seq<K>, lists: map<K, seq<V>>): seq<V>
    requires forall k :: k in order ==> k in lists
  {
    if order == [] then [] else Flat(order[..|order| - 1], lists) + lists[order[|order| - 1]]
  }

  lemma {:induction false} FlatUnchanged<K(!new), V>(order: seq<K>, a: map<K, seq<V>>, b: map<K, seq<V>>)
    requires forall k :: k in order ==> k in a && k in b && a[k] == b[k]
    ensures Flat(order, a) == Flat(order, b)
  {
    if order != [] {
      assert forall k :: k in order[..|order| - 1] ==> k in order;
      FlatUnchanged(order[..|order| - 1], a, b);
    }
  }

  /** One item added to one list adds just that item to the whole. */
  lemma {:induction false} FlatGrows<K(!new), V>(order: seq<K>, a: map<K, seq<V>>, k: K, v: V)
    requires Distinct(order) && k in order && forall j :: j in order ==> j in a
    ensures multiset(Flat(order, a[k := a[k] + [v]])) == multiset(Flat(order, a)) + multiset{v}
  {
    var n := |order| - 1;
    var init, b := order[..n], a[k := a[k] + [v]];
    assert forall j :: j in init ==> j in order;
    if order[n] == k {
      assert k !in init;
      FlatUnchanged(init, a, b);
    } else {
      assert k in init;
      FlatGrows(init, a, k, v);
    }
  }

  /** Grouping conserves the items: as many of each as before, over all buckets. */
  lemma GroupsConserve<K(!new), V>(g: Grouping<K, V>, keys: seq<K>, items: seq<V>)
    requires |keys| == |items| && Groups(g, keys, items)
    ensures multiset(Flat(g.order, g.lists)) == multiset(items)
  {
    GroupsTotal(g.order, keys, items);
    FlatUnchanged(g.order, AllPicked(g.order, keys, items), g.lists);
  }

  function AllPicked<K(==), V>(order: seq<K>, keys: seq<K>, items: seq<V>): map<K, seq<V>>
    requires |keys| == |items|
  {
    map k | k in order :: Picked(keys, items, k)
  }

  lemma AllPickedLast<K(!new), V>(order: seq<K>, keys: seq<K>, items: seq<V>)
    requires |keys| == |items| && keys != [] && keys[|keys| - 1] in order
    ensures var n := |keys| - 1;
            var before := AllPicked(order, keys[..n], items[..n]);
            AllPicked(order, keys, items) == before[keys[n] := before[keys[n]] + [items[n]]]
  {
    var n := |keys| - 1;
    var before, after := AllPicked(order, keys[..n], items[..n]), AllPicked(order, keys, items);
    forall k | k in order ensures after[k] == before[keys[n] := before[keys[n]] + [items[n]]][k] {
      assert Picked(keys, items, k) == Picked(keys[..n], items[..n], k) + if keys[n] == k then [items[n]] else [];
    }
  }

  lemma LastCounts<V>(items: seq<V>)
    requires items != []
    ensures multiset(items) == multiset(items[..|items| - 1]) + multiset{items[|items| - 1]}
  {
    assert items == items[..|items| - 1] + [items[|items| - 1]];
  }

  lemma {:induction false} GroupsTotal<K(!new), V>(order: seq<K>, keys: seq<K>, items: seq<V>)
    requires |keys| == |items| && Distinct(order)
    requires forall k :: k in keys ==> k in order
    ensures multiset(Flat(order, AllPicked(order, keys, items))) == multiset(items)
  {
    if keys == [] {
      FlatOfNothing(order, AllPicked(order, keys, items));
      assert items == [];
    } else {
      var n := |keys| - 1;
      assert forall k :: k in keys[..n] ==> k in keys;
      GroupsTotal(order, keys[..n], items[..n]);
      AllPickedLast(order, keys, items);
      assert keys[n] in order;
      FlatGrows(order, AllPicked(order, keys[..n], items[..n]), keys[n], items[n]);
      LastCounts(items);
    }
  }

  lemma {:induction false} FlatOfNothing<K(!new), V>(order: seq<K>, lists: map<K, seq<V>>)
    requires forall k :: k in order ==> k in lists && lists[k] == []
    ensures Flat(order, lists) == []
  {
    if order != [] {
      assert forall k :: k in order[..|order| - 1] ==> k in order;
      FlatOfNothing(order[..|order| - 1], lists);
    }
  }

  /** The buckets in order of first appearance. */
  function Parts<K, V>(g: Grouping<K, V>): seq<seq<V>>
    requires forall k :: k in g.order ==> k in g.lists
  {
    seq(|g.order|, p requires 0 <= p < |g.order| => g.lists[g.order[p]])
  }

  lemma {:induction false} PickedAll<K(!new), V>(keys: seq<K>, items: seq<V>, k: K)
    requires |keys| == |items| && forall j :: j in keys ==> j == k
    ensures Picked(keys, items, k) == items
  {
    if keys != [] {
      var n := |keys| - 1;
      assert forall j :: j in keys[..n] ==> j in keys;
      PickedAll(keys[..n], items[..n], k);
      assert keys[n] in keys;
      assert items == items[..n] + [items[n]];
    } else {
      assert items == [];
    }
  }

  /** `parts` is `items` cut by `keys`: one part a key, order kept, nothing lost. */
  ghost predicate PartsBy<K(!new), V(!new)>(parts: seq<seq<V>>, keys: seq<K>, items: seq<V>)
    requires |keys| == |items|
  {
    exists g: Grouping<K, V> :: Groups(g, keys, items) && parts == Parts(g)
  }

  lemma OnePart<K(!new), V(!new)>(parts: seq<seq<V>>, keys: seq<K>, items: seq<V>)
    requires |keys| == |items| && |parts| == 1 && PartsBy(parts, keys, items)
    ensures parts == [items]
  {
    var g: Grouping<K, V> :| Groups(g, keys, items) && parts == Parts(g);
    forall j | j in keys ensures j == g.order[0] { assert j in g.order; }
    assert g.order[0] in g.order;
    PickedAll(keys, items, g.order[0]);
  }

  /** A list is cut into one part exactly when one key files all of it. */
  lemma OnePartIff<K(!new), V(!new)>(parts: seq<seq<V>>, keys: seq<K>, items: seq<V>)
    requires |keys| == |items| && keys != [] && PartsBy(parts, keys, items)
    ensures |parts| == 1 <==> forall i, j :: 0 <= i < |keys| && 0 <= j < |keys| ==> keys[i] == keys[j]
  {
    var g: Grouping<K, V> :| Groups(g, keys, items) && parts == Parts(g);
    assert keys[0] in keys && keys[0] in g.order;
    if |parts| == 1 {
      forall i | 0 <= i < |keys| ensures keys[i] == g.order[0] { assert keys[i] in keys && keys[i] in g.order; }
    } else {
      assert g.order[0] != g.order[1] && g.order[0] in g.order && g.order[1] in g.order;
      var i :| 0 <= i < |keys| && keys[i] == g.order[0];
      var j :| 0 <= j < |keys| && keys[j] == g.order[1];
      assert keys[i] != keys[j];
    }
  }

  lemma {:induction false} FlatIsJoined<K(!new), V(!new)>(g: Grouping<K, V>, n: nat)
    requires n <= |g.order| && forall k :: k in g.order ==> k in g.lists
    ensures Joined(Parts(g)[..n]) == Flat(g.order[..n], g.lists)
  {
    if n > 0 {
      FlatIsJoined(g, n - 1);
      assert Parts(g)[..n][..n - 1] == Parts(g)[..n - 1];
      assert g.order[..n][..n - 1] == g.order[..n - 1];
      assert forall k :: k in g.order[..n] ==> k in g.order;
    }
  }

  function Joined<V>(parts: seq<seq<V>>): seq<V> {
    if parts == [] then [] else Joined(parts[..|parts| - 1]) + parts[|parts| - 1]
  }

  /** A cut into parts keeps every item as often as it was there. */
  lemma PartsConserve<K(!new), V(!new)>(parts: seq<seq<V>>, keys: seq<K>, items: seq<V>)
    requires |keys| == |items| && PartsBy(parts, keys, items)
    ensures multiset(Joined(parts)) == multiset(items)
  {
    var g: Grouping<K, V> :| Groups(g, keys, items) && parts == Parts(g);
    FlatIsJoined(g, |g.order|);
    assert g.order[..|g.order|] == g.order && Parts(g)[..|g.order|] == Parts(g);
    GroupsConserve(g, keys, items);
  }

  /** The elements of `s` that `p` holds of, in order. */
  function Filter<T(!new)>(s: seq<T>, p: T -> bool): (r: seq<T>)
    ensures forall x :: x in r <==> x in s && p(x)
  {
    if s == [] then []
    else Filter(s[..|s| - 1], p) + if p(s[|s| - 1]) then [s[|s| - 1]] else []
  }
}
