/**
 Parent-pointer forests, as the three row groupings keep them. What a forest
 stands for is the root each node reaches (`rep`); a rank that grows along
 every parent pointer shows that each walk to a root ends. Finding a root
 moves pointers (two-pass compression, or halving on the way) and must leave
 `rep` alone; a union takes one root's class into another's.
 */
module Forest {
  import opened Closure

  /** Every node its own root. */
  ghost function Alone<T>(nodes: set<T>): Shape<T> {
    Shape(map x | x in nodes :: x, map x | x in nodes :: 0, 0)
  }

  lemma AloneShaped<T(!new)>(parent: map<T, T>)
    requires forall x :: x in parent ==> parent[x] == x
    ensures Shaped(parent, Alone(parent.Keys))
  {
    forall x | x in parent ensures Keeps(parent, Alone(parent.Keys), x) {}
  }

  /** What a forest's pointers mean: each node's root, and a rank growing towards it. */
  datatype Shape<T> = Shape(rep: map<T, T>, rank: map<T, nat>, top: nat)

  ghost predicate Keeps<T>(parent: map<T, T>, s: Shape<T>, x: T)
    requires x in parent
  {
    && parent[x] in parent && x in s.rep && s.rep[x] in parent && s.rep[x] in s.rep
    && x in s.rank && parent[x] in s.rank && s.rep[x] in s.rank && parent[x] in s.rep
    && s.rep[s.rep[x]] == s.rep[x]
    && s.rep[parent[x]] == s.rep[x]
    && (parent[x] == x <==> s.rep[x] == x)
    && (parent[x] != x ==> s.rank[x] < s.rank[parent[x]])
    && (parent[x] != x ==> s.rank[x] < s.rank[s.rep[x]])
    && s.rank[x] <= s.top
  }

  ghost predicate Shaped<T(!new)>(parent: map<T, T>, s: Shape<T>) {
    parent.Keys == s.rep.Keys && forall x {:trigger Keeps(parent, s, x)} :: x in parent ==> Keeps(parent, s, x)
  }

  /** A pointer may be moved to any node further up its own tree. */
  lemma Repoint<T(!new)>(parent: map<T, T>, s: Shape<T>, x: T, y: T)
    requires Shaped(parent, s) && x in parent && y in parent && parent[x] != x
    requires x in s.rep && y in s.rep && s.rep[y] == s.rep[x]
    requires x in s.rank && y in s.rank && s.rank[x] < s.rank[y]
    ensures Shaped(parent[x := y], s)
  {
    var p := parent[x := y];
    assert Keeps(parent, s, x) && Keeps(parent, s, y);
    forall z | z in p ensures Keeps(p, s, z) {
      assert Keeps(parent, s, z);
      assert Keeps(parent, s, s.rep[z]);
    }
  }

  /** The shape once root `b` points at root `a`. */
  ghost function Linked<T>(s: Shape<T>, a: T, b: T): Shape<T>
    requires a in s.rank && b in s.rank
  {
    var r := if s.rank[a] <= s.rank[b] then s.rank[b] + 1 else s.rank[a];
    Shape(Merged(s.rep, a, b), s.rank[a := r], if s.top < r then r else s.top)
  }

  lemma Link<T(!new)>(parent: map<T, T>, s: Shape<T>, a: T, b: T)
    requires Shaped(parent, s) && a in parent && b in parent
    requires s.rep[a] == a && s.rep[b] == b && a != b
    ensures a in s.rank && b in s.rank && Shaped(parent[b := a], Linked(s, a, b))
  {
    assert Keeps(parent, s, a) && Keeps(parent, s, b);
    var p, t := parent[b := a], Linked(s, a, b);
    forall z | z in p ensures Keeps(p, t, z) {
      assert Keeps(parent, s, z);
      assert Keeps(parent, s, parent[z]);
      assert Keeps(parent, s, s.rep[z]);
    }
  }

  /** Forests over row numbers, as an array of parents: rows start alone. */
  class RowForest {
    const parent: array<nat>
    ghost var shape: Shape<nat>

    ghost function Pointers(): (m: map<nat, nat>)
      reads parent
    {
      map i: nat | 0 <= i < parent.Length :: parent[i]
    }

    ghost predicate Valid()
      reads this, parent
    {
      Shaped(Pointers(), shape)
    }

    constructor (rows: nat)
      ensures Valid() && fresh(parent) && parent.Length == rows
      ensures forall i: nat :: (i in shape.rep <==> i < rows) && (i in shape.rep ==> shape.rep[i] == i)
    {
      parent := new nat[rows](i => i);
      new;
      shape := Alone(Pointers().Keys);
      AloneShaped(Pointers());
    }

    /** Walk to the root, then point every node passed straight at it. */
    method FindCompress(start: nat) returns (root: nat)
      requires Valid() && start < parent.Length
      modifies parent
      ensures Valid() && root < parent.Length && root == shape.rep[start] && shape.rep[root] == root
    {
      root := start;
      assert Keeps(Pointers(), shape, root);
      while parent[root] != root
        invariant root < parent.Length && root in shape.rep && shape.rep[root] == shape.rep[start]
        invariant root in shape.rank && shape.rank[root] <= shape.top
        decreases shape.top - shape.rank[root]
      {
        assert Keeps(Pointers(), shape, root);
        root := parent[root];
        assert Keeps(Pointers(), shape, root);
      }
      assert Keeps(Pointers(), shape, root);
      var i := start;
      assert Keeps(Pointers(), shape, i);
      while parent[i] != root
        invariant Valid() && i < parent.Length && i in shape.rep && shape.rep[i] == root
        invariant i in shape.rank && shape.rank[i] <= shape.top
        decreases shape.top - shape.rank[i]
      {
        ghost var was := Pointers();
        assert Keeps(was, shape, i) && Keeps(was, shape, root);
        var next := parent[i];
        assert Keeps(was, shape, next);
        Repoint(was, shape, i, root);
        parent[i] := root;
        assert Pointers() == was[i := root];
        i := next;
      }
    }

    /** Walk to the root, pointing each node passed at its grandparent. */
    method FindHalve(start: nat) returns (i: nat)
      requires Valid() && start < parent.Length
      modifies parent
      ensures Valid() && i < parent.Length && i == shape.rep[start] && shape.rep[i] == i
    {
      i := start;
      assert Keeps(Pointers(), shape, i);
      while parent[i] != i
        invariant Valid() && i < parent.Length && i in shape.rep && shape.rep[i] == shape.rep[start]
        invariant i in shape.rank && shape.rank[i] <= shape.top
        decreases shape.top - shape.rank[i]
      {
        ghost var was := Pointers();
        assert Keeps(was, shape, i) && was[i] in was;
        var up := parent[parent[i]];
        assert Keeps(was, shape, i) && Keeps(was, shape, parent[i]) && Keeps(was, shape, up);
        Repoint(was, shape, i, up);
        parent[i] := up;
        assert Pointers() == was[i := up];
        i := parent[i];
      }
      assert Keeps(Pointers(), shape, i);
    }

    /** Point root `b` at root `a`. */
    method Attach(a: nat, b: nat)
      requires Valid() && a < parent.Length && b < parent.Length
      requires shape.rep[a] == a && shape.rep[b] == b && a != b
      modifies this, parent
      ensures Valid() && shape.rep == Merged(old(shape.rep), a, b)
    {
      Link(Pointers(), shape, a, b);
      ghost var was := Pointers();
      parent[b] := a;
      shape := Linked(shape, a, b);
      assert Pointers() == was[b := a];
    }
  }

  /** Forests over ids, as a map of parents that the methods replace. */
  class IdForest {
    var parent: map<string, string>
    ghost var shape: Shape<string>

    ghost predicate Valid()
      reads this
    {
      Shaped(parent, shape)
    }

    constructor (ids: set<string>)
      ensures Valid() && parent.Keys == ids
      ensures shape.rep == map id | id in ids :: id
    {
      parent := map id | id in ids :: id;
      new;
      shape := Alone(parent.Keys);
      AloneShaped(parent);
    }

    method Find(start: string) returns (root: string)
      requires Valid() && start in parent
      modifies this`parent
      ensures Valid() && parent.Keys == old(parent.Keys)
      ensures root in parent && root == shape.rep[start] && shape.rep[root] == root
    {
      root := start;
      assert Keeps(parent, shape, root);
      while parent[root] != root
        invariant root in parent && shape.rep[root] == shape.rep[start]
        invariant root in shape.rank && shape.rank[root] <= shape.top
        decreases shape.top - shape.rank[root]
      {
        assert Keeps(parent, shape, root);
        root := parent[root];
        assert Keeps(parent, shape, root);
      }
      assert Keeps(parent, shape, root);
      var id := start;
      assert Keeps(parent, shape, id);
      while parent[id] != root
        invariant Valid() && parent.Keys == old(parent.Keys) && id in parent && shape.rep[id] == root
        invariant id in shape.rank && shape.rank[id] <= shape.top
        decreases shape.top - shape.rank[id]
      {
        assert Keeps(parent, shape, id) && Keeps(parent, shape, root);
        var next := parent[id];
        assert Keeps(parent, shape, next);
        Repoint(parent, shape, id, root);
        parent := parent[id := root];
        id := next;
      }
    }

    /** Point root `b` at root `a`; pointing a root at itself changes nothing. */
    method Attach(a: string, b: string)
      requires Valid() && a in parent && b in parent
      requires shape.rep[a] == a && shape.rep[b] == b
      modifies this
      ensures Valid() && parent.Keys == old(parent.Keys)
      ensures shape.rep == Merged(old(shape.rep), a, b)
    {
      assert Keeps(parent, shape, a) && Keeps(parent, shape, b);
      if a != b {
        Link(parent, shape, a, b);
        shape := Linked(shape, a, b);
      } else {
        assert Merged(shape.rep, a, b) == shape.rep;
      }
      parent := parent[b := a];
      assert a == b ==> parent == old(parent);
    }
  }
}
