/** Which way a package moved between two bundles (common/bundle-compare-versions.js:100-123). */
module VersionMoves {
  import opened Semver

  datatype Direction = Up | Down | Changed

  type Order = (string, string) -> int

  /** The order compareSemver gives, numbers read this way. */
  function By(n: Numbers): Order {
    (x, y) => CompareSemver(x, y, n)
  }

  /** Comparing these texts is an order: opposite one way and the other, and transitive. */
  ghost predicate Ordered(s: set<string>, cmp: Order) {
    && (forall x, y :: x in s && y in s ==> (cmp(x, y) < 0 <==> cmp(y, x) > 0))
    && (forall x, y, z :: x in s && y in s && z in s && cmp(x, y) <= 0 && cmp(y, z) <= 0 ==> cmp(x, z) <= 0)
  }

  function Values(s: seq<string>): set<string> {
    set x | x in s
  }

  function Insert(s: seq<string>, v: string, cmp: Order): (r: seq<string>)
    ensures forall x :: x in r <==> x in s || x == v
    ensures |r| == |s| + 1
  {
    if s == [] || cmp(v, s[0]) < 0 then [v] + s
    else
      assert s == [s[0]] + s[1..];
      [s[0]] + Insert(s[1..], v, cmp)
  }

  /** A stable sort by compareSemver. */
  function Sorted(s: seq<string>, cmp: Order): (r: seq<string>)
    ensures forall x :: x in r <==> x in s
    ensures |r| == |s|
  {
    if s == [] then []
    else
      assert s == s[..|s| - 1] + [s[|s| - 1]];
      Insert(Sorted(s[..|s| - 1], cmp), s[|s| - 1], cmp)
  }

  function Those(s: seq<string>, other: seq<string>, there: bool): (r: seq<string>)
    ensures forall x :: x in r <==> x in s && (x in other) == there
  {
    if s == [] then []
    else
      assert s == s[..|s| - 1] + [s[|s| - 1]];
      Those(s[..|s| - 1], other, there) + if (s[|s| - 1] in other) == there then [s[|s| - 1]] else []
  }

  /** The versions moved from and to: those dropped and taken on, or with only one of those, that against those kept. */
  function Moves(base: seq<string>, other: seq<string>): (seq<string>, seq<string>) {
    var dropped, taken, kept := Those(base, other, false), Those(other, base, false), Those(base, other, true);
    if dropped != [] && taken != [] then (dropped, taken) else if dropped != [] then (dropped, kept) else (kept, taken)
  }

  function VersionDirection(base: seq<string>, other: seq<string>, cmp: Order): Direction {
    var moves := Moves(base, other);
    var from, to := Sorted(moves.0, cmp), Sorted(moves.1, cmp);
    if from == [] || to == [] then Changed
    else if cmp(from[|from| - 1], to[0]) < 0 then Up
    else if cmp(to[|to| - 1], from[0]) < 0 then Down
    else Changed
  }

  // ---- what it means ----

  ghost predicate InOrder(s: seq<string>, cmp: Order) {
    forall i, j :: 0 <= i < j < |s| ==> cmp(s[i], s[j]) <= 0
  }

  ghost predicate AllBefore(a: seq<string>, b: seq<string>, cmp: Order) {
    forall x, y :: x in a && y in b ==> cmp(x, y) < 0
  }

  lemma PrependInOrder(x: string, s: seq<string>, cmp: Order)
    requires InOrder(s, cmp) && forall y :: y in s ==> cmp(x, y) <= 0
    ensures InOrder([x] + s, cmp)
  {
    var r := [x] + s;
    forall i, j | 0 <= i < j < |r| ensures cmp(r[i], r[j]) <= 0 {
      assert r[j] == s[j - 1] && s[j - 1] in s;
      if i > 0 { assert r[i] == s[i - 1]; }
    }
  }

  lemma TailInOrder(s: seq<string>, cmp: Order)
    requires InOrder(s, cmp) && s != []
    ensures InOrder(s[1..], cmp) && forall y :: y in s[1..] ==> y in s && cmp(s[0], y) <= 0
  {
    forall y | y in s[1..] ensures y in s && cmp(s[0], y) <= 0 {
      var k :| 0 <= k < |s[1..]| && s[1..][k] == y;
      assert s[k + 1] == y;
    }
  }

  lemma {:induction false} InsertInOrder(s: seq<string>, v: string, cmp: Order, all: set<string>)
    requires Ordered(all, cmp) && InOrder(s, cmp) && v in all && forall x :: x in s ==> x in all
    ensures InOrder(Insert(s, v, cmp), cmp)
  {
    if s != [] {
      TailInOrder(s, cmp);
      assert s[0] in s && s == [s[0]] + s[1..];
      if cmp(v, s[0]) >= 0 {
        InsertInOrder(s[1..], v, cmp, all);
        PrependInOrder(s[0], Insert(s[1..], v, cmp), cmp);
      } else {
        forall y | y in s ensures cmp(v, y) <= 0 {}
        PrependInOrder(v, s, cmp);
      }
    } else {
      PrependInOrder(v, s, cmp);
    }
  }

  lemma {:induction false} SortedInOrder(s: seq<string>, cmp: Order, all: set<string>)
    requires Ordered(all, cmp) && forall x :: x in s ==> x in all
    ensures InOrder(Sorted(s, cmp), cmp)
  {
    if s != [] {
      var init := s[..|s| - 1];
      assert s == init + [s[|s| - 1]];
      forall x | x in init ensures x in all { assert x in s; }
      SortedInOrder(init, cmp, all);
      InsertInOrder(Sorted(init, cmp), s[|s| - 1], cmp, all);
    }
  }

  /** In sorted lists the last before the first is all before all. */
  lemma EndsTellAll(a: seq<string>, b: seq<string>, cmp: Order, all: set<string>)
    requires Ordered(all, cmp) && InOrder(a, cmp) && InOrder(b, cmp) && a != [] && b != []
    requires forall x :: x in a || x in b ==> x in all
    ensures cmp(a[|a| - 1], b[0]) < 0 <==> AllBefore(a, b, cmp)
  {
    var last, first := a[|a| - 1], b[0];
    assert last in a && first in b;
    if cmp(last, first) < 0 {
      forall x, y | x in a && y in b ensures cmp(x, y) < 0 {
        var i :| 0 <= i < |a| && a[i] == x;
        var j :| 0 <= j < |b| && b[j] == y;
        SelfEqual(last, cmp, all);
        SelfEqual(first, cmp, all);
        assert cmp(x, last) <= 0 && cmp(first, y) <= 0;
        NotBack(x, last, first, y, cmp, all);
      }
    }
  }

  lemma SelfEqual(x: string, cmp: Order, all: set<string>)
    requires Ordered(all, cmp) && x in all
    ensures cmp(x, x) == 0
  {
  }

  lemma NotBack(x: string, last: string, first: string, y: string, cmp: Order, all: set<string>)
    requires Ordered(all, cmp) && x in all && last in all && first in all && y in all
    requires cmp(x, last) <= 0 && cmp(last, first) < 0 && cmp(first, y) <= 0
    ensures cmp(x, y) < 0
  {
    assert cmp(first, y) <= 0 && cmp(y, x) <= 0 ==> cmp(first, x) <= 0;
    assert cmp(first, x) <= 0 && cmp(x, last) <= 0 ==> cmp(first, last) <= 0;
    assert cmp(x, y) < 0 || cmp(y, x) <= 0;
  }

  lemma SameMembers(a: seq<string>, b: seq<string>, f: seq<string>, t: seq<string>, cmp: Order)
    requires (forall x :: x in a <==> x in f) && (forall x :: x in b <==> x in t)
    ensures AllBefore(a, b, cmp) <==> AllBefore(f, t, cmp)
  {
  }

  /**
   Up exactly when there is something on both ends and everything moved from is older than everything moved to;
   down the other way round.
   */
  lemma DirectionIff(base: seq<string>, other: seq<string>, cmp: Order)
    requires Ordered(Values(base) + Values(other), cmp)
    ensures var from, to := Moves(base, other).0, Moves(base, other).1;
            && (VersionDirection(base, other, cmp) == Up <==> from != [] && to != [] && AllBefore(from, to, cmp))
            && (VersionDirection(base, other, cmp) == Down <==> from != [] && to != [] && AllBefore(to, from, cmp))
  {
    var from, to := Moves(base, other).0, Moves(base, other).1;
    assert forall x :: x in from || x in to ==> x in Values(base) + Values(other);
    if from != [] && to != [] {
      EndsDecide(from, to, cmp, Values(base) + Values(other));
    }
  }

  lemma EndsDecide(from: seq<string>, to: seq<string>, cmp: Order, all: set<string>)
    requires Ordered(all, cmp) && from != [] && to != [] && forall x :: x in from || x in to ==> x in all
    ensures var f, t := Sorted(from, cmp), Sorted(to, cmp);
            && (cmp(f[|f| - 1], t[0]) < 0 <==> AllBefore(from, to, cmp))
            && (cmp(t[|t| - 1], f[0]) < 0 <==> AllBefore(to, from, cmp))
            && !(AllBefore(from, to, cmp) && AllBefore(to, from, cmp))
  {
    var f, t := Sorted(from, cmp), Sorted(to, cmp);
    SortedInOrder(from, cmp, all);
    SortedInOrder(to, cmp, all);
    EndsTellAll(f, t, cmp, all);
    EndsTellAll(t, f, cmp, all);
    SameMembers(from, to, f, t, cmp);
    SameMembers(to, from, t, f, cmp);
    assert from[0] in from && to[0] in to;
  }

  /** Swapping the bundles swaps what is moved from and to, but for the order of those kept. */
  lemma MovesSwap(base: seq<string>, other: seq<string>)
    requires Moves(base, other).0 != [] && Moves(base, other).1 != []
    ensures forall x :: x in Moves(other, base).0 <==> x in Moves(base, other).1
    ensures forall x :: x in Moves(other, base).1 <==> x in Moves(base, other).0
    ensures Moves(other, base).0 != [] && Moves(other, base).1 != []
  {
    var from, to := Moves(base, other).0, Moves(base, other).1;
    assert from[0] in from && to[0] in to;
    var dropped, taken := Those(base, other, false), Those(other, base, false);
    if dropped == [] || taken == [] {
      assert forall x :: x in Those(base, other, true) <==> x in Those(other, base, true);
    }
  }

  /** A move up is a move down with the bundles swapped, and the other way round; and no move is both. */
  lemma UpIsDownSwapped(base: seq<string>, other: seq<string>, cmp: Order)
    requires Ordered(Values(base) + Values(other), cmp)
    ensures VersionDirection(base, other, cmp) == Up <==> VersionDirection(other, base, cmp) == Down
  {
    DirectionIff(base, other, cmp);
    assert Values(base) + Values(other) == Values(other) + Values(base);
    DirectionIff(other, base, cmp);
    var from, to := Moves(base, other).0, Moves(base, other).1;
    if from != [] && to != [] { MovesSwap(base, other); }
    if Moves(other, base).0 != [] && Moves(other, base).1 != [] { MovesSwap(other, base); }
  }

  // ---- versions' texts are ordered ----

  ghost predicate TextsOf(s: set<string>, vs: seq<Version>) {
    && (forall k :: 0 <= k < |vs| ==> IsVersion(vs[k]))
    && (forall x :: x in s ==> exists k :: 0 <= k < |vs| && TextOf(vs[k]) == x)
  }

  lemma VersionsOrdered(s: set<string>, vs: seq<Version>, n: Numbers)
    requires TextsOf(s, vs) && forall i, j :: 0 <= i < |vs| && 0 <= j < |vs| ==> Kept(vs[i], vs[j], n)
    ensures Ordered(s, By(n))
  {
    forall x, y | x in s && y in s ensures CompareSemver(x, y, n) < 0 <==> CompareSemver(y, x, n) > 0 {
      var i := Which(x, s, vs);
      var j := Which(y, s, vs);
      CompareIsPrecedence(vs[i], vs[j], n);
      CompareIsPrecedence(vs[j], vs[i], n);
    }
    forall x, y, z | x in s && y in s && z in s && CompareSemver(x, y, n) <= 0
        && CompareSemver(y, z, n) <= 0 ensures CompareSemver(x, z, n) <= 0 {
      var i := Which(x, s, vs);
      var j := Which(y, s, vs);
      var k := Which(z, s, vs);
      NotAfterOn(vs[i], vs[j], vs[k], n);
    }
  }

  lemma Which(x: string, s: set<string>, vs: seq<Version>) returns (k: nat)
    requires x in s && TextsOf(s, vs)
    ensures k < |vs| && TextOf(vs[k]) == x
  {
    k :| 0 <= k < |vs| && TextOf(vs[k]) == x;
  }

  lemma SamePlace(u: Version, v: Version, w: Version)
    requires IsVersion(u) && IsVersion(v) && IsVersion(w) && SamePrecedence(u, v)
    ensures (Precedes(u, w) ==> Precedes(v, w)) && (Precedes(w, u) ==> Precedes(w, v))
  {
    if i: nat :| CoreLessAt(u, w, i) { assert CoreLessAt(v, w, i); }
    if i: nat :| CoreLessAt(w, u, i) { assert CoreLessAt(w, v, i); }
  }

  lemma NotAfterOn(u: Version, v: Version, w: Version, n: Numbers)
    requires IsVersion(u) && IsVersion(v) && IsVersion(w) && Kept(u, v, n) && Kept(v, w, n) && Kept(u, w, n)
    requires CompareSemver(TextOf(u), TextOf(v), n) <= 0 && CompareSemver(TextOf(v), TextOf(w), n) <= 0
    ensures CompareSemver(TextOf(u), TextOf(w), n) <= 0
  {
    CompareIsPrecedence(u, v, n);
    CompareIsPrecedence(v, w, n);
    CompareIsPrecedence(u, w, n);
    if Precedes(u, v) && Precedes(v, w) {
      PrecedesOn(u, v, w);
      PrecedesOneWay(u, w);
    } else if Precedes(u, v) {
      SamePlace(v, w, u);
      PrecedesOneWay(u, w);
    } else if Precedes(v, w) {
      SamePlace(v, u, w);
      PrecedesOneWay(u, w);
    }
  }
}
