/**
 The equivalence closure of a relation, as chains of related elements, and how
 a labelling of the elements can be the closure: every two elements with one
 label are joined by a chain (`Sound`), and every related pair has one label
 (`Respects`).
 */
module Closure {

  /** `a` and `b` are related, one way or the other. */
  ghost predicate Adjacent<T>(R: set<(T, T)>, a: T, b: T) {
    (a, b) in R || (b, a) in R
  }

  ghost predicate Chain<T>(R: set<(T, T)>, s: seq<T>) {
    forall k {:trigger s[k]} :: 0 < k < |s| ==> Adjacent(R, s[k - 1], s[k])
  }

  /** `s` is a chain of R from `a` to `b`. */
  ghost predicate Joins<T>(R: set<(T, T)>, a: T, b: T, s: seq<T>) {
    s != [] && s[0] == a && s[|s| - 1] == b && Chain(R, s)
  }

  /** The equivalence closure of R: some chain joins `a` to `b`. */
  ghost predicate Connected<T(!new)>(R: set<(T, T)>, a: T, b: T) {
    exists s: seq<T> :: Joins(R, a, b, s)
  }

  lemma ConnectedSelf<T(!new)>(R: set<(T, T)>, a: T)
    ensures Connected(R, a, a)
  {
    assert Joins(R, a, a, [a]);
  }

  lemma ConnectedEdge<T(!new)>(R: set<(T, T)>, a: T, b: T)
    requires Adjacent(R, a, b)
    ensures Connected(R, a, b)
  {
    assert Joins(R, a, b, [a, b]);
  }

  lemma ConnectedSym<T(!new)>(R: set<(T, T)>, a: T, b: T)
    requires Connected(R, a, b)
    ensures Connected(R, b, a)
  {
    var s: seq<T> :| Joins(R, a, b, s);
    var n := |s|;
    var r := seq(n, k requires 0 <= k < n => s[n - 1 - k]);
    forall k {:trigger r[k]} | 0 < k < |r| ensures Adjacent(R, r[k - 1], r[k]) {
      assert r[k - 1] == s[n - k] && r[k] == s[n - k - 1];
      assert Adjacent(R, s[(n - k) - 1], s[n - k]);
    }
    assert Joins(R, b, a, r);
  }

  lemma ConnectedTrans<T(!new)>(R: set<(T, T)>, a: T, b: T, c: T)
    requires Connected(R, a, b) && Connected(R, b, c)
    ensures Connected(R, a, c)
  {
    var s: seq<T> :| Joins(R, a, b, s);
    var t: seq<T> :| Joins(R, b, c, t);
    var u := s + t[1..];
    forall k {:trigger u[k]} | 0 < k < |u| ensures Adjacent(R, u[k - 1], u[k]) {
      if k < |s| {
        assert u[k] == s[k] && u[k - 1] == s[k - 1];
      } else {
        var j := k - |s| + 1;
        assert u[k] == t[j] && u[k - 1] == t[j - 1];
      }
    }
    assert Joins(R, a, c, u);
  }

  /** A larger relation has a larger closure. */
  lemma ConnectedMono<T(!new)>(R: set<(T, T)>, S: set<(T, T)>, a: T, b: T)
    requires R <= S && Connected(R, a, b)
    ensures Connected(S, a, b)
  {
    var s: seq<T> :| Joins(R, a, b, s);
    forall k {:trigger s[k]} | 0 < k < |s| ensures Adjacent(S, s[k - 1], s[k]) {
      assert Adjacent(R, s[k - 1], s[k]);
    }
    assert Joins(S, a, b, s);
  }

  /** Every related pair has one class. */
  ghost predicate Respects<T(!new), L>(R: set<(T, T)>, cls: map<T, L>) {
    forall a, b :: (a, b) in R ==> a in cls && b in cls && cls[a] == cls[b]
  }

  lemma {:induction false} ChainClass<T(!new), L>(R: set<(T, T)>, cls: map<T, L>, s: seq<T>, k: nat)
    requires Respects(R, cls) && Chain(R, s) && k < |s| && s[0] in cls
    ensures s[k] in cls && cls[s[k]] == cls[s[0]]
  {
    if k > 0 {
      ChainClass(R, cls, s, k - 1);
      assert Adjacent(R, s[k - 1], s[k]);
    }
  }

  /** Classes that respect R are constant along the chains of its closure. */
  lemma RespectedByClosure<T(!new), L>(R: set<(T, T)>, cls: map<T, L>, a: T, b: T)
    requires Respects(R, cls) && Connected(R, a, b) && a in cls
    ensures b in cls && cls[a] == cls[b]
  {
    var s: seq<T> :| Joins(R, a, b, s);
    ChainClass(R, cls, s, |s| - 1);
  }

  /** Elements of one class are joined by a chain of R. */
  ghost predicate Sound<T(!new), L>(R: set<(T, T)>, cls: map<T, L>) {
    forall a, b {:trigger Connected(R, a, b)} :: a in cls && b in cls && cls[a] == cls[b] ==> Connected(R, a, b)
  }

  /** The classes are exactly those of R's closure. */
  ghost predicate IsClosure<T(!new), L>(R: set<(T, T)>, cls: map<T, L>) {
    forall a, b {:trigger Connected(R, a, b)} :: a in cls && b in cls ==> (cls[a] == cls[b] <==> Connected(R, a, b))
  }

  lemma SoundAndRespecting<T(!new), L>(R: set<(T, T)>, cls: map<T, L>)
    requires Respects(R, cls) && Sound(R, cls)
    ensures IsClosure(R, cls)
  {
    forall a, b | a in cls && b in cls && Connected(R, a, b) ensures cls[a] == cls[b] {
      RespectedByClosure(R, cls, a, b);
    }
  }

  lemma EdgeInOneClass<T(!new), L>(R: set<(T, T)>, cls: map<T, L>, a: T, b: T)
    requires IsClosure(R, cls) && Adjacent(R, a, b) && a in cls && b in cls
    ensures cls[a] == cls[b]
  {
    ConnectedEdge(R, a, b);
  }

  /** The classes of `cls` with class `b` taken into class `a`. */
  ghost function Merged<T>(cls: map<T, T>, a: T, b: T): map<T, T> {
    map x | x in cls :: if cls[x] == b then a else cls[x]
  }

  /** Taking one class into another keeps the classes sound, given one chain between them. */
  lemma MergedSound<T(!new)>(R: set<(T, T)>, cls: map<T, T>, x: T, y: T)
    requires Sound(R, cls) && x in cls && y in cls && Connected(R, x, y)
    ensures Sound(R, Merged(cls, cls[x], cls[y]))
  {
    var m := Merged(cls, cls[x], cls[y]);
    forall p, q | p in m && q in m && m[p] == m[q] ensures Connected(R, p, q) {
      if cls[p] == cls[q] {
      } else if cls[p] == cls[y] {
        MergedAcross(R, cls, x, y, q, p);
        ConnectedSym(R, q, p);
      } else {
        MergedAcross(R, cls, x, y, p, q);
      }
    }
  }

  lemma MergedAcross<T(!new)>(R: set<(T, T)>, cls: map<T, T>, x: T, y: T, p: T, q: T)
    requires Sound(R, cls) && {x, y, p, q} <= cls.Keys && Connected(R, x, y)
    requires cls[p] == cls[x] && cls[q] == cls[y]
    ensures Connected(R, p, q)
  {
    assert Connected(R, p, x) && Connected(R, y, q);
    ConnectedTrans(R, p, x, y);
    ConnectedTrans(R, p, y, q);
  }
}
