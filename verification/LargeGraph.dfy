/**
 What a graph made by examples/large-graph-sample.js is, and what follows from
 how it is made: packages on levels, imports that never skip a level forward,
 an import down to every package, and a tree of imports inside each package.
 */
module LargeGraph {

  /** A file: its package, and its place in the package; place 0 is the package's entry. */
  datatype File = File(pkg: nat, place: nat)

  type Imports = set<(File, File)>

  /** A package's files are places 0 to its count; package 0 is the app's own source. */
  datatype Graph = Graph(counts: seq<nat>, depth: seq<nat>, imports: Imports)

  function Sum(s: seq<nat>): nat {
    if s == [] then 0 else Sum(s[..|s| - 1]) + s[|s| - 1]
  }

  predicate IsFile(counts: seq<nat>, f: File) {
    f.pkg < |counts| && f.place < counts[f.pkg]
  }

  function CrossOf(imports: Imports): Imports {
    set e | e in imports && e.0.pkg != e.1.pkg
  }

  /** Imports join two files of the graph, and go at most one level further from own source. */
  predicate StepsOk(counts: seq<nat>, depth: seq<nat>, imports: Imports)
    requires |depth| == |counts|
  {
    forall e :: e in imports ==>
      IsFile(counts, e.0) && IsFile(counts, e.1) && e.0 != e.1 && depth[e.1.pkg] <= depth[e.0.pkg] + 1
  }

  /** A package is imported at its entry from a package one level nearer own source. */
  predicate HasParent(depth: seq<nat>, imports: Imports, p: nat) {
    exists e :: e in imports && e.0.pkg < |depth| && p < |depth| && e.1 == File(p, 0) && depth[e.0.pkg] + 1 == depth[p]
  }

  /** Inside a package, the file at each place but the entry is imported from the place a sixth as far along. */
  predicate HasTree(imports: Imports, p: nat, upto: nat) {
    forall i: nat :: 1 <= i < upto ==> TreeLink(imports, p, i)
  }

  predicate TreeLink(imports: Imports, p: nat, i: nat)
    requires i > 0
  {
    (File(p, (i - 1) / 6), File(p, i)) in imports
  }

  lemma TreesStay(was: Imports, imports: Imports, p: nat, upto: nat)
    requires was <= imports && HasTree(was, p, upto)
    ensures HasTree(imports, p, upto)
  {
    forall i: nat | 1 <= i < upto ensures TreeLink(imports, p, i) { assert TreeLink(was, p, i); }
  }

  predicate Made(g: Graph) {
    && |g.depth| == |g.counts| > 0
    && (forall p :: 0 <= p < |g.depth| ==> (g.depth[p] == 0 <==> p == 0) && g.counts[p] > 0)
    && StepsOk(g.counts, g.depth, g.imports)
    && (forall p: nat :: 0 < p < |g.depth| ==> HasParent(g.depth, g.imports, p))
    && (forall p: nat :: p < |g.depth| ==> HasTree(g.imports, p, g.counts[p]))
  }

  // ---- packages: the level is the shortest import distance from own source ----

  predicate PkgLink(imports: Imports, p: nat, q: nat) {
    exists e :: e in imports && e.0.pkg == p && e.1.pkg == q
  }

  /** Packages each importing the next, from own source. */
  predicate PkgPath(imports: Imports, path: seq<nat>) {
    path != [] && path[0] == 0 && forall i :: 0 <= i < |path| - 1 ==> PkgLink(imports, path[i], path[i + 1])
  }

  lemma {:induction false} NoShortcut(g: Graph, path: seq<nat>)
    requires Made(g) && PkgPath(g.imports, path)
    ensures path[|path| - 1] < |g.depth| && g.depth[path[|path| - 1]] <= |path| - 1
  {
    if |path| > 1 {
      var n := |path| - 1;
      var init := path[..n];
      assert forall i :: 0 <= i < |init| ==> init[i] == path[i];
      NoShortcut(g, init);
      assert PkgLink(g.imports, path[n - 1], path[n]);
      var e :| e in g.imports && e.0.pkg == path[n - 1] && e.1.pkg == path[n];
    }
  }

  lemma {:induction false} PathDown(g: Graph, p: nat) returns (path: seq<nat>)
    requires Made(g) && p < |g.depth|
    ensures PkgPath(g.imports, path) && path[|path| - 1] == p && |path| - 1 == g.depth[p]
    decreases g.depth[p]
  {
    if p == 0 {
      path := [0];
    } else {
      assert HasParent(g.depth, g.imports, p);
      var e :| e in g.imports && e.0.pkg < |g.depth| && e.1 == File(p, 0) && g.depth[e.0.pkg] + 1 == g.depth[p];
      var up := PathDown(g, e.0.pkg);
      path := up + [p];
      forall i | 0 <= i < |path| - 1 ensures PkgLink(g.imports, path[i], path[i + 1]) {
        if i == |up| - 1 { assert path[i] == e.0.pkg; } else { assert up[i] == path[i] && up[i + 1] == path[i + 1]; }
      }
    }
  }

  /**
   The level given to a package is its shortest import distance from own source: some path has that length and
   none is shorter.
   */
  lemma LevelIsDistance(g: Graph, p: nat)
    requires Made(g) && p < |g.depth|
    ensures exists path :: PkgPath(g.imports, path) && path[|path| - 1] == p && |path| - 1 == g.depth[p]
    ensures forall path :: PkgPath(g.imports, path) && path[|path| - 1] == p ==> g.depth[p] <= |path| - 1
  {
    var path := PathDown(g, p);
    forall path | PkgPath(g.imports, path)
        && path[|path| - 1] == p ensures g.depth[p] <= |path| - 1 { NoShortcut(g, path); }
  }

  // ---- files: every one is reached from the app's entry ----

  predicate FilePath(imports: Imports, path: seq<File>) {
    path != [] && path[0] == File(0, 0) && forall i :: 0 <= i < |path| - 1 ==> (path[i], path[i + 1]) in imports
  }

  lemma Extended(imports: Imports, path: seq<File>, f: File)
    requires FilePath(imports, path) && (path[|path| - 1], f) in imports
    ensures FilePath(imports, path + [f])
  {
    var more := path + [f];
    forall i | 0 <= i < |more| - 1 ensures (more[i], more[i + 1]) in imports {
      if i < |path| - 1 { assert (path[i], path[i + 1]) in imports; }
    }
  }

  /** Every file is reached by imports from the app's entry. */
  lemma {:induction false} EveryFileReached(g: Graph, f: File) returns (path: seq<File>)
    requires Made(g) && IsFile(g.counts, f)
    ensures FilePath(g.imports, path) && path[|path| - 1] == f
    decreases g.depth[f.pkg], f.place
  {
    if f.place > 0 {
      assert HasTree(g.imports, f.pkg, g.counts[f.pkg]);
      assert TreeLink(g.imports, f.pkg, f.place);
      path := EveryFileReached(g, File(f.pkg, (f.place - 1) / 6));
      assert f == File(f.pkg, f.place);
      Extended(g.imports, path, f);
      path := path + [f];
    } else if f.pkg == 0 {
      path := [f];
    } else {
      assert HasParent(g.depth, g.imports, f.pkg);
      var e :| e in g.imports && e.0.pkg < |g.depth| && e.1 == File(f.pkg, 0) && g.depth[e.0.pkg] + 1 == g.depth[f.pkg];
      path := EveryFileReached(g, e.0);
      Extended(g.imports, path, f);
      path := path + [f];
    }
  }
}
