/**
 The mutable components of mergeReportGroups: parent pointers, and for each
 root whether its component holds an App row. Both phases, and the explicit
 hints after them, walk the ids in whatever order and must leave the closure of
 what WorkspaceRows says they join.
 */
module WorkspaceComponents {
  import opened Buckets
  import opened Closure
  import opened WorkspaceRows
  import Forest

  type Classes = map<nat, nat>

  /** Some row of class `r` is an App row. */
  ghost predicate ClassHasApp(rep: Classes, own: seq<bool>, r: nat) {
    exists i: nat :: i < |own| && i in rep && rep[i] == r && own[i]
  }

  /** Each root's flag says whether its class has an App row. */
  ghost predicate FlagsExact(rep: Classes, flags: seq<bool>, own: seq<bool>) {
    && |flags| == |own|
    && (forall i: nat :: i in rep <==> i < |own|)
    && (forall r: nat :: r < |flags| && rep[r] == r ==> (flags[r] <==> ClassHasApp(rep, own, r)))
  }

  lemma FlagsMerged(rep: Classes, flags: seq<bool>, own: seq<bool>, a: nat, b: nat)
    requires FlagsExact(rep, flags, own) && a < |own| && b < |own| && a != b && rep[a] == a && rep[b] == b
    ensures FlagsExact(Merged(rep, a, b), flags[a := flags[a] || flags[b]], own)
  {
    var m, f := Merged(rep, a, b), flags[a := flags[a] || flags[b]];
    forall r: nat | r < |f| && m[r] == r ensures f[r] <==> ClassHasApp(m, own, r) {
      if ClassHasApp(m, own, r) {
        var i: nat :| i < |own| && i in m && m[i] == r && own[i];
        assert rep[i] == r || (r == a && rep[i] == b);
      }
      if ClassHasApp(rep, own, r) {
        var i: nat :| i < |own| && i in rep && rep[i] == r && own[i];
        assert m[i] == r;
      }
      if r == a && ClassHasApp(rep, own, b) {
        var i: nat :| i < |own| && i in rep && rep[i] == b && own[i];
        assert m[i] == r;
      }
    }
  }

  /** Nothing that was together is apart. */
  ghost predicate Coarsens(was: Classes, now: Classes) {
    was.Keys == now.Keys && forall i, j :: i in was && j in was && was[i] == was[j] ==> now[i] == now[j]
  }

  class Components {
    const forest: Forest.RowForest
    const hasApp: array<bool>
    ghost const own: seq<bool>

    ghost predicate Valid()
      reads this, forest, forest.parent, hasApp
    {
      && forest.Valid() && hasApp.Length == forest.parent.Length == |own|
      && FlagsExact(forest.shape.rep, hasApp[..], own)
    }

    constructor (rows: seq<Row>)
      ensures Valid() && fresh(forest) && fresh(forest.parent) && fresh(hasApp)
      ensures |own| == |rows| && forall i :: 0 <= i < |rows| ==> own[i] == rows[i].hasApp
      ensures forall i :: i in forest.shape.rep ==> forest.shape.rep[i] == i
    {
      var f := new Forest.RowForest(|rows|);
      var h := new bool[|rows|](i requires 0 <= i < |rows| => rows[i].hasApp);
      forest, hasApp := f, h;
      own := seq(|rows|, i requires 0 <= i < |rows| => rows[i].hasApp);
      new;
      forall r: nat | r < |rows| ensures hasApp[r] <==> ClassHasApp(forest.shape.rep, own, r) {
        assert r in forest.shape.rep;
      }
    }

    method Find(i: nat) returns (root: nat)
      requires Valid() && i < |own|
      modifies forest.parent
      ensures Valid() && root < |own| && root == forest.shape.rep[i] && forest.shape.rep[root] == root
    {
      root := forest.FindCompress(i);
    }

    /** Join two rows' components; an App row on either side makes the whole an App component. */
    method Union(x: nat, y: nat)
      requires Valid() && x < |own| && y < |own|
      modifies forest, forest.parent, hasApp
      ensures Valid()
      ensures forest.shape.rep == Merged(old(forest.shape.rep), old(forest.shape.rep[x]), old(forest.shape.rep[y]))
    {
      var a := Find(x);
      var b := Find(y);
      if a == b {
        assert Merged(forest.shape.rep, a, b) == forest.shape.rep;
        return;
      }
      FlagsMerged(forest.shape.rep, hasApp[..], own, a, b);
      ghost var flags := hasApp[..];
      forest.Attach(a, b);
      hasApp[a] := hasApp[a] || hasApp[b];
      assert hasApp[..] == flags[a := flags[a] || flags[b]];
    }
  }

  /** The occurrences listed for `id` are those the rows show. */
  ghost predicate Lists(occurrences: seq<Occurrence>, rows: seq<Row>, id: string) {
    && id != ""
    && (forall o :: o in occurrences <==> o.index < |rows| && Shows(rows[o.index], id, o.app))
  }

  lemma ListsFromIndex(byId: Grouping<string, Occurrence>, rows: seq<Row>, id: string)
    requires Indexes(byId, rows) && id in byId.lists
    ensures Lists(byId.lists[id], rows, id)
  {
    assert IndexedAt(byId, rows, id);
  }

  /** Rows that share `id` are listed under it; and listed rows share it. */
  lemma ListedShares(occurrences: seq<Occurrence>, rows: seq<Row>, id: string, k: nat, l: nat)
    requires Lists(occurrences, rows, id) && k < |occurrences| && l < |occurrences|
    ensures occurrences[k].index < |rows| && occurrences[l].index < |rows|
    ensures ShareId(rows, occurrences[k].index, occurrences[l].index, id)
    ensures occurrences[k].app ==> AppCarried(rows, id)
  {
    assert occurrences[k] in occurrences && occurrences[l] in occurrences;
    var o, p := occurrences[k], occurrences[l];
    assert Shows(rows[o.index], id, o.app) && Shows(rows[p.index], id, p.app);
    if o.app { assert HoldsApp(rows[o.index], id); }
  }

  lemma HolderListed(occurrences: seq<Occurrence>, rows: seq<Row>, id: string, i: nat) returns (k: nat)
    requires Lists(occurrences, rows, id) && i < |rows| && Holds(rows[i], id)
    ensures k < |occurrences| && occurrences[k].index == i
  {
    var f :| f in rows[i].group && f.id == id;
    assert Shows(rows[i], id, f.isApp);
    assert Occurrence(i, f.isApp) in occurrences;
    k :| 0 <= k < |occurrences| && occurrences[k] == Occurrence(i, f.isApp);
  }

  lemma AppHolderListed(occurrences: seq<Occurrence>, rows: seq<Row>, id: string)
    requires Lists(occurrences, rows, id) && AppCarried(rows, id)
    ensures exists k :: 0 <= k < |occurrences| && occurrences[k].app
  {
    var i :| 0 <= i < |rows| && HoldsApp(rows[i], id);
    assert Shows(rows[i], id, true);
    assert Occurrence(i, true) in occurrences;
  }

  // ---- phase one ----

  /** What phase one joins for one id is joined. */
  ghost predicate Established(rows: seq<Row>, id: string, rep: Classes) {
    forall i: nat, j: nat {:trigger ShareId(rows, i, j, id)} ::
      ShareId(rows, i, j, id) && (AppCarried(rows, id) || rows[i].report == rows[j].report)
      ==> i in rep && j in rep && rep[i] == rep[j]
  }

  lemma StaysEstablished(rows: seq<Row>, id: string, was: Classes, now: Classes)
    requires Established(rows, id, was) && Coarsens(was, now)
    ensures Established(rows, id, now)
  {}

  lemma FirstJoinSound(rows: seq<Row>, id: string, rep: Classes, i: nat, j: nat)
    requires ShareId(rows, i, j, id) && (AppCarried(rows, id) || rows[i].report == rows[j].report)
    requires Sound(FirstPhase(rows), rep) && i in rep && j in rep
    ensures Sound(FirstPhase(rows), Merged(rep, rep[i], rep[j]))
  {
    assert FirstJoins(rows, i, j);
    ConnectedEdge(FirstPhase(rows), i, j);
    MergedSound(FirstPhase(rows), rep, i, j);
  }

  lemma FirstPhaseDone(rows: seq<Row>, byId: Grouping<string, Occurrence>, rep: Classes)
    requires Indexes(byId, rows) && Sound(FirstPhase(rows), rep)
    requires forall id :: id in byId.lists ==> Established(rows, id, rep)
    ensures IsClosure(FirstPhase(rows), rep)
  {
    forall i: nat, j: nat | (i, j) in FirstPhase(rows) ensures i in rep && j in rep && rep[i] == rep[j] {
      assert FirstJoins(rows, i, j);
      var id :| ShareId(rows, i, j, id) && (AppCarried(rows, id) || rows[i].report == rows[j].report);
      SharedIsIndexed(byId, rows, i, j, id);
      assert Established(rows, id, rep);
    }
    SoundAndRespecting(FirstPhase(rows), rep);
  }

  lemma SharedIsIndexed(byId: Grouping<string, Occurrence>, rows: seq<Row>, i: nat, j: nat, id: string)
    requires Indexes(byId, rows) && ShareId(rows, i, j, id)
    ensures id in byId.lists
  {
    assert IndexedAt(byId, rows, id);
    var f :| f in rows[i].group && f.id == id;
    var o := Occurrence(i, f.isApp);
    assert Shows(rows[o.index], id, o.app);
  }

  /** The first App occurrence of an id, if any. */
  method FirstApp(occurrences: seq<Occurrence>) returns (found: bool, at: nat)
    ensures found ==> at < |occurrences| && occurrences[at].app
    ensures !found ==> forall k :: 0 <= k < |occurrences| ==> !occurrences[k].app
  {
    at := 0;
    while at < |occurrences|
      invariant at <= |occurrences| && forall k :: 0 <= k < at ==> !occurrences[k].app
    {
      if occurrences[at].app { return true, at; }
      at := at + 1;
    }
    found := false;
  }

  /** One union of phase one. */
  method JoinFirst(ghost rows: seq<Row>, ghost id: string, c: Components, i: nat, j: nat)
    requires c.Valid() && |rows| == |c.own| && Sound(FirstPhase(rows), c.forest.shape.rep)
    requires ShareId(rows, i, j, id) && (AppCarried(rows, id) || rows[i].report == rows[j].report)
    modifies c.forest, c.forest.parent, c.hasApp
    ensures c.Valid() && Coarsens(old(c.forest.shape.rep), c.forest.shape.rep)
    ensures Sound(FirstPhase(rows), c.forest.shape.rep)
    ensures c.forest.shape.rep[i] == c.forest.shape.rep[j]
  {
    FirstJoinSound(rows, id, c.forest.shape.rep, i, j);
    c.Union(i, j);
  }

  /** Phase one for one id: everything joins its App occurrence, and overlaps join inside each report. */
  method EstablishId(rows: seq<Row>, ghost id: string, occurrences: seq<Occurrence>, c: Components)
    requires c.Valid() && |rows| == |c.own| && Lists(occurrences, rows, id)
    requires Sound(FirstPhase(rows), c.forest.shape.rep)
    modifies c.forest, c.forest.parent, c.hasApp
    ensures c.Valid() && Coarsens(old(c.forest.shape.rep), c.forest.shape.rep)
    ensures Sound(FirstPhase(rows), c.forest.shape.rep) && Established(rows, id, c.forest.shape.rep)
  {
    ghost var was := c.forest.shape.rep;
    var hasAppEntry, app := FirstApp(occurrences);
    var ownReports: map<nat, nat> := map[];
    forall o | o in occurrences ensures o.index in was {}
    for k := 0 to |occurrences|
      invariant c.Valid() && Coarsens(was, c.forest.shape.rep) && Sound(FirstPhase(rows), c.forest.shape.rep)
      invariant OwnReports(ownReports, rows, occurrences, k)
      invariant Gathered(occurrences, k, hasAppEntry, app, ownReports, rows, c.forest.shape.rep)
    {
      ListedShares(occurrences, rows, id, k, k);
      ghost var rep := c.forest.shape.rep;
      var index := occurrences[k].index;
      if hasAppEntry {
        ListedShares(occurrences, rows, id, app, k);
        JoinFirst(rows, id, c, occurrences[app].index, index);
      }
      ghost var mid := c.forest.shape.rep;
      var report := rows[index].report;
      if report in ownReports {
        ghost var l := OwnPlace(ownReports, rows, occurrences, k, report);
        ListedShares(occurrences, rows, id, l, k);
        JoinFirst(rows, id, c, ownReports[report], index);
      }
      StaysGathered(occurrences, k, hasAppEntry, app, ownReports, rows, rep, c.forest.shape.rep);
      ghost var before := ownReports;
      if report !in ownReports {
        ownReports := ownReports[report := index];
      }
      OneMoreOwn(before, ownReports, rows, occurrences, k);
      OneMoreGathered(occurrences, k, hasAppEntry, app, before, ownReports, rows, c.forest.shape.rep);
    }
    GatheredEstablishes(rows, id, occurrences, hasAppEntry, app, ownReports, c.forest.shape.rep);
  }

  lemma OneMoreOwn(before: map<nat, nat>, ownReports: map<nat, nat>, rows: seq<Row>, occurrences: seq<Occurrence>,
                   k: nat)
    requires k < |occurrences| && forall o :: o in occurrences ==> o.index < |rows|
    requires OwnReports(before, rows, occurrences, k)
    requires ownReports == if rows[occurrences[k].index].report in before then before
                           else before[rows[occurrences[k].index].report := occurrences[k].index]
    ensures OwnReports(ownReports, rows, occurrences, k + 1)
  {
    forall r | r in ownReports
      ensures exists l :: 0 <= l < k + 1 && occurrences[l].index == ownReports[r] && rows[ownReports[r]].report == r
    {
      if r in before {
        var l := OwnPlace(before, rows, occurrences, k, r);
        assert occurrences[l].index == ownReports[r];
      } else {
        assert occurrences[k].index == ownReports[r];
      }
    }
  }

  lemma OneMoreGathered(occurrences: seq<Occurrence>, k: nat, hasAppEntry: bool, app: nat,
                        before: map<nat, nat>, ownReports: map<nat, nat>, rows: seq<Row>, rep: Classes)
    requires k < |occurrences| && (hasAppEntry ==> app < |occurrences|)
    requires forall o :: o in occurrences ==> o.index < |rows|
    requires OwnReports(before, rows, occurrences, k)
    requires ownReports == if rows[occurrences[k].index].report in before then before
                           else before[rows[occurrences[k].index].report := occurrences[k].index]
    requires Gathered(occurrences, k, hasAppEntry, app, before, rows, rep)
    requires hasAppEntry ==> rep[occurrences[k].index] == rep[occurrences[app].index]
    requires rows[occurrences[k].index].report in before ==>
               before[rows[occurrences[k].index].report] in rep
               && rep[occurrences[k].index] == rep[before[rows[occurrences[k].index].report]]
    ensures Gathered(occurrences, k + 1, hasAppEntry, app, ownReports, rows, rep)
  {
    assert occurrences[k] in occurrences;
  }

  /** Each report's first row among the occurrences so far. */
  ghost predicate OwnReports(ownReports: map<nat, nat>, rows: seq<Row>, occurrences: seq<Occurrence>, n: nat)
    requires n <= |occurrences| && forall o :: o in occurrences ==> o.index < |rows|
  {
    && (forall k :: 0 <= k < n ==> rows[occurrences[k].index].report in ownReports)
    && (forall r :: r in ownReports ==> exists l ::
      0 <= l < n && occurrences[l].index == ownReports[r] && rows[ownReports[r]].report == r)
  }

  lemma OwnPlace(ownReports: map<nat, nat>, rows: seq<Row>, occurrences: seq<Occurrence>, n: nat, r: nat)
      returns (l: nat)
    requires n <= |occurrences| && forall o :: o in occurrences ==> o.index < |rows|
    requires OwnReports(ownReports, rows, occurrences, n) && r in ownReports
    ensures l < n && occurrences[l].index == ownReports[r] && ownReports[r] < |rows| && rows[ownReports[r]].report == r
  {
    l :| 0 <= l < n && occurrences[l].index == ownReports[r] && rows[ownReports[r]].report == r;
    assert occurrences[l] in occurrences;
  }

  /** The first `n` occurrences have joined the App one, and their report's first. */
  ghost predicate Gathered(occurrences: seq<Occurrence>, n: nat, hasAppEntry: bool, app: nat,
                           ownReports: map<nat, nat>, rows: seq<Row>, rep: Classes)
    requires n <= |occurrences| && (hasAppEntry ==> app < |occurrences|)
    requires forall o :: o in occurrences ==> o.index < |rows|
  {
    && (forall o :: o in occurrences ==> o.index in rep)
    && (forall k :: 0 <= k < n && hasAppEntry ==> rep[occurrences[k].index] == rep[occurrences[app].index])
    && (forall k :: 0 <= k < n && rows[occurrences[k].index].report in ownReports ==>
          ownReports[rows[occurrences[k].index].report] in rep
          && rep[occurrences[k].index] == rep[ownReports[rows[occurrences[k].index].report]])
  }

  lemma StaysGathered(occurrences: seq<Occurrence>, n: nat, hasAppEntry: bool, app: nat,
                      ownReports: map<nat, nat>, rows: seq<Row>, was: Classes, now: Classes)
    requires n <= |occurrences| && (hasAppEntry ==> app < |occurrences|)
    requires forall o :: o in occurrences ==> o.index < |rows|
    requires Gathered(occurrences, n, hasAppEntry, app, ownReports, rows, was) && Coarsens(was, now)
    ensures Gathered(occurrences, n, hasAppEntry, app, ownReports, rows, now)
  {
    forall k | 0 <= k < n ensures occurrences[k].index in was { assert occurrences[k] in occurrences; }
    if hasAppEntry { assert occurrences[app] in occurrences; }
  }

  lemma GatheredEstablishes(rows: seq<Row>, id: string, occurrences: seq<Occurrence>, hasAppEntry: bool, app: nat,
                            ownReports: map<nat, nat>, rep: Classes)
    requires Lists(occurrences, rows, id) && (hasAppEntry ==> app < |occurrences|)
    requires !hasAppEntry ==> forall k :: 0 <= k < |occurrences| ==> !occurrences[k].app
    requires OwnReports(ownReports, rows, occurrences, |occurrences|)
    requires Gathered(occurrences, |occurrences|, hasAppEntry, app, ownReports, rows, rep)
    ensures Established(rows, id, rep)
  {
    forall i: nat, j: nat | ShareId(rows, i, j, id) && (AppCarried(rows, id) || rows[i].report == rows[j].report)
      ensures i in rep && j in rep && rep[i] == rep[j]
    {
      var k := HolderListed(occurrences, rows, id, i);
      var l := HolderListed(occurrences, rows, id, j);
      assert occurrences[k] in occurrences && occurrences[l] in occurrences;
      if AppCarried(rows, id) {
        AppHolderListed(occurrences, rows, id);
      }
    }
  }

  /** Phase one, over the ids in any order. */
  method FirstPass(rows: seq<Row>, byId: Grouping<string, Occurrence>, c: Components)
    requires c.Valid() && |rows| == |c.own| && Indexes(byId, rows)
    requires forall i :: i in c.forest.shape.rep ==> c.forest.shape.rep[i] == i
    modifies c.forest, c.forest.parent, c.hasApp
    ensures c.Valid() && IsClosure(FirstPhase(rows), c.forest.shape.rep)
  {
    assert Sound(FirstPhase(rows), c.forest.shape.rep) by {
      forall a, b | a in c.forest.shape.rep && b in c.forest.shape.rep && c.forest.shape.rep[a] == c.forest.shape.rep[b]
        ensures Connected(FirstPhase(rows), a, b)
      {
        ConnectedSelf(FirstPhase(rows), a);
      }
    }
    var todo := byId.lists.Keys;
    while todo != {}
      invariant c.Valid() && Sound(FirstPhase(rows), c.forest.shape.rep) && todo <= byId.lists.Keys
      invariant forall id :: id in byId.lists && id !in todo ==> Established(rows, id, c.forest.shape.rep)
      decreases todo
    {
      var id :| id in todo;
      ListsFromIndex(byId, rows, id);
      ghost var rep := c.forest.shape.rep;
      EstablishId(rows, id, byId.lists[id], c);
      forall x | x in byId.lists && x !in todo - {id} ensures Established(rows, x, c.forest.shape.rep) {
        if x != id { StaysEstablished(rows, x, rep, c.forest.shape.rep); }
      }
      todo := todo - {id};
    }
    FirstPhaseDone(rows, byId, c.forest.shape.rep);
  }

  // ---- phase two ----

  ghost function TwoPhases(rows: seq<Row>): set<(nat, nat)> {
    FirstPhase(rows) + SecondPhase(rows)
  }

  /** What phase two joins for one id is joined. */
  ghost predicate Settled(rows: seq<Row>, id: string, rep: Classes) {
    forall i: nat, j: nat {:trigger ShareId(rows, i, j, id)} ::
      ShareId(rows, i, j, id) && AppFree(rows, i) && AppFree(rows, j) ==> i in rep && j in rep && rep[i] == rep[j]
  }

  /** Between the phases and after: `rep` keeps phase one's classes and adds only phase two's. */
  ghost predicate InSecondPass(rows: seq<Row>, first: Classes, c: Components)
    reads c, c.forest, c.forest.parent, c.hasApp
  {
    && c.Valid() && |rows| == |c.own| && (forall i :: 0 <= i < |rows| ==> c.own[i] == rows[i].hasApp)
    && IsClosure(FirstPhase(rows), first) && Coarsens(first, c.forest.shape.rep)
    && Sound(TwoPhases(rows), c.forest.shape.rep)
  }

  /** During phase two a component's flag says whether phase one gave it an App row. */
  lemma FlagIsAppFree(rows: seq<Row>, first: Classes, c: Components, i: nat)
    requires InSecondPass(rows, first, c) && i < |rows|
    requires i in c.forest.shape.rep && c.forest.shape.rep[i] < |rows|
    ensures ClassHasApp(c.forest.shape.rep, c.own, c.forest.shape.rep[i]) <==> !AppFree(rows, i)
  {
    var rep := c.forest.shape.rep;
    if ClassHasApp(rep, c.own, rep[i]) {
      var j: nat :| j < |c.own| && j in rep && rep[j] == rep[i] && c.own[j];
      assert Connected(TwoPhases(rows), j, i);
      ConnectedSelf(FirstPhase(rows), j);
      SourceRowsNeverBridge(rows, j, i);
      ConnectedSym(FirstPhase(rows), j, i);
    }
    if !AppFree(rows, i) {
      var j: nat :| j < |rows| && Connected(FirstPhase(rows), i, j) && rows[j].hasApp;
      assert first[i] == first[j];
      assert rep[i] == rep[j];
    }
  }

  /** One union of phase two. */
  method JoinSecond(ghost rows: seq<Row>, ghost first: Classes, ghost id: string, c: Components, i: nat, j: nat)
    requires InSecondPass(rows, first, c)
    requires ShareId(rows, i, j, id) && AppFree(rows, i) && AppFree(rows, j)
    modifies c.forest, c.forest.parent, c.hasApp
    ensures InSecondPass(rows, first, c) && Coarsens(old(c.forest.shape.rep), c.forest.shape.rep)
    ensures c.forest.shape.rep[i] == c.forest.shape.rep[j]
  {
    assert SecondJoins(rows, i, j);
    assert (i, j) in TwoPhases(rows);
    ConnectedEdge(TwoPhases(rows), i, j);
    MergedSound(TwoPhases(rows), c.forest.shape.rep, i, j);
    c.Union(i, j);
  }

  /** The test `hasApp[find(index)]`. */
  method TestFree(ghost rows: seq<Row>, ghost first: Classes, c: Components, index: nat) returns (free: bool)
    requires InSecondPass(rows, first, c) && index < |rows|
    modifies c.forest.parent
    ensures InSecondPass(rows, first, c) && (free <==> AppFree(rows, index))
  {
    var root := c.Find(index);
    FlagIsAppFree(rows, first, c, index);
    assert c.hasApp[..][root] == c.hasApp[root];
    free := !c.hasApp[root];
  }

  /** Phase two for one id: its App-free rows join the first of them. */
  method SettleId(rows: seq<Row>, ghost first: Classes, ghost id: string, occurrences: seq<Occurrence>, c: Components)
    requires InSecondPass(rows, first, c) && Lists(occurrences, rows, id)
    modifies c.forest, c.forest.parent, c.hasApp
    ensures InSecondPass(rows, first, c) && Coarsens(old(c.forest.shape.rep), c.forest.shape.rep)
    ensures Settled(rows, id, c.forest.shape.rep)
  {
    var any: bool, head: nat := false, 0;
    ghost var was := c.forest.shape.rep;
    for k := 0 to |occurrences|
      invariant InSecondPass(rows, first, c) && Coarsens(was, c.forest.shape.rep)
      invariant any ==> AppFree(rows, head) && ShareId(rows, head, head, id)
      invariant SettledUpTo(rows, occurrences, k, any, head, c.forest.shape.rep)
    {
      ListedShares(occurrences, rows, id, k, k);
      ghost var any0, head0, rep := any, head, c.forest.shape.rep;
      var index := occurrences[k].index;
      var free := TestFree(rows, first, c, index);
      if free {
        if !any {
          any, head := true, index;
        } else {
          JoinSecond(rows, first, id, c, head, index);
        }
      }
      SettledOneMore(rows, occurrences, k, any0, head0, rep, any, head, c.forest.shape.rep);
    }
    AllSettled(rows, id, occurrences, any, head, c.forest.shape.rep);
  }

  lemma SettledOneMore(rows: seq<Row>, occurrences: seq<Occurrence>, k: nat, any0: bool, head0: nat, was: Classes,
                       any: bool, head: nat, now: Classes)
    requires k < |occurrences| && SettledUpTo(rows, occurrences, k, any0, head0, was) && Coarsens(was, now)
    requires any0 ==> any && head == head0
    requires AppFree(rows, occurrences[k].index) ==>
      any && head in now && occurrences[k].index in now && now[occurrences[k].index] == now[head]
    ensures SettledUpTo(rows, occurrences, k + 1, any, head, now)
  {}

  lemma AllSettled(rows: seq<Row>, id: string, occurrences: seq<Occurrence>, any: bool, head: nat, rep: Classes)
    requires Lists(occurrences, rows, id) && SettledUpTo(rows, occurrences, |occurrences|, any, head, rep)
    ensures Settled(rows, id, rep)
  {
    forall i: nat, j: nat | ShareId(rows, i, j, id) && AppFree(rows, i) && AppFree(rows, j)
      ensures i in rep && j in rep && rep[i] == rep[j]
    {
      var k := HolderListed(occurrences, rows, id, i);
      var l := HolderListed(occurrences, rows, id, j);
    }
  }

  ghost predicate SettledUpTo(rows: seq<Row>, occurrences: seq<Occurrence>, n: nat, any: bool, head: nat, rep: Classes)
    requires n <= |occurrences|
  {
    forall k :: 0 <= k < n && AppFree(rows, occurrences[k].index) ==>
      any && head in rep && occurrences[k].index in rep && rep[occurrences[k].index] == rep[head]
  }

  /** Phase two, over the ids in any order. */
  method SecondPass(rows: seq<Row>, byId: Grouping<string, Occurrence>, c: Components)
    requires c.Valid() && |rows| == |c.own| && (forall i :: 0 <= i < |rows| ==> c.own[i] == rows[i].hasApp)
    requires Indexes(byId, rows) && IsClosure(FirstPhase(rows), c.forest.shape.rep)
    modifies c.forest, c.forest.parent, c.hasApp
    ensures c.Valid() && IsClosure(TwoPhases(rows), c.forest.shape.rep)
  {
    ghost var first := c.forest.shape.rep;
    FirstIsSound(rows, first);
    var todo := byId.lists.Keys;
    while todo != {}
      invariant InSecondPass(rows, first, c) && todo <= byId.lists.Keys
      invariant forall id :: id in byId.lists && id !in todo ==> Settled(rows, id, c.forest.shape.rep)
      decreases todo
    {
      var id :| id in todo;
      ListsFromIndex(byId, rows, id);
      ghost var rep := c.forest.shape.rep;
      SettleId(rows, first, id, byId.lists[id], c);
      forall x | x in byId.lists && x !in todo - {id} ensures Settled(rows, x, c.forest.shape.rep) {
        if x != id { StaysSettled(rows, x, rep, c.forest.shape.rep); }
      }
      todo := todo - {id};
    }
    TwoPhasesDone(rows, byId, first, c.forest.shape.rep);
  }

  lemma StaysSettled(rows: seq<Row>, id: string, was: Classes, now: Classes)
    requires Settled(rows, id, was) && Coarsens(was, now)
    ensures Settled(rows, id, now)
  {}

  lemma FirstIsSound(rows: seq<Row>, first: Classes)
    requires IsClosure(FirstPhase(rows), first)
    ensures Sound(TwoPhases(rows), first)
  {
    forall a, b | a in first && b in first && first[a] == first[b] ensures Connected(TwoPhases(rows), a, b) {
      assert Connected(FirstPhase(rows), a, b);
      ConnectedMono(FirstPhase(rows), TwoPhases(rows), a, b);
    }
  }

  lemma TwoPhasesDone(rows: seq<Row>, byId: Grouping<string, Occurrence>, first: Classes, rep: Classes)
    requires Indexes(byId, rows) && IsClosure(FirstPhase(rows), first) && Coarsens(first, rep)
    requires Sound(TwoPhases(rows), rep) && forall i: nat :: i in rep <==> i < |rows|
    requires forall id :: id in byId.lists ==> Settled(rows, id, rep)
    ensures IsClosure(TwoPhases(rows), rep)
  {
    forall i: nat, j: nat | (i, j) in TwoPhases(rows) ensures i in rep && j in rep && rep[i] == rep[j] {
      if (i, j) in FirstPhase(rows) {
        EdgeInOneClass(FirstPhase(rows), first, i, j);
      } else {
        assert SecondJoins(rows, i, j);
        var id :| ShareId(rows, i, j, id);
        SharedIsIndexed(byId, rows, i, j, id);
        assert Settled(rows, id, rep);
      }
    }
    SoundAndRespecting(TwoPhases(rows), rep);
  }

  // ---- explicit hints ----

  ghost function AllPhases(rows: seq<Row>, merges: seq<seq<string>>): set<(nat, nat)> {
    TwoPhases(rows) + HintPhase(rows, merges)
  }

  /** Rows holding ids of one merge are joined. */
  ghost predicate Hinted(rows: seq<Row>, merge: seq<string>, rep: Classes) {
    exists r :: HintedTo(rows, merge, rep, r)
  }

  ghost predicate HintedTo(rows: seq<Row>, ids: seq<string>, rep: Classes, r: nat) {
    forall x, i: nat {:trigger ShareId(rows, i, i, x)} :: x in ids && ShareId(rows, i, i, x) ==> i in rep && rep[i] == r
  }

  /** Taking hints: only rows the hints or the phases join are together. */
  ghost predicate InHints(rows: seq<Row>, merges: seq<seq<string>>, c: Components)
    reads c, c.forest, c.forest.parent, c.hasApp
  {
    c.Valid() && |rows| == |c.own| && Sound(AllPhases(rows, merges), c.forest.shape.rep)
  }

  method JoinHinted(ghost rows: seq<Row>, ghost merges: seq<seq<string>>, ghost m: nat, ghost x: string,
                    ghost y: string,
                    c: Components, i: nat, j: nat)
    requires InHints(rows, merges, c)
    requires m < |merges| && x in merges[m] && y in merges[m] && ShareId(rows, i, i, x) && ShareId(rows, j, j, y)
    modifies c.forest, c.forest.parent, c.hasApp
    ensures InHints(rows, merges, c)
    ensures Coarsens(old(c.forest.shape.rep), c.forest.shape.rep) && c.forest.shape.rep[i] == c.forest.shape.rep[j]
  {
    assert HintJoins(rows, merges, i, j);
    assert (i, j) in AllPhases(rows, merges);
    ConnectedEdge(AllPhases(rows, merges), i, j);
    MergedSound(AllPhases(rows, merges), c.forest.shape.rep, i, j);
    c.Union(i, j);
  }

  /** Where a merge's rows are gathered, once one is found. */
  ghost predicate Heading(rows: seq<Row>, merge: seq<string>, any: bool, head: nat, headId: string) {
    any ==> headId in merge && ShareId(rows, head, head, headId)
  }

  /** The first `n` occurrences have joined the head. */
  ghost predicate AtHead(occurrences: seq<Occurrence>, n: nat, any: bool, head: nat, rep: Classes)
    requires n <= |occurrences|
  {
    && (n > 0 ==> any)
    && forall l :: 0 <= l < n ==> occurrences[l].index in rep && head in rep && rep[occurrences[l].index] == rep[head]
  }

  /** One id of a merge: the rows showing it join the first found, or the first of them heads the merge. */
  method TakeHintId(rows: seq<Row>, merges: seq<seq<string>>, ghost m: nat, ghost k: nat, occurrences: seq<Occurrence>,
                    any0: bool, head0: nat, ghost headId0: string, c: Components)
      returns (any: bool, head: nat, ghost headId: string)
    requires InHints(rows, merges, c) && m < |merges| && k < |merges[m]|
    requires occurrences != [] ==> Lists(occurrences, rows, merges[m][k])
    requires Heading(rows, merges[m], any0, head0, headId0)
    requires HintTaken(rows, merges[m][..k], any0, head0, c.forest.shape.rep)
    modifies c.forest, c.forest.parent, c.hasApp
    ensures InHints(rows, merges, c)
    ensures Coarsens(old(c.forest.shape.rep), c.forest.shape.rep)
    ensures Heading(rows, merges[m], any, head, headId)
    ensures HintTaken(rows, merges[m][..k], any, head, c.forest.shape.rep)
    ensures AtHead(occurrences, |occurrences|, any, head, c.forest.shape.rep)
  {
    any, head, headId := any0, head0, headId0;
    ghost var was, ids := c.forest.shape.rep, merges[m][..k];
    for n := 0 to |occurrences|
      invariant InHints(rows, merges, c) && Coarsens(was, c.forest.shape.rep)
      invariant Heading(rows, merges[m], any, head, headId)
      invariant HintTaken(rows, ids, any, head, c.forest.shape.rep)
      invariant AtHead(occurrences, n, any, head, c.forest.shape.rep)
    {
      ListedShares(occurrences, rows, merges[m][k], n, n);
      ghost var any1, head1, rep := any, head, c.forest.shape.rep;
      var index := occurrences[n].index;
      if !any {
        any, head, headId := true, index, merges[m][k];
      } else {
        JoinHinted(rows, merges, m, headId, merges[m][k], c, head, index);
      }
      HeadOneMore(rows, ids, occurrences, n, any1, head1, rep, head, c.forest.shape.rep);
    }
  }

  lemma HeadOneMore(rows: seq<Row>, ids: seq<string>, occurrences: seq<Occurrence>, n: nat, any: bool, head0: nat,
                    was: Classes,
                    head: nat, now: Classes)
    requires n < |occurrences| && HintTaken(rows, ids, any, head0, was) && AtHead(occurrences, n, any, head0, was)
    requires Coarsens(was, now) && (any ==> head == head0)
    requires head in now && occurrences[n].index in now && now[occurrences[n].index] == now[head]
    ensures HintTaken(rows, ids, true, head, now) && AtHead(occurrences, n + 1, true, head, now)
  {
    if any { HintKept(rows, ids, any, head, was, now); }
  }

  /** One merge: every row holding one of its ids joins the first found. */
  method TakeHint(rows: seq<Row>, byId: Grouping<string, Occurrence>, merges: seq<seq<string>>, m: nat, c: Components)
    requires InHints(rows, merges, c) && Indexes(byId, rows) && m < |merges|
    modifies c.forest, c.forest.parent, c.hasApp
    ensures InHints(rows, merges, c)
    ensures Coarsens(old(c.forest.shape.rep), c.forest.shape.rep) && Hinted(rows, merges[m], c.forest.shape.rep)
  {
    var any: bool, head: nat, merge := false, 0, merges[m];
    ghost var was, headId := c.forest.shape.rep, "";
    for k := 0 to |merge|
      invariant InHints(rows, merges, c)
      invariant Coarsens(was, c.forest.shape.rep)
      invariant Heading(rows, merge, any, head, headId)
      invariant HintTaken(rows, merge[..k], any, head, c.forest.shape.rep)
    {
      var id := merge[k];
      assert merge[..k + 1] == merge[..k] + [id];
      var occurrences := if id in byId.lists then byId.lists[id] else [];
      if id in byId.lists { ListsFromIndex(byId, rows, id); }
      any, head, headId := TakeHintId(rows, merges, m, k, occurrences, any, head, headId, c);
      HintOneMore(rows, byId, merge[..k], id, occurrences, any, head, c.forest.shape.rep);
    }
    assert merge[..|merge|] == merge;
    ghost var rep := c.forest.shape.rep;
    assert HintedTo(rows, merge, rep, if any then rep[head] else 0);
  }

  /** The ids taken so far are all held where the first was found. */
  ghost predicate HintTaken(rows: seq<Row>, ids: seq<string>, any: bool, head: nat, rep: Classes) {
    if any then head in rep && HintedTo(rows, ids, rep, rep[head])
    else forall x, i: nat {:trigger ShareId(rows, i, i, x)} :: x in ids ==> !ShareId(rows, i, i, x)
  }

  lemma HintKept(rows: seq<Row>, ids: seq<string>, any: bool, head: nat, was: Classes, now: Classes)
    requires HintTaken(rows, ids, any, head, was) && Coarsens(was, now)
    ensures HintTaken(rows, ids, any, head, now)
  {}

  lemma HintOneMore(rows: seq<Row>, byId: Grouping<string, Occurrence>, ids: seq<string>, id: string,
                    occurrences: seq<Occurrence>, any: bool, head: nat, rep: Classes)
    requires Indexes(byId, rows) && HintTaken(rows, ids, any, head, rep)
    requires occurrences == if id in byId.lists then byId.lists[id] else []
    requires AtHead(occurrences, |occurrences|, any, head, rep)
    ensures HintTaken(rows, ids + [id], any, head, rep)
  {
    forall i: nat | ShareId(rows, i, i, id) ensures any && i in rep && rep[i] == rep[head] {
      SharedIsIndexed(byId, rows, i, i, id);
      ListsFromIndex(byId, rows, id);
      var l := HolderListed(occurrences, rows, id, i);
    }
  }

  /** The hints, one after another. */
  method HintPass(rows: seq<Row>, byId: Grouping<string, Occurrence>, merges: seq<seq<string>>, c: Components)
    requires c.Valid() && |rows| == |c.own| && Indexes(byId, rows)
    requires IsClosure(TwoPhases(rows), c.forest.shape.rep)
    modifies c.forest, c.forest.parent, c.hasApp
    ensures c.Valid() && IsClosure(AllPhases(rows, merges), c.forest.shape.rep)
  {
    ghost var second := c.forest.shape.rep;
    forall a, b | a in second && b in second
        && second[a] == second[b] ensures Connected(AllPhases(rows, merges), a, b) {
      assert Connected(TwoPhases(rows), a, b);
      ConnectedMono(TwoPhases(rows), AllPhases(rows, merges), a, b);
    }
    for m := 0 to |merges|
      invariant InHints(rows, merges, c)
      invariant Coarsens(second, c.forest.shape.rep)
      invariant forall n :: 0 <= n < m ==> Hinted(rows, merges[n], c.forest.shape.rep)
    {
      ghost var rep := c.forest.shape.rep;
      TakeHint(rows, byId, merges, m, c);
      forall n | 0 <= n < m ensures Hinted(rows, merges[n], c.forest.shape.rep) {
        StaysHinted(rows, merges[n], rep, c.forest.shape.rep);
      }
    }
    AllPhasesDone(rows, merges, second, c.forest.shape.rep);
  }

  lemma StaysHinted(rows: seq<Row>, merge: seq<string>, was: Classes, now: Classes)
    requires Hinted(rows, merge, was) && Coarsens(was, now)
    ensures Hinted(rows, merge, now)
  {
    var r :| HintedTo(rows, merge, was, r);
    if x, i: nat :| x in merge && ShareId(rows, i, i, x) {
      assert HintedTo(rows, merge, now, now[i]);
    } else {
      assert HintedTo(rows, merge, now, 0);
    }
  }

  lemma AllPhasesDone(rows: seq<Row>, merges: seq<seq<string>>, second: Classes, rep: Classes)
    requires IsClosure(TwoPhases(rows), second) && Coarsens(second, rep)
    requires Sound(AllPhases(rows, merges), rep) && forall i: nat :: i in rep <==> i < |rows|
    requires forall n :: 0 <= n < |merges| ==> Hinted(rows, merges[n], rep)
    ensures IsClosure(AllPhases(rows, merges), rep)
  {
    forall i: nat, j: nat | (i, j) in AllPhases(rows, merges) ensures i in rep && j in rep && rep[i] == rep[j] {
      if (i, j) in TwoPhases(rows) {
        assert i < |rows| && j < |rows|;
        EdgeInOneClass(TwoPhases(rows), second, i, j);
      } else {
        assert HintJoins(rows, merges, i, j);
        var m, x, y :| 0 <= m < |merges| && x in merges[m] && y in merges[m]
          && ShareId(rows, i, i, x) && ShareId(rows, j, j, y);
        var r :| HintedTo(rows, merges[m], rep, r);
      }
    }
    SoundAndRespecting(AllPhases(rows, merges), rep);
  }
}
