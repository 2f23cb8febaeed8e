/**
 Combining workspace rows that explicit duplicate links join
 (common/linked-workspace-groups.js). A link between two ids bridges every row
 showing the one and every row showing the other; a combined row keeps each of
 its rows' findings once.
 */
module LinkedGroups {
  import opened Options
  import opened Findings
  import opened Buckets
  import opened Closure
  import Forest

  /** A row as it was, or several combined, with the tabs the combined row keeps and its workspace key. */
  datatype OutRow = Same(group: seq<Finding>) | Combined(members: seq<Finding>, linkedTabs: seq<Finding>, workspaceKey: string)

  /**
   Which findings a row shows as bridging tabs, and which it keeps; each id's duplicates; and the workspace key of
   each row that has one.
   */
  datatype View = View(visible: seq<seq<Finding>>, retained: seq<seq<Finding>>, duplicates: map<string, seq<string>>,
                       workspaceKeys: seq<Option<string>>) {
    function DuplicatesOf(id: string): seq<string> {
      if id in duplicates then duplicates[id] else []
    }
  }

  /** What a row is known by: its workspace key, or else its first finding's own key; rows are never empty. */
  function RowKey(groups: seq<seq<Finding>>, view: View, i: nat, key: Finding -> string): string
    requires i < |groups| == |view.workspaceKeys|
  {
    if view.workspaceKeys[i].Some? then view.workspaceKeys[i].value
    else if groups[i] == [] then "" else key(groups[i][0])
  }

  ghost predicate ShowsId(view: View, i: nat, id: string) {
    i < |view.visible| && id != "" && exists f :: f in view.visible[i] && f.id == id
  }

  ghost predicate LinkBridges(view: View, i: nat, j: nat) {
    exists x, y :: ShowsId(view, i, x) && ShowsId(view, j, y) && x != y && y in view.DuplicatesOf(x)
  }

  /** Rows that a link between two of their visible tabs bridges. */
  ghost function Links(view: View): set<(nat, nat)> {
    set i: nat, j: nat | i < |view.visible| && j < |view.visible| && LinkBridges(view, i, j) :: (i, j)
  }

  // ---- the rows of each id ----

  ghost predicate RowsOfId(byId: Grouping<string, nat>, view: View) {
    forall id, i: nat :: (id in byId.lists && i in byId.lists[id]) <==> ShowsId(view, i, id)
  }

  /** Row `i` shows `id` among the rows before `n` and the first `k` tabs of row `n`. */
  ghost predicate ShowsUpTo(view: View, n: nat, k: nat, i: nat, id: string)
    requires n < |view.visible| && k <= |view.visible[n]|
  {
    (i < n && ShowsId(view, i, id)) || (i == n && id != "" && exists f :: f in view.visible[n][..k] && f.id == id)
  }

  ghost predicate RowsOfIdUpTo(byId: Grouping<string, nat>, view: View, n: nat, k: nat)
    requires n < |view.visible| && k <= |view.visible[n]|
  {
    forall id, i: nat {:trigger ShowsUpTo(view, n, k, i, id)} ::
      (id in byId.lists && i in byId.lists[id]) <==> ShowsUpTo(view, n, k, i, id)
  }

  lemma OneTabMore(was: Grouping<string, nat>, byId: Grouping<string, nat>, view: View, n: nat, k: nat)
    requires n < |view.visible| && k < |view.visible[n]| && RowsOfIdUpTo(was, view, n, k)
    requires byId == if view.visible[n][k].id != "" then was.Put(view.visible[n][k].id, n) else was
    ensures RowsOfIdUpTo(byId, view, n, k + 1)
  {
    var tabs := view.visible[n];
    assert tabs[..k + 1] == tabs[..k] + [tabs[k]];
    var next := k + 1;
    forall id, i: nat {:trigger ShowsUpTo(view, n, next, i, id)}
      ensures (id in byId.lists && i in byId.lists[id]) <==> ShowsUpTo(view, n, next, i, id)
    {
      assert ShowsUpTo(view, n, next, i, id) <==>
               ShowsUpTo(view, n, k, i, id) || (i == n && id != "" && tabs[k].id == id);
    }
  }

  method RowsById(view: View) returns (byId: Grouping<string, nat>)
    ensures RowsOfId(byId, view)
  {
    byId := Grouping([], map[]);
    for n := 0 to |view.visible|
      invariant forall id, i: nat :: (id in byId.lists && i in byId.lists[id]) <==> (i < n && ShowsId(view, i, id))
    {
      var tabs := view.visible[n];
      forall id, i: nat ensures ShowsUpTo(view, n, 0, i, id) <==> i < n && ShowsId(view, i, id) {}
      for k := 0 to |tabs|
        invariant RowsOfIdUpTo(byId, view, n, k)
      {
        var f := tabs[k];
        assert tabs[..k + 1] == tabs[..k] + [f];
        ghost var was := byId;
        if f.id != "" { byId := byId.Put(f.id, n); }
        OneTabMore(was, byId, view, n, k);
      }
      assert tabs[..|tabs|] == tabs;
      forall id, i: nat ensures (id in byId.lists && i in byId.lists[id]) <==> (i < n + 1 && ShowsId(view, i, id)) {
        assert ShowsUpTo(view, n, |tabs|, i, id) <==> i < n + 1 && ShowsId(view, i, id);
      }
    }
  }

  // ---- joining ----

  type Classes = map<nat, nat>

  ghost predicate Bridged(view: View, x: string, y: string, rep: Classes) {
    forall i: nat, j: nat :: ShowsId(view, i, x) && ShowsId(view, j, y) ==> i in rep && j in rep && rep[i] == rep[j]
  }

  ghost predicate Coarsens(was: Classes, now: Classes) {
    was.Keys == now.Keys && forall i, j :: i in was && j in was && was[i] == was[j] ==> now[i] == now[j]
  }

  ghost predicate Joining(view: View, forest: Forest.RowForest)
    reads forest, forest.parent
  {
    forest.Valid() && forest.parent.Length == |view.visible| && Sound(Links(view), forest.shape.rep)
  }

  /** One bridge, with both roots found by halving. */
  method Join(ghost view: View, ghost x: string, ghost y: string, forest: Forest.RowForest, a: nat, b: nat)
    requires Joining(view, forest) && ShowsId(view, a, x) && ShowsId(view, b, y) && x != y && y in view.DuplicatesOf(x)
    modifies forest, forest.parent
    ensures Joining(view, forest) && Coarsens(old(forest.shape.rep), forest.shape.rep)
    ensures a in forest.shape.rep && b in forest.shape.rep && forest.shape.rep[a] == forest.shape.rep[b]
  {
    var left := forest.FindHalve(a);
    var right := forest.FindHalve(b);
    assert LinkBridges(view, a, b);
    ConnectedEdge(Links(view), a, b);
    MergedSound(Links(view), forest.shape.rep, a, b);
    if left != right { forest.Attach(left, right); }
  }

  /** Every row showing one id joins every row showing its duplicate. */
  method JoinPair(ghost view: View, ghost x: string, ghost y: string, forest: Forest.RowForest, rows: seq<nat>,
                  others: seq<nat>)
    requires Joining(view, forest) && x != y && y in view.DuplicatesOf(x)
    requires forall i: nat :: i in rows <==> ShowsId(view, i, x)
    requires forall i: nat :: i in others <==> ShowsId(view, i, y)
    modifies forest, forest.parent
    ensures Joining(view, forest) && Coarsens(old(forest.shape.rep), forest.shape.rep)
    ensures Bridged(view, x, y, forest.shape.rep)
  {
    ghost var was := forest.shape.rep;
    for n := 0 to |rows|
      invariant Joining(view, forest) && Coarsens(was, forest.shape.rep)
      invariant PairsJoined(rows, n, others, forest.shape.rep)
    {
      ghost var before := forest.shape.rep;
      assert rows[n] in rows;
      JoinRow(view, x, y, forest, rows[n], others);
      StaysJoined(rows, n, others, before, forest.shape.rep);
    }
    PairsBridge(view, x, y, rows, others, forest.shape.rep);
  }

  /** One row with every row showing the duplicate. */
  method JoinRow(ghost view: View, ghost x: string, ghost y: string, forest: Forest.RowForest, a: nat, others: seq<nat>)
    requires Joining(view, forest) && x != y && y in view.DuplicatesOf(x) && ShowsId(view, a, x)
    requires forall i: nat :: i in others <==> ShowsId(view, i, y)
    modifies forest, forest.parent
    ensures Joining(view, forest) && Coarsens(old(forest.shape.rep), forest.shape.rep)
    ensures RowJoined(a, others, |others|, forest.shape.rep)
  {
    ghost var was := forest.shape.rep;
    for m := 0 to |others|
      invariant Joining(view, forest) && Coarsens(was, forest.shape.rep)
      invariant RowJoined(a, others, m, forest.shape.rep)
    {
      ghost var before := forest.shape.rep;
      assert others[m] in others;
      Join(view, x, y, forest, a, others[m]);
      RowJoinedOn(a, others, m, before, forest.shape.rep);
    }
  }

  lemma RowJoinedOn(a: nat, others: seq<nat>, m: nat, was: Classes, now: Classes)
    requires m < |others| && RowJoined(a, others, m, was) && Coarsens(was, now) && JoinedTo(a, others[m], now)
    ensures RowJoined(a, others, m + 1, now)
  {
    forall k | 0 <= k < m + 1 ensures JoinedTo(a, others[k], now) {
      if k < m { assert JoinedTo(a, others[k], was); }
    }
  }

  lemma StaysJoined(rows: seq<nat>, n: nat, others: seq<nat>, was: Classes, now: Classes)
    requires n <= |rows| && PairsJoined(rows, n, others, was) && Coarsens(was, now)
    ensures PairsJoined(rows, n, others, now)
  {
    forall k | 0 <= k < n ensures RowJoined(rows[k], others, |others|, now) {
      RowStaysJoined(rows[k], others, was, now);
    }
  }

  lemma RowStaysJoined(a: nat, others: seq<nat>, was: Classes, now: Classes)
    requires RowJoined(a, others, |others|, was) && Coarsens(was, now)
    ensures RowJoined(a, others, |others|, now)
  {
    forall m | 0 <= m < |others| ensures JoinedTo(a, others[m], now) {
      assert JoinedTo(a, others[m], was);
    }
  }

  lemma PairsBridge(view: View, x: string, y: string, rows: seq<nat>, others: seq<nat>, rep: Classes)
    requires PairsJoined(rows, |rows|, others, rep)
    requires forall i: nat :: i in rows <==> ShowsId(view, i, x)
    requires forall i: nat :: i in others <==> ShowsId(view, i, y)
    ensures Bridged(view, x, y, rep)
  {
    forall i: nat, j: nat | ShowsId(view, i, x) && ShowsId(view, j, y) ensures i in rep && j in rep
        && rep[i] == rep[j] {
      assert i in rows && j in others;
      var n :| 0 <= n < |rows| && rows[n] == i;
      var m :| 0 <= m < |others| && others[m] == j;
      assert RowJoined(rows[n], others, |others|, rep);
      RowJoinedAt(i, others, m, rep);
    }
  }

  lemma RowJoinedAt(a: nat, others: seq<nat>, m: nat, rep: Classes)
    requires RowJoined(a, others, |others|, rep) && m < |others|
    ensures a in rep && others[m] in rep && rep[a] == rep[others[m]]
  {
    assert JoinedTo(a, others[m], rep);
  }

  ghost predicate JoinedTo(a: nat, b: nat, rep: Classes) {
    a in rep && b in rep && rep[a] == rep[b]
  }

  ghost predicate RowJoined(a: nat, others: seq<nat>, n: nat, rep: Classes)
    requires n <= |others|
  {
    forall m :: 0 <= m < n ==> JoinedTo(a, others[m], rep)
  }

  ghost predicate PairsJoined(rows: seq<nat>, n: nat, others: seq<nat>, rep: Classes)
    requires n <= |rows|
  {
    forall k :: 0 <= k < n ==> RowJoined(rows[k], others, |others|, rep)
  }

  ghost predicate AllBridged(view: View, x: string, n: nat, rep: Classes)
    requires n <= |view.DuplicatesOf(x)|
  {
    forall k :: 0 <= k < n && view.DuplicatesOf(x)[k] != x ==> Bridged(view, x, view.DuplicatesOf(x)[k], rep)
  }

  lemma StaysBridged(view: View, x: string, n: nat, was: Classes, now: Classes)
    requires n <= |view.DuplicatesOf(x)| && AllBridged(view, x, n, was) && Coarsens(was, now)
    ensures AllBridged(view, x, n, now)
  {
    forall k | 0 <= k < n && view.DuplicatesOf(x)[k] != x ensures Bridged(view, x, view.DuplicatesOf(x)[k], now) {
      assert Bridged(view, x, view.DuplicatesOf(x)[k], was);
    }
  }

  function RowsFor(byId: Grouping<string, nat>, id: string): seq<nat> {
    if id in byId.lists then byId.lists[id] else []
  }

  lemma RowsShowing(byId: Grouping<string, nat>, view: View, id: string)
    requires RowsOfId(byId, view)
    ensures forall i: nat :: i in RowsFor(byId, id) <==> ShowsId(view, i, id)
  {
  }

  lemma OneBridgedMore(view: View, x: string, k: nat, was: Classes, now: Classes)
    requires k < |view.DuplicatesOf(x)| && AllBridged(view, x, k, was) && Coarsens(was, now)
    requires view.DuplicatesOf(x)[k] == x || Bridged(view, x, view.DuplicatesOf(x)[k], now)
    ensures AllBridged(view, x, k + 1, now)
  {
    StaysBridged(view, x, k, was, now);
  }

  /** One id's duplicates. */
  method JoinId(view: View, byId: Grouping<string, nat>, id: string, forest: Forest.RowForest)
    requires Joining(view, forest) && RowsOfId(byId, view) && id in byId.lists
    modifies forest, forest.parent
    ensures Joining(view, forest) && Coarsens(old(forest.shape.rep), forest.shape.rep)
    ensures AllBridged(view, id, |view.DuplicatesOf(id)|, forest.shape.rep)
  {
    var others := view.DuplicatesOf(id);
    ghost var was := forest.shape.rep;
    for k := 0 to |others|
      invariant Joining(view, forest) && Coarsens(was, forest.shape.rep)
      invariant AllBridged(view, id, k, forest.shape.rep)
    {
      ghost var before := forest.shape.rep;
      if others[k] != id {
        JoinOther(view, byId, id, others[k], forest);
      }
      OneBridgedMore(view, id, k, before, forest.shape.rep);
    }
  }

  method JoinOther(view: View, byId: Grouping<string, nat>, id: string, other: string, forest: Forest.RowForest)
    requires Joining(view, forest) && RowsOfId(byId, view) && other != id && other in view.DuplicatesOf(id)
    modifies forest, forest.parent
    ensures Joining(view, forest) && Coarsens(old(forest.shape.rep), forest.shape.rep)
    ensures Bridged(view, id, other, forest.shape.rep)
  {
    RowsShowing(byId, view, id);
    RowsShowing(byId, view, other);
    JoinPair(view, id, other, forest, RowsFor(byId, id), RowsFor(byId, other));
  }

  /** Every id's duplicates, in any order of the ids: what is joined is exactly what links connect. */
  method JoinAll(view: View, forest: Forest.RowForest)
    requires forest.Valid() && forest.parent.Length == |view.visible|
    requires forall i: nat :: (i in forest.shape.rep <==> i < |view.visible|)
               && (i in forest.shape.rep ==> forest.shape.rep[i] == i)
    modifies forest, forest.parent
    ensures forest.Valid() && forest.shape.rep.Keys == old(forest.shape.rep.Keys)
    ensures IsClosure(Links(view), forest.shape.rep)
  {
    ghost var was := forest.shape.rep;
    forall a, b | a in was && b in was && was[a] == was[b] ensures Connected(Links(view), a, b) {
      ConnectedSelf(Links(view), a);
    }
    var byId := RowsById(view);
    var todo := byId.lists.Keys;
    while todo != {}
      invariant Joining(view, forest) && Coarsens(was, forest.shape.rep) && todo <= byId.lists.Keys
      invariant forall id :: id in byId.lists && id !in todo
                  ==> AllBridged(view, id, |view.DuplicatesOf(id)|, forest.shape.rep)
      decreases todo
    {
      var id :| id in todo;
      ghost var before := forest.shape.rep;
      JoinId(view, byId, id, forest);
      forall x | x in byId.lists && x !in todo - {id} ensures AllBridged(view, x, |view.DuplicatesOf(x)|,
          forest.shape.rep) {
        if x != id { StaysBridged(view, x, |view.DuplicatesOf(x)|, before, forest.shape.rep); }
      }
      todo := todo - {id};
    }
    LinksRespected(view, byId, forest.shape.rep);
  }

  lemma LinksRespected(view: View, byId: Grouping<string, nat>, rep: Classes)
    requires RowsOfId(byId, view) && Sound(Links(view), rep)
    requires forall id :: id in byId.lists ==> AllBridged(view, id, |view.DuplicatesOf(id)|, rep)
    ensures IsClosure(Links(view), rep)
  {
    forall i: nat, j: nat | (i, j) in Links(view) ensures i in rep && j in rep && rep[i] == rep[j] {
      assert LinkBridges(view, i, j);
      var x, y :| ShowsId(view, i, x) && ShowsId(view, j, y) && x != y && y in view.DuplicatesOf(x);
      assert x in byId.lists && i in byId.lists[x];
      var k :| 0 <= k < |view.DuplicatesOf(x)| && view.DuplicatesOf(x)[k] == y;
      assert Bridged(view, x, y, rep);
    }
    SoundAndRespecting(Links(view), rep);
  }

  // ---- combined rows ----

  ghost predicate HasKey(s: seq<Finding>, key: Finding -> string, k: string) {
    exists f :: f in s && key(f) == k
  }

  /** Each key's first finding, in order. */
  ghost function FirstBy(s: seq<Finding>, key: Finding -> string): seq<Finding> {
    if s == [] then []
    else
      var init, last := s[..|s| - 1], s[|s| - 1];
      FirstBy(init, key) + if HasKey(init, key, key(last)) then [] else [last]
  }

  ghost predicate OneAKey(s: seq<Finding>, key: Finding -> string) {
    forall i, j :: 0 <= i < j < |s| ==> key(s[i]) != key(s[j])
  }

  lemma {:induction false} FirstByKeeps(s: seq<Finding>, key: Finding -> string)
    ensures OneAKey(FirstBy(s, key), key) && forall f :: f in FirstBy(s, key) ==> f in s
    ensures forall k :: HasKey(FirstBy(s, key), key, k) <==> HasKey(s, key, k)
  {
    if s != [] {
      var init, last := s[..|s| - 1], s[|s| - 1];
      FirstByKeeps(init, key);
      assert s == init + [last];
      var first := FirstBy(s, key);
      forall i, j | 0 <= i < j < |first| ensures key(first[i]) != key(first[j]) {
        if j == |FirstBy(init, key)| {
          assert first[i] == FirstBy(init, key)[i] && first[i] in init;
          assert HasKey(init, key, key(first[i]));
        }
      }
      forall k ensures HasKey(first, key, k) <==> HasKey(s, key, k) {
        assert HasKey(s, key, k) <==> HasKey(init, key, k) || key(last) == k;
        if !HasKey(init, key, key(last)) { assert first[|first| - 1] == last; }
        if HasKey(FirstBy(init, key), key, k) {
          var f :| f in FirstBy(init, key) && key(f) == k;
          assert f in first;
        }
      }
    }
  }

  predicate Within(indices: seq<nat>, n: nat) {
    forall k :: 0 <= k < |indices| ==> indices[k] < n
  }

  function Gathered(rows: seq<seq<Finding>>, indices: seq<nat>): seq<Finding>
    requires Within(indices, |rows|)
  {
    if indices == [] then []
    else Gathered(rows, indices[..|indices| - 1]) + rows[indices[|indices| - 1]]
  }

  /** The finding a combined row shows under `f`'s key: the first kept tab of it, else `f`. */
  ghost predicate Stands(g: Finding, f: Finding, tabs: seq<Finding>, key: Finding -> string) {
    key(g) == key(f) && if HasKey(tabs, key, key(f)) then g in FirstBy(tabs, key) else g == f
  }

  ghost predicate IsCombined(members: seq<Finding>, linkedTabs: seq<Finding>, all: seq<Finding>, tabs: seq<Finding>,
                             key: Finding -> string) {
    && linkedTabs == FirstBy(tabs, key)
    && |members| == |FirstBy(all, key)|
    && forall j :: 0 <= j < |members| ==> Stands(members[j], FirstBy(all, key)[j], tabs, key)
  }

  /** A combined row holds each key its rows hold, once, and no other; so do its tabs. */
  lemma CombinedHoldsEachKeyOnce(members: seq<Finding>, linkedTabs: seq<Finding>, all: seq<Finding>, tabs: seq<Finding>,
                                 key: Finding -> string)
    requires IsCombined(members, linkedTabs, all, tabs, key)
    ensures OneAKey(members, key) && forall k :: HasKey(members, key, k) <==> HasKey(all, key, k)
    ensures OneAKey(linkedTabs, key) && forall k :: HasKey(linkedTabs, key, k) <==> HasKey(tabs, key, k)
  {
    FirstByKeeps(all, key);
    FirstByKeeps(tabs, key);
    var first := FirstBy(all, key);
    forall j | 0 <= j < |members| ensures key(members[j]) == key(first[j]) {
      assert Stands(members[j], first[j], tabs, key);
    }
    forall k ensures HasKey(members, key, k) <==> HasKey(first, key, k) {
      if HasKey(members, key, k) {
        var f :| f in members && key(f) == k;
        var j :| 0 <= j < |members| && members[j] == f;
        assert first[j] in first;
      }
      if HasKey(first, key, k) {
        var f :| f in first && key(f) == k;
        var j :| 0 <= j < |first| && first[j] == f;
        assert members[j] in members;
      }
    }
  }

  /** An insertion-ordered map from key to finding: each key's finding, in order of first appearance. */
  ghost predicate Tabulates(byKey: map<string, Finding>, order: seq<Finding>, s: seq<Finding>, key: Finding -> string) {
    && order == FirstBy(s, key)
    && (forall k :: k in byKey <==> HasKey(s, key, k))
    && (forall k :: k in byKey ==> byKey[k] in order && key(byKey[k]) == k)
  }

  method Tabulate(rows: seq<seq<Finding>>, indices: seq<nat>, key: Finding -> string)
      returns (byKey: map<string, Finding>, order: seq<Finding>)
    requires Within(indices, |rows|)
    ensures Tabulates(byKey, order, Gathered(rows, indices), key)
  {
    byKey, order := map[], [];
    for n := 0 to |indices|
      invariant Tabulates(byKey, order, Gathered(rows, indices[..n]), key)
    {
      assert indices[..n + 1][..n] == indices[..n];
      byKey, order := TabulateRow(byKey, order, Gathered(rows, indices[..n]), rows[indices[n]], key);
    }
    assert indices[..|indices|] == indices;
  }

  /** One more row's findings. */
  method TabulateRow(byKey0: map<string, Finding>, order0: seq<Finding>, ghost done: seq<Finding>, row: seq<Finding>,
                     key: Finding -> string) returns (byKey: map<string, Finding>, order: seq<Finding>)
    requires Tabulates(byKey0, order0, done, key)
    ensures Tabulates(byKey, order, done + row, key)
  {
    byKey, order := byKey0, order0;
    assert done + row[..0] == done;
    for k := 0 to |row|
      invariant Tabulates(byKey, order, done + row[..k], key)
    {
      TabulateOne(byKey, order, done + row[..k], key, row[k]);
      assert done + row[..k + 1] == done + row[..k] + [row[k]];
      if key(row[k]) !in byKey {
        byKey, order := byKey[key(row[k]) := row[k]], order + [row[k]];
      }
    }
    assert row[..|row|] == row;
  }

  lemma TabulateOne(byKey: map<string, Finding>, order: seq<Finding>, s: seq<Finding>, key: Finding -> string,
                    f: Finding)
    requires Tabulates(byKey, order, s, key)
    ensures if key(f) in byKey then Tabulates(byKey, order, s + [f], key)
            else Tabulates(byKey[key(f) := f], order + [f], s + [f], key)
  {
    var t := s + [f];
    assert t[..|s|] == s;
    forall k ensures HasKey(t, key, k) <==> HasKey(s, key, k) || key(f) == k {
      assert f in t;
      if HasKey(s, key, k) {
        var g :| g in s && key(g) == k;
        assert g in t;
      }
    }
    assert key(f) !in byKey ==> (order + [f])[|order|] == f;
  }

  /** Combine the rows of one component. */
  method CombineRows(groups: seq<seq<Finding>>, view: View, indices: seq<nat>, key: Finding -> string)
      returns (row: OutRow)
    requires indices != [] && Within(indices, |groups|) && |view.retained| == |view.workspaceKeys| == |groups|
    ensures IsOutRow(row, groups, view, indices, key)
  {
    if |indices| == 1 {
      return Same(groups[indices[0]]);
    }
    var visible, tabs := Tabulate(view.retained, indices, key);
    var seen, first := Tabulate(groups, indices, key);
    var members: seq<Finding> := [];
    for j := 0 to |first|
      invariant |members| == j
      invariant forall i :: 0 <= i < j ==> Stands(members[i], first[i], Gathered(view.retained, indices), key)
    {
      var f := first[j];
      members := members + [if key(f) in visible then visible[key(f)] else f];
    }
    row := Combined(members, tabs, RowKey(groups, view, indices[0], key));
  }

  ghost predicate IsOutRow(row: OutRow, groups: seq<seq<Finding>>, view: View, indices: seq<nat>,
                           key: Finding -> string)
    requires indices != [] && Within(indices, |groups|) && |view.retained| == |view.workspaceKeys| == |groups|
  {
    if |indices| == 1 then row == Same(groups[indices[0]])
    else
      && row.Combined? && row.workspaceKey == RowKey(groups, view, indices[0], key)
      && IsCombined(row.members, row.linkedTabs, Gathered(groups, indices), Gathered(view.retained, indices), key)
  }

  // ---- the whole ----

  ghost predicate KeyedByLinks(keys: seq<nat>, view: View) {
    && |keys| == |view.visible|
    && forall i: nat, j: nat :: i < |keys| && j < |keys| ==> (keys[i] == keys[j] <==> Connected(Links(view), i, j))
  }

  method Assemble(view: View, forest: Forest.RowForest) returns (found: Grouping<nat, nat>, ghost keys: seq<nat>)
    requires forest.Valid() && forest.parent.Length == |view.visible| && IsClosure(Links(view), forest.shape.rep)
    modifies forest.parent
    ensures KeyedByLinks(keys, view) && Groups(found, keys, Numbers(|view.visible|))
  {
    found, keys := Grouping([], map[]), [];
    ghost var rep, all := forest.shape.rep, Numbers(|view.visible|);
    for i := 0 to |view.visible|
      invariant forest.Valid() && forest.shape.rep == rep
      invariant |keys| == i && found == Filed(keys, all[..i])
      invariant forall k: nat :: k < i ==> k in rep && keys[k] == rep[k]
    {
      var root := forest.FindHalve(i);
      FiledOn(keys, all[..i], root, i);
      assert all[..i + 1] == all[..i] + [i];
      found, keys := found.Put(root, i), keys + [root];
    }
    assert all[..|view.visible|] == all;
    FiledGroups(keys, all);
    KeysAreClasses(keys, view, rep);
  }

  lemma KeysAreClasses(keys: seq<nat>, view: View, rep: Classes)
    requires |keys| == |view.visible| && IsClosure(Links(view), rep)
    requires forall k: nat :: k < |keys| ==> k in rep && keys[k] == rep[k]
    ensures KeyedByLinks(keys, view)
  {
    forall i: nat, j: nat | i < |keys| && j < |keys| ensures keys[i] == keys[j] <==> Connected(Links(view), i, j) {
      assert i in rep && j in rep;
    }
  }

  function Numbers(n: nat): (r: seq<nat>)
    ensures |r| == n && forall i :: 0 <= i < n ==> r[i] == i
  {
    seq(n, i => i)
  }

  /** Where each row stands alone, cutting the row numbers by key gives each number on its own. */
  lemma {:induction false} AllApart(found: Grouping<nat, nat>, keys: seq<nat>)
    requires Groups(found, keys, Numbers(|keys|)) && |found.order| == |keys|
    ensures forall i :: 0 <= i < |keys| ==> found.order[i] == keys[i] && found.lists[keys[i]] == [i]
  {
    SeenAll(keys);
    assert found.order == keys && Distinct(keys);
    forall i | 0 <= i < |keys| ensures found.lists[keys[i]] == [i] { AloneAt(found, keys, i); }
  }

  lemma AloneAt(found: Grouping<nat, nat>, keys: seq<nat>, i: nat)
    requires Groups(found, keys, Numbers(|keys|)) && Distinct(keys) && i < |keys|
    ensures keys[i] in found.lists && found.lists[keys[i]] == [i]
  {
    assert keys[i] in keys;
    PickedLone(keys, i, |keys|);
    assert keys[..|keys|] == keys;
  }

  lemma {:induction false} SeenAll(keys: seq<nat>)
    ensures |FirstSeen(keys)| <= |keys|
    ensures |FirstSeen(keys)| == |keys| ==> FirstSeen(keys) == keys && Distinct(keys)
  {
    if keys != [] {
      var n := |keys| - 1;
      SeenAll(keys[..n]);
      assert keys == keys[..n] + [keys[n]];
    }
  }

  lemma {:induction false} PickedLone(keys: seq<nat>, i: nat, n: nat)
    requires Distinct(keys) && i < |keys| && n <= |keys|
    ensures Picked(keys[..n], Numbers(n), keys[i]) == if i < n then [i] else []
  {
    if n > 0 {
      PickedLone(keys, i, n - 1);
      assert keys[..n][..n - 1] == keys[..n - 1] && Numbers(n)[..n - 1] == Numbers(n - 1);
      assert n - 1 < i ==> keys[n - 1] != keys[i];
      assert i < n - 1 ==> keys[i] != keys[n - 1];
    }
  }

  /** One output row for each component of the rows as links connect them, in order of first row. */
  ghost predicate MergedAs(out: seq<OutRow>, groups: seq<seq<Finding>>, view: View, key: Finding -> string,
                           keys: seq<nat>, components: seq<seq<nat>>)
    requires |view.visible| == |view.retained| == |view.workspaceKeys| == |groups|
  {
    && KeyedByLinks(keys, view) && PartsBy(components, keys, Numbers(|groups|)) && |out| == |components|
    && forall c :: 0 <= c < |components| ==>
         components[c] != [] && Within(components[c], |groups|) && IsOutRow(out[c], groups, view, components[c], key)
  }

  /** The function mergeLinkedWorkspaceGroups. */
  method MergeLinkedWorkspaceGroups(groups: seq<seq<Finding>>, view: View, key: Finding -> string)
      returns (out: seq<OutRow>)
    requires |view.visible| == |view.retained| == |view.workspaceKeys| == |groups|
    ensures exists keys, components :: MergedAs(out, groups, view, key, keys, components)
  {
    var forest := new Forest.RowForest(|groups|);
    JoinAll(view, forest);
    var found, keys := Assemble(view, forest);
    PartsFilled(found, keys);
    out := RowsOf(groups, view, found, keys, key);
    assert MergedAs(out, groups, view, key, keys, Parts(found));
  }

  /** What an output row is known by: a row unchanged by what it was. */
  function OutKey(row: OutRow, groups: seq<seq<Finding>>, view: View, at: nat, key: Finding -> string): string
    requires at < |groups| == |view.workspaceKeys|
  {
    if row.Combined? then row.workspaceKey else RowKey(groups, view, at, key)
  }

  lemma FirstsApart(components: seq<seq<nat>>, keys: seq<nat>, c: nat, d: nat)
    requires PartsBy(components, keys, Numbers(|keys|)) && c < d < |components|
    requires components[c] != [] && components[d] != []
    ensures components[c][0] != components[d][0]
  {
    var g: Grouping<nat, nat> :| Groups(g, keys, Numbers(|keys|)) && components == Parts(g);
    assert g.order[c] in g.order && g.order[d] in g.order && g.order[c] != g.order[d];
    PickedExactly(keys, Numbers(|keys|), g.order[c], components[c][0]);
    PickedExactly(keys, Numbers(|keys|), g.order[d], components[d][0]);
  }

  /** Rows known by different keys come out known by different keys. */
  lemma RowsStayTold(out: seq<OutRow>, groups: seq<seq<Finding>>, view: View, key: Finding -> string, keys: seq<nat>,
                     components: seq<seq<nat>>)
    requires |view.visible| == |view.retained| == |view.workspaceKeys| == |groups|
    requires MergedAs(out, groups, view, key, keys, components)
    requires forall i, j :: 0 <= i < j < |groups| ==> RowKey(groups, view, i, key) != RowKey(groups, view, j, key)
    ensures forall c, d :: 0 <= c < d < |out| ==>
              OutKey(out[c], groups, view, components[c][0], key) != OutKey(out[d], groups, view, components[d][0], key)
  {
    forall c, d | 0 <= c < d < |out|
      ensures OutKey(out[c], groups, view, components[c][0], key) != OutKey(out[d], groups, view, components[d][0], key)
    {
      FirstsApart(components, keys, c, d);
      var i, j := components[c][0], components[d][0];
      assert RowKey(groups, view, i, key) != RowKey(groups, view, j, key) by { if i < j {} else {} }
    }
  }

  lemma LoneRows(groups: seq<seq<Finding>>, view: View, found: Grouping<nat, nat>, keys: seq<nat>,
                 key: Finding -> string)
    requires |view.retained| == |view.workspaceKeys| == |groups| == |keys| == |found.order| && Groups(found, keys, Numbers(|keys|))
    ensures forall c :: 0 <= c < |groups| ==> found.order[c] in found.lists && Parts(found)[c] == [c]
    ensures forall c :: 0 <= c < |groups| ==> IsOutRow(Same(groups[c]), groups, view, Parts(found)[c], key)
  {
    AllApart(found, keys);
  }

  method RowsOf(groups: seq<seq<Finding>>, view: View, found: Grouping<nat, nat>, ghost keys: seq<nat>,
                key: Finding -> string) returns (out: seq<OutRow>)
    requires |view.retained| == |view.workspaceKeys| == |groups| == |keys| && Groups(found, keys, Numbers(|keys|))
    requires forall k :: k in found.order
               ==> k in found.lists && found.lists[k] != [] && Within(found.lists[k], |groups|)
    ensures |out| == |found.order|
    ensures forall c :: 0 <= c < |found.order| ==> IsOutRow(out[c], groups, view, Parts(found)[c], key)
  {
    if |found.order| == |groups| {
      LoneRows(groups, view, found, keys, key);
      out := seq(|groups|, i requires 0 <= i < |groups| => Same(groups[i]));
    } else {
      out := CombineAll(groups, view, found, key);
    }
  }

  method CombineAll(groups: seq<seq<Finding>>, view: View, found: Grouping<nat, nat>, key: Finding -> string)
      returns (out: seq<OutRow>)
    requires |view.retained| == |view.workspaceKeys| == |groups|
    requires forall k :: k in found.order
               ==> k in found.lists && found.lists[k] != [] && Within(found.lists[k], |groups|)
    ensures |out| == |found.order|
    ensures forall c :: 0 <= c < |found.order| ==> IsOutRow(out[c], groups, view, Parts(found)[c], key)
  {
    out := [];
    for c := 0 to |found.order|
      invariant |out| == c
      invariant forall b :: 0 <= b < c ==> IsOutRow(out[b], groups, view, Parts(found)[b], key)
    {
      assert found.order[c] in found.order;
      var row := CombineRows(groups, view, found.lists[found.order[c]], key);
      out := out + [row];
    }
  }

  lemma PartsFilled(found: Grouping<nat, nat>, keys: seq<nat>)
    requires Groups(found, keys, Numbers(|keys|))
    ensures forall k :: k in found.order ==> k in found.lists && found.lists[k] != [] && Within(found.lists[k], |keys|)
  {
    forall k | k in found.order ensures k in found.lists && found.lists[k] != [] && Within(found.lists[k], |keys|) {
      var i: nat :| i < |keys| && keys[i] == k;
      PickedExactly(keys, Numbers(|keys|), k, i);
      assert Numbers(|keys|)[i] == i && k in keys && i in Picked(keys, Numbers(|keys|), k);
      forall n | 0 <= n < |found.lists[k]| ensures found.lists[k][n] < |keys| {
        PickedExactly(keys, Numbers(|keys|), k, found.lists[k][n]);
      }
    }
  }
}
