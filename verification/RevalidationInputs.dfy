/**
 Recovering source-level row boundaries from the inputs App findings list
 (common/revalidation-input-groups.js). Findings are as the row groupings see
 them: an identity, an id ("" for none), which layer they are from, the
 revalidation answer, and the source ids an App finding says it was made from.
 */
module Findings {
  datatype Kind = NoAnswer | Revalidation | Refuted | Unreachable | OtherAnswer

  datatype Inputs = Absent | NotAList | Listed(ids: seq<string>)

  datatype Finding = Finding(uid: nat, id: string, isApp: bool, isUpstream: bool, kind: Kind, inputs: Inputs) {
    /** The listed inputs; none listed reads as an empty list. */
    function InputIds(): seq<string> {
      if inputs.Listed? then inputs.ids else []
    }
  }
}

module RevalidationInputs {
  import opened Findings
  import opened Buckets
  import opened Closure
  import opened Options
  import Forest

  /** Where a finding is filed: under the root of its id, or on its own. */
  datatype Key = Root(id: string) | Itself(uid: nat)

  function Apps(group: seq<Finding>, given: Option<seq<Finding>>): seq<Finding> {
    if given.Some? then given.value else Filter(group, (f: Finding) => f.isApp)
  }

  function Sources(group: seq<Finding>): seq<Finding> {
    Filter(group, (f: Finding) => !f.isApp)
  }

  ghost function SourceIds(group: seq<Finding>): set<string> {
    set f | f in Sources(group) :: f.id
  }

  /** The ids every App finding's list names, together. */
  ghost function Named(apps: seq<Finding>): set<string> {
    set a, id | a in apps && id in a.InputIds() :: id
  }

  /** When a row may be split: the App lists account for exactly the row's source ids. */
  ghost predicate Splittable(group: seq<Finding>, given: Option<seq<Finding>>) {
    var apps := Apps(group, given);
    && apps != [] && Sources(group) != []
    && (given.Some? ==> forall f :: f in group ==> !f.isApp)
    && (forall f :: f in Sources(group) ==> f.id != "")
    && (forall a :: a in apps ==> !a.inputs.NotAList?)
    && Named(apps) == SourceIds(group)
  }

  ghost predicate OneListNames(apps: seq<Finding>, x: string, y: string) {
    exists a :: a in apps && x in a.InputIds() && y in a.InputIds()
  }

  /** Two source ids one App finding was made from. */
  ghost function SameInputs(apps: seq<Finding>): set<(string, string)> {
    set x, y | x in Named(apps) && y in Named(apps) && OneListNames(apps, x, y) :: (x, y)
  }

  /** The id a finding stands with: its own, or its first input's; none for an App finding without. */
  function AnchorId(f: Finding): Option<string> {
    if !f.isApp then Some(f.id)
    else if f.InputIds() == [] then None
    else Some(f.InputIds()[0])
  }

  /** Two findings belong together: one and the same, or a chain of App lists joins where they stand. */
  ghost predicate Together(apps: seq<Finding>, f: Finding, g: Finding) {
    match (AnchorId(f), AnchorId(g))
    case (Some(x), Some(y)) => Connected(SameInputs(apps), x, y)
    case (None, None) => f.uid == g.uid
    case _ => false
  }

  /** `keys` files findings of a row together exactly when they belong together. */
  ghost predicate KeyedTogether(keys: seq<Key>, group: seq<Finding>, apps: seq<Finding>) {
    && |keys| == |group|
    && forall i, j :: 0 <= i < |group| && 0 <= j < |group| ==>
        (keys[i] == keys[j] <==> Together(apps, group[i], group[j]))
  }

  /** What splitting a row gives: the row as it was, or the cut the App lists make. */
  ghost predicate IsSplit(parts: seq<seq<Finding>>, group: seq<Finding>, given: Option<seq<Finding>>) {
    if !Splittable(group, given) then parts == [group]
    else exists keys: seq<Key> :: KeyedTogether(keys, group, Apps(group, given)) && PartsBy(parts, keys, group)
  }

  /** The App findings whose lists the forest has taken in agree within each list. */
  ghost predicate Taken(apps: seq<Finding>, n: nat, rep: map<string, string>)
    requires n <= |apps|
  {
    forall k :: 0 <= k < n ==> OneClass(apps[k].InputIds(), rep)
  }

  ghost predicate OneClass(ids: seq<string>, rep: map<string, string>) {
    forall x :: x in ids ==> x in rep && ids[0] in rep && rep[x] == rep[ids[0]]
  }

  lemma MergedKeepsTaken(apps: seq<Finding>, n: nat, rep: map<string, string>, a: string, b: string)
    requires n <= |apps| && Taken(apps, n, rep)
    ensures Taken(apps, n, Merged(rep, a, b))
  {
    var m := Merged(rep, a, b);
    forall k | 0 <= k < n ensures OneClass(apps[k].InputIds(), m) {
      assert OneClass(apps[k].InputIds(), rep);
    }
  }

  lemma TakenIsClosure(apps: seq<Finding>, rep: map<string, string>)
    requires Taken(apps, |apps|, rep) && Sound(SameInputs(apps), rep)
    ensures IsClosure(SameInputs(apps), rep)
  {
    var R := SameInputs(apps);
    forall x, y | (x, y) in R ensures x in rep && y in rep && rep[x] == rep[y] {
      var a :| a in apps && x in a.InputIds() && y in a.InputIds();
      var k :| 0 <= k < |apps| && apps[k] == a;
      assert OneClass(apps[k].InputIds(), rep);
    }
    SoundAndRespecting(R, rep);
  }

  /** Read the App lists: the ids they name, unless one is no list or names an id outside the row. */
  method Cover(apps: seq<Finding>, sourceIds: set<string>) returns (covered: Option<set<string>>)
    ensures covered.Some? <==> (forall a :: a in apps ==> !a.inputs.NotAList?) && Named(apps) <= sourceIds
    ensures covered.Some? ==> covered.value == Named(apps)
  {
    var named: set<string> := {};
    for n := 0 to |apps|
      invariant forall a :: a in apps[..n] ==> !a.inputs.NotAList?
      invariant named == Named(apps[..n]) && named <= sourceIds
    {
      var f := apps[n];
      assert f in apps;
      if f.inputs.NotAList? { return None; }
      var ids := f.InputIds();
      for i := 0 to |ids|
        invariant named == Named(apps[..n]) + (set id | id in ids[..i]) && named <= sourceIds
      {
        if ids[i] !in sourceIds {
          assert ids[i] in f.InputIds();
          assert ids[i] in Named(apps);
          return None;
        }
        named := named + {ids[i]};
        assert ids[..i + 1] == ids[..i] + [ids[i]];
      }
      assert ids[..|ids|] == ids;
      assert apps[..n + 1] == apps[..n] + [f];
      assert Named(apps[..n + 1]) == Named(apps[..n]) + (set id | id in ids);
    }
    assert apps[..|apps|] == apps;
    covered := Some(named);
  }

  /** Take every App list's ids into one class. */
  method TakeLists(apps: seq<Finding>, forest: Forest.IdForest)
    requires forest.Valid() && Named(apps) <= forest.parent.Keys
    requires forall id :: id in forest.shape.rep ==> forest.shape.rep[id] == id
    modifies forest
    ensures forest.Valid() && forest.parent.Keys == old(forest.parent.Keys)
    ensures IsClosure(SameInputs(apps), forest.shape.rep)
  {
    ghost var R := SameInputs(apps);
    assert Sound(R, forest.shape.rep) by {
      forall a, b | a in forest.shape.rep && b in forest.shape.rep && forest.shape.rep[a] == forest.shape.rep[b]
        ensures Connected(R, a, b)
      {
        ConnectedSelf(R, a);
      }
    }
    for n := 0 to |apps|
      invariant forest.Valid() && forest.parent.Keys == old(forest.parent.Keys)
      invariant Taken(apps, n, forest.shape.rep) && Sound(R, forest.shape.rep)
    {
      var inputs := apps[n].InputIds();
      assert forall id :: id in inputs ==> id in Named(apps);
      if inputs != [] {
        TakeOne(apps, n, inputs, forest);
      }
    }
    TakenIsClosure(apps, forest.shape.rep);
  }

  method TakeOne(ghost apps: seq<Finding>, ghost n: nat, inputs: seq<string>, forest: Forest.IdForest)
    requires n < |apps| && inputs == apps[n].InputIds() && inputs != []
    requires forest.Valid() && Named(apps) <= forest.parent.Keys
    requires Taken(apps, n, forest.shape.rep) && Sound(SameInputs(apps), forest.shape.rep)
    modifies forest
    ensures forest.Valid() && forest.parent.Keys == old(forest.parent.Keys)
    ensures Taken(apps, n + 1, forest.shape.rep) && Sound(SameInputs(apps), forest.shape.rep)
  {
    assert forall id :: id in inputs ==> id in Named(apps) by { assert apps[n] in apps; }
    assert inputs[0] in inputs;
    var root := forest.Find(inputs[0]);
    for i := 0 to |inputs|
      invariant forest.Valid() && forest.parent.Keys == old(forest.parent.Keys)
      invariant Taken(apps, n, forest.shape.rep) && Sound(SameInputs(apps), forest.shape.rep)
      invariant root in forest.parent && FirstAtRoot(inputs, i, root, forest.shape.rep)
    {
      assert inputs[i] in inputs;
      var r := forest.Find(inputs[i]);
      OneInputMore(apps, n, i, root, forest.shape.rep);
      forest.Attach(root, r);
    }
  }

  /** The first of a list's ids, and its very first, are in the class of the root. */
  predicate FirstAtRoot(inputs: seq<string>, i: nat, root: string, rep: map<string, string>)
    requires i <= |inputs| && inputs != []
  {
    && root in rep && rep[root] == root && inputs[0] in rep && rep[inputs[0]] == root
    && forall j :: 0 <= j < i ==> inputs[j] in rep && rep[inputs[j]] == root
  }

  lemma OneInputMore(apps: seq<Finding>, n: nat, i: nat, root: string, rep: map<string, string>)
    requires n < |apps| && i < |apps[n].InputIds()| && apps[n].InputIds()[i] in rep
    requires Taken(apps, n, rep) && Sound(SameInputs(apps), rep) && FirstAtRoot(apps[n].InputIds(), i, root, rep)
    ensures var now := Merged(rep, root, rep[apps[n].InputIds()[i]]);
            Taken(apps, n, now) && Sound(SameInputs(apps), now) && FirstAtRoot(apps[n].InputIds(), i + 1, root, now)
  {
    var inputs := apps[n].InputIds();
    assert inputs[0] in inputs && inputs[i] in inputs;
    SameListSound(apps, n, rep, inputs[0], inputs[i]);
    MergedKeepsTaken(apps, n, rep, root, rep[inputs[i]]);
  }

  lemma SameListSound(apps: seq<Finding>, n: nat, rep: map<string, string>, x: string, y: string)
    requires n < |apps| && x in apps[n].InputIds() && y in apps[n].InputIds()
    requires x in rep && y in rep && Sound(SameInputs(apps), rep)
    ensures Sound(SameInputs(apps), Merged(rep, rep[x], rep[y]))
  {
    assert apps[n] in apps;
    assert x in Named(apps) && y in Named(apps) && OneListNames(apps, x, y);
    ConnectedEdge(SameInputs(apps), x, y);
    MergedSound(SameInputs(apps), rep, x, y);
  }

  /** The checks before a split: anything unaccounted for leaves the row as it is. */
  method MaySplit(group: seq<Finding>, given: Option<seq<Finding>>) returns (ok: bool)
    ensures ok <==> Splittable(group, given)
  {
    var apps, source := Apps(group, given), Sources(group);
    if apps == [] || source == [] { return false; }
    if given.Some? && exists f :: f in group && f.isApp { return false; }
    if exists f :: f in source && f.id == "" { return false; }
    var sourceIds := set f | f in source :: f.id;
    var covered := Cover(apps, sourceIds);
    ok := covered.Some? && covered.value == sourceIds;
  }

  /** The method splitRevalidationInputs. */
  method SplitRevalidationInputs(group: seq<Finding>, given: Option<seq<Finding>>) returns (parts: seq<seq<Finding>>)
    requires given.Some? ==> forall f :: f in given.value ==> f.isApp
    ensures IsSplit(parts, group, given)
  {
    var ok := MaySplit(group, given);
    if !ok { return [group]; }
    var apps := Apps(group, given);
    var sourceIds := set f | f in Sources(group) :: f.id;
    assert sourceIds == SourceIds(group) && Named(apps) == sourceIds;
    var forest := new Forest.IdForest(sourceIds);
    TakeLists(apps, forest);
    forall f | f in group && AnchorId(f).Some? ensures AnchorId(f).value in forest.parent {
      AnchorInRow(group, given, f);
    }
    var found: Grouping<Key, Finding>;
    ghost var keys: seq<Key>;
    found, keys := FileFindings(group, forest);
    KeysAreTogether(keys, group, given, forest.shape.rep);
    parts := Parts(found);
    assert PartsBy(parts, keys, group);
    if |found.order| == 1 {
      OnePart(parts, keys, group);
      parts := [group];
    }
  }

  /** A finding's key: its root, or itself for an App finding without inputs. */
  method KeyOf(f: Finding, forest: Forest.IdForest) returns (key: Key)
    requires forest.Valid() && (AnchorId(f).Some? ==> AnchorId(f).value in forest.parent)
    modifies forest`parent
    ensures forest.Valid() && forest.parent.Keys == old(forest.parent.Keys)
    ensures Keyed(key, f, forest.shape.rep)
  {
    if !f.isApp {
      var root := forest.Find(f.id);
      key := Root(root);
    } else if f.InputIds() != [] {
      var root := forest.Find(f.InputIds()[0]);
      key := Root(root);
    } else {
      key := Itself(f.uid);
    }
  }

  /** File each finding of the row under its key. */
  method FileFindings(group: seq<Finding>, forest: Forest.IdForest)
      returns (found: Grouping<Key, Finding>, ghost keys: seq<Key>)
    requires forest.Valid()
    requires forall f :: f in group && AnchorId(f).Some? ==> AnchorId(f).value in forest.parent
    modifies forest`parent
    ensures forest.Valid()
    ensures |keys| == |group| && Groups(found, keys, group)
    ensures forall i :: 0 <= i < |group| ==> Keyed(keys[i], group[i], forest.shape.rep)
  {
    keys := [];
    found := Grouping([], map[]);
    ghost var rep := forest.shape.rep;
    for n := 0 to |group|
      invariant forest.Valid() && forest.parent.Keys == old(forest.parent.Keys) && forest.shape.rep == rep
      invariant |keys| == n && Groups(found, keys, group[..n])
      invariant forall i :: 0 <= i < n ==> Keyed(keys[i], group[i], rep)
    {
      var key := KeyOf(group[n], forest);
      assert group[..n + 1] == group[..n] + [group[n]];
      PutGroups(found, keys, group[..n], key, group[n]);
      found := found.Put(key, group[n]);
      keys := keys + [key];
    }
    assert group[..|group|] == group;
  }

  /** The key a finding is filed under, given each id's root. */
  ghost predicate Keyed(key: Key, f: Finding, rep: map<string, string>) {
    match AnchorId(f)
    case Some(id) => id in rep && key == Root(rep[id])
    case None => key == Itself(f.uid)
  }

  lemma AnchorInRow(group: seq<Finding>, given: Option<seq<Finding>>, f: Finding)
    requires Splittable(group, given) && f in group
    ensures AnchorId(f).Some? ==> AnchorId(f).value in SourceIds(group)
  {
    if f.isApp && f.InputIds() != [] {
      assert f in Apps(group, given) && f.InputIds()[0] in f.InputIds();
      assert f.InputIds()[0] in Named(Apps(group, given));
    } else if !f.isApp {
      assert f in Sources(group);
    }
  }

  lemma KeysAreTogether(keys: seq<Key>, group: seq<Finding>, given: Option<seq<Finding>>, rep: map<string, string>)
    requires |keys| == |group| && IsClosure(SameInputs(Apps(group, given)), rep)
    requires forall i :: 0 <= i < |group| ==> Keyed(keys[i], group[i], rep)
    ensures KeyedTogether(keys, group, Apps(group, given))
  {
    forall i, j | 0 <= i < |group| && 0 <= j < |group|
      ensures keys[i] == keys[j] <==> Together(Apps(group, given), group[i], group[j])
    {
      assert Keyed(keys[i], group[i], rep) && Keyed(keys[j], group[j], rep);
    }
  }

  /** Splitting a row keeps every finding of it, as often as it was there. */
  lemma SplitConserves(parts: seq<seq<Finding>>, group: seq<Finding>, given: Option<seq<Finding>>)
    requires IsSplit(parts, group, given)
    ensures multiset(Joined(parts)) == multiset(group)
  {
    if !Splittable(group, given) {
      assert parts[..0] == [] && Joined([group]) == Joined([]) + group;
    } else {
      var keys: seq<Key> :| KeyedTogether(keys, group, Apps(group, given)) && PartsBy(parts, keys, group);
      PartsConserve(parts, keys, group);
    }
  }

  /**
   In a row that splits, a source finding shares its part with exactly the
   source findings a chain of App input lists connects to its id.
   */
  lemma SharePartIffChained(parts: seq<seq<Finding>>, group: seq<Finding>, given: Option<seq<Finding>>,
                            p: nat, f: Finding, g: Finding)
    requires Splittable(group, given) && IsSplit(parts, group, given)
    requires p < |parts| && f in parts[p] && !f.isApp
    requires g in group && !g.isApp
    ensures g in parts[p] <==> Connected(SameInputs(Apps(group, given)), f.id, g.id)
  {
    var apps := Apps(group, given);
    var keys: seq<Key> :| KeyedTogether(keys, group, apps) && PartsBy(parts, keys, group);
    var i := PartMembers(parts, keys, group, p, f);
    if g in parts[p] {
      var j :| 0 <= j < |group| && keys[j] == keys[i] && group[j] == g;
      assert Together(apps, group[i], group[j]);
    }
    if Connected(SameInputs(apps), f.id, g.id) {
      var j :| 0 <= j < |group| && group[j] == g;
      assert Together(apps, group[i], group[j]);
    }
  }

  /** Two of the findings do not belong together. */
  ghost predicate Apart(group: seq<Finding>, given: Option<seq<Finding>>) {
    exists f, g :: f in group && g in group && !Together(Apps(group, given), f, g)
  }

  /** A row that may be split is cut in two or more exactly when two of its findings do not belong together. */
  lemma CutIffApart(parts: seq<seq<Finding>>, group: seq<Finding>, given: Option<seq<Finding>>)
    requires Splittable(group, given) && IsSplit(parts, group, given)
    ensures |parts| != 1 <==> Apart(group, given)
  {
    var keys: seq<Key> :| KeyedTogether(keys, group, Apps(group, given)) && PartsBy(parts, keys, group);
    assert Sources(group)[0] in Sources(group) && Sources(group)[0] in group;
    OnePartIff(parts, keys, group);
    ApartIff(keys, group, given);
  }

  lemma ApartIff(keys: seq<Key>, group: seq<Finding>, given: Option<seq<Finding>>)
    requires KeyedTogether(keys, group, Apps(group, given))
    ensures Apart(group, given) <==> exists i, j :: 0 <= i < |keys| && 0 <= j < |keys| && keys[i] != keys[j]
  {
    if f, g :| f in group && g in group && !Together(Apps(group, given), f, g) {
      var i :| 0 <= i < |group| && group[i] == f;
      var j :| 0 <= j < |group| && group[j] == g;
      assert keys[i] != keys[j];
    }
    if i, j :| 0 <= i < |keys| && 0 <= j < |keys| && keys[i] != keys[j] {
      assert group[i] in group && group[j] in group && !Together(Apps(group, given), group[i], group[j]);
    }
  }

  lemma SourceHasId(group: seq<Finding>, given: Option<seq<Finding>>, f: Finding)
    requires Splittable(group, given) && f in group && !f.isApp
    ensures f.id != ""
  {
    assert f in Sources(group);
  }

  /** A part holds what its first finding's key files. */
  ghost predicate FiledWith(part: seq<Finding>, keys: seq<Key>, group: seq<Finding>, k: Key)
    requires |keys| == |group|
  {
    forall v :: v in part <==> exists j :: 0 <= j < |group| && keys[j] == k && group[j] == v
  }

  lemma PartMembers(parts: seq<seq<Finding>>, keys: seq<Key>, group: seq<Finding>, p: nat, f: Finding) returns (i: nat)
    requires |keys| == |group| && PartsBy(parts, keys, group) && p < |parts| && f in parts[p]
    ensures i < |group| && group[i] == f && FiledWith(parts[p], keys, group, keys[i])
  {
    var g: Grouping<Key, Finding> :| Groups(g, keys, group) && parts == Parts(g);
    var k := g.order[p];
    assert k in g.order;
    forall v ensures v in parts[p] <==> exists j :: 0 <= j < |group| && keys[j] == k && group[j] == v {
      PickedExactly(keys, group, k, v);
    }
    i :| 0 <= i < |group| && keys[i] == k && group[i] == f;
  }
}
