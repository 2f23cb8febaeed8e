/**
 The last step of mergeReportGroups: cutting a component's row for a lens that
 hides the App layer, and the whole of it from reports to rows.
 */
module WorkspaceOutput {
  import opened Findings
  import opened Buckets
  import opened Closure
  import opened Options
  import opened RevalidationInputs
  import opened WorkspaceRows
  import opened WorkspaceComponents
  import opened WorkspaceGroups

  function SourceRows(component: seq<Row>): seq<Finding> {
    if component == [] then []
    else SourceRows(component[..|component| - 1]) + component[|component| - 1].sourceGroup
  }

  /** The component's App findings, as its reports hold them. */
  function AppsOf(component: seq<Row>): (apps: seq<Finding>)
    ensures forall f :: f in apps ==> f.isApp
  {
    Filter(SourceRows(component), (f: Finding) => f.isApp)
  }

  function PartitionIds(part: seq<Finding>): set<string> {
    set f | f in part && !f.isApp && f.id != "" :: f.id
  }

  /** What of the row a source partition shows. */
  function VisibleIn(group: seq<Finding>, ids: set<string>): seq<Finding> {
    if group == [] then []
    else VisibleIn(group[..|group| - 1], ids) + if group[|group| - 1].id in ids then [group[|group| - 1]] else []
  }

  function Projected(partitions: seq<seq<Finding>>, group: seq<Finding>): seq<seq<Finding>> {
    if partitions == [] then []
    else
      var visible := VisibleIn(group, PartitionIds(partitions[|partitions| - 1]));
      Projected(partitions[..|partitions| - 1], group) + if visible == [] then [] else [visible]
  }

  ghost function AllIds(parts: seq<seq<Finding>>): set<string> {
    set p, f | p in parts && f in p :: f.id
  }

  /** The upstream lens shows the row cut by its source partition, when that covers all its ids. */
  ghost predicate IsUpstreamCut(component: seq<Row>, group: seq<Finding>, parts: seq<seq<Finding>>) {
    exists partitions :: IsSplit(partitions, SourceRows(component), None)
      && parts == if Projects(partitions, group) then Projected(partitions, group) else [group]
  }

  ghost predicate Projects(partitions: seq<seq<Finding>>, group: seq<Finding>) {
    |partitions| != 1 && AllIds(Projected(partitions, group)) == Ids(group)
  }

  /** The rows a component's row `group` comes out as. */
  ghost predicate IsOutput(component: seq<Row>, group: seq<Finding>, lens: Lens, parts: seq<seq<Finding>>) {
    if lens.showRevalidation then parts == [group]
    else if lens.upstreamOnly then IsUpstreamCut(component, group, parts)
    else IsSplit(parts, group, Some(AppsOf(component)))
  }

  lemma {:induction false} VisibleAre(group: seq<Finding>, ids: set<string>)
    ensures forall f :: f in VisibleIn(group, ids) <==> f in group && f.id in ids
  {
    if group != [] {
      VisibleAre(group[..|group| - 1], ids);
      assert group == group[..|group| - 1] + [group[|group| - 1]];
    }
  }

  lemma {:induction false} ProjectedAre(partitions: seq<seq<Finding>>, group: seq<Finding>)
    ensures forall p :: p in Projected(partitions, group) ==>
              p != [] && exists q :: q in partitions && p == VisibleIn(group, PartitionIds(q))
    ensures forall q :: q in partitions && VisibleIn(group, PartitionIds(q)) != [] ==>
              VisibleIn(group, PartitionIds(q)) in Projected(partitions, group)
  {
    if partitions != [] {
      var n := |partitions| - 1;
      ProjectedAre(partitions[..n], group);
      var init, last := Projected(partitions[..n], group), VisibleIn(group, PartitionIds(partitions[n]));
      var all := Projected(partitions, group);
      forall p | p in all ensures p != [] && exists q :: q in partitions && p == VisibleIn(group, PartitionIds(q)) {
        if p in init {
          var q :| q in partitions[..n] && p == VisibleIn(group, PartitionIds(q));
          assert q in partitions;
        } else {
          assert partitions[n] in partitions && p == last;
        }
      }
      forall q | q in partitions && VisibleIn(group, PartitionIds(q)) != [] ensures VisibleIn(group,
          PartitionIds(q)) in all {
        if q != partitions[n] { assert q in partitions[..n]; } else { assert last != [] ==> last in all; }
      }
    }
  }

  /** Projecting shows exactly the findings filed under a partition's ids: with an id, and no others. */
  lemma ProjectionShows(partitions: seq<seq<Finding>>, group: seq<Finding>, f: Finding)
    requires f in group
    ensures (exists p :: p in Projected(partitions, group) && f in p)
      <==> exists q :: q in partitions && f.id in PartitionIds(q)
  {
    ProjectedAre(partitions, group);
    if p :| p in Projected(partitions, group) && f in p {
      var q :| q in partitions && p == VisibleIn(group, PartitionIds(q));
      VisibleAre(group, PartitionIds(q));
    }
    if q :| q in partitions && f.id in PartitionIds(q) {
      VisibleAre(group, PartitionIds(q));
      assert f in VisibleIn(group, PartitionIds(q));
    }
  }

  ghost predicate SomewhereIn(parts: seq<seq<Finding>>, f: Finding) {
    exists p :: p in parts && f in p
  }

  /** Every id of the row is shown by some output row, whatever the lens. */
  lemma NoIdLost(component: seq<Row>, group: seq<Finding>, lens: Lens, parts: seq<seq<Finding>>, f: Finding)
    requires IsOutput(component, group, lens, parts) && f in group && f.id != ""
    ensures exists g :: g in group && g.id == f.id && SomewhereIn(parts, g)
  {
    if lens.showRevalidation {
      assert parts[0] in parts;
      assert SomewhereIn(parts, f);
    } else if lens.upstreamOnly {
      var partitions :| IsSplit(partitions, SourceRows(component), None)
        && parts == if Projects(partitions, group) then Projected(partitions, group) else [group];
      if Projects(partitions, group) {
        assert f.id in AllIds(parts);
        var p, g :| p in parts && g in p && g.id == f.id;
        ProjectedAre(partitions, group);
        var q :| q in partitions && p == VisibleIn(group, PartitionIds(q));
        VisibleAre(group, PartitionIds(q));
        assert SomewhereIn(parts, g);
      } else {
        assert parts[0] in parts;
        assert SomewhereIn(parts, f);
      }
    } else {
      SplitKeeps(parts, group, Some(AppsOf(component)), f);
    }
  }

  lemma SplitKeeps(parts: seq<seq<Finding>>, group: seq<Finding>, given: Option<seq<Finding>>, f: Finding)
    requires IsSplit(parts, group, given) && f in group
    ensures SomewhereIn(parts, f)
  {
    SplitConserves(parts, group, given);
    assert f in multiset(group);
    assert f in Joined(parts);
    InJoined(parts, f);
  }

  lemma {:induction false} InJoined(parts: seq<seq<Finding>>, f: Finding)
    ensures f in Joined(parts) <==> SomewhereIn(parts, f)
  {
    if parts != [] {
      var n := |parts| - 1;
      InJoined(parts[..n], f);
      assert parts == parts[..n] + [parts[n]];
    }
  }

  /** A finding with an id is the one of its id in the row, and so shown itself. */
  lemma WithIdNotLost(component: seq<Row>, group: seq<Finding>, lens: Lens, parts: seq<seq<Finding>>, f: Finding)
    requires IsOutput(component, group, lens, parts) && OneAnId(group) && f in group && f.id != ""
    ensures SomewhereIn(parts, f)
  {
    NoIdLost(component, group, lens, parts, f);
    var g :| g in group && g.id == f.id && SomewhereIn(parts, g);
    SameIdSame(group, f, g);
  }

  /**
   The upstream cut is made exactly when the source rows may be split, come apart, and account for every id of
   the row.
   */
  lemma ProjectsIff(component: seq<Row>, group: seq<Finding>, partitions: seq<seq<Finding>>)
    requires IsSplit(partitions, SourceRows(component), None)
    ensures var source := SourceRows(component);
            Projects(partitions, group) <==>
                Splittable(source, None) && Apart(source, None) && Ids(group) <= SourceIds(source)
  {
    var source := SourceRows(component);
    if Splittable(source, None) {
      CutIffApart(partitions, source, None);
      CoveredWithin(partitions, group);
      CoveredIsSourced(partitions, source, group);
    }
  }

  /** Of a row's ids a source partition covers those its source findings carry. */
  lemma CoveredIsSourced(partitions: seq<seq<Finding>>, source: seq<Finding>, group: seq<Finding>)
    requires Splittable(source, None) && IsSplit(partitions, source, None)
    ensures AllIds(Projected(partitions, group)) == Ids(group) * SourceIds(source)
  {
    CoveredWithin(partitions, group);
    forall id | id in AllIds(Projected(partitions, group)) ensures id in SourceIds(source) {
      CoveredFromSource(partitions, source, group, id);
    }
    forall id | id in Ids(group) && id in SourceIds(source) ensures id in AllIds(Projected(partitions, group)) {
      SourcedIsCovered(partitions, source, group, id);
    }
  }

  lemma CoveredFromSource(partitions: seq<seq<Finding>>, source: seq<Finding>, group: seq<Finding>, id: string)
    requires IsSplit(partitions, source, None) && id in AllIds(Projected(partitions, group))
    ensures id in SourceIds(source)
  {
    ProjectedAre(partitions, group);
    var p, f :| p in Projected(partitions, group) && f in p && f.id == id;
    var q :| q in partitions && p == VisibleIn(group, PartitionIds(q));
    VisibleAre(group, PartitionIds(q));
    var g :| g in q && !g.isApp && g.id != "" && g.id == id;
    PartWithin(partitions, source, q, g);
    assert g in Sources(source);
  }

  lemma PartWithin(parts: seq<seq<Finding>>, group: seq<Finding>, q: seq<Finding>, g: Finding)
    requires IsSplit(parts, group, None) && q in parts && g in q
    ensures g in group
  {
    SplitConserves(parts, group, None);
    InJoined(parts, g);
    assert g in multiset(Joined(parts));
  }

  lemma SourcedIsCovered(partitions: seq<seq<Finding>>, source: seq<Finding>, group: seq<Finding>, id: string)
    requires IsSplit(partitions, source, None) && id in Ids(group) && id in SourceIds(source)
    ensures id in AllIds(Projected(partitions, group))
  {
    var f :| f in group && f.id != "" && f.id == id;
    var g :| g in Sources(source) && g.id == id;
    SplitConserves(partitions, source, None);
    assert g in multiset(source) && g in multiset(Joined(partitions));
    InJoined(partitions, g);
    var q :| q in partitions && g in q;
    assert f.id in PartitionIds(q);
    ProjectionShows(partitions, group, f);
  }

  /** What makes the upstream lens lose a finding: one without an id, in a row whose source rows make the cut. */
  ghost predicate CutsIdless(component: seq<Row>, group: seq<Finding>, lens: Lens) {
    var source := SourceRows(component);
    && !lens.showRevalidation && lens.upstreamOnly && (exists f :: f in group && f.id == "")
    && Splittable(source, None) && Apart(source, None) && Ids(group) <= SourceIds(source)
  }

  /**
   Exactly when the row loses nothing: unless, under the upstream lens, it holds a finding without an id, and its
   source rows may be split, come apart, and account for all the ids it has.
   */
  lemma NothingLostIff(component: seq<Row>, group: seq<Finding>, lens: Lens, parts: seq<seq<Finding>>)
    requires IsOutput(component, group, lens, parts) && OneAnId(group)
    ensures (forall f :: f in group ==> SomewhereIn(parts, f)) <==> !CutsIdless(component, group, lens)
  {
    if !lens.showRevalidation && lens.upstreamOnly {
      var partitions :| IsSplit(partitions, SourceRows(component), None)
        && parts == if Projects(partitions, group) then Projected(partitions, group) else [group];
      ProjectsIff(component, group, partitions);
      if Projects(partitions, group) {
        forall f | f in group ensures SomewhereIn(parts, f) <==> f.id != "" {
          ProjectionShows(partitions, group, f);
          if f.id != "" { WithIdNotLost(component, group, lens, parts, f); }
        }
      } else {
        forall f | f in group ensures SomewhereIn(parts, f) { assert parts[0] in parts; }
      }
    } else if lens.showRevalidation {
      forall f | f in group ensures SomewhereIn(parts, f) { assert parts[0] in parts; }
    } else {
      forall f | f in group ensures SomewhereIn(parts, f) {
        SplitKeeps(parts, group, Some(AppsOf(component)), f);
      }
    }
  }

  /** No output row shows a finding the component's row does not. */
  lemma NothingAdded(component: seq<Row>, group: seq<Finding>, lens: Lens, parts: seq<seq<Finding>>, f: Finding)
    requires IsOutput(component, group, lens, parts) && SomewhereIn(parts, f)
    ensures f in group
  {
    if lens.showRevalidation {
    } else if lens.upstreamOnly {
      var partitions :| IsSplit(partitions, SourceRows(component), None)
        && parts == if Projects(partitions, group) then Projected(partitions, group) else [group];
      if Projects(partitions, group) {
        var p :| p in parts && f in p;
        ProjectedAre(partitions, group);
        var q :| q in partitions && p == VisibleIn(group, PartitionIds(q));
        VisibleAre(group, PartitionIds(q));
      }
    } else {
      SplitConserves(parts, group, Some(AppsOf(component)));
      InJoined(parts, f);
      assert f in multiset(Joined(parts));
    }
  }

  /** The function splitOutput. */
  method SplitOutput(component: seq<Row>, group: seq<Finding>, lens: Lens) returns (parts: seq<seq<Finding>>)
    ensures IsOutput(component, group, lens, parts)
  {
    if lens.showRevalidation { return [group]; }
    if lens.upstreamOnly {
      var complete := SourceRows(component);
      var partitions := SplitRevalidationInputs(complete, None);
      if |partitions| == 1 {
        assert !Projects(partitions, group);
        return [group];
      }
      var projected, covered := Project(partitions, group);
      var groupIds := set f | f in group && f.id != "" :: f.id;
      assert groupIds == Ids(group);
      CoveredWithin(partitions, group);
      if |covered| == |groupIds| {
        SubsetOfSameSize(covered, groupIds);
        parts := projected;
      } else {
        parts := [group];
      }
      assert parts == if Projects(partitions, group) then Projected(partitions, group) else [group];
    } else {
      parts := SplitRevalidationInputs(group, Some(AppsOf(component)));
    }
  }

  lemma CoveredWithin(partitions: seq<seq<Finding>>, group: seq<Finding>)
    ensures AllIds(Projected(partitions, group)) <= Ids(group)
  {
    ProjectedAre(partitions, group);
    forall id | id in AllIds(Projected(partitions, group)) ensures id in Ids(group) {
      var p, f :| p in Projected(partitions, group) && f in p && f.id == id;
      var q :| q in partitions && p == VisibleIn(group, PartitionIds(q));
      VisibleAre(group, PartitionIds(q));
    }
  }

  lemma SubsetOfSameSize<T>(a: set<T>, b: set<T>)
    requires a <= b && |a| == |b|
    ensures a == b
  {
    assert b == a + (b - a) && |b| == |a| + |b - a|;
  }

  method Project(partitions: seq<seq<Finding>>, group: seq<Finding>)
      returns (projected: seq<seq<Finding>>, covered: set<string>)
    ensures projected == Projected(partitions, group) && covered == AllIds(projected)
  {
    projected, covered := [], {};
    for n := 0 to |partitions|
      invariant projected == Projected(partitions[..n], group) && covered == AllIds(projected)
    {
      var visible := VisibleIn(group, PartitionIds(partitions[n]));
      assert partitions[..n + 1][..n] == partitions[..n];
      if visible != [] {
        ghost var was := projected;
        projected := projected + [visible];
        covered := covered + set f | f in visible :: f.id;
        assert forall p :: p in projected <==> p in was || p == visible;
      }
    }
    assert partitions[..|partitions|] == partitions;
  }

  // ---- the whole ----

  /** The ids the loaded reports rule out. */
  ghost function RuledOut(reports: seq<Report>): set<string> {
    set r, g, f | r in reports && g in r.groups && f in g && f.id != "" && Hidden(f) :: f.id
  }

  method RuledOutIds(reports: seq<Report>) returns (ids: set<string>)
    ensures ids == RuledOut(reports)
  {
    ids := set r, g, f | r in reports && g in r.groups && f in g && f.id != "" && Hidden(f) :: f.id;
  }

  /** `keys` gives two rows one component exactly when the joins connect them. */
  ghost predicate KeyedByClosure(keys: seq<nat>, rows: seq<Row>, R: set<(nat, nat)>) {
    && |keys| == |rows|
    && forall i: nat, j: nat :: i < |rows| && j < |rows| ==> (keys[i] == keys[j] <==> Connected(R, i, j))
  }

  /** One component's output rows. */
  ghost predicate ComponentOutput(component: seq<Row>, lens: Lens, merges: seq<seq<string>>, parts: seq<seq<Finding>>) {
    exists group :: IsRow(component, merges, group) && IsOutput(component, group, lens, parts)
  }

  /** The rows as components, in order of first row. */
  method Assemble(rows: seq<Row>, ghost R: set<(nat, nat)>, c: Components)
      returns (found: Grouping<nat, Row>, ghost keys: seq<nat>)
    requires c.Valid() && |rows| == |c.own| && IsClosure(R, c.forest.shape.rep)
    modifies c.forest.parent
    ensures KeyedByClosure(keys, rows, R) && Groups(found, keys, rows)
  {
    found, keys := Grouping([], map[]), [];
    ghost var rep := c.forest.shape.rep;
    for i := 0 to |rows|
      invariant c.Valid() && c.forest.shape.rep == rep
      invariant |keys| == i && found == Filed(keys, rows[..i])
      invariant forall k: nat :: k < i ==> k in rep && keys[k] == rep[k]
    {
      var root := c.Find(i);
      FiledOn(keys, rows[..i], root, rows[i]);
      assert rows[..i + 1] == rows[..i] + [rows[i]];
      found, keys := found.Put(root, rows[i]), keys + [root];
    }
    assert rows[..|rows|] == rows;
    FiledGroups(keys, rows);
    forall i: nat, j: nat | i < |rows| && j < |rows| ensures keys[i] == keys[j] <==> Connected(R, i, j) {
      assert i in rep && j in rep;
      assert Connected(R, i, j) || !Connected(R, i, j);
    }
  }

  /** The rows in components as the joins connect them, each with its own output, and the outputs one after another. */
  ghost predicate MergedAs(groups: seq<seq<Finding>>, rows: seq<Row>, lens: Lens, merges: seq<seq<string>>,
                           keys: seq<nat>, components: seq<seq<Row>>, outputs: seq<seq<seq<Finding>>>) {
    && KeyedByClosure(keys, rows, AllPhases(rows, merges)) && PartsBy(components, keys, rows)
    && |outputs| == |components| && AllOutput(components, lens, merges, outputs) && groups == Joined(outputs)
  }

  /**
   The function mergeReportGroups, without its labels and conflicts: the shown
   rows, cut into components exactly as the joins connect them, each coming out
   as its own rows, in order.
   */
  method MergeReportGroups(reports: seq<Report>, lens: Lens, merges: seq<seq<string>>)
      returns (groups: seq<seq<Finding>>, ruledOut: set<string>)
    ensures ruledOut == RuledOut(reports)
    ensures exists keys, components, outputs ::
              MergedAs(groups, RowsOf(reports, lens), lens, merges, keys, components, outputs)
  {
    ruledOut := RuledOutIds(reports);
    var rows := BuildRows(reports, lens);
    var c := new Components(rows);
    var byId := BuildById(rows);
    FirstPass(rows, byId, c);
    SecondPass(rows, byId, c);
    HintPass(rows, byId, merges, c);
    var found, keys := Assemble(rows, AllPhases(rows, merges), c);
    var components := Parts(found);
    forall k | 0 <= k < |components| ensures components[k] != [] {
      assert found.order[k] in found.order;
      ComponentNotEmpty(found, keys, rows, found.order[k]);
    }
    ghost var outputs;
    groups, outputs := OutputAll(components, lens, merges);
    assert MergedAs(groups, rows, lens, merges, keys, components, outputs);
  }

  /** The components so far, each with its output. */
  ghost predicate AllOutput(components: seq<seq<Row>>, lens: Lens, merges: seq<seq<string>>,
                            outputs: seq<seq<seq<Finding>>>) {
    |outputs| <= |components| && forall k :: 0 <= k < |outputs| ==>
        ComponentOutput(components[k], lens, merges, outputs[k])
  }

  lemma AllOutputPush(components: seq<seq<Row>>, lens: Lens, merges: seq<seq<string>>, outputs: seq<seq<seq<Finding>>>,
                      parts: seq<seq<Finding>>)
    requires AllOutput(components, lens, merges, outputs) && |outputs| < |components|
    requires ComponentOutput(components[|outputs|], lens, merges, parts)
    ensures AllOutput(components, lens, merges, outputs + [parts])
  {
    var more := outputs + [parts];
    forall k | 0 <= k < |more| ensures ComponentOutput(components[k], lens, merges, more[k]) {
      if k < |outputs| { assert more[k] == outputs[k]; }
    }
  }

  /** Every component's row, cut for output. */
  method OutputAll(components: seq<seq<Row>>, lens: Lens, merges: seq<seq<string>>)
      returns (groups: seq<seq<Finding>>, ghost outputs: seq<seq<seq<Finding>>>)
    requires forall k :: 0 <= k < |components| ==> components[k] != []
    ensures |outputs| == |components| && groups == Joined(outputs)
    ensures AllOutput(components, lens, merges, outputs)
  {
    groups, outputs := [], [];
    for k := 0 to |components|
      invariant |outputs| == k && groups == Joined(outputs)
      invariant AllOutput(components, lens, merges, outputs)
    {
      var parts := OutputOne(components[k], lens, merges);
      JoinedPush(outputs, parts);
      AllOutputPush(components, lens, merges, outputs, parts);
      groups, outputs := groups + parts, outputs + [parts];
    }
  }

  method OutputOne(component: seq<Row>, lens: Lens, merges: seq<seq<string>>) returns (parts: seq<seq<Finding>>)
    requires component != []
    ensures ComponentOutput(component, lens, merges, parts)
  {
    var group := CombineRow(component, merges);
    parts := SplitOutput(component, group, lens);
  }

  lemma JoinedPush<V>(s: seq<seq<V>>, p: seq<V>)
    ensures Joined(s + [p]) == Joined(s) + p
  {
    assert (s + [p])[..|s|] == s;
  }


  lemma ComponentNotEmpty(found: Grouping<nat, Row>, keys: seq<nat>, rows: seq<Row>, k: nat)
    requires |keys| == |rows| && Groups(found, keys, rows) && k in found.order
    ensures k in found.lists && found.lists[k] != []
  {
    var i :| 0 <= i < |keys| && keys[i] == k;
    PickedExactly(keys, rows, k, rows[i]);
  }

  // ---- rows as a lens shows them ----

  /** Each row shows what the lens keeps of its original. */
  ghost predicate ShownBy(rows: seq<Row>, lens: Lens) {
    forall row :: row in rows ==> row.group == Kept(row.sourceGroup, lens)
  }

  lemma {:induction false} ReportRowsShown(groups: seq<seq<Finding>>, report: nat, lens: Lens)
    ensures ShownBy(RowsOfReport(groups, report, lens), lens)
  {
    if groups != [] { ReportRowsShown(groups[..|groups| - 1], report, lens); }
  }

  lemma {:induction false} RowsShown(reports: seq<Report>, lens: Lens)
    ensures ShownBy(RowsOf(reports, lens), lens)
  {
    if reports != [] {
      var n := |reports| - 1;
      RowsShown(reports[..n], lens);
      ReportRowsShown(reports[n].groups, n, lens);
    }
  }

  /** The original a shown finding is of. */
  lemma ShownFrom(original: seq<Finding>, lens: Lens, f: Finding) returns (g: Finding)
    requires f in Kept(original, lens)
    ensures g in original && g.id == f.id && g.isApp == f.isApp && g.isUpstream == f.isUpstream
    ensures lens.upstreamOnly ==> g.isUpstream
  {
    var kept := if lens.upstreamOnly then Filter(original, (f: Finding) => f.isUpstream && f.kind != Revalidation)
                else if lens.showRevalidation then Kept(original, lens)
                else Filter(original, (f: Finding) => f.kind != Revalidation);
    var i :| 0 <= i < |Kept(original, lens)| && Kept(original, lens)[i] == f;
    g := kept[i];
    assert g in kept;
  }

  lemma {:induction false} InSourceRows(component: seq<Row>, row: Row, g: Finding)
    requires row in component && g in row.sourceGroup
    ensures g in SourceRows(component)
  {
    var n := |component| - 1;
    if row != component[n] {
      assert row in component[..n];
      InSourceRows(component[..n], row, g);
    }
  }

  lemma {:induction false} GatheredFrom(component: seq<Row>, f: Finding) returns (row: Row)
    requires f in AllFindings(component)
    ensures row in component && f in row.group
  {
    var n := |component| - 1;
    if f in component[n].group {
      row := component[n];
    } else {
      row := GatheredFrom(component[..n], f);
    }
  }

  /** The one finding a cut can lose is an App finding without an id that its report itself marks upstream. */
  lemma OnlyIdlessAppLost(component: seq<Row>, merges: seq<seq<string>>, group: seq<Finding>, lens: Lens,
                          parts: seq<seq<Finding>>, f: Finding)
    requires IsRow(component, merges, group) && ShownBy(component, lens) && IsOutput(component, group, lens, parts)
    requires f in group && !SomewhereIn(parts, f)
    ensures f.id == "" && f.isApp && f.isUpstream && !lens.showRevalidation && lens.upstreamOnly
  {
    RowKeepsAll(component, merges, group);
    NothingLostIff(component, group, lens, parts);
    if f.id != "" { WithIdNotLost(component, group, lens, parts, f); }
    FirstsKeepIds(AllFindings(component));
    var row := GatheredFrom(component, f);
    var g := ShownFrom(row.sourceGroup, lens, f);
    InSourceRows(component, row, g);
    if !g.isApp { SourceHasId(SourceRows(component), None, g); }
  }

  /** `f` comes out as `g`: one of its id, or itself. */
  ghost predicate ComesOutAs(parts: seq<seq<Finding>>, f: Finding, g: Finding) {
    g.id == f.id && (f.id == "" ==> g == f) && SomewhereIn(parts, g)
  }

  /** What a report's own mark can lose under the upstream lens. */
  predicate Losable(f: Finding, lens: Lens) {
    f.id == "" && f.isApp && f.isUpstream && !lens.showRevalidation && lens.upstreamOnly
  }

  /**
   Every finding a lens shows is in the output of its own component: under its id if it has one, and itself if it
   has none; but for an App finding without an id that its report marks upstream, under the upstream lens.
   */
  lemma ShownFindingsReachOutput(groups: seq<seq<Finding>>, reports: seq<Report>, lens: Lens, merges: seq<seq<string>>,
                                 keys: seq<nat>, components: seq<seq<Row>>, outputs: seq<seq<seq<Finding>>>, i: nat,
                                   f: Finding)
    requires MergedAs(groups, RowsOf(reports, lens), lens, merges, keys, components, outputs)
    requires i < |RowsOf(reports, lens)| && f in RowsOf(reports, lens)[i].group && !Losable(f, lens)
    ensures exists k: nat, g: Finding ::
              k < |outputs| && RowsOf(reports, lens)[i] in components[k] && ComesOutAs(outputs[k], f, g)
  {
    var rows := RowsOf(reports, lens);
    RowsShown(reports, lens);
    var k := ComponentOfRow(keys, components, rows, i);
    var group: seq<Finding> :| IsRow(components[k], merges, group) && IsOutput(components[k], group, lens, outputs[k]);
    RowKeepsAll(components[k], merges, group);
    FirstsKeepIds(AllFindings(components[k]));
    RowFindingsGathered(components[k], rows[i], f);
    if f.id != "" {
      assert f.id in Ids(Firsts(AllFindings(components[k])));
      var h :| h in Firsts(AllFindings(components[k])) && h.id == f.id;
      NoIdLost(components[k], group, lens, outputs[k], h);
      var g: Finding :| g in group && g.id == h.id && SomewhereIn(outputs[k], g);
      assert ComesOutAs(outputs[k], f, g);
    } else {
      if !SomewhereIn(outputs[k], f) { OnlyIdlessAppLost(components[k], merges, group, lens, outputs[k], f); }
      assert ComesOutAs(outputs[k], f, f);
    }
  }

  /** The component a row is in, all of it from the rows. */
  lemma ComponentOfRow(keys: seq<nat>, components: seq<seq<Row>>, rows: seq<Row>, i: nat) returns (k: nat)
    requires |keys| == |rows| && PartsBy(components, keys, rows) && i < |rows|
    ensures k < |components| && rows[i] in components[k] && forall row :: row in components[k] ==> row in rows
  {
    var found: Grouping<nat, Row> :| Groups(found, keys, rows) && components == Parts(found);
    assert keys[i] in keys && keys[i] in found.order;
    k :| 0 <= k < |found.order| && found.order[k] == keys[i];
    forall row ensures row in components[k] <==> exists j :: 0 <= j < |rows| && keys[j] == keys[i] && rows[j] == row {
      PickedExactly(keys, rows, keys[i], row);
    }
  }

  lemma {:induction false} RowFindingsGathered(component: seq<Row>, row: Row, f: Finding)
    requires row in component && f in row.group
    ensures f in AllFindings(component)
  {
    var n := |component| - 1;
    if row != component[n] {
      assert row in component[..n];
      RowFindingsGathered(component[..n], row, f);
    }
  }

  /** Under the upstream lens the component's row holds `f` and no output row does. */
  ghost predicate Loses(component: seq<Row>, group: seq<Finding>, parts: seq<seq<Finding>>, f: Finding) {
    && IsRow(component, [], group) && ShownBy(component, Lens(false, true, false))
    && IsOutput(component, group, Lens(false, true, false), parts)
    && f in group && !SomewhereIn(parts, f)
  }

  const SOURCE := Finding(0, "s", false, true, NoAnswer, Absent)
  const APP := Finding(1, "a", true, false, NoAnswer, Listed(["s"]))
  const IDLESS := Finding(2, "", true, true, NoAnswer, Absent)

  /**
   The upstream lens can lose a finding without an id: an App finding its report marks upstream, in a row whose
   source finding another App finding lists.
   */
  lemma IdlessUpstreamFindingLost()
    ensures exists component, group, parts, f :: Loses(component, group, parts, f)
  {
    SampleLoses();
  }

  const SAMPLE := [Row([SOURCE, IDLESS], [SOURCE, APP, IDLESS], 0, true)]

  lemma SampleLoses()
    ensures Loses(SAMPLE, [SOURCE, IDLESS], Projected([[SOURCE, APP], [IDLESS]], [SOURCE, IDLESS]), IDLESS)
  {
    var group := [SOURCE, IDLESS];
    SampleCut();
    SampleProjects();
    SampleShown();
    assert group[1] == IDLESS && SAMPLE[0].group == group && OneAnId(group);
  }

  lemma SampleShown()
    ensures Kept([SOURCE, APP, IDLESS], Lens(false, true, false)) == [SOURCE, IDLESS]
  {
    var keeps := (f: Finding) => f.isUpstream && f.kind != Revalidation;
    var all := [SOURCE, APP, IDLESS];
    assert all[..2] == [SOURCE, APP] && all[..2][..1] == [SOURCE] && all[..2][..1][..0] == [];
    assert Filter([SOURCE], keeps) == [SOURCE];
    assert Filter([SOURCE, APP], keeps) == [SOURCE];
    assert Filter(all, keeps) == [SOURCE, IDLESS];
    assert WithoutRevalidation(SOURCE) == SOURCE && WithoutRevalidation(IDLESS) == IDLESS;
    assert Stripped([SOURCE, IDLESS]) == [SOURCE, IDLESS];
  }

  lemma SampleCut()
    ensures var group := [SOURCE, IDLESS];
            IsUpstreamCut(SAMPLE, group, Projected([[SOURCE, APP], [IDLESS]], group))
  {
    assert SourceRows(SAMPLE) == [SOURCE, APP, IDLESS] by {
      assert SAMPLE[..0] == [] && SourceRows(SAMPLE[..0]) == [];
    }
    SampleSplits();
    SampleProjects();
  }

  lemma SampleProjects()
    ensures Projects([[SOURCE, APP], [IDLESS]], [SOURCE, IDLESS])
    ensures !SomewhereIn(Projected([[SOURCE, APP], [IDLESS]], [SOURCE, IDLESS]), IDLESS)
  {
    var partitions, group := [[SOURCE, APP], [IDLESS]], [SOURCE, IDLESS];
    var parts := Projected(partitions, group);
    assert group[0] == SOURCE && group[1] == IDLESS;
    assert partitions[0] == [SOURCE, APP];
    ProjectionShows(partitions, group, SOURCE);
    ProjectionShows(partitions, group, IDLESS);
    assert SOURCE in partitions[0] && SOURCE.id in PartitionIds(partitions[0]);
    assert SomewhereIn(parts, SOURCE);
    CoveredWithin(partitions, group);
    assert Ids(group) == {"s"};
  }

  lemma SampleSplits()
    ensures IsSplit([[SOURCE, APP], [IDLESS]], [SOURCE, APP, IDLESS], None)
  {
    SampleSplittable();
    var keys := [Root("s"), Root("s"), Itself(2)];
    ConnectedSelf(SameInputs(Apps([SOURCE, APP, IDLESS], None)), "s");
    assert KeyedTogether(keys, [SOURCE, APP, IDLESS], Apps([SOURCE, APP, IDLESS], None));
    TwoAndOne(Root("s"), Itself(2), SOURCE, APP, IDLESS);
  }

  lemma SampleSplittable()
    ensures Splittable([SOURCE, APP, IDLESS], None)
  {
    var group := [SOURCE, APP, IDLESS];
    var apps := Apps(group, None);
    assert group[0] == SOURCE && group[1] == APP && group[2] == IDLESS;
    forall f ensures f in apps <==> f == APP || f == IDLESS {}
    forall f ensures f in Sources(group) <==> f == SOURCE {}
    assert SourceIds(group) == {"s"};
    assert APP.InputIds() == ["s"] && IDLESS.InputIds() == [];
    assert "s" in APP.InputIds();
    forall id ensures id in Named(apps) <==> id == "s" {}
  }

  lemma TwoAndOne<K(!new), V(!new)>(k: K, l: K, x: V, y: V, z: V)
    requires k != l
    ensures PartsBy([[x, y], [z]], [k, k, l], [x, y, z])
  {
    var g := Grouping([k, l], map[k := [x, y], l := [z]]);
    var keys, items := [k, k, l], [x, y, z];
    assert keys[..2] == [k, k] && items[..2] == [x, y];
    assert [k, k][..1] == [k] && [x, y][..1] == [x] && [k][..0] == [] && [x][..0] == [];
    forall j ensures Picked(keys, items, j) == Picked([k, k], [x, y], j) + if l == j then [z] else [] {}
    forall j ensures Picked([k, k], [x, y], j) == if k == j then [x, y] else [] {
      assert Picked([k, k], [x, y], j) == Picked([k], [x], j) + if k == j then [y] else [];
      assert Picked([k], [x], j) == Picked([], [], j) + if k == j then [x] else [];
    }
    assert keys[0] == k && keys[2] == l;
    assert FirstSeen(keys) == FirstSeen([k, k]) + [l] && FirstSeen([k, k]) == FirstSeen([k]) == FirstSeen([]) + [k];
    assert Groups(g, keys, items);
    assert Parts(g) == [[x, y], [z]];
  }
}
