/**
 Which rows of loaded reports merge into one workspace row
 (common/workspace-groups.js). Rows are projected first, then joined in two
 phases: App identities and overlaps inside one report, and after that shared
 ids among components that hold no App row. The relations below say what each
 phase is for; the methods of `Components` must leave exactly their closure.
 */
module WorkspaceRows {
  import opened Findings
  import opened Buckets
  import opened Closure
  import Forest

  datatype Report = Report(groups: seq<seq<Finding>>)

  /** The view's options: `showRevalidation`, `upstreamOnly`, `hideRuledOut`. */
  datatype Lens = Lens(showRevalidation: bool, upstreamOnly: bool, hideRuledOut: bool)

  datatype Row = Row(group: seq<Finding>, sourceGroup: seq<Finding>, report: nat, hasApp: bool)

  /** A finding without its revalidation fields. */
  function WithoutRevalidation(f: Finding): Finding {
    f.(kind := NoAnswer, inputs := Absent)
  }

  predicate Hidden(f: Finding) {
    f.kind == Refuted || f.kind == Unreachable
  }

  function Stripped(s: seq<Finding>): seq<Finding> {
    seq(|s|, i requires 0 <= i < |s| => WithoutRevalidation(s[i]))
  }

  /** What of an original row the lens shows. */
  function Kept(original: seq<Finding>, lens: Lens): seq<Finding> {
    if lens.upstreamOnly then Stripped(Filter(original, (f: Finding) => f.isUpstream && f.kind != Revalidation))
    else if lens.showRevalidation then
      if lens.hideRuledOut then Filter(original, (f: Finding) => !Hidden(f)) else original
    else Stripped(Filter(original, (f: Finding) => f.kind != Revalidation))
  }

  predicate AnyApp(group: seq<Finding>) {
    exists f :: f in group && f.isApp
  }

  function RowsOfReport(groups: seq<seq<Finding>>, report: nat, lens: Lens): seq<Row> {
    if groups == [] then []
    else
      var last := groups[|groups| - 1];
      var kept := Kept(last, lens);
      RowsOfReport(groups[..|groups| - 1], report, lens)
      + if kept == [] then [] else [Row(kept, last, report, AnyApp(kept))]
  }

  /** Every report's shown rows, in order. */
  function RowsOf(reports: seq<Report>, lens: Lens): seq<Row> {
    if reports == [] then []
    else
      var n := |reports| - 1;
      RowsOf(reports[..n], lens) + RowsOfReport(reports[n].groups, n, lens)
  }

  /** The first loop of mergeReportGroups. */
  method BuildRows(reports: seq<Report>, lens: Lens) returns (rows: seq<Row>)
    ensures rows == RowsOf(reports, lens)
  {
    rows := [];
    for r := 0 to |reports|
      invariant rows == RowsOf(reports[..r], lens)
    {
      var groups := reports[r].groups;
      for g := 0 to |groups|
        invariant rows == RowsOf(reports[..r], lens) + RowsOfReport(groups[..g], r, lens)
      {
        var kept := Kept(groups[g], lens);
        assert groups[..g + 1][..g] == groups[..g];
        if kept != [] {
          rows := rows + [Row(kept, groups[g], r, AnyApp(kept))];
        }
      }
      assert groups[..|groups|] == groups && reports[..r + 1][..r] == reports[..r];
    }
    assert reports[..|reports|] == reports;
  }

  // ---- what each phase is to join ----

  predicate Holds(row: Row, id: string) {
    exists f :: f in row.group && f.id == id
  }

  predicate HoldsApp(row: Row, id: string) {
    exists f :: f in row.group && f.id == id && f.isApp
  }

  /** Some row shows an App finding under this id. */
  ghost predicate AppCarried(rows: seq<Row>, id: string) {
    exists i :: 0 <= i < |rows| && HoldsApp(rows[i], id)
  }

  ghost predicate ShareId(rows: seq<Row>, i: nat, j: nat, id: string) {
    i < |rows| && j < |rows| && id != "" && Holds(rows[i], id) && Holds(rows[j], id)
  }

  ghost predicate FirstJoins(rows: seq<Row>, i: nat, j: nat) {
    exists id :: ShareId(rows, i, j, id) && (AppCarried(rows, id) || rows[i].report == rows[j].report)
  }

  /** Phase one: sharing an id an App finding carries, or any id inside one report. */
  ghost function FirstPhase(rows: seq<Row>): set<(nat, nat)> {
    set i: nat, j: nat | i < |rows| && j < |rows| && FirstJoins(rows, i, j) :: (i, j)
  }

  /** No App row in this row's phase-one component. */
  ghost predicate AppFree(rows: seq<Row>, i: nat) {
    forall j: nat :: j < |rows| && Connected(FirstPhase(rows), i, j) ==> !rows[j].hasApp
  }

  ghost predicate SecondJoins(rows: seq<Row>, i: nat, j: nat) {
    AppFree(rows, i) && AppFree(rows, j) && exists id :: ShareId(rows, i, j, id)
  }

  /** Phase two: sharing any id, among App-free components alone. */
  ghost function SecondPhase(rows: seq<Row>): set<(nat, nat)> {
    set i: nat, j: nat | i < |rows| && j < |rows| && SecondJoins(rows, i, j) :: (i, j)
  }

  ghost predicate HintJoins(rows: seq<Row>, merges: seq<seq<string>>, i: nat, j: nat) {
    exists m, x, y :: 0 <= m < |merges| && x in merges[m] && y in merges[m]
      && ShareId(rows, i, i, x) && ShareId(rows, j, j, y)
  }

  /** Explicit hints: holding ids of one merge. */
  ghost function HintPhase(rows: seq<Row>, merges: seq<seq<string>>): set<(nat, nat)> {
    set i: nat, j: nat | i < |rows| && j < |rows| && HintJoins(rows, merges, i, j) :: (i, j)
  }

  /** A row whose component has an App row is joined to nothing by phase two. */
  lemma {:induction false} PhaseTwoLeavesAppRows(rows: seq<Row>, s: seq<nat>, n: nat)
    requires Chain(FirstPhase(rows) + SecondPhase(rows), s) && n < |s| && !AppFree(rows, s[0])
    ensures Connected(FirstPhase(rows), s[0], s[n])
  {
    var R := FirstPhase(rows);
    if n == 0 {
      ConnectedSelf(R, s[0]);
    } else {
      PhaseTwoLeavesAppRows(rows, s, n - 1);
      if AppFree(rows, s[n - 1]) { AppFreeSpreads(rows, s[0], s[n - 1]); }
      assert Adjacent(R + SecondPhase(rows), s[n - 1], s[n]);
      assert Adjacent(R, s[n - 1], s[n]);
      ConnectedEdge(R, s[n - 1], s[n]);
      ConnectedTrans(R, s[0], s[n - 1], s[n]);
    }
  }

  lemma AppFreeSpreads(rows: seq<Row>, i: nat, j: nat)
    requires Connected(FirstPhase(rows), i, j) && AppFree(rows, j)
    ensures AppFree(rows, i)
  {
    var R := FirstPhase(rows);
    ConnectedSym(R, i, j);
    forall k: nat | k < |rows| && Connected(R, i, k) ensures !rows[k].hasApp {
      ConnectedTrans(R, j, i, k);
    }
  }

  /**
   Source-only rows never bridge: without hints, two rows of components with
   App rows end up together only if phase one already put them together.
   */
  lemma SourceRowsNeverBridge(rows: seq<Row>, i: nat, j: nat)
    requires !AppFree(rows, i)
    ensures Connected(FirstPhase(rows) + SecondPhase(rows), i, j) <==> Connected(FirstPhase(rows), i, j)
  {
    var R := FirstPhase(rows) + SecondPhase(rows);
    if Connected(R, i, j) {
      var s: seq<nat> :| Joins(R, i, j, s);
      PhaseTwoLeavesAppRows(rows, s, |s| - 1);
    }
    if Connected(FirstPhase(rows), i, j) {
      ConnectedMono(FirstPhase(rows), R, i, j);
    }
  }

  // ---- the occurrences of each id ----

  datatype Occurrence = Occurrence(index: nat, app: bool)

  ghost predicate Shows(row: Row, id: string, app: bool) {
    exists f :: f in row.group && f.id == id && f.isApp == app
  }

  /** `byId` lists, under each id but "", the rows showing it, and whether as an App finding. */
  ghost predicate Indexes(byId: Grouping<string, Occurrence>, rows: seq<Row>) {
    forall id :: IndexedAt(byId, rows, id)
  }

  ghost predicate IndexedAt(byId: Grouping<string, Occurrence>, rows: seq<Row>, id: string) {
    && (id in byId.lists ==> id != "")
    && (forall o :: (id in byId.lists && o in byId.lists[id]) <==>
                    (id != "" && o.index < |rows| && Shows(rows[o.index], id, o.app)))
  }

  method BuildById(rows: seq<Row>) returns (byId: Grouping<string, Occurrence>)
    ensures Indexes(byId, rows)
  {
    byId := Grouping([], map[]);
    for i := 0 to |rows|
      invariant Indexes(byId, rows[..i])
    {
      var group := rows[i].group;
      ghost var part := Row([], [], 0, false);
      assert Indexes(byId, rows[..i] + [part.(group := group[..0])]) by {
        forall id ensures IndexedAt(byId, rows[..i] + [part.(group := group[..0])], id) {
          assert IndexedAt(byId, rows[..i], id);
        }
      }
      for k := 0 to |group|
        invariant Indexes(byId, rows[..i] + [part.(group := group[..k])])
      {
        var f := group[k];
        ghost var before := rows[..i] + [part.(group := group[..k])];
        ghost var after := rows[..i] + [part.(group := group[..k + 1])];
        assert group[..k + 1] == group[..k] + [f];
        ghost var was := byId;
        if f.id != "" {
          byId := byId.Put(f.id, Occurrence(i, f.isApp));
        }
        forall id ensures IndexedAt(byId, after, id) {
          IndexOneMore(was, before, byId, after, i, group[..k], f, id);
        }
      }
      assert group[..|group|] == group;
      forall id {:trigger IndexedAt(byId, rows[..i + 1], id)} ensures IndexedAt(byId, rows[..i + 1], id) {
        assert IndexedAt(byId, rows[..i] + [part.(group := group)], id);
        assert rows[..i + 1][i].group == group;
        assert forall app :: Shows(rows[..i + 1][i], id, app) == Shows(part.(group := group), id, app);
      }
    }
    assert rows[..|rows|] == rows;
  }

  lemma IndexOneMore(was: Grouping<string, Occurrence>, before: seq<Row>, byId: Grouping<string, Occurrence>,
                     after: seq<Row>, i: nat, seen: seq<Finding>, f: Finding, id: string)
    requires IndexedAt(was, before, id)
    requires |before| == |after| == i + 1 && before[..i] == after[..i]
    requires before[i].group == seen && after[i].group == seen + [f]
    requires byId == if f.id != "" then was.Put(f.id, Occurrence(i, f.isApp)) else was
    ensures IndexedAt(byId, after, id)
  {
    forall o: Occurrence | o.index < i ensures Shows(after[o.index], id, o.app) == Shows(before[o.index], id, o.app) {
      assert after[o.index] == after[..i][o.index] == before[..i][o.index] == before[o.index];
    }
    forall app ensures Shows(after[i], id, app) <==> Shows(before[i], id, app) || (f.id == id && f.isApp == app) {
      if Shows(before[i], id, app) {
        var g :| g in seen && g.id == id && g.isApp == app;
        assert g in after[i].group;
      }
      if f.id == id && f.isApp == app { assert f in after[i].group; }
    }
  }
}
