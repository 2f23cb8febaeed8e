/**
 Per-report ignores and their migration (client/ignored-triage.js): an ignore of
 an App or own-code finding becomes a shared one, an ignore of a dependency's
 finding is marked as its report's own, and reports with nothing unsettled are
 passed by.
 */
module IgnoredTriage {
  import opened Options
  import opened Buckets
  import opened TriageEntries

  /** A finding in a report: its id, the report's name for ignores, and whether it is a dependency's. */
  datatype Occurrence = Occurrence(id: string, name: string, dep: bool)

  type Report = seq<Occurrence>

  function DependencyIds(r: Report): set<string> {
    set o | o in r && o.dep :: o.id
  }

  predicate Legacy(m: Triage, o: Occurrence) {
    o.id in m && o.name in m[o.id].ignored && o.name !in m[o.id].scoped
  }

  /**
   One App or own-code finding: its legacy ignore becomes the shared one, unless a bucket says otherwise, and
   goes unless a dependency of that id is there too.
   */
  function Promote(m: Triage, deps: set<string>, o: Occurrence): (Triage, bool) {
    if !Legacy(m, o) || o.dep then (m, false)
    else
      var p := if m[o.id].bucket.None? then Patched(m, o.id, m[o.id].(bucket := Some(Ignored))) else (m, false);
      if o.id in deps then p
      else
        var q := ReportIgnored(p.0, o.id, o.name, false, false);
        (q.0, q.1 || p.1)
  }

  /** One dependency's finding: its ignore is marked as its report's own. */
  function Mark(m: Triage, o: Occurrence): (Triage, bool) {
    if o.dep && o.id in m && o.name in m[o.id].ignored then ReportIgnored(m, o.id, o.name, true, true) else (m, false)
  }

  function PromoteAll(m: Triage, deps: set<string>, os: seq<Occurrence>): (Triage, bool) {
    if os == [] then (m, false)
    else
      var p := PromoteAll(m, deps, os[..|os| - 1]);
      var q := Promote(p.0, deps, os[|os| - 1]);
      (q.0, q.1 || p.1)
  }

  function MarkAll(m: Triage, os: seq<Occurrence>): (Triage, bool) {
    if os == [] then (m, false)
    else
      var p := MarkAll(m, os[..|os| - 1]);
      var q := Mark(p.0, os[|os| - 1]);
      (q.0, q.1 || p.1)
  }

  /** Both passes over one report. */
  function Pass(m: Triage, r: Report): (Triage, bool) {
    var p := PromoteAll(m, DependencyIds(r), r);
    var q := MarkAll(p.0, r);
    (q.0, q.1 || p.1)
  }

  /** Every report, none passed by. */
  function FullPass(m: Triage, reports: seq<Report>): (Triage, bool) {
    if reports == [] then (m, false)
    else
      var p := FullPass(m, reports[..|reports| - 1]);
      var q := Pass(p.0, reports[|reports| - 1]);
      (q.0, q.1 || p.1)
  }

  /** An entry's names are unsettled when one is held twice, and else those not scoped. */
  predicate UnsettledIn(e: Entry, name: string) {
    name in e.ignored && (|FirstSeen(e.ignored)| != |e.ignored| || name !in e.scoped)
  }

  ghost predicate Unsettled(m: Triage, name: string) {
    exists id :: id in m && UnsettledIn(m[id], name)
  }

  function UnsettledNames(m: Triage): set<string> {
    set id, name | id in m && name in m[id].ignored && UnsettledIn(m[id], name) :: name
  }

  predicate Touches(r: Report, names: set<string>) {
    exists o :: o in r && o.name in names
  }

  /** The reports in turn, those with no name of the set passed by. */
  function Migrated(m: Triage, reports: seq<Report>, names: set<string>): (Triage, bool) {
    if reports == [] then (m, false)
    else
      var p := Migrated(m, reports[..|reports| - 1], names);
      if !Touches(reports[|reports| - 1], names) then p
      else
        var q := Pass(p.0, reports[|reports| - 1]);
        (q.0, q.1 || p.1)
  }

  /** migrateIgnoredReports. */
  function Migrate(m: Triage, reports: seq<Report>): (Triage, bool) {
    if UnsettledNames(m) == {} then (m, false) else Migrated(m, reports, UnsettledNames(m))
  }

  // ---- what every step keeps ----

  /**
   How a later map stands to an earlier one: under every id no more is ignored, what is scoped and still ignored stays
   scoped, a bucket once there stays while anything is ignored, and no list gets a name twice.
   */
  ghost predicate Further(m: Triage, n: Triage) {
    forall id :: FurtherAt(At(m, id), At(n, id))
  }

  predicate FurtherAt(e: Entry, f: Entry) {
    && (forall x :: x in f.ignored ==> x in e.ignored)
    && (forall x :: x in f.ignored && x in e.scoped ==> x in f.scoped)
    && (forall x :: x in f.scoped ==> x in f.ignored)
    && (e.bucket.Some? && f.ignored != [] ==> f.bucket == e.bucket)
    && (|FirstSeen(e.ignored)| == |e.ignored| ==> |FirstSeen(f.ignored)| == |f.ignored|)
  }

  lemma FurtherSelf(m: Triage)
    requires NormalMap(m)
    ensures Further(m, m)
  {
    forall id ensures FurtherAt(At(m, id), At(m, id)) {}
  }

  lemma FurtherOn(a: Triage, b: Triage, c: Triage)
    requires Further(a, b) && Further(b, c)
    ensures Further(a, c)
  {
    forall id ensures FurtherAt(At(a, id), At(c, id)) {
      assert FurtherAt(At(a, id), At(b, id)) && FurtherAt(At(b, id), At(c, id));
      assert At(c, id).ignored != [] ==> At(c, id).ignored[0] in At(b, id).ignored;
    }
  }

  lemma OneIdFurther(m: Triage, n: Triage, id: string)
    requires NormalMap(m) && n - {id} == m - {id} && FurtherAt(At(m, id), At(n, id))
    ensures Further(m, n)
  {
    forall other ensures FurtherAt(At(m, other), At(n, other)) {
      if other != id {
        assert other in n - {id} <==> other in m - {id};
        if other in m { assert (n - {id})[other] == (m - {id})[other]; }
      }
    }
  }

  lemma PromoteFurther(m: Triage, deps: set<string>, o: Occurrence)
    requires NormalMap(m)
    ensures var r := Promote(m, deps, o); NormalMap(r.0) && Further(m, r.0) && (!r.1 ==> r.0 == m)
  {
    FurtherSelf(m);
    if Legacy(m, o) && !o.dep {
      if m[o.id].bucket.None? { BucketPatched(m, o.id, Ignored); }
      var p := if m[o.id].bucket.None? then Patched(m, o.id, m[o.id].(bucket := Some(Ignored))) else (m, false);
      OneIdFurther(m, p.0, o.id);
      if o.id !in deps {
        var q := ReportIgnored(p.0, o.id, o.name, false, false);
        ReportIgnoredIs(p.0, o.id, o.name, false, false);
        FirstSeenIs(At(q.0, o.id).ignored);
        OneIdFurther(p.0, q.0, o.id);
        FurtherOn(m, p.0, q.0);
      }
    }
  }

  lemma MarkFurther(m: Triage, o: Occurrence)
    requires NormalMap(m)
    ensures var r := Mark(m, o); NormalMap(r.0) && Further(m, r.0) && (!r.1 ==> r.0 == m)
  {
    FurtherSelf(m);
    if o.dep && o.id in m && o.name in m[o.id].ignored {
      ReportIgnoredIs(m, o.id, o.name, true, true);
      var q := ReportIgnored(m, o.id, o.name, true, true);
      FirstSeenIs(At(q.0, o.id).ignored);
      OneIdFurther(m, q.0, o.id);
    }
  }

  lemma {:induction false} PromoteAllFurther(m: Triage, deps: set<string>, os: seq<Occurrence>)
    requires NormalMap(m)
    ensures var r := PromoteAll(m, deps, os); NormalMap(r.0) && Further(m, r.0) && (!r.1 ==> r.0 == m)
  {
    if os == [] {
      FurtherSelf(m);
    } else {
      PromoteAllFurther(m, deps, os[..|os| - 1]);
      var p := PromoteAll(m, deps, os[..|os| - 1]);
      PromoteFurther(p.0, deps, os[|os| - 1]);
      FurtherOn(m, p.0, PromoteAll(m, deps, os).0);
    }
  }

  lemma {:induction false} MarkAllFurther(m: Triage, os: seq<Occurrence>)
    requires NormalMap(m)
    ensures var r := MarkAll(m, os); NormalMap(r.0) && Further(m, r.0) && (!r.1 ==> r.0 == m)
  {
    if os == [] {
      FurtherSelf(m);
    } else {
      MarkAllFurther(m, os[..|os| - 1]);
      var p := MarkAll(m, os[..|os| - 1]);
      MarkFurther(p.0, os[|os| - 1]);
      FurtherOn(m, p.0, MarkAll(m, os).0);
    }
  }

  lemma PassFurther(m: Triage, r: Report)
    requires NormalMap(m)
    ensures var p := Pass(m, r); NormalMap(p.0) && Further(m, p.0) && (!p.1 ==> p.0 == m)
  {
    PromoteAllFurther(m, DependencyIds(r), r);
    var p := PromoteAll(m, DependencyIds(r), r);
    MarkAllFurther(p.0, r);
    FurtherOn(m, p.0, MarkAll(p.0, r).0);
  }

  // ---- what leaves a finding with nothing to do ----

  predicate Promoted(m: Triage, deps: set<string>, o: Occurrence) {
    Legacy(m, o) && !o.dep ==> m[o.id].bucket.Some? && o.id in deps
  }

  ghost predicate Marked(m: Triage, o: Occurrence) {
    o.dep && o.id in m && o.name in m[o.id].ignored ==> o.name in m[o.id].scoped && Distinct(m[o.id].ignored)
  }

  ghost predicate Quiet(m: Triage, r: Report) {
    forall o :: o in r ==> Promoted(m, DependencyIds(r), o) && Marked(m, o)
  }

  lemma QuietStays(m: Triage, n: Triage, deps: set<string>, o: Occurrence)
    requires NormalMap(m) && NormalMap(n) && Further(m, n)
    ensures Promoted(m, deps, o) ==> Promoted(n, deps, o)
    ensures Marked(m, o) ==> Marked(n, o)
  {
    assert FurtherAt(At(m, o.id), At(n, o.id));
    FirstSeenIs(At(m, o.id).ignored);
    FirstSeenIs(At(n, o.id).ignored);
  }

  lemma PromotePromotes(m: Triage, deps: set<string>, o: Occurrence)
    requires NormalMap(m)
    ensures Promoted(Promote(m, deps, o).0, deps, o)
    ensures Promoted(m, deps, o) ==> Promote(m, deps, o) == (m, false)
  {
    if Legacy(m, o) && !o.dep {
      if m[o.id].bucket.None? { BucketPatched(m, o.id, Ignored); }
      var p := if m[o.id].bucket.None? then Patched(m, o.id, m[o.id].(bucket := Some(Ignored))) else (m, false);
      if o.id !in deps { ReportIgnoredIs(p.0, o.id, o.name, false, false); }
    }
  }

  lemma MarkMarks(m: Triage, o: Occurrence)
    requires NormalMap(m)
    ensures Marked(Mark(m, o).0, o)
    ensures Marked(m, o) ==> Mark(m, o) == (m, false)
  {
    if o.dep && o.id in m && o.name in m[o.id].ignored {
      ReportIgnoredIs(m, o.id, o.name, true, true);
      if Marked(m, o) { MarkedAlready(m, o.id, o.name); }
    }
  }

  lemma {:induction false} PromoteAllPromotes(m: Triage, deps: set<string>, os: seq<Occurrence>)
    requires NormalMap(m)
    ensures forall o :: o in os ==> Promoted(PromoteAll(m, deps, os).0, deps, o)
    ensures (forall o :: o in os ==> Promoted(m, deps, o)) ==> PromoteAll(m, deps, os) == (m, false)
  {
    if os != [] {
      var init, last := os[..|os| - 1], os[|os| - 1];
      var p := PromoteAll(m, deps, init);
      PromoteAllPromotes(m, deps, init);
      PromoteAllFurther(m, deps, init);
      PromotePromotes(p.0, deps, last);
      PromoteFurther(p.0, deps, last);
      assert os == init + [last];
      forall o | o in init ensures Promoted(PromoteAll(m, deps, os).0, deps,
          o) { QuietStays(p.0, PromoteAll(m, deps, os).0, deps, o); }
      assert last in os && forall o :: o in init ==> o in os;
    }
  }

  lemma {:induction false} MarkAllMarks(m: Triage, os: seq<Occurrence>)
    requires NormalMap(m)
    ensures forall o :: o in os ==> Marked(MarkAll(m, os).0, o)
    ensures (forall o :: o in os ==> Marked(m, o)) ==> MarkAll(m, os) == (m, false)
  {
    if os != [] {
      var init, last := os[..|os| - 1], os[|os| - 1];
      var p := MarkAll(m, init);
      MarkAllMarks(m, init);
      MarkAllFurther(m, init);
      MarkMarks(p.0, last);
      MarkFurther(p.0, last);
      assert os == init + [last];
      forall o | o in init ensures Marked(MarkAll(m, os).0, o) { QuietStays(p.0, MarkAll(m, os).0, {}, o); }
      assert last in os && forall o :: o in init ==> o in os;
    }
  }

  lemma PassQuiets(m: Triage, r: Report)
    requires NormalMap(m)
    ensures Quiet(Pass(m, r).0, r)
    ensures Quiet(m, r) ==> Pass(m, r) == (m, false)
  {
    var deps := DependencyIds(r);
    var p := PromoteAll(m, deps, r);
    PromoteAllPromotes(m, deps, r);
    PromoteAllFurther(m, deps, r);
    MarkAllMarks(p.0, r);
    MarkAllFurther(p.0, r);
    forall o | o in r ensures Promoted(Pass(m, r).0, deps, o) { QuietStays(p.0, Pass(m, r).0, deps, o); }
  }

  lemma ReportStaysQuiet(m: Triage, n: Triage, r: Report)
    requires NormalMap(m) && NormalMap(n) && Further(m, n) && Quiet(m, r)
    ensures Quiet(n, r)
  {
    forall o | o in r ensures Promoted(n, DependencyIds(r), o)
        && Marked(n, o) { QuietStays(m, n, DependencyIds(r), o); }
  }

  /** After a full pass every report is quiet; and a full pass over quiet reports changes nothing. */
  lemma {:induction false} FullPassQuiets(m: Triage, reports: seq<Report>)
    requires NormalMap(m)
    ensures var p := FullPass(m, reports);
            NormalMap(p.0) && Further(m, p.0) && forall r :: r in reports ==> Quiet(p.0, r)
    ensures (forall r :: r in reports ==> Quiet(m, r)) ==> FullPass(m, reports) == (m, false)
  {
    if reports == [] {
      FurtherSelf(m);
    } else {
      var init, last := reports[..|reports| - 1], reports[|reports| - 1];
      var p, all := FullPass(m, init), FullPass(m, reports);
      FullPassQuiets(m, init);
      PassFurther(p.0, last);
      PassQuiets(p.0, last);
      FurtherOn(m, p.0, all.0);
      assert reports == init + [last];
      forall r | r in init ensures Quiet(all.0, r) { ReportStaysQuiet(p.0, all.0, r); }
      assert last in reports && forall r :: r in init ==> r in reports;
    }
  }

  // ---- the early way out ----

  lemma SettledIsQuiet(m: Triage, r: Report)
    requires NormalMap(m) && forall o :: o in r ==> !Unsettled(m, o.name)
    ensures Quiet(m, r)
  {
    forall o | o in r ensures Promoted(m, DependencyIds(r), o) && Marked(m, o) {
      if o.id in m {
        assert !UnsettledIn(m[o.id], o.name);
        FirstSeenIs(m[o.id].ignored);
      }
    }
  }

  lemma NothingUnsettles(m: Triage, n: Triage, name: string)
    requires Further(m, n) && NormalMap(m) && !Unsettled(m, name)
    ensures !Unsettled(n, name)
  {
    forall id | id in n ensures !UnsettledIn(n[id], name) {
      assert FurtherAt(At(m, id), At(n, id));
      if id in m { assert !UnsettledIn(m[id], name); }
    }
  }

  lemma UnsettledNamesAre(m: Triage)
    ensures forall name :: name in UnsettledNames(m) <==> Unsettled(m, name)
  {
  }

  /** Passing a report by is the same as both passes over it, whatever the reports before it changed. */
  lemma {:induction false} PassingByIsPassing(m: Triage, reports: seq<Report>)
    requires NormalMap(m)
    ensures Migrated(m, reports, UnsettledNames(m)) == FullPass(m, reports)
  {
    if reports != [] {
      var init, last := reports[..|reports| - 1], reports[|reports| - 1];
      PassingByIsPassing(m, init);
      FullPassQuiets(m, init);
      var p := FullPass(m, init);
      if !Touches(last, UnsettledNames(m)) {
        UnsettledNamesAre(m);
        forall o | o in last ensures !Unsettled(p.0, o.name) {
          assert o.name !in UnsettledNames(m);
          NothingUnsettles(m, p.0, o.name);
        }
        SettledIsQuiet(p.0, last);
        PassQuiets(p.0, last);
      }
    }
  }

  /** The migration with its ways out is the two passes over every report: the same map, and the same answer. */
  lemma MigrateIsFullPass(m: Triage, reports: seq<Report>)
    requires NormalMap(m)
    ensures Migrate(m, reports) == FullPass(m, reports)
  {
    PassingByIsPassing(m, reports);
    if UnsettledNames(m) == {} {
      UnsettledNamesAre(m);
      forall r | r in reports ensures Quiet(m, r) {
        assert forall o :: o in r ==> o.name !in UnsettledNames(m);
        SettledIsQuiet(m, r);
      }
      FullPassQuiets(m, reports);
    }
  }

  /** A second migration over the same reports changes nothing and says so. */
  lemma MigrateTwice(m: Triage, reports: seq<Report>)
    requires NormalMap(m)
    ensures var n := Migrate(m, reports).0; Migrate(n, reports) == (n, false)
  {
    MigrateIsFullPass(m, reports);
    FullPassQuiets(m, reports);
    var n := Migrate(m, reports).0;
    MigrateIsFullPass(n, reports);
    FullPassQuiets(n, reports);
  }

  /**
   What a migration comes to, for every finding of every report: an App or own-code finding's ignore is left
   unscoped only under a bucket, beside a dependency's copy of its id; a dependency's is scoped, and held once;
   and the map only went further: no name ignored anew, no bucket replaced.
   */
  lemma MigrationSettles(m: Triage, reports: seq<Report>)
    requires NormalMap(m)
    ensures var n := Migrate(m, reports).0; NormalMap(n) && Further(m, n) && forall r :: r in reports ==> Quiet(n, r)
  {
    MigrateIsFullPass(m, reports);
    FullPassQuiets(m, reports);
  }

  predicate HiddenOrBucketed(m: Triage, o: Occurrence) {
    Legacy(m, o) || At(m, o.id).bucket.Some?
  }

  lemma ElsewhereSame(m: Triage, n: Triage, id: string, other: string)
    requires n - {id} == m - {id} && other != id
    ensures At(n, other) == At(m, other)
  {
    assert other in n - {id} <==> other in m - {id};
    if other in m { assert (n - {id})[other] == (m - {id})[other]; }
  }

  /** A promotion: a bucket for sure, and of the names only the report's may go. */
  lemma PromoteIs(m: Triage, deps: set<string>, p: Occurrence)
    requires NormalMap(m) && Legacy(m, p) && !p.dep
    ensures var n := Promote(m, deps, p).0; var e, f := At(m, p.id), At(n, p.id);
            && n - {p.id} == m - {p.id}
            && f.bucket == (if e.bucket.None? then Some(Ignored) else e.bucket)
            && (forall x :: x in f.scoped <==> x in f.ignored && x in e.scoped)
  {
    if m[p.id].bucket.None? { BucketPatched(m, p.id, Ignored); }
    var q := if m[p.id].bucket.None? then Patched(m, p.id, m[p.id].(bucket := Some(Ignored))) else (m, false);
    assert q.0 - {p.id} == m - {p.id};
    if p.id !in deps { ReportIgnoredIs(q.0, p.id, p.name, false, false); }
  }

  lemma PromoteHides(m: Triage, deps: set<string>, p: Occurrence, o: Occurrence)
    requires NormalMap(m) && HiddenOrBucketed(m, o) && !o.dep
    ensures HiddenOrBucketed(Promote(m, deps, p).0, o)
    ensures p == o ==> At(Promote(m, deps, p).0, o.id).bucket.Some?
  {
    if Legacy(m, p) && !p.dep {
      PromoteIs(m, deps, p);
      if p.id != o.id { ElsewhereSame(m, Promote(m, deps, p).0, p.id, o.id); }
    }
  }

  lemma BucketStays(m: Triage, deps: set<string>, p: Occurrence, id: string)
    requires NormalMap(m) && At(m, id).bucket.Some?
    ensures At(Promote(m, deps, p).0, id).bucket == At(m, id).bucket
  {
    if Legacy(m, p) && !p.dep {
      PromoteIs(m, deps, p);
      if p.id != id { ElsewhereSame(m, Promote(m, deps, p).0, p.id, id); }
    }
  }

  /**
   No App or own-code finding hidden by a legacy ignore of its report comes out of the pass without a shared
   bucket.
   */
  lemma {:induction false} PromoteAllHides(m: Triage, deps: set<string>, os: seq<Occurrence>, o: Occurrence)
    requires NormalMap(m) && HiddenOrBucketed(m, o) && !o.dep
    ensures HiddenOrBucketed(PromoteAll(m, deps, os).0, o)
    ensures o in os ==> At(PromoteAll(m, deps, os).0, o.id).bucket.Some?
  {
    if os != [] {
      var init, last := os[..|os| - 1], os[|os| - 1];
      var p := PromoteAll(m, deps, init);
      PromoteAllHides(m, deps, init, o);
      PromoteAllFurther(m, deps, init);
      PromoteHides(p.0, deps, last, o);
      assert os == init + [last];
      if o in init { BucketStays(p.0, deps, last, o.id); }
    }
  }

  // ---- triage of one finding ----

  datatype Target = Untriaged | To(bucket: Bucket)

  /** setFindingTriage: a dependency's ignore and restore are its report's own; all else is shared. */
  function SetFindingTriage(m: Triage, o: Occurrence, target: Target): Triage {
    if o.dep && (target == To(Ignored) || target == Untriaged) then
      var p := if At(m, o.id).bucket != Some(Ignored) then Patched(m, o.id, At(m, o.id).(bucket := None)).0 else m;
      ReportIgnored(p, o.id, o.name, target == To(Ignored), true).0
    else
      var p := Patched(m, o.id, At(m, o.id).(bucket := if target == Untriaged then None else Some(target.bucket))).0;
      if target != To(Ignored) && target != Untriaged then ReportIgnored(p, o.id, o.name, false, false).0 else p
  }

  lemma FoldIgnored(m: Triage, id: string, bucket: Option<Bucket>)
    requires NormalMap(m)
    ensures var n := Patched(m, id, At(m, id).(bucket := bucket)).0;
            && NormalMap(n) && n - {id} == m - {id} && At(n, id).bucket == bucket
            && At(n, id).ignored == At(m, id).ignored && At(n, id).scoped == At(m, id).scoped
            && At(n, id).other == At(m, id).other
  {
    var e := At(m, id).(bucket := bucket);
    NormalStays(e);
    PatchedAsIs(m, id, e);
    forall other | other in Patched(m, id, e).0 ensures IsNormal(Patched(m, id, e).0[other]) {
      if other != id { ElsewhereSame(m, Patched(m, id, e).0, id, other); }
    }
  }

  /** Patching in an entry that normalizes to itself leaves it there, or the one there already if that is the same. */
  lemma PatchedAsIs(m: Triage, id: string, e: Entry)
    requires Normalized(e) == e && e.other == At(m, id).other && e.ignored == At(m, id).ignored
               && e.scoped == At(m, id).scoped
    requires e.ignored == [] ==> e.scoped == []
    ensures var n := Patched(m, id, e).0; n - {id} == m - {id} && At(n, id) == e && (id in n ==> !IsEmpty(e))
  {
    if !IsEmpty(e) && SameEntry(At(m, id), e) {
      assert At(m, id) == e;
      assert id in m;
    }
  }

  /**
   A dependency's ignore or restore touches its own report's scope only: no other report's ignore under the id
   comes or goes, a shared ignore stays, and of the other buckets none is left.
   */
  lemma DependencyActionStaysScoped(m: Triage, o: Occurrence, target: Target)
    requires NormalMap(m) && o.dep && o.name != "" && (target == To(Ignored) || target == Untriaged)
    ensures var n := SetFindingTriage(m, o, target);
            && n - {o.id} == m - {o.id}
            && (forall name :: name != o.name ==> (name in At(n, o.id).ignored <==> name in At(m, o.id).ignored))
            && (o.name in At(n, o.id).ignored <==> target == To(Ignored))
            && (target == To(Ignored) ==> o.name in At(n, o.id).scoped)
            && At(n, o.id).bucket == if At(m, o.id).bucket == Some(Ignored) then Some(Ignored) else None
  {
    FoldIgnored(m, o.id, None);
    var p := if At(m, o.id).bucket != Some(Ignored) then Patched(m, o.id, At(m, o.id).(bucket := None)).0 else m;
    ReportIgnoredIs(p, o.id, o.name, target == To(Ignored), true);
  }

  /**
   A shared ignore or restore, of an App or own-code finding, leaves every report's own ignore alone; any other
   bucket is shared too, and takes the ignore of the finding's own report away.
   */
  lemma SharedActionKeepsScopes(m: Triage, o: Occurrence, target: Target)
    requires NormalMap(m) && (!o.dep || !(target == To(Ignored) || target == Untriaged))
    ensures var n := SetFindingTriage(m, o, target);
            && n - {o.id} == m - {o.id}
            && At(n, o.id).bucket == (if target == Untriaged then None else Some(target.bucket))
            && (forall name :: name in At(n, o.id).ignored <==>
                  (name in At(m, o.id).ignored && (name != o.name || target == To(Ignored) || target == Untriaged)))
  {
    var bucket := if target == Untriaged then None else Some(target.bucket);
    FoldIgnored(m, o.id, bucket);
    ReportIgnoredIs(Patched(m, o.id, At(m, o.id).(bucket := bucket)).0, o.id, o.name, false, false);
  }
}
