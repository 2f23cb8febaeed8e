/**
 The triage map as it is written (client/triage-entry.ts, client/ignored-triage.js): replaced entry by entry,
 report by report.
 */
module TriageMaps {
  import opened Options
  import opened Buckets
  import opened TriageEntries
  import opened IgnoredTriage

  class TriageMap {
    var entries: Triage

    constructor (entries: Triage)
      ensures this.entries == entries
    {
      this.entries := entries;
    }

    /** patchEntry; true when the map changed. */
    method PatchEntry(id: string, e: Entry) returns (changed: bool)
      modifies this
      ensures (entries, changed) == Patched(old(entries), id, e)
    {
      var merged := Normalized(e);
      if IsEmpty(merged) {
        changed := id in entries;
        entries := entries - {id};
        return;
      }
      if SameEntry(At(entries, id), merged) { return false; }
      entries := entries[id := merged];
      changed := true;
    }

    method SetReportIgnored(id: string, report: string, ignored: bool, scoped: bool) returns (changed: bool)
      modifies this
      ensures (entries, changed) == ReportIgnored(old(entries), id, report, ignored, scoped)
    {
      var e := At(entries, id);
      var names := FirstSeen(e.ignored);
      if ignored {
        if report !in names { names := names + [report]; }
      } else {
        names := Without(names, report);
      }
      var markers := FirstSeen(e.scoped);
      if ignored && scoped && report !in markers { markers := markers + [report]; }
      changed := PatchEntry(id, e.(ignored := names, scoped := markers));
    }

    /** The first loop's body. */
    method PromoteOne(deps: set<string>, o: Occurrence) returns (changed: bool)
      modifies this
      ensures (entries, changed) == Promote(old(entries), deps, o)
    {
      changed := false;
      if !Legacy(entries, o) || o.dep { return; }
      if entries[o.id].bucket.None? { changed := PatchEntry(o.id, entries[o.id].(bucket := Some(Ignored))); }
      if o.id !in deps {
        var more := SetReportIgnored(o.id, o.name, false, false);
        changed := more || changed;
      }
    }

    /** The two loops over one report's findings. */
    method PassReport(r: Report) returns (changed: bool)
      modifies this
      ensures (entries, changed) == Pass(old(entries), r)
    {
      changed := PromoteReport(r);
      var marked := MarkReport(r);
      changed := marked || changed;
    }

    method PromoteReport(r: Report) returns (changed: bool)
      modifies this
      ensures (entries, changed) == PromoteAll(old(entries), DependencyIds(r), r)
    {
      changed := false;
      var deps := DependencyIds(r);
      for i := 0 to |r|
        invariant (entries, changed) == PromoteAll(old(entries), deps, r[..i])
      {
        assert r[..i + 1][..i] == r[..i];
        var more := PromoteOne(deps, r[i]);
        changed := more || changed;
      }
      assert r[..|r|] == r;
    }

    method MarkReport(r: Report) returns (changed: bool)
      modifies this
      ensures (entries, changed) == MarkAll(old(entries), r)
    {
      changed := false;
      for i := 0 to |r|
        invariant (entries, changed) == MarkAll(old(entries), r[..i])
      {
        assert r[..i + 1][..i] == r[..i];
        var o := r[i];
        if o.dep && o.id in entries && o.name in entries[o.id].ignored {
          var more := SetReportIgnored(o.id, o.name, true, true);
          changed := more || changed;
        }
      }
      assert r[..|r|] == r;
    }

    /** migrateIgnoredReports. */
    method MigrateIgnoredReports(reports: seq<Report>) returns (changed: bool)
      modifies this
      ensures (entries, changed) == Migrate(old(entries), reports)
    {
      var unsettled := UnsettledNames(entries);
      if unsettled == {} { return false; }
      changed := false;
      for i := 0 to |reports|
        invariant (entries, changed) == Migrated(old(entries), reports[..i], unsettled)
      {
        assert reports[..i + 1][..i] == reports[..i];
        if Touches(reports[i], unsettled) {
          var more := PassReport(reports[i]);
          changed := more || changed;
        }
      }
      assert reports[..|reports|] == reports;
    }
  }
}
