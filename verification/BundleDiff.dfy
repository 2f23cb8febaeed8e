/**
 What two bundles' files differ in (common/bundle-compare-diff.js:220-373): each
 path on one side only, changed or unchanged, renames found among the first,
 and every file's bytes in its package's account.
 */
module BundleDiff {
  import opened Options

  /** A file's content; two are the same when they are this alike, and one that does not decode has no size. */
  datatype Content = Text(text: string) | Base64(data: string) | Digest(digest: string) | Unsized(id: nat)

  datatype Meta = Meta(format: Option<string>, executable: bool, entry: bool)

  datatype Change = Format(from: Option<string>, to: Option<string>) | Flag(field: string, was: bool, now: bool)

  /** None where either side records nothing. */
  function MetaChanges(before: Option<Meta>, after: Option<Meta>): seq<Change> {
    if before.None? || after.None? then []
    else
      var b, a := before.value, after.value;
      (if b.format != a.format then [Format(b.format, a.format)] else [])
      + (if b.executable != a.executable then [Flag("executable", b.executable, a.executable)] else [])
      + (if b.entry != a.entry then [Flag("entry", b.entry, a.entry)] else [])
  }

  type Files = map<string, Content>

  /** The two sides: the base as the other lays it out, `baseFile` naming each of its files in the base bundle. */
  datatype Sides = Sides(base: Files, other: Files, baseFile: string -> string, pkgOf: string -> string,
    size: Content -> nat,
                         baseMeta: string -> Option<Meta>, otherMeta: string -> Option<Meta>)

  datatype Row = Row(path: string, basePath: string, bytes: nat)

  datatype ChangedRow = ChangedRow(path: string, renamedFrom: Option<string>, basePath: string, baseBytes: nat,
    otherBytes: nat,
                                   modified: bool, meta: seq<Change>)

  datatype Acc = Acc(baseBytes: nat, otherBytes: nat, onlyBaseFiles: int, onlyOtherFiles: int, changedFiles: nat)

  const NO_FILES := Acc(0, 0, 0, 0, 0)

  datatype Diff = Diff(onlyBase: seq<Row>, onlyOther: seq<Row>, changed: seq<ChangedRow>,
                       baseBytes: nat, otherBytes: nat, onlyBaseBytes: int, onlyOtherBytes: int, changedDelta: int,
                       unchangedFiles: nat, pkgs: map<string, Acc>)

  const NOTHING := Diff([], [], [], 0, 0, 0, 0, 0, 0, map[])

  // ---- the first pass, one path at a time ----

  predicate Unchanged(s: Sides, p: string) {
    p in s.base && p in s.other && s.base[p] == s.other[p]
      && MetaChanges(s.baseMeta(s.baseFile(p)), s.otherMeta(p)) == []
  }

  function AccOf(pkgs: map<string, Acc>, pkg: string): Acc {
    if pkg in pkgs then pkgs[pkg] else NO_FILES
  }

  function BothSides(s: Sides, d: Diff, p: string): Diff
    requires p in s.base && p in s.other
  {
    var pkg := s.pkgOf(p);
    var acc := AccOf(d.pkgs, pkg);
    var same := s.base[p] == s.other[p];
    var record := MetaChanges(s.baseMeta(s.baseFile(p)), s.otherMeta(p));
    var bB := s.size(s.base[p]);
    var oB := if same then bB else s.size(s.other[p]);
    var more := acc.(baseBytes := acc.baseBytes + bB, otherBytes := acc.otherBytes + oB);
    var e := d.(baseBytes := d.baseBytes + bB, otherBytes := d.otherBytes + oB);
    if same && record == [] then e.(unchangedFiles := d.unchangedFiles + 1, pkgs := d.pkgs[pkg := more])
    else e.(changed := d.changed + [ChangedRow(p, None, s.baseFile(p), bB, oB, !same, record)],
        changedDelta := d.changedDelta + oB - bB,
            pkgs := d.pkgs[pkg := more.(changedFiles := more.changedFiles + 1)])
  }

  function OneSide(s: Sides, d: Diff, p: string): Diff
    requires (p in s.base) != (p in s.other)
  {
    var pkg := s.pkgOf(p);
    var acc := AccOf(d.pkgs, pkg);
    if p in s.base then
      var bB := s.size(s.base[p]);
      d.(baseBytes := d.baseBytes + bB, onlyBaseBytes := d.onlyBaseBytes + bB,
        onlyBase := d.onlyBase + [Row(p, s.baseFile(p), bB)],
         pkgs := d.pkgs[pkg := acc.(baseBytes := acc.baseBytes + bB, onlyBaseFiles := acc.onlyBaseFiles + 1)])
    else
      var oB := s.size(s.other[p]);
      d.(otherBytes := d.otherBytes + oB, onlyOtherBytes := d.onlyOtherBytes + oB,
        onlyOther := d.onlyOther + [Row(p, p, oB)],
         pkgs := d.pkgs[pkg := acc.(otherBytes := acc.otherBytes + oB, onlyOtherFiles := acc.onlyOtherFiles + 1)])
  }

  function Step(s: Sides, d: Diff, p: string): Diff
    requires p in s.base || p in s.other
  {
    if p in s.base && p in s.other then BothSides(s, d, p) else OneSide(s, d, p)
  }

  /** A file renamed is changed, not removed and added. */
  function Rename(s: Sides, d: Diff, from: string, to: string): Diff
    requires from in s.base && to in s.other
  {
    var same := s.base[from] == s.other[to];
    var bB := s.size(s.base[from]);
    var oB := if same then bB else s.size(s.other[to]);
    var pkg := s.pkgOf(from);
    var acc := AccOf(d.pkgs, pkg);
    d.(onlyBaseBytes := d.onlyBaseBytes - bB, onlyOtherBytes := d.onlyOtherBytes - oB,
       changed := d.changed + [ChangedRow(to, Some(from), s.baseFile(from), bB, oB, !same,
         MetaChanges(s.baseMeta(s.baseFile(from)), s.otherMeta(to)))],
       changedDelta := d.changedDelta + oB - bB,
       pkgs := d.pkgs[pkg := acc.(onlyBaseFiles := acc.onlyBaseFiles - 1, onlyOtherFiles := acc.onlyOtherFiles - 1,
         changedFiles := acc.changedFiles + 1)])
  }

  // ---- sums ----

  /** The bytes of the paths of a side. */
  ghost function Bytes(files: Files, size: Content -> nat, paths: set<string>): nat {
    if paths == {} then 0
    else
      var p :| p in paths;
      (if p in files then size(files[p]) else 0) + Bytes(files, size, paths - {p})
  }

  lemma {:induction false} BytesAdd(files: Files, size: Content -> nat, paths: set<string>, p: string)
    requires p in paths
    ensures Bytes(files, size, paths) == (if p in files then size(files[p]) else 0) + Bytes(files, size, paths - {p})
    decreases |paths|
  {
    var q :| q in paths && Bytes(files, size, paths)
        == (if q in files then size(files[q]) else 0) + Bytes(files, size, paths - {q});
    if q != p {
      BytesAdd(files, size, paths - {q}, p);
      BytesAdd(files, size, paths - {p}, q);
      assert paths - {q} - {p} == paths - {p} - {q};
    }
  }

  ghost function BaseSum(pkgs: map<string, Acc>): nat {
    if pkgs == map[] then 0
    else
      var k :| k in pkgs;
      pkgs[k].baseBytes + BaseSum(pkgs - {k})
  }

  ghost function OtherSum(pkgs: map<string, Acc>): nat {
    if pkgs == map[] then 0
    else
      var k :| k in pkgs;
      pkgs[k].otherBytes + OtherSum(pkgs - {k})
  }

  lemma {:induction false} SumsSplit(pkgs: map<string, Acc>, k: string)
    requires k in pkgs
    ensures BaseSum(pkgs) == pkgs[k].baseBytes + BaseSum(pkgs - {k})
    ensures OtherSum(pkgs) == pkgs[k].otherBytes + OtherSum(pkgs - {k})
    decreases |pkgs|
  {
    var q :| q in pkgs && BaseSum(pkgs) == pkgs[q].baseBytes + BaseSum(pkgs - {q});
    if q != k {
      SumsSplit(pkgs - {q}, k);
      SumsSplit(pkgs - {k}, q);
      assert pkgs - {q} - {k} == pkgs - {k} - {q};
    }
    var r :| r in pkgs && OtherSum(pkgs) == pkgs[r].otherBytes + OtherSum(pkgs - {r});
    if r != k {
      SumsSplit(pkgs - {r}, k);
      SumsSplit(pkgs - {k}, r);
      assert pkgs - {r} - {k} == pkgs - {k} - {r};
    }
  }

  lemma SumsChanged(pkgs: map<string, Acc>, k: string, acc: Acc)
    ensures BaseSum(pkgs[k := acc]) == BaseSum(pkgs) - AccOf(pkgs, k).baseBytes + acc.baseBytes
    ensures OtherSum(pkgs[k := acc]) == OtherSum(pkgs) - AccOf(pkgs, k).otherBytes + acc.otherBytes
  {
    SumsSplit(pkgs[k := acc], k);
    assert pkgs[k := acc] - {k} == pkgs - {k};
    if k in pkgs { SumsSplit(pkgs, k); } else { assert pkgs - {k} == pkgs; }
  }

  function RowBytes(rows: seq<Row>): nat {
    if rows == [] then 0 else RowBytes(rows[..|rows| - 1]) + rows[|rows| - 1].bytes
  }

  function Deltas(rows: seq<ChangedRow>): int {
    if rows == [] then 0 else Deltas(rows[..|rows| - 1]) + rows[|rows| - 1].otherBytes - rows[|rows| - 1].baseBytes
  }

  // ---- which paths are which ----

  function OnlyBase(s: Sides, done: set<string>): set<string> {
    set p | p in done && p in s.base && p !in s.other
  }

  function OnlyOther(s: Sides, done: set<string>): set<string> {
    set p | p in done && p in s.other && p !in s.base
  }

  function Differing(s: Sides, done: set<string>): set<string> {
    set p | p in done && p in s.base && p in s.other && !Unchanged(s, p)
  }

  function Alike(s: Sides, done: set<string>): set<string> {
    set p | p in done && Unchanged(s, p)
  }

  function OfPkg(s: Sides, paths: set<string>, pkg: string): set<string> {
    set p | p in paths && s.pkgOf(p) == pkg
  }

  lemma OfPkgGrows(s: Sides, paths: set<string>, p: string, pkg: string)
    requires p !in paths
    ensures OfPkg(s, paths + {p}, pkg) == if s.pkgOf(p) == pkg then OfPkg(s, paths, pkg) + {p} else OfPkg(s, paths, pkg)
    ensures p !in OfPkg(s, paths, pkg)
  {
  }

  lemma PathsGrow(s: Sides, done: set<string>, p: string)
    requires p !in done
    ensures OnlyBase(s, done + {p}) == if p in s.base && p !in s.other then OnlyBase(s, done) + {p}
              else OnlyBase(s, done)
    ensures OnlyOther(s, done + {p}) == if p in s.other && p !in s.base then OnlyOther(s, done) + {p}
              else OnlyOther(s, done)
    ensures Differing(s, done + {p}) == if p in s.base && p in s.other && !Unchanged(s, p)
              then Differing(s, done) + {p} else Differing(s, done)
    ensures Alike(s, done + {p}) == if Unchanged(s, p) then Alike(s, done) + {p} else Alike(s, done)
    ensures p !in OnlyBase(s, done) && p !in OnlyOther(s, done) && p !in Differing(s, done) && p !in Alike(s, done)
  {
  }

  lemma BytesGrow(files: Files, size: Content -> nat, paths: set<string>, p: string)
    requires p !in paths
    ensures Bytes(files, size, paths + {p}) == Bytes(files, size, paths) + if p in files then size(files[p]) else 0
  {
    BytesAdd(files, size, paths + {p}, p);
    assert paths + {p} - {p} == paths;
  }

  // ---- what each pass keeps ----

  /**
   The totals add up: a delta of bytes is what only the other has, less what only the base has, and the
   changes; and the packages' accounts hold all of it.
   */
  ghost predicate Balanced(d: Diff) {
    && d.otherBytes - d.baseBytes == d.onlyOtherBytes - d.onlyBaseBytes + d.changedDelta
    && BaseSum(d.pkgs) == d.baseBytes && OtherSum(d.pkgs) == d.otherBytes
    && Deltas(d.changed) == d.changedDelta
  }

  lemma DeltasPush(rows: seq<ChangedRow>, row: ChangedRow)
    ensures Deltas(rows + [row]) == Deltas(rows) + row.otherBytes - row.baseBytes
  {
    assert (rows + [row])[..|rows|] == rows;
  }

  lemma BothBalances(s: Sides, d: Diff, p: string)
    requires Balanced(d) && p in s.base && p in s.other
    ensures Balanced(BothSides(s, d, p))
  {
    var e := BothSides(s, d, p);
    SumsChanged(d.pkgs, s.pkgOf(p), e.pkgs[s.pkgOf(p)]);
    if |e.changed| > |d.changed| { DeltasPush(d.changed, e.changed[|d.changed|]); }
  }

  lemma OneBalances(s: Sides, d: Diff, p: string)
    requires Balanced(d) && (p in s.base) != (p in s.other)
    ensures Balanced(OneSide(s, d, p))
  {
    SumsChanged(d.pkgs, s.pkgOf(p), OneSide(s, d, p).pkgs[s.pkgOf(p)]);
  }

  lemma StepBalances(s: Sides, d: Diff, p: string)
    requires Balanced(d) && (p in s.base || p in s.other)
    ensures Balanced(Step(s, d, p))
  {
    if p in s.base && p in s.other { BothBalances(s, d, p); } else { OneBalances(s, d, p); }
  }

  lemma RenameBalances(s: Sides, d: Diff, from: string, to: string)
    requires Balanced(d) && from in s.base && to in s.other
    ensures Balanced(Rename(s, d, from, to))
  {
    var e := Rename(s, d, from, to);
    SumsChanged(d.pkgs, s.pkgOf(from), e.pkgs[s.pkgOf(from)]);
    DeltasPush(d.changed, e.changed[|d.changed|]);
  }

  /** The rows are one for each of these paths, with its bytes. */
  predicate RowsAre(rows: seq<Row>, files: Files, size: Content -> nat, paths: set<string>) {
    && |rows| == |paths|
    && (forall i :: 0 <= i < |rows| ==>
        rows[i].path in paths && rows[i].path in files && rows[i].bytes == size(files[rows[i].path]))
    && (forall i, j :: 0 <= i < j < |rows| ==> rows[i].path != rows[j].path)
  }

  ghost predicate OneSided(s: Sides, done: set<string>, d: Diff) {
    && RowsAre(d.onlyBase, s.base, s.size, OnlyBase(s, done))
    && RowsAre(d.onlyOther, s.other, s.size, OnlyOther(s, done))
    && d.onlyBaseBytes == Bytes(s.base, s.size, OnlyBase(s, done))
    && d.onlyOtherBytes == Bytes(s.other, s.size, OnlyOther(s, done))
  }

  /** A row of a path on both sides, or of a rename among those found so far. */
  predicate RowOk(s: Sides, row: ChangedRow, differing: set<string>, renames: map<string, string>) {
    && row.path in s.other && row.otherBytes == s.size(s.other[row.path])
    && (if row.renamedFrom.Some? then
          row.renamedFrom.value in renames && renames[row.renamedFrom.value] == row.path
            && row.renamedFrom.value in s.base
          && row.baseBytes == s.size(s.base[row.renamedFrom.value])
          && (row.modified <==> s.base[row.renamedFrom.value] != s.other[row.path])
        else
          row.path in differing && row.path in s.base && row.baseBytes == s.size(s.base[row.path])
          && (row.modified <==> s.base[row.path] != s.other[row.path]))
  }

  predicate ChangedAre(s: Sides, rows: seq<ChangedRow>, differing: set<string>, renames: map<string, string>) {
    && |rows| == |differing| + |renames|
    && (forall i :: 0 <= i < |rows| ==> RowOk(s, rows[i], differing, renames))
    && (forall i, j :: 0 <= i < j < |rows| ==> rows[i].path != rows[j].path)
  }

  ghost predicate AccOk(s: Sides, done: set<string>, acc: Acc, pkg: string, renames: set<string>) {
    && acc.baseBytes == Bytes(s.base, s.size, OfPkg(s, done, pkg))
    && acc.otherBytes == Bytes(s.other, s.size, OfPkg(s, done, pkg))
    && acc.onlyBaseFiles == |OfPkg(s, OnlyBase(s, done), pkg)| - |OfPkg(s, renames, pkg)|
    && acc.onlyOtherFiles == |OfPkg(s, OnlyOther(s, done), pkg)| - |OfPkg(s, renames, pkg)|
    && acc.changedFiles == |OfPkg(s, Differing(s, done), pkg)| + |OfPkg(s, renames, pkg)|
  }

  ghost predicate PkgsOk(s: Sides, done: set<string>, pkgs: map<string, Acc>, renames: set<string>) {
    && (forall p :: p in done ==> s.pkgOf(p) in pkgs)
    && (forall pkg :: pkg in pkgs ==> OfPkg(s, done, pkg) != {})
    && (forall pkg :: AccOk(s, done, AccOf(pkgs, pkg), pkg, renames))
  }

  ghost predicate Covered(s: Sides, done: set<string>, d: Diff) {
    && OneSided(s, done, d)
    && ChangedAre(s, d.changed, Differing(s, done), map[])
    && d.unchangedFiles == |Alike(s, done)|
    && d.baseBytes == Bytes(s.base, s.size, done) && d.otherBytes == Bytes(s.other, s.size, done)
    && PkgsOk(s, done, d.pkgs, {})
  }

  lemma RowsPush(rows: seq<Row>, files: Files, size: Content -> nat, paths: set<string>, row: Row)
    requires RowsAre(rows, files, size, paths) && row.path !in paths && row.path in files
               && row.bytes == size(files[row.path])
    ensures RowsAre(rows + [row], files, size, paths + {row.path})
  {
  }

  lemma StepOnlyBase(s: Sides, done: set<string>, d: Diff, p: string)
    requires p !in done && (p in s.base || p in s.other)
    requires RowsAre(d.onlyBase, s.base, s.size, OnlyBase(s, done))
               && d.onlyBaseBytes == Bytes(s.base, s.size, OnlyBase(s, done))
    ensures var e := Step(s, d, p);
            RowsAre(e.onlyBase, s.base, s.size, OnlyBase(s, done + {p}))
              && e.onlyBaseBytes == Bytes(s.base, s.size, OnlyBase(s, done + {p}))
  {
    PathsGrow(s, done, p);
    if p in s.base && p !in s.other {
      BytesGrow(s.base, s.size, OnlyBase(s, done), p);
      RowsPush(d.onlyBase, s.base, s.size, OnlyBase(s, done), Row(p, s.baseFile(p), s.size(s.base[p])));
    } else {
      assert Step(s, d, p).onlyBase == d.onlyBase;
    }
  }

  lemma StepOnlyOther(s: Sides, done: set<string>, d: Diff, p: string)
    requires p !in done && (p in s.base || p in s.other)
    requires RowsAre(d.onlyOther, s.other, s.size, OnlyOther(s, done))
               && d.onlyOtherBytes == Bytes(s.other, s.size, OnlyOther(s, done))
    ensures var e := Step(s, d, p);
            RowsAre(e.onlyOther, s.other, s.size, OnlyOther(s, done + {p}))
              && e.onlyOtherBytes == Bytes(s.other, s.size, OnlyOther(s, done + {p}))
  {
    PathsGrow(s, done, p);
    if p !in s.base {
      BytesGrow(s.other, s.size, OnlyOther(s, done), p);
      RowsPush(d.onlyOther, s.other, s.size, OnlyOther(s, done), Row(p, p, s.size(s.other[p])));
    } else {
      assert Step(s, d, p).onlyOther == d.onlyOther;
    }
  }

  lemma ChangedPush(s: Sides, rows: seq<ChangedRow>, differing: set<string>, p: string, row: ChangedRow)
    requires ChangedAre(s, rows, differing, map[]) && p !in differing && row.path == p
               && RowOk(s, row, differing + {p}, map[])
    ensures ChangedAre(s, rows + [row], differing + {p}, map[])
  {
    var more := rows + [row];
    forall i | 0 <= i < |more| ensures RowOk(s, more[i], differing + {p}, map[]) && (i < |rows| ==> more[i].path != p) {
      if i < |rows| { assert RowOk(s, rows[i], differing, map[]); }
    }
  }

  lemma StepChanged(s: Sides, done: set<string>, d: Diff, p: string)
    requires ChangedAre(s, d.changed, Differing(s, done), map[]) && p !in done && (p in s.base || p in s.other)
    ensures ChangedAre(s, Step(s, d, p).changed, Differing(s, done + {p}), map[])
  {
    PathsGrow(s, done, p);
    var e := Step(s, d, p);
    if p in s.base && p in s.other && !Unchanged(s, p) {
      ChangedPush(s, d.changed, Differing(s, done), p, e.changed[|d.changed|]);
    }
  }

  lemma AccBytes(s: Sides, done: set<string>, d: Diff, p: string)
    requires p !in done && (p in s.base || p in s.other)
    requires AccOf(d.pkgs, s.pkgOf(p)).baseBytes == Bytes(s.base, s.size, OfPkg(s, done, s.pkgOf(p)))
    requires AccOf(d.pkgs, s.pkgOf(p)).otherBytes == Bytes(s.other, s.size, OfPkg(s, done, s.pkgOf(p)))
    ensures var acc := AccOf(Step(s, d, p).pkgs, s.pkgOf(p));
            && acc.baseBytes == Bytes(s.base, s.size, OfPkg(s, done + {p}, s.pkgOf(p)))
            && acc.otherBytes == Bytes(s.other, s.size, OfPkg(s, done + {p}, s.pkgOf(p)))
  {
    var pkg := s.pkgOf(p);
    OfPkgGrows(s, done, p, pkg);
    BytesGrow(s.base, s.size, OfPkg(s, done, pkg), p);
    BytesGrow(s.other, s.size, OfPkg(s, done, pkg), p);
  }

  lemma StepAcc(s: Sides, done: set<string>, d: Diff, p: string)
    requires p !in done && (p in s.base || p in s.other) && AccOk(s, done, AccOf(d.pkgs, s.pkgOf(p)), s.pkgOf(p), {})
    ensures AccOk(s, done + {p}, AccOf(Step(s, d, p).pkgs, s.pkgOf(p)), s.pkgOf(p), {})
  {
    AccBytes(s, done, d, p);
    AccFiles(s, done, d, p);
    assert OfPkg(s, {}, s.pkgOf(p)) == {};
  }

  lemma AccFiles(s: Sides, done: set<string>, d: Diff, p: string)
    requires p !in done && (p in s.base || p in s.other)
    ensures var was, now, pkg := AccOf(d.pkgs, s.pkgOf(p)), AccOf(Step(s, d, p).pkgs, s.pkgOf(p)), s.pkgOf(p);
            && now.onlyBaseFiles - was.onlyBaseFiles
              == |OfPkg(s, OnlyBase(s, done + {p}), pkg)| - |OfPkg(s, OnlyBase(s, done), pkg)|
            && now.onlyOtherFiles - was.onlyOtherFiles
              == |OfPkg(s, OnlyOther(s, done + {p}), pkg)| - |OfPkg(s, OnlyOther(s, done), pkg)|
            && now.changedFiles - was.changedFiles
              == |OfPkg(s, Differing(s, done + {p}), pkg)| - |OfPkg(s, Differing(s, done), pkg)|
  {
    var pkg := s.pkgOf(p);
    PathsGrow(s, done, p);
    OfPkgGrows(s, OnlyBase(s, done), p, pkg);
    OfPkgGrows(s, OnlyOther(s, done), p, pkg);
    OfPkgGrows(s, Differing(s, done), p, pkg);
  }

  lemma AccElsewhere(s: Sides, done: set<string>, acc: Acc, p: string, pkg: string)
    requires p !in done && s.pkgOf(p) != pkg && AccOk(s, done, acc, pkg, {})
    ensures AccOk(s, done + {p}, acc, pkg, {})
  {
    PathsGrow(s, done, p);
    OfPkgGrows(s, done, p, pkg);
    OfPkgGrows(s, OnlyBase(s, done), p, pkg);
    OfPkgGrows(s, OnlyOther(s, done), p, pkg);
    OfPkgGrows(s, Differing(s, done), p, pkg);
  }

  lemma StepPkgs(s: Sides, done: set<string>, d: Diff, p: string)
    requires p !in done && (p in s.base || p in s.other) && PkgsOk(s, done, d.pkgs, {})
    ensures PkgsOk(s, done + {p}, Step(s, d, p).pkgs, {})
  {
    var e := Step(s, d, p);
    assert e.pkgs == d.pkgs[s.pkgOf(p) := e.pkgs[s.pkgOf(p)]];
    StepAcc(s, done, d, p);
    AccsAfter(s, done, d.pkgs, e.pkgs, p);
  }

  lemma AccsAfter(s: Sides, done: set<string>, pkgs: map<string, Acc>, after: map<string, Acc>, p: string)
    requires p !in done && PkgsOk(s, done, pkgs, {})
    requires s.pkgOf(p) in after && after == pkgs[s.pkgOf(p) := after[s.pkgOf(p)]]
    requires AccOk(s, done + {p}, after[s.pkgOf(p)], s.pkgOf(p), {})
    ensures PkgsOk(s, done + {p}, after, {})
  {
    forall pkg ensures AccOk(s, done + {p}, AccOf(after, pkg), pkg, {}) {
      if pkg != s.pkgOf(p) { AccElsewhere(s, done, AccOf(pkgs, pkg), p, pkg); }
    }
    forall pkg | pkg in after ensures OfPkg(s, done + {p}, pkg) != {} {
      OfPkgGrows(s, done, p, pkg);
    }
  }

  lemma StepTotals(s: Sides, done: set<string>, d: Diff, p: string)
    requires p !in done && (p in s.base || p in s.other)
    requires d.unchangedFiles == |Alike(s, done)| && d.baseBytes == Bytes(s.base, s.size, done)
               && d.otherBytes == Bytes(s.other, s.size, done)
    ensures var e := Step(s, d, p);
            e.unchangedFiles == |Alike(s, done + {p})| && e.baseBytes == Bytes(s.base, s.size, done + {p})
              && e.otherBytes == Bytes(s.other, s.size, done + {p})
  {
    StepAlike(s, done, d, p);
    BytesGrow(s.base, s.size, done, p);
    BytesGrow(s.other, s.size, done, p);
    StepAdds(s, d, p);
  }

  lemma StepAlike(s: Sides, done: set<string>, d: Diff, p: string)
    requires p !in done && (p in s.base || p in s.other) && d.unchangedFiles == |Alike(s, done)|
    ensures Step(s, d, p).unchangedFiles == |Alike(s, done + {p})|
  {
    PathsGrow(s, done, p);
  }

  /** What a file adds to each side's bytes. */
  lemma StepAdds(s: Sides, d: Diff, p: string)
    requires p in s.base || p in s.other
    ensures var e := Step(s, d, p);
            && e.baseBytes == d.baseBytes + (if p in s.base then s.size(s.base[p]) else 0)
            && e.otherBytes == d.otherBytes + (if p in s.other then s.size(s.other[p]) else 0)
  {
  }

  lemma StepCovers(s: Sides, done: set<string>, d: Diff, p: string)
    requires Covered(s, done, d) && p !in done && (p in s.base || p in s.other)
    ensures Covered(s, done + {p}, Step(s, d, p))
  {
    StepOnlyBase(s, done, d, p);
    StepOnlyOther(s, done, d, p);
    StepChanged(s, done, d, p);
    StepPkgs(s, done, d, p);
    StepTotals(s, done, d, p);
  }

  // ---- renames ----

  /**
   What finding renames promises: of files one side alone has, to files the other alone has, one to one and
   within a package.
   */
  predicate Pairing(s: Sides, renames: map<string, string>) {
    && (forall from :: from in renames ==>
          from in s.base && from !in s.other && renames[from] in s.other && renames[from] !in s.base
          && s.pkgOf(renames[from]) == s.pkgOf(from))
    && (forall a, b :: a in renames && b in renames && renames[a] == renames[b] ==> a == b)
  }

  function All(s: Sides): set<string> {
    s.base.Keys + s.other.Keys
  }

  /** The renames taken are out of what one side alone has. */
  ghost predicate BytesLeft(s: Sides, d: Diff, keys: set<string>, values: set<string>) {
    && d.onlyBaseBytes == Bytes(s.base, s.size, OnlyBase(s, All(s)) - keys)
    && d.onlyOtherBytes == Bytes(s.other, s.size, OnlyOther(s, All(s)) - values)
  }

  lemma TakenGrow(renames: map<string, string>, taken: map<string, string>, from: string)
    requires from in renames && from !in taken && (forall k :: k in taken ==> k in renames && taken[k] == renames[k])
    requires forall a, b :: a in renames && b in renames && renames[a] == renames[b] ==> a == b
    ensures var more := taken[from := renames[from]];
            more.Keys == taken.Keys + {from} && more.Values == taken.Values + {renames[from]}
              && renames[from] !in taken.Values && |more| == |taken| + 1
  {
    ValuesGrow(taken, from, renames[from]);
  }

  lemma ValuesGrow(taken: map<string, string>, from: string, to: string)
    requires from !in taken
    ensures taken[from := to].Values == taken.Values + {to}
  {
    var more := taken[from := to];
    forall v | v in taken.Values + {to} ensures v in more.Values {
      if v == to { assert from in more && more[from] == v; } else {
        var k :| k in taken && taken[k] == v;
        assert k in more && more[k] == v;
      }
    }
  }

  lemma RenameChanged(s: Sides, d: Diff, renames: map<string, string>, taken: map<string, string>, from: string)
    requires Pairing(s, renames) && from in renames && from !in taken
               && (forall k :: k in taken ==> k in renames && taken[k] == renames[k])
    requires ChangedAre(s, d.changed, Differing(s, All(s)), taken)
    ensures ChangedAre(s, Rename(s, d, from, renames[from]).changed, Differing(s, All(s)), taken[from := renames[from]])
  {
    TakenGrow(renames, taken, from);
    var rows := Rename(s, d, from, renames[from]).changed;
    RenamePush(s, d.changed, Differing(s, All(s)), taken, from, rows[|d.changed|]);
  }

  lemma RenamePush(s: Sides, rows: seq<ChangedRow>, differing: set<string>, taken: map<string, string>, from: string,
                   row: ChangedRow)
    requires ChangedAre(s, rows, differing, taken) && from !in taken && row.path !in taken.Values
               && row.path !in differing
    requires RowOk(s, row, differing, taken[from := row.path])
    ensures ChangedAre(s, rows + [row], differing, taken[from := row.path])
  {
    var more := rows + [row];
    assert |taken[from := row.path]| == |taken| + 1;
    forall i | 0 <= i < |rows| ensures RowOk(s, rows[i], differing, taken[from := row.path])
        && rows[i].path != row.path {
      RowStays(s, rows[i], differing, taken, from, row.path);
    }
    forall i | 0 <= i < |more| ensures RowOk(s, more[i], differing, taken[from := row.path]) {}
  }

  lemma RowStays(s: Sides, row: ChangedRow, differing: set<string>, taken: map<string, string>, from: string,
                 to: string)
    requires RowOk(s, row, differing, taken) && from !in taken && to !in taken.Values && to !in differing
    ensures RowOk(s, row, differing, taken[from := to]) && row.path != to
  {
  }

  lemma RenameBaseBytes(s: Sides, taken: set<string>, from: string)
    requires from in s.base && from !in s.other && from !in taken
    ensures Bytes(s.base, s.size, OnlyBase(s, All(s)) - (taken + {from}))
              == Bytes(s.base, s.size, OnlyBase(s, All(s)) - taken) - s.size(s.base[from])
  {
    var b := OnlyBase(s, All(s)) - taken;
    assert from in b;
    BytesAdd(s.base, s.size, b, from);
    assert b - {from} == OnlyBase(s, All(s)) - (taken + {from});
  }

  lemma RenameOtherBytes(s: Sides, taken: set<string>, to: string)
    requires to in s.other && to !in s.base && to !in taken
    ensures Bytes(s.other, s.size, OnlyOther(s, All(s)) - (taken + {to}))
              == Bytes(s.other, s.size, OnlyOther(s, All(s)) - taken) - s.size(s.other[to])
  {
    var o := OnlyOther(s, All(s)) - taken;
    assert to in o;
    BytesAdd(s.other, s.size, o, to);
    assert o - {to} == OnlyOther(s, All(s)) - (taken + {to});
  }

  lemma RenameAcc(s: Sides, d: Diff, from: string, to: string, taken: set<string>, k: string)
    requires from in s.base && to in s.other && from !in taken && s.pkgOf(from) in d.pkgs
    requires AccOk(s, All(s), AccOf(d.pkgs, k), k, taken)
    ensures AccOk(s, All(s), AccOf(Rename(s, d, from, to).pkgs, k), k, taken + {from})
  {
    OfPkgGrows(s, taken, from, k);
  }

  lemma RenamePkgs(s: Sides, d: Diff, from: string, to: string, taken: set<string>)
    requires from in s.base && to in s.other && from !in taken && PkgsOk(s, All(s), d.pkgs, taken)
    ensures PkgsOk(s, All(s), Rename(s, d, from, to).pkgs, taken + {from})
  {
    assert from in All(s) && s.pkgOf(from) in d.pkgs;
    var e := Rename(s, d, from, to);
    assert e.pkgs.Keys == d.pkgs.Keys;
    forall k ensures AccOk(s, All(s), AccOf(e.pkgs, k), k, taken + {from}) {
      RenameAcc(s, d, from, to, taken, k);
    }
  }

  lemma RenameBytesLeft(s: Sides, d: Diff, from: string, to: string, keys: set<string>, values: set<string>)
    requires from in s.base && from !in s.other && from !in keys && to in s.other && to !in s.base && to !in values
    requires BytesLeft(s, d, keys, values)
    ensures BytesLeft(s, Rename(s, d, from, to), keys + {from}, values + {to})
  {
    RenameBaseBytes(s, keys, from);
    RenameOtherBytes(s, values, to);
  }

  function Left(rows: seq<Row>, gone: set<string>): seq<Row> {
    if rows == [] then []
    else Left(rows[..|rows| - 1], gone) + if rows[|rows| - 1].path in gone then [] else [rows[|rows| - 1]]
  }

  lemma {:induction false} LeftAre(rows: seq<Row>, files: Files, size: Content -> nat, paths: set<string>,
                                   gone: set<string>)
    requires RowsAre(rows, files, size, paths)
    ensures RowsAre(Left(rows, gone), files, size, paths - gone)
  {
    if rows == [] {
      assert paths - gone == {};
    } else {
      var init, last := rows[..|rows| - 1], rows[|rows| - 1];
      assert forall i :: 0 <= i < |init| ==> init[i] == rows[i];
      LeftAre(init, files, size, paths - {last.path}, gone);
      assert last.path in paths;
      if last.path in gone {
        assert paths - {last.path} - gone == paths - gone;
      } else {
        assert paths - {last.path} - gone + {last.path} == paths - gone;
        RowsPush(Left(init, gone), files, size, paths - {last.path} - gone, last);
      }
    }
  }

  // ---- the passes, path by path ----

  /** Some paths, each once. */
  ghost predicate Lists(order: seq<string>, paths: set<string>) {
    |order| == |paths| && (forall p :: p in order <==> p in paths)
  }

  predicate OnSides(s: Sides, order: seq<string>) {
    forall p :: p in order ==> p in s.base || p in s.other
  }

  function Compared(s: Sides, order: seq<string>): Diff
    requires OnSides(s, order)
  {
    if order == [] then NOTHING else Step(s, Compared(s, order[..|order| - 1]), order[|order| - 1])
  }

  function WithRenames(s: Sides, d: Diff, renames: map<string, string>, order: seq<string>): Diff
    requires Pairing(s, renames) && forall from :: from in order ==> from in renames
  {
    if order == [] then d
    else
      var from := order[|order| - 1];
      assert from in order;
      Rename(s, WithRenames(s, d, renames, order[..|order| - 1]), from, renames[from])
  }

  lemma ListsLess(order: seq<string>, paths: set<string>)
    requires Lists(order, paths) && order != []
    ensures var n := |order| - 1; Lists(order[..n], paths - {order[n]}) && order[n] in paths && order[n] !in order[..n]
  {
    var n := |order| - 1;
    var init := order[..n];
    assert order == init + [order[n]];
    Listed(init);
    var seen := set p | p in init;
    assert paths == seen + {order[n]};
    assert order[n] in init ==> paths == seen;
  }

  lemma {:induction false} Listed(order: seq<string>)
    ensures |set p | p in order| <= |order|
  {
    if order != [] {
      var init, last := order[..|order| - 1], order[|order| - 1];
      Listed(init);
      assert order == init + [last];
      assert (set p | p in order) == (set p | p in init) + {last};
    }
  }

  ghost predicate Settled(s: Sides, paths: set<string>, d: Diff) {
    Covered(s, paths, d) && Balanced(d)
  }

  lemma StepSettles(s: Sides, paths: set<string>, d: Diff, p: string)
    requires Settled(s, paths - {p}, d) && p in paths && (p in s.base || p in s.other)
    ensures Settled(s, paths, Step(s, d, p))
  {
    assert paths == paths - {p} + {p};
    StepCovers(s, paths - {p}, d, p);
    StepBalances(s, d, p);
  }

  lemma {:induction false} ComparedSettles(s: Sides, order: seq<string>, paths: set<string>)
    requires OnSides(s, order) && Lists(order, paths)
    ensures Settled(s, paths, Compared(s, order))
  {
    if order == [] {
      assert paths == {};
      NothingCovers(s);
    } else {
      var n := |order| - 1;
      ListsLess(order, paths);
      assert order[n] in order && forall p :: p in order[..n] ==> p in order;
      ComparedSettles(s, order[..n], paths - {order[n]});
      StepSettles(s, paths, Compared(s, order[..n]), order[n]);
    }
  }

  lemma NothingCovers(s: Sides)
    ensures Covered(s, {}, NOTHING) && Balanced(NOTHING)
  {
    assert OnlyBase(s, {}) == {} && OnlyOther(s, {}) == {} && Differing(s, {}) == {} && Alike(s, {}) == {};
    forall pkg ensures AccOk(s, {}, NO_FILES, pkg, {}) { assert OfPkg(s, {}, pkg) == {}; }
    assert map[] == NOTHING.pkgs;
  }

  lemma NoneLeft(s: Sides, d: Diff)
    requires OneSided(s, All(s), d)
    ensures BytesLeft(s, d, {}, {})
  {
    assert OnlyBase(s, All(s)) - {} == OnlyBase(s, All(s)) && OnlyOther(s, All(s)) - {} == OnlyOther(s, All(s));
  }

  predicate SomeOf(taken: map<string, string>, renames: map<string, string>) {
    forall k :: k in taken ==> k in renames && taken[k] == renames[k]
  }

  lemma Fewer(renames: map<string, string>, taken: map<string, string>, order: seq<string>)
      returns (less: map<string, string>)
    requires OneToOne(renames) && SomeOf(taken, renames) && Lists(order, taken.Keys) && order != []
    ensures var n := |order| - 1; var from := order[n];
            && from in renames && from !in less && taken == less[from := renames[from]] && SomeOf(less, renames)
            && Lists(order[..n], less.Keys)
            && taken.Keys == less.Keys + {from} && taken.Values == less.Values + {renames[from]}
            && renames[from] !in less.Values
  {
    ListsLess(order, taken.Keys);
    less := Dropped(renames, taken, order[|order| - 1]);
  }

  lemma Dropped(renames: map<string, string>, taken: map<string, string>, from: string)
      returns (less: map<string, string>)
    requires OneToOne(renames) && SomeOf(taken, renames) && from in taken
    ensures from in renames && from !in less && taken == less[from := renames[from]] && SomeOf(less, renames)
              && less.Keys == taken.Keys - {from}
    ensures taken.Keys == less.Keys + {from} && taken.Values == less.Values + {renames[from]}
              && renames[from] !in less.Values
  {
    less := taken - {from};
    assert taken == less[from := renames[from]];
    TakenGrow(renames, less, from);
  }

  predicate OneToOne(renames: map<string, string>) {
    forall a, b :: a in renames && b in renames && renames[a] == renames[b] ==> a == b
  }

  /** The renames keep the totals adding up. */
  lemma {:induction false} RenamesBalance(s: Sides, d: Diff, renames: map<string, string>, order: seq<string>)
    requires Balanced(d) && Pairing(s, renames) && forall k :: k in order ==> k in renames
    ensures Balanced(WithRenames(s, d, renames, order))
  {
    if order != [] {
      var n := |order| - 1;
      assert order[n] in order && forall k :: k in order[..n] ==> k in order;
      RenamesBalance(s, d, renames, order[..n]);
      RenameBalances(s, WithRenames(s, d, renames, order[..n]), order[n], renames[order[n]]);
    }
  }

  /** They leave the lists and the other totals. */
  lemma {:induction false} RenamesLeave(s: Sides, d: Diff, renames: map<string, string>, order: seq<string>)
    requires Pairing(s, renames) && forall k :: k in order ==> k in renames
    ensures var e := WithRenames(s, d, renames, order);
            && e.onlyBase == d.onlyBase && e.onlyOther == d.onlyOther
            && e.unchangedFiles == d.unchangedFiles && e.baseBytes == d.baseBytes && e.otherBytes == d.otherBytes
  {
    if order != [] {
      var n := |order| - 1;
      assert order[n] in order && forall k :: k in order[..n] ==> k in order;
      RenamesLeave(s, d, renames, order[..n]);
    }
  }

  lemma {:induction false} RenamesChange(s: Sides, d: Diff, renames: map<string, string>, order: seq<string>,
                                         taken: map<string, string>)
    requires Pairing(s, renames) && SomeOf(taken, renames) && Lists(order, taken.Keys)
               && forall k :: k in order ==> k in renames
    requires ChangedAre(s, d.changed, Differing(s, All(s)), map[])
    ensures ChangedAre(s, WithRenames(s, d, renames, order).changed, Differing(s, All(s)), taken)
  {
    if order == [] {
      assert taken == map[];
    } else {
      var n := |order| - 1;
      var less := Fewer(renames, taken, order);
      assert forall k :: k in order[..n] ==> k in order;
      RenamesChange(s, d, renames, order[..n], less);
      RenameChanged(s, WithRenames(s, d, renames, order[..n]), renames, less, order[n]);
    }
  }

  lemma {:induction false} RenamesPkgs(s: Sides, d: Diff, renames: map<string, string>, order: seq<string>,
                                       keys: set<string>)
    requires Pairing(s, renames) && Lists(order, keys) && forall k :: k in order ==> k in renames
    requires PkgsOk(s, All(s), d.pkgs, {})
    ensures PkgsOk(s, All(s), WithRenames(s, d, renames, order).pkgs, keys)
  {
    if order == [] {
      assert keys == {};
    } else {
      var n := |order| - 1;
      var from, init := order[n], order[..n];
      ListsLess(order, keys);
      assert from in order && forall k :: k in init ==> k in order;
      RenamesPkgs(s, d, renames, init, keys - {from});
      RenameOneMore(s, WithRenames(s, d, renames, init), from, renames[from], keys);
    }
  }

  lemma RenameOneMore(s: Sides, d: Diff, from: string, to: string, keys: set<string>)
    requires from in s.base && to in s.other && from in keys && PkgsOk(s, All(s), d.pkgs, keys - {from})
    ensures PkgsOk(s, All(s), Rename(s, d, from, to).pkgs, keys)
  {
    RenamePkgs(s, d, from, to, keys - {from});
    assert keys - {from} + {from} == keys;
  }

  lemma {:induction false} RenamesBytes(s: Sides, d: Diff, renames: map<string, string>, order: seq<string>,
                                        taken: map<string, string>)
    requires Pairing(s, renames) && SomeOf(taken, renames) && Lists(order, taken.Keys)
               && forall k :: k in order ==> k in renames
    requires BytesLeft(s, d, {}, {})
    ensures BytesLeft(s, WithRenames(s, d, renames, order), taken.Keys, taken.Values)
  {
    if order == [] {
      assert taken.Keys == {} && taken.Values == {};
    } else {
      var n := |order| - 1;
      var less := Fewer(renames, taken, order);
      assert forall k :: k in order[..n] ==> k in order;
      RenamesBytes(s, d, renames, order[..n], less);
      RenameBytesLeft(s, WithRenames(s, d, renames, order[..n]), order[n], renames[order[n]], less.Keys, less.Values);
    }
  }
}
