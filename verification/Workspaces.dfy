/**
 The workspaces every tab shares, and what each tab's listeners have been told
 of them (client/workspaces.js). A tab's mutation brings the shared list in,
 tells the listeners what changed elsewhere, changes the list, and tells and
 marks what it changed itself; each is one step here.
 */
module Workspaces {
  import opened Options
  import Buckets

  datatype Field = Reports | Bundles

  datatype Workspace = Workspace(id: string, name: string, key: string, reports: seq<string>, bundles: seq<string>)

  /** What of a workspace is watched. */
  datatype Snap = Snap(key: string, reports: seq<string>, bundles: seq<string>)

  datatype Fire = Created(id: string) | Deleted(id: string) | KeyChanged(id: string) | FilesChanged(id: string,
    field: Field)

  type Seen = map<string, Snap>

  function Files(w: Workspace, field: Field): seq<string> {
    if field == Reports then w.reports else w.bundles
  }

  function WithFiles(w: Workspace, field: Field, files: seq<string>): Workspace {
    if field == Reports then w.(reports := files) else w.(bundles := files)
  }

  function SnapOf(w: Workspace): Snap {
    Snap(w.key, w.reports, w.bundles)
  }

  function SnapFiles(s: Snap, field: Field): seq<string> {
    if field == Reports then s.reports else s.bundles
  }

  function SnapWith(s: Snap, field: Field, files: seq<string>): Snap {
    if field == Reports then s.(reports := files) else s.(bundles := files)
  }

  function Set(s: seq<string>): set<string> {
    set x | x in s
  }

  predicate OnePerId(list: seq<Workspace>) {
    forall i, j :: 0 <= i < j < |list| ==> list[i].id != list[j].id
  }

  /** Where the first workspace with the id is; past the end when there is none. */
  function Index(list: seq<Workspace>, id: string): (i: nat)
    ensures i <= |list| && (i < |list| ==> list[i].id == id)
    ensures forall k :: 0 <= k < i ==> list[k].id != id
  {
    if list == [] || list[0].id == id then 0 else
      var i := Index(list[1..], id);
      assert forall k :: 1 <= k < i + 1 ==> list[k] == list[1..][k - 1];
      i + 1
  }

  predicate HasId(list: seq<Workspace>, id: string) {
    Index(list, id) < |list|
  }

  /** The list as it is watched; of two with one id the later. */
  function Snaps(list: seq<Workspace>): Seen {
    if list == [] then map[] else Snaps(list[..|list| - 1])[list[|list| - 1].id := SnapOf(list[|list| - 1])]
  }

  // ---- what listeners are told ----

  predicate FilesDiffer(a: Snap, b: Snap, field: Field) {
    Set(SnapFiles(a, field)) != Set(SnapFiles(b, field))
  }

  /** The listener one change calls for. */
  predicate Calls(seen: Seen, next: Seen, fire: Fire) {
    match fire
    case Created(id) => id in next && id !in seen
    case Deleted(id) => id in seen && id !in next
    case KeyChanged(id) => id in seen && id in next && seen[id].key != next[id].key
    case FilesChanged(id, field) => id in seen && id in next && FilesDiffer(seen[id], next[id], field)
  }

  /** Every listener the changes from one view to another call for. */
  function Changes(seen: Seen, next: Seen): set<Fire> {
    (set id | id in next && Calls(seen, next, Created(id)) :: Created(id))
    + (set id | id in seen && Calls(seen, next, Deleted(id)) :: Deleted(id))
    + (set id | id in seen && Calls(seen, next, KeyChanged(id)) :: KeyChanged(id))
    + (set id | id in seen && Calls(seen, next, FilesChanged(id, Reports)) :: FilesChanged(id, Reports))
    + (set id | id in seen && Calls(seen, next, FilesChanged(id, Bundles)) :: FilesChanged(id, Bundles))
  }

  lemma ChangesAre(seen: Seen, next: Seen)
    ensures forall fire :: fire in Changes(seen, next) <==> Calls(seen, next, fire)
  {
    forall fire | Calls(seen, next, fire) ensures fire in Changes(seen, next) {
      if fire.FilesChanged? && fire.field == Bundles { assert fire == FilesChanged(fire.id, Bundles); }
    }
  }

  // ---- membership ----

  function FirstOwner(list: seq<Workspace>, field: Field, file: string): Option<string> {
    if list == [] then None
    else if file in Files(list[0], field) then Some(list[0].id)
    else FirstOwner(list[1..], field, file)
  }

  function Without(files: seq<string>, file: string): (r: seq<string>)
    ensures forall x :: x in r <==> x in files && x != file
    ensures file !in files ==> r == files
  {
    if files == [] then []
    else
      assert files == files[..|files| - 1] + [files[|files| - 1]];
      Without(files[..|files| - 1], file) + if files[|files| - 1] == file then [] else [files[|files| - 1]]
  }

  /** Whether the detach takes the file from this workspace. */
  predicate Loses(w: Workspace, field: Field, file: string, additive: bool, from: Option<string>) {
    !additive && (from.None? || from.value == w.id) && file in Files(w, field)
  }

  function Detached(list: seq<Workspace>, field: Field, file: string, additive: bool,
                    from: Option<string>): (r: seq<Workspace>)
    ensures |r| == |list| && forall i :: 0 <= i < |r| ==> r[i] == DetachedOne(list[i], field, file, additive, from)
  {
    if list == [] then []
    else
      Detached(list[..|list| - 1], field, file, additive, from) + [DetachedOne(list[|list| - 1], field, file, additive, from)]
  }

  function Attached(list: seq<Workspace>, field: Field, file: string, target: Option<string>): seq<Workspace> {
    if target.None? || !HasId(list, target.value) || file in Files(list[Index(list, target.value)], field) then list
    else
      var i := Index(list, target.value);
      list[i := WithFiles(list[i], field, Files(list[i], field) + [file])]
  }

  /** A membership call that changes nothing and writes nothing. */
  predicate Passes(list: seq<Workspace>, field: Field, file: string, target: Option<string>) {
    FirstOwner(list, field, file) == target || (target.Some? && !HasId(list, target.value))
  }

  function Moved(list: seq<Workspace>, field: Field, file: string, target: Option<string>, additive: bool,
                 from: Option<string>): seq<Workspace> {
    if Passes(list, field, file, target) then list
    else Attached(Detached(list, field, file, additive, from), field, file, target)
  }

  function DetachedOne(w: Workspace, field: Field, file: string, additive: bool, from: Option<string>): Workspace {
    if Loses(w, field, file, additive, from) then WithFiles(w, field, Without(Files(w, field), file)) else w
  }

  /** The target gains the file unless, the detach done, it still lists it. */
  predicate Gains(w: Workspace, field: Field, file: string, target: Option<string>, additive: bool,
                  from: Option<string>) {
    target == Some(w.id) && file !in Files(DetachedOne(w, field, file, additive, from), field)
  }

  function MovedOne(w: Workspace, field: Field, file: string, target: Option<string>, additive: bool,
                    from: Option<string>): Workspace {
    var d := DetachedOne(w, field, file, additive, from);
    if Gains(w, field, file, target, additive, from) then WithFiles(d, field, Files(d, field) + [file]) else d
  }

  /** The ids the call changes the list of, which are told and marked. */
  function Affected(list: seq<Workspace>, field: Field, file: string, target: Option<string>, additive: bool,
                    from: Option<string>): set<string> {
    if Passes(list, field, file, target) then {}
    else
      set w | w in list && (Loses(w, field, file, additive, from) || Gains(w, field, file, target, additive, from)) :: w.id
  }

  predicate Owns(w: Workspace, field: Field, file: string) {
    file in Files(w, field)
  }

  lemma {:induction false} FirstOwnerIs(list: seq<Workspace>, field: Field, file: string)
    ensures FirstOwner(list, field, file).None? <==> forall i :: 0 <= i < |list| ==> !Owns(list[i], field, file)
    ensures FirstOwner(list, field, file).Some? ==>
              exists i :: 0 <= i < |list| && list[i].id == FirstOwner(list, field, file).value
                && Owns(list[i], field, file)
                       && forall k :: 0 <= k < i ==> !Owns(list[k], field, file)
  {
    if list != [] && !Owns(list[0], field, file) {
      FirstOwnerIs(list[1..], field, file);
      assert forall k :: 0 <= k < |list| - 1 ==> list[1..][k] == list[k + 1];
      if FirstOwner(list, field, file).Some? {
        var i :| 0 <= i < |list[1..]| && list[1..][i].id == FirstOwner(list, field, file).value
            && Owns(list[1..][i], field, file)
              && forall k :: 0 <= k < i ==> !Owns(list[1..][k], field, file);
        assert list[i + 1].id == FirstOwner(list, field, file).value;
        assert forall k :: 1 <= k < i + 1 ==> list[k] == list[1..][k - 1];
      } else {
        assert forall k :: 1 <= k < |list| ==> list[k] == list[1..][k - 1];
      }
    } else if list != [] {
      assert list[0].id == FirstOwner(list, field, file).value;
    }
  }

  lemma IndexUnique(list: seq<Workspace>, i: nat)
    requires OnePerId(list) && i < |list|
    ensures Index(list, list[i].id) == i
  {
  }

  lemma SameIds(list: seq<Workspace>, other: seq<Workspace>, id: string)
    requires |list| == |other| && forall i :: 0 <= i < |list| ==> list[i].id == other[i].id
    ensures Index(list, id) == Index(other, id)
  {
    var i, j := Index(list, id), Index(other, id);
    assert i < |list| ==> other[i].id == id;
    assert j < |other| ==> list[j].id == id;
  }

  lemma AttachedAt(list: seq<Workspace>, field: Field, file: string, target: Option<string>, i: nat)
    requires OnePerId(list) && i < |list|
    ensures |Attached(list, field, file, target)| == |list|
    ensures Attached(list, field, file, target)[i] ==
            if target == Some(list[i].id) && file !in Files(list[i], field)
                then WithFiles(list[i], field, Files(list[i], field) + [file]) else list[i]
  {
    IndexUnique(list, i);
  }

  /** What a membership call that does not pass makes of each workspace, which depends on that workspace alone. */
  lemma MovedIsOneByOne(list: seq<Workspace>, field: Field, file: string, target: Option<string>, additive: bool,
                        from: Option<string>)
    requires OnePerId(list) && !Passes(list, field, file, target)
    ensures |Moved(list, field, file, target, additive, from)| == |list|
    ensures forall i :: 0 <= i < |list| ==>
              Moved(list, field, file, target, additive, from)[i] == MovedOne(list[i], field, file, target, additive, from)
  {
    var d := Detached(list, field, file, additive, from);
    assert forall i :: 0 <= i < |list| ==> d[i].id == list[i].id;
    assert OnePerId(d);
    assert |Attached(d, field, file, target)| == |d|;
    forall i | 0 <= i < |list| ensures Attached(d, field, file, target)[i]
        == MovedOne(list[i], field, file, target, additive, from) {
      AttachedAt(d, field, file, target, i);
    }
  }

  // ---- what the three membership calls come to ----

  /** The two lists are of the same workspaces, differing at most in where the file is listed. */
  ghost predicate OnlyMoves(list: seq<Workspace>, r: seq<Workspace>, field: Field, file: string) {
    |r| == |list| && forall i :: 0 <= i < |list| ==> SameButFile(list[i], r[i], field, file)
  }

  predicate SameButFile(w: Workspace, v: Workspace, field: Field, file: string) {
    v == WithFiles(w, field, Files(v, field)) && Without(Files(v, field), file) == Without(Files(w, field), file)
  }

  lemma {:induction false} WithoutAppended(files: seq<string>, file: string)
    ensures Without(files + [file], file) == Without(files, file)
    ensures Without(Without(files, file), file) == Without(files, file)
  {
    assert (files + [file])[..|files|] == files;
  }

  lemma MovedOneKeeps(w: Workspace, field: Field, file: string, target: Option<string>, additive: bool,
                      from: Option<string>)
    ensures SameButFile(w, MovedOne(w, field, file, target, additive, from), field, file)
  {
    WithoutAppended(Files(DetachedOne(w, field, file, additive, from), field), file);
    WithoutAppended(Files(w, field), file);
  }

  /** Whatever the call, no list changes but in the one file, and nothing else of any workspace does. */
  lemma MovesOnlyTheFile(list: seq<Workspace>, field: Field, file: string, target: Option<string>, additive: bool,
                         from: Option<string>)
    requires OnePerId(list)
    ensures OnlyMoves(list, Moved(list, field, file, target, additive, from), field, file)
  {
    var r := Moved(list, field, file, target, additive, from);
    if !Passes(list, field, file, target) { MovedIsOneByOne(list, field, file, target, additive, from); }
    forall i | 0 <= i < |list| ensures |r| == |list| && SameButFile(list[i], r[i], field, file) {
      MovedOneKeeps(list[i], field, file, target, additive, from);
    }
  }

  /**
   addReportToWorkspace, addBundleToWorkspace: the target lists the file as well, and every other list is as it
   was.
   */
  lemma AddIs(list: seq<Workspace>, field: Field, file: string, target: string)
    requires OnePerId(list)
    ensures var r := Moved(list, field, file, Some(target), true, None);
            && |r| == |list|
            && forall i :: 0 <= i < |list| ==> r[i] == if list[i].id == target && file !in Files(list[i], field)
                                                      then WithFiles(list[i], field, Files(list[i], field) + [file])
                                                        else list[i]
  {
    if Passes(list, field, file, Some(target)) {
      FirstOwnerIs(list, field, file);
    } else {
      MovedIsOneByOne(list, field, file, Some(target), true, None);
    }
  }

  /**
   removeReportFromWorkspace, removeBundleFromWorkspace: the one workspace no longer lists the file, and every
   other list is as it was.
   */
  lemma RemoveIs(list: seq<Workspace>, field: Field, file: string, from: string)
    requires OnePerId(list)
    ensures var r := Moved(list, field, file, None, false, Some(from));
            && |r| == |list|
            && forall i :: 0 <= i < |list| ==> r[i] == if list[i].id == from then
                WithFiles(list[i], field, Without(Files(list[i], field), file)) else list[i]
  {
    if Passes(list, field, file, None) {
      FirstOwnerIs(list, field, file);
      forall i | 0 <= i < |list| ensures !Owns(list[i], field, file) {}
    } else {
      MovedIsOneByOne(list, field, file, None, false, Some(from));
    }
  }

  /**
   setReportWorkspace, setBundleWorkspace with a known target. Afterwards the target alone lists the file,
   exactly when the file was not first found in the target with another workspace listing it too: that call
   passes for done, and the other goes on listing it.
   */
  lemma MoveOwnsAloneIff(list: seq<Workspace>, field: Field, file: string, target: string)
    requires OnePerId(list) && HasId(list, target)
    ensures var r := Moved(list, field, file, Some(target), false, None);
            (|r| == |list| && forall i :: 0 <= i < |list| ==> (Owns(r[i], field, file) <==> list[i].id == target))
            <==> !(FirstOwner(list, field, file) == Some(target)
                   && exists i :: 0 <= i < |list| && list[i].id != target && Owns(list[i], field, file))
  {
    if !Passes(list, field, file, Some(target)) {
      MoveOwnsAlone(list, field, file, target);
    } else {
      FirstOwnerOwns(list, field, file, target);
    }
  }

  /** A report listed by two workspaces: moving it to the first of them passes, and the second goes on listing it. */
  lemma MoveToFirstOwnerPasses(file: string)
    ensures var list := [Workspace("a", "A", "ka", [file], []), Workspace("b", "B", "kb", [file], [])];
            var r := Moved(list, Reports, file, Some("a"), false, None);
            OnePerId(list) && HasId(list, "a") && r == list && Owns(r[1], Reports, file)
  {
    var list := [Workspace("a", "A", "ka", [file], []), Workspace("b", "B", "kb", [file], [])];
    assert "a"[0] != "b"[0];
    assert list[0].id == "a" && Owns(list[0], Reports, file);
    assert FirstOwner(list, Reports, file) == Some("a");
  }

  lemma MoveOwnsAlone(list: seq<Workspace>, field: Field, file: string, target: string)
    requires OnePerId(list) && !Passes(list, field, file, Some(target))
    ensures var r := Moved(list, field, file, Some(target), false, None);
            |r| == |list| && forall i :: 0 <= i < |list| ==> (Owns(r[i], field, file) <==> list[i].id == target)
  {
    var r := Moved(list, field, file, Some(target), false, None);
    MovedIsOneByOne(list, field, file, Some(target), false, None);
    forall i | 0 <= i < |list| ensures Owns(r[i], field, file) <==> list[i].id == target {
      assert r[i] == MovedOne(list[i], field, file, Some(target), false, None);
      MovedOneOwns(list[i], field, file, target);
    }
  }

  lemma MovedOneOwns(w: Workspace, field: Field, file: string, target: string)
    ensures Owns(MovedOne(w, field, file, Some(target), false, None), field, file) <==> w.id == target
  {
  }

  lemma FirstOwnerOwns(list: seq<Workspace>, field: Field, file: string, target: string)
    requires OnePerId(list) && FirstOwner(list, field, file) == Some(target)
    ensures forall i :: 0 <= i < |list| && list[i].id == target ==> Owns(list[i], field, file)
  {
    FirstOwnerIs(list, field, file);
    var i :| 0 <= i < |list| && list[i].id == target && Owns(list[i], field, file);
    forall k | 0 <= k < |list| && list[k].id == target ensures k == i {}
  }

  /** With no target the file is detached from every workspace. */
  lemma MoveOutIs(list: seq<Workspace>, field: Field, file: string)
    requires OnePerId(list)
    ensures var r := Moved(list, field, file, None, false, None);
            |r| == |list| && forall i :: 0 <= i < |list| ==>
                r[i] == WithFiles(list[i], field, Without(Files(list[i], field), file))
  {
    FirstOwnerIs(list, field, file);
    if Passes(list, field, file, None) {
      forall i | 0 <= i < |list| ensures !Owns(list[i], field, file) {}
    } else {
      MovedIsOneByOne(list, field, file, None, false, None);
    }
  }
}
