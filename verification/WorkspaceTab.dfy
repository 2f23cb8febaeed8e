/**
 One tab's side of the workspaces as it runs (client/workspaces.js): the diff
 against what was seen, and the one routine behind every membership call.
 */
module WorkspaceTab {
  import opened Options
  import opened Workspaces
  import opened WorkspaceTabs

  class Tab {
    var lastSeen: Seen

    constructor ()
      ensures lastSeen == map[]
    {
      lastSeen := map[];
    }

    /** The listeners for one workspace in both views. */
    static method Diff(p: Snap, w: Snap, id: string) returns (told: set<Fire>)
      ensures forall fire :: fire in told <==>
                fire.id == id && ((fire.KeyChanged? && p.key != w.key)
                  || (fire.FilesChanged? && FilesDiffer(p, w, fire.field)))
    {
      told := {};
      if p.key != w.key { told := told + {KeyChanged(id)}; }
      if FilesDiffer(p, w, Reports) { told := told + {FilesChanged(id, Reports)}; }
      if FilesDiffer(p, w, Bundles) { told := told + {FilesChanged(id, Bundles)}; }
    }

    static method FindDeleted(prev: Seen, next: Seen) returns (told: set<Fire>)
      ensures forall fire :: fire in told <==> fire.Deleted? && Calls(prev, next, fire)
    {
      told := {};
      var ids := prev.Keys;
      while ids != {}
        invariant ids <= prev.Keys
        invariant forall fire :: fire in told
                    <==> fire.Deleted? && fire.id in prev.Keys - ids && Calls(prev, next, fire)
        decreases |ids|
      {
        var id :| id in ids;
        if id !in next { told := told + {Deleted(id)}; }
        ids := ids - {id};
      }
    }

    static method FindChanged(prev: Seen, next: Seen) returns (told: set<Fire>)
      ensures forall fire :: fire in told <==> !fire.Deleted? && Calls(prev, next, fire)
    {
      told := {};
      var ids := next.Keys;
      while ids != {}
        invariant ids <= next.Keys
        invariant forall fire :: fire in told
                    <==> !fire.Deleted? && fire.id in next.Keys - ids && Calls(prev, next, fire)
        decreases |ids|
      {
        var id :| id in ids;
        var more: set<Fire>;
        if id in prev { more := Diff(prev[id], next[id], id); } else { more := {Created(id)}; }
        assert forall fire :: fire in more <==> fire.id == id && !fire.Deleted? && Calls(prev, next, fire);
        told := told + more;
        ids := ids - {id};
      }
    }

    /** propagateWorkspaceChangesFromStorage: every listener the diff calls for, and then the new view. */
    method Propagate(list: seq<Workspace>) returns (told: set<Fire>)
      modifies this
      ensures told == Changes(old(lastSeen), Snaps(list)) && lastSeen == Snaps(list)
    {
      var next := Snaps(list);
      var gone := FindDeleted(lastSeen, next);
      var changed := FindChanged(lastSeen, next);
      told := gone + changed;
      ChangesAre(lastSeen, next);
      lastSeen := next;
    }

    /** The detach loop. */
    static method DetachAll(list: seq<Workspace>, field: Field, file: string, additive: bool, from: Option<string>)
      returns (r: seq<Workspace>, affected: set<string>)
      ensures r == Detached(list, field, file, additive, from) && affected == LostBy(list, field, file, additive, from)
    {
      r, affected := list, {};
      for i := 0 to |list|
        invariant |r| == |list| && (forall k :: 0 <= k < i ==>
                    r[k] == DetachedOne(list[k], field, file, additive, from))
        invariant forall k :: i <= k < |list| ==> r[k] == list[k]
        invariant affected == LostBy(list[..i], field, file, additive, from)
      {
        LostOneMore(list, i, field, file, additive, from);
        if Loses(list[i], field, file, additive, from) {
          r := r[i := WithFiles(list[i], field, Without(Files(list[i], field), file))];
          affected := affected + {list[i].id};
        }
      }
      assert list[..|list|] == list;
    }

    /** The target's attach, deduplicated. */
    static method AttachTarget(list: seq<Workspace>, field: Field, file: string, target: Option<string>)
      returns (r: seq<Workspace>, gained: set<string>)
      requires target.Some? ==> HasId(list, target.value)
      ensures r == Attached(list, field, file, target)
      ensures gained == if target.Some? && file !in Files(list[Index(list, target.value)], field) then {target.value}
                else {}
    {
      r, gained := list, {};
      if target.Some? {
        var i := Index(list, target.value);
        if file !in Files(list[i], field) {
          r := list[i := WithFiles(list[i], field, Files(list[i], field) + [file])];
          gained := {target.value};
        }
      }
    }

    /**
     setWorkspaceMembership on the list as hydrated: the list to write, and the listeners told, field by field
     marked.
     */
    method SetMembership(list: seq<Workspace>, field: Field, file: string, target: Option<string>, additive: bool,
                         from: Option<string>)
      returns (r: seq<Workspace>, told: set<Fire>)
      requires OnePerId(list) && lastSeen == Snaps(list)
      modifies this
      ensures r == Moved(list, field, file, target, additive, from)
      ensures told == set id | id in Affected(list, field, file, target, additive, from) :: FilesChanged(id, field)
      ensures lastSeen == MarkedField(Snaps(list), r, field, Affected(list, field, file, target, additive, from))
    {
      if Passes(list, field, file, target) {
        Unmarked(lastSeen, list, field);
        return list, {};
      }
      var detached, lost := DetachAll(list, field, file, additive, from);
      if target.Some? { DetachedIndex(list, field, file, target.value, additive, from); }
      var gained;
      r, gained := AttachTarget(detached, field, file, target);
      AffectedIs(list, field, file, target, additive, from);
      var affected := lost + gained;
      told := set id | id in affected :: FilesChanged(id, field);
      lastSeen := MarkedField(lastSeen, r, field, affected);
    }
  }

  lemma DetachedIndex(list: seq<Workspace>, field: Field, file: string, id: string, additive: bool,
                      from: Option<string>)
    ensures Index(Detached(list, field, file, additive, from), id) == Index(list, id)
  {
    SameIds(list, Detached(list, field, file, additive, from), id);
  }

  function LostBy(list: seq<Workspace>, field: Field, file: string, additive: bool, from: Option<string>): set<string> {
    set w | w in list && Loses(w, field, file, additive, from) :: w.id
  }

  lemma LostOneMore(list: seq<Workspace>, i: nat, field: Field, file: string, additive: bool, from: Option<string>)
    requires i < |list|
    ensures LostBy(list[..i + 1], field, file, additive, from)
         == LostBy(list[..i], field, file, additive, from) + if Loses(list[i], field, file, additive, from)
           then {list[i].id} else {}
  {
    assert list[..i + 1] == list[..i] + [list[i]];
    assert list[i] in list[..i + 1];
    assert forall w :: w in list[..i] ==> w in list[..i + 1];
  }

  lemma Unmarked(seen: Seen, list: seq<Workspace>, field: Field)
    ensures MarkedField(seen, list, field, {}) == seen
  {
  }

  /** The ids losing the file, with the target if it gains it. */
  lemma AffectedIs(list: seq<Workspace>, field: Field, file: string, target: Option<string>, additive: bool,
                   from: Option<string>)
    requires OnePerId(list) && !Passes(list, field, file, target)
    ensures Affected(list, field, file, target, additive, from) == LostBy(list, field, file, additive, from)
              + if target.Some? && file !in Files(DetachedOne(list[Index(list, target.value)], field, file, additive,
                from), field) then {target.value} else {}
  {
    if target.Some? {
      var at := Index(list, target.value);
      assert list[at] in list;
      forall w | w in list && w.id == target.value ensures w == list[at] {
        var k :| 0 <= k < |list| && list[k] == w;
        IndexUnique(list, k);
      }
    }
  }
}
