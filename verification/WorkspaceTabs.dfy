/**
 Many tabs over one list of workspaces (client/workspaces.js:87-183, 321-372,
 600-629): whatever a tab's view of a workspace comes to be, its listeners have
 been told of the difference.
 */
module WorkspaceTabs {
  import opened Options
  import opened Workspaces
  import Buckets

  datatype Op =
    | Hydrate
    | Create(w: Workspace)
    | Delete(id: string)
    | Rename(id: string, name: string)
    | Upsert(w: Workspace, preserveBundles: bool)
    | Attach(w: Workspace)
    | Member(field: Field, file: string, target: Option<string>, additive: bool, from: Option<string>)

  datatype Event = Event(tab: nat, op: Op)

  /** The shared list, and each tab's `lastSeen`. */
  datatype System = System(blob: seq<Workspace>, seen: map<nat, Seen>)

  /** What an operation makes of the list, what it tells, and what of its own it marks as seen. */
  datatype Outcome = Outcome(blob: seq<Workspace>, told: set<Fire>, seen: Seen)

  function Removed(list: seq<Workspace>, id: string): seq<Workspace> {
    var i := Index(list, id);
    if i < |list| then Cut(list, i) else list
  }

  /** An upsert's row: lists without repeats, and the bundles there were when they are to be preserved. */
  function Upserted(list: seq<Workspace>, w: Workspace, preserveBundles: bool): Workspace {
    var i := Index(list, w.id);
    var bundles := if !preserveBundles then w.bundles else if i < |list| then list[i].bundles else [];
    w.(reports := Buckets.FirstSeen(w.reports), bundles := Buckets.FirstSeen(bundles))
  }

  predicate NameTaken(list: seq<Workspace>, name: string) {
    exists i :: 0 <= i < |list| && list[i].name == name
  }

  /** Fires for an upsert are decided against what listeners have seen. */
  function UpsertTells(seen: Seen, w: Workspace): set<Fire> {
    if w.id !in seen then {Created(w.id)}
    else
      (if seen[w.id].key != w.key then {KeyChanged(w.id)} else {})
      + (if FilesDiffer(seen[w.id], SnapOf(w), Reports) then {FilesChanged(w.id, Reports)} else {})
      + (if FilesDiffer(seen[w.id], SnapOf(w), Bundles) then {FilesChanged(w.id, Bundles)} else {})
  }

  /** markObservedFieldFor for each affected id: only the one field, or the whole of a workspace not seen before. */
  function MarkedField(seen: Seen, list: seq<Workspace>, field: Field, ids: set<string>): Seen {
    map id | id in seen.Keys + ids ::
      if id in ids && HasId(list, id) then
        var w := list[Index(list, id)];
        if id in seen then SnapWith(seen[id], field, Files(w, field)) else SnapOf(w)
      else if id in seen then seen[id] else Snap("", [], [])
  }

  /** The mutation itself, on a list just hydrated and told. */
  function Mutated(list: seq<Workspace>, seen: Seen, op: Op): Outcome {
    match op
    case Hydrate => Outcome(list, {}, seen)
    case Create(w) => if HasId(list, w.id) then Outcome(list, {}, seen)
      else Outcome(list + [w], {}, seen[w.id := SnapOf(w)])
    case Delete(id) => if !HasId(list, id) then Outcome(list, {}, seen)
      else Outcome(Removed(list, id), {Deleted(id)}, seen - {id})
    case Rename(id, name) =>
      var i := Index(list, id);
      if i == |list| || list[i].name == name then Outcome(list, {}, seen)
          else Outcome(list[i := list[i].(name := name)], {}, seen)
    case Upsert(w, preserveBundles) =>
      var next, i := Upserted(list, w, preserveBundles), Index(list, w.id);
      Outcome(if i < |list| then list[i := next]
        else list + [next], UpsertTells(seen, next), seen[w.id := SnapOf(next)])
    case Attach(w) =>
      if HasId(list, w.id) || NameTaken(list, w.name) then Outcome(list, {}, seen)
      else Outcome(list + [w], {Created(w.id)}, seen[w.id := SnapOf(w)])
    case Member(field, file, target, additive, from) =>
      var ids := Affected(list, field, file, target, additive, from);
      var r := Moved(list, field, file, target, additive, from);
      Outcome(r, set id | id in ids :: FilesChanged(id, field), MarkedField(seen, r, field, ids))
  }

  function SeenBy(s: System, tab: nat): Seen {
    if tab in s.seen then s.seen[tab] else map[]
  }

  /** One step of one tab: propagate what is stored, then mutate. */
  function Apply(s: System, e: Event): System {
    var o := Mutated(s.blob, Snaps(s.blob), e.op);
    System(o.blob, s.seen[e.tab := o.seen])
  }

  /** What the step tells the tab's listeners. */
  function Told(s: System, e: Event): set<Fire> {
    Changes(SeenBy(s, e.tab), Snaps(s.blob)) + Mutated(s.blob, Snaps(s.blob), e.op).told
  }

  // ---- the list ----

  lemma {:induction false} SnapsHold(list: seq<Workspace>)
    ensures forall id :: id in Snaps(list) <==> exists i :: 0 <= i < |list| && list[i].id == id
  {
    if list != [] {
      var n := |list| - 1;
      SnapsHold(list[..n]);
      forall id ensures id in Snaps(list) <==> exists i :: 0 <= i < |list| && list[i].id == id {
        if i :| 0 <= i < |list[..n]| && list[..n][i].id == id { assert list[i].id == id; }
        if i :| 0 <= i < n && list[i].id == id { assert list[..n][i].id == id; }
        if id == list[n].id { assert list[n].id == id; }
      }
    }
  }

  lemma {:induction false} SnapsAt(list: seq<Workspace>, i: nat)
    requires OnePerId(list) && i < |list|
    ensures list[i].id in Snaps(list) && Snaps(list)[list[i].id] == SnapOf(list[i])
  {
    var n := |list| - 1;
    if i < n {
      assert list[..n][i] == list[i];
      SnapsAt(list[..n], i);
    }
  }

  lemma SnapsAre(list: seq<Workspace>)
    requires OnePerId(list)
    ensures forall id :: id in Snaps(list) <==> HasId(list, id)
    ensures forall i :: 0 <= i < |list| ==> list[i].id in Snaps(list) && Snaps(list)[list[i].id] == SnapOf(list[i])
  {
    SnapsHold(list);
    forall i | 0 <= i < |list| ensures list[i].id in Snaps(list)
        && Snaps(list)[list[i].id] == SnapOf(list[i]) { SnapsAt(list, i); }
  }

  lemma SnapsSame(list: seq<Workspace>, view: Seen)
    requires OnePerId(list) && view.Keys == Snaps(list).Keys
    requires forall i :: 0 <= i < |list| ==> list[i].id in view && view[list[i].id] == SnapOf(list[i])
    ensures view == Snaps(list)
  {
    SnapsAre(list);
    forall id | id in view ensures view[id] == Snaps(list)[id] {
      assert HasId(list, id);
      var i := Index(list, id);
      assert list[i].id == id;
    }
  }

  lemma RowsStay(list: seq<Workspace>, r: seq<Workspace>)
    requires OnePerId(list) && |r| == |list| && forall i :: 0 <= i < |list| ==> r[i].id == list[i].id
    ensures OnePerId(r) && Snaps(r).Keys == Snaps(list).Keys
  {
    SnapsAre(list);
    SnapsAre(r);
    forall id ensures HasId(list, id) <==> HasId(r, id) { SameIds(list, r, id); }
  }

  // ---- each operation leaves the view exact, and tells of what it changed ----

  /** Every change from one view to the next is told; a workspace this tab creates is not news to it. */
  ghost predicate Tells(seen: Seen, next: Seen, told: set<Fire>, op: Op) {
    forall fire :: Calls(seen, next, fire) ==> fire in told || (op.Create? && fire == Created(op.w.id))
  }

  ghost predicate Settles(list: seq<Workspace>, op: Op) {
    var o := Mutated(list, Snaps(list), op);
    OnePerId(o.blob) && o.seen == Snaps(o.blob) && Tells(Snaps(list), o.seen, o.told, op)
  }

  lemma Appended(list: seq<Workspace>, w: Workspace)
    requires OnePerId(list) && !HasId(list, w.id)
    ensures OnePerId(list + [w]) && Snaps(list + [w]) == Snaps(list)[w.id := SnapOf(w)] && w.id !in Snaps(list)
  {
    SnapsAre(list);
    assert (list + [w])[..|list|] == list;
  }

  lemma NewTells(seen: Seen, w: Workspace, op: Op, told: set<Fire>)
    requires w.id !in seen && (Created(w.id) in told || (op.Create? && op.w == w))
    ensures Tells(seen, seen[w.id := SnapOf(w)], told, op)
  {
  }

  lemma CreateSettles(list: seq<Workspace>, op: Op)
    requires OnePerId(list) && (op.Create? || op.Attach?)
    ensures Settles(list, op)
  {
    if !HasId(list, op.w.id) {
      Appended(list, op.w);
      NewTells(Snaps(list), op.w, op, Mutated(list, Snaps(list), op).told + if op.Attach? then {Created(op.w.id)}
        else {});
    }
  }

  lemma OnePerIdLess(list: seq<Workspace>, i: nat)
    requires OnePerId(list) && i < |list|
    ensures OnePerId(list[..i] + list[i + 1..])
  {
    var r := list[..i] + list[i + 1..];
    forall j, k | 0 <= j < k < |r| ensures r[j].id != r[k].id {
      assert r[j] == list[if j < i then j else j + 1] && r[k] == list[if k < i then k else k + 1];
    }
  }

  function Cut(list: seq<Workspace>, at: nat): seq<Workspace>
    requires at < |list|
  {
    list[..at] + list[at + 1..]
  }

  lemma CutEarlier(list: seq<Workspace>, at: nat)
    requires at < |list| - 1
    ensures Cut(list, at) == Cut(list[..|list| - 1], at) + [list[|list| - 1]]
  {
    var n := |list| - 1;
    assert list[at + 1..] == list[..n][at + 1..] + [list[n]];
  }

  lemma SnapsPush(list: seq<Workspace>, w: Workspace)
    ensures Snaps(list + [w]) == Snaps(list)[w.id := SnapOf(w)]
  {
    assert (list + [w])[..|list|] == list;
  }

  lemma CutLast(list: seq<Workspace>)
    requires OnePerId(list) && list != []
    ensures var n := |list| - 1; Cut(list, n) == list[..n] && Snaps(list[..n]) == Snaps(list) - {list[n].id}
  {
    var init, w := list[..|list| - 1], list[|list| - 1];
    LastNotSeen(list);
    SnapsPush(init, w);
    PutThenTaken(Snaps(init), w.id, SnapOf(w));
  }

  lemma PutThenTaken(seen: Seen, id: string, snap: Snap)
    requires id !in seen
    ensures seen[id := snap] - {id} == seen
  {
  }

  lemma LastNotSeen(list: seq<Workspace>)
    requires OnePerId(list) && list != []
    ensures var n := |list| - 1;
            Cut(list, n) == list[..n] && list[..n] + [list[n]] == list && list[n].id !in Snaps(list[..n])
  {
    var init := list[..|list| - 1];
    forall i | 0 <= i < |init| ensures init[i].id != list[|list| - 1].id { assert init[i] == list[i]; }
    SnapsHold(init);
  }

  lemma PutAndTaken(seen: Seen, id: string, snap: Snap, other: string)
    requires id != other
    ensures (seen - {other})[id := snap] == seen[id := snap] - {other}
  {
  }

  lemma CutPushed(init: seq<Workspace>, last: Workspace, cut: seq<Workspace>, gone: string)
    requires last.id != gone && Snaps(cut) == Snaps(init) - {gone}
    ensures Snaps(cut + [last]) == Snaps(init + [last]) - {gone}
  {
    SnapsPush(cut, last);
    SnapsPush(init, last);
    PutAndTaken(Snaps(init), last.id, SnapOf(last), gone);
  }

  lemma {:induction false} CutSnaps(list: seq<Workspace>, at: nat)
    requires OnePerId(list) && at < |list|
    ensures Snaps(Cut(list, at)) == Snaps(list) - {list[at].id}
  {
    var n := |list| - 1;
    if at == n {
      CutLast(list);
    } else {
      CutEarlier(list, at);
      CutSnaps(list[..n], at);
      assert list == list[..n] + [list[n]];
      CutPushed(list[..n], list[n], Cut(list[..n], at), list[at].id);
    }
  }

  lemma DeleteSettles(list: seq<Workspace>, id: string)
    requires OnePerId(list)
    ensures Settles(list, Delete(id))
  {
    if HasId(list, id) {
      CutSnaps(list, Index(list, id));
      OnePerIdLess(list, Index(list, id));
    }
  }

  lemma Replaced(list: seq<Workspace>, i: nat, w: Workspace)
    requires OnePerId(list) && i < |list| && w.id == list[i].id
    ensures OnePerId(list[i := w]) && Snaps(list[i := w]) == Snaps(list)[w.id := SnapOf(w)]
  {
    var r := list[i := w];
    RowsStay(list, r);
    SnapsAre(list);
    var view := Snaps(list)[w.id := SnapOf(w)];
    assert view.Keys == Snaps(list).Keys;
    forall j | 0 <= j < |r| ensures view[r[j].id] == SnapOf(r[j]) {}
    SnapsSame(r, view);
  }

  lemma PutSame(seen: Seen, id: string, snap: Snap)
    requires id in seen && seen[id] == snap
    ensures seen[id := snap] == seen
  {
  }

  lemma RenameSettles(list: seq<Workspace>, id: string, name: string)
    requires OnePerId(list)
    ensures Settles(list, Rename(id, name))
  {
    if HasId(list, id) {
      var i := Index(list, id);
      Replaced(list, i, list[i].(name := name));
      SnapsAre(list);
      PutSame(Snaps(list), id, SnapOf(list[i]));
    }
  }

  lemma UpsertTellsAll(seen: Seen, w: Workspace, op: Op)
    ensures Tells(seen, seen[w.id := SnapOf(w)], UpsertTells(seen, w), op)
  {
    forall fire | Calls(seen, seen[w.id := SnapOf(w)], fire) ensures fire in UpsertTells(seen, w) {
      if fire.FilesChanged? && fire.field == Bundles { assert fire == FilesChanged(w.id, Bundles); }
    }
  }

  lemma UpsertSettles(list: seq<Workspace>, w: Workspace, preserveBundles: bool)
    requires OnePerId(list)
    ensures Settles(list, Upsert(w, preserveBundles))
  {
    var next, i := Upserted(list, w, preserveBundles), Index(list, w.id);
    UpsertTellsAll(Snaps(list), next, Upsert(w, preserveBundles));
    if i < |list| { Replaced(list, i, next); } else { Appended(list, next); }
  }

  /** A membership call changes the one field of the affected ids, all of them in the list. */
  lemma MembersOnly(list: seq<Workspace>, field: Field, file: string, target: Option<string>, additive: bool,
                    from: Option<string>)
    requires OnePerId(list)
    ensures var ids, r := Affected(list, field, file, target, additive, from),
              Moved(list, field, file, target, additive, from);
            FieldOnly(list, r, field, ids)
  {
    var ids, r := Affected(list, field, file, target, additive, from), Moved(list, field, file, target, additive, from);
    if !Passes(list, field, file, target) {
      MovedIsOneByOne(list, field, file, target, additive, from);
      forall i | 0 <= i < |list| ensures r[i] == WithFiles(list[i], field, Files(r[i], field))
          && (list[i].id !in ids ==> r[i] == list[i]) {
        assert list[i] in list;
      }
    }
  }

  predicate FieldOnly(list: seq<Workspace>, r: seq<Workspace>, field: Field, ids: set<string>) {
    && |r| == |list|
    && (forall i :: 0 <= i < |list| ==>
        r[i] == WithFiles(list[i], field, Files(r[i], field)) && (list[i].id !in ids ==> r[i] == list[i]))
  }

  /** An affected id is in the list, so every tab that has just hydrated has seen it. */
  lemma NoMissingSnapshot(list: seq<Workspace>, field: Field, file: string, target: Option<string>, additive: bool,
                          from: Option<string>)
    requires OnePerId(list)
    ensures Affected(list, field, file, target, additive, from) <= Snaps(list).Keys
  {
    SnapsAre(list);
    forall id | id in Affected(list, field, file, target, additive, from) ensures id in Snaps(list) {
      var w :| w in list && w.id == id;
      var i :| 0 <= i < |list| && list[i] == w;
    }
  }

  lemma MarkedSnaps(list: seq<Workspace>, r: seq<Workspace>, field: Field, ids: set<string>)
    requires OnePerId(list) && FieldOnly(list, r, field, ids) && ids <= Snaps(list).Keys
    ensures OnePerId(r) && MarkedField(Snaps(list), r, field, ids) == Snaps(r)
  {
    assert forall i :: 0 <= i < |list| ==> r[i].id == list[i].id;
    RowsStay(list, r);
    SnapsAre(list);
    var view := MarkedField(Snaps(list), r, field, ids);
    assert view.Keys == Snaps(list).Keys;
    forall i | 0 <= i < |r| ensures r[i].id in view
        && view[r[i].id] == SnapOf(r[i]) { MarkedAt(Snaps(list), list, r, field, ids, i); }
    SnapsSame(r, view);
  }

  lemma MarkedAt(seen: Seen, list: seq<Workspace>, r: seq<Workspace>, field: Field, ids: set<string>, i: nat)
    requires OnePerId(r) && FieldOnly(list, r, field, ids) && i < |list|
    requires list[i].id in seen && seen[list[i].id] == SnapOf(list[i])
    ensures r[i].id == list[i].id && r[i].id in MarkedField(seen, r, field, ids)
              && MarkedField(seen, r, field, ids)[r[i].id] == SnapOf(r[i])
  {
    IndexUnique(r, i);
  }

  lemma MarkedTells(seen: Seen, list: seq<Workspace>, field: Field, ids: set<string>, op: Op)
    requires ids <= seen.Keys
    ensures Tells(seen, MarkedField(seen, list, field, ids), set id | id in ids :: FilesChanged(id, field), op)
  {
    var next := MarkedField(seen, list, field, ids);
    var told := set id | id in ids :: FilesChanged(id, field);
    assert next.Keys == seen.Keys;
    forall fire | Calls(seen, next, fire) ensures fire in told {
      if fire.FilesChanged? && fire.id in ids { assert FilesChanged(fire.id, field) in told; }
    }
  }

  lemma MemberSettles(list: seq<Workspace>, op: Op)
    requires OnePerId(list) && op.Member?
    ensures Settles(list, op)
  {
    var ids := Affected(list, op.field, op.file, op.target, op.additive, op.from);
    var r := Moved(list, op.field, op.file, op.target, op.additive, op.from);
    MembersOnly(list, op.field, op.file, op.target, op.additive, op.from);
    NoMissingSnapshot(list, op.field, op.file, op.target, op.additive, op.from);
    MarkedSnaps(list, r, op.field, ids);
    MarkedTells(Snaps(list), r, op.field, ids, op);
  }

  lemma OpSettles(list: seq<Workspace>, op: Op)
    requires OnePerId(list)
    ensures Settles(list, op)
  {
    match op
    case Hydrate =>
    case Create(_) => CreateSettles(list, op);
    case Attach(_) => CreateSettles(list, op);
    case Delete(id) => DeleteSettles(list, id);
    case Rename(id, name) => RenameSettles(list, id, name);
    case Upsert(w, preserveBundles) => UpsertSettles(list, w, preserveBundles);
    case Member(_, _, _, _, _) => MemberSettles(list, op);
  }

  // ---- runs ----

  ghost predicate Inv(s: System) {
    OnePerId(s.blob)
  }

  function Run(s: System, es: seq<Event>): System {
    if es == [] then s else Apply(Run(s, es[..|es| - 1]), es[|es| - 1])
  }

  /**
   Told outright; or the tab made the workspace itself; or told the workspace went, and then that it came again
   unless this tab made it.
   */
  predicate Heard(told: set<Fire>, fire: Fire, op: Op) {
    || fire in told
    || (op.Create? && fire == Created(op.w.id))
    || (Deleted(fire.id) in told && (Created(fire.id) in told || (op.Create? && op.w.id == fire.id)))
  }

  lemma HeardEither(seen: Seen, now: Seen, next: Seen, fire: Fire, told: set<Fire>, op: Op)
    requires Calls(seen, next, fire)
    requires Tells(now, next, told, op) && forall f :: Calls(seen, now, f) ==> f in told
    ensures Heard(told, fire, op)
  {
    var id := fire.id;
    match fire
    case Created(_) => if id !in now { assert Calls(now, next, fire); } else { assert Calls(seen, now, fire); }
    case Deleted(_) => if id !in now { assert Calls(seen, now, fire); } else { assert Calls(now, next, fire); }
    case KeyChanged(_) =>
      if id in now {
        assert Calls(seen, now, fire) || Calls(now, next, fire);
      } else {
        assert Calls(seen, now, Deleted(id)) && Calls(now, next, Created(id));
      }
    case FilesChanged(_, field) =>
      if id in now {
        assert Calls(seen, now, fire) || Calls(now, next, fire);
      } else {
        assert Calls(seen, now, Deleted(id)) && Calls(now, next, Created(id));
      }
  }

  /**
   After any step of a tab, its view is the shared list, and its listeners heard in that step of every change
   to it. No other tab's view moves: nothing it has not been told of is taken for seen.
   */
  lemma StepTells(s: System, e: Event)
    requires Inv(s)
    ensures Inv(Apply(s, e)) && SeenBy(Apply(s, e), e.tab) == Snaps(Apply(s, e).blob)
    ensures forall fire :: Calls(SeenBy(s, e.tab), SeenBy(Apply(s, e), e.tab), fire) ==> Heard(Told(s, e), fire, e.op)
    ensures forall tab :: tab != e.tab ==> SeenBy(Apply(s, e), tab) == SeenBy(s, tab)
  {
    OpSettles(s.blob, e.op);
    var seen, now, next := SeenBy(s, e.tab), Snaps(s.blob), SeenBy(Apply(s, e), e.tab);
    ChangesAre(seen, now);
    forall fire | Calls(seen, next, fire) ensures Heard(Told(s, e), fire, e.op) {
      HeardEither(seen, now, next, fire, Told(s, e), e.op);
    }
  }

  lemma {:induction false} RunKeeps(s: System, es: seq<Event>)
    requires Inv(s)
    ensures Inv(Run(s, es))
  {
    if es != [] {
      RunKeeps(s, es[..|es| - 1]);
      StepTells(Run(s, es[..|es| - 1]), es[|es| - 1]);
    }
  }

  predicate HeardAt(s: System, es: seq<Event>, tab: nat, fire: Fire, n: nat)
    requires n < |es|
  {
    es[n].tab == tab && Heard(Told(Run(s, es[..n]), es[n]), fire, es[n].op)
  }

  /** The listener fires for this kind of change, whatever the workspace's coming and going. */
  predicate HeardInRun(s: System, es: seq<Event>, tab: nat, fire: Fire) {
    exists n: nat :: n < |es| && (HeardAt(s, es, tab, fire, n) || HeardAt(s, es, tab, Created(fire.id), n)
      || HeardAt(s, es, tab, Deleted(fire.id), n))
  }

  lemma HeardLonger(s: System, es: seq<Event>, tab: nat, fire: Fire)
    requires es != [] && HeardInRun(s, es[..|es| - 1], tab, fire)
    ensures HeardInRun(s, es, tab, fire)
  {
    var init := es[..|es| - 1];
    var n: nat :| n < |init| && (HeardAt(s, init, tab, fire, n) || HeardAt(s, init, tab, Created(fire.id), n)
        || HeardAt(s, init, tab, Deleted(fire.id), n));
    assert init[..n] == es[..n] && init[n] == es[n];
    assert HeardAt(s, es, tab, fire, n) || HeardAt(s, es, tab, Created(fire.id), n)
             || HeardAt(s, es, tab, Deleted(fire.id), n);
  }

  /**
   Over any run of any tabs: if a tab's view of a workspace's key, reports or bundles, or of its being there,
   differs at the end from the start, some step of that tab told its listeners of that kind of change, or that
   the workspace came or went.
   */
  lemma {:induction false} NoChangeUnheard(s: System, es: seq<Event>, tab: nat, fire: Fire)
    requires Inv(s) && Calls(SeenBy(s, tab), SeenBy(Run(s, es), tab), fire)
    ensures HeardInRun(s, es, tab, fire)
  {
    if es != [] {
      var init, e := es[..|es| - 1], es[|es| - 1];
      var t := Run(s, init);
      RunKeeps(s, init);
      StepTells(t, e);
      var a, b, c := SeenBy(s, tab), SeenBy(t, tab), SeenBy(Run(s, es), tab);
      var step := EitherHalf(a, b, c, fire);
      if step.0 {
        NoChangeUnheard(s, init, tab, step.1);
        HeardLonger(s, es, tab, step.1);
        SameKind(s, es, tab, fire, step.1);
      } else {
        assert e.tab == tab && Calls(b, c, step.1);
        assert HeardAt(s, es, tab, step.1, |es| - 1);
      }
    }
  }

  /** A change over two stretches is a change over one of them, of its kind or a coming or going. */
  lemma EitherHalf(a: Seen, b: Seen, c: Seen, fire: Fire) returns (half: (bool, Fire))
    requires Calls(a, c, fire)
    ensures half.1 == fire || half.1 == Created(fire.id) || half.1 == Deleted(fire.id)
    ensures if half.0 then Calls(a, b, half.1) else Calls(b, c, half.1)
  {
    var id := fire.id;
    if Calls(a, b, fire) { half := (true, fire); }
    else if Calls(b, c, fire) { half := (false, fire); }
    else { half := (true, Deleted(id)); }
  }

  lemma SameKind(s: System, es: seq<Event>, tab: nat, fire: Fire, other: Fire)
    requires HeardInRun(s, es, tab, other) && (other == fire || other == Created(fire.id) || other == Deleted(fire.id))
    ensures HeardInRun(s, es, tab, fire)
  {
    var n: nat :| n < |es| && (HeardAt(s, es, tab, other, n) || HeardAt(s, es, tab, Created(other.id), n)
        || HeardAt(s, es, tab, Deleted(other.id), n));
    assert HeardAt(s, es, tab, fire, n) || HeardAt(s, es, tab, Created(fire.id), n)
             || HeardAt(s, es, tab, Deleted(fire.id), n);
  }
}
