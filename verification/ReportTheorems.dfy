/** What the report store of one tab promises over whole runs, and where it does not. */
module ReportTheorems {
  import opened Options
  import opened KeptTexts
  import opened ReportCache

  ghost predicate ClearRun(s: Store, es: seq<Event>) {
    forall n :: 0 <= n < |es| ==> Clear(Run(s, es[..n]), es[n])
  }

  lemma {:induction false} RunKeeps(s: Store, es: seq<Event>)
    requires Inv(s) && ClearRun(s, es)
    ensures Inv(Run(s, es))
  {
    if es != [] {
      var n := |es| - 1;
      assert forall k :: 0 <= k <= n ==> es[..n][..k] == es[..k];
      RunKeeps(s, es[..n]);
      StepKeeps(Run(s, es[..n]), es[n]);
    }
  }

  /**
   In every clear run from a load, a text kept under a name is what the name's entry decodes to, except
   while a write of it has changed the disk and not yet said so; and the texts kept fit the bound, one a name.
   */
  lemma KeptIsOnDisk(s: Store, es: seq<Event>, name: string, text: string)
    requires JustLoaded(s) && ClearRun(s, es)
    requires Holds(Run(s, es).kept, name, text) && !InWindow(Run(s, es), name)
    ensures OnDisk(Run(s, es), name) == Some(text) && text != ""
    ensures OneEach(Run(s, es).kept) && Chars(Run(s, es).kept) <= Run(s, es).most
  {
    assert Inv(s);
    RunKeeps(s, es);
    var x := Slot(name, text);
    assert x in Run(s, es).kept;
  }

  /** Reads, too: one that would keep what it found holds what is still on disk. */
  lemma KeepingReadIsCurrent(s: Store, es: seq<Event>, id: nat)
    requires JustLoaded(s) && ClearRun(s, es)
    requires var t := Run(s, es); id in t.reading && Gen(t, t.reading[id].name) == t.reading[id].startedAt
    requires var t := Run(s, es);
             t.reading[id].got.Some? && t.reading[id].got.value.Some? && t.reading[id].got.value.value != ""
    requires !InWindow(Run(s, es), Run(s, es).reading[id].name)
    ensures OnDisk(Run(s, es), Run(s, es).reading[id].name) == Run(s, es).reading[id].got.value
  {
    assert Inv(s);
    RunKeeps(s, es);
    assert StillThere(Run(s, es), Run(s, es).reading[id]);
  }

  /** A quarantine removes nothing but an entry that is empty when it is removed, whatever was saved meanwhile. */
  lemma QuarantineTakesOnlyEmpty(s: Store, es: seq<Event>)
    requires JustLoaded(s) && ClearRun(s, es)
    ensures var t := Run(s, es);
            forall name :: OnDisk(t, name).Some? && OnDisk(t, name) != Some("")
                ==> OnDisk(AfterDrop(t), name) == OnDisk(t, name)
  {
    assert Inv(s);
    RunKeeps(s, es);
  }

  /** A text saved is served from memory at once if it fits, and it is what the disk holds. */
  lemma SavedTextIsKept(s: Store, name: string)
    requires Inv(s) && Holding(s, name, Written) && s.held[name].job.Texts?
    ensures var t := AfterFinish(s, name); var text := s.held[name].job.text;
            && OnDisk(t, name) == Some(text) && (Holds(t.kept, name, text) <==> |text| <= s.most)
            && (|text| <= s.most ==> forall keep :: AfterStart(t, name, keep).reading == t.reading)
  {
    var text := s.held[name].job.text;
    KeepHolds(s.kept, s.most, name, text);
    var kept := Keep(s.kept, s.most, name, text);
    if |text| <= s.most {
      var i :| 0 <= i < |kept| && kept[i] == Slot(name, text);
      assert Has(kept, name);
    }
  }

  /** A save of bytes or a removal ends in agreement exactly when nothing else is kept under its name by then. */
  lemma FinishKeepsIff(s: Store, name: string)
    requires Inv(s) && Holding(s, name, Written) && !s.held[name].job.Texts?
    ensures Inv(AfterFinish(s, name)) <==>
              (forall x :: x in s.kept && x.name == name ==> Outcome(s.held[name].job) == Some(x.text))
  {
    if forall x :: x in s.kept && x.name == name ==> Outcome(s.held[name].job) == Some(x.text) {
      BumpKeeps(s, name);
      WorkKeeps(s.(gens := Bumped(s, name)), name, AfterFinish(s, name));
    } else {
      var x :| x in s.kept && x.name == name && Outcome(s.held[name].job) != Some(x.text);
      assert x in AfterFinish(s, name).kept && !InWindow(AfterFinish(s, name), name);
      assert OnDisk(AfterFinish(s, name), name) != Some(x.text);
    }
  }

  /**
   A save of bytes that fails ends in agreement exactly when what is kept under its name is what the failure
   left there.
   */
  lemma CatchKeepsIff(s: Store, name: string)
    requires Inv(s) && Holding(s, name, Broken) && s.held[name].job.Bytes?
    ensures Inv(AfterCatch(s, name)) <==>
              (forall x :: x in s.kept && x.name == name ==> OnDisk(s, name) == Some(x.text))
  {
    var t := AfterCatch(s, name);
    if forall x :: x in s.kept && x.name == name ==> OnDisk(s, name) == Some(x.text) {
      BumpKeeps(s, name);
      WorkKeeps(s.(gens := Bumped(s, name)), name, t);
    } else {
      var x :| x in s.kept && x.name == name && OnDisk(s, name) != Some(x.text);
      assert x in t.kept && !InWindow(t, name) && OnDisk(t, name) != Some(x.text);
    }
  }

  /**
   A sweep that loses its entry keeps agreement exactly when no text of it is kept, nor in a read that may keep
   it.
   */
  lemma FailSweepKeepsIff(s: Store)
    requires Inv(s) && s.sweeping.Some? && s.sweeping.value in s.disk
    ensures Inv(AfterFailSweep(s, true)) <==> Unread(s, s.sweeping.value)
  {
    SweepChange(s, None);
    LossKeepsIff(s.(sweeping := None), s.sweeping.value);
  }

  // ---- a premise on what overlaps, which makes every finish clear ----

  predicate Waiting(s: Store, name: string) {
    exists n :: 0 <= n < |s.waiting| && s.waiting[n].0 == name && !s.waiting[n].1.Texts?
  }

  /** A save of bytes or a removal of the name has been called and has not ended. */
  predicate Pending(s: Store, name: string) {
    Waiting(s, name) || (name in s.held && !s.held[name].job.Texts?)
  }

  /**
   While a save of bytes or a removal of a name is pending, no read keeps a text of it and no save of a text of it
   ends; and while a sweep is at an entry, no read of it starts.
   */
  predicate Undisturbed(s: Store, e: Event) {
    match e
    case SettleRead(id) =>
      id in s.reading && s.reading[id].keep && Gen(s, s.reading[id].name) == s.reading[id].startedAt ==>
          !Pending(s, s.reading[id].name)
    case Finish(name) => Holding(s, name, Written) && s.held[name].job.Texts? ==> !Waiting(s, name)
    case StartRead(name, _) => s.sweeping != Some(name)
    case _ => true
  }

  ghost predicate NoneKeptWhilePending(s: Store) {
    forall x :: x in s.kept ==> !Pending(s, x.name)
  }

  /** Of the entry a sweep is at no text is kept, and no read that found one is still current. */
  ghost predicate SweepUnread(s: Store) {
    s.sweeping.Some? ==> (forall x :: x in s.kept ==> x.name != s.sweeping.value) && AllStale(s, s.sweeping.value)
  }

  lemma StaysUnread(s: Store, t: Store)
    requires SweepUnread(s) && t.sweeping == s.sweeping
    requires forall x :: x in t.kept ==> x in s.kept || Some(x.name) != s.sweeping
    requires s.sweeping.Some? ==> NoneNew(s, t, s.sweeping.value)
    requires forall name :: Gen(s, name) <= Gen(t, name)
    ensures SweepUnread(t)
  {
  }

  lemma BeginUnread(s: Store, name: string)
    requires Inv(s) && SweepUnread(s)
    ensures SweepUnread(AfterBeginSweep(s, name))
  {
    if AfterBeginSweep(s, name) != s {
      BumpKeeps(s, name);
      ForgetIs(s.kept, name);
    }
  }

  lemma SettleUnread(s: Store, id: nat)
    requires Inv(s) && SweepUnread(s)
    ensures SweepUnread(AfterSettle(s, id))
  {
    GensGrow(s, SettleRead(id));
    SettleKeepsOther(s, id);
    if s.sweeping.Some? { LooksAtNothingNew(s, SettleRead(id), s.sweeping.value); }
    StaysUnread(s, AfterSettle(s, id));
  }

  lemma SettleKeepsOther(s: Store, id: nat)
    requires Inv(s) && SweepUnread(s)
    ensures forall x :: x in AfterSettle(s, id).kept ==> x in s.kept || Some(x.name) != s.sweeping
  {
    if AfterSettle(s, id).kept != s.kept {
      var r := s.reading[id];
      KeepHolds(s.kept, s.most, r.name, r.got.value.value);
      assert Some(r.name) != s.sweeping;
    }
  }

  lemma QuietUnread(s: Store, e: Event)
    requires Inv(s) && SweepUnread(s) && Undisturbed(s, e)
    requires !(e.BeginSweep? || e.EndSweep? || e.FailSweep? || e.SettleRead? || e.Finish?)
    ensures SweepUnread(Apply(s, e))
  {
    KeepsNothingNew(s, e);
    GensGrow(s, e);
    if s.sweeping.Some? { ReadsNothingSwept(s, e, s.sweeping.value); }
    StaysUnread(s, Apply(s, e));
  }

  lemma GensGrow(s: Store, e: Event)
    requires !(e.BeginSweep? || e.EndSweep? || e.FailSweep?)
    ensures Apply(s, e).sweeping == s.sweeping && forall name :: Gen(s, name) <= Gen(Apply(s, e), name)
  {
  }

  /** Reads of the entry a sweep is at: none but those there before. */
  ghost predicate NoneNew(s: Store, t: Store, name: string) {
    forall id :: id in t.reading && t.reading[id].name == name ==>
                    id in s.reading && s.reading[id].name == name && s.reading[id].startedAt == t.reading[id].startedAt
  }

  lemma ReadsNothingSwept(s: Store, e: Event, name: string)
    requires Undisturbed(s, e) && s.sweeping == Some(name) && !(e.BeginSweep? || e.EndSweep? || e.FailSweep?)
    ensures NoneNew(s, Apply(s, e), name)
  {
    if e.StartRead? {
      StartsNothingSwept(s, e.name, e.keep, name);
    } else if e.Snapshot? || e.SettleRead? || e.TakeQuarantine? {
      LooksAtNothingNew(s, e, name);
    } else {
      assert Apply(s, e).reading == s.reading;
    }
  }

  lemma StartsNothingSwept(s: Store, other: string, keep: bool, name: string)
    requires other != name
    ensures NoneNew(s, AfterStart(s, other, keep), name)
  {
  }

  lemma LooksAtNothingNew(s: Store, e: Event, name: string)
    requires e.Snapshot? || e.SettleRead? || e.TakeQuarantine?
    ensures NoneNew(s, Apply(s, e), name)
  {
  }

  lemma StepUnread(s: Store, e: Event)
    requires Inv(s) && SweepUnread(s) && Undisturbed(s, e)
    ensures SweepUnread(Apply(s, e))
  {
    match e
    case BeginSweep(name) => BeginUnread(s, name);
    case EndSweep =>
    case FailSweep(_) =>
    case SettleRead(id) => SettleUnread(s, id);
    case Finish(name) => if s.sweeping.Some? { assert AfterFinish(s, name) == s; }
    case _ => QuietUnread(s, e);
  }

  lemma UndisturbedIsClear(s: Store, e: Event)
    requires NoneKeptWhilePending(s) && SweepUnread(s)
    ensures Clear(s, e)
  {
    if e.Finish? || e.Catch? {
      if Has(s.kept, e.name) {
        var i :| 0 <= i < |s.kept| && s.kept[i].name == e.name;
        assert s.kept[i] in s.kept && !Pending(s, e.name);
      }
    }
  }

  lemma FewerPending(s: Store, t: Store)
    requires NoneKeptWhilePending(s) && (forall x :: x in t.kept ==> x in s.kept)
    requires forall name: string :: Pending(t, name) ==> Pending(s, name)
    ensures NoneKeptWhilePending(t)
  {
  }

  lemma CallUndisturbed(s: Store, name: string, job: Job)
    requires Inv(s) && NoneKeptWhilePending(s)
    ensures NoneKeptWhilePending(AfterCall(s, name, job))
  {
    var t := AfterCall(s, name, job);
    if t == s { return; }
    ForgetIs(s.kept, name);
    forall n: string | Pending(t, n) && (n != name || job.Texts?) ensures Pending(s, n) {
      if Waiting(t, n) {
        var k :| 0 <= k < |t.waiting| && t.waiting[k].0 == n && !t.waiting[k].1.Texts?;
        if k < |s.waiting| { assert t.waiting[k] == s.waiting[k]; }
      }
    }
    assert forall x :: x in t.kept ==> x in s.kept && (x.name != name || job.Texts?);
  }

  lemma LockUndisturbed(s: Store, at: nat)
    requires NoneKeptWhilePending(s)
    ensures NoneKeptWhilePending(AfterLock(s, at))
  {
    var t := AfterLock(s, at);
    if t != s {
      forall name: string | Pending(t, name) ensures Pending(s, name) {
        if Waiting(t, name) {
          var n :| 0 <= n < |t.waiting| && t.waiting[n].0 == name && !t.waiting[n].1.Texts?;
          assert t.waiting[n] == s.waiting[if n < at then n else n + 1];
        } else if name == s.waiting[at].0 {
          assert s.waiting[at].1 == t.held[name].job;
          assert Waiting(s, name);
        }
      }
      FewerPending(s, t);
    }
  }

  lemma KeepUndisturbed(s: Store, t: Store, name: string, text: string)
    requires Inv(s) && NoneKeptWhilePending(s) && t.kept == Keep(s.kept, s.most, name, text) && !Pending(t, name)
    requires forall n: string :: Pending(t, n) ==> Pending(s, n)
    ensures NoneKeptWhilePending(t)
  {
    KeepHolds(s.kept, s.most, name, text);
  }

  lemma FinishUndisturbed(s: Store, name: string)
    requires Inv(s) && NoneKeptWhilePending(s) && Undisturbed(s, Finish(name))
    ensures NoneKeptWhilePending(AfterFinish(s, name))
  {
    var t := AfterFinish(s, name);
    assert t.waiting == s.waiting;
    assert forall n: string :: Pending(t, n) ==> Pending(s, n);
    if Holding(s, name, Written) && s.held[name].job.Texts? {
      KeepUndisturbed(s, t, name, s.held[name].job.text);
    } else {
      FewerPending(s, t);
    }
  }

  lemma SettleUndisturbed(s: Store, id: nat)
    requires Inv(s) && NoneKeptWhilePending(s) && Undisturbed(s, SettleRead(id))
    ensures NoneKeptWhilePending(AfterSettle(s, id))
  {
    var t := AfterSettle(s, id);
    assert forall n: string :: Pending(t, n) == Pending(s, n);
    if id in s.reading && t.kept != s.kept {
      KeepUndisturbed(s, t, s.reading[id].name, s.reading[id].got.value.value);
    } else {
      FewerPending(s, t);
    }
  }

  /** Steps that keep nothing new and have nothing more pending. */
  lemma QuietUndisturbed(s: Store, e: Event)
    requires Inv(s) && NoneKeptWhilePending(s)
    requires !(e.Call? || e.Lock? || e.SettleRead? || e.Finish?)
    ensures NoneKeptWhilePending(Apply(s, e))
  {
    HoldsNothingNew(s, e);
    KeepsNothingNew(s, e);
    PendingNoMore(s, Apply(s, e));
    FewerPending(s, Apply(s, e));
  }

  lemma PendingNoMore(s: Store, t: Store)
    requires t.waiting == s.waiting && forall n: string :: n in t.held ==> n in s.held && t.held[n].job == s.held[n].job
    ensures forall n: string :: Pending(t, n) ==> Pending(s, n)
  {
  }

  lemma HoldsNothingNew(s: Store, e: Event)
    requires !(e.Call? || e.Lock? || e.SettleRead? || e.Finish?)
    ensures Apply(s, e).waiting == s.waiting
    ensures forall n: string :: n in Apply(s, e).held ==> n in s.held && Apply(s, e).held[n].job == s.held[n].job
  {
    if e.Abort? || e.Write? || e.Break? || e.Catch? || e.Clean? {
      HoldsSameJobs(s, e);
    } else {
      assert Apply(s, e).held == s.held;
    }
  }

  lemma HoldsSameJobs(s: Store, e: Event)
    requires e.Abort? || e.Write? || e.Break? || e.Catch? || e.Clean?
    ensures forall n: string :: n in Apply(s, e).held ==> n in s.held && Apply(s, e).held[n].job == s.held[n].job
  {
  }

  lemma KeepsNothingNew(s: Store, e: Event)
    requires Inv(s)
    requires !(e.SettleRead? || e.Finish?)
    ensures forall x :: x in Apply(s, e).kept ==> x in s.kept
  {
    match e
    case StartRead(name, _) => TouchIs(s.kept, name);
    case Call(name, _) => ForgetIs(s.kept, name);
    case TakeQuarantine(id) => if id in s.reading { ForgetIs(s.kept, s.reading[id].name); }
    case BeginSweep(name) => ForgetIs(s.kept, name);
    case Catch(name) => ForgetIs(s.kept, name);
    case _ =>
  }

  lemma StepUndisturbed(s: Store, e: Event)
    requires Inv(s) && NoneKeptWhilePending(s) && Undisturbed(s, e)
    ensures NoneKeptWhilePending(Apply(s, e))
  {
    match e
    case Call(name, job) => CallUndisturbed(s, name, job);
    case Lock(at) => LockUndisturbed(s, at);
    case SettleRead(id) => SettleUndisturbed(s, id);
    case Finish(name) => FinishUndisturbed(s, name);
    case _ => QuietUndisturbed(s, e);
  }

  ghost predicate UndisturbedRun(s: Store, es: seq<Event>) {
    forall n :: 0 <= n < |es| ==> Undisturbed(Run(s, es[..n]), es[n])
  }

  /**
   Where saves of bytes and removals of a name overlap no keeping read and no end of a text save of it, and no read
   starts on an entry being swept, all agrees in every run, whatever fails.
   */
  lemma {:induction false} UndisturbedRunAgrees(s: Store, es: seq<Event>)
    requires JustLoaded(s) && UndisturbedRun(s, es)
    ensures Inv(Run(s, es)) && NoneKeptWhilePending(Run(s, es)) && SweepUnread(Run(s, es))
  {
    if es != [] {
      var n := |es| - 1;
      assert forall k :: 0 <= k <= n ==> es[..n][..k] == es[..k];
      UndisturbedRunAgrees(s, es[..n]);
      UndisturbedIsClear(Run(s, es[..n]), es[n]);
      StepKeeps(Run(s, es[..n]), es[n]);
      StepUndisturbed(Run(s, es[..n]), es[n]);
      StepUnread(Run(s, es[..n]), es[n]);
    }
  }

  // ---- what the premise is for ----

  lemma RunOn(s: Store, es: seq<Event>, e: Event, t: Store, u: Store)
    requires Run(s, es) == t && Apply(t, e) == u
    ensures Run(s, es + [e]) == u
  {
    assert (es + [e])[..|es|] == es;
  }

  lemma KeepFirst(most: nat, name: string, text: string)
    requires |text| <= most
    ensures Keep([], most, name, text) == [Slot(name, text)] && Forget([], name) == []
  {
    LoneChars(Slot(name, text));
    assert Forget([], name) + [Slot(name, text)] == [Slot(name, text)];
  }

  /** A tab just loaded over the one report "r". */
  const LOADED := Store(9, map["r" := "old"], [], map["r" := 0], map[], 0, map[], [], map[], None, None)
  const SAVING := LOADED.(gens := map["r" := 1], waiting := [("r", Bytes("new"))])
  const READ := SAVING.(nextRead := 1, kept := [Slot("r", "old")])

  /** The read starts after the call and keeps what it finds. */
  lemma ReadAfterTheCall()
    ensures Run(LOADED, [Call("r", Bytes("new")), StartRead("r", true), Snapshot(0), SettleRead(0)]) == READ
  {
    var started := SAVING.(reading := map[0 := Read("r", 1, true, None)], inFlight := map["r" := 0], nextRead := 1);
    var looked := started.(reading := map[0 := Read("r", 1, true, Some(Some("old")))]);
    KeepFirst(9, "r", "old");
    assert AfterCall(LOADED, "r", Bytes("new")) == SAVING;
    RunOn(LOADED, [], Call("r", Bytes("new")), LOADED, SAVING);
    assert AfterStart(SAVING, "r", true) == started;
    RunOn(LOADED, [Call("r", Bytes("new"))], StartRead("r", true), SAVING, started);
    assert AfterSnapshot(started, 0) == looked;
    RunOn(LOADED, [Call("r", Bytes("new")), StartRead("r", true)], Snapshot(0), started, looked);
    assert AfterSettle(looked, 0) == READ;
    RunOn(LOADED, [Call("r", Bytes("new")), StartRead("r", true), Snapshot(0)], SettleRead(0), looked, READ);
    assert [Call("r", Bytes("new")), StartRead("r", true), Snapshot(0)] + [SettleRead(0)]
        == [Call("r", Bytes("new")), StartRead("r", true), Snapshot(0), SettleRead(0)];
  }

  lemma ByteSaveLocks(t: Store, text: string)
    requires t.waiting == [("r", Bytes(text))] && t.held == map[] && t.quarantine.None? && t.sweeping.None?
    ensures AfterLock(t, 0) == t.(waiting := [], held := map["r" := Save(Bytes(text), Working)])
  {
    assert AfterLock(t, 0).waiting == [];
  }

  /** A save of bytes that gets its lock, writes and ends forgets nothing on the way. */
  lemma ByteSaveEnds(s: Store, es: seq<Event>, t: Store, text: string)
    requires Run(s, es) == t && t.waiting == [("r", Bytes(text))] && t.held == map[] && t.quarantine.None?
               && t.sweeping.None?
    ensures var u := Run(s, es + [Lock(0)] + [Write("r")] + [Finish("r")]);
            OnDisk(u, "r") == Some(text) && u.kept == t.kept && u.held == map[] && u.waiting == []
  {
    var locked := AfterLock(t, 0);
    ByteSaveLocks(t, text);
    RunOn(s, es, Lock(0), t, locked);
    var wrote := AfterWrite(locked, "r");
    RunOn(s, es + [Lock(0)], Write("r"), locked, wrote);
    RunOn(s, es + [Lock(0)] + [Write("r")], Finish("r"), wrote, AfterFinish(wrote, "r"));
    ByteSaveWrites(locked, text);
  }

  lemma ByteSaveWrites(t: Store, text: string)
    requires t.waiting == [] && t.held == map["r" := Save(Bytes(text), Working)]
    ensures var u := AfterFinish(AfterWrite(t, "r"), "r");
            OnDisk(u, "r") == Some(text) && u.kept == t.kept && u.held == map[] && u.waiting == []
  {
    assert AfterWrite(t, "r").held == map["r" := Save(Bytes(text), Written)];
  }

  /** A read that starts after saveFileBytes is called and ends before its write shows keeps the old text for good. */
  lemma ReadDuringByteSaveStaysStale()
    ensures JustLoaded(LOADED)
    ensures var t := Run(LOADED, [Call("r", Bytes("new")), StartRead("r", true), Snapshot(0), SettleRead(0), Lock(0),
              Write("r"), Finish("r")]);
            OnDisk(t, "r") == Some("new") && Holds(t.kept, "r", "old") && t.held == map[] && t.waiting == []
  {
    ReadAfterTheCall();
    var es := [Call("r", Bytes("new")), StartRead("r", true), Snapshot(0), SettleRead(0)];
    ByteSaveEnds(LOADED, es, READ, "new");
    assert es + [Lock(0)] + [Write("r")] + [Finish("r")]
        == [Call("r", Bytes("new")), StartRead("r", true), Snapshot(0), SettleRead(0), Lock(0), Write("r"),
          Finish("r")];
  }

  const FAILING := READ.(waiting := [], held := map["r" := Save(Bytes("new"), Working)])
  const BROKEN := FAILING.(held := map["r" := Save(Bytes("new"), Broken)], disk := map["r" := ""])
  const CAUGHT := BROKEN.(held := map["r" := Save(Bytes("new"), Failed)], gens := map["r" := 2])

  lemma ByteSaveFails()
    ensures AfterLock(READ, 0) == FAILING && AfterBreak(FAILING, "r", Some("")) == BROKEN
              && AfterCatch(BROKEN, "r") == CAUGHT
    ensures OnDisk(AfterClean(CAUGHT, "r"), "r") == None && Holds(AfterClean(CAUGHT, "r").kept, "r", "old")
  {
    assert AfterLock(READ, 0).waiting == FAILING.waiting;
    assert AfterBreak(FAILING, "r", Some("")).disk == BROKEN.disk;
    assert AfterCatch(BROKEN, "r").gens == CAUGHT.gens;
    assert CAUGHT.kept[0] == Slot("r", "old");
  }

  lemma SaveEvents(s: Store, at: nat, name: string, left: Option<string>)
    ensures Apply(s, Lock(at)) == AfterLock(s, at) && Apply(s, Break(name, left)) == AfterBreak(s, name, left)
    ensures Apply(s, Catch(name)) == AfterCatch(s, name) && Apply(s, Clean(name)) == AfterClean(s, name)
  {
  }

  /** Two events on. */
  lemma RunOnTwo(s: Store, es: seq<Event>, d: Event, e: Event, t: Store, u: Store, v: Store)
    requires Run(s, es) == t && Apply(t, d) == u && Apply(u, e) == v
    ensures Run(s, es + [d] + [e]) == v
  {
    RunOn(s, es, d, t, u);
    RunOn(s, es + [d], e, u, v);
  }

  /** So does one whose save then fails and leaves nothing. */
  lemma FailedByteSaveStaysStale()
    ensures var t := Run(LOADED, [Call("r", Bytes("new")), StartRead("r", true), Snapshot(0), SettleRead(0),
                                  Lock(0), Break("r", Some("")), Catch("r"), Clean("r")]);
            OnDisk(t, "r") == None && Holds(t.kept, "r", "old")
  {
    var es := [Call("r", Bytes("new")), StartRead("r", true), Snapshot(0), SettleRead(0)];
    ReadAfterTheCall();
    ByteSaveFails();
    SaveEvents(READ, 0, "r", None);
    SaveEvents(FAILING, 0, "r", Some(""));
    SaveEvents(BROKEN, 0, "r", None);
    SaveEvents(CAUGHT, 0, "r", None);
    RunOnTwo(LOADED, es, Lock(0), Break("r", Some("")), READ, FAILING, BROKEN);
    RunOnTwo(LOADED, es + [Lock(0)] + [Break("r", Some(""))], Catch("r"), Clean("r"), BROKEN, CAUGHT,
      AfterClean(CAUGHT, "r"));
    assert es + [Lock(0)] + [Break("r", Some(""))] + [Catch("r")] + [Clean("r")]
        == [Call("r", Bytes("new")), StartRead("r", true), Snapshot(0), SettleRead(0),
            Lock(0), Break("r", Some("")), Catch("r"), Clean("r")];
  }

  const BOTH := LOADED.(gens := map["r" := 2], waiting := [("r", Texts("mid")), ("r", Bytes("new"))])
  const KEPT := LOADED.(gens := map["r" := 3], waiting := [("r", Bytes("new"))], disk := map["r" := "mid"],
    kept := [Slot("r", "mid")])

  lemma BothCalled()
    ensures Run(LOADED, [Call("r", Texts("mid")), Call("r", Bytes("new"))]) == BOTH
  {
    var one := LOADED.(gens := map["r" := 1], waiting := [("r", Texts("mid"))]);
    KeepFirst(9, "r", "mid");
    assert AfterCall(LOADED, "r", Texts("mid")) == one;
    RunOn(LOADED, [], Call("r", Texts("mid")), LOADED, one);
    assert AfterCall(one, "r", Bytes("new")) == BOTH;
    RunOn(LOADED, [Call("r", Texts("mid"))], Call("r", Bytes("new")), one, BOTH);
    assert [Call("r", Texts("mid"))] + [Call("r", Bytes("new"))] == [Call("r", Texts("mid")), Call("r", Bytes("new"))];
  }

  lemma TextSaveEnds(es: seq<Event>)
    requires Run(LOADED, es) == BOTH
    ensures Run(LOADED, es + [Lock(0)] + [Write("r")] + [Finish("r")]) == KEPT
  {
    TextSaveSteps();
    RunOn(LOADED, es, Lock(0), BOTH, LOCKED);
    RunOn(LOADED, es + [Lock(0)], Write("r"), LOCKED, WROTE);
    RunOn(LOADED, es + [Lock(0)] + [Write("r")], Finish("r"), WROTE, KEPT);
  }

  const LOCKED := BOTH.(waiting := [("r", Bytes("new"))], held := map["r" := Save(Texts("mid"), Working)])
  const WROTE := LOCKED.(held := map["r" := Save(Texts("mid"), Written)], disk := map["r" := "mid"])

  lemma TextSaveSteps()
    ensures AfterLock(BOTH, 0) == LOCKED && AfterWrite(LOCKED, "r") == WROTE && AfterFinish(WROTE, "r") == KEPT
  {
    KeepFirst(9, "r", "mid");
    assert AfterLock(BOTH, 0) == LOCKED;
    assert AfterWrite(LOCKED, "r") == WROTE;
    assert AfterFinish(WROTE, "r") == KEPT;
  }

  /** So does the text of a saveFile still waiting or at work when saveFileBytes is called. */
  lemma TextSaveUnderByteSaveStaysStale()
    ensures var t := Run(LOADED, [Call("r", Texts("mid")), Call("r", Bytes("new")), Lock(0), Write("r"), Finish("r"),
              Lock(0), Write("r"), Finish("r")]);
            OnDisk(t, "r") == Some("new") && Holds(t.kept, "r", "mid") && t.held == map[] && t.waiting == []
  {
    BothCalled();
    var calls := [Call("r", Texts("mid")), Call("r", Bytes("new"))];
    TextSaveEnds(calls);
    ByteSaveEnds(LOADED, calls + [Lock(0)] + [Write("r")] + [Finish("r")], KEPT, "new");
    assert calls + [Lock(0)] + [Write("r")] + [Finish("r")] + [Lock(0)] + [Write("r")] + [Finish("r")]
        == [Call("r", Texts("mid")), Call("r", Bytes("new")), Lock(0), Write("r"), Finish("r"), Lock(0), Write("r"),
          Finish("r")];
  }

  const SWEEPING := LOADED.(gens := map["r" := 1], sweeping := Some("r"))
  const SWEPT_READ := SWEEPING.(nextRead := 1, kept := [Slot("r", "old")])

  /**
   A read that starts while a sweep is at its entry keeps the text for good when the sweep's write then loses
   the entry.
   */
  lemma FailedSweepStaysStale()
    ensures JustLoaded(LOADED)
    ensures var t := Run(LOADED, [BeginSweep("r"), StartRead("r", true), Snapshot(0), SettleRead(0), FailSweep(true)]);
            OnDisk(t, "r") == None && Holds(t.kept, "r", "old") && t.sweeping == None && t.reading == map[]
  {
    var es := [BeginSweep("r"), StartRead("r", true), Snapshot(0), SettleRead(0)];
    ReadUnderSweep();
    RunOn(LOADED, es, FailSweep(true), SWEPT_READ, AfterFailSweep(SWEPT_READ, true));
    assert es + [FailSweep(true)] == [BeginSweep("r"), StartRead("r", true), Snapshot(0), SettleRead(0),
             FailSweep(true)];
  }

  lemma ReadUnderSweep()
    ensures Run(LOADED, [BeginSweep("r"), StartRead("r", true), Snapshot(0), SettleRead(0)]) == SWEPT_READ
  {
    var started := SWEEPING.(reading := map[0 := Read("r", 1, true, None)], inFlight := map["r" := 0], nextRead := 1);
    var looked := started.(reading := map[0 := Read("r", 1, true, Some(Some("old")))]);
    KeepFirst(9, "r", "old");
    assert AfterBeginSweep(LOADED, "r") == SWEEPING;
    RunOn(LOADED, [], BeginSweep("r"), LOADED, SWEEPING);
    assert AfterStart(SWEEPING, "r", true) == started;
    RunOn(LOADED, [BeginSweep("r")], StartRead("r", true), SWEEPING, started);
    assert AfterSnapshot(started, 0) == looked;
    RunOn(LOADED, [BeginSweep("r"), StartRead("r", true)], Snapshot(0), started, looked);
    assert AfterSettle(looked, 0) == SWEPT_READ;
    RunOn(LOADED, [BeginSweep("r"), StartRead("r", true), Snapshot(0)], SettleRead(0), looked, SWEPT_READ);
    assert [BeginSweep("r"), StartRead("r", true), Snapshot(0)] + [SettleRead(0)]
        == [BeginSweep("r"), StartRead("r", true), Snapshot(0), SettleRead(0)];
  }
}
