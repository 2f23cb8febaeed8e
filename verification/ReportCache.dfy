/**
 The report store of one tab (client/storage.js): what is on disk, the texts
 kept, a write generation per name, reads and writes under way, and the removal
 of an entry found empty. Events are the stretches of code between awaits; each
 name's writes take turns under its lock, and a quarantine excludes them all.
 */
module ReportCache {
  import opened Options
  import opened KeptTexts

  /** A write: a text, which is kept afterwards; bytes that decode to a text; or a removal. */
  datatype Job = Texts(text: string) | Bytes(text: string) | Removal

  /**
   What a write holding its name's lock has come to: nothing yet; the disk changed; left somehow by a failure;
   that failure caught.
   */
  datatype Stage = Working | Written | Broken | Failed

  datatype Save = Save(job: Job, stage: Stage)

  /** A read: the generation it started at, whether anyone asked to keep, and what it found once it looked. */
  datatype Read = Read(name: string, startedAt: nat, keep: bool, got: Option<Option<string>>)

  /**
   `waiting` are the writes called that wait for their locks; `held` is the write at work under each name;
   `sweeping` is the entry a vault migration rewrites.
   */
  datatype Store = Store(most: nat, disk: map<string, string>, kept: seq<Slot>, gens: map<string, nat>,
                         reading: map<nat, Read>, nextRead: nat, inFlight: map<string, nat>,
                         waiting: seq<(string, Job)>, held: map<string, Save>, quarantine: Option<string>,
                         sweeping: Option<string>)

  datatype Event =
    | StartRead(name: string, keep: bool)
    | Snapshot(id: nat)
    | SettleRead(id: nat)
    | TakeQuarantine(id: nat)
    | DropQuarantined
    | Call(name: string, job: Job)
    | Lock(at: nat)
    | Abort(name: string)
    | Write(name: string)
    | Break(name: string, left: Option<string>)
    | Finish(name: string)
    | Catch(name: string)
    | Clean(name: string)
    | BeginSweep(name: string)
    | EndSweep
    | FailSweep(truncated: bool)
    | VaultChange

  function Gen(s: Store, name: string): nat {
    if name in s.gens then s.gens[name] else 0
  }

  /** What an entry decodes to; an empty text is an entry truncated or corrupt. */
  function OnDisk(s: Store, name: string): Option<string> {
    if name in s.disk then Some(s.disk[name]) else None
  }

  function Put(disk: map<string, string>, name: string, text: Option<string>): map<string, string> {
    if text.Some? then disk[name := text.value] else disk - {name}
  }

  function Bumped(s: Store, name: string): map<string, nat> {
    s.gens[name := Gen(s, name) + 1]
  }

  function Outcome(job: Job): Option<string> {
    if job.Removal? then None else Some(job.text)
  }

  predicate Holding(s: Store, name: string, stage: Stage) {
    name in s.held && s.held[name].stage == stage
  }

  /** The stretch in which a write has changed the disk and has yet to say so. */
  predicate InWindow(s: Store, name: string) {
    Holding(s, name, Written) || (Holding(s, name, Broken) && !s.held[name].job.Removal?)
  }

  function ReadGone(s: Store, id: nat): Store
    requires id in s.reading
  {
    s.(reading := s.reading - {id}, inFlight := s.inFlight - {s.reading[id].name})
  }

  /** readFile up to its first await. */
  function AfterStart(s: Store, name: string, keep: bool): Store {
    if Has(s.kept, name) then (if keep then s.(kept := Touch(s.kept, name)) else s)
    else if name in s.inFlight && s.inFlight[name] in s.reading then
      var id := s.inFlight[name];
      s.(reading := s.reading[id := s.reading[id].(keep := s.reading[id].keep || keep)])
    else s.(reading := s.reading[s.nextRead := Read(name, Gen(s, name), keep, None)],
            inFlight := s.inFlight[name := s.nextRead], nextRead := s.nextRead + 1)
  }

  function AfterSnapshot(s: Store, id: nat): Store {
    if id in s.reading && s.reading[id].got.None? then
      s.(reading := s.reading[id := s.reading[id].(got := Some(OnDisk(s, s.reading[id].name)))])
    else s
  }

  /** A read that found a text keeps it only if no write of the name began or ended since the read started. */
  function AfterSettle(s: Store, id: nat): Store {
    if id in s.reading && s.reading[id].got.Some? then
      var r := s.reading[id];
      var current := Gen(s, r.name) == r.startedAt;
      if r.got.value == Some("") then (if current then s else ReadGone(s, id))
      else if r.got.value.Some? && r.keep && current then
        ReadGone(s, id).(kept := Keep(s.kept, s.most, r.name, r.got.value.value))
      else ReadGone(s, id)
    else s
  }

  /** quarantineEmptyEntry under the exclusive lock, up to the removal. */
  function AfterTake(s: Store, id: nat): Store {
    if id in s.reading && s.reading[id].got == Some(Some("")) && s.quarantine.None? && s.held == map[]
        && s.sweeping.None? then
      var name := s.reading[id].name;
      if Gen(s, name) != s.reading[id].startedAt then ReadGone(s, id)
      else ReadGone(s, id).(kept := Forget(s.kept, name), gens := Bumped(s, name), quarantine := Some(name))
    else s
  }

  function AfterDrop(s: Store): Store {
    if s.quarantine.None? then s
    else s.(disk := s.disk - {s.quarantine.value}, gens := Bumped(s, s.quarantine.value), quarantine := None)
  }

  /** The synchronous head of saveFile, saveFileBytes and deleteFile. An empty text is refused. */
  function AfterCall(s: Store, name: string, job: Job): Store {
    if Outcome(job) == Some("") then s
    else s.(gens := Bumped(s, name), waiting := s.waiting + [(name, job)],
            kept := if job.Texts? then s.kept else Forget(s.kept, name),
            inFlight := if job.Removal? then s.inFlight - {name} else s.inFlight)
  }

  /** A write gets its locks: no other write of the name is at work, and neither a quarantine nor a sweep. */
  function AfterLock(s: Store, at: nat): Store {
    if at < |s.waiting| && s.waiting[at].0 !in s.held && s.quarantine.None? && s.sweeping.None? then
      s.(waiting := s.waiting[..at] + s.waiting[at + 1..],
        held := s.held[s.waiting[at].0 := Save(s.waiting[at].1, Working)])
    else s
  }

  function AfterAbort(s: Store, name: string): Store {
    if Holding(s, name, Working) then s.(held := s.held - {name}, gens := Bumped(s, name)) else s
  }

  function AfterWrite(s: Store, name: string): Store {
    if Holding(s, name, Working) then
      s.(held := s.held[name := s.held[name].(stage := Written)], disk := Put(s.disk, name, Outcome(s.held[name].job)))
    else s
  }

  /** A write that fails may leave anything under the name; a removal that fails leaves what was there. */
  function AfterBreak(s: Store, name: string, left: Option<string>): Store {
    if Holding(s, name, Working) then
      s.(held := s.held[name := s.held[name].(stage := Broken)],
         disk := if s.held[name].job.Removal? then s.disk else Put(s.disk, name, left))
    else s
  }

  function AfterFinish(s: Store, name: string): Store {
    if Holding(s, name, Written) then
      var job := s.held[name].job;
      s.(held := s.held - {name}, gens := Bumped(s, name),
         kept := if job.Texts? then Keep(s.kept, s.most, name, job.text) else s.kept)
    else s
  }

  function AfterCatch(s: Store, name: string): Store {
    if Holding(s, name, Broken) then
      s.(held := s.held[name := s.held[name].(stage := Failed)], gens := Bumped(s, name),
         kept := if s.held[name].job.Texts? then Forget(s.kept, name) else s.kept)
    else s
  }

  /** removeIfTruncated. */
  function AfterClean(s: Store, name: string): Store {
    if Holding(s, name, Failed) then
      s.(held := s.held - {name},
         disk := if !s.held[name].job.Removal? && OnDisk(s, name) == Some("") then s.disk - {name} else s.disk)
    else s
  }

  /** A vault migration rewrites an entry under the exclusive lock; its text is to stay. */
  function AfterBeginSweep(s: Store, name: string): Store {
    if s.held != map[] || s.quarantine.Some? || s.sweeping.Some? || name !in s.disk then s
    else s.(kept := Forget(s.kept, name), inFlight := s.inFlight - {name}, gens := Bumped(s, name),
        sweeping := Some(name))
  }

  function AfterEndSweep(s: Store): Store {
    if s.sweeping.None? then s else s.(gens := Bumped(s, s.sweeping.value), sweeping := None)
  }

  /** The write failed, and an entry it truncated is removed; the generation is not bumped again. */
  function AfterFailSweep(s: Store, truncated: bool): Store {
    if s.sweeping.None? then s
    else s.(disk := if truncated then s.disk - {s.sweeping.value} else s.disk, sweeping := None)
  }

  function Apply(s: Store, e: Event): Store {
    match e
    case StartRead(name, keep) => AfterStart(s, name, keep)
    case Snapshot(id) => AfterSnapshot(s, id)
    case SettleRead(id) => AfterSettle(s, id)
    case TakeQuarantine(id) => AfterTake(s, id)
    case DropQuarantined => AfterDrop(s)
    case Call(name, job) => AfterCall(s, name, job)
    case Lock(at) => AfterLock(s, at)
    case Abort(name) => AfterAbort(s, name)
    case Write(name) => AfterWrite(s, name)
    case Break(name, left) => AfterBreak(s, name, left)
    case Finish(name) => AfterFinish(s, name)
    case Catch(name) => AfterCatch(s, name)
    case Clean(name) => AfterClean(s, name)
    case BeginSweep(name) => AfterBeginSweep(s, name)
    case EndSweep => AfterEndSweep(s)
    case FailSweep(truncated) => AfterFailSweep(s, truncated)
    case VaultChange => s.(kept := [], inFlight := map[])
  }

  function Run(s: Store, es: seq<Event>): Store {
    if es == [] then s else Apply(Run(s, es[..|es| - 1]), es[|es| - 1])
  }

  /** A tab just loaded over any disk. */
  predicate JustLoaded(s: Store) {
    s.kept == [] && s.reading == map[] && s.waiting == [] && s.held == map[] && s.inFlight == map[]
      && s.quarantine == None && s.sweeping == None
  }

  // ---- what every run keeps ----

  predicate KeptOk(s: Store) {
    OneEach(s.kept) && Chars(s.kept) <= s.most && forall x :: x in s.kept ==> x.text != ""
  }

  /** A kept text is what is on disk, but for the window of a write of its name. */
  predicate Agrees(s: Store) {
    forall x :: x in s.kept ==> OnDisk(s, x.name) == Some(x.text) || InWindow(s, x.name)
  }

  /** What a read found, if no write began or ended since it started, is still there, but for a window. */
  predicate StillThere(s: Store, r: Read) {
    r.startedAt <= Gen(s, r.name)
    && (r.startedAt == Gen(s, r.name) && r.got.Some? && !InWindow(s, r.name) ==>
          r.got.value == OnDisk(s, r.name) || (r.got.value == Some("") && OnDisk(s, r.name) == None))
  }

  predicate ReadsOk(s: Store) {
    forall id :: id in s.reading ==> StillThere(s, s.reading[id])
  }

  predicate SavesOk(s: Store) {
    && (forall n :: 0 <= n < |s.waiting| ==> Outcome(s.waiting[n].1) != Some(""))
    && (forall name :: name in s.held ==> Outcome(s.held[name].job) != Some(""))
    && (forall name :: name in s.held && s.held[name].stage == Written ==> OnDisk(s, name) == Outcome(s.held[name].job))
  }

  predicate QuarantineOk(s: Store) {
    s.quarantine.Some? ==>
        s.held == map[] && (OnDisk(s, s.quarantine.value) == None || OnDisk(s, s.quarantine.value) == Some(""))
  }

  predicate SweepOk(s: Store) {
    s.sweeping.Some? ==> s.held == map[] && s.quarantine.None?
  }

  predicate Inv(s: Store) {
    KeptOk(s) && Agrees(s) && ReadsOk(s) && SavesOk(s) && QuarantineOk(s) && SweepOk(s)
  }

  /** No text of the name is kept, nor found by a read that might still keep it. */
  predicate Unread(s: Store, name: string) {
    && !Has(s.kept, name)
    && forall id :: id in s.reading && s.reading[id].name == name && s.reading[id].startedAt == Gen(s, name) && s.reading[id].got.Some?
                    ==> s.reading[id].got.value == None || s.reading[id].got.value == Some("")
  }

  /**
   The premise: a write that does not keep its text, or a sweep that loses its entry, ends with no text kept under
   its name, nor about to be.
   */
  predicate Clear(s: Store, e: Event) {
    match e
    case Finish(name) => Holding(s, name, Written) && !s.held[name].job.Texts? ==> !Has(s.kept, name)
    case Catch(name) => Holding(s, name, Broken) && s.held[name].job.Bytes? ==> !Has(s.kept, name)
    case FailSweep(truncated) => truncated && s.sweeping.Some? ==> Unread(s, s.sweeping.value)
    case _ => true
  }

  // ---- the steps, one kind at a time ----

  /** Nothing on disk changes, and no generation goes back: what was read is still there. */
  lemma ReadsStay(s: Store, t: Store)
    requires ReadsOk(s)
    requires forall id :: id in t.reading
               ==> id in s.reading && t.reading[id].(keep := s.reading[id].keep) == s.reading[id]
    requires forall name :: Gen(s, name) <= Gen(t, name)
    requires forall name :: Gen(s, name) == Gen(t, name)
               ==> OnDisk(s, name) == OnDisk(t, name) && InWindow(s, name) == InWindow(t, name)
    ensures ReadsOk(t)
  {
    forall id | id in t.reading ensures StillThere(t, t.reading[id]) { assert StillThere(s, s.reading[id]); }
  }

  /** Other texts kept, each of them kept before or what is on disk. */
  lemma KeptChange(s: Store, k: seq<Slot>)
    requires Inv(s) && OneEach(k) && Chars(k) <= s.most
    requires forall x :: x in k ==>
               x in s.kept || (x.text != "" && (OnDisk(s, x.name) == Some(x.text) || InWindow(s, x.name)))
    ensures Inv(s.(kept := k))
  {
    var t := s.(kept := k);
    assert forall name :: OnDisk(t, name) == OnDisk(s, name) && InWindow(t, name) == InWindow(s, name);
    ReadsStay(s, t);
  }

  lemma Forgets(s: Store, name: string)
    requires Inv(s)
    ensures Inv(s.(kept := Forget(s.kept, name))) && !Has(Forget(s.kept, name), name)
  {
    ForgetIs(s.kept, name);
    KeptChange(s, Forget(s.kept, name));
  }

  lemma Keeps(s: Store, name: string, text: string)
    requires Inv(s) && text != "" && (OnDisk(s, name) == Some(text) || InWindow(s, name))
    ensures Inv(s.(kept := Keep(s.kept, s.most, name, text)))
  {
    KeepHolds(s.kept, s.most, name, text);
    KeptChange(s, Keep(s.kept, s.most, name, text));
  }

  /** Other reads, each of them there before or just started. */
  lemma ReadChange(s: Store, t: Store)
    requires Inv(s) && s.(reading := t.reading, inFlight := t.inFlight, nextRead := t.nextRead) == t
    requires forall id :: id in t.reading ==>
                            || (id in s.reading && t.reading[id].(keep := s.reading[id].keep) == s.reading[id])
                            || (t.reading[id].startedAt <= Gen(s, t.reading[id].name)
                                && (t.reading[id].got == None
                                  || t.reading[id].got == Some(OnDisk(s, t.reading[id].name))))
    ensures Inv(t)
  {
    forall id | id in t.reading ensures StillThere(t, t.reading[id]) {
      if id in s.reading { assert StillThere(s, s.reading[id]); }
    }
  }

  lemma StartKeeps(s: Store, name: string, keep: bool)
    requires Inv(s)
    ensures Inv(AfterStart(s, name, keep))
  {
    if Has(s.kept, name) {
      TouchIs(s.kept, name);
      KeptChange(s, Touch(s.kept, name));
    } else {
      ReadChange(s, AfterStart(s, name, keep));
    }
  }

  lemma SnapshotKeeps(s: Store, id: nat)
    requires Inv(s)
    ensures Inv(AfterSnapshot(s, id))
  {
    if id in s.reading {
      assert StillThere(s, s.reading[id]);
      ReadChange(s, AfterSnapshot(s, id));
    }
  }

  lemma SettleKeeps(s: Store, id: nat)
    requires Inv(s)
    ensures Inv(AfterSettle(s, id))
  {
    if id in s.reading {
      assert StillThere(s, s.reading[id]);
      var r := s.reading[id];
      var t := ReadGone(s, id);
      ReadChange(s, t);
      if r.got.Some? && r.got.value.Some? && r.got.value.value != "" && Gen(s, r.name) == r.startedAt {
        assert OnDisk(t, r.name) == r.got.value || InWindow(t, r.name);
        Keeps(t, r.name, r.got.value.value);
      }
    }
  }

  /** No read of the name that started by now will keep what it found. */
  ghost predicate AllStale(s: Store, name: string) {
    forall id :: id in s.reading && s.reading[id].name == name ==> s.reading[id].startedAt < Gen(s, name)
  }

  lemma BumpKeeps(s: Store, name: string)
    requires Inv(s)
    ensures Inv(s.(gens := Bumped(s, name))) && AllStale(s.(gens := Bumped(s, name)), name)
  {
    var t := s.(gens := Bumped(s, name));
    assert forall n :: OnDisk(t, n) == OnDisk(s, n) && InWindow(t, n) == InWindow(s, n);
    ReadsStay(s, t);
    forall id | id in t.reading && t.reading[id].name == name ensures t.reading[id].startedAt < Gen(t, name) {
      assert StillThere(s, s.reading[id]);
    }
  }

  /**
   A write at work under a name comes to something else, or ends, or begins: with its reads stale, what is kept
   must agree with the disk again if no window is left.
   */
  lemma WorkKeeps(s: Store, name: string, t: Store)
    requires Inv(s) && AllStale(s, name) && s.quarantine.None? && s.sweeping.None?
    requires t == s.(held := t.held, disk := t.disk) && t.held - {name} == s.held - {name}
               && t.disk - {name} == s.disk - {name}
    requires name in t.held ==> Outcome(t.held[name].job) != Some("") && (t.held[name].stage == Written ==>
               OnDisk(t, name) == Outcome(t.held[name].job))
    requires !InWindow(t, name) ==> forall x :: x in s.kept && x.name == name ==> OnDisk(t, name) == Some(x.text)
    ensures Inv(t)
  {
    forall n | n != name ensures OnDisk(t, n) == OnDisk(s, n) && InWindow(t, n) == InWindow(s, n)
        && (n in t.held <==> n in s.held) && (n in t.held ==> t.held[n] == s.held[n]) {
      assert n in t.held - {name} <==> n in s.held - {name};
      assert n in t.disk - {name} <==> n in s.disk - {name};
      if n in t.held { assert (t.held - {name})[n] == (s.held - {name})[n]; }
      if n in t.disk { assert (t.disk - {name})[n] == (s.disk - {name})[n]; }
    }
    forall id | id in t.reading ensures StillThere(t, t.reading[id]) { assert StillThere(s, s.reading[id]); }
  }

  lemma QuarantineBegins(s: Store, name: string)
    requires Inv(s) && s.held == map[] && s.sweeping.None? && (OnDisk(s, name) == None || OnDisk(s, name) == Some(""))
    ensures Inv(s.(quarantine := Some(name)))
  {
    var t := s.(quarantine := Some(name));
    assert forall n :: OnDisk(t, n) == OnDisk(s, n) && InWindow(t, n) == InWindow(s, n);
    ReadsStay(s, t);
  }

  lemma QuarantineTakes(u: Store, name: string)
    requires Inv(u) && u.held == map[] && u.sweeping.None? && (OnDisk(u, name) == None || OnDisk(u, name) == Some(""))
    ensures Inv(u.(kept := Forget(u.kept, name), gens := Bumped(u, name), quarantine := Some(name)))
  {
    Forgets(u, name);
    BumpKeeps(u.(kept := Forget(u.kept, name)), name);
    QuarantineBegins(u.(kept := Forget(u.kept, name), gens := Bumped(u, name)), name);
  }

  lemma EndsRead(s: Store, id: nat)
    requires Inv(s) && id in s.reading
    ensures Inv(ReadGone(s, id)) && StillThere(s, s.reading[id])
  {
    ReadChange(s, ReadGone(s, id));
  }

  lemma TakeKeeps(s: Store, id: nat)
    requires Inv(s)
    ensures Inv(AfterTake(s, id))
  {
    if id in s.reading && s.reading[id].got == Some(Some("")) && s.quarantine.None? && s.held == map[]
        && s.sweeping.None? {
      var name := s.reading[id].name;
      EndsRead(s, id);
      if Gen(s, name) == s.reading[id].startedAt {
        QuarantineTakes(ReadGone(s, id), name);
        assert Bumped(ReadGone(s, id), name) == Bumped(s, name);
      }
    }
  }

  lemma DropKeeps(s: Store)
    requires Inv(s)
    ensures Inv(AfterDrop(s))
  {
    var t := AfterDrop(s);
    assert forall n :: InWindow(t, n) == InWindow(s, n);
    ReadsStay(s, t);
    forall x | x in t.kept ensures OnDisk(t, x.name) == Some(x.text) || InWindow(t, x.name) {
      assert OnDisk(s, x.name) == Some(x.text) || InWindow(s, x.name);
    }
  }

  lemma CallKeeps(s: Store, name: string, job: Job)
    requires Inv(s)
    ensures Inv(AfterCall(s, name, job))
  {
    if Outcome(job) != Some("") {
      BumpKeeps(s, name);
      var u := s.(gens := Bumped(s, name));
      Forgets(u, name);
      var v := if job.Texts? then u else u.(kept := Forget(u.kept, name));
      ReadChange(v, AfterCall(s, name, job).(waiting := v.waiting));
      Waits(AfterCall(s, name, job).(waiting := v.waiting), name, job);
    }
  }

  lemma Waits(s: Store, name: string, job: Job)
    requires Inv(s) && Outcome(job) != Some("")
    ensures Inv(s.(waiting := s.waiting + [(name, job)]))
  {
    var t := s.(waiting := s.waiting + [(name, job)]);
    assert forall n :: OnDisk(t, n) == OnDisk(s, n) && InWindow(t, n) == InWindow(s, n);
    ReadsStay(s, t);
  }

  lemma LockKeeps(s: Store, at: nat)
    requires Inv(s)
    ensures Inv(AfterLock(s, at))
  {
    var t := AfterLock(s, at);
    if t != s {
      assert forall n :: OnDisk(t, n) == OnDisk(s, n) && InWindow(t, n) == InWindow(s, n);
      ReadsStay(s, t);
      assert forall n :: 0 <= n < |t.waiting| ==> t.waiting[n] in s.waiting;
    }
  }

  lemma AbortKeeps(s: Store, name: string)
    requires Inv(s)
    ensures Inv(AfterAbort(s, name))
  {
    if Holding(s, name, Working) {
      BumpKeeps(s, name);
      var u := s.(gens := Bumped(s, name));
      assert forall x :: x in u.kept && x.name == name ==> OnDisk(u, name) == Some(x.text) || InWindow(u, name);
      WorkKeeps(u, name, AfterAbort(s, name));
    }
  }

  /** A write that has not begun to show keeps nobody's generation back: the window it opens excuses everything. */
  lemma WindowOpens(s: Store, name: string, stage: Stage, text: Option<string>)
    requires Inv(s) && Holding(s, name, Working)
    requires var job := s.held[name].job;
             (stage == Written && text == Outcome(job)) || (stage == Broken && !job.Removal?)
    ensures Inv(s.(held := s.held[name := s.held[name].(stage := stage)], disk := Put(s.disk, name, text)))
  {
    var t := s.(held := s.held[name := s.held[name].(stage := stage)], disk := Put(s.disk, name, text));
    assert InWindow(t, name);
    assert forall n :: n != name ==> OnDisk(t, n) == OnDisk(s, n) && InWindow(t, n) == InWindow(s, n);
    forall id | id in t.reading ensures StillThere(t, t.reading[id]) { assert StillThere(s, s.reading[id]); }
  }

  lemma WriteKeeps(s: Store, name: string)
    requires Inv(s)
    ensures Inv(AfterWrite(s, name))
  {
    if Holding(s, name, Working) { WindowOpens(s, name, Written, Outcome(s.held[name].job)); }
  }

  /** A failing removal changes only what the write has come to. */
  lemma BreakKeeps(s: Store, name: string, left: Option<string>)
    requires Inv(s)
    ensures Inv(AfterBreak(s, name, left))
  {
    var t := AfterBreak(s, name, left);
    if Holding(s, name, Working) {
      if s.held[name].job.Removal? {
        assert forall n :: OnDisk(t, n) == OnDisk(s, n) && InWindow(t, n) == InWindow(s, n);
        ReadsStay(s, t);
      } else {
        WindowOpens(s, name, Broken, left);
      }
    }
  }

  lemma FinishedKeeps(u: Store, name: string)
    requires Inv(u) && Holding(u, name, Written)
               && forall x :: x in u.kept && x.name == name ==> OnDisk(u, name) == Some(x.text)
    ensures Inv(u.(held := u.held - {name}, gens := Bumped(u, name)))
  {
    BumpKeeps(u, name);
    var v := u.(gens := Bumped(u, name));
    WorkKeeps(v, name, v.(held := u.held - {name}));
  }

  lemma FinishKeeps(s: Store, name: string)
    requires Inv(s) && Clear(s, Finish(name))
    ensures Inv(AfterFinish(s, name))
  {
    if Holding(s, name, Written) {
      var job := s.held[name].job;
      if job.Texts? {
        Keeps(s, name, job.text);
        KeepHolds(s.kept, s.most, name, job.text);
        FinishedKeeps(s.(kept := Keep(s.kept, s.most, name, job.text)), name);
        assert Bumped(s.(kept := Keep(s.kept, s.most, name, job.text)), name) == Bumped(s, name);
      } else {
        FinishedKeeps(s, name);
      }
    }
  }

  lemma CaughtKeeps(u: Store, name: string)
    requires Inv(u) && Holding(u, name, Broken) && (u.held[name].job.Removal? || !Has(u.kept, name))
    ensures Inv(u.(held := u.held[name := u.held[name].(stage := Failed)], gens := Bumped(u, name)))
  {
    assert forall x :: x in u.kept && x.name == name ==> OnDisk(u, name) == Some(x.text);
    BumpKeeps(u, name);
    var v := u.(gens := Bumped(u, name));
    WorkKeeps(v, name, v.(held := u.held[name := u.held[name].(stage := Failed)]));
  }

  lemma CatchKeeps(s: Store, name: string)
    requires Inv(s) && Clear(s, Catch(name))
    ensures Inv(AfterCatch(s, name))
  {
    if Holding(s, name, Broken) {
      if s.held[name].job.Texts? {
        Forgets(s, name);
        CaughtKeeps(s.(kept := Forget(s.kept, name)), name);
        assert Bumped(s.(kept := Forget(s.kept, name)), name) == Bumped(s, name);
      } else {
        CaughtKeeps(s, name);
      }
    }
  }

  lemma CleanKeeps(s: Store, name: string)
    requires Inv(s)
    ensures Inv(AfterClean(s, name))
  {
    if Holding(s, name, Failed) {
      var t := AfterClean(s, name);
      assert forall n :: InWindow(t, n) == InWindow(s, n);
      assert forall n :: n != name ==> OnDisk(t, n) == OnDisk(s, n);
      forall id | id in t.reading ensures StillThere(t, t.reading[id]) { assert StillThere(s, s.reading[id]); }
      assert Agrees(t);
    }
  }

  lemma SweepBegins(u: Store, name: string)
    requires Inv(u) && u.held == map[] && u.quarantine.None? && u.sweeping.None?
    ensures Inv(u.(inFlight := u.inFlight - {name}, gens := Bumped(u, name), sweeping := Some(name)))
  {
    BumpKeeps(u, name);
    var v := u.(gens := Bumped(u, name));
    ReadChange(v, v.(inFlight := u.inFlight - {name}));
    SweepChange(v.(inFlight := u.inFlight - {name}), Some(name));
  }

  lemma SweepChange(s: Store, sweeping: Option<string>)
    requires Inv(s) && (sweeping.Some? ==> s.held == map[] && s.quarantine.None?)
    ensures Inv(s.(sweeping := sweeping))
  {
    var t := s.(sweeping := sweeping);
    assert forall n :: OnDisk(t, n) == OnDisk(s, n) && InWindow(t, n) == InWindow(s, n);
    ReadsStay(s, t);
  }

  lemma BeginSweepKeeps(s: Store, name: string)
    requires Inv(s)
    ensures Inv(AfterBeginSweep(s, name))
  {
    if AfterBeginSweep(s, name) != s {
      var u := s.(kept := Forget(s.kept, name));
      assert AfterBeginSweep(s, name) == u.(inFlight := u.inFlight - {name}, gens := Bumped(u, name),
               sweeping := Some(name));
      Forgets(s, name);
      SweepBegins(u, name);
    }
  }

  lemma EndSweepKeeps(s: Store)
    requires Inv(s)
    ensures Inv(AfterEndSweep(s))
  {
    if s.sweeping.Some? {
      BumpKeeps(s, s.sweeping.value);
      SweepChange(s.(gens := Bumped(s, s.sweeping.value)), None);
    }
  }

  /** Losing an entry keeps agreement exactly when its text is neither kept nor in a read that might keep it. */
  lemma LossKeepsIff(s: Store, name: string)
    requires Inv(s) && s.held == map[] && s.quarantine.None? && name in s.disk
    ensures Inv(s.(disk := s.disk - {name})) <==> Unread(s, name)
  {
    var t := s.(disk := s.disk - {name});
    assert OnDisk(t, name) == None && forall n :: n != name ==> OnDisk(t, n) == OnDisk(s, n);
    assert forall n :: !InWindow(t, n) && !InWindow(s, n);
    if Unread(s, name) {
      forall id | id in t.reading ensures StillThere(t, t.reading[id]) { assert StillThere(s, s.reading[id]); }
      forall x | x in t.kept ensures OnDisk(t, x.name) == Some(x.text) {
        if x.name == name { KeptHas(s.kept, x); }
      }
    } else if Has(s.kept, name) {
      var i :| 0 <= i < |s.kept| && s.kept[i].name == name;
      assert s.kept[i] in t.kept && OnDisk(t, name) != Some(s.kept[i].text);
      assert !Agrees(t);
    } else {
      var id :| id in s.reading && s.reading[id].name == name && s.reading[id].startedAt == Gen(s, name)
          && s.reading[id].got.Some?
                && s.reading[id].got.value != None && s.reading[id].got.value != Some("");
      assert !StillThere(t, t.reading[id]);
    }
  }

  lemma KeptHas(s: seq<Slot>, x: Slot)
    requires x in s
    ensures Has(s, x.name)
  {
    var i :| 0 <= i < |s| && s[i] == x;
  }

  lemma FailSweepKeeps(s: Store, truncated: bool)
    requires Inv(s) && Clear(s, FailSweep(truncated))
    ensures Inv(AfterFailSweep(s, truncated))
  {
    if s.sweeping.Some? {
      SweepChange(s, None);
      var t := s.(sweeping := None);
      if truncated && s.sweeping.value in s.disk {
        assert Unread(t, s.sweeping.value);
        LossKeepsIff(t, s.sweeping.value);
      } else {
        assert s.disk - {s.sweeping.value} == s.disk || !truncated;
      }
    }
  }

  /** Every step but an unclear finish keeps the kept texts in agreement with the disk. */
  lemma StepKeeps(s: Store, e: Event)
    requires Inv(s) && Clear(s, e)
    ensures Inv(Apply(s, e))
  {
    match e
    case StartRead(name, keep) => StartKeeps(s, name, keep);
    case Snapshot(id) => SnapshotKeeps(s, id);
    case SettleRead(id) => SettleKeeps(s, id);
    case TakeQuarantine(id) => TakeKeeps(s, id);
    case DropQuarantined => DropKeeps(s);
    case Call(name, job) => CallKeeps(s, name, job);
    case Lock(at) => LockKeeps(s, at);
    case Abort(name) => AbortKeeps(s, name);
    case Write(name) => WriteKeeps(s, name);
    case Break(name, left) => BreakKeeps(s, name, left);
    case Finish(name) => FinishKeeps(s, name);
    case Catch(name) => CatchKeeps(s, name);
    case Clean(name) => CleanKeeps(s, name);
    case BeginSweep(name) => BeginSweepKeeps(s, name);
    case EndSweep => EndSweepKeeps(s);
    case FailSweep(truncated) => FailSweepKeeps(s, truncated);
    case VaultChange =>
      KeptChange(s, []);
      ReadChange(s.(kept := []), Apply(s, VaultChange));
  }
}
