/**
 Runs of the vault. Each event is one stretch of code between awaits, in one
 tab, with the locks it needs: saves and deletes hold the vault lock shared,
 and enabling, disabling, unlocking and wiping hold it exclusively.
 */
module VaultRun {
  import opened Options
  import opened AtRest

  /** The shared metadata: the credential registered, and the identity tag (its user id). */
  datatype Meta = Meta(cred: nat, tag: string)

  /** A tab's session; `behind` while a sibling's change of the metadata has not reached it. */
  datatype Tab = Tab(key: Option<nat>, tag: Option<string>, cred: Option<nat>, behind: bool)

  /** How far a save has come: holding the lock, sealing, or past the recheck after it. */
  datatype Stage = Locked | Sealing(withKey: Option<nat>, out: Entry) | Ready(out: Entry)

  datatype Save = Save(tab: nat, file: File, text: string, stage: Stage)

  /** Who holds the vault lock exclusively across awaits, and which files its sweep has still to visit. */
  datatype Holder =
    | Free
    | Enabling(tab: nat, key: nat, todo: set<File>)
    | Disabling(tab: nat, meta: Meta, key: nat, todo: set<File>)

  datatype Vault = Vault(
    meta: Option<Meta>, userId: Option<string>, cleanDisable: bool,
    disk: map<File, Entry>, tabs: map<nat, Tab>, saves: map<nat, Save>, holder: Holder, nextCred: nat)

  datatype Event =
    | OpenTab(tab: nat)
    | CloseTab(tab: nat)
    | Hear(tab: nat)
    | Unlock(tab: nat, cred: nat)
    | LockSave(save: nat, tab: nat, file: File, text: string)
    | BeginSeal(save: nat)
    | Recheck(save: nat)
    | Commit(save: nat)
    | FailSave(save: nat, truncated: bool)
    | Delete(file: File)
    | StartEnable(tab: nat, freshTag: string)
    | SweepSeal(file: File)
    | FailEnable(torn: Option<File>)
    | FinishEnable
    | StartDisable(tab: nat)
    | SweepOpen(file: File)
    | FailDisable(torn: Option<File>)
    | FinishDisable
    | Wipe(tab: nat, refuseIfEnabled: bool, left: set<File>)

  const INITIAL := Vault(None, None, false, map[], map[], map[], Free, 0)

  const NO_SESSION := Tab(None, None, None, false)

  /** A write of the metadata raises a storage event in every other tab. */
  function Raise(tabs: map<nat, Tab>, self: nat): map<nat, Tab> {
    map t | t in tabs :: if t == self then tabs[t] else tabs[t].(behind := true)
  }

  /** The storage-event handler, reading the metadata as it is now. */
  function Heard(tab: Tab, meta: Option<Meta>): Tab {
    if meta.None? && tab.key.Some? then NO_SESSION
    else if meta.Some? && tab.key.Some? && Some(meta.value.cred) != tab.cred then NO_SESSION
    else tab.(behind := false)
  }

  /** Metadata gone, user id left, and no clean disable: an abandoned vault, as far as the app can tell. */
  predicate Orphaned(v: Vault) {
    v.meta.None? && !v.cleanDisable && v.userId.Some?
  }

  /** The files a sweep visits: all but stray bundle files. */
  function Swept(disk: map<File, Entry>): set<File> {
    set f | f in disk && AadFor(f, "").Some?
  }

  /** The exclusive lock is granted once nothing else holds it, shared or not. */
  predicate Exclusive(v: Vault) {
    v.holder.Free? && v.saves == map[]
  }

  function Seal(key: nat, tag: Option<string>, file: File, text: string): Entry
    requires AadFor(file, "").Some?
  {
    Sealed(key, AadFor(file, if tag.Some? then tag.value else "").value, text)
  }

  /** What a write that truncated its entry and failed leaves: no report, but an empty bundle file. */
  function Torn(disk: map<File, Entry>, file: File): map<File, Entry> {
    if file.ReportFile? then disk - {file} else disk[file := Plain("")]
  }

  // ---- the steps ----

  function AfterLockSave(v: Vault, save: nat, tab: nat, file: File, text: string): Vault {
    if v.holder.Free? && save !in v.saves && tab in v.tabs && AadFor(file, "").Some?
       && forall s :: s in v.saves ==> v.saves[s].file != file
    then v.(saves := v.saves[save := Save(tab, file, text, Locked)]) else v
  }

  /** sealForStorage up to its await: refused under an enabled vault this tab has no key for. */
  function AfterBeginSeal(v: Vault, save: nat): Vault {
    if save in v.saves && v.saves[save].stage.Locked? && v.saves[save].tab in v.tabs
        && AadFor(v.saves[save].file, "").Some? then
      var s := v.saves[save];
      var tab := v.tabs[s.tab];
      if v.meta.Some? && tab.key.None? then v.(saves := v.saves - {save})
      else
        var out := if tab.key.Some? then Seal(tab.key.value, tab.tag, s.file, s.text) else Plain(s.text);
        v.(saves := v.saves[save := s.(stage := Sealing(tab.key, out))])
    else v
  }

  /** sealForStorage after its await: aborted if the session key is no longer the one sealed with. */
  function AfterRecheck(v: Vault, save: nat): Vault {
    if save in v.saves && v.saves[save].stage.Sealing? && v.saves[save].tab in v.tabs then
      var s := v.saves[save];
      if v.tabs[s.tab].key != s.stage.withKey then v.(saves := v.saves - {save})
      else v.(saves := v.saves[save := s.(stage := Ready(s.stage.out))])
    else v
  }

  function AfterCommit(v: Vault, save: nat): Vault {
    if save in v.saves && v.saves[save].stage.Ready? then
      v.(disk := v.disk[v.saves[save].file := v.saves[save].stage.out], saves := v.saves - {save})
    else v
  }

  function AfterFailSave(v: Vault, save: nat, truncated: bool): Vault {
    if save in v.saves then
      v.(disk := if truncated && v.saves[save].stage.Ready? then Torn(v.disk, v.saves[save].file) else v.disk,
         saves := v.saves - {save})
    else v
  }

  function AfterDelete(v: Vault, file: File): Vault {
    if v.holder.Free? && forall s :: s in v.saves ==> v.saves[s].file != file then v.(disk := v.disk - {file}) else v
  }

  /** unlockEncryption inside the lock: only for the credential the metadata still names. */
  function AfterUnlock(v: Vault, tab: nat, cred: nat): Vault {
    if Exclusive(v) && tab in v.tabs && v.meta.Some? && v.meta.value.cred == cred then
      v.(tabs := v.tabs[tab := v.tabs[tab].(key := Some(cred), tag := Some(v.meta.value.tag), cred := Some(cred))])
    else v
  }

  /** enableEncryption inside the lock; an abandoned vault is asked about before it. */
  function AfterStartEnable(v: Vault, tab: nat, freshTag: string): Vault {
    if Exclusive(v) && tab in v.tabs && v.meta.None? && IsTag(freshTag) then
      var tag := if v.userId.Some? then v.userId.value else freshTag;
      var cred := v.nextCred;
      v.(meta := Some(Meta(cred, tag)), userId := Some(tag), nextCred := cred + 1,
         tabs := Raise(v.tabs[tab := v.tabs[tab].(key := Some(cred), tag := Some(tag), cred := Some(cred))], tab),
         holder := Enabling(tab, cred, Swept(v.disk)))
    else v
  }

  /** One entry of the encrypting sweep: a plain entry is sealed, a sealed one left. */
  function AfterSweepSeal(v: Vault, file: File): Vault {
    if v.holder.Enabling? && file in v.holder.todo && v.holder.tab in v.tabs && AadFor(file, "").Some? then
      var disk := if file in v.disk && v.disk[file].Plain?
                  then v.disk[file := Seal(v.holder.key, v.tabs[v.holder.tab].tag, file, v.disk[file].text)]
                    else v.disk;
      v.(disk := disk, holder := Enabling(v.holder.tab, v.holder.key, v.holder.todo - {file}))
    else v
  }

  /** The sweep is at this entry, with something to write. */
  predicate Rewriting(v: Vault, file: File) {
    file in v.disk && AadFor(file, "").Some?
    && ((v.holder.Enabling? && file in v.holder.todo && v.disk[file].Plain?)
        || (v.holder.Disabling? && file in v.holder.todo && v.disk[file].Sealed?))
  }

  /** A sweep fails while it writes an entry, which may be torn by it, or without writing. */
  function AfterTear(v: Vault, torn: Option<File>): map<File, Entry> {
    if torn.Some? && Rewriting(v, torn.value) then Torn(v.disk, torn.value) else v.disk
  }

  /** The sweep failed: the vault stays on, for the sweep to be tried again. */
  function AfterFailEnable(v: Vault, torn: Option<File>): Vault {
    if v.holder.Enabling? then v.(disk := AfterTear(v, torn), holder := Free) else v
  }

  function AfterFinishEnable(v: Vault): Vault {
    if v.holder.Enabling? && v.holder.todo == {} then v.(cleanDisable := false, holder := Free) else v
  }

  /** disableEncryption inside the lock, up to the sweep: metadata and key go first, the tag stays. */
  function AfterStartDisable(v: Vault, tab: nat): Vault {
    if Exclusive(v) && tab in v.tabs && v.meta.Some? && v.tabs[tab].key.Some? then
      v.(meta := None, tabs := Raise(v.tabs[tab := v.tabs[tab].(key := None, cred := None)], tab),
         holder := Disabling(tab, v.meta.value, v.tabs[tab].key.value, Swept(v.disk)))
    else v
  }

  /** The sweep failed: the metadata and the session come back. */
  function AfterFailDisable(v: Vault, torn: Option<File>): Vault {
    if v.holder.Disabling? && v.holder.tab in v.tabs then
      var t := v.holder.tab;
      v.(meta := Some(v.holder.meta), disk := AfterTear(v, torn),
         tabs := Raise(v.tabs[t := v.tabs[t].(key := Some(v.holder.key), cred := Some(v.holder.meta.cred))], t),
         holder := Free)
    else v
  }

  /** One entry of the decrypting sweep: a sealed entry is opened, or the sweep fails. */
  function AfterSweepOpen(v: Vault, file: File): Vault {
    if v.holder.Disabling? && file in v.holder.todo && v.holder.tab in v.tabs && AadFor(file, "").Some? then
      var tag := v.tabs[v.holder.tab].tag;
      var aad := AadFor(file, if tag.Some? then tag.value else "").value;
      if file in v.disk && v.disk[file].Sealed? && !Opens(v.disk[file], v.holder.key, aad)
          then AfterFailDisable(v, None)
      else
        var disk := if file in v.disk then v.disk[file := Plain(v.disk[file].text)] else v.disk;
        v.(disk := disk, holder := Disabling(v.holder.tab, v.holder.meta, v.holder.key, v.holder.todo - {file}))
    else v
  }

  function AfterFinishDisable(v: Vault): Vault {
    if v.holder.Disabling? && v.holder.todo == {} && v.holder.tab in v.tabs then
      v.(tabs := v.tabs[v.holder.tab := v.tabs[v.holder.tab].(tag := None)], cleanDisable := true, holder := Free)
    else v
  }

  /** What a wipe leaves: the entries that could not be removed. */
  function Left(disk: map<File, Entry>, left: set<File>): map<File, Entry> {
    map f | f in disk && f in left :: disk[f]
  }

  function AfterWipe(v: Vault, tab: nat, refuseIfEnabled: bool, left: set<File>): Vault {
    if Exclusive(v) && tab in v.tabs && !(refuseIfEnabled && v.meta.Some?) then
      v.(meta := None, userId := None, cleanDisable := false, disk := Left(v.disk, left),
         tabs := Raise(v.tabs[tab := v.tabs[tab].(key := None, tag := None, cred := None)], tab))
    else v
  }

  /** A page going away: its session, its saves and its locks go with it. */
  function AfterCloseTab(v: Vault, tab: nat): Vault {
    v.(tabs := v.tabs - {tab}, saves := map s | s in v.saves && v.saves[s].tab != tab :: v.saves[s],
       holder := if !v.holder.Free? && v.holder.tab == tab then Free else v.holder)
  }

  function Apply(v: Vault, e: Event): Vault {
    match e
    case OpenTab(tab) => if tab in v.tabs then v else v.(tabs := v.tabs[tab := NO_SESSION])
    case CloseTab(tab) => AfterCloseTab(v, tab)
    case Hear(tab) => if tab in v.tabs && v.tabs[tab].behind
      then v.(tabs := v.tabs[tab := Heard(v.tabs[tab], v.meta)]) else v
    case Unlock(tab, cred) => AfterUnlock(v, tab, cred)
    case LockSave(save, tab, file, text) => AfterLockSave(v, save, tab, file, text)
    case BeginSeal(save) => AfterBeginSeal(v, save)
    case Recheck(save) => AfterRecheck(v, save)
    case Commit(save) => AfterCommit(v, save)
    case FailSave(save, truncated) => AfterFailSave(v, save, truncated)
    case Delete(file) => AfterDelete(v, file)
    case StartEnable(tab, freshTag) => AfterStartEnable(v, tab, freshTag)
    case SweepSeal(file) => AfterSweepSeal(v, file)
    case FailEnable(torn) => AfterFailEnable(v, torn)
    case FinishEnable => AfterFinishEnable(v)
    case StartDisable(tab) => AfterStartDisable(v, tab)
    case SweepOpen(file) => AfterSweepOpen(v, file)
    case FailDisable(torn) => AfterFailDisable(v, torn)
    case FinishDisable => AfterFinishDisable(v)
    case Wipe(tab, refuse, left) => AfterWipe(v, tab, refuse, left)
  }

  function Run(v: Vault, es: seq<Event>): Vault {
    if es == [] then v else Apply(Run(v, es[..|es| - 1]), es[|es| - 1])
  }

  // ---- what the code relies on from outside ----

  ghost predicate NoneSealed(disk: map<File, Entry>) {
    forall f :: f in disk ==> disk[f].Plain?
  }

  /**
   The premises: a sibling's storage event reaches a tab before its recheck
   after sealing, and before it takes its key to disable; a page does not go
   away in the middle of disabling; a wipe removes what is sealed.
   */
  ghost predicate Timely(v: Vault, e: Event) {
    match e
    case Recheck(save) => save in v.saves && v.saves[save].tab in v.tabs ==> !v.tabs[v.saves[save].tab].behind
    case StartDisable(tab) => tab in v.tabs ==> !v.tabs[tab].behind
    case CloseTab(tab) => !(v.holder.Disabling? && v.holder.tab == tab)
    case Wipe(_, _, left) => NoneSealed(Left(v.disk, left))
    case _ => true
  }

  ghost predicate TimelyRun(v: Vault, es: seq<Event>) {
    forall n :: 0 <= n < |es| ==> Timely(Run(v, es[..n]), es[n])
  }

  // ---- what every run keeps ----

  /** The credential and tag that must open what is sealed: the metadata's, or what the disabler decrypts with. */
  function Opener(v: Vault): Option<Meta> {
    if v.holder.Disabling? then Some(v.holder.meta) else v.meta
  }

  /** The entry, if sealed, opens under this credential and tag, at this file. */
  ghost predicate Openable(entry: Entry, file: File, opener: Option<Meta>) {
    entry.Sealed? ==>
      && opener.Some? && AadFor(file, opener.value.tag).Some?
      && Opens(entry, opener.value.cred, AadFor(file, opener.value.tag).value)
  }

  ghost predicate DiskOk(v: Vault) {
    forall f :: f in v.disk ==> Openable(v.disk[f], f, Opener(v))
  }

  ghost predicate TabOk(v: Vault, t: Tab) {
    t.key.Some? ==>
      && t.key == t.cred && t.key.value < v.nextCred
      && (Opener(v).Some? && t.key.value == Opener(v).value.cred ==> t.tag == Some(Opener(v).value.tag))
      && (!t.behind ==> v.meta.Some? && t.key.value == v.meta.value.cred)
  }

  ghost predicate SaveOk(v: Vault, s: Save) {
    && s.tab in v.tabs && AadFor(s.file, "").Some? && v.holder.Free?
    && match s.stage
       case Locked => true
       case Sealing(None, out) => out == Plain(s.text) && v.meta.None?
       case Sealing(Some(key), out) =>
         out.Sealed? && out.cred == key && out.text == s.text
         && (v.meta.Some? && key == v.meta.value.cred ==> Openable(out, s.file, v.meta))
       case Ready(out) => out.text == s.text && (out.Plain? <==> v.meta.None?) && Openable(out, s.file, v.meta)
  }

  ghost predicate HolderOk(v: Vault) {
    match v.holder
    case Free => true
    case Enabling(t, key, todo) =>
      && v.meta.Some? && key == v.meta.value.cred && t in v.tabs && v.tabs[t].key == Some(key)
      && forall f :: f in v.disk && AadFor(f, "").Some? && f !in todo ==> v.disk[f].Sealed?
    case Disabling(t, m, key, todo) =>
      && v.meta.None? && key == m.cred && m.cred < v.nextCred && IsTag(m.tag)
      && t in v.tabs && v.tabs[t].key.None? && v.tabs[t].cred.None? && v.tabs[t].tag == Some(m.tag)
      && forall f :: f in v.disk && v.disk[f].Sealed? ==> f in todo
  }

  ghost predicate Inv(v: Vault) {
    && (v.meta.Some? ==> v.meta.value.cred < v.nextCred && IsTag(v.meta.value.tag))
    && (v.userId.Some? ==> IsTag(v.userId.value))
    && DiskOk(v) && HolderOk(v)
    && (forall t :: t in v.tabs ==> TabOk(v, v.tabs[t]))
    && (forall s :: s in v.saves ==> SaveOk(v, v.saves[s]))
  }

  /** A step of one save that changes nothing but that save keeps the rest. */
  lemma SaveChanged(v: Vault, saves: map<nat, Save>)
    requires Inv(v) && forall s :: s in saves ==> SaveOk(v, saves[s])
    ensures Inv(v.(saves := saves))
  {
    var w := v.(saves := saves);
    forall s | s in saves ensures SaveOk(w, saves[s]) {}
    forall t | t in w.tabs ensures TabOk(w, w.tabs[t]) { assert TabOk(v, v.tabs[t]); }
  }

  lemma OneSaveChanged(v: Vault, save: nat, s: Save)
    requires Inv(v) && SaveOk(v, s)
    ensures Inv(v.(saves := v.saves[save := s]))
  {
    var saves := v.saves[save := s];
    forall r | r in saves ensures SaveOk(v, saves[r]) {
      if r != save { assert SaveOk(v, v.saves[r]); }
    }
    SaveChanged(v, saves);
  }

  lemma SaveDropped(v: Vault, save: nat)
    requires Inv(v)
    ensures Inv(v.(saves := v.saves - {save}))
  {
    var saves := v.saves - {save};
    forall r | r in saves ensures SaveOk(v, saves[r]) { assert SaveOk(v, v.saves[r]); }
    SaveChanged(v, saves);
  }

  lemma LockSaveKeeps(v: Vault, save: nat, tab: nat, file: File, text: string)
    requires Inv(v)
    ensures Inv(AfterLockSave(v, save, tab, file, text))
  {
    if AfterLockSave(v, save, tab, file, text) != v {
      OneSaveChanged(v, save, Save(tab, file, text, Locked));
    }
  }

  lemma BeginSealKeeps(v: Vault, save: nat)
    requires Inv(v)
    ensures Inv(AfterBeginSeal(v, save))
  {
    var w := AfterBeginSeal(v, save);
    if w != v {
      var s := v.saves[save];
      assert SaveOk(v, s) && TabOk(v, v.tabs[s.tab]);
      if save in w.saves {
        assert SaveOk(v, w.saves[save]);
        OneSaveChanged(v, save, w.saves[save]);
      } else {
        SaveDropped(v, save);
      }
    }
  }

  lemma RecheckKeeps(v: Vault, save: nat)
    requires Inv(v) && Timely(v, Recheck(save))
    ensures Inv(AfterRecheck(v, save))
  {
    var w := AfterRecheck(v, save);
    if w != v {
      var s := v.saves[save];
      assert SaveOk(v, s) && TabOk(v, v.tabs[s.tab]);
      if save in w.saves {
        assert SaveOk(v, w.saves[save]);
        OneSaveChanged(v, save, w.saves[save]);
      } else {
        SaveDropped(v, save);
      }
    }
  }

  lemma DiskChanged(v: Vault, disk: map<File, Entry>)
    requires Inv(v) && v.holder.Free? && forall f :: f in disk ==> Openable(disk[f], f, v.meta)
    ensures Inv(v.(disk := disk))
  {
    var w := v.(disk := disk);
    forall s | s in w.saves ensures SaveOk(w, w.saves[s]) { assert SaveOk(v, v.saves[s]); }
    forall t | t in w.tabs ensures TabOk(w, w.tabs[t]) { assert TabOk(v, v.tabs[t]); }
  }

  lemma CommitKeeps(v: Vault, e: Event)
    requires Inv(v) && (e.Commit? || e.FailSave? || e.Delete?)
    ensures Inv(Apply(v, e))
  {
    var w := Apply(v, e);
    if w != v {
      if !e.Delete? { assert SaveOk(v, v.saves[e.save]); }
      assert v.holder.Free?;
      forall f | f in w.disk ensures Openable(w.disk[f], f, v.meta) {
        assert f in v.disk ==> Openable(v.disk[f], f, v.meta);
      }
      DiskChanged(v, w.disk);
      SaveChanged(v.(disk := w.disk), w.saves);
    }
  }

  /** A tab coming, hearing or unlocking leaves the metadata, the saves and the disk alone. */
  lemma TabChanged(v: Vault, tab: nat, t: Tab)
    requires Inv(v) && TabOk(v, t) && HolderOk(v.(tabs := v.tabs[tab := t]))
    ensures Inv(v.(tabs := v.tabs[tab := t]))
  {
    var w := v.(tabs := v.tabs[tab := t]);
    forall s | s in w.saves ensures SaveOk(w, w.saves[s]) { assert SaveOk(v, v.saves[s]); }
    forall u | u in w.tabs ensures TabOk(w, w.tabs[u]) {
      if u != tab { assert TabOk(v, v.tabs[u]); }
    }
  }

  lemma TabStepsKeep(v: Vault, e: Event)
    requires Inv(v) && Timely(v, e)
    requires e.OpenTab? || e.Hear? || e.Unlock?
    ensures Inv(Apply(v, e))
  {
    var w := Apply(v, e);
    if w != v {
      if e.tab in v.tabs { assert TabOk(v, v.tabs[e.tab]); }
      TabChanged(v, e.tab, w.tabs[e.tab]);
      assert w == v.(tabs := v.tabs[e.tab := w.tabs[e.tab]]);
    }
  }

  lemma CloseTabKeeps(v: Vault, tab: nat)
    requires Inv(v) && Timely(v, CloseTab(tab))
    ensures Inv(AfterCloseTab(v, tab))
  {
    var w := AfterCloseTab(v, tab);
    forall s | s in w.saves ensures SaveOk(w, w.saves[s]) {
      assert SaveOk(v, v.saves[s]);
    }
    forall t | t in w.tabs ensures TabOk(w, w.tabs[t]) {
      assert TabOk(v, v.tabs[t]);
    }
    forall f | f in w.disk ensures Openable(w.disk[f], f, Opener(w)) {
      assert Openable(v.disk[f], f, Opener(v));
    }
  }

  /** The tabs are well where each was before, and the opener did not change for those it matters to. */
  lemma StartEnableKeeps(v: Vault, tab: nat, freshTag: string)
    requires Inv(v)
    ensures Inv(AfterStartEnable(v, tab, freshTag))
  {
    var w := AfterStartEnable(v, tab, freshTag);
    forall t | t in w.tabs ensures TabOk(w, w.tabs[t]) { assert TabOk(v, v.tabs[t]); }
  }

  lemma SweepSealKeeps(v: Vault, file: File)
    requires Inv(v)
    ensures Inv(AfterSweepSeal(v, file))
  {
    var w := AfterSweepSeal(v, file);
    forall t | t in w.tabs ensures TabOk(w, w.tabs[t]) { assert TabOk(v, v.tabs[t]); }
  }

  /** Torn or not, what is left opens as before. */
  lemma TearKeeps(v: Vault, torn: Option<File>)
    requires Inv(v)
    ensures forall f :: f in AfterTear(v, torn) ==> Openable(AfterTear(v, torn)[f], f, Opener(v))
  {
    forall f | f in AfterTear(v, torn) ensures Openable(AfterTear(v, torn)[f], f, Opener(v)) {
      if f in v.disk { assert Openable(v.disk[f], f, Opener(v)); }
    }
  }

  lemma EnableEndKeeps(v: Vault, e: Event)
    requires Inv(v) && (e.FailEnable? || e.FinishEnable?)
    ensures Inv(Apply(v, e))
  {
    var w := Apply(v, e);
    if e.FailEnable? { TearKeeps(v, e.torn); }
    forall t | t in w.tabs ensures TabOk(w, w.tabs[t]) { assert TabOk(v, v.tabs[t]); }
  }

  lemma StartDisableKeeps(v: Vault, tab: nat)
    requires Inv(v) && Timely(v, StartDisable(tab))
    ensures Inv(AfterStartDisable(v, tab))
  {
    var w := AfterStartDisable(v, tab);
    forall t | t in w.tabs ensures TabOk(w, w.tabs[t]) { assert TabOk(v, v.tabs[t]); }
  }

  lemma FailDisableKeeps(v: Vault, torn: Option<File>)
    requires Inv(v)
    ensures Inv(AfterFailDisable(v, torn))
  {
    var w := AfterFailDisable(v, torn);
    TearKeeps(v, torn);
    forall t | t in w.tabs ensures TabOk(w, w.tabs[t]) { assert TabOk(v, v.tabs[t]); }
  }

  lemma SweepOpenKeeps(v: Vault, file: File)
    requires Inv(v)
    ensures Inv(AfterSweepOpen(v, file))
  {
    FailDisableKeeps(v, None);
    var w := AfterSweepOpen(v, file);
    if w.holder.Disabling? {
      forall t | t in w.tabs ensures TabOk(w, w.tabs[t]) { assert TabOk(v, v.tabs[t]); }
    }
  }

  lemma FinishDisableKeeps(v: Vault)
    requires Inv(v)
    ensures Inv(AfterFinishDisable(v))
  {
    var w := AfterFinishDisable(v);
    forall t | t in w.tabs ensures TabOk(w, w.tabs[t]) { assert TabOk(v, v.tabs[t]); }
  }

  lemma WipeKeeps(v: Vault, tab: nat, refuseIfEnabled: bool, left: set<File>)
    requires Inv(v) && NoneSealed(Left(v.disk, left))
    ensures Inv(AfterWipe(v, tab, refuseIfEnabled, left))
  {
    var w := AfterWipe(v, tab, refuseIfEnabled, left);
    forall t | t in w.tabs ensures TabOk(w, w.tabs[t]) { assert TabOk(v, v.tabs[t]); }
  }

  /** Every timely step keeps the invariant. */
  lemma StepKeeps(v: Vault, e: Event)
    requires Inv(v) && Timely(v, e)
    ensures Inv(Apply(v, e))
  {
    match e
    case OpenTab(_) => TabStepsKeep(v, e);
    case Hear(_) => TabStepsKeep(v, e);
    case Unlock(_, _) => TabStepsKeep(v, e);
    case CloseTab(tab) => CloseTabKeeps(v, tab);
    case LockSave(save, tab, file, text) => LockSaveKeeps(v, save, tab, file, text);
    case BeginSeal(save) => BeginSealKeeps(v, save);
    case Recheck(save) => RecheckKeeps(v, save);
    case Commit(_) => CommitKeeps(v, e);
    case FailSave(_, _) => CommitKeeps(v, e);
    case Delete(_) => CommitKeeps(v, e);
    case StartEnable(tab, freshTag) => StartEnableKeeps(v, tab, freshTag);
    case SweepSeal(file) => SweepSealKeeps(v, file);
    case FailEnable(_) => EnableEndKeeps(v, e);
    case FinishEnable => EnableEndKeeps(v, e);
    case StartDisable(tab) => StartDisableKeeps(v, tab);
    case SweepOpen(file) => SweepOpenKeeps(v, file);
    case FailDisable(torn) => FailDisableKeeps(v, torn);
    case FinishDisable => FinishDisableKeeps(v);
    case Wipe(tab, refuse, left) => WipeKeeps(v, tab, refuse, left);
  }

  /** And so does every timely run, from the start. */
  lemma {:induction false} RunKeeps(es: seq<Event>)
    requires TimelyRun(INITIAL, es)
    ensures Inv(Run(INITIAL, es))
  {
    if es != [] {
      var n := |es| - 1;
      forall k | 0 <= k < n ensures Timely(Run(INITIAL, es[..n][..k]), es[..n][k]) {
        assert es[..n][..k] == es[..k];
        assert Timely(Run(INITIAL, es[..k]), es[k]);
      }
      RunKeeps(es[..n]);
      assert Timely(Run(INITIAL, es[..n]), es[n]);
      StepKeeps(Run(INITIAL, es[..n]), es[n]);
    }
  }
}
