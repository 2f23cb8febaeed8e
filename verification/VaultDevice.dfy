/**
 The vault's code as it runs: module variables of each tab and the storage they
 share, changed in order. Each method is tied to the events of VaultRun, so
 what is proved of runs holds of it; the enabling and disabling bodies are given
 whole, sweep and all, with the entry at which the sweep fails, if it does.
 */
module VaultDevice {
  import opened Options
  import opened AtRest
  import opened VaultRun
  import opened VaultTheorems

  datatype Outcome = Refused | SweepFailed | Done

  /**
   Where a sweep fails, if it comes to it: reading the entry, or writing it, and then with the entry torn or as
   it was.
   */
  datatype Failure = Reading(file: File) | Writing(file: File, torn: bool)

  /** Every entry is still there with its text, but for one torn by a failed write. */
  ghost predicate Survives(was: map<File, Entry>, now: map<File, Entry>, torn: Option<File>) {
    && now.Keys <= was.Keys
    && (forall f :: f in was && torn != Some(f) ==> f in now && now[f].text == was[f].text)
    && (torn.Some? ==> torn.value in was && if torn.value.ReportFile? then torn.value !in now
                                            else torn.value in now && now[torn.value] == Plain(""))
  }

  /** All the entries of before, each with its text. */
  ghost predicate SameTexts(was: map<File, Entry>, now: map<File, Entry>) {
    now.Keys == was.Keys && forall f :: f in was ==> now[f].text == was[f].text
  }

  lemma OneRewritten(was: map<File, Entry>, mid: map<File, Entry>, file: File, entry: Entry)
    requires SameTexts(was, mid) && file in mid && entry.text == mid[file].text
    ensures SameTexts(was, mid[file := entry]) && Swept(mid[file := entry]) == Swept(mid)
  {
  }

  lemma SameTextsSurvive(was: map<File, Entry>, now: map<File, Entry>, torn: Option<File>)
    requires SameTexts(was, now) && (torn.Some? ==> torn.value in now)
    ensures Survives(was, if torn.Some? then Torn(now, torn.value) else now, torn)
  {
  }

  class Device {
    var meta: Option<Meta>
    var userId: Option<string>
    var cleanDisable: bool
    var disk: map<File, Entry>
    var tabs: map<nat, Tab>
    var saves: map<nat, Save>
    var holder: Holder
    var nextCred: nat

    function State(): Vault
      reads this
    {
      Vault(meta, userId, cleanDisable, disk, tabs, saves, holder, nextCred)
    }

    constructor ()
      ensures State() == INITIAL
    {
      meta, userId, cleanDisable := None, None, false;
      disk, tabs, saves, holder, nextCred := map[], map[], map[], Free, 0;
    }

    /** The storage-event handler: drop a session the metadata no longer stands behind. */
    method HandleStorageEvent(tab: nat)
      requires tab in tabs && tabs[tab].behind
      modifies this`tabs
      ensures State() == Apply(old(State()), Hear(tab))
    {
      var t := tabs[tab];
      if meta.None? && t.key.Some? {
        t := t.(key := None, tag := None, cred := None);
      } else if meta.Some? && t.key.Some? && Some(meta.value.cred) != t.cred {
        t := t.(key := None, tag := None, cred := None);
      }
      tabs := tabs[tab := t.(behind := false)];
    }

    /** sealForStorage before its await. */
    method BeginSeal(save: nat) returns (aborted: bool)
      requires save in saves && saves[save].stage.Locked? && saves[save].tab in tabs
                 && AadFor(saves[save].file, "").Some?
      modifies this`saves
      ensures State() == Apply(old(State()), VaultRun.BeginSeal(save))
      ensures aborted <==> meta.Some? && tabs[old(saves[save].tab)].key.None?
    {
      var s := saves[save];
      var t := tabs[s.tab];
      aborted := meta.Some? && t.key.None?;
      if aborted {
        saves := saves - {save};
      } else if t.key.Some? {
        saves := saves[save := s.(stage := Sealing(t.key, Seal(t.key.value, t.tag, s.file, s.text)))];
      } else {
        saves := saves[save := s.(stage := Sealing(None, Plain(s.text)))];
      }
    }

    /** sealForStorage after its await. */
    method RecheckSeal(save: nat) returns (aborted: bool)
      requires save in saves && saves[save].stage.Sealing? && saves[save].tab in tabs
      modifies this`saves
      ensures State() == Apply(old(State()), Recheck(save))
      ensures aborted <==> tabs[old(saves[save].tab)].key != old(saves[save].stage.withKey)
    {
      var s := saves[save];
      aborted := tabs[s.tab].key != s.stage.withKey;
      if aborted {
        saves := saves - {save};
      } else {
        saves := saves[save := s.(stage := Ready(s.stage.out))];
      }
    }

    /** One entry of the encrypting sweep, read, sealed and written back. */
    method SealEntry(file: File)
      requires Inv(State()) && holder.Enabling? && file in holder.todo && file in disk && AadFor(file, "").Some?
      modifies this`disk, this`holder
      ensures State() == Apply(old(State()), SweepSeal(file)) && Inv(State())
      ensures holder == Enabling(old(holder).tab, old(holder).key, old(holder).todo - {file})
      ensures disk == old(disk)[file := disk[file]] && disk[file].text == old(disk)[file].text
    {
      StepKeeps(State(), SweepSeal(file));
      if disk[file].Plain? {
        disk := disk[file := Seal(holder.key, tabs[holder.tab].tag, file, disk[file].text)];
      }
      holder := Enabling(holder.tab, holder.key, holder.todo - {file});
    }

    /**
     A failed sweep leaves the vault on, for the sweep to be tried again, with the entry it was writing perhaps
     torn.
     */
    method StopEnabling(torn: Option<File>)
      requires Inv(State()) && holder.Enabling? && (torn.Some? ==> Rewriting(State(), torn.value))
      modifies this`disk, this`holder
      ensures State() == Apply(old(State()), FailEnable(torn)) && Inv(State()) && holder.Free?
      ensures disk == if torn.Some? then Torn(old(disk), torn.value) else old(disk)
    {
      StepKeeps(State(), FailEnable(torn));
      if torn.Some? { Tear(torn.value); }
      holder := Free;
    }

    /** removeIfTruncated, which the bundles' sweep does without. */
    method Tear(file: File)
      modifies this`disk
      ensures disk == Torn(old(disk), file)
    {
      if file.ReportFile? { disk := disk - {file}; } else { disk := disk[file := Plain("")]; }
    }

    /** enableEncryption up to its sweep: session and metadata first. */
    method BeginEnable(tab: nat, freshTag: string)
      requires Inv(State()) && Exclusive(State()) && tab in tabs && IsTag(freshTag) && meta.None?
      modifies this
      ensures State() == Apply(old(State()), StartEnable(tab, freshTag)) && Inv(State())
      ensures holder == Enabling(tab, old(nextCred), Swept(disk)) && disk == old(disk) && tab in tabs
      ensures meta.Some? && meta.value.cred == old(nextCred)
    {
      StepKeeps(State(), StartEnable(tab, freshTag));
      if userId.None? { userId := Some(freshTag); }
      var cred := nextCred;
      nextCred := nextCred + 1;
      tabs := tabs[tab := tabs[tab].(key := Some(cred), tag := userId, cred := Some(cred))];
      meta := Some(Meta(cred, userId.value));
      tabs := Raise(tabs, tab);
      holder := Enabling(tab, cred, Swept(disk));
    }

    method SealNext(file: File, ghost was: map<File, Entry>, ghost start: Vault, ghost before: seq<Event>)
        returns (ghost es: seq<Event>)
      requires Inv(State()) && holder.Enabling? && file in holder.todo && holder.todo <= Swept(disk)
      requires State() == Run(start, before) && SameTexts(was, disk)
      modifies this`disk, this`holder
      ensures State() == Run(start, es) && Inv(State())
      ensures holder == Enabling(old(holder).tab, old(holder).key, old(holder).todo - {file})
      ensures holder.todo <= Swept(disk) && SameTexts(was, disk)
    {
      ghost var mid := disk;
      RunMore(start, before, SweepSeal(file));
      es := before + [SweepSeal(file)];
      SealEntry(file);
      OneRewritten(was, mid, file, disk[file]);
    }

    /** The encrypting sweep over every entry, unless it fails at one; a failing write may tear what it writes. */
    method EncryptSweep(fails: Option<Failure>, ghost start: Vault, ghost before: seq<Event>)
        returns (failed: bool, torn: Option<File>, ghost es: seq<Event>)
      requires Inv(State()) && holder.Enabling? && holder.todo <= Swept(disk) && State() == Run(start, before)
      modifies this`disk, this`holder
      ensures State() == Run(start, es) && Inv(State()) && holder.Enabling? && holder.tab == old(holder).tab
      ensures !failed ==> holder.todo == {} && torn.None?
      ensures failed ==> fails.Some? && fails.value.file in old(holder).todo
                         && (torn.Some? <==> fails.value.Writing? && fails.value.torn)
      ensures torn.Some? ==> torn.value == fails.value.file && Rewriting(State(), torn.value)
      ensures SameTexts(old(disk), disk)
    {
      es, torn := before, None;
      ghost var was, h := disk, holder;
      while holder.todo != {}
        invariant Inv(State()) && holder.Enabling? && holder.todo <= h.todo && holder.todo <= Swept(disk)
                    && State() == Run(start, es)
        invariant holder.tab == h.tab && torn.None?
        invariant SameTexts(was, disk)
        decreases |holder.todo|
      {
        var file :| file in holder.todo;
        if fails.Some? && fails.value.file == file && (fails.value.Reading? || disk[file].Plain?) {
          failed := true;
          torn := if fails.value.Writing? && fails.value.torn then Some(file) else None;
          return;
        }
        es := SealNext(file, was, start, es);
      }
      failed := false;
    }

    /** What a completed enable leaves. */
    ghost predicate AllSealed()
      reads this
    {
      meta.Some? && forall f :: f in disk && AadFor(f, "").Some? ==> disk[f].Sealed? && disk[f].cred == meta.value.cred
    }

    method EndEnable()
      requires Inv(State()) && holder.Enabling? && holder.todo == {}
      modifies this`cleanDisable, this`holder
      ensures State() == Apply(old(State()), FinishEnable) && Inv(State()) && AllSealed() && holder.Free?
    {
      forall f | f in disk && AadFor(f, "").Some? ensures disk[f].Sealed? && disk[f].cred == meta.value.cred {
        CompletedEnableSealsAll(State(), f);
      }
      StepKeeps(State(), FinishEnable);
      cleanDisable := false;
      holder := Free;
    }

    /** enableEncryption once it is not refused: the sweep may fail at any entry; the vault then stays on. */
    method EnableAndSweep(tab: nat, freshTag: string, fails: Option<Failure>)
        returns (failed: bool, torn: Option<File>, ghost es: seq<Event>)
      requires Inv(State()) && Exclusive(State()) && tab in tabs && IsTag(freshTag) && meta.None?
      modifies this
      ensures State() == Run(old(State()), es) && Inv(State()) && holder.Free?
      ensures meta.Some? && meta.value.cred == old(nextCred)
      ensures !failed ==> AllSealed() && torn.None?
      ensures torn.Some? ==> fails == Some(Writing(torn.value, true))
      ensures Survives(old(disk), disk, torn)
    {
      ghost var start := State();
      RunMore(start, [], StartEnable(tab, freshTag));
      BeginEnable(tab, freshTag);
      failed, torn, es := EncryptSweep(fails, start, [] + [StartEnable(tab, freshTag)]);
      SameTextsSurvive(old(disk), disk, torn);
      if failed {
        RunMore(start, es, FailEnable(torn));
        es := es + [FailEnable(torn)];
        StopEnabling(torn);
      } else {
        RunMore(start, es, FinishEnable);
        es := es + [FinishEnable];
        EndEnable();
      }
    }

    /** enableEncryption before its lock: an abandoned vault is refused unless acknowledged. */
    method AskAboutOrphan(acknowledged: bool) returns (refused: bool)
      ensures refused <==> Orphaned(State()) && !acknowledged
    {
      refused := meta.None? && !cleanDisable && userId.Some? && !acknowledged;
    }

    /** enableEncryption inside its lock: refused under a vault already on. */
    method EnableEncryption(tab: nat, freshTag: string, fails: Option<Failure>)
        returns (outcome: Outcome, torn: Option<File>, ghost es: seq<Event>)
      requires Inv(State()) && Exclusive(State()) && tab in tabs && IsTag(freshTag)
      modifies this
      ensures State() == Run(old(State()), es) && Inv(State()) && holder.Free?
      ensures outcome.Refused? <==> old(meta).Some?
      ensures outcome.Refused? ==> State() == old(State())
      ensures !outcome.Refused? ==> meta.Some? && meta.value.cred == old(nextCred)
      ensures outcome.Done? ==> AllSealed()
      ensures torn.Some? ==> outcome.SweepFailed? && fails == Some(Writing(torn.value, true))
      ensures Survives(old(disk), disk, torn)
    {
      if meta.Some? { return Refused, None, []; }
      var failed;
      failed, torn, es := EnableAndSweep(tab, freshTag, fails);
      outcome := if failed then SweepFailed else Done;
    }

    /** A failed sweep gives back the metadata and the session; the entry it was writing is perhaps torn. */
    method RollBack(torn: Option<File>)
      requires holder.Disabling? && holder.tab in tabs && (torn.Some? ==> Rewriting(State(), torn.value))
      modifies this`meta, this`disk, this`tabs, this`holder
      ensures State() == Apply(old(State()), FailDisable(torn))
      ensures disk == if torn.Some? then Torn(old(disk), torn.value) else old(disk)
    {
      var tab := holder.tab;
      if torn.Some? { Tear(torn.value); }
      meta := Some(holder.meta);
      tabs := Raise(tabs[tab := tabs[tab].(key := Some(holder.key), cred := Some(holder.meta.cred))], tab);
      holder := Free;
    }

    /** One entry of the decrypting sweep that opens. */
    method OpenEntry(file: File)
      requires Inv(State()) && holder.Disabling? && file in holder.todo && file in disk && AadFor(file, "").Some?
      modifies this`disk, this`holder
      ensures State() == Apply(old(State()), SweepOpen(file)) && Inv(State())
      ensures holder == Disabling(old(holder).tab, old(holder).meta, old(holder).key, old(holder).todo - {file})
      ensures disk == old(disk)[file := Plain(old(disk)[file].text)]
    {
      assert Openable(disk[file], file, Opener(State()));
      StepKeeps(State(), SweepOpen(file));
      disk := disk[file := Plain(disk[file].text)];
      holder := Disabling(holder.tab, holder.meta, holder.key, holder.todo - {file});
    }

    method OpenNext(file: File, ghost was: map<File, Entry>, ghost start: Vault, ghost before: seq<Event>)
        returns (ghost es: seq<Event>)
      requires Inv(State()) && holder.Disabling? && file in holder.todo && holder.todo <= Swept(disk)
      requires State() == Run(start, before) && SameTexts(was, disk)
      modifies this`disk, this`holder
      ensures State() == Run(start, es) && Inv(State())
      ensures holder == Disabling(old(holder).tab, old(holder).meta, old(holder).key, old(holder).todo - {file})
      ensures holder.todo <= Swept(disk) && SameTexts(was, disk)
    {
      ghost var mid := disk;
      RunMore(start, before, SweepOpen(file));
      es := before + [SweepOpen(file)];
      OpenEntry(file);
      OneRewritten(was, mid, file, disk[file]);
    }

    /** The decrypting sweep over every entry, unless it fails at one; a failing write may tear what it writes. */
    method DecryptSweep(fails: Option<Failure>, ghost start: Vault, ghost before: seq<Event>)
        returns (failed: bool, torn: Option<File>, ghost es: seq<Event>)
      requires Inv(State()) && holder.Disabling? && holder.todo <= Swept(disk) && State() == Run(start, before)
      modifies this`disk, this`holder
      ensures State() == Run(start, es) && Inv(State()) && holder.Disabling?
      ensures holder.tab == old(holder).tab && holder.meta == old(holder).meta && holder.key == old(holder).key
      ensures !failed ==> holder.todo == {} && torn.None?
      ensures failed ==> fails.Some? && fails.value.file in old(holder).todo
                         && (torn.Some? <==> fails.value.Writing? && fails.value.torn)
      ensures torn.Some? ==> torn.value == fails.value.file && Rewriting(State(), torn.value)
      ensures SameTexts(old(disk), disk)
    {
      es, torn := before, None;
      ghost var was, h := disk, holder;
      while holder.todo != {}
        invariant Inv(State()) && holder.Disabling? && holder.todo <= h.todo && holder.todo <= Swept(disk)
                    && State() == Run(start, es)
        invariant holder.tab == h.tab && holder.meta == h.meta && holder.key == h.key && torn.None?
        invariant SameTexts(was, disk)
        decreases |holder.todo|
      {
        var file :| file in holder.todo;
        if fails.Some? && fails.value.file == file && (fails.value.Reading? || disk[file].Sealed?) {
          failed := true;
          torn := if fails.value.Writing? && fails.value.torn then Some(file) else None;
          return;
        }
        es := OpenNext(file, was, start, es);
      }
      failed := false;
    }

    /** disableEncryption up to its sweep: metadata and key go first, the tag stays. */
    method BeginDisable(tab: nat)
      requires Inv(State()) && Exclusive(State()) && tab in tabs && !tabs[tab].behind
      requires meta.Some? && tabs[tab].key.Some?
      modifies this`meta, this`tabs, this`holder
      ensures State() == Apply(old(State()), StartDisable(tab)) && Inv(State())
      ensures holder == Disabling(tab, old(meta).value, old(meta).value.cred, Swept(disk))
      ensures old(tabs)[tab] == Tab(Some(old(meta).value.cred), Some(old(meta).value.tag), Some(old(meta).value.cred),
                false)
    {
      StepKeeps(State(), StartDisable(tab));
      DisableTakes(State(), tab);
      var m, key := meta.value, tabs[tab].key.value;
      meta := None;
      tabs := Raise(tabs[tab := tabs[tab].(key := None, cred := None)], tab);
      holder := Disabling(tab, m, key, Swept(disk));
    }

    method EndDisable()
      requires Inv(State()) && holder.Disabling? && holder.todo == {}
      modifies this`tabs, this`cleanDisable, this`holder
      ensures State() == Apply(old(State()), FinishDisable) && Inv(State()) && holder.Free?
      ensures meta.None? && NoneSealed(disk) && NoSession(tabs, old(holder).tab)
    {
      CompletedDisableLeavesPlain(State());
      StepKeeps(State(), FinishDisable);
      tabs := tabs[holder.tab := tabs[holder.tab].(tag := None)];
      cleanDisable := true;
      holder := Free;
    }

    /** The rest of disableEncryption after a failed sweep. */
    method EndFailed(torn: Option<File>)
      requires Inv(State()) && holder.Disabling? && (torn.Some? ==> Rewriting(State(), torn.value))
      modifies this`meta, this`disk, this`tabs, this`holder
      ensures State() == Apply(old(State()), FailDisable(torn)) && Inv(State()) && holder.Free?
      ensures meta == Some(old(holder).meta) && old(holder).tab in tabs
      ensures tabs[old(holder).tab].(behind := false)
                == Tab(Some(meta.value.cred), Some(meta.value.tag), Some(meta.value.cred), false)
      ensures disk == if torn.Some? then Torn(old(disk), torn.value) else old(disk)
    {
      StepKeeps(State(), FailDisable(torn));
      DisableGivesBack(State(), torn);
      RollBack(torn);
    }

    /**
     disableEncryption inside its lock: metadata and key go first, every entry is opened, and a failure part-way puts
     metadata and session back.
     */
    method DisableEncryption(tab: nat, fails: Option<Failure>)
        returns (outcome: Outcome, torn: Option<File>, ghost es: seq<Event>)
      requires Inv(State()) && Exclusive(State()) && tab in tabs && !tabs[tab].behind
      modifies this
      ensures State() == Run(old(State()), es) && Inv(State()) && holder.Free?
      ensures outcome.Refused? <==> old(meta).None? || old(tabs)[tab].key.None?
      ensures outcome.Refused? ==> State() == old(State())
      ensures outcome.SweepFailed? ==> meta == old(meta) && SameSession(tabs, tab, old(tabs)[tab])
      ensures outcome.Done? ==> meta.None? && NoneSealed(disk) && NoSession(tabs, tab)
      ensures torn.Some? ==> outcome.SweepFailed? && fails == Some(Writing(torn.value, true))
      ensures Survives(old(disk), disk, torn)
    {
      es := [];
      if meta.None? || tabs[tab].key.None? { return Refused, None, es; }
      ghost var start := State();
      RunMore(start, es, StartDisable(tab));
      es := es + [StartDisable(tab)];
      BeginDisable(tab);
      var failed;
      failed, torn, es := DecryptSweep(fails, start, es);
      SameTextsSurvive(old(disk), disk, torn);
      if failed {
        RunMore(start, es, FailDisable(torn));
        es := es + [FailDisable(torn)];
        EndFailed(torn);
        outcome := SweepFailed;
      } else {
        RunMore(start, es, FinishDisable);
        es := es + [FinishDisable];
        EndDisable();
        outcome := Done;
      }
    }
  }

  predicate NoSession(tabs: map<nat, Tab>, tab: nat) {
    tab in tabs && tabs[tab].key.None? && tabs[tab].tag.None? && tabs[tab].cred.None?
  }

  predicate SameSession(tabs: map<nat, Tab>, tab: nat, was: Tab) {
    tab in tabs && tabs[tab].key == was.key && tabs[tab].tag == was.tag && tabs[tab].cred == was.cred
  }
}
