/**
 What the vault's runs guarantee: what is sealed can be opened, what is swept is
 swept whole, a failed disable puts back what it took; and exactly when a step
 that depends on outside timing keeps that.
 */
module VaultTheorems {
  import opened Options
  import opened AtRest
  import opened VaultRun

  /**
   In every timely run, whatever is sealed at rest opens under the credential
   the metadata names, or the one being decrypted with, under its identity tag
   and at its own file.
   */
  lemma SealedEntriesOpen(es: seq<Event>, f: File)
    requires TimelyRun(INITIAL, es) && f in Run(INITIAL, es).disk && Run(INITIAL, es).disk[f].Sealed?
    ensures var v := Run(INITIAL, es);
            && Opener(v).Some? && AadFor(f, Opener(v).value.tag).Some?
            && Opens(v.disk[f], Opener(v).value.cred, AadFor(f, Opener(v).value.tag).value)
  {
    RunKeeps(es);
    assert Openable(Run(INITIAL, es).disk[f], f, Opener(Run(INITIAL, es)));
  }

  /** Two places in storage that an envelope cannot tell apart. */
  predicate SamePlace(f: File, g: File) {
    f == g || (f.BundleFile? && g.BundleFile? && BundleSlot(f.key) == BundleSlot(g.key))
  }

  /** Names of stored files hold no slash, so that bundle files of one slot are one file. */
  lemma {:induction false} SlotNamesFile(key: string, other: string)
    requires '/' !in key && '/' !in other && BundleSlot(key).Some? && BundleSlot(key) == BundleSlot(other)
    ensures key == other
  {
    MetaSlotIsReserved(key);
    MetaSlotIsReserved(other);
    if key != META_FILE {
      var slot := Replaced(key, '_', '/');
      assert |key| == |slot| == |other|;
      forall i | 0 <= i < |key| ensures key[i] == other[i] {
        assert slot[i] == Replaced(other, '_', '/')[i] && key[i] in key && other[i] in other;
      }
    }
  }

  /** A sealed entry, moved anywhere, opens with its own key exactly at its own place and under its own tag. */
  lemma MovedEntryOpensIff(es: seq<Event>, f: File, g: File, tag: string)
    requires TimelyRun(INITIAL, es) && f in Run(INITIAL, es).disk && Run(INITIAL, es).disk[f].Sealed?
    requires IsTag(tag) && AadFor(g, tag).Some?
    ensures Opener(Run(INITIAL, es)).Some?
    ensures Opens(Run(INITIAL, es).disk[f], Run(INITIAL, es).disk[f].cred, AadFor(g, tag).value) <==>
              SamePlace(f, g) && tag == Opener(Run(INITIAL, es)).value.tag
  {
    RunKeeps(es);
    SealedEntriesOpen(es, f);
    var v := Run(INITIAL, es);
    assert IsTag(Opener(v).value.tag);
    if AadFor(g, tag) == AadFor(f, Opener(v).value.tag) {
      AadBinds(f, Opener(v).value.tag, g, tag);
    }
  }

  /** A save that lands while the vault is on lands sealed, with the saved text. */
  lemma NothingPlainLands(v: Vault, save: nat)
    requires Inv(v) && save in v.saves && v.saves[save].stage.Ready?
    ensures var s, w := v.saves[save], Apply(v, Commit(save));
            && s.file in w.disk && w.disk[s.file].text == s.text
            && (v.meta.Some? <==> w.disk[s.file].Sealed?)
  {
    assert SaveOk(v, v.saves[save]);
  }

  /** A completed enable leaves every swept entry sealed, to the credential just registered. */
  lemma CompletedEnableSealsAll(v: Vault, f: File)
    requires Inv(v) && v.holder.Enabling? && v.holder.todo == {}
    requires f in v.disk && AadFor(f, "").Some?
    ensures var w := Apply(v, FinishEnable);
            && w.holder.Free? && w.meta == v.meta && w.meta.Some? && !w.cleanDisable
            && w.disk[f].Sealed? && w.disk[f].cred == w.meta.value.cred
  {
    assert Openable(v.disk[f], f, Opener(v));
  }

  /** A completed disable leaves every entry plain, no metadata, and no session. */
  lemma CompletedDisableLeavesPlain(v: Vault)
    requires Inv(v) && v.holder.Disabling? && v.holder.todo == {}
    ensures var w := Apply(v, FinishDisable);
            && w.holder.Free? && w.meta.None? && w.cleanDisable && NoneSealed(w.disk) && !Orphaned(w)
            && w.tabs[v.holder.tab].key.None? && w.tabs[v.holder.tab].tag.None? && w.tabs[v.holder.tab].cred.None?
  {
    assert TabOk(v, v.tabs[v.holder.tab]);
  }

  /** Disabling by one tab, with what it took in hand. */
  ghost predicate DisablingStill(v: Vault, tab: nat, meta: Meta, key: nat) {
    v.holder.Disabling? && v.holder.tab == tab && v.holder.meta == meta && v.holder.key == key
  }

  ghost predicate DisablingThroughout(v: Vault, es: seq<Event>) {
    forall n :: 0 <= n <= |es| ==> Run(v, es[..n]).holder.Disabling?
  }

  lemma {:induction false} HolderStays(v: Vault, es: seq<Event>, tab: nat, meta: Meta, key: nat)
    requires Inv(v) && DisablingStill(v, tab, meta, key) && DisablingThroughout(v, es) && TimelyRun(v, es)
    ensures Inv(Run(v, es)) && DisablingStill(Run(v, es), tab, meta, key)
  {
    if es != [] {
      var n := |es| - 1;
      assert es[..n + 1] == es;
      ThroughoutInit(v, es);
      HolderStays(v, es[..n], tab, meta, key);
      assert Timely(Run(v, es[..n]), es[n]);
      StepKeeps(Run(v, es[..n]), es[n]);
      assert Run(v, es).holder.Disabling?;
      HolderSame(Run(v, es[..n]), es[n]);
    }
  }

  lemma ThroughoutInit(v: Vault, es: seq<Event>)
    requires es != [] && DisablingThroughout(v, es) && TimelyRun(v, es)
    ensures DisablingThroughout(v, es[..|es| - 1]) && TimelyRun(v, es[..|es| - 1])
  {
    var init := es[..|es| - 1];
    forall k | 0 <= k <= |init| ensures Run(v, init[..k]).holder.Disabling? {
      assert init[..k] == es[..k];
      assert Run(v, es[..k]).holder.Disabling?;
    }
    forall k | 0 <= k < |init| ensures Timely(Run(v, init[..k]), init[k]) {
      assert init[..k] == es[..k];
      assert Timely(Run(v, es[..k]), es[k]);
    }
  }

  /** One disable ends before another begins. */
  lemma HolderSame(v: Vault, e: Event)
    requires v.holder.Disabling? && Apply(v, e).holder.Disabling?
    ensures var h := Apply(v, e).holder;
            h.tab == v.holder.tab && h.meta == v.holder.meta && h.key == v.holder.key
  {
  }

  /**
   A disable whose sweep fails, wherever it fails and whatever happened in
   between, leaves the metadata and the tab's session as they were before it.
   */
  lemma FailedDisableRestores(v: Vault, tab: nat, es: seq<Event>, torn: Option<File>)
    requires Inv(v) && v.holder.Free? && tab in v.tabs && !v.tabs[tab].behind
    requires var w := Apply(v, StartDisable(tab)); DisablingThroughout(w, es) && TimelyRun(w, es)
    ensures var u := Apply(Run(Apply(v, StartDisable(tab)), es), FailDisable(torn));
            && u.holder.Free? && u.meta == v.meta && tab in u.tabs
            && u.tabs[tab].key == v.tabs[tab].key && u.tabs[tab].cred == v.tabs[tab].cred
            && u.tabs[tab].tag == v.tabs[tab].tag
  {
    var w := Apply(v, StartDisable(tab));
    assert es[..0] == [] && Run(w, es[..0]).holder.Disabling?;
    DisableTakes(v, tab);
    StepKeeps(v, StartDisable(tab));
    HolderStays(w, es, tab, v.meta.value, v.tabs[tab].key.value);
    DisableGivesBack(Run(w, es), torn);
  }

  lemma DisableTakes(v: Vault, tab: nat)
    requires Inv(v) && v.holder.Free? && tab in v.tabs && !v.tabs[tab].behind
               && Apply(v, StartDisable(tab)).holder.Disabling?
    ensures v.meta.Some? && v.tabs[tab] == Tab(Some(v.meta.value.cred), Some(v.meta.value.tag),
              Some(v.meta.value.cred), false)
    ensures DisablingStill(Apply(v, StartDisable(tab)), tab, v.meta.value, v.meta.value.cred)
  {
    assert TabOk(v, v.tabs[tab]);
  }

  lemma DisableGivesBack(v: Vault, torn: Option<File>)
    requires Inv(v) && v.holder.Disabling?
    ensures var u, m := Apply(v, FailDisable(torn)), v.holder.meta;
            && u.holder.Free? && u.meta == Some(m) && v.holder.tab in u.tabs
            && u.tabs[v.holder.tab].(behind := false) == Tab(Some(m.cred), Some(m.tag), Some(m.cred), false)
  {}

  /** The step is a sweep failing in the write of this entry, with the entry torn. */
  predicate Tears(v: Vault, e: Event, f: File) {
    Rewriting(v, f) && if v.holder.Enabling? then e == FailEnable(Some(f))
      else e == FailDisable(Some(f)) && v.holder.tab in v.tabs
  }

  /**
   No step but a landing save, a failed save, a delete or a wipe changes what any entry says, except that a sweep
   failing in a write may tear the one entry it writes.
   */
  lemma StepsKeepText(v: Vault, e: Event, f: File)
    requires !e.Commit? && !e.FailSave? && !e.Delete? && !e.Wipe?
    ensures if Tears(v, e, f) then Apply(v, e).disk == Torn(v.disk, f)
            else
              (f in Apply(v, e).disk <==> f in v.disk) && (f in v.disk ==> Apply(v, e).disk[f].text == v.disk[f].text)
  {}

  /** An unlocked tab no sibling has outrun opens every sealed entry with what it holds. */
  lemma UnlockedTabReads(v: Vault, tab: nat, f: File)
    requires Inv(v) && tab in v.tabs && v.tabs[tab].key.Some? && !v.tabs[tab].behind
    requires f in v.disk && v.disk[f].Sealed?
    ensures v.tabs[tab].tag.Some? && AadFor(f, v.tabs[tab].tag.value).Some?
    ensures Opens(v.disk[f], v.tabs[tab].key.value, AadFor(f, v.tabs[tab].tag.value).value)
  {
    assert TabOk(v, v.tabs[tab]) && Openable(v.disk[f], f, Opener(v));
  }

  // ---- exactly when the steps that depend on timing keep the invariant ----

  /** A recheck that passes keeps it exactly when the session's key is the metadata's credential's. */
  lemma RecheckKeepsIff(v: Vault, save: nat)
    requires Inv(v) && save in v.saves && v.saves[save].stage.Sealing?
    requires v.tabs[v.saves[save].tab].key == v.saves[save].stage.withKey
    ensures var key := v.saves[save].stage.withKey;
            Inv(Apply(v, Recheck(save))) <==> (key.Some? ==> v.meta.Some? && key.value == v.meta.value.cred)
  {
    var s, w := v.saves[save], Apply(v, Recheck(save));
    assert SaveOk(v, s);
    assert w == v.(saves := v.saves[save := s.(stage := Ready(s.stage.out))]);
    if s.stage.withKey.Some? ==> v.meta.Some? && s.stage.withKey.value == v.meta.value.cred {
      assert SaveOk(v, w.saves[save]);
      OneSaveChanged(v, save, w.saves[save]);
    } else {
      assert !SaveOk(w, w.saves[save]);
    }
  }

  /** A disable that starts keeps it exactly when the key it takes is the metadata's credential's. */
  lemma StartDisableKeepsIff(v: Vault, tab: nat)
    requires Inv(v) && Exclusive(v) && tab in v.tabs && v.meta.Some? && v.tabs[tab].key.Some?
    ensures Inv(Apply(v, StartDisable(tab))) <==> v.tabs[tab].key.value == v.meta.value.cred
  {
    var w := Apply(v, StartDisable(tab));
    assert TabOk(v, v.tabs[tab]);
    if v.tabs[tab].key.value == v.meta.value.cred {
      forall t | t in w.tabs ensures TabOk(w, w.tabs[t]) { assert TabOk(v, v.tabs[t]); }
      forall f | f in w.disk ensures Openable(w.disk[f], f, Opener(w)) { assert Openable(v.disk[f], f, Opener(v)); }
    } else {
      assert !HolderOk(w);
    }
  }

  /** A wipe keeps it exactly when what it could not remove holds nothing sealed. */
  lemma WipeKeepsIff(v: Vault, tab: nat, left: set<File>)
    requires Inv(v) && Exclusive(v) && tab in v.tabs
    ensures Inv(Apply(v, Wipe(tab, false, left))) <==> NoneSealed(Left(v.disk, left))
  {
    var w := Apply(v, Wipe(tab, false, left));
    if NoneSealed(Left(v.disk, left)) {
      StepKeeps(v, Wipe(tab, false, left));
    } else {
      var f :| f in w.disk && w.disk[f].Sealed?;
      assert !Openable(w.disk[f], f, Opener(w));
    }
  }

  /** A page that goes away while disabling keeps it exactly when nothing sealed was left to visit. */
  lemma CloseWhileDisablingKeepsIff(v: Vault)
    requires Inv(v) && v.holder.Disabling?
    ensures Inv(Apply(v, CloseTab(v.holder.tab))) <==> NoneSealed(v.disk)
  {
    var w := Apply(v, CloseTab(v.holder.tab));
    forall t | t in w.tabs ensures TabOk(w, w.tabs[t]) { assert TabOk(v, v.tabs[t]); }
    if !NoneSealed(v.disk) {
      var f :| f in w.disk && w.disk[f].Sealed?;
      assert !Openable(w.disk[f], f, Opener(w));
    }
  }

  // ---- that the premises are needed ----

  /** Something sealed that neither the metadata nor a disabler's key opens. */
  ghost predicate Stranded(v: Vault) {
    exists f :: f in v.disk && !Openable(v.disk[f], f, Opener(v))
  }

  lemma RunMore(v: Vault, es: seq<Event>, e: Event)
    ensures Run(v, es + [e]) == Apply(Run(v, es), e)
  {
    assert (es + [e])[..|es|] == es;
  }

  lemma RunFour(v: Vault, a: Event, b: Event, c: Event, d: Event)
    ensures Run(v, [a, b, c, d]) == Apply(Apply(Apply(Apply(v, a), b), c), d)
  {
    RunMore(v, [], a);
    RunMore(v, [a], b);
    RunMore(v, [a, b], c);
    RunMore(v, [a, b, c], d);
    assert [] + [a] == [a] && [a] + [b] == [a, b] && [a, b] + [c] == [a, b, c] && [a, b, c] + [d] == [a, b, c, d];
  }

  lemma {:induction false} RunTwice(v: Vault, es: seq<Event>, more: seq<Event>)
    ensures Run(v, es + more) == Run(Run(v, es), more)
  {
    if more == [] {
      assert es + more == es;
    } else {
      var n := |more| - 1;
      RunTwice(v, es, more[..n]);
      assert (es + more)[..|es| + n] == es + more[..n];
    }
  }

  const FILE := ReportFile("r")
  const UNLOCKED := Tab(Some(0), Some("u"), Some(0), false)
  const BEHIND := Tab(Some(0), Some("u"), Some(0), true)

  /** Tab 0 has enabled, tab 1 has heard and unlocked. */
  const BOTH_UNLOCKED := Vault(Some(Meta(0, "u")), Some("u"), false, map[], map[0 := UNLOCKED, 1 := UNLOCKED], map[],
    Free, 1)

  /** Tab 0 has disabled since, and tab 1 has not heard. */
  const LATE := Vault(None, Some("u"), true, map[], map[0 := NO_SESSION, 1 := BEHIND], map[], Free, 1)

  const ENABLES := [OpenTab(0), OpenTab(1), StartEnable(0, "u"), FinishEnable]
  const JOINS_AND_DISABLES := [Hear(1), Unlock(1, 0), StartDisable(0), FinishDisable]
  const SAVES := [LockSave(0, 1, FILE, "text"), BeginSeal(0), Recheck(0), Commit(0)]

  lemma EnablesTo()
    ensures Run(INITIAL, ENABLES) == BOTH_UNLOCKED.(tabs := map[0 := UNLOCKED, 1 := NO_SESSION.(behind := true)])
  {
    RunFour(INITIAL, OpenTab(0), OpenTab(1), StartEnable(0, "u"), FinishEnable);
    var v := Apply(Apply(INITIAL, OpenTab(0)), OpenTab(1));
    assert v.tabs == map[0 := NO_SESSION, 1 := NO_SESSION];
    assert Swept(v.disk) == {};
    assert Apply(v, StartEnable(0, "u")).tabs == map[0 := UNLOCKED, 1 := NO_SESSION.(behind := true)];
  }

  lemma DisablesTo()
    ensures Run(BOTH_UNLOCKED.(tabs := map[0 := UNLOCKED, 1 := NO_SESSION.(behind := true)]), JOINS_AND_DISABLES)
              == LATE
  {
    var v := BOTH_UNLOCKED.(tabs := map[0 := UNLOCKED, 1 := NO_SESSION.(behind := true)]);
    RunFour(v, Hear(1), Unlock(1, 0), StartDisable(0), FinishDisable);
    Joins(v);
    Disables();
  }

  lemma Joins(v: Vault)
    requires v == BOTH_UNLOCKED.(tabs := map[0 := UNLOCKED, 1 := NO_SESSION.(behind := true)])
    ensures Apply(Apply(v, Hear(1)), Unlock(1, 0)) == BOTH_UNLOCKED
  {
    assert Apply(v, Hear(1)).tabs == map[0 := UNLOCKED, 1 := NO_SESSION];
    assert Apply(Apply(v, Hear(1)), Unlock(1, 0)).tabs == map[0 := UNLOCKED, 1 := UNLOCKED];
  }

  lemma Disables()
    ensures Apply(Apply(BOTH_UNLOCKED, StartDisable(0)), FinishDisable) == LATE
  {
    assert Swept(BOTH_UNLOCKED.disk) == {};
    assert Apply(BOTH_UNLOCKED, StartDisable(0)).tabs == map[0 := Tab(None, Some("u"), None, false), 1 := BEHIND];
  }

  /**
   A sibling's disable heard too late: a tab seals with the key it still holds,
   the recheck sees the same key, and what lands opens with nothing the vault names.
   */
  lemma LateEventStrands()
    ensures Stranded(Run(INITIAL, ENABLES + JOINS_AND_DISABLES + SAVES))
    ensures !Timely(Run(INITIAL, ENABLES + JOINS_AND_DISABLES + SAVES[..2]), Recheck(0))
  {
    EnablesTo();
    DisablesTo();
    RunTwice(INITIAL, ENABLES, JOINS_AND_DISABLES);
    RunTwice(INITIAL, ENABLES + JOINS_AND_DISABLES, SAVES);
    RunTwice(INITIAL, ENABLES + JOINS_AND_DISABLES, SAVES[..2]);
    SealsUnheard(LATE);
    SavesUnheard(LATE);
    assert !Openable(Run(LATE, SAVES).disk[FILE], FILE, Opener(Run(LATE, SAVES)));
  }

  /** Tab 1 holding the first key, and no lock but its own to wait for. */
  ghost predicate MaySave(v: Vault) {
    v.holder.Free? && v.saves == map[] && 1 in v.tabs && v.tabs[1].key == Some(0) && v.tabs[1].tag == Some("u")
  }

  lemma SealsUnheard(v: Vault)
    requires MaySave(v)
    ensures var w := Run(v, SAVES[..2]);
            && w == v.(saves := w.saves) && w.saves.Keys == {0} && w.saves[0].tab == 1 && w.saves[0].file == FILE
            && w.saves[0].stage.Sealing? && w.saves[0].stage.withKey == Some(0)
            && w.saves[0].stage.out.Sealed? && w.saves[0].stage.out.cred == 0
  {
    RunMore(v, [], SAVES[0]);
    RunMore(v, [SAVES[0]], SAVES[1]);
    assert SAVES[..2] == [SAVES[0]] + [SAVES[1]] && [] + [SAVES[0]] == [SAVES[0]];
    LocksFile(v);
    SealsLocked(v.(saves := map[0 := Save(1, FILE, "text", Locked)]));
  }

  lemma LocksFile(v: Vault)
    requires MaySave(v)
    ensures Apply(v, SAVES[0]) == v.(saves := map[0 := Save(1, FILE, "text", Locked)])
  {
    assert v.saves[0 := Save(1, FILE, "text", Locked)] == map[0 := Save(1, FILE, "text", Locked)];
  }

  lemma SealsLocked(v: Vault)
    requires v.saves == map[0 := Save(1, FILE, "text", Locked)] && 1 in v.tabs && v.tabs[1].key == Some(0)
               && v.tabs[1].tag == Some("u")
    ensures var w := Apply(v, SAVES[1]);
            && w == v.(saves := w.saves) && w.saves.Keys == {0} && w.saves[0].tab == 1 && w.saves[0].file == FILE
            && w.saves[0].stage.Sealing? && w.saves[0].stage.withKey == Some(0)
            && w.saves[0].stage.out.Sealed? && w.saves[0].stage.out.cred == 0
  {
  }

  lemma SavesUnheard(v: Vault)
    requires MaySave(v)
    ensures var w := Run(v, SAVES);
            w.meta == v.meta && w.holder.Free? && FILE in w.disk && w.disk[FILE].Sealed? && w.disk[FILE].cred == 0
  {
    SealsUnheard(v);
    var w := Run(v, SAVES[..2]);
    RunMore(v, SAVES[..2], SAVES[2]);
    RunMore(v, SAVES[..3], SAVES[3]);
    assert SAVES[..3] == SAVES[..2] + [SAVES[2]] && SAVES == SAVES[..3] + [SAVES[3]];
    var x := Apply(w, SAVES[2]);
    assert x.saves[0].stage == Ready(w.saves[0].stage.out) && x.saves[0].file == FILE;
  }

  /** Tab 0 has enabled again, to a new credential, with a report on disk; tab 1 still has not heard. */
  const REKEYED := Vault(Some(Meta(1, "u")), Some("u"), false,
    map[FILE := Sealed(1, OPFS_PREFIX + "u" + "|" + "r", "old")],
                         map[0 := Tab(Some(1), Some("u"), Some(1), false), 1 := BEHIND], map[], Free, 2)

  const DISABLES_LATE := [StartDisable(1), SweepOpen(FILE), Hear(1), Hear(0)]

  /** The old key under the new credential's name, and nothing left to hear. */
  const MISPAIRED := REKEYED.(tabs := map[0 := Tab(Some(1), Some("u"), Some(1), false),
    1 := Tab(Some(0), Some("u"), Some(1), false)])

  /**
   A disable begun before a sibling's re-enable is heard: the sweep fails, and
   what comes back pairs the old key with the new credential, so that hearing of
   it no longer drops the key, and the tab's next save strands.
   */
  lemma LateDisableMispairs()
    ensures Run(INITIAL, TO_REKEYED + DISABLES_LATE) == MISPAIRED
    ensures Stranded(Run(INITIAL, TO_REKEYED + DISABLES_LATE + SAVES))
  {
    RekeyedIsReached();
    RunTwice(INITIAL, TO_REKEYED, DISABLES_LATE);
    RunTwice(INITIAL, TO_REKEYED + DISABLES_LATE, SAVES);
    DisablesLateTo();
    SavesUnheard(MISPAIRED);
    assert !Openable(Run(MISPAIRED, SAVES).disk[FILE], FILE, Opener(Run(MISPAIRED, SAVES)));
  }

  const SWEEPING := Vault(None, Some("u"), false, REKEYED.disk,
                          map[0 := Tab(Some(1), Some("u"), Some(1), true), 1 := Tab(None, Some("u"), None, true)],
                          map[], Disabling(1, Meta(1, "u"), 0, {FILE}), 2)

  const SWEPT_BADLY := REKEYED.(tabs := map[0 := Tab(Some(1), Some("u"), Some(1), true),
    1 := Tab(Some(0), Some("u"), Some(1), true)])

  lemma DisablesLateTo()
    ensures Run(REKEYED, DISABLES_LATE) == MISPAIRED
  {
    RunFour(REKEYED, DISABLES_LATE[0], DISABLES_LATE[1], DISABLES_LATE[2], DISABLES_LATE[3]);
    StartsLate();
    SweepsBadly();
    HearsBoth();
  }

  lemma HearsBoth()
    ensures Apply(Apply(SWEPT_BADLY, Hear(1)), Hear(0)) == MISPAIRED
  {
    assert Apply(Apply(SWEPT_BADLY, Hear(1)), Hear(0)).tabs == MISPAIRED.tabs;
  }

  lemma StartsLate()
    ensures Apply(REKEYED, StartDisable(1)) == SWEEPING
  {
    assert Swept(REKEYED.disk) == {FILE};
    assert Apply(REKEYED, StartDisable(1)).tabs == SWEEPING.tabs;
  }

  lemma SweepsBadly()
    ensures Apply(SWEEPING, SweepOpen(FILE)) == SWEPT_BADLY
  {
    assert Apply(SWEEPING, SweepOpen(FILE)) == AfterFailDisable(SWEEPING, None);
    assert AfterFailDisable(SWEEPING, None).tabs == SWEPT_BADLY.tabs;
  }

  // ---- and that the states these start from are reached ----

  const LANDED := LATE.(disk := map[FILE := Plain("old")])

  /** Tab 0, the vault being off, saves a report; then it enables again, to a new credential. */
  const SAVES_PLAIN := [LockSave(0, 0, FILE, "old"), BeginSeal(0), Recheck(0), Commit(0)]
  const REKEYS := [StartEnable(0, "u"), SweepSeal(FILE), FinishEnable]

  lemma SavesPlain()
    ensures Run(LATE, SAVES_PLAIN) == LANDED
  {
    RunFour(LATE, SAVES_PLAIN[0], SAVES_PLAIN[1], SAVES_PLAIN[2], SAVES_PLAIN[3]);
    var locked := LATE.(saves := map[0 := Save(0, FILE, "old", Locked)]);
    var sealing := LATE.(saves := map[0 := Save(0, FILE, "old", Sealing(None, Plain("old")))]);
    var ready := LATE.(saves := map[0 := Save(0, FILE, "old", Ready(Plain("old")))]);
    assert Apply(LATE, SAVES_PLAIN[0]) == locked;
    assert Apply(locked, SAVES_PLAIN[1]) == sealing;
    assert Apply(sealing, SAVES_PLAIN[2]) == ready;
    assert Apply(ready, SAVES_PLAIN[3]).saves == map[];
  }

  lemma Rekeys()
    ensures Run(LANDED, REKEYS) == REKEYED
  {
    RunMore(LANDED, [], REKEYS[0]);
    RunMore(LANDED, [REKEYS[0]], REKEYS[1]);
    RunMore(LANDED, [REKEYS[0], REKEYS[1]], REKEYS[2]);
    assert [] + [REKEYS[0]] == [REKEYS[0]] && [REKEYS[0]] + [REKEYS[1]] == [REKEYS[0], REKEYS[1]];
    assert REKEYS == [REKEYS[0], REKEYS[1]] + [REKEYS[2]];
    StartsAgain();
    SealsAgain();
  }

  const STARTED := Vault(Some(Meta(1, "u")), Some("u"), true, map[FILE := Plain("old")], REKEYED.tabs, map[],
    Enabling(0, 1, {FILE}), 2)

  lemma StartsAgain()
    ensures Apply(LANDED, StartEnable(0, "u")) == STARTED
  {
    assert Swept(LANDED.disk) == {FILE};
    assert Apply(LANDED, StartEnable(0, "u")).tabs == STARTED.tabs;
  }

  lemma SealsAgain()
    ensures Apply(Apply(STARTED, SweepSeal(FILE)), FinishEnable) == REKEYED
  {
    var sealed := Apply(STARTED, SweepSeal(FILE));
    assert AadFor(FILE, "u") == Some(OPFS_PREFIX + "u" + "|" + "r");
    assert sealed.disk == REKEYED.disk;
    assert {FILE} - {FILE} == {} && sealed.holder == Enabling(0, 1, {});
  }

  const TO_REKEYED := ENABLES + JOINS_AND_DISABLES + SAVES_PLAIN + REKEYS

  /** The vault is rekeyed behind tab 1's back in a run from an empty device. */
  lemma RekeyedIsReached()
    ensures Run(INITIAL, TO_REKEYED) == REKEYED
  {
    EnablesTo();
    DisablesTo();
    SavesPlain();
    Rekeys();
    RunTwice(INITIAL, ENABLES, JOINS_AND_DISABLES);
    RunTwice(INITIAL, ENABLES + JOINS_AND_DISABLES, SAVES_PLAIN);
    RunTwice(INITIAL, ENABLES + JOINS_AND_DISABLES + SAVES_PLAIN, REKEYS);
  }

  /**
   A run in which a page closes while it disables: what it had not come to stays sealed, and nothing names its
   key.
   */
  lemma CloseWhileDisablingStrands()
    ensures Stranded(Run(INITIAL, TO_REKEYED + [StartDisable(0), CloseTab(0)]))
  {
    RekeyedIsReached();
    RunTwice(INITIAL, TO_REKEYED, [StartDisable(0), CloseTab(0)]);
    RunMore(REKEYED, [], StartDisable(0));
    RunMore(REKEYED, [StartDisable(0)], CloseTab(0));
    assert [] + [StartDisable(0)] == [StartDisable(0)]
             && [StartDisable(0)] + [CloseTab(0)] == [StartDisable(0), CloseTab(0)];
    var w := Apply(Apply(REKEYED, StartDisable(0)), CloseTab(0));
    assert w.disk == REKEYED.disk && !Openable(w.disk[FILE], FILE, Opener(w));
  }

  /** A run in which a wipe cannot remove a sealed report: it stays, and nothing names its key. */
  lemma PartWipeStrands()
    ensures Stranded(Run(INITIAL, TO_REKEYED + [Wipe(0, false, {FILE})]))
  {
    RekeyedIsReached();
    RunMore(INITIAL, TO_REKEYED, Wipe(0, false, {FILE}));
    WipesPart();
  }

  lemma WipesPart()
    ensures var w := Apply(REKEYED, Wipe(0, false, {FILE})); FILE in w.disk && !Openable(w.disk[FILE], FILE, Opener(w))
  {
  }

  /** A run in which a sweep fails in a write and the report it was sealing is gone, the vault staying on. */
  lemma FailedSweepLosesReport()
    ensures var v := Run(INITIAL, ENABLES + JOINS_AND_DISABLES + SAVES_PLAIN);
            FILE in v.disk && FILE !in Run(v, [StartEnable(0, "u"), FailEnable(Some(FILE))]).disk
  {
    EnablesTo();
    DisablesTo();
    SavesPlain();
    RunTwice(INITIAL, ENABLES, JOINS_AND_DISABLES);
    RunTwice(INITIAL, ENABLES + JOINS_AND_DISABLES, SAVES_PLAIN);
    LosesReport();
  }

  lemma LosesReport()
    ensures FILE !in Run(LANDED, [StartEnable(0, "u"), FailEnable(Some(FILE))]).disk
  {
    RunMore(LANDED, [], StartEnable(0, "u"));
    RunMore(LANDED, [StartEnable(0, "u")], FailEnable(Some(FILE)));
    assert [] + [StartEnable(0, "u")] == [StartEnable(0, "u")]
        && [StartEnable(0, "u")] + [FailEnable(Some(FILE))] == [StartEnable(0, "u"), FailEnable(Some(FILE))];
    StartsAgain();
  }
}
