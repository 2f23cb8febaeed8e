/**
 The secure storage as it runs: the maps `cache`, `pendingValues` and
 `writeChain` over local storage, each method a stretch of code between awaits.
 Every method is tied to the event it is for its key, and leaves every other
 key as it was but for the tombstones they share; runs over all keys follow.
 */
module SecureStorage {
  import opened Options
  import opened SecureCell

  type Key = string

  class Storage {
    var cache: map<Key, string>
    var pendingValues: map<Key, Pin>
    var writeChain: map<Key, seq<Job>>
    var disk: map<Key, Stored>
    var opens: map<Key, seq<Opening>>
    var settled: map<Key, nat>
    var tombstones: nat

    /** One key's part of the maps; tombstones are numbered across keys. */
    function CellOf(key: Key): Cell
      reads this
    {
      Cell(Get(cache, key), Get(pendingValues, key), if key in writeChain then writeChain[key] else [],
           Get(disk, key), if key in opens then opens[key] else [], tombstones,
           if key in settled then settled[key] else 0)
    }

    constructor ()
      ensures forall key :: CellOf(key) == EMPTY
    {
      cache, pendingValues, writeChain, disk, opens, settled, tombstones := map[], map[], map[], map[], map[], map[], 0;
    }

    /** The function getItem. */
    method GetItem(key: Key) returns (value: Option<string>)
      ensures value == CellOf(key).cache
    {
      value := Get(cache, key);
    }

    /** setItem up to its await, refused when the vault is locked or being wiped. */
    method SetItem(key: Key, value: string, locked: bool, wiping: bool) returns (refused: bool)
      modifies this`cache, this`pendingValues, this`writeChain
      ensures refused <==> locked || wiping
      ensures CellOf(key) == if refused then old(CellOf(key)) else Apply(old(CellOf(key)), CallSet(value))
      ensures forall other :: other != key ==> CellOf(other) == old(CellOf(other))
    {
      if locked || wiping { return true; }
      var previous := Get(cache, key);
      cache := cache[key := value];
      pendingValues := pendingValues[key := Value(value)];
      writeChain := writeChain[key := (if key in writeChain then writeChain[key] else [])
        + [Set(value, previous, false)]];
      refused := false;
    }

    /** removeItem up to its await. */
    method RemoveItem(key: Key)
      modifies this`cache, this`pendingValues, this`writeChain, this`tombstones
      ensures CellOf(key) == Apply(old(CellOf(key)), CallRemove)
      ensures forall other :: other != key ==> CellOf(other) == old(CellOf(other)).(tombstones := tombstones)
    {
      cache := cache - {key};
      pendingValues := pendingValues[key := Tombstone(tombstones)];
      writeChain := writeChain[key := (if key in writeChain then writeChain[key] else []) + [Remove(tombstones)]];
      tombstones := tombstones + 1;
    }

    /** The head persist's write. */
    method Persist(key: Key, unlocked: bool)
      requires key in writeChain && writeChain[key] != [] && writeChain[key][0].Set? && !writeChain[key][0].written
      modifies this`disk, this`writeChain
      ensures CellOf(key) == Apply(old(CellOf(key)), WriteHead(unlocked))
      ensures forall other :: other != key ==> CellOf(other) == old(CellOf(other))
    {
      var job := writeChain[key][0];
      disk := disk[key := if unlocked then Sealed(job.text) else Plain(job.text)];
      writeChain := writeChain[key := [job.(written := true)] + writeChain[key][1..]];
    }

    /** The persist settled: `clearPendingIfMine`. */
    method PersistSettled(key: Key)
      requires key in writeChain && writeChain[key] != [] && writeChain[key][0].Set? && writeChain[key][0].written
      modifies this`pendingValues, this`writeChain, this`settled
      ensures CellOf(key) == Apply(old(CellOf(key)), SettleHead)
      ensures forall other :: other != key ==> CellOf(other) == old(CellOf(other))
    {
      var job := writeChain[key][0];
      if key in pendingValues && pendingValues[key] == Value(job.text) {
        pendingValues := pendingValues - {key};
      }
      writeChain := writeChain[key := writeChain[key][1..]];
      settled := settled[key := (if key in settled then settled[key] else 0) + 1];
    }

    /** The persist failed: the cache rolls back unless a later set has overwritten it. */
    method PersistFailed(key: Key)
      requires key in writeChain && writeChain[key] != [] && writeChain[key][0].Set? && !writeChain[key][0].written
      modifies this`cache, this`pendingValues, this`writeChain
      ensures CellOf(key) == Apply(old(CellOf(key)), FailHead)
      ensures forall other :: other != key ==> CellOf(other) == old(CellOf(other))
    {
      var job := writeChain[key][0];
      if key in pendingValues && pendingValues[key] == Value(job.text) {
        pendingValues := pendingValues - {key};
      }
      if key in cache && cache[key] == job.text {
        cache := if job.previous.Some? then cache[key := job.previous.value] else cache - {key};
      }
      writeChain := writeChain[key := writeChain[key][1..]];
    }

    /** The chain moves on. */
    method NextInChain(key: Key)
      requires key in writeChain && writeChain[key] != []
      modifies this`writeChain, this`settled
      ensures CellOf(key) == old(CellOf(key)).(chain := old(CellOf(key)).chain[1..],
                settled := old(CellOf(key)).settled + 1)
      ensures forall other :: other != key ==> CellOf(other) == old(CellOf(other))
    {
      writeChain := writeChain[key := writeChain[key][1..]];
      settled := settled[key := (if key in settled then settled[key] else 0) + 1];
    }

    /** A removal's pin, if it is still this one, goes with what is cached. */
    method ClearIfMine(key: Key, number: nat)
      modifies this`cache, this`pendingValues
      ensures CellOf(key) == if old(CellOf(key)).pin == Some(Tombstone(number))
                then old(CellOf(key)).(pin := None, cache := None)
                             else old(CellOf(key))
      ensures forall other :: other != key ==> CellOf(other) == old(CellOf(other))
    {
      if key in pendingValues && pendingValues[key] == Tombstone(number) {
        pendingValues := pendingValues - {key};
        cache := cache - {key};
      }
    }

    /** The removal's turn: `finishRemoval`. */
    method FinishRemoval(key: Key)
      requires key in writeChain && writeChain[key] != [] && writeChain[key][0].Remove?
      modifies this`cache, this`pendingValues, this`writeChain, this`disk, this`settled
      ensures CellOf(key) == Apply(old(CellOf(key)), RunRemoval)
      ensures forall other :: other != key ==> CellOf(other) == old(CellOf(other))
    {
      var job := writeChain[key][0];
      disk := disk - {key};
      ClearIfMine(key, job.number);
      NextInChain(key);
    }

    /** hydrate's first lines: every key without a pin leaves the cache. */
    method ClearUnpinnedKeys()
      modifies this`cache
      ensures forall key :: CellOf(key) == Apply(old(CellOf(key)), ClearUnpinned)
    {
      cache := map k | k in cache && k in pendingValues :: cache[k];
    }

    /** hydrateKeys for one key, up to its open; true when an open is under way. */
    method ReadKey(key: Key, unlocked: bool) returns (opening: bool)
      modifies this`cache, this`opens
      ensures CellOf(key) == Apply(old(CellOf(key)), HydrateRead(unlocked))
      ensures forall other :: other != key ==> CellOf(other) == old(CellOf(other))
      ensures opening <==> key !in pendingValues && key in disk && disk[key].Sealed? && unlocked
    {
      opening := false;
      if key in pendingValues || key !in disk { return; }
      var raw := disk[key];
      if raw.Plain? {
        cache := cache[key := raw.text];
      } else if unlocked {
        opens := opens[key := (if key in opens then opens[key] else [])
          + [Opening(raw.text, if key in settled then settled[key] else 0)]];
        opening := true;
      }
    }

    /** hydrateKeys after its open: installed unless a write has pinned the key since. */
    method InstallKey(key: Key, at: nat)
      requires key in opens && at < |opens[key]|
      modifies this`cache, this`opens
      ensures CellOf(key) == Apply(old(CellOf(key)), HydrateInstall(at))
      ensures forall other :: other != key ==> CellOf(other) == old(CellOf(other))
    {
      if key !in pendingValues {
        cache := cache[key := opens[key][at].text];
      }
      opens := opens[key := opens[key][..at] + opens[key][at + 1..]];
    }

    /** migrateKeyAtomic's slot up to its transform. */
    method BeginMigration(key: Key)
      requires key in writeChain && writeChain[key] != [] && writeChain[key][0].Migrate? && !writeChain[key][0].begun
      modifies this`writeChain
      ensures CellOf(key) == Apply(old(CellOf(key)), MigrateRead)
      ensures forall other :: other != key ==> CellOf(other) == old(CellOf(other))
    {
      var job := writeChain[key][0];
      if key in pendingValues || key !in disk || disk[key].Sealed? == job.toSealed {
        writeChain := writeChain[key := writeChain[key][1..]];
      } else {
        writeChain := writeChain[key := [job.(begun := true)] + writeChain[key][1..]];
      }
    }

    /** migrateKeyAtomic's slot after its transform. */
    method EndMigration(key: Key)
      requires key in writeChain && writeChain[key] != [] && writeChain[key][0].Migrate? && writeChain[key][0].begun
                 && key in disk
      modifies this`cache, this`disk, this`writeChain
      ensures CellOf(key) == Apply(old(CellOf(key)), MigrateWrite)
      ensures forall other :: other != key ==> CellOf(other) == old(CellOf(other))
    {
      if key !in pendingValues {
        var text := disk[key].text;
        disk := disk[key := if writeChain[key][0].toSealed then Sealed(text) else Plain(text)];
        cache := cache[key := text];
      }
      writeChain := writeChain[key := writeChain[key][1..]];
    }
  }

  function Get<V>(m: map<Key, V>, key: Key): Option<V> {
    if key in m then Some(m[key]) else None
  }

  // ---- runs over all keys ----

  /** A step of one key, or the clearing of every unpinned key at a hydrate's start. */
  datatype Step = One(key: Key, e: Event) | ClearAll

  /** What the methods above do to the keys: one moves, and the rest at most see a tombstone taken. */
  function AfterStep(cells: Key -> Cell, step: Step): Key -> Cell {
    match step
    case One(key, e) =>
      var d := Apply(cells(key), e);
      k => if k == key then d else cells(k).(tombstones := d.tombstones)
    case ClearAll => k => Apply(cells(k), ClearUnpinned)
  }

  function RunAll(cells: Key -> Cell, steps: seq<Step>): Key -> Cell {
    if steps == [] then cells else AfterStep(RunAll(cells, steps[..|steps| - 1]), steps[|steps| - 1])
  }

  /** A key's own events. */
  function EventsOf(steps: seq<Step>, key: Key): seq<Event> {
    if steps == [] then []
    else
      var last := steps[|steps| - 1];
      EventsOf(steps[..|steps| - 1], key)
      + if last.ClearAll? then [ClearUnpinned] else if last.key == key then [last.e] else []
  }

  ghost predicate CalmSteps(cells: Key -> Cell, steps: seq<Step>) {
    forall n :: 0 <= n < |steps| && steps[n].One? ==> Calm(RunAll(cells, steps[..n])(steps[n].key), steps[n].e)
  }

  /** Every key is well, and they count the same tombstones. */
  ghost predicate AllWell(cells: Key -> Cell) {
    exists n :: AllWellAt(cells, n)
  }

  ghost predicate AllWellAt(cells: Key -> Cell, tombstones: nat) {
    forall key :: Inv(cells(key)) && cells(key).tombstones == tombstones
  }

  /** Tombstones taken by other keys leave a key alone. */
  lemma OtherTombstones(c: Cell, n: nat)
    requires Inv(c) && c.tombstones <= n
    ensures Inv(c.(tombstones := n)) && Logical(c.(tombstones := n)) == Logical(c)
  {
    assert ChainOk(c.chain, n);
  }

  lemma TombstonesGrow(c: Cell, e: Event)
    ensures c.tombstones <= Apply(c, e).tombstones
  {
  }

  lemma StepKeepsAll(cells: Key -> Cell, step: Step)
    requires AllWell(cells) && (step.One? ==> Calm(cells(step.key), step.e))
    ensures AllWell(AfterStep(cells, step))
    ensures forall key :: Logical(AfterStep(cells, step)(key)) ==
                            LastCalled(Logical(cells(key)), if step.ClearAll? then [ClearUnpinned]
                              else if step.key == key then [step.e] else [])
  {
    var n :| AllWellAt(cells, n);
    var next := AfterStep(cells, step);
    match step
    case One(key, e) =>
      var d := Apply(cells(key), e);
      StepKeeps(cells(key), e);
      TombstonesGrow(cells(key), e);
      forall k ensures Inv(next(k)) && next(k).tombstones == d.tombstones
                       && Logical(next(k)) == LastCalled(Logical(cells(k)), if key == k then [e] else [])
      {
        if k == key { LastOfOne(Logical(cells(k)), e); } else { OtherTombstones(cells(k), d.tombstones); }
      }
      assert AllWellAt(next, d.tombstones);
    case ClearAll =>
      forall k ensures Inv(next(k)) && next(k).tombstones == n
                       && Logical(next(k)) == LastCalled(Logical(cells(k)), [ClearUnpinned])
      {
        StepKeeps(cells(k), ClearUnpinned);
        LastOfOne(Logical(cells(k)), ClearUnpinned);
      }
      assert AllWellAt(next, n);
  }

  lemma LastOfOne(before: Option<string>, e: Event)
    ensures LastCalled(before, [e]) == if e.CallSet? then Some(e.text) else if e.CallRemove? then None else before
  {
    assert [e][..0] == [];
  }

  lemma {:induction false} LastCalledOn(before: Option<string>, es: seq<Event>, more: seq<Event>)
    ensures LastCalled(before, es + more) == LastCalled(LastCalled(before, es), more)
  {
    if more == [] {
      assert es + more == es;
    } else {
      LastCalledOn(before, es, more[..|more| - 1]);
      assert (es + more)[..|es| + |more| - 1] == es + more[..|more| - 1];
    }
  }

  lemma {:induction false} RunAllKeeps(cells: Key -> Cell, steps: seq<Step>)
    requires AllWell(cells) && CalmSteps(cells, steps)
    ensures AllWell(RunAll(cells, steps))
    ensures forall key :: Logical(RunAll(cells, steps)(key)) == LastCalled(Logical(cells(key)), EventsOf(steps, key))
  {
    if steps != [] {
      var init, last := steps[..|steps| - 1], steps[|steps| - 1];
      assert forall n :: 0 <= n <= |init| ==> init[..n] == steps[..n];
      RunAllKeeps(cells, init);
      StepKeepsAll(RunAll(cells, init), last);
      forall key ensures Logical(RunAll(cells, steps)(key)) == LastCalled(Logical(cells(key)), EventsOf(steps, key)) {
        LastCalledOn(Logical(cells(key)), EventsOf(init, key),
                     if last.ClearAll? then [ClearUnpinned] else if last.key == key then [last.e] else []);
      }
    }
  }

  /**
   In every calm interleaving of the steps of all keys, each key reads as the last write called of it while one is
   queued; and once none is, that is what is stored, and what is cached if anything is. No step of another key shows.
   */
  lemma EachKeyKeepsItsLastWrite(cells: Key -> Cell, steps: seq<Step>, key: Key)
    requires AllWell(cells) && CalmSteps(cells, steps)
    ensures var c, last := RunAll(cells, steps)(key), LastCalled(Logical(cells(key)), EventsOf(steps, key));
            if Writing(c) then c.cache == last else Text(c.disk) == last && (c.cache.Some? ==> c.cache == last)
  {
    RunAllKeeps(cells, steps);
    var c := RunAll(cells, steps)(key);
    assert Inv(c);
    if !Writing(c) { NotWriting(c.chain, Text(c.disk)); }
  }
}
