/**
 One key of the secure storage (client/secure-storage.js): the cached value,
 the pin of a write in flight, the chain its persists, removals and migrations
 wait in, what is stored, and the opens a hydrate has under way. Events are the
 stretches of code between awaits; nothing orders them but the chain.
 */
module SecureCell {
  import opened Options

  /** What marks a key as being written: the value set, or one removal's own tombstone. */
  datatype Pin = Value(text: string) | Tombstone(number: nat)

  datatype Stored = Plain(text: string) | Sealed(text: string)

  /**
   A link of the write chain: a set with the value cached before it, written or
   not; a removal; or a migration to sealed or plain storage, begun or not.
   */
  datatype Job =
    | Set(text: string, previous: Option<string>, written: bool)
    | Remove(number: nat)
    | Migrate(toSealed: bool, begun: bool)

  /** A hydrate's open under way: what it read, and how many writes had settled by then. */
  datatype Opening = Opening(text: string, epoch: nat)

  datatype Cell = Cell(cache: Option<string>, pin: Option<Pin>, chain: seq<Job>, disk: Option<Stored>,
                       opens: seq<Opening>, tombstones: nat, settled: nat)

  const EMPTY := Cell(None, None, [], None, [], 0, 0)

  datatype Event =
    | CallSet(text: string)
    | CallRemove
    | CallMigrate(toSealed: bool)
    | WriteHead(unlocked: bool)
    | SettleHead
    | FailHead
    | RunRemoval
    | MigrateRead
    | MigrateWrite
    | MigrateFail
    | ClearUnpinned
    | HydrateRead(unlocked: bool)
    | HydrateInstall(at: nat)
    | SelfHeal(text: string)

  function Text(disk: Option<Stored>): Option<string> {
    if disk.None? then None else Some(disk.value.text)
  }

  /** setItem up to its await: cache and pin at once, the persist behind what is queued. */
  function AfterSet(c: Cell, text: string): Cell {
    c.(cache := Some(text), pin := Some(Value(text)), chain := c.chain + [Set(text, c.cache, false)])
  }

  function AfterRemove(c: Cell): Cell {
    c.(cache := None, pin := Some(Tombstone(c.tombstones)), chain := c.chain + [Remove(c.tombstones)],
       tombstones := c.tombstones + 1)
  }

  /** The head persist's disk write, sealed when the vault is unlocked. */
  function AfterWrite(c: Cell, unlocked: bool): Cell {
    if c.chain != [] && c.chain[0].Set? && !c.chain[0].written then
      var text := c.chain[0].text;
      c.(disk := Some(if unlocked then Sealed(text) else Plain(text)),
        chain := [c.chain[0].(written := true)] + c.chain[1..])
    else c
  }

  /** The pin goes if it is still this write's. */
  function Unpinned(pin: Option<Pin>, own: Pin): Option<Pin> {
    if pin == Some(own) then None else pin
  }

  function AfterSettle(c: Cell): Cell {
    if c.chain != [] && c.chain[0].Set? && c.chain[0].written then
      c.(pin := Unpinned(c.pin, Value(c.chain[0].text)), chain := c.chain[1..], settled := c.settled + 1)
    else c
  }

  /** A persist that failed: the cache goes back to what it held before the call, if it still holds this value. */
  function AfterFail(c: Cell): Cell {
    if c.chain != [] && c.chain[0].Set? && !c.chain[0].written then
      var job := c.chain[0];
      c.(pin := Unpinned(c.pin, Value(job.text)), chain := c.chain[1..],
         cache := if c.cache == Some(job.text) then job.previous else c.cache)
    else c
  }

  function AfterRemoval(c: Cell): Cell {
    if c.chain != [] && c.chain[0].Remove? then
      var mine := c.pin == Some(Tombstone(c.chain[0].number));
      c.(disk := None, pin := if mine then None else c.pin, cache := if mine then None else c.cache,
         chain := c.chain[1..], settled := c.settled + 1)
    else c
  }

  /** A migration slot's read: done at once under a pin, with nothing stored, or with nothing to change. */
  function AfterMigrateRead(c: Cell): Cell {
    if c.chain != [] && c.chain[0].Migrate? && !c.chain[0].begun then
      if c.pin.Some? || c.disk.None? || c.disk.value.Sealed? == c.chain[0].toSealed then c.(chain := c.chain[1..])
      else c.(chain := [c.chain[0].(begun := true)] + c.chain[1..])
    else c
  }

  /** A migration slot's write, unless a write was called meanwhile. */
  function AfterMigrateWrite(c: Cell): Cell {
    if c.chain != [] && c.chain[0].Migrate? && c.chain[0].begun && c.disk.Some? then
      if c.pin.Some? then c.(chain := c.chain[1..])
      else
        var text := c.disk.value.text;
        c.(disk := Some(if c.chain[0].toSealed then Sealed(text) else Plain(text)), cache := Some(text),
          chain := c.chain[1..])
    else c
  }

  /** hydrateKeys for one key, up to its open. */
  function AfterHydrateRead(c: Cell, unlocked: bool): Cell {
    if c.pin.Some? || c.disk.None? then c
    else if c.disk.value.Plain? then c.(cache := Some(c.disk.value.text))
    else if unlocked then c.(opens := c.opens + [Opening(c.disk.value.text, c.settled)])
    else c
  }

  function AfterInstall(c: Cell, at: nat): Cell {
    if at < |c.opens| then
      c.(cache := if c.pin.Some? then c.cache else Some(c.opens[at].text), opens := c.opens[..at] + c.opens[at + 1..])
    else c
  }

  function Apply(c: Cell, e: Event): Cell {
    match e
    case CallSet(text) => AfterSet(c, text)
    case CallRemove => AfterRemove(c)
    case CallMigrate(toSealed) => c.(chain := c.chain + [Migrate(toSealed, false)])
    case WriteHead(unlocked) => AfterWrite(c, unlocked)
    case SettleHead => AfterSettle(c)
    case FailHead => AfterFail(c)
    case RunRemoval => AfterRemoval(c)
    case MigrateRead => AfterMigrateRead(c)
    case MigrateWrite => AfterMigrateWrite(c)
    case MigrateFail => if c.chain != [] && c.chain[0].Migrate? then c.(chain := c.chain[1..]) else c
    case ClearUnpinned => if c.pin.Some? then c else c.(cache := None)
    case HydrateRead(unlocked) => AfterHydrateRead(c, unlocked)
    case HydrateInstall(at) => AfterInstall(c, at)
    case SelfHeal(text) => if c.cache == Some(text) then AfterSet(c, text) else c
  }

  function Run(c: Cell, es: seq<Event>): Cell {
    if es == [] then c else Apply(Run(c, es[..|es| - 1]), es[|es| - 1])
  }

  // ---- what the key stands for ----

  /** The value the chain will leave: that of the last set or removal queued, else what is stored. */
  function Final(chain: seq<Job>, stored: Option<string>): Option<string> {
    if chain == [] then stored
    else
      var last := chain[|chain| - 1];
      if last.Set? then Some(last.text) else if last.Remove? then None else Final(chain[..|chain| - 1], stored)
  }

  /** The key's logical value. */
  function Logical(c: Cell): Option<string> {
    Final(c.chain, Text(c.disk))
  }

  /** The pin of the last set or removal queued. */
  function LastPin(chain: seq<Job>): Option<Pin> {
    if chain == [] then None
    else
      var last := chain[|chain| - 1];
      if last.Set? then Some(Value(last.text)) else if last.Remove? then Some(Tombstone(last.number))
      else LastPin(chain[..|chain| - 1])
  }

  predicate Writing(c: Cell) {
    LastPin(c.chain).Some?
  }

  /** The head is a set of the value that the last write queued behind it pins too. */
  predicate PinnedAgain(c: Cell) {
    c.chain != [] && c.chain[0].Set? && LastPin(c.chain[1..]) == Some(Value(c.chain[0].text))
  }

  /**
   The premises: no set settles, or fails, while the last write behind it is of the same value; no persist fails with
   no write behind it; and no write both starts and settles inside one open.
   */
  predicate Calm(c: Cell, e: Event) {
    match e
    case SettleHead => JustWritten(c) ==> !PinnedAgain(c)
    case FailHead => c.chain != [] && c.chain[0].Set? && !c.chain[0].written
      ==> LastPin(c.chain[1..]).Some? && !PinnedAgain(c)
    case HydrateInstall(at) => c.pin.None? && at < |c.opens| ==> c.opens[at].epoch == c.settled
    case _ => true
  }

  ghost predicate CalmRun(c: Cell, es: seq<Event>) {
    forall n :: 0 <= n < |es| ==> Calm(Run(c, es[..n]), es[n])
  }

  // ---- what every calm run keeps ----

  /** Removals queued are told apart by their pins, and only the head has been begun. */
  predicate ChainOk(chain: seq<Job>, tombstones: nat) {
    && (forall n :: 0 < n < |chain| ==> !(chain[n].Set? && chain[n].written) && !(chain[n].Migrate? && chain[n].begun))
    && (forall n, m :: 0 <= n < m < |chain| && chain[n].Remove? && chain[m].Remove? ==>
        chain[n].number < chain[m].number)
    && (forall n :: 0 <= n < |chain| && chain[n].Remove? ==> chain[n].number < tombstones)
  }

  predicate HeadOk(c: Cell) {
    c.chain != [] ==>
      && (c.chain[0].Set? && c.chain[0].written ==> Text(c.disk) == Some(c.chain[0].text))
      && (c.chain[0].Migrate? && c.chain[0].begun ==> c.disk.Some?)
  }

  /** The head persist has written and not yet settled. */
  predicate JustWritten(c: Cell) {
    c.chain != [] && c.chain[0].Set? && c.chain[0].written
  }

  predicate OpensOk(c: Cell) {
    forall n :: 0 <= n < |c.opens| ==>
      c.opens[n].epoch <= c.settled
      && (c.opens[n].epoch == c.settled && !JustWritten(c) ==> Text(c.disk) == Some(c.opens[n].text))
  }

  /** While a write is queued the cache is its value; otherwise it is empty or what is stored. */
  predicate CacheOk(c: Cell) {
    if Writing(c) then c.cache == Logical(c) else c.cache.Some? ==> c.cache == Text(c.disk)
  }

  predicate Inv(c: Cell) {
    ChainOk(c.chain, c.tombstones) && HeadOk(c) && OpensOk(c) && CacheOk(c) && c.pin == LastPin(c.chain)
  }

  /** With nothing queued that writes, what will be stored is what is stored. */
  lemma {:induction false} NotWriting(chain: seq<Job>, stored: Option<string>)
    requires LastPin(chain).None?
    ensures Final(chain, stored) == stored && forall n :: 0 <= n < |chain| ==> chain[n].Migrate?
  {
    if chain != [] { NotWriting(chain[..|chain| - 1], stored); }
  }

  /** A queued write decides the outcome, whatever is stored now. */
  lemma {:induction false} WritingDecides(chain: seq<Job>, a: Option<string>, b: Option<string>)
    requires LastPin(chain).Some?
    ensures Final(chain, a) == Final(chain, b)
    ensures Final(chain, a) == if LastPin(chain).value.Value? then Some(LastPin(chain).value.text) else None
  {
    if chain[|chain| - 1].Migrate? { WritingDecides(chain[..|chain| - 1], a, b); }
  }

  /** The chain without its head. */
  lemma {:induction false} TailOf(chain: seq<Job>, stored: Option<string>)
    requires chain != []
    ensures LastPin(chain) == if LastPin(chain[1..]).Some? then LastPin(chain[1..])
                              else if chain[0].Set? then Some(Value(chain[0].text))
                              else if chain[0].Remove? then Some(Tombstone(chain[0].number)) else None
    ensures Final(chain, stored) == if chain[0].Set? then Final(chain[1..], Some(chain[0].text))
                                    else if chain[0].Remove? then Final(chain[1..], None) else Final(chain[1..], stored)
  {
    var n := |chain| - 1;
    if n > 0 {
      assert chain[1..][|chain[1..]| - 1] == chain[n];
      assert chain[..n][1..] == chain[1..][..n - 1] && chain[..n][0] == chain[0];
      TailOf(chain[..n], stored);
    } else {
      assert chain[1..] == [] && chain[..n] == [];
    }
  }

  lemma Appended(chain: seq<Job>, job: Job, stored: Option<string>)
    ensures LastPin(chain + [job]) == if job.Set? then Some(Value(job.text)) else if job.Remove?
              then Some(Tombstone(job.number)) else LastPin(chain)
    ensures Final(chain + [job], stored) == if job.Set? then Some(job.text) else if job.Remove? then None
              else Final(chain, stored)
  {
    assert (chain + [job])[..|chain|] == chain;
  }

  /** The last queued write's pin is some job's of the chain. */
  lemma {:induction false} LastPinFrom(chain: seq<Job>) returns (n: nat)
    requires LastPin(chain).Some?
    ensures n < |chain| && !chain[n].Migrate?
    ensures LastPin(chain).value == if chain[n].Set? then Value(chain[n].text) else Tombstone(chain[n].number)
  {
    n := |chain| - 1;
    if chain[n].Migrate? { n := LastPinFrom(chain[..n]); }
  }

  // ---- the steps, one kind at a time ----

  /** Queueing one more job at the back. */
  lemma QueuedBehind(c: Cell, job: Job, d: Cell)
    requires Inv(c) && d.chain == c.chain + [job] && d.disk == c.disk && d.opens == c.opens && d.settled == c.settled
    requires !(job.Set? && job.written) && !(job.Migrate? && job.begun)
    requires job.Set? ==> d.tombstones == c.tombstones
    requires job.Remove? ==> job.number == c.tombstones && d.tombstones == c.tombstones + 1
    requires job.Migrate? ==> d.tombstones == c.tombstones && d.pin == c.pin && d.cache == c.cache
    requires job.Set? ==> d.pin == Some(Value(job.text)) && d.cache == Some(job.text)
    requires job.Remove? ==> d.pin == Some(Tombstone(job.number)) && d.cache == None
    ensures Inv(d)
    ensures Logical(d) == if job.Set? then Some(job.text) else if job.Remove? then None else Logical(c)
  {
    Appended(c.chain, job, Text(c.disk));
    assert c.chain != [] ==> d.chain[0] == c.chain[0];
    assert JustWritten(d) ==> JustWritten(c) || c.chain == [];
    assert ChainOk(d.chain, d.tombstones);
  }

  lemma CallKeeps(c: Cell, e: Event)
    requires Inv(c) && (e.CallSet? || e.CallRemove? || e.CallMigrate? || e.SelfHeal?)
    ensures Inv(Apply(c, e))
    ensures Logical(Apply(c, e)) == if e.CallSet? then Some(e.text) else if e.CallRemove? then None else Logical(c)
  {
    var d := Apply(c, e);
    match e
    case CallSet(text) => QueuedBehind(c, Set(text, c.cache, false), d);
    case CallRemove => QueuedBehind(c, Remove(c.tombstones), d);
    case CallMigrate(toSealed) => QueuedBehind(c, Migrate(toSealed, false), d);
    case SelfHeal(text) =>
      if c.cache == Some(text) {
        QueuedBehind(c, Set(text, c.cache, false), d);
        HealsWhatIsStored(c, text);
      }
  }

  /** A value healed is the one the key stands for. */
  lemma HealsWhatIsStored(c: Cell, text: string)
    requires Inv(c) && c.cache == Some(text)
    ensures Logical(c) == Some(text)
  {
    if Writing(c) {
      WritingDecides(c.chain, Text(c.disk), Text(c.disk));
    } else {
      NotWriting(c.chain, Text(c.disk));
    }
  }

  lemma TailOk(c: Cell)
    requires ChainOk(c.chain, c.tombstones) && c.chain != []
    ensures ChainOk(c.chain[1..], c.tombstones)
  {
    var tail := c.chain[1..];
    assert forall n :: 0 <= n < |tail| ==> tail[n] == c.chain[n + 1];
  }

  lemma WriteKeeps(c: Cell, unlocked: bool)
    requires Inv(c)
    ensures Inv(AfterWrite(c, unlocked)) && Logical(AfterWrite(c, unlocked)) == Logical(c)
  {
    var d := AfterWrite(c, unlocked);
    if d != c {
      assert d.chain[1..] == c.chain[1..];
      TailOf(c.chain, Text(c.disk));
      TailOf(d.chain, Text(d.disk));
      assert ChainOk(d.chain, d.tombstones);
    }
  }

  /** The pin that would be the head's own. */
  function OwnPin(job: Job): Pin
    requires !job.Migrate?
  {
    if job.Set? then Value(job.text) else Tombstone(job.number)
  }

  /**
   The head, if it set or removed, has the pin exactly when no write is queued behind it, unless that pins the
   same.
   */
  lemma HeadPinned(c: Cell)
    requires Inv(c) && c.chain != [] && !c.chain[0].Migrate? && !PinnedAgain(c)
    ensures c.pin == Some(OwnPin(c.chain[0])) <==> LastPin(c.chain[1..]).None?
  {
    TailOf(c.chain, Text(c.disk));
    if LastPin(c.chain[1..]).Some? {
      var n := LastPinFrom(c.chain[1..]);
      assert c.chain[1..][n] == c.chain[n + 1];
    }
  }

  lemma SettleKeeps(c: Cell)
    requires Inv(c) && Calm(c, SettleHead)
    ensures Inv(AfterSettle(c)) && Logical(AfterSettle(c)) == Logical(c)
  {
    var d := AfterSettle(c);
    if d != c {
      TailOk(c);
      TailOf(c.chain, Text(c.disk));
      HeadPinned(c);
      HeadAlone(c, d);
      if LastPin(d.chain).None? { NotWriting(d.chain, Text(d.disk)); }
    }
  }

  /** A persist that fails before a later write leaves that one to decide. */
  lemma FailKeeps(c: Cell)
    requires Inv(c) && Calm(c, FailHead)
    ensures Inv(AfterFail(c)) && Logical(AfterFail(c)) == Logical(c)
  {
    var d := AfterFail(c);
    if d != c {
      TailOk(c);
      TailOf(c.chain, Text(c.disk));
      HeadPinned(c);
      HeadAlone(c, d);
      WritingDecides(d.chain, Text(c.disk), Some(c.chain[0].text));
    }
  }

  /** What becomes the head has not been begun. */
  lemma HeadAlone(c: Cell, d: Cell)
    requires ChainOk(c.chain, c.tombstones) && c.chain != [] && d.chain == c.chain[1..]
    ensures HeadOk(d) && !JustWritten(d)
  {
    if d.chain != [] { assert d.chain[0] == c.chain[1]; }
  }

  lemma RemovalKeeps(c: Cell)
    requires Inv(c)
    ensures Inv(AfterRemoval(c)) && Logical(AfterRemoval(c)) == Logical(c)
  {
    var d := AfterRemoval(c);
    if d != c {
      TailOk(c);
      TailOf(c.chain, Text(c.disk));
      HeadPinned(c);
      HeadAlone(c, d);
      if LastPin(d.chain).Some? { WritingDecides(d.chain, None, Text(c.disk)); } else { NotWriting(d.chain, None); }
    }
  }

  /** A migration slot that is done, having changed at most how the value is stored. */
  lemma SlotDone(c: Cell, d: Cell)
    requires Inv(c) && c.chain != [] && c.chain[0].Migrate? && d.chain == c.chain[1..]
    requires Text(d.disk) == Text(c.disk) && d.pin == c.pin && d.opens == c.opens && d.settled == c.settled
               && d.tombstones == c.tombstones
    requires d.cache == c.cache || (c.pin.None? && d.cache == Text(c.disk))
    ensures Inv(d) && Logical(d) == Logical(c)
  {
    TailOf(c.chain, Text(c.disk));
    TailOk(c);
    HeadAlone(c, d);
  }

  lemma MigrateReadKeeps(c: Cell)
    requires Inv(c)
    ensures Inv(AfterMigrateRead(c)) && Logical(AfterMigrateRead(c)) == Logical(c) && AfterMigrateRead(c).disk == c.disk
  {
    var d := AfterMigrateRead(c);
    if d == c {
    } else if d.chain == c.chain[1..] {
      SlotDone(c, d);
    } else {
      assert d.chain[1..] == c.chain[1..];
      TailOf(c.chain, Text(c.disk));
      TailOf(d.chain, Text(d.disk));
      assert ChainOk(d.chain, d.tombstones);
    }
  }

  lemma MigrateKeeps(c: Cell, e: Event)
    requires Inv(c) && (e.MigrateRead? || e.MigrateWrite? || e.MigrateFail?)
    ensures Inv(Apply(c, e)) && Logical(Apply(c, e)) == Logical(c)
    ensures Text(Apply(c, e).disk) == Text(c.disk)
  {
    var d := Apply(c, e);
    if e.MigrateRead? {
      MigrateReadKeeps(c);
    } else if d != c {
      SlotDone(c, d);
    }
  }

  lemma HydrateKeeps(c: Cell, e: Event)
    requires Inv(c) && Calm(c, e) && (e.ClearUnpinned? || e.HydrateRead? || e.HydrateInstall?)
    ensures Inv(Apply(c, e)) && Logical(Apply(c, e)) == Logical(c)
  {
    if e.HydrateInstall? && e.at < |c.opens| && c.pin.None? {
      if JustWritten(c) { TailOf(c.chain, Text(c.disk)); }
      assert Text(c.disk) == Some(c.opens[e.at].text);
    }
    if !Writing(c) { NotWriting(c.chain, Text(c.disk)); }
    if e.HydrateRead? && JustWritten(c) { TailOf(c.chain, Text(c.disk)); }
  }

  /**
   Every calm step keeps the invariant, and none but a call changes the value
   the key stands for: a call makes it what was called.
   */
  lemma StepKeeps(c: Cell, e: Event)
    requires Inv(c) && Calm(c, e)
    ensures Inv(Apply(c, e))
    ensures Logical(Apply(c, e)) == if e.CallSet? then Some(e.text) else if e.CallRemove? then None else Logical(c)
  {
    match e
    case CallSet(_) => CallKeeps(c, e);
    case CallRemove => CallKeeps(c, e);
    case CallMigrate(_) => CallKeeps(c, e);
    case SelfHeal(_) => CallKeeps(c, e);
    case WriteHead(unlocked) => WriteKeeps(c, unlocked);
    case SettleHead => SettleKeeps(c);
    case FailHead => FailKeeps(c);
    case RunRemoval => RemovalKeeps(c);
    case MigrateRead => MigrateKeeps(c, e);
    case MigrateWrite => MigrateKeeps(c, e);
    case MigrateFail => MigrateKeeps(c, e);
    case ClearUnpinned => HydrateKeeps(c, e);
    case HydrateRead(_) => HydrateKeeps(c, e);
    case HydrateInstall(_) => HydrateKeeps(c, e);
  }

  /** The value last called in a run, or what was there before it. */
  function LastCalled(before: Option<string>, es: seq<Event>): Option<string> {
    if es == [] then before
    else
      var last := es[|es| - 1];
      if last.CallSet? then Some(last.text) else if last.CallRemove? then None else LastCalled(before, es[..|es| - 1])
  }

  lemma {:induction false} RunKeeps(c: Cell, es: seq<Event>)
    requires Inv(c) && CalmRun(c, es)
    ensures Inv(Run(c, es)) && Logical(Run(c, es)) == LastCalled(Logical(c), es)
  {
    if es != [] {
      var n := |es| - 1;
      forall k | 0 <= k < n ensures Calm(Run(c, es[..n][..k]), es[..n][k]) {
        assert es[..n][..k] == es[..k];
        assert Calm(Run(c, es[..k]), es[k]);
      }
      RunKeeps(c, es[..n]);
      assert Calm(Run(c, es[..n]), es[n]);
      StepKeeps(Run(c, es[..n]), es[n]);
    }
  }

  /** While a write is queued, a read gives the last write called, or the one queued before the run. */
  lemma ReadsLastWrite(c: Cell, es: seq<Event>)
    requires Inv(c) && CalmRun(c, es) && Writing(Run(c, es))
    ensures Run(c, es).cache == LastCalled(Logical(c), es)
  {
    RunKeeps(c, es);
  }

  /** Once no write is queued, storage holds the last write called, and a cached value is that one. */
  lemma EndsAtLastWrite(c: Cell, es: seq<Event>)
    requires Inv(c) && CalmRun(c, es) && !Writing(Run(c, es))
    ensures Text(Run(c, es).disk) == LastCalled(Logical(c), es)
    ensures Run(c, es).cache.Some? ==> Run(c, es).cache == LastCalled(Logical(c), es)
  {
    RunKeeps(c, es);
    NotWriting(Run(c, es).chain, Text(Run(c, es).disk));
  }

  /** The cache shows the key's logical value. */
  predicate Warm(c: Cell) {
    c.cache == Logical(c)
  }

  /** Once warm, the cache stays right through every step but the clearing at a hydrate's start. */
  lemma StaysWarm(c: Cell, e: Event)
    requires Inv(c) && Calm(c, e) && Warm(c) && !e.ClearUnpinned?
    ensures Warm(Apply(c, e))
  {
    StepKeeps(c, e);
    var d := Apply(c, e);
    if !Writing(d) { NotWriting(d.chain, Text(d.disk)); }
    if !Writing(c) { NotWriting(c.chain, Text(c.disk)); }
    if c.chain != [] { TailOf(c.chain, Text(c.disk)); }
  }

  /** And a hydrate that reads plain text, nothing at all, or installs what it opened, warms it. */
  lemma HydrateWarms(c: Cell, e: Event)
    requires Inv(c) && Calm(c, e)
    requires (e.HydrateInstall? && e.at < |c.opens|)
             || (e.HydrateRead? && (c.disk.Some? ==> c.disk.value.Plain?))
    ensures Warm(Apply(c, e))
  {
    StepKeeps(c, e);
    if !Writing(c) { NotWriting(c.chain, Text(c.disk)); }
    if JustWritten(c) { TailOf(c.chain, Text(c.disk)); }
  }

  // ---- exactly when the premises matter ----

  /** An open that installs keeps the invariant exactly when what it opened is still what is stored. */
  lemma InstallKeepsIff(c: Cell, at: nat)
    requires Inv(c) && c.pin.None? && at < |c.opens|
    ensures Inv(AfterInstall(c, at)) <==> Text(c.disk) == Some(c.opens[at].text)
  {
    var d := AfterInstall(c, at);
    assert forall n :: 0 <= n < |d.opens| ==> d.opens[n] == if n < at then c.opens[n] else c.opens[n + 1];
  }

  /**
   A set that settles keeps the invariant exactly when the last write behind it is not of the same value; and with
   a write behind it, exactly then a hydrate's clearing still leaves that write's value to be read.
   */
  lemma SettleKeepsIff(c: Cell)
    requires Inv(c) && JustWritten(c)
    ensures Inv(AfterSettle(c)) <==> !PinnedAgain(c)
    ensures Writing(AfterSettle(c)) ==> (Apply(AfterSettle(c), ClearUnpinned).cache == Logical(AfterSettle(c))
              <==> !PinnedAgain(c))
  {
    var d := AfterSettle(c);
    TailOf(c.chain, Text(c.disk));
    if LastPin(d.chain).Some? { WritingDecides(d.chain, Text(c.disk), Text(c.disk)); }
    if !PinnedAgain(c) { SettleKeeps(c); }
  }

  /**
   A failed persist keeps the invariant exactly when the last write queued behind it is of another value, or, with
   none behind it, when the value cached before the call was none or the stored one.
   */
  lemma FailKeepsIff(c: Cell)
    requires Inv(c) && c.chain != [] && c.chain[0].Set? && !c.chain[0].written
    ensures Inv(AfterFail(c)) <==>
              if LastPin(c.chain[1..]).Some? then !PinnedAgain(c)
                  else c.chain[0].previous.None? || c.chain[0].previous == Text(c.disk)
  {
    var d := AfterFail(c);
    TailOk(c);
    TailOf(c.chain, Text(c.disk));
    HeadAlone(c, d);
    if LastPin(d.chain).Some? {
      if !PinnedAgain(c) { FailKeeps(c); }
    } else {
      NotWriting(d.chain, Text(d.disk));
      NotWriting(d.chain, Some(c.chain[0].text));
      assert c.cache == Some(c.chain[0].text);
    }
  }

  /** The cache shows something that is neither stored nor being written. */
  predicate Diverged(c: Cell) {
    !Writing(c) && c.cache.Some? && c.cache != Text(c.disk)
  }

  lemma RunMore(c: Cell, es: seq<Event>, e: Event)
    ensures Run(c, es + [e]) == Apply(Run(c, es), e)
  {
    assert (es + [e])[..|es|] == es;
  }

  lemma RunFour(c: Cell, p: Event, q: Event, r: Event, s: Event)
    ensures Run(c, [p, q, r, s]) == Apply(Apply(Apply(Apply(c, p), q), r), s)
  {
    var c1 := Apply(c, p);
    assert Run(c, [p]) == c1 by { RunMore(c, [], p); assert [] + [p] == [p]; }
    assert Run(c, [p, q]) == Apply(c1, q) by { RunMore(c, [p], q); assert [p] + [q] == [p, q]; }
    assert Run(c, [p, q, r]) == Apply(Apply(c1, q), r) by { RunMore(c, [p, q], r); assert [p, q] + [r] == [p, q, r]; }
    assert Run(c, [p, q, r, s]) == Apply(Run(c, [p, q, r]), s) by {
      RunMore(c, [p, q, r], s);
      assert [p, q, r] + [s] == [p, q, r, s];
    }
  }

  /** A write that starts and settles while a hydrate opens the old envelope: the old value comes back to the cache. */
  lemma OpenAcrossWriteDiverges()
    ensures var c := EMPTY.(disk := Some(Sealed("old")), opens := [Opening("old", 0)]);
            Inv(c) && Diverged(Run(c, [CallSet("new"), WriteHead(true), SettleHead, HydrateInstall(0)]))
  {
    var c := EMPTY.(disk := Some(Sealed("old")), opens := [Opening("old", 0)]);
    RunFour(c, CallSet("new"), WriteHead(true), SettleHead, HydrateInstall(0));
    var c1 := Apply(c, CallSet("new"));
    assert c1.chain == [Set("new", None, false)];
    var c2 := Apply(c1, WriteHead(true));
    assert c2.chain == [Set("new", None, true)];
    var c3 := Apply(c2, SettleHead);
    assert c3.chain == [] && c3.pin.None?;
  }

  /** Two persists that fail: the second goes back to the first's value, which was never stored. */
  lemma TwoFailuresDiverge()
    ensures Diverged(Run(EMPTY, [CallSet("a"), CallSet("b"), FailHead, FailHead]))
  {
    RunFour(EMPTY, CallSet("a"), CallSet("b"), FailHead, FailHead);
    var c2 := Apply(Apply(EMPTY, CallSet("a")), CallSet("b"));
    assert c2.chain == [Set("a", None, false), Set("b", Some("a"), false)];
    var c3 := Apply(c2, FailHead);
    assert c3.chain == [Set("b", Some("a"), false)] && c3.cache == Some("b");
    assert Apply(c3, FailHead).chain == [];
  }

  lemma {:induction false} RunTwice(c: Cell, es: seq<Event>, more: seq<Event>)
    ensures Run(c, es + more) == Run(Run(c, es), more)
  {
    if more == [] {
      assert es + more == es;
    } else {
      var n := |more| - 1;
      RunTwice(c, es, more[..n]);
      assert (es + more)[..|es| + n] == es + more[..n];
    }
  }

  const SETS_AGAIN := [CallSet("a"), CallSet("b"), CallSet("a"), WriteHead(false)]
  const SET_AGAIN := Cell(Some("a"), Some(Value("a")),
                          [Set("a", None, true), Set("b", Some("a"), false), Set("a", Some("b"), false)],
                          Some(Plain("a")), [], 0, 0)

  lemma SetsAgain()
    ensures Run(EMPTY, SETS_AGAIN) == SET_AGAIN
  {
    RunFour(EMPTY, SETS_AGAIN[0], SETS_AGAIN[1], SETS_AGAIN[2], SETS_AGAIN[3]);
    var c1 := Apply(EMPTY, CallSet("a"));
    assert c1.chain == [Set("a", None, false)];
    var c2 := Apply(c1, CallSet("b"));
    assert c2.chain == [Set("a", None, false), Set("b", Some("a"), false)];
    var c3 := Apply(c2, CallSet("a"));
    assert c3.chain == [Set("a", None, false), Set("b", Some("a"), false), Set("a", Some("b"), false)];
    assert Apply(c3, WriteHead(false)).chain == SET_AGAIN.chain;
  }

  /**
   One value queued twice: the first to settle unpins the key while the last write is still queued, and a hydrate then
   reads the value between.
   */
  lemma RepeatedValueUnpins()
    ensures var c := Run(EMPTY, SETS_AGAIN + [SettleHead, WriteHead(false), ClearUnpinned, HydrateRead(false)]);
            Writing(c) && Logical(c) == Some("a") && c.cache == Some("b")
  {
    SetsAgain();
    RunTwice(EMPTY, SETS_AGAIN, [SettleHead, WriteHead(false), ClearUnpinned, HydrateRead(false)]);
    RunFour(SET_AGAIN, SettleHead, WriteHead(false), ClearUnpinned, HydrateRead(false));
    var c1 := Apply(SET_AGAIN, SettleHead);
    assert c1.pin.None? && c1.chain == [Set("b", Some("a"), false), Set("a", Some("b"), false)];
    var c2 := Apply(c1, WriteHead(false));
    assert c2.chain == [Set("b", Some("a"), true), Set("a", Some("b"), false)];
    assert c2.chain[1].Set?;
  }
}
