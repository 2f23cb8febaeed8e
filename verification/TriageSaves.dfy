/**
 Saving the triage in one tab (client/triage.js:138-286): each call leaves its
 snapshot under a pending key at once, compresses for as long as it takes, and
 commits only if no later call was made. Snapshots with nothing in them clear
 both keys instead.
 */
module TriageSaves {
  import opened Options

  type Snapshot = string

  /** The two keys, how many calls there were, and the saves still compressing, by call; an empty snapshot is None. */
  datatype Store = Store(main: Option<Snapshot>, pending: Option<Snapshot>, saveGen: nat,
    flying: map<nat, Option<Snapshot>>)

  /**
   A call, and whether its pending write was stored; a save reaching its commit; a save that fails, or gives up
   over a changed key.
   */
  datatype Event = Call(snapshot: Option<Snapshot>, stored: bool) | Commit(gen: nat) | Fail(gen: nat)

  function AfterCall(s: Store, snapshot: Option<Snapshot>, stored: bool): Store {
    s.(saveGen := s.saveGen + 1, flying := s.flying[s.saveGen + 1 := snapshot],
       pending := if snapshot.Some? && stored then snapshot else s.pending)
  }

  function AfterCommit(s: Store, gen: nat): Store {
    if gen !in s.flying then s
    else
      var landed := s.(flying := s.flying - {gen});
      if gen != s.saveGen then landed else landed.(main := s.flying[gen], pending := None)
  }

  function Apply(s: Store, e: Event): Store {
    match e
    case Call(snapshot, stored) => AfterCall(s, snapshot, stored)
    case Commit(gen) => AfterCommit(s, gen)
    case Fail(gen) => s.(flying := s.flying - {gen})
  }

  function Run(s: Store, es: seq<Event>): Store {
    if es == [] then s else Apply(Run(s, es[..|es| - 1]), es[|es| - 1])
  }

  /** readTriageBlob. */
  function Read(s: Store): Option<Snapshot> {
    if s.pending.Some? then s.pending else s.main
  }

  predicate NoCall(es: seq<Event>) {
    forall n :: 0 <= n < |es| ==> !es[n].Call?
  }

  /** The save was given up before it could commit. */
  predicate FailedIn(es: seq<Event>, gen: nat) {
    es != [] && (FailedIn(es[..|es| - 1], gen) || (es[|es| - 1] == Fail(gen) && Commit(gen) !in es[..|es| - 1]))
  }

  /** The save came to its commit before it could be given up. */
  predicate CommittedIn(es: seq<Event>, gen: nat) {
    es != [] && (CommittedIn(es[..|es| - 1], gen) || (es[|es| - 1] == Commit(gen) && Fail(gen) !in es[..|es| - 1]))
  }

  /**
   What a call has come to by now, no other having followed: both keys as it left them until it commits, and
   then its snapshot alone.
   */
  predicate Standing(called: Store, snapshot: Option<Snapshot>, t: Store, committed: bool) {
    && t.saveGen == called.saveGen
    && (called.saveGen in t.flying ==> t.flying[called.saveGen] == snapshot && !committed)
    && if committed then t.main == snapshot && t.pending == None
      else t.main == called.main && t.pending == called.pending
  }

  lemma {:induction false} CallStands(s: Store, es: seq<Event>, snapshot: Option<Snapshot>, stored: bool)
    requires NoCall(es)
    ensures var called, gen := AfterCall(s, snapshot, stored), s.saveGen + 1;
            && Standing(called, snapshot, Run(called, es), CommittedIn(es, gen))
            && (gen in Run(called, es).flying <==> Commit(gen) !in es && Fail(gen) !in es)
            && (gen in Run(called, es).flying || CommittedIn(es, gen) || FailedIn(es, gen))
            && !(CommittedIn(es, gen) && FailedIn(es, gen))
  {
    if es != [] {
      var init, e := es[..|es| - 1], es[|es| - 1];
      CallStands(s, init, snapshot, stored);
      assert es == init + [e];
      InRun(init, s.saveGen + 1);
    }
  }

  /** A save committed or given up had its event. */
  lemma {:induction false} InRun(es: seq<Event>, gen: nat)
    ensures CommittedIn(es, gen) ==> Commit(gen) in es
    ensures FailedIn(es, gen) ==> Fail(gen) in es
  {
    if es != [] { InRun(es[..|es| - 1], gen); }
  }

  /**
   After any call, with something in it or not and its pending write stored or not, and whatever saves finish,
   fail or are skipped until the next call: reading gives the call's snapshot exactly when that was stored with
   something in it, or has committed, or is what was read before the call anyway.
   */
  lemma ReadsCallIff(s: Store, snapshot: Option<Snapshot>, stored: bool, es: seq<Event>)
    requires NoCall(es)
    ensures Read(Run(AfterCall(s, snapshot, stored), es)) == snapshot <==>
              (snapshot.Some? && stored) || CommittedIn(es, s.saveGen + 1) || Read(s) == snapshot
  {
    CallStands(s, es, snapshot, stored);
  }

  /** So a call with something in it, once stored, is what is read until the next call. */
  lemma ReadsLastCall(s: Store, snapshot: Snapshot, es: seq<Event>)
    requires NoCall(es)
    ensures Read(Run(AfterCall(s, Some(snapshot), true), es)) == Some(snapshot)
  {
    ReadsCallIff(s, Some(snapshot), true, es);
  }

  /**
   Once all saves have settled, the last call's snapshot is under the main key and nothing is pending; unless that
   last save was given up, and then both keys are as the call left them.
   */
  lemma SettlesOnLastCall(s: Store, snapshot: Option<Snapshot>, stored: bool, es: seq<Event>)
    requires NoCall(es) && Run(AfterCall(s, snapshot, stored), es).flying == map[]
    ensures var t := Run(AfterCall(s, snapshot, stored), es);
            if FailedIn(es, s.saveGen + 1)
            then t.main == s.main && t.pending == if snapshot.Some? && stored then snapshot else s.pending
            else t.main == snapshot && t.pending == None
  {
    CallStands(s, es, snapshot, stored);
  }

  /** Saves overtaken by a later call write neither key, however many finish and in whatever order. */
  lemma {:induction false} OvertakenSavesWriteNothing(s: Store, es: seq<Event>)
    requires NoCall(es) && Commit(s.saveGen) !in es
    ensures Run(s, es).main == s.main && Run(s, es).pending == s.pending && Run(s, es).saveGen == s.saveGen
  {
    if es != [] {
      var init, e := es[..|es| - 1], es[|es| - 1];
      assert es == init + [e];
      OvertakenSavesWriteNothing(s, init);
      assert e in es;
    }
  }

  /** The two keys as they are written. */
  class Keys {
    var main: Option<Snapshot>
    var pending: Option<Snapshot>
    var saveGen: nat
    var flying: map<nat, Option<Snapshot>>

    function State(): Store
      reads this
    {
      Store(main, pending, saveGen, flying)
    }

    constructor (main: Option<Snapshot>, pending: Option<Snapshot>)
      ensures State() == Store(main, pending, 0, map[])
    {
      this.main, this.pending, saveGen, flying := main, pending, 0, map[];
    }

    /** saveTriage up to its lock request. */
    method SaveTriage(snapshot: Option<Snapshot>, stored: bool) returns (gen: nat)
      modifies this
      ensures State() == Apply(old(State()), Call(snapshot, stored)) && gen == saveGen
    {
      saveGen := saveGen + 1;
      gen := saveGen;
      if snapshot.Some? && stored { pending := snapshot; }
      flying := flying[gen := snapshot];
    }

    /**
     The commit under the lock: nothing for a save overtaken; for a snapshot with something in it, given up when the
     session key has changed since it was sealed, and then saved again, or when the write is refused.
     */
    method Land(gen: nat, keyChanged: bool, writeRefused: bool) returns (again: bool)
      requires gen in flying
      modifies this
      ensures State() == Apply(old(State()), if old(flying)[gen].Some? && (keyChanged || writeRefused) then Fail(gen)
                else Commit(gen))
      ensures again <==> gen == saveGen && old(flying)[gen].Some? && keyChanged
    {
      var snapshot := flying[gen];
      flying := flying - {gen};
      again := false;
      if gen != saveGen { return; }
      if snapshot.Some? && keyChanged { return true; }
      if snapshot.None? {
        main := None;
        pending := None;
      } else if !writeRefused {
        main := snapshot;
        pending := None;
      }
    }
  }
}
