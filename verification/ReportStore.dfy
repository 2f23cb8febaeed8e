/**
 The report store as it runs: each method is a stretch of readFile, saveFile,
 saveFileBytes, deleteFile or quarantineEmptyEntry between awaits, tied to the
 event it is, so what is proved of every run holds of any sequence of calls.
 */
module ReportStore {
  import opened Options
  import opened KeptTexts
  import C = ReportCache

  class Tab {
    const texts: TextCache
    var disk: map<string, string>
    var writeGen: map<string, nat>
    var reading: map<nat, C.Read>
    var nextRead: nat
    var inFlight: map<string, nat>
    var waiting: seq<(string, C.Job)>
    var held: map<string, C.Save>
    var quarantine: Option<string>
    var sweeping: Option<string>

    ghost predicate Valid()
      reads this, texts
    {
      texts.Valid()
    }

    ghost function State(): C.Store
      reads this, texts
    {
      C.Store(texts.most, disk, texts.cache, writeGen, reading, nextRead, inFlight, waiting, held, quarantine, sweeping)
    }

    constructor (most: nat, disk: map<string, string>)
      ensures Valid() && fresh(texts) && C.JustLoaded(State()) && this.disk == disk && texts.most == most
    {
      texts := new TextCache(most);
      this.disk, writeGen, reading, nextRead, inFlight := disk, map[], map[], 0, map[];
      waiting, held, quarantine, sweeping := [], map[], None, None;
    }

    method Bump(name: string)
      modifies this`writeGen
      ensures writeGen == C.Bumped(old(State()), name)
    {
      writeGen := writeGen[name := (if name in writeGen then writeGen[name] else 0) + 1];
    }

    /** readFile up to its first await: a kept text, a read under way to join, or a read begun. */
    method StartRead(name: string, keep: bool) returns (served: Option<string>)
      requires Valid()
      modifies this, texts
      ensures Valid() && State() == C.Apply(old(State()), C.StartRead(name, keep))
      ensures served.Some? <==> Has(old(texts.cache), name)
      ensures served.Some? ==> Holds(old(texts.cache), name, served.value)
    {
      var found, text := texts.ReadKept(name, keep);
      if found { return Some(text); }
      MissingStays(old(texts.cache), name);
      served := None;
      if name in inFlight && inFlight[name] in reading {
        var r := reading[inFlight[name]];
        reading := reading[inFlight[name] := r.(keep := r.keep || keep)];
      } else {
        var startedAt := if name in writeGen then writeGen[name] else 0;
        reading := reading[nextRead := C.Read(name, startedAt, keep, None)];
        inFlight := inFlight[name := nextRead];
        nextRead := nextRead + 1;
      }
    }

    /** The read resolved: keep the text if someone asked and no write came between. */
    method SettleRead(id: nat)
      requires Valid() && id in reading && reading[id].got.Some?
      modifies this, texts
      ensures Valid() && State() == C.Apply(old(State()), C.SettleRead(id))
    {
      var r := reading[id];
      var current := (if r.name in writeGen then writeGen[r.name] else 0) == r.startedAt;
      if r.got.value == Some("") && current { return; }
      if r.got.value.Some? && r.got.value.value != "" && r.keep && current {
        texts.KeepText(r.name, r.got.value.value);
      }
      reading := reading - {id};
      inFlight := inFlight - {r.name};
    }

    /** quarantineEmptyEntry once it has the exclusive lock: skipped if a write came between. */
    method TakeQuarantine(id: nat)
      requires Valid() && id in reading && reading[id].got == Some(Some("")) && quarantine.None? && held == map[]
                 && sweeping.None?
      modifies this, texts
      ensures Valid() && State() == C.Apply(old(State()), C.TakeQuarantine(id))
    {
      var r := reading[id];
      reading := reading - {id};
      inFlight := inFlight - {r.name};
      if (if r.name in writeGen then writeGen[r.name] else 0) == r.startedAt {
        Bump(r.name);
        texts.ForgetText(r.name);
        Bounded(old(texts.cache), r.name);
        quarantine := Some(r.name);
      }
    }

    /** The heads of saveFile, saveFileBytes and deleteFile. */
    method Call(name: string, job: C.Job) returns (refused: bool)
      requires Valid()
      modifies this, texts
      ensures Valid() && State() == C.Apply(old(State()), C.Call(name, job))
      ensures refused <==> !job.Removal? && job.text == ""
    {
      if !job.Removal? && job.text == "" { return true; }
      refused := false;
      Bump(name);
      if !job.Texts? {
        texts.ForgetText(name);
        Bounded(old(texts.cache), name);
      }
      if job.Removal? { inFlight := inFlight - {name}; }
      waiting := waiting + [(name, job)];
    }

    /** The write has committed: keep its text, if it is one, and bump again. */
    method Finish(name: string)
      requires Valid() && C.Holding(State(), name, C.Written)
      modifies this, texts
      ensures Valid() && State() == C.Apply(old(State()), C.Finish(name))
    {
      var job := held[name].job;
      if job.Texts? { texts.KeepText(name, job.text); }
      Bump(name);
      held := held - {name};
    }

    /** The write has failed. */
    method Catch(name: string)
      requires Valid() && C.Holding(State(), name, C.Broken)
      modifies this, texts
      ensures Valid() && State() == C.Apply(old(State()), C.Catch(name))
    {
      if held[name].job.Texts? {
        texts.ForgetText(name);
        Bounded(old(texts.cache), name);
      }
      Bump(name);
      held := held[name := held[name].(stage := C.Failed)];
    }

    /** rawReadAndWrite up to its write. */
    method BeginSweep(name: string)
      requires Valid() && held == map[] && quarantine.None? && sweeping.None? && name in disk
      modifies this, texts
      ensures Valid() && State() == C.Apply(old(State()), C.BeginSweep(name))
    {
      texts.ForgetText(name);
      Bounded(old(texts.cache), name);
      inFlight := inFlight - {name};
      Bump(name);
      sweeping := Some(name);
    }

    /** And after it: a write that failed takes an entry it truncated away, and bumps nothing. */
    method EndSweep(failed: bool, truncated: bool)
      requires Valid() && sweeping.Some?
      modifies this
      ensures Valid() && State() == C.Apply(old(State()), if failed then C.FailSweep(truncated) else C.EndSweep)
    {
      if !failed {
        Bump(sweeping.value);
      } else if truncated {
        disk := disk - {sweeping.value};
      }
      sweeping := None;
    }
  }

  lemma Bounded(s: seq<Slot>, name: string)
    requires OneEach(s)
    ensures Chars(Forget(s, name)) <= Chars(s)
  {
    ForgetIs(s, name);
  }

  lemma MissingStays(s: seq<Slot>, name: string)
    requires !Has(s, name)
    ensures Touch(s, name) == s
  {
  }
}
