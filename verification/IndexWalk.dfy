/**
 The walk that fills the finding index (client/bundle-finding-index.js:419-515):
 one pass over the listed reports at a time, a read per report, and reports
 saved or deleted at any moment, the index being told some time after.
 */
module IndexWalk {
  import opened Options
  import opened FindingBuckets

  /** What reading a report gives: its findings, no report at all, or an error. */
  datatype Content = Report(findings: seq<Finding>) | NotAReport | Unreadable

  /** The read under way, with what it found once it looked; a report gone is an error too. */
  datatype Reading = Reading(name: string, got: Option<Content>)

  datatype Walk = Walk(disk: map<string, Content>, untold: set<string>, indexed: set<string>,
    filed: map<string, seq<Finding>>,
                       reading: Option<Reading>, walking: bool, rest: seq<string>, needsRescan: bool)

  datatype Event =
    | Commit(name: string, content: Option<Content>)
    | Tell(name: string)
    | Begin(names: seq<string>)
    | Next
    | Look
    | Settle
    | EndPass(names: seq<string>)

  function OnDisk(w: Walk, name: string): Content {
    if name in w.disk then w.disk[name] else Unreadable
  }

  /** invalidateName. */
  function Invalidated(w: Walk, name: string): Walk {
    w.(indexed := w.indexed - {name}, filed := w.filed - {name})
  }

  /** indexOne up to its read. */
  function AfterNext(w: Walk): Walk {
    if !w.walking || w.reading.Some? || w.rest == [] then w
    else if w.rest[0] in w.indexed then w.(rest := w.rest[1..])
    else w.(rest := w.rest[1..], indexed := w.indexed + {w.rest[0]}, reading := Some(Reading(w.rest[0], None)))
  }

  /** indexOne once its read is back. */
  function AfterSettle(w: Walk): Walk {
    if w.reading.None? || w.reading.value.got.None? then w
    else
      var name, done := w.reading.value.name, w.(reading := None);
      match w.reading.value.got.value
      case Unreadable => done.(indexed := w.indexed - {name})
      case NotAReport => done
      case Report(fs) =>
        if fs == [] then done
        else if name in w.indexed then done.(filed := w.filed[name := fs])
        else Invalidated(done.(filed := w.filed[name := fs]), name).(needsRescan := true)
  }

  function Apply(w: Walk, e: Event): Walk {
    match e
    case Commit(name, content) =>
      w.(disk := if content.Some? then w.disk[name := content.value] else w.disk - {name}, untold := w.untold + {name})
    case Tell(name) => Invalidated(w, name).(untold := w.untold - {name})
    case Begin(names) => if w.walking then w else w.(walking := true, rest := names, needsRescan := false)
    case Next => AfterNext(w)
    case Look =>
      if w.reading.Some? && w.reading.value.got.None? then
        w.(reading := Some(Reading(w.reading.value.name, Some(OnDisk(w, w.reading.value.name)))))
      else w
    case Settle => AfterSettle(w)
    case EndPass(names) =>
      if !w.walking || w.reading.Some? || w.rest != [] then w
      else if w.needsRescan then w.(needsRescan := false, rest := names)
      else w.(walking := false)
  }

  function Run(w: Walk, es: seq<Event>): Walk {
    if es == [] then w else Apply(Run(w, es[..|es| - 1]), es[|es| - 1])
  }

  /** A page just loaded over any reports. */
  predicate JustLoaded(w: Walk) {
    w.untold == {} && w.indexed == {} && w.filed == map[] && w.reading == None && !w.walking
  }

  predicate BeingRead(w: Walk, name: string) {
    w.reading.Some? && w.reading.value.name == name
  }

  function FiledOf(w: Walk, name: string): seq<Finding> {
    if name in w.filed then w.filed[name] else []
  }

  function FindingsOf(c: Content): seq<Finding> {
    if c.Report? then c.findings else []
  }

  /**
   An indexed report has filed its findings as they are on disk, unless it is being read or a change to it is
   yet to be told.
   */
  predicate Current(w: Walk, name: string) {
    name in w.indexed && !BeingRead(w, name) && name !in w.untold ==>
      FiledOf(w, name) == FindingsOf(OnDisk(w, name)) && OnDisk(w, name) != Unreadable
  }

  predicate ReadOk(w: Walk) {
    w.reading.Some? ==>
      var r := w.reading.value;
      r.name !in w.filed
      && (r.name in w.indexed && r.name !in w.untold && r.got.Some? ==> r.got.value == OnDisk(w, r.name))
  }

  ghost predicate Inv(w: Walk) {
    (forall name :: Current(w, name)) && w.filed.Keys <= w.indexed && ReadOk(w)
  }

  lemma ReadSettles(w: Walk)
    requires Inv(w)
    ensures Inv(AfterSettle(w))
  {
    forall name ensures Current(AfterSettle(w), name) {
      assert Current(w, name);
      SettleCurrent(w, name);
    }
    SettleReads(w);
  }

  lemma SettleCurrent(w: Walk, name: string)
    requires Current(w, name) && ReadOk(w) && w.filed.Keys <= w.indexed
    ensures Current(AfterSettle(w), name)
  {
  }

  lemma SettleReads(w: Walk)
    requires ReadOk(w) && w.filed.Keys <= w.indexed
    ensures ReadOk(AfterSettle(w)) && AfterSettle(w).filed.Keys <= AfterSettle(w).indexed
  {
  }

  lemma TellKeeps(w: Walk, name: string)
    requires Inv(w)
    ensures Inv(Apply(w, Tell(name)))
  {
    var v := Apply(w, Tell(name));
    forall n ensures Current(v, n) { assert Current(w, n); }
  }

  lemma CommitKeeps(w: Walk, name: string, content: Option<Content>)
    requires Inv(w)
    ensures Inv(Apply(w, Commit(name, content)))
  {
    var v := Apply(w, Commit(name, content));
    forall n ensures Current(v, n) { assert Current(w, n); }
  }

  lemma NextKeeps(w: Walk)
    requires Inv(w)
    ensures Inv(AfterNext(w))
  {
    var v := AfterNext(w);
    forall n ensures Current(v, n) { assert Current(w, n); }
  }

  lemma StepKeeps(w: Walk, e: Event)
    requires Inv(w)
    ensures Inv(Apply(w, e))
  {
    match e
    case Settle => ReadSettles(w);
    case Tell(name) => TellKeeps(w, name);
    case Commit(name, content) => CommitKeeps(w, name, content);
    case Next => NextKeeps(w);
    case _ =>
      forall n ensures Current(Apply(w, e), n) { assert Current(w, n); }
  }

  lemma {:induction false} RunKeeps(w: Walk, es: seq<Event>)
    requires Inv(w)
    ensures Inv(Run(w, es))
  {
    if es != [] {
      RunKeeps(w, es[..|es| - 1]);
      StepKeeps(Run(w, es[..|es| - 1]), es[|es| - 1]);
    }
  }

  /**
   Whatever is saved, deleted and told during walks, a report's findings in the index are those on disk as
   soon as every change to it has been told: nothing stale stays, and an indexed report lacks nothing.
   */
  lemma FiledIsOnDisk(w: Walk, es: seq<Event>, name: string)
    requires JustLoaded(w) && name !in Run(w, es).untold
    ensures name in Run(w, es).filed ==> Run(w, es).filed[name] == FindingsOf(OnDisk(Run(w, es), name))
    ensures name in Run(w, es).indexed && !BeingRead(Run(w, es), name) ==>
              FiledOf(Run(w, es), name) == FindingsOf(OnDisk(Run(w, es), name))
  {
    assert Inv(w);
    RunKeeps(w, es);
    assert Current(Run(w, es), name);
  }

  /**
   A report invalidated while it is read files nothing, and another pass is due exactly when what was read had
   findings (or one was due).
   */
  lemma RolledBackIff(w: Walk)
    requires Inv(w) && w.reading.Some? && w.reading.value.got.Some? && w.reading.value.name !in w.indexed
    ensures var v := AfterSettle(w);
            v.filed == w.filed && w.reading.value.name !in v.indexed
            && (v.needsRescan <==> w.needsRescan || FindingsOf(w.reading.value.got.value) != [])
  {
    var name := w.reading.value.name;
    assert name !in w.filed;
    assert w.filed[name := FindingsOf(w.reading.value.got.value)] - {name} == w.filed;
  }

  lemma RunOn(w: Walk, es: seq<Event>, e: Event)
    ensures Run(w, es + [e]) == Apply(Run(w, es), e)
  {
    assert (es + [e])[..|es|] == es;
  }

  const BARE := Walk(map["r" := Report([])], {}, {}, map[], None, false, [], false)

  /**
   What that leaves out: a report with no findings, overwritten while it is read, is neither indexed nor
   due another pass. The walk ends with its new findings not filed, and every change told.
   */
  lemma EmptyStaleReadIsForgotten(f: Finding)
    ensures JustLoaded(BARE)
    ensures var v := Run(BARE, [Begin(["r"])] + [Next] + [Look] + [Commit("r", Some(Report([f])))] + [Tell("r")]
              + [Settle] + [EndPass([])]);
            !v.walking && v.untold == {} && FindingsOf(OnDisk(v, "r")) == [f] && "r" !in v.indexed && v.filed == map[]
  {
    var begun := BARE.(walking := true, rest := ["r"]);
    RunOn(BARE, [], Begin(["r"]));
    assert [] + [Begin(["r"])] == [Begin(["r"])];
    var next := begun.(rest := [], indexed := {"r"}, reading := Some(Reading("r", None)));
    assert Apply(begun, Next) == next;
    RunOn(BARE, [Begin(["r"])], Next);
    RunOn(BARE, [Begin(["r"])] + [Next], Look);
    var looked := next.(reading := Some(Reading("r", Some(Report([])))));
    assert Apply(next, Look) == looked;
    RunOn(BARE, [Begin(["r"])] + [Next] + [Look], Commit("r", Some(Report([f]))));
    var saved := looked.(disk := map["r" := Report([f])], untold := {"r"});
    assert Apply(looked, Commit("r", Some(Report([f])))) == saved;
    RunOn(BARE, [Begin(["r"])] + [Next] + [Look] + [Commit("r", Some(Report([f])))], Tell("r"));
    var told := saved.(indexed := {}, untold := {});
    assert Apply(saved, Tell("r")) == told;
    RunOn(BARE, [Begin(["r"])] + [Next] + [Look] + [Commit("r", Some(Report([f])))] + [Tell("r")], Settle);
    RunOn(BARE, [Begin(["r"])] + [Next] + [Look] + [Commit("r", Some(Report([f])))] + [Tell("r")] + [Settle],
      EndPass([]));
  }
}
