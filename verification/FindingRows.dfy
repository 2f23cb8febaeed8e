/**
 The original report rows of the finding index (client/bundle-finding-rows.js):
 rows by the ids of their members and by the ids their App findings cite, and
 by report what each filed, for the prune.
 */
module FindingRows {
  import opened Options

  datatype Member = Member(id: string, title: string)

  /** A report's row: its place, its members, and the ids its App findings name as inputs. */
  datatype Row = Row(report: string, index: nat, members: seq<Member>, inputs: seq<string>)

  /** What one report holds under one id: the first title it gave, and its rows with the id. */
  datatype Entry = Entry(title: string, rows: set<Row>)

  datatype Keys = Keys(ids: set<string>, inputs: set<string>)

  /** An id met in a row, with the title it has there. */
  datatype Mention = Mention(id: string, title: string, row: Row)

  type ById = map<string, map<string, Entry>>
  type ByInput = map<string, map<string, set<Row>>>

  function Lookup<V>(m: map<string, map<string, V>>, id: string, name: string): Option<V> {
    if id in m && name in m[id] then Some(m[id][name]) else None
  }

  function Install<V>(m: map<string, map<string, V>>, id: string, name: string, v: V): map<string, map<string, V>> {
    m[id := (if id in m then m[id] else map[])[name := v]]
  }

  /** The report goes from the id's, and the id with its last report. */
  function Remove<V>(m: map<string, map<string, V>>, id: string, name: string): map<string, map<string, V>> {
    if id !in m then m
    else
      var less := m[id] - {name};
      if less == map[] then m - {id} else m[id := less]
  }

  // ---- what the maps stand for ----

  /** Of a report's mentions in order: the first title under the id, and every row it is met in. */
  function EntryOf(ms: seq<Mention>, id: string): Option<Entry> {
    if ms == [] then None
    else
      var m, before := ms[|ms| - 1], EntryOf(ms[..|ms| - 1], id);
      if m.id != id then before
      else if before.None? then Some(Entry(m.title, {m.row}))
      else Some(Entry(before.value.title, before.value.rows + {m.row}))
  }

  function RowsCiting(cs: set<(string, Row)>, id: string): set<Row> {
    set c | c in cs && c.0 == id :: c.1
  }

  function CitedIn(cs: set<(string, Row)>, id: string): Option<set<Row>> {
    if RowsCiting(cs, id) == {} then None else Some(RowsCiting(cs, id))
  }

  function MentionsOf(filed: map<string, seq<Mention>>, name: string): seq<Mention> {
    if name in filed then filed[name] else []
  }

  function CitesOf(cited: map<string, set<(string, Row)>>, name: string): set<(string, Row)> {
    if name in cited then cited[name] else {}
  }

  function KeysFor(keys: map<string, Keys>, name: string): Keys {
    if name in keys then keys[name] else Keys({}, {})
  }

  ghost predicate IdsOk(byId: ById, filed: map<string, seq<Mention>>) {
    && (forall id, name :: Lookup(byId, id, name) == EntryOf(MentionsOf(filed, name), id))
    && (forall id :: id in byId ==> byId[id] != map[])
  }

  ghost predicate InputsOk(byInput: ByInput, cited: map<string, set<(string, Row)>>) {
    && (forall id, name :: Lookup(byInput, id, name) == CitedIn(CitesOf(cited, name), id))
    && (forall id :: id in byInput ==> byInput[id] != map[])
  }

  /** What each report filed is what the prune will look for. */
  ghost predicate IdKeysOk(keys: map<string, Keys>, filed: map<string, seq<Mention>>) {
    forall id, name :: EntryOf(MentionsOf(filed, name), id).Some? <==> id in KeysFor(keys, name).ids
  }

  ghost predicate InputKeysOk(keys: map<string, Keys>, cited: map<string, set<(string, Row)>>) {
    forall id, name :: CitedIn(CitesOf(cited, name), id).Some? <==> id in KeysFor(keys, name).inputs
  }

  lemma Mentioned(ms: seq<Mention>, m: Mention)
    ensures forall id :: EntryOf(ms + [m], id) ==
                         if m.id != id then EntryOf(ms, id)
                         else if EntryOf(ms, id).None? then Some(Entry(m.title, {m.row}))
                         else Some(Entry(EntryOf(ms, id).value.title, EntryOf(ms, id).value.rows + {m.row}))
  {
    assert (ms + [m])[..|ms|] == ms;
  }

  /** A title is some mention's, and a row is in the entry exactly when the id is met in it. */
  lemma {:induction false} EntryIs(ms: seq<Mention>, id: string)
    ensures EntryOf(ms, id).Some? <==> exists m :: m in ms && m.id == id
    ensures EntryOf(ms, id).Some? ==>
              && (exists m :: m in ms && m.id == id && m.title == EntryOf(ms, id).value.title)
              && (forall row :: row in EntryOf(ms, id).value.rows <==>
                  exists m :: m in ms && m.id == id && m.row == row)
  {
    if ms != [] {
      var init, last := ms[..|ms| - 1], ms[|ms| - 1];
      EntryIs(init, id);
      assert ms == init + [last];
      assert forall m :: m in ms <==> m in init || m == last;
    }
  }

  lemma InstallIs<V>(m: map<string, map<string, V>>, id: string, name: string, v: V)
    ensures forall i, n :: Lookup(Install(m, id, name, v), i, n) == if i == id && n == name then Some(v)
              else Lookup(m, i, n)
    ensures (forall i :: i in m ==> m[i] != map[])
              ==> forall i :: i in Install(m, id, name, v) ==> Install(m, id, name, v)[i] != map[]
  {
    assert name in Install(m, id, name, v)[id];
  }

  lemma RemoveIs<V>(m: map<string, map<string, V>>, id: string, name: string)
    ensures forall i, n :: Lookup(Remove(m, id, name), i, n) == if i == id && n == name then None else Lookup(m, i, n)
    ensures (forall i :: i in m ==> m[i] != map[])
              ==> forall i :: i in Remove(m, id, name) ==> Remove(m, id, name)[i] != map[]
  {
    if id in m {
      var less := m[id] - {name};
      forall n | n != name ensures n in less <==> n in m[id] {}
      if less == map[] { assert forall n :: n != name ==> n !in m[id]; }
    }
  }

  /** Two maps that answer alike, with nothing empty in them, are one. */
  lemma SameAnswers<V>(a: map<string, map<string, V>>, b: map<string, map<string, V>>)
    requires forall id, name :: Lookup(a, id, name) == Lookup(b, id, name)
    requires (forall id :: id in a ==> a[id] != map[]) && (forall id :: id in b ==> b[id] != map[])
    ensures a == b
  {
    SomeIn(a, b);
    SomeIn(b, a);
    forall id | id in a ensures a[id] == b[id] {
      forall name ensures (name in a[id] <==> name in b[id]) && (name in a[id] ==> a[id][name] == b[id][name]) {
        assert Lookup(a, id, name) == Lookup(b, id, name);
      }
    }
  }

  lemma SomeIn<V>(a: map<string, map<string, V>>, b: map<string, map<string, V>>)
    requires forall id, name :: Lookup(a, id, name) == Lookup(b, id, name)
    requires forall id :: id in a ==> a[id] != map[]
    ensures forall id :: id in a ==> id in b
  {
    forall id | id in a ensures id in b {
      var name :| name in a[id];
      assert Lookup(a, id, name) == Lookup(b, id, name);
    }
  }

  lemma Cited(cs: set<(string, Row)>, id: string, row: Row)
    ensures forall i :: CitedIn(cs + {(id, row)}, i) == if i == id then Some(RowsCiting(cs, i) + {row})
              else CitedIn(cs, i)
  {
    var more := cs + {(id, row)};
    forall i ensures RowsCiting(more, i) == RowsCiting(cs, i) + if i == id then {row} else {} {
      assert (id, row) in more;
      forall r | r in RowsCiting(cs, i) ensures r in RowsCiting(more, i) { assert (i, r) in more; }
    }
    forall i ensures CitedIn(more, i) == if i == id then Some(RowsCiting(cs, i) + {row}) else CitedIn(cs, i) {
      if i == id { assert row in RowsCiting(more, i); } else { assert RowsCiting(more, i) == RowsCiting(cs, i); }
    }
  }

  // ---- the maps as one more mention or citation is filed, and as a report goes ----

  function AddMention(byId: ById, name: string, m: Mention): ById {
    var existing := Lookup(byId, m.id, name);
    Install(byId, m.id, name, if existing.None? then Entry(m.title, {m.row})
      else Entry(existing.value.title, existing.value.rows + {m.row}))
  }

  function AddCite(byInput: ByInput, name: string, id: string, row: Row): ByInput {
    var existing := Lookup(byInput, id, name);
    Install(byInput, id, name, (if existing.None? then {} else existing.value) + {row})
  }

  lemma MentionFiled(byId: ById, filed: map<string, seq<Mention>>, name: string, m: Mention)
    requires IdsOk(byId, filed)
    ensures IdsOk(AddMention(byId, name, m), filed[name := MentionsOf(filed, name) + [m]])
  {
    var ms := MentionsOf(filed, name);
    Mentioned(ms, m);
    var entry := if EntryOf(ms, m.id).None? then Entry(m.title, {m.row})
        else Entry(EntryOf(ms, m.id).value.title, EntryOf(ms, m.id).value.rows + {m.row});
    assert Lookup(byId, m.id, name) == EntryOf(ms, m.id);
    InstallIs(byId, m.id, name, entry);
    var more, filedMore := Install(byId, m.id, name, entry), filed[name := ms + [m]];
    forall id, n ensures Lookup(more, id, n) == EntryOf(MentionsOf(filedMore, n), id) {
      assert Lookup(byId, id, n) == EntryOf(MentionsOf(filed, n), id);
    }
  }

  lemma CiteFiled(byInput: ByInput, cited: map<string, set<(string, Row)>>, name: string, id: string, row: Row)
    requires InputsOk(byInput, cited)
    ensures InputsOk(AddCite(byInput, name, id, row), cited[name := CitesOf(cited, name) + {(id, row)}])
  {
    var cs := CitesOf(cited, name);
    Cited(cs, id, row);
    assert Lookup(byInput, id, name) == CitedIn(cs, id);
    InstallIs(byInput, id, name, RowsCiting(cs, id) + {row});
    var more, citedMore := Install(byInput, id, name, RowsCiting(cs, id) + {row}), cited[name := cs + {(id, row)}];
    forall i, n ensures Lookup(more, i, n) == CitedIn(CitesOf(citedMore, n), i) {
      assert Lookup(byInput, i, n) == CitedIn(CitesOf(cited, n), i);
    }
  }

  lemma MentionRemembered(keys: map<string, Keys>, filed: map<string, seq<Mention>>, name: string, m: Mention)
    requires IdKeysOk(keys, filed)
    ensures var ids := KeysFor(keys, name).ids;
            IdKeysOk(if m.id in ids then keys else keys[name := KeysFor(keys, name).(ids := ids + {m.id})],
                     filed[name := MentionsOf(filed, name) + [m]])
  {
    Mentioned(MentionsOf(filed, name), m);
    var more := filed[name := MentionsOf(filed, name) + [m]];
    forall id, n ensures EntryOf(MentionsOf(more, n), id).Some?
        <==> EntryOf(MentionsOf(filed, n), id).Some? || (n == name && id == m.id) {}
  }

  lemma CiteRemembered(keys: map<string, Keys>, cited: map<string, set<(string, Row)>>, name: string, id: string,
                       row: Row)
    requires InputKeysOk(keys, cited)
    ensures InputKeysOk(keys[name := KeysFor(keys, name).(inputs := KeysFor(keys, name).inputs + {id})],
                        cited[name := CitesOf(cited, name) + {(id, row)}])
  {
    Cited(CitesOf(cited, name), id, row);
    var more := cited[name := CitesOf(cited, name) + {(id, row)}];
    forall i, n ensures CitedIn(CitesOf(more, n), i).Some?
        <==> CitedIn(CitesOf(cited, n), i).Some? || (n == name && i == id) {}
  }

  /** The ids a report filed, taken out of the map, leave what the others filed. */
  lemma IdsDropped(byId: ById, was: ById, filed: map<string, seq<Mention>>, name: string, ids: set<string>)
    requires IdsOk(was, filed) && forall id :: EntryOf(MentionsOf(filed, name), id).Some? <==> id in ids
    requires forall id, n :: Lookup(byId, id, n) == if n == name && id in ids then None else Lookup(was, id, n)
    requires forall id :: id in byId ==> byId[id] != map[]
    ensures IdsOk(byId, filed - {name})
  {
    forall id, n ensures Lookup(byId, id, n) == EntryOf(MentionsOf(filed - {name}, n), id) {
      assert Lookup(was, id, n) == EntryOf(MentionsOf(filed, n), id);
    }
  }

  lemma InputsDropped(byInput: ByInput, was: ByInput, cited: map<string, set<(string, Row)>>, name: string,
                      inputs: set<string>)
    requires InputsOk(was, cited) && forall id :: CitedIn(CitesOf(cited, name), id).Some? <==> id in inputs
    requires forall id, n :: Lookup(byInput, id, n) == if n == name && id in inputs then None else Lookup(was, id, n)
    requires forall id :: id in byInput ==> byInput[id] != map[]
    ensures InputsOk(byInput, cited - {name})
  {
    assert RowsCiting({}, "") == {};
    forall id, n ensures Lookup(byInput, id, n) == CitedIn(CitesOf(cited - {name}, n), id) {
      assert Lookup(was, id, n) == CitedIn(CitesOf(cited, n), id);
      if n == name { assert RowsCiting({}, id) == {}; }
    }
  }

  lemma KeysDropped(keys: map<string, Keys>, filed: map<string, seq<Mention>>, cited: map<string, set<(string, Row)>>,
                    name: string)
    requires IdKeysOk(keys, filed) && InputKeysOk(keys, cited)
    ensures IdKeysOk(keys - {name}, filed - {name}) && InputKeysOk(keys - {name}, cited - {name})
  {
    forall id, n ensures EntryOf(MentionsOf(filed - {name}, n), id).Some? <==> id in KeysFor(keys - {name}, n).ids {
      assert EntryOf(MentionsOf(filed, n), id).Some? <==> id in KeysFor(keys, n).ids;
    }
    forall id, n ensures CitedIn(CitesOf(cited - {name}, n), id).Some? <==> id in KeysFor(keys - {name}, n).inputs {
      assert CitedIn(CitesOf(cited, n), id).Some? <==> id in KeysFor(keys, n).inputs;
      if n == name { assert RowsCiting({}, id) == {}; }
    }
  }

  /** Some member's id is new to the report. */
  predicate SomeNew(ms: seq<Mention>, members: seq<Member>) {
    members != [] && (SomeNew(ms, members[..|members| - 1]) || EntryOf(ms, members[|members| - 1].id).None?)
  }

  lemma {:induction false} SomeNewIs(ms: seq<Mention>, members: seq<Member>)
    ensures SomeNew(ms, members) <==> exists f :: f in members && EntryOf(ms, f.id).None?
  {
    if members != [] {
      var init, f := members[..|members| - 1], members[|members| - 1];
      SomeNewIs(ms, init);
      assert members == init + [f];
      assert f in members;
    }
  }

  class Rows {
    var byId: ById
    var byInput: ByInput
    var keysByName: map<string, Keys>
    ghost var filed: map<string, seq<Mention>>
    ghost var cited: map<string, set<(string, Row)>>

    ghost predicate Valid()
      reads this
    {
      IdsOk(byId, filed) && InputsOk(byInput, cited) && IdKeysOk(keysByName, filed) && InputKeysOk(keysByName, cited)
    }

    constructor ()
      ensures Valid() && filed == map[] && cited == map[]
    {
      byId, byInput, keysByName, filed, cited := map[], map[], map[], map[], map[];
    }

    /** One member of a row: a title for the id if the report has given none, and the row. */
    method File(name: string, row: Row, f: Member) returns (added: bool)
      requires Valid()
      modifies this`byId, this`keysByName, this`filed
      ensures Valid() && filed == old(filed)[name := MentionsOf(old(filed), name) + [Mention(f.id, f.title, row)]]
      ensures added <==> EntryOf(MentionsOf(old(filed), name), f.id).None?
    {
      ghost var m := Mention(f.id, f.title, row);
      MentionFiled(byId, filed, name, m);
      MentionRemembered(keysByName, filed, name, m);
      assert Lookup(byId, f.id, name) == EntryOf(MentionsOf(filed, name), f.id);
      added := Lookup(byId, f.id, name).None?;
      byId := AddMention(byId, name, Mention(f.id, f.title, row));
      if added {
        var keys := KeysFor(keysByName, name);
        keysByName := keysByName[name := keys.(ids := keys.ids + {f.id})];
      }
      filed := filed[name := MentionsOf(filed, name) + [m]];
    }

    method Cite(name: string, row: Row, id: string)
      requires Valid()
      modifies this`byInput, this`keysByName, this`cited
      ensures Valid() && cited == old(cited)[name := CitesOf(old(cited), name) + {(id, row)}]
    {
      CiteFiled(byInput, cited, name, id, row);
      CiteRemembered(keysByName, cited, name, id, row);
      byInput := AddCite(byInput, name, id, row);
      var keys := KeysFor(keysByName, name);
      keysByName := keysByName[name := keys.(inputs := keys.inputs + {id})];
      cited := cited[name := CitesOf(cited, name) + {(id, row)}];
    }

    method FileMembers(name: string, row: Row) returns (added: bool)
      requires Valid()
      modifies this`byId, this`keysByName, this`filed
      ensures Valid() && Extends(old(filed), filed, name, Mentions(row, row.members))
      ensures added <==> SomeNew(MentionsOf(old(filed), name), row.members)
    {
      added := false;
      ghost var ms := MentionsOf(filed, name);
      for i := 0 to |row.members|
        invariant Valid() && Extends(old(filed), filed, name, Mentions(row, row.members[..i]))
        invariant added <==> SomeNew(ms, row.members[..i])
      {
        MentionsOn(row, row.members, i);
        NewlyMentioned(ms, row, row.members[..i], row.members[i]);
        assert row.members[..i + 1][..i] == row.members[..i];
        ExtendsOn(old(filed), filed, name, Mentions(row, row.members[..i]),
          Mention(row.members[i].id, row.members[i].title, row));
        var more := File(name, row, row.members[i]);
        added := added || more;
      }
      assert row.members[..|row.members|] == row.members;
    }

    method CiteInputs(name: string, row: Row)
      requires Valid()
      modifies this`byInput, this`keysByName, this`cited
      ensures Valid()
      ensures forall n :: CitesOf(cited, n) == CitesOf(old(cited), n) + if n == name then CitesIn(row, row.inputs)
                else {}
    {
      for i := 0 to |row.inputs|
        invariant Valid()
        invariant forall n :: CitesOf(cited, n) == CitesOf(old(cited), n) + if n == name
                    then CitesIn(row, row.inputs[..i]) else {}
      {
        CitesOn(row, row.inputs, i);
        Cite(name, row, row.inputs[i]);
      }
      assert row.inputs[..|row.inputs|] == row.inputs;
    }

    /** indexReportRow: true when an id gains the report. */
    method IndexReportRow(name: string, row: Row) returns (added: bool)
      requires Valid()
      modifies this
      ensures Valid()
      ensures Extends(old(filed), filed, name, Mentions(row, row.members))
      ensures forall n :: CitesOf(cited, n) == CitesOf(old(cited), n) + if n == name then CitesIn(row, row.inputs)
                else {}
      ensures added <==> SomeNew(MentionsOf(old(filed), name), row.members)
    {
      added := FileMembers(name, row);
      CiteInputs(name, row);
    }

    method DropIds(name: string, keys: set<string>)
      requires forall id :: id in byId ==> byId[id] != map[]
      modifies this`byId
      ensures forall id, n :: Lookup(byId, id, n) == if n == name && id in keys then None else Lookup(old(byId), id, n)
      ensures forall id :: id in byId ==> byId[id] != map[]
    {
      var ids := keys;
      while ids != {}
        invariant ids <= keys
        invariant forall id, n :: Lookup(byId, id, n) == if n == name && id in keys - ids then None
                    else Lookup(old(byId), id, n)
        invariant forall id :: id in byId ==> byId[id] != map[]
        decreases |ids|
      {
        var id :| id in ids;
        RemoveIs(byId, id, name);
        byId := Remove(byId, id, name);
        ids := ids - {id};
      }
    }

    method DropInputs(name: string, keys: set<string>)
      requires forall id :: id in byInput ==> byInput[id] != map[]
      modifies this`byInput
      ensures forall id, n :: Lookup(byInput, id, n) == if n == name && id in keys then None
                else Lookup(old(byInput), id, n)
      ensures forall id :: id in byInput ==> byInput[id] != map[]
    {
      var ids := keys;
      while ids != {}
        invariant ids <= keys
        invariant forall id, n :: Lookup(byInput, id, n) == if n == name && id in keys - ids then None
                    else Lookup(old(byInput), id, n)
        invariant forall id :: id in byInput ==> byInput[id] != map[]
        decreases |ids|
      {
        var id :| id in ids;
        RemoveIs(byInput, id, name);
        byInput := Remove(byInput, id, name);
        ids := ids - {id};
      }
    }

    /** dropReportRows: everything the report filed goes, and nothing else. */
    method DropReportRows(name: string) returns (dropped: bool)
      requires Valid()
      modifies this
      ensures Valid() && filed == old(filed) - {name} && cited == old(cited) - {name}
      ensures dropped <==> name in old(keysByName)
    {
      dropped := name in keysByName;
      var keys := KeysFor(keysByName, name);
      KeysDropped(keysByName, filed, cited, name);
      keysByName := keysByName - {name};
      DropIds(name, keys.ids);
      IdsDropped(byId, old(byId), filed, name, keys.ids);
      DropInputs(name, keys.inputs);
      InputsDropped(byInput, old(byInput), cited, name, keys.inputs);
      filed, cited := filed - {name}, cited - {name};
    }
  }

  /** Any two row indexes of the same filings are one: by whatever history, or from scratch. */
  lemma RowsAgree(a: ById, b: ById, c: ByInput, d: ByInput, filed: map<string, seq<Mention>>,
                  cited: map<string, set<(string, Row)>>)
    requires IdsOk(a, filed) && IdsOk(b, filed) && InputsOk(c, cited) && InputsOk(d, cited)
    ensures a == b && c == d
  {
    forall id, name ensures Lookup(a, id, name) == Lookup(b, id, name) {
      assert Lookup(a, id, name) == EntryOf(MentionsOf(filed, name), id);
    }
    forall id, name ensures Lookup(c, id, name) == Lookup(d, id, name) {
      assert Lookup(c, id, name) == CitedIn(CitesOf(cited, name), id);
    }
    SameAnswers(a, b);
    SameAnswers(c, d);
  }

  function CitesIn(row: Row, inputs: seq<string>): set<(string, Row)> {
    set i | i in inputs :: (i, row)
  }

  lemma CitesOn(row: Row, inputs: seq<string>, i: nat)
    requires i < |inputs|
    ensures CitesIn(row, inputs[..i + 1]) == CitesIn(row, inputs[..i]) + {(inputs[i], row)}
  {
    assert inputs[..i + 1] == inputs[..i] + [inputs[i]];
  }

  /** An id new to a report before a row is new after some of the row's members, or one of those was new. */
  lemma {:induction false} NewlyMentioned(ms: seq<Mention>, row: Row, members: seq<Member>, f: Member)
    ensures EntryOf(ms + Mentions(row, members), f.id).None? ==> EntryOf(ms, f.id).None?
    ensures EntryOf(ms, f.id).None? ==> EntryOf(ms + Mentions(row, members), f.id).None? || SomeNew(ms, members)
  {
    if members == [] {
      assert ms + [] == ms;
    } else {
      var init, g := members[..|members| - 1], members[|members| - 1];
      NewlyMentioned(ms, row, init, f);
      Mentioned(ms + Mentions(row, init), Mention(g.id, g.title, row));
      assert ms + (Mentions(row, init) + [Mention(g.id, g.title, row)])
               == (ms + Mentions(row, init)) + [Mention(g.id, g.title, row)];
      assert members == init + [g];
    }
  }

  /** The report has mentioned these as well, and every other report what it had. */
  ghost predicate Extends(was: map<string, seq<Mention>>, now: map<string, seq<Mention>>, name: string,
                          more: seq<Mention>) {
    && MentionsOf(now, name) == MentionsOf(was, name) + more
    && forall n :: n != name ==> MentionsOf(now, n) == MentionsOf(was, n)
  }

  lemma ExtendsOn(was: map<string, seq<Mention>>, now: map<string, seq<Mention>>, name: string, more: seq<Mention>,
                  m: Mention)
    requires Extends(was, now, name, more)
    ensures Extends(was, now[name := MentionsOf(now, name) + [m]], name, more + [m])
  {
    assert MentionsOf(was, name) + more + [m] == MentionsOf(was, name) + (more + [m]);
  }

  /** The mentions a row makes, member by member. */
  function Mentions(row: Row, members: seq<Member>): seq<Mention> {
    if members == [] then []
    else
      var f := members[|members| - 1];
      Mentions(row, members[..|members| - 1]) + [Mention(f.id, f.title, row)]
  }

  lemma MentionsOn(row: Row, members: seq<Member>, i: nat)
    requires i < |members|
    ensures Mentions(row, members[..i + 1])
              == Mentions(row, members[..i]) + [Mention(members[i].id, members[i].title, row)]
  {
    assert members[..i + 1][..i] == members[..i];
  }
}
