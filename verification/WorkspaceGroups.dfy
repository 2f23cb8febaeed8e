/**
 Building the merged rows (common/workspace-groups.js): the findings of each
 component once an id, in canonical order, cut again where a lens without the
 App layer asks for it. What must hold throughout is that no shown id, and no
 shown finding without an id, gets lost on the way.
 */
module WorkspaceGroups {
  import opened Findings
  import opened Buckets
  import opened Closure
  import opened RevalidationInputs
  import opened WorkspaceRows
  import opened WorkspaceComponents

  // ---- one finding an id ----

  function AllFindings(component: seq<Row>): seq<Finding> {
    if component == [] then []
    else AllFindings(component[..|component| - 1]) + component[|component| - 1].group
  }

  ghost function Ids(s: seq<Finding>): set<string> {
    set f | f in s && f.id != "" :: f.id
  }

  /** Each id's first finding, and every finding without an id. */
  ghost function Firsts(s: seq<Finding>): seq<Finding> {
    if s == [] then []
    else
      var init, last := s[..|s| - 1], s[|s| - 1];
      Firsts(init) + if last.id != "" && last.id in Ids(init) then [] else [last]
  }

  ghost predicate OneAnId(s: seq<Finding>) {
    forall i, j :: 0 <= i < j < |s| && s[i].id != "" ==> s[i].id != s[j].id
  }

  lemma {:induction false} FirstsKeepIds(s: seq<Finding>)
    ensures Ids(Firsts(s)) == Ids(s) && OneAnId(Firsts(s))
    ensures forall f :: f in Firsts(s) ==> f in s
    ensures forall f :: f in s && f.id == "" ==> f in Firsts(s)
  {
    if s != [] {
      var init, last := s[..|s| - 1], s[|s| - 1];
      FirstsKeepIds(init);
      assert s == init + [last];
      assert forall f :: f in s <==> f in init || f == last;
      assert forall f :: f in Firsts(s) ==> f in Firsts(init) || f == last;
      if last.id != "" && last.id !in Ids(init) {
        assert last in Firsts(s);
      }
      forall f | f in Firsts(init) ensures f in Firsts(s) {}
      assert Ids(s) == Ids(init) + if last.id == "" then {} else {last.id};
      forall i, j | 0 <= i < j < |Firsts(s)| && Firsts(s)[i].id != "" ensures Firsts(s)[i].id != Firsts(s)[j].id {
        if j == |Firsts(init)| {
          assert Firsts(s)[i] in Firsts(init);
          assert Firsts(s)[i].id in Ids(Firsts(init));
        }
      }
    }
  }

  lemma FirstsOfDistinct(s: seq<Finding>)
    requires OneAnId(s)
    ensures Firsts(s) == s
  {
    if s != [] {
      var init, last := s[..|s| - 1], s[|s| - 1];
      FirstsOfDistinct(init);
      assert s == init + [last];
    }
  }

  /** The first finding of each id. */
  ghost predicate CopiesOf(copies: map<string, Finding>, s: seq<Finding>) {
    copies.Keys == Ids(s) && forall id :: id in copies ==> id != "" && copies[id].id == id && copies[id] in Firsts(s)
  }

  lemma OneMore(s: seq<Finding>, f: Finding)
    ensures Ids(s + [f]) == Ids(s) + if f.id == "" then {} else {f.id}
    ensures Firsts(s + [f]) == Firsts(s) + if f.id != "" && f.id in Ids(s) then [] else [f]
  {
    var t := s + [f];
    assert t[..|t| - 1] == s;
    assert forall g :: g in t <==> g in s || g == f;
  }

  /** A finding without an id, or under an id already copied, leaves the copies. */
  lemma CopyKept(copies: map<string, Finding>, s: seq<Finding>, f: Finding)
    requires CopiesOf(copies, s) && (f.id == "" || f.id in copies)
    ensures CopiesOf(copies, s + [f])
  {
    OneMore(s, f);
    assert Ids(s + [f]) == Ids(s);
    forall id | id in copies ensures copies[id] in Firsts(s + [f]) { assert copies[id] in Firsts(s); }
  }

  lemma CopyAdded(copies: map<string, Finding>, s: seq<Finding>, f: Finding)
    requires CopiesOf(copies, s) && f.id != "" && f.id !in copies
    ensures CopiesOf(copies[f.id := f], s + [f])
  {
    OneMore(s, f);
    var now, kept := copies[f.id := f], Firsts(s) + [f];
    assert Firsts(s + [f]) == kept && Ids(s + [f]) == Ids(s) + {f.id};
    assert now.Keys == copies.Keys + {f.id};
    assert kept[|Firsts(s)|] == f;
    forall id | id in now ensures now[id].id == id
        && now[id] in kept { if id != f.id { assert copies[id] in Firsts(s); } }
  }

  /** One more finding: kept if its id is not copied yet. */
  method GatherOne(ghost done: seq<Finding>, copies0: map<string, Finding>, findings0: seq<Finding>, f: Finding)
      returns (copies: map<string, Finding>, findings: seq<Finding>)
    requires findings0 == Firsts(done) && CopiesOf(copies0, done)
    ensures findings == Firsts(done + [f]) && CopiesOf(copies, done + [f])
  {
    copies, findings := copies0, findings0;
    OneMore(done, f);
    if f.id != "" && f.id in copies {
      CopyKept(copies, done, f);
    } else {
      findings := findings + [f];
      if f.id != "" {
        CopyAdded(copies, done, f);
        copies := copies[f.id := f];
      } else {
        CopyKept(copies, done, f);
      }
    }
  }

  /** The row's findings, one an id, and the copy each id is found under. */
  method Gather(component: seq<Row>) returns (copies: map<string, Finding>, findings: seq<Finding>)
    ensures findings == Firsts(AllFindings(component)) && CopiesOf(copies, AllFindings(component))
  {
    copies, findings := map[], [];
    for r := 0 to |component|
      invariant findings == Firsts(AllFindings(component[..r])) && CopiesOf(copies, AllFindings(component[..r]))
    {
      copies, findings := GatherGroup(component[r].group, AllFindings(component[..r]), copies, findings);
      assert component[..r + 1][..r] == component[..r];
    }
    assert component[..|component|] == component;
  }

  method GatherGroup(group: seq<Finding>, ghost done: seq<Finding>, copies0: map<string, Finding>,
                     findings0: seq<Finding>)
      returns (copies: map<string, Finding>, findings: seq<Finding>)
    requires findings0 == Firsts(done) && CopiesOf(copies0, done)
    ensures findings == Firsts(done + group) && CopiesOf(copies, done + group)
  {
    copies, findings := copies0, findings0;
    assert done + group[..0] == done;
    for k := 0 to |group|
      invariant findings == Firsts(done + group[..k]) && CopiesOf(copies, done + group[..k])
    {
      assert done + group[..k + 1] == done + group[..k] + [group[k]];
      copies, findings := GatherOne(done + group[..k], copies, findings, group[k]);
    }
    assert group[..|group|] == group;
  }

  // ---- canonical order ----

  function AddNew(s: seq<string>, id: string): seq<string> {
    if id in s then s else s + [id]
  }

  /** `more` added in order to the ids in `s`, none twice. */
  function AddAll(s: seq<string>, more: seq<string>): seq<string>
    decreases |more|
  {
    if more == [] then s else AddNew(AddAll(s, more[..|more| - 1]), more[|more| - 1])
  }

  /** The ids of a merge that the component holds. */
  function HeldIds(merge: seq<string>, held: set<string>): seq<string> {
    if merge == [] then []
    else HeldIds(merge[..|merge| - 1], held) + if merge[|merge| - 1] in held then [merge[|merge| - 1]] else []
  }

  function HintedIds(merges: seq<seq<string>>, held: set<string>): seq<string> {
    if merges == [] then [] else HintedIds(merges[..|merges| - 1], held) + HeldIds(merges[|merges| - 1], held)
  }

  function NamedIds(s: seq<Finding>): seq<string> {
    if s == [] then [] else NamedIds(s[..|s| - 1]) + if s[|s| - 1].id != "" then [s[|s| - 1].id] else []
  }

  /** The ids the author put in order: rows of more than one finding. */
  function AuthoredIds(component: seq<Row>): seq<string> {
    if component == [] then []
    else
      var last := component[|component| - 1];
      AuthoredIds(component[..|component| - 1]) + if |last.group| > 1 then NamedIds(last.group) else []
  }

  function CanonicalIds(component: seq<Row>, merges: seq<seq<string>>, held: set<string>): seq<string> {
    AddAll([], HintedIds(merges, held) + AuthoredIds(component))
  }

  lemma {:induction false} AddAllHolds(s: seq<string>, more: seq<string>)
    requires Distinct(s)
    ensures Distinct(AddAll(s, more)) && forall id :: id in AddAll(s, more) <==> id in s || id in more
  {
    if more != [] {
      var init := more[..|more| - 1];
      AddAllHolds(s, init);
      assert more == init + [more[|more| - 1]];
    }
  }

  lemma {:induction false} NamedIdsAre(s: seq<Finding>)
    ensures forall id :: id in NamedIds(s) <==> id in Ids(s)
  {
    if s != [] {
      var init, last := s[..|s| - 1], s[|s| - 1];
      NamedIdsAre(init);
      assert s == init + [last];
      assert Ids(s) == Ids(init) + if last.id == "" then {} else {last.id};
    }
  }

  lemma {:induction false} AuthoredHeld(component: seq<Row>)
    ensures forall id :: id in AuthoredIds(component) ==> id in Ids(AllFindings(component))
  {
    if component != [] {
      var n := |component| - 1;
      AuthoredHeld(component[..n]);
      NamedIdsAre(component[n].group);
      assert Ids(AllFindings(component)) == Ids(AllFindings(component[..n])) + Ids(component[n].group);
    }
  }

  lemma {:induction false} HeldIdsAre(merge: seq<string>, held: set<string>)
    ensures forall id :: id in HeldIds(merge, held) ==> id in held
  {
    if merge != [] { HeldIdsAre(merge[..|merge| - 1], held); }
  }

  lemma {:induction false} HintedHeld(merges: seq<seq<string>>, held: set<string>)
    ensures forall id :: id in HintedIds(merges, held) ==> id in held
  {
    if merges != [] {
      HintedHeld(merges[..|merges| - 1], held);
      HeldIdsAre(merges[|merges| - 1], held);
    }
  }

  lemma AddOne(s: seq<string>, more: seq<string>, id: string)
    ensures AddAll(s, more + [id]) == AddNew(AddAll(s, more), id)
  {
    assert (more + [id])[..|more|] == more;
  }

  /** Adding one row's or merge's ids to an insertion-ordered set. */
  method Insert(ids: seq<string>, ghost before: seq<string>, start: seq<string>) returns (canonical: seq<string>)
    requires start == AddAll([], before)
    ensures canonical == AddAll([], before + ids)
  {
    canonical := start;
    assert before + ids[..0] == before;
    for k := 0 to |ids|
      invariant canonical == AddAll([], before + ids[..k])
    {
      AddOne([], before + ids[..k], ids[k]);
      assert before + ids[..k + 1] == before + ids[..k] + [ids[k]];
      canonical := AddNew(canonical, ids[k]);
    }
    assert ids[..|ids|] == ids;
  }

  /** The loops that collect the canonical ids: hints first, then the authors' orders. */
  method Canonical(component: seq<Row>, merges: seq<seq<string>>, copies: map<string, Finding>)
      returns (canonical: seq<string>)
    ensures canonical == CanonicalIds(component, merges, copies.Keys)
  {
    canonical := [];
    for m := 0 to |merges|
      invariant canonical == AddAll([], HintedIds(merges[..m], copies.Keys))
    {
      assert merges[..m + 1][..m] == merges[..m];
      canonical := Insert(HeldIds(merges[m], copies.Keys), HintedIds(merges[..m], copies.Keys), canonical);
    }
    assert merges[..|merges|] == merges;
    canonical := InsertAuthored(component, HintedIds(merges, copies.Keys), canonical);
  }

  lemma AuthoredOn(component: seq<Row>, hinted: seq<string>, r: nat)
    requires r < |component|
    ensures var group := component[r].group;
            hinted + AuthoredIds(component[..r + 1]) == hinted + AuthoredIds(component[..r]) + if |group| > 1
              then NamedIds(group) else []
  {
    assert component[..r + 1][..r] == component[..r];
  }

  method InsertAuthored(component: seq<Row>, ghost hinted: seq<string>, start: seq<string>)
      returns (canonical: seq<string>)
    requires start == AddAll([], hinted)
    ensures canonical == AddAll([], hinted + AuthoredIds(component))
  {
    canonical := start;
    assert hinted + AuthoredIds(component[..0]) == hinted;
    for r := 0 to |component|
      invariant canonical == AddAll([], hinted + AuthoredIds(component[..r]))
    {
      var group := component[r].group;
      var ids := if |group| > 1 then NamedIds(group) else [];
      AuthoredOn(component, hinted, r);
      canonical := Insert(ids, hinted + AuthoredIds(component[..r]), canonical);
    }
    assert component[..|component|] == component;
  }

  // ---- a component's row ----

  function CopiesInOrder(copies: map<string, Finding>, ids: seq<string>): seq<Finding>
    requires forall id :: id in ids ==> id in copies
  {
    seq(|ids|, i requires 0 <= i < |ids| => copies[ids[i]])
  }

  /** The findings not under one of `ids`, in order. */
  function Others(s: seq<Finding>, ids: seq<string>): seq<Finding> {
    if s == [] then [] else Others(s[..|s| - 1], ids) + if s[|s| - 1].id in ids then [] else [s[|s| - 1]]
  }

  /** What a component's row holds: the canonical ids' findings in order, then the rest in theirs. */
  ghost predicate IsRow(component: seq<Row>, merges: seq<seq<string>>, group: seq<Finding>) {
    if |component| == 1 && OneAnId(component[0].group) && merges == [] then group == component[0].group
    else
      exists copies: map<string, Finding> :: CopiesOf(copies, AllFindings(component))
        && CanonicalThenRest(component, merges, copies, group)
  }

  ghost predicate CanonicalThenRest(component: seq<Row>, merges: seq<seq<string>>, copies: map<string, Finding>,
                                    group: seq<Finding>) {
    var canonical := CanonicalIds(component, merges, copies.Keys);
    && (forall id :: id in canonical ==> id in copies)
    && group == CopiesInOrder(copies, canonical) + Others(Firsts(AllFindings(component)), canonical)
  }

  lemma CanonicalHeld(component: seq<Row>, merges: seq<seq<string>>, held: set<string>)
    requires held == Ids(AllFindings(component))
    ensures forall id :: id in CanonicalIds(component, merges, held) ==> id in held
    ensures Distinct(CanonicalIds(component, merges, held))
  {
    AddAllHolds([], HintedIds(merges, held) + AuthoredIds(component));
    HintedHeld(merges, held);
    AuthoredHeld(component);
  }

  method CombineRow(component: seq<Row>, merges: seq<seq<string>>) returns (group: seq<Finding>)
    requires component != []
    ensures IsRow(component, merges, group)
  {
    var original := component[0].group;
    if |component| == 1 && merges == [] && forall i, j :: 0 <= i < j < |original| && original[i].id != "" ==>
        original[i].id != original[j].id {
      return original;
    }
    var copies, findings := Gather(component);
    var canonical := Canonical(component, merges, copies);
    CanonicalHeld(component, merges, copies.Keys);
    group := CopiesInOrder(copies, canonical) + Others(findings, canonical);
    assert CanonicalThenRest(component, merges, copies, group);
  }

  lemma {:induction false} OthersHold(s: seq<Finding>, ids: seq<string>)
    ensures forall f :: f in Others(s, ids) <==> f in s && f.id !in ids
  {
    if s != [] {
      OthersHold(s[..|s| - 1], ids);
      assert s == s[..|s| - 1] + [s[|s| - 1]];
    }
  }

  lemma InitOneAnId(s: seq<Finding>)
    requires OneAnId(s) && s != []
    ensures var n := |s| - 1; OneAnId(s[..n]) && forall f :: f in s[..n] && f.id != "" ==> f.id != s[n].id
  {
    var n := |s| - 1;
    forall f | f in s[..n] && f.id != "" ensures f.id != s[n].id {
      var k :| 0 <= k < n && s[..n][k] == f;
      assert s[k] == f;
    }
  }

  lemma PushOneAnId(o: seq<Finding>, last: Finding)
    requires OneAnId(o) && forall f :: f in o && f.id != "" ==> f.id != last.id
    ensures OneAnId(o + [last])
  {
    var t := o + [last];
    forall i, j | 0 <= i < j < |t| && t[i].id != "" ensures t[i].id != t[j].id {
      assert t[i] == o[i] && o[i] in o;
    }
  }

  lemma {:induction false} OthersAre(s: seq<Finding>, ids: seq<string>)
    ensures forall f :: f in Others(s, ids) <==> f in s && f.id !in ids
    ensures OneAnId(s) ==> OneAnId(Others(s, ids))
  {
    OthersHold(s, ids);
    if s != [] && OneAnId(s) {
      var init := s[..|s| - 1];
      InitOneAnId(s);
      OthersAre(init, ids);
      if s[|s| - 1].id !in ids { PushOneAnId(Others(init, ids), s[|s| - 1]); }
    }
  }

  /** A component's row shows each of its ids once, and every finding it has without an id. */
  lemma RowKeepsAll(component: seq<Row>, merges: seq<seq<string>>, group: seq<Finding>)
    requires IsRow(component, merges, group)
    ensures OneAnId(group) && forall f :: f in group <==> f in Firsts(AllFindings(component))
  {
    var all := AllFindings(component);
    FirstsKeepIds(all);
    if |component| == 1 && OneAnId(component[0].group) && merges == [] {
      assert component[..0] == [] && AllFindings(component[..0]) == [];
      assert all == component[0].group;
      FirstsOfDistinct(all);
    } else {
      var copies: map<string, Finding> :| CopiesOf(copies, all) && CanonicalThenRest(component, merges, copies, group);
      CanonicalRowKeepsAll(component, merges, copies, group);
    }
  }

  lemma CanonicalRowKeepsAll(component: seq<Row>, merges: seq<seq<string>>, copies: map<string, Finding>,
                             group: seq<Finding>)
    requires CopiesOf(copies, AllFindings(component)) && CanonicalThenRest(component, merges, copies, group)
    ensures OneAnId(group) && forall f :: f in group <==> f in Firsts(AllFindings(component))
  {
    FirstsKeepIds(AllFindings(component));
    CanonicalHeld(component, merges, copies.Keys);
    HeadAndRest(Firsts(AllFindings(component)), CanonicalIds(component, merges, copies.Keys), copies);
  }

  lemma HeadAndRest(firsts: seq<Finding>, canonical: seq<string>, copies: map<string, Finding>)
    requires OneAnId(firsts) && Distinct(canonical)
    requires forall id :: id in canonical ==> id in copies && id != "" && copies[id].id == id && copies[id] in firsts
    ensures var group := CopiesInOrder(copies, canonical) + Others(firsts, canonical);
            OneAnId(group) && forall f :: f in group <==> f in firsts
  {
    var head, rest := CopiesInOrder(copies, canonical), Others(firsts, canonical);
    OthersAre(firsts, canonical);
    forall k | 0 <= k < |head| ensures head[k].id == canonical[k] && canonical[k] in canonical && head[k] in firsts {
      assert canonical[k] in canonical;
    }
    forall f | f in firsts && f.id in canonical ensures f in head {
      SameIdSame(firsts, f, copies[f.id]);
      var k :| 0 <= k < |canonical| && canonical[k] == f.id;
      assert head[k] == f;
    }
    forall k, f | 0 <= k < |head| && f in rest ensures head[k].id != f.id {
      assert canonical[k] in canonical;
    }
    var group := head + rest;
    forall i, j | 0 <= i < j < |group| && group[i].id != "" ensures group[i].id != group[j].id {
      if j >= |head| { assert group[j] == rest[j - |head|] && group[j] in rest; }
      if i >= |head| { assert group[i] == rest[i - |head|]; }
    }
  }

  lemma SameIdSame(s: seq<Finding>, f: Finding, g: Finding)
    requires OneAnId(s) && f in s && g in s && f.id == g.id != ""
    ensures f == g
  {
    var i, j :| 0 <= i < |s| && s[i] == f && 0 <= j < |s| && s[j] == g;
  }
}
