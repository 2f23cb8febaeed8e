/**
 The entries of the triage map and the operations on one of them
 (client/triage-entry.ts).
 */
module TriageEntries {
  import opened Options
  import opened Buckets

  datatype Bucket = InProgress | Fixed | Invalid | Gone | Ignored

  /** What an entry holds besides, which none of this looks into but for whether it is there. */
  datatype Other = Other(color: string, comment: string, fix: string, flagged: Option<bool>)

  datatype Entry = Entry(other: Other, bucket: Option<Bucket>, ignored: seq<string>, scoped: seq<string>)

  type Triage = map<string, Entry>

  const BLANK := Entry(Other("", "", "", None), None, [], [])

  function At(m: Triage, id: string): Entry {
    if id in m then m[id] else BLANK
  }

  predicate IsEmpty(e: Entry) {
    e.other == BLANK.other && e.bucket.None? && e.ignored == []
  }

  /** The values of a list that are in another. */
  function Within(s: seq<string>, other: seq<string>): (r: seq<string>)
    ensures forall x :: x in r <==> x in s && x in other
  {
    if s == [] then []
    else
      assert s == s[..|s| - 1] + [s[|s| - 1]];
      Within(s[..|s| - 1], other) + if s[|s| - 1] in other then [s[|s| - 1]] else []
  }

  function NonEmpty(s: seq<string>): (r: seq<string>)
    ensures forall x :: x in r <==> x in s && x != ""
  {
    if s == [] then []
    else
      assert s == s[..|s| - 1] + [s[|s| - 1]];
      NonEmpty(s[..|s| - 1]) + if s[|s| - 1] != "" then [s[|s| - 1]] else []
  }

  /** normalizeEntry: names that are not empty, and of the scoped those ignored, once each. */
  function Normalized(e: Entry): Entry {
    var ignored := NonEmpty(e.ignored);
    e.(ignored := ignored, scoped := FirstSeen(Within(e.scoped, ignored)))
  }

  /** ignoredEqual: as many, and none that was not there. */
  predicate SameNames(a: seq<string>, b: seq<string>) {
    |a| == |b| && forall x :: x in b ==> x in a
  }

  predicate SameEntry(a: Entry, b: Entry) {
    a.other == b.other && a.bucket == b.bucket && SameNames(a.ignored, b.ignored) && SameNames(a.scoped, b.scoped)
  }

  /**
   patchEntry, given the entry as patched: nothing written when it comes to the same, the id dropped when
   nothing is left.
   */
  function Patched(m: Triage, id: string, e: Entry): (Triage, bool) {
    var next := Normalized(e);
    if IsEmpty(next) then (m - {id}, id in m)
    else if SameEntry(At(m, id), next) then (m, false)
    else (m[id := next], true)
  }

  /** The entry with a report's name in or out, marked scoped or not. */
  function Toggled(e: Entry, report: string, ignored: bool, scoped: bool): Entry {
    var names := FirstSeen(e.ignored);
    var set' := if ignored then (if report in names then names else names + [report]) else Without(names, report);
    var markers := FirstSeen(e.scoped);
    var marked := if ignored && scoped && report !in markers then markers + [report] else markers;
    e.(ignored := set', scoped := marked)
  }

  /** setReportIgnored. */
  function ReportIgnored(m: Triage, id: string, report: string, ignored: bool, scoped: bool): (Triage, bool) {
    Patched(m, id, Toggled(At(m, id), report, ignored, scoped))
  }

  function Without(s: seq<string>, x: string): (r: seq<string>)
    ensures forall y :: y in r <==> y in s && y != x
  {
    if s == [] then []
    else
      assert s == s[..|s| - 1] + [s[|s| - 1]];
      Without(s[..|s| - 1], x) + if s[|s| - 1] == x then [] else [s[|s| - 1]]
  }

  // ---- entries as the map holds them ----

  /** No name empty, each scoped name once and ignored too, and something in it. */
  ghost predicate IsNormal(e: Entry) {
    && (forall x :: x in e.ignored ==> x != "")
    && Distinct(e.scoped) && (forall x :: x in e.scoped ==> x in e.ignored)
    && !IsEmpty(e)
  }

  ghost predicate NormalMap(m: Triage) {
    forall id :: id in m ==> IsNormal(m[id])
  }

  lemma {:induction false} FirstSeenIs(s: seq<string>)
    ensures Distinct(FirstSeen(s)) && (forall x :: x in FirstSeen(s) <==> x in s) && |FirstSeen(s)| <= |s|
    ensures |FirstSeen(s)| == |s| <==> Distinct(s)
    ensures Distinct(s) ==> FirstSeen(s) == s
  {
    if s != [] {
      var n := |s| - 1;
      FirstSeenIs(s[..n]);
      assert s == s[..n] + [s[n]];
      if Distinct(s) {
        assert Distinct(s[..n]) && s[n] !in s[..n];
      }
      if |FirstSeen(s)| == |s| {
        forall i, j | 0 <= i < j < |s| ensures s[i] != s[j] {
          if j == n { assert s[..n][i] == s[i]; } else { assert s[..n][i] == s[i] && s[..n][j] == s[j]; }
        }
      }
    }
  }

  lemma DistinctInit(s: seq<string>)
    requires Distinct(s) && s != []
    ensures var n := |s| - 1; Distinct(s[..n]) && s[n] !in s[..n] && s == s[..n] + [s[n]]
  {
  }

  lemma {:induction false} WithinDistinct(s: seq<string>, other: seq<string>)
    requires Distinct(s)
    ensures Distinct(Within(s, other))
    ensures (forall y :: y in s ==> y in other) ==> Within(s, other) == s
  {
    if s != [] {
      DistinctInit(s);
      WithinDistinct(s[..|s| - 1], other);
    }
  }

  lemma {:induction false} WithoutDistinct(s: seq<string>, x: string)
    requires Distinct(s)
    ensures Distinct(Without(s, x))
  {
    if s != [] {
      DistinctInit(s);
      WithoutDistinct(s[..|s| - 1], x);
    }
  }

  lemma {:induction false} NonEmptyAll(s: seq<string>)
    requires forall y :: y in s ==> y != ""
    ensures NonEmpty(s) == s
  {
    if s != [] {
      var init := s[..|s| - 1];
      assert s == init + [s[|s| - 1]];
      forall y | y in init ensures y != "" { assert y in s; }
      assert s[|s| - 1] in s;
      NonEmptyAll(init);
    }
  }

  lemma NormalizedIsNormal(e: Entry)
    ensures var n := Normalized(e);
            && (!IsEmpty(n) ==> IsNormal(n)) && n.other == e.other && n.bucket == e.bucket
            && (forall x :: x in n.ignored <==> x in e.ignored && x != "")
            && (forall x :: x in n.scoped <==> x in e.scoped && x in n.ignored)
  {
    FirstSeenIs(Within(e.scoped, NonEmpty(e.ignored)));
  }

  /** Normalizing an entry the map holds, or one with only its bucket changed, changes nothing else. */
  lemma NormalStays(e: Entry)
    requires (forall x :: x in e.ignored ==> x != "") && Distinct(e.scoped)
               && forall x :: x in e.scoped ==> x in e.ignored
    ensures Normalized(e) == e
  {
    NonEmptyAll(e.ignored);
    WithinDistinct(e.scoped, e.ignored);
    FirstSeenIs(e.scoped);
  }

  function Values(s: seq<string>): set<string> {
    set x | x in s
  }

  lemma DistinctPush(init: seq<string>, last: string)
    ensures Distinct(init + [last]) <==> Distinct(init) && last !in init
  {
    var s := init + [last];
    if Distinct(s) {
      assert s[..|init|] == init;
      DistinctInit(s);
    }
    if Distinct(init) && last !in init { AppendDistinct(init, last); }
  }

  lemma {:induction false} ValuesCount(s: seq<string>)
    ensures |Values(s)| <= |s| && (|Values(s)| == |s| <==> Distinct(s))
  {
    if s != [] {
      var init, last := s[..|s| - 1], s[|s| - 1];
      ValuesCount(init);
      assert s == init + [last];
      DistinctPush(init, last);
      assert Values(s) == Values(init) + {last};
      assert last in init ==> Values(s) == Values(init);
    }
  }

  /** A list found the same as one without repeats has none itself, and the same names. */
  lemma SameAsDistinct(a: seq<string>, b: seq<string>)
    requires SameNames(a, b) && Distinct(b)
    ensures Distinct(a) && forall x :: x in a <==> x in b
  {
    ValuesCount(a);
    ValuesCount(b);
    assert Values(b) <= Values(a);
    SubsetCount(Values(b), Values(a));
    assert Values(a) == Values(b);
    assert forall x :: x in a <==> x in Values(a);
    assert forall x :: x in b <==> x in Values(b);
  }

  lemma SubsetCount(b: set<string>, a: set<string>)
    requires b <= a && |b| >= |a|
    ensures a == b
  {
    assert a == b + (a - b);
    assert |a| == |b| + |a - b|;
  }

  // ---- what the operations do ----

  /** Found the same as what is held, though it names fewer: a name it repeats stands for one it lacks. */
  predicate Swallowed(cur: Entry, next: Entry) {
    SameEntry(cur, next) && |Values(next.ignored)| < |Values(cur.ignored)|
  }

  lemma SwallowedIff(a: seq<string>, b: seq<string>)
    requires SameNames(a, b)
    ensures |Values(b)| < |Values(a)| <==> exists x :: x in a && x !in b
    ensures |Values(b)| < |Values(a)| || Values(a) == Values(b)
  {
    assert Values(b) <= Values(a);
    if |Values(b)| >= |Values(a)| {
      SubsetCount(Values(b), Values(a));
      assert forall x :: x in a ==> x in Values(b);
    } else {
      assert Values(a) != Values(b);
      var x :| x in Values(a) && x !in Values(b);
      assert x in a && x !in b;
    }
  }

  lemma SameEntryIff(cur: Entry, next: Entry)
    requires SameEntry(cur, next) && Distinct(next.scoped)
    ensures (forall x :: x in cur.ignored <==> x in next.ignored) <==> !Swallowed(cur, next)
    ensures forall x :: x in cur.scoped <==> x in next.scoped
    ensures Distinct(next.ignored) ==> Distinct(cur.ignored)
  {
    SwallowedIff(cur.ignored, next.ignored);
    SameAsDistinct(cur.scoped, next.scoped);
    if Distinct(next.ignored) { SameAsDistinct(cur.ignored, next.ignored); }
  }

  lemma EmptyNotSwallowed(cur: Entry, next: Entry)
    requires next.ignored == []
    ensures !Swallowed(cur, next)
  {
    assert SameNames(cur.ignored, next.ignored) ==> cur.ignored == [];
  }

  /**
   Patching one id, or setting its entry: every other entry stays, the map stays normal, and the id holds what was
   patched in, but for the names ignored, which are those patched in exactly when the patch is not taken for what
   the id held before though it names fewer.
   */
  lemma PatchedIs(m: Triage, id: string, e: Entry)
    requires NormalMap(m)
    ensures var r := Patched(m, id, e); var f := At(r.0, id);
            && NormalMap(r.0) && r.0 - {id} == m - {id} && (!r.1 ==> r.0 == m)
            && f.other == e.other && f.bucket == e.bucket && (Distinct(e.ignored) ==> Distinct(f.ignored))
            && (forall x :: x in f.scoped <==> x in e.scoped && x in e.ignored && x != "")
            && ((forall x :: x in f.ignored <==> x in e.ignored && x != "") <==> !Swallowed(At(m, id), Normalized(e)))
  {
    PatchedMap(m, id, e);
    NormalizedIsNormal(e);
    ResultIs(At(m, id), e);
  }

  lemma PatchedMap(m: Triage, id: string, e: Entry)
    requires NormalMap(m)
    ensures var r := Patched(m, id, e);
            NormalMap(r.0) && r.0 - {id} == m - {id} && (!r.1 ==> r.0 == m) && At(r.0, id) == Result(At(m, id), e)
  {
    NormalizedIsNormal(e);
    if IsEmpty(Normalized(e)) {
      assert id !in m ==> m - {id} == m;
    }
  }

  /** What an id holds once patched. */
  function Result(cur: Entry, e: Entry): Entry {
    var next := Normalized(e);
    if IsEmpty(next) then BLANK else if SameEntry(cur, next) then cur else next
  }

  lemma ResultIs(cur: Entry, e: Entry)
    ensures var f, next := Result(cur, e), Normalized(e);
            && f.other == e.other && f.bucket == e.bucket && (Distinct(e.ignored) ==> Distinct(f.ignored))
            && (forall x :: x in f.scoped <==> x in next.scoped)
            && ((forall x :: x in f.ignored <==> x in next.ignored) <==> !Swallowed(cur, next))
  {
    var next := Normalized(e);
    if Distinct(e.ignored) { NonEmptyDistinct(e.ignored); }
    FirstSeenIs(Within(e.scoped, next.ignored));
    if IsEmpty(next) {
      EmptyNotSwallowed(cur, next);
    } else if SameEntry(cur, next) {
      SameEntryIff(cur, next);
    }
  }

  /** A list without repeats is never swallowed. */
  lemma DistinctNotSwallowed(cur: Entry, e: Entry)
    requires Distinct(e.ignored)
    ensures !Swallowed(cur, Normalized(e))
  {
    NonEmptyDistinct(e.ignored);
    ValuesCount(NonEmpty(e.ignored));
    ValuesCount(cur.ignored);
  }

  /** An entry that arrives with one name twice, over one that ignores that name and another: it is not taken in. */
  lemma RepeatedNameSwallowed()
    ensures var m := map["f" := BLANK.(ignored := ["a", "b"])];
            NormalMap(m) && Patched(m, "f", BLANK.(ignored := ["a", "a"])) == (m, false)
  {
    var e := BLANK.(ignored := ["a", "a"]);
    NormalStays(e);
    assert Normalized(e) == e;
    assert ["a", "b"][0] == "a" && ["a", "b"][1] == "b";
    assert forall x :: x in ["a", "a"] ==> x == "a";
    assert "a" in ["a", "b"];
  }

  lemma {:induction false} NonEmptyDistinct(s: seq<string>)
    requires Distinct(s)
    ensures Distinct(NonEmpty(s))
  {
    if s != [] {
      DistinctInit(s);
      NonEmptyDistinct(s[..|s| - 1]);
    }
  }

  /**
   Ignoring a report under an id, or no longer ignoring it: every other id, the bucket and all else stay; the
   report's name comes or goes, no name is held twice afterwards, and a name scoped stays scoped while it is ignored.
   */
  lemma ReportIgnoredIs(m: Triage, id: string, report: string, ignored: bool, scoped: bool)
    requires NormalMap(m)
    ensures var r := ReportIgnored(m, id, report, ignored, scoped); var e, f := At(m, id), At(r.0, id);
            && NormalMap(r.0) && r.0 - {id} == m - {id}
            && f.other == e.other && f.bucket == e.bucket && Distinct(f.ignored)
            && (forall x :: x in f.ignored <==> x != "" && (if x == report then ignored else x in e.ignored))
            && (forall x :: x in f.scoped <==> x in f.ignored && (x in e.scoped || (ignored && scoped && x == report)))
            && (!r.1 ==> r.0 == m)
  {
    var e := At(m, id);
    ToggledIs(e, report, ignored, scoped);
    PatchedIs(m, id, Toggled(e, report, ignored, scoped));
    DistinctNotSwallowed(e, Toggled(e, report, ignored, scoped));
    assert forall x :: x in e.ignored ==> x != "";
  }

  lemma ToggledIs(e: Entry, report: string, ignored: bool, scoped: bool)
    ensures var t := Toggled(e, report, ignored, scoped);
            && Distinct(t.ignored) && (forall x :: x in t.ignored <==> if x == report then ignored else x in e.ignored)
            && (forall x :: x in t.scoped <==> x in e.scoped || (ignored && scoped && x == report))
  {
    FirstSeenIs(e.ignored);
    FirstSeenIs(e.scoped);
    var names := FirstSeen(e.ignored);
    WithoutDistinct(names, report);
    if report !in names { AppendDistinct(names, report); }
  }

  lemma AppendDistinct(s: seq<string>, x: string)
    requires Distinct(s) && x !in s
    ensures Distinct(s + [x])
  {
  }

  /** Patching only the bucket of an entry that holds something changes the bucket alone. */
  lemma BucketPatched(m: Triage, id: string, bucket: Bucket)
    requires NormalMap(m) && id in m && m[id].bucket != Some(bucket)
    ensures Patched(m, id, At(m, id).(bucket := Some(bucket))) == (m[id := m[id].(bucket := Some(bucket))], true)
    ensures NormalMap(m[id := m[id].(bucket := Some(bucket))])
  {
    NormalStays(m[id].(bucket := Some(bucket)));
  }

  /** Marking a report's ignore again, scoped as it is and held once, changes nothing. */
  lemma MarkedAlready(m: Triage, id: string, report: string)
    requires NormalMap(m) && id in m && report in m[id].ignored && report in m[id].scoped && Distinct(m[id].ignored)
    ensures ReportIgnored(m, id, report, true, true) == (m, false)
  {
    var e := m[id];
    FirstSeenIs(e.ignored);
    FirstSeenIs(e.scoped);
    NormalStays(e);
  }
}
