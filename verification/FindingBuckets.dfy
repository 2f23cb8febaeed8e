/**
 The buckets of the cross-report finding index (client/bundle-finding-versions.js):
 one finding a dedupe key, the same findings by file, and which reports
 contributed each key. A bucket stands for its links, the pairs of a key and a
 report contributing it.
 */
module FindingBuckets {
  import opened Options

  /**
   A finding as it is filed: its dedupe key, its file (empty when it names none), the hash, package and
   package version read off it, the repository the analyzer stamped, whether its file is a dependency's,
   and which copy of the finding it is.
   */
  datatype Finding = Finding(key: string, file: string, hash: Option<string>, pkg: Option<string>,
                             version: Option<string>, upstream: Option<string>, deps: bool, copy: nat)

  type Links = set<(string, string)>

  datatype Bucket = Bucket(keys: set<string>, findings: seq<Finding>, files: map<string, seq<Finding>>,
                           reports: set<string>, keyReports: map<string, set<string>>)

  const EMPTY := Bucket({}, [], map[], {}, map[])

  // ---- lists of findings, one a key ----

  predicate OneEach(list: seq<Finding>) {
    forall i, j :: 0 <= i < j < |list| ==> list[i].key != list[j].key
  }

  function KeysIn(list: seq<Finding>): set<string> {
    set f | f in list :: f.key
  }

  /** Where a key's finding stands; past the end when there is none. */
  function At(list: seq<Finding>, key: string): (i: nat)
    ensures i <= |list| && (i < |list| ==> list[i].key == key)
    ensures i == |list| ==> forall k :: 0 <= k < |list| ==> list[k].key != key
  {
    if list == [] || list[0].key == key then 0 else
      var i := At(list[1..], key);
      assert i == |list| - 1 ==> forall k :: 1 <= k < |list| ==> list[k] == list[1..][k - 1];
      i + 1
  }

  /** The first finding of the key, spliced out. */
  function Without(list: seq<Finding>, key: string): seq<Finding> {
    var i := At(list, key);
    if i < |list| then list[..i] + list[i + 1..] else list
  }

  lemma WithoutIs(list: seq<Finding>, key: string)
    requires OneEach(list)
    ensures OneEach(Without(list, key))
    ensures forall f :: f in Without(list, key) <==> f in list && f.key != key
  {
    var i, w := At(list, key), Without(list, key);
    if i < |list| {
      forall k | 0 <= k < |w| ensures w[k] == list[if k < i then k else k + 1] {}
      forall f | f in list && f.key != key ensures f in w {
        var k :| 0 <= k < |list| && list[k] == f;
        assert w[if k < i then k else k - 1] == f;
      }
    }
  }

  // ---- which reports contributed each key ----

  type Tally = map<string, set<string>>

  function NamesFor(tally: Tally, key: string): set<string> {
    if key in tally then tally[key] else {}
  }

  function Count(tally: Tally, key: string, name: string): Tally {
    tally[key := NamesFor(tally, key) + {name}]
  }

  /** The report goes from the key's, and the key with its last report. */
  function Uncount(tally: Tally, key: string, name: string): Tally {
    var left := NamesFor(tally, key) - {name};
    if left == {} then tally - {key} else tally[key := left]
  }

  /** The report goes from every key's, and the keys whose last report it was. */
  function UncountAll(tally: Tally, name: string): Tally {
    map key | key in tally && tally[key] - {name} != {} :: tally[key] - {name}
  }

  // ---- the bucket primitives ----

  function FileList(b: Bucket, file: string): seq<Finding> {
    if file in b.files then b.files[file] else []
  }

  /** addFindingToBucket. */
  function Add(b: Bucket, name: string, f: Finding): Bucket {
    var c := b.(reports := b.reports + {name}, keyReports := Count(b.keyReports, f.key, name));
    if f.key in b.keys then c
    else c.(keys := b.keys + {f.key}, findings := b.findings + [f],
        files := b.files[f.file := FileList(b, f.file) + [f]])
  }

  /** dropKeyFromBucket, but for the tally. */
  function DropKey(b: Bucket, key: string, file: string): Bucket {
    var c := b.(keys := b.keys - {key}, findings := Without(b.findings, key));
    if file !in b.files then c
    else
      var list := Without(b.files[file], key);
      c.(files := if list == [] then b.files - {file} else b.files[file := list])
  }

  /** recomputeBucketReports. */
  function Recompute(b: Bucket): Bucket {
    b.(reports := set key, name | key in b.keyReports && name in b.keyReports[key] :: name)
  }

  /** One contribution taken back: the report goes from the key's, the key with its last report. */
  function TakeBack(b: Bucket, key: string, file: string, name: string): Bucket {
    var kept := Uncount(b.keyReports, key, name);
    (if key in b.keyReports && key !in kept then DropKey(b, key, file) else b).(keyReports := kept)
  }

  // ---- what a bucket stands for ----

  function KeysOf(links: Links): set<string> {
    set p | p in links :: p.0
  }

  function NamesOf(links: Links): set<string> {
    set p | p in links :: p.1
  }

  function NamesUnder(links: Links, key: string): set<string> {
    set p | p in links && p.0 == key :: p.1
  }

  /** The links but those of one report. */
  function NotOf(links: Links, name: string): Links {
    set p | p in links && p.1 != name
  }

  predicate TallyOk(tally: Tally, links: Links) {
    tally.Keys == KeysOf(links) && forall key :: key in tally ==> tally[key] == NamesUnder(links, key)
  }

  /** The sets and maps of a bucket are those its links give. */
  predicate LinksOk(b: Bucket, links: Links) {
    TallyOk(b.keyReports, links) && b.keys == KeysOf(links) && b.reports == NamesOf(links)
  }

  /** Each file lists the findings in it, and none lists none. */
  predicate FilesOk(b: Bucket) {
    && (forall file :: file in b.files ==> b.files[file] != [] && OneEach(b.files[file]))
    && (forall file, f :: file in b.files && f in b.files[file] ==> f in b.findings && f.file == file)
    && (forall f :: f in b.findings ==> f.file in b.files && f in b.files[f.file])
  }

  /** One finding a key, and the key tells its file. */
  predicate ListsOk(b: Bucket, fileOf: string -> string) {
    && OneEach(b.findings) && KeysIn(b.findings) == b.keys
    && FilesOk(b)
    && (forall f :: f in b.findings ==> fileOf(f.key) == f.file)
  }

  predicate BucketOk(b: Bucket, links: Links, fileOf: string -> string) {
    LinksOk(b, links) && ListsOk(b, fileOf)
  }

  lemma EmptyOk(fileOf: string -> string)
    ensures BucketOk(EMPTY, {}, fileOf)
  {
  }

  lemma LinkAdded(links: Links, key: string, name: string)
    ensures KeysOf(links + {(key, name)}) == KeysOf(links) + {key}
    ensures NamesOf(links + {(key, name)}) == NamesOf(links) + {name}
    ensures forall k :: NamesUnder(links + {(key, name)}, k) == NamesUnder(links, k) + if k == key then {name} else {}
  {
    var more := links + {(key, name)};
    assert (key, name) in more;
    forall k ensures NamesUnder(more, k) == NamesUnder(links, k) + if k == key then {name} else {} {
      forall n | n in NamesUnder(links, k) ensures n in NamesUnder(more, k) { assert (k, n) in more; }
    }
    forall k | k in KeysOf(links) ensures k in KeysOf(more) {
      var p :| p in links && p.0 == k;
      assert p in more;
    }
    forall n | n in NamesOf(links) ensures n in NamesOf(more) {
      var p :| p in links && p.1 == n;
      assert p in more;
    }
  }

  lemma TallyMisses(tally: Tally, links: Links, key: string)
    requires TallyOk(tally, links) && key !in tally
    ensures NamesUnder(links, key) == {}
  {
    assert forall p :: p in links ==> p.0 in KeysOf(links);
  }

  lemma CountOk(tally: Tally, links: Links, key: string, name: string)
    requires TallyOk(tally, links)
    ensures TallyOk(Count(tally, key, name), links + {(key, name)})
  {
    LinkAdded(links, key, name);
    if key !in tally { TallyMisses(tally, links, key); }
  }

  lemma AddLinks(b: Bucket, links: Links, name: string, f: Finding)
    requires LinksOk(b, links)
    ensures LinksOk(Add(b, name, f), links + {(f.key, name)})
  {
    LinkAdded(links, f.key, name);
    CountOk(b.keyReports, links, f.key, name);
  }

  lemma AppendOne(list: seq<Finding>, f: Finding)
    requires OneEach(list) && f.key !in KeysIn(list)
    ensures OneEach(list + [f]) && KeysIn(list + [f]) == KeysIn(list) + {f.key}
    ensures forall g :: g in list + [f] <==> g in list || g == f
  {
    forall i | 0 <= i < |list| ensures list[i].key != f.key { assert list[i] in list; }
    assert (list + [f])[|list|] == f;
    forall k | k in KeysIn(list) ensures k in KeysIn(list + [f]) {
      var g :| g in list && g.key == k;
      assert g in list + [f];
    }
  }

  lemma AddFiles(b: Bucket, c: Bucket, f: Finding)
    requires FilesOk(b) && f.key !in KeysIn(b.findings)
    requires c.findings == b.findings + [f] && c.files == b.files[f.file := FileList(b, f.file) + [f]]
    ensures FilesOk(c)
  {
    var list := FileList(b, f.file);
    forall g | g in list ensures g.key != f.key { assert g in b.findings && g.key in KeysIn(b.findings); }
    AppendOne(list, f);
    assert forall g :: g in c.findings <==> g in b.findings || g == f;
    forall g | g in c.findings ensures g.file in c.files && g in c.files[g.file] {
      if g != f { assert g.file in b.files && g in b.files[g.file]; }
    }
  }

  lemma AddLists(b: Bucket, fileOf: string -> string, name: string, f: Finding)
    requires ListsOk(b, fileOf) && fileOf(f.key) == f.file
    ensures ListsOk(Add(b, name, f), fileOf)
  {
    if f.key !in b.keys {
      AppendOne(b.findings, f);
      AddFiles(b, Add(b, name, f), f);
    }
  }

  /** A contribution filed gives the bucket of the links with it. */
  lemma AddOk(b: Bucket, links: Links, fileOf: string -> string, name: string, f: Finding)
    requires BucketOk(b, links, fileOf) && fileOf(f.key) == f.file
    ensures BucketOk(Add(b, name, f), links + {(f.key, name)}, fileOf)
  {
    AddLinks(b, links, name, f);
    AddLists(b, fileOf, name, f);
  }

  lemma LinkRemoved(links: Links, key: string, name: string)
    ensures var less := links - {(key, name)};
            && (forall k :: NamesUnder(less, k) == NamesUnder(links, k) - if k == key then {name} else {})
            && KeysOf(less) == KeysOf(links) - (if NamesUnder(less, key) == {} then {key} else {})
  {
    var less := links - {(key, name)};
    forall k ensures NamesUnder(less, k) == NamesUnder(links, k) - if k == key then {name} else {} {
      forall n | n in NamesUnder(links, k)
          && !(k == key && n == name) ensures n in NamesUnder(less, k) { assert (k, n) in less; }
    }
    forall k | k in KeysOf(links) && k != key ensures k in KeysOf(less) {
      var p :| p in links && p.0 == k;
      assert p in less;
    }
    if key in KeysOf(less) {
      var p :| p in less && p.0 == key;
      assert p.1 in NamesUnder(less, key);
    }
    if NamesUnder(less, key) != {} {
      var n :| n in NamesUnder(less, key);
      assert (key, n) in less && (key, n) in links;
    }
  }

  lemma UncountOk(tally: Tally, links: Links, key: string, name: string)
    requires TallyOk(tally, links)
    ensures TallyOk(Uncount(tally, key, name), links - {(key, name)})
  {
    LinkRemoved(links, key, name);
    if key !in tally { TallyMisses(tally, links, key); }
  }

  lemma UncountAllOk(tally: Tally, links: Links, name: string)
    requires TallyOk(tally, links)
    ensures TallyOk(UncountAll(tally, name), NotOf(links, name))
  {
    var less := NotOf(links, name);
    forall k ensures NamesUnder(less, k) == NamesUnder(links, k) - {name} {
      forall n | n in NamesUnder(links, k) && n != name ensures n in NamesUnder(less, k) { assert (k, n) in less; }
    }
    forall k | k in KeysOf(less) ensures k in tally && NamesUnder(less, k) != {} {
      var p :| p in less && p.0 == k;
      assert p in links && p.1 in NamesUnder(less, k);
    }
    forall k | NamesUnder(less, k) != {} ensures k in KeysOf(less) {
      var n :| n in NamesUnder(less, k);
      assert (k, n) in less;
    }
  }

  /** The names contributing anything, gathered key by key. */
  lemma NamesGathered(b: Bucket, links: Links)
    requires TallyOk(b.keyReports, links)
    ensures Recompute(b).reports == NamesOf(links)
  {
    forall n | n in NamesOf(links) ensures n in Recompute(b).reports {
      var p :| p in links && p.1 == n;
      assert p.0 in KeysOf(links) && n in b.keyReports[p.0];
    }
  }

  lemma TakeBackLinks(b: Bucket, links: Links, key: string, file: string, name: string)
    requires LinksOk(b, links)
    ensures LinksOk(Recompute(TakeBack(b, key, file, name)), links - {(key, name)})
  {
    UncountOk(b.keyReports, links, key, name);
    NamesGathered(TakeBack(b, key, file, name), links - {(key, name)});
  }

  lemma WithoutKeys(list: seq<Finding>, key: string)
    requires OneEach(list)
    ensures KeysIn(Without(list, key)) == KeysIn(list) - {key}
  {
    WithoutIs(list, key);
    forall k | k in KeysIn(list) && k != key ensures k in KeysIn(Without(list, key)) {
      var f :| f in list && f.key == k;
      assert f in Without(list, key);
    }
  }

  lemma DropKeyFiles(b: Bucket, key: string, file: string)
    requires FilesOk(b) && OneEach(b.findings)
    requires forall f :: f in b.findings && f.key == key ==> f.file == file
    ensures FilesOk(DropKey(b, key, file))
  {
    var c := DropKey(b, key, file);
    WithoutIs(b.findings, key);
    if file in b.files {
      var list := b.files[file];
      WithoutIs(list, key);
      forall g | g in b.files && g != file ensures g in c.files && c.files[g] == b.files[g] {}
      forall g, f | g in c.files && f in c.files[g] ensures f in c.findings && f.file == g {
        assert f in b.files[g];
      }
      forall f | f in c.findings ensures f.file in c.files && f in c.files[f.file] {
        assert f in b.findings && f in b.files[f.file];
        if f.file == file { assert f in Without(list, key); }
      }
    }
  }

  lemma TakeBackLists(b: Bucket, fileOf: string -> string, key: string, file: string, name: string)
    requires ListsOk(b, fileOf) && fileOf(key) == file
    ensures ListsOk(TakeBack(b, key, file, name), fileOf)
  {
    if key in b.keyReports && key !in Uncount(b.keyReports, key, name) {
      WithoutIs(b.findings, key);
      WithoutKeys(b.findings, key);
      DropKeyFiles(b, key, file);
    }
  }

  lemma RecomputeLists(b: Bucket, fileOf: string -> string)
    requires ListsOk(b, fileOf)
    ensures ListsOk(Recompute(b), fileOf)
  {
  }

  /** A contribution taken back leaves the bucket of the links without it. */
  lemma TakeBackOk(b: Bucket, links: Links, fileOf: string -> string, key: string, file: string, name: string)
    requires BucketOk(b, links, fileOf) && fileOf(key) == file
    ensures BucketOk(Recompute(TakeBack(b, key, file, name)), links - {(key, name)}, fileOf)
  {
    TakeBackLinks(b, links, key, file, name);
    TakeBackLists(b, fileOf, key, file, name);
    var c := TakeBack(b, key, file, name);
    RecomputeLists(c, fileOf);
  }

  // ---- two buckets of the same links ----

  predicate SameKeys(a: seq<Finding>, b: seq<Finding>) {
    |a| == |b| && KeysIn(a) == KeysIn(b)
  }

  /** The same but for the order findings came in and which copy of each is held. */
  predicate Same(a: Bucket, b: Bucket) {
    && a.keys == b.keys && a.reports == b.reports && a.keyReports == b.keyReports
    && OneEach(a.findings) && OneEach(b.findings) && SameKeys(a.findings, b.findings)
    && a.files.Keys == b.files.Keys
    && forall file :: file in a.files ==>
        OneEach(a.files[file]) && OneEach(b.files[file]) && SameKeys(a.files[file], b.files[file])
  }

  lemma {:induction false} OneEachCounts(list: seq<Finding>)
    requires OneEach(list)
    ensures |list| == |KeysIn(list)|
  {
    if list != [] {
      var init := list[..|list| - 1];
      var last := list[|list| - 1];
      OneEachCounts(init);
      forall i | 0 <= i < |init| ensures init[i].key != last.key {}
      assert last.key !in KeysIn(init);
      assert list == init + [last];
      AppendOne(init, last);
    }
  }

  lemma FilesByKey(a: Bucket, b: Bucket, fileOf: string -> string, file: string)
    requires ListsOk(a, fileOf) && ListsOk(b, fileOf) && a.keys == b.keys && file in a.files
    ensures file in b.files && KeysIn(a.files[file]) <= KeysIn(b.files[file])
  {
    forall k | k in KeysIn(a.files[file]) ensures file in b.files && k in KeysIn(b.files[file]) {
      var f :| f in a.files[file] && f.key == k;
      assert f in a.findings && k in KeysIn(a.findings) && k in KeysIn(b.findings);
      var g :| g in b.findings && g.key == k;
      assert g.file == fileOf(k) == f.file;
    }
    assert a.files[file][0].key in KeysIn(a.files[file]);
  }

  lemma SameFiles(a: Bucket, b: Bucket, fileOf: string -> string, file: string)
    requires ListsOk(a, fileOf) && ListsOk(b, fileOf) && a.keys == b.keys && file in a.files
    ensures file in b.files && SameKeys(a.files[file], b.files[file])
  {
    FilesByKey(a, b, fileOf, file);
    FilesByKey(b, a, fileOf, file);
    assert KeysIn(a.files[file]) == KeysIn(b.files[file]);
    OneEachCounts(a.files[file]);
    OneEachCounts(b.files[file]);
  }

  lemma SameTallies(s: Tally, t: Tally, links: Links)
    requires TallyOk(s, links) && TallyOk(t, links)
    ensures s == t
  {
  }

  lemma SameLists(a: Bucket, b: Bucket, fileOf: string -> string)
    requires ListsOk(a, fileOf) && ListsOk(b, fileOf) && a.keys == b.keys
    ensures SameKeys(a.findings, b.findings) && a.files.Keys == b.files.Keys
    ensures forall file :: file in a.files ==> SameKeys(a.files[file], b.files[file])
  {
    OneEachCounts(a.findings);
    OneEachCounts(b.findings);
    forall file | file in a.files ensures file in b.files
        && SameKeys(a.files[file], b.files[file]) { SameFiles(a, b, fileOf, file); }
    forall file | file in b.files ensures file in a.files { SameFiles(b, a, fileOf, file); }
  }

  /** Two buckets of the same links are the same. */
  lemma SameLinksSame(a: Bucket, b: Bucket, links: Links, fileOf: string -> string)
    requires BucketOk(a, links, fileOf) && BucketOk(b, links, fileOf)
    ensures Same(a, b)
  {
    SameTallies(a.keyReports, b.keyReports, links);
    SameLists(a, b, fileOf);
  }
}
