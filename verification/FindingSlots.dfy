/**
 The hash, package and repository maps of the cross-report finding index
 (client/bundle-finding-index.js) and what each slot of them stands for: the
 pairs of a key and a report among the findings filed there.
 */
module FindingSlots {
  import opened Options
  import opened FindingBuckets

  /** A finding filed from a report, with the repository that report falls back to. */
  datatype Filing = Filing(name: string, f: Finding, fallback: Option<string>)

  function HashOf(x: Filing): Option<string> {
    x.f.hash
  }

  function PkgOf(x: Filing): Option<string> {
    if x.f.file == "" then None else x.f.pkg
  }

  /** Own-source findings only, under the stamped repository or else the report's. */
  function RepoOf(x: Filing): Option<string> {
    if x.f.file == "" || x.f.deps then None else if x.f.upstream.Some? then x.f.upstream else x.fallback
  }

  datatype HashBucket = HashBucket(keys: set<string>, list: seq<Finding>, reports: Tally)

  datatype Package = Package(bucket: Bucket, repos: set<string>, byVersion: map<Option<string>, Bucket>,
    repoReports: Tally)

  type Hashes = map<string, HashBucket>
  type Packages = map<string, Package>

  const NEW_PACKAGE := Package(EMPTY, {}, map[], map[])

  // ---- filing ----

  function FileHash(m: Hashes, hash: string, name: string, f: Finding): Hashes {
    var b := if hash in m then m[hash] else HashBucket({}, [], map[]);
    var c := b.(reports := Count(b.reports, f.key, name));
    m[hash := if f.key in b.keys then c else c.(keys := b.keys + {f.key}, list := b.list + [f])]
  }

  function FileIn<S>(m: map<S, Bucket>, slot: S, name: string, f: Finding): map<S, Bucket> {
    m[slot := Add(if slot in m then m[slot] else EMPTY, name, f)]
  }

  function FilePackage(m: Packages, pkg: string, name: string, f: Finding): Packages {
    var p := if pkg in m then m[pkg] else NEW_PACKAGE;
    var q := if f.upstream.Some? then p.(repos := p.repos + {f.upstream.value},
        repoReports := Count(p.repoReports, f.upstream.value, name)) else p;
    m[pkg := q.(byVersion := FileIn(p.byVersion, f.version, name, f), bucket := Add(p.bucket, name, f))]
  }

  // ---- taking contributions back ----

  function TakeHash(m: Hashes, hash: string, key: string, name: string): Hashes {
    if hash !in m || key !in m[hash].reports then m
    else
      var b := m[hash];
      var kept := Uncount(b.reports, key, name);
      var c := (if key in kept then b else b.(keys := b.keys - {key}, list := Without(b.list, key))).(reports := kept);
      if c.keys == {} then m - {hash} else m[hash := c]
  }

  /** pruneVersionSlot, and a repository's bucket the same way. */
  function Prune<S>(m: map<S, Bucket>, slot: S, key: string, file: string, name: string): map<S, Bucket> {
    if slot !in m then m
    else
      var b := TakeBack(m[slot], key, file, name);
      if b.keyReports == map[] then m - {slot} else m[slot := Recompute(b)]
  }

  function TakeRepo(m: map<string, Bucket>, repo: string, key: string, file: string,
                    name: string): map<string, Bucket> {
    if repo !in m || key !in m[repo].keyReports then m else Prune(m, repo, key, file, name)
  }

  function Sweep(p: Package, name: string): Package {
    var kept := UncountAll(p.repoReports, name);
    p.(repoReports := kept, repos := p.repos - (p.repoReports.Keys - kept.Keys))
  }

  /** A key already gone from the package's bucket is passed over, its version slot with it. */
  predicate PassedOver(m: Packages, pkg: string, key: string) {
    pkg !in m || key !in m[pkg].bucket.keyReports
  }

  function TakePackage(m: Packages, pkg: string, key: string, file: string, version: Option<string>, name: string,
                       sweep: bool): Packages {
    if PassedOver(m, pkg, key) then m
    else
      var p := m[pkg];
      var b := TakeBack(p.bucket, key, file, name);
      var q := p.(bucket := Recompute(b), byVersion := Prune(p.byVersion, version, key, file, name));
      if b.keyReports == map[] then m - {pkg} else m[pkg := if sweep then Sweep(q, name) else q]
  }

  // ---- what a slot stands for ----

  function LinksIn(filed: set<Filing>, slotOf: Filing -> Option<string>, slot: string): Links {
    set x | x in filed && slotOf(x) == Some(slot) :: (x.f.key, x.name)
  }

  function VersionLinks(filed: set<Filing>, pkg: string, version: Option<string>): Links {
    set x | x in filed && PkgOf(x) == Some(pkg) && x.f.version == version :: (x.f.key, x.name)
  }

  /** A package's stamped repositories, each with the reports that stamp it. */
  function UpstreamLinks(filed: set<Filing>, pkg: string): Links {
    set x | x in filed && PkgOf(x) == Some(pkg) && x.f.upstream.Some? :: (x.f.upstream.value, x.name)
  }

  predicate HashOk(b: HashBucket, links: Links) {
    TallyOk(b.reports, links) && b.keys == KeysOf(links) && OneEach(b.list) && KeysIn(b.list) == b.keys
  }

  predicate HashSlotOk(m: Hashes, hash: string, links: Links) {
    (hash in m <==> links != {}) && (hash in m ==> HashOk(m[hash], links))
  }

  predicate SlotOk<S>(m: map<S, Bucket>, slot: S, links: Links, fileOf: string -> string) {
    (slot in m <==> links != {}) && (slot in m ==> BucketOk(m[slot], links, fileOf))
  }

  predicate UpstreamsOk(p: Package, links: Links) {
    TallyOk(p.repoReports, links) && p.repos == KeysOf(links)
  }

  ghost predicate VersionsOk(m: map<Option<string>, Bucket>, pkg: string, filed: set<Filing>,
                             fileOf: string -> string) {
    forall v :: SlotOk(m, v, VersionLinks(filed, pkg, v), fileOf)
  }

  ghost predicate PackageOk(p: Package, pkg: string, filed: set<Filing>, upstream: set<Filing>,
                            fileOf: string -> string) {
    BucketOk(p.bucket, LinksIn(filed, PkgOf, pkg), fileOf)
    && VersionsOk(p.byVersion, pkg, filed, fileOf)
    && UpstreamsOk(p, UpstreamLinks(upstream, pkg))
  }

  ghost predicate PackageSlotOk(m: Packages, pkg: string, filed: set<Filing>, upstream: set<Filing>,
                                fileOf: string -> string) {
    (pkg in m <==> LinksIn(filed, PkgOf, pkg) != {}) && (pkg in m ==> PackageOk(m[pkg], pkg, filed, upstream, fileOf))
  }

  /** The premise: a dedupe key tells its finding's file and package version. */
  predicate Told(x: Filing, fileOf: string -> string, versionOf: string -> Option<string>) {
    fileOf(x.f.key) == x.f.file && versionOf(x.f.key) == x.f.version
  }

  // ---- filing adds its link to its slot ----

  lemma LinksWith(filed: set<Filing>, slotOf: Filing -> Option<string>, slot: string, x: Filing)
    ensures LinksIn(filed + {x}, slotOf, slot)
         == if slotOf(x) == Some(slot) then LinksIn(filed, slotOf, slot) + {(x.f.key, x.name)}
           else LinksIn(filed, slotOf, slot)
  {
    var more := filed + {x};
    forall p | p in LinksIn(filed, slotOf, slot) ensures p in LinksIn(more, slotOf, slot) {
      var y :| y in filed && slotOf(y) == Some(slot) && (y.f.key, y.name) == p;
      assert y in more;
    }
    assert x in more;
  }

  lemma VersionsWith(filed: set<Filing>, pkg: string, version: Option<string>, x: Filing)
    ensures VersionLinks(filed + {x}, pkg, version)
         == if PkgOf(x) == Some(pkg) && x.f.version == version
           then VersionLinks(filed, pkg, version) + {(x.f.key, x.name)}
            else VersionLinks(filed, pkg, version)
  {
    var more := filed + {x};
    forall p | p in VersionLinks(filed, pkg, version) ensures p in VersionLinks(more, pkg, version) {
      var y :| y in filed && PkgOf(y) == Some(pkg) && y.f.version == version && (y.f.key, y.name) == p;
      assert y in more;
    }
    assert x in more;
  }

  lemma UpstreamsWith(filed: set<Filing>, pkg: string, x: Filing)
    ensures UpstreamLinks(filed + {x}, pkg)
         == if PkgOf(x) == Some(pkg) && x.f.upstream.Some?
           then UpstreamLinks(filed, pkg) + {(x.f.upstream.value, x.name)}
            else UpstreamLinks(filed, pkg)
  {
    var more := filed + {x};
    forall p | p in UpstreamLinks(filed, pkg) ensures p in UpstreamLinks(more, pkg) {
      var y :| y in filed && PkgOf(y) == Some(pkg) && y.f.upstream.Some? && (y.f.upstream.value, y.name) == p;
      assert y in more;
    }
    assert x in more;
  }

  lemma FileHashOk(m: Hashes, links: Links, hash: string, name: string, f: Finding)
    requires HashSlotOk(m, hash, links)
    ensures HashSlotOk(FileHash(m, hash, name, f), hash, links + {(f.key, name)})
  {
    var b := if hash in m then m[hash] else HashBucket({}, [], map[]);
    assert HashOk(b, links);
    CountOk(b.reports, links, f.key, name);
    LinkAdded(links, f.key, name);
    if f.key !in b.keys { AppendOne(b.list, f); }
    assert (f.key, name) in links + {(f.key, name)};
  }

  lemma FileInOk<S>(m: map<S, Bucket>, links: Links, slot: S, fileOf: string -> string, name: string, f: Finding)
    requires SlotOk(m, slot, links, fileOf) && fileOf(f.key) == f.file
    ensures SlotOk(FileIn(m, slot, name, f), slot, links + {(f.key, name)}, fileOf)
  {
    var b := if slot in m then m[slot] else EMPTY;
    assert BucketOk(b, links, fileOf) by { EmptyOk(fileOf); }
    AddOk(b, links, fileOf, name, f);
    assert (f.key, name) in links + {(f.key, name)};
  }

  lemma FileVersionsOk(m: map<Option<string>, Bucket>, pkg: string, filed: set<Filing>, fileOf: string -> string,
                       x: Filing)
    requires VersionsOk(m, pkg, filed, fileOf) && PkgOf(x) == Some(pkg) && fileOf(x.f.key) == x.f.file
    ensures VersionsOk(FileIn(m, x.f.version, x.name, x.f), pkg, filed + {x}, fileOf)
  {
    var n := FileIn(m, x.f.version, x.name, x.f);
    forall v ensures SlotOk(n, v, VersionLinks(filed + {x}, pkg, v), fileOf) {
      VersionsWith(filed, pkg, v, x);
      assert SlotOk(m, v, VersionLinks(filed, pkg, v), fileOf);
      if v == x.f.version { FileInOk(m, VersionLinks(filed, pkg, v), v, fileOf, x.name, x.f); }
    }
  }

  lemma FileUpstreamOk(p: Package, filed: set<Filing>, pkg: string, x: Filing, q: Package)
    requires UpstreamsOk(p, UpstreamLinks(filed, pkg)) && PkgOf(x) == Some(pkg)
    requires if x.f.upstream.Some?
             then q.repos == p.repos + {x.f.upstream.value}
               && q.repoReports == Count(p.repoReports, x.f.upstream.value, x.name)
             else q.repos == p.repos && q.repoReports == p.repoReports
    ensures UpstreamsOk(q, UpstreamLinks(filed + {x}, pkg))
  {
    UpstreamsWith(filed, pkg, x);
    if x.f.upstream.Some? {
      CountOk(p.repoReports, UpstreamLinks(filed, pkg), x.f.upstream.value, x.name);
      LinkAdded(UpstreamLinks(filed, pkg), x.f.upstream.value, x.name);
    }
  }

  lemma NoPackageYet(filed: set<Filing>, pkg: string, fileOf: string -> string)
    requires LinksIn(filed, PkgOf, pkg) == {}
    ensures PackageOk(NEW_PACKAGE, pkg, filed, filed, fileOf)
  {
    EmptyOk(fileOf);
    assert forall x :: x in filed && PkgOf(x) == Some(pkg) ==> (x.f.key, x.name) in LinksIn(filed, PkgOf, pkg);
    assert forall v :: VersionLinks(filed, pkg, v) == {};
    assert UpstreamLinks(filed, pkg) == {};
  }

  lemma FilePackageOk(m: Packages, pkg: string, filed: set<Filing>, fileOf: string -> string, x: Filing)
    requires PackageSlotOk(m, pkg, filed, filed, fileOf) && PkgOf(x) == Some(pkg) && fileOf(x.f.key) == x.f.file
    ensures PackageSlotOk(FilePackage(m, pkg, x.name, x.f), pkg, filed + {x}, filed + {x}, fileOf)
  {
    var p := if pkg in m then m[pkg] else NEW_PACKAGE;
    if pkg !in m { NoPackageYet(filed, pkg, fileOf); }
    assert PackageOk(p, pkg, filed, filed, fileOf);
    var q := FilePackage(m, pkg, x.name, x.f)[pkg];
    LinksWith(filed, PkgOf, pkg, x);
    AddOk(p.bucket, LinksIn(filed, PkgOf, pkg), fileOf, x.name, x.f);
    FileVersionsOk(p.byVersion, pkg, filed, fileOf, x);
    FileUpstreamOk(p, filed, pkg, x, q);
    assert (x.f.key, x.name) in LinksIn(filed + {x}, PkgOf, pkg);
  }

  lemma OtherVersions(m: map<Option<string>, Bucket>, pkg: string, filed: set<Filing>, fileOf: string -> string,
                      x: Filing)
    requires VersionsOk(m, pkg, filed, fileOf) && PkgOf(x) != Some(pkg)
    ensures VersionsOk(m, pkg, filed + {x}, fileOf)
  {
    forall v ensures SlotOk(m, v, VersionLinks(filed + {x}, pkg, v), fileOf) {
      VersionsWith(filed, pkg, v, x);
      assert SlotOk(m, v, VersionLinks(filed, pkg, v), fileOf);
    }
  }

  lemma OtherPackageOk(p: Package, pkg: string, filed: set<Filing>, fileOf: string -> string, x: Filing)
    requires PackageOk(p, pkg, filed, filed, fileOf) && PkgOf(x) != Some(pkg)
    ensures PackageOk(p, pkg, filed + {x}, filed + {x}, fileOf)
  {
    LinksWith(filed, PkgOf, pkg, x);
    UpstreamsWith(filed, pkg, x);
    OtherVersions(p.byVersion, pkg, filed, fileOf, x);
  }

  /** Another package's slot does not see the filing. */
  lemma OtherPackage(m: Packages, n: Packages, pkg: string, filed: set<Filing>, fileOf: string -> string, x: Filing)
    requires PackageSlotOk(m, pkg, filed, filed, fileOf) && PkgOf(x) != Some(pkg)
    requires (pkg in n <==> pkg in m) && (pkg in m ==> n[pkg] == m[pkg])
    ensures PackageSlotOk(n, pkg, filed + {x}, filed + {x}, fileOf)
  {
    LinksWith(filed, PkgOf, pkg, x);
    if pkg in m { OtherPackageOk(m[pkg], pkg, filed, fileOf, x); }
  }

  // ---- taking one contribution back ----

  /** The filings but those of a report that a contribution names. */
  function Less(filed: set<Filing>, slotOf: Filing -> Option<string>, slot: string, key: string,
                name: string): set<Filing> {
    set x | x in filed && !(slotOf(x) == Some(slot) && x.f.key == key && x.name == name)
  }

  lemma LinksLess(filed: set<Filing>, slotOf: Filing -> Option<string>, slot: string, key: string, name: string,
                  other: string)
    ensures LinksIn(Less(filed, slotOf, slot, key, name), slotOf, other)
         == LinksIn(filed, slotOf, other) - if other == slot then {(key, name)} else {}
  {
    var less := Less(filed, slotOf, slot, key, name);
    forall p | p in LinksIn(filed, slotOf, other)
        && !(other == slot && p == (key, name)) ensures p in LinksIn(less, slotOf, other) {
      var y :| y in filed && slotOf(y) == Some(other) && (y.f.key, y.name) == p;
      assert y in less;
    }
  }

  lemma NothingLess(filed: set<Filing>, slotOf: Filing -> Option<string>, slot: string, key: string, name: string)
    requires key !in KeysOf(LinksIn(filed, slotOf, slot))
    ensures Less(filed, slotOf, slot, key, name) == filed
  {
    forall x | x in filed ensures !(slotOf(x) == Some(slot) && x.f.key == key) {
      if slotOf(x) == Some(slot) {
        assert (x.f.key, x.name) in LinksIn(filed, slotOf, slot);
        assert x.f.key in KeysOf(LinksIn(filed, slotOf, slot));
      }
    }
  }

  lemma NoKeys(links: Links)
    ensures KeysOf(links) == {} <==> links == {}
  {
    assert forall p :: p in links ==> p.0 in KeysOf(links);
  }

  lemma TakeHashOk(m: Hashes, links: Links, hash: string, key: string, name: string)
    requires HashSlotOk(m, hash, links)
    ensures HashSlotOk(TakeHash(m, hash, key, name), hash, links - {(key, name)})
  {
    var less := links - {(key, name)};
    NoKeys(less);
    if hash in m && key in m[hash].reports {
      var b := m[hash];
      UncountOk(b.reports, links, key, name);
      WithoutIs(b.list, key);
      WithoutKeys(b.list, key);
    } else if hash in m {
      TallyMisses(m[hash].reports, links, key);
      assert (key, name) in links ==> name in NamesUnder(links, key);
      assert less == links;
    }
  }

  lemma PruneOk<S>(m: map<S, Bucket>, links: Links, slot: S, fileOf: string -> string, key: string, file: string,
                   name: string)
    requires SlotOk(m, slot, links, fileOf) && fileOf(key) == file
    ensures SlotOk(Prune(m, slot, key, file, name), slot, links - {(key, name)}, fileOf)
  {
    if slot in m {
      TakeBackOk(m[slot], links, fileOf, key, file, name);
      NoKeys(links - {(key, name)});
      var b := TakeBack(m[slot], key, file, name);
      assert Recompute(b).keyReports == b.keyReports;
      assert b.keyReports == map[] <==> b.keyReports.Keys == {};
    }
  }

  lemma TakeRepoOk(m: map<string, Bucket>, links: Links, repo: string, fileOf: string -> string, key: string,
                   file: string, name: string)
    requires SlotOk(m, repo, links, fileOf) && fileOf(key) == file
    ensures SlotOk(TakeRepo(m, repo, key, file, name), repo, links - {(key, name)}, fileOf)
  {
    if repo in m && key !in m[repo].keyReports {
      TallyMisses(m[repo].keyReports, links, key);
      assert (key, name) in links ==> name in NamesUnder(links, key);
      assert links - {(key, name)} == links;
    } else {
      PruneOk(m, links, repo, fileOf, key, file, name);
    }
  }

  lemma VersionsLess(filed: set<Filing>, pkg: string, key: string, name: string, versionOf: string -> Option<string>,
                     v: Option<string>)
    requires forall x :: x in filed && PkgOf(x) == Some(pkg) && x.f.key == key ==> x.f.version == versionOf(key)
    ensures VersionLinks(Less(filed, PkgOf, pkg, key, name), pkg, v)
         == VersionLinks(filed, pkg, v) - if v == versionOf(key) then {(key, name)} else {}
  {
    var less := Less(filed, PkgOf, pkg, key, name);
    forall p | p in VersionLinks(filed, pkg, v)
        && !(v == versionOf(key) && p == (key, name)) ensures p in VersionLinks(less, pkg, v) {
      var y :| y in filed && PkgOf(y) == Some(pkg) && y.f.version == v && (y.f.key, y.name) == p;
      assert y in less;
    }
  }

  lemma PruneVersionsOk(m: map<Option<string>, Bucket>, pkg: string, filed: set<Filing>, fileOf: string -> string,
                        versionOf: string -> Option<string>, key: string, name: string)
    requires VersionsOk(m, pkg, filed, fileOf)
    requires forall x :: x in filed && PkgOf(x) == Some(pkg) && x.f.key == key ==> x.f.version == versionOf(key)
    ensures VersionsOk(Prune(m, versionOf(key), key, fileOf(key), name), pkg, Less(filed, PkgOf, pkg, key, name),
              fileOf)
  {
    var n, less := Prune(m, versionOf(key), key, fileOf(key), name), Less(filed, PkgOf, pkg, key, name);
    forall v ensures SlotOk(n, v, VersionLinks(less, pkg, v), fileOf) {
      VersionsLess(filed, pkg, key, name, versionOf, v);
      assert SlotOk(m, v, VersionLinks(filed, pkg, v), fileOf);
      if v == versionOf(key) { PruneOk(m, VersionLinks(filed, pkg, v), v, fileOf, key, fileOf(key), name); }
    }
  }

  function NotNamed(filed: set<Filing>, name: string): set<Filing> {
    set x | x in filed && x.name != name
  }

  lemma UpstreamsNotNamed(filed: set<Filing>, pkg: string, name: string)
    ensures UpstreamLinks(NotNamed(filed, name), pkg) == NotOf(UpstreamLinks(filed, pkg), name)
  {
    forall p | p in UpstreamLinks(filed, pkg) && p.1 != name ensures p in UpstreamLinks(NotNamed(filed, name), pkg) {
      var y :| y in filed && PkgOf(y) == Some(pkg) && y.f.upstream.Some? && (y.f.upstream.value, y.name) == p;
      assert y in NotNamed(filed, name);
    }
  }

  lemma SweepOk(p: Package, q: Package, filed: set<Filing>, pkg: string, name: string)
    requires UpstreamsOk(p, UpstreamLinks(filed, pkg))
    requires q == Sweep(p, name)
    ensures UpstreamsOk(q, UpstreamLinks(NotNamed(filed, name), pkg))
  {
    UpstreamsNotNamed(filed, pkg, name);
    UncountAllOk(p.repoReports, UpstreamLinks(filed, pkg), name);
  }

  lemma TakenPackageOk(p: Package, pkg: string, filed: set<Filing>, upstream: set<Filing>, fileOf: string -> string,
                       versionOf: string -> Option<string>, key: string, name: string, sweep: bool)
    requires PackageOk(p, pkg, filed, upstream, fileOf)
    requires forall x :: x in filed && PkgOf(x) == Some(pkg) && x.f.key == key ==> x.f.version == versionOf(key)
    ensures var q := p.(bucket := Recompute(TakeBack(p.bucket, key, fileOf(key), name)),
                        byVersion := Prune(p.byVersion, versionOf(key), key, fileOf(key), name));
            PackageOk(if sweep then Sweep(q, name) else q, pkg, Less(filed, PkgOf, pkg, key, name),
                      if sweep then NotNamed(upstream, name) else upstream, fileOf)
  {
    var q := p.(bucket := Recompute(TakeBack(p.bucket, key, fileOf(key), name)),
                byVersion := Prune(p.byVersion, versionOf(key), key, fileOf(key), name));
    TakeBackOk(p.bucket, LinksIn(filed, PkgOf, pkg), fileOf, key, fileOf(key), name);
    LinksLess(filed, PkgOf, pkg, key, name, pkg);
    PruneVersionsOk(p.byVersion, pkg, filed, fileOf, versionOf, key, name);
    if sweep { SweepOk(q, Sweep(q, name), upstream, pkg, name); }
  }

  /** A contribution to a package taken back; when it is passed over there was nothing left to take. */
  lemma TakePackageOk(m: Packages, pkg: string, filed: set<Filing>, upstream: set<Filing>, fileOf: string -> string,
                      versionOf: string -> Option<string>, key: string, name: string, sweep: bool)
    requires PackageSlotOk(m, pkg, filed, upstream, fileOf)
    requires forall x :: x in filed && PkgOf(x) == Some(pkg) && x.f.key == key ==> x.f.version == versionOf(key)
    ensures var n, less := TakePackage(m, pkg, key, fileOf(key), versionOf(key), name, sweep),
              Less(filed, PkgOf, pkg, key, name);
            if PassedOver(m, pkg, key) then less == filed && n == m
            else PackageSlotOk(n, pkg, less, if sweep then NotNamed(upstream, name) else upstream, fileOf)
  {
    var links := LinksIn(filed, PkgOf, pkg);
    NoKeys(links);
    if PassedOver(m, pkg, key) {
      if pkg in m { assert key !in KeysOf(links); }
      NothingLess(filed, PkgOf, pkg, key, name);
    } else {
      TakenPackageOk(m[pkg], pkg, filed, upstream, fileOf, versionOf, key, name, sweep);
      LinksLess(filed, PkgOf, pkg, key, name, pkg);
      TakeBackEmpty(m[pkg].bucket, links, key, fileOf(key), name);
    }
  }

  lemma TakeBackEmpty(b: Bucket, links: Links, key: string, file: string, name: string)
    requires LinksOk(b, links)
    ensures TakeBack(b, key, file, name).keyReports == map[] <==> links - {(key, name)} == {}
  {
    UncountOk(b.keyReports, links, key, name);
    NoKeys(links - {(key, name)});
    var kept := TakeBack(b, key, file, name).keyReports;
    assert kept == map[] <==> kept.Keys == {};
  }

  lemma VersionsSame(m: map<Option<string>, Bucket>, pkg: string, filed: set<Filing>, less: set<Filing>,
                     fileOf: string -> string)
    requires VersionsOk(m, pkg, filed, fileOf)
    requires less <= filed && forall x :: x in filed && PkgOf(x) == Some(pkg) ==> x in less
    ensures VersionsOk(m, pkg, less, fileOf)
  {
    forall v ensures SlotOk(m, v, VersionLinks(less, pkg, v), fileOf) {
      assert VersionLinks(less, pkg, v) == VersionLinks(filed, pkg, v);
      assert SlotOk(m, v, VersionLinks(filed, pkg, v), fileOf);
    }
  }

  /** A package none of whose filings go keeps its slot. */
  lemma PackageSame(m: Packages, n: Packages, pkg: string, filed: set<Filing>, less: set<Filing>,
                    upstream: set<Filing>, upless: set<Filing>, fileOf: string -> string)
    requires PackageSlotOk(m, pkg, filed, upstream, fileOf)
    requires less <= filed && forall x :: x in filed && PkgOf(x) == Some(pkg) ==> x in less
    requires upless <= upstream && forall x :: x in upstream && PkgOf(x) == Some(pkg) ==> x in upless
    requires (pkg in n <==> pkg in m) && (pkg in m ==> n[pkg] == m[pkg])
    ensures PackageSlotOk(n, pkg, less, upless, fileOf)
  {
    assert LinksIn(less, PkgOf, pkg) == LinksIn(filed, PkgOf, pkg);
    assert UpstreamLinks(upless, pkg) == UpstreamLinks(upstream, pkg);
    if pkg in m { VersionsSame(m[pkg].byVersion, pkg, filed, less, fileOf); }
  }
}
