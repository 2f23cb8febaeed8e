/**
 The cross-report finding index as it runs (client/bundle-finding-index.js):
 findings filed by hash, package and repository, a reverse index of what each
 report contributed, and the invalidation that takes a report back through it.
 */
module FindingIndex {
  import opened Options
  import opened FindingBuckets
  import opened FindingSlots

  datatype PkgRef = PkgRef(pkg: string, key: string, file: string, version: Option<string>)

  datatype Contributions = Contributions(hash: seq<(string, string)>, pkg: seq<PkgRef>,
    repo: seq<(string, string, string)>)

  const NONE := Contributions([], [], [])

  // ---- what the maps stand for, given the findings filed ----

  ghost predicate HashesOk(m: Hashes, filed: set<Filing>) {
    forall h :: HashSlotOk(m, h, LinksIn(filed, HashOf, h))
  }

  ghost predicate PackagesOk(m: Packages, filed: set<Filing>, fileOf: string -> string) {
    forall p :: PackageSlotOk(m, p, filed, filed, fileOf)
  }

  ghost predicate ReposOk(m: map<string, Bucket>, filed: set<Filing>, fileOf: string -> string) {
    forall r :: SlotOk(m, r, LinksIn(filed, RepoOf, r), fileOf)
  }

  // ---- what is remembered of each report ----

  predicate HashKept(c: map<string, Contributions>, x: Filing) {
    HashOf(x).Some? ==> x.name in c && (HashOf(x).value, x.f.key) in c[x.name].hash
  }

  predicate PkgKept(c: map<string, Contributions>, x: Filing) {
    PkgOf(x).Some? ==> x.name in c && PkgRef(PkgOf(x).value, x.f.key, x.f.file, x.f.version) in c[x.name].pkg
  }

  predicate RepoKept(c: map<string, Contributions>, x: Filing) {
    RepoOf(x).Some? ==> x.name in c && (RepoOf(x).value, x.f.key, x.f.file) in c[x.name].repo
  }

  predicate Kept(c: map<string, Contributions>, x: Filing) {
    HashKept(c, x) && PkgKept(c, x) && RepoKept(c, x)
  }

  /** What is remembered names files and versions the keys tell. */
  predicate RefsTold(c: Contributions, fileOf: string -> string, versionOf: string -> Option<string>) {
    && (forall r :: r in c.pkg ==> r.file == fileOf(r.key) && r.version == versionOf(r.key))
    && (forall r :: r in c.repo ==> r.2 == fileOf(r.1))
  }

  function Of(c: map<string, Contributions>, name: string): Contributions {
    if name in c then c[name] else NONE
  }

  /** Only more is remembered, and nothing untold. */
  predicate Grown(c: map<string, Contributions>, d: map<string, Contributions>, fileOf: string -> string,
                  versionOf: string -> Option<string>) {
    && (forall n :: n in c ==> n in d && c[n].hash <= d[n].hash && c[n].pkg <= d[n].pkg && c[n].repo <= d[n].repo)
    && ((forall n :: n in c ==> RefsTold(c[n], fileOf, versionOf))
      ==> forall n :: n in d ==> RefsTold(d[n], fileOf, versionOf))
  }

  lemma GrownKeeps(c: map<string, Contributions>, d: map<string, Contributions>, fileOf: string -> string,
                   versionOf: string -> Option<string>, x: Filing)
    requires Grown(c, d, fileOf, versionOf)
    ensures HashKept(c, x) ==> HashKept(d, x)
    ensures PkgKept(c, x) ==> PkgKept(d, x)
    ensures RepoKept(c, x) ==> RepoKept(d, x)
  {
    if x.name in c {
      assert c[x.name].hash <= d[x.name].hash && c[x.name].pkg <= d[x.name].pkg && c[x.name].repo <= d[x.name].repo;
    }
  }

  // ---- rememberContribution, a kind at a time ----

  function RememberHash(c: map<string, Contributions>, name: string,
                        ref: (string, string)): map<string, Contributions> {
    c[name := Of(c, name).(hash := Of(c, name).hash + [ref])]
  }

  function RememberPkg(c: map<string, Contributions>, name: string, ref: PkgRef): map<string, Contributions> {
    c[name := Of(c, name).(pkg := Of(c, name).pkg + [ref])]
  }

  function RememberRepo(c: map<string, Contributions>, name: string,
                        ref: (string, string, string)): map<string, Contributions> {
    c[name := Of(c, name).(repo := Of(c, name).repo + [ref])]
  }

  lemma HashRemembered(c: map<string, Contributions>, name: string, ref: (string, string), fileOf: string -> string,
                       versionOf: string -> Option<string>)
    ensures Grown(c, RememberHash(c, name, ref), fileOf, versionOf) && ref in RememberHash(c, name, ref)[name].hash
  {
    assert RememberHash(c, name, ref)[name].hash[|Of(c, name).hash|] == ref;
  }

  lemma PkgRemembered(c: map<string, Contributions>, name: string, ref: PkgRef, fileOf: string -> string,
                      versionOf: string -> Option<string>)
    requires ref.file == fileOf(ref.key) && ref.version == versionOf(ref.key)
    ensures Grown(c, RememberPkg(c, name, ref), fileOf, versionOf) && ref in RememberPkg(c, name, ref)[name].pkg
  {
    assert RememberPkg(c, name, ref)[name].pkg[|Of(c, name).pkg|] == ref;
  }

  lemma RepoRemembered(c: map<string, Contributions>, name: string, ref: (string, string, string),
                       fileOf: string -> string,
                       versionOf: string -> Option<string>)
    requires ref.2 == fileOf(ref.1)
    ensures Grown(c, RememberRepo(c, name, ref), fileOf, versionOf) && ref in RememberRepo(c, name, ref)[name].repo
  {
    assert RememberRepo(c, name, ref)[name].repo[|Of(c, name).repo|] == ref;
  }

  predicate AllKept(c: map<string, Contributions>, filed: set<Filing>) {
    forall x :: x in filed ==> Kept(c, x)
  }

  predicate AllTold(c: map<string, Contributions>, filed: set<Filing>, fileOf: string -> string,
                    versionOf: string -> Option<string>) {
    (forall x :: x in filed ==> Told(x, fileOf, versionOf))
      && (forall n :: n in c ==> RefsTold(c[n], fileOf, versionOf))
  }

  lemma GrownKeepsAll(c: map<string, Contributions>, d: map<string, Contributions>, fileOf: string -> string,
                      versionOf: string -> Option<string>, filed: set<Filing>)
    requires Grown(c, d, fileOf, versionOf) && AllKept(c, filed) && AllTold(c, filed, fileOf, versionOf)
    ensures AllKept(d, filed) && AllTold(d, filed, fileOf, versionOf)
  {
    forall x | x in filed ensures Kept(d, x) { GrownKeeps(c, d, fileOf, versionOf, x); }
  }

  lemma HashesElsewhere(m: Hashes, filed: set<Filing>, x: Filing)
    requires HashesOk(m, filed) && HashOf(x).None?
    ensures HashesOk(m, filed + {x})
  {
    forall h ensures HashSlotOk(m, h, LinksIn(filed + {x}, HashOf, h)) {
      LinksWith(filed, HashOf, h, x);
      assert HashSlotOk(m, h, LinksIn(filed, HashOf, h));
    }
  }

  lemma HashesFiled(m: Hashes, filed: set<Filing>, x: Filing)
    requires HashesOk(m, filed) && HashOf(x).Some?
    ensures HashesOk(FileHash(m, HashOf(x).value, x.name, x.f), filed + {x})
  {
    var hash := HashOf(x).value;
    var n := FileHash(m, hash, x.name, x.f);
    forall h ensures HashSlotOk(n, h, LinksIn(filed + {x}, HashOf, h)) {
      LinksWith(filed, HashOf, h, x);
      assert HashSlotOk(m, h, LinksIn(filed, HashOf, h));
      if h == hash { FileHashOk(m, LinksIn(filed, HashOf, h), h, x.name, x.f); }
    }
  }

  lemma PackagesFiled(m: Packages, filed: set<Filing>, fileOf: string -> string, x: Filing)
    requires PackagesOk(m, filed, fileOf) && fileOf(x.f.key) == x.f.file
    ensures PackagesOk(if PkgOf(x).Some? then FilePackage(m, PkgOf(x).value, x.name, x.f) else m, filed + {x}, fileOf)
  {
    var n := if PkgOf(x).Some? then FilePackage(m, PkgOf(x).value, x.name, x.f) else m;
    forall p ensures PackageSlotOk(n, p, filed + {x}, filed + {x}, fileOf) {
      assert PackageSlotOk(m, p, filed, filed, fileOf);
      if PkgOf(x) == Some(p) { FilePackageOk(m, p, filed, fileOf, x); }
          else { OtherPackage(m, n, p, filed, fileOf, x); }
    }
  }

  lemma ReposFiled(m: map<string, Bucket>, filed: set<Filing>, fileOf: string -> string, x: Filing)
    requires ReposOk(m, filed, fileOf) && fileOf(x.f.key) == x.f.file
    ensures ReposOk(if RepoOf(x).Some? then FileIn(m, RepoOf(x).value, x.name, x.f) else m, filed + {x}, fileOf)
  {
    var n := if RepoOf(x).Some? then FileIn(m, RepoOf(x).value, x.name, x.f) else m;
    forall r ensures SlotOk(n, r, LinksIn(filed + {x}, RepoOf, r), fileOf) {
      LinksWith(filed, RepoOf, r, x);
      assert SlotOk(m, r, LinksIn(filed, RepoOf, r), fileOf);
      if RepoOf(x) == Some(r) { FileInOk(m, LinksIn(filed, RepoOf, r), r, fileOf, x.name, x.f); }
    }
  }

  /** A report already tallied under a slot's key filed it before. */
  lemma FiledBefore(filed: set<Filing>, slotOf: Filing -> Option<string>, slot: string, key: string, name: string)
      returns (y: Filing)
    requires (key, name) in LinksIn(filed, slotOf, slot)
    ensures y in filed && slotOf(y) == Some(slot) && y.f.key == key && y.name == name
  {
    y :| y in filed && slotOf(y) == Some(slot) && (y.f.key, y.name) == (key, name);
  }

  lemma TallyHas(tally: Tally, links: Links, key: string, name: string)
    requires TallyOk(tally, links)
    ensures name in NamesFor(tally, key) <==> (key, name) in links
  {
    if (key, name) in links {
      assert key in KeysOf(links) && name in NamesUnder(links, key);
    }
  }

  // ---- a report's package contributions, taken back in order ----

  function TakeRef(m: Packages, r: PkgRef, name: string, cleaned: set<string>): Packages {
    TakePackage(m, r.pkg, r.key, r.file, r.version, name, r.pkg !in cleaned)
  }

  /** A package's repositories are swept at the first contribution to it that is not passed over. */
  function TakeRefs(m: Packages, refs: seq<PkgRef>, name: string, cleaned: set<string>): Packages {
    if refs == [] then m
    else if PassedOver(m, refs[0].pkg, refs[0].key) then TakeRefs(m, refs[1..], name, cleaned)
    else TakeRefs(TakeRef(m, refs[0], name, cleaned), refs[1..], name, cleaned + {refs[0].pkg})
  }

  /** Whether taking it back changes what a subscriber sees: the report goes from the key, or a repository with it. */
  predicate Took(m: Packages, r: PkgRef, name: string, cleaned: set<string>) {
    && !PassedOver(m, r.pkg, r.key)
    && (name in m[r.pkg].bucket.keyReports[r.key]
        || (r.pkg !in cleaned && exists repo :: repo in m[r.pkg].repoReports && m[r.pkg].repoReports[repo] == {name}))
  }

  predicate TookAny(m: Packages, refs: seq<PkgRef>, name: string, cleaned: set<string>) {
    && refs != []
    && (Took(m, refs[0], name, cleaned)
        || if PassedOver(m, refs[0].pkg, refs[0].key) then TookAny(m, refs[1..], name, cleaned)
           else TookAny(TakeRef(m, refs[0], name, cleaned), refs[1..], name, cleaned + {refs[0].pkg}))
  }

  class Index {
    var byHash: Hashes
    var byPackage: Packages
    var byRepo: map<string, Bucket>
    var contributionsByName: map<string, Contributions>
    ghost var filed: set<Filing>
    ghost const fileOf: string -> string
    ghost const versionOf: string -> Option<string>

    /** The maps are what the findings filed make them, and every one of those is remembered. */
    ghost predicate Valid()
      reads this
    {
      && HashesOk(byHash, filed) && PackagesOk(byPackage, filed, fileOf) && ReposOk(byRepo, filed, fileOf)
      && AllKept(contributionsByName, filed) && AllTold(contributionsByName, filed, fileOf, versionOf)
    }

    constructor (ghost fileOf: string -> string, ghost versionOf: string -> Option<string>)
      ensures Valid() && filed == {} && this.fileOf == fileOf && this.versionOf == versionOf
    {
      byHash, byPackage, byRepo, contributionsByName := map[], map[], map[], map[];
      filed := {};
      this.fileOf, this.versionOf := fileOf, versionOf;
      new;
      assert forall h :: LinksIn({}, HashOf, h) == {} && LinksIn({}, PkgOf, h) == {} && LinksIn({}, RepoOf, h) == {};
    }

    /** indexFindingByHash. */
    method IndexFindingByHash(x: Filing) returns (added: bool)
      requires HashOf(x).Some? && HashesOk(byHash, filed)
      requires forall y :: y in filed ==> HashKept(contributionsByName, y)
      modifies this`byHash, this`contributionsByName
      ensures byHash == FileHash(old(byHash), HashOf(x).value, x.name, x.f) && HashesOk(byHash, filed + {x})
      ensures Grown(old(contributionsByName), contributionsByName, fileOf, versionOf)
                && HashKept(contributionsByName, x)
      ensures added <==> (x.f.key, x.name) !in LinksIn(filed, HashOf, HashOf(x).value)
    {
      var hash := HashOf(x).value;
      ghost var links := LinksIn(filed, HashOf, hash);
      assert HashSlotOk(byHash, hash, links);
      var tally := if hash in byHash then byHash[hash].reports else map[];
      TallyHas(tally, links, x.f.key, x.name);
      added := x.name !in NamesFor(tally, x.f.key);
      HashesFiled(byHash, filed, x);
      byHash := FileHash(byHash, hash, x.name, x.f);
      if added {
        HashRemembered(contributionsByName, x.name, (hash, x.f.key), fileOf, versionOf);
        contributionsByName := RememberHash(contributionsByName, x.name, (hash, x.f.key));
      } else {
        ghost var y := FiledBefore(filed, HashOf, hash, x.f.key, x.name);
      }
    }

    /** indexFindingByPackage; what it contributed is remembered every time. */
    method IndexFindingByPackage(x: Filing) returns (added: bool)
      requires PkgOf(x).Some? && PackagesOk(byPackage, filed, fileOf) && Told(x, fileOf, versionOf)
      modifies this`byPackage, this`contributionsByName
      ensures byPackage == FilePackage(old(byPackage), PkgOf(x).value, x.name, x.f)
                && PackagesOk(byPackage, filed + {x}, fileOf)
      ensures Grown(old(contributionsByName), contributionsByName, fileOf, versionOf) && PkgKept(contributionsByName, x)
      ensures added <==> (x.f.key, x.name) !in LinksIn(filed, PkgOf, PkgOf(x).value)
    {
      var pkg := PkgOf(x).value;
      ghost var links := LinksIn(filed, PkgOf, pkg);
      assert PackageSlotOk(byPackage, pkg, filed, filed, fileOf);
      var tally := if pkg in byPackage then byPackage[pkg].bucket.keyReports else map[];
      TallyHas(tally, links, x.f.key, x.name);
      added := x.name !in NamesFor(tally, x.f.key);
      PackagesFiled(byPackage, filed, fileOf, x);
      byPackage := FilePackage(byPackage, pkg, x.name, x.f);
      PkgRemembered(contributionsByName, x.name, PkgRef(pkg, x.f.key, x.f.file, x.f.version), fileOf, versionOf);
      contributionsByName := RememberPkg(contributionsByName, x.name, PkgRef(pkg, x.f.key, x.f.file, x.f.version));
    }

    /** indexFindingByRepo. */
    method IndexFindingByRepo(x: Filing) returns (added: bool)
      requires RepoOf(x).Some? && ReposOk(byRepo, filed, fileOf) && Told(x, fileOf, versionOf)
      requires forall y :: y in filed ==> RepoKept(contributionsByName, y) && Told(y, fileOf, versionOf)
      modifies this`byRepo, this`contributionsByName
      ensures byRepo == FileIn(old(byRepo), RepoOf(x).value, x.name, x.f) && ReposOk(byRepo, filed + {x}, fileOf)
      ensures Grown(old(contributionsByName), contributionsByName, fileOf, versionOf)
                && RepoKept(contributionsByName, x)
      ensures added <==> (x.f.key, x.name) !in LinksIn(filed, RepoOf, RepoOf(x).value)
    {
      var repo := RepoOf(x).value;
      ghost var links := LinksIn(filed, RepoOf, repo);
      assert SlotOk(byRepo, repo, links, fileOf);
      var tally := if repo in byRepo then byRepo[repo].keyReports else map[];
      TallyHas(tally, links, x.f.key, x.name);
      added := x.name !in NamesFor(tally, x.f.key);
      ReposFiled(byRepo, filed, fileOf, x);
      byRepo := FileIn(byRepo, repo, x.name, x.f);
      if added {
        RepoRemembered(contributionsByName, x.name, (repo, x.f.key, x.f.file), fileOf, versionOf);
        contributionsByName := RememberRepo(contributionsByName, x.name, (repo, x.f.key, x.f.file));
      } else {
        ghost var y := FiledBefore(filed, RepoOf, repo, x.f.key, x.name);
        assert RepoKept(contributionsByName, y) && y.f.file == x.f.file;
      }
    }

    method FileHashed(x: Filing) returns (added: bool)
      requires HashesOk(byHash, filed) && AllKept(contributionsByName, filed)
                 && AllTold(contributionsByName, filed, fileOf, versionOf)
      modifies this`byHash, this`contributionsByName
      ensures HashesOk(byHash, filed + {x}) && AllKept(contributionsByName, filed)
                && AllTold(contributionsByName, filed, fileOf, versionOf)
      ensures HashKept(contributionsByName, x)
    {
      added := false;
      if HashOf(x).Some? {
        ghost var was := contributionsByName;
        added := IndexFindingByHash(x);
        GrownKeepsAll(was, contributionsByName, fileOf, versionOf, filed);
      } else {
        HashesElsewhere(byHash, filed, x);
      }
    }

    method FilePackaged(x: Filing) returns (added: bool)
      requires PackagesOk(byPackage, filed, fileOf) && Told(x, fileOf, versionOf)
      requires AllKept(contributionsByName, filed) && AllTold(contributionsByName, filed, fileOf, versionOf)
      requires HashKept(contributionsByName, x)
      modifies this`byPackage, this`contributionsByName
      ensures PackagesOk(byPackage, filed + {x}, fileOf)
      ensures AllKept(contributionsByName, filed) && AllTold(contributionsByName, filed, fileOf, versionOf)
      ensures HashKept(contributionsByName, x) && PkgKept(contributionsByName, x)
    {
      added := false;
      if PkgOf(x).Some? {
        ghost var was := contributionsByName;
        added := IndexFindingByPackage(x);
        GrownKeepsAll(was, contributionsByName, fileOf, versionOf, filed);
        GrownKeeps(was, contributionsByName, fileOf, versionOf, x);
      } else {
        PackagesFiled(byPackage, filed, fileOf, x);
      }
    }

    method FileRepo(x: Filing) returns (added: bool)
      requires ReposOk(byRepo, filed, fileOf) && Told(x, fileOf, versionOf)
      requires AllKept(contributionsByName, filed) && AllTold(contributionsByName, filed, fileOf, versionOf)
      requires HashKept(contributionsByName, x) && PkgKept(contributionsByName, x)
      modifies this`byRepo, this`contributionsByName
      ensures ReposOk(byRepo, filed + {x}, fileOf)
      ensures AllKept(contributionsByName, filed + {x}) && AllTold(contributionsByName, filed + {x}, fileOf, versionOf)
    {
      added := false;
      if RepoOf(x).Some? {
        ghost var was := contributionsByName;
        added := IndexFindingByRepo(x);
        GrownKeepsAll(was, contributionsByName, fileOf, versionOf, filed);
        GrownKeeps(was, contributionsByName, fileOf, versionOf, x);
      } else {
        ReposFiled(byRepo, filed, fileOf, x);
      }
    }

    /** One finding of a report, under each index that wants it. */
    method FileOne(x: Filing) returns (added: bool)
      requires Valid() && Told(x, fileOf, versionOf)
      modifies this
      ensures Valid() && filed == old(filed) + {x}
    {
      var hashed := FileHashed(x);
      var packaged := FilePackaged(x);
      var placed := FileRepo(x);
      filed := filed + {x};
      added := hashed || packaged || placed;
    }

    /** The findings of a report just read, in order. */
    method FileReport(name: string, findings: seq<Finding>, fallback: Option<string>) returns (added: bool)
      requires Valid() && forall f :: f in findings ==> Told(Filing(name, f, fallback), fileOf, versionOf)
      modifies this
      ensures Valid() && filed == old(filed) + (set f | f in findings :: Filing(name, f, fallback))
    {
      added := false;
      for i := 0 to |findings|
        invariant Valid() && filed == old(filed) + (set f | f in findings[..i] :: Filing(name, f, fallback))
      {
        var more := FileOne(Filing(name, findings[i], fallback));
        added := added || more;
        assert findings[..i + 1] == findings[..i] + [findings[i]];
      }
      assert findings[..|findings|] == findings;
    }

    method TakeHashes(name: string, refs: seq<(string, string)>) returns (went: bool)
      requires HashesOk(byHash, filed)
      requires forall x :: x in filed && x.name == name && HashOf(x).Some? ==> (HashOf(x).value, x.f.key) in refs
      modifies this`byHash
      ensures HashesOk(byHash, NotNamed(filed, name))
      ensures went <==> FiledHash(filed, name)
    {
      ghost var left := filed;
      went := false;
      for i := 0 to |refs|
        invariant left <= filed && NotNamed(filed, name) <= left && HashesOk(byHash, left) && (went <==> left != filed)
        invariant forall x :: x in filed && HashOf(x).None? ==> x in left
        invariant forall x :: x in left && x.name == name && HashOf(x).Some? ==> (HashOf(x).value, x.f.key) in refs[i..]
      {
        var hash, key := refs[i].0, refs[i].1;
        HashesTaken(byHash, left, hash, key, name);
        HashTold(byHash, left, hash, key, name);
        went := went || (hash in byHash && name in NamesFor(byHash[hash].reports, key));
        byHash := TakeHash(byHash, hash, key, name);
        assert refs[i..] == [refs[i]] + refs[i + 1..];
        left := Less(left, HashOf, hash, key, name);
      }
      forall h ensures HashSlotOk(byHash, h, LinksIn(NotNamed(filed, name), HashOf, h)) {
        assert HashSlotOk(byHash, h, LinksIn(left, HashOf, h));
        assert LinksIn(left, HashOf, h) == LinksIn(NotNamed(filed, name), HashOf, h);
      }
    }

    method TakeRepos(name: string, refs: seq<(string, string, string)>) returns (went: bool)
      requires ReposOk(byRepo, filed, fileOf)
      requires forall r :: r in refs ==> r.2 == fileOf(r.1)
      requires forall x :: x in filed && x.name == name && RepoOf(x).Some?
                 ==> (RepoOf(x).value, x.f.key, x.f.file) in refs
      modifies this`byRepo
      ensures ReposOk(byRepo, NotNamed(filed, name), fileOf)
      ensures went <==> FiledRepo(filed, name)
    {
      ghost var left := filed;
      went := false;
      for i := 0 to |refs|
        invariant left <= filed && NotNamed(filed, name) <= left && ReposOk(byRepo, left, fileOf)
                    && (went <==> left != filed)
        invariant forall x :: x in filed && RepoOf(x).None? ==> x in left
        invariant forall x :: x in left && x.name == name && RepoOf(x).Some?
                    ==> (RepoOf(x).value, x.f.key, x.f.file) in refs[i..]
      {
        var repo, key := refs[i].0, refs[i].1;
        assert refs[i] in refs;
        ReposTaken(byRepo, left, fileOf, repo, key, name);
        RepoTold(byRepo, left, fileOf, repo, key, name);
        went := went || (repo in byRepo && name in NamesFor(byRepo[repo].keyReports, key));
        byRepo := TakeRepo(byRepo, repo, key, refs[i].2, name);
        assert refs[i..] == [refs[i]] + refs[i + 1..];
        left := Less(left, RepoOf, repo, key, name);
      }
      forall r ensures SlotOk(byRepo, r, LinksIn(NotNamed(filed, name), RepoOf, r), fileOf) {
        assert SlotOk(byRepo, r, LinksIn(left, RepoOf, r), fileOf);
        assert LinksIn(left, RepoOf, r) == LinksIn(NotNamed(filed, name), RepoOf, r);
      }
    }

    /** The package part of invalidateName, whatever the keys tell. */
    method TakePackages(name: string, refs: seq<PkgRef>) returns (went: bool)
      modifies this`byPackage
      ensures byPackage == TakeRefs(old(byPackage), refs, name, {}) && went == TookAny(old(byPackage), refs, name, {})
    {
      var cleaned: set<string> := {};
      went := false;
      for i := 0 to |refs|
        invariant TakeRefs(byPackage, refs[i..], name, cleaned) == TakeRefs(old(byPackage), refs, name, {})
        invariant (went || TookAny(byPackage, refs[i..], name, cleaned)) == TookAny(old(byPackage), refs, name, {})
      {
        var r := refs[i];
        assert refs[i..][0] == r && refs[i..][1..] == refs[i + 1..];
        went := went || Took(byPackage, r, name, cleaned);
        if !PassedOver(byPackage, r.pkg, r.key) {
          byPackage := TakeRef(byPackage, r, name, cleaned);
          cleaned := cleaned + {r.pkg};
        }
      }
    }

    /** invalidateName for the three maps: what the report filed goes, and what the others filed stays. */
    method InvalidateName(name: string) returns (went: bool)
      requires Valid()
      modifies this
      ensures Valid() && filed == NotNamed(old(filed), name)
      ensures byPackage == TakeRefs(old(byPackage), Of(old(contributionsByName), name).pkg, name, {})
      ensures went <==> FiledHash(old(filed), name) || FiledPackage(old(filed), name) || FiledRepo(old(filed), name)
    {
      var c := Of(contributionsByName, name);
      ContributionsCover(contributionsByName, filed, fileOf, versionOf, name);
      contributionsByName := contributionsByName - {name};
      var hashes := TakeHashes(name, c.hash);
      Underway(byPackage, c.pkg, filed, fileOf, versionOf, name);
      PackagesTakenBack(byPackage, c.pkg, filed, filed, fileOf, versionOf, name, {});
      TookIff(byPackage, c.pkg, filed, filed, fileOf, versionOf, name, {});
      var packages := TakePackages(name, c.pkg);
      var repos := TakeRepos(name, c.repo);
      filed := NotNamed(filed, name);
      went := hashes || packages || repos;
    }
  }

  predicate FiledHash(filed: set<Filing>, name: string) {
    exists x :: x in filed && x.name == name && HashOf(x).Some?
  }

  predicate FiledPackage(filed: set<Filing>, name: string) {
    exists x :: x in filed && x.name == name && PkgOf(x).Some?
  }

  predicate FiledRepo(filed: set<Filing>, name: string) {
    exists x :: x in filed && x.name == name && RepoOf(x).Some?
  }

  /** What is remembered of a report covers what it filed; forgetting it leaves the others covered. */
  lemma ContributionsCover(c: map<string, Contributions>, filed: set<Filing>, fileOf: string -> string,
                           versionOf: string -> Option<string>, name: string)
    requires AllKept(c, filed) && AllTold(c, filed, fileOf, versionOf)
    ensures RefsTold(Of(c, name), fileOf, versionOf)
    ensures forall x :: x in filed && x.name == name && HashOf(x).Some?
              ==> (HashOf(x).value, x.f.key) in Of(c, name).hash
    ensures forall x :: x in filed && x.name == name && PkgOf(x).Some?
              ==> PkgRef(PkgOf(x).value, x.f.key, x.f.file, x.f.version) in Of(c, name).pkg
    ensures forall x :: x in filed && x.name == name && RepoOf(x).Some?
              ==> (RepoOf(x).value, x.f.key, x.f.file) in Of(c, name).repo
    ensures AllKept(c - {name}, NotNamed(filed, name)) && AllTold(c - {name}, NotNamed(filed, name), fileOf, versionOf)
  {
    assert forall x :: x in filed ==> Kept(c, x);
  }

  /** A contribution is one to take back exactly when the report filed it. */
  lemma HashTold(m: Hashes, filed: set<Filing>, hash: string, key: string, name: string)
    requires HashesOk(m, filed)
    ensures (hash in m && name in NamesFor(m[hash].reports, key)) <==> Less(filed, HashOf, hash, key, name) != filed
  {
    var links := LinksIn(filed, HashOf, hash);
    assert HashSlotOk(m, hash, links);
    LessIff(filed, HashOf, hash, key, name);
    if hash in m { TallyHas(m[hash].reports, links, key, name); }
  }

  lemma RepoTold(m: map<string, Bucket>, filed: set<Filing>, fileOf: string -> string, repo: string, key: string,
                 name: string)
    requires ReposOk(m, filed, fileOf)
    ensures (repo in m && name in NamesFor(m[repo].keyReports, key)) <==> Less(filed, RepoOf, repo, key, name) != filed
  {
    var links := LinksIn(filed, RepoOf, repo);
    assert SlotOk(m, repo, links, fileOf);
    LessIff(filed, RepoOf, repo, key, name);
    if repo in m { TallyHas(m[repo].keyReports, links, key, name); }
  }

  lemma LessIff(filed: set<Filing>, slotOf: Filing -> Option<string>, slot: string, key: string, name: string)
    ensures Less(filed, slotOf, slot, key, name) != filed <==> (key, name) in LinksIn(filed, slotOf, slot)
  {
    if (key, name) in LinksIn(filed, slotOf, slot) {
      var y := FiledBefore(filed, slotOf, slot, key, name);
      assert y !in Less(filed, slotOf, slot, key, name);
    } else {
      forall x | x in filed ensures x in Less(filed, slotOf, slot, key, name) {
        if slotOf(x) == Some(slot) { assert (x.f.key, x.name) in LinksIn(filed, slotOf, slot); }
      }
    }
  }

  lemma HashesTaken(m: Hashes, filed: set<Filing>, hash: string, key: string, name: string)
    requires HashesOk(m, filed)
    ensures HashesOk(TakeHash(m, hash, key, name), Less(filed, HashOf, hash, key, name))
  {
    var n, less := TakeHash(m, hash, key, name), Less(filed, HashOf, hash, key, name);
    forall h ensures HashSlotOk(n, h, LinksIn(less, HashOf, h)) {
      LinksLess(filed, HashOf, hash, key, name, h);
      assert HashSlotOk(m, h, LinksIn(filed, HashOf, h));
      if h == hash { TakeHashOk(m, LinksIn(filed, HashOf, h), h, key, name); }
    }
  }

  lemma ReposTaken(m: map<string, Bucket>, filed: set<Filing>, fileOf: string -> string, repo: string, key: string,
                   name: string)
    requires ReposOk(m, filed, fileOf)
    ensures ReposOk(TakeRepo(m, repo, key, fileOf(key), name), Less(filed, RepoOf, repo, key, name), fileOf)
  {
    var n, less := TakeRepo(m, repo, key, fileOf(key), name), Less(filed, RepoOf, repo, key, name);
    forall r ensures SlotOk(n, r, LinksIn(less, RepoOf, r), fileOf) {
      LinksLess(filed, RepoOf, repo, key, name, r);
      assert SlotOk(m, r, LinksIn(filed, RepoOf, r), fileOf);
      if r == repo { TakeRepoOk(m, LinksIn(filed, RepoOf, r), r, fileOf, key, fileOf(key), name); }
    }
  }

  /** A package swept has forgotten the report's stamped repositories. */
  function Swept(filed: set<Filing>, name: string, cleaned: bool): set<Filing> {
    if cleaned then NotNamed(filed, name) else filed
  }

  lemma PackagesTaken(m: Packages, left: set<Filing>, filed: set<Filing>, fileOf: string -> string,
                      versionOf: string -> Option<string>,
                      pkg: string, key: string, name: string, cleaned: set<string>)
    requires left <= filed && forall x :: x in filed ==> Told(x, fileOf, versionOf)
    requires forall p :: PackageSlotOk(m, p, left, Swept(filed, name, p in cleaned), fileOf)
    ensures var n, less := TakePackage(m, pkg, key, fileOf(key), versionOf(key), name, pkg !in cleaned),
              Less(left, PkgOf, pkg, key, name);
            if PassedOver(m, pkg, key) then less == left && n == m
            else forall p :: PackageSlotOk(n, p, less, Swept(filed, name, p in cleaned + {pkg}), fileOf)
  {
    var n, less := TakePackage(m, pkg, key, fileOf(key), versionOf(key), name, pkg !in cleaned),
        Less(left, PkgOf, pkg, key, name);
    assert PackageSlotOk(m, pkg, left, Swept(filed, name, pkg in cleaned), fileOf);
    TakePackageOk(m, pkg, left, Swept(filed, name, pkg in cleaned), fileOf, versionOf, key, name, pkg !in cleaned);
    if !PassedOver(m, pkg, key) {
      forall p ensures PackageSlotOk(n, p, less, Swept(filed, name, p in cleaned + {pkg}), fileOf) {
        assert PackageSlotOk(m, p, left, Swept(filed, name, p in cleaned), fileOf);
        if p != pkg {
          var up := Swept(filed, name, p in cleaned);
          PackageSame(m, n, p, left, less, up, up, fileOf);
        }
      }
    }
  }

  /** With every contribution taken back, the packages swept are all those the report had filed in. */
  lemma PackagesSettled(m: Packages, left: set<Filing>, filed: set<Filing>, fileOf: string -> string, name: string,
                        cleaned: set<string>)
    requires left <= filed && NotNamed(filed, name) <= left
    requires forall p :: PackageSlotOk(m, p, left, Swept(filed, name, p in cleaned), fileOf)
    requires forall x :: x in filed && PkgOf(x).Some? && PkgOf(x).value !in cleaned ==> x in left
    requires forall x :: x in left && x.name == name ==> PkgOf(x).None?
    ensures PackagesOk(m, NotNamed(filed, name), fileOf)
  {
    forall p ensures PackageSlotOk(m, p, NotNamed(filed, name), NotNamed(filed, name), fileOf) {
      assert PackageSlotOk(m, p, left, Swept(filed, name, p in cleaned), fileOf);
      PackageSame(m, m, p, left, NotNamed(filed, name), Swept(filed, name, p in cleaned), NotNamed(filed, name),
        fileOf);
    }
  }

  /** Partway through a report's references: what they still name is what is left of it. */
  ghost predicate Partway(m: Packages, refs: seq<PkgRef>, left: set<Filing>, filed: set<Filing>,
                          fileOf: string -> string,
                          versionOf: string -> Option<string>, name: string, cleaned: set<string>) {
    && left <= filed && NotNamed(filed, name) <= left
    && (forall x :: x in filed ==> Told(x, fileOf, versionOf))
    && (forall r :: r in refs ==> r.file == fileOf(r.key) && r.version == versionOf(r.key))
    && (forall p :: PackageSlotOk(m, p, left, Swept(filed, name, p in cleaned), fileOf))
    && (forall x :: x in filed && PkgOf(x).Some? && PkgOf(x).value !in cleaned ==> x in left)
    && (forall x :: x in left && x.name == name && PkgOf(x).Some? ==>
        PkgRef(PkgOf(x).value, x.f.key, x.f.file, x.f.version) in refs)
  }

  lemma Underway(m: Packages, refs: seq<PkgRef>, filed: set<Filing>, fileOf: string -> string,
                 versionOf: string -> Option<string>,
                 name: string)
    requires PackagesOk(m, filed, fileOf) && forall x :: x in filed ==> Told(x, fileOf, versionOf)
    requires forall r :: r in refs ==> r.file == fileOf(r.key) && r.version == versionOf(r.key)
    requires forall x :: x in filed && x.name == name && PkgOf(x).Some?
               ==> PkgRef(PkgOf(x).value, x.f.key, x.f.file, x.f.version) in refs
    ensures Partway(m, refs, filed, filed, fileOf, versionOf, name, {})
  {
    var none: set<string> := {};
    forall p ensures PackageSlotOk(m, p, filed, Swept(filed, name, p in none), fileOf) {
      assert PackageSlotOk(m, p, filed, filed, fileOf);
    }
  }

  lemma OneRefTaken(m: Packages, refs: seq<PkgRef>, left: set<Filing>, filed: set<Filing>, fileOf: string -> string,
                    versionOf: string -> Option<string>, name: string, cleaned: set<string>)
    requires refs != [] && Partway(m, refs, left, filed, fileOf, versionOf, name, cleaned)
    ensures var r := refs[0];
            if PassedOver(m, r.pkg, r.key) then Partway(m, refs[1..], left, filed, fileOf, versionOf, name, cleaned)
            else Partway(TakeRef(m, r, name, cleaned), refs[1..], Less(left, PkgOf, r.pkg, r.key, name), filed, fileOf,
                         versionOf, name, cleaned + {r.pkg})
  {
    var r := refs[0];
    PackagesTaken(m, left, filed, fileOf, versionOf, r.pkg, r.key, name, cleaned);
    assert forall q :: q in refs ==> q == r || q in refs[1..];
  }

  lemma {:induction false} PackagesTakenBack(m: Packages, refs: seq<PkgRef>, left: set<Filing>, filed: set<Filing>,
                                             fileOf: string -> string, versionOf: string -> Option<string>,
                                               name: string,
                                             cleaned: set<string>)
    requires Partway(m, refs, left, filed, fileOf, versionOf, name, cleaned)
    ensures PackagesOk(TakeRefs(m, refs, name, cleaned), NotNamed(filed, name), fileOf)
  {
    if refs == [] {
      PackagesSettled(m, left, filed, fileOf, name, cleaned);
    } else {
      var r := refs[0];
      OneRefTaken(m, refs, left, filed, fileOf, versionOf, name, cleaned);
      if PassedOver(m, r.pkg, r.key) {
        PackagesTakenBack(m, refs[1..], left, filed, fileOf, versionOf, name, cleaned);
      } else {
        PackagesTakenBack(TakeRef(m, r, name, cleaned), refs[1..], Less(left, PkgOf, r.pkg, r.key, name), filed, fileOf,
                          versionOf, name, cleaned + {r.pkg});
      }
    }
  }

  /** A reference that changes what is seen names a package the report filed in; one it has still filed changes it. */
  lemma TookOne(m: Packages, refs: seq<PkgRef>, left: set<Filing>, filed: set<Filing>, fileOf: string -> string,
                versionOf: string -> Option<string>, name: string, cleaned: set<string>)
    requires refs != [] && Partway(m, refs, left, filed, fileOf, versionOf, name, cleaned)
    ensures Took(m, refs[0], name, cleaned) ==> FiledPackage(left, name)
    ensures (refs[0].key, name) in LinksIn(left, PkgOf, refs[0].pkg) ==> Took(m, refs[0], name, cleaned)
  {
    var r := refs[0];
    var links := LinksIn(left, PkgOf, r.pkg);
    assert PackageSlotOk(m, r.pkg, left, Swept(filed, name, r.pkg in cleaned), fileOf);
    if r.pkg in m {
      TallyHas(m[r.pkg].bucket.keyReports, links, r.key, name);
    }
    if Took(m, r, name, cleaned) {
      if name in m[r.pkg].bucket.keyReports[r.key] {
        var y := FiledBefore(left, PkgOf, r.pkg, r.key, name);
        assert y in left && PkgOf(y).Some?;
      } else {
        var repo :| repo in m[r.pkg].repoReports && m[r.pkg].repoReports[repo] == {name};
        assert name in NamesUnder(UpstreamLinks(filed, r.pkg), repo);
        assert (repo, name) in UpstreamLinks(filed, r.pkg);
        var y :| y in filed && PkgOf(y) == Some(r.pkg) && y.f.upstream.Some?
            && (y.f.upstream.value, y.name) == (repo, name);
        assert y in left;
      }
    }
  }

  /** Something changes exactly when the report had filed in a package. */
  lemma {:induction false} TookIff(m: Packages, refs: seq<PkgRef>, left: set<Filing>, filed: set<Filing>,
                                   fileOf: string -> string, versionOf: string -> Option<string>, name: string,
                                   cleaned: set<string>)
    requires Partway(m, refs, left, filed, fileOf, versionOf, name, cleaned)
    ensures TookAny(m, refs, name, cleaned) <==> FiledPackage(left, name)
  {
    if refs != [] {
      var r := refs[0];
      OneRefTaken(m, refs, left, filed, fileOf, versionOf, name, cleaned);
      TookOne(m, refs, left, filed, fileOf, versionOf, name, cleaned);
      if PassedOver(m, r.pkg, r.key) {
        TookIff(m, refs[1..], left, filed, fileOf, versionOf, name, cleaned);
      } else {
        var less := Less(left, PkgOf, r.pkg, r.key, name);
        TookIff(TakeRef(m, r, name, cleaned), refs[1..], less, filed, fileOf, versionOf, name, cleaned + {r.pkg});
        LessIff(left, PkgOf, r.pkg, r.key, name);
        assert FiledPackage(less, name) ==> FiledPackage(left, name);
      }
    }
  }

  // ---- agreement with an index built from scratch ----

  predicate SameHash(a: HashBucket, b: HashBucket) {
    a.keys == b.keys && a.reports == b.reports && OneEach(a.list) && OneEach(b.list) && SameKeys(a.list, b.list)
  }

  predicate SamePackage(a: Package, b: Package) {
    && Same(a.bucket, b.bucket) && a.repos == b.repos && a.repoReports == b.repoReports
    && a.byVersion.Keys == b.byVersion.Keys && forall v :: v in a.byVersion ==> Same(a.byVersion[v], b.byVersion[v])
  }

  lemma SameVersions(a: map<Option<string>, Bucket>, b: map<Option<string>, Bucket>, pkg: string, filed: set<Filing>,
                     fileOf: string -> string)
    requires VersionsOk(a, pkg, filed, fileOf) && VersionsOk(b, pkg, filed, fileOf)
    ensures a.Keys == b.Keys && forall v :: v in a ==> Same(a[v], b[v])
  {
    forall v ensures (v in a <==> v in b) && (v in a ==> Same(a[v], b[v])) {
      assert SlotOk(a, v, VersionLinks(filed, pkg, v), fileOf) && SlotOk(b, v, VersionLinks(filed, pkg, v), fileOf);
      if v in a { SameLinksSame(a[v], b[v], VersionLinks(filed, pkg, v), fileOf); }
    }
  }

  lemma SamePackages(a: Package, b: Package, pkg: string, filed: set<Filing>, fileOf: string -> string)
    requires PackageOk(a, pkg, filed, filed, fileOf) && PackageOk(b, pkg, filed, filed, fileOf)
    ensures SamePackage(a, b)
  {
    SameLinksSame(a.bucket, b.bucket, LinksIn(filed, PkgOf, pkg), fileOf);
    SameVersions(a.byVersion, b.byVersion, pkg, filed, fileOf);
    SameTallies(a.repoReports, b.repoReports, UpstreamLinks(filed, pkg));
  }

  /** The hash slots of any two indexes of the same filings: one by whatever history, one from scratch. */
  lemma HashesAgree(a: Hashes, b: Hashes, filed: set<Filing>)
    requires HashesOk(a, filed) && HashesOk(b, filed)
    ensures a.Keys == b.Keys && forall h :: h in a ==> SameHash(a[h], b[h]) && a[h].keys != {}
  {
    forall h ensures (h in a <==> h in b) && (h in a ==> SameHash(a[h], b[h]) && a[h].keys != {}) {
      var links := LinksIn(filed, HashOf, h);
      assert HashSlotOk(a, h, links) && HashSlotOk(b, h, links);
      if h in a {
        SameTallies(a[h].reports, b[h].reports, links);
        OneEachCounts(a[h].list);
        OneEachCounts(b[h].list);
        NoKeys(links);
      }
    }
  }

  lemma PackagesAgree(a: Packages, b: Packages, filed: set<Filing>, fileOf: string -> string)
    requires PackagesOk(a, filed, fileOf) && PackagesOk(b, filed, fileOf)
    ensures a.Keys == b.Keys && forall p :: p in a ==> SamePackage(a[p], b[p]) && a[p].bucket.keys != {}
  {
    forall p ensures (p in a <==> p in b) && (p in a ==> SamePackage(a[p], b[p]) && a[p].bucket.keys != {}) {
      assert PackageSlotOk(a, p, filed, filed, fileOf) && PackageSlotOk(b, p, filed, filed, fileOf);
      if p in a {
        SamePackages(a[p], b[p], p, filed, fileOf);
        NoKeys(LinksIn(filed, PkgOf, p));
      }
    }
  }

  lemma ReposAgree(a: map<string, Bucket>, b: map<string, Bucket>, filed: set<Filing>, fileOf: string -> string)
    requires ReposOk(a, filed, fileOf) && ReposOk(b, filed, fileOf)
    ensures a.Keys == b.Keys && forall r :: r in a ==> Same(a[r], b[r]) && a[r].keys != {}
  {
    forall r ensures (r in a <==> r in b) && (r in a ==> Same(a[r], b[r]) && a[r].keys != {}) {
      var links := LinksIn(filed, RepoOf, r);
      assert SlotOk(a, r, links, fileOf) && SlotOk(b, r, links, fileOf);
      if r in a {
        SameLinksSame(a[r], b[r], links, fileOf);
        NoKeys(links);
      }
    }
  }

  /** A package's stamped repositories are exactly those some finding filed in it still carries. */
  lemma UpstreamsExact(m: Packages, filed: set<Filing>, fileOf: string -> string, pkg: string, repo: string)
    requires PackagesOk(m, filed, fileOf) && pkg in m
    ensures repo in m[pkg].repos <==> exists x :: x in filed && PkgOf(x) == Some(pkg) && x.f.upstream == Some(repo)
  {
    assert PackageSlotOk(m, pkg, filed, filed, fileOf);
    if x :| x in filed && PkgOf(x) == Some(pkg) && x.f.upstream == Some(repo) {
      assert (repo, x.name) in UpstreamLinks(filed, pkg);
    }
  }
}
