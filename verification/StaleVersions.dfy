/**
 The package slots of the cross-report finding index when a dedupe key does not
 tell a version: one report files a finding under two versions of a package.
 invalidateName passes over a reference whose key the package has already let
 go (client/bundle-finding-index.js:380-381), and the version slot with it.
 */
module StaleVersions {
  import opened Options
  import opened FindingBuckets
  import opened FindingSlots
  import opened FindingIndex

  // ---- the keys of each package, whatever the keys tell ----

  /** The sets and tallies of each package's own bucket are those of its links. */
  ghost predicate KeysOk(m: Packages, filed: set<Filing>) {
    forall p :: PackageKeysOk(m, p, LinksIn(filed, PkgOf, p))
  }

  predicate PackageKeysOk(m: Packages, pkg: string, links: Links) {
    (pkg in m <==> links != {}) && (pkg in m ==> LinksOk(m[pkg].bucket, links))
  }

  predicate Covers(refs: seq<PkgRef>, filed: set<Filing>, name: string) {
    forall x :: x in filed && x.name == name && PkgOf(x).Some?
        ==> PkgRef(PkgOf(x).value, x.f.key, x.f.file, x.f.version) in refs
  }

  /** Filing keeps the keys of every package, with no premise on the finding. */
  lemma FilingKeepsKeys(m: Packages, filed: set<Filing>, x: Filing)
    requires KeysOk(m, filed) && PkgOf(x).Some?
    ensures KeysOk(FilePackage(m, PkgOf(x).value, x.name, x.f), filed + {x})
  {
    var pkg := PkgOf(x).value;
    var n := FilePackage(m, pkg, x.name, x.f);
    forall p ensures PackageKeysOk(n, p, LinksIn(filed + {x}, PkgOf, p)) {
      LinksWith(filed, PkgOf, p, x);
      assert PackageKeysOk(m, p, LinksIn(filed, PkgOf, p));
      if p == pkg {
        var b := if pkg in m then m[pkg].bucket else EMPTY;
        AddLinks(b, LinksIn(filed, PkgOf, p), x.name, x.f);
        assert (x.f.key, x.name) in LinksIn(filed + {x}, PkgOf, p);
      }
    }
  }

  lemma OneTakenKeepsKeys(m: Packages, filed: set<Filing>, r: PkgRef, name: string, cleaned: set<string>)
    requires KeysOk(m, filed)
    ensures if PassedOver(m, r.pkg, r.key) then Less(filed, PkgOf, r.pkg, r.key, name) == filed
            else KeysOk(TakeRef(m, r, name, cleaned), Less(filed, PkgOf, r.pkg, r.key, name))
  {
    var links := LinksIn(filed, PkgOf, r.pkg);
    assert PackageKeysOk(m, r.pkg, links);
    if PassedOver(m, r.pkg, r.key) {
      NoKeys(links);
      NothingLess(filed, PkgOf, r.pkg, r.key, name);
    } else {
      var n, less := TakeRef(m, r, name, cleaned), Less(filed, PkgOf, r.pkg, r.key, name);
      forall p ensures PackageKeysOk(n, p, LinksIn(less, PkgOf, p)) {
        LinksLess(filed, PkgOf, r.pkg, r.key, name, p);
        assert PackageKeysOk(m, p, LinksIn(filed, PkgOf, p));
        if p == r.pkg {
          TakeBackLinks(m[p].bucket, links, r.key, r.file, name);
          TakeBackEmpty(m[p].bucket, links, r.key, r.file, name);
        }
      }
    }
  }

  /** Invalidation leaves the keys of every package those of the other reports, with no premise on the findings. */
  lemma {:induction false} InvalidationKeepsKeys(m: Packages, filed: set<Filing>, refs: seq<PkgRef>, name: string,
                                                 cleaned: set<string>)
    requires KeysOk(m, filed) && Covers(refs, filed, name)
    ensures KeysOk(TakeRefs(m, refs, name, cleaned), NotNamed(filed, name))
  {
    if refs == [] {
      forall p ensures PackageKeysOk(m, p, LinksIn(NotNamed(filed, name), PkgOf, p)) {
        assert LinksIn(NotNamed(filed, name), PkgOf, p) == LinksIn(filed, PkgOf, p);
        assert PackageKeysOk(m, p, LinksIn(filed, PkgOf, p));
      }
    } else {
      var r := refs[0];
      var less := Less(filed, PkgOf, r.pkg, r.key, name);
      OneTakenKeepsKeys(m, filed, r, name, cleaned);
      assert forall q :: q in refs ==> q == r || q in refs[1..];
      assert Covers(refs[1..], less, name);
      if PassedOver(m, r.pkg, r.key) {
        InvalidationKeepsKeys(m, less, refs[1..], name, cleaned);
      } else {
        InvalidationKeepsKeys(TakeRef(m, r, name, cleaned), less, refs[1..], name, cleaned + {r.pkg});
      }
      assert NotNamed(less, name) == NotNamed(filed, name);
    }
  }

  // ---- a report listed in a version slot ----

  predicate Listed(m: Packages, pkg: string, version: Option<string>, key: string, name: string) {
    pkg in m && version in m[pkg].byVersion && name in NamesFor(m[pkg].byVersion[version].keyReports, key)
  }

  predicate At(r: PkgRef, pkg: string, key: string) {
    r.pkg == pkg && r.key == key
  }

  /** The version a package's key is first remembered under. */
  function FirstVersion(refs: seq<PkgRef>, pkg: string, key: string): Option<Option<string>> {
    if refs == [] then None else if At(refs[0], pkg, key) then Some(refs[0].version)
        else FirstVersion(refs[1..], pkg, key)
  }

  lemma SlotTakesItsOwn(m: map<Option<string>, Bucket>, r: PkgRef, name: string, version: Option<string>, key: string)
    ensures var n := Prune(m, r.version, r.key, r.file, name);
            (version in n && name in NamesFor(n[version].keyReports, key))
            <==>
            version in m && name in NamesFor(m[version].keyReports, key) && !(r.key == key && r.version == version)
  {
    if r.version == version && version in m {
      var b := TakeBack(m[version], r.key, r.file, name);
      assert Recompute(b).keyReports == b.keyReports;
      assert key != r.key && key in m[version].keyReports ==> key in b.keyReports;
    }
  }

  /** One reference takes exactly its own listing, and all of them with the package. */
  lemma RefTakesItsOwn(m: Packages, r: PkgRef, name: string, cleaned: set<string>, pkg: string,
                       version: Option<string>, key: string)
    requires !PassedOver(m, r.pkg, r.key)
    ensures var n := TakeRef(m, r, name, cleaned);
            Listed(n, pkg, version, key, name)
            <==> Listed(m, pkg, version, key, name) && pkg in n && !(At(r, pkg, key) && r.version == version)
  {
    SlotTakesItsOwn(m[r.pkg].byVersion, r, name, version, key);
  }

  /** What the package's own tally says of a key once a reference is taken. */
  lemma RefTallies(m: Packages, r: PkgRef, name: string, cleaned: set<string>, pkg: string, key: string)
    requires !PassedOver(m, r.pkg, r.key)
    ensures var n := TakeRef(m, r, name, cleaned);
            && (PassedOver(m, pkg, key) ==> PassedOver(n, pkg, key))
            && (pkg in n ==> pkg in m)
            && (!PassedOver(m, pkg, key) && !At(r, pkg, key)
                ==> !PassedOver(n, pkg, key) && n[pkg].bucket.keyReports[key] == m[pkg].bucket.keyReports[key])
            && (At(r, pkg, key) && m[pkg].bucket.keyReports[key] - {name} != {}
                ==> !PassedOver(n, pkg, key) && n[pkg].bucket.keyReports[key] == m[pkg].bucket.keyReports[key] - {name})
            && (At(r, pkg, key) && m[pkg].bucket.keyReports[key] - {name} == {} ==> PassedOver(n, pkg, key))
  {
    var b := TakeBack(m[r.pkg].bucket, r.key, r.file, name);
    assert Recompute(b).keyReports == b.keyReports;
    if r.pkg == pkg && !PassedOver(m, pkg, key) && !At(r, pkg, key) {
      assert key in b.keyReports;
    }
  }

  lemma {:induction false} UnlistedStays(m: Packages, refs: seq<PkgRef>, name: string, cleaned: set<string>,
                                         pkg: string,
                                         version: Option<string>, key: string)
    requires !Listed(m, pkg, version, key, name)
    ensures !Listed(TakeRefs(m, refs, name, cleaned), pkg, version, key, name)
  {
    if refs != [] {
      if PassedOver(m, refs[0].pkg, refs[0].key) {
        UnlistedStays(m, refs[1..], name, cleaned, pkg, version, key);
      } else {
        RefTakesItsOwn(m, refs[0], name, cleaned, pkg, version, key);
        UnlistedStays(TakeRef(m, refs[0], name, cleaned), refs[1..], name, cleaned + {refs[0].pkg}, pkg, version, key);
      }
    }
  }

  /** A key the package has let go: its listings stay as long as the package does. */
  lemma {:induction false} PassedOverStays(m: Packages, refs: seq<PkgRef>, name: string, cleaned: set<string>,
                                           pkg: string,
                                           version: Option<string>, key: string)
    requires PassedOver(m, pkg, key)
    ensures var n := TakeRefs(m, refs, name, cleaned);
            (pkg in n ==> pkg in m)
            && (Listed(n, pkg, version, key, name) <==> Listed(m, pkg, version, key, name) && pkg in n)
  {
    if refs != [] {
      var r := refs[0];
      if PassedOver(m, r.pkg, r.key) {
        PassedOverStays(m, refs[1..], name, cleaned, pkg, version, key);
      } else {
        RefTakesItsOwn(m, r, name, cleaned, pkg, version, key);
        RefTallies(m, r, name, cleaned, pkg, key);
        PassedOverStays(TakeRef(m, r, name, cleaned), refs[1..], name, cleaned + {r.pkg}, pkg, version, key);
      }
    }
  }

  predicate Remembered(refs: seq<PkgRef>, pkg: string, version: Option<string>, key: string) {
    exists r :: r in refs && At(r, pkg, key) && r.version == version
  }

  /** A key another report holds is never passed over, so each of its listings is taken. */
  lemma {:induction false} HeldKeyGoes(m: Packages, refs: seq<PkgRef>, name: string, cleaned: set<string>, pkg: string,
                                       version: Option<string>, key: string)
    requires !PassedOver(m, pkg, key) && m[pkg].bucket.keyReports[key] - {name} != {}
    requires Remembered(refs, pkg, version, key)
    ensures !Listed(TakeRefs(m, refs, name, cleaned), pkg, version, key, name)
  {
    var r := refs[0];
    assert forall q :: q in refs ==> q == r || q in refs[1..];
    if PassedOver(m, r.pkg, r.key) {
      HeldKeyGoes(m, refs[1..], name, cleaned, pkg, version, key);
    } else {
      var n := TakeRef(m, r, name, cleaned);
      RefTakesItsOwn(m, r, name, cleaned, pkg, version, key);
      RefTallies(m, r, name, cleaned, pkg, key);
      if At(r, pkg, key) && r.version == version {
        UnlistedStays(n, refs[1..], name, cleaned + {r.pkg}, pkg, version, key);
      } else {
        HeldKeyGoes(n, refs[1..], name, cleaned + {r.pkg}, pkg, version, key);
      }
    }
  }

  /** A key the report alone holds is let go with the first version, so another's listing is passed over. */
  lemma {:induction false} OwnKeyStays(m: Packages, refs: seq<PkgRef>, name: string, cleaned: set<string>, pkg: string,
                                       version: Option<string>, key: string)
    requires !PassedOver(m, pkg, key) && m[pkg].bucket.keyReports[key] - {name} == {}
    requires Remembered(refs, pkg, version, key) && Listed(m, pkg, version, key, name)
    ensures var n := TakeRefs(m, refs, name, cleaned);
            Listed(n, pkg, version, key, name) <==> pkg in n && FirstVersion(refs, pkg, key) != Some(version)
  {
    var r := refs[0];
    assert forall q :: q in refs ==> q == r || q in refs[1..];
    if PassedOver(m, r.pkg, r.key) {
      OwnKeyStays(m, refs[1..], name, cleaned, pkg, version, key);
    } else {
      var n := TakeRef(m, r, name, cleaned);
      RefTakesItsOwn(m, r, name, cleaned, pkg, version, key);
      RefTallies(m, r, name, cleaned, pkg, key);
      if At(r, pkg, key) && r.version == version {
        UnlistedStays(n, refs[1..], name, cleaned + {r.pkg}, pkg, version, key);
      } else if At(r, pkg, key) {
        PassedOverStays(n, refs[1..], name, cleaned + {r.pkg}, pkg, version, key);
      } else {
        OwnKeyStays(n, refs[1..], name, cleaned + {r.pkg}, pkg, version, key);
      }
    }
  }

  // ---- exactly when a listing outlives its report ----

  predicate OthersFile(filed: set<Filing>, name: string, pkg: string) {
    exists x :: x in filed && x.name != name && PkgOf(x) == Some(pkg)
  }

  predicate OthersHold(filed: set<Filing>, name: string, pkg: string, key: string) {
    exists x :: x in filed && x.name != name && PkgOf(x) == Some(pkg) && x.f.key == key
  }

  lemma PackageLeftIff(n: Packages, filed: set<Filing>, name: string, pkg: string)
    requires KeysOk(n, NotNamed(filed, name))
    ensures pkg in n <==> OthersFile(filed, name, pkg)
  {
    var left := NotNamed(filed, name);
    assert PackageKeysOk(n, pkg, LinksIn(left, PkgOf, pkg));
    if pkg in n {
      var p :| p in LinksIn(left, PkgOf, pkg);
      var x := FiledBefore(left, PkgOf, pkg, p.0, p.1);
      assert x in filed && x.name != name;
    }
    if x :| x in filed && x.name != name && PkgOf(x) == Some(pkg) {
      assert x in left && (x.f.key, x.name) in LinksIn(left, PkgOf, pkg);
    }
  }

  lemma HeldByOthersIff(m: Packages, filed: set<Filing>, name: string, pkg: string, key: string, x: Filing)
    requires KeysOk(m, filed) && x in filed && PkgOf(x) == Some(pkg) && x.f.key == key
    ensures !PassedOver(m, pkg, key)
    ensures m[pkg].bucket.keyReports[key] - {name} != {} <==> OthersHold(filed, name, pkg, key)
  {
    var links := LinksIn(filed, PkgOf, pkg);
    assert PackageKeysOk(m, pkg, links);
    assert (key, x.name) in links && key in KeysOf(links);
    var names := m[pkg].bucket.keyReports[key];
    if names - {name} != {} {
      var n :| n in names && n != name;
      assert (key, n) in links;
      var y := FiledBefore(filed, PkgOf, pkg, key, n);
      assert y.name != name;
      assert OthersHold(filed, name, pkg, key);
    }
    if y :| y in filed && y.name != name && PkgOf(y) == Some(pkg) && y.f.key == key {
      assert (key, y.name) in links && y.name in NamesUnder(links, key);
      assert y.name in names - {name};
    }
  }

  /**
   After its report is invalidated a version slot still lists it under a key exactly when another report still
   files in the package, none of them files the key there, and the report had filed the key under another
   version of the package first.
   */
  lemma ListingOutlivesReportIff(m: Packages, filed: set<Filing>, refs: seq<PkgRef>, name: string, x: Filing)
    requires KeysOk(m, filed) && Covers(refs, filed, name)
    requires x in filed && x.name == name && PkgOf(x).Some? && Listed(m, PkgOf(x).value, x.f.version, x.f.key, name)
    ensures var pkg := PkgOf(x).value;
            Listed(TakeRefs(m, refs, name, {}), pkg, x.f.version, x.f.key, name)
            <==> OthersFile(filed, name, pkg) && !OthersHold(filed, name, pkg, x.f.key)
                 && FirstVersion(refs, pkg, x.f.key) != Some(x.f.version)
  {
    var pkg, key, version := PkgOf(x).value, x.f.key, x.f.version;
    var r := PkgRef(pkg, key, x.f.file, version);
    assert r in refs && At(r, pkg, key);
    InvalidationKeepsKeys(m, filed, refs, name, {});
    PackageLeftIff(TakeRefs(m, refs, name, {}), filed, name, pkg);
    HeldByOthersIff(m, filed, name, pkg, key, x);
    if OthersHold(filed, name, pkg, key) {
      HeldKeyGoes(m, refs, name, {}, pkg, version, key);
    } else {
      OwnKeyStays(m, refs, name, {}, pkg, version, key);
    }
  }

  // ---- an input ----

  function Installed(key: string, version: string): Finding {
    Finding(key, "node_modules/p/a.js", None, Some("p"), Some(version), None, true, 0)
  }

  const K1 := Filing("r", Installed("k", "1"), None)
  const K2 := Filing("r", Installed("k", "2"), None)
  const Q1 := Filing("s", Installed("q", "1"), None)

  /** What filing the three in turn makes of an index with no package, and what it remembers of r. */
  const INSTALLED: Packages :=
    FilePackage(FilePackage(FilePackage(map[], "p", "r", K1.f), "p", "r", K2.f), "p", "s", Q1.f)

  const OF_R := [PkgRef("p", "k", K1.f.file, K1.f.version), PkgRef("p", "k", K2.f.file, K2.f.version)]

  lemma NothingFiled()
    ensures KeysOk(map[], {})
  {
    var none: set<Filing> := {};
    forall p ensures PackageKeysOk(map[], p, LinksIn(none, PkgOf, p)) { assert LinksIn(none, PkgOf, p) == {}; }
  }

  lemma InstalledKeys()
    ensures KeysOk(INSTALLED, {K1, K2, Q1})
  {
    NothingFiled();
    assert {K1} + {K2} == {K1, K2} && {} + {K1} == {K1} && {K1, K2} + {Q1} == {K1, K2, Q1};
    assert |K1.f.file| > 0 && PkgOf(K1) == Some("p");
    FilingKeepsKeys(map[], {}, K1);
    FilingKeepsKeys(FilePackage(map[], "p", "r", K1.f), {K1}, K2);
    FilingKeepsKeys(FilePackage(FilePackage(map[], "p", "r", K1.f), "p", "r", K2.f), {K1, K2}, Q1);
  }

  lemma FiledInSlot(m: Packages, pkg: string, name: string, f: Finding)
    ensures Listed(FilePackage(m, pkg, name, f), pkg, f.version, f.key, name)
  {
  }

  /** Another version filed leaves a slot's listings alone. */
  lemma OtherVersionFiled(m: Packages, pkg: string, name: string, f: Finding, version: Option<string>, key: string,
                          other: string)
    requires Listed(m, pkg, version, key, other) && f.version != version
    ensures Listed(FilePackage(m, pkg, name, f), pkg, version, key, other)
  {
  }

  lemma ListedWhenInstalled()
    ensures Listed(INSTALLED, "p", Some("2"), "k", "r")
  {
    assert "1"[0] != "2"[0];
    FiledInSlot(FilePackage(map[], "p", "r", K1.f), "p", "r", K2.f);
    OtherVersionFiled(FilePackage(FilePackage(map[], "p", "r", K1.f), "p", "r", K2.f), "p", "s", Q1.f, Some("2"), "k",
      "r");
  }

  lemma OnlyRHoldsK()
    ensures OthersFile({K1, K2, Q1}, "r", "p") && !OthersHold({K1, K2, Q1}, "r", "p", "k")
    ensures FirstVersion(OF_R, "p", "k") != Some(K2.f.version)
  {
    assert "1"[0] != "2"[0] && "r"[0] != "s"[0] && "k"[0] != "q"[0];
    assert Q1 in {K1, K2, Q1} && |Q1.f.file| > 0;
  }

  /** r files k under versions 1 and 2 of p, s files q in p: with r invalidated, p's version 2 still lists r. */
  lemma InvalidatedReportStaysListed()
    ensures Listed(TakeRefs(INSTALLED, OF_R, "r", {}), "p", Some("2"), "k", "r")
  {
    InstalledKeys();
    ListedWhenInstalled();
    OnlyRHoldsK();
    assert OF_R[0] in OF_R && OF_R[1] in OF_R;
    assert Q1.name[0] != "r"[0] && |K2.f.file| > 0;
    ListingOutlivesReportIff(INSTALLED, {K1, K2, Q1}, OF_R, "r", K2);
  }
}
