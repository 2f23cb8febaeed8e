/**
 The comparison as it runs, and what its totals and lists come to
 (common/bundle-compare-diff.js:220-373).
 */
module BundleCompare {
  import opened Options
  import opened BundleDiff

  // ---- the base's files as the other bundle lays them out ----

  /** Each of the base's paths as the other would have it, no two the same. */
  predicate Layout(base: Files, paths: map<string, string>) {
    paths.Keys == base.Keys && forall a, b :: a in paths && b in paths && paths[a] == paths[b] ==> a == b
  }

  function LaidOut(base: Files, paths: map<string, string>): Files
    requires Layout(base, paths)
  {
    map from | from in base :: paths[from] := base[from]
  }

  lemma LaidOutKeepsAll(base: Files, paths: map<string, string>)
    requires Layout(base, paths)
    ensures |LaidOut(base, paths)| == |base|
    ensures forall from :: from in base ==>
              paths[from] in LaidOut(base, paths) && LaidOut(base, paths)[paths[from]] == base[from]
  {
    OneToOneCounts(paths);
    assert LaidOut(base, paths).Keys == paths.Values;
    assert |paths.Keys| == |base.Keys|;
  }

  // ---- the outcome ----

  /** The passes, then the renamed rows out of the one-sided lists. */
  function Outcome(s: Sides, paths: seq<string>, renames: map<string, string>, order: seq<string>): Diff
    requires OnSides(s, paths) && Pairing(s, renames) && forall from :: from in order ==> from in renames
  {
    var d := WithRenames(s, Compared(s, paths), renames, order);
    d.(onlyBase := Left(d.onlyBase, renames.Keys), onlyOther := Left(d.onlyOther, renames.Values))
  }

  ghost predicate Asked(s: Sides, paths: seq<string>, renames: map<string, string>, order: seq<string>) {
    && OnSides(s, paths) && Lists(paths, All(s))
    && Pairing(s, renames) && Lists(order, renames.Keys)
  }

  /** The rows: one for each file one side alone has and no rename explains; one for each file changed or renamed. */
  lemma OutcomeRows(s: Sides, paths: seq<string>, renames: map<string, string>, order: seq<string>)
    requires Asked(s, paths, renames, order)
    ensures var d := Outcome(s, paths, renames, order);
            && RowsAre(d.onlyBase, s.base, s.size, OnlyBase(s, All(s)) - renames.Keys)
            && RowsAre(d.onlyOther, s.other, s.size, OnlyOther(s, All(s)) - renames.Values)
            && ChangedAre(s, d.changed, Differing(s, All(s)), renames)
            && d.unchangedFiles == |Alike(s, All(s))|
  {
    ComparedSettles(s, paths, All(s));
    var c := Compared(s, paths);
    RenamesLeave(s, c, renames, order);
    RenamesChange(s, c, renames, order, renames);
    LeftAre(c.onlyBase, s.base, s.size, OnlyBase(s, All(s)), renames.Keys);
    LeftAre(c.onlyOther, s.other, s.size, OnlyOther(s, All(s)), renames.Values);
  }

  /** The bytes: each side's in all, what each alone has, and a delta that adds up. */
  lemma OutcomeBytes(s: Sides, paths: seq<string>, renames: map<string, string>, order: seq<string>)
    requires Asked(s, paths, renames, order)
    ensures var d := Outcome(s, paths, renames, order);
            && d.baseBytes == Bytes(s.base, s.size, All(s)) && d.otherBytes == Bytes(s.other, s.size, All(s))
            && BytesLeft(s, d, renames.Keys, renames.Values)
            && Balanced(d)
  {
    ComparedSettles(s, paths, All(s));
    var c := Compared(s, paths);
    RenamesBalance(s, c, renames, order);
    RenamesLeave(s, c, renames, order);
    NoneLeft(s, c);
    RenamesBytes(s, c, renames, order, renames);
  }

  lemma OutcomePkgs(s: Sides, paths: seq<string>, renames: map<string, string>, order: seq<string>)
    requires Asked(s, paths, renames, order)
    ensures PkgsOk(s, All(s), Outcome(s, paths, renames, order).pkgs, renames.Keys)
  {
    ComparedSettles(s, paths, All(s));
    RenamesPkgs(s, Compared(s, paths), renames, order, renames.Keys);
  }

  lemma {:induction false} OneToOneCounts(renames: map<string, string>)
    requires OneToOne(renames)
    ensures |renames.Values| == |renames|
    decreases |renames|
  {
    if renames != map[] {
      var from :| from in renames;
      var less := Dropped(renames, renames, from);
      OneToOneCounts(less);
      assert |renames.Keys| == |less.Keys| + 1;
    } else {
      assert renames.Values == {};
    }
  }

  lemma Disjoint3(a: set<string>, b: set<string>, c: set<string>, all: set<string>)
    requires a !! b && (a + b) !! c && all == a + b + c
    ensures |all| == |a| + |b| + |c|
  {
    assert |a + b| == |a| + |b|;
  }

  lemma CountLess(a: set<string>, b: set<string>)
    requires b <= a
    ensures |a - b| == |a| - |b|
  {
    assert a == (a - b) + b;
  }

  lemma BasePaths(s: Sides)
    ensures s.base.Keys == OnlyBase(s, All(s)) + Differing(s, All(s)) + Alike(s, All(s))
  {
    var all := All(s);
    forall p | p in s.base.Keys ensures p in OnlyBase(s, all) + Differing(s, all) + Alike(s, all) {
      assert p in all;
      if p in s.other && !Unchanged(s, p) { assert p in Differing(s, all); }
    }
  }

  lemma OtherPaths(s: Sides)
    ensures s.other.Keys == OnlyOther(s, All(s)) + Differing(s, All(s)) + Alike(s, All(s))
  {
    var all := All(s);
    forall p | p in s.other.Keys ensures p in OnlyOther(s, all) + Differing(s, all) + Alike(s, all) {
      assert p in all;
      if p in s.base && !Unchanged(s, p) { assert p in Differing(s, all); }
    }
  }

  /** Every path is one side's alone, differing, or alike. */
  lemma BaseSplit(s: Sides)
    ensures |s.base| == |OnlyBase(s, All(s))| + |Differing(s, All(s))| + |Alike(s, All(s))|
  {
    BasePaths(s);
    Disjoint3(OnlyBase(s, All(s)), Differing(s, All(s)), Alike(s, All(s)), s.base.Keys);
  }

  lemma OtherSplit(s: Sides)
    ensures |s.other| == |OnlyOther(s, All(s))| + |Differing(s, All(s))| + |Alike(s, All(s))|
  {
    OtherPaths(s);
    Disjoint3(OnlyOther(s, All(s)), Differing(s, All(s)), Alike(s, All(s)), s.other.Keys);
  }

  lemma RenamesSplit(s: Sides, renames: map<string, string>)
    requires Pairing(s, renames)
    ensures |OnlyBase(s, All(s)) - renames.Keys| == |OnlyBase(s, All(s))| - |renames|
    ensures |OnlyOther(s, All(s)) - renames.Values| == |OnlyOther(s, All(s))| - |renames|
  {
    OneToOneCounts(renames);
    assert renames.Keys <= OnlyBase(s, All(s));
    assert renames.Values <= OnlyOther(s, All(s));
    CountLess(OnlyBase(s, All(s)), renames.Keys);
    CountLess(OnlyOther(s, All(s)), renames.Values);
    assert |renames.Keys| == |renames|;
  }

  /** No file of either bundle is lost or counted twice: each is one side's alone, changed or renamed, or unchanged. */
  lemma FilesConserved(s: Sides, paths: seq<string>, renames: map<string, string>, order: seq<string>)
    requires Asked(s, paths, renames, order)
    ensures var d := Outcome(s, paths, renames, order);
            && |s.base| == |d.onlyBase| + |d.changed| + d.unchangedFiles
            && |s.other| == |d.onlyOther| + |d.changed| + d.unchangedFiles
  {
    OutcomeRows(s, paths, renames, order);
    BaseSplit(s);
    OtherSplit(s);
    RenamesSplit(s, renames);
  }

  predicate Identical(d: Diff) {
    d.onlyBase == [] && d.onlyOther == [] && d.changed == []
  }

  /** Identical exactly when the laid-out files are the same, content by content, and recorded alike. */
  lemma IdenticalIff(s: Sides, paths: seq<string>, renames: map<string, string>, order: seq<string>)
    requires Asked(s, paths, renames, order)
    ensures Identical(Outcome(s, paths, renames, order)) <==>
              s.base == s.other && forall p :: p in s.base ==>
                  MetaChanges(s.baseMeta(s.baseFile(p)), s.otherMeta(p)) == []
  {
    OutcomeRows(s, paths, renames, order);
    AllUnchangedIff(s);
    if Identical(Outcome(s, paths, renames, order)) {
      assert |renames| == 0 && renames == map[];
      assert renames.Keys == {} && renames.Values == {};
      assert OnlyBase(s, All(s)) == {} && OnlyOther(s, All(s)) == {} && Differing(s, All(s)) == {};
    }
  }

  lemma AllUnchangedIff(s: Sides)
    ensures OnlyBase(s, All(s)) == {} && OnlyOther(s, All(s)) == {} && Differing(s, All(s)) == {} <==>
              s.base == s.other && forall p :: p in s.base ==>
                  MetaChanges(s.baseMeta(s.baseFile(p)), s.otherMeta(p)) == []
  {
    var all := All(s);
    if OnlyBase(s, all) == {} && OnlyOther(s, all) == {} && Differing(s, all) == {} {
      forall p | p in all ensures Unchanged(s, p) {
        assert p !in OnlyBase(s, all) && p !in OnlyOther(s, all) && p !in Differing(s, all);
      }
      assert forall p :: p in s.base ==> p in all;
      assert forall p :: p in s.other ==> p in all;
    }
  }

  /** The difference in bytes is what only the other bundle has, less what only the base has, and the changes. */
  lemma ByteDeltaAddsUp(s: Sides, paths: seq<string>, renames: map<string, string>, order: seq<string>)
    requires Asked(s, paths, renames, order)
    ensures var d := Outcome(s, paths, renames, order);
            && Bytes(s.other, s.size, All(s)) - Bytes(s.base, s.size, All(s))
              == d.onlyOtherBytes - d.onlyBaseBytes + Deltas(d.changed)
            && d.onlyBaseBytes == RowBytes(d.onlyBase) && d.onlyOtherBytes == RowBytes(d.onlyOther)
  {
    OutcomeBytes(s, paths, renames, order);
    OutcomeRows(s, paths, renames, order);
    var d := Outcome(s, paths, renames, order);
    RowsSum(d.onlyBase, s.base, s.size, OnlyBase(s, All(s)) - renames.Keys);
    RowsSum(d.onlyOther, s.other, s.size, OnlyOther(s, All(s)) - renames.Values);
  }

  lemma {:induction false} RowsSum(rows: seq<Row>, files: Files, size: Content -> nat, paths: set<string>)
    requires RowsAre(rows, files, size, paths)
    ensures RowBytes(rows) == Bytes(files, size, paths)
  {
    if rows == [] {
      assert paths == {};
    } else {
      var init, last := rows[..|rows| - 1], rows[|rows| - 1];
      assert forall i :: 0 <= i < |init| ==> init[i] == rows[i];
      assert last.path in paths;
      RowsSum(init, files, size, paths - {last.path});
      BytesAdd(files, size, paths, last.path);
    }
  }

  // ---- packages ----

  datatype Class = OnBase | OnOther | Moved | Still

  /** Present on a side if any of its files counted there. */
  function Classify(acc: Acc): Class {
    var onBase := acc.baseBytes > 0 || acc.onlyBaseFiles > 0 || acc.changedFiles > 0;
    var onOther := acc.otherBytes > 0 || acc.onlyOtherFiles > 0 || acc.changedFiles > 0;
    if onBase && !onOther then OnBase
    else if onOther && !onBase then OnOther
    else if acc.onlyBaseFiles + acc.onlyOtherFiles + acc.changedFiles > 0 || acc.baseBytes != acc.otherBytes then Moved
    else Still
  }

  datatype PkgRow = PkgRow(pkg: string, baseBytes: nat, otherBytes: nat)

  /** The packages of one list, in the order they came. */
  function InClass(pkgs: map<string, Acc>, order: seq<string>, c: Class): seq<PkgRow>
    requires forall k :: k in order ==> k in pkgs
  {
    if order == [] then []
    else
      var k := order[|order| - 1];
      assert k in order;
      InClass(pkgs, order[..|order| - 1], c) + if Classify(pkgs[k]) == c
        then [PkgRow(k, pkgs[k].baseBytes, pkgs[k].otherBytes)] else []
  }

  function BaseTotal(rows: seq<PkgRow>): nat {
    if rows == [] then 0 else BaseTotal(rows[..|rows| - 1]) + rows[|rows| - 1].baseBytes
  }

  function OtherTotal(rows: seq<PkgRow>): nat {
    if rows == [] then 0 else OtherTotal(rows[..|rows| - 1]) + rows[|rows| - 1].otherBytes
  }

  lemma TotalsPush(rows: seq<PkgRow>, row: PkgRow)
    ensures BaseTotal(rows + [row]) == BaseTotal(rows) + row.baseBytes
              && OtherTotal(rows + [row]) == OtherTotal(rows) + row.otherBytes
  {
    assert (rows + [row])[..|rows|] == rows;
  }

  lemma InClassStep(pkgs: map<string, Acc>, order: seq<string>, c: Class)
    requires order != [] && forall k :: k in order ==> k in pkgs
    ensures var n := |order| - 1; var k := order[n];
            && (forall j :: j in order[..n] ==> j in pkgs) && k in pkgs
            && BaseTotal(InClass(pkgs, order, c))
              == BaseTotal(InClass(pkgs, order[..n], c)) + (if Classify(pkgs[k]) == c then pkgs[k].baseBytes else 0)
            && OtherTotal(InClass(pkgs, order, c))
              == OtherTotal(InClass(pkgs, order[..n], c)) + (if Classify(pkgs[k]) == c then pkgs[k].otherBytes else 0)
  {
    var n := |order| - 1;
    var k := order[n];
    assert k in order && forall j :: j in order[..n] ==> j in order;
    var init := InClass(pkgs, order[..n], c);
    assert init + [] == init;
    TotalsPush(init, PkgRow(k, pkgs[k].baseBytes, pkgs[k].otherBytes));
  }

  lemma {:induction false} InClassOf(pkgs: map<string, Acc>, less: map<string, Acc>, order: seq<string>, c: Class)
    requires (forall k :: k in order ==> k in pkgs && k in less && pkgs[k] == less[k])
    ensures InClass(pkgs, order, c) == InClass(less, order, c)
  {
    if order != [] {
      assert order[|order| - 1] in order && forall j :: j in order[..|order| - 1] ==> j in order;
      InClassOf(pkgs, less, order[..|order| - 1], c);
    }
  }

  /** The four lists' bytes, side by side, are the packages' in all. */
  lemma {:induction false} ClassesSum(pkgs: map<string, Acc>, order: seq<string>)
    requires Lists(order, pkgs.Keys)
    ensures BaseSum(pkgs) == BaseTotal(InClass(pkgs, order, OnBase)) + BaseTotal(InClass(pkgs, order, OnOther))
                             + BaseTotal(InClass(pkgs, order, Moved)) + BaseTotal(InClass(pkgs, order, Still))
    ensures OtherSum(pkgs) == OtherTotal(InClass(pkgs, order, OnBase)) + OtherTotal(InClass(pkgs, order, OnOther))
                              + OtherTotal(InClass(pkgs, order, Moved)) + OtherTotal(InClass(pkgs, order, Still))
    ensures BaseTotal(InClass(pkgs, order, OnOther)) == 0 && OtherTotal(InClass(pkgs, order, OnBase)) == 0
  {
    if order == [] {
      assert pkgs == map[];
    } else {
      var n := |order| - 1;
      var k, less := order[n], pkgs - {order[n]};
      ListsLess(order, pkgs.Keys);
      assert less.Keys == pkgs.Keys - {k};
      ClassesSum(less, order[..n]);
      SumsSplit(pkgs, k);
      InClassStep(pkgs, order, OnBase);
      InClassStep(pkgs, order, OnOther);
      InClassStep(pkgs, order, Moved);
      InClassStep(pkgs, order, Still);
      InClassOf(pkgs, less, order[..n], OnBase);
      InClassOf(pkgs, less, order[..n], OnOther);
      InClassOf(pkgs, less, order[..n], Moved);
      InClassOf(pkgs, less, order[..n], Still);
    }
  }

  /** Every package of either bundle's files has an account, and is in the list of its class alone. */
  lemma PackagesConserved(s: Sides, paths: seq<string>, renames: map<string, string>, order: seq<string>,
                          pkgOrder: seq<string>)
    requires Asked(s, paths, renames, order) && Lists(pkgOrder, Outcome(s, paths, renames, order).pkgs.Keys)
    ensures var d := Outcome(s, paths, renames, order);
            && (forall k :: k in d.pkgs <==> exists p :: p in All(s) && s.pkgOf(p) == k)
            && d.baseBytes == BaseTotal(InClass(d.pkgs, pkgOrder, OnBase))
              + BaseTotal(InClass(d.pkgs, pkgOrder, Moved)) + BaseTotal(InClass(d.pkgs, pkgOrder, Still))
            && d.otherBytes == OtherTotal(InClass(d.pkgs, pkgOrder, OnOther))
              + OtherTotal(InClass(d.pkgs, pkgOrder, Moved)) + OtherTotal(InClass(d.pkgs, pkgOrder, Still))
  {
    OutcomeBytes(s, paths, renames, order);
    OutcomePkgs(s, paths, renames, order);
    var d := Outcome(s, paths, renames, order);
    ClassesSum(d.pkgs, pkgOrder);
    forall k | k in d.pkgs ensures exists p :: p in All(s) && s.pkgOf(p) == k {
      assert OfPkg(s, All(s), k) != {};
      var p :| p in OfPkg(s, All(s), k);
    }
  }

  lemma {:induction false} InClassOnce(pkgs: map<string, Acc>, order: seq<string>, c: Class, k: string)
    requires Lists(order, pkgs.Keys)
    ensures (exists i :: 0 <= i < |InClass(pkgs, order, c)| && InClass(pkgs, order, c)[i].pkg == k)
              <==> k in pkgs && Classify(pkgs[k]) == c
    ensures forall i, j :: 0 <= i < j < |InClass(pkgs, order, c)|
              ==> InClass(pkgs, order, c)[i].pkg != InClass(pkgs, order, c)[j].pkg
  {
    if order != [] {
      var n := |order| - 1;
      var last, less := order[n], pkgs - {order[n]};
      ListsLess(order, pkgs.Keys);
      assert less.Keys == pkgs.Keys - {last};
      InClassOf(pkgs, less, order[..n], c);
      InClassOnce(less, order[..n], c, k);
      InClassOnce(less, order[..n], c, last);
      var init := InClass(pkgs, order[..n], c);
      assert init + [] == init;
      forall i | 0 <= i < |init| ensures init[i].pkg != last {}
      if k == last && Classify(pkgs[k]) == c { assert InClass(pkgs, order, c)[|init|].pkg == k; }
      if k != last && k in pkgs && Classify(pkgs[k]) == c {
        var i :| 0 <= i < |init| && init[i].pkg == k;
        assert InClass(pkgs, order, c)[i].pkg == k;
      }
    }
  }

  // ---- where the class is not what the files say ----

  lemma {:induction false} NoBytesIff(files: Files, size: Content -> nat, paths: set<string>)
    ensures Bytes(files, size, paths) == 0 <==> forall p :: p in paths && p in files ==> size(files[p]) == 0
    decreases |paths|
  {
    if paths != {} {
      var p :| p in paths;
      NoBytesIff(files, size, paths - {p});
      BytesAdd(files, size, paths, p);
    }
  }

  /** What the other bundle has of a package is there unchanged, in files of no bytes. */
  predicate OnlyEmptyThere(s: Sides, pkg: string) {
    forall p :: p in s.other && s.pkgOf(p) == pkg ==> Unchanged(s, p) && s.size(s.other[p]) == 0
  }

  /** A file of the package that the base alone has and no rename explains. */
  predicate GoneThere(s: Sides, pkg: string, renames: map<string, string>) {
    exists p :: p in s.base && s.pkgOf(p) == pkg && p !in s.other && p !in renames
  }

  lemma NotOnOtherIff(s: Sides, acc: Acc, pkg: string, renames: map<string, string>)
    requires Pairing(s, renames) && AccOk(s, All(s), acc, pkg, renames.Keys)
    ensures acc.otherBytes == 0 && acc.onlyOtherFiles <= 0 && acc.changedFiles == 0 <==> OnlyEmptyThere(s, pkg)
    ensures OnlyEmptyThere(s, pkg) ==> OfPkg(s, renames.Keys, pkg) == {}
  {
    var all := All(s);
    NoBytesIff(s.other, s.size, OfPkg(s, all, pkg));
    if acc.otherBytes == 0 && acc.onlyOtherFiles <= 0 && acc.changedFiles == 0 {
      forall p | p in s.other && s.pkgOf(p) == pkg ensures Unchanged(s, p) && s.size(s.other[p]) == 0 {
        assert p in OfPkg(s, all, pkg);
        assert p !in OfPkg(s, OnlyOther(s, all), pkg) && p !in OfPkg(s, Differing(s, all), pkg);
      }
    }
    if OnlyEmptyThere(s, pkg) {
      assert OfPkg(s, OnlyOther(s, all), pkg) == {} && OfPkg(s, Differing(s, all), pkg) == {};
      forall from | from in renames ensures s.pkgOf(from) != pkg {
        assert renames[from] in s.other && !Unchanged(s, renames[from]);
      }
      assert forall p :: p in OfPkg(s, all, pkg) && p in s.other ==> s.size(s.other[p]) == 0;
    }
  }

  lemma OnBaseIff(s: Sides, acc: Acc, pkg: string, renames: map<string, string>)
    requires Pairing(s, renames) && AccOk(s, All(s), acc, pkg, renames.Keys) && OnlyEmptyThere(s, pkg)
    requires OfPkg(s, renames.Keys, pkg) == {} && acc.changedFiles == 0
    ensures acc.baseBytes > 0 || acc.onlyBaseFiles > 0 <==> GoneThere(s, pkg, renames)
  {
    var alone := OfPkg(s, OnlyBase(s, All(s)), pkg);
    NoBytesIff(s.base, s.size, OfPkg(s, All(s), pkg));
    if alone == {} {
      forall p | p in OfPkg(s, All(s), pkg) && p in s.base ensures s.size(s.base[p]) == 0 {
        assert p !in alone && p in s.other && Unchanged(s, p);
      }
    } else {
      var p :| p in alone;
      assert p !in OfPkg(s, renames.Keys, pkg);
    }
    if GoneThere(s, pkg, renames) {
      var p :| p in s.base && s.pkgOf(p) == pkg && p !in s.other && p !in renames;
      assert p in alone;
    }
  }

  lemma OnBaseOfAcc(acc: Acc)
    ensures Classify(acc) == OnBase <==> (acc.baseBytes > 0 || acc.onlyBaseFiles > 0)
                                         && acc.otherBytes == 0 && acc.onlyOtherFiles <= 0 && acc.changedFiles == 0
  {
  }

  lemma ClassOnBaseIff(s: Sides, pkgs: map<string, Acc>, renames: map<string, string>, pkg: string)
    requires Pairing(s, renames) && PkgsOk(s, All(s), pkgs, renames.Keys)
    ensures pkg in pkgs && Classify(pkgs[pkg]) == OnBase <==> OnlyEmptyThere(s, pkg) && GoneThere(s, pkg, renames)
  {
    var acc := AccOf(pkgs, pkg);
    assert AccOk(s, All(s), acc, pkg, renames.Keys);
    OnBaseOfAcc(acc);
    NotOnOtherIff(s, acc, pkg, renames);
    if OnlyEmptyThere(s, pkg) { OnBaseIff(s, acc, pkg, renames); }
    if GoneThere(s, pkg, renames) {
      var p :| p in s.base && s.pkgOf(p) == pkg && p !in s.other && p !in renames;
      assert p in All(s);
    }
  }

  /**
   A package is listed as the base's alone exactly when all the other has of it is empty files that did not
   change, and some file of the base's is neither there nor renamed. So one the other bundle does have files of
   can be listed as missing there.
   */
  lemma ListedBaseOnlyIff(s: Sides, paths: seq<string>, renames: map<string, string>, order: seq<string>, pkg: string)
    requires Asked(s, paths, renames, order)
    ensures var d := Outcome(s, paths, renames, order);
            pkg in d.pkgs && Classify(d.pkgs[pkg]) == OnBase <==> OnlyEmptyThere(s, pkg) && GoneThere(s, pkg, renames)
  {
    OutcomePkgs(s, paths, renames, order);
    ClassOnBaseIff(s, Outcome(s, paths, renames, order).pkgs, renames, pkg);
  }

  function TextBytes(c: Content): nat {
    if c.Text? then |c.text| else 0
  }

  /** Package q with a.js and an empty e.js in the base, and the same e.js in the other bundle. */
  const EMPTY_THERE := Sides(map["a.js" := Text("a"), "e.js" := Text("")], map["e.js" := Text("")], p => p, p => "q",
    TextBytes,
                             p => None, p => None)

  lemma TwoListed(a: string, b: string)
    requires a != b
    ensures Lists([a, b], {a, b})
  {
    assert [a, b][0] == a && [a, b][1] == b;
    assert {a, b} == {a} + {b} && {a} !! {b};
  }

  lemma EmptyThereAsked()
    ensures Asked(EMPTY_THERE, ["a.js", "e.js"], map[], [])
  {
    var s := EMPTY_THERE;
    var none: map<string, string> := map[];
    assert "a.js"[0] != "e.js"[0];
    assert All(s) == {"a.js", "e.js"};
    TwoListed("a.js", "e.js");
    assert Pairing(s, none) && Lists([], none.Keys);
  }

  lemma EmptyThere()
    ensures OnlyEmptyThere(EMPTY_THERE, "q") && GoneThere(EMPTY_THERE, "q", map[])
  {
    var s := EMPTY_THERE;
    assert "a.js"[0] != "e.js"[0];
    assert "a.js" in s.base && s.pkgOf("a.js") == "q" && "a.js" !in s.other;
    assert MetaChanges(None, None) == [] && Unchanged(s, "e.js") && s.size(s.other["e.js"]) == 0;
  }

  /** The other bundle has e.js of the package, and the package is listed as the base's alone. */
  lemma PackageThereListedMissing()
    ensures Asked(EMPTY_THERE, ["a.js", "e.js"], map[], [])
    ensures var d := Outcome(EMPTY_THERE, ["a.js", "e.js"], map[], []);
            "e.js" in EMPTY_THERE.other && EMPTY_THERE.pkgOf("e.js") == "q" && "q" in d.pkgs
              && Classify(d.pkgs["q"]) == OnBase
  {
    EmptyThereAsked();
    EmptyThere();
    ListedBaseOnlyIff(EMPTY_THERE, ["a.js", "e.js"], map[], [], "q");
  }

  // ---- as it runs ----

  datatype Comparison = Comparison(diff: Diff, identical: bool, onlyBase: seq<PkgRow>, onlyOther: seq<PkgRow>,
    changed: seq<PkgRow>, still: seq<PkgRow>)

  /** The first pass. */
  method ComparePaths(s: Sides, paths: seq<string>) returns (d: Diff)
    requires OnSides(s, paths)
    ensures d == Compared(s, paths)
  {
    d := NOTHING;
    for i := 0 to |paths|
      invariant OnSides(s, paths[..i]) && d == Compared(s, paths[..i])
    {
      assert paths[..i + 1][..i] == paths[..i] && paths[..i + 1] == paths[..i] + [paths[i]];
      assert paths[i] in paths;
      d := Step(s, d, paths[i]);
    }
    assert paths[..|paths|] == paths;
  }

  /** The renames moved over. */
  method MoveRenames(s: Sides, d0: Diff, renames: map<string, string>, order: seq<string>) returns (d: Diff)
    requires Pairing(s, renames) && forall from :: from in order ==> from in renames
    ensures d == WithRenames(s, d0, renames, order)
  {
    d := d0;
    for i := 0 to |order|
      invariant (forall from :: from in order[..i] ==> from in renames) && d == WithRenames(s, d0, renames, order[..i])
    {
      assert order[..i + 1][..i] == order[..i] && order[..i + 1] == order[..i] + [order[i]];
      assert order[i] in order;
      d := Rename(s, d, order[i], renames[order[i]]);
    }
    assert order[..|order|] == order;
  }

  /** computeBundleDiff over the paths in their order, given the renames found; the final sorts of the lists apart. */
  method ComputeBundleDiff(s: Sides, paths: seq<string>, renames: map<string, string>, order: seq<string>,
                           pkgOrder: seq<string>) returns (r: Comparison)
    requires OnSides(s, paths) && Pairing(s, renames) && forall from :: from in order ==> from in renames
    requires forall k :: k in pkgOrder ==> k in Outcome(s, paths, renames, order).pkgs
    ensures r.diff == Outcome(s, paths, renames, order) && (r.identical <==> Identical(r.diff))
    ensures r.onlyBase == InClass(r.diff.pkgs, pkgOrder, OnBase)
              && r.onlyOther == InClass(r.diff.pkgs, pkgOrder, OnOther)
    ensures r.changed == InClass(r.diff.pkgs, pkgOrder, Moved) && r.still == InClass(r.diff.pkgs, pkgOrder, Still)
  {
    var d := ComparePaths(s, paths);
    d := MoveRenames(s, d, renames, order);
    d := d.(onlyBase := Left(d.onlyBase, renames.Keys), onlyOther := Left(d.onlyOther, renames.Values));
    var lists := ListPackages(d.pkgs, pkgOrder);
    r := Comparison(d, d.onlyBase == [] && d.onlyOther == [] && d.changed == [], lists.0, lists.1, lists.2, lists.3);
  }

  method ListPackages(pkgs: map<string, Acc>, order: seq<string>)
      returns (lists: (seq<PkgRow>, seq<PkgRow>, seq<PkgRow>, seq<PkgRow>))
    requires forall k :: k in order ==> k in pkgs
    ensures lists == (InClass(pkgs, order, OnBase), InClass(pkgs, order, OnOther), InClass(pkgs, order, Moved),
              InClass(pkgs, order, Still))
  {
    var a, b, c, e: seq<PkgRow> := [], [], [], [];
    for i := 0 to |order|
      invariant forall k :: k in order[..i] ==> k in pkgs
      invariant a == InClass(pkgs, order[..i], OnBase) && b == InClass(pkgs, order[..i], OnOther)
      invariant c == InClass(pkgs, order[..i], Moved) && e == InClass(pkgs, order[..i], Still)
    {
      assert order[..i + 1][..i] == order[..i] && order[..i + 1] == order[..i] + [order[i]];
      var k := order[i];
      assert k in order;
      var row := PkgRow(k, pkgs[k].baseBytes, pkgs[k].otherBytes);
      match Classify(pkgs[k])
      case OnBase => a := a + [row];
      case OnOther => b := b + [row];
      case Moved => c := c + [row];
      case Still => e := e + [row];
    }
    assert order[..|order|] == order;
    lists := (a, b, c, e);
  }
}
