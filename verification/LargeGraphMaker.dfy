/**
 The generator itself (examples/large-graph-sample.js): packages dealt to
 levels, files dealt to packages, imports added until exactly as many as asked,
 whatever the random source gives; or an error.
 */
module LargeGraphMaker {
  import opened Options
  import opened LargeGraph

  lemma ScaledBelow(x: real, n: nat)
    requires 0.0 <= x < 1.0 && n > 0
    ensures 0 <= (x * n as real).Floor < n
  {
    assert 0.0 <= x * n as real < 1.0 * n as real;
  }

  /** Any source of numbers from 0 up to 1. */
  class Random {
    const source: nat -> real
    var drawn: nat

    ghost predicate Valid() {
      forall n :: 0.0 <= source(n) < 1.0
    }

    constructor (source: nat -> real)
      requires forall n :: 0.0 <= source(n) < 1.0
      ensures Valid()
    {
      this.source, drawn := source, 0;
    }

    method Next() returns (x: real)
      requires Valid()
      modifies this
      ensures 0.0 <= x < 1.0
    {
      x := source(drawn);
      drawn := drawn + 1;
    }

    /** Some place in a list of this length. */
    method Place(length: nat) returns (i: nat)
      requires Valid() && length > 0
      modifies this
      ensures i < length
    {
      var x := Next();
      ScaledBelow(x, length);
      i := (x * length as real).Floor;
    }

    method Pick<T>(items: seq<T>) returns (item: T)
      requires Valid() && items != []
      modifies this
      ensures item in items
    {
      var i := Place(|items|);
      item := items[i];
    }
  }

  // ---- levels ----

  predicate Ordinary(p: nat) {
    p >= 5
  }

  predicate HasOrdinary(level: seq<nat>) {
    exists p :: p in level && Ordinary(p)
  }

  /** Each package dealt so far is on one level, and the lists say which. */
  predicate Dealt(levels: seq<seq<nat>>, depth: map<nat, nat>) {
    && (forall l: nat, p: nat :: l < |levels| && p in levels[l] ==> p in depth && depth[p] == l)
    && (forall p: nat :: p in depth ==> depth[p] < |levels| && p in levels[depth[p]])
  }

  method Assign(levels: seq<seq<nat>>, depth: map<nat, nat>, p: nat, level: nat)
      returns (levels': seq<seq<nat>>, depth': map<nat, nat>)
    requires Dealt(levels, depth) && p !in depth && level < |levels|
    ensures Dealt(levels', depth') && depth' == depth[p := level] && |levels'| == |levels|
    ensures forall l :: 0 <= l < |levels| ==> levels'[l] == if l == level then levels[l] + [p] else levels[l]
  {
    levels', depth' := levels[level := levels[level] + [p]], depth[p := level];
    assert p in levels'[level] by { assert levels'[level][|levels[level]|] == p; }
    forall q | q in depth ensures q in levels'[depth[q]] { assert q in levels[depth[q]]; }
  }

  predicate Distinct(s: seq<nat>) {
    forall i, j :: 0 <= i < j < |s| ==> s[i] != s[j]
  }

  /** The packages from 5 on, in any order. */
  method Shuffle(packageCount: nat, rng: Random) returns (shuffled: seq<nat>)
    requires packageCount >= 5 && rng.Valid()
    modifies rng
    ensures |shuffled| == packageCount - 5
    ensures Distinct(shuffled)
    ensures forall p: nat :: p in shuffled <==> 5 <= p < packageCount
  {
    shuffled := seq(packageCount - 5, i requires 0 <= i => i + 5);
    forall p: nat | 5 <= p < packageCount ensures p in shuffled { assert shuffled[p - 5] == p; }
    var i := |shuffled| - 1;
    while i > 0
      invariant |shuffled| == packageCount - 5 && i < |shuffled|
      invariant Distinct(shuffled)
      invariant forall p: nat :: p in shuffled <==> 5 <= p < packageCount
    {
      var j := rng.Place(i + 1);
      Swapped(shuffled, i, j);
      shuffled := shuffled[i := shuffled[j]][j := shuffled[i]];
      i := i - 1;
    }
  }

  lemma Swapped(s: seq<nat>, i: nat, j: nat)
    requires i < |s| && j < |s| && Distinct(s)
    ensures var t := s[i := s[j]][j := s[i]];
            |t| == |s| && Distinct(t) && forall p: nat :: p in t <==> p in s
  {
    var t := s[i := s[j]][j := s[i]];
    assert forall k :: 0 <= k < |s| ==> t[k] == s[if k == i then j else if k == j then i else k];
    forall p: nat | p in s ensures p in t {
      var k :| 0 <= k < |s| && s[k] == p;
      assert t[if k == i then j else if k == j then i else k] == p;
    }
  }

  /** The level a weighted choice falls on. */
  method Level(layerCount: nat, weights: seq<real>, choice: real) returns (level: nat)
    requires layerCount >= 2 && |weights| == layerCount - 1
    ensures 1 <= level < layerCount
  {
    var left := choice;
    level := 1;
    while level < layerCount - 1 && left >= weights[level - 1]
      invariant 1 <= level < layerCount
    {
      left := left - weights[level - 1];
      level := level + 1;
    }
  }

  function Total(weights: seq<real>): real {
    if weights == [] then 0.0 else Total(weights[..|weights| - 1]) + weights[|weights| - 1]
  }

  function Insert(sorted: seq<nat>, p: nat): (r: seq<nat>)
    ensures forall q: nat :: q in r <==> q in sorted || q == p
  {
    if sorted == [] || p <= sorted[0] then [p] + sorted
    else
      assert sorted == [sorted[0]] + sorted[1..];
      [sorted[0]] + Insert(sorted[1..], p)
  }

  function Sorted(s: seq<nat>): (r: seq<nat>)
    ensures forall p: nat :: p in r <==> p in s
  {
    if s == [] then []
    else
      assert s == s[..|s| - 1] + [s[|s| - 1]];
      Insert(Sorted(s[..|s| - 1]), s[|s| - 1])
  }

  /** Every package has a level, only own source the first, and every other level has an ordinary package. */
  ghost predicate AllDealt(levels: seq<seq<nat>>, depth: map<nat, nat>, packageCount: nat) {
    && Dealt(levels, depth) && Parted(depth, [], packageCount) && Placed(depth, |levels|)
    && (forall l: nat :: 1 <= l < |levels| ==> HasOrdinary(levels[l]))
  }

  /** Own source, then the shared packages down a level each. */
  method DealShared(layerCount: nat) returns (levels: seq<seq<nat>>, depth: map<nat, nat>)
    requires layerCount >= 2
    ensures |levels| == layerCount && Dealt(levels, depth)
    ensures (forall p: nat :: p in depth <==> p < 5) && Placed(depth, layerCount)
  {
    levels, depth := seq(layerCount, i => []), map[];
    for p := 0 to 5
      invariant |levels| == layerCount && Dealt(levels, depth)
      invariant forall q: nat :: q in depth <==> q < p
      invariant forall q: nat :: q in depth ==> depth[q] == if q < layerCount - 1 then q else layerCount - 1
    {
      levels, depth := Assign(levels, depth, p, if p < layerCount - 1 then p else layerCount - 1);
    }
  }

  /** The packages dealt and those still to deal: never both, and all of them between them. */
  ghost predicate Parted(depth: map<nat, nat>, left: seq<nat>, packageCount: nat) {
    && Distinct(left)
    && (forall p: nat :: p in left ==> p !in depth && Ordinary(p))
    && (forall p: nat :: p in depth || p in left <==> p < packageCount)
  }

  /** Own source alone on the first level, and the shared packages where they were put. */
  ghost predicate Placed(depth: map<nat, nat>, layerCount: nat) {
    && (forall p: nat :: p < 5 ==> p in depth && depth[p] == if p < layerCount - 1 then p else layerCount - 1)
    && (forall p: nat :: p in depth && p >= 5 ==> depth[p] > 0)
  }

  /** A package put on a level goes from those left to those dealt. */
  lemma Moves(depth: map<nat, nat>, left: seq<nat>, rest: seq<nat>, p: nat, packageCount: nat, level: nat)
    requires Parted(depth, left, packageCount) && Distinct(rest) && p !in rest
               && forall q: nat :: q in left <==> q in rest || q == p
    ensures Parted(depth[p := level], rest, packageCount) && p !in depth && Ordinary(p)
  {
    assert p in left;
    forall q: nat | q in rest ensures q !in depth[p := level] && Ordinary(q) { assert q in left; }
    forall q: nat ensures q in depth[p := level] || q in rest
        <==> q < packageCount { assert q in depth || q in left <==> q < packageCount; }
  }

  lemma Popped(depth: map<nat, nat>, left: seq<nat>, packageCount: nat, level: nat)
    requires Parted(depth, left, packageCount) && left != []
    ensures var n := |left| - 1;
            Parted(depth[left[n] := level], left[..n], packageCount) && left[n] !in depth && Ordinary(left[n])
  {
    var n := |left| - 1;
    var rest := left[..n];
    assert left == rest + [left[n]];
    forall q: nat | q in rest ensures q != left[n] {
      var k :| 0 <= k < n && rest[k] == q;
      assert left[k] == q;
    }
    Moves(depth, left, rest, left[n], packageCount, level);
  }

  /** A level gets its ordinary package. */
  method DealOne(packageCount: nat, levels0: seq<seq<nat>>, depth0: map<nat, nat>, left: seq<nat>, level: nat)
    returns (levels: seq<seq<nat>>, depth: map<nat, nat>)
    requires 1 <= level < |levels0| && left != []
    requires Dealt(levels0, depth0) && Parted(depth0, left, packageCount) && Placed(depth0, |levels0|)
    ensures |levels| == |levels0| && Dealt(levels, depth) && Parted(depth, left[..|left| - 1], packageCount)
              && Placed(depth, |levels|)
    ensures HasOrdinary(levels[level]) && forall l :: 0 <= l < |levels| && l != level ==> levels[l] == levels0[l]
  {
    var p := left[|left| - 1];
    Popped(depth0, left, packageCount, level);
    levels, depth := Assign(levels0, depth0, p, level);
    assert levels[level][|levels0[level]|] == p;
    assert p in levels[level];
  }

  /** An ordinary package on every level but the first, taken off the end of the shuffled list. */
  method DealOneEach(packageCount: nat, levels0: seq<seq<nat>>, depth0: map<nat, nat>, shuffled0: seq<nat>)
    returns (levels: seq<seq<nat>>, depth: map<nat, nat>, shuffled: seq<nat>)
    requires 2 <= |levels0| && |shuffled0| >= |levels0| - 1
    requires Dealt(levels0, depth0) && Parted(depth0, shuffled0, packageCount) && Placed(depth0, |levels0|)
    ensures |levels| == |levels0| && Dealt(levels, depth) && Parted(depth, shuffled, packageCount)
              && Placed(depth, |levels|)
    ensures forall l: nat :: 1 <= l < |levels| ==> HasOrdinary(levels[l])
  {
    levels, depth, shuffled := levels0, depth0, shuffled0;
    for level := 1 to |levels0|
      invariant |levels| == |levels0| && |shuffled| == |shuffled0| - (level - 1)
      invariant Dealt(levels, depth) && Parted(depth, shuffled, packageCount) && Placed(depth, |levels|)
      invariant forall l: nat :: 1 <= l < level ==> HasOrdinary(levels[l])
    {
      levels, depth := DealOne(packageCount, levels, depth, shuffled, level);
      shuffled := shuffled[..|shuffled| - 1];
    }
  }

  /** The rest, each to a level chosen by weight. */
  method DealRest(packageCount: nat, levels0: seq<seq<nat>>, depth0: map<nat, nat>, shuffled0: seq<nat>,
                  weights: seq<real>, rng: Random)
    returns (levels: seq<seq<nat>>, depth: map<nat, nat>)
    requires rng.Valid() && 2 <= |levels0| && |weights| == |levels0| - 1
    requires Dealt(levels0, depth0) && Parted(depth0, shuffled0, packageCount) && Placed(depth0, |levels0|)
    requires forall l: nat :: 1 <= l < |levels0| ==> HasOrdinary(levels0[l])
    modifies rng
    ensures |levels| == |levels0| && Dealt(levels, depth) && Parted(depth, [], packageCount) && Placed(depth, |levels|)
    ensures forall l: nat :: 1 <= l < |levels| ==> HasOrdinary(levels[l])
  {
    levels, depth := levels0, depth0;
    for i := 0 to |shuffled0|
      invariant |levels| == |levels0| && Dealt(levels, depth) && Parted(depth, shuffled0[i..], packageCount)
                  && Placed(depth, |levels|)
      invariant forall l: nat :: 1 <= l < |levels| ==> HasOrdinary(levels[l])
    {
      var x := rng.Next();
      var level := Level(|levels|, weights, x * Total(weights));
      Taken(depth, shuffled0[i..], packageCount, level);
      assert shuffled0[i..][0] == shuffled0[i] && shuffled0[i..][1..] == shuffled0[i + 1..];
      ghost var were := levels;
      levels, depth := Assign(levels, depth, shuffled0[i], level);
      Grown(were, levels);
    }
    assert shuffled0[|shuffled0|..] == [];
  }

  lemma Taken(depth: map<nat, nat>, left: seq<nat>, packageCount: nat, level: nat)
    requires Parted(depth, left, packageCount) && left != []
    ensures Parted(depth[left[0] := level], left[1..], packageCount) && left[0] !in depth && Ordinary(left[0])
  {
    var rest := left[1..];
    assert left == [left[0]] + rest;
    forall q: nat | q in rest ensures q != left[0] {
      var k :| 0 <= k < |rest| && rest[k] == q;
      assert left[k + 1] == q;
    }
    Moves(depth, left, rest, left[0], packageCount, level);
  }

  lemma Grown(some: seq<seq<nat>>, more: seq<seq<nat>>)
    requires |some| == |more| && forall l: nat :: 1 <= l < |some| ==> HasOrdinary(some[l])
    requires forall l: nat :: l < |some| ==> forall p :: p in some[l] ==> p in more[l]
    ensures forall l: nat :: 1 <= l < |some| ==> HasOrdinary(more[l])
  {
    forall l: nat | 1 <= l < |some| ensures HasOrdinary(more[l]) {
      assert HasOrdinary(some[l]);
      var p :| p in some[l] && Ordinary(p);
      assert p in more[l];
    }
  }

  method SortLevels(levels: seq<seq<nat>>) returns (sorted: seq<seq<nat>>)
    ensures |sorted| == |levels| && forall l: nat :: l < |levels| ==> forall p :: p in sorted[l] <==> p in levels[l]
  {
    sorted := [];
    for l := 0 to |levels|
      invariant |sorted| == l && forall k: nat :: k < l ==> forall p :: p in sorted[k] <==> p in levels[k]
    {
      sorted := sorted + [Sorted(levels[l])];
    }
  }

  method DealLevels(packageCount: nat, layerCount: nat, weights: seq<real>, rng: Random)
      returns (levels: seq<seq<nat>>, depth: map<nat, nat>)
    requires rng.Valid() && layerCount >= 2 && packageCount >= layerCount + 4 && |weights| == layerCount - 1
    modifies rng
    ensures |levels| == layerCount && AllDealt(levels, depth, packageCount)
  {
    levels, depth := DealShared(layerCount);
    var shuffled := Shuffle(packageCount, rng);
    assert Parted(depth, shuffled, packageCount);
    levels, depth, shuffled := DealOneEach(packageCount, levels, depth, shuffled);
    levels, depth := DealRest(packageCount, levels, depth, shuffled, weights, rng);
    ghost var unsorted := levels;
    levels := SortLevels(levels);
    Grown(unsorted, levels);
    assert forall p: nat :: p !in [];
  }

  // ---- files ----

  lemma {:induction false} SumChanged(s: seq<nat>, i: nat, v: nat)
    requires i < |s|
    ensures Sum(s[i := v]) == Sum(s) - s[i] + v
  {
    var n := |s| - 1;
    if i == n {
      assert s[i := v][..n] == s[..n];
    } else {
      SumChanged(s[..n], i, v);
      assert s[i := v][..n] == s[..n][i := v];
    }
  }

  lemma {:induction false} SumOfTwos(s: seq<nat>)
    requires forall i :: 0 <= i < |s| ==> s[i] == 2
    ensures Sum(s) == 2 * |s|
  {
    if s != [] { SumOfTwos(s[..|s| - 1]); }
  }

  lemma {:induction false} TotalPositive(weights: seq<real>)
    requires forall i :: 0 <= i < |weights| ==> weights[i] >= 1.0
    ensures Total(weights) >= |weights| as real
  {
    if weights != [] { TotalPositive(weights[..|weights| - 1]); }
  }

  function Share(budget: nat, weight: real, total: real): real
    requires total > 0.0
  {
    budget as real * weight / total
  }

  lemma SharesAdd(budget: nat, a: real, b: real, total: real)
    requires total > 0.0
    ensures Share(budget, a + b, total) == Share(budget, a, total) + Share(budget, b, total)
    ensures Share(budget, total, total) == budget as real && Share(budget, 0.0, total) == 0.0
    ensures b >= 0.0 ==> Share(budget, b, total) >= 0.0
  {
    assert budget as real * (a + b) == budget as real * a + budget as real * b;
    if b >= 0.0 { assert budget as real * b >= 0.0; }
  }

  /** Deals files to the packages but the first by weight, each share rounded down. */
  method DealByWeight(counts0: seq<nat>, budget: nat, weights: seq<real>) returns (counts: seq<nat>, remaining: nat)
    requires |counts0| >= 2 && |weights| == |counts0| - 1 && forall i :: 0 <= i < |weights| ==> weights[i] >= 1.0
    ensures |counts| == |counts0| && Sum(counts) + remaining == Sum(counts0) + budget && remaining < |counts|
    ensures forall p :: 0 <= p < |counts| ==> counts[p] >= counts0[p]
  {
    counts := counts0;
    var left: int := budget;
    var total := Total(weights);
    TotalPositive(weights);
    SharesAdd(budget, 0.0, 0.0, total);
    for p := 1 to |counts0|
      invariant |counts| == |counts0| && Sum(counts) == Sum(counts0) + budget - left
      invariant forall q :: 0 <= q < |counts| ==> counts[q] >= counts0[q]
      invariant (budget - left) as real <= Share(budget, Total(weights[..p - 1]), total) <= (budget - left) as real
                  + (p - 1) as real
    {
      SharesAdd(budget, Total(weights[..p - 1]), weights[p - 1], total);
      var n := Share(budget, weights[p - 1], total).Floor;
      assert weights[..p][..p - 1] == weights[..p - 1] && weights[..p][p - 1] == weights[p - 1];
      SumChanged(counts, p, counts[p] + n);
      counts := counts[p := counts[p] + n];
      left := left - n;
    }
    assert weights[..|weights|] == weights;
    remaining := left;
  }

  /** What rounding left goes one each to the first packages after own source. */
  method DealRemaining(counts0: seq<nat>, left: nat) returns (counts: seq<nat>)
    requires left < |counts0|
    ensures |counts| == |counts0| && Sum(counts) == Sum(counts0) + left
    ensures forall p :: 0 <= p < |counts| ==> counts[p] >= counts0[p]
  {
    counts := counts0;
    var p, remaining := 1, left;
    while remaining > 0
      invariant 1 <= p && 0 <= remaining && p + remaining <= |counts| == |counts0|
      invariant Sum(counts) == Sum(counts0) + left - remaining
      invariant forall q :: 0 <= q < |counts| ==> counts[q] >= counts0[q]
      decreases remaining
    {
      SumChanged(counts, p, counts[p] + 1);
      counts := counts[p := counts[p] + 1];
      p, remaining := p + 1, remaining - 1;
    }
  }

  /** Two files a package at least, own source about an eighth, and exactly as many as asked between them. */
  method CountFiles(fileCount: int, packageCount: nat, rng: Random) returns (counts: seq<nat>)
    requires rng.Valid() && packageCount >= 2 && fileCount >= packageCount * 2
    modifies rng
    ensures |counts| == packageCount && Sum(counts) == fileCount
    ensures forall p :: 0 <= p < packageCount ==> counts[p] >= 2
  {
    counts := seq(packageCount, i => 2);
    SumOfTwos(counts);
    var share := (fileCount as real * 0.12).Floor;
    var most := fileCount - 2 * (packageCount - 1);
    var own := if share < most then share else most;
    var first: nat := if own > 2 then own else 2;
    SumChanged(counts, 0, first);
    counts := counts[0 := first];
    var weights: seq<real> := [];
    for p := 1 to packageCount
      invariant |weights| == p - 1 && forall i :: 0 <= i < |weights| ==> weights[i] >= 1.0
    {
      var x := rng.Next();
      CubeNotNegative(x);
      weights := weights + [1.0 + x * x * x * 7.0];
    }
    var remaining;
    counts, remaining := DealByWeight(counts, fileCount - Sum(counts), weights);
    counts := DealRemaining(counts, remaining);
  }

  lemma CubeNotNegative(x: real)
    requires x >= 0.0
    ensures x * x * x * 7.0 >= 0.0
  {
    assert x * x >= 0.0;
  }

  // ---- imports ----

  /** The files, package by package, each once. */
  method ListFiles(counts: seq<nat>) returns (files: seq<File>)
    ensures |files| == Sum(counts) && forall f :: f in files <==> IsFile(counts, f)
    ensures forall i, j :: 0 <= i < j < |files| ==> files[i] != files[j]
  {
    files := [];
    for p := 0 to |counts|
      invariant |files| == Sum(counts[..p])
      invariant forall f :: f in files <==> IsFile(counts, f) && f.pkg < p
      invariant forall i, j :: 0 <= i < j < |files| ==> files[i] != files[j]
    {
      ghost var n := |files|;
      for i := 0 to counts[p]
        invariant |files| == n + i
        invariant forall f :: f in files <==> IsFile(counts, f) && (f.pkg < p || (f.pkg == p && f.place < i))
        invariant forall i, j :: 0 <= i < j < |files| ==> files[i] != files[j]
      {
        assert File(p, i) !in files;
        files := files + [File(p, i)];
      }
      assert counts[..p + 1][..p] == counts[..p];
    }
    assert counts[..|counts|] == counts;
  }

  lemma OneImportMore(counts: seq<nat>, depth: seq<nat>, imports: Imports, a: File, b: File)
    requires |depth| == |counts| && StepsOk(counts, depth, imports)
    requires a != b && (a, b) !in imports && IsFile(counts, a) && IsFile(counts, b) && depth[b.pkg] <= depth[a.pkg] + 1
    ensures var more := imports + {(a, b)};
            StepsOk(counts, depth, more) && |more| == |imports| + 1
            && |CrossOf(more)| == |CrossOf(imports)| + if a.pkg != b.pkg then 1 else 0
  {
    if a.pkg != b.pkg {
      assert CrossOf(imports + {(a, b)}) == CrossOf(imports) + {(a, b)};
    } else {
      assert CrossOf(imports + {(a, b)}) == CrossOf(imports);
    }
  }

  class Builder {
    const counts: seq<nat>
    const depth: seq<nat>
    var imports: Imports
    var edges: nat
    var cross: nat

    ghost predicate Valid()
      reads this
    {
      && |depth| == |counts| && StepsOk(counts, depth, imports)
      && edges == |imports| && cross == |CrossOf(imports)|
    }

    constructor (counts: seq<nat>, depth: seq<nat>)
      requires |depth| == |counts|
      ensures Valid() && imports == {} && this.counts == counts && this.depth == depth
    {
      this.counts, this.depth, imports, edges, cross := counts, depth, {}, 0, 0;
      new;
      assert CrossOf({}) == {};
    }

    /** An import, unless a file would import itself or it is there already. */
    method Add(a: File, b: File)
      requires Valid() && IsFile(counts, a) && IsFile(counts, b) && depth[b.pkg] <= depth[a.pkg] + 1
      modifies this
      ensures Valid() && imports == old(imports) + if a == b then {} else {(a, b)}
      ensures edges == old(edges) + if a == b || (a, b) in old(imports) then 0 else 1
      ensures cross == old(cross) + if a.pkg == b.pkg || (a, b) in old(imports) then 0 else 1
    {
      if a == b || (a, b) in imports { return; }
      OneImportMore(counts, depth, imports, a, b);
      imports := imports + {(a, b)};
      edges := edges + 1;
      if a.pkg != b.pkg { cross := cross + 1; }
    }

    /** Imports from each package's entry out to all its files, six to a file. */
    method GrowTrees()
      requires Valid() && forall p :: 0 <= p < |counts| ==> counts[p] > 0
      modifies this
      ensures Valid() && old(imports) <= imports && forall p: nat :: p < |counts| ==> HasTree(imports, p, counts[p])
    {
      for p := 0 to |counts|
        invariant Valid() && old(imports) <= imports && forall q: nat :: q < p ==> HasTree(imports, q, counts[q])
      {
        ghost var was := imports;
        GrowTree(p);
        forall q: nat | q < p ensures HasTree(imports, q, counts[q]) { TreesStay(was, imports, q, counts[q]); }
      }
    }

    method GrowTree(p: nat)
      requires Valid() && p < |counts| && counts[p] > 0
      modifies this
      ensures Valid() && old(imports) <= imports && HasTree(imports, p, counts[p])
      ensures cross == old(cross)
    {
      for i := 1 to counts[p]
        invariant Valid() && old(imports) <= imports && HasTree(imports, p, i) && cross == old(cross)
      {
        ghost var was := imports;
        Add(File(p, (i - 1) / 6), File(p, i));
        assert TreeLink(imports, p, i);
        assert forall k: nat :: 1 <= k < i && TreeLink(was, p, k) ==> TreeLink(imports, p, k);
      }
    }

    /** An import from a package to the entry of one a level further. */
    method AddParent(parents: seq<nat>, p: nat, rng: Random)
      requires Valid() && rng.Valid() && parents != [] && p < |counts| && counts[p] > 0
      requires forall q :: q in parents ==> q < |counts| && counts[q] > 0 && depth[q] + 1 == depth[p]
      modifies this, rng
      ensures Valid() && old(imports) <= imports && HasParent(depth, imports, p)
    {
      var q := rng.Pick(parents);
      var place := rng.Place(counts[q]);
      Add(File(q, place), File(p, 0));
      assert (File(q, place), File(p, 0)) in imports;
    }

    /** A cycle through three packages of one level. */
    method AddCycle(cycle: seq<nat>, level: nat)
      requires Valid() && |cycle| == 3
      requires forall q :: q in cycle ==> q < |counts| && counts[q] > 0 && depth[q] == level
      modifies this
      ensures Valid() && old(imports) <= imports
    {
      for i := 0 to 3
        invariant Valid() && old(imports) <= imports
      {
        assert cycle[i] in cycle && cycle[(i + 1) % 3] in cycle;
        Add(File(cycle[i], 0), File(cycle[(i + 1) % 3], 0));
      }
    }
  }

  /** The packages of a list that may import others: own source and the ordinary ones. */
  function Importers(level: seq<nat>): (r: seq<nat>)
    ensures forall p :: p in r <==> p in level && (p == 0 || Ordinary(p))
  {
    if level == [] then []
    else
      assert level == [level[0]] + level[1..];
      (if level[0] == 0 || Ordinary(level[0]) then [level[0]] else []) + Importers(level[1..])
  }

  function OrdinaryAfter(level: seq<nat>, p: int): (r: seq<nat>)
    ensures forall q :: q in r <==> q in level && Ordinary(q) && q > p
  {
    if level == [] then []
    else
      assert level == [level[0]] + level[1..];
      (if Ordinary(level[0]) && level[0] > p then [level[0]] else []) + OrdinaryAfter(level[1..], p)
  }

  predicate OnLevel(depth: seq<nat>, level: seq<nat>, l: nat) {
    forall p :: p in level ==> p < |depth| && depth[p] == l
  }

  /** The levels as a builder's graph has them. */
  ghost predicate LevelsOf(levels: seq<seq<nat>>, counts: seq<nat>, depth: seq<nat>) {
    && |depth| == |counts| && |levels| >= 2
    && (forall p: nat :: p < |depth| ==>
        depth[p] < |levels| && p in levels[depth[p]] && counts[p] >= 2 && (depth[p] == 0 <==> p == 0))
    && (forall l: nat :: l < |levels| ==> OnLevel(depth, levels[l], l))
    && (forall l: nat :: 1 <= l < |levels| ==> HasOrdinary(levels[l]))
    && |depth| > 5 && (forall q: nat :: 1 <= q < 5 ==> depth[q] <= q)
  }

  lemma LevelMember(levels: seq<seq<nat>>, counts: seq<nat>, depth: seq<nat>, l: nat, p: nat)
    requires LevelsOf(levels, counts, depth) && l < |levels| && p in levels[l]
    ensures p < |depth| && depth[p] == l && counts[p] >= 2
  {
    assert OnLevel(depth, levels[l], l);
  }

  /** The level before holds packages to import from, all one level nearer. */
  lemma ParentsOf(levels: seq<seq<nat>>, counts: seq<nat>, depth: seq<nat>, level: nat)
    requires LevelsOf(levels, counts, depth) && 1 <= level < |levels|
    ensures Importers(levels[level - 1]) != []
    ensures forall q :: q in Importers(levels[level - 1]) ==> q < |counts| && counts[q] > 0 && depth[q] + 1 == level
  {
    var parents := Importers(levels[level - 1]);
    if level == 1 {
      assert 0 in levels[depth[0]] && 0 in parents;
    } else {
      assert HasOrdinary(levels[level - 1]);
      var p :| p in levels[level - 1] && Ordinary(p);
      assert p in parents;
    }
    forall q | q in parents ensures q < |counts| && counts[q] > 0 && depth[q] + 1 == level {
      LevelMember(levels, counts, depth, level - 1, q);
    }
  }

  predicate AllOn(counts: seq<nat>, depth: seq<nat>, packages: seq<nat>, level: int) {
    forall q :: q in packages ==> q < |counts| && q < |depth| && counts[q] > 0 && depth[q] == level
  }

  /** A level's packages each get a parent. */
  method LinkParents(b: Builder, parents: seq<nat>, level: nat, packages: seq<nat>, rng: Random)
    requires b.Valid() && rng.Valid() && parents != []
    requires AllOn(b.counts, b.depth, parents, level - 1) && AllOn(b.counts, b.depth, packages, level)
    modifies b, rng
    ensures b.Valid() && old(b.imports) <= b.imports
    ensures forall p :: p in packages ==> HasParent(b.depth, b.imports, p)
  {
    for i := 0 to |packages|
      invariant b.Valid() && old(b.imports) <= b.imports
      invariant forall k: nat :: k < i ==> HasParent(b.depth, b.imports, packages[k])
    {
      ghost var was := b.imports;
      assert packages[i] in packages;
      b.AddParent(parents, packages[i], rng);
      StillParented(b.depth, was, b.imports);
    }
  }

  /** Three ordinary packages of a level, taken together, get a cycle. */
  method LinkCycle(b: Builder, levels: seq<seq<nat>>, level: nat)
    requires b.Valid() && LevelsOf(levels, b.counts, b.depth) && level < |levels|
    modifies b
    ensures b.Valid() && old(b.imports) <= b.imports
  {
    var candidates := OrdinaryAfter(levels[level], 4);
    var start := level * 137 % (if |candidates| > 3 then |candidates| - 2 else 1);
    var end := if start + 3 < |candidates| then start + 3 else |candidates|;
    if start <= end && end - start == 3 {
      var cycle := candidates[start..end];
      forall q | q in cycle ensures q < |b.counts| && b.counts[q] > 0 && b.depth[q] == level {
        assert q in candidates;
        LevelMember(levels, b.counts, b.depth, level, q);
      }
      b.AddCycle(cycle, level);
    }
  }

  /** A level's packages each get a parent, and three of them a cycle. */
  method LinkLevel(b: Builder, levels: seq<seq<nat>>, level: nat, rng: Random)
    requires b.Valid() && rng.Valid() && LevelsOf(levels, b.counts, b.depth) && 1 <= level < |levels|
    modifies b, rng
    ensures b.Valid() && old(b.imports) <= b.imports
    ensures forall p :: p in levels[level] ==> HasParent(b.depth, b.imports, p)
  {
    ParentsOf(levels, b.counts, b.depth, level);
    forall p | p in levels[level] ensures p < |b.depth| && b.counts[p] > 0 && b.depth[p] == level {
      LevelMember(levels, b.counts, b.depth, level, p);
    }
    LinkParents(b, Importers(levels[level - 1]), level, levels[level], rng);
    ghost var was := b.imports;
    LinkCycle(b, levels, level);
    StillParented(b.depth, was, b.imports);
  }

  lemma StillParented(depth: seq<nat>, was: Imports, imports: Imports)
    requires was <= imports
    ensures forall p: nat :: HasParent(depth, was, p) ==> HasParent(depth, imports, p)
  {
  }

  // ---- the rest of the imports ----

  function HubsFor(depth: seq<nat>, p: nat): (r: seq<nat>)
    requires p < |depth| && |depth| > 5
    ensures forall q :: q in r <==> 1 <= q < 5 && q != p && depth[q] <= depth[p] + 1
  {
    var hub := (q: nat) requires 1 <= q < 5 => if depth[q] <= depth[p] + 1 && q != p then [q] else [];
    hub(1) + hub(2) + hub(3) + hub(4)
  }

  /** Where an ordinary package may import from: shared packages, the next level, or its own level further on. */
  function Pool(levels: seq<seq<nat>>, depth: seq<nat>, p: nat, choice: real): (r: seq<nat>)
    requires p < |depth| && |depth| > 5 && depth[p] < |levels|
  {
    var hubs := HubsFor(depth, p);
    var next := if depth[p] + 1 < |levels| then levels[depth[p] + 1] else [];
    var peers := OrdinaryAfter(levels[depth[p]], p);
    if choice < 0.18 then hubs else if choice < 0.85 && next != [] then next else if peers != [] then peers else hubs
  }

  /** A pool is never empty, and holds other packages at most one level further. */
  lemma PoolOk(levels: seq<seq<nat>>, counts: seq<nat>, depth: seq<nat>, p: nat, choice: real)
    requires LevelsOf(levels, counts, depth) && p < |depth| && (p == 0 || Ordinary(p))
    ensures Pool(levels, depth, p, choice) != []
    ensures forall q :: q in Pool(levels, depth, p, choice) ==> q != p && q < |depth| && depth[q] <= depth[p] + 1
  {
    var hubs := HubsFor(depth, p);
    assert depth[1] <= 1 && 1 in hubs;
    forall q | q in Pool(levels, depth, p, choice) ensures q != p && q < |depth| && depth[q] <= depth[p] + 1 {
      if q in hubs {
      } else if depth[p] + 1 < |levels| && q in levels[depth[p] + 1] {
        LevelMember(levels, counts, depth, depth[p] + 1, q);
      } else {
        assert q in OrdinaryAfter(levels[depth[p]], p);
        LevelMember(levels, counts, depth, depth[p], q);
      }
    }
  }

  /** Imports between packages until there are as many as wanted, or too many tries. */
  method FillCross(b: Builder, levels: seq<seq<nat>>, sources: seq<File>, target: nat, tries: int, rng: Random)
      returns (ok: bool)
    requires b.Valid() && rng.Valid() && LevelsOf(levels, b.counts, b.depth) && b.cross <= target
    requires sources != [] && forall f :: f in sources ==> IsFile(b.counts, f) && (f.pkg == 0 || Ordinary(f.pkg))
    modifies b, rng
    ensures b.Valid() && old(b.imports) <= b.imports && b.edges - b.cross == old(b.edges) - old(b.cross)
    ensures ok ==> b.cross == target
  {
    var attempts := 0;
    while b.cross < target
      invariant b.Valid() && old(b.imports) <= b.imports && b.cross <= target
      invariant b.edges - b.cross == old(b.edges) - old(b.cross)
      decreases tries - attempts
    {
      attempts := attempts + 1;
      if attempts > tries { return false; }
      var source := rng.Pick(sources);
      var choice := rng.Next();
      PoolOk(levels, b.counts, b.depth, source.pkg, choice);
      var q := rng.Pick(Pool(levels, b.depth, source.pkg, choice));
      var place := rng.Place(b.counts[q]);
      b.Add(source, File(q, place));
    }
    ok := true;
  }

  /** Imports inside packages until there are as many in all as wanted, or too many tries. */
  method FillInner(b: Builder, files: seq<File>, target: nat, tries: int, rng: Random) returns (ok: bool)
    requires b.Valid() && rng.Valid() && b.edges <= target
    requires files != [] && forall f :: f in files ==> IsFile(b.counts, f)
    modifies b, rng
    ensures b.Valid() && old(b.imports) <= b.imports && b.cross == old(b.cross)
    ensures ok ==> b.edges == target
  {
    var attempts := 0;
    while b.edges < target
      invariant b.Valid() && old(b.imports) <= b.imports && b.cross == old(b.cross) && b.edges <= target
      decreases tries - attempts
    {
      attempts := attempts + 1;
      if attempts > tries { return false; }
      var source := rng.Pick(files);
      var place := rng.Place(b.counts[source.pkg]);
      b.Add(source, File(source.pkg, place));
    }
    ok := true;
  }

  /** The share of imports that go between packages, to the nearest. */
  function CrossTarget(edgeCount: int): int {
    (edgeCount as real * 31111.0 / 66321.0 + 0.5).Floor
  }

  method SourcesOf(files: seq<File>) returns (sources: seq<File>)
    ensures forall f :: f in sources <==> f in files && (f.pkg == 0 || Ordinary(f.pkg))
  {
    sources := [];
    for i := 0 to |files|
      invariant forall f :: f in sources <==> f in files[..i] && (f.pkg == 0 || Ordinary(f.pkg))
    {
      if files[i].pkg == 0 || Ordinary(files[i].pkg) { sources := sources + [files[i]]; }
      assert files[..i + 1] == files[..i] + [files[i]];
    }
    assert files[..|files|] == files;
  }

  /** Trees, parents and cycles: every package linked in. */
  method Connect(b: Builder, levels: seq<seq<nat>>, rng: Random)
    requires b.Valid() && rng.Valid() && LevelsOf(levels, b.counts, b.depth)
    modifies b, rng
    ensures b.Valid() && Linked(b.counts, b.depth, b.imports)
  {
    b.GrowTrees();
    ghost var trees := b.imports;
    for level := 1 to |levels|
      invariant b.Valid() && trees <= b.imports
      invariant forall p: nat :: p < |b.depth| && 1 <= b.depth[p] < level ==> HasParent(b.depth, b.imports, p)
    {
      ghost var was := b.imports;
      LinkLevel(b, levels, level, rng);
      StillParented(b.depth, was, b.imports);
    }
    forall p: nat | p < |b.depth| ensures HasTree(b.imports, p,
        b.counts[p]) { TreesStay(trees, b.imports, p, b.counts[p]); }
  }

  /** Every package but own source has a parent, and every package its tree. */
  ghost predicate Linked(counts: seq<nat>, depth: seq<nat>, imports: Imports)
    requires |depth| == |counts|
  {
    && (forall p: nat :: p < |depth| && depth[p] > 0 ==> HasParent(depth, imports, p))
    && (forall p: nat :: p < |depth| ==> HasTree(imports, p, counts[p]))
  }

  /** Levels and counts as dealt are levels as built on. */
  lemma DealtIsLevels(levels: seq<seq<nat>>, dealt: map<nat, nat>, counts: seq<nat>, depth: seq<nat>)
    requires |levels| >= 2 && AllDealt(levels, dealt, |counts|) && |counts| > 5 && |depth| == |counts|
    requires forall p :: 0 <= p < |counts| ==> counts[p] >= 2 && p in dealt && depth[p] == dealt[p]
    ensures LevelsOf(levels, counts, depth)
  {
    forall p: nat | p < |depth| ensures depth[p] < |levels| && p in levels[depth[p]] && (depth[p] == 0 <==> p == 0) {
      assert p in dealt;
    }
    forall l: nat | l < |levels| ensures OnLevel(depth, levels[l], l) {
      forall p | p in levels[l] ensures p < |depth| && depth[p] == l { assert p in dealt && dealt[p] == l; }
    }
  }

  /**
   makeLargeGraph. Whatever the random source: an error, or exactly as many files, packages and imports as
   asked, the stated share of them between packages, with every level a shortest import distance.
   */
  method MakeLargeGraph(fileCount: int, packageCount: int, edgeCount: int, layerCount: int, weights: seq<real>,
                        rng: Random)
    returns (made: Option<Graph>)
    requires rng.Valid() && (layerCount >= 2 ==> |weights| == layerCount - 1)
    modifies rng
    ensures layerCount < 2 || packageCount < layerCount + 4 || fileCount < packageCount * 2 ==> made.None?
    ensures made.Some? ==>
              var g := made.value;
              && Made(g)
              && |g.counts| == packageCount && Sum(g.counts) == fileCount
              && |g.imports| == edgeCount && |CrossOf(g.imports)| == CrossTarget(edgeCount)
  {
    if layerCount < 2 || packageCount < layerCount + 4 || fileCount < packageCount * 2 { return None; }
    var levels, dealt := DealLevels(packageCount, layerCount, weights, rng);
    var counts := CountFiles(fileCount, packageCount, rng);
    assert forall p: nat :: p < packageCount ==> p in dealt;
    var depth := seq(packageCount, p requires 0 <= p < packageCount && p in dealt => dealt[p]);
    DealtIsLevels(levels, dealt, counts, depth);
    var files := ListFiles(counts);
    var b := new Builder(counts, depth);
    Connect(b, levels, rng);
    ghost var linked := b.imports;
    var ok := Fill(b, levels, files, edgeCount, rng);
    if !ok { return None; }
    LinkedIsMade(counts, depth, linked, b.imports, levels);
    made := Some(Graph(counts, depth, b.imports));
  }

  /** The two budgets, spent exactly or not at all. */
  method Fill(b: Builder, levels: seq<seq<nat>>, files: seq<File>, edgeCount: int, rng: Random) returns (ok: bool)
    requires b.Valid() && rng.Valid() && LevelsOf(levels, b.counts, b.depth)
               && forall f :: f in files <==> IsFile(b.counts, f)
    modifies b, rng
    ensures b.Valid() && old(b.imports) <= b.imports
    ensures ok ==> b.edges == edgeCount && b.cross == CrossTarget(edgeCount)
  {
    var target := CrossTarget(edgeCount);
    if b.cross > target || b.edges - b.cross > edgeCount - target { return false; }
    var sources := SourcesOf(files);
    assert IsFile(b.counts, File(0, 0)) && File(0, 0) in sources;
    ok := FillCross(b, levels, sources, target, edgeCount * 100, rng);
    if ok { ok := FillInner(b, files, edgeCount, edgeCount * 100, rng); }
  }

  lemma LinkedIsMade(counts: seq<nat>, depth: seq<nat>, linked: Imports, imports: Imports, levels: seq<seq<nat>>)
    requires LevelsOf(levels, counts, depth) && Linked(counts, depth, linked) && linked <= imports
               && StepsOk(counts, depth, imports)
    ensures Made(Graph(counts, depth, imports))
  {
    StillParented(depth, linked, imports);
    forall p: nat | 0 < p < |depth| ensures HasParent(depth, imports, p) { assert depth[p] > 0
        && HasParent(depth, linked, p); }
    forall p: nat | p < |depth| ensures HasTree(imports, p, counts[p]) { TreesStay(linked, imports, p, counts[p]); }
  }
}
