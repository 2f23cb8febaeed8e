/**
 The order of versions (common/bundle-compare-versions.js:50-97), as text is
 compared, and against section 11 of Semantic Versioning 2.0.0.
 */
module Semver {
  import opened Options
  import opened Splitting

  /**
   How `Number` reads a piece of text: digits by their value, rounded, and anything else as it may, or as no
   number.
   */
  datatype Numbers = Numbers(round: nat -> real, other: string -> Option<real>)

  predicate IsDigit(c: char) {
    '0' <= c <= '9'
  }

  predicate AllDigits(s: string) {
    s != "" && forall k :: 0 <= k < |s| ==> IsDigit(s[k])
  }

  function Value(s: string): nat
    requires forall k :: 0 <= k < |s| ==> IsDigit(s[k])
  {
    if s == "" then 0
    else
      assert IsDigit(s[|s| - 1]);
      10 * Value(s[..|s| - 1]) + (s[|s| - 1] as int - '0' as int)
  }

  function Number(s: string, n: Numbers): Option<real> {
    if AllDigits(s) then Some(n.round(Value(s))) else n.other(s)
  }

  /** Texts as `<` has them, code unit by code unit. */
  predicate TextLess(x: string, y: string)
    decreases |x|
  {
    y != "" && (x == "" || x[0] < y[0] || (x[0] == y[0] && TextLess(x[1..], y[1..])))
  }

  function Sign(less: bool): int {
    if less then -1 else 1
  }

  // ---- compareSemver ----

  /** splitVersion on text trimmed already: the core, and the prerelease tail, without the build. */
  function CoreOf(v: string): string {
    Before(Before(v, '+'), '-')
  }

  function PreOf(v: string): string {
    var noBuild := Before(v, '+');
    var dash := |Before(noBuild, '-')|;
    if dash < |noBuild| then noBuild[dash + 1..] else ""
  }

  function Piece(pieces: seq<string>, i: nat): string {
    if i < |pieces| then pieces[i] else "0"
  }

  /** None when the cores are equal; else the answer, by the whole texts when a piece is no number. */
  function CompareCores(a: string, b: string, ap: seq<string>, bp: seq<string>, i: nat, n: Numbers): Option<int>
    decreases |ap| + |bp| - i
  {
    if i >= |ap| && i >= |bp| then None
    else
      var x, y := Number(Piece(ap, i), n), Number(Piece(bp, i), n);
      if x.None? || y.None? then Some(Sign(TextLess(a, b)))
      else if x != y then Some(Sign(x.value < y.value))
      else CompareCores(a, b, ap, bp, i + 1, n)
  }

  function CompareIds(x: string, y: string, n: Numbers): int {
    if AllDigits(x) && AllDigits(y) then Sign(n.round(Value(x)) < n.round(Value(y)))
    else if AllDigits(x) != AllDigits(y) then Sign(AllDigits(x))
    else Sign(TextLess(x, y))
  }

  function ComparePres(ai: seq<string>, bi: seq<string>, i: nat, n: Numbers): int
    decreases |ai| + |bi| - i
  {
    if i >= |ai| && i >= |bi| then 0
    else if i >= |ai| then -1
    else if i >= |bi| then 1
    else if ai[i] == bi[i] then ComparePres(ai, bi, i + 1, n)
    else CompareIds(ai[i], bi[i], n)
  }

  function CompareSemver(a: string, b: string, n: Numbers): int {
    if a == b then 0
    else
      var cores := CompareCores(a, b, Split(CoreOf(a), '.'), Split(CoreOf(b), '.'), 0, n);
      if cores.Some? then cores.value
      else if PreOf(a) == PreOf(b) then 0
      else if PreOf(a) == "" then 1
      else if PreOf(b) == "" then -1
      else ComparePres(Split(PreOf(a), '.'), Split(PreOf(b), '.'), 0, n)
  }

  // ---- versions as section 2 and sections 9 and 10 of Semantic Versioning 2.0.0 have them ----

  datatype Version = Version(core: seq<string>, pre: seq<string>, build: string)

  predicate IsIdChar(c: char) {
    IsDigit(c) || 'a' <= c <= 'z' || 'A' <= c <= 'Z' || c == '-'
  }

  predicate IsId(s: string) {
    s != "" && forall k :: 0 <= k < |s| ==> IsIdChar(s[k])
  }

  /** Digits with no leading zero. */
  predicate IsNumeric(s: string) {
    AllDigits(s) && (|s| > 1 ==> s[0] != '0')
  }

  predicate IsVersion(v: Version) {
    && |v.core| == 3 && (forall k :: 0 <= k < 3 ==> IsNumeric(v.core[k]))
    && (forall k :: 0 <= k < |v.pre| ==> IsId(v.pre[k]) && (AllDigits(v.pre[k]) ==> IsNumeric(v.pre[k])))
  }

  function TextOf(v: Version): string {
    Joined(v.core, '.') + (if v.pre == [] then "" else "-" + Joined(v.pre, '.'))
      + (if v.build == "" then "" else "+" + v.build)
  }

  // ---- precedence ----

  predicate IdLess(x: string, y: string) {
    if AllDigits(x) && AllDigits(y) then Value(x) < Value(y)
    else if AllDigits(x) != AllDigits(y) then AllDigits(x)
    else TextLess(x, y)
  }

  /** The first place two lists differ decides, by `IdLess`, or by the first list ending there. */
  predicate ListLessAt(p: seq<string>, q: seq<string>, k: nat) {
    k <= |p| && k < |q| && p[..k] == q[..k] && (k == |p| || IdLess(p[k], q[k]))
  }

  /** Of two prereleases; a release comes after all of its prereleases. */
  ghost predicate PreLess(p: seq<string>, q: seq<string>) {
    if p == [] || q == [] then p != [] && q == [] else exists k :: ListLessAt(p, q, k)
  }

  predicate CoreLessAt(v: Version, w: Version, k: nat)
    requires IsVersion(v) && IsVersion(w)
  {
    k < 3 && v.core[..k] == w.core[..k] && Value(v.core[k]) < Value(w.core[k])
  }

  /** Section 11: the build plays no part. */
  ghost predicate Precedes(v: Version, w: Version)
    requires IsVersion(v) && IsVersion(w)
  {
    (exists k :: CoreLessAt(v, w, k)) || (v.core == w.core && PreLess(v.pre, w.pre))
  }

  predicate SamePrecedence(v: Version, w: Version) {
    v.core == w.core && v.pre == w.pre
  }

  // ---- texts are ordered, and numerals stand for their values ----

  lemma {:induction false} TextOrder(x: string, y: string)
    ensures x == y ==> !TextLess(x, y)
    ensures x != y ==> (TextLess(x, y) <==> !TextLess(y, x))
  {
    if x != "" && y != "" && x[0] == y[0] {
      TextOrder(x[1..], y[1..]);
      assert x == [x[0]] + x[1..] && y == [y[0]] + y[1..];
    }
  }

  lemma {:induction false} TextLessOn(x: string, y: string, z: string)
    requires TextLess(x, y) && TextLess(y, z)
    ensures TextLess(x, z)
    decreases |x|
  {
    if x != "" && y[0] == x[0] && z[0] == y[0] { TextLessOn(x[1..], y[1..], z[1..]); }
  }

  function Power(n: nat): nat {
    if n == 0 then 1 else 10 * Power(n - 1)
  }

  lemma {:induction false} ValueBounds(s: string)
    requires forall k :: 0 <= k < |s| ==> IsDigit(s[k])
    ensures Value(s) < Power(|s|)
    ensures s != "" && s[0] != '0' ==> Value(s) >= Power(|s| - 1)
  {
    if s != "" { ValueBounds(s[..|s| - 1]); }
  }

  lemma {:induction false} PowerGrows(m: nat, n: nat)
    requires m <= n
    ensures Power(m) <= Power(n) && Power(m) > 0
  {
    if m < n { PowerGrows(m, n - 1); } else if m > 0 { PowerGrows(m - 1, n - 1); }
  }

  lemma LastDigit(a: nat, x: int, b: nat, y: int)
    requires 10 * a + x == 10 * b + y && 0 <= x < 10 && 0 <= y < 10
    ensures a == b && x == y
  {
  }

  lemma {:induction false} SameLengthSameValue(s: string, t: string)
    requires |s| == |t| && (forall k :: 0 <= k < |s| ==> IsDigit(s[k]) && IsDigit(t[k])) && Value(s) == Value(t)
    ensures s == t
  {
    if s != "" {
      var n := |s| - 1;
      assert IsDigit(s[n]) && IsDigit(t[n]);
      LastDigit(Value(s[..n]), s[n] as int - '0' as int, Value(t[..n]), t[n] as int - '0' as int);
      SameLengthSameValue(s[..n], t[..n]);
      assert s == s[..n] + [s[n]] && t == t[..n] + [t[n]];
    }
  }

  /** Numerals without leading zeros are the same exactly when their values are. */
  lemma NumeralsAreValues(s: string, t: string)
    requires IsNumeric(s) && IsNumeric(t)
    ensures Value(s) == Value(t) <==> s == t
  {
    ValueBounds(s);
    ValueBounds(t);
    if |s| < |t| { PowerGrows(|s|, |t| - 1); }
    if |t| < |s| { PowerGrows(|t|, |s| - 1); }
    if |s| == |t| && Value(s) == Value(t) { SameLengthSameValue(s, t); }
  }

  // ---- what a version's text parses to ----

  lemma NumericChars(s: string, c: char)
    requires AllDigits(s) && !IsDigit(c)
    ensures c !in s
  {
  }

  lemma IdChars(s: string, c: char)
    requires IsId(s) && !IsIdChar(c)
    ensures c !in s
  {
  }

  lemma {:induction false} JoinedChars(pieces: seq<string>, c: char)
    requires c != '.' && forall k :: 0 <= k < |pieces| ==> c !in pieces[k]
    ensures c !in Joined(pieces, '.')
  {
    if |pieces| > 1 { JoinedChars(pieces[1..], c); }
  }

  lemma JoinedNotEmpty(pieces: seq<string>)
    requires pieces != [] && pieces[0] != ""
    ensures Joined(pieces, '.') != ""
  {
  }

  lemma CoreChars(v: Version)
    requires IsVersion(v)
    ensures '+' !in Joined(v.core, '.') && '-' !in Joined(v.core, '.')
              && forall k :: 0 <= k < 3 ==> Without(v.core[k], '.')
  {
    forall k | 0 <= k < 3 ensures '+' !in v.core[k] && '-' !in v.core[k] && Without(v.core[k], '.') {
      NumericChars(v.core[k], '+');
      NumericChars(v.core[k], '-');
      NumericChars(v.core[k], '.');
    }
    JoinedChars(v.core, '+');
    JoinedChars(v.core, '-');
  }

  lemma PreChars(v: Version)
    requires IsVersion(v)
    ensures '+' !in Joined(v.pre, '.') && forall k :: 0 <= k < |v.pre| ==> Without(v.pre[k], '.')
  {
    forall k | 0 <= k < |v.pre| ensures '+' !in v.pre[k] && Without(v.pre[k], '.') {
      IdChars(v.pre[k], '+');
      IdChars(v.pre[k], '.');
    }
    JoinedChars(v.pre, '+');
  }

  function PreText(v: Version): string {
    if v.pre == [] then "" else "-" + Joined(v.pre, '.')
  }

  lemma TextWithoutBuild(v: Version)
    requires IsVersion(v)
    ensures Before(TextOf(v), '+') == Joined(v.core, '.') + PreText(v)
  {
    CoreChars(v);
    PreChars(v);
    var build := if v.build == "" then "" else "+" + v.build;
    assert TextOf(v) == (Joined(v.core, '.') + PreText(v)) + build;
    BeforeIs(Joined(v.core, '.') + PreText(v), '+', build);
  }

  /** The core and the prerelease of a version come out of its text as they went in. */
  lemma TextParses(v: Version)
    requires IsVersion(v)
    ensures Split(CoreOf(TextOf(v)), '.') == v.core
    ensures PreOf(TextOf(v)) == Joined(v.pre, '.')
    ensures v.pre != [] ==> Split(PreOf(TextOf(v)), '.') == v.pre && PreOf(TextOf(v)) != ""
  {
    var core := Joined(v.core, '.');
    TextWithoutBuild(v);
    CoreChars(v);
    PreChars(v);
    BeforeIs(core, '-', PreText(v));
    SplitJoined(v.core, '.');
    if v.pre != [] {
      assert (core + PreText(v))[|core| + 1..] == Joined(v.pre, '.');
      SplitJoined(v.pre, '.');
      JoinedNotEmpty(v.pre);
    }
  }

  lemma {:induction false} JoinedSame(p: seq<string>, q: seq<string>)
    requires forall k :: 0 <= k < |p| ==> IsId(p[k])
    requires forall k :: 0 <= k < |q| ==> IsId(q[k])
    ensures Joined(p, '.') == Joined(q, '.') <==> p == q
  {
    forall k | 0 <= k < |p| ensures Without(p[k], '.') { IdChars(p[k], '.'); }
    forall k | 0 <= k < |q| ensures Without(q[k], '.') { IdChars(q[k], '.'); }
    if p != [] { SplitJoined(p, '.'); JoinedNotEmpty(p); }
    if q != [] { SplitJoined(q, '.'); JoinedNotEmpty(q); }
  }

  // ---- comparing is precedence with the numbers as rounded ----

  function Rounded(v: Version, k: nat, n: Numbers): real
    requires IsVersion(v) && k < 3
  {
    n.round(Value(v.core[k]))
  }

  predicate RoundsAlike(v: Version, w: Version, k: nat, n: Numbers)
    requires IsVersion(v) && IsVersion(w) && k <= 3
  {
    forall j: nat :: j < k ==> Rounded(v, j, n) == Rounded(w, j, n)
  }

  predicate RoundedLessAt(v: Version, w: Version, n: Numbers, k: nat)
    requires IsVersion(v) && IsVersion(w)
  {
    k < 3 && RoundsAlike(v, w, k, n) && Rounded(v, k, n) < Rounded(w, k, n)
  }

  predicate RoundedIdLess(x: string, y: string, n: Numbers) {
    if AllDigits(x) && AllDigits(y) then n.round(Value(x)) < n.round(Value(y)) else IdLess(x, y)
  }

  predicate RoundedListLessAt(p: seq<string>, q: seq<string>, n: Numbers, k: nat) {
    k <= |p| && k < |q| && p[..k] == q[..k] && (k == |p| || (p[k] != q[k] && RoundedIdLess(p[k], q[k], n)))
  }

  ghost predicate RoundedPreLess(p: seq<string>, q: seq<string>, n: Numbers) {
    if p == [] || q == [] then p != [] && q == [] else exists k :: RoundedListLessAt(p, q, n, k)
  }

  /** Precedence, with every number as rounded. */
  ghost predicate RoundedPrecedes(v: Version, w: Version, n: Numbers)
    requires IsVersion(v) && IsVersion(w)
  {
    (exists k :: RoundedLessAt(v, w, n, k)) || (RoundsAlike(v, w, 3, n) && RoundedPreLess(v.pre, w.pre, n))
  }

  predicate RoundedSame(v: Version, w: Version, n: Numbers)
    requires IsVersion(v) && IsVersion(w)
  {
    RoundsAlike(v, w, 3, n) && v.pre == w.pre
  }

  predicate AreIds(p: seq<string>) {
    forall k :: 0 <= k < |p| ==> IsId(p[k]) && (AllDigits(p[k]) ==> IsNumeric(p[k]))
  }

  lemma PrefixAgrees(p: seq<string>, q: seq<string>, k: nat)
    requires k <= |p| && k <= |q| && p[..k] == q[..k]
    ensures forall m :: 0 <= m < k ==> p[m] == q[m]
  {
    forall m | 0 <= m < k ensures p[m] == q[m] { assert p[..k][m] == q[..k][m]; }
  }

  lemma {:induction false} ComparesCores(v: Version, w: Version, n: Numbers, i: nat)
    requires IsVersion(v) && IsVersion(w) && i <= 3 && RoundsAlike(v, w, i, n)
    ensures var r := CompareCores(TextOf(v), TextOf(w), v.core, w.core, i, n);
            && (r == None <==> RoundsAlike(v, w, 3, n))
            && (r == Some(-1) <==> exists k :: RoundedLessAt(v, w, n, k))
            && (r == None || r == Some(-1) || r == Some(1))
    decreases 3 - i
  {
    if i < 3 {
      if Rounded(v, i, n) == Rounded(w, i, n) {
        ComparesCores(v, w, n, i + 1);
      } else {
        forall k: nat | RoundedLessAt(v, w, n, k) ensures k == i {}
        assert !RoundsAlike(v, w, 3, n);
        assert RoundedLessAt(v, w, n, i) <==> Rounded(v, i, n) < Rounded(w, i, n);
      }
    } else {
      forall k: nat ensures !RoundedLessAt(v, w, n, k) {}
    }
  }

  /** Where two lists first differ, or one ends, is the one place that can decide. */
  lemma FirstDifference(p: seq<string>, q: seq<string>, n: Numbers, i: nat)
    requires i <= |p| && i <= |q| && p[..i] == q[..i] && (i == |p| || i == |q| || p[i] != q[i])
    ensures forall k: nat :: RoundedListLessAt(p, q, n, k) ==> k == i
  {
    forall k: nat | RoundedListLessAt(p, q, n, k) ensures k == i {
      PrefixAgrees(p, q, i);
      PrefixAgrees(p, q, k);
    }
  }

  lemma {:induction false} ComparesPres(p: seq<string>, q: seq<string>, n: Numbers, i: nat)
    requires i <= |p| && i <= |q| && p[..i] == q[..i]
    ensures var r := ComparePres(p, q, i, n);
            && (r == 0 <==> p == q)
            && (r == -1 <==> exists k :: RoundedListLessAt(p, q, n, k))
            && -1 <= r <= 1
    decreases |p| - i
  {
    if i < |p| && i < |q| && p[i] == q[i] {
      assert p[..i + 1] == p[..i] + [p[i]] && q[..i + 1] == q[..i] + [q[i]];
      ComparesPres(p, q, n, i + 1);
    } else {
      FirstDifference(p, q, n, i);
      if i < |p| && i < |q| {
        assert CompareIds(p[i], q[i], n) == Sign(RoundedIdLess(p[i], q[i], n));
        assert RoundedListLessAt(p, q, n, i) == RoundedIdLess(p[i], q[i], n);
      } else {
        assert p[..|p|] == p && q[..|q|] == q;
        assert i < |q| ==> RoundedListLessAt(p, q, n, i);
      }
    }
  }

  /** What the texts of any two versions compare to: precedence with the numbers as rounded. */
  lemma CompareIsRounded(v: Version, w: Version, n: Numbers)
    requires IsVersion(v) && IsVersion(w)
    ensures var r := CompareSemver(TextOf(v), TextOf(w), n);
            && (r == -1 <==> RoundedPrecedes(v, w, n))
            && (r == 0 <==> RoundedSame(v, w, n))
            && -1 <= r <= 1
  {
    TextParses(v);
    TextParses(w);
    JoinedSame(v.pre, w.pre);
    if TextOf(v) == TextOf(w) {
      NoneRoundedLess(v, w, n);
    } else {
      ComparesCores(v, w, n, 0);
      if v.pre != [] && w.pre != [] {
        assert v.pre[..0] == w.pre[..0];
        ComparesPres(v.pre, w.pre, n, 0);
      }
      if RoundsAlike(v, w, 3, n) { forall k: nat ensures !RoundedLessAt(v, w, n, k) {} }
    }
  }

  lemma NoneRoundedLess(v: Version, w: Version, n: Numbers)
    requires IsVersion(v) && IsVersion(w) && SamePrecedence(v, w)
    ensures !RoundedPrecedes(v, w, n) && RoundedSame(v, w, n)
  {
    forall k: nat ensures !RoundedLessAt(v, w, n, k) {}
    assert v.pre[..|v.pre|] == w.pre[..|v.pre|];
    FirstDifference(v.pre, w.pre, n, |v.pre|);
  }

  // ---- and is precedence exactly where rounding does no harm ----

  /** The answer is the precedence of the two. */
  ghost predicate Right(v: Version, w: Version, n: Numbers)
    requires IsVersion(v) && IsVersion(w)
  {
    CompareSemver(TextOf(v), TextOf(w), n) == if Precedes(v, w) then -1 else if SamePrecedence(v, w) then 0 else 1
  }

  predicate DiffersAt(p: seq<string>, q: seq<string>, d: nat) {
    d < |p| && d < |q| && p[..d] == q[..d] && p[d] != q[d]
  }

  /**
   Rounding does the first core number that differs no harm: its order is kept; or, lost to a tie, comes out of
   what follows.
   */
  ghost predicate CoreUnharmed(v: Version, w: Version, n: Numbers, d: nat)
    requires IsVersion(v) && IsVersion(w) && d < 3
  {
    var less := Value(v.core[d]) < Value(w.core[d]);
    if Rounded(v, d, n) != Rounded(w, d, n) then less <==> Rounded(v, d, n) < Rounded(w, d, n)
    else if less then RoundedPrecedes(v, w, n)
    else !RoundedPrecedes(v, w, n) && !RoundedSame(v, w, n)
  }

  /** Nor the first prerelease identifiers that differ, if they are numbers. */
  ghost predicate PreUnharmed(p: seq<string>, q: seq<string>, n: Numbers) {
    forall d: nat :: DiffersAt(p, q, d) && AllDigits(p[d]) && AllDigits(q[d]) ==>
                       (Value(p[d]) < Value(q[d]) <==> n.round(Value(p[d])) < n.round(Value(q[d])))
  }

  lemma SomeDifference(p: seq<string>, q: seq<string>) returns (d: nat)
    ensures d <= |p| && d <= |q| && p[..d] == q[..d] && (d == |p| || d == |q| || p[d] != q[d])
  {
    d := 0;
    while d < |p| && d < |q| && p[d] == q[d]
      invariant d <= |p| && d <= |q| && p[..d] == q[..d]
    {
      assert p[..d + 1] == p[..d] + [p[d]] && q[..d + 1] == q[..d] + [q[d]];
      d := d + 1;
    }
  }

  lemma DecidedAt(v: Version, w: Version, d: nat)
    requires IsVersion(v) && IsVersion(w) && DiffersAt(v.core, w.core, d)
    ensures Precedes(v, w) <==> Value(v.core[d]) < Value(w.core[d])
    ensures Value(v.core[d]) != Value(w.core[d]) && v.core != w.core
  {
    NumeralsAreValues(v.core[d], w.core[d]);
    forall k: nat | CoreLessAt(v, w, k) ensures k == d {
      PrefixAgrees(v.core, w.core, d);
      PrefixAgrees(v.core, w.core, k);
    }
    if Value(v.core[d]) < Value(w.core[d]) { assert CoreLessAt(v, w, d); }
  }

  lemma RoundedDecidedAt(v: Version, w: Version, n: Numbers, d: nat)
    requires IsVersion(v) && IsVersion(w) && DiffersAt(v.core, w.core, d) && Rounded(v, d, n) != Rounded(w, d, n)
    ensures RoundedPrecedes(v, w, n) <==> Rounded(v, d, n) < Rounded(w, d, n)
    ensures !RoundedSame(v, w, n)
  {
    PrefixAgrees(v.core, w.core, d);
    assert RoundsAlike(v, w, d, n) && !RoundsAlike(v, w, 3, n);
    forall k: nat | RoundedLessAt(v, w, n, k) ensures k == d {}
    if Rounded(v, d, n) < Rounded(w, d, n) { assert RoundedLessAt(v, w, n, d); }
  }

  lemma CoreRightIff(v: Version, w: Version, n: Numbers, d: nat)
    requires IsVersion(v) && IsVersion(w) && DiffersAt(v.core, w.core, d)
    ensures Right(v, w, n) <==> CoreUnharmed(v, w, n, d)
  {
    CompareIsRounded(v, w, n);
    DecidedAt(v, w, d);
    if Rounded(v, d, n) != Rounded(w, d, n) { RoundedDecidedAt(v, w, n, d); }
  }

  lemma SameCoreAlike(v: Version, w: Version, n: Numbers)
    requires IsVersion(v) && IsVersion(w) && v.core == w.core
    ensures RoundsAlike(v, w, 3, n) && (forall k: nat :: !RoundedLessAt(v, w, n, k) && !CoreLessAt(v, w, k))
  {
  }

  lemma PreRightIff(v: Version, w: Version, n: Numbers)
    requires IsVersion(v) && IsVersion(w) && v.core == w.core
    ensures Right(v, w, n) <==> PreUnharmed(v.pre, w.pre, n)
  {
    CompareIsRounded(v, w, n);
    SameCoreAlike(v, w, n);
    PresDecide(v.pre, w.pre, n);
    if v.pre == w.pre { NoneRoundedLess(v, w, n); }
  }

  /** The prereleases are ordered by rounded numbers as by real ones exactly when the deciding place is not harmed. */
  lemma PresDecide(p: seq<string>, q: seq<string>, n: Numbers)
    ensures p == q ==> !PreLess(p, q) && PreUnharmed(p, q, n)
    ensures p != q ==> ((PreLess(p, q) <==> RoundedPreLess(p, q, n)) <==> PreUnharmed(p, q, n))
  {
    var d := SomeDifference(p, q);
    FirstDifference(p, q, n, d);
    forall k: nat | ListLessAt(p, q, k) ensures k == d {
      PrefixAgrees(p, q, d);
      PrefixAgrees(p, q, k);
      if k < |p| { TextOrder(p[k], p[k]); }
    }
    forall k: nat | DiffersAt(p, q, k) ensures k == d {
      PrefixAgrees(p, q, d);
      PrefixAgrees(p, q, k);
    }
    assert p[..|p|] == p && q[..|q|] == q;
    assert ListLessAt(p, q, d) <==> d < |q| && (d == |p| || IdLess(p[d], q[d]));
    assert RoundedListLessAt(p, q, n, d) <==> d < |q| && (d == |p| || RoundedIdLess(p[d], q[d], n));
    if d < |p| && d < |q| { assert DiffersAt(p, q, d); }
  }

  /**
   For any two versions: what their texts compare to is their precedence exactly when rounding does no harm to the
   first core numbers that differ, or, the cores being the same, to the first prerelease identifiers that do.
   */
  lemma RightIff(v: Version, w: Version, n: Numbers)
    requires IsVersion(v) && IsVersion(w)
    ensures Right(v, w, n) <==>
              if v.core == w.core then PreUnharmed(v.pre, w.pre, n)
              else exists d: nat :: d < 3 && DiffersAt(v.core, w.core, d) && CoreUnharmed(v, w, n, d)
  {
    if v.core == w.core {
      PreRightIff(v, w, n);
    } else {
      var d := SomeDifference(v.core, w.core);
      assert v.core[..3] == v.core && w.core[..3] == w.core && DiffersAt(v.core, w.core, d);
      CoreRightIff(v, w, n, d);
      forall k: nat | DiffersAt(v.core, w.core, k) ensures k == d {
        PrefixAgrees(v.core, w.core, d);
        PrefixAgrees(v.core, w.core, k);
      }
    }
  }

  // ---- numbers kept in order ----

  /** Two numbers keep their order; doubles keep that of any two up to 2 to the 53rd. */
  predicate KeepsOrder(n: Numbers, x: nat, y: nat) {
    (x < y <==> n.round(x) < n.round(y)) && (y < x <==> n.round(y) < n.round(x))
  }

  predicate IdsKept(p: seq<string>, q: seq<string>, n: Numbers) {
    forall i, j :: 0 <= i < |p| && 0 <= j < |q| && AllDigits(p[i]) && AllDigits(q[j])
        ==> KeepsOrder(n, Value(p[i]), Value(q[j]))
  }

  predicate Kept(v: Version, w: Version, n: Numbers) {
    IdsKept(v.core, w.core, n) && IdsKept(v.pre, w.pre, n)
  }

  lemma KeptIsRight(v: Version, w: Version, n: Numbers)
    requires IsVersion(v) && IsVersion(w) && Kept(v, w, n)
    ensures Right(v, w, n)
  {
    RightIff(v, w, n);
    if v.core == w.core {
      forall d: nat | DiffersAt(v.pre, w.pre, d) && AllDigits(v.pre[d]) && AllDigits(w.pre[d])
        ensures Value(v.pre[d]) < Value(w.pre[d]) <==> n.round(Value(v.pre[d])) < n.round(Value(w.pre[d]))
      {
        assert KeepsOrder(n, Value(v.pre[d]), Value(w.pre[d]));
      }
    } else {
      var d := SomeDifference(v.core, w.core);
      assert v.core[..3] == v.core && w.core[..3] == w.core && DiffersAt(v.core, w.core, d);
      NumeralsAreValues(v.core[d], w.core[d]);
      assert KeepsOrder(n, Value(v.core[d]), Value(w.core[d]));
    }
  }

  /** So where all their numbers keep their order, what two versions compare to is their precedence. */
  lemma CompareIsPrecedence(v: Version, w: Version, n: Numbers)
    requires IsVersion(v) && IsVersion(w) && Kept(v, w, n)
    ensures var r := CompareSemver(TextOf(v), TextOf(w), n);
            && (r == -1 <==> Precedes(v, w))
            && (r == 1 <==> Precedes(w, v))
            && (r == 0 <==> SamePrecedence(v, w))
            && -1 <= r <= 1
  {
    KeptIsRight(v, w, n);
    PrecedesOneWay(v, w);
  }

  /** All the numbers of a version are at most this. */
  predicate UpTo(v: Version, bound: nat)
    requires IsVersion(v)
  {
    && (forall k :: 0 <= k < 3 ==> Value(v.core[k]) <= bound)
    && (forall k :: 0 <= k < |v.pre| && AllDigits(v.pre[k]) ==> Value(v.pre[k]) <= bound)
  }

  ghost predicate AllRight(n: Numbers, bound: nat) {
    forall v, w :: IsVersion(v) && IsVersion(w) && UpTo(v, bound) && UpTo(w, bound) ==> Right(v, w, n)
  }

  predicate Increasing(n: Numbers, bound: nat) {
    forall x: nat, y: nat :: x < y <= bound ==> n.round(x) < n.round(y)
  }

  /**
   Comparing is precedence on all versions with numbers up to a bound exactly when no two numbers up to it
   round alike or out of order.
   */
  lemma AllRightIff(n: Numbers, bound: nat)
    ensures AllRight(n, bound) <==> Increasing(n, bound)
  {
    if Increasing(n, bound) {
      forall v, w | IsVersion(v) && IsVersion(w) && UpTo(v, bound) && UpTo(w, bound) ensures Right(v, w, n) {
        KeptIsRight(v, w, n);
      }
    } else {
      var x: nat, y: nat :| x < y <= bound && !(n.round(x) < n.round(y));
      var v, w := Plain(x), Plain(y);
      PlainIs(x);
      PlainIs(y);
      PlainDiffer(x, y);
      CoreRightIff(v, w, n, 0);
      PlainHarmed(x, y, n);
    }
  }

  lemma PlainHarmed(x: nat, y: nat, n: Numbers)
    requires x < y && !(n.round(x) < n.round(y)) && IsVersion(Plain(x)) && IsVersion(Plain(y))
    requires Value(Plain(x).core[0]) == x && Value(Plain(y).core[0]) == y
    ensures !CoreUnharmed(Plain(x), Plain(y), n, 0)
  {
    var v, w := Plain(x), Plain(y);
    forall k: nat ensures !RoundedLessAt(v, w, n, k) {
      if k > 0 && k < 3 { assert Rounded(v, k, n) == Rounded(w, k, n); }
    }
  }

  /** A number written out. */
  function Numeral(x: nat): (s: string)
    ensures IsNumeric(s) && Value(s) == x && (x > 0 ==> s[0] != '0')
  {
    var last := [('0' as int + x % 10) as char];
    if x < 10 then assert last[..0] == ""; last
    else
      var s := Numeral(x / 10) + last;
      assert s[..|s| - 1] == Numeral(x / 10);
      s
  }

  function Plain(x: nat): Version {
    Version([Numeral(x), "0", "0"], [], "")
  }

  lemma PlainIs(x: nat)
    ensures IsVersion(Plain(x)) && Value(Plain(x).core[0]) == x
              && (forall bound: nat :: x <= bound ==> UpTo(Plain(x), bound))
  {
    assert "0"[..0] == "" && Value("0") == 0;
  }

  lemma PlainDiffer(x: nat, y: nat)
    requires x != y
    ensures DiffersAt(Plain(x).core, Plain(y).core, 0)
  {
    assert Plain(x).core[..0] == Plain(y).core[..0];
  }

  /**
   Integers as doubles hold them up to 2 to the 54th: from 2 to the 53rd only even ones, an odd one going to
   the nearer multiple of four.
   */
  const DOUBLES := Numbers(k => (if k <= TWO_TO_53 || k % 2 == 0 then k else if k % 4 == 1 then k - 1
    else k + 1) as real, s => None)
  const TWO_TO_53: nat := 0x20_0000_0000_0000

  /** Up to 2 to the 53rd doubles are right about every two versions, and no further. */
  lemma DoublesRightUpTo()
    ensures AllRight(DOUBLES, TWO_TO_53) && !AllRight(DOUBLES, TWO_TO_53 + 1)
  {
    AllRightIff(DOUBLES, TWO_TO_53);
    AllRightIff(DOUBLES, TWO_TO_53 + 1);
    DoublesIncreaseUpTo(TWO_TO_53);
  }

  lemma DoublesIncreaseUpTo(top: nat)
    requires top == TWO_TO_53
    ensures Increasing(DOUBLES, top) && !Increasing(DOUBLES, top + 1)
  {
    assert DOUBLES.round(top) == DOUBLES.round(top + 1);
  }

  /**
   Past it whole families go wrong, from 9007199254740992.0.0 and 9007199254740993.0.0 on: the one comes before the
   other, and they compare the same; and as prerelease identifiers each is put after the other.
   */
  lemma DoublesGoWrong(x: nat)
    requires TWO_TO_53 <= x < 2 * TWO_TO_53 && x % 4 == 0
    ensures var v, w := Plain(x), Plain(x + 1);
            IsVersion(v) && IsVersion(w) && Precedes(v, w) && CompareSemver(TextOf(v), TextOf(w), DOUBLES) == 0
    ensures CompareIds(Numeral(x), Numeral(x + 1), DOUBLES) == 1 && CompareIds(Numeral(x + 1), Numeral(x), DOUBLES) == 1
  {
    assert DOUBLES.round(x) == DOUBLES.round(x + 1);
    TieGoesWrong(x, x + 1, DOUBLES);
  }

  lemma TieGoesWrong(x: nat, y: nat, n: Numbers)
    requires x < y && n.round(x) == n.round(y)
    ensures var v, w := Plain(x), Plain(y);
            IsVersion(v) && IsVersion(w) && Precedes(v, w) && CompareSemver(TextOf(v), TextOf(w), n) == 0
    ensures CompareIds(Numeral(x), Numeral(y), n) == 1 && CompareIds(Numeral(y), Numeral(x), n) == 1
  {
    var v, w := Plain(x), Plain(y);
    PlainIs(x);
    PlainIs(y);
    PlainDiffer(x, y);
    DecidedAt(v, w, 0);
    CompareIsRounded(v, w, n);
    forall k: nat | k < 3 ensures Rounded(v, k, n) == Rounded(w, k, n) {}
  }

  // ---- precedence is an order ----

  lemma IdLessOn(x: string, y: string, z: string)
    requires IdLess(x, y) && IdLess(y, z)
    ensures IdLess(x, z)
  {
    if !AllDigits(x) && !AllDigits(y) && !AllDigits(z) { TextLessOn(x, y, z); }
  }

  lemma ListLessOn(p: seq<string>, q: seq<string>, r: seq<string>, i: nat, j: nat)
    requires ListLessAt(p, q, i) && ListLessAt(q, r, j)
    ensures ListLessAt(p, r, if i < j then i else j)
  {
    var k := if i < j then i else j;
    PrefixAgrees(p, q, i);
    PrefixAgrees(q, r, j);
    assert p[..k] == r[..k];
    if i == j && i < |p| { IdLessOn(p[i], q[i], r[i]); }
  }

  /** Precedence is transitive. */
  lemma PrecedesOn(u: Version, v: Version, w: Version)
    requires IsVersion(u) && IsVersion(v) && IsVersion(w) && Precedes(u, v) && Precedes(v, w)
    ensures Precedes(u, w)
  {
    if i: nat :| CoreLessAt(u, v, i) {
      if j: nat :| CoreLessAt(v, w, j) {
        var k := if i < j then i else j;
        PrefixAgrees(u.core, v.core, i);
        PrefixAgrees(v.core, w.core, j);
        assert u.core[..k] == w.core[..k];
        assert CoreLessAt(u, w, k);
      } else {
        assert CoreLessAt(u, w, i);
      }
    } else if j: nat :| CoreLessAt(v, w, j) {
      assert CoreLessAt(u, w, j);
    } else if u.pre != [] && v.pre != [] && w.pre != [] {
      var i: nat :| ListLessAt(u.pre, v.pre, i);
      var j: nat :| ListLessAt(v.pre, w.pre, j);
      ListLessOn(u.pre, v.pre, w.pre, i, j);
    }
  }

  const EXACT := Numbers(k => k as real, s => None)

  /** Of two versions exactly one comes first, or they have the same precedence. */
  lemma PrecedesOneWay(v: Version, w: Version)
    requires IsVersion(v) && IsVersion(w)
    ensures !(Precedes(v, w) && Precedes(w, v))
    ensures SamePrecedence(v, w) <==> !Precedes(v, w) && !Precedes(w, v)
  {
    if v.core != w.core {
      var d := SomeDifference(v.core, w.core);
      assert v.core[..3] == v.core && w.core[..3] == w.core && DiffersAt(v.core, w.core, d)
               && DiffersAt(w.core, v.core, d);
      DecidedAt(v, w, d);
      DecidedAt(w, v, d);
    } else {
      SameCoreAlike(v, w, EXACT);
      SameCoreAlike(w, v, EXACT);
      PreOneWay(v.pre, w.pre);
    }
  }

  lemma PreOneWay(p: seq<string>, q: seq<string>)
    requires AreIds(p) && AreIds(q)
    ensures !(PreLess(p, q) && PreLess(q, p))
    ensures p == q <==> !PreLess(p, q) && !PreLess(q, p)
  {
    var d := SomeDifference(p, q);
    forall k: nat | ListLessAt(p, q, k) || ListLessAt(q, p, k) ensures k == d {
      PrefixAgrees(p, q, d);
      PrefixAgrees(p, q, k);
      if k < |p| { TextOrder(p[k], p[k]); }
    }
    assert p[..|p|] == p && q[..|q|] == q;
    assert ListLessAt(p, q, d) <==> d < |q| && (d == |p| || IdLess(p[d], q[d]));
    assert ListLessAt(q, p, d) <==> d < |p| && (d == |q| || IdLess(q[d], p[d]));
    if d < |p| && d < |q| {
      TextOrder(p[d], q[d]);
      if AllDigits(p[d]) && AllDigits(q[d]) { NumeralsAreValues(p[d], q[d]); }
    }
  }

  /**
   Where rounding makes two different numeric identifiers one, as doubles do past 2 to the 53rd, comparing
   puts each after the other: the answers are opposite exactly when the rounded values differ.
   */
  lemma RoundedIdsOpposeIff(x: string, y: string, n: Numbers)
    requires IsNumeric(x) && IsNumeric(y) && x != y
    ensures CompareIds(x, y, n) == -CompareIds(y, x, n) <==> n.round(Value(x)) != n.round(Value(y))
  {
  }
}
