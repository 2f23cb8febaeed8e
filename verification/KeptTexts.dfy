/**
 The report texts kept in memory (client/storage.js): an insertion-ordered map,
 least lately read first, held to a number of characters between them.
 */
module KeptTexts {

  datatype Slot = Slot(name: string, text: string)

  function Chars(s: seq<Slot>): nat {
    if s == [] then 0 else |s[0].text| + Chars(s[1..])
  }

  predicate OneEach(s: seq<Slot>) {
    forall i, j :: 0 <= i < j < |s| ==> s[i].name != s[j].name
  }

  predicate Has(s: seq<Slot>, name: string) {
    exists i :: 0 <= i < |s| && s[i].name == name
  }

  predicate Holds(s: seq<Slot>, name: string, text: string) {
    Slot(name, text) in s
  }

  /** Where a name stands; past the end when nothing is kept under it. */
  function At(s: seq<Slot>, name: string): (i: nat)
    ensures i <= |s| && (i < |s| ==> s[i].name == name)
    ensures forall k :: 0 <= k < i ==> s[k].name != name
  {
    if s == [] || s[0].name == name then 0 else
      var i := At(s[1..], name);
      assert forall k :: 1 <= k < i + 1 ==> s[k] == s[1..][k - 1];
      i + 1
  }

  function Drop(s: seq<Slot>, i: nat): seq<Slot>
    requires i < |s|
  {
    s[..i] + s[i + 1..]
  }

  function Forget(s: seq<Slot>, name: string): seq<Slot> {
    var i := At(s, name);
    if i < |s| then Drop(s, i) else s
  }

  /** The longest run of the latest texts that fits. */
  function Trim(s: seq<Slot>, most: nat): seq<Slot> {
    if Chars(s) <= most || s == [] then s else Trim(s[1..], most)
  }

  /** A text too long for the whole is not kept; any other goes last, and the first go until all fit. */
  function Keep(s: seq<Slot>, most: nat, name: string, text: string): seq<Slot> {
    if |text| > most then Forget(s, name) else Trim(Forget(s, name) + [Slot(name, text)], most)
  }

  /** A kept text read again goes last. */
  function Touch(s: seq<Slot>, name: string): seq<Slot> {
    var i := At(s, name);
    if i < |s| then Drop(s, i) + [s[i]] else s
  }

  lemma {:induction false} CharsJoin(s: seq<Slot>, t: seq<Slot>)
    ensures Chars(s + t) == Chars(s) + Chars(t)
  {
    if s == [] {
      assert s + t == t;
    } else {
      assert (s + t)[0] == s[0] && (s + t)[1..] == s[1..] + t;
      CharsJoin(s[1..], t);
    }
  }

  lemma LoneChars(x: Slot)
    ensures Chars([x]) == |x.text|
  {
    assert [x][1..] == [] && Chars([x]) == |x.text| + Chars([x][1..]);
  }

  lemma CharsSplit(s: seq<Slot>, i: nat)
    requires i < |s|
    ensures Chars(s) == Chars(Drop(s, i)) + |s[i].text|
  {
    assert s == s[..i] + ([s[i]] + s[i + 1..]);
    CharsJoin(s[..i], [s[i]] + s[i + 1..]);
    CharsJoin([s[i]], s[i + 1..]);
    LoneChars(s[i]);
    CharsJoin(s[..i], s[i + 1..]);
  }

  lemma DropKeepsOneEach(s: seq<Slot>, i: nat)
    requires OneEach(s) && i < |s|
    ensures OneEach(Drop(s, i)) && !Has(Drop(s, i), s[i].name)
    ensures forall x :: x in Drop(s, i) <==> x in s && x.name != s[i].name
  {
    var d := Drop(s, i);
    forall k | 0 <= k < |d| ensures d[k] == s[if k < i then k else k + 1] {}
    forall x | x in s && x.name != s[i].name ensures x in d {
      var k :| 0 <= k < |s| && s[k] == x;
      assert d[if k < i then k else k - 1] == x;
    }
  }

  /** Forgetting takes out what is kept under the name and nothing else. */
  lemma ForgetIs(s: seq<Slot>, name: string)
    requires OneEach(s)
    ensures OneEach(Forget(s, name)) && !Has(Forget(s, name), name) && Chars(Forget(s, name)) <= Chars(s)
    ensures forall x :: x in Forget(s, name) <==> x in s && x.name != name
  {
    var i := At(s, name);
    if i < |s| {
      DropKeepsOneEach(s, i);
      CharsSplit(s, i);
    }
  }

  /** Putting a text last under a name nothing else has. */
  lemma AppendIs(s: seq<Slot>, x: Slot)
    requires OneEach(s) && !Has(s, x.name)
    ensures OneEach(s + [x]) && Chars(s + [x]) == Chars(s) + |x.text|
    ensures forall y :: y in s + [x] <==> y in s || y == x
  {
    CharsJoin(s, [x]);
    LoneChars(x);
    assert (s + [x])[|s|] == x;
  }

  /** Reading a kept text again keeps the same texts, in the same number of characters, with this one last. */
  lemma TouchIs(s: seq<Slot>, name: string)
    requires OneEach(s)
    ensures OneEach(Touch(s, name)) && Chars(Touch(s, name)) == Chars(s)
    ensures forall x :: x in Touch(s, name) <==> x in s
    ensures Has(s, name) ==> var t := Touch(s, name); t != [] && t[|t| - 1].name == name
  {
    var i := At(s, name);
    if i < |s| {
      DropKeepsOneEach(s, i);
      CharsSplit(s, i);
      AppendIs(Drop(s, i), s[i]);
      forall x | x in s ensures x in Touch(s, name) {
        var k :| 0 <= k < |s| && s[k] == x;
        if x.name == name && k != i { assert false; }
      }
    }
  }

  /**
   Trimming drops exactly the least lately read: what stays is a tail, it fits,
   and no longer tail would have.
   */
  lemma {:induction false} TrimIsLeast(s: seq<Slot>, most: nat) returns (k: nat)
    ensures k <= |s| && Trim(s, most) == s[k..] && Chars(s[k..]) <= most
    ensures forall j {:trigger s[j..]} :: 0 <= j < k ==> Chars(s[j..]) > most
    decreases |s|
  {
    if Chars(s) <= most || s == [] {
      assert s[0..] == s;
      k := 0;
    } else {
      k := TrimIsLeast(s[1..], most);
      assert s[1..][k..] == s[k + 1..];
      forall j {:trigger s[j..]} | 0 <= j < k + 1 ensures Chars(s[j..]) > most {
        if j > 0 { assert s[1..][j - 1..] == s[j..]; } else { assert s[0..] == s; }
      }
      k := k + 1;
    }
  }

  /** No tail of `s` longer than the one from `k` is within `most`. */
  ghost predicate NoLonger(s: seq<Slot>, k: nat, most: nat)
    requires k <= |s|
  {
    forall j: nat {:trigger s[j..]} :: j < k ==> Chars(s[j..]) > most
  }

  lemma TrimWithLast(rest: seq<Slot>, x: Slot, most: nat) returns (k: nat)
    requires |x.text| <= most
    ensures k <= |rest| && Trim(rest + [x], most) == rest[k..] + [x] && Chars(rest[k..] + [x]) <= most
    ensures NoLonger(rest, k, most - |x.text|)
  {
    var u := rest + [x];
    k := TrimIsLeast(u, most);
    assert u[|rest|..] == [x];
    LoneChars(x);
    assert u[k..] == rest[k..] + [x];
    forall j: nat {:trigger rest[j..]} | j < k ensures Chars(rest[j..]) > most - |x.text| {
      assert u[j..] == rest[j..] + [x];
      CharsJoin(rest[j..], [x]);
    }
  }

  lemma TailKeepsOneEach(s: seq<Slot>, k: nat)
    requires OneEach(s) && k <= |s|
    ensures OneEach(s[k..]) && forall x :: x in s[k..] ==> x in s
  {
    forall i, j | 0 <= i < j < |s[k..]| ensures s[k..][i].name != s[k..][j].name {
      assert s[k..][i] == s[k + i] && s[k..][j] == s[k + j];
    }
  }

  /**
   Keeping leaves one text a name within the bound, this one last if it fits at all, adds no other, and of
   the others drops exactly the least lately read that had to go.
   */
  lemma KeepIs(s: seq<Slot>, most: nat, name: string, text: string) returns (k: nat)
    requires OneEach(s)
    requires |text| <= most
    ensures k <= |Forget(s, name)| && Keep(s, most, name, text) == Forget(s, name)[k..] + [Slot(name, text)]
    ensures OneEach(Keep(s, most, name, text)) && Chars(Keep(s, most, name, text)) <= most
    ensures NoLonger(Forget(s, name), k, most - |text|)
  {
    ForgetIs(s, name);
    k := TrimWithLast(Forget(s, name), Slot(name, text), most);
    TailKeepsOneEach(Forget(s, name), k);
    AppendIs(Forget(s, name)[k..], Slot(name, text));
  }

  /** What is kept after keeping: this text if it fits, and only texts that were kept. */
  lemma KeepHolds(s: seq<Slot>, most: nat, name: string, text: string)
    requires OneEach(s) && Chars(s) <= most
    ensures var t := Keep(s, most, name, text);
            && OneEach(t) && Chars(t) <= most
            && (Slot(name, text) in t <==> |text| <= most)
            && forall x :: x in t ==> (x in s && x.name != name) || x == Slot(name, text)
  {
    ForgetIs(s, name);
    if |text| <= most {
      var k := KeepIs(s, most, name, text);
      var t := Keep(s, most, name, text);
      assert t[|t| - 1] == Slot(name, text);
      forall x | x in t ensures (x in s && x.name != name) || x == Slot(name, text) {
        if x != Slot(name, text) { assert x in Forget(s, name)[k..] && x in Forget(s, name); }
      }
    } else {
      assert Slot(name, text) !in Forget(s, name);
    }
  }

  /** The map and its running count of characters. */
  class TextCache {
    const most: nat
    var cache: seq<Slot>
    var keptChars: int

    ghost predicate Valid()
      reads this
    {
      OneEach(cache) && keptChars == Chars(cache) <= most
    }

    ghost predicate Counted()
      reads this
    {
      OneEach(cache) && keptChars == Chars(cache)
    }

    constructor (most: nat)
      ensures Valid() && cache == [] && this.most == most
    {
      this.most, cache, keptChars := most, [], 0;
    }

    /** Looks a name up. */
    method Find(name: string) returns (i: nat)
      ensures i == At(cache, name)
    {
      i := 0;
      while i < |cache| && cache[i].name != name
        invariant 0 <= i <= |cache| && forall j :: 0 <= j < i ==> cache[j].name != name
      {
        i := i + 1;
      }
    }

    /** forgetText. */
    method ForgetText(name: string)
      requires Counted()
      modifies this
      ensures Counted() && cache == Forget(old(cache), name)
    {
      var i := Find(name);
      if i == |cache| { return; }
      CharsSplit(cache, i);
      DropKeepsOneEach(cache, i);
      keptChars := keptChars - |cache[i].text|;
      cache := Drop(cache, i);
    }

    /** The first names go, in order, until the rest fit. */
    method Evict()
      requires Counted()
      modifies this
      ensures Valid() && cache == Trim(old(cache), most)
    {
      while cache != [] && keptChars > most
        invariant Counted() && Trim(cache, most) == Trim(old(cache), most)
        decreases |cache|
      {
        CharsSplit(cache, 0);
        assert Drop(cache, 0) == cache[1..];
        ForgetText(cache[0].name);
      }
    }

    /** keepText. */
    method KeepText(name: string, content: string)
      requires Valid()
      modifies this
      ensures Valid() && cache == Keep(old(cache), most, name, content)
    {
      ForgetIs(cache, name);
      ForgetText(name);
      if |content| > most { return; }
      AppendIs(cache, Slot(name, content));
      cache := cache + [Slot(name, content)];
      keptChars := keptChars + |content|;
      Evict();
    }

    /** What readFile does first: a kept text is served, and goes last if it is to be kept. */
    method ReadKept(name: string, keep: bool) returns (found: bool, text: string)
      requires Valid()
      modifies this
      ensures Valid() && (found <==> Has(old(cache), name)) && (found ==> Holds(old(cache), name, text))
      ensures cache == if keep then Touch(old(cache), name) else old(cache)
    {
      found, text := false, "";
      var i := Find(name);
      if i == |cache| { return; }
      found, text := true, cache[i].text;
      if keep {
        TouchIs(cache, name);
        cache := Drop(cache, i) + [cache[i]];
      }
    }
  }
}
