/**
 The passkey vault and what it leaves at rest (client/passkey-vault.js,
 client/storage.js): tabs with session keys, the metadata they share, saves
 under the shared vault lock, and enabling, disabling, unlocking and wiping
 under the exclusive one. The steps are the stretches of code between awaits;
 a run is any sequence of them.
 */
module AtRest {
  import opened Options

  /** Where an entry is stored: a report by name, a bundle file by its storage key. */
  datatype File = ReportFile(name: string) | BundleFile(key: string)

  /** An entry at rest; a sealed one opens only under its credential's key and its additional data. */
  datatype Entry = Plain(text: string) | Sealed(cred: nat, aad: string, text: string)

  const OPFS_PREFIX := "deepview.opfs.v1|"
  const BUNDLE_PREFIX := "deepview.bundle.v1|"
  const META_FILE := "_meta.json"
  const META_SLOT := "__meta__"
  const SRI_PREFIX := "sha512-"

  function Replaced(s: string, from: char, to: char): string {
    seq(|s|, i requires 0 <= i < |s| => if s[i] == from then to else s[i])
  }

  function IntegrityToOpfsKey(integrity: string): string {
    Replaced(integrity, '/', '_')
  }

  /** The slot a stored bundle file was sealed under, or none for a stray file. */
  function BundleSlot(key: string): Option<string> {
    if key == META_FILE then Some(META_SLOT)
    else if !(SRI_PREFIX <= key) then None
    else Some(Replaced(key, '_', '/'))
  }

  /** The additional data a file's envelope carries, under an identity tag; none for a stray file. */
  function AadFor(file: File, tag: string): Option<string> {
    match file
    case ReportFile(name) => Some(OPFS_PREFIX + tag + "|" + name)
    case BundleFile(key) =>
      match BundleSlot(key)
      case None => None
      case Some(slot) => Some(BUNDLE_PREFIX + tag + "|" + slot)
  }

  /** Base64url tags hold no separator. */
  predicate IsTag(tag: string) {
    '|' !in tag
  }

  /** An integrity as computed: the SRI prefix, then canonical base64 (or the index suffix), never '_'. */
  predicate IsIntegrity(slot: string) {
    SRI_PREFIX <= slot && '_' !in slot
  }

  /** The slot a bundle is saved under is the one its file name maps back to. */
  lemma SlotRoundTrip(integrity: string)
    requires IsIntegrity(integrity)
    ensures BundleSlot(IntegrityToOpfsKey(integrity)) == Some(integrity)
  {
    var key := IntegrityToOpfsKey(integrity);
    assert key[..|SRI_PREFIX|] == SRI_PREFIX by {
      forall i | 0 <= i < |SRI_PREFIX| ensures key[i] == SRI_PREFIX[i] {
        assert integrity[i] == SRI_PREFIX[i];
      }
    }
    assert SRI_PREFIX <= key && key[0] == 's' && META_FILE[0] == '_';
    forall i | 0 <= i < |key| ensures Replaced(key, '_', '/')[i] == integrity[i] {
      assert integrity[i] in integrity;
    }
    assert Replaced(key, '_', '/') == integrity;
  }

  lemma SlotHead(key: string)
    requires BundleSlot(key).Some? && key != META_FILE
    ensures SRI_PREFIX <= Replaced(key, '_', '/') && BundleSlot(key) == Some(Replaced(key, '_', '/'))
  {
    var r := Replaced(key, '_', '/');
    forall i | 0 <= i < |SRI_PREFIX| ensures r[i] == SRI_PREFIX[i] {
      assert key[i] == SRI_PREFIX[i];
    }
  }

  /** The reserved slot of the bundle list is no bundle's. */
  lemma MetaSlotIsReserved(key: string)
    ensures BundleSlot(key) == Some(META_SLOT) <==> key == META_FILE
  {
    if BundleSlot(key).Some? && key != META_FILE {
      SlotHead(key);
      assert BundleSlot(key).value[0] == SRI_PREFIX[0] && META_SLOT[0] != SRI_PREFIX[0];
    }
  }

  function FirstBar(s: string): nat {
    if s == [] || s[0] == '|' then 0 else 1 + FirstBar(s[1..])
  }

  lemma {:induction false} FirstBarAfter(tag: string, rest: string)
    requires IsTag(tag)
    ensures FirstBar(tag + "|" + rest) == |tag|
  {
    var s := tag + "|" + rest;
    if tag != [] {
      assert s[1..] == tag[1..] + "|" + rest && s[0] == tag[0] && tag[0] in tag;
      FirstBarAfter(tag[1..], rest);
    }
  }

  /** The tag and what follows it can be told apart again. */
  lemma CutAtBar(a: string, b: string, x: string, y: string)
    requires IsTag(a) && IsTag(b) && a + "|" + x == b + "|" + y
    ensures a == b && x == y
  {
    var s, t := a + "|" + x, b + "|" + y;
    FirstBarAfter(a, x);
    FirstBarAfter(b, y);
    assert a == s[..|a|] && b == t[..|b|];
    assert x == s[|a| + 1..] && y == t[|b| + 1..];
  }

  lemma AadHead(file: File, tag: string)
    requires AadFor(file, tag).Some?
    ensures |AadFor(file, tag).value| > 9 && (AadFor(file, tag).value[9] == 'o' <==> file.ReportFile?)
  {
    assert OPFS_PREFIX[9] == 'o' && BUNDLE_PREFIX[9] == 'b';
  }

  /** A file's additional data binds its tag, its kind and its slot. */
  lemma AadBinds(file: File, tag: string, other: File, otherTag: string)
    requires IsTag(tag) && IsTag(otherTag) && AadFor(file, tag).Some? && AadFor(file, tag) == AadFor(other, otherTag)
    ensures otherTag == tag
    ensures if file.ReportFile? then other == file
            else other.BundleFile? && BundleSlot(other.key) == BundleSlot(file.key)
  {
    AadHead(file, tag);
    AadHead(other, otherTag);
    var s, n := AadFor(file, tag).value, if file.ReportFile? then |OPFS_PREFIX| else |BUNDLE_PREFIX|;
    var x := if file.ReportFile? then file.name else BundleSlot(file.key).value;
    var y := if other.ReportFile? then other.name else BundleSlot(other.key).value;
    assert s[n..] == tag + "|" + x && s[n..] == otherTag + "|" + y;
    CutAtBar(tag, otherTag, x, y);
  }

  predicate Opens(entry: Entry, cred: nat, aad: string) {
    entry.Sealed? && entry.cred == cred && entry.aad == aad
  }
}
