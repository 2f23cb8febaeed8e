/**
 Links to one finding (client/finding-link.js:142-258, common/finding-id.js): the
 fragment built for an id and its two hints, and what is read back of one.
 */
module FindingLink {
  import opened Options
  import opened Splitting
  import opened UriComponent

  const MAX_ID := 512
  const NO_HINT := "AAAA"

  predicate IsWord(c: char) {
    'a' <= c <= 'z' || 'A' <= c <= 'Z' || IsDigit(c) || c == '_' || c == '-'
  }

  /** An id that outlives a reload: not empty, not too long, no control characters, not all digits. */
  predicate Linkable(id: string) {
    && 0 < Units(id) <= MAX_ID
    && (forall k :: 0 <= k < |id| ==> id[k] as int >= 0x20 && id[k] as int != 0x7f)
    && (exists k :: 0 <= k < |id| && !IsDigit(id[k]))
  }

  predicate IsHint(h: string) {
    |h| == 4 && forall k :: 0 <= k < 4 ==> IsWord(h[k])
  }

  datatype Ref = Ref(id: string, report: Option<string>, workspace: Option<string>)

  /** A fragment, nothing packed, or a TypeError. */
  datatype Packed = Nothing | Hints(value: string) | Refused

  function Half(hint: Option<string>): string {
    if hint.None? || hint.value == "" then NO_HINT else hint.value
  }

  predicate HalfOk(hint: Option<string>) {
    hint.None? || hint.value == "" || IsHint(hint.value)
  }

  /** packLinkHints. */
  function Pack(report: Option<string>, workspace: Option<string>): Packed {
    if !HalfOk(report) || !HalfOk(workspace) then Refused
    else if Half(report) == NO_HINT && Half(workspace) == NO_HINT then Nothing
    else if Half(report) == NO_HINT then Hints("w" + Half(workspace))
    else Hints(Half(report) + Half(workspace))
  }

  /** encodeFindingRef; None when it throws. */
  function Encode(r: Ref): Option<string> {
    if !Linkable(r.id) then None
    else
      match Pack(r.report, r.workspace)
      case Refused => None
      case Nothing => Some("finding=" + Escaped(r.id))
      case Hints(v) => Some("finding=" + Escaped(r.id) + "&v=" + v)
  }

  datatype Found = Found(id: Option<string>, report: Option<string>, workspace: Option<string>)

  const NOTHING_FOUND := Found(None, None, None)

  function Known(half: string): Option<string> {
    if half == NO_HINT then None else Some(half)
  }

  predicate AllWord(s: string) {
    forall k :: 0 <= k < |s| ==> IsWord(s[k])
  }

  /** The packed hints, one workspace token or a token pair; anything else is dropped. */
  function TakeHints(found: Found, value: string): Found {
    if |value| == 5 && value[0] == 'w' && IsHint(value[1..]) then found.(report := None, workspace := Known(value[1..]))
    else if |value| == 8 && AllWord(value) then found.(report := Known(value[..4]), workspace := Known(value[4..]))
    else found
  }

  /** One `&`-part of the fragment, a later one overriding an earlier. */
  function TakePart(found: Found, part: string): Found {
    var key := Before(part, '=');
    if |key| == |part| then found
    else
      var value := part[|key| + 1..];
      if value == "" then found
      else if key == "v" then TakeHints(found, value)
      else if key != "finding" || Units(value) > MAX_ID * 3 then found
      else
        var id := Unescape(value);
        if id.Some? && Linkable(id.value) then found.(id := id) else found
  }

  function TakeAll(parts: seq<string>): Found {
    if parts == [] then NOTHING_FOUND else TakePart(TakeAll(parts[..|parts| - 1]), parts[|parts| - 1])
  }

  /** extractFindingRef, of a hash with its `#` or without; None when no usable id is found. */
  function Extract(hash: string): Option<Ref> {
    var stripped := if hash != "" && hash[0] == '#' then hash[1..] else hash;
    if stripped == "" then None
    else
      var found := TakeAll(Split(stripped, '&'));
      if found.id.None? then None else Some(Ref(found.id.value, found.report, found.workspace))
  }

  /** The loop of extractFindingRef. */
  method ExtractFindingRef(hash: string) returns (r: Option<Ref>)
    ensures r == Extract(hash)
  {
    var stripped := if hash != "" && hash[0] == '#' then hash[1..] else hash;
    if stripped == "" { return None; }
    var parts := Split(stripped, '&');
    var found := NOTHING_FOUND;
    for i := 0 to |parts|
      invariant found == TakeAll(parts[..i])
    {
      assert parts[..i + 1][..i] == parts[..i];
      found := TakePart(found, parts[i]);
    }
    assert parts[..|parts|] == parts;
    if found.id.None? { return None; }
    r := Some(Ref(found.id.value, found.report, found.workspace));
  }

  // ---- round trips ----

  /** A hint as it is read back: the filler, or an empty one, as none. */
  function Read(hint: Option<string>): Option<string> {
    Known(Half(hint))
  }

  lemma KeyOf(key: string, value: string)
    requires Without(key, '=')
    ensures Before(key + "=" + value, '=') == key && (key + "=" + value)[|key| + 1..] == value
  {
    assert key + "=" + value == key + ("=" + value);
    BeforeIs(key, '=', "=" + value);
  }

  lemma PartIs(part: string, value: string, id: string)
    requires Before(part, '=') == "finding" && |part| > 7 && part[8..] == value
    requires value != "" && Unescape(value) == Some(id) && Linkable(id) && Units(value) == |value|
    ensures TakePart(NOTHING_FOUND, part) == if |value| > MAX_ID * 3 then NOTHING_FOUND
              else NOTHING_FOUND.(id := Some(id))
  {
    assert |Before(part, '=')| == 7;
  }

  lemma FindingKey(value: string)
    ensures var part := "finding=" + value; Before(part, '=') == "finding" && |part| > 7 && part[8..] == value
  {
    assert "finding=" + value == "finding" + "=" + value;
    KeyOf("finding", value);
  }

  lemma FindingPart(r: Ref)
    requires Linkable(r.id)
    ensures TakePart(NOTHING_FOUND, "finding=" + Escaped(r.id)) ==
            if |Escaped(r.id)| > MAX_ID * 3 then NOTHING_FOUND else NOTHING_FOUND.(id := Some(r.id))
  {
    EscapesRoundTrip(r.id);
    PlainUnits(Escaped(r.id));
    FindingKey(Escaped(r.id));
    PartIs("finding=" + Escaped(r.id), Escaped(r.id), r.id);
  }

  lemma HintsTaken(found: Found, report: Option<string>, workspace: Option<string>)
    requires Pack(report, workspace).Hints? && found.report.None?
    ensures TakeHints(found, Pack(report, workspace).value)
              == found.(report := Read(report), workspace := Read(workspace))
  {
    var r, w := Half(report), Half(workspace);
    assert IsHint(r) && IsHint(w);
    if r == NO_HINT {
      assert ("w" + w)[1..] == w;
    } else {
      assert (r + w)[..4] == r && (r + w)[4..] == w;
      forall k | 0 <= k < 8 ensures IsWord((r + w)[k]) { if k < 4 { assert (r + w)[k] == r[k]; }
          else { assert (r + w)[k] == w[k - 4]; } }
    }
  }

  lemma HintsPart(found: Found, report: Option<string>, workspace: Option<string>)
    requires Pack(report, workspace).Hints? && found.report.None? && found.workspace.None?
    ensures TakePart(found, "v=" + Pack(report, workspace).value)
              == found.(report := Read(report), workspace := Read(workspace))
  {
    var v := Pack(report, workspace).value;
    HintsTaken(found, report, workspace);
    assert v != "";
    assert "v=" + v == "v" + "=" + v;
    KeyOf("v", v);
  }

  lemma HintsHoldNone(report: Option<string>, workspace: Option<string>)
    requires Pack(report, workspace).Hints?
    ensures Without("v=" + Pack(report, workspace).value, '&')
  {
    var v := Pack(report, workspace).value;
    assert IsHint(Half(report)) && IsHint(Half(workspace));
    forall k | 0 <= k < |v| ensures v[k] != '&' {
      if Half(report) == NO_HINT {
        if k > 0 { assert v[k] == Half(workspace)[k - 1]; }
      } else if k < 4 { assert v[k] == Half(report)[k]; } else { assert v[k] == Half(workspace)[k - 4]; }
    }
    assert "v=" + v == ['v', '='] + v;
  }

  /** The parts of a fragment built. */
  lemma PartsOf(r: Ref)
    requires Linkable(r.id) && Encode(r).Some?
    ensures Split(Encode(r).value, '&') ==
            ["finding=" + Escaped(r.id)] + (match Pack(r.report, r.workspace) case Hints(v) => ["v=" + v] case _ => [])
  {
    EscapesRoundTrip(r.id);
    PrefixHoldsNone(Escaped(r.id));
    match Pack(r.report, r.workspace)
    case Hints(v) =>
      HintsHoldNone(r.report, r.workspace);
      TwoParts("finding=" + Escaped(r.id), "v=" + v);
      AmpIs("finding=" + Escaped(r.id), v);
    case Nothing =>
      SplitJoined(["finding=" + Escaped(r.id)], '&');
    case Refused =>
  }

  lemma PrefixHoldsNone(value: string)
    requires Without(value, '&')
    ensures Without("finding=" + value, '&')
  {
  }

  lemma AmpIs(first: string, v: string)
    ensures first + "&v=" + v == first + "&" + ("v=" + v)
  {
  }

  lemma TwoParts(a: string, b: string)
    requires Without(a, '&') && Without(b, '&')
    ensures Split(a + "&" + b, '&') == [a, b]
  {
    SplitJoined([a, b], '&');
    assert [a, b][1..] == [b];
    assert Joined([a, b], '&') == a + ['&'] + b;
  }

  lemma TakeFew(a: string, b: string)
    ensures TakeAll([a]) == TakePart(NOTHING_FOUND, a) && TakeAll([a, b]) == TakePart(TakePart(NOTHING_FOUND, a), b)
  {
    assert [a, b][..1] == [a] && [a][..0] == [];
    assert TakeAll([]) == NOTHING_FOUND;
  }

  /** What is found in a fragment built. */
  lemma FoundIn(r: Ref)
    requires Linkable(r.id) && HalfOk(r.report) && HalfOk(r.workspace)
    ensures Encode(r).Some?
    ensures TakeAll(Split(Encode(r).value, '&'))
         == Found(if |Escaped(r.id)| <= MAX_ID * 3 then Some(r.id) else None, Read(r.report), Read(r.workspace))
  {
    PartsOf(r);
    FindingPart(r);
    var first := "finding=" + Escaped(r.id);
    var found := TakePart(NOTHING_FOUND, first);
    match Pack(r.report, r.workspace)
    case Hints(v) =>
      HintsPart(found, r.report, r.workspace);
      TakeFew(first, "v=" + v);
      assert [first] + ["v=" + v] == [first, "v=" + v];
    case Nothing =>
      TakeFew(first, first);
      assert [first] + [] == [first];
  }

  /**
   A link built for an id and hints, valid or absent, reads back as that id and those hints, the filler as
   absent, exactly when the escaped id is within three times the longest id; past that it reads as no link at all.
   */
  lemma LinkRoundTripIff(r: Ref)
    requires Linkable(r.id) && HalfOk(r.report) && HalfOk(r.workspace)
    ensures Encode(r).Some?
    ensures Extract(Encode(r).value) == Some(Ref(r.id, Read(r.report), Read(r.workspace))) <==>
              |Escaped(r.id)| <= MAX_ID * 3
    ensures |Escaped(r.id)| > MAX_ID * 3 ==> Extract(Encode(r).value) == None
    ensures Extract("#" + Encode(r).value) == Extract(Encode(r).value)
  {
    FoundIn(r);
    var text := Encode(r).value;
    assert text[0] == 'f' && ("#" + text)[1..] == text;
  }

  /** Every link of a linkable ASCII id does. */
  lemma PlainLinksRoundTrip(r: Ref)
    requires Linkable(r.id) && Plain(r.id) && HalfOk(r.report) && HalfOk(r.workspace)
    ensures Extract(Encode(r).value) == Some(Ref(r.id, Read(r.report), Read(r.workspace)))
  {
    PlainEscapes(r.id);
    PlainUnits(r.id);
    LinkRoundTripIff(r);
  }

  /**
   A linkable id of 171 euro signs is past it, its escapes nine to a sign: its link, built without complaint,
   is no link.
   */
  lemma LongLinkIsNone()
    ensures var id := Repeated('\U{20AC}', 171);
            Linkable(id) && Encode(Ref(id, None, None)).Some? && Extract(Encode(Ref(id, None, None)).value) == None
  {
    var id := Repeated('\U{20AC}', 171);
    WideEscapes('\U{20AC}', 171);
    assert !IsDigit(id[0]);
    LinkRoundTripIff(Ref(id, None, None));
  }
}
