/** Texts split at a character, and joined again. */
module Splitting {

  /** The pieces between the separators; one more than there are of those. */
  function Split(text: string, sep: char): (r: seq<string>)
    ensures r != []
  {
    if text == "" then [""]
    else
      var rest := Split(text[1..], sep);
      if text[0] == sep then [""] + rest else [[text[0]] + rest[0]] + rest[1..]
  }

  function Joined(pieces: seq<string>, sep: char): string {
    if pieces == [] then "" else if |pieces| == 1 then pieces[0] else pieces[0] + [sep] + Joined(pieces[1..], sep)
  }

  predicate Without(text: string, sep: char) {
    sep !in text
  }

  lemma {:induction false} JoinedSplit(text: string, sep: char)
    ensures Joined(Split(text, sep), sep) == text
  {
    if text != "" {
      JoinedSplit(text[1..], sep);
      var rest := Split(text[1..], sep);
      if text[0] == sep {
        assert Split(text, sep)[1..] == rest;
        assert text == [sep] + text[1..];
      } else {
        assert Split(text, sep)[1..] == rest[1..];
        assert text == [text[0]] + text[1..];
      }
    }
  }

  lemma {:induction false} PiecesHoldNone(text: string, sep: char)
    ensures forall k :: 0 <= k < |Split(text, sep)| ==> Without(Split(text, sep)[k], sep)
  {
    if text != "" {
      PiecesHoldNone(text[1..], sep);
      var rest := Split(text[1..], sep);
      assert Without(rest[0], sep);
    }
  }

  /** Pieces that hold no separator come back from their join. */
  lemma {:induction false} SplitJoined(pieces: seq<string>, sep: char)
    requires pieces != [] && forall k :: 0 <= k < |pieces| ==> Without(pieces[k], sep)
    ensures Split(Joined(pieces, sep), sep) == pieces
    decreases |pieces|, |pieces[0]|
  {
    var p, text := pieces[0], Joined(pieces, sep);
    if p != "" {
      var shorter := [p[1..]] + pieces[1..];
      assert Without(p, sep) && p[0] in p && forall c :: c in p[1..] ==> c in p;
      assert shorter[1..] == pieces[1..];
      SplitJoined(shorter, sep);
      assert text == [p[0]] + Joined(shorter, sep);
      assert text[1..] == Joined(shorter, sep) && text[0] == p[0] && text[0] != sep;
      assert Split(text, sep) == [[p[0]] + p[1..]] + pieces[1..];
      assert [p[0]] + p[1..] == p;
    } else if |pieces| > 1 {
      SplitJoined(pieces[1..], sep);
      assert text == [sep] + Joined(pieces[1..], sep) && text[1..] == Joined(pieces[1..], sep);
    }
  }

  /** The text before the first of a character, all of it when there is none. */
  function Before(text: string, c: char): (r: string)
    ensures |r| <= |text| && c !in r && (|r| < |text| ==> text[|r|] == c)
  {
    if text == "" || text[0] == c then "" else [text[0]] + Before(text[1..], c)
  }

  lemma {:induction false} BeforeIs(text: string, c: char, rest: string)
    requires c !in text && (rest == "" || rest[0] == c)
    ensures Before(text + rest, c) == text
  {
    if text == "" {
      assert text + rest == rest;
    } else {
      assert (text + rest)[1..] == text[1..] + rest && (text + rest)[0] == text[0];
      assert text[0] in text && forall d :: d in text[1..] ==> d in text;
      BeforeIs(text[1..], c, rest);
    }
  }
}
