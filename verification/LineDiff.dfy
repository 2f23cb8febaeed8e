/**
 The check that change blocks take one text's lines to another's
 (common/line-diff.js).
 */
module LineDiff {
  import opened Options
  import opened Splitting

  // ---- texts and lines ----

  /** A final newline ends the last line rather than starting an empty one. */
  function Lines(text: string): seq<string> {
    if text == "" then []
    else
      var pieces := Split(text, '\n');
      if pieces[|pieces| - 1] == "" then pieces[..|pieces| - 1] else pieces
  }

  predicate EndsLine(text: string) {
    text == "" || text[|text| - 1] == '\n'
  }

  /** The text of these lines, its last ended by a newline or not. */
  function TextOf(lines: seq<string>, ends: bool): string {
    if lines == [] then "" else Joined(if ends then lines + [""] else lines, '\n')
  }

  lemma {:induction false} LastPiece(text: string)
    ensures var p := Split(text, '\n'); p[|p| - 1] == "" <==> EndsLine(text)
    ensures text == "" <==> Split(text, '\n') == [""]
  {
    if text != "" {
      LastPiece(text[1..]);
    }
  }

  /** Lines and the final newline give the text back, character for character. */
  lemma LinesRoundTrip(text: string)
    ensures TextOf(Lines(text), EndsLine(text)) == text
    ensures Lines(text) == [] <==> text == ""
  {
    JoinedSplit(text, '\n');
    LastPiece(text);
    var p := Split(text, '\n');
    if text != "" && p[|p| - 1] == "" {
      assert p[..|p| - 1] + [""] == p;
      assert |p| == 1 ==> p == [""];
    }
  }

  /** And the other way: lines holding no newline, the last not left empty and unended, are the lines of their text. */
  lemma TextRoundTrip(lines: seq<string>, ends: bool)
    requires forall k :: 0 <= k < |lines| ==> Without(lines[k], '\n')
    requires lines != [] && !ends ==> lines[|lines| - 1] != ""
    ensures Lines(TextOf(lines, ends)) == lines && (lines != [] ==> EndsLine(TextOf(lines, ends)) == ends)
  {
    if lines != [] {
      var pieces := if ends then lines + [""] else lines;
      SplitJoined(pieces, '\n');
      LastPiece(TextOf(lines, ends));
      assert (lines + [""])[..|lines|] == lines;
    }
  }

  // ---- blocks ----

  /** A block as it comes: any number may be missing or no integer, and a block may say it is the last. */
  datatype Block = Block(a0: Option<int>, a1: Option<int>, b0: Option<int>, b1: Option<int>, last: bool)

  predicate IsBlank(c: char) {
    c == ' ' || c == '\t' || c == '\n' || c as int == 11 || c as int == 12 || c == '\r'
  }

  function TrimmedEnd(line: string): string {
    if line != "" && IsBlank(line[|line| - 1]) then TrimmedEnd(line[..|line| - 1]) else line
  }

  /** A run of blanks as one space. */
  function Collapsed(line: string): string {
    if line == "" then ""
    else if !IsBlank(line[0]) then [line[0]] + Collapsed(line[1..])
    else if |line| > 1 && IsBlank(line[1]) then Collapsed(line[1..])
    else " " + Collapsed(line[1..])
  }

  function Spacing(line: string): string {
    Collapsed(TrimmedEnd(line))
  }

  predicate Alike(x: string, y: string, fold: bool) {
    if fold then Spacing(x) == Spacing(y) else x == y
  }

  /** As many lines alike from here on both sides. */
  predicate GapAlike(a: seq<string>, b: seq<string>, i: nat, j: nat, n: nat, fold: bool)
    requires i + n <= |a| && j + n <= |b|
  {
    forall k :: i <= k < i + n ==> Alike(a[k], b[k - i + j], fold)
  }

  /** A block that may come next, with lines up to `i` and `j` read. */
  predicate Fits(a: seq<string>, b: seq<string>, sameEnd: bool, block: Block, i: nat, j: nat, fold: bool) {
    && block.a0.Some? && block.a1.Some? && block.b0.Some? && block.b1.Some?
    && i <= block.a0.value <= block.a1.value <= |a| && j <= block.b0.value <= block.b1.value <= |b|
    && (block.last || block.a0 != block.a1 || block.b0 != block.b1)
    && block.a0.value - i == block.b0.value - j
    && (block.last && block.a0.value > i && !fold ==> sameEnd)
    && GapAlike(a, b, i, j, block.a0.value - i, fold)
  }

  /** The blocks follow one another from here, and the lines after them are alike, with the same ending. */
  predicate Follow(a: seq<string>, b: seq<string>, sameEnd: bool, blocks: seq<Block>, i: nat, j: nat, fold: bool)
    decreases |blocks|
  {
    if blocks == [] then
      && i <= |a| && j <= |b| && |a| - i == |b| - j
      && (|a| > i && !fold ==> sameEnd)
      && GapAlike(a, b, i, j, |a| - i, fold)
    else
      Fits(a, b, sameEnd, blocks[0], i, j, fold)
      && Follow(a, b, sameEnd, blocks[1..], blocks[0].a1.value, blocks[0].b1.value, fold)
  }

  method GapHolds(a: seq<string>, b: seq<string>, i: nat, j: nat, n: nat, fold: bool) returns (alike: bool)
    requires i + n <= |a| && j + n <= |b|
    ensures alike == GapAlike(a, b, i, j, n, fold)
  {
    for k := 0 to n
      invariant forall l :: i <= l < i + k ==> Alike(a[l], b[l - i + j], fold)
    {
      if !Alike(a[i + k], b[j + k], fold) { return false; }
    }
    alike := true;
  }

  /** The function blocksHold, its loop run over the blocks and then the sentinel for what is left. */
  method BlocksHold(before: string, after: string, blocks: seq<Block>, fold: bool) returns (holds: bool)
    ensures holds == Follow(Lines(before), Lines(after), EndsLine(before) == EndsLine(after), blocks, 0, 0, fold)
  {
    var a, b := Lines(before), Lines(after);
    var sentinel := Block(Some(|a|), Some(|a|), Some(|b|), Some(|b|), true);
    var all := blocks + [sentinel];
    var i: nat, j: nat := 0, 0;
    ghost var sameEnd := EndsLine(before) == EndsLine(after);
    for k := 0 to |all|
      invariant i <= |a| && j <= |b|
      invariant k <= |blocks| ==> (Follow(a, b, sameEnd, blocks, 0, 0, fold)
                  <==> Follow(a, b, sameEnd, blocks[k..], i, j, fold))
      invariant k > |blocks| ==> Follow(a, b, sameEnd, blocks, 0, 0, fold)
    {
      var block := all[k];
      assert k < |blocks| ==> blocks[k..][0] == block && blocks[k..][1..] == blocks[k + 1..];
      if block.a0.None? || block.a1.None? || block.b0.None? || block.b1.None? { return false; }
      var a0, a1, b0, b1 := block.a0.value, block.a1.value, block.b0.value, block.b1.value;
      if a0 < i || b0 < j || a1 < a0 || b1 < b0 || a1 > |a| || b1 > |b| { return false; }
      if (!block.last && a1 == a0 && b1 == b0) || a0 - i != b0 - j { return false; }
      if block.last && a0 > i && !fold && EndsLine(before) != EndsLine(after) { return false; }
      var alike := GapHolds(a, b, i, j, a0 - i, fold);
      if !alike { return false; }
      i, j := a1, b1;
    }
    holds := true;
  }

  // ---- what it means for blocks to hold ----

  /**
   A block within both texts, changing a line unless it claims to be the last, the gap before it as long on
   each side.
   */
  predicate Here(block: Block, i: nat, j: nat, na: nat, nb: nat) {
    && block.a0.Some? && block.a1.Some? && block.b0.Some? && block.b1.Some?
    && i <= block.a0.value <= block.a1.value <= na && j <= block.b0.value <= block.b1.value <= nb
    && (block.last || block.a0 != block.a1 || block.b0 != block.b1)
    && block.a0.value - i == block.b0.value - j
  }

  /**
   Integers, in order, apart from the last and within both texts, each changing a line or claiming to be the last,
   and as many lines on both sides between.
   */
  predicate Placed(blocks: seq<Block>, i: nat, j: nat, na: nat, nb: nat)
    decreases |blocks|
  {
    if blocks == [] then i <= na && j <= nb && na - i == nb - j
    else
      Here(blocks[0], i, j, na, nb) && Placed(blocks[1..], blocks[0].a1.value, blocks[0].b1.value, na, nb)
  }

  /** Each block's lines replaced by the other side's. */
  function Replaced(a: seq<string>, b: seq<string>, blocks: seq<Block>, i: nat, j: nat): seq<string>
    requires Placed(blocks, i, j, |a|, |b|)
    decreases |blocks|
  {
    if blocks == [] then a[i..]
    else
      var block := blocks[0];
      a[i..block.a0.value] + b[block.b0.value..block.b1.value]
        + Replaced(a, b, blocks[1..], block.a1.value, block.b1.value)
  }

  /** Where the last block ends on the left. */
  function LastEnd(blocks: seq<Block>, i: nat): int {
    if blocks == [] then i else if blocks[|blocks| - 1].a1.Some? then blocks[|blocks| - 1].a1.value else -1
  }

  /** Some block claims to be the last with lines between it and the one before. */
  predicate Claimed(blocks: seq<Block>, i: nat, j: nat, na: nat, nb: nat)
    requires Placed(blocks, i, j, na, nb)
    decreases |blocks|
  {
    && blocks != []
    && ((blocks[0].last && blocks[0].a0.value > i)
      || Claimed(blocks[1..], blocks[0].a1.value, blocks[0].b1.value, na, nb))
  }

  lemma GapIsSlice(a: seq<string>, b: seq<string>, i: nat, j: nat, n: nat)
    requires i + n <= |a| && j + n <= |b|
    ensures GapAlike(a, b, i, j, n, false) <==> a[i..i + n] == b[j..j + n]
  {
    if a[i..i + n] == b[j..j + n] {
      forall k | i <= k < i + n ensures a[k] == b[k - i + j] { assert a[i..i + n][k - i] == b[j..j + n][k - i]; }
    }
  }

  lemma FitsIff(a: seq<string>, b: seq<string>, sameEnd: bool, block: Block, i: nat, j: nat)
    ensures Fits(a, b, sameEnd, block, i, j, false) <==>
              && Here(block, i, j, |a|, |b|) && a[i..block.a0.value] == b[j..block.b0.value]
              && (block.last && block.a0.value > i ==> sameEnd)
  {
    if Here(block, i, j, |a|, |b|) { GapIsSlice(a, b, i, j, block.a0.value - i); }
  }

  lemma FollowNone(a: seq<string>, b: seq<string>, sameEnd: bool, i: nat, j: nat)
    ensures Follow(a, b, sameEnd, [], i, j, false) <==>
              i <= |a| && j <= |b| && |a| - i == |b| - j && a[i..] == b[j..] && (|a| > i ==> sameEnd)
  {
    if i <= |a| && j <= |b| && |a| - i == |b| - j {
      GapIsSlice(a, b, i, j, |a| - i);
      assert a[i..i + (|a| - i)] == a[i..];
      assert b[j..j + (|a| - i)] == b[j..];
    }
  }

  lemma {:induction false} FollowIffReplaced(a: seq<string>, b: seq<string>, sameEnd: bool, blocks: seq<Block>, i: nat,
                                             j: nat)
    ensures Follow(a, b, sameEnd, blocks, i, j, false) <==>
              && Placed(blocks, i, j, |a|, |b|)
              && Replaced(a, b, blocks, i, j) == b[j..]
              && (|a| > LastEnd(blocks, i) || Claimed(blocks, i, j, |a|, |b|) ==> sameEnd)
    decreases |blocks|
  {
    if blocks == [] {
      FollowNone(a, b, sameEnd, i, j);
    } else {
      var block, rest := blocks[0], blocks[1..];
      assert blocks == [block] + rest;
      FitsIff(a, b, sameEnd, block, i, j);
      if Here(block, i, j, |a|, |b|) {
        FollowIffReplaced(a, b, sameEnd, rest, block.a1.value, block.b1.value);
        assert LastEnd(blocks, i) == LastEnd(rest, block.a1.value);
        if Placed(rest, block.a1.value, block.b1.value, |a|, |b|) {
          OneBlock(a, b, block, rest, i, j);
        }
      }
    }
  }

  /** One block's gap alike and the rest rebuilt is the whole rebuilt. */
  lemma OneBlock(a: seq<string>, b: seq<string>, block: Block, rest: seq<Block>, i: nat, j: nat)
    requires Placed([block] + rest, i, j, |a|, |b|)
    ensures Placed(rest, block.a1.value, block.b1.value, |a|, |b|)
    ensures Replaced(a, b, [block] + rest, i, j) == b[j..] <==>
              a[i..block.a0.value] == b[j..block.b0.value]
                && Replaced(a, b, rest, block.a1.value, block.b1.value) == b[block.b1.value..]
  {
    assert ([block] + rest)[1..] == rest;
    var x, y, z := a[i..block.a0.value], b[block.b0.value..block.b1.value],
        Replaced(a, b, rest, block.a1.value, block.b1.value);
    var u, v, w := b[j..block.b0.value], b[block.b0.value..block.b1.value], b[block.b1.value..];
    assert b[j..] == u + v + w;
    if x + y + z == u + v + w {
      assert (x + y + z)[..|x|] == x && (u + v + w)[..|x|] == u;
      assert (x + y + z)[|x| + |y|..] == z && (u + v + w)[|x| + |y|..] == w;
    }
  }

  /**
   Without folding, blocks hold exactly when they are placed in order, replacing each gives the other text's lines,
   and the texts end alike unless the last line is in a block and none claims to be the last after a gap.
   */
  lemma HoldsIff(before: string, after: string, blocks: seq<Block>)
    ensures var a, b := Lines(before), Lines(after);
            Follow(a, b, EndsLine(before) == EndsLine(after), blocks, 0, 0, false) <==>
              && Placed(blocks, 0, 0, |a|, |b|)
              && Replaced(a, b, blocks, 0, 0) == b
              && (|a| > LastEnd(blocks, 0) || Claimed(blocks, 0, 0, |a|, |b|) ==> EndsLine(before) == EndsLine(after))
  {
    FollowIffReplaced(Lines(before), Lines(after), EndsLine(before) == EndsLine(after), blocks, 0, 0);
    assert Lines(after)[0..] == Lines(after);
  }

  /**
   Blocks that hold rebuild the other text character for character, its end taken from whichever side has the
   last line.
   */
  lemma Rebuilds(before: string, after: string, blocks: seq<Block>)
    requires Follow(Lines(before), Lines(after), EndsLine(before) == EndsLine(after), blocks, 0, 0, false)
    ensures Placed(blocks, 0, 0, |Lines(before)|, |Lines(after)|)
    ensures TextOf(Replaced(Lines(before), Lines(after), blocks, 0, 0),
                   if |Lines(before)| > LastEnd(blocks, 0) then EndsLine(before) else EndsLine(after)) == after
  {
    HoldsIff(before, after, blocks);
    LinesRoundTrip(after);
  }

  // ---- what a claim to be the last does ----

  /** The blocks, none claiming to be the last. */
  function Unclaimed(blocks: seq<Block>): seq<Block> {
    if blocks == [] then [] else [blocks[0].(last := false)] + Unclaimed(blocks[1..])
  }

  predicate EachChanges(blocks: seq<Block>) {
    forall k :: 0 <= k < |blocks| ==> blocks[k].a0 != blocks[k].a1 || blocks[k].b0 != blocks[k].b1
  }

  lemma {:induction false} ClaimsFrom(a: seq<string>, b: seq<string>, sameEnd: bool, blocks: seq<Block>, i: nat,
                                      j: nat, fold: bool)
    ensures Follow(a, b, sameEnd, blocks, i, j, fold) && EachChanges(blocks) <==>
              && Follow(a, b, sameEnd, Unclaimed(blocks), i, j, fold)
              && Placed(blocks, i, j, |a|, |b|)
              && (Claimed(blocks, i, j, |a|, |b|) && !fold ==> sameEnd)
    decreases |blocks|
  {
    if blocks != [] {
      var block, rest := blocks[0], blocks[1..];
      assert Unclaimed(blocks)[1..] == Unclaimed(rest);
      assert EachChanges(blocks) <==> (block.a0 != block.a1 || block.b0 != block.b1) && EachChanges(rest) by {
        assert blocks == [block] + rest;
        assert forall k :: 0 <= k < |rest| ==> rest[k] == blocks[k + 1];
      }
      if Here(block, i, j, |a|, |b|) {
        ClaimsFrom(a, b, sameEnd, rest, block.a1.value, block.b1.value, fold);
      }
    }
  }

  /**
   Blocks hold and each changes a line exactly when they hold with no claim made, and a claim after a gap only
   where the texts end alike or whitespace is folded. So a claim lets empty blocks through, and asks for the end.
   */
  lemma ClaimsIff(before: string, after: string, blocks: seq<Block>, fold: bool)
    ensures var a, b, sameEnd := Lines(before), Lines(after), EndsLine(before) == EndsLine(after);
            Follow(a, b, sameEnd, blocks, 0, 0, fold) && EachChanges(blocks) <==>
              && Follow(a, b, sameEnd, Unclaimed(blocks), 0, 0, fold)
              && Placed(blocks, 0, 0, |a|, |b|) && (Claimed(blocks, 0, 0, |a|, |b|) && !fold ==> sameEnd)
  {
    ClaimsFrom(Lines(before), Lines(after), EndsLine(before) == EndsLine(after), blocks, 0, 0, fold);
  }

  // ---- folding whitespace ----

  function Spaced(lines: seq<string>): (r: seq<string>)
    ensures |r| == |lines| && forall k :: 0 <= k < |r| ==> r[k] == Spacing(lines[k])
  {
    if lines == [] then [] else Spaced(lines[..|lines| - 1]) + [Spacing(lines[|lines| - 1])]
  }

  /** Folding whitespace is the same check on the lines as diff -b has them, with the end of the text not looked at. */
  lemma {:induction false} FoldedIsSpaced(a: seq<string>, b: seq<string>, sameEnd: bool, blocks: seq<Block>, i: nat,
                                          j: nat)
    ensures Follow(a, b, sameEnd, blocks, i, j, true) <==> Follow(Spaced(a), Spaced(b), true, blocks, i, j, false)
    decreases |blocks|
  {
    if blocks != [] && blocks[0].a1.Some? && blocks[0].b1.Some? && blocks[0].a1.value >= 0 && blocks[0].b1.value >= 0 {
      FoldedIsSpaced(a, b, sameEnd, blocks[1..], blocks[0].a1.value, blocks[0].b1.value);
    }
  }

  /** What a claim to be the last lets through: a block that changes nothing; without the claim none holds. */
  lemma EmptyBlockHoldsIff(text: string, at: nat, last: bool)
    requires at <= |Lines(text)|
    ensures var block := Block(Some(at), Some(at), Some(at), Some(at), last);
            Follow(Lines(text), Lines(text), true, [block], 0, 0, false) <==> last
  {
    var n := |Lines(text)|;
    var rest := [Block(Some(at), Some(at), Some(at), Some(at), last)][1..];
    assert rest == [];
    assert Follow(Lines(text), Lines(text), true, rest, at, at, false);
  }
}
