/** A patch as parts: what comes before its first header, and its blocks; and which of them a filter keeps. */
module PatchParts {
  import opened Common
  import opened PatchText
  import opened PatchPaths
  import opened PatchValidator
  import opened PatchBlocks
  import opened PatchFilter

  // ---------------------------------------------------------------- kept and skipped blocks

  function KeptBlocks(tree: Tree, blocks: seq<Block>): seq<Block> {
    if blocks == [] then []
    else (if Skips(tree, blocks[0]) then [] else [blocks[0]]) + KeptBlocks(tree, blocks[1..])
  }

  function SkippedPaths(tree: Tree, blocks: seq<Block>): set<Bytes> {
    if blocks == [] then {}
    else (if Skips(tree, blocks[0]) then {blocks[0].path} else {}) + SkippedPaths(tree, blocks[1..])
  }

  ghost predicate SomeSkip(tree: Tree, blocks: seq<Block>) {
    exists i :: 0 <= i < |blocks| && Skips(tree, blocks[i])
  }

  lemma {:induction false} SkippedPathIs(tree: Tree, blocks: seq<Block>, p: Bytes)
    ensures p in SkippedPaths(tree, blocks) <==>
      exists i :: 0 <= i < |blocks| && Skips(tree, blocks[i]) && blocks[i].path == p
  {
    if blocks != [] {
      SkippedPathIs(tree, blocks[1..], p);
      assert blocks == [blocks[0]] + blocks[1..];
    }
  }

  lemma {:induction false} KeptAre(tree: Tree, blocks: seq<Block>, b: Block)
    requires b in KeptBlocks(tree, blocks)
    ensures b in blocks && !Skips(tree, b)
  {
    if b != blocks[0] || Skips(tree, b) {
      KeptAre(tree, blocks[1..], b);
    }
  }

  lemma {:induction false} AllSkippedNoneKept(tree: Tree, blocks: seq<Block>)
    requires forall i :: 0 <= i < |blocks| ==> Skips(tree, blocks[i])
    ensures KeptBlocks(tree, blocks) == []
  {
    if blocks != [] {
      assert Skips(tree, blocks[0]);
      assert forall i :: 0 <= i < |blocks| - 1 ==> blocks[1..][i] == blocks[i + 1];
      AllSkippedNoneKept(tree, blocks[1..]);
    }
  }

  lemma {:induction false} KeptShorter(tree: Tree, blocks: seq<Block>)
    ensures |KeptBlocks(tree, blocks)| <= |blocks|
    ensures SomeSkip(tree, blocks) ==> |KeptBlocks(tree, blocks)| < |blocks|
  {
    if blocks != [] {
      KeptShorter(tree, blocks[1..]);
      assert forall i :: 1 <= i < |blocks| ==> blocks[i] == blocks[1..][i - 1];
    }
  }

  // ---------------------------------------------------------------- from blocks to text

  function BlocksOf(q: Unquoter, groups: seq<seq<Bytes>>): seq<Block>
    requires AllGroups(groups)
  {
    if groups == [] then [] else BlocksOf(q, groups[..|groups| - 1]) + [BlockOf(q, groups[|groups| - 1])]
  }

  function KeptGroups(q: Unquoter, tree: Tree, groups: seq<seq<Bytes>>): (kept: seq<seq<Bytes>>)
    requires AllGroups(groups)
    ensures AllGroups(kept)
  {
    if groups == [] then []
    else
      var last := groups[|groups| - 1];
      KeptGroups(q, tree, groups[..|groups| - 1]) + if Skips(tree, BlockOf(q, last)) then [] else [last]
  }

  lemma {:induction false} GroupsOfOneMore(lines: seq<Bytes>, group: seq<Bytes>, all: seq<Bytes>)
    requires IsGroup(group) && all == lines + group
    ensures Groups(all) == Groups(lines) + [group]
    decreases |group|
  {
    var init, line := group[..|group| - 1], group[|group| - 1];
    var before := lines + init;
    assert group == init + [line] && all == before + [line];
    if |group| == 1 {
      assert before == lines && group == [line];
      GroupsSnoc(lines, line);
    } else {
      assert IsGroup(init) && !StartsBlock(line);
      GroupsOfOneMore(lines, init, before);
      GroupsSnoc(before, line);
      GrownSnoc(Groups(lines), init, line);
    }
  }

  /** Grouping lines that are made of groups gives the same groups. */
  lemma {:induction false} GroupsOfFlatten(groups: seq<seq<Bytes>>, lines: seq<Bytes>)
    requires AllGroups(groups) && lines == Flatten(groups)
    ensures Groups(lines) == groups
    decreases |groups|
  {
    if groups != [] {
      var init, last := groups[..|groups| - 1], groups[|groups| - 1];
      assert init + [last] == groups;
      GroupsOfFlatten(init, Flatten(init));
      GroupsOfOneMore(Flatten(init), last, lines);
    }
  }

  lemma GrownSnoc(groups: seq<seq<Bytes>>, group: seq<Bytes>, line: Bytes)
    ensures Grown(groups + [group], line) == groups + [group + [line]]
  {
  }

  lemma KeptSnoc(q: Unquoter, tree: Tree, init: seq<seq<Bytes>>, last: seq<Bytes>)
    requires AllGroups(init + [last]) && AllGroups(init) && last != []
    ensures var skip := Skips(tree, BlockOf(q, last));
      && Kept(q, tree, init + [last]) == Kept(q, tree, init) + (if skip then [] else last)
      && KeptGroups(q, tree, init + [last]) == KeptGroups(q, tree, init) + (if skip then [] else [last])
      && BlocksOf(q, init + [last]) == BlocksOf(q, init) + [BlockOf(q, last)]
  {
  }

  lemma {:induction false} KeptIsFlat(q: Unquoter, tree: Tree, groups: seq<seq<Bytes>>)
    requires AllGroups(groups)
    ensures Kept(q, tree, groups) == Flatten(KeptGroups(q, tree, groups))
    ensures BlocksOf(q, KeptGroups(q, tree, groups)) == KeptBlocks(tree, BlocksOf(q, groups))
    decreases |groups|
  {
    if groups != [] {
      var init, last := groups[..|groups| - 1], groups[|groups| - 1];
      assert groups == init + [last];
      KeptIsFlat(q, tree, init);
      KeptFlatSnoc(q, tree, init, last);
    }
  }

  lemma KeptFlatSnoc(q: Unquoter, tree: Tree, init: seq<seq<Bytes>>, last: seq<Bytes>)
    requires AllGroups(init + [last]) && AllGroups(init)
    requires Kept(q, tree, init) == Flatten(KeptGroups(q, tree, init))
    requires BlocksOf(q, KeptGroups(q, tree, init)) == KeptBlocks(tree, BlocksOf(q, init))
    ensures Kept(q, tree, init + [last]) == Flatten(KeptGroups(q, tree, init + [last]))
    ensures BlocksOf(q, KeptGroups(q, tree, init + [last])) == KeptBlocks(tree, BlocksOf(q, init + [last]))
  {
    var kept := KeptGroups(q, tree, init);
    assert IsGroup((init + [last])[|init|]);
    KeptSnoc(q, tree, init, last);
    FlattenSnoc(kept, last);
    KeptBlocksSnoc(tree, BlocksOf(q, init), BlockOf(q, last));
    assert (kept + [last])[..|kept|] == kept && kept + [] == kept;
  }

  lemma {:induction false} KeptBlocksSnoc(tree: Tree, blocks: seq<Block>, b: Block)
    ensures KeptBlocks(tree, blocks + [b]) == KeptBlocks(tree, blocks) + if Skips(tree, b) then [] else [b]
    decreases |blocks|
  {
    if blocks == [] {
      assert [b][1..] == [];
    } else {
      assert (blocks + [b])[1..] == blocks[1..] + [b];
      KeptBlocksSnoc(tree, blocks[1..], b);
    }
  }

  function Blocks(q: Unquoter, text: Bytes): seq<Block> {
    GroupsCover(Lines(text));
    BlocksOf(q, Groups(Lines(text)))
  }

  /** What comes before the first header: no block holds it. */
  function Head(text: Bytes): seq<Bytes> {
    Lines(text)[..FirstHeader(Lines(text))]
  }

  function FilteredOf(q: Unquoter, text: Bytes, tree: Tree): Bytes {
    GroupsCover(Lines(text));
    Filter(q, tree, Groups(Lines(text))).text
  }

  lemma {:induction false} FlattenStarts(groups: seq<seq<Bytes>>)
    requires AllGroups(groups)
    ensures Flatten(groups) != [] ==> StartsBlock(Flatten(groups)[0])
    ensures Flatten(groups) == [] ==> groups == []
    decreases |groups|
  {
    if groups != [] {
      var init, last := groups[..|groups| - 1], groups[|groups| - 1];
      FlattenStarts(init);
      assert IsGroup(last);
    }
  }

  lemma StartsWithHeader(lines: seq<Bytes>)
    requires lines != [] ==> StartsBlock(lines[0])
    ensures FirstHeader(lines) == 0
  {
  }

  /** The text that the filter writes is accepted, begins with a header, and reads back as the blocks it kept. */
  lemma FilteredText(q: Unquoter, text: Bytes, tree: Tree)
    ensures Accepted(q, text) ==>
      var filtered := FilteredOf(q, text, tree);
      && Accepted(q, filtered) && Blocks(q, filtered) == KeptBlocks(tree, Blocks(q, text)) && Head(filtered) == []
      && (filtered == "" <==> KeptBlocks(tree, Blocks(q, text)) == [])
  {
    GroupsCover(Lines(text));
    if !Accepted(q, text) { return; }
    var groups := Groups(Lines(text));
    var kept := KeptGroups(q, tree, groups);
    FilteredAccepted(q, text, tree);
    KeptIsFlat(q, tree, groups);
    GroupsOfFlatten(kept, Flatten(kept));
    FlattenStarts(kept);
    StartsWithHeader(Flatten(kept));
    NoBlocksNoLines(q, kept);
    NoLinesNoText(FilteredOf(q, text, tree));
  }

  lemma NoBlocksNoLines(q: Unquoter, groups: seq<seq<Bytes>>)
    requires AllGroups(groups)
    ensures BlocksOf(q, groups) == [] <==> groups == []
  {
  }

  lemma NoLinesNoText(text: Bytes)
    ensures Lines(text) == [] <==> text == ""
  {
  }

  lemma {:induction false} SkippedMeans(q: Unquoter, tree: Tree, groups: seq<seq<Bytes>>)
    requires AllGroups(groups)
    ensures Skipped(q, tree, groups) != [] <==> SomeSkip(tree, BlocksOf(q, groups))
    decreases |groups|
  {
    if groups != [] {
      var init, last := groups[..|groups| - 1], groups[|groups| - 1];
      SkippedMeans(q, tree, init);
      SomeSkipSnoc(tree, BlocksOf(q, init), BlockOf(q, last));
    }
  }

  lemma SomeSkipSnoc(tree: Tree, blocks: seq<Block>, b: Block)
    ensures SomeSkip(tree, blocks + [b]) <==> SomeSkip(tree, blocks) || Skips(tree, b)
  {
    if SomeSkip(tree, blocks) {
      var i :| 0 <= i < |blocks| && Skips(tree, blocks[i]);
      assert (blocks + [b])[i] == blocks[i];
    }
    if Skips(tree, b) {
      assert (blocks + [b])[|blocks|] == b;
    }
  }

  // ---------------------------------------------------------------- one part a block

  const GIT_HUNK: Bytes := "@@ -"

  /** Lines among which Git finds no hunk, so that it takes all of them for comment. */
  predicate NoHunk(lines: seq<Bytes>) {
    forall i :: 0 <= i < |lines| ==> !HasPrefix(lines[i], GIT_HUNK)
  }

  /** A line that Git reads as belonging to the header above it. */
  predicate Extended(line: Bytes) {
    && |line| >= 6 && Ended(line)
    && (|| HasPrefix(line, "--- ") || HasPrefix(line, "+++ ") || HasPrefix(line, "index ")
        || HasPrefix(line, NEW_MODE) || HasPrefix(line, "deleted file mode ")
        || HasPrefix(line, "old mode ") || HasPrefix(line, "new mode ")
        || HasPrefix(line, "rename from ") || HasPrefix(line, "rename to ")
        || HasPrefix(line, "rename old ") || HasPrefix(line, "rename new ")
        || HasPrefix(line, "copy from ") || HasPrefix(line, "copy to ")
        || HasPrefix(line, "similarity index ") || HasPrefix(line, "dissimilarity index "))
  }

  /** Hunks one after the other, and then none. */
  predicate HunksThen(f: Reader, h: Hunk, lines: seq<Bytes>)
    decreases |lines|
  {
    if lines == [] then true
    else if Open(h) || HasPrefix(lines[0], GIT_HUNK) || HasPrefix(lines[0], "\\ ") then
      Read(f, h, lines[0]).Ok? && HunksThen(f, Read(f, h, lines[0]).value, lines[1..])
    else NoHunk(lines)
  }

  predicate AfterHead(f: Reader, lines: seq<Bytes>)
    decreases |lines|
  {
    if lines != [] && Extended(lines[0]) then AfterHead(f, lines[1..]) else HunksThen(f, NO_HUNK, lines)
  }

  /** A header that is more than one line, hunks right after it, and no further hunk. */
  predicate OnePart(f: Reader, lines: seq<Bytes>) {
    |lines| > 1 && HasPrefix(lines[0], DIFF_GIT) && Extended(lines[1]) && AfterHead(f, lines[2..])
  }

  ghost predicate AllOnePart(f: Reader, blocks: seq<Block>) {
    forall b :: b in blocks ==> OnePart(f, b.lines)
  }

  /** The parts that Git finds are the blocks, and there is one. */
  ghost predicate Regular(q: Unquoter, text: Bytes) {
    Blocks(q, text) != [] && NoHunk(Head(text)) && AllOnePart(LineReader(q), Blocks(q, text))
  }

  /** What the filter leaves of a regular patch is regular, if anything is left. */
  lemma FilteredRegular(q: Unquoter, text: Bytes, tree: Tree)
    requires Accepted(q, text) && Regular(q, text)
    ensures FilteredOf(q, text, tree) != "" ==> Regular(q, FilteredOf(q, text, tree))
  {
    FilteredText(q, text, tree);
    forall b | b in KeptBlocks(tree, Blocks(q, text)) ensures b in Blocks(q, text) {
      KeptAre(tree, Blocks(q, text), b);
    }
  }
}
