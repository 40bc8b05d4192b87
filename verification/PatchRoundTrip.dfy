/** Printed new files go through validator, splitter, skip test and apply, and come back as themselves. */
module PatchRoundTrip {
  import opened PatchText
  import opened PatchPaths
  import opened PatchValidator
  import opened PatchBlocks
  import opened PatchFilter
  import opened PatchParts
  import opened PatchPrint
  import opened PatchPrinted
  import opened PatchGit
  import opened PatchApply

  // ---------------------------------------------------------------- many files

  function PrintGroups(files: seq<NewFile>): seq<seq<Bytes>> {
    seq(|files|, i requires 0 <= i < |files| => PrintLines(files[i]))
  }

  function PrintFiles(files: seq<NewFile>): Bytes {
    Join(Flatten(PrintGroups(files)))
  }

  ghost predicate AllFitting(files: seq<NewFile>) {
    forall i :: 0 <= i < |files| ==> Fitting(files[i])
  }

  lemma {:induction false} FlattenWhole(groups: seq<seq<Bytes>>)
    requires forall i :: 0 <= i < |groups| ==> AllWhole(groups[i])
    ensures AllWhole(Flatten(groups))
    decreases |groups|
  {
    if groups != [] {
      FlattenWhole(groups[..|groups| - 1]);
    }
  }

  lemma {:induction false} FlattenComplete(f: Reader, groups: seq<seq<Bytes>>)
    requires AllComplete(f, groups)
    ensures Complete(f, Flatten(groups))
    decreases |groups|
  {
    if groups != [] {
      var init := groups[..|groups| - 1];
      FlattenComplete(f, init);
      CompleteConcat(f, Flatten(init), groups[|groups| - 1]);
      assert Complete(f, groups[|groups| - 1]);
    }
  }

  /** The lines are one group, each with its LF, and pass the validator by themselves. */
  ghost predicate Alone(q: Unquoter, group: seq<Bytes>) {
    (IsGroup(group) && AllWhole(group) && Complete(LineReader(q), group)) == true
  }

  ghost predicate AllAlone(q: Unquoter, groups: seq<seq<Bytes>>) {
    forall i {:trigger Alone(q, groups[i])} :: 0 <= i < |groups| ==> Alone(q, groups[i])
  }

  lemma AloneFacts(q: Unquoter, groups: seq<seq<Bytes>>)
    requires AllAlone(q, groups)
    ensures AllGroups(groups) && AllComplete(LineReader(q), groups)
    ensures forall i :: 0 <= i < |groups| ==> AllWhole(groups[i])
  {
    forall i | 0 <= i < |groups|
      ensures IsGroup(groups[i]) && AllWhole(groups[i]) && Complete(LineReader(q), groups[i])
    {
      assert Alone(q, groups[i]);
    }
  }

  /** Lines before the first header, each with its LF, that pass the validator by themselves. */
  ghost predicate HeadAlone(q: Unquoter, head: seq<Bytes>) {
    (NoneStarts(head) && AllWhole(head) && Complete(LineReader(q), head)) == true
  }

  lemma {:induction false} NoGroups(head: seq<Bytes>)
    requires NoneStarts(head)
    ensures Groups(head) == []
    decreases |head|
  {
    if head != [] {
      var init := head[..|head| - 1];
      assert head == init + [head[|head| - 1]];
      NoGroups(init);
      GroupsSnoc(init, head[|head| - 1]);
    }
  }

  lemma OneMoreGroup(before: seq<Bytes>, init: seq<seq<Bytes>>, last: seq<Bytes>, lines: seq<Bytes>)
    requires Groups(before) == init && IsGroup(last) && lines == before + last
    ensures Groups(lines) == init + [last]
  {
    GroupsOfOneMore(before, last, lines);
  }

  lemma LastGroup(groups: seq<seq<Bytes>>)
    requires AllGroups(groups) && groups != []
    ensures var init, last := groups[..|groups| - 1], groups[|groups| - 1];
      AllGroups(init) && IsGroup(last) && init + [last] == groups && Flatten(groups) == Flatten(init) + last
  {
  }

  lemma {:induction false} GroupsAfterHead(head: seq<Bytes>, groups: seq<seq<Bytes>>)
    requires Groups(head) == [] && AllGroups(groups)
    ensures Groups(head + Flatten(groups)) == groups
    decreases |groups|
  {
    if groups == [] {
      assert head + Flatten(groups) == head;
    } else {
      var init, last := groups[..|groups| - 1], groups[|groups| - 1];
      LastGroup(groups);
      GroupsAfterHead(head, init);
      Associated(head, Flatten(init), last);
      OneMoreGroup(head + Flatten(init), init, last, head + Flatten(groups));
    }
  }

  lemma Associated(a: seq<Bytes>, b: seq<Bytes>, c: seq<Bytes>)
    ensures a + (b + c) == (a + b) + c
  {
  }

  lemma {:induction false} HeadEnds(head: seq<Bytes>, rest: seq<Bytes>)
    requires NoneStarts(head) && (rest != [] ==> StartsBlock(rest[0]))
    ensures FirstHeader(head + rest) == |head|
    decreases |head|
  {
    if head == [] {
      assert head + rest == rest;
    } else {
      assert (head + rest)[1..] == head[1..] + rest && !StartsBlock(head[0]);
      HeadEnds(head[1..], rest);
    }
  }

  /** A head and whole groups of complete lines, put one after the other, read back as what they are. */
  lemma GroupsReadBack(q: Unquoter, head: seq<Bytes>, groups: seq<seq<Bytes>>, text: Bytes)
    requires HeadAlone(q, head) && AllAlone(q, groups) && text == Join(head + Flatten(groups))
    ensures AllGroups(groups)
    ensures Lines(text) == head + Flatten(groups) && Groups(Lines(text)) == groups && Head(text) == head
    ensures |text| <= MAX_PATCH_BYTES ==> Accepted(q, text)
  {
    AloneFacts(q, groups);
    FlattenWhole(groups);
    FlattenComplete(LineReader(q), groups);
    CompleteConcat(LineReader(q), head, Flatten(groups));
    LinesOfJoin(head + Flatten(groups));
    NoGroups(head);
    GroupsAfterHead(head, groups);
    FlattenStarts(groups);
    HeadEnds(head, Flatten(groups));
    assert (head + Flatten(groups))[..|head|] == head;
  }

  lemma NoHead(q: Unquoter)
    ensures HeadAlone(q, [])
  {
  }

  lemma FileAlone(q: Unquoter, f: NewFile)
    requires Fitting(f)
    ensures Alone(q, PrintLines(f))
  {
    PrintedIsGroup(q, f);
    PrintedIsWhole(f);
    PrintedIsComplete(q, f);
  }

  lemma PrintedAlone(q: Unquoter, files: seq<NewFile>)
    requires AllFitting(files)
    ensures AllAlone(q, PrintGroups(files))
  {
    forall i | 0 <= i < |files| ensures Alone(q, PrintLines(files[i])) {
      FileAlone(q, files[i]);
    }
  }

  /** Printed text reads back as the lines that were printed, in one group a file, and is accepted. */
  lemma PrintReadsBack(q: Unquoter, files: seq<NewFile>)
    requires AllFitting(files)
    ensures Lines(PrintFiles(files)) == Flatten(PrintGroups(files)) && Head(PrintFiles(files)) == []
    ensures AllGroups(PrintGroups(files)) && Groups(Lines(PrintFiles(files))) == PrintGroups(files)
    ensures |PrintFiles(files)| <= MAX_PATCH_BYTES ==> Accepted(q, PrintFiles(files))
  {
    PrintedAlone(q, files);
    NoHead(q);
    assert [] + Flatten(PrintGroups(files)) == Flatten(PrintGroups(files));
    GroupsReadBack(q, [], PrintGroups(files), PrintFiles(files));
  }

  lemma {:induction false} BlocksOfAt(q: Unquoter, groups: seq<seq<Bytes>>, i: nat)
    requires AllGroups(groups) && i < |groups|
    ensures |BlocksOf(q, groups)| == |groups| && BlocksOf(q, groups)[i] == BlockOf(q, groups[i])
    decreases |groups|
  {
    BlocksOfLength(q, groups);
    BlocksOfLength(q, groups[..|groups| - 1]);
    if i < |groups| - 1 {
      BlocksOfAt(q, groups[..|groups| - 1], i);
    }
  }

  lemma {:induction false} BlocksOfLength(q: Unquoter, groups: seq<seq<Bytes>>)
    requires AllGroups(groups)
    ensures |BlocksOf(q, groups)| == |groups|
    decreases |groups|
  {
    if groups != [] {
      BlocksOfLength(q, groups[..|groups| - 1]);
    }
  }

  /** Each group is read as its block. */
  ghost predicate ReadAs(q: Unquoter, groups: seq<seq<Bytes>>, blocks: seq<Block>) {
    && |blocks| == |groups|
    && forall i {:trigger blocks[i]} :: 0 <= i < |groups| ==> groups[i] != [] && BlockOf(q, groups[i]) == blocks[i]
  }

  lemma ReadAsOne(q: Unquoter, groups: seq<seq<Bytes>>, blocks: seq<Block>, others: seq<Block>)
    requires ReadAs(q, groups, blocks) && ReadAs(q, groups, others)
    ensures blocks == others
  {
  }

  lemma BlocksReadBack(q: Unquoter, head: seq<Bytes>, groups: seq<seq<Bytes>>, text: Bytes)
    requires HeadAlone(q, head) && AllAlone(q, groups) && text == Join(head + Flatten(groups))
    ensures ReadAs(q, groups, Blocks(q, text)) && Head(text) == head
    ensures |text| <= MAX_PATCH_BYTES ==> Accepted(q, text)
  {
    GroupsReadBack(q, head, groups, text);
    BlocksOfLength(q, groups);
    forall i | 0 <= i < |groups| ensures groups[i] != [] && BlocksOf(q, groups)[i] == BlockOf(q, groups[i]) {
      BlocksOfAt(q, groups, i);
    }
  }

  /** The block of each printed file is that file: same path, content and executable bit, in Git's own form. */
  lemma PrintedBlocks(q: Unquoter, files: seq<NewFile>)
    requires AllFitting(files)
    ensures ArePrinted(Blocks(q, PrintFiles(files)), files)
    ensures forall i :: 0 <= i < |files| ==>
      FileOf(Blocks(q, PrintFiles(files))[i]) == files[i] && Standard(Blocks(q, PrintFiles(files))[i])
  {
    PrintedAlone(q, files);
    NoHead(q);
    assert [] + Flatten(PrintGroups(files)) == Flatten(PrintGroups(files));
    BlocksReadBack(q, [], PrintGroups(files), PrintFiles(files));
    forall i | 0 <= i < |files|
      ensures BlockOf(q, PrintLines(files[i])) == BlockFor(files[i])
      ensures FileOf(BlockFor(files[i])) == files[i] && Standard(BlockFor(files[i]))
    {
      PrintedBlock(q, files[i]);
      PrintedIsStandard(q, files[i]);
    }
  }

  /**
   Printing new files and applying the text adds exactly those files; applying it once more finds
   all of them there, skips them all, and leaves the tree as it is.
   */
  lemma PrintApplyRerun(g: Git, q: Unquoter, files: seq<NewFile>, tree: Tree)
    requires LawfulGit(g, q) && AllFitting(files) && AllTaken(g, files)
    requires FilesApart(files) && FilesClear(tree, files)
    ensures |PrintFiles(files)| <= MAX_PATCH_BYTES ==>
      && Outcome(g, q, PrintFiles(files), true, false, tree) == Applied(WithFiles(tree, files), true)
      && Outcome(g, q, PrintFiles(files), true, true, WithFiles(tree, files)) == Applied(WithFiles(tree, files), true)
  {
    if |PrintFiles(files)| > MAX_PATCH_BYTES { return; }
    PrintReadsBack(q, files);
    PrintedBlocks(q, files);
    if files == [] { assert PrintFiles(files) == ""; }
    RerunChangesNothing(g, q, PrintFiles(files), files, false, tree);
  }
}
