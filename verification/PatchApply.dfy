/** Applying a patch strictly, and retrying without the new files that are already there. */
module PatchApply {
  import opened Common
  import opened PatchText
  import opened PatchPaths
  import opened PatchValidator
  import opened PatchBlocks
  import opened PatchFilter
  import opened PatchParts
  import opened PatchPrint
  import opened PatchPrinted
  import opened PatchOnePart
  import opened PatchGit

  // ---------------------------------------------------------------- the filtered patch

  /** What applying the filtered patch gives; when nothing is left of it, nothing is applied. */
  function Retried(g: Git, q: Unquoter, text: Bytes, tree: Tree): Option<Tree> {
    var filtered := FilteredOf(q, text, tree);
    if filtered == "" then Some(tree) else Apply(g, filtered, tree)
  }

  function WithoutSkipped(q: Unquoter, text: Bytes, tree: Tree): Tree {
    tree - SkippedPaths(tree, Blocks(q, text))
  }

  lemma RetriedIs(g: Git, q: Unquoter, text: Bytes, tree: Tree)
    requires AppliesByBlocks(g, q) && Accepted(q, text) && Apart(g, Blocks(q, text)) && Regular(q, text)
    ensures Retried(g, q, text, tree) == ApplyAll(g, KeptBlocks(tree, Blocks(q, text)), tree)
  {
    FilteredText(q, text, tree);
    FilteredRegular(q, text, tree);
    KeptApart(g, tree, Blocks(q, text));
  }

  /**
   The filtered patch does to the tree what the full patch does to the tree without the skipped
   files, if the parts of the patch are its blocks, and every skipped one is a new file in Git's own
   form at a path Git takes.
   */
  lemma FilteredMeansSame(g: Git, q: Unquoter, text: Bytes, tree: Tree)
    requires LawfulGit(g, q) && Accepted(q, text) && Apart(g, Blocks(q, text)) && Proper(tree)
    ensures Regular(q, text) && SkipsOwn(g, tree, Blocks(q, text)) ==>
      Retried(g, q, text, tree) == Apply(g, text, WithoutSkipped(q, text, tree))
  {
    if Regular(q, text) && SkipsOwn(g, tree, Blocks(q, text)) {
      RetriedIs(g, q, text, tree);
      KeptMeansSame(g, tree, Blocks(q, text));
    }
  }

  // ---------------------------------------------------------------- and only then

  /** Both take the same paths, and see the same paths in every block. */
  ghost predicate Alike(g: Git, h: Git) {
    && (forall p: Bytes :: Takes(h, p) == Takes(g, p))
    && (forall b: Block :: Touches(h, b) == Touches(g, b))
  }

  /** With every lawful tool alike that can apply what is kept, the filtered patch means the full one. */
  ghost predicate SameForEveryTool(g: Git, q: Unquoter, text: Bytes, tree: Tree) {
    forall h: Git :: LawfulGit(h, q) && Alike(g, h) && Retried(h, q, text, tree).Some? ==>
      Retried(h, q, text, tree) == Apply(h, text, WithoutSkipped(q, text, tree))
  }

  lemma {:induction false} ApplyAllSame(g: Git, h: Git, blocks: seq<Block>, tree: Tree)
    requires forall b: Block, t: Tree :: b in blocks ==> Effect(h, b, t) == Effect(g, b, t)
    ensures ApplyAll(h, blocks, tree) == ApplyAll(g, blocks, tree)
    decreases |blocks|
  {
    if blocks != [] && Effect(g, blocks[0], tree).Some? {
      ApplyAllSame(g, h, blocks[1..], Effect(g, blocks[0], tree).value);
    }
  }

  lemma AlikeApart(g: Git, h: Git, blocks: seq<Block>)
    requires Alike(g, h)
    ensures Apart(h, blocks) <==> Apart(g, blocks)
  {
  }

  // A patch with other parts than its blocks: a tool may refuse it as it is.

  function RefusingText(g: Git, bad: Bytes): Git {
    g.(apply := (text, t) => if text == bad then None else Apply(g, text, t))
  }

  lemma RefusingTextLawful(g: Git, q: Unquoter, bad: Bytes)
    requires LawfulGit(g, q) && !Regular(q, bad)
    ensures LawfulGit(RefusingText(g, bad), q) && Alike(g, RefusingText(g, bad))
  {
    var h := RefusingText(g, bad);
    assert forall b: Block, t: Tree :: Effect(h, b, t) == Effect(g, b, t);
    assert forall b: Block :: Touches(h, b) == Touches(g, b);
    forall text: Bytes, t: Tree | Accepted(q, text) && Regular(q, text) && Apart(h, Blocks(q, text))
      ensures Apply(h, text, t) == ApplyAll(h, Blocks(q, text), t)
    {
      AlikeApart(g, h, Blocks(q, text));
      ApplyAllSame(g, h, Blocks(q, text), t);
    }
    LocalToo(g, h);
    OwnFormToo(g, h);
  }

  lemma LocalToo(g: Git, h: Git)
    requires Local(g) && forall b: Block, t: Tree :: Effect(h, b, t) == Effect(g, b, t)
    requires forall b: Block :: Touches(h, b) == Touches(g, b)
    ensures Local(h)
  {
    forall b: Block, t: Tree, u: Tree | AgreeNear(t, u, Touches(h, b))
      ensures SameOutcome(Effect(h, b, t), Effect(h, b, u), Touches(h, b))
    {
      assert AgreeNear(t, u, Touches(g, b));
    }
    forall b: Block, t: Tree | Effect(h, b, t).Some?
      ensures AgreeElsewhere(t, Effect(h, b, t).value, Touches(h, b))
    {
      assert Effect(g, b, t).Some?;
    }
  }

  lemma OwnFormToo(g: Git, h: Git)
    requires AppliesOwnForm(g) && forall b: Block, t: Tree :: Effect(h, b, t) == Effect(g, b, t)
    requires Alike(g, h)
    ensures AppliesOwnForm(h)
  {
    assert forall f: NewFile :: Fitting(f) ==> Touches(h, BlockFor(f)) == Touches(g, BlockFor(f));
    assert forall f: NewFile, t: Tree :: Effect(h, BlockFor(f), t) == Effect(g, BlockFor(f), t);
  }

  lemma FilteredIsOther(q: Unquoter, text: Bytes, tree: Tree)
    requires Accepted(q, text) && SomeSkip(tree, Blocks(q, text))
    ensures FilteredOf(q, text, tree) != text
  {
    FilteredText(q, text, tree);
    KeptShorter(tree, Blocks(q, text));
  }

  lemma IrregularShows(g: Git, q: Unquoter, text: Bytes, tree: Tree)
    requires LawfulGit(g, q) && Accepted(q, text) && SomeSkip(tree, Blocks(q, text))
    requires Retried(g, q, text, tree).Some? && !Regular(q, text)
    ensures !SameForEveryTool(g, q, text, tree)
  {
    var h := RefusingText(g, text);
    RefusingTextLawful(g, q, text);
    FilteredIsOther(q, text, tree);
    assert Retried(h, q, text, tree) == Retried(g, q, text, tree);
    assert Apply(h, text, WithoutSkipped(q, text, tree)).None?;
  }

  // A skipped block that Git need not make: a tool may refuse it everywhere.

  function RefusingEffect(g: Git, bad: Block): Git {
    g.(effect := (b, t) => if b == bad then None else Effect(g, b, t))
  }

  /** The same tool, but refusing one block, alone and in regular patches. */
  ghost function RefusingBlock(g: Git, q: Unquoter, bad: Block): Git {
    var h := RefusingEffect(g, bad);
    h.(apply := (text, t) =>
         if Accepted(q, text) && Regular(q, text) && Apart(g, Blocks(q, text))
         then ApplyAll(h, Blocks(q, text), t) else Apply(g, text, t))
  }

  lemma RefusingBlockLocal(g: Git, q: Unquoter, bad: Block)
    requires Local(g)
    ensures Local(RefusingBlock(g, q, bad))
  {
    var h := RefusingBlock(g, q, bad);
    forall b: Block, t: Tree, u: Tree | AgreeNear(t, u, Touches(h, b))
      ensures SameOutcome(Effect(h, b, t), Effect(h, b, u), Touches(h, b))
    {
      assert AgreeNear(t, u, Touches(g, b));
    }
    forall b: Block, t: Tree | Effect(h, b, t).Some?
      ensures AgreeElsewhere(t, Effect(h, b, t).value, Touches(h, b))
    {
      assert Effect(g, b, t).Some?;
    }
  }

  lemma RefusingBlockLawful(g: Git, q: Unquoter, bad: Block)
    requires LawfulGit(g, q) && !(Standard(bad) && Takes(g, bad.path))
    ensures LawfulGit(RefusingBlock(g, q, bad), q) && Alike(g, RefusingBlock(g, q, bad))
  {
    var h := RefusingBlock(g, q, bad);
    assert forall b: Block :: Touches(h, b) == Touches(g, b);
    forall f: NewFile | Fitting(f) && Takes(g, f.path) ensures BlockFor(f) != bad {
      PrintedIsStandard(q, f);
    }
    assert forall f: NewFile, t: Tree :: Fitting(f) && Takes(g, f.path) ==>
      Effect(h, BlockFor(f), t) == Effect(g, BlockFor(f), t);
    RefusingBlockLocal(g, q, bad);
    forall text: Bytes, t: Tree | Accepted(q, text) && Regular(q, text) && Apart(h, Blocks(q, text))
      ensures Apply(h, text, t) == ApplyAll(h, Blocks(q, text), t)
    {
      AlikeApart(g, h, Blocks(q, text));
      ApplyAllSame(RefusingEffect(g, bad), h, Blocks(q, text), t);
    }
  }

  lemma {:induction false} RefusedNeverApplies(h: Git, bad: Block, blocks: seq<Block>, tree: Tree)
    requires bad in blocks && forall t: Tree :: Effect(h, bad, t).None?
    ensures ApplyAll(h, blocks, tree).None?
    decreases |blocks|
  {
    if blocks[0] != bad && Effect(h, blocks[0], tree).Some? {
      RefusedNeverApplies(h, bad, blocks[1..], Effect(h, blocks[0], tree).value);
    }
  }

  lemma RefusalShows(g: Git, q: Unquoter, text: Bytes, tree: Tree, bad: Block)
    requires LawfulGit(g, q) && Accepted(q, text) && Apart(g, Blocks(q, text)) && Regular(q, text)
    requires Retried(g, q, text, tree).Some?
    requires bad in Blocks(q, text) && Skips(tree, bad) && !(Standard(bad) && Takes(g, bad.path))
    ensures !SameForEveryTool(g, q, text, tree)
  {
    var h, blocks := RefusingBlock(g, q, bad), Blocks(q, text);
    RefusingBlockLawful(g, q, bad);
    AlikeApart(g, h, blocks);
    if bad in KeptBlocks(tree, blocks) { KeptAre(tree, blocks, bad); }
    ApplyAllSame(g, h, KeptBlocks(tree, blocks), tree);
    RetriedIs(g, q, text, tree);
    RetriedIs(h, q, text, tree);
    RefusedNeverApplies(h, bad, blocks, WithoutSkipped(q, text, tree));
  }

  lemma ForeignShows(g: Git, q: Unquoter, text: Bytes, tree: Tree)
    requires LawfulGit(g, q) && Accepted(q, text) && Apart(g, Blocks(q, text)) && Regular(q, text)
    requires Retried(g, q, text, tree).Some? && !SkipsOwn(g, tree, Blocks(q, text))
    ensures !SameForEveryTool(g, q, text, tree)
  {
    var bad :| bad in Blocks(q, text) && Skips(tree, bad) && !(Standard(bad) && Takes(g, bad.path));
    RefusalShows(g, q, text, tree, bad);
  }

  lemma RegularIsSame(g: Git, q: Unquoter, text: Bytes, tree: Tree)
    requires Accepted(q, text) && Apart(g, Blocks(q, text)) && Proper(tree)
    requires Regular(q, text) && SkipsOwn(g, tree, Blocks(q, text))
    ensures SameForEveryTool(g, q, text, tree)
  {
    forall h: Git | LawfulGit(h, q) && Alike(g, h)
      ensures Retried(h, q, text, tree) == Apply(h, text, WithoutSkipped(q, text, tree))
    {
      AlikeApart(g, h, Blocks(q, text));
      AlikeSkips(g, h, tree, Blocks(q, text));
      FilteredMeansSame(h, q, text, tree);
    }
  }

  lemma AlikeSkips(g: Git, h: Git, tree: Tree, blocks: seq<Block>)
    requires Alike(g, h) && SkipsOwn(g, tree, blocks)
    ensures SkipsOwn(h, tree, blocks)
  {
  }

  /**
   For a patch that is retried, and whose filtered form some tool can apply: that filtering keeps its
   meaning is assured if and only if its parts are its blocks, and every skipped one is a new file in
   Git's own form at a path the tool takes.
   */
  lemma FilteredExactly(g: Git, q: Unquoter, text: Bytes, tree: Tree)
    requires LawfulGit(g, q) && Accepted(q, text) && Apart(g, Blocks(q, text)) && Proper(tree)
    requires SomeSkip(tree, Blocks(q, text)) && Retried(g, q, text, tree).Some?
    ensures SameForEveryTool(g, q, text, tree) <==> Regular(q, text) && SkipsOwn(g, tree, Blocks(q, text))
  {
    if !Regular(q, text) {
      IrregularShows(g, q, text, tree);
    } else if !SkipsOwn(g, tree, Blocks(q, text)) {
      ForeignShows(g, q, text, tree);
    } else {
      RegularIsSame(g, q, text, tree);
    }
  }

  // ---------------------------------------------------------------- apply, and retry without what is there

  datatype Applied = Applied(tree: Tree, ok: bool)

  function Landed(r: Option<Tree>, tree: Tree): Applied {
    if r.Some? then Applied(r.value, true) else Applied(tree, false)
  }

  /** `saysExists`: Git's error says that a file already exists in the working directory. */
  ghost function Outcome(g: Git, q: Unquoter, text: Bytes, strict: bool, saysExists: bool, tree: Tree): Applied {
    var first := if strict then Apply(g, text, tree) else Merge(g, text, tree);
    if text == "" then Applied(tree, true)
    else if !Accepted(q, text) then Applied(tree, false)
    else if first.Some? then Applied(first.value, true)
    else if strict && saysExists && SomeSkip(tree, Blocks(q, text)) then Landed(Retried(g, q, text, tree), tree)
    else Applied(tree, false)
  }

  datatype Decision = GiveUp | NothingLeft | Again

  function RetryDecision(strict: bool, saysExists: bool, skipped: seq<Bytes>, filteredEmpty: bool): Decision {
    if skipped == [] || !strict || !saysExists then GiveUp
    else if filteredEmpty then NothingLeft
    else Again
  }

  method ApplyPatchStore(g: Git, q: Unquoter, stored: Option<Bytes>, strict: bool, saysExists: bool, tree: Tree)
    returns (r: Applied)
    ensures stored.None? ==> r == Applied(tree, true)
    ensures stored.Some? ==> r == Outcome(g, q, stored.value, strict, saysExists, tree)
  {
    if stored.None? {
      return Applied(tree, true);
    }
    var data := stored.value;
    if |data| > MAX_PATCH_BYTES {
      return Applied(tree, false);
    }
    if |data| == 0 {
      return Applied(tree, true);
    }
    var invalid := ValidatePatch(q, data);
    if invalid.Some? {
      return Applied(tree, false);
    }
    var first := if strict then Apply(g, data, tree) else Merge(g, data, tree);
    if first.Some? {
      return Applied(first.value, true);
    }
    var filtered := FilterExistingNewFiles(q, data, tree);
    SkippedMeans(q, tree, Groups(Lines(data)));
    match RetryDecision(strict, saysExists, filtered.value.skipped, filtered.value.text == "")
    case GiveUp => return Applied(tree, false);
    case NothingLeft => return Applied(tree, true);
    case Again => return Landed(Apply(g, filtered.value.text, tree), tree);
  }

  /**
   An empty patch changes nothing and one that is not accepted is refused.  Otherwise the answer is what the
   full text does, on the tree or, when a strict apply met files that exist, without what was there; and
   failing that the tree is as it was.
   */
  lemma AppliedMeaning(g: Git, q: Unquoter, text: Bytes, strict: bool, saysExists: bool, tree: Tree)
    requires LawfulGit(g, q) && Apart(g, Blocks(q, text)) && Proper(tree)
    requires SomeSkip(tree, Blocks(q, text)) ==> Regular(q, text) && SkipsOwn(g, tree, Blocks(q, text))
    ensures Outcome(g, q, text, strict, saysExists, tree) ==
      var first := if strict then Apply(g, text, tree) else Merge(g, text, tree);
      var retried := strict && saysExists && SomeSkip(tree, Blocks(q, text));
      var second := if retried then Apply(g, text, WithoutSkipped(q, text, tree)) else None;
      if text == "" then Applied(tree, true)
      else if !Accepted(q, text) then Applied(tree, false)
      else if first.Some? then Applied(first.value, true)
      else if second.Some? then Applied(second.value, true)
      else Applied(tree, false)
  {
    if Accepted(q, text) && SomeSkip(tree, Blocks(q, text)) {
      FilteredMeansSame(g, q, text, tree);
    }
  }

  /** Whatever comes before the first header is lost when every block is there already. */
  lemma HeadIsLost(g: Git, q: Unquoter, text: Bytes, tree: Tree)
    requires Accepted(q, text) && Blocks(q, text) != [] && Apply(g, text, tree).None?
    requires forall i :: 0 <= i < |Blocks(q, text)| ==> Skips(tree, Blocks(q, text)[i])
    ensures Outcome(g, q, text, true, true, tree) == Applied(tree, true)
  {
    AllSkippedNoneKept(tree, Blocks(q, text));
    FilteredText(q, text, tree);
    assert Skips(tree, Blocks(q, text)[0]);
  }

  // ---------------------------------------------------------------- applying a patch to its own result

  lemma PrintedAreRegular(q: Unquoter, text: Bytes, files: seq<NewFile>)
    requires ArePrinted(Blocks(q, text), files) && files != [] && NoHunk(Head(text))
    ensures Regular(q, text)
  {
    var blocks := Blocks(q, text);
    forall b | b in blocks ensures OnePart(LineReader(q), b.lines) {
      var i :| 0 <= i < |blocks| && blocks[i] == b;
      assert b == BlockFor(files[i]);
      PrintedIsOnePart(q, files[i]);
    }
  }

  lemma PrintedAreApart(g: Git, blocks: seq<Block>, files: seq<NewFile>)
    requires AppliesOwnForm(g) && ArePrinted(blocks, files) && FilesApart(files)
    ensures Apart(g, blocks)
  {
    forall i, j | 0 <= i < |blocks| && 0 <= j < |blocks| && i != j
      ensures Unrelated(Touches(g, blocks[i]), Touches(g, blocks[j]))
    {
      assert blocks[i] == BlockFor(files[i]) && blocks[j] == BlockFor(files[j]);
      assert Touches(g, BlockFor(files[i])) == {files[i].path} && Touches(g, BlockFor(files[j])) == {files[j].path};
    }
  }

  /** A patch of new files in Git's own form makes them; running it again succeeds and changes nothing. */
  lemma {:induction false} RerunChangesNothing(g: Git, q: Unquoter, text: Bytes, files: seq<NewFile>,
                                               saysExists: bool, tree: Tree)
    requires LawfulGit(g, q) && Accepted(q, text) && NoHunk(Head(text))
    requires ArePrinted(Blocks(q, text), files) && AllTaken(g, files)
    requires FilesApart(files) && FilesClear(tree, files)
    ensures text == "" || files != [] ==>
      && Outcome(g, q, text, true, saysExists, tree) == Applied(WithFiles(tree, files), true)
      && Outcome(g, q, text, true, true, WithFiles(tree, files)) == Applied(WithFiles(tree, files), true)
  {
    var blocks, done := Blocks(q, text), WithFiles(tree, files);
    if text == "" {
      EmptyHasNoBlocks(q);
    } else if files != [] {
      PrintedAreRegular(q, text, files);
      PrintedAreApart(g, blocks, files);
      OwnResultSkips(q, g, blocks, files, tree);
      assert Apply(g, text, tree) == ApplyAll(g, blocks, tree);
      assert Apply(g, text, done) == ApplyAll(g, blocks, done);
      HeadIsLost(g, q, text, done);
    }
  }

  lemma EmptyHasNoBlocks(q: Unquoter)
    ensures Blocks(q, "") == []
  {
    assert Lines("") == [] && Groups([]) == [];
  }
}
