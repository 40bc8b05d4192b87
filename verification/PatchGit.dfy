/** What is asked of Git, and what follows for patches of blocks that touch different paths. */
module PatchGit {
  import opened Common
  import opened PatchText
  import opened PatchPaths
  import opened PatchValidator
  import opened PatchBlocks
  import opened PatchFilter
  import opened PatchParts
  import opened PatchPrint
  import opened PatchPrinted

  /**
   A tool that applies patches: to whole texts, strictly or merging; and for single blocks, the
   paths they concern and what they do.  `takes`: the paths a file can be made at, as it is.
   */
  datatype Git = Git(
    apply: (Bytes, Tree) -> Option<Tree>,
    merge: (Bytes, Tree) -> Option<Tree>,
    touches: Block -> set<Bytes>,
    effect: (Block, Tree) -> Option<Tree>,
    takes: Bytes -> bool)

  function Apply(g: Git, text: Bytes, tree: Tree): Option<Tree> { (g.apply)(text, tree) }
  function Merge(g: Git, text: Bytes, tree: Tree): Option<Tree> { (g.merge)(text, tree) }
  function Touches(g: Git, b: Block): set<Bytes> { (g.touches)(b) }
  function Effect(g: Git, b: Block, tree: Tree): Option<Tree> { (g.effect)(b, tree) }
  predicate Takes(g: Git, path: Bytes) { (g.takes)(path) }

  predicate Below(path: Bytes, dir: Bytes) {
    |dir| < |path| && path[..|dir|] == dir && path[|dir|] == '/'
  }

  predicate Related(p: Bytes, r: Bytes) {
    p == r || Below(p, r) || Below(r, p)
  }

  /** Nothing is at the path, above it or below it. */
  predicate Clear(t: Tree, p: Bytes) {
    forall r :: r in t ==> !Related(r, p)
  }

  ghost predicate Near(p: Bytes, paths: set<Bytes>) {
    exists r :: r in paths && Related(p, r)
  }

  ghost predicate AgreeNear(t: Tree, u: Tree, paths: set<Bytes>) {
    forall p :: Near(p, paths) ==> Lookup(t, p) == Lookup(u, p)
  }

  ghost predicate AgreeElsewhere(t: Tree, u: Tree, paths: set<Bytes>) {
    forall p :: p !in paths ==> Lookup(t, p) == Lookup(u, p)
  }

  ghost predicate SameOutcome(r: Option<Tree>, s: Option<Tree>, paths: set<Bytes>) {
    (r.Some? <==> s.Some?) && (r.Some? ==> forall p :: p in paths ==> Lookup(r.value, p) == Lookup(s.value, p))
  }

  function FileNode(f: NewFile): Node { File(f.content, f.exec) }

  /** Strict application: all blocks or nothing. */
  function ApplyAll(g: Git, blocks: seq<Block>, tree: Tree): Option<Tree>
    decreases |blocks|
  {
    if blocks == [] then Some(tree)
    else if Effect(g, blocks[0], tree).None? then None
    else ApplyAll(g, blocks[1..], Effect(g, blocks[0], tree).value)
  }

  ghost predicate Unrelated(a: set<Bytes>, b: set<Bytes>) {
    forall p, r :: p in a && r in b ==> !Related(p, r)
  }

  /** Different blocks touch different paths, none below a path of another. */
  ghost predicate Apart(g: Git, blocks: seq<Block>) {
    forall i, j :: 0 <= i < |blocks| && 0 <= j < |blocks| && i != j ==>
      Unrelated(Touches(g, blocks[i]), Touches(g, blocks[j]))
  }

  /** No entry lies below another, as in every working tree. */
  ghost predicate Proper(t: Tree) {
    forall p, r :: p in t && r in t && p != r ==> !Related(p, r)
  }

  // ---------------------------------------------------------------- the laws

  /** A block depends only on what is at, above or below its paths, and changes only its paths. */
  ghost predicate Local(g: Git) {
    && (forall b: Block, t: Tree, u: Tree :: AgreeNear(t, u, Touches(g, b)) ==>
          SameOutcome(Effect(g, b, t), Effect(g, b, u), Touches(g, b)))
    && (forall b: Block, t: Tree :: Effect(g, b, t).Some? ==>
          AgreeElsewhere(t, Effect(g, b, t).value, Touches(g, b)))
  }

  /** A new file in Git's own form is made at a path Git takes where nothing is in the way; what exists it refuses. */
  ghost predicate AppliesOwnForm(g: Git) {
    && (forall f: NewFile :: Fitting(f) ==> Touches(g, BlockFor(f)) == {f.path})
    && (forall f: NewFile, t: Tree :: Fitting(f) && Takes(g, f.path) && Clear(t, f.path) ==>
          Effect(g, BlockFor(f), t) == Some(t[f.path := FileNode(f)]))
    && (forall f: NewFile, t: Tree :: Fitting(f) && f.path in t ==> Effect(g, BlockFor(f), t).None?)
  }

  /** A patch whose parts are its blocks, on different paths, is applied block by block, or not at all. */
  ghost predicate AppliesByBlocks(g: Git, q: Unquoter) {
    forall text: Bytes, t: Tree :: Accepted(q, text) && Regular(q, text) && Apart(g, Blocks(q, text)) ==>
      Apply(g, text, t) == ApplyAll(g, Blocks(q, text), t)
  }

  /** Nothing is asked about other blocks but that they are local, nor about other texts. */
  ghost predicate LawfulGit(g: Git, q: Unquoter) {
    Local(g) && AppliesOwnForm(g) && AppliesByBlocks(g, q)
  }

  // ---------------------------------------------------------------- blocks in Git's own form

  /** The new file a block would be the printed form of. */
  function FileOf(b: Block): NewFile {
    NewFile(b.path, Content(b.lines), ModeExec(b.mode) == Some(true), IndexOf(b.lines))
  }

  /** The block is a new text file exactly as Git prints it. */
  predicate Standard(b: Block) {
    Fitting(FileOf(b)) && b == BlockFor(FileOf(b))
  }

  function IndexOf(lines: seq<Bytes>): Bytes {
    if |lines| > 2 && HasPrefix(TrimLine(lines[2]), INDEX_START) then TrimLine(lines[2])[|INDEX_START|..] else ""
  }

  lemma IndexLineTrims(f: NewFile)
    requires Fitting(f) && f.index != ""
    ensures TrimLine(IndexLine(f) + "\n") == IndexLine(f)
  {
    var raw := IndexLine(f);
    assert raw[|raw| - 1] == f.index[|f.index| - 1] && HashChar(f.index[|f.index| - 1]);
    TrimEnded(raw);
  }

  lemma IndexIsThird(f: NewFile)
    requires f.index != ""
    ensures |PrintLines(f)| > 2 && PrintLines(f)[2] == IndexLine(f) + "\n"
  {
    assert HeadLines(f)[2] == IndexLine(f) + "\n";
  }

  lemma WithIndex(f: NewFile)
    requires Fitting(f) && f.index != ""
    ensures |PrintLines(f)| > 2 && TrimLine(PrintLines(f)[2]) == IndexLine(f)
  {
    IndexLineTrims(f);
    IndexIsThird(f);
  }

  lemma WithoutIndex(q: Unquoter, f: NewFile)
    requires Fitting(f) && f.index == "" && f.content != ""
    ensures |PrintLines(f)| > 2 && TrimLine(PrintLines(f)[2]) == FROM_NULL
  {
    NullLineFacts(q, Expect(f, [], false));
    assert |HeadLines(f)| == 2 && HunkHead(f)[0] == FROM_NULL + "\n";
  }

  lemma IndexComesBack(q: Unquoter, f: NewFile)
    requires Fitting(f)
    ensures IndexOf(PrintLines(f)) == f.index
  {
    if f.index != "" {
      WithIndex(f);
      assert IndexLine(f)[..|INDEX_START|] == INDEX_START && IndexLine(f)[|INDEX_START|..] == f.index;
    } else if f.content != "" {
      WithoutIndex(q, f);
      NotPrefix(FROM_NULL, INDEX_START, 0);
    }
  }

  lemma PrintedIsStandard(q: Unquoter, f: NewFile)
    requires Fitting(f)
    ensures FileOf(BlockFor(f)) == f && Standard(BlockFor(f))
  {
    IndexComesBack(q, f);
    PrintedContent(q, f);
    ModeParses(f.exec);
  }

  /** A skipped block in Git's own form finds exactly the file it would make. */
  lemma SkippedIsThere(tree: Tree, b: Block)
    requires Standard(b) && Skips(tree, b)
    ensures Lookup(tree, b.path) == Some(FileNode(FileOf(b)))
  {
    ModeParses(FileOf(b).exec);
  }

  /** Every skipped block is a new file in Git's own form, at a path the tool takes. */
  ghost predicate SkipsOwn(g: Git, tree: Tree, blocks: seq<Block>) {
    forall b :: b in blocks && Skips(tree, b) ==> Standard(b) && Takes(g, b.path)
  }

  // ---------------------------------------------------------------- skipping keeps the meaning

  lemma SameLookups(t: Tree, u: Tree)
    requires forall p :: Lookup(t, p) == Lookup(u, p)
    ensures t == u
  {
    assert forall p :: p in t <==> Lookup(t, p).Some?;
    assert forall p :: p in u <==> Lookup(u, p).Some?;
    forall p | p in t ensures t[p] == u[p] {
      assert Lookup(t, p) == Lookup(u, p);
    }
  }

  /** Entries near none of its paths make no difference to a block. */
  lemma EffectAway(g: Git, b: Block, tree: Tree, paths: set<Bytes>)
    requires Local(g) && Unrelated(Touches(g, b), paths)
    ensures Effect(g, b, tree - paths) ==
      if Effect(g, b, tree).None? then None else Some(Effect(g, b, tree).value - paths)
  {
    var r, s := Effect(g, b, tree), Effect(g, b, tree - paths);
    forall p | Near(p, Touches(g, b)) ensures Lookup(tree, p) == Lookup(tree - paths, p) {
      var x :| x in Touches(g, b) && Related(p, x);
      assert p in paths ==> !Related(x, p);
    }
    assert AgreeNear(tree, tree - paths, Touches(g, b)) && SameOutcome(r, s, Touches(g, b));
    if r.Some? {
      forall p ensures Lookup(s.value, p) == Lookup(r.value - paths, p) {
        if p !in Touches(g, b) {
          assert Lookup(s.value, p) == Lookup(tree - paths, p);
          assert Lookup(r.value, p) == Lookup(tree, p);
        } else {
          assert p in paths ==> !Related(p, p);
        }
      }
      SameLookups(s.value, r.value - paths);
    }
  }

  /** Each skipped file is there as its block would make it, with nothing else near. */
  ghost predicate StillThere(tree: Tree, blocks: seq<Block>, now: Tree) {
    forall b :: b in blocks && Skips(tree, b) ==>
      Lookup(now, b.path) == Some(FileNode(FileOf(b))) && Clear(now - {b.path}, b.path)
  }

  lemma FirstApart(g: Git, tree: Tree, blocks: seq<Block>)
    requires AppliesOwnForm(g) && blocks != [] && Apart(g, blocks) && SkipsOwn(g, tree, blocks)
    ensures Apart(g, blocks[1..]) && SkipsOwn(g, tree, blocks[1..])
    ensures Unrelated(Touches(g, blocks[0]), SkippedPaths(tree, blocks[1..]))
  {
    var rest := blocks[1..];
    assert forall i :: 0 <= i < |rest| ==> rest[i] == blocks[i + 1];
    forall p, r | p in Touches(g, blocks[0]) && r in SkippedPaths(tree, rest) ensures !Related(p, r) {
      SkippedPathIs(tree, rest, r);
      var i :| 0 <= i < |rest| && Skips(tree, rest[i]) && rest[i].path == r;
      assert rest[i] == blocks[i + 1] && Standard(rest[i]);
      assert Touches(g, rest[i]) == {r};
      assert Unrelated(Touches(g, blocks[0]), Touches(g, blocks[i + 1]));
    }
  }

  lemma SkipFirst(g: Git, tree: Tree, blocks: seq<Block>, now: Tree)
    requires AppliesOwnForm(g) && blocks != [] && Apart(g, blocks) && SkipsOwn(g, tree, blocks)
    requires StillThere(tree, blocks, now) && Skips(tree, blocks[0])
    ensures KeptBlocks(tree, blocks) == KeptBlocks(tree, blocks[1..])
    ensures Effect(g, blocks[0], now - SkippedPaths(tree, blocks)) == Some(now - SkippedPaths(tree, blocks[1..]))
  {
    var b, paths := blocks[0], SkippedPaths(tree, blocks[1..]);
    FirstApart(g, tree, blocks);
    assert b in blocks && Standard(b) && Touches(g, b) == {b.path};
    assert b.path in paths ==> !Related(b.path, b.path);
    assert SkippedPaths(tree, blocks) == {b.path} + paths;
    MakesMissing(g, FileOf(b), now, paths);
  }

  /** Made again, the file is where it was taken away. */
  lemma MakesMissing(g: Git, f: NewFile, now: Tree, paths: set<Bytes>)
    requires AppliesOwnForm(g) && Fitting(f) && Takes(g, f.path) && f.path !in paths
    requires Lookup(now, f.path) == Some(FileNode(f)) && Clear(now - {f.path}, f.path)
    ensures Effect(g, BlockFor(f), now - ({f.path} + paths)) == Some(now - paths)
  {
    var less := now - ({f.path} + paths);
    assert forall r :: r in less ==> r in now - {f.path};
    assert Clear(less, f.path);
    assert less[f.path := FileNode(f)] == now - paths;
  }

  lemma StaysThere(g: Git, tree: Tree, blocks: seq<Block>, now: Tree, b: Block)
    requires Local(g) && AppliesOwnForm(g) && blocks != [] && Apart(g, blocks) && SkipsOwn(g, tree, blocks)
    requires StillThere(tree, blocks, now) && Effect(g, blocks[0], now).Some?
    requires b in blocks[1..] && Skips(tree, b)
    ensures var next := Effect(g, blocks[0], now).value;
      Lookup(next, b.path) == Some(FileNode(FileOf(b))) && Clear(next - {b.path}, b.path)
  {
    var next := Effect(g, blocks[0], now).value;
    var i :| 0 <= i < |blocks| - 1 && blocks[1..][i] == b;
    assert blocks[i + 1] == b && b in blocks && Standard(b);
    assert Touches(g, b) == {b.path};
    assert Unrelated(Touches(g, blocks[0]), Touches(g, blocks[i + 1]));
    assert AgreeElsewhere(now, next, Touches(g, blocks[0]));
    assert b.path in Touches(g, blocks[0]) ==> !Related(b.path, b.path);
    assert Lookup(now, b.path) == Lookup(next, b.path);
    forall r | r in next - {b.path} ensures !Related(r, b.path) {
      if r !in Touches(g, blocks[0]) {
        assert Lookup(now, r) == Lookup(next, r);
        assert r in now - {b.path};
      }
    }
  }

  lemma {:induction false} SkippingIsCreating(g: Git, tree: Tree, blocks: seq<Block>, now: Tree)
    requires Local(g) && AppliesOwnForm(g) && Apart(g, blocks)
    requires SkipsOwn(g, tree, blocks) && StillThere(tree, blocks, now)
    ensures ApplyAll(g, KeptBlocks(tree, blocks), now)
            == ApplyAll(g, blocks, now - SkippedPaths(tree, blocks))
    decreases |blocks|
  {
    if blocks == [] {
      assert now - {} == now;
    } else {
      var b, rest := blocks[0], blocks[1..];
      FirstApart(g, tree, blocks);
      if Skips(tree, b) {
        SkipFirst(g, tree, blocks, now);
        assert StillThere(tree, rest, now);
        SkippingIsCreating(g, tree, rest, now);
      } else {
        KeepFirst(g, tree, blocks, now);
        if Effect(g, b, now).Some? {
          forall c | c in rest && Skips(tree, c)
            ensures Lookup(Effect(g, b, now).value, c.path) == Some(FileNode(FileOf(c)))
            ensures Clear(Effect(g, b, now).value - {c.path}, c.path)
          {
            StaysThere(g, tree, blocks, now, c);
          }
          SkippingIsCreating(g, tree, rest, Effect(g, b, now).value);
        }
      }
    }
  }

  lemma KeepFirst(g: Git, tree: Tree, blocks: seq<Block>, now: Tree)
    requires Local(g) && AppliesOwnForm(g) && blocks != [] && Apart(g, blocks) && SkipsOwn(g, tree, blocks)
    requires !Skips(tree, blocks[0])
    ensures var paths := SkippedPaths(tree, blocks[1..]);
      && SkippedPaths(tree, blocks) == paths
      && KeptBlocks(tree, blocks) == [blocks[0]] + KeptBlocks(tree, blocks[1..])
      && Effect(g, blocks[0], now - paths) ==
           if Effect(g, blocks[0], now).None? then None else Some(Effect(g, blocks[0], now).value - paths)
  {
    FirstApart(g, tree, blocks);
    EffectAway(g, blocks[0], now, SkippedPaths(tree, blocks[1..]));
  }

  /** Applying the kept blocks does to the tree what all blocks do to the tree without the skipped files. */
  lemma KeptMeansSame(g: Git, tree: Tree, blocks: seq<Block>)
    requires Local(g) && AppliesOwnForm(g) && Apart(g, blocks) && Proper(tree) && SkipsOwn(g, tree, blocks)
    ensures ApplyAll(g, KeptBlocks(tree, blocks), tree) == ApplyAll(g, blocks, tree - SkippedPaths(tree, blocks))
  {
    forall b | b in blocks && Skips(tree, b)
      ensures Lookup(tree, b.path) == Some(FileNode(FileOf(b))) && Clear(tree - {b.path}, b.path)
    {
      SkippedIsThere(tree, b);
    }
    SkippingIsCreating(g, tree, blocks, tree);
  }

  lemma {:induction false} KeptApart(g: Git, tree: Tree, blocks: seq<Block>)
    requires Apart(g, blocks)
    ensures Apart(g, KeptBlocks(tree, blocks))
    decreases |blocks|
  {
    if blocks != [] {
      var rest := blocks[1..];
      assert forall i :: 0 <= i < |rest| ==> rest[i] == blocks[i + 1];
      KeptApart(g, tree, rest);
      var kept := KeptBlocks(tree, rest);
      forall i | 0 <= i < |kept|
        ensures Unrelated(Touches(g, blocks[0]), Touches(g, kept[i]))
        ensures Unrelated(Touches(g, kept[i]), Touches(g, blocks[0]))
      {
        KeptAre(tree, rest, kept[i]);
        var j :| 0 <= j < |rest| && rest[j] == kept[i];
        assert blocks[j + 1] == kept[i];
      }
      ApartCons(g, blocks[0], kept);
    }
  }

  lemma ApartCons(g: Git, b: Block, rest: seq<Block>)
    requires Apart(g, rest)
    requires forall i :: 0 <= i < |rest| ==>
      Unrelated(Touches(g, b), Touches(g, rest[i])) && Unrelated(Touches(g, rest[i]), Touches(g, b))
    ensures Apart(g, [b] + rest)
  {
  }

  // ---------------------------------------------------------------- patches of new files

  /** The blocks are the files as Git prints them. */
  ghost predicate ArePrinted(blocks: seq<Block>, files: seq<NewFile>) {
    && |blocks| == |files|
    && forall i :: 0 <= i < |files| ==> Fitting(files[i]) && blocks[i] == BlockFor(files[i])
  }

  ghost predicate AllTaken(g: Git, files: seq<NewFile>) {
    forall i :: 0 <= i < |files| ==> Takes(g, files[i].path)
  }

  /** No file is, or lies below, another. */
  ghost predicate FilesApart(files: seq<NewFile>) {
    forall i, j :: 0 <= i < |files| && 0 <= j < |files| && i != j ==> !Related(files[i].path, files[j].path)
  }

  /** Nothing is in the way of any file. */
  ghost predicate FilesClear(tree: Tree, files: seq<NewFile>) {
    forall i :: 0 <= i < |files| ==> Clear(tree, files[i].path)
  }

  /** The tree with the files added. */
  function WithFiles(tree: Tree, files: seq<NewFile>): Tree
    decreases |files|
  {
    if files == [] then tree
    else WithFiles(tree[files[0].path := FileNode(files[0])], files[1..])
  }

  /** What was there stays, and every file is there. */
  ghost predicate Holds(done: Tree, tree: Tree, files: seq<NewFile>) {
    && (forall p :: p in tree ==> Lookup(done, p) == Lookup(tree, p))
    && (forall i :: 0 <= i < |files| ==> Lookup(done, files[i].path) == Some(FileNode(files[i])))
  }

  lemma ClearAfterFirst(tree: Tree, files: seq<NewFile>)
    requires FilesApart(files) && FilesClear(tree, files) && files != []
    ensures FilesApart(files[1..]) && FilesClear(tree[files[0].path := FileNode(files[0])], files[1..])
    ensures Clear(tree, files[0].path)
  {
    var rest := files[1..];
    assert forall i :: 0 <= i < |rest| ==> rest[i] == files[i + 1];
    forall i | 0 <= i < |rest| ensures Clear(tree[files[0].path := FileNode(files[0])], rest[i].path) {
      assert Clear(tree, files[i + 1].path) && !Related(files[0].path, files[i + 1].path);
    }
  }

  lemma HoldsFirst(done: Tree, tree: Tree, f: NewFile, rest: seq<NewFile>)
    requires Clear(tree, f.path) && Holds(done, tree[f.path := FileNode(f)], rest)
    ensures Holds(done, tree, [f] + rest)
  {
    var next := tree[f.path := FileNode(f)];
    assert f.path in next && Lookup(next, f.path) == Some(FileNode(f));
    forall p | p in tree ensures Lookup(done, p) == Lookup(tree, p) {
      assert !Related(p, f.path) && p in next;
    }
  }

  lemma {:induction false} WithFilesHolds(tree: Tree, files: seq<NewFile>)
    requires FilesApart(files) && FilesClear(tree, files)
    ensures Holds(WithFiles(tree, files), tree, files)
    decreases |files|
  {
    if files != [] {
      ClearAfterFirst(tree, files);
      WithFilesHolds(tree[files[0].path := FileNode(files[0])], files[1..]);
      HoldsFirst(WithFiles(tree, files), tree, files[0], files[1..]);
      assert [files[0]] + files[1..] == files;
    }
  }

  /** New files in Git's own form with nothing in their way are all made, and nothing else changes. */
  lemma {:induction false} AllAreMade(g: Git, blocks: seq<Block>, files: seq<NewFile>, tree: Tree)
    requires AppliesOwnForm(g) && ArePrinted(blocks, files) && AllTaken(g, files)
    requires FilesApart(files) && FilesClear(tree, files)
    ensures ApplyAll(g, blocks, tree) == Some(WithFiles(tree, files))
    decreases |blocks|
  {
    if blocks != [] {
      var f := files[0];
      ClearAfterFirst(tree, files);
      assert Effect(g, BlockFor(f), tree) == Some(tree[f.path := FileNode(f)]);
      AllAreMade(g, blocks[1..], files[1..], tree[f.path := FileNode(f)]);
    }
  }

  /** Its own file is always skipped. */
  lemma OwnFileSkips(q: Unquoter, f: NewFile, tree: Tree)
    requires Fitting(f) && Lookup(tree, f.path) == Some(FileNode(f))
    ensures Skips(tree, BlockFor(f))
  {
    ModeParses(f.exec);
    PrintedContent(q, f);
  }

  /** Such a patch makes exactly its files, and afterwards finds every one of them there already. */
  lemma {:induction false} OwnResultSkips(q: Unquoter, g: Git, blocks: seq<Block>, files: seq<NewFile>, tree: Tree)
    requires AppliesOwnForm(g) && ArePrinted(blocks, files) && AllTaken(g, files)
    requires FilesApart(files) && FilesClear(tree, files)
    ensures ApplyAll(g, blocks, tree) == Some(WithFiles(tree, files))
    ensures forall i :: 0 <= i < |blocks| ==> Skips(WithFiles(tree, files), blocks[i])
    ensures KeptBlocks(WithFiles(tree, files), blocks) == []
    ensures blocks != [] ==> ApplyAll(g, blocks, WithFiles(tree, files)).None?
  {
    var done := WithFiles(tree, files);
    AllAreMade(g, blocks, files, tree);
    WithFilesHolds(tree, files);
    forall i | 0 <= i < |blocks| ensures Skips(done, blocks[i]) {
      OwnFileSkips(q, files[i], done);
    }
    AllSkippedNoneKept(done, blocks);
    if blocks != [] {
      RefusesExisting(g, files[0], done);
    }
  }

  lemma RefusesExisting(g: Git, f: NewFile, tree: Tree)
    requires AppliesOwnForm(g) && Fitting(f) && Lookup(tree, f.path) == Some(FileNode(f))
    ensures Effect(g, BlockFor(f), tree).None?
  {
    assert f.path in tree;
  }

}
