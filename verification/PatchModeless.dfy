/** A lawful tool, and a patch whose filtered form succeeds where the full patch cannot be applied. */
module PatchModeless {
  import opened Common
  import opened PatchText
  import opened PatchPaths
  import opened PatchValidator
  import opened PatchBlocks
  import opened PatchFilter
  import opened PatchParts
  import opened PatchPrint
  import opened PatchPrinted
  import opened PatchOnePart
  import opened PatchGit
  import opened PatchApply
  import opened PatchRoundTrip

  // ---------------------------------------------------------------- lawful tools

  /** New files in Git's own form where nothing is in the way; everything else is refused. */
  function MakeStandard(takes: Bytes -> bool, b: Block, t: Tree): Option<Tree> {
    if Standard(b) && takes(b.path) && Clear(t, b.path) then Some(t[b.path := FileNode(FileOf(b))]) else None
  }

  function Maker(takes: Bytes -> bool): Git {
    Git((text, t) => None, (text, t) => None, (b: Block) => {b.path}, (b, t) => MakeStandard(takes, b, t), takes)
  }

  /** A tool that knows only new files in Git's own form; `other`: what it does with irregular patches. */
  ghost function StandardOnly(q: Unquoter, takes: Bytes -> bool, other: (Bytes, Tree) -> Option<Tree>): Git {
    var g := Maker(takes);
    g.(apply := (text, t) =>
         if Accepted(q, text) && Regular(q, text) && Apart(g, Blocks(q, text))
         then ApplyAll(g, Blocks(q, text), t) else other(text, t))
  }

  lemma ClearAgrees(t: Tree, u: Tree, p: Bytes)
    requires AgreeNear(t, u, {p}) && Clear(t, p)
    ensures Clear(u, p)
  {
    assert p in {p} && forall r :: Related(r, p) ==> Near(r, {p});
    assert forall r :: r in u && Related(r, p) ==> Lookup(t, r) == Lookup(u, r);
  }

  lemma MakerLocal(takes: Bytes -> bool)
    ensures Local(Maker(takes))
  {
    var g := Maker(takes);
    forall b: Block, t: Tree, u: Tree | AgreeNear(t, u, Touches(g, b))
      ensures SameOutcome(Effect(g, b, t), Effect(g, b, u), Touches(g, b))
    {
      assert AgreeNear(u, t, {b.path});
      if Clear(t, b.path) { ClearAgrees(t, u, b.path); }
      if Clear(u, b.path) { ClearAgrees(u, t, b.path); }
    }
  }

  lemma MakerOwnForm(q: Unquoter, takes: Bytes -> bool)
    ensures AppliesOwnForm(Maker(takes))
  {
    var g := Maker(takes);
    forall f: NewFile | Fitting(f) ensures FileOf(BlockFor(f)) == f && Standard(BlockFor(f)) {
      PrintedIsStandard(q, f);
    }
    forall f: NewFile, t: Tree | Fitting(f) && f.path in t ensures Effect(g, BlockFor(f), t).None? {
      assert Related(f.path, f.path);
    }
  }

  /** What is asked of Git can be met, whatever paths the tool takes and whatever it does with irregular patches. */
  lemma StandardOnlyLawful(q: Unquoter, takes: Bytes -> bool, other: (Bytes, Tree) -> Option<Tree>)
    ensures LawfulGit(StandardOnly(q, takes, other), q)
  {
    var g, h := Maker(takes), StandardOnly(q, takes, other);
    MakerLocal(takes);
    MakerOwnForm(q, takes);
    assert forall b: Block, t: Tree :: Effect(h, b, t) == Effect(g, b, t);
    assert Alike(g, h);
    LocalToo(g, h);
    OwnFormToo(g, h);
    forall text: Bytes, t: Tree | Accepted(q, text) && Regular(q, text) && Apart(h, Blocks(q, text))
      ensures Apply(h, text, t) == ApplyAll(h, Blocks(q, text), t)
    {
      AlikeApart(g, h, Blocks(q, text));
      ApplyAllSame(g, h, Blocks(q, text), t);
    }
  }

  // ---------------------------------------------------------------- a new file without a mode

  function HeaderOnly(f: NewFile): seq<Bytes> { [Header(f.path) + "\n"] }

  /** A new file that only `--- /dev/null` tells to be new. */
  function ModelessLines(f: NewFile): seq<Bytes> { WithHunk(HeaderOnly(f), f) }

  function ModelessBlock(f: NewFile): Block {
    Block(ModelessLines(f), f.path, true, false, "", true)
  }

  lemma HeaderOnlyFacts(q: Unquoter, f: NewFile)
    requires Fitting(f)
    ensures IsGroup(HeaderOnly(f)) && AllWhole(HeaderOnly(f)) && HeadsOnly(HeaderOnly(f))
    ensures Complete(LineReader(q), HeaderOnly(f))
    ensures BlockOf(q, HeaderOnly(f)) == Block(HeaderOnly(f), f.path, false, false, "", false)
  {
    var line := Header(f.path) + "\n";
    HeaderLine(q, f);
    HeaderKind(f);
    HeaderNoBreak(f);
    RawIsWhole(Header(f.path));
    OneRead(q, NO_HUNK, line, []);
    assert [line] + [] == [line];
  }

  lemma ModelessIs(q: Unquoter, f: NewFile)
    requires Fitting(f)
    ensures BlockOf(q, ModelessLines(f)) == ModelessBlock(f)
  {
    HeaderOnlyFacts(q, f);
    HunkBlock(q, HeaderOnly(f), f);
  }

  lemma ModelessAlone(q: Unquoter, f: NewFile)
    requires Fitting(f)
    ensures Alone(q, ModelessLines(f))
  {
    HeaderOnlyFacts(q, f);
    HunkIsGroup(HeaderOnly(f), f);
    HunkIsWhole(HeaderOnly(f), f);
    HunkIsComplete(q, HeaderOnly(f), f);
  }

  /** The engine skips it when the content is there, with any mode; Git never prints it so. */
  lemma ModelessSkips(q: Unquoter, f: NewFile, exec: bool, tree: Tree)
    requires Fitting(f) && Lookup(tree, f.path) == Some(File(f.content, exec))
    ensures Skips(tree, ModelessBlock(f)) && !Standard(ModelessBlock(f))
  {
    HeaderOnlyFacts(q, f);
    HunkContent(q, HeaderOnly(f), f);
    assert ModeText(FileOf(ModelessBlock(f)).exec) != "";
  }

  // ---------------------------------------------------------------- next to a file that has one

  function TwoGroups(f: NewFile, h: NewFile): seq<seq<Bytes>> { [ModelessLines(f), PrintLines(h)] }
  function TwoFiles(f: NewFile, h: NewFile): Bytes { Join(Flatten(TwoGroups(f, h))) }

  lemma PairAlone(q: Unquoter, a: seq<Bytes>, b: seq<Bytes>, groups: seq<seq<Bytes>>)
    requires groups == [a, b] && Alone(q, a) && Alone(q, b)
    ensures AllAlone(q, groups)
  {
  }

  lemma BothAlone(q: Unquoter, f: NewFile, h: NewFile)
    requires Fitting(f) && Fitting(h)
    ensures AllAlone(q, TwoGroups(f, h))
  {
    ModelessAlone(q, f);
    FileAlone(q, h);
    PairAlone(q, ModelessLines(f), PrintLines(h), TwoGroups(f, h));
  }

  lemma BothReadAs(q: Unquoter, f: NewFile, h: NewFile)
    requires Fitting(f) && Fitting(h)
    ensures ReadAs(q, TwoGroups(f, h), [ModelessBlock(f), BlockFor(h)])
  {
    ModelessIs(q, f);
    PrintedBlock(q, h);
    PairReadAs(q, ModelessLines(f), PrintLines(h), ModelessBlock(f), BlockFor(h));
  }

  lemma PairReadAs(q: Unquoter, a: seq<Bytes>, b: seq<Bytes>, x: Block, y: Block)
    requires a != [] && b != [] && BlockOf(q, a) == x && BlockOf(q, b) == y
    ensures ReadAs(q, [a, b], [x, y])
  {
  }

  lemma TwoBlocks(q: Unquoter, f: NewFile, h: NewFile)
    requires Fitting(f) && Fitting(h)
    ensures Blocks(q, TwoFiles(f, h)) == [ModelessBlock(f), BlockFor(h)]
    ensures Head(TwoFiles(f, h)) == []
    ensures |TwoFiles(f, h)| <= MAX_PATCH_BYTES ==> Accepted(q, TwoFiles(f, h))
  {
    BothAlone(q, f, h);
    BothReadAs(q, f, h);
    NoHead(q);
    assert [] + Flatten(TwoGroups(f, h)) == Flatten(TwoGroups(f, h));
    BlocksReadBack(q, [], TwoGroups(f, h), TwoFiles(f, h));
    ReadAsOne(q, TwoGroups(f, h), Blocks(q, TwoFiles(f, h)), [ModelessBlock(f), BlockFor(h)]);
  }

  lemma TwoRegular(q: Unquoter, f: NewFile, h: NewFile)
    requires Fitting(f) && Fitting(h)
    ensures Regular(q, TwoFiles(f, h))
  {
    TwoBlocks(q, f, h);
    BareIsOnePart(q, f);
    PrintedIsOnePart(q, h);
  }

  /** The engine finds all blocks there and reports success; without those files the full patch is refused. */
  ghost predicate OnlyFilteredApplies(g: Git, q: Unquoter, text: Bytes, tree: Tree) {
    (&& LawfulGit(g, q) && Accepted(q, text) && Outcome(g, q, text, true, true, tree) == Applied(tree, true)
     && Apply(g, text, WithoutSkipped(q, text, tree)).None?) == true
  }

  lemma RefusedButSkipped(g: Git, q: Unquoter, text: Bytes, tree: Tree, bad: Block)
    requires LawfulGit(g, q) && Accepted(q, text) && Regular(q, text) && Apart(g, Blocks(q, text))
    requires forall i :: 0 <= i < |Blocks(q, text)| ==> Skips(tree, Blocks(q, text)[i])
    requires bad in Blocks(q, text) && forall t: Tree :: Effect(g, bad, t).None?
    ensures OnlyFilteredApplies(g, q, text, tree)
  {
    RefusedNeverApplies(g, bad, Blocks(q, text), tree);
    RefusedNeverApplies(g, bad, Blocks(q, text), WithoutSkipped(q, text, tree));
    HeadIsLost(g, q, text, tree);
  }

  lemma TwoRefused(g: Git, q: Unquoter, text: Bytes, tree: Tree, a: Block, b: Block)
    requires LawfulGit(g, q) && Accepted(q, text) && Regular(q, text)
    requires Blocks(q, text) == [a, b] && Apart(g, [a, b]) && Skips(tree, a) && Skips(tree, b)
    requires forall t: Tree :: Effect(g, a, t).None?
    ensures OnlyFilteredApplies(g, q, text, tree)
  {
    assert [a, b][0] == a && a in [a, b];
    RefusedButSkipped(g, q, text, tree, a);
  }

  /** Git refuses the first block wherever it is applied; the engine finds both files there. */
  lemma ModelessDiffers(g: Git, q: Unquoter, f: NewFile, h: NewFile, exec: bool, tree: Tree)
    requires Fitting(f) && Fitting(h) && |TwoFiles(f, h)| <= MAX_PATCH_BYTES
    requires LawfulGit(g, q) && Apart(g, [ModelessBlock(f), BlockFor(h)])
    requires forall t: Tree :: Effect(g, ModelessBlock(f), t).None?
    requires Lookup(tree, f.path) == Some(File(f.content, exec)) && Lookup(tree, h.path) == Some(FileNode(h))
    ensures OnlyFilteredApplies(g, q, TwoFiles(f, h), tree)
  {
    TwoBlocks(q, f, h);
    TwoRegular(q, f, h);
    ModelessSkips(q, f, exec, tree);
    OwnFileSkips(q, h, tree);
    TwoRefused(g, q, TwoFiles(f, h), tree, ModelessBlock(f), BlockFor(h));
  }

  // ---------------------------------------------------------------- the bytes of one such patch

  lemma ShortPath(c: char)
    requires 'a' <= c <= 'z'
    ensures PlainPath([c])
  {
    var parts := [[c]];
    assert Components([c]) == parts && PartError([c]).None?;
    assert parts[1..] == [] && FirstError(parts).None?;
  }

  lemma ShortLine(line: Bytes)
    requires IsLine(line)
    ensures Lines(line) == [line]
  {
    assert [line][1..] == [] && Join([line]) == line + "" == line;
    LinesOfJoin([line]);
  }

  lemma ShortHunk(f: NewFile)
    requires IsLine(f.content) && Ended(f.content) && ' ' !in f.path
    ensures HunkHead(f) == ["--- /dev/null\n", "+++ b/" + f.path + "\n", "@@ -0,0 +1 @@\n"]
    ensures BodyLines(f) == ["+" + f.content]
  {
    ShortLine(f.content);
    var lines := [f.content];
    assert lines[1..] == [] && PlusLines(lines) == ["+" + f.content] && EndMarker(lines) == [];
    assert HunkLine(f) == "@@ -0,0 +1 @@";
    assert HunkLine(f) + "\n" == "@@ -0,0 +1 @@\n" && FROM_NULL + "\n" == "--- /dev/null\n";
    assert PathLine(f) + "\n" == "+++ b/" + f.path + "\n";
  }

  function X(): NewFile { NewFile("x", "hi\n", false, "") }
  function Y(): NewFile { NewFile("y", "ok\n", false, "") }

  function TextLines(): seq<Bytes> {
    [ "diff --git a/x b/x\n",
      "--- /dev/null\n",
      "+++ b/x\n",
      "@@ -0,0 +1 @@\n",
      "+hi\n",
      "diff --git a/y b/y\n",
      "new file mode 100644\n",
      "--- /dev/null\n",
      "+++ b/y\n",
      "@@ -0,0 +1 @@\n",
      "+ok\n" ]
  }

  lemma FirstLines()
    ensures Fitting(X()) && ModelessLines(X()) == TextLines()[..5]
  {
    ShortPath('x');
    ShortLine("hi\n");
    ShortHunk(X());
    assert Header("x") + "\n" == "diff --git a/x b/x\n" && "+++ b/" + "x" + "\n" == "+++ b/x\n";
    assert "+" + "hi\n" == "+hi\n";
  }

  lemma SecondLines()
    ensures Fitting(Y()) && PrintLines(Y()) == TextLines()[5..]
  {
    ShortPath('y');
    ShortLine("ok\n");
    ShortHunk(Y());
    assert Header("y") + "\n" == "diff --git a/y b/y\n" && "+++ b/" + "y" + "\n" == "+++ b/y\n";
    assert "+" + "ok\n" == "+ok\n";
    assert ModeLine(Y()) + "\n" == "new file mode 100644\n";
  }

  lemma TextIs()
    ensures Fitting(X()) && Fitting(Y()) && TwoFiles(X(), Y()) == Join(TextLines())
  {
    FirstLines();
    SecondLines();
    FlattenTwo(ModelessLines(X()), PrintLines(Y()));
    assert TextLines()[..5] + TextLines()[5..] == TextLines();
  }

  lemma FlattenTwo(a: seq<Bytes>, b: seq<Bytes>)
    ensures Flatten([a, b]) == a + b
  {
    assert [a, b][..1] == [a] && [a][..0] == [] && Flatten([a]) == a;
  }

  lemma {:induction false} JoinSize(lines: seq<Bytes>, n: nat)
    requires forall i :: 0 <= i < |lines| ==> |lines[i]| <= n
    ensures |Join(lines)| <= n * |lines|
  {
    if lines != [] {
      JoinSize(lines[1..], n);
      assert n * |lines| == n + n * |lines[1..]|;
    }
  }

  lemma TextFits()
    ensures |Join(TextLines())| <= MAX_PATCH_BYTES
  {
    JoinSize(TextLines(), 30);
  }

  function AnyPath(path: Bytes): bool { true }
  function NothingElse(text: Bytes, tree: Tree): Option<Tree> { None }

  lemma OnlyFiltered(q: Unquoter, f: NewFile, h: NewFile, text: Bytes, tree: Tree)
    requires Fitting(f) && Fitting(h) && text == TwoFiles(f, h) && |text| <= MAX_PATCH_BYTES
    requires Lookup(tree, f.path) == Some(FileNode(f)) && Lookup(tree, h.path) == Some(FileNode(h))
    requires !Related(f.path, h.path) && !Related(h.path, f.path)
    ensures OnlyFilteredApplies(StandardOnly(q, AnyPath, NothingElse), q, text, tree)
  {
    StandardOnlyLawful(q, AnyPath, NothingElse);
    ModelessSkips(q, f, f.exec, tree);
    TouchesPath(q, ModelessBlock(f), BlockFor(h));
    NeverMade(q, ModelessBlock(f));
    ModelessDiffers(StandardOnly(q, AnyPath, NothingElse), q, f, h, f.exec, tree);
  }

  lemma TouchesPath(q: Unquoter, a: Block, b: Block)
    requires !Related(a.path, b.path) && !Related(b.path, a.path)
    ensures Apart(StandardOnly(q, AnyPath, NothingElse), [a, b])
  {
    assert forall c: Block :: Touches(StandardOnly(q, AnyPath, NothingElse), c) == {c.path};
  }

  lemma NeverMade(q: Unquoter, b: Block)
    requires !Standard(b)
    ensures forall t: Tree :: Effect(StandardOnly(q, AnyPath, NothingElse), b, t).None?
  {
  }

  function BothThere(): Tree { map["x" := File("hi\n", false), "y" := File("ok\n", false)] }

  lemma XAndYThere()
    ensures !Related(X().path, Y().path) && !Related(Y().path, X().path)
    ensures Lookup(BothThere(), X().path) == Some(FileNode(X())) && Lookup(BothThere(), Y().path) == Some(FileNode(Y()))
  {
  }

  /** The failure itself: both files are there with equal bits, and the full patch can never make `x`. */
  lemma SkippedIsNotMade(q: Unquoter)
    ensures OnlyFilteredApplies(StandardOnly(q, AnyPath, NothingElse), q, Join(TextLines()), BothThere())
  {
    TextIs();
    TextFits();
    XAndYThere();
    OnlyFiltered(q, X(), Y(), Join(TextLines()), BothThere());
  }
}
