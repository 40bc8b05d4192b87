/**
 Two more ways in which the filtered form of a patch succeeds and something is lost: a part before
 the first header, and a path that Git does not take.
 */
module PatchLosses {
  import opened Common
  import opened PatchText
  import opened PatchPaths
  import opened PatchValidator
  import opened PatchBlocks
  import opened PatchFilter
  import opened PatchParts
  import opened PatchPrint
  import opened PatchPrinted
  import opened PatchOnePart
  import opened PatchGit
  import opened PatchApply
  import opened PatchRoundTrip
  import opened PatchModeless

  // ---------------------------------------------------------------- a part before the first header

  /** A change of `f` without a `diff --git` line. */
  function LeadLines(): seq<Bytes> {
    ["--- a/f\n", "+++ b/f\n", "@@ -1 +1 @@\n", "-a\n", "+b\n"]
  }

  function LeadText(): Bytes { Join(LeadLines() + Flatten([PrintLines(X())])) }

  function OldAndX(): Tree { map["f" := File("a\n", false), "x" := File("hi\n", false)] }
  function NewAndX(): Tree { map["f" := File("b\n", false), "x" := File("hi\n", false)] }

  lemma OldNamePath(q: Unquoter)
    ensures FileLinePath(q, "a/f") == "f"
  {
    var s := "a/f";
    assert '\t' !in s && TrimLine(s) == s && s != "/dev/null";
    IndexIs(s, '\t', 0, |s|);
    UnescapePlain(s, 0);
    assert s[..|s|] == s && s[..2] == "a/" && s[2..] == "f";
  }

  lemma OldNameRead(q: Unquoter)
    ensures HeadLine(q, "--- a/f") == Ok(NO_HUNK)
  {
    var raw := "--- a/f";
    assert raw[..4] == "--- " && raw[4..] == "a/f";
    NotPrefix(raw, HUNK_START, 0);
    NotPrefix(raw, DIFF_GIT, 0);
    OldNamePath(q);
    ShortPath('f');
  }

  lemma NewNameRead(q: Unquoter)
    ensures HeadLine(q, "+++ b/f") == Ok(NO_HUNK)
  {
    var f := NewFile("f", "", false, "");
    ShortPath('f');
    EmptyFits(f);
    PathLineChecks(q, f);
    assert PathLine(f) == "+++ b/f";
  }

  lemma EmptyFits(f: NewFile)
    requires PlainPath(f.path) && f.content == "" && f.index == ""
    ensures Fitting(f)
  {
  }

  lemma HunkTextRead(q: Unquoter, oldPosition: nat, before: nat, newPosition: nat, after: nat)
    requires oldPosition <= MAX_COUNT && before <= MAX_COUNT && newPosition <= MAX_COUNT && after <= MAX_COUNT
    ensures HeadLine(q, HunkText(oldPosition, before, newPosition, after, "")) == Ok(Hunk(before, after))
  {
    HunkHeaderInverts(oldPosition, before, newPosition, after, "");
    HunkTextShape(oldPosition, before, newPosition, after);
  }

  lemma LeadHunkText()
    ensures HunkText(1, 1, 1, 1, "") == "@@ -1 +1 @@"
  {
  }

  lemma LeadHunkRead(q: Unquoter)
    ensures HeadLine(q, "@@ -1 +1 @@") == Ok(Hunk(1, 1))
  {
    HunkTextRead(q, 1, 1, 1, 1);
    LeadHunkText();
  }

  lemma ReadBetween(q: Unquoter, raw: Bytes, h: Hunk)
    requires HeadLine(q, raw) == Ok(h) && raw != "" && raw[|raw| - 1] != '\r'
    ensures Line(q, NO_HUNK, raw + "\n") == Ok(h)
  {
    TrimEnded(raw);
  }

  lemma LeadStep(q: Unquoter, h: Hunk, next: Hunk, line: Bytes, rest: seq<Bytes>, end: Hunk)
    requires Line(q, h, line) == Ok(next) && Counters(LineReader(q), next, rest) == Ok(end)
    ensures Counters(LineReader(q), h, [line] + rest) == Ok(end)
  {
    OneRead(q, h, line, rest);
  }

  lemma MarkedRead(q: Unquoter, h: Hunk, raw: Bytes, next: Hunk)
    requires Open(h) && BodyLine(h, raw) == Ok(next) && raw != "" && raw[|raw| - 1] != '\r'
    ensures Line(q, h, raw + "\n") == Ok(next)
  {
    TrimEnded(raw);
  }

  lemma LeadBodyLines()
    ensures BodyLine(Hunk(1, 1), "-a") == Ok(Hunk(0, 1)) && BodyLine(Hunk(0, 1), "+b") == Ok(NO_HUNK)
  {
    MarkedLine(Hunk(1, 1), "-a");
    MarkedLine(Hunk(0, 1), "+b");
  }

  lemma MarkedLine(h: Hunk, raw: Bytes)
    requires Open(h) && |raw| == 2 && (raw[0] == '-' || raw[0] == '+')
    requires Before(raw) <= h.before && After(raw) <= h.after
    ensures BodyLine(h, raw) == Ok(Hunk(h.before - Before(raw), h.after - After(raw)))
  {
    assert |NO_NEWLINE| > 2;
  }

  lemma LeadBodyRead(q: Unquoter)
    ensures Counters(LineReader(q), Hunk(1, 1), ["-a" + "\n"] + (["+b" + "\n"] + [])) == Ok(NO_HUNK)
  {
    LeadBodyLines();
    MarkedRead(q, Hunk(0, 1), "+b", NO_HUNK);
    LeadStep(q, Hunk(0, 1), NO_HUNK, "+b" + "\n", [], NO_HUNK);
    MarkedRead(q, Hunk(1, 1), "-a", Hunk(0, 1));
    LeadStep(q, Hunk(1, 1), Hunk(0, 1), "-a" + "\n", ["+b" + "\n"] + [], NO_HUNK);
  }

  lemma LeadIs()
    ensures LeadLines() ==
      ["--- a/f" + "\n"] + (["+++ b/f" + "\n"] + (["@@ -1 +1 @@" + "\n"]
        + (["-a" + "\n"] + (["+b" + "\n"] + []))))
  {
    assert "--- a/f" + "\n" == "--- a/f\n" && "+++ b/f" + "\n" == "+++ b/f\n";
    assert "@@ -1 +1 @@" + "\n" == "@@ -1 +1 @@\n" && "-a" + "\n" == "-a\n" && "+b" + "\n" == "+b\n";
  }

  lemma LeadComplete(q: Unquoter)
    ensures Complete(LineReader(q), LeadLines())
  {
    var body := ["-a" + "\n"] + (["+b" + "\n"] + []);
    LeadBodyRead(q);
    LeadHunkRead(q);
    ReadBetween(q, "@@ -1 +1 @@", Hunk(1, 1));
    LeadStep(q, NO_HUNK, Hunk(1, 1), "@@ -1 +1 @@" + "\n", body, NO_HUNK);
    NewNameRead(q);
    ReadBetween(q, "+++ b/f", NO_HUNK);
    LeadStep(q, NO_HUNK, NO_HUNK, "+++ b/f" + "\n", ["@@ -1 +1 @@" + "\n"] + body, NO_HUNK);
    OldNameRead(q);
    ReadBetween(q, "--- a/f", NO_HUNK);
    LeadStep(q, NO_HUNK, NO_HUNK, "--- a/f" + "\n",
             ["+++ b/f" + "\n"] + (["@@ -1 +1 @@" + "\n"] + body), NO_HUNK);
    LeadIs();
  }

  lemma LeadWhole()
    ensures AllWhole(LeadLines())
  {
  }

  lemma LeadStarts()
    ensures NoneStarts(LeadLines())
  {
    forall i | 0 <= i < 5 ensures !StartsBlock(LeadLines()[i]) {
      NotHeader(LeadLines()[i]);
    }
  }

  lemma LeadHasHunk()
    ensures !NoHunk(LeadLines())
  {
    assert HasPrefix(LeadLines()[2], GIT_HUNK);
  }

  lemma XFits()
    ensures Fitting(X())
  {
    ShortPath('x');
    ShortLine("hi\n");
  }

  lemma OneAfterHead(q: Unquoter, head: seq<Bytes>, f: NewFile, groups: seq<seq<Bytes>>, text: Bytes)
    requires Fitting(f) && HeadAlone(q, head) && groups == [PrintLines(f)] && text == Join(head + Flatten(groups))
    ensures Blocks(q, text) == [BlockFor(f)] && Head(text) == head
    ensures |text| <= MAX_PATCH_BYTES ==> Accepted(q, text)
  {
    OneAlone(q, f, groups);
    BlocksReadBack(q, head, groups, text);
    OneReadAs(q, f, groups);
    ReadAsOne(q, groups, Blocks(q, text), [BlockFor(f)]);
  }

  lemma OneAlone(q: Unquoter, f: NewFile, groups: seq<seq<Bytes>>)
    requires Fitting(f) && groups == [PrintLines(f)]
    ensures AllAlone(q, groups)
  {
    FileAlone(q, f);
  }

  lemma OneReadAs(q: Unquoter, f: NewFile, groups: seq<seq<Bytes>>)
    requires Fitting(f) && groups == [PrintLines(f)]
    ensures ReadAs(q, groups, [BlockFor(f)])
  {
    PrintedBlock(q, f);
  }

  lemma LeadAlone(q: Unquoter)
    ensures HeadAlone(q, LeadLines())
  {
    LeadComplete(q);
    LeadWhole();
    LeadStarts();
  }

  lemma LeadReads(q: Unquoter)
    ensures Blocks(q, LeadText()) == [BlockFor(X())] && Head(LeadText()) == LeadLines()
    ensures |LeadText()| <= MAX_PATCH_BYTES ==> Accepted(q, LeadText())
  {
    XFits();
    LeadAlone(q);
    OneAfterHead(q, LeadLines(), X(), [PrintLines(X())], LeadText());
  }

  lemma LeadFits()
    ensures |LeadText()| <= MAX_PATCH_BYTES
  {
    SecondLinesOfX();
    assert Flatten([PrintLines(X())]) == PrintLines(X());
    JoinSize(LeadLines() + PrintLines(X()), 30);
  }

  function XLines(): seq<Bytes> {
    ["diff --git a/x b/x\n", "new file mode 100644\n", "--- /dev/null\n", "+++ b/x\n", "@@ -0,0 +1 @@\n", "+hi\n"]
  }

  lemma SecondLinesOfX()
    ensures PrintLines(X()) == XLines()
  {
    ShortPath('x');
    ShortLine("hi\n");
    ShortHunk(X());
    assert Header("x") + "\n" == "diff --git a/x b/x\n" && "+++ b/" + "x" + "\n" == "+++ b/x\n";
    assert "+" + "hi\n" == "+hi\n";
    assert ModeLine(X()) + "\n" == "new file mode 100644\n";
  }

  /** What Git does with this text: both parts, or nothing. */
  function LeadEffect(text: Bytes, t: Tree): Option<Tree> {
    if text == LeadText() && Lookup(t, "f") == Some(File("a\n", false)) && Clear(t, "x")
    then Some(t["f" := File("b\n", false)]["x" := File("hi\n", false)]) else None
  }

  ghost function LeadTool(q: Unquoter): Git { StandardOnly(q, AnyPath, LeadEffect) }

  lemma LeadRefused()
    ensures LeadEffect(LeadText(), OldAndX()).None?
  {
    assert "x" in OldAndX() && Related("x", "x");
  }

  lemma LeadApplied()
    ensures LeadEffect(LeadText(), OldAndX() - {"x"}) == Some(NewAndX())
  {
    assert !Related("f", "x");
    assert (OldAndX() - {"x"})["f" := File("b\n", false)]["x" := File("hi\n", false)] == NewAndX();
  }

  lemma OneSkipped(tree: Tree, b: Block)
    requires Skips(tree, b)
    ensures SkippedPaths(tree, [b]) == {b.path}
  {
    assert [b][1..] == [];
  }

  lemma LeadIrregular(q: Unquoter)
    ensures !Regular(q, LeadText())
  {
    LeadReads(q);
    LeadHasHunk();
  }

  lemma LeadApply(q: Unquoter, t: Tree)
    ensures Apply(LeadTool(q), LeadText(), t) == LeadEffect(LeadText(), t)
  {
    LeadIrregular(q);
  }

  lemma XThere(q: Unquoter)
    ensures Skips(OldAndX(), BlockFor(X())) && Standard(BlockFor(X()))
  {
    XFits();
    PrintedIsStandard(q, X());
    OwnFileSkips(q, X(), OldAndX());
  }

  lemma OneBlockLost(g: Git, q: Unquoter, text: Bytes, tree: Tree, b: Block)
    requires Accepted(q, text) && Blocks(q, text) == [b] && Skips(tree, b) && Apply(g, text, tree).None?
    ensures Outcome(g, q, text, true, true, tree) == Applied(tree, true)
  {
    HeadIsLost(g, q, text, tree);
  }

  lemma OneOwn(g: Git, tree: Tree, b: Block)
    requires Standard(b) && Takes(g, b.path)
    ensures SkipsOwn(g, tree, [b])
  {
  }

  lemma LeadOutcome(q: Unquoter)
    ensures Outcome(LeadTool(q), q, LeadText(), true, true, OldAndX()) == Applied(OldAndX(), true)
  {
    LeadReads(q);
    LeadFits();
    XThere(q);
    LeadRefused();
    LeadApply(q, OldAndX());
    OneBlockLost(LeadTool(q), q, LeadText(), OldAndX(), BlockFor(X()));
  }

  lemma LeadFull(q: Unquoter)
    ensures Apply(LeadTool(q), LeadText(), WithoutSkipped(q, LeadText(), OldAndX())) == Some(NewAndX())
  {
    LeadReads(q);
    XThere(q);
    OneSkipped(OldAndX(), BlockFor(X()));
    LeadApply(q, OldAndX() - {"x"});
    LeadApplied();
  }

  lemma LeadSkipsOwn(q: Unquoter)
    ensures SkipsOwn(LeadTool(q), OldAndX(), Blocks(q, LeadText()))
  {
    LeadReads(q);
    XThere(q);
    OneOwn(LeadTool(q), OldAndX(), BlockFor(X()));
  }

  /**
   The only skipped block is a new file in Git's own form.  The full patch changes `f` and makes `x`;
   the retry reports success and leaves `f` as it was.
   */
  lemma LeadIsLost(q: Unquoter)
    ensures LawfulGit(LeadTool(q), q) && SkipsOwn(LeadTool(q), OldAndX(), Blocks(q, LeadText()))
    ensures Outcome(LeadTool(q), q, LeadText(), true, true, OldAndX()) == Applied(OldAndX(), true)
    ensures Apply(LeadTool(q), LeadText(), WithoutSkipped(q, LeadText(), OldAndX())) == Some(NewAndX())
  {
    StandardOnlyLawful(q, AnyPath, LeadEffect);
    LeadSkipsOwn(q);
    LeadOutcome(q);
    LeadFull(q);
  }

  // ---------------------------------------------------------------- a path that Git does not take

  /** Nothing but dots and spaces, up to the end or a colon. */
  predicate OnlyPadding(s: Bytes) {
    s == "" || s[0] == ':' || ((s[0] == '.' || s[0] == ' ') && OnlyPadding(s[1..]))
  }

  /** Names that a Windows file system would take for `.git`. */
  predicate GitByOtherName(part: Bytes) {
    || (|part| >= 4 && EqualFold(part[..4], ".git") && OnlyPadding(part[4..]))
    || (|part| >= 5 && EqualFold(part[..5], "git~1") && OnlyPadding(part[5..]))
  }

  /** What Git tests by default besides the names that are refused in every patch. */
  predicate NotGitByOtherName(path: Bytes) {
    forall i :: 0 <= i < |Components(path)| ==> !GitByOtherName(Components(path)[i])
  }

  lemma OneBlock(q: Unquoter, f: NewFile)
    requires Fitting(f)
    ensures Blocks(q, PrintFiles([f])) == [BlockFor(f)] && Regular(q, PrintFiles([f]))
    ensures |PrintFiles([f])| <= MAX_PATCH_BYTES ==> Accepted(q, PrintFiles([f]))
  {
    NoHead(q);
    PrintIsOne(f);
    OneAfterHead(q, [], f, [PrintLines(f)], PrintFiles([f]));
    OneIsRegular(q, PrintFiles([f]), f);
  }

  lemma PrintIsOne(f: NewFile)
    ensures PrintFiles([f]) == Join([] + Flatten([PrintLines(f)]))
  {
    assert PrintGroups([f]) == [PrintLines(f)];
    assert [] + Flatten([PrintLines(f)]) == Flatten([PrintLines(f)]);
  }

  lemma OneIsRegular(q: Unquoter, text: Bytes, f: NewFile)
    requires Fitting(f) && Blocks(q, text) == [BlockFor(f)] && Head(text) == []
    ensures Regular(q, text)
  {
    PrintedIsOnePart(q, f);
  }

  lemma OneRefused(g: Git, q: Unquoter, text: Bytes, tree: Tree, b: Block)
    requires LawfulGit(g, q) && Accepted(q, text) && Regular(q, text) && Blocks(q, text) == [b] && Skips(tree, b)
    requires forall t: Tree :: Effect(g, b, t).None?
    ensures OnlyFilteredApplies(g, q, text, tree)
  {
    assert [b][0] == b && b in [b];
    RefusedButSkipped(g, q, text, tree, b);
  }

  /** A single file at a path the tool refuses: it is skipped when there, and can never be made. */
  lemma UntakenIsSkipped(g: Git, q: Unquoter, f: NewFile, tree: Tree)
    requires LawfulGit(g, q) && Fitting(f) && |PrintFiles([f])| <= MAX_PATCH_BYTES
    requires forall t: Tree :: Effect(g, BlockFor(f), t).None?
    requires Lookup(tree, f.path) == Some(FileNode(f))
    ensures OnlyFilteredApplies(g, q, PrintFiles([f]), tree)
  {
    OneBlock(q, f);
    OwnFileSkips(q, f, tree);
    OneRefused(g, q, PrintFiles([f]), tree, BlockFor(f));
  }

  function ShortName(): NewFile { NewFile("git~1", "hi\n", false, "") }

  lemma ShortNameFits()
    ensures Fitting(ShortName()) && !NotGitByOtherName("git~1")
  {
    var parts := ["git~1"];
    IndexIs("git~1", '/', 0, 5);
    assert Components("git~1") == parts && PartError("git~1").None?;
    assert parts[1..] == [] && FirstError(parts).None?;
    ShortLine("hi\n");
    assert "git~1"[..5] == "git~1" && "git~1"[5..] == "";
    assert GitByOtherName(parts[0]);
  }

  lemma ShortNameSize()
    ensures |PrintFiles([ShortName()])| <= MAX_PATCH_BYTES
  {
    var lines := PrintLines(ShortName());
    ShortLine("hi\n");
    ShortHunk(ShortName());
    assert PrintGroups([ShortName()]) == [lines] && Flatten([lines]) == lines;
    assert |Header("git~1") + "\n"| == 27 && |ModeLine(ShortName()) + "\n"| == 21;
    JoinSize(lines, 40);
  }

  /** Such a path: legal in a patch, and not taken. */
  lemma ShortNameIsLost(q: Unquoter)
    ensures PathProblem("git~1").None?
    ensures OnlyFilteredApplies(StandardOnly(q, NotGitByOtherName, NothingElse), q, PrintFiles([ShortName()]),
                                map["git~1" := File("hi\n", false)])
  {
    ShortNameFits();
    ShortNameSize();
    StandardOnlyLawful(q, NotGitByOtherName, NothingElse);
    NotTaken(q, BlockFor(ShortName()));
    ShortNameThere();
    UntakenIsSkipped(StandardOnly(q, NotGitByOtherName, NothingElse), q, ShortName(),
                     map["git~1" := File("hi\n", false)]);
  }

  lemma NotTaken(q: Unquoter, b: Block)
    requires !NotGitByOtherName(b.path)
    ensures forall t: Tree :: Effect(StandardOnly(q, NotGitByOtherName, NothingElse), b, t).None?
  {
  }

  lemma ShortNameThere()
    ensures Lookup(map["git~1" := File("hi\n", false)], ShortName().path) == Some(FileNode(ShortName()))
  {
  }
}
