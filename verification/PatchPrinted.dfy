/** One printed file: the block it is read as, its lines, and the content it adds. */
module PatchPrinted {
  import opened Common
  import opened PatchText
  import opened PatchPaths
  import opened PatchValidator
  import opened PatchBlocks
  import opened PatchPrint

  // ---------------------------------------------------------------- the block of a printed file

  lemma BlockSnoc(q: Unquoter, init: seq<Bytes>, line: Bytes)
    requires init != []
    ensures BlockOf(q, init + [line]) == AppendLine(q, BlockOf(q, init), line)
  {
  }

  lemma {:induction false} BlockInBody(q: Unquoter, a: seq<Bytes>, b: seq<Bytes>)
    requires a != [] && BlockOf(q, a).inBody
    ensures BlockOf(q, a + b) == BlockOf(q, a).(lines := a + b)
    decreases |b|
  {
    if b == [] {
      assert a + b == a;
    } else {
      var init, line := b[..|b| - 1], b[|b| - 1];
      BlockInBody(q, a, init);
      assert a + b == (a + init) + [line];
      BlockSnoc(q, a + init, line);
    }
  }

  lemma HeadBlock(q: Unquoter, f: NewFile)
    requires Fitting(f)
    ensures BlockOf(q, HeadLines(f)) == Expect(f, HeadLines(f), false)
  {
    var first, second := Header(f.path) + "\n", ModeLine(f) + "\n";
    HeaderLine(q, f);
    ModeLineFacts(q, f, BeginBlock(q, first));
    BlockSnoc(q, [first], second);
    assert [first] + [second] == [first, second];
    if f.index == "" {
      assert HeadLines(f) == [first, second];
    } else {
      var third := IndexLine(f) + "\n";
      IndexLineFacts(q, f, Expect(f, [first, second], false));
      BlockSnoc(q, [first, second], third);
      assert HeadLines(f) == [first, second] + [third];
    }
  }

  function Expect(f: NewFile, lines: seq<Bytes>, inBody: bool): Block {
    Block(lines, f.path, true, false, ModeText(f.exec), inBody)
  }

  /** A block that has gone on to its hunk, or is about to. */
  function GoneOn(b: Block, lines: seq<Bytes>, inBody: bool): Block {
    b.(lines := lines, isNew := true, inBody := inBody)
  }

  /** Lines that a block of this path begins with, before its hunk. */
  ghost predicate Begins(q: Unquoter, heads: seq<Bytes>) {
    (heads != [] && !BlockOf(q, heads).inBody && BlockOf(q, heads).path != "") == true
  }

  function UpToNull(heads: seq<Bytes>): seq<Bytes> { heads + [FROM_NULL + "\n"] }
  function UpToPath(heads: seq<Bytes>, f: NewFile): seq<Bytes> { UpToNull(heads) + [PathLine(f) + "\n"] }
  function UpToHunk(heads: seq<Bytes>, f: NewFile): seq<Bytes> { UpToPath(heads, f) + [HunkLine(f) + "\n"] }

  lemma NullBlock(q: Unquoter, heads: seq<Bytes>)
    requires Begins(q, heads)
    ensures BlockOf(q, UpToNull(heads)) == GoneOn(BlockOf(q, heads), UpToNull(heads), false)
  {
    NullLineFacts(q, BlockOf(q, heads));
    BlockSnoc(q, heads, FROM_NULL + "\n");
  }

  lemma PathBlock(q: Unquoter, heads: seq<Bytes>, f: NewFile)
    requires Fitting(f) && Begins(q, heads)
    ensures BlockOf(q, UpToPath(heads, f)) == GoneOn(BlockOf(q, heads), UpToPath(heads, f), false)
  {
    NullBlock(q, heads);
    PathLineFacts(q, f, GoneOn(BlockOf(q, heads), UpToNull(heads), false));
    BlockSnoc(q, UpToNull(heads), PathLine(f) + "\n");
  }

  lemma HunkHeadBlock(q: Unquoter, heads: seq<Bytes>, f: NewFile)
    requires Fitting(f) && Begins(q, heads)
    ensures BlockOf(q, UpToHunk(heads, f)) == GoneOn(BlockOf(q, heads), UpToHunk(heads, f), true)
  {
    PathBlock(q, heads, f);
    HunkLineFacts(q, f, GoneOn(BlockOf(q, heads), UpToPath(heads, f), false));
    BlockSnoc(q, UpToPath(heads, f), HunkLine(f) + "\n");
  }

  lemma HunkHeadIs(heads: seq<Bytes>, f: NewFile)
    ensures heads + HunkHead(f) == UpToHunk(heads, f)
  {
  }

  lemma HunkBlock(q: Unquoter, heads: seq<Bytes>, f: NewFile)
    requires Fitting(f) && Begins(q, heads)
    ensures BlockOf(q, WithHunk(heads, f)) == GoneOn(BlockOf(q, heads), WithHunk(heads, f), true)
  {
    HunkHeadBlock(q, heads, f);
    HunkHeadIs(heads, f);
    BlockInBody(q, UpToHunk(heads, f), BodyLines(f));
  }

  /** The block a printed file is read as. */
  function BlockFor(f: NewFile): Block {
    Expect(f, PrintLines(f), f.content != "")
  }

  lemma PrintedBlock(q: Unquoter, f: NewFile)
    requires Fitting(f)
    ensures BlockOf(q, PrintLines(f)) == BlockFor(f)
  {
    HeadBlock(q, f);
    if f.content != "" {
      HunkBlock(q, HeadLines(f), f);
    }
  }

  // ---------------------------------------------------------------- its lines

  predicate WholeLine(line: Bytes) { IsLine(line) && Ended(line) }

  lemma RawIsWhole(raw: Bytes)
    requires '\n' !in raw
    ensures WholeLine(raw + "\n")
  {
  }

  lemma PlusIsWhole(l: Bytes)
    requires IsLine(l)
    ensures WholeLine("+" + Terminated(l))
  {
  }

  ghost predicate AllWhole(lines: seq<Bytes>) {
    forall i :: 0 <= i < |lines| ==> WholeLine(lines[i])
  }

  lemma HunkLineNoBreak(f: NewFile)
    ensures '\n' !in HunkLine(f)
  {
  }

  lemma HeadLinesWhole(f: NewFile)
    requires Fitting(f)
    ensures AllWhole(HeadLines(f))
  {
    HeaderNoBreak(f);
    RawIsWhole(Header(f.path));
    assert '\n' !in NEW_MODE && '\n' !in ModeText(f.exec);
    RawIsWhole(ModeLine(f));
    assert '\n' !in INDEX_START && forall i :: 0 <= i < |f.index| ==> HashChar(f.index[i]);
    RawIsWhole(IndexLine(f));
  }

  lemma HeaderNoBreak(f: NewFile)
    requires Fitting(f)
    ensures '\n' !in Header(f.path)
  {
    PlainPathChars(f.path);
    assert '\n' !in DIFF_GIT && '\n' !in "a/" && '\n' !in " b/";
  }

  lemma HunkHeadWhole(f: NewFile)
    requires Fitting(f)
    ensures AllWhole(HunkHead(f))
  {
    RawIsWhole(FROM_NULL);
    PathLineNoBreak(f);
    RawIsWhole(PathLine(f));
    HunkLineNoBreak(f);
    RawIsWhole(HunkLine(f));
  }

  lemma PathLineNoBreak(f: NewFile)
    requires Fitting(f)
    ensures '\n' !in PathLine(f)
  {
    PlainPathChars(f.path);
    assert '\n' !in FileLineEnd(f.path) && '\n' !in "b/" && '\n' !in "+++ ";
  }

  lemma PlusWhole(lines: seq<Bytes>)
    requires Tidy(lines)
    ensures AllWhole(PlusLines(lines))
  {
    forall i | 0 <= i < |lines| ensures WholeLine(PlusLines(lines)[i]) {
      PlusIsWhole(lines[i]);
    }
  }

  lemma MarkerWhole(lines: seq<Bytes>)
    ensures AllWhole(EndMarker(lines))
  {
  }

  lemma BodyWhole(f: NewFile)
    ensures AllWhole(BodyLines(f))
  {
    LinesTidy(f.content);
    PlusWhole(Lines(f.content));
    MarkerWhole(Lines(f.content));
  }

  lemma HunkIsWhole(heads: seq<Bytes>, f: NewFile)
    requires Fitting(f) && AllWhole(heads)
    ensures AllWhole(WithHunk(heads, f))
  {
    HunkHeadWhole(f);
    BodyWhole(f);
  }

  lemma PrintedIsWhole(f: NewFile)
    requires Fitting(f)
    ensures AllWhole(PrintLines(f))
  {
    HeadLinesWhole(f);
    HunkIsWhole(HeadLines(f), f);
  }

  ghost predicate NoneStarts(lines: seq<Bytes>) {
    forall i :: 0 <= i < |lines| ==> !StartsBlock(lines[i])
  }

  lemma ThreeStartNothing(a: Bytes, b: Bytes, c: Bytes)
    requires a != "" && b != "" && c != "" && a[0] == '-' && b[0] == '+' && c[0] == '@'
    ensures NoneStarts([a, b, c])
  {
  }

  lemma HunkHeadStartsNothing(f: NewFile)
    ensures NoneStarts(HunkHead(f))
  {
    HunkTextShape(0, 0, 1, |Lines(f.content)|);
    ThreeStartNothing(FROM_NULL + "\n", PathLine(f) + "\n", HunkLine(f) + "\n");
  }

  lemma PlusStartsNothing(lines: seq<Bytes>)
    ensures NoneStarts(PlusLines(lines))
  {
    forall i | 0 <= i < |lines| ensures !StartsBlock(PlusLines(lines)[i]) {
      PlusLineFacts(lines[i]);
    }
  }

  lemma MarkerStartsNothing(lines: seq<Bytes>)
    ensures NoneStarts(EndMarker(lines))
  {
  }

  lemma BodyStartsNothing(f: NewFile)
    ensures NoneStarts(BodyLines(f))
  {
    PlusStartsNothing(Lines(f.content));
    MarkerStartsNothing(Lines(f.content));
  }

  lemma TwoHeadsGroup(q: Unquoter, f: NewFile)
    requires Fitting(f)
    ensures IsGroup([Header(f.path) + "\n", ModeLine(f) + "\n"])
  {
    HeaderLine(q, f);
    ModeLineFacts(q, f, Block([], "x", true, false, "", false));
  }

  lemma IndexStartsNothing(f: NewFile)
    ensures NoneStarts(IndexLines(f))
  {
    NotHeader(IndexLine(f) + "\n");
  }

  lemma HeadIsGroup(q: Unquoter, f: NewFile)
    requires Fitting(f)
    ensures IsGroup(HeadLines(f))
  {
    TwoHeadsGroup(q, f);
    IndexStartsNothing(f);
    GroupMore([Header(f.path) + "\n", ModeLine(f) + "\n"], IndexLines(f));
  }

  lemma GroupMore(group: seq<Bytes>, more: seq<Bytes>)
    requires IsGroup(group) && NoneStarts(more)
    ensures IsGroup(group + more)
  {
  }

  lemma HunkIsGroup(heads: seq<Bytes>, f: NewFile)
    requires IsGroup(heads)
    ensures IsGroup(WithHunk(heads, f))
  {
    HunkHeadStartsNothing(f);
    BodyStartsNothing(f);
    GroupMore(heads, HunkHead(f));
    GroupMore(heads + HunkHead(f), BodyLines(f));
  }

  lemma PrintedIsGroup(q: Unquoter, f: NewFile)
    requires Fitting(f)
    ensures IsGroup(PrintLines(f))
  {
    HeadIsGroup(q, f);
    HunkIsGroup(HeadLines(f), f);
  }

  // ---------------------------------------------------------------- its content

  /** Lines that are no hunk header and no marker. */
  ghost predicate Heads(kinds: seq<Kind>, h: nat) {
    h <= |kinds| && forall i :: 0 <= i < h ==> kinds[i].Other? || kinds[i].Plus?
  }

  /** The kinds of the lines: `h` heads, the hunk, `n` added lines, perhaps the marker. */
  ghost predicate Shape(kinds: seq<Kind>, h: nat, n: nat, marked: bool) {
    // `== true` keeps the predicate whole where it is to be proved
    (&& |kinds| == h + 1 + n + (if marked then 1 else 0)
     && Heads(kinds, h) && kinds[h] == Heading(Some(n))
     && (forall i :: h < i <= h + n ==> kinds[i].Plus?)
     && (marked ==> kinds[h + 1 + n].Marker?)) == true
  }

  lemma {:induction false} KindsConcat(a: seq<Bytes>, b: seq<Bytes>)
    ensures Kinds(a + b) == Kinds(a) + Kinds(b)
    decreases |a|
  {
    if a == [] {
      assert a + b == b && [] + Kinds(b) == Kinds(b);
    } else {
      var first, rest := [KindOf(a[0])], a[1..];
      assert (a + b)[0] == a[0] && (a + b)[1..] == rest + b;
      KindsConcat(rest, b);
      assert first + (Kinds(rest) + Kinds(b)) == (first + Kinds(rest)) + Kinds(b);
    }
  }

  lemma TwoHeadKinds(q: Unquoter, f: NewFile)
    requires Fitting(f)
    ensures Kinds([Header(f.path) + "\n", ModeLine(f) + "\n"]) == [Other, Other]
  {
    HeaderKind(f);
    ModeLineFacts(q, f, Block([], "x", true, false, "", false));
  }

  lemma IndexKinds(q: Unquoter, f: NewFile)
    requires Fitting(f)
    ensures Kinds(IndexLines(f)) == if f.index == "" then [] else [Other]
  {
    if f.index != "" { IndexLineFacts(q, f, Block([], "x", true, false, "", false)); }
  }

  lemma HeadKinds(q: Unquoter, f: NewFile)
    requires Fitting(f)
    ensures Kinds(HeadLines(f)) == [Other, Other] + if f.index == "" then [] else [Other]
  {
    TwoHeadKinds(q, f);
    IndexKinds(q, f);
    KindsConcat([Header(f.path) + "\n", ModeLine(f) + "\n"], IndexLines(f));
  }

  lemma HunkHeadKinds(q: Unquoter, f: NewFile)
    requires Fitting(f)
    ensures Kinds(HunkHead(f)) == [Other, Kind.Plus, Heading(Some(|Lines(f.content)|))]
  {
    var b := Block([], "x", true, false, "", false);
    NullLineFacts(q, b);
    PathLineFacts(q, f, b);
    HunkLineFacts(q, f, b);
  }

  lemma PlusKinds(lines: seq<Bytes>)
    ensures forall i :: 0 <= i < |lines| ==> Kinds(PlusLines(lines))[i].Plus?
  {
    forall i | 0 <= i < |lines| ensures KindOf(PlusLines(lines)[i]).Plus? {
      PlusLineFacts(lines[i]);
    }
  }

  lemma MarkerKinds(q: Unquoter, lines: seq<Bytes>)
    ensures Kinds(EndMarker(lines)) == if EndMarker(lines) != [] then [Marker] else []
  {
    MarkerLineFacts(q);
  }

  lemma ShapeFits(a: seq<Kind>, b: seq<Kind>, c: seq<Kind>, d: seq<Kind>, n: nat)
    requires Heads(a, |a|) && b == [Other, Kind.Plus, Heading(Some(n))]
    requires |c| == n && (forall i :: 0 <= i < n ==> c[i].Plus?) && (d == [Marker] || d == [])
    ensures Shape((a + b) + (c + d), |a| + 2, n, d != [])
  {
    var kinds, h := (a + b) + (c + d), |a| + 2;
    assert forall i :: 0 <= i < |a| ==> kinds[i] == a[i];
    assert forall i :: h < i <= h + n ==> kinds[i] == c[i - h - 1];
  }

  /** The kinds of hunk head, added lines and marker. */
  ghost predicate TailKinds(b: seq<Bytes>, c: seq<Bytes>, d: seq<Bytes>, n: nat) {
    (&& Kinds(b) == [Other, Kind.Plus, Heading(Some(n))]
     && |c| == n && (forall i :: 0 <= i < n ==> Kinds(c)[i].Plus?)
     && Kinds(d) == if d != [] then [Marker] else []) == true
  }

  lemma HunkKinds(q: Unquoter, f: NewFile)
    requires Fitting(f)
    ensures TailKinds(HunkHead(f), PlusLines(Lines(f.content)), EndMarker(Lines(f.content)), |Lines(f.content)|)
  {
    HunkHeadKinds(q, f);
    PlusKinds(Lines(f.content));
    MarkerKinds(q, Lines(f.content));
    MakeTail(HunkHead(f), PlusLines(Lines(f.content)), EndMarker(Lines(f.content)), |Lines(f.content)|);
  }

  lemma MakeTail(b: seq<Bytes>, c: seq<Bytes>, d: seq<Bytes>, n: nat)
    requires Kinds(b) == [Other, Kind.Plus, Heading(Some(n))]
    requires |c| == n && forall i :: 0 <= i < n ==> Kinds(c)[i].Plus?
    requires Kinds(d) == if d != [] then [Marker] else []
    ensures TailKinds(b, c, d, n)
  {
  }

  /** Lines before the first hunk. */
  ghost predicate HeadsOnly(heads: seq<Bytes>) {
    Heads(Kinds(heads), |heads|)
  }

  lemma HeadsFit(q: Unquoter, f: NewFile)
    requires Fitting(f)
    ensures HeadsOnly(HeadLines(f))
  {
    HeadKinds(q, f);
  }

  lemma ShapeOfParts(a: seq<Bytes>, b: seq<Bytes>, c: seq<Bytes>, d: seq<Bytes>, n: nat)
    requires HeadsOnly(a) && TailKinds(b, c, d, n)
    ensures Shape(Kinds((a + b) + (c + d)), |a| + 2, n, d != [])
  {
    FourKinds(a, b, c, d);
    ShapeFits(Kinds(a), Kinds(b), Kinds(c), Kinds(d), n);
  }

  lemma HunkShape(q: Unquoter, heads: seq<Bytes>, f: NewFile)
    requires Fitting(f) && HeadsOnly(heads)
    ensures Shape(Kinds(WithHunk(heads, f)), |heads| + 2, |Lines(f.content)|, EndMarker(Lines(f.content)) != [])
  {
    HunkKinds(q, f);
    ShapeOfParts(heads, HunkHead(f), PlusLines(Lines(f.content)), EndMarker(Lines(f.content)), |Lines(f.content)|);
  }

  lemma FourKinds(a: seq<Bytes>, b: seq<Bytes>, c: seq<Bytes>, d: seq<Bytes>)
    ensures Kinds((a + b) + (c + d)) == (Kinds(a) + Kinds(b)) + (Kinds(c) + Kinds(d))
  {
    KindsConcat(a + b, c + d);
    KindsConcat(a, b);
    KindsConcat(c, d);
  }

  lemma HeaderKind(f: NewFile)
    requires Fitting(f)
    ensures KindOf(Header(f.path) + "\n") == Other
  {
    var raw := Header(f.path);
    PlainPathChars(f.path);
    assert raw[|raw| - 1] == f.path[|f.path| - 1];
    TrimEnded(raw);
    NotPrefix(raw, HUNK_START, 0);
    assert raw[0] == 'd' && raw != NO_NEWLINE;
  }

  lemma {:induction false} HeadsCount(all: seq<Bytes>, kinds: seq<Kind>, h: nat)
    requires Heads(kinds, h) && |all| == |kinds|
    ensures !HunkBefore(kinds, h) && Expected(kinds, h) == Some(0) && ContentTo(all, kinds, h) == ""
  {
    if h > 0 {
      HeadsCount(all, kinds, h - 1);
    }
  }

  lemma {:induction false} ShapeCounts(all: seq<Bytes>, kinds: seq<Kind>, h: nat, n: nat, marked: bool, i: nat)
    requires Shape(kinds, h, n, marked) && i <= n && |all| == |kinds|
    ensures HunkBefore(kinds, h + 1 + i) && Expected(kinds, h + 1 + i) == Some(n - i)
  {
    if i == 0 {
      HeadsCount(all, kinds, h);
    } else {
      ShapeCounts(all, kinds, h, n, marked, i - 1);
    }
  }

  /** The line adds `l`, with an LF if it has none. */
  ghost predicate Carries(line: Bytes, l: Bytes) {
    line != "" && line[1..] == Terminated(l)
  }

  ghost predicate Unended(lines: seq<Bytes>) {
    lines != [] && !Ended(lines[|lines| - 1])
  }

  /** A body of the right shape whose added lines carry `lines`. */
  ghost predicate Prints(all: seq<Bytes>, kinds: seq<Kind>, h: nat, lines: seq<Bytes>) {
    (&& |all| == |kinds| && Shape(kinds, h, |lines|, Unended(lines))
     && AllCarried(all, h + 1, lines)) == true
  }

  /** Every line of the content comes back, the last one without the LF that was added. */
  lemma PlusComesBack(all: seq<Bytes>, kinds: seq<Kind>, h: nat, lines: seq<Bytes>, i: nat)
    requires Tidy(lines) && i < |lines| && Prints(all, kinds, h, lines)
    ensures all[h + 1 + i] != "" && AddedText(all, kinds, h + 1 + i) == lines[i]
  {
    assert Carries(all[h + 1 + i], lines[i]);
    if i < |lines| - 1 {
      assert kinds[h + 1 + (i + 1)].Plus?;
    }
  }

  lemma NextComesBack(all: seq<Bytes>, kinds: seq<Kind>, h: nat, lines: seq<Bytes>, i: nat)
    requires Tidy(lines) && i < |lines| && Prints(all, kinds, h, lines)
    ensures ContentTo(all, kinds, h + 1 + i + 1) == ContentTo(all, kinds, h + 1 + i) + lines[i]
  {
    ShapeCounts(all, kinds, h, |lines|, Unended(lines), i);
    PlusComesBack(all, kinds, h, lines, i);
    assert kinds[h + 1 + i].Plus?;
    assert ContentTo(all, kinds, h + 1 + i + 1)
           == ContentTo(all, kinds, h + 1 + i) + AddedText(all, kinds, h + 1 + i);
  }

  ghost predicate BackTo(all: seq<Bytes>, kinds: seq<Kind>, h: nat, lines: seq<Bytes>, i: nat) {
    (&& i <= |lines| && h + 1 + i <= |all| == |kinds|
     && ContentTo(all, kinds, h + 1 + i) == Join(lines[..i])) == true
  }

  lemma BackNext(all: seq<Bytes>, kinds: seq<Kind>, h: nat, lines: seq<Bytes>, i: nat)
    requires Tidy(lines) && i < |lines| && Prints(all, kinds, h, lines) && BackTo(all, kinds, h, lines, i)
    ensures BackTo(all, kinds, h, lines, i + 1)
  {
    NextComesBack(all, kinds, h, lines, i);
    JoinSnoc(lines, i);
  }

  lemma BackStart(all: seq<Bytes>, kinds: seq<Kind>, h: nat, lines: seq<Bytes>)
    requires Prints(all, kinds, h, lines)
    ensures BackTo(all, kinds, h, lines, 0)
  {
    HeadsCount(all, kinds, h);
  }

  lemma {:induction false} BodyComesBack(all: seq<Bytes>, kinds: seq<Kind>, h: nat, lines: seq<Bytes>, i: nat)
    requires Tidy(lines) && i <= |lines| && Prints(all, kinds, h, lines)
    ensures BackTo(all, kinds, h, lines, i)
  {
    if i == 0 {
      BackStart(all, kinds, h, lines);
    } else {
      BodyComesBack(all, kinds, h, lines, i - 1);
      BackNext(all, kinds, h, lines, i - 1);
    }
  }

  lemma JoinSnoc(lines: seq<Bytes>, i: nat)
    requires i < |lines|
    ensures Join(lines[..i + 1]) == Join(lines[..i]) + lines[i]
  {
    assert lines[..i + 1] == lines[..i] + [lines[i]];
    JoinConcat(lines[..i], [lines[i]]);
    assert Join([lines[i]]) == lines[i];
  }

  /** A marker at the end adds nothing. */
  lemma EndAddsNothing(all: seq<Bytes>, kinds: seq<Kind>, h: nat, lines: seq<Bytes>)
    requires Prints(all, kinds, h, lines)
    ensures ContentTo(all, kinds, |all|) == ContentTo(all, kinds, h + 1 + |lines|)
  {
  }

  lemma ShapedIsCreation(all: seq<Bytes>, kinds: seq<Kind>, h: nat, n: nat, marked: bool)
    requires Shape(kinds, h, n, marked) && |all| == |kinds|
    ensures Expected(kinds, |kinds|) == Some(0)
  {
    ShapeCounts(all, kinds, h, n, marked, n);
  }

  lemma ShapedContent(all: seq<Bytes>, kinds: seq<Kind>, h: nat, lines: seq<Bytes>)
    requires Tidy(lines) && Prints(all, kinds, h, lines)
    ensures Expected(kinds, |kinds|) == Some(0) && ContentTo(all, kinds, |all|) == Join(lines)
  {
    ShapedIsCreation(all, kinds, h, |lines|, Unended(lines));
    BodyComesBack(all, kinds, h, lines, |lines|);
    EndAddsNothing(all, kinds, h, lines);
    assert lines[..|lines|] == lines;
  }

  lemma PlusCarries(lines: seq<Bytes>)
    ensures forall j :: 0 <= j < |lines| ==> Carries(PlusLines(lines)[j], lines[j])
  {
  }

  /** From a position on, the lines carry `lines`. */
  ghost predicate AllCarried(all: seq<Bytes>, from: nat, lines: seq<Bytes>) {
    (&& from + |lines| <= |all|
     && forall j :: 0 <= j < |lines| ==> Carries(all[from + j], lines[j])) == true
  }

  lemma BodyAt(heads: seq<Bytes>, f: NewFile)
    ensures AllCarried(WithHunk(heads, f), |heads| + 3, Lines(f.content))
  {
    PlusCarries(Lines(f.content));
    AllCarry(heads + HunkHead(f), PlusLines(Lines(f.content)), EndMarker(Lines(f.content)), Lines(f.content));
  }

  lemma AllCarry(a: seq<Bytes>, b: seq<Bytes>, c: seq<Bytes>, lines: seq<Bytes>)
    requires |b| == |lines| && forall j :: 0 <= j < |b| ==> Carries(b[j], lines[j])
    ensures AllCarried(a + (b + c), |a|, lines)
  {
    forall j | 0 <= j < |b| ensures Carries((a + (b + c))[|a| + j], lines[j]) {
      assert (a + (b + c))[|a| + j] == b[j];
    }
  }

  lemma MakePrints(all: seq<Bytes>, kinds: seq<Kind>, h: nat, lines: seq<Bytes>, marked: bool)
    requires |all| == |kinds| && Shape(kinds, h, |lines|, marked) && (marked <==> Unended(lines))
    requires AllCarried(all, h + 1, lines)
    ensures Prints(all, kinds, h, lines)
  {
  }

  lemma MarkedIfUnended(lines: seq<Bytes>)
    ensures EndMarker(lines) != [] <==> Unended(lines)
  {
  }

  lemma HunkPrints(heads: seq<Bytes>, f: NewFile)
    requires Shape(Kinds(WithHunk(heads, f)), |heads| + 2, |Lines(f.content)|, EndMarker(Lines(f.content)) != [])
    ensures Prints(WithHunk(heads, f), Kinds(WithHunk(heads, f)), |heads| + 2, Lines(f.content))
  {
    var lines := Lines(f.content);
    BodyAt(heads, f);
    MarkedIfUnended(lines);
    MakePrints(WithHunk(heads, f), Kinds(WithHunk(heads, f)), |heads| + 2, lines, EndMarker(lines) != []);
  }

  lemma PrintsContent(all: seq<Bytes>, h: nat, content: Bytes)
    requires Prints(all, Kinds(all), h, Lines(content))
    ensures IsCreation(all) && Content(all) == content
  {
    LinesTidy(content);
    ShapedContent(all, Kinds(all), h, Lines(content));
  }

  /** Head lines and one hunk are a creation of exactly the content. */
  lemma HunkContent(q: Unquoter, heads: seq<Bytes>, f: NewFile)
    requires Fitting(f) && HeadsOnly(heads)
    ensures IsCreation(WithHunk(heads, f)) && Content(WithHunk(heads, f)) == f.content
  {
    HunkShape(q, heads, f);
    HunkPrints(heads, f);
    PrintsContent(WithHunk(heads, f), |heads| + 2, f.content);
  }

  /** A printed file is a creation of exactly its content. */
  lemma PrintedContent(q: Unquoter, f: NewFile)
    requires Fitting(f)
    ensures IsCreation(PrintLines(f)) && Content(PrintLines(f)) == f.content
  {
    var all := PrintLines(f);
    HeadsFit(q, f);
    if f.content == "" {
      HeadsCount(all, Kinds(all), |all|);
    } else {
      HunkContent(q, HeadLines(f), f);
    }
  }
}
