/** Printed new files are one part each. */
module PatchOnePart {
  import opened Common
  import opened PatchText
  import opened PatchPaths
  import opened PatchValidator
  import opened PatchBlocks
  import opened PatchFilter
  import opened PatchParts
  import opened PatchPrint
  import opened PatchPrinted

  lemma OneThen(f: Reader, h: Hunk, next: Hunk, line: Bytes, rest: seq<Bytes>)
    requires ReadsHunks(f) && Open(h) && BodyLine(h, TrimLine(line)) == Ok(next) && HunksThen(f, next, rest)
    ensures HunksThen(f, h, [line] + rest)
  {
    assert ([line] + rest)[1..] == rest;
  }

  lemma PlusStep(f: Reader, l: Bytes, n: nat, rest: seq<Bytes>)
    requires ReadsHunks(f) && HunksThen(f, Hunk(0, n), rest)
    ensures HunksThen(f, Hunk(0, n + 1), ["+" + Terminated(l)] + rest)
  {
    PlusLineFacts(l);
    OneThen(f, Hunk(0, n + 1), Hunk(0, n), "+" + Terminated(l), rest);
  }

  lemma {:induction false} PlusThen(f: Reader, lines: seq<Bytes>, end: seq<Bytes>)
    requires ReadsHunks(f) && HunksThen(f, NO_HUNK, end)
    ensures HunksThen(f, Hunk(0, |lines|), PlusLines(lines) + end)
  {
    if lines == [] {
      assert PlusLines(lines) + end == end;
    } else {
      PlusThen(f, lines[1..], end);
      PlusStep(f, lines[0], |lines| - 1, PlusLines(lines[1..]) + end);
      PlusOne(lines, end);
    }
  }

  lemma PlusOne(lines: seq<Bytes>, end: seq<Bytes>)
    requires lines != []
    ensures PlusLines(lines) + end == ["+" + Terminated(lines[0])] + (PlusLines(lines[1..]) + end)
  {
  }

  lemma BetweenThen(f: Reader, next: Hunk, line: Bytes, rest: seq<Bytes>)
    requires HasPrefix(line, GIT_HUNK) || HasPrefix(line, "\\ ")
    requires Read(f, NO_HUNK, line) == Ok(next) && HunksThen(f, next, rest)
    ensures HunksThen(f, NO_HUNK, [line] + rest)
  {
    assert ([line] + rest)[1..] == rest;
  }

  lemma EndThen(q: Unquoter, lines: seq<Bytes>)
    ensures HunksThen(LineReader(q), NO_HUNK, EndMarker(lines))
  {
    if EndMarker(lines) != [] {
      var line := NO_NEWLINE + "\n";
      MarkerLineFacts(q);
      MarkerPrefix();
      BetweenThen(LineReader(q), NO_HUNK, line, []);
      assert [line] + [] == [line];
    }
  }

  lemma MarkerPrefix()
    ensures HasPrefix(NO_NEWLINE + "\n", "\\ ")
  {
  }

  lemma HunkPrefix(f: NewFile)
    ensures HasPrefix(HunkLine(f) + "\n", GIT_HUNK)
  {
    var n := |Lines(f.content)|;
    HunkTextStarts(RangeText('-', 0, 0), RangeText('+', 1, n));
  }

  lemma HunkTextStarts(minus: Bytes, plus: Bytes)
    requires minus != "" && minus[0] == '-'
    ensures HasPrefix("@@" + [' '] + (minus + [' '] + (plus + [' '] + ("@@" + ""))) + "\n", GIT_HUNK)
  {
  }

  lemma HunkRead(q: Unquoter, f: NewFile)
    requires Fitting(f)
    ensures Read(LineReader(q), NO_HUNK, HunkLine(f) + "\n") == Ok(Hunk(0, |Lines(f.content)|))
  {
    HunkLineFacts(q, f, Block([], "x", true, false, "", false));
  }

  lemma HunkThen(q: Unquoter, f: NewFile)
    requires Fitting(f)
    ensures HunksThen(LineReader(q), NO_HUNK, [HunkLine(f) + "\n"] + BodyLines(f))
  {
    LineReaderReadsHunks(q);
    EndThen(q, Lines(f.content));
    PlusThen(LineReader(q), Lines(f.content), EndMarker(Lines(f.content)));
    HunkRead(q, f);
    HunkPrefix(f);
    BetweenThen(LineReader(q), Hunk(0, |Lines(f.content)|), HunkLine(f) + "\n", BodyLines(f));
  }

  // ---------------------------------------------------------------- the lines before the hunk

  lemma NullExtended()
    ensures Extended(FROM_NULL + "\n")
  {
    assert (FROM_NULL + "\n")[..4] == "--- ";
  }

  lemma PathExtended(f: NewFile)
    requires Fitting(f)
    ensures Extended(PathLine(f) + "\n")
  {
    assert (PathLine(f) + "\n")[..4] == "+++ ";
  }

  lemma ModeExtended(f: NewFile)
    ensures Extended(ModeLine(f) + "\n")
  {
    assert (ModeLine(f) + "\n")[..|NEW_MODE|] == NEW_MODE;
  }

  lemma IndexExtended(f: NewFile)
    ensures Extended(IndexLine(f) + "\n")
  {
    assert (IndexLine(f) + "\n")[..|INDEX_START|] == INDEX_START;
  }

  lemma AfterExtended(f: Reader, line: Bytes, rest: seq<Bytes>)
    requires Extended(line) && AfterHead(f, rest)
    ensures AfterHead(f, [line] + rest)
  {
    assert ([line] + rest)[1..] == rest;
  }

  lemma HunkNotExtended(f: NewFile)
    ensures !Extended(HunkLine(f) + "\n")
  {
    HunkTextShape(0, 0, 1, |Lines(f.content)|);
    var line := HunkLine(f) + "\n";
    assert line[0] == '@';
    StartsNoExtended(line);
  }

  lemma StartsNoExtended(line: Bytes)
    requires line != "" && line[0] == '@'
    ensures !Extended(line)
  {
  }

  lemma AtHunk(f: Reader, line: Bytes, rest: seq<Bytes>)
    requires !Extended(line) && HunksThen(f, NO_HUNK, [line] + rest)
    ensures AfterHead(f, [line] + rest)
  {
  }

  lemma HunkHeadAfter(q: Unquoter, f: NewFile)
    requires Fitting(f)
    ensures AfterHead(LineReader(q), [PathLine(f) + "\n"] + ([HunkLine(f) + "\n"] + BodyLines(f)))
  {
    HunkThen(q, f);
    HunkNotExtended(f);
    AtHunk(LineReader(q), HunkLine(f) + "\n", BodyLines(f));
    PathExtended(f);
    AfterExtended(LineReader(q), PathLine(f) + "\n", [HunkLine(f) + "\n"] + BodyLines(f));
  }

  lemma MakeOnePart(f: Reader, header: Bytes, second: Bytes, rest: seq<Bytes>)
    requires HasPrefix(header, DIFF_GIT) && Extended(second) && AfterHead(f, rest)
    ensures OnePart(f, [header] + ([second] + rest))
  {
    assert ([header] + ([second] + rest))[2..] == rest;
  }

  lemma HeaderStarts(f: NewFile)
    ensures HasPrefix(Header(f.path) + "\n", DIFF_GIT)
  {
    assert (Header(f.path) + "\n")[..|DIFF_GIT|] == DIFF_GIT;
  }

  function NullOn(f: NewFile): seq<Bytes> {
    [FROM_NULL + "\n"] + ([PathLine(f) + "\n"] + ([HunkLine(f) + "\n"] + BodyLines(f)))
  }

  lemma NullOnAfter(q: Unquoter, f: NewFile)
    requires Fitting(f)
    ensures AfterHead(LineReader(q), NullOn(f))
  {
    HunkHeadAfter(q, f);
    NullExtended();
    AfterExtended(LineReader(q), FROM_NULL + "\n", [PathLine(f) + "\n"] + ([HunkLine(f) + "\n"] + BodyLines(f)));
  }

  lemma IndexAfter(q: Unquoter, f: NewFile, rest: seq<Bytes>)
    requires AfterHead(LineReader(q), rest)
    ensures AfterHead(LineReader(q), IndexLines(f) + rest)
  {
    if f.index == "" {
      assert IndexLines(f) + rest == rest;
    } else {
      IndexExtended(f);
      AfterExtended(LineReader(q), IndexLine(f) + "\n", rest);
    }
  }

  function AfterMode(f: NewFile): seq<Bytes> {
    IndexLines(f) + if f.content == "" then [] else NullOn(f)
  }

  lemma Nested(heads: seq<Bytes>, a: Bytes, b: Bytes, c: Bytes, rest: seq<Bytes>)
    ensures (heads + [a, b, c]) + rest == heads + ([a] + ([b] + ([c] + rest)))
  {
  }

  lemma HeadsIs(a: Bytes, b: Bytes, c: seq<Bytes>, rest: seq<Bytes>)
    ensures ([a, b] + c) + rest == [a] + ([b] + (c + rest))
  {
  }

  lemma PrintIs(f: NewFile)
    ensures PrintLines(f) == [Header(f.path) + "\n"] + ([ModeLine(f) + "\n"] + AfterMode(f))
  {
    var rest := if f.content == "" then [] else NullOn(f);
    Nested(HeadLines(f), FROM_NULL + "\n", PathLine(f) + "\n", HunkLine(f) + "\n", BodyLines(f));
    assert HeadLines(f) + [] == HeadLines(f);
    assert PrintLines(f) == HeadLines(f) + rest;
    HeadsIs(Header(f.path) + "\n", ModeLine(f) + "\n", IndexLines(f), rest);
  }

  /** A printed file is one part. */
  lemma PrintedIsOnePart(q: Unquoter, f: NewFile)
    requires Fitting(f)
    ensures OnePart(LineReader(q), PrintLines(f))
  {
    NullOnAfter(q, f);
    IndexAfter(q, f, if f.content == "" then [] else NullOn(f));
    HeaderStarts(f);
    ModeExtended(f);
    MakeOnePart(LineReader(q), Header(f.path) + "\n", ModeLine(f) + "\n", AfterMode(f));
    PrintIs(f);
  }

  /** So is its hunk right after the header. */
  lemma BareIsOnePart(q: Unquoter, f: NewFile)
    requires Fitting(f)
    ensures OnePart(LineReader(q), WithHunk([Header(f.path) + "\n"], f))
  {
    HunkHeadAfter(q, f);
    HeaderStarts(f);
    NullExtended();
    MakeOnePart(LineReader(q), Header(f.path) + "\n", FROM_NULL + "\n",
                [PathLine(f) + "\n"] + ([HunkLine(f) + "\n"] + BodyLines(f)));
    BareIs(f);
  }

  lemma BareIs(f: NewFile)
    ensures WithHunk([Header(f.path) + "\n"], f) == [Header(f.path) + "\n"] + NullOn(f)
  {
    Nested([Header(f.path) + "\n"], FROM_NULL + "\n", PathLine(f) + "\n", HunkLine(f) + "\n", BodyLines(f));
  }
}
