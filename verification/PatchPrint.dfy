/** A printer for new text files, in the form Git gives them, and how the engine reads its lines. */
module PatchPrint {
  import opened Common
  import opened PatchText
  import opened PatchPaths
  import opened PatchValidator
  import opened PatchBlocks

  /** `index` is what the index line says of the objects; without it there is no such line. */
  datatype NewFile = NewFile(path: Bytes, content: Bytes, exec: bool, index: Bytes)

  predicate PlainChar(c: char) {
    ' ' <= c && c != '\\' && c != '"' && c as int != 127
  }

  /** A path that needs no quoting, spaces allowed, without empty components, and legal in a patch. */
  predicate PlainPath(path: Bytes) {
    && path != "" && PathProblem(path).None?
    && path[0] != '/' && path[|path| - 1] != '/'
    && (forall i :: 0 <= i < |path| ==> PlainChar(path[i]))
    && (forall i :: 0 <= i < |path| - 1 ==> !(path[i] == '/' && path[i + 1] == '/'))
  }

  lemma PlainPathChars(path: Bytes)
    requires PlainPath(path)
    ensures '\\' !in path && '"' !in path && '\n' !in path && '\r' !in path && '\t' !in path
  {
  }

  predicate HashChar(c: char) {
    '0' <= c <= '9' || 'a' <= c <= 'f' || c == '.'
  }

  predicate Fitting(f: NewFile) {
    && PlainPath(f.path) && |Lines(f.content)| <= MAX_COUNT
    && forall i :: 0 <= i < |f.index| ==> HashChar(f.index[i])
  }

  const INDEX_START: Bytes := "index "

  function ModeText(exec: bool): Bytes { if exec then "100755" else "100644" }

  /** A tab ends a path that contains spaces. */
  function FileLineEnd(path: Bytes): Bytes { if ' ' in path then "\t" else "" }

  function ModeLine(f: NewFile): Bytes { NEW_MODE + ModeText(f.exec) }
  function IndexLine(f: NewFile): Bytes { INDEX_START + f.index }
  function PathLine(f: NewFile): Bytes { "+++ " + ("b/" + f.path + FileLineEnd(f.path)) }
  function HunkLine(f: NewFile): Bytes { HunkText(0, 0, 1, |Lines(f.content)|, "") }

  function Terminated(line: Bytes): Bytes { if Ended(line) then line else line + "\n" }

  function PlusLines(lines: seq<Bytes>): (plus: seq<Bytes>)
    ensures |plus| == |lines|
    ensures forall i :: 0 <= i < |lines| ==> plus[i] == "+" + Terminated(lines[i])
  {
    if lines == [] then [] else ["+" + Terminated(lines[0])] + PlusLines(lines[1..])
  }

  /** The marker, if the content does not end with a newline. */
  function EndMarker(lines: seq<Bytes>): seq<Bytes> {
    if lines != [] && !Ended(lines[|lines| - 1]) then [NO_NEWLINE + "\n"] else []
  }

  function IndexLines(f: NewFile): seq<Bytes> {
    if f.index == "" then [] else [IndexLine(f) + "\n"]
  }

  function HeadLines(f: NewFile): seq<Bytes> {
    [Header(f.path) + "\n", ModeLine(f) + "\n"] + IndexLines(f)
  }

  function HunkHead(f: NewFile): seq<Bytes> {
    [FROM_NULL + "\n", PathLine(f) + "\n", HunkLine(f) + "\n"]
  }

  function BodyLines(f: NewFile): seq<Bytes> {
    PlusLines(Lines(f.content)) + EndMarker(Lines(f.content))
  }

  /** Some head lines, and the content as one hunk. */
  function WithHunk(heads: seq<Bytes>, f: NewFile): seq<Bytes> {
    (heads + HunkHead(f)) + BodyLines(f)
  }

  function PrintLines(f: NewFile): seq<Bytes> {
    if f.content == "" then HeadLines(f) else WithHunk(HeadLines(f), f)
  }

  // ---------------------------------------------------------------- single lines

  lemma TrimEnded(raw: Bytes)
    requires raw == "" || raw[|raw| - 1] != '\r'
    ensures TrimLine(raw + "\n") == raw
  {
  }

  /** A line whose first character begins no line that matters between hunks. */
  lemma NothingSpecial(raw: Bytes)
    requires raw != "" && raw[0] !in "@d+-rcGB"
    ensures !HasPrefix(raw, HUNK_START) && !HasPrefix(raw, DIFF_GIT) && !HasPrefix(raw, "+++ ")
    ensures !HasPrefix(raw, "--- ") && RenamePrefix(raw).None? && !StartsBinary(raw) && !HasPrefix(raw, FROM_NULL)
  {
  }

  /** No line but a header starts with `d`. */
  lemma NotHeader(line: Bytes)
    requires line != "" && line[0] != 'd' && line[0] != '\n' && line[0] != '\r'
    ensures !StartsBlock(line)
  {
  }

  lemma HeaderLegal(q: Unquoter, path: Bytes)
    requires PlainPath(path)
    ensures HeadLine(q, Header(path)) == Ok(NO_HUNK) && HeaderPath(q, Header(path)) == path
  {
    var raw := Header(path);
    PlainPathChars(path);
    HeaderInverts(q, path);
    var pair := Pair("a/" + path, "b/" + path);
    assert [pair][1..] == [] && PathsProblem([pair][1..]).None?;
    assert Sanitize(pair.left) == path && Sanitize(pair.right) == path;
    assert PathsProblem([pair]).None? && AgreedPath([pair]) == path;
    assert raw[..|DIFF_GIT|] == DIFF_GIT;
    NotPrefix(raw, HUNK_START, 0);
  }

  lemma HeaderLine(q: Unquoter, f: NewFile)
    requires Fitting(f)
    ensures var line := Header(f.path) + "\n";
      && StartsBlock(line) && TrimLine(line) == Header(f.path)
      && HeadLine(q, Header(f.path)) == Ok(NO_HUNK)
      && BeginBlock(q, line) == Block([line], f.path, false, false, "", false)
  {
    var raw := Header(f.path);
    PlainPathChars(f.path);
    assert raw[|raw| - 1] == f.path[|f.path| - 1] && raw[..|DIFF_GIT|] == DIFF_GIT;
    TrimEnded(raw);
    HeaderLegal(q, f.path);
  }

  lemma ModeValue(m: Bytes, exec: bool)
    requires |m| == 6 && m[0] == '1' && m[1] == '0' && m[2] == '0'
    requires if exec then m[3] == '7' && m[4] == '5' && m[5] == '5' else m[3] == '6' && m[4] == '4' && m[5] == '4'
    ensures OctalValue(m) == if exec then 0x81ED else 0x81A4
  {
    OctalSnoc(m, 0, 0);
    OctalSnoc(m, 0, 1);
    OctalSnoc(m, 0, 2);
    OctalSnoc(m, 0, 3);
    OctalSnoc(m, 0, 4);
    OctalSnoc(m, 0, 5);
    assert m[0..0] == "" && m[0..6] == m;
  }

  lemma ModeParses(exec: bool)
    ensures ModeExec(ModeText(exec)) == Some(exec) && TrimSpace(ModeText(exec)) == ModeText(exec)
  {
    var m := ModeText(exec);
    assert TrimSpace(m) == m;
    ModeValue(m, exec);
    assert forall i :: 0 <= i < |m| ==> IsOctal(m[i]);
  }

  lemma ModeLineFacts(q: Unquoter, f: NewFile, b: Block)
    requires !b.inBody
    ensures var line := ModeLine(f) + "\n";
      && TrimLine(line) == ModeLine(f) && !StartsBlock(line) && KindOf(line) == Other
      && HeadLine(q, ModeLine(f)) == Ok(NO_HUNK)
      && AppendLine(q, b, line) == b.(lines := b.lines + [line], isNew := true, mode := ModeText(f.exec))
  {
    var raw, m := ModeLine(f), ModeText(f.exec);
    assert raw[0] == 'n' && raw[|raw| - 1] == m[|m| - 1];
    TrimEnded(raw);
    NothingSpecial(raw);
    NotHeader(raw + "\n");
    ModeParses(f.exec);
    assert raw[..|NEW_MODE|] == NEW_MODE && raw[|NEW_MODE|..] == m;
    assert raw != NO_NEWLINE;
  }

  lemma IndexLineFacts(q: Unquoter, f: NewFile, b: Block)
    requires Fitting(f) && f.index != "" && !b.inBody
    ensures var line := IndexLine(f) + "\n";
      && TrimLine(line) == IndexLine(f) && !StartsBlock(line) && KindOf(line) == Other
      && HeadLine(q, IndexLine(f)) == Ok(NO_HUNK)
      && AppendLine(q, b, line) == b.(lines := b.lines + [line])
  {
    var raw := IndexLine(f);
    assert raw[0] == 'i' && raw[|raw| - 1] == f.index[|f.index| - 1] && HashChar(f.index[|f.index| - 1]);
    TrimEnded(raw);
    NothingSpecial(raw);
    NotHeader(raw + "\n");
    NotPrefix(raw, NEW_MODE, 0);
    assert raw != NO_NEWLINE;
  }

  lemma NullLineFacts(q: Unquoter, b: Block)
    requires !b.inBody
    ensures var line := FROM_NULL + "\n";
      && TrimLine(line) == FROM_NULL && !StartsBlock(line) && KindOf(line) == Other
      && HeadLine(q, FROM_NULL) == Ok(NO_HUNK)
      && AppendLine(q, b, line) == b.(lines := b.lines + [line], isNew := true)
  {
    var raw := FROM_NULL;
    TrimEnded(raw);
    NotHeader(raw + "\n");
    NotPrefix(raw, HUNK_START, 0);
    NotPrefix(raw, DIFF_GIT, 0);
    NotPrefix(raw, NEW_MODE, 0);
    NotPrefix(raw, "GIT binary patch", 0);
    NotPrefix(raw, "Binary files ", 0);
    NotPrefix(raw, "+++ ", 0);
    assert raw[..4] == "--- " && raw[4..] == "/dev/null";
    assert raw != NO_NEWLINE;
  }

  lemma FileLineDecodes(q: Unquoter, path: Bytes)
    requires PlainPath(path)
    ensures FileLinePath(q, "b/" + path + FileLineEnd(path)) == path
  {
    var s, end := "b/" + path, FileLineEnd(path);
    PlainPathChars(path);
    PathEnd(path);
    assert '\t' !in s && s[0] == 'b' && '\\' !in s;
    CutAtTab(s, end);
    UnescapePlain(s, 0);
    assert s[..2] == "b/" && s[2..] == path;
  }

  lemma PathEnd(path: Bytes)
    requires PlainPath(path)
    ensures var t := "b/" + path + FileLineEnd(path); TrimLine(t) == t && t[|t| - 1] != '\r' && t != "/dev/null"
  {
    var t := "b/" + path + FileLineEnd(path);
    PlainPathChars(path);
    if FileLineEnd(path) == "" {
      assert t[|t| - 1] == path[|path| - 1];
    }
    assert t[0] == 'b';
  }

  lemma CutAtTab(s: Bytes, end: Bytes)
    requires '\t' !in s && (end == "" || end == "\t")
    ensures (s + end)[..IndexFrom(s + end, '\t', 0)] == s
  {
    assert (s + end)[0..|s|] == s;
    IndexIs(s + end, '\t', 0, |s|);
  }

  lemma PathLineShape(f: NewFile)
    requires Fitting(f)
    ensures var raw := PathLine(f); TrimLine(raw + "\n") == raw && raw[0] == '+' && raw[..4] == "+++ "
    ensures PathLine(f)[4..] == "b/" + f.path + FileLineEnd(f.path)
  {
    var raw, rest := PathLine(f), "b/" + f.path + FileLineEnd(f.path);
    PathEnd(f.path);
    assert raw[|raw| - 1] == rest[|rest| - 1];
    TrimEnded(raw);
  }

  lemma PathLineChecks(q: Unquoter, f: NewFile)
    requires Fitting(f)
    ensures HeadLine(q, PathLine(f)) == Ok(NO_HUNK)
  {
    PathLineShape(f);
    FileLineDecodes(q, f.path);
    NotPrefix(PathLine(f), HUNK_START, 0);
    NotPrefix(PathLine(f), DIFF_GIT, 0);
  }

  lemma PathLineFacts(q: Unquoter, f: NewFile, b: Block)
    requires Fitting(f) && !b.inBody && b.path != ""
    ensures var line := PathLine(f) + "\n";
      && TrimLine(line) == PathLine(f) && !StartsBlock(line) && KindOf(line) == Plus
      && HeadLine(q, PathLine(f)) == Ok(NO_HUNK)
      && AppendLine(q, b, line) == b.(lines := b.lines + [line])
  {
    var raw := PathLine(f);
    PathLineShape(f);
    PathLineChecks(q, f);
    NotHeader(raw + "\n");
    NotPrefix(raw, HUNK_START, 0);
    NotPrefix(raw, NEW_MODE, 0);
    NotPrefix(raw, FROM_NULL, 0);
    NotPrefix(raw, "GIT binary patch", 0);
    NotPrefix(raw, "Binary files ", 0);
    assert raw != NO_NEWLINE;
  }

  lemma HunkLineFacts(q: Unquoter, f: NewFile, b: Block)
    requires Fitting(f) && !b.inBody
    ensures var line := HunkLine(f) + "\n"; var n := |Lines(f.content)|;
      && TrimLine(line) == HunkLine(f) && !StartsBlock(line) && KindOf(line) == Heading(Some(n))
      && HeadLine(q, HunkLine(f)) == Ok(Hunk(0, n))
      && AppendLine(q, b, line) == b.(lines := b.lines + [line], inBody := true)
  {
    var raw := HunkLine(f);
    HunkHeaderInverts(0, 0, 1, |Lines(f.content)|, "");
    HunkTextShape(0, 0, 1, |Lines(f.content)|);
    TrimEnded(raw);
    NotHeader(raw + "\n");
  }

  lemma HunkTextShape(oldPosition: nat, before: nat, newPosition: nat, after: nat)
    ensures var raw := HunkText(oldPosition, before, newPosition, after, "");
      raw != "" && raw[0] == '@' && raw[|raw| - 1] == '@' && HasPrefix(raw, HUNK_START)
  {
  }

  lemma PlusLineFacts(l: Bytes)
    ensures var line := "+" + Terminated(l);
      && !StartsBlock(line) && KindOf(line) == Plus
      && forall n: nat | n > 0 :: BodyLine(Hunk(0, n), TrimLine(line)) == Ok(Hunk(0, n - 1))
  {
    var line := "+" + Terminated(l);
    var raw := TrimLine(line);
    assert line[0] == '+' && raw != "" && raw[0] == '+';
    NotHeader(line);
    KindByPrefix(line);
    NotPrefix(line, HUNK_START, 0);
    assert raw != NO_NEWLINE;
  }

  lemma MarkerLineFacts(q: Unquoter)
    ensures var line := NO_NEWLINE + "\n";
      && TrimLine(line) == NO_NEWLINE && !StartsBlock(line) && KindOf(line) == Marker
      && HeadLine(q, NO_NEWLINE) == Ok(NO_HUNK)
  {
    TrimEnded(NO_NEWLINE);
    NothingSpecial(NO_NEWLINE);
    NotHeader(NO_NEWLINE + "\n");
  }

  // ---------------------------------------------------------------- one file

  lemma OneRead(q: Unquoter, h: Hunk, line: Bytes, rest: seq<Bytes>)
    ensures Counters(LineReader(q), h, [line] + rest) == Onward(LineReader(q), Line(q, h, line), rest)
  {
  }

  lemma {:induction false} PlusLinesRead(f: Reader, lines: seq<Bytes>)
    requires ReadsHunks(f)
    ensures Counters(f, Hunk(0, |lines|), PlusLines(lines)) == Ok(NO_HUNK)
  {
    if lines != [] {
      var line := "+" + Terminated(lines[0]);
      PlusLineFacts(lines[0]);
      OneLine(f, Hunk(0, |lines|), line, PlusLines(lines[1..]));
      PlusLinesRead(f, lines[1..]);
    }
  }

  lemma BodyRead(q: Unquoter, f: NewFile)
    ensures Counters(LineReader(q), Hunk(0, |Lines(f.content)|), BodyLines(f)) == Ok(NO_HUNK)
  {
    var r, lines := LineReader(q), Lines(f.content);
    LineReaderReadsHunks(q);
    PlusLinesRead(r, lines);
    CountersConcat(r, Hunk(0, |lines|), PlusLines(lines), EndMarker(lines));
    if EndMarker(lines) != [] {
      MarkerLineFacts(q);
      OneRead(q, NO_HUNK, NO_NEWLINE + "\n", []);
      assert [NO_NEWLINE + "\n"] + [] == EndMarker(lines);
    }
  }

  lemma TwoHeadsRead(q: Unquoter, f: NewFile)
    requires Fitting(f)
    ensures Counters(LineReader(q), NO_HUNK, [Header(f.path) + "\n", ModeLine(f) + "\n"]) == Ok(NO_HUNK)
  {
    var first, second := Header(f.path) + "\n", ModeLine(f) + "\n";
    HeaderLine(q, f);
    ModeLineFacts(q, f, Block([], "", false, false, "", false));
    OneRead(q, NO_HUNK, first, [second]);
    OneRead(q, NO_HUNK, second, []);
    assert [first] + [second] == [first, second] && [second] + [] == [second];
  }

  lemma HeadLinesRead(q: Unquoter, f: NewFile)
    requires Fitting(f)
    ensures Counters(LineReader(q), NO_HUNK, HeadLines(f)) == Ok(NO_HUNK)
  {
    TwoHeadsRead(q, f);
    IndexRead(q, f);
    CountersConcat(LineReader(q), NO_HUNK, [Header(f.path) + "\n", ModeLine(f) + "\n"], IndexLines(f));
  }

  lemma IndexRead(q: Unquoter, f: NewFile)
    requires Fitting(f)
    ensures Counters(LineReader(q), NO_HUNK, IndexLines(f)) == Ok(NO_HUNK)
  {
    if f.index != "" {
      IndexLineFacts(q, f, Block([], "", false, false, "", false));
      OneRead(q, NO_HUNK, IndexLine(f) + "\n", []);
      assert IndexLines(f) == [IndexLine(f) + "\n"] + [];
    }
  }

  lemma HunkHeadRead(q: Unquoter, f: NewFile)
    requires Fitting(f)
    ensures Counters(LineReader(q), NO_HUNK, HunkHead(f)) == Ok(Hunk(0, |Lines(f.content)|))
  {
    var b := Block([], "x", true, false, "", false);
    NullLineFacts(q, b);
    PathLineFacts(q, f, b);
    HunkLineFacts(q, f, b);
    var first, second, third := FROM_NULL + "\n", PathLine(f) + "\n", HunkLine(f) + "\n";
    OneRead(q, NO_HUNK, first, [second, third]);
    OneRead(q, NO_HUNK, second, [third]);
    OneRead(q, NO_HUNK, third, []);
    assert HunkHead(f) == [first] + [second, third] && [second, third] == [second] + [third];
    assert [third] + [] == [third];
  }

  lemma HunkIsComplete(q: Unquoter, heads: seq<Bytes>, f: NewFile)
    requires Fitting(f) && Complete(LineReader(q), heads)
    ensures Complete(LineReader(q), WithHunk(heads, f))
  {
    HunkHeadRead(q, f);
    BodyRead(q, f);
    CountersConcat(LineReader(q), NO_HUNK, heads, HunkHead(f));
    CountersConcat(LineReader(q), NO_HUNK, heads + HunkHead(f), BodyLines(f));
  }

  /** The validator finds nothing wrong with a printed file, and ends between hunks. */
  lemma PrintedIsComplete(q: Unquoter, f: NewFile)
    requires Fitting(f)
    ensures Complete(LineReader(q), PrintLines(f))
  {
    HeadLinesRead(q, f);
    HunkIsComplete(q, HeadLines(f), f);
  }
}
