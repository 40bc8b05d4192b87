/** The line-driven patch validator and its hunk counters. */
module PatchValidator {
  import opened Common
  import opened PatchText
  import opened PatchPaths

  datatype Error =
    | TooLarge
    | EmptyBodyLine
    | IncompleteHunk
    | ExceedsHunk
    | BadHunkHeader
    | BadHunkRange
    | BadHunkPosition
    | BadHunkCount
    | AmbiguousHeader
    | BadPath(problem: PathError)

  datatype Result<+T> = Ok(value: T) | Err(error: Error)

  /** Lines of the old and of the new file that the current hunk still has to show. */
  datatype Hunk = Hunk(before: nat, after: nat)

  const NO_HUNK: Hunk := Hunk(0, 0)

  predicate Open(h: Hunk) { h.before > 0 || h.after > 0 }

  // ---------------------------------------------------------------- hunk headers

  const HUNK_START: Bytes := "@@ "
  const NO_NEWLINE: Bytes := "\\ No newline at end of file"

  /** `-p` or `-p,n` (or with `+`): the number of lines, one if it is left out. */
  function ParseRange(field: Bytes, sign: char): Result<nat> {
    if |field| < 2 || field[0] != sign then Err(BadHunkRange)
    else
      var parts := SplitN(field[1..], ',', 3);
      if |parts| > 2 then Err(BadHunkRange)
      else if ParseCount(parts[0]).None? then Err(BadHunkPosition)
      else if |parts| == 1 then Ok(1)
      else if ParseCount(parts[1]).None? then Err(BadHunkCount)
      else Ok(ParseCount(parts[1]).value)
  }

  function ParseHunkHeader(line: Bytes): Result<Hunk> {
    var fields := SplitN(line, ' ', 5);
    if |fields| < 4 || fields[0] != "@@" || fields[3] != "@@" then Err(BadHunkHeader)
    else
      match ParseRange(fields[1], '-')
      case Err(e) => Err(e)
      case Ok(before) =>
        match ParseRange(fields[2], '+')
        case Err(e) => Err(e)
        case Ok(after) => Ok(Hunk(before, after))
  }

  /** As Git prints it: a count of one is left out. */
  function RangeText(sign: char, position: nat, count: nat): Bytes {
    if count == 1 then [sign] + Decimal(position) else [sign] + Decimal(position) + "," + Decimal(count)
  }

  lemma RangeInverts(sign: char, position: nat, count: nat)
    requires position <= MAX_COUNT && count <= MAX_COUNT
    ensures ParseRange(RangeText(sign, position, count), sign) == Ok(count)
  {
    var field := RangeText(sign, position, count);
    DecimalValue(position);
    DecimalValue(count);
    if count == 1 {
      assert field[1..] == Decimal(position);
      SplitNone(Decimal(position), ',', 3);
    } else {
      assert field[1..] == Decimal(position) + [','] + Decimal(count);
      SplitFirst(Decimal(position), Decimal(count), ',', 3);
      SplitNone(Decimal(count), ',', 2);
    }
  }

  function HunkText(oldPosition: nat, before: nat, newPosition: nat, after: nat, heading: Bytes): Bytes {
    var minus, plus := RangeText('-', oldPosition, before), RangeText('+', newPosition, after);
    "@@" + [' '] + (minus + [' '] + (plus + [' '] + ("@@" + heading)))
  }

  lemma FourFields(minus: Bytes, plus: Bytes, last: Bytes)
    requires ' ' !in minus && ' ' !in plus
    ensures var fields := SplitN("@@" + [' '] + (minus + [' '] + (plus + [' '] + last)), ' ', 5);
      |fields| >= 4 && fields[0] == "@@" && fields[1] == minus && fields[2] == plus
      && fields[3] == SplitN(last, ' ', 2)[0]
  {
    SplitFirst("@@", minus + [' '] + (plus + [' '] + last), ' ', 5);
    SplitFirst(minus, plus + [' '] + last, ' ', 4);
    SplitFirst(plus, last, ' ', 3);
  }

  lemma LastField(heading: Bytes)
    requires heading == "" || heading[0] == ' '
    ensures SplitN("@@" + heading, ' ', 2)[0] == "@@"
  {
    if heading == "" {
      assert "@@" + heading == "@@";
      SplitNone("@@", ' ', 2);
    } else {
      assert "@@" + heading == "@@" + [' '] + heading[1..];
      SplitFirst("@@", heading[1..], ' ', 2);
    }
  }

  lemma RangeHasNoSpace(sign: char, position: nat, count: nat)
    requires sign != ' '
    ensures ' ' !in RangeText(sign, position, count)
  {
  }

  /** A printed header, with any section heading, parses to its own counts. */
  lemma HunkHeaderInverts(oldPosition: nat, before: nat, newPosition: nat, after: nat, heading: Bytes)
    requires oldPosition < 0x8000_0000_0000_0000 && before < 0x8000_0000_0000_0000
    requires newPosition < 0x8000_0000_0000_0000 && after < 0x8000_0000_0000_0000
    requires heading == "" || heading[0] == ' '
    ensures ParseHunkHeader(HunkText(oldPosition, before, newPosition, after, heading)) == Ok(Hunk(before, after))
  {
    var minus, plus := RangeText('-', oldPosition, before), RangeText('+', newPosition, after);
    var last := "@@" + heading;
    RangeHasNoSpace('-', oldPosition, before);
    RangeHasNoSpace('+', newPosition, after);
    FourFields(minus, plus, last);
    LastField(heading);
    RangeInverts('-', oldPosition, before);
    RangeInverts('+', newPosition, after);
  }

  // ---------------------------------------------------------------- one line

  /** What a body line takes off the counters. */
  function Before(raw: Bytes): nat {
    if raw != "" && (raw[0] == ' ' || raw[0] == '-') then 1 else 0
  }

  function After(raw: Bytes): nat {
    if raw != "" && (raw[0] == ' ' || raw[0] == '+') then 1 else 0
  }

  function BodyLine(h: Hunk, raw: Bytes): (r: Result<Hunk>)
    requires Open(h)
  {
    if raw == NO_NEWLINE then Ok(h)
    else if raw == "" then Err(EmptyBodyLine)
    else if raw[0] !in " -+" then Err(IncompleteHunk)
    else if h.before < Before(raw) || h.after < After(raw) then Err(ExceedsHunk)
    else Ok(Hunk(h.before - Before(raw), h.after - After(raw)))
  }

  function PathsProblem(pairs: seq<Pair>): Option<PathError> {
    if pairs == [] then None
    else
      var left := PathProblem(Sanitize(pairs[0].left));
      if left.Some? then left
      else
        var right := PathProblem(Sanitize(pairs[0].right));
        if right.Some? then right else PathsProblem(pairs[1..])
  }

  function Checked(problem: Option<PathError>): Result<Hunk> {
    if problem.Some? then Err(BadPath(problem.value)) else Ok(NO_HUNK)
  }

  const RENAME_LINES: seq<Bytes> := ["rename from ", "rename to ", "copy from ", "copy to "]

  function RenamePrefix(raw: Bytes): Option<Bytes> {
    if HasPrefix(raw, RENAME_LINES[0]) then Some(RENAME_LINES[0])
    else if HasPrefix(raw, RENAME_LINES[1]) then Some(RENAME_LINES[1])
    else if HasPrefix(raw, RENAME_LINES[2]) then Some(RENAME_LINES[2])
    else if HasPrefix(raw, RENAME_LINES[3]) then Some(RENAME_LINES[3])
    else None
  }

  function HeadLine(q: Unquoter, raw: Bytes): Result<Hunk> {
    if HasPrefix(raw, HUNK_START) then ParseHunkHeader(raw)
    else if HasPrefix(raw, DIFF_GIT) then
      match HeaderPaths(q, raw)
      case None => Err(AmbiguousHeader)
      case Some(pairs) => Checked(PathsProblem(pairs))
    else if HasPrefix(raw, "+++ ") || HasPrefix(raw, "--- ") then
      Checked(PathProblem(FileLinePath(q, raw[4..])))
    else
      match RenamePrefix(raw)
      case None => Ok(NO_HUNK)
      case Some(prefix) => Checked(PathProblem(MaybeQuoted(q, TrimLine(raw[|prefix|..]))))
  }

  function Line(q: Unquoter, h: Hunk, line: Bytes): Result<Hunk> {
    if Open(h) then BodyLine(h, TrimLine(line)) else HeadLine(q, TrimLine(line))
  }

  // ---------------------------------------------------------------- the whole patch

  type Reader = (Hunk, Bytes) -> Result<Hunk>

  function Read(f: Reader, h: Hunk, line: Bytes): Result<Hunk> { f(h, line) }

  function LineReader(q: Unquoter): Reader {
    (h, line) => Line(q, h, line)
  }

  /** The counters after the lines. */
  function Counters(f: Reader, h: Hunk, lines: seq<Bytes>): Result<Hunk>
    decreases |lines|
  {
    if lines == [] then Ok(h)
    else
      match Read(f, h, lines[0])
      case Err(e) => Err(e)
      case Ok(next) => Counters(f, next, lines[1..])
  }

  /** Go on with more lines, unless there was an error. */
  function Onward(f: Reader, r: Result<Hunk>, lines: seq<Bytes>): Result<Hunk> {
    match r
    case Err(e) => Err(e)
    case Ok(h) => Counters(f, h, lines)
  }

  /** Lines that start between hunks and end between hunks. */
  predicate Complete(f: Reader, lines: seq<Bytes>) {
    Counters(f, NO_HUNK, lines) == Ok(NO_HUNK)
  }

  /** The patch is small enough and every line of it is in order. */
  predicate Accepted(q: Unquoter, text: Bytes) {
    |text| <= MAX_PATCH_BYTES && Complete(LineReader(q), Lines(text))
  }

  method CheckHeaderPaths(pairs: seq<Pair>) returns (e: Option<PathError>)
    ensures e == PathsProblem(pairs)
  {
    for i := 0 to |pairs|
      invariant PathsProblem(pairs) == PathsProblem(pairs[i..])
    {
      assert pairs[i..][1..] == pairs[i + 1..];
      e := CheckPath(Sanitize(pairs[i].left));
      if e.Some? {
        return e;
      }
      e := CheckPath(Sanitize(pairs[i].right));
      if e.Some? {
        return e;
      }
    }
    return None;
  }

  method ValidateLine(q: Unquoter, h: Hunk, line: Bytes) returns (r: Result<Hunk>)
    ensures r == Line(q, h, line)
  {
    var raw := TrimLine(line);
    var e: Option<PathError> := None;
    if Open(h) {
      return BodyLine(h, raw);
    }
    if HasPrefix(raw, HUNK_START) {
      return ParseHunkHeader(raw);
    }
    if HasPrefix(raw, DIFF_GIT) {
      var pairs := DiffHeaderPaths(q, raw);
      if pairs.None? {
        return Err(AmbiguousHeader);
      }
      e := CheckHeaderPaths(pairs.value);
      return Checked(e);
    }
    if HasPrefix(raw, "+++ ") || HasPrefix(raw, "--- ") {
      e := CheckPath(FileLinePath(q, raw[4..]));
      return Checked(e);
    }
    for i := 0 to 4
      invariant forall j :: 0 <= j < i ==> !HasPrefix(raw, RENAME_LINES[j])
    {
      if HasPrefix(raw, RENAME_LINES[i]) {
        e := CheckPath(MaybeQuoted(q, TrimLine(raw[|RENAME_LINES[i]|..])));
        return Checked(e);
      }
    }
    return Ok(NO_HUNK);
  }

  /** The text as far as a reader limited to one byte too many sees it. */
  function Limited(text: Bytes): Bytes {
    if |text| > MAX_PATCH_BYTES then text[..MAX_PATCH_BYTES + 1] else text
  }

  /** Reading on from `pos` with these counters is reading everything. */
  ghost predicate ReadTo(f: Reader, start: Hunk, input: Bytes, pos: nat, h: Hunk)
    requires pos <= |input|
  {
    (Counters(f, start, Lines(input)) == Counters(f, h, Lines(input[pos..]))) == true
  }

  lemma NextLine(f: Reader, start: Hunk, input: Bytes, pos: nat, h: Hunk, n: nat)
    requires pos < |input| && n == LineLength(input[pos..]) && ReadTo(f, start, input, pos, h)
    ensures pos + n <= |input|
    ensures var r := Read(f, h, input[pos..][..n]);
      if r.Err? then Counters(f, start, Lines(input)) == r else ReadTo(f, start, input, pos + n, r.value)
  {
  }

  lemma NothingLeft(f: Reader, start: Hunk, input: Bytes, h: Hunk)
    requires ReadTo(f, start, input, |input|, h)
    ensures Counters(f, start, Lines(input)) == Ok(h)
  {
  }

  /** Validate the line at `pos`, unless it goes beyond the limit. */
  method WalkLine(q: Unquoter, input: Bytes, pos: nat, h: Hunk, ghost f: Reader, ghost start: Hunk)
    returns (r: Result<Hunk>, next: nat)
    requires pos < |input| <= MAX_PATCH_BYTES + 1 && f == LineReader(q) && ReadTo(f, start, input, pos, h)
    ensures pos < next <= |input|
    ensures r.Err? && |input| <= MAX_PATCH_BYTES ==> Counters(f, start, Lines(input)) == r
    ensures r.Ok? ==> next <= MAX_PATCH_BYTES && ReadTo(f, start, input, next, r.value)
  {
    var n := LineLength(input[pos..]);
    NextLine(f, start, input, pos, h, n);
    next := pos + n;
    if next > MAX_PATCH_BYTES {
      return Err(TooLarge), next;
    }
    r := ValidateLine(q, h, input[pos..][..n]);
  }

  /** Validate the lines one by one, reading never more than one byte too many. */
  method WalkPatchLines(q: Unquoter, text: Bytes) returns (r: Result<Hunk>)
    ensures |text| > MAX_PATCH_BYTES ==> r.Err?
    ensures |text| <= MAX_PATCH_BYTES ==> r == Counters(LineReader(q), NO_HUNK, Lines(text))
  {
    var input, pos := Limited(text), 0;
    r := Ok(NO_HUNK);
    while pos < |input|
      invariant 0 <= pos <= |input| && pos <= MAX_PATCH_BYTES
      invariant r.Ok? && ReadTo(LineReader(q), NO_HUNK, input, pos, r.value)
    {
      r, pos := WalkLine(q, input, pos, r.value, LineReader(q), NO_HUNK);
      if r.Err? {
        return r;
      }
    }
    NothingLeft(LineReader(q), NO_HUNK, input, r.value);
  }

  function Verdict(f: Reader, text: Bytes): Option<Error> {
    match Counters(f, NO_HUNK, Lines(text))
    case Err(error) => Some(error)
    case Ok(h) => if Open(h) then Some(IncompleteHunk) else None
  }

  lemma VerdictNone(f: Reader, text: Bytes)
    ensures Verdict(f, text).None? <==> Complete(f, Lines(text))
  {
  }

  method ValidatePatch(q: Unquoter, text: Bytes) returns (e: Option<Error>)
    ensures e.None? <==> |text| <= 16 * 1024 * 1024 && Complete(LineReader(q), Lines(text))
    ensures |text| <= 16 * 1024 * 1024 ==> e == Verdict(LineReader(q), text)
  {
    VerdictNone(LineReader(q), text);
    var r := WalkPatchLines(q, text);
    match r
    case Err(error) => return Some(error);
    case Ok(h) => return if Open(h) then Some(IncompleteHunk) else None;
  }

  // ---------------------------------------------------------------- renames

  lemma {:induction false} NoneMeansLegal(pairs: seq<Pair>, p: Pair)
    requires PathsProblem(pairs).None? && p in pairs
    ensures PathProblem(Sanitize(p.left)).None? && PathProblem(Sanitize(p.right)).None?
  {
    if p != pairs[0] {
      NoneMeansLegal(pairs[1..], p);
    }
  }

  lemma BothLegal(pairs: seq<Pair>, left: Bytes, right: Bytes)
    requires PathsProblem(pairs).None? && Pair("a/" + left, "b/" + right) in pairs
    ensures PathProblem(left).None? && PathProblem(right).None?
  {
    NoneMeansLegal(pairs, Pair("a/" + left, "b/" + right));
    assert Sanitize("a/" + left) == left && Sanitize("b/" + right) == right;
  }

  lemma GitLine(q: Unquoter, raw: Bytes)
    requires HasPrefix(raw, DIFF_GIT)
    ensures HeadLine(q, raw) ==
      if HeaderPaths(q, raw).None? then Err(AmbiguousHeader) else Checked(PathsProblem(HeaderPaths(q, raw).value))
  {
    StartsWithD(raw);
  }

  lemma StartsWithD(raw: Bytes)
    requires HasPrefix(raw, DIFF_GIT)
    ensures !HasPrefix(raw, HUNK_START)
  {
    assert raw[0] == raw[..|DIFF_GIT|][0] == 'd';
  }

  /** A header that is accepted has two legal paths, unless the shortcut reads it as one path. */
  lemma HeaderChecksBoth(q: Unquoter, left: Bytes, right: Bytes)
    requires '\\' !in left && '\\' !in right
    requires left == right || !Symmetric(TwoPaths(left, right))
    ensures HeadLine(q, DIFF_GIT + TwoPaths(left, right)).Ok? ==>
      PathProblem(left).None? && PathProblem(right).None?
  {
    var raw := DIFF_GIT + TwoPaths(left, right);
    assert raw[..|DIFF_GIT|] == DIFF_GIT;
    GitLine(q, raw);
    CandidatesFound(q, left, right);
    if HeaderPaths(q, raw).Some? && PathsProblem(HeaderPaths(q, raw).value).None? {
      BothLegal(HeaderPaths(q, raw).value, left, right);
    }
  }

  lemma CandidatesFound(q: Unquoter, left: Bytes, right: Bytes)
    requires '\\' !in left && '\\' !in right
    requires left == right || !Symmetric(TwoPaths(left, right))
    ensures var r := HeaderPaths(q, DIFF_GIT + TwoPaths(left, right));
      r.Some? ==> Pair("a/" + left, "b/" + right) in r.value
  {
    PathsAmongCandidates(q, left, right);
    TrueSplit(q, left, right);
    HeaderCandidates(q, TwoPaths(left, right));
  }

  // ---------------------------------------------------------------- composition

  lemma {:induction false} CountersConcat(f: Reader, h: Hunk, a: seq<Bytes>, b: seq<Bytes>)
    ensures Counters(f, h, a + b) == Onward(f, Counters(f, h, a), b)
    decreases |a|
  {
    if a == [] {
      assert a + b == b;
    } else {
      assert (a + b)[1..] == a[1..] + b;
      var r := Read(f, h, a[0]);
      if r.Ok? {
        CountersConcat(f, r.value, a[1..], b);
      }
    }
  }

  /** Patches can be put one after the other, and taken apart between hunks. */
  lemma CompleteConcat(f: Reader, a: seq<Bytes>, b: seq<Bytes>)
    requires Complete(f, a)
    ensures Complete(f, a + b) <==> Complete(f, b)
  {
    CountersConcat(f, NO_HUNK, a, b);
  }

  /** The counters just before line `i`. */
  function StateAt(f: Reader, lines: seq<Bytes>, i: nat): Result<Hunk>
    requires i <= |lines|
  {
    Counters(f, NO_HUNK, lines[..i])
  }

  lemma StateExists(f: Reader, lines: seq<Bytes>, i: nat)
    requires i <= |lines| && Counters(f, NO_HUNK, lines).Ok?
    ensures StateAt(f, lines, i).Ok?
    ensures Counters(f, StateAt(f, lines, i).value, lines[i..]) == Counters(f, NO_HUNK, lines)
    ensures i < |lines| ==> StateAt(f, lines, i + 1) == Read(f, StateAt(f, lines, i).value, lines[i])
    ensures i < |lines| ==> StateAt(f, lines, i + 1).Ok?
  {
    assert lines == lines[..i] + lines[i..];
    CountersConcat(f, NO_HUNK, lines[..i], lines[i..]);
    if i < |lines| {
      assert lines[..i + 1] == lines[..i] + [lines[i]];
      var h := StateAt(f, lines, i).value;
      assert Counters(f, h, [lines[i]]) == Read(f, h, lines[i]);
      CountersConcat(f, NO_HUNK, lines[..i], [lines[i]]);
    }
  }

  lemma StatesCompose(f: Reader, lines: seq<Bytes>, i: nat, j: nat)
    requires i <= j <= |lines| && StateAt(f, lines, i).Ok?
    ensures StateAt(f, lines, j) == Counters(f, StateAt(f, lines, i).value, lines[i..j])
  {
    assert lines[..j] == lines[..i] + lines[i..j];
    CountersConcat(f, NO_HUNK, lines[..i], lines[i..j]);
  }

  /** Line `i` belongs to the body of a hunk. */
  predicate InBody(f: Reader, lines: seq<Bytes>, i: nat)
    requires i < |lines|
  {
    StateAt(f, lines, i).Ok? && Open(StateAt(f, lines, i).value)
  }

  // ---------------------------------------------------------------- what acceptance means

  function Olds(lines: seq<Bytes>): nat {
    if lines == [] then 0
    else Olds(lines[1..]) + if TrimLine(lines[0]) == NO_NEWLINE then 0 else Before(TrimLine(lines[0]))
  }

  function News(lines: seq<Bytes>): nat {
    if lines == [] then 0
    else News(lines[1..]) + if TrimLine(lines[0]) == NO_NEWLINE then 0 else After(TrimLine(lines[0]))
  }

  /** How a reader treats hunks, whatever else it looks at. */
  ghost predicate ReadsHunks(f: Reader) {
    && (forall h: Hunk, line: Bytes :: Open(h) ==> Read(f, h, line) == BodyLine(h, TrimLine(line)))
    && (forall line: Bytes :: HasPrefix(TrimLine(line), HUNK_START) ==>
          Read(f, NO_HUNK, line) == ParseHunkHeader(TrimLine(line)))
  }

  lemma LineReaderReadsHunks(q: Unquoter)
    ensures ReadsHunks(LineReader(q))
  {
  }

  lemma {:induction false} BodyEnds(f: Reader, h: Hunk, lines: seq<Bytes>) returns (n: nat)
    requires ReadsHunks(f) && Counters(f, h, lines) == Ok(NO_HUNK)
    ensures n <= |lines| && Olds(lines[..n]) == h.before && News(lines[..n]) == h.after
    ensures Counters(f, h, lines[..n]) == Ok(NO_HUNK)
    decreases |lines|
  {
    n := 0;
    if Open(h) {
      var next := Read(f, h, lines[0]).value;
      var m := BodyEnds(f, next, lines[1..]);
      n := m + 1;
      assert lines[..n][1..] == lines[1..][..m];
    }
  }

  /** After a line that sets the counters, exactly so many lines follow before they are used up. */
  lemma HunkEnds(f: Reader, lines: seq<Bytes>, i: nat) returns (end: nat)
    requires ReadsHunks(f) && Complete(f, lines) && i <= |lines| && StateAt(f, lines, i).Ok?
    ensures i <= end <= |lines| && StateAt(f, lines, end) == Ok(NO_HUNK)
    ensures StateAt(f, lines, i) == Ok(Hunk(Olds(lines[i..end]), News(lines[i..end])))
  {
    StateExists(f, lines, i);
    var n := BodyEnds(f, StateAt(f, lines, i).value, lines[i..]);
    end := i + n;
    assert lines[i..][..n] == lines[i..end];
    StatesCompose(f, lines, i, end);
  }

  lemma HunkStarts(f: Reader, lines: seq<Bytes>, i: nat)
    requires ReadsHunks(f) && Complete(f, lines) && i < |lines| && !InBody(f, lines, i)
    requires HasPrefix(TrimLine(lines[i]), HUNK_START)
    ensures StateAt(f, lines, i + 1).Ok? && StateAt(f, lines, i + 1) == ParseHunkHeader(TrimLine(lines[i]))
  {
    StateExists(f, lines, i);
    assert StateAt(f, lines, i).value == NO_HUNK;
    assert Read(f, NO_HUNK, lines[i]) == ParseHunkHeader(TrimLine(lines[i]));
  }

  /** Line `i`, between hunks, is a hunk header. */
  predicate StartsHunk(f: Reader, lines: seq<Bytes>, i: nat) {
    i < |lines| && !InBody(f, lines, i) && HasPrefix(TrimLine(lines[i]), HUNK_START)
  }

  /** In an accepted patch every hunk shows exactly the lines its header declares. */
  lemma HunksAreExact(q: Unquoter, text: Bytes, i: nat) returns (end: nat)
    ensures Accepted(q, text) && StartsHunk(LineReader(q), Lines(text), i) ==>
      && i < end <= |Lines(text)| && StateAt(LineReader(q), Lines(text), end) == Ok(NO_HUNK)
      && var body := Lines(text)[i + 1..end];
         ParseHunkHeader(TrimLine(Lines(text)[i])) == Ok(Hunk(Olds(body), News(body)))
  {
    var f := LineReader(q);
    end := 0;
    if !Accepted(q, text) || !StartsHunk(f, Lines(text), i) { return; }
    LineReaderReadsHunks(q);
    HunkStarts(f, Lines(text), i);
    end := HunkEnds(f, Lines(text), i + 1);
  }

  /**
   A body line is in order exactly when it is the note or its marker has a line left to stand for, and
   what it stands for is taken off.
   */
  lemma BodyLineExactly(q: Unquoter, h: Hunk, line: Bytes)
    requires Open(h)
    ensures var raw := TrimLine(line); var r := Line(q, h, line);
      if raw == "\\ No newline at end of file" then r == Ok(h)
      else if HasPrefix(raw, " ") && h.before > 0 && h.after > 0 then r == Ok(Hunk(h.before - 1, h.after - 1))
      else if HasPrefix(raw, "-") && h.before > 0 then r == Ok(Hunk(h.before - 1, h.after))
      else if HasPrefix(raw, "+") && h.after > 0 then r == Ok(Hunk(h.before, h.after - 1))
      else r.Err?
  {
    var raw := TrimLine(line);
    assert raw != "" ==> raw[..1] == [raw[0]];
  }

  /** A printed hunk header outside a hunk opens one with the counts it shows. */
  lemma PrintedHunkOpens(q: Unquoter, line: Bytes, oldPosition: nat, before: nat, newPosition: nat, after: nat,
                         heading: Bytes)
    requires oldPosition < 0x8000_0000_0000_0000 && before < 0x8000_0000_0000_0000
    requires newPosition < 0x8000_0000_0000_0000 && after < 0x8000_0000_0000_0000
    requires heading == "" || heading[0] == ' '
    requires TrimLine(line) == HunkText(oldPosition, before, newPosition, after, heading)
    ensures Line(q, NO_HUNK, line) == Ok(Hunk(before, after))
  {
    var raw := TrimLine(line);
    HunkHeaderInverts(oldPosition, before, newPosition, after, heading);
    assert raw[..3] == "@@ ";
  }

  /** A line that may stand in a body: marked, or the note that there is no newline. */
  predicate Marked(line: Bytes) {
    TrimLine(line) == NO_NEWLINE || (TrimLine(line) != "" && TrimLine(line)[0] in " -+")
  }

  /** A line whose first character begins none that the validator looks at. */
  lemma OtherIsHead(q: Unquoter, raw: Bytes)
    requires raw != "" && raw[0] !in "@d+-rc"
    ensures HeadLine(q, raw) == Ok(NO_HUNK)
  {
    NotPrefix(raw, HUNK_START, 0);
    NotPrefix(raw, DIFF_GIT, 0);
    NotPrefix(raw, "+++ ", 0);
    NotPrefix(raw, "--- ", 0);
    NoRename(raw);
  }

  lemma NoRename(raw: Bytes)
    requires raw != "" && raw[0] !in "rc"
    ensures RenamePrefix(raw).None?
  {
    NotPrefix(raw, RENAME_LINES[0], 0);
    NotPrefix(raw, RENAME_LINES[1], 0);
    NotPrefix(raw, RENAME_LINES[2], 0);
    NotPrefix(raw, RENAME_LINES[3], 0);
  }

  lemma {:induction false} BodyIsRead(q: Unquoter, h: Hunk, lines: seq<Bytes>)
    requires forall i :: 0 <= i < |lines| ==> Marked(lines[i])
    requires Olds(lines) == h.before && News(lines) == h.after
    ensures Counters(LineReader(q), h, lines) == Ok(NO_HUNK)
    decreases |lines|
  {
    if lines != [] {
      var raw := TrimLine(lines[0]);
      assert Marked(lines[0]);
      if !Open(h) { OtherIsHead(q, raw); }
      assert Read(LineReader(q), h, lines[0]) == Line(q, h, lines[0]);
      BodyIsRead(q, Line(q, h, lines[0]).value, lines[1..]);
    }
  }

  lemma HeaderFirst(f: Reader, header: Bytes, body: seq<Bytes>)
    requires ReadsHunks(f) && HasPrefix(TrimLine(header), HUNK_START)
    ensures Counters(f, NO_HUNK, [header] + body) == Onward(f, ParseHunkHeader(TrimLine(header)), body)
  {
    assert Read(f, NO_HUNK, header) == ParseHunkHeader(TrimLine(header));
  }

  /** Conversely, a header followed by exactly the lines it declares is accepted. */
  lemma ExactHunksAreAccepted(q: Unquoter, header: Bytes, body: seq<Bytes>)
    requires HasPrefix(TrimLine(header), HUNK_START)
    requires ParseHunkHeader(TrimLine(header)) == Ok(Hunk(Olds(body), News(body)))
    requires forall i :: 0 <= i < |body| ==> Marked(body[i])
    ensures Complete(LineReader(q), [header] + body)
  {
    BodyIsRead(q, Hunk(Olds(body), News(body)), body);
    LineReaderReadsHunks(q);
    HeaderFirst(LineReader(q), header, body);
  }

  /** Same marker, and anything but a line break after it. */
  predicate SameMarker(line: Bytes, other: Bytes) {
    && IsLine(line) && IsLine(other) && |line| == |other| && (Ended(line) <==> Ended(other))
    && line[0] == other[0] && line[0] in " -+"
  }

  lemma SameMarkerSameLine(h: Hunk, line: Bytes, other: Bytes)
    requires Open(h) && SameMarker(line, other)
    ensures BodyLine(h, TrimLine(line)) == BodyLine(h, TrimLine(other))
  {
    assert TrimLine(line)[0] == line[0] && TrimLine(other)[0] == other[0];
  }

  lemma OneLine(f: Reader, h: Hunk, line: Bytes, rest: seq<Bytes>)
    requires ReadsHunks(f) && Open(h)
    ensures Counters(f, h, [line] + rest) == Onward(f, BodyLine(h, TrimLine(line)), rest)
  {
  }

  lemma SameMarkerSameCounters(f: Reader, lines: seq<Bytes>, i: nat, other: Bytes)
    requires ReadsHunks(f) && i < |lines| && InBody(f, lines, i) && SameMarker(lines[i], other)
    ensures Counters(f, NO_HUNK, lines[i := other]) == Counters(f, NO_HUNK, lines)
  {
    var h, before, rest := StateAt(f, lines, i).value, lines[..i], lines[i + 1..];
    SameMarkerSameLine(h, lines[i], other);
    OneLine(f, h, lines[i], rest);
    OneLine(f, h, other, rest);
    ThreeParts(lines, i, other);
    CountersConcat(f, NO_HUNK, before, [lines[i]] + rest);
    CountersConcat(f, NO_HUNK, before, [other] + rest);
  }

  lemma ThreeParts(lines: seq<Bytes>, i: nat, other: Bytes)
    requires i < |lines|
    ensures lines == lines[..i] + ([lines[i]] + lines[i + 1..])
    ensures lines[i := other] == lines[..i] + ([other] + lines[i + 1..])
  {
  }

  lemma {:induction false} JoinLength(lines: seq<Bytes>, i: nat, other: Bytes)
    requires i < |lines| && |other| == |lines[i]|
    ensures |Join(lines[i := other])| == |Join(lines)|
  {
    if i > 0 {
      assert lines[i := other][1..] == lines[1..][i - 1 := other];
      JoinLength(lines[1..], i - 1, other);
    } else {
      assert lines[i := other][1..] == lines[1..];
    }
  }

  /** The validator reads a hunk body only by its markers: what they mark is free. */
  lemma BodiesByMarker(q: Unquoter, text: Bytes, i: nat, other: Bytes)
    ensures i < |Lines(text)| && InBody(LineReader(q), Lines(text), i) && SameMarker(Lines(text)[i], other) ==>
      (Accepted(q, Join(Lines(text)[i := other])) <==> Accepted(q, text))
  {
    var lines := Lines(text);
    if i >= |lines| || !InBody(LineReader(q), lines, i) || !SameMarker(lines[i], other) { return; }
    LinesTidy(text);
    assert Tidy(lines[i := other]);
    LinesOfJoin(lines[i := other]);
    JoinLength(lines, i, other);
    LineReaderReadsHunks(q);
    SameMarkerSameCounters(LineReader(q), lines, i, other);
  }
}
