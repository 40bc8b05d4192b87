/** Splitting a patch into per-file blocks, and whether a block creates a file that is already there. */
module PatchBlocks {
  import opened Common
  import opened PatchText
  import opened PatchPaths
  import opened PatchValidator

  // ---------------------------------------------------------------- blocks

  datatype Block = Block(
    lines: seq<Bytes>, path: Bytes, isNew: bool, isBinary: bool, mode: Bytes, inBody: bool)

  predicate StartsBlock(line: Bytes) {
    HasPrefix(TrimLine(line), DIFF_GIT) || TrimLine(line) == "diff --git"
  }

  /** The path of the first pair that names the same file twice. */
  function AgreedPath(pairs: seq<Pair>): Bytes {
    if pairs == [] then ""
    else if Sanitize(pairs[0].left) == Sanitize(pairs[0].right) then Sanitize(pairs[0].right)
    else AgreedPath(pairs[1..])
  }

  function HeaderPath(q: Unquoter, raw: Bytes): Bytes {
    match HeaderPaths(q, raw)
    case None => ""
    case Some(pairs) => AgreedPath(pairs)
  }

  function BeginBlock(q: Unquoter, line: Bytes): Block {
    Block([line], HeaderPath(q, TrimLine(line)), false, false, "", false)
  }

  predicate IsSpace(c: char) {
    c in " \t\n\r" || c == 11 as char || c == 12 as char
  }

  function TrimSpace(s: Bytes): Bytes { Trim(s, IsSpace) }

  const NEW_MODE: Bytes := "new file mode "
  const FROM_NULL: Bytes := "--- /dev/null"

  predicate StartsBinary(raw: Bytes) {
    HasPrefix(raw, "GIT binary patch") || HasPrefix(raw, "Binary files ")
  }

  function AppendLine(q: Unquoter, b: Block, line: Bytes): Block {
    var raw := TrimLine(line);
    var grown := b.(lines := b.lines + [line]);
    if b.inBody then grown
    else if HasPrefix(raw, HUNK_START) then grown.(inBody := true)
    else
      grown.(
        isNew := b.isNew || HasPrefix(raw, NEW_MODE) || HasPrefix(raw, FROM_NULL),
        mode := if HasPrefix(raw, NEW_MODE) then TrimSpace(raw[|NEW_MODE|..]) else b.mode,
        isBinary := b.isBinary || StartsBinary(raw),
        inBody := StartsBinary(raw),
        path := if HasPrefix(raw, "+++ ") && b.path == "" then FileLinePath(q, raw[4..]) else b.path)
  }

  /** The block made of a header line and what follows it. */
  function BlockOf(q: Unquoter, lines: seq<Bytes>): (b: Block)
    requires lines != []
    ensures b.lines == lines
  {
    assert |lines| > 1 ==> lines == lines[..|lines| - 1] + [lines[|lines| - 1]];
    if |lines| == 1 then BeginBlock(q, lines[0])
    else AppendLine(q, BlockOf(q, lines[..|lines| - 1]), lines[|lines| - 1])
  }

  /** One more line for the last group. */
  function Grown(groups: seq<seq<Bytes>>, line: Bytes): seq<seq<Bytes>>
    requires groups != []
  {
    groups[..|groups| - 1] + [groups[|groups| - 1] + [line]]
  }

  /** The lines grouped by header; what comes before the first header belongs to no group. */
  function Groups(lines: seq<Bytes>): (groups: seq<seq<Bytes>>)
    ensures forall i :: 0 <= i < |groups| ==> groups[i] != []
  {
    if lines == [] then []
    else
      var earlier, line := Groups(lines[..|lines| - 1]), lines[|lines| - 1];
      if StartsBlock(line) then earlier + [[line]]
      else if earlier == [] then []
      else Grown(earlier, line)
  }

  function Flatten(groups: seq<seq<Bytes>>): seq<Bytes> {
    if groups == [] then [] else Flatten(groups[..|groups| - 1]) + groups[|groups| - 1]
  }

  /** Position of the first header. */
  function FirstHeader(lines: seq<Bytes>): (n: nat)
    ensures n <= |lines|
  {
    if lines == [] || StartsBlock(lines[0]) then 0 else 1 + FirstHeader(lines[1..])
  }

  predicate IsGroup(group: seq<Bytes>) {
    group != [] && StartsBlock(group[0]) && forall i :: 1 <= i < |group| ==> !StartsBlock(group[i])
  }

  lemma {:induction false} FirstHeaderSnoc(lines: seq<Bytes>, line: Bytes)
    ensures FirstHeader(lines + [line]) ==
      if FirstHeader(lines) < |lines| || StartsBlock(line) then FirstHeader(lines) else |lines| + 1
  {
    if lines == [] {
      assert [line][1..] == [];
    } else {
      assert (lines + [line])[1..] == lines[1..] + [line];
      FirstHeaderSnoc(lines[1..], line);
    }
  }

  /** Every group starts with its only header, and together they are the input from the first header. */
  lemma {:induction false} GroupsCover(lines: seq<Bytes>)
    ensures Covers(Groups(lines), lines, FirstHeader(lines))
  {
    if lines != [] {
      var init, line := lines[..|lines| - 1], lines[|lines| - 1];
      assert lines == init + [line];
      GroupsCover(init);
      GroupsStep(init, line);
    }
  }

  ghost predicate Covers(groups: seq<seq<Bytes>>, lines: seq<Bytes>, n: nat) {
    n <= |lines| && AllGroups(groups) && Flatten(groups) == lines[n..]
  }

  lemma CoversNew(groups: seq<seq<Bytes>>, lines: seq<Bytes>, n: nat, line: Bytes)
    requires Covers(groups, lines, n) && StartsBlock(line)
    ensures Covers(groups + [[line]], lines + [line], n)
  {
  }

  lemma CoversGrown(groups: seq<seq<Bytes>>, lines: seq<Bytes>, n: nat, line: Bytes)
    requires Covers(groups, lines, n) && groups != [] && !StartsBlock(line)
    ensures n < |lines| && Covers(Grown(groups, line), lines + [line], n)
  {
    FlattenSome(groups);
    GrowLast(groups, line);
    FlattenGrown(groups, line);
    assert (lines + [line])[n..] == lines[n..] + [line];
  }

  lemma GroupsStep(init: seq<Bytes>, line: Bytes)
    requires Covers(Groups(init), init, FirstHeader(init))
    ensures Covers(Groups(init + [line]), init + [line], FirstHeader(init + [line]))
  {
    var n := FirstHeader(init);
    FirstHeaderSnoc(init, line);
    GroupsSnoc(init, line);
    if StartsBlock(line) {
      CoversNew(Groups(init), init, n, line);
    } else if Groups(init) == [] {
      assert n == |init|;
    } else {
      CoversGrown(Groups(init), init, n, line);
    }
  }

  lemma FlattenSome(groups: seq<seq<Bytes>>)
    requires groups != [] && AllGroups(groups)
    ensures Flatten(groups) != []
  {
  }

  lemma GroupsSnoc(init: seq<Bytes>, line: Bytes)
    ensures var earlier := Groups(init);
      Groups(init + [line]) ==
        if StartsBlock(line) then earlier + [[line]] else if earlier == [] then [] else Grown(earlier, line)
  {
  }

  lemma FlattenSnoc(groups: seq<seq<Bytes>>, group: seq<Bytes>)
    ensures Flatten(groups + [group]) == Flatten(groups) + group
  {
  }

  lemma GroupGrows(group: seq<Bytes>, line: Bytes)
    requires IsGroup(group) && !StartsBlock(line)
    ensures IsGroup(group + [line])
  {
  }

  lemma FlattenGrown(groups: seq<seq<Bytes>>, line: Bytes)
    requires groups != []
    ensures Flatten(Grown(groups, line)) == Flatten(groups) + [line]
  {
  }

  ghost predicate AllGroups(groups: seq<seq<Bytes>>) {
    forall i :: 0 <= i < |groups| ==> IsGroup(groups[i])
  }

  lemma GrowLast(groups: seq<seq<Bytes>>, line: Bytes)
    requires groups != [] && !StartsBlock(line) && AllGroups(groups)
    ensures AllGroups(Grown(groups, line))
  {
  }

  // ---------------------------------------------------------------- the skip test

  datatype Node = File(content: Bytes, exec: bool) | Special

  /** Working-tree entries by path. */
  type Tree = map<Bytes, Node>

  /** The executable bit of a mode Git gives to regular files; None for any other mode. */
  function ModeExec(mode: Bytes): Option<bool> {
    var digits := TrimSpace(mode);
    if digits == "" || exists i :: 0 <= i < |digits| && !IsOctal(digits[i]) then None
    else if OctalValue(digits) == 0x81A4 then Some(false)
    else if OctalValue(digits) == 0x81ED then Some(true)
    else None
  }

  /** The part a line of a block plays in a creation. */
  datatype Kind =
    | Heading(count: Option<nat>)    // of a hunk; None if it is malformed or shows old lines
    | Marker                        // no newline at the end of the file
    | Blank
    | Plus
    | Other

  function CreationCount(raw: Bytes): Option<nat> {
    match ParseHunkHeader(raw)
    case Err(_) => None
    case Ok(h) => if h.before != 0 then None else Some(h.after)
  }

  function KindOf(line: Bytes): Kind {
    var raw := TrimLine(line);
    if HasPrefix(raw, HUNK_START) then Heading(CreationCount(raw))
    else if raw == NO_NEWLINE then Marker
    else if raw == "" then Blank
    else if line[0] == '+' then Plus
    else Other
  }

  function Kinds(lines: seq<Bytes>): (kinds: seq<Kind>)
    ensures |kinds| == |lines|
    ensures forall i :: 0 <= i < |lines| ==> kinds[i] == KindOf(lines[i])
  {
    if lines == [] then [] else [KindOf(lines[0])] + Kinds(lines[1..])
  }

  /** One of the first `i` lines is a hunk header. */
  predicate HunkBefore(kinds: seq<Kind>, i: nat)
    requires i <= |kinds|
  {
    i > 0 && (kinds[i - 1].Heading? || HunkBefore(kinds, i - 1))
  }

  function NextExpected(n: nat, inHunk: bool, kind: Kind): Option<nat> {
    match kind
    case Heading(count) => if n != 0 then None else count
    case Marker => Some(n)
    case Blank => if inHunk && n != 0 then None else Some(n)
    case Plus => if !inHunk then Some(n) else if n == 0 then None else Some(n - 1)
    case Other => if inHunk then None else Some(n)
  }

  /** Added lines still expected by the current hunk of a creation; None once it is malformed. */
  function Expected(kinds: seq<Kind>, i: nat): Option<nat>
    requires i <= |kinds|
  {
    if i == 0 then Some(0)
    else if Expected(kinds, i - 1).None? then None
    else NextExpected(Expected(kinds, i - 1).value, HunkBefore(kinds, i - 1), kinds[i - 1])
  }

  /** Nothing but hunks that only add lines, each with as many as it declares. */
  predicate IsCreation(lines: seq<Bytes>) {
    Expected(Kinds(lines), |lines|) == Some(0)
  }

  function DropNewline(s: Bytes): Bytes {
    if s != "" && s[|s| - 1] == '\n' then s[..|s| - 1] else s
  }

  /** What an added line contributes to the file: a CR stays, the LF goes before the marker. */
  function AddedText(lines: seq<Bytes>, kinds: seq<Kind>, i: nat): Bytes
    requires i < |lines| == |kinds| && lines[i] != ""
  {
    if i + 1 < |lines| && kinds[i + 1].Marker? then DropNewline(lines[i][1..]) else lines[i][1..]
  }

  /** The content the first `i` lines add. */
  function ContentTo(lines: seq<Bytes>, kinds: seq<Kind>, i: nat): Bytes
    requires i <= |lines| == |kinds|
  {
    if i == 0 then ""
    else
      ContentTo(lines, kinds, i - 1)
      + if HunkBefore(kinds, i - 1) && kinds[i - 1].Plus? && lines[i - 1] != ""
        then AddedText(lines, kinds, i - 1) else ""
  }

  function Content(lines: seq<Bytes>): Bytes {
    ContentTo(lines, Kinds(lines), |lines|)
  }

  function Lookup(tree: Tree, path: Bytes): Option<Node> {
    if path in tree then Some(tree[path]) else None
  }

  /** The simple test: a text creation with a legal path whose file is already there. */
  predicate SkipsOver(there: Option<Node>, b: Block) {
    && b.isNew && !b.isBinary && b.path != "" && there.Some? && there.value.File?
    && (b.mode != "" ==> ModeExec(b.mode) == Some(there.value.exec))
    && PathProblem(b.path).None?
    && IsCreation(b.lines) && there.value.content == Content(b.lines)
  }

  predicate Skips(tree: Tree, b: Block) {
    SkipsOver(Lookup(tree, b.path), b)
  }

  /** How the second pass recognises lines, without trimming them. */
  lemma KindByPrefix(line: Bytes)
    ensures KindOf(line).Heading? <==> HasPrefix(line, HUNK_START)
    ensures KindOf(line).Plus? <==> line != "" && line[0] == '+'
  {
    TrimKeepsPrefix(line, HUNK_START);
    TrimKeepsPrefix(line, NO_NEWLINE);
    if HasPrefix(line, HUNK_START) {
      assert line[0] == line[..3][0];
    }
    if TrimLine(line) == NO_NEWLINE {
      assert HasPrefix(TrimLine(line), NO_NEWLINE);
      assert line[0] == line[..|NO_NEWLINE|][0];
    }
  }

  /** Kinds by which both passes recognise the lines they belong to. */
  ghost predicate Fits(lines: seq<Bytes>, kinds: seq<Kind>) {
    && |kinds| == |lines|
    && forall i :: 0 <= i < |lines| ==>
         && (kinds[i].Heading? <==> HasPrefix(lines[i], HUNK_START))
         && (kinds[i].Plus? <==> lines[i] != "" && lines[i][0] == '+')
  }

  lemma KindsFit(lines: seq<Bytes>)
    ensures Fits(lines, Kinds(lines))
  {
    forall i | 0 <= i < |lines|
      ensures Kinds(lines)[i].Heading? <==> HasPrefix(lines[i], HUNK_START)
      ensures Kinds(lines)[i].Plus? <==> lines[i] != "" && lines[i][0] == '+'
    {
      KindByPrefix(lines[i]);
    }
  }

  method AddedContent(lines: seq<Bytes>, kinds: seq<Kind>, i: nat) returns (content: Bytes)
    requires i < |lines| == |kinds| && lines[i] != ""
    ensures content == AddedText(lines, kinds, i)
  {
    content := lines[i][1..];
    if i + 1 < |lines| && kinds[i + 1].Marker? {
      content := DropNewline(content);
    }
  }

  /** The first pass: the size of the content, if the block is a creation at all. */
  method ExpectedSize(lines: seq<Bytes>, kinds: seq<Kind>) returns (size: Option<nat>)
    requires Fits(lines, kinds)
    ensures size.Some? <==> Expected(kinds, |kinds|) == Some(0)
    ensures size.Some? ==> size.value == |ContentTo(lines, kinds, |lines|)|
  {
    var total: nat, remaining: nat, inHunk := 0, 0, false;
    for i := 0 to |lines|
      invariant inHunk == HunkBefore(kinds, i)
      invariant Expected(kinds, i) == Some(remaining)
      invariant total == |ContentTo(lines, kinds, i)|
      invariant !inHunk ==> remaining == 0
    {
      var kind := kinds[i];
      if kind.Heading? {
        if remaining != 0 || kind.count.None? {
          NeverAgain(kinds, i + 1);
          return None;
        }
        remaining := kind.count.value;
        inHunk := true;
        continue;
      }
      if !inHunk || kind.Marker? {
        continue;
      }
      if remaining == 0 {
        if !kind.Blank? {
          NeverAgain(kinds, i + 1);
          return None;
        }
        continue;
      }
      if !kind.Plus? {
        NeverAgain(kinds, i + 1);
        return None;
      }
      var content := AddedContent(lines, kinds, i);
      total := total + |content|;
      remaining := remaining - 1;
    }
    return if remaining == 0 then Some(total) else None;
  }

  lemma {:induction false} NeverAgain(kinds: seq<Kind>, i: nat)
    requires i <= |kinds| && Expected(kinds, i).None?
    ensures Expected(kinds, |kinds|).None?
    decreases |kinds| - i
  {
    if i < |kinds| {
      NeverAgain(kinds, i + 1);
    }
  }

  const CHUNK_SIZE: nat := 32 * 1024

  lemma ChunkMatches(file: Bytes, offset: nat, content: Bytes, done: nat, n: nat)
    requires offset <= |file| && done + n <= |content| && HasPrefix(file[offset..], content)
    ensures offset + done + n <= |file| && file[offset + done..offset + done + n] == content[done..][..n]
  {
    var there := file[offset..][..|content|];
    var part, chunk := file[offset + done..offset + done + n], content[done..][..n];
    forall j | 0 <= j < n ensures part[j] == chunk[j] {
      assert chunk[j] == content[done + j] && there[done + j] == file[offset + (done + j)];
    }
  }

  /** Read `content` from `file` at `offset` in chunks; false as soon as a chunk differs or is short. */
  method MatchChunks(file: Bytes, offset: nat, content: Bytes) returns (ok: bool, next: nat)
    requires offset <= |file|
    ensures ok <==> HasPrefix(file[offset..], content)
    ensures ok ==> next == offset + |content|
  {
    next := offset;
    var rest := content;
    while |rest| > 0
      invariant offset <= next <= |file| && |rest| <= |content|
      invariant next == offset + |content| - |rest|
      invariant rest == content[|content| - |rest|..]
      invariant file[offset..next] == content[..|content| - |rest|]
    {
      var n := if |rest| < CHUNK_SIZE then |rest| else CHUNK_SIZE;
      ghost var done := |content| - |rest|;
      if next + n > |file| || file[next..next + n] != rest[..n] {
        if HasPrefix(file[offset..], content) {
          ChunkMatches(file, offset, content, done, n);
        }
        return false, next;
      }
      assert file[offset..next + n] == file[offset..next] + file[next..next + n];
      assert content[..done + n] == content[..done] + content[done..done + n];
      next := next + n;
      rest := rest[n..];
    }
    assert file[offset..][..|content|] == file[offset..next];
    return true, next;
  }

  lemma PrefixGrows(file: Bytes, offset: nat, content: Bytes)
    requires offset <= |file|
    ensures HasPrefix(file[offset..], content) <==> HasPrefix(file, file[..offset] + content)
    ensures HasPrefix(file[offset..], content) ==> file[..offset + |content|] == file[..offset] + content
  {
  }

  /** The second pass: does the file hold exactly the content? */
  method SameContent(lines: seq<Bytes>, kinds: seq<Kind>, file: Bytes) returns (same: bool)
    requires Fits(lines, kinds)
    ensures same <==> file == ContentTo(lines, kinds, |lines|)
  {
    var offset: nat, inHunk := 0, false;
    for i := 0 to |lines|
      invariant inHunk == HunkBefore(kinds, i)
      invariant offset <= |file| && file[..offset] == ContentTo(lines, kinds, i)
    {
      var line := lines[i];
      if HasPrefix(line, HUNK_START) {
        inHunk := true;
        continue;
      }
      if !inHunk || line == "" || line[0] != '+' {
        continue;
      }
      var content := AddedContent(lines, kinds, i);
      var ok, next := MatchChunks(file, offset, content);
      PrefixGrows(file, offset, content);
      if !ok {
        ContentGrows(lines, kinds, i + 1);
        return false;
      }
      offset := next;
    }
    return offset == |file|;
  }

  lemma {:induction false} ContentGrows(lines: seq<Bytes>, kinds: seq<Kind>, i: nat)
    requires i <= |lines| == |kinds|
    ensures HasPrefix(ContentTo(lines, kinds, |lines|), ContentTo(lines, kinds, i))
    decreases |lines| - i
  {
    if i < |lines| {
      ContentGrows(lines, kinds, i + 1);
      var part, longer := ContentTo(lines, kinds, i), ContentTo(lines, kinds, i + 1);
      assert ContentTo(lines, kinds, |lines|)[..|part|] == longer[..|part|];
    }
  }

  /** The two-pass test is the simple one; with a file that changes in between it is still cautious. */
  method ShouldSkip(b: Block, info: Option<Node>, read: Option<Bytes>) returns (skip: bool)
    ensures skip ==> read == Some(Content(b.lines))
    ensures info.Some? && info.value.File? ==> (read == Some(info.value.content) ==> (skip <==> SkipsOver(info, b)))
    ensures info.None? || !info.value.File? ==> !skip
  {
    if !b.isNew || b.isBinary || b.path == "" {
      return false;
    }
    if info.None? || !info.value.File? {
      return false;
    }
    if b.mode != "" {
      var exec := ModeExec(b.mode);
      if exec.None? || exec.value != info.value.exec {
        return false;
      }
    }
    var problem := CheckPath(b.path);
    if problem.Some? {
      return false;
    }
    var kinds := Kinds(b.lines);
    KindsFit(b.lines);
    var size := ExpectedSize(b.lines, kinds);
    if size.None? || size.value != |info.value.content| {
      return false;
    }
    if read.None? {
      return false;
    }
    skip := SameContent(b.lines, kinds, read.value);
  }
}
