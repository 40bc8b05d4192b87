/** The filter that drops new files already present, and what it keeps of a patch. */
module PatchFilter {
  import opened Common
  import opened PatchText
  import opened PatchPaths
  import opened PatchValidator
  import opened PatchBlocks

  /** The lines of the groups that are not skipped, in order. */
  function Kept(q: Unquoter, tree: Tree, groups: seq<seq<Bytes>>): seq<Bytes>
    requires AllGroups(groups)
  {
    if groups == [] then []
    else
      var last := groups[|groups| - 1];
      Kept(q, tree, groups[..|groups| - 1]) + if Skips(tree, BlockOf(q, last)) then [] else last
  }

  /** The paths of the groups that are. */
  function Skipped(q: Unquoter, tree: Tree, groups: seq<seq<Bytes>>): seq<Bytes>
    requires AllGroups(groups)
  {
    if groups == [] then []
    else
      var last := BlockOf(q, groups[|groups| - 1]);
      Skipped(q, tree, groups[..|groups| - 1]) + if Skips(tree, last) then [last.path] else []
  }

  datatype Filtered = Filtered(text: Bytes, skipped: seq<Bytes>)

  function Filter(q: Unquoter, tree: Tree, groups: seq<seq<Bytes>>): Filtered
    requires AllGroups(groups)
  {
    Filtered(Join(Kept(q, tree, groups)), Skipped(q, tree, groups))
  }

  lemma FilterSnoc(q: Unquoter, tree: Tree, groups: seq<seq<Bytes>>, group: seq<Bytes>)
    requires AllGroups(groups) && IsGroup(group)
    ensures AllGroups(groups + [group])
    ensures var f, g := Filter(q, tree, groups), Filter(q, tree, groups + [group]);
      g == if Skips(tree, BlockOf(q, group)) then f.(skipped := f.skipped + [BlockOf(q, group).path])
           else f.(text := f.text + Join(group))
  {
    var all, last := groups + [group], BlockOf(q, group);
    assert all[..|groups|] == groups && all[|groups|] == group;
    assert Kept(q, tree, all) == Kept(q, tree, groups) + if Skips(tree, last) then [] else group;
    JoinConcat(Kept(q, tree, groups), if Skips(tree, last) then [] else group);
  }

  method Flush(q: Unquoter, tree: Tree, b: Block, done: Filtered) returns (r: Filtered)
    ensures r == if Skips(tree, b) then done.(skipped := done.skipped + [b.path])
                 else done.(text := done.text + Join(b.lines))
  {
    var info := Lookup(tree, b.path);
    var skip := ShouldSkip(b, info, if info.Some? && info.value.File? then Some(info.value.content) else None);
    if skip {
      return done.(skipped := done.skipped + [b.path]);
    }
    var out := done.text;
    for i := 0 to |b.lines|
      invariant out == done.text + Join(b.lines[..i])
    {
      assert b.lines[..i + 1] == b.lines[..i] + [b.lines[i]];
      JoinConcat(b.lines[..i], [b.lines[i]]);
      assert Join([b.lines[i]]) == b.lines[i];
      out := out + b.lines[i];
    }
    assert b.lines[..|b.lines|] == b.lines;
    return done.(text := out);
  }

  /** The groups read so far: finished ones, and the one that may still grow. */
  ghost predicate Reading(q: Unquoter, tree: Tree, read: seq<Bytes>, done: seq<seq<Bytes>>, cur: seq<Bytes>,
                          seen: bool, current: Block, out: Filtered) {
    // `== true` keeps the predicate whole where it is to be proved
    (&& AllGroups(done) && out == Filter(q, tree, done)
     && (seen ==> cur != [] && Groups(read) == done + [cur] && IsGroup(cur) && current == BlockOf(q, cur))
     && (!seen ==> done == [] && Groups(read) == [])) == true
  }

  lemma ReadMore(q: Unquoter, tree: Tree, read: seq<Bytes>, done: seq<seq<Bytes>>, cur: seq<Bytes>,
                 current: Block, out: Filtered, line: Bytes)
    requires Reading(q, tree, read, done, cur, true, current, out) && !StartsBlock(line)
    ensures Reading(q, tree, read + [line], done, cur + [line], true, AppendLine(q, current, line), out)
  {
    GroupsSnoc(read, line);
    GroupGrows(cur, line);
    assert (done + [cur])[..|done|] == done;
    assert (cur + [line])[..|cur|] == cur;
  }

  lemma ReadFirst(q: Unquoter, tree: Tree, read: seq<Bytes>, line: Bytes)
    requires Groups(read) == [] && StartsBlock(line)
    ensures Reading(q, tree, read + [line], [], [line], true, BeginBlock(q, line), Filtered("", []))
  {
  }

  lemma ReadHeader(q: Unquoter, tree: Tree, read: seq<Bytes>, done: seq<seq<Bytes>>, cur: seq<Bytes>,
                   current: Block, out: Filtered, flushed: Filtered, line: Bytes)
    requires Reading(q, tree, read, done, cur, true, current, out) && StartsBlock(line)
    requires flushed == if Skips(tree, current) then out.(skipped := out.skipped + [current.path])
                        else out.(text := out.text + Join(current.lines))
    ensures Reading(q, tree, read + [line], done + [cur], [line], true, BeginBlock(q, line), flushed)
  {
    GroupsSnoc(read, line);
    FilterSnoc(q, tree, done, cur);
  }

  /** One line of the patch: a header flushes the block before it and starts the next. */
  method FilterLine(q: Unquoter, tree: Tree, seen: bool, current: Block, out: Filtered, line: Bytes,
                    ghost read: seq<Bytes>, ghost done: seq<seq<Bytes>>, ghost cur: seq<Bytes>)
    returns (seen': bool, current': Block, out': Filtered,
             ghost done': seq<seq<Bytes>>, ghost cur': seq<Bytes>)
    requires Reading(q, tree, read, done, cur, seen, current, out)
    ensures Reading(q, tree, read + [line], done', cur', seen', current', out')
  {
    seen', current', out', done', cur' := seen, current, out, done, cur;
    if StartsBlock(line) {
      if seen {
        out' := Flush(q, tree, current, out);
        ReadHeader(q, tree, read, done, cur, current, out, out', line);
        done' := done + [cur];
      } else {
        ReadFirst(q, tree, read, line);
      }
      seen' := true;
      current' := BeginBlock(q, line);
      cur' := [line];
    } else if seen {
      ReadMore(q, tree, read, done, cur, current, out, line);
      current' := AppendLine(q, current, line);
      cur' := cur + [line];
    } else {
      GroupsSnoc(read, line);
    }
  }

  method TakeLine(input: Bytes, pos: nat, ghost read: seq<Bytes>) returns (line: Bytes, next: nat)
    requires pos < |input| && ReadUpTo(input, pos, read)
    ensures pos < next <= |input| && ReadUpTo(input, next, read + [line])
  {
    var n := LineLength(input[pos..]);
    line, next := input[pos..][..n], pos + n;
    NextLines(input, pos, n, read);
  }

  lemma ReadNothing(q: Unquoter, tree: Tree, current: Block, input: Bytes)
    ensures Reading(q, tree, [], [], [], false, current, Filtered("", [])) && ReadUpTo(input, 0, [])
  {
  }

  /** Filter line by line; only what comes after the last header is still to be flushed. */
  method FilterLines(q: Unquoter, input: Bytes, tree: Tree)
    returns (ok: bool, seenDiff: bool, current: Block, out: Filtered,
             ghost done: seq<seq<Bytes>>, ghost cur: seq<Bytes>)
    requires |input| <= MAX_PATCH_BYTES + 1
    ensures ok <==> |input| <= MAX_PATCH_BYTES
    ensures ok ==> Reading(q, tree, Lines(input), done, cur, seenDiff, current, out)
  {
    var pos := 0;
    seenDiff, current, out := false, Block([], "", false, false, "", false), Filtered("", []);
    ghost var read: seq<Bytes> := [];
    done, cur := [], [];
    ReadNothing(q, tree, current, input);
    while pos < |input|
      invariant 0 <= pos <= |input| && pos <= MAX_PATCH_BYTES
      invariant ReadUpTo(input, pos, read)
      invariant Reading(q, tree, read, done, cur, seenDiff, current, out)
    {
      var line;
      line, pos := TakeLine(input, pos, read);
      if pos > MAX_PATCH_BYTES {
        ok := false;
        return;
      }
      seenDiff, current, out, done, cur := FilterLine(q, tree, seenDiff, current, out, line, read, done, cur);
      read := read + [line];
    }
    AllRead(input, read);
    ok := true;
  }

  method FilterExistingNewFiles(q: Unquoter, text: Bytes, tree: Tree) returns (r: Option<Filtered>)
    ensures AllGroups(Groups(Lines(text)))
    ensures r == if |text| > MAX_PATCH_BYTES then None else Some(Filter(q, tree, Groups(Lines(text))))
  {
    GroupsCover(Lines(text));
    var ok, seenDiff, current, out, done, cur := FilterLines(q, Limited(text), tree);
    if !ok {
      return None;
    }
    if !seenDiff {
      return Some(Filtered("", []));
    }
    out := FlushLast(q, tree, current, out, Lines(text), done, cur);
    return Some(out);
  }

  method FlushLast(q: Unquoter, tree: Tree, current: Block, out: Filtered,
                   ghost read: seq<Bytes>, ghost done: seq<seq<Bytes>>, ghost cur: seq<Bytes>)
    returns (all: Filtered)
    requires Reading(q, tree, read, done, cur, true, current, out) && AllGroups(Groups(read))
    ensures all == Filter(q, tree, Groups(read))
  {
    FilterSnoc(q, tree, done, cur);
    all := Flush(q, tree, current, out);
  }

  /** The lines read, and those from `pos`, are all lines. */
  ghost predicate ReadUpTo(input: Bytes, pos: nat, read: seq<Bytes>)
    requires pos <= |input|
  {
    (read + Lines(input[pos..]) == Lines(input)) == true
  }

  lemma NextLines(input: Bytes, pos: nat, n: nat, read: seq<Bytes>)
    requires pos < |input| && n == LineLength(input[pos..]) && ReadUpTo(input, pos, read)
    ensures pos + n <= |input| && ReadUpTo(input, pos + n, read + [input[pos..][..n]])
  {
  }

  lemma AllRead(input: Bytes, read: seq<Bytes>)
    requires ReadUpTo(input, |input|, read)
    ensures read == Lines(input)
  {
  }

  // ---------------------------------------------------------------- accepted patches

  /** A reader that takes a header line stands between hunks. */
  lemma HeaderNotInBody(f: Reader, h: Hunk, line: Bytes)
    requires ReadsHunks(f) && StartsBlock(line) && Read(f, h, line).Ok?
    ensures h == NO_HUNK
  {
  }

  /** In an accepted patch no line of a hunk body is taken for a block header. */
  lemma BodiesStartNoBlock(q: Unquoter, text: Bytes, i: nat)
    ensures Accepted(q, text) && i < |Lines(text)| && InBody(LineReader(q), Lines(text), i) ==>
      !StartsBlock(Lines(text)[i])
  {
    var f, lines := LineReader(q), Lines(text);
    if Accepted(q, text) && i < |lines| && InBody(f, lines, i) && StartsBlock(lines[i]) {
      LineReaderReadsHunks(q);
      StateExists(f, lines, i);
      HeaderNotInBody(f, StateAt(f, lines, i).value, lines[i]);
    }
  }

  /** All groups but the last are complete by themselves, and the last goes as far as all lines. */
  ghost predicate Separate(f: Reader, groups: seq<seq<Bytes>>, lines: seq<Bytes>) {
    && (forall i :: 0 <= i < |groups| - 1 ==> Complete(f, groups[i]))
    && (groups != [] ==> Counters(f, NO_HUNK, groups[|groups| - 1]) == Counters(f, NO_HUNK, lines))
  }

  lemma SeparateNew(f: Reader, groups: seq<seq<Bytes>>, lines: seq<Bytes>, line: Bytes)
    requires Separate(f, groups, lines) && Counters(f, NO_HUNK, lines) == Ok(NO_HUNK)
    ensures Separate(f, groups + [[line]], lines + [line])
  {
    CountersConcat(f, NO_HUNK, lines, [line]);
  }

  lemma SeparateGrown(f: Reader, groups: seq<seq<Bytes>>, lines: seq<Bytes>, line: Bytes)
    requires Separate(f, groups, lines) && groups != []
    ensures Separate(f, Grown(groups, line), lines + [line])
  {
    CountersConcat(f, NO_HUNK, lines, [line]);
    CountersConcat(f, NO_HUNK, groups[|groups| - 1], [line]);
  }

  lemma {:induction false} GroupsSeparate(f: Reader, lines: seq<Bytes>)
    requires ReadsHunks(f) && Counters(f, NO_HUNK, lines).Ok?
    ensures Separate(f, Groups(lines), lines)
    decreases |lines|
  {
    if lines != [] {
      var init, line := lines[..|lines| - 1], lines[|lines| - 1];
      assert lines == init + [line];
      CountersConcat(f, NO_HUNK, init, [line]);
      GroupsSeparate(f, init);
      GroupsSnoc(init, line);
      if StartsBlock(line) {
        var h := Counters(f, NO_HUNK, init).value;
        assert Counters(f, h, [line]) == Onward(f, Read(f, h, line), []);
        HeaderNotInBody(f, h, line);
        SeparateNew(f, Groups(init), init, line);
      } else if Groups(init) != [] {
        SeparateGrown(f, Groups(init), init, line);
      }
    }
  }

  ghost predicate AllComplete(f: Reader, groups: seq<seq<Bytes>>) {
    forall i :: 0 <= i < |groups| ==> Complete(f, groups[i])
  }

  lemma {:induction false} KeptComplete(f: Reader, q: Unquoter, tree: Tree, groups: seq<seq<Bytes>>)
    requires AllGroups(groups) && AllComplete(f, groups)
    ensures Complete(f, Kept(q, tree, groups))
    decreases |groups|
  {
    if groups != [] {
      var init, last := groups[..|groups| - 1], groups[|groups| - 1];
      assert Complete(f, last);
      KeptComplete(f, q, tree, init);
      CompleteConcat(f, Kept(q, tree, init), last);
      CompleteConcat(f, Kept(q, tree, init), []);
    }
  }

  predicate AllEnded(lines: seq<Bytes>) {
    forall i :: 0 <= i < |lines| ==> IsLine(lines[i]) && Ended(lines[i])
  }

  lemma {:induction false} KeptEnded(q: Unquoter, tree: Tree, groups: seq<seq<Bytes>>)
    requires AllGroups(groups) && AllEnded(Flatten(groups))
    ensures AllEnded(Kept(q, tree, groups))
    ensures |Join(Kept(q, tree, groups))| <= |Join(Flatten(groups))|
    decreases |groups|
  {
    if groups != [] {
      var init, last := groups[..|groups| - 1], groups[|groups| - 1];
      EndedParts(Flatten(init), last);
      KeptEnded(q, tree, init);
      JoinConcat(Flatten(init), last);
      JoinConcat(Kept(q, tree, init), last);
      JoinConcat(Kept(q, tree, init), []);
    }
  }

  lemma EndedParts(a: seq<Bytes>, b: seq<Bytes>)
    requires AllEnded(a + b)
    ensures AllEnded(a) && AllEnded(b)
  {
    assert forall i :: 0 <= i < |a| ==> a[i] == (a + b)[i];
    assert forall i :: 0 <= i < |b| ==> b[i] == (a + b)[|a| + i];
  }

  lemma TidyParts(a: seq<Bytes>, b: seq<Bytes>)
    requires Tidy(a + b) && b != []
    ensures AllEnded(a) && Tidy(b)
  {
    assert forall i :: 0 <= i < |a| ==> a[i] == (a + b)[i];
    assert forall i :: 0 <= i < |b| ==> b[i] == (a + b)[|a| + i];
  }

  /** What is kept has the lines it is made of, and is no longer than all groups together. */
  lemma KeptTidy(q: Unquoter, tree: Tree, groups: seq<seq<Bytes>>)
    requires AllGroups(groups) && Tidy(Flatten(groups))
    ensures Tidy(Kept(q, tree, groups))
    ensures |Join(Kept(q, tree, groups))| <= |Join(Flatten(groups))|
  {
    if groups != [] {
      var init, last := groups[..|groups| - 1], groups[|groups| - 1];
      assert IsGroup(last);
      TidyParts(Flatten(init), last);
      KeptEnded(q, tree, init);
      JoinConcat(Flatten(init), last);
      JoinConcat(Kept(q, tree, init), last);
      JoinConcat(Kept(q, tree, init), []);
    }
  }

  lemma TidySuffix(lines: seq<Bytes>, n: nat)
    requires Tidy(lines) && n <= |lines|
    ensures Tidy(lines[n..]) && |Join(lines[n..])| <= |Join(lines)|
  {
    assert lines == lines[..n] + lines[n..];
    JoinConcat(lines[..n], lines[n..]);
  }

  /** Filtering an accepted patch gives an accepted patch, with exactly the kept lines. */
  lemma FilteredAccepted(q: Unquoter, text: Bytes, tree: Tree)
    ensures AllGroups(Groups(Lines(text)))
    ensures Accepted(q, text) ==>
      var groups := Groups(Lines(text)); var kept := Kept(q, tree, groups);
      && AllComplete(LineReader(q), groups)
      && Accepted(q, Join(kept)) && Lines(Join(kept)) == kept
  {
    var f, lines := LineReader(q), Lines(text);
    GroupsCover(lines);
    if !Accepted(q, text) { return; }
    LineReaderReadsHunks(q);
    LinesTidy(text);
    GroupsSeparate(f, lines);
    assert AllComplete(f, Groups(lines));
    KeptComplete(f, q, tree, Groups(lines));
    TidySuffix(lines, FirstHeader(lines));
    KeptTidy(q, tree, Groups(lines));
    LinesOfJoin(Kept(q, tree, Groups(lines)));
  }

  // ---------------------------------------------------------------- paths of accepted blocks

  ghost predicate ChecksHeader(f: Reader, q: Unquoter) {
    forall line: Bytes :: StartsBlock(line) && Read(f, NO_HUNK, line).Ok? ==>
      Read(f, NO_HUNK, line) == Ok(NO_HUNK) && PathProblem(HeaderPath(q, TrimLine(line))).None?
  }

  ghost predicate ChecksFileLine(f: Reader, q: Unquoter) {
    forall line: Bytes :: !HasPrefix(TrimLine(line), HUNK_START) && Read(f, NO_HUNK, line).Ok? ==>
      && Read(f, NO_HUNK, line) == Ok(NO_HUNK)
      && (HasPrefix(TrimLine(line), "+++ ") ==> PathProblem(FileLinePath(q, TrimLine(line)[4..])).None?)
  }

  lemma {:induction false} AgreedPathLegal(pairs: seq<Pair>)
    requires PathsProblem(pairs).None?
    ensures PathProblem(AgreedPath(pairs)).None?
  {
    if pairs != [] {
      AgreedPathLegal(pairs[1..]);
    }
  }

  lemma HeaderChecked(q: Unquoter, raw: Bytes)
    requires HasPrefix(raw, DIFF_GIT) && HeadLine(q, raw).Ok?
    ensures HeadLine(q, raw) == Ok(NO_HUNK) && PathProblem(HeaderPath(q, raw)).None?
  {
    assert raw[0] == raw[..|DIFF_GIT|][0];
    OtherStart(raw, HUNK_START);
    var pairs := HeaderPaths(q, raw);
    assert pairs.Some? && HeadLine(q, raw) == Checked(PathsProblem(pairs.value));
    AgreedPathLegal(pairs.value);
  }

  lemma OtherStart(raw: Bytes, p: Bytes)
    requires raw != "" && p != "" && raw[0] != p[0]
    ensures !HasPrefix(raw, p)
  {
  }

  lemma BareHeaderChecked(q: Unquoter, raw: Bytes)
    requires |raw| < |DIFF_GIT| && raw != "" && raw[0] == 'd'
    ensures HeadLine(q, raw) == Ok(NO_HUNK) && HeaderPath(q, raw) == ""
  {
    OtherStart(raw, HUNK_START);
    OtherStart(raw, "+++ ");
    OtherStart(raw, "--- ");
    OtherStart(raw, RENAME_LINES[0]);
    OtherStart(raw, RENAME_LINES[1]);
    OtherStart(raw, RENAME_LINES[2]);
    OtherStart(raw, RENAME_LINES[3]);
  }

  lemma FileLineChecked(q: Unquoter, raw: Bytes)
    requires !HasPrefix(raw, HUNK_START) && HeadLine(q, raw).Ok?
    ensures HeadLine(q, raw) == Ok(NO_HUNK)
    ensures HasPrefix(raw, "+++ ") ==> PathProblem(FileLinePath(q, raw[4..])).None?
  {
    if HasPrefix(raw, "+++ ") {
      assert !HasPrefix(raw, DIFF_GIT) by {
        assert raw[0] == raw[..4][0];
      }
    }
  }

  lemma LineReaderChecks(q: Unquoter)
    ensures ChecksHeader(LineReader(q), q) && ChecksFileLine(LineReader(q), q)
  {
    var f := LineReader(q);
    forall line: Bytes | StartsBlock(line) && Read(f, NO_HUNK, line).Ok?
      ensures Read(f, NO_HUNK, line) == Ok(NO_HUNK) && PathProblem(HeaderPath(q, TrimLine(line))).None?
    {
      if HasPrefix(TrimLine(line), DIFF_GIT) {
        HeaderChecked(q, TrimLine(line));
      } else {
        BareHeaderChecked(q, TrimLine(line));
      }
    }
    forall line: Bytes | !HasPrefix(TrimLine(line), HUNK_START) && Read(f, NO_HUNK, line).Ok?
      ensures Read(f, NO_HUNK, line) == Ok(NO_HUNK)
      ensures HasPrefix(TrimLine(line), "+++ ") ==> PathProblem(FileLinePath(q, TrimLine(line)[4..])).None?
    {
      FileLineChecked(q, TrimLine(line));
    }
  }

  /** As long as a block's body has not begun, its lines were read between hunks and checked. */
  ghost predicate LegalSoFar(f: Reader, q: Unquoter, lines: seq<Bytes>)
    requires lines != []
  {
    (&& PathProblem(BlockOf(q, lines).path).None?
     && (!BlockOf(q, lines).inBody ==> Counters(f, NO_HUNK, lines) == Ok(NO_HUNK))) == true
  }

  lemma LegalHeader(f: Reader, q: Unquoter, line: Bytes)
    requires ChecksHeader(f, q) && StartsBlock(line) && Counters(f, NO_HUNK, [line]).Ok?
    ensures LegalSoFar(f, q, [line])
  {
  }

  lemma LegalMore(f: Reader, q: Unquoter, init: seq<Bytes>, line: Bytes)
    requires ChecksFileLine(f, q) && init != [] && LegalSoFar(f, q, init)
    requires Counters(f, NO_HUNK, init + [line]).Ok?
    ensures LegalSoFar(f, q, init + [line])
  {
    assert (init + [line])[..|init|] == init;
    CountersConcat(f, NO_HUNK, init, [line]);
    BlockPathMore(f, q, Counters(f, NO_HUNK, init).value, BlockOf(q, init), line);
  }

  lemma {:induction false} BlockPathLegal(f: Reader, q: Unquoter, lines: seq<Bytes>)
    requires ChecksHeader(f, q) && ChecksFileLine(f, q) && Counters(f, NO_HUNK, lines).Ok?
    requires lines != [] && StartsBlock(lines[0])
    ensures LegalSoFar(f, q, lines)
    decreases |lines|
  {
    if |lines| == 1 {
      assert lines == [lines[0]];
      LegalHeader(f, q, lines[0]);
    } else {
      var init, line := lines[..|lines| - 1], lines[|lines| - 1];
      assert lines == init + [line];
      CountersConcat(f, NO_HUNK, init, [line]);
      BlockPathLegal(f, q, init);
      LegalMore(f, q, init, line);
    }
  }

  lemma BlockPathMore(f: Reader, q: Unquoter, h: Hunk, b: Block, line: Bytes)
    requires ChecksFileLine(f, q) && PathProblem(b.path).None? && (!b.inBody ==> h == NO_HUNK)
    requires Counters(f, h, [line]).Ok?
    ensures var c := AppendLine(q, b, line);
      PathProblem(c.path).None? && (!c.inBody ==> Counters(f, h, [line]) == Ok(NO_HUNK))
  {
  }

  /** Every block of an accepted patch names a legal path, so only the content decides a skip. */
  lemma AcceptedPathsLegal(q: Unquoter, text: Bytes, i: nat)
    ensures Accepted(q, text) && i < |Groups(Lines(text))| ==>
      PathProblem(BlockOf(q, Groups(Lines(text))[i]).path).None?
  {
    var f, lines := LineReader(q), Lines(text);
    if !Accepted(q, text) || i >= |Groups(lines)| { return; }
    LineReaderReadsHunks(q);
    LineReaderChecks(q);
    GroupsCover(lines);
    GroupsSeparate(f, lines);
    BlockPathLegal(f, q, Groups(lines)[i]);
  }
}
