/** What the first pass of the skip test accepts, said as a grammar. */
module PatchCreation {
  import opened Common
  import opened PatchText
  import opened PatchPaths
  import opened PatchValidator
  import opened PatchBlocks

  /** How many lines come before the next hunk header. */
  function UpToHeader(kinds: seq<Kind>): (n: nat)
    ensures n <= |kinds|
  {
    if kinds == [] || kinds[0].Heading? then 0 else 1 + UpToHeader(kinds[1..])
  }

  function NonMarkers(kinds: seq<Kind>): seq<Kind> {
    if kinds == [] then []
    else (if kinds[0].Marker? then [] else [kinds[0]]) + NonMarkers(kinds[1..])
  }

  /** Exactly `n` added lines, then nothing but blank ones. */
  ghost predicate Adds(n: nat, body: seq<Kind>) {
    && n <= |body|
    && (forall i :: 0 <= i < n ==> body[i].Plus?)
    && (forall i :: n <= i < |body| ==> body[i].Blank?)
  }

  /** Hunks that show no old line and as many new ones as they declare; markers may stand anywhere. */
  ghost predicate Hunks(kinds: seq<Kind>)
    decreases |kinds|
  {
    kinds != [] ==>
      && kinds[0].Heading? && kinds[0].count.Some?
      && var rest := kinds[1..]; var n := UpToHeader(rest);
         Adds(kinds[0].count.value, NonMarkers(rest[..n])) && Hunks(rest[n..])
  }

  /** Do the remaining lines bring the first pass to a good end? */
  ghost predicate Finishes(n: nat, inHunk: bool, kinds: seq<Kind>)
    decreases |kinds|
  {
    if kinds == [] then n == 0
    else
      var next := NextExpected(n, inHunk, kinds[0]);
      next.Some? && Finishes(next.value, inHunk || kinds[0].Heading?, kinds[1..])
  }

  lemma {:induction false} ExpectedFinishes(kinds: seq<Kind>, i: nat)
    requires i <= |kinds| && Expected(kinds, i).Some?
    ensures Expected(kinds, |kinds|) == Some(0) <==>
      Finishes(Expected(kinds, i).value, HunkBefore(kinds, i), kinds[i..])
    decreases |kinds| - i
  {
    if i < |kinds| {
      assert kinds[i..][1..] == kinds[i + 1..];
      if Expected(kinds, i + 1).Some? {
        ExpectedFinishes(kinds, i + 1);
      } else {
        NeverAgain(kinds, i + 1);
      }
    }
  }

  lemma {:induction false} BodyFinishes(n: nat, kinds: seq<Kind>)
    ensures Finishes(n, true, kinds) <==>
      var m := UpToHeader(kinds); Adds(n, NonMarkers(kinds[..m])) && Hunks(kinds[m..])
    decreases |kinds|
  {
    if kinds != [] {
      var rest := kinds[1..];
      var m := UpToHeader(rest);
      if kinds[0].Heading? {
        assert kinds[..0] == [] && kinds[0..] == kinds;
        if kinds[0].count.Some? {
          BodyFinishes(kinds[0].count.value, rest);
        }
      } else {
        assert kinds[..m + 1][1..] == rest[..m] && kinds[m + 1..] == rest[m..];
        if NextExpected(n, true, kinds[0]).Some? {
          BodyFinishes(NextExpected(n, true, kinds[0]).value, rest);
        }
        AddsCons(n, kinds[0], NonMarkers(rest[..m]));
      }
    }
  }

  /** One more line before a hunk's body counts as the first pass counts it. */
  lemma AddsCons(n: nat, kind: Kind, body: seq<Kind>)
    requires !kind.Heading?
    ensures Adds(n, (if kind.Marker? then [] else [kind]) + body) <==>
      NextExpected(n, true, kind).Some? && Adds(NextExpected(n, true, kind).value, body)
  {
    match kind
    case Marker => assert [] + body == body;
    case Blank => AddsBlank(n, body);
    case Plus => if n > 0 { AddsPlus(n, body); } else { assert ([Plus] + body)[0] == Plus; }
    case Other => assert ([Other] + body)[0] == Other;
  }

  lemma AddsBlank(n: nat, body: seq<Kind>)
    ensures Adds(n, [Blank] + body) <==> n == 0 && Adds(0, body)
  {
    assert ([Blank] + body)[0] == Blank;
    assert forall i :: 0 <= i < |body| ==> ([Blank] + body)[i + 1] == body[i];
  }

  lemma AddsPlus(n: nat, body: seq<Kind>)
    requires n > 0
    ensures Adds(n, [Plus] + body) <==> Adds(n - 1, body)
  {
    assert forall i :: 0 <= i < |body| ==> ([Plus] + body)[i + 1] == body[i];
  }

  lemma {:induction false} PreambleFinishes(kinds: seq<Kind>)
    ensures Finishes(0, false, kinds) <==> Hunks(kinds[UpToHeader(kinds)..])
    decreases |kinds|
  {
    if kinds != [] {
      var rest := kinds[1..];
      if kinds[0].Heading? {
        assert kinds[0..] == kinds;
        if kinds[0].count.Some? {
          BodyFinishes(kinds[0].count.value, rest);
        }
      } else {
        assert kinds[UpToHeader(rest) + 1..] == rest[UpToHeader(rest)..];
        PreambleFinishes(rest);
      }
    }
  }

  /** A block passes exactly when some lines without a hunk header are followed by such hunks. */
  lemma CreationIsHunks(lines: seq<Bytes>)
    ensures var kinds := Kinds(lines);
      IsCreation(lines) <==> Hunks(kinds[UpToHeader(kinds)..])
  {
    var kinds := Kinds(lines);
    ExpectedFinishes(kinds, 0);
    assert kinds[0..] == kinds;
    PreambleFinishes(kinds);
  }

  // ---------------------------------------------------------------- what is never skipped

  /** A line that says the content of the block is binary. */
  predicate SaysBinary(line: Bytes) {
    HasPrefix(TrimLine(line), "GIT binary patch") || HasPrefix(TrimLine(line), "Binary files ")
  }

  /** A line that says the block creates its file. */
  predicate SaysNew(line: Bytes) {
    HasPrefix(TrimLine(line), "new file mode ") || HasPrefix(TrimLine(line), "--- /dev/null")
  }

  predicate EndsHead(line: Bytes) {
    HasPrefix(TrimLine(line), "@@ ") || SaysBinary(line)
  }

  /** Line `i` comes after the header line and before, or as, the first line of a hunk or of binary content. */
  ghost predicate InHead(lines: seq<Bytes>, i: nat) {
    (0 < i < |lines| && forall j :: 0 < j < i ==> !EndsHead(lines[j])) == true
  }

  ghost predicate HeadOver(lines: seq<Bytes>, n: nat) {
    exists j :: 0 < j < n && j < |lines| && EndsHead(lines[j])
  }

  ghost predicate HeadSaysBinary(lines: seq<Bytes>, n: nat) {
    exists i: nat :: i < n && InHead(lines, i) && SaysBinary(lines[i])
  }

  ghost predicate HeadSaysNew(lines: seq<Bytes>, n: nat) {
    exists i: nat :: i < n && InHead(lines, i) && SaysNew(lines[i])
  }

  /** The lines before `n` have been read into this block. */
  ghost predicate ReadAs(lines: seq<Bytes>, n: nat, b: Block) {
    (&& (b.inBody <==> HeadOver(lines, n))
     && (b.isBinary <==> HeadSaysBinary(lines, n)) && (b.isNew <==> HeadSaysNew(lines, n))) == true
  }

  lemma FirstReads(lines: seq<Bytes>, b: Block)
    requires !b.inBody && !b.isBinary && !b.isNew
    ensures ReadAs(lines, 1, b)
  {
  }

  lemma KindsOfLine(line: Bytes)
    ensures HasPrefix(TrimLine(line), "@@ ") ==> !SaysBinary(line) && !SaysNew(line)
  {
    var raw := TrimLine(line);
    if HasPrefix(raw, "@@ ") {
      assert raw[0] == raw[..3][0];
      NotPrefix(raw, "GIT binary patch", 0);
      NotPrefix(raw, "Binary files ", 0);
      NotPrefix(raw, "new file mode ", 0);
      NotPrefix(raw, "--- /dev/null", 0);
    }
  }

  /** What appending one line does to the marks of a block. */
  lemma AppendMarks(q: Unquoter, b: Block, line: Bytes)
    ensures var c := AppendLine(q, b, line);
      && (c.inBody <==> b.inBody || EndsHead(line))
      && (c.isBinary <==> b.isBinary || (!b.inBody && SaysBinary(line)))
      && (c.isNew <==> b.isNew || (!b.inBody && SaysNew(line)))
  {
    KindsOfLine(line);
  }

  lemma HeadGrows(lines: seq<Bytes>, n: nat)
    requires 0 < n < |lines|
    ensures HeadOver(lines, n + 1) <==> HeadOver(lines, n) || EndsHead(lines[n])
    ensures InHead(lines, n) <==> !HeadOver(lines, n)
    ensures HeadSaysBinary(lines, n + 1) <==> HeadSaysBinary(lines, n) || (InHead(lines, n) && SaysBinary(lines[n]))
    ensures HeadSaysNew(lines, n + 1) <==> HeadSaysNew(lines, n) || (InHead(lines, n) && SaysNew(lines[n]))
  {
  }

  lemma NextReads(q: Unquoter, lines: seq<Bytes>, n: nat, b: Block)
    requires 0 < n < |lines| && ReadAs(lines, n, b)
    ensures ReadAs(lines, n + 1, AppendLine(q, b, lines[n]))
  {
    AppendMarks(q, b, lines[n]);
    HeadGrows(lines, n);
  }

  lemma BlockOfSnoc(q: Unquoter, lines: seq<Bytes>, n: nat)
    requires 0 < n < |lines|
    ensures BlockOf(q, lines[..n + 1]) == AppendLine(q, BlockOf(q, lines[..n]), lines[n])
  {
    assert lines[..n + 1][..n] == lines[..n];
  }

  lemma {:induction false} HeadReads(q: Unquoter, lines: seq<Bytes>, n: nat)
    requires 0 < n <= |lines|
    ensures ReadAs(lines, n, BlockOf(q, lines[..n]))
    decreases n
  {
    if n == 1 {
      FirstReads(lines, BlockOf(q, lines[..1]));
    } else {
      HeadReads(q, lines, n - 1);
      BlockOfSnoc(q, lines, n - 1);
      NextReads(q, lines, n - 1, BlockOf(q, lines[..n - 1]));
    }
  }

  /** A block is binary, or new, exactly when a line before its body says so. */
  lemma HeadExactly(q: Unquoter, lines: seq<Bytes>)
    requires lines != []
    ensures BlockOf(q, lines).isBinary <==> HeadSaysBinary(lines, |lines|)
    ensures BlockOf(q, lines).isNew <==> HeadSaysNew(lines, |lines|)
  {
    assert lines[..|lines|] == lines;
    HeadReads(q, lines, |lines|);
  }

  /** Only a block that is new and not binary is ever skipped. */
  lemma OnlyNewText(there: Option<Node>, b: Block)
    ensures SkipsOver(there, b) ==> b.isNew && !b.isBinary
  {
  }
}
