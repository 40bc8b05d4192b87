/** What file names an accepted patch may hold, line by line as they are written. */
module PatchNames {
  import opened Common
  import opened PatchText
  import opened PatchPaths
  import opened PatchValidator

  /** Nothing, the null device, or a relative path without a special component. */
  ghost predicate Harmless(path: Bytes) {
    || path == "" || path == "/dev/null"
    || (path[0] != '/' && forall i :: 0 <= i < |Components(path)| ==> LegalPart(Components(path)[i]))
  }

  lemma NoProblemMeans(path: Bytes)
    ensures PathProblem(path).None? <==> Harmless(path)
  {
    NoErrorMeans(Components(path));
  }

  /** Written without quotes and escapes. */
  predicate Plain(path: Bytes) {
    '\\' !in path && !HasPrefix(path, "\"")
  }

  lemma PlainStays(q: Unquoter, path: Bytes)
    requires Plain(path)
    ensures MaybeQuoted(q, path) == path
  {
    UnescapePlain(path, 0);
    if path != "" { assert path[..1] == [path[0]]; }
  }

  lemma PlainTrims(path: Bytes)
    requires Plain(path)
    ensures Plain(TrimLine(path))
  {
    assert forall c :: c in TrimLine(path) ==> c in path;
    TrimKeepsPrefix(path, "\"");
  }

  // ---------------------------------------------------------------- renames and copies

  /** A line that renames or copies from or to `path`. */
  predicate Renames(raw: Bytes, path: Bytes) {
    || raw == "rename from " + path || raw == "rename to " + path
    || raw == "copy from " + path || raw == "copy to " + path
  }

  /** The four lines differ from each other and from every other line the validator knows. */
  lemma RenameReadsAs(raw: Bytes, prefix: Bytes, path: Bytes)
    requires prefix in ["rename from ", "rename to ", "copy from ", "copy to "] && raw == prefix + path
    ensures RenamePrefix(raw) == Some(prefix) && raw[|prefix|..] == path
  {
    assert raw[..|prefix|] == prefix;
    if prefix == "rename to " { NotPrefix(raw, "rename from ", 7); }
    if prefix == "copy from " || prefix == "copy to " {
      NotPrefix(raw, "rename from ", 0);
      NotPrefix(raw, "rename to ", 0);
    }
    if prefix == "copy to " { NotPrefix(raw, "copy from ", 5); }
  }

  lemma OnlyRename(q: Unquoter, raw: Bytes)
    requires raw != "" && (raw[0] == 'r' || raw[0] == 'c')
    ensures HeadLine(q, raw) ==
      match RenamePrefix(raw)
      case None => Ok(NO_HUNK)
      case Some(prefix) => Checked(PathProblem(MaybeQuoted(q, TrimLine(raw[|prefix|..]))))
  {
    NotPrefix(raw, HUNK_START, 0);
    NotPrefix(raw, DIFF_GIT, 0);
    NotPrefix(raw, "+++ ", 0);
    NotPrefix(raw, "--- ", 0);
  }

  lemma RenameIsHead(q: Unquoter, raw: Bytes, path: Bytes)
    requires Renames(raw, path)
    ensures HeadLine(q, raw) == Checked(PathProblem(MaybeQuoted(q, TrimLine(path))))
  {
    OnlyRename(q, raw);
    var prefix := if raw == "rename from " + path then "rename from "
                  else if raw == "rename to " + path then "rename to "
                  else if raw == "copy from " + path then "copy from " else "copy to ";
    RenameReadsAs(raw, prefix, path);
  }

  /** Outside hunks such a line is accepted exactly when the path it names is harmless. */
  lemma RenameLineExactly(q: Unquoter, line: Bytes, path: Bytes)
    requires Renames(TrimLine(line), path)
    ensures Line(q, NO_HUNK, line).Ok? <==> Harmless(MaybeQuoted(q, TrimLine(path)))
  {
    RenameIsHead(q, TrimLine(line), path);
    NoProblemMeans(MaybeQuoted(q, TrimLine(path)));
  }

  // ---------------------------------------------------------------- old and new files

  /** A line that names `path` as the old or the new file, as Git prints it. */
  predicate NamesFile(raw: Bytes, path: Bytes) {
    raw == "--- a/" + path || raw == "+++ b/" + path
  }

  lemma FileLineIsHead(q: Unquoter, raw: Bytes, path: Bytes)
    requires NamesFile(raw, path)
    ensures HeadLine(q, raw) == Checked(PathProblem(FileLinePath(q, raw[4..])))
  {
    assert raw[0] == '-' || raw[0] == '+';
    assert raw[..4] == "--- " || raw[..4] == "+++ ";
    assert !HasPrefix(raw, HUNK_START) && !HasPrefix(raw, DIFF_GIT);
  }

  /** Up to the tab that may follow it, a name without its `a/` or `b/`. */
  lemma CutNames(q: Unquoter, name: Bytes, path: Bytes)
    requires Plain(name) && '\t' !in name && |name| >= 2 && name[2..] == path
    requires name[..2] == "a/" || name[..2] == "b/"
    ensures Sanitize(MaybeQuoted(q, name[..IndexFrom(name, '\t', 0)])) == path
  {
    assert name[..IndexFrom(name, '\t', 0)] == name;
    PlainStays(q, name);
  }

  lemma TrimAfter(prefix: Bytes, path: Bytes)
    requires prefix != "" && prefix[|prefix| - 1] !in "\r\n"
    ensures TrimLine(prefix + path) == prefix + TrimLine(path)
  {
    var s := prefix + path;
    assert path != "" ==> s[..|s| - 1] == prefix + path[..|path| - 1];
    assert |path| > 1 ==> s[..|s| - 2] == prefix + path[..|path| - 2];
  }

  lemma FileLineNames(q: Unquoter, prefix: Bytes, path: Bytes)
    requires (prefix == "a/" || prefix == "b/") && Plain(path) && '\t' !in path
    ensures FileLinePath(q, prefix + path) == TrimLine(path)
  {
    var name := prefix + TrimLine(path);
    PlainTrims(path);
    TrimAfter(prefix, path);
    NotPrefix(name, "\"", 0);
    NotPrefix(name, "/dev/null", 0);
    assert forall c :: c in TrimLine(path) ==> c in path;
    CutNames(q, name, TrimLine(path));
  }

  lemma TabEnds(prefix: Bytes, path: Bytes, rest: Bytes)
    requires '\t' !in prefix && '\t' !in path
    ensures var name := TrimLine(prefix + path + "\t" + rest);
      |prefix + path| < |name| && name[..IndexFrom(name, '\t', 0)] == prefix + path
  {
    TrimAfter(prefix + path + "\t", rest);
    var name := prefix + path + "\t" + TrimLine(rest);
    IndexIs(name, '\t', 0, |prefix + path|);
  }

  lemma TabbedNames(q: Unquoter, prefix: Bytes, path: Bytes, rest: Bytes)
    requires (prefix == "a/" || prefix == "b/") && Plain(path) && '\t' !in path
    ensures FileLinePath(q, prefix + path + "\t" + rest) == path
  {
    var s := prefix + path + "\t" + rest;
    var name := prefix + path;
    TabEnds(prefix, path, rest);
    TrimKeepsPrefix(s, prefix);
    assert s[..2] == prefix && s[0] == prefix[0];
    NotPrefix(TrimLine(s), "/dev/null", 0);
    NotPrefix(name, "\"", 0);
    PlainStays(q, name);
    assert name[..2] == prefix && name[2..] == path;
  }

  /** The name as it is read: up to a tab, or without a line break. */
  function NameRead(path: Bytes, tail: Bytes): Bytes {
    if tail == "" then TrimLine(path) else path
  }

  lemma FileLineExactly(q: Unquoter, line: Bytes, path: Bytes, tail: Bytes)
    requires NamesFile(TrimLine(line), path + tail) && Plain(path) && '\t' !in path
    requires tail == "" || tail[0] == '\t'
    ensures Line(q, NO_HUNK, line).Ok? <==> Harmless(NameRead(path, tail))
  {
    FileLineIsHead(q, TrimLine(line), path + tail);
    FileLineRest(TrimLine(line), path + tail);
    NoProblemMeans(NameRead(path, tail));
    FileTail(q, "a/", path, tail);
    FileTail(q, "b/", path, tail);
  }

  lemma FileTail(q: Unquoter, prefix: Bytes, path: Bytes, tail: Bytes)
    requires (prefix == "a/" || prefix == "b/") && Plain(path) && '\t' !in path && (tail == "" || tail[0] == '\t')
    ensures FileLinePath(q, prefix + (path + tail)) == NameRead(path, tail)
  {
    if tail == "" {
      assert path + tail == path;
      FileLineNames(q, prefix, path);
    } else {
      assert prefix + (path + tail) == prefix + path + "\t" + tail[1..];
      TabbedNames(q, prefix, path, tail[1..]);
    }
  }

  lemma FileLineRest(raw: Bytes, path: Bytes)
    requires NamesFile(raw, path)
    ensures raw[4..] == "a/" + path || raw[4..] == "b/" + path
  {
  }

  // ---------------------------------------------------------------- whole patches

  /** A line of an accepted patch outside hunk bodies has been read as such. */
  lemma OutsideIsRead(q: Unquoter, text: Bytes, i: nat)
    requires Accepted(q, text) && i < |Lines(text)| && !InBody(LineReader(q), Lines(text), i)
    ensures Line(q, NO_HUNK, Lines(text)[i]).Ok?
  {
    var f := LineReader(q);
    StateExists(f, Lines(text), i);
    assert StateAt(f, Lines(text), i).value == NO_HUNK;
    assert Read(f, NO_HUNK, Lines(text)[i]) == Line(q, NO_HUNK, Lines(text)[i]);
  }

  /** In an accepted patch no rename, copy or file line outside a hunk names a forbidden path. */
  lemma AcceptedNamesHarmless(q: Unquoter, text: Bytes, i: nat, path: Bytes, tail: Bytes)
    requires Accepted(q, text) && i < |Lines(text)| && !InBody(LineReader(q), Lines(text), i) && Plain(path)
    ensures Renames(TrimLine(Lines(text)[i]), path) ==> Harmless(TrimLine(path))
    ensures NamesFile(TrimLine(Lines(text)[i]), path + tail) && '\t' !in path && (tail == "" || tail[0] == '\t') ==>
      Harmless(NameRead(path, tail))
  {
    var line := Lines(text)[i];
    OutsideIsRead(q, text, i);
    if Renames(TrimLine(line), path) {
      RenameLineExactly(q, line, path);
      PlainTrims(path);
      PlainStays(q, TrimLine(path));
    }
    if NamesFile(TrimLine(line), path + tail) && '\t' !in path && (tail == "" || tail[0] == '\t') {
      FileLineExactly(q, line, path, tail);
    }
  }

  /** Nor does a header, on either side, unless the shortcut reads it as one path. */
  lemma AcceptedHeadersHarmless(q: Unquoter, text: Bytes, i: nat, left: Bytes, right: Bytes)
    requires Accepted(q, text) && i < |Lines(text)| && !InBody(LineReader(q), Lines(text), i)
    requires TrimLine(Lines(text)[i]) == "diff --git a/" + left + " b/" + right
    requires '\\' !in left && '\\' !in right && (left == right || !Symmetric(TwoPaths(left, right)))
    ensures Harmless(left) && Harmless(right)
  {
    OutsideIsRead(q, text, i);
    HeaderText(left, right);
    HeaderChecksBoth(q, left, right);
    NoProblemMeans(left);
    NoProblemMeans(right);
  }

  lemma HeaderText(left: Bytes, right: Bytes)
    ensures "diff --git a/" + left + " b/" + right == DIFF_GIT + TwoPaths(left, right)
  {
  }
}
