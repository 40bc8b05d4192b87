/** Patch text as bytes: prefixes, lines, fields and decimal numbers. */
module PatchText {
  import opened Common

  /** Patches and paths are byte strings; every character stands for one byte. */
  type Bytes = string

  const MAX_PATCH_BYTES: nat := 16 * 1024 * 1024

  predicate HasPrefix(s: Bytes, p: Bytes) {
    |p| <= |s| && s[..|p|] == p
  }

  lemma NotPrefix(s: Bytes, p: Bytes, i: nat)
    requires i < |s| && i < |p| && s[i] != p[i]
    ensures !HasPrefix(s, p)
  {
    assert |p| <= |s| ==> s[..|p|][i] == s[i];
  }

  /** The first position at or after `i` holding `c`, or the length if there is none. */
  function IndexFrom(s: Bytes, c: char, i: nat): (k: nat)
    requires i <= |s|
    ensures i <= k <= |s|
    ensures k < |s| ==> s[k] == c
    ensures forall j :: i <= j < k ==> s[j] != c
    decreases |s| - i
  {
    if i == |s| || s[i] == c then i else IndexFrom(s, c, i + 1)
  }

  lemma {:induction false} IndexIs(s: Bytes, c: char, i: nat, k: nat)
    requires i <= k <= |s| && (k < |s| ==> s[k] == c) && c !in s[i..k]
    ensures IndexFrom(s, c, i) == k
    decreases k - i
  {
  }

  function TrimLeft(s: Bytes, c: char): Bytes {
    if s != "" && s[0] == c then TrimLeft(s[1..], c) else s
  }

  function TrimRight(s: Bytes, c: char): Bytes {
    if s != "" && s[|s| - 1] == c then TrimRight(s[..|s| - 1], c) else s
  }

  /** A line without its LF, and without the CR before it. */
  function TrimLine(line: Bytes): Bytes {
    var s := if line != "" && line[|line| - 1] == '\n' then line[..|line| - 1] else line;
    if s != "" && s[|s| - 1] == '\r' then s[..|s| - 1] else s
  }

  /** Trimming never touches a prefix without line-break characters. */
  lemma TrimKeepsPrefix(line: Bytes, p: Bytes)
    requires '\n' !in p && '\r' !in p
    ensures HasPrefix(TrimLine(line), p) <==> HasPrefix(line, p)
  {
  }

  // ---------------------------------------------------------------- lines

  /** Length of the first line of `text`, with its LF if it has one. */
  function LineLength(text: Bytes): (n: nat)
    requires text != ""
    ensures 0 < n <= |text|
    ensures '\n' !in text[..n - 1]
    ensures n < |text| ==> text[n - 1] == '\n'
  {
    var k := IndexFrom(text, '\n', 0);
    if k < |text| then k + 1 else k
  }

  function Lines(text: Bytes): seq<Bytes>
    decreases |text|
  {
    if text == "" then [] else [text[..LineLength(text)]] + Lines(text[LineLength(text)..])
  }

  function Join(lines: seq<Bytes>): Bytes {
    if lines == [] then "" else lines[0] + Join(lines[1..])
  }

  predicate IsLine(line: Bytes) {
    line != "" && '\n' !in line[..|line| - 1]
  }

  predicate Ended(line: Bytes) {
    line != "" && line[|line| - 1] == '\n'
  }

  /** Lines as a reader delivers them: only the last may lack its LF. */
  predicate Tidy(lines: seq<Bytes>) {
    && (forall i :: 0 <= i < |lines| ==> IsLine(lines[i]))
    && (forall i :: 0 <= i < |lines| - 1 ==> Ended(lines[i]))
  }

  lemma TidyCons(line: Bytes, lines: seq<Bytes>)
    requires IsLine(line) && Tidy(lines) && (lines != [] ==> Ended(line))
    ensures Tidy([line] + lines) && Join([line] + lines) == line + Join(lines)
  {
  }

  lemma {:induction false} LinesTidy(text: Bytes)
    ensures Tidy(Lines(text)) && Join(Lines(text)) == text
    decreases |text|
  {
    if text != "" {
      var n := LineLength(text);
      var head, tail := text[..n], Lines(text[n..]);
      LinesTidy(text[n..]);
      HeadIsLine(text, n);
      TidyCons(head, tail);
    }
  }

  lemma HeadIsLine(text: Bytes, n: nat)
    requires text != "" && n == LineLength(text)
    ensures IsLine(text[..n]) && (n < |text| ==> Ended(text[..n]))
  {
    assert text[..n][..n - 1] == text[..n - 1];
  }

  lemma FirstLine(line: Bytes, rest: Bytes)
    requires IsLine(line) && (Ended(line) || rest == "")
    ensures Lines(line + rest) == [line] + Lines(rest)
  {
    var text := line + rest;
    if Ended(line) {
      IndexIs(text, '\n', 0, |line| - 1);
    } else {
      IndexIs(text, '\n', 0, |line|);
    }
    assert LineLength(text) == |line|;
    assert text[..|line|] == line && text[|line|..] == rest;
  }

  /** Reading lines and joining them are inverse. */
  lemma {:induction false} LinesOfJoin(lines: seq<Bytes>)
    requires Tidy(lines)
    ensures Lines(Join(lines)) == lines
  {
    if lines != [] {
      if |lines| > 1 {
        assert Ended(lines[0]);
      } else {
        assert Join(lines[1..]) == "";
      }
      LinesOfJoin(lines[1..]);
      FirstLine(lines[0], Join(lines[1..]));
    }
  }

  lemma {:induction false} JoinConcat(a: seq<Bytes>, b: seq<Bytes>)
    ensures Join(a + b) == Join(a) + Join(b)
  {
    if a == [] {
      assert a + b == b;
    } else {
      assert (a + b)[1..] == a[1..] + b;
      JoinConcat(a[1..], b);
    }
  }

  // ---------------------------------------------------------------- fields and numbers

  /** At most `n` fields; the last one keeps the remaining separators. */
  function SplitN(s: Bytes, sep: char, n: nat): (fields: seq<Bytes>)
    requires n > 0
    ensures 1 <= |fields| <= n
    decreases n
  {
    var k := IndexFrom(s, sep, 0);
    if n == 1 || k == |s| then [s] else [s[..k]] + SplitN(s[k + 1..], sep, n - 1)
  }

  lemma SplitFirst(a: Bytes, rest: Bytes, sep: char, n: nat)
    requires n > 1 && sep !in a
    ensures SplitN(a + [sep] + rest, sep, n) == [a] + SplitN(rest, sep, n - 1)
  {
    var s := a + [sep] + rest;
    assert s[0..|a|] == a;
    IndexIs(s, sep, 0, |a|);
    assert s[|a| + 1..] == rest;
  }

  lemma SplitNone(a: Bytes, sep: char, n: nat)
    requires n > 0 && sep !in a
    ensures SplitN(a, sep, n) == [a]
  {
  }

  predicate IsDigit(c: char) { '0' <= c <= '9' }

  predicate AllDigits(s: Bytes) {
    forall i :: 0 <= i < |s| ==> IsDigit(s[i])
  }

  function Value(s: Bytes): nat
    requires AllDigits(s)
  {
    if s == "" then 0 else 10 * Value(s[..|s| - 1]) + (s[|s| - 1] - '0') as nat
  }

  const MAX_COUNT: nat := 0x7fff_ffff_ffff_ffff

  /** A decimal number of at most 63 bits. */
  function ParseCount(s: Bytes): Option<nat> {
    if s != "" && AllDigits(s) && Value(s) <= MAX_COUNT then Some(Value(s)) else None
  }

  function Decimal(n: nat): (s: Bytes)
    ensures s != "" && AllDigits(s)
  {
    var last := [('0' as int + n % 10) as char];
    if n < 10 then last else Decimal(n / 10) + last
  }

  lemma {:induction false} DecimalValue(n: nat)
    ensures Value(Decimal(n)) == n
  {
    var s := Decimal(n);
    if n < 10 {
      assert s[..|s| - 1] == "";
    } else {
      assert s[..|s| - 1] == Decimal(n / 10);
      DecimalValue(n / 10);
    }
  }

  /** What a count may be: any decimal number of at most 63 bits. */
  lemma CountExactly(n: nat)
    ensures ParseCount(Decimal(n)) == if n < 0x8000_0000_0000_0000 then Some(n) else None
  {
    DecimalValue(n);
  }
}
