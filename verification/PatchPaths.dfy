/** Paths in a patch: quoting, the two paths of a `diff --git` header, and which paths are legal. */
module PatchPaths {
  import opened Common
  import opened PatchText

  /** The library's unquoting of a double-quoted literal. */
  type Unquoter = Bytes -> Option<Bytes>

  function Unquote(q: Unquoter, token: Bytes): Option<Bytes> { q(token) }

  // ---------------------------------------------------------------- backslash escapes

  predicate IsOctal(c: char) { '0' <= c <= '7' }

  function Digit(c: char): nat
    requires IsOctal(c)
  {
    (c - '0') as nat
  }

  /** How many octal digits, at most `n`, start at `i`. */
  function OctalRun(s: Bytes, i: nat, n: nat): (k: nat)
    requires i <= |s|
    ensures k <= n && i + k <= |s|
    ensures forall j :: i <= j < i + k ==> IsOctal(s[j])
    decreases n
  {
    if n == 0 || i == |s| || !IsOctal(s[i]) then 0 else 1 + OctalRun(s, i + 1, n - 1)
  }

  function OctalValue(s: Bytes): nat
    requires forall i :: 0 <= i < |s| ==> IsOctal(s[i])
  {
    if s == "" then 0 else 8 * OctalValue(s[..|s| - 1]) + Digit(s[|s| - 1])
  }

  function Byte(n: nat): char { (n % 256) as char }

  function Named(c: char): char {
    match c
    case 't' => '\t'
    case 'n' => '\n'
    case 'r' => '\r'
    case _ => c
  }

  predicate EscapeAt(s: Bytes, i: nat)
    requires i < |s|
  {
    s[i] == '\\' && i + 1 < |s|
  }

  /** The byte written for what stands at `i`; a final single backslash stands for itself. */
  function EscapeValue(s: Bytes, i: nat): char
    requires i < |s|
  {
    if !EscapeAt(s, i) then s[i]
    else if IsOctal(s[i + 1]) then Byte(OctalValue(s[i + 1..i + 1 + OctalRun(s, i + 1, 3)]))
    else Named(s[i + 1])
  }

  function EscapeLength(s: Bytes, i: nat): (n: nat)
    requires i < |s|
    ensures 1 <= n <= |s| - i
  {
    if !EscapeAt(s, i) then 1
    else if IsOctal(s[i + 1]) then 1 + OctalRun(s, i + 1, 3)
    else 2
  }

  function UnescapeFrom(s: Bytes, i: nat): Bytes
    requires i <= |s|
    decreases |s| - i
  {
    if i == |s| then "" else [EscapeValue(s, i)] + UnescapeFrom(s, i + EscapeLength(s, i))
  }

  /** Undo backslash escapes. */
  function Unescape(s: Bytes): Bytes {
    UnescapeFrom(s, 0)
  }

  /** Up to two digits after the first; more than eight bits are cut off by the caller. */
  method ReadOctal(path: Bytes, i: nat) returns (val: nat, j: nat)
    requires i < |path| && IsOctal(path[i])
    ensures j == i + OctalRun(path, i, 3) && i < j <= |path|
    ensures val == OctalValue(path[i..j])
  {
    val, j := Digit(path[i]), i + 1;
    ghost var n := OctalRun(path, i, 3);
    assert path[i..j][..0] == "" && OctalValue(path[i..j]) == val;
    for k := 0 to 2
      invariant j == i + 1 + k <= |path|
      invariant forall x :: i <= x < j ==> IsOctal(path[x])
      invariant val == OctalValue(path[i..j])
      invariant n == 1 + k + OctalRun(path, j, 2 - k)
    {
      if j == |path| || !IsOctal(path[j]) {
        break;
      }
      assert path[i..j + 1][..j - i] == path[i..j];
      val := val * 8 + Digit(path[j]);
      j := j + 1;
    }
  }

  /** `res` and the rest of the path, unescaped, are all of it. */
  ghost predicate SoFar(path: Bytes, i: nat, res: Bytes)
    requires i <= |path|
  {
    (res + UnescapeFrom(path, i) == Unescape(path)) == true
  }

  lemma SoFarNext(path: Bytes, i: nat, res: Bytes)
    requires i < |path| && SoFar(path, i, res)
    ensures SoFar(path, i + EscapeLength(path, i), res + [EscapeValue(path, i)])
  {
  }

  method UnescapeGitPath(path: Bytes) returns (res: Bytes)
    ensures res == Unescape(path)
  {
    if '\\' !in path {
      UnescapePlain(path, 0);
      return path;
    }
    res := "";
    var i := 0;
    while i < |path|
      invariant 0 <= i <= |path|
      invariant SoFar(path, i, res)
    {
      SoFarNext(path, i, res);
      var c;
      c, i := ReadEscape(path, i);
      res := res + [c];
    }
  }

  /** One byte, and where the next begins. */
  method ReadEscape(path: Bytes, i: nat) returns (c: char, j: nat)
    requires i < |path|
    ensures c == EscapeValue(path, i) && j == i + EscapeLength(path, i)
  {
    if path[i] != '\\' || i + 1 >= |path| {
      return path[i], i + 1;
    }
    if IsOctal(path[i + 1]) {
      var val;
      val, j := ReadOctal(path, i + 1);
      return Byte(val), j;
    }
    return Named(path[i + 1]), i + 2;
  }

  lemma {:induction false} UnescapePlain(s: Bytes, i: nat)
    requires i <= |s| && '\\' !in s
    ensures UnescapeFrom(s, i) == s[i..]
    decreases |s| - i
  {
    if i < |s| {
      assert s[i] in s;
      UnescapePlain(s, i + 1);
    }
  }

  /** One byte of an escaped path, in any of the forms a printer may choose. */
  datatype Token = Plain(c: char) | Letter(c: char) | Octal(c: char)

  predicate Printable(t: Token) {
    match t
    case Plain(c) => c != '\\' && c != '"'
    case Letter(c) => c in "\\\"\t\n\r"
    case Octal(c) => c as int < 256
  }

  function OctalDigit(n: nat): char
    requires n < 8
  {
    ('0' as int + n) as char
  }

  function Print(t: Token): Bytes
    requires Printable(t)
  {
    match t
    case Plain(c) => [c]
    case Letter(c) =>
      ['\\', if c == '\t' then 't' else if c == '\n' then 'n' else if c == '\r' then 'r' else c]
    case Octal(c) =>
      var n := c as int; ['\\', OctalDigit(n / 64), OctalDigit(n / 8 % 8), OctalDigit(n % 8)]
  }

  predicate AllPrintable(ts: seq<Token>) {
    forall i :: 0 <= i < |ts| ==> Printable(ts[i])
  }

  function PrintAll(ts: seq<Token>): Bytes
    requires AllPrintable(ts)
  {
    if ts == [] then "" else Print(ts[0]) + PrintAll(ts[1..])
  }

  function Meant(ts: seq<Token>): Bytes {
    if ts == [] then "" else [ts[0].c] + Meant(ts[1..])
  }

  lemma OctalSnoc(s: Bytes, i: nat, j: nat)
    requires i <= j < |s| && forall k :: i <= k <= j ==> IsOctal(s[k])
    ensures OctalValue(s[i..j + 1]) == 8 * OctalValue(s[i..j]) + Digit(s[j])
  {
    assert s[i..j + 1][..j - i] == s[i..j];
  }

  lemma DigitBack(n: nat)
    requires n < 8
    ensures IsOctal(OctalDigit(n)) && Digit(OctalDigit(n)) == n
  {
  }

  lemma OctalDigitsValue(s: Bytes, i: nat, n: nat)
    requires n < 256 && i + 3 <= |s|
    requires s[i] == OctalDigit(n / 64) && s[i + 1] == OctalDigit(n / 8 % 8) && s[i + 2] == OctalDigit(n % 8)
    ensures OctalRun(s, i, 3) == 3 && OctalValue(s[i..i + 3]) == n
  {
    DigitBack(n / 64);
    DigitBack(n / 8 % 8);
    DigitBack(n % 8);
    assert OctalRun(s, i + 2, 1) == 1 && OctalRun(s, i + 1, 2) == 2;
    ThreeDigits(s, i);
  }

  lemma ThreeDigits(s: Bytes, i: nat)
    requires i + 3 <= |s| && IsOctal(s[i]) && IsOctal(s[i + 1]) && IsOctal(s[i + 2])
    ensures OctalValue(s[i..i + 3]) == 64 * Digit(s[i]) + 8 * Digit(s[i + 1]) + Digit(s[i + 2])
  {
    OctalSnoc(s, i, i);
    OctalSnoc(s, i, i + 1);
    OctalSnoc(s, i, i + 2);
    assert s[i..i] == "";
  }

  /** The printed token stands at `i`. */
  predicate TextAt(s: Bytes, i: nat, text: Bytes) {
    i + |text| <= |s| && s[i..i + |text|] == text
  }

  lemma TextAtParts(s: Bytes, i: nat, a: Bytes, b: Bytes)
    requires TextAt(s, i, a + b)
    ensures TextAt(s, i, a) && TextAt(s, i + |a|, b)
  {
    assert s[i..i + |a|] == (a + b)[..|a|];
    assert s[i + |a|..i + |a| + |b|] == (a + b)[|a|..];
  }

  lemma TextAtChars(s: Bytes, i: nat, text: Bytes)
    requires TextAt(s, i, text)
    ensures forall j :: i <= j < i + |text| ==> s[j] == text[j - i]
  {
  }

  lemma UnescapeOne(s: Bytes, i: nat, t: Token)
    requires Printable(t) && TextAt(s, i, Print(t))
    ensures EscapeValue(s, i) == t.c && EscapeLength(s, i) == |Print(t)|
  {
    TextAtChars(s, i, Print(t));
    if t.Octal? {
      OctalDigitsValue(s, i + 1, t.c as nat);
    }
  }

  lemma {:induction false} UnescapeTokens(s: Bytes, i: nat, ts: seq<Token>)
    requires AllPrintable(ts) && TextAt(s, i, PrintAll(ts)) && i + |PrintAll(ts)| == |s|
    ensures UnescapeFrom(s, i) == Meant(ts)
    decreases |ts|
  {
    if ts != [] {
      TextAtParts(s, i, Print(ts[0]), PrintAll(ts[1..]));
      UnescapeOne(s, i, ts[0]);
      UnescapeTokens(s, i + |Print(ts[0])|, ts[1..]);
    }
  }

  /** Unescaping undoes every way of escaping. */
  lemma UnescapeUndoes(ts: seq<Token>)
    requires AllPrintable(ts)
    ensures Unescape(PrintAll(ts)) == Meant(ts)
  {
    UnescapeTokens(PrintAll(ts), 0, ts);
  }

  // ---------------------------------------------------------------- quoted tokens

  /** Position of the quote that ends a token, scanning from `i`. */
  function QuoteEnd(s: Bytes, i: nat, escaped: bool): (k: Option<nat>)
    requires i <= |s|
    ensures k.Some? ==> i <= k.value < |s| && s[k.value] == '"'
    decreases |s| - i
  {
    if i == |s| then None
    else if escaped then QuoteEnd(s, i + 1, false)
    else if s[i] == '\\' then QuoteEnd(s, i + 1, true)
    else if s[i] == '"' then Some(i)
    else QuoteEnd(s, i + 1, false)
  }

  /** The quoted token at the start, and what follows the spaces after it. */
  function QuotedToken(s: Bytes): (r: Option<(Bytes, Bytes)>)
    ensures r.Some? ==> r.value.0 != ""
  {
    if s == "" || s[0] != '"' then None
    else
      match QuoteEnd(s, 1, false)
      case None => None
      case Some(k) => Some((s[..k + 1], TrimLeft(s[k + 1..], ' ')))
  }

  method ReadQuotedToken(s: Bytes) returns (token: Bytes, rest: Bytes, ok: bool)
    ensures (if ok then Some((token, rest)) else None) == QuotedToken(s)
  {
    if |s| == 0 || s[0] != '"' {
      return "", "", false;
    }
    var escaped := false;
    for i := 1 to |s|
      invariant QuoteEnd(s, 1, false) == QuoteEnd(s, i, escaped)
    {
      var ch := s[i];
      if escaped {
        escaped := false;
      } else if ch == '\\' {
        escaped := true;
      } else if ch == '"' {
        return s[..i + 1], TrimLeft(s[i + 1..], ' '), true;
      }
    }
    return "", "", false;
  }

  function Quoted(ts: seq<Token>): Bytes
    requires AllPrintable(ts)
  {
    "\"" + PrintAll(ts) + "\""
  }

  lemma QuoteEndOver(s: Bytes, i: nat, t: Token)
    requires Printable(t) && TextAt(s, i, Print(t))
    ensures QuoteEnd(s, i, false) == QuoteEnd(s, i + |Print(t)|, false)
  {
    TextAtChars(s, i, Print(t));
    if !t.Plain? {
      assert QuoteEnd(s, i + 1, true) == QuoteEnd(s, i + 2, false);
    }
    if t.Octal? {
      assert QuoteEnd(s, i + 3, false) == QuoteEnd(s, i + 4, false);
    }
  }

  /** The scan from `i` goes on at `k`. */
  ghost predicate Passes(s: Bytes, i: nat, k: nat) {
    (i <= k <= |s| && QuoteEnd(s, i, false) == QuoteEnd(s, k, false)) == true
  }

  lemma {:induction false} QuoteEndAfter(s: Bytes, i: nat, ts: seq<Token>)
    requires AllPrintable(ts) && TextAt(s, i, PrintAll(ts))
    ensures Passes(s, i, i + |PrintAll(ts)|)
    decreases |ts|
  {
    if ts != [] {
      var p, rest := Print(ts[0]), PrintAll(ts[1..]);
      var n := |p|;
      assert PrintAll(ts) == p + rest;
      TextAtParts(s, i, p, rest);
      QuoteEndOver(s, i, ts[0]);
      QuoteEndAfter(s, i + n, ts[1..]);
    }
  }

  /** The scan stops at the closing quote of a printed token, whatever was escaped inside it. */
  lemma QuotedTokenExact(ts: seq<Token>, rest: Bytes)
    requires AllPrintable(ts)
    ensures QuotedToken(Quoted(ts) + rest) == Some((Quoted(ts), TrimLeft(rest, ' ')))
  {
    var s := Quoted(ts) + rest;
    var end := 1 + |PrintAll(ts)|;
    assert s[1..end] == PrintAll(ts) && s[end] == '"';
    QuoteEndAfter(s, 1, ts);
    assert QuoteEnd(s, end, false) == Some(end);
    assert s[..|Quoted(ts)|] == Quoted(ts) && s[|Quoted(ts)|..] == rest;
  }

  function MaybeQuoted(q: Unquoter, path: Bytes): Bytes {
    if path == "" then ""
    else
      match QuotedToken(path)
      case None => Unescape(path)
      case Some(t) =>
        match Unquote(q, t.0)
        case Some(u) => u
        case None => TrimRight(TrimLeft(t.0, '"'), '"')
  }

  // ---------------------------------------------------------------- legal paths

  datatype PathError = AbsolutePath | CurrentPath | ParentPath | GitPath

  function Lower(c: char): char {
    if 'A' <= c <= 'Z' then c - 'A' + 'a' else c
  }

  predicate EqualFold(s: Bytes, lower: Bytes) {
    |s| == |lower| && forall i :: 0 <= i < |s| ==> Lower(s[i]) == lower[i]
  }

  function PartError(part: Bytes): Option<PathError> {
    if part == "." then Some(CurrentPath)
    else if part == ".." then Some(ParentPath)
    else if EqualFold(part, ".git") then Some(GitPath)
    else None
  }

  function Components(path: Bytes): seq<Bytes>
    decreases |path|
  {
    var k := IndexFrom(path, '/', 0);
    if k == |path| then [path] else [path[..k]] + Components(path[k + 1..])
  }

  function FirstError(parts: seq<Bytes>): Option<PathError> {
    if parts == [] then None
    else if PartError(parts[0]).Some? then PartError(parts[0])
    else FirstError(parts[1..])
  }

  function PathProblem(path: Bytes): Option<PathError> {
    if path == "" || path == "/dev/null" then None
    else if path[0] == '/' then Some(AbsolutePath)
    else FirstError(Components(path))
  }

  method PartEnd(path: Bytes, start: nat) returns (end: nat)
    requires start <= |path|
    ensures start <= end <= |path| && '/' !in path[start..end] && (end < |path| ==> path[end] == '/')
  {
    end := start;
    while end < |path| && path[end] != '/'
      invariant start <= end <= |path|
      invariant '/' !in path[start..end]
    {
      end := end + 1;
    }
  }

  method CheckPath(path: Bytes) returns (e: Option<PathError>)
    ensures e == PathProblem(path)
  {
    if path == "" || path == "/dev/null" {
      return None;
    }
    if path[0] == '/' {
      return Some(AbsolutePath);
    }
    var start := 0;
    while start <= |path|
      invariant 0 <= start <= |path|
      invariant FirstError(Components(path)) == FirstError(Components(path[start..]))
      decreases |path| - start
    {
      var end := PartEnd(path, start);
      var part := path[start..end];
      FirstComponent(path, start, end);
      if part == "." {
        return Some(CurrentPath);
      }
      if part == ".." {
        return Some(ParentPath);
      }
      if EqualFold(part, ".git") {
        return Some(GitPath);
      }
      if end == |path| {
        break;
      }
      start := end + 1;
    }
    return None;
  }

  lemma FirstComponent(path: Bytes, start: nat, end: nat)
    requires start <= end <= |path| && '/' !in path[start..end] && (end < |path| ==> path[end] == '/')
    ensures FirstError(Components(path[start..])) ==
      if PartError(path[start..end]).Some? then PartError(path[start..end])
      else if end == |path| then None else FirstError(Components(path[end + 1..]))
  {
    var s := path[start..];
    assert s[0..end - start] == path[start..end];
    IndexIs(s, '/', 0, end - start);
    if end == |path| {
      assert s == path[start..end];
      assert FirstError([s]) == if PartError(s).Some? then PartError(s) else FirstError([s][1..]);
    } else {
      assert s[end - start + 1..] == path[end + 1..];
      assert Components(s) == [path[start..end]] + Components(path[end + 1..]);
    }
  }

  function Slashed(parts: seq<Bytes>): Bytes {
    if parts == [] then "" else if |parts| == 1 then parts[0] else parts[0] + "/" + Slashed(parts[1..])
  }

  lemma {:induction false} ComponentsOfSlashed(parts: seq<Bytes>)
    requires parts != [] && forall i :: 0 <= i < |parts| ==> '/' !in parts[i]
    ensures Components(Slashed(parts)) == parts
  {
    var s := Slashed(parts);
    assert s[0..|parts[0]|] == parts[0];
    IndexIs(s, '/', 0, |parts[0]|);
    if |parts| > 1 {
      assert s[|parts[0]| + 1..] == Slashed(parts[1..]);
      ComponentsOfSlashed(parts[1..]);
    }
  }

  predicate LegalPart(part: Bytes) {
    part != "." && part != ".." && !EqualFold(part, ".git")
  }

  lemma {:induction false} NoErrorMeans(parts: seq<Bytes>)
    ensures FirstError(parts).None? <==> forall i :: 0 <= i < |parts| ==> LegalPart(parts[i])
  {
    if parts != [] {
      NoErrorMeans(parts[1..]);
      assert parts == [parts[0]] + parts[1..];
    }
  }

  /** A relative path is accepted exactly when none of its components is special. */
  lemma LegalExactly(parts: seq<Bytes>)
    requires parts != [] && Slashed(parts) != "" && Slashed(parts)[0] != '/'
    requires forall i :: 0 <= i < |parts| ==> '/' !in parts[i]
    ensures PathProblem(Slashed(parts)).None? <==> forall i :: 0 <= i < |parts| ==> LegalPart(parts[i])
  {
    ComponentsOfSlashed(parts);
    NoErrorMeans(parts);
  }

  // ---------------------------------------------------------------- header lines

  function Sanitize(path: Bytes): Bytes {
    if HasPrefix(path, "a/") || HasPrefix(path, "b/") then path[2..] else path
  }

  /** The path in the rest of a `--- ` or `+++ ` line; empty for the null device. */
  function FileLinePath(q: Unquoter, rest: Bytes): Bytes {
    var path := TrimLine(rest);
    if path == "/dev/null" then ""
    else Sanitize(MaybeQuoted(q, path[..IndexFrom(path, '\t', 0)]))
  }

  const DIFF_GIT: Bytes := "diff --git "
  const MAX_CANDIDATES: nat := 64

  datatype Pair = Pair(left: Bytes, right: Bytes)

  function Decode(q: Unquoter, path: Bytes): Bytes {
    if HasPrefix(path, "\"") then MaybeQuoted(q, path) else Unescape(path)
  }

  predicate Symmetric(text: Bytes) {
    var mid := |text| / 2;
    && |text| % 2 == 1 && text[mid] == ' '
    && HasPrefix(text, "a/") && HasPrefix(text[mid + 1..], "b/") && 2 <= mid
    && text[2..mid] == text[mid + 3..]
  }

  predicate SplitsAt(text: Bytes, i: nat)
    requires i < |text|
  {
    text[i] == ' ' && i + 1 != |text| && (HasPrefix(text[i + 1..], "b/") || HasPrefix(text[i + 1..], "\"b/"))
  }

  /** Every way to read the text before `n` as the end of the left path. */
  function Splits(q: Unquoter, text: Bytes, n: nat): seq<Pair>
    requires n <= |text|
  {
    if n == 0 then []
    else if SplitsAt(text, n - 1)
    then Splits(q, text, n - 1) + [Pair(Decode(q, text[..n - 1]), Decode(q, text[n..]))]
    else Splits(q, text, n - 1)
  }

  /** All path pairs a `diff --git` header may mean; None when there are too many. */
  function HeaderPaths(q: Unquoter, line: Bytes): Option<seq<Pair>> {
    if !HasPrefix(line, DIFF_GIT) then Some([])
    else
      var text := TrimLeft(line[|DIFF_GIT|..], ' ');
      if text == "" then Some([])
      else if text[0] == '"' then
        match QuotedToken(text)
        case None => Some([])
        case Some(t) =>
          if t.1 == "" then Some([]) else Some([Pair(MaybeQuoted(q, t.0), MaybeQuoted(q, t.1))])
      else if Symmetric(text) then
        var mid := |text| / 2;
        Some([Pair(Unescape(text[..mid]), Unescape(text[mid + 1..]))])
      else
        var all := Splits(q, text, |text|);
        if |all| > MAX_CANDIDATES then None
        else if all != [] then Some(all)
        else
          var k := IndexFrom(text, ' ', 0);
          if k == |text| then Some([]) else Some([Pair(Decode(q, text[..k]), Decode(q, text[k + 1..]))])
  }

  lemma {:induction false} SplitsGrow(q: Unquoter, text: Bytes, i: nat, n: nat)
    requires i <= n <= |text|
    ensures |Splits(q, text, i)| <= |Splits(q, text, n)|
    decreases n
  {
    if i < n {
      SplitsGrow(q, text, i, n - 1);
    }
  }

  method DiffHeaderPaths(q: Unquoter, line: Bytes) returns (r: Option<seq<Pair>>)
    ensures r == HeaderPaths(q, line)
  {
    if !HasPrefix(line, DIFF_GIT) {
      return Some([]);
    }
    var text := TrimLeft(line[|DIFF_GIT|..], ' ');
    if text == "" {
      return Some([]);
    }
    if text[0] == '"' {
      var left, right, ok := ReadQuotedToken(text);
      if !ok || right == "" {
        return Some([]);
      }
      return Some([Pair(MaybeQuoted(q, left), MaybeQuoted(q, right))]);
    }
    if Symmetric(text) {
      var mid := |text| / 2;
      var left := UnescapeGitPath(text[..mid]);
      var right := UnescapeGitPath(text[mid + 1..]);
      return Some([Pair(left, right)]);
    }
    var paths: seq<Pair> := [];
    for i := 0 to |text|
      invariant paths == Splits(q, text, i) && |paths| <= MAX_CANDIDATES
    {
      if SplitsAt(text, i) {
        if |paths| == MAX_CANDIDATES {
          SplitsGrow(q, text, i + 1, |text|);
          return None;
        }
        paths := paths + [Pair(Decode(q, text[..i]), Decode(q, text[i + 1..]))];
      }
    }
    if paths == [] {
      var k := IndexFrom(text, ' ', 0);
      if k < |text| {
        paths := [Pair(Decode(q, text[..k]), Decode(q, text[k + 1..]))];
      }
    }
    return Some(paths);
  }

  function Header(path: Bytes): Bytes {
    DIFF_GIT + "a/" + path + " b/" + path
  }

  lemma SymmetricHeader(path: Bytes)
    ensures var text := "a/" + path + " b/" + path; var mid := |text| / 2;
      Symmetric(text) && text[..mid] == "a/" + path && text[mid + 1..] == "b/" + path
  {
  }

  /** The header of an unescaped path, spaces included, decodes to that path and nothing else. */
  lemma HeaderInverts(q: Unquoter, path: Bytes)
    requires '\\' !in path
    ensures HeaderPaths(q, Header(path)) == Some([Pair("a/" + path, "b/" + path)])
    ensures Sanitize("a/" + path) == path && Sanitize("b/" + path) == path
  {
    var text := "a/" + path + " b/" + path;
    var line := Header(path);
    assert line == DIFF_GIT + text && line[..|DIFF_GIT|] == DIFF_GIT && line[|DIFF_GIT|..] == text;
    assert text[0] == 'a' && TrimLeft(text, ' ') == text;
    SymmetricHeader(path);
    UnescapePlain("a/" + path, 0);
    UnescapePlain("b/" + path, 0);
  }

  // ---------------------------------------------------------------- two different paths

  /** What Git puts after `diff --git ` for unquoted paths. */
  function TwoPaths(left: Bytes, right: Bytes): Bytes {
    "a/" + left + " b/" + right
  }

  /** The candidates are exactly the ways to split the text. */
  lemma {:induction false} SplitsAre(q: Unquoter, text: Bytes, n: nat, p: Pair)
    requires n <= |text|
    ensures p in Splits(q, text, n) <==>
      exists i :: 0 <= i < n && SplitsAt(text, i) && p == Pair(Decode(q, text[..i]), Decode(q, text[i + 1..]))
    decreases n
  {
    if n > 0 {
      SplitsAre(q, text, n - 1, p);
    }
  }

  /** Where the text can be split: at a space before the right path. */
  predicate CutAt(text: Bytes, i: int) {
    0 <= i < |text| && text[i] == ' ' && (HasPrefix(text[i + 1..], "b/") || HasPrefix(text[i + 1..], "\"b/"))
  }

  function Cuts(text: Bytes, n: nat): set<int> {
    set i | 0 <= i < n && CutAt(text, i)
  }

  lemma CutIsSplit(text: Bytes, i: nat)
    requires i < |text|
    ensures CutAt(text, i) <==> SplitsAt(text, i)
  {
  }

  lemma CutsNext(text: Bytes, n: nat)
    ensures |Cuts(text, n + 1)| == |Cuts(text, n)| + if CutAt(text, n) then 1 else 0
  {
    assert n !in Cuts(text, n);
    assert Cuts(text, n + 1) == if CutAt(text, n) then Cuts(text, n) + {n} else Cuts(text, n);
  }

  lemma {:induction false} SplitsCount(q: Unquoter, text: Bytes, n: nat)
    requires n <= |text|
    ensures |Splits(q, text, n)| == |Cuts(text, n)|
    decreases n
  {
    if n > 0 {
      SplitsCount(q, text, n - 1);
      CutIsSplit(text, n - 1);
      CutsNext(text, n - 1);
    } else {
      assert Cuts(text, n) == {};
    }
  }

  lemma TrueSplit(q: Unquoter, left: Bytes, right: Bytes)
    requires '\\' !in left && '\\' !in right
    ensures var text := TwoPaths(left, right); Pair("a/" + left, "b/" + right) in Splits(q, text, |text|)
  {
    var text, k := TwoPaths(left, right), 2 + |left|;
    assert text[..k] == "a/" + left && text[k + 1..] == "b/" + right && text[k] == ' ';
    assert SplitsAt(text, k);
    UnescapePlain("a/" + left, 0);
    UnescapePlain("b/" + right, 0);
    assert text[..k][0] == 'a' && text[k + 1..][0] == 'b';
    SplitsAre(q, text, |text|, Pair("a/" + left, "b/" + right));
  }

  /** The shortcut finds the two paths only if they are one. */
  lemma ShortcutFinds(left: Bytes, right: Bytes)
    requires '\\' !in left && '\\' !in right && Symmetric(TwoPaths(left, right))
    ensures var text := TwoPaths(left, right); var mid := |text| / 2;
      Pair(Unescape(text[..mid]), Unescape(text[mid + 1..])) == Pair("a/" + left, "b/" + right) <==> left == right
  {
    var text := TwoPaths(left, right);
    var mid := |text| / 2;
    UnescapePlain(text[..mid], 0);
    UnescapePlain(text[mid + 1..], 0);
    if left == right {
      SymmetricHeader(left);
    }
  }

  lemma EqualIsSymmetric(left: Bytes, right: Bytes)
    requires left == right
    ensures Symmetric(TwoPaths(left, right))
  {
    SymmetricHeader(left);
  }

  lemma HeaderCandidates(q: Unquoter, text: Bytes)
    requires text != "" && text[0] == 'a' && Splits(q, text, |text|) != []
    ensures HeaderPaths(q, DIFF_GIT + text) ==
      if Symmetric(text) then Some([Pair(Unescape(text[..|text| / 2]), Unescape(text[|text| / 2 + 1..]))])
      else if |Splits(q, text, |text|)| > MAX_CANDIDATES then None
      else Some(Splits(q, text, |text|))
  {
    var line := DIFF_GIT + text;
    assert line[..|DIFF_GIT|] == DIFF_GIT && line[|DIFF_GIT|..] == text && TrimLeft(text, ' ') == text;
  }

  /**
   The candidates of a header contain the two paths it was written for if and only if these are
   equal, or it does not look like the header of one path and has at most 64 splits.
   */
  lemma PathsAmongCandidates(q: Unquoter, left: Bytes, right: Bytes)
    requires '\\' !in left && '\\' !in right
    ensures var text := TwoPaths(left, right); var r := HeaderPaths(q, DIFF_GIT + text);
      (r.Some? && Pair("a/" + left, "b/" + right) in r.value) <==>
      left == right || (!Symmetric(text) && |Cuts(text, |text|)| <= 64)
  {
    var text := TwoPaths(left, right);
    SplitsCount(q, text, |text|);
    TrueSplit(q, left, right);
    HeaderCandidates(q, text);
    if Symmetric(text) {
      ShortcutFinds(left, right);
    } else if left == right {
      EqualIsSymmetric(left, right);
    }
  }
}
