/** Names of metadata files: made from a session key, and recognised again in the state directory. */
module MetaNames {
  import opened Common

  /** Session keys are strings of code points. */
  type Text = string

  const NAME_LIMIT: nat := 48
  const DIGEST_LENGTH: nat := 16

  predicate IsSpace(c: char) {
    var n := c as int;
    9 <= n <= 13 || n == 32 || n == 0x85 || n == 0xa0 || n == 0x1680 || 0x2000 <= n <= 0x200a
    || n == 0x2028 || n == 0x2029 || n == 0x202f || n == 0x205f || n == 0x3000
  }

  predicate IsSafe(c: char) {
    'a' <= c <= 'z' || 'A' <= c <= 'Z' || '0' <= c <= '9' || c == '_' || c == '-'
  }

  function TrimSpace(s: Text): Text { Trim(s, IsSpace) }

  predicate IsCut(c: char) { c == '-' || c == '.' }

  function TrimCut(s: Text): Text { Trim(s, IsCut) }

  function Replaced(s: Text): (r: Text)
    ensures |r| == |s|
    ensures forall i :: 0 <= i < |s| ==> r[i] == if IsSafe(s[i]) then s[i] else '-'
  {
    if s == "" then "" else Replaced(s[..|s| - 1]) + [if IsSafe(s[|s| - 1]) then s[|s| - 1] else '-']
  }

  function Limited(s: Text): (r: Text)
    ensures |r| <= NAME_LIMIT && r <= s
  {
    if |s| <= NAME_LIMIT then s else s[..NAME_LIMIT]
  }

  function SafeName(raw: Text): Text {
    var name := TrimCut(Replaced(Limited(TrimSpace(raw))));
    if name == "" then "session" else name
  }

  method DaemonSafeName(raw: Text) returns (name: Text)
    ensures name == SafeName(raw)
  {
    var trimmed := TrimSpace(raw);
    var out := "";
    for i := 0 to |trimmed|
      invariant |out| == i <= NAME_LIMIT
      invariant out == Replaced(trimmed[..i])
    {
      if |out| >= NAME_LIMIT {
        break;
      }
      assert trimmed[..i + 1][..i] == trimmed[..i];
      out := out + [if IsSafe(trimmed[i]) then trimmed[i] else '-'];
    }
    assert |out| == |trimmed| ==> trimmed[..|out|] == trimmed;
    name := TrimCut(out);
    if name == "" {
      name := "session";
    }
  }

  /** No character of a key that begins and ends safely is lost: what is not safe becomes a dash. */
  lemma EachCharacterCounts(raw: Text)
    requires 0 < |raw| <= 48 && IsSafe(raw[0]) && raw[0] != '-' && IsSafe(raw[|raw| - 1]) && raw[|raw| - 1] != '-'
    ensures |SafeName(raw)| == |raw|
    ensures forall i :: 0 <= i < |raw| ==> SafeName(raw)[i] == if IsSafe(raw[i]) then raw[i] else '-'
  {
    assert TrimSpace(raw) == raw;
    assert TrimCut(Replaced(raw)) == Replaced(raw);
  }

  // ---------------------------------------------------------------- file names

  predicate IsHex(s: Text) {
    forall i :: 0 <= i < |s| ==> '0' <= s[i] <= '9' || 'a' <= s[i] <= 'f'
  }

  predicate IsDigest(s: Text) { |s| == DIGEST_LENGTH && IsHex(s) }

  const SUFFIX: Text := ".json"

  /** The file name for a key; `digest` stands for the first half of the key's hash. */
  function MetaFilename(key: Text, digest: Text): Text {
    SafeName(key) + "-" + digest + SUFFIX
  }

  /** Position of the last `-`, or -1. */
  function LastDash(s: Text): (k: int)
    ensures -1 <= k < |s|
  {
    if s == "" then -1 else if s[|s| - 1] == '-' then |s| - 1 else LastDash(s[..|s| - 1])
  }

  predicate ValidFilename(name: Text) {
    |name| >= |SUFFIX| && name[|name| - |SUFFIX|..] == SUFFIX
    && var stem := name[..|name| - |SUFFIX|];
       var sep := LastDash(stem);
       && 1 <= sep <= NAME_LIMIT && IsDigest(stem[sep + 1..])
       && SafeName(stem[..sep]) == stem[..sep]
  }

  /** A name that needs no changes. */
  predicate IsSafeName(s: Text) {
    0 < |s| <= 48 && (forall i :: 0 <= i < |s| ==> IsSafe(s[i])) && s[0] != '-' && s[|s| - 1] != '-'
  }

  lemma {:induction false} TrimCutSafe(s: Text)
    requires forall i :: 0 <= i < |s| ==> IsSafe(s[i])
    ensures TrimCut(s) == "" || (IsSafeName(TrimCut(s)) || |TrimCut(s)| > NAME_LIMIT)
    ensures |TrimCut(s)| <= |s|
    decreases |s|
  {
    if s != "" {
      if IsCut(s[0]) {
        TrimCutSafe(s[1..]);
      } else if IsCut(s[|s| - 1]) {
        TrimCutSafe(s[..|s| - 1]);
      }
    }
  }

  lemma SafeNameIsSafe(raw: Text)
    ensures IsSafeName(SafeName(raw))
  {
    var s := Replaced(Limited(TrimSpace(raw)));
    TrimCutSafe(s);
  }

  lemma SafeKeeps(s: Text)
    requires IsSafeName(s)
    ensures SafeName(s) == s
  {
  }

  /** A name is left as it is exactly when it is safe. */
  lemma SafeExactly(s: Text)
    ensures SafeName(s) == s <==> IsSafeName(s)
  {
    SafeNameIsSafe(s);
    if IsSafeName(s) {
      SafeKeeps(s);
    }
  }

  lemma {:induction false} LastDashIs(s: Text, k: nat)
    requires k < |s| && s[k] == '-' && '-' !in s[k + 1..]
    ensures LastDash(s) == k
    decreases |s|
  {
    if k < |s| - 1 {
      assert s[|s| - 1] == s[k + 1..][|s| - k - 2];
      assert s[..|s| - 1][k + 1..] == s[k + 1..][..|s| - k - 2];
      LastDashIs(s[..|s| - 1], k);
    }
  }

  /** The state directory scan recognises the file of every key, whatever the key contains. */
  lemma OwnFileIsValid(key: Text, digest: Text)
    requires |digest| == 16 && IsHex(digest)
    ensures ValidFilename(MetaFilename(key, digest))
  {
    var safe, name := SafeName(key), MetaFilename(key, digest);
    var stem := safe + "-" + digest;
    assert name == stem + SUFFIX;
    assert name[|name| - |SUFFIX|..] == SUFFIX && name[..|name| - |SUFFIX|] == stem;
    assert stem[|safe| + 1..] == digest && stem[..|safe|] == safe;
    LastDashIs(stem, |safe|);
    SafeNameIsSafe(key);
    SafeExactly(safe);
  }

  /** And it recognises nothing else. */
  lemma ValidFileIsOwn(name: Text)
    requires ValidFilename(name)
    ensures exists key, digest :: |digest| == 16 && IsHex(digest) && name == MetaFilename(key, digest)
  {
    var stem := name[..|name| - |SUFFIX|];
    var sep := LastDash(stem);
    LastDashHit(stem);
    var key, digest := stem[..sep], stem[sep + 1..];
    assert stem == key + "-" + digest;
    assert name == MetaFilename(key, digest);
  }

  lemma {:induction false} LastDashHit(s: Text)
    ensures LastDash(s) >= 0 ==> s[LastDash(s)] == '-'
  {
    if s != "" {
      LastDashHit(s[..|s| - 1]);
    }
  }
}
