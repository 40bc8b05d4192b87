/** Bounded capture of a command's output that notices one message wherever the writes cut it. */
module BoundedOutput {

  type Bytes = string

  const EXISTS_MESSAGE: Bytes := "already exists in working directory"
  const MAX_ERR_OUTPUT: nat := 512

  predicate At(s: Bytes, i: nat, m: Bytes) {
    i + |m| <= |s| && s[i..i + |m|] == m
  }

  predicate Contains(s: Bytes, m: Bytes) {
    exists i: nat | i <= |s| :: At(s, i, m)
  }

  function Min(a: nat, b: nat): nat { if a < b then a else b }

  function Suffix(s: Bytes, n: nat): (r: Bytes)
    ensures |r| == Min(|s|, n)
  {
    if |s| <= n then s else s[|s| - n..]
  }

  lemma AtSlice(s: Bytes, d: nat, e: nat, i: nat, m: Bytes)
    requires d <= e <= |s| && d + i + |m| <= e
    ensures At(s[d..e], i, m) <==> At(s, d + i, m)
  {
    var a, b := s[d..e][i..i + |m|], s[d + i..d + i + |m|];
    assert forall j :: 0 <= j < |m| ==> a[j] == s[d + i + j] && b[j] == s[d + i + j];
    assert a == b;
  }

  lemma SliceContains(s: Bytes, d: nat, e: nat, m: Bytes)
    requires d <= e <= |s| && Contains(s[d..e], m)
    ensures Contains(s, m)
  {
    var i: nat :| i <= |s[d..e]| && At(s[d..e], i, m);
    AtSlice(s, d, e, i, m);
  }

  lemma InSlice(s: Bytes, d: nat, e: nat, i: nat, m: Bytes)
    requires d <= i && i + |m| <= e <= |s| && At(s, i, m)
    ensures Contains(s[d..e], m)
  {
    AtSlice(s, d, e, i - d, m);
    assert At(s[d..e], i - d, m);
  }

  /** A message in `all + p` is in `all`, in `p`, or across: then within the overlap of both. */
  lemma WhereItLies(all: Bytes, p: Bytes, m: Bytes)
    requires |m| > 0
    ensures Contains(all + p, m) <==>
      Contains(all, m) || Contains(p, m) || Contains(Suffix(all, |m| - 1) + p[..Min(|p|, |m| - 1)], m)
  {
    var last, prefix := Suffix(all, |m| - 1), p[..Min(|p|, |m| - 1)];
    var s, n := all + p, |all|;
    var d, e := n - |last|, n + |prefix|;
    assert s[0..n] == all && s[n..|s|] == p && s[d..e] == last + prefix;
    if Contains(s, m) {
      var i: nat :| i <= |s| && At(s, i, m);
      if i + |m| <= n {
        InSlice(s, 0, n, i, m);
      } else if i >= n {
        InSlice(s, n, |s|, i, m);
      } else {
        InSlice(s, d, e, i, m);
      }
    }
    if Contains(all, m) { SliceContains(s, 0, n, m); }
    if Contains(p, m) { SliceContains(s, n, |s|, m); }
    if Contains(last + prefix, m) { SliceContains(s, d, e, m); }
  }

  lemma SuffixOfConcat(all: Bytes, p: Bytes, n: nat)
    ensures Suffix(all + p, n) == if |p| >= n then Suffix(p, n) else Suffix(Suffix(all, n) + p, n)
  {
  }

  lemma KeepsFirst(all: Bytes, p: Bytes, kept: Bytes, limit: nat)
    requires kept == all[..Min(|all|, limit)]
    ensures (all + p)[..Min(|all + p|, limit)] ==
      if |kept| < limit then kept + p[..Min(|p|, limit - |kept|)] else kept
  {
  }

  class Output {
    const message: Bytes
    var buffer: Bytes
    var last: Bytes
    var alreadyExists: bool
    /** Everything written so far. */
    ghost var written: Bytes

    ghost predicate Valid()
      reads this
    {
      && buffer == written[..Min(|written|, MAX_ERR_OUTPUT + 1)]
      && |message| > 0 && (alreadyExists <==> Contains(written, message))
      && (!alreadyExists ==> last == Suffix(written, |message| - 1))
    }

    constructor (message: Bytes)
      requires |message| > 0
      ensures Valid() && written == "" && this.message == message
    {
      this.message := message;
      buffer, last, alreadyExists, written := "", "", false, "";
      new;
      assert !Contains("", message);
    }

    /**
     One write.  By `Valid` the flag is set exactly when everything written so far contains the
     message, however it was cut, and the buffer is its first 513 bytes.
     */
    method Write(p: Bytes) returns (n: nat)
      requires Valid()
      modifies this
      ensures Valid() && written == old(written) + p && n == |p|
    {
      n := |p|;
      KeepsFirst(written, p, buffer, MAX_ERR_OUTPUT + 1);
      if !alreadyExists {
        Detect(p);
      } else {
        WhereItLies(written, p, message);
      }
      var remaining := MAX_ERR_OUTPUT + 1 - |buffer|;
      if remaining > 0 {
        buffer := buffer + p[..Min(|p|, remaining)];
      }
      written := written + p;
    }

    /** Look for the message in the new bytes and across the cut before them. */
    method Detect(p: Bytes)
      requires Valid() && !alreadyExists
      modifies this`alreadyExists, this`last
      ensures alreadyExists <==> Contains(written + p, message)
      ensures last == Suffix(written + p, |message| - 1)
    {
      var overlap := |message| - 1;
      WhereItLies(written, p, message);
      SuffixOfConcat(written, p, overlap);
      var prefix := p[..Min(|p|, overlap)];
      alreadyExists := Contains(p, message) || Contains(last + prefix, message);
      if |p| >= overlap {
        last := p[|p| - overlap..];
      } else {
        last := last + p;
        if |last| >= |message| {
          last := last[|last| - overlap..];
        }
      }
    }
  }

  // ---------------------------------------------------------------- any number of writes

  function Concat(writes: seq<Bytes>): Bytes {
    if writes == [] then "" else Concat(writes[..|writes| - 1]) + writes[|writes| - 1]
  }

  /** However a command's output is cut into writes, the detector equals a search of the whole. */
  method Capture(writes: seq<Bytes>) returns (found: bool, kept: Bytes)
    ensures found <==> Contains(Concat(writes), "already exists in working directory")
    ensures kept == Concat(writes)[..Min(|Concat(writes)|, 513)]
  {
    var out := new Output(EXISTS_MESSAGE);
    assert writes[..0] == [];
    for i := 0 to |writes|
      invariant out.Valid() && out.message == EXISTS_MESSAGE && out.written == Concat(writes[..i])
    {
      assert writes[..i + 1][..i] == writes[..i];
      var n := out.Write(writes[i]);
    }
    assert writes[..|writes|] == writes;
    return out.alreadyExists, out.buffer;
  }
}
