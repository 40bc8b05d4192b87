/** A setup that meets the laws asked of the tools: patches that spell out the whole content. */
module SessionExample {
  import opened SessionModel

  /** A text behind its length in unary. */
  function Tag(s: string): string {
    seq(|s|, i => '1') + "0" + s
  }

  function Ones(t: string): (n: nat)
    ensures n <= |t| && (n < |t| ==> t[n] != '1')
    ensures forall i :: 0 <= i < n ==> t[i] == '1'
  {
    if t != "" && t[0] == '1' then 1 + Ones(t[1..]) else 0
  }

  lemma {:induction false} OnesIs(t: string, n: nat)
    requires n < |t| && t[n] != '1' && forall i :: 0 <= i < n ==> t[i] == '1'
    ensures Ones(t) == n
    decreases n
  {
    if n > 0 {
      OnesIs(t[1..], n - 1);
    }
  }

  /** The first tagged text, and the rest. */
  function ReadTag(t: string): (r: (string, string))
    ensures t != "" ==> |r.1| < |t|
  {
    var n := Ones(t);
    if 2 * n + 1 <= |t| then (t[n + 1..2 * n + 1], t[2 * n + 1..]) else ("", "")
  }

  lemma ReadTagged(s: string, rest: string)
    ensures ReadTag(Tag(s) + rest) == (s, rest)
  {
    var t, n := Tag(s) + rest, |s|;
    assert t[n] == '0' && forall i :: 0 <= i < n ==> t[i] == '1';
    OnesIs(t, n);
    assert t[n + 1..2 * n + 1] == s && t[2 * n + 1..] == rest;
  }

  ghost function Pick(v: View): (key: string)
    requires v != map[]
    ensures key in v
  {
    var key :| key in v; key
  }

  ghost function Encode(v: View): string {
    if v == map[] then ""
    else Tag(Pick(v)) + (Tag(v[Pick(v)]) + Encode(v - {Pick(v)}))
  }

  ghost function Decode(t: string): View
    decreases |t|
  {
    if t == "" then map[]
    else
      var head := ReadTag(t);
      if head.1 == "" then map[]
      else
        var next := ReadTag(head.1);
        Decode(next.1)[head.0 := next.0]
  }

  lemma DecodeEntry(key: string, value: string, rest: string)
    ensures Decode(Tag(key) + (Tag(value) + rest)) == Decode(rest)[key := value]
  {
    ReadTagged(key, Tag(value) + rest);
    ReadTagged(value, rest);
    assert |Tag(key)| > 0 && |Tag(value)| > 0;
  }

  lemma {:induction false} DecodeEncode(v: View)
    ensures Decode(Encode(v)) == v
    decreases |v|
  {
    if v != map[] {
      var key := Pick(v);
      var less := v - {key};
      assert less.Keys == v.Keys - {key} && |less| == |v| - 1;
      DecodeEncode(less);
      DecodeEntry(key, v[key], Encode(less));
      assert less[key := v[key]] == v;
    }
  }

  ghost function Plain(): Setup {
    Setup(map[], "", false,
          (b: View, v: View) => Encode(v), (b: View, t: Text) => Decode(t),
          (b: View, u: View) => u, (b: View, v: View) => v, (t: Text) => |t|)
  }

  lemma PlainIsLawful()
    ensures Lawful(Plain())
  {
    forall v: View ensures Replay(Plain(), Diff(Plain(), v)) == v {
      DecodeEncode(v);
    }
  }
}
