/** Byte sequences: searching, splitting and joining.

    A Go byte is a `char` in the layers that move and parse text; nothing they
    do depends on a byte being below 256. */
module Bytes {

  type Bytes = seq<char>

  /** Position of the first `b` in `s`, or -1. */
  function IndexByte(s: Bytes, b: char): (i: int)
    ensures -1 <= i < |s|
    ensures i >= 0 ==> s[i] == b && b !in s[..i]
    ensures i < 0 ==> b !in s
  {
    if s == [] then -1
    else if s[0] == b then 0
    else
      var j := IndexByte(s[1..], b);
      assert s == [s[0]] + s[1..];
      if j < 0 then -1 else
        assert s[..j + 1] == [s[0]] + s[1..][..j];
        j + 1
  }

  lemma {:induction false} IndexIs(s: Bytes, b: char, i: nat)
    requires i < |s| && s[i] == b && b !in s[..i]
    ensures IndexByte(s, b) == i
  {
    var j := IndexByte(s, b);
    assert j >= 0;
    assert forall k :: 0 <= k < i ==> s[k] in s[..i];
    assert forall k :: 0 <= k < j ==> s[k] in s[..j];
  }

  /** Searching may resume behind a stretch already known to lack `b`. */
  lemma {:induction false} IndexResume(s: Bytes, k: nat, b: char)
    requires k <= |s| && b !in s[..k]
    ensures IndexByte(s, b) == if IndexByte(s[k..], b) < 0 then -1 else k + IndexByte(s[k..], b)
  {
    var j := IndexByte(s[k..], b);
    assert s == s[..k] + s[k..];
    if j >= 0 {
      assert s[..k + j] == s[..k] + s[k..][..j];
      IndexIs(s, b, k + j);
    }
  }

  lemma Assoc(a: Bytes, b: Bytes, c: Bytes)
    ensures (a + b) + c == a + (b + c)
  {
  }

  /** A stretch without `b` in front shifts it. */
  lemma {:induction false} IndexSkip(s: Bytes, t: Bytes, b: char)
    requires b !in s && b in t
    ensures IndexByte(s + t, b) == |s| + IndexByte(t, b)
  {
    assert (s + t)[..|s|] == s && (s + t)[|s|..] == t;
    IndexResume(s + t, |s|, b);
  }

  function Concat(ss: seq<Bytes>): Bytes {
    if ss == [] then [] else ss[0] + Concat(ss[1..])
  }

  lemma {:induction false} ConcatAppend(ss: seq<Bytes>, ts: seq<Bytes>)
    ensures Concat(ss + ts) == Concat(ss) + Concat(ts)
  {
    if ss == [] {
      assert ss + ts == ts;
    } else {
      ConcatAppend(ss[1..], ts);
      assert (ss + ts)[0] == ss[0] && (ss + ts)[1..] == ss[1..] + ts;
      Assoc(ss[0], Concat(ss[1..]), Concat(ts));
    }
  }

  lemma {:induction false} ConcatSnoc(ss: seq<Bytes>, t: Bytes)
    ensures Concat(ss + [t]) == Concat(ss) + t
  {
    ConcatAppend(ss, [t]);
    assert Concat([t]) == t + Concat([]);
  }
}
