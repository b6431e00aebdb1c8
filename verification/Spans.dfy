/** Byte strings standing at a position of a buffer. */
module Spans {
  import opened Bits

  predicate At(buf: seq<byte>, pos: nat, s: seq<byte>) {
    pos + |s| <= |buf| && buf[pos..pos + |s|] == s
  }

  lemma AtJoin(buf: seq<byte>, pos: nat, a: seq<byte>, b: seq<byte>)
    ensures At(buf, pos, a + b) <==> At(buf, pos, a) && At(buf, pos + |a|, b)
  {
    if At(buf, pos, a + b) {
      assert a == (a + b)[..|a|] && b == (a + b)[|a|..];
    }
    if At(buf, pos, a) && At(buf, pos + |a|, b) {
      assert buf[pos..pos + |a + b|] == buf[pos..pos + |a|] + buf[pos + |a|..pos + |a| + |b|];
    }
  }

  /** The first of two pieces, and where the second begins. */
  lemma TakeOff(buf: seq<byte>, pos: nat, a: seq<byte>, b: seq<byte>) returns (mid: nat)
    requires At(buf, pos, a + b)
    ensures pos <= mid == pos + |a| <= |buf| && buf[pos..mid] == a && At(buf, mid, b)
  {
    AtJoin(buf, pos, a, b);
    mid := pos + |a|;
  }

  lemma Associates<T>(a: seq<T>, b: seq<T>, c: seq<T>)
    ensures a + (b + c) == (a + b) + c
  {
  }

  lemma Cancel<T>(a: seq<T>, b: seq<T>, c: seq<T>)
    requires a + b == a + c
    ensures b == c
  {
    assert b == (a + b)[|a|..];
    assert c == (a + c)[|a|..];
  }

  lemma SliceOfRest(s: seq<byte>, at: nat, i: nat, j: nat, start: nat, end: nat)
    requires at <= |s| && i <= j <= |s| - at && start == at + i && end == at + j
    ensures s[at..][i..j] == s[start..end] && s[at..][j..] == s[end..]
  {
  }

  lemma InitLast<T>(s: seq<T>)
    requires s != []
    ensures s == s[..|s| - 1] + [s[|s| - 1]]
  {
  }
}
