/** In-order subsequences: what a lossy but order-preserving channel may deliver. */
module Subsequence {

  predicate IsSubsequence<T(==)>(a: seq<T>, b: seq<T>) {
    a == [] ||
    (b != [] && (IsSubsequence(a, b[..|b| - 1]) ||
                 (a[|a| - 1] == b[|b| - 1] && IsSubsequence(a[..|a| - 1], b[..|b| - 1]))))
  }

  lemma Missed<T>(a: seq<T>, b: seq<T>, x: T)
    requires IsSubsequence(a, b)
    ensures IsSubsequence(a, b + [x])
  {
    assert (b + [x])[..|b|] == b;
  }

  lemma Kept<T>(a: seq<T>, b: seq<T>, x: T)
    requires IsSubsequence(a, b)
    ensures IsSubsequence(a + [x], b + [x])
  {
    assert (b + [x])[..|b|] == b && (a + [x])[..|a|] == a;
  }

  lemma {:induction false} Reflexive<T>(a: seq<T>)
    ensures IsSubsequence(a, a)
  {
    if a != [] {
      Reflexive(a[..|a| - 1]);
    }
  }

  lemma {:induction false} Transitive<T>(a: seq<T>, b: seq<T>, c: seq<T>)
    requires IsSubsequence(a, b) && IsSubsequence(b, c)
    ensures IsSubsequence(a, c)
    decreases |c|
  {
    if a != [] {
      var b', c' := b[..|b| - 1], c[..|c| - 1];
      if IsSubsequence(b, c') {
        Transitive(a, b, c');
      } else if IsSubsequence(a, b') {
        Transitive(a, b', c');
      } else {
        Transitive(a[..|a| - 1], b', c');
      }
    }
  }

  lemma {:induction false} Prefix<T>(x: seq<T>, m: seq<T>)
    ensures IsSubsequence(x, x + m)
  {
    if m == [] {
      assert x + m == x;
      Reflexive(x);
    } else {
      var m' := m[..|m| - 1];
      Prefix(x, m');
      Missed(x, x + m', m[|m| - 1]);
      assert (x + m') + [m[|m| - 1]] == x + m;
    }
  }

  lemma {:induction false} Omission<T>(x: seq<T>, m: seq<T>, y: seq<T>)
    ensures IsSubsequence(x + y, x + m + y)
  {
    if y == [] {
      Prefix(x, m);
      assert x + y == x && x + m + y == x + m;
    } else {
      var y' := y[..|y| - 1];
      Omission(x, m, y');
      Kept(x + y', x + m + y', y[|y| - 1]);
      assert (x + y') + [y[|y| - 1]] == x + y && (x + m + y') + [y[|y| - 1]] == x + m + y;
    }
  }

  /** Dropping a part from the middle keeps a subsequence one. */
  lemma DropMiddle<T>(x: seq<T>, m: seq<T>, y: seq<T>, b: seq<T>)
    requires IsSubsequence(x + m + y, b)
    ensures IsSubsequence(x + y, b)
  {
    Omission(x, m, y);
    Transitive(x + y, x + m + y, b);
  }
}
