/** Two orders of the same elements. */
module Permutations {

  lemma Middle<T>(before: seq<T>, x: T, after: seq<T>)
    ensures multiset(before + [x] + after) == multiset(before + after) + multiset{x}
  {
  }

  lemma Cancel<T>(a: multiset<T>, b: multiset<T>, x: T)
    requires a + multiset{x} == b + multiset{x}
    ensures a == b
  {
    assert a == a + multiset{x} - multiset{x};
    assert b == b + multiset{x} - multiset{x};
  }

  /** Where the last element of one order is in the other, and what is left. */
  lemma TakeLast<T>(a: seq<T>, b: seq<T>) returns (j: nat)
    requires multiset(a) == multiset(b) && a != []
    ensures j < |b| && b[j] == a[|a| - 1] && b == b[..j] + [b[j]] + b[j + 1..]
    ensures multiset(a[..|a| - 1]) == multiset(b[..j] + b[j + 1..])
  {
    j := Find(a, b);
    Split(a, |a| - 1);
    Split(b, j);
    Cancel(multiset(a[..|a| - 1]), multiset(b[..j] + b[j + 1..]), b[j]);
  }

  lemma Find<T>(a: seq<T>, b: seq<T>) returns (j: nat)
    requires multiset(a) == multiset(b) && a != []
    ensures j < |b| && b[j] == a[|a| - 1]
  {
    assert a[|a| - 1] in multiset(b);
    j :| 0 <= j < |b| && b[j] == a[|a| - 1];
  }

  lemma Split<T>(b: seq<T>, j: nat)
    requires j < |b|
    ensures b == b[..j] + [b[j]] + b[j + 1..]
    ensures multiset(b) == multiset(b[..j] + b[j + 1..]) + multiset{b[j]}
    ensures j == |b| - 1 ==> b[..j] + b[j + 1..] == b[..j]
  {
    assert b == b[..j] + [b[j]] + b[j + 1..];
    Middle(b[..j], b[j], b[j + 1..]);
  }

  lemma SameLength<T>(a: seq<T>, b: seq<T>)
    requires multiset(a) == multiset(b)
    ensures |a| == |b|
  {
    assert |multiset(a)| == |a| && |multiset(b)| == |b|;
  }
}
