/** `sort_values(by=column, ascending=...)` on a grouped frame. The frame is
    sorted in place; no tie order is promised, because the default sort
    kind is not stable. */
module Sorting {

  /** `x` may come before `y` when sorting on `key` in the given direction. */
  predicate InOrder<T>(x: T, y: T, key: T -> int, descending: bool)
  {
    if descending then key(x) >= key(y) else key(x) <= key(y)
  }

  predicate Ordered<T>(s: seq<T>, key: T -> int, descending: bool)
  {
    forall i, j :: 0 <= i < j < |s| ==> InOrder(s[i], s[j], key, descending)
  }

  /** Exchanges two neighbouring rows. */
  method SwapDown<T>(a: array<T>, j: int)
    requires 0 < j < a.Length
    modifies a
    ensures a[j - 1] == old(a[j]) && a[j] == old(a[j - 1])
    ensures forall m :: 0 <= m < a.Length && m != j - 1 && m != j ==> a[m] == old(a[m])
    ensures multiset(a[..]) == old(multiset(a[..]))
  {
    a[j - 1], a[j] := a[j], a[j - 1];
  }

  /** Sorts `a` in place on `key`: the result is ordered and is a
      permutation of the old contents. */
  method SortBy<T>(a: array<T>, key: T -> int, descending: bool)
    modifies a
    ensures Ordered(a[..], key, descending)
    ensures multiset(a[..]) == old(multiset(a[..]))
  {
    var i := 0;
    while i < a.Length
      invariant 0 <= i <= a.Length
      invariant forall p, q :: 0 <= p < q < i ==> InOrder(a[p], a[q], key, descending)
      invariant multiset(a[..]) == old(multiset(a[..]))
    {
      // Move the row at i down past the rows that must come after it.
      var j := i;
      while j > 0 && !InOrder(a[j - 1], a[j], key, descending)
        invariant 0 <= j <= i
        invariant multiset(a[..]) == old(multiset(a[..]))
        invariant forall p, q :: 0 <= p < q <= i && p != j && q != j ==> InOrder(a[p], a[q], key, descending)
        invariant forall q :: j < q <= i ==> InOrder(a[j], a[q], key, descending)
      {
        SwapDown(a, j);
        j := j - 1;
      }
      i := i + 1;
    }
  }

  /** The frame `s` after sorting it: ordered on `key`, the same rows. */
  method Sorted<T>(s: seq<T>, key: T -> int, descending: bool) returns (r: seq<T>)
    ensures Ordered(r, key, descending)
    ensures multiset(r) == multiset(s)
    ensures |r| == |s|
  {
    var a := new T[|s|](i requires 0 <= i < |s| => s[i]);
    assert a[..] == s;
    SortBy(a, key, descending);
    r := a[..];
    assert |multiset(r)| == |multiset(s)|;
  }

  /** The first element of `a` sits at some position `j` of a permutation
      `b`, and the rest of `a` is a permutation of `b` without it. */
  lemma PermutationSplit<T>(a: seq<T>, b: seq<T>) returns (j: nat)
    requires multiset(a) == multiset(b)
    requires |a| > 0
    ensures j < |b| && b[j] == a[0]
    ensures multiset(a[1..]) == multiset(b[..j] + b[j + 1..])
    ensures b == b[..j] + [b[j]] + b[j + 1..]
  {
    assert a[0] in multiset(b);
    j :| 0 <= j < |b| && b[j] == a[0];
    assert b == b[..j] + [b[j]] + b[j + 1..];
    assert a == [a[0]] + a[1..];
    calc {
      multiset(a[1..]);
      multiset(a) - multiset{a[0]};
      multiset(b) - multiset{a[0]};
      multiset(b[..j]) + multiset{b[j]} + multiset(b[j + 1..]) - multiset{a[0]};
      multiset(b[..j] + b[j + 1..]);
    }
  }

  /** Permutations that agree on their first element are permutations
      after it. */
  lemma PermutationTail<T>(a: seq<T>, b: seq<T>)
    requires multiset(a) == multiset(b)
    requires |a| > 0 && |b| > 0 && a[0] == b[0]
    ensures multiset(a[1..]) == multiset(b[1..])
  {
    assert a == [a[0]] + a[1..];
    assert b == [b[0]] + b[1..];
    calc {
      multiset(a[1..]);
      multiset(a) - multiset{a[0]};
      multiset(b) - multiset{b[0]};
      multiset(b[1..]);
    }
  }
}
