/** Integer-sequence facts used for the offset table: a sorting function that
    stands for `Array.Sort(int[])`, `Array.IndexOf`, and what equal elements
    do to a multiset. */
module Sorting {

  predicate Sorted(s: seq<int>) {
    forall i, j :: 0 <= i < j < |s| ==> s[i] <= s[j]
  }

  predicate Distinct(s: seq<int>) {
    forall i, j :: 0 <= i < j < |s| ==> s[i] != s[j]
  }

  /** Inserting `x` into a sorted sequence before its first larger-or-equal
      element. */
  function Insert(x: int, s: seq<int>): (r: seq<int>)
    requires Sorted(s)
    ensures Sorted(r) && multiset(r) == multiset(s) + multiset{x}
    ensures |r| == |s| + 1 && r[0] == (if s == [] || x <= s[0] then x else s[0])
  {
    if s == [] || x <= s[0] then
      [x] + s
    else
      assert s == [s[0]] + s[1..];
      [s[0]] + Insert(x, s[1..])
  }

  /** Sorting integers in ascending order.  The sorted permutation of a
      multiset of integers is unique, so this agrees with any correct sort,
      whatever algorithm the library uses. */
  function Sort(s: seq<int>): (r: seq<int>)
    ensures Sorted(r) && multiset(r) == multiset(s) && |r| == |s|
  {
    if s == [] then
      []
    else
      assert s == [s[0]] + s[1..];
      Insert(s[0], Sort(s[1..]))
  }

  /** Sorting leaves an already sorted sequence as it is. */
  lemma {:induction false} SortSorted(s: seq<int>)
    requires Sorted(s)
    ensures Sort(s) == s
  {
    if s != [] {
      SortSorted(s[1..]);
      assert s == [s[0]] + s[1..];
    }
  }

  /** Two ascending sequences with the same elements are equal. */
  lemma {:induction false} SortedUnique(a: seq<int>, b: seq<int>)
    requires Sorted(a) && Sorted(b) && multiset(a) == multiset(b)
    ensures a == b
  {
    assert |a| == |multiset(a)| == |multiset(b)| == |b|;
    if a != [] {
      assert a[0] in multiset(b) && b[0] in multiset(a);
      var j :| 0 <= j < |b| && b[j] == a[0];
      var i :| 0 <= i < |a| && a[i] == b[0];
      assert b[0] <= b[j] && a[0] <= a[i];
      assert a == [a[0]] + a[1..] && b == [b[0]] + b[1..];
      assert multiset(a) == multiset{a[0]} + multiset(a[1..]);
      assert multiset(b) == multiset{b[0]} + multiset(b[1..]);
      assert a[0] == b[0];
      assert multiset(a[1..]) == multiset(a) - multiset{a[0]};
      assert multiset(b[1..]) == multiset(b) - multiset{b[0]};
      assert Sorted(a[1..]) && Sorted(b[1..]);
      SortedUnique(a[1..], b[1..]);
    }
  }

  /** Any ascending permutation of `s` is `Sort(s)`, so the model agrees
      with the library's sort whatever algorithm it uses. */
  lemma SortIsUnique(s: seq<int>, r: seq<int>)
    requires Sorted(r) && multiset(r) == multiset(s)
    ensures r == Sort(s)
  {
    SortedUnique(r, Sort(s));
  }

  /** `Array.IndexOf`: the first index holding `v`, or -1 when there is none. */
  function IndexOf(s: seq<int>, v: int): (j: int)
    ensures -1 <= j < |s|
    ensures 0 <= j ==> s[j] == v && v !in s[..j]
    ensures j == -1 <==> v !in s
  {
    if s == [] then
      -1
    else if s[0] == v then
      0
    else
      var j := IndexOf(s[1..], v);
      assert s == [s[0]] + s[1..];
      if j == -1 then -1
      else
        assert s[..j + 1] == [s[0]] + s[1..][..j];
        j + 1
  }

  /** Two positions holding the same value put it twice in the multiset. */
  lemma TwoCopies(s: seq<int>, p: int, q: int)
    requires 0 <= p < q < |s| && s[p] == s[q]
    ensures multiset(s)[s[p]] >= 2
  {
    assert s == s[..p] + [s[p]] + s[p + 1..q] + [s[q]] + s[q + 1..];
  }

  /** A value that the multiset holds twice sits at two positions. */
  lemma {:induction false} CopiesAt(s: seq<int>, v: int)
    requires multiset(s)[v] >= 2
    ensures exists p, q :: 0 <= p < q < |s| && s[p] == v && s[q] == v
  {
    assert s == [s[0]] + s[1..];
    if s[0] == v {
      assert v in multiset(s[1..]);
      var q :| 0 <= q < |s[1..]| && s[1..][q] == v;
      assert s[0] == v && s[q + 1] == v;
    } else {
      CopiesAt(s[1..], v);
      var p, q :| 0 <= p < q < |s[1..]| && s[1..][p] == v && s[1..][q] == v;
      assert s[p + 1] == v && s[q + 1] == v;
    }
  }

  /** Distinctness depends only on the multiset of the elements. */
  lemma DistinctPermutation(a: seq<int>, b: seq<int>)
    requires Distinct(a) && multiset(a) == multiset(b)
    ensures Distinct(b)
  {
    forall i, j | 0 <= i < j < |b| ensures b[i] != b[j] {
      if b[i] == b[j] {
        TwoCopies(b, i, j);
        CopiesAt(a, b[i]);
        assert false;
      }
    }
  }

  /** In a sorted sequence without repeated values, a value's index is the
      one `IndexOf` finds. */
  lemma IndexOfDistinct(s: seq<int>, k: int)
    requires Distinct(s) && 0 <= k < |s|
    ensures IndexOf(s, s[k]) == k
  {
    assert s[k] in s;
    assert forall j :: k < j <= |s| ==> s[..j][k] == s[k];
  }
}
