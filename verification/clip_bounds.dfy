/** How the container derives each clip's extent from the offset table
    (`table3`).  The table lists where each slot's payload starts; a clip's
    end is read off a sorted copy of the table that also holds the file
    length (`table3sort`), and the header is everything before the smallest
    of those boundaries. */
module ClipBounds {
  import opened Results
  import opened Sorting

  /** `table3sort`: the offset table with the file length appended, sorted. */
  function Boundaries(table3: seq<int>, fileLength: int): (b: seq<int>)
    ensures |b| == |table3| + 1
    ensures Sorted(b) && multiset(b) == multiset(table3 + [fileLength])
  {
    Sort(table3 + [fileLength])
  }

  /** `headersize = table3sort[0]`. */
  function HeaderSize(table3: seq<int>, fileLength: int): int {
    Boundaries(table3, fileLength)[0]
  }

  /** Where the clip starting at `t` ends:
      `table3sort[Array.IndexOf(table3sort, t) + 1]`, which fails when that
      index is past the end of the sorted table. */
  function SlotEnd(b: seq<int>, t: int): Result<int> {
    var k := IndexOf(b, t) + 1;
    if k < |b| then Ok(b[k]) else Err(OutOfRange)
  }

  /** The byte length the slot starting at `t` is given (0 when it fails). */
  function Gap(b: seq<int>, t: int): int {
    match SlotEnd(b, t)
    case Ok(e) => e - t
    case Err(_) => 0
  }

  function SumGaps(b: seq<int>, ts: seq<int>): int {
    if ts == [] then 0 else SumGaps(b, ts[..|ts| - 1]) + Gap(b, ts[|ts| - 1])
  }

  /** `e` is the smallest element of `s` strictly above `t`. */
  predicate IsNextAbove(s: seq<int>, t: int, e: int) {
    e in s && t < e && forall x :: x in s && t < x ==> e <= x
  }

  /** The header size is the minimum of the offset table and the file length. */
  lemma HeaderSizeIsMinimum(table3: seq<int>, fileLength: int)
    ensures HeaderSize(table3, fileLength) <= fileLength
    ensures forall i :: 0 <= i < |table3| ==> HeaderSize(table3, fileLength) <= table3[i]
    ensures HeaderSize(table3, fileLength) == fileLength || HeaderSize(table3, fileLength) in table3
  {
    var s := table3 + [fileLength];
    var b := Boundaries(table3, fileLength);
    forall i | 0 <= i < |s| ensures b[0] <= s[i] {
      assert s[i] in multiset(s);
      var k :| 0 <= k < |b| && b[k] == s[i];
    }
    forall i | 0 <= i < |table3| ensures b[0] <= table3[i] {
      assert s[i] == table3[i];
    }
    assert s[|table3|] == fileLength;
    assert b[0] in multiset(b);
    assert b[0] in s;
  }

  /** The boundary lookup on any sorted table: a repeated value gives a clip
      that ends where it starts; a value held once gives the next larger
      boundary, and fails exactly when there is none. */
  lemma SlotEndInSorted(b: seq<int>, t: int)
    requires Sorted(b) && t in b
    ensures multiset(b)[t] >= 2 ==> SlotEnd(b, t) == Ok(t)
    ensures multiset(b)[t] == 1 ==> (SlotEnd(b, t).Ok? <==> exists x :: x in b && t < x)
    ensures multiset(b)[t] == 1 && SlotEnd(b, t).Ok? ==> IsNextAbove(b, t, SlotEnd(b, t).value)
    ensures Gap(b, t) >= 0
  {
    if multiset(b)[t] >= 2 {
      SlotEndRepeated(b, t);
    } else {
      SlotEndSingle(b, t);
    }
  }

  lemma SlotEndRepeated(b: seq<int>, t: int)
    requires Sorted(b) && multiset(b)[t] >= 2
    ensures SlotEnd(b, t) == Ok(t)
  {
    var j := IndexOf(b, t);
    CopiesAt(b, t);
    var p, q :| 0 <= p < q < |b| && b[p] == t && b[q] == t;
    assert forall k :: 0 <= k < j ==> b[..j][k] == b[k];
    assert p >= j;
    assert b[j + 1] <= b[q];
  }

  lemma SlotEndSingle(b: seq<int>, t: int)
    requires Sorted(b) && multiset(b)[t] == 1
    ensures SlotEnd(b, t).Ok? <==> exists x :: x in b && t < x
    ensures SlotEnd(b, t).Ok? ==> IsNextAbove(b, t, SlotEnd(b, t).value)
    ensures Gap(b, t) >= 0
  {
    var j := IndexOf(b, t);
    if j + 1 < |b| {
      if b[j + 1] == t {
        TwoCopies(b, j, j + 1);
      }
      forall x | x in b && t < x ensures b[j + 1] <= x {
        var m :| 0 <= m < |b| && b[m] == x;
        assert j < m;
      }
      assert b[j + 1] in b;
    } else {
      forall x | x in b ensures x <= t {
        var m :| 0 <= m < |b| && b[m] == x;
        assert m <= j && b[m] <= b[j];
      }
    }
  }

  /** With pairwise-distinct offsets (none equal to the file length either),
      slot `i`'s clip runs from `table3[i]` to the next larger boundary, and
      the lookup fails exactly when the slot starts above every other
      boundary. */
  lemma SlotEndDistinct(table3: seq<int>, fileLength: int, i: int)
    requires 0 <= i < |table3| && Distinct(table3 + [fileLength])
    ensures var r := SlotEnd(Boundaries(table3, fileLength), table3[i]);
      && (r.Ok? <==> exists x :: x in table3 + [fileLength] && table3[i] < x)
      && (r.Ok? ==> IsNextAbove(table3 + [fileLength], table3[i], r.value))
  {
    var s := table3 + [fileLength];
    var b := Boundaries(table3, fileLength);
    assert s[i] == table3[i];
    CountOne(s, i);
    SameElements(s, b);
    SlotEndInSorted(b, table3[i]);
  }

  /** In a sequence without repeats every element is held once. */
  lemma CountOne(s: seq<int>, i: int)
    requires Distinct(s) && 0 <= i < |s|
    ensures multiset(s)[s[i]] == 1
  {
    assert s[i] in multiset(s);
    if multiset(s)[s[i]] >= 2 {
      CopiesAt(s, s[i]);
      assert false;
    }
  }

  lemma SameElements(a: seq<int>, b: seq<int>)
    requires multiset(a) == multiset(b)
    ensures forall x :: x in a <==> x in b
  {
    forall x ensures x in a <==> x in b {
      assert x in a <==> x in multiset(a);
      assert x in b <==> x in multiset(b);
    }
  }

  /** An offset that appears twice (or equals the file length) gives a
      zero-length clip, because `IndexOf` finds the first copy and the next
      sorted entry is the second. */
  lemma SlotEndDuplicate(table3: seq<int>, fileLength: int, i: int, j: int)
    requires 0 <= i < |table3| && 0 <= j <= |table3| && i != j
    requires (table3 + [fileLength])[j] == table3[i]
    ensures SlotEnd(Boundaries(table3, fileLength), table3[i]) == Ok(table3[i])
    ensures Gap(Boundaries(table3, fileLength), table3[i]) == 0
  {
    var s := table3 + [fileLength];
    assert s[i] == table3[i];
    if i < j { TwoCopies(s, i, j); } else { TwoCopies(s, j, i); }
    assert table3[i] in multiset(s);
    SlotEndInSorted(Boundaries(table3, fileLength), table3[i]);
  }

  lemma {:induction false} SumGapsAppend(b: seq<int>, x: seq<int>, y: seq<int>)
    ensures SumGaps(b, x + y) == SumGaps(b, x) + SumGaps(b, y)
  {
    if y != [] {
      assert (x + y)[..|x + y| - 1] == x + y[..|y| - 1];
      SumGapsAppend(b, x, y[..|y| - 1]);
    } else {
      assert x + y == x;
    }
  }

  /** Taking one offset out of the list takes its gap out of the sum. */
  lemma SumGapsRemove(b: seq<int>, y: seq<int>, j: int)
    requires 0 <= j < |y|
    ensures SumGaps(b, y) == SumGaps(b, y[..j] + y[j + 1..]) + Gap(b, y[j])
  {
    assert y == y[..j] + ([y[j]] + y[j + 1..]);
    SumGapsAppend(b, y[..j], [y[j]] + y[j + 1..]);
    SumGapsAppend(b, [y[j]], y[j + 1..]);
    SumGapsAppend(b, y[..j], y[j + 1..]);
    assert [y[j]][..0] == [];
  }

  /** The sum of the gaps does not depend on the order of the offsets. */
  lemma {:induction false} SumGapsPermutation(b: seq<int>, x: seq<int>, y: seq<int>)
    requires multiset(x) == multiset(y)
    ensures SumGaps(b, x) == SumGaps(b, y)
    decreases |x|
  {
    if x != [] {
      var n := |x| - 1;
      assert x == x[..n] + [x[n]];
      assert x[n] in multiset(y);
      var j :| 0 <= j < |y| && y[j] == x[n];
      var y' := y[..j] + y[j + 1..];
      MultisetRemove(x, y, j);
      SumGapsPermutation(b, x[..n], y');
      SumGapsRemove(b, y, j);
    } else {
      assert y == [];
    }
  }

  lemma MultisetRemove(x: seq<int>, y: seq<int>, j: int)
    requires multiset(x) == multiset(y) && x != [] && 0 <= j < |y| && y[j] == x[|x| - 1]
    ensures multiset(x[..|x| - 1]) == multiset(y[..j] + y[j + 1..])
  {
    var n := |x| - 1;
    assert x == x[..n] + [x[n]];
    assert y == y[..j] + [y[j]] + y[j + 1..];
    calc {
      multiset(x[..n]);
      multiset(x) - multiset{x[n]};
      multiset(y) - multiset{y[j]};
      multiset(y[..j] + y[j + 1..]);
    }
  }

  /** Telescoping: in a strictly increasing table the gaps of its first `k`
      entries add up to the distance from its first entry to entry `k`. */
  lemma {:induction false} SumGapsTelescope(b: seq<int>, k: nat)
    requires Sorted(b) && Distinct(b) && k < |b|
    ensures SumGaps(b, b[..k]) == b[k] - b[0]
  {
    if k > 0 {
      assert b[..k][..k - 1] == b[..k - 1];
      SumGapsTelescope(b, k - 1);
      IndexOfDistinct(b, k - 1);
    }
  }

  /** With pairwise-distinct offsets all below the file length, every slot
      finds its end, and the clip lengths add up to the file length minus the
      header size. */
  lemma GapsCoverPayload(table3: seq<int>, fileLength: int)
    requires Distinct(table3 + [fileLength])
    requires forall i :: 0 <= i < |table3| ==> table3[i] < fileLength
    ensures forall i :: 0 <= i < |table3| ==> SlotEnd(Boundaries(table3, fileLength), table3[i]).Ok?
    ensures SumGaps(Boundaries(table3, fileLength), table3) == fileLength - HeaderSize(table3, fileLength)
  {
    var s := table3 + [fileLength];
    var b := Boundaries(table3, fileLength);
    var n := |table3|;
    assert s[n] == fileLength;
    forall i | 0 <= i < n ensures SlotEnd(b, table3[i]).Ok? {
      SlotEndDistinct(table3, fileLength, i);
      assert fileLength in s;
    }
    DistinctPermutation(s, b);
    LastBoundary(table3, fileLength);
    InnerBoundaries(table3, fileLength);
    SumGapsPermutation(b, table3, b[..n]);
    SumGapsTelescope(b, n);
  }

  lemma InnerBoundaries(table3: seq<int>, fileLength: int)
    requires Boundaries(table3, fileLength)[|table3|] == fileLength
    ensures multiset(table3) == multiset(Boundaries(table3, fileLength)[..|table3|])
  {
    var b := Boundaries(table3, fileLength);
    var n := |table3|;
    assert b == b[..n] + [b[n]];
    assert multiset(b[..n]) == multiset(b) - multiset{fileLength};
    assert table3 + [fileLength] == table3 + [fileLength];
    assert multiset(table3) == multiset(table3 + [fileLength]) - multiset{fileLength};
  }

  /** When every offset lies below the file length, the file length is the
      last boundary. */
  lemma LastBoundary(table3: seq<int>, fileLength: int)
    requires forall i :: 0 <= i < |table3| ==> table3[i] < fileLength
    ensures Boundaries(table3, fileLength)[|table3|] == fileLength
  {
    var s := table3 + [fileLength];
    var b := Boundaries(table3, fileLength);
    var n := |table3|;
    SameElements(s, b);
    assert s[n] == fileLength;
    assert fileLength in s;
    var m :| 0 <= m < |b| && b[m] == fileLength;
    assert b[n] in s;
    var k :| 0 <= k < |s| && s[k] == b[n];
    assert b[m] <= b[n];
  }

  /** The worked example: offsets 100, 140, 180 in a 220-byte file give three
      40-byte clips after a 100-byte header. */
  lemma BoundaryExample(table3: seq<int>, fileLength: int)
    requires table3 == [100, 140, 180] && fileLength == 220
    ensures Boundaries(table3, fileLength) == table3 + [fileLength]
    ensures HeaderSize(table3, fileLength) == 100
    ensures forall i :: 0 <= i < 3 ==> Gap(Boundaries(table3, fileLength), table3[i]) == 40
  {
    var b := table3 + [fileLength];
    assert b[0] == 100 && b[1] == 140 && b[2] == 180 && b[3] == 220;
    assert Sorted(b) && Distinct(b);
    SortSorted(b);
    forall i | 0 <= i < 3 ensures Gap(b, table3[i]) == 40 {
      IndexOfDistinct(b, i);
      assert b[i] == table3[i];
    }
  }
}
