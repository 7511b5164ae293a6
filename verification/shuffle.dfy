/** The shuffle of the pooled clips: every clip gets a key (`rand.Next()`),
    and `Array.Sort(keys, voices)` orders the clips by their keys.  The keys
    are an input here; the sort is an insertion sort on key and clip pairs,
    so the clips come out in ascending key order and none is lost or
    duplicated. */
module Shuffling {
  import opened Voices

  /** A clip together with the random key it is sorted by. */
  datatype Keyed = Keyed(key: int, voice: Voice)

  predicate KeySorted(s: seq<Keyed>) {
    forall i, j :: 0 <= i < j < |s| ==> s[i].key <= s[j].key
  }

  /** The clips of a keyed sequence, in its order. */
  function Clips(s: seq<Keyed>): (r: seq<Voice>)
    ensures |r| == |s| && forall k :: 0 <= k < |s| ==> r[k] == s[k].voice
  {
    seq(|s|, k requires 0 <= k < |s| => s[k].voice)
  }

  /** Inserting `x` before the first element whose key is not smaller. */
  function InsertKeyed(x: Keyed, s: seq<Keyed>): (r: seq<Keyed>)
    requires KeySorted(s)
    ensures KeySorted(r) && |r| == |s| + 1
    ensures multiset(r) == multiset(s) + multiset{x}
    ensures r[0] == (if s == [] || x.key <= s[0].key then x else s[0])
  {
    if s == [] || x.key <= s[0].key then
      [x] + s
    else
      assert s == [s[0]] + s[1..];
      [s[0]] + InsertKeyed(x, s[1..])
  }

  /** Sorting by key. */
  function SortKeyed(s: seq<Keyed>): (r: seq<Keyed>)
    ensures KeySorted(r) && |r| == |s|
    ensures multiset(r) == multiset(s)
  {
    if s == [] then
      []
    else
      assert s == [s[0]] + s[1..];
      InsertKeyed(s[0], SortKeyed(s[1..]))
  }

  lemma ClipsCons(x: Keyed, s: seq<Keyed>)
    ensures multiset(Clips([x] + s)) == multiset{x.voice} + multiset(Clips(s))
  {
    assert Clips([x] + s) == [x.voice] + Clips(s);
  }

  /** Inserting a pair adds its clip to the clips. */
  lemma {:induction false} InsertKeyedClips(x: Keyed, s: seq<Keyed>)
    requires KeySorted(s)
    ensures multiset(Clips(InsertKeyed(x, s))) == multiset(Clips(s)) + multiset{x.voice}
  {
    if s == [] || x.key <= s[0].key {
      ClipsCons(x, s);
    } else {
      assert s == [s[0]] + s[1..];
      InsertKeyedClips(x, s[1..]);
      ClipsCons(s[0], InsertKeyed(x, s[1..]));
      ClipsCons(s[0], s[1..]);
    }
  }

  /** Sorting the pairs keeps their clips. */
  lemma {:induction false} SortKeyedClips(s: seq<Keyed>)
    ensures multiset(Clips(SortKeyed(s))) == multiset(Clips(s))
  {
    if s != [] {
      assert s == [s[0]] + s[1..];
      SortKeyedClips(s[1..]);
      InsertKeyedClips(s[0], SortKeyed(s[1..]));
      ClipsCons(s[0], s[1..]);
    }
  }

  /** `Array.Sort(keys, voices)`: the clips, reordered by their keys. */
  function Shuffle(keys: seq<int>, pool: seq<Voice>): (r: seq<Voice>)
    requires |keys| == |pool|
    ensures |r| == |pool| && multiset(r) == multiset(pool)
  {
    var keyed := seq(|pool|, k requires 0 <= k < |pool| => Keyed(keys[k], pool[k]));
    assert Clips(keyed) == pool;
    SortKeyedClips(keyed);
    Clips(SortKeyed(keyed))
  }

  /** The shuffled clips stand in ascending order of the keys they were
      given: the clip at position `i` came from a pool position `p` whose key
      is not larger than that of the clip at any later position. */
  lemma ShuffleOrdered(keys: seq<int>, pool: seq<Voice>)
    requires |keys| == |pool|
    ensures var keyed := seq(|pool|, k requires 0 <= k < |pool| => Keyed(keys[k], pool[k]));
      var sorted := SortKeyed(keyed);
      && Shuffle(keys, pool) == Clips(sorted)
      && KeySorted(sorted)
      && forall i :: 0 <= i < |sorted| ==> exists p :: 0 <= p < |pool| && sorted[i] == Keyed(keys[p], pool[p])
  {
    var keyed := seq(|pool|, k requires 0 <= k < |pool| => Keyed(keys[k], pool[k]));
    var sorted := SortKeyed(keyed);
    forall i | 0 <= i < |sorted|
      ensures exists p :: 0 <= p < |pool| && sorted[i] == Keyed(keys[p], pool[p])
    {
      assert sorted[i] in multiset(sorted);
      assert sorted[i] in keyed;
      var p :| 0 <= p < |keyed| && keyed[p] == sorted[i];
    }
  }
}
