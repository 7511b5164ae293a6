/** What a successful parse of an SCD container guarantees: the header size
    is the smallest clip start, the clips are the byte ranges between
    consecutive boundaries, they tile everything after the header, and each
    recorded duration field holds the duration its clip carries. */
module ParseProps {
  import opened Results
  import opened Bytes
  import opened Sorting
  import opened ClipBounds
  import opened Voices
  import opened Container

  /** Every slot has an offset-table entry inside the file. */
  ghost predicate Indexed(p: Parsed) {
    && |p.layout.offOffs| == |p.voices|
    && forall i :: 0 <= i < |p.voices| ==> Fits(p.layout.data, p.layout.offOffs[i], 4)
  }

  /** Where each slot's clip starts: the entries of the offset table. */
  ghost function Starts(p: Parsed): (r: seq<int>)
    requires Indexed(p)
    ensures |r| == |p.voices|
  {
    seq(|p.voices|, i requires 0 <= i < |p.voices| => I32(p.layout.data, p.layout.offOffs[i]))
  }

  lemma {:induction false} SlotsFromOk(data: seq<byte>, bounds: seq<int>, table3: seq<int>, i: nat, acc: seq<Voice>)
    requires i <= |table3| && SlotsFrom(data, bounds, table3, i, acc).Ok?
    ensures var r := SlotsFrom(data, bounds, table3, i, acc).value;
      && |r| == |acc| + |table3| - i && r[..|acc|] == acc
      && forall k :: i <= k < |table3| ==> SlotVoice(data, bounds, table3[k]) == Ok(r[|acc| + k - i])
    decreases |table3| - i
  {
    if i < |table3| {
      var v := SlotVoice(data, bounds, table3[i]).value;
      assert SlotsFrom(data, bounds, table3, i, acc) == SlotsFrom(data, bounds, table3, i + 1, acc + [v]);
      SlotsFromOk(data, bounds, table3, i + 1, acc + [v]);
      var r := SlotsFrom(data, bounds, table3, i, acc).value;
      assert r[..|acc| + 1][..|acc|] == r[..|acc|];
      assert r[|acc|] == r[..|acc| + 1][|acc|] == v;
      forall k | i <= k < |table3|
        ensures SlotVoice(data, bounds, table3[k]) == Ok(r[|acc| + k - i])
      {
        if k > i {
          assert |acc + [v]| + k - (i + 1) == |acc| + k - i;
        }
      }
    }
  }

  /** Clip `v` is the `gap` bytes of `data` starting at `t`, with no
      duration yet, and it is a placeholder exactly when its bytes 0xC..0x10
      are all 0xFF. */
  ghost predicate ClipAt(data: seq<byte>, t: int, gap: int, v: Voice) {
    && 0 <= t && |v.data| == gap && t + gap <= |data|
    && v.data == data[t..t + gap] && gap >= DUMMY_MARK + 4 && v.length == 0
    && (v.isDummy <==> data[t + DUMMY_MARK..t + DUMMY_MARK + 4] == [0xFF, 0xFF, 0xFF, 0xFF])
  }

  /** A clip that was sliced successfully is the `Gap` bytes at its start. */
  lemma SlotVoiceOk(data: seq<byte>, bounds: seq<int>, t: int, v: Voice)
    requires Sorted(bounds) && t in bounds
    requires forall x :: x in bounds ==> -0x8000_0000 <= x <= MAX_INT32
    requires SlotVoice(data, bounds, t) == Ok(v)
    ensures ClipAt(data, t, Gap(bounds, t), v)
  {
    SlotEndInSorted(bounds, t);
    var k := IndexOf(bounds, t) + 1;
    assert bounds[k] in bounds;
    var size := bounds[k] - t;
    assert v.data == data[t..t + size];
    assert v.data[DUMMY_MARK..DUMMY_MARK + 4] == data[t + DUMMY_MARK..t + DUMMY_MARK + 4];
  }

  /** Clips of positive length cannot share a start, nor start at the end of
      the file. */
  lemma PositiveGapsDistinct(table3: seq<int>, fileLength: int)
    requires forall i :: 0 <= i < |table3| ==> Gap(Boundaries(table3, fileLength), table3[i]) > 0
    ensures Distinct(table3 + [fileLength])
  {
    var s := table3 + [fileLength];
    forall p, q | 0 <= p < q < |s| ensures s[p] != s[q] {
      if s[p] == s[q] {
        SlotEndDuplicate(table3, fileLength, p, q);
        assert false;
      }
    }
  }

  lemma {:induction false} TotalLengthGaps(voices: seq<Voice>, bounds: seq<int>, table3: seq<int>)
    requires |voices| == |table3|
    requires forall i :: 0 <= i < |voices| ==> |voices[i].data| == Gap(bounds, table3[i])
    ensures TotalLength(voices) == SumGaps(bounds, table3)
  {
    if voices != [] {
      var n := |voices| - 1;
      TotalLengthGaps(voices[..n], bounds, table3[..n]);
    }
  }

  /** What slicing slot `i` guarantees when its offset table holds int32
      values. */
  lemma SlotFact(data: seq<byte>, table3: seq<int>, i: int, v: Voice)
    requires |data| <= MAX_INT32 && 0 <= i < |table3|
    requires forall k :: 0 <= k < |table3| ==> -0x8000_0000 <= table3[k] <= MAX_INT32
    requires SlotVoice(data, Boundaries(table3, |data|), table3[i]) == Ok(v)
    ensures ClipAt(data, table3[i], Gap(Boundaries(table3, |data|), table3[i]), v)
  {
    var s := table3 + [|data|];
    var bounds := Boundaries(table3, |data|);
    SameElements(s, bounds);
    forall x | x in bounds ensures -0x8000_0000 <= x <= MAX_INT32 {
      var k :| 0 <= k < |s| && s[k] == x;
    }
    assert s[i] == table3[i];
    SlotVoiceOk(data, bounds, table3[i], v);
  }

  /** The slot loop's result on any offset table of int32 values: each clip
      is the `Gap` bytes at its start, and the starts are pairwise distinct
      and differ from the file length. */
  lemma SlotsFacts(data: seq<byte>, table3: seq<int>)
    requires |data| <= MAX_INT32
    requires forall i :: 0 <= i < |table3| ==> -0x8000_0000 <= table3[i] <= MAX_INT32
    requires SlotsFrom(data, Boundaries(table3, |data|), table3, 0, []).Ok?
    ensures var bounds := Boundaries(table3, |data|);
      var slots := SlotsFrom(data, bounds, table3, 0, []).value;
      && |slots| == |table3|
      && Distinct(table3 + [|data|])
      && forall i :: 0 <= i < |slots| ==> ClipAt(data, table3[i], Gap(bounds, table3[i]), slots[i])
  {
    var bounds := Boundaries(table3, |data|);
    SlotsFromOk(data, bounds, table3, 0, []);
    var slots := SlotsFrom(data, bounds, table3, 0, []).value;
    forall i | 0 <= i < |table3|
      ensures ClipAt(data, table3[i], Gap(bounds, table3[i]), slots[i])
    {
      SlotFact(data, table3, i, slots[i]);
    }
    PositiveGapsDistinct(table3, |data|);
  }

  /** Clip `v` starts at `t` in `data` and runs up to the next larger
      boundary in `bounds` (clip start or file length); it is a placeholder
      exactly when its bytes 0xC..0x10 are 0xFF. */
  ghost predicate ClipOf(data: seq<byte>, bounds: seq<int>, t: int, v: Voice) {
    && 0 <= t && t + |v.data| <= |data|
    && v.data == data[t..t + |v.data|]
    && |v.data| >= DUMMY_MARK + 4
    && IsNextAbove(bounds, t, t + |v.data|)
    && (v.isDummy <==> data[t + DUMMY_MARK..t + DUMMY_MARK + 4] == [0xFF, 0xFF, 0xFF, 0xFF])
  }

  /** `voices` are the clips of `data` at `starts`, which are distinct and
      differ from the file length. */
  ghost predicate ClipsOf(data: seq<byte>, starts: seq<int>, voices: seq<Voice>) {
    && |starts| == |voices|
    && Distinct(starts + [|data|])
    && forall i :: 0 <= i < |voices| ==> ClipOf(data, starts + [|data|], starts[i], voices[i])
  }

  /** A clip of `Gap` length at a start of a distinct offset table is a
      clip up to the next boundary. */
  lemma ClipOfGap(data: seq<byte>, table3: seq<int>, i: int, v: Voice)
    requires 0 <= i < |table3| && Distinct(table3 + [|data|])
    requires SlotEnd(Boundaries(table3, |data|), table3[i]).Ok?
    requires ClipAt(data, table3[i], Gap(Boundaries(table3, |data|), table3[i]), v)
    ensures ClipOf(data, table3 + [|data|], table3[i], v)
  {
    NextAboveOfGap(table3, |data|, i, |v.data|);
  }

  /** The offset table `t.table3` was read from the file: one int32 per
      slot, at consecutive 4-byte fields. */
  ghost predicate TablesRead(data: seq<byte>, t: Tables) {
    && |t.table3| < 0x1_0000
    && forall i :: 0 <= i < |t.table3| ==>
         Fits(data, t.table3Off + 4 * i, 4) && t.table3[i] == I32(data, t.table3Off + 4 * i)
  }

  /** The slot loop's clips lie at the offset table's starts, carry no
      duration yet, and cover everything after the header. */
  ghost predicate SlotsRead(data: seq<byte>, t: Tables, slots: seq<Voice>) {
    && ClipsOf(data, t.table3, slots)
    && (forall i :: 0 <= i < |slots| ==> slots[i].length == 0)
    && TotalLength(slots) == |data| - HeaderSize(t.table3, |data|)
  }

  /** How the parse result `p` is put together from the tables `t` and the
      slot loop's clips `slots`. */
  ghost predicate Assembled(data: seq<byte>, t: Tables, slots: seq<Voice>, p: Parsed) {
    && p.layout.data == data
    && p.layout.headerSize == Boundaries(t.table3, |data|)[0]
    && p.layout.table3Off == t.table3Off
    && p.layout.offOffs == OffsetFields(t.table3Off, |t.table3|)
    && DurationsRecorded(data, p.layout.lengthOffs, p.voices, slots)
  }

  /** A successful parse, taken apart: the tables read, the slot loop
      succeeded, and the duration walk changed only durations. */
  lemma ParseDecomposition(data: seq<byte>)
    requires ParseSpec(data).Ok?
    ensures ReadTables(data).Ok?
    ensures var t := ReadTables(data).value;
      && TablesRead(data, t)
      && SlotsFrom(data, Boundaries(t.table3, |data|), t.table3, 0, []).Ok?
      && var slots := SlotsFrom(data, Boundaries(t.table3, |data|), t.table3, 0, []).value;
      && var p := ParseSpec(data).value;
      && Assembled(data, t, slots, p)
      && (U32(data, VERSION_FIELD) > LAST_DURATION_VERSION ==> p.layout.lengthOffs == map[] && p.voices == slots)
  {
    var t := ReadTables(data).value;
    var bounds := Boundaries(t.table3, |data|);
    var slots := SlotsFrom(data, bounds, t.table3, 0, []).value;
    SlotsFromOk(data, bounds, t.table3, 0, []);
    if U32(data, VERSION_FIELD) <= LAST_DURATION_VERSION {
      DurationsFromOk(data, t.table1, t.table2, 0, map[], slots, slots);
    }
  }

  lemma SlotsReadOk(data: seq<byte>, t: Tables)
    requires |data| <= MAX_INT32 && TablesRead(data, t)
    requires SlotsFrom(data, Boundaries(t.table3, |data|), t.table3, 0, []).Ok?
    ensures SlotsRead(data, t, SlotsFrom(data, Boundaries(t.table3, |data|), t.table3, 0, []).value)
  {
    forall i | 0 <= i < |t.table3| ensures -0x8000_0000 <= t.table3[i] <= MAX_INT32 {
      assert t.table3[i] == I32(data, t.table3Off + 4 * i);
    }
    SlotsFacts(data, t.table3);
    SlotsClips(data, t.table3, SlotsFrom(data, Boundaries(t.table3, |data|), t.table3, 0, []).value);
  }

  /** Facts each slot's clip gives about its `Gap`. */
  lemma GapsOfClips(data: seq<byte>, table3: seq<int>, slots: seq<Voice>)
    requires |slots| == |table3|
    requires forall i :: 0 <= i < |slots| ==> ClipAt(data, table3[i], Gap(Boundaries(table3, |data|), table3[i]), slots[i])
    ensures forall i :: 0 <= i < |slots| ==>
      |slots[i].data| == Gap(Boundaries(table3, |data|), table3[i]) && table3[i] + |slots[i].data| <= |data|
        && |slots[i].data| > 0 && table3[i] < |data| && slots[i].length == 0
  {
    var bounds := Boundaries(table3, |data|);
    forall i | 0 <= i < |slots|
      ensures |slots[i].data| == Gap(bounds, table3[i]) && table3[i] + |slots[i].data| <= |data|
      ensures |slots[i].data| > 0 && table3[i] < |data| && slots[i].length == 0
    {
      assert ClipAt(data, table3[i], Gap(bounds, table3[i]), slots[i]);
    }
  }

  lemma SlotsClips(data: seq<byte>, table3: seq<int>, slots: seq<Voice>)
    requires |slots| == |table3| && Distinct(table3 + [|data|])
    requires forall i :: 0 <= i < |slots| ==> ClipAt(data, table3[i], Gap(Boundaries(table3, |data|), table3[i]), slots[i])
    ensures ClipsOf(data, table3, slots)
    ensures forall i :: 0 <= i < |slots| ==> slots[i].length == 0
    ensures TotalLength(slots) == |data| - HeaderSize(table3, |data|)
  {
    GapsOfClips(data, table3, slots);
    SlotsClipsOf(data, table3, slots);
    ClipsCover(|data|, table3, slots);
  }

  lemma SlotsClipsOf(data: seq<byte>, table3: seq<int>, slots: seq<Voice>)
    requires |slots| == |table3| && Distinct(table3 + [|data|])
    requires forall i :: 0 <= i < |slots| ==> ClipAt(data, table3[i], Gap(Boundaries(table3, |data|), table3[i]), slots[i])
    requires forall i :: 0 <= i < |table3| ==> table3[i] < |data|
    ensures ClipsOf(data, table3, slots)
  {
    GapsCoverPayload(table3, |data|);
    forall i | 0 <= i < |slots| ensures ClipOf(data, table3 + [|data|], table3[i], slots[i]) {
      ClipOfGap(data, table3, i, slots[i]);
    }
  }

  /** The offset table read by the parse is the list of clip starts. */
  lemma AssembledStarts(data: seq<byte>, t: Tables, p: Parsed)
    requires TablesRead(data, t) && |p.voices| == |t.table3|
    requires p.layout.data == data && p.layout.offOffs == OffsetFields(t.table3Off, |t.table3|)
    ensures Indexed(p) && Starts(p) == t.table3
  {
    forall i | 0 <= i < |p.voices| ensures Fits(data, p.layout.offOffs[i], 4) {
      assert p.layout.offOffs[i] == t.table3Off + 4 * i;
    }
    forall i | 0 <= i < |p.voices| ensures Starts(p)[i] == t.table3[i] {
      assert p.layout.offOffs[i] == t.table3Off + 4 * i;
    }
  }

  lemma NextAboveOfGap(table3: seq<int>, fileLength: int, i: int, len: int)
    requires 0 <= i < |table3| && Distinct(table3 + [fileLength])
    requires SlotEnd(Boundaries(table3, fileLength), table3[i]).Ok?
    requires len == Gap(Boundaries(table3, fileLength), table3[i])
    ensures IsNextAbove(table3 + [fileLength], table3[i], table3[i] + len)
  {
    SlotEndDistinct(table3, fileLength, i);
  }

  /** Clips of `Gap` length at distinct starts together cover everything
      after the header. */
  lemma ClipsCover(fileLength: int, table3: seq<int>, voices: seq<Voice>)
    requires |voices| == |table3| && Distinct(table3 + [fileLength])
    requires forall i :: 0 <= i < |table3| ==>
      |voices[i].data| == Gap(Boundaries(table3, fileLength), table3[i]) && table3[i] + |voices[i].data| <= fileLength
        && |voices[i].data| > 0
    ensures TotalLength(voices) == fileLength - HeaderSize(table3, fileLength)
  {
    GapsCoverPayload(table3, fileLength);
    TotalLengthGaps(voices, Boundaries(table3, fileLength), table3);
  }

  /** The header size is the smallest clip start, or the file length when
      the container has no slots. */
  lemma ParsedHeaderSize(data: seq<byte>)
    requires |data| <= MAX_INT32 && ParseSpec(data).Ok?
    ensures var p := ParseSpec(data).value;
      && p.layout.data == data
      && Indexed(p) && |p.voices| < 0x1_0000
      && (forall i :: 0 <= i < |p.voices| ==> p.layout.offOffs[i] == p.layout.table3Off + 4 * i)
      && 0 <= p.layout.headerSize <= |data|
      && (forall i :: 0 <= i < |p.voices| ==> p.layout.headerSize <= Starts(p)[i])
      && (p.layout.headerSize == |data| || exists i :: 0 <= i < |p.voices| && Starts(p)[i] == p.layout.headerSize)
  {
    ParseDecomposition(data);
    var t := ReadTables(data).value;
    SlotsReadOk(data, t);
    AssembledHeaderSize(data, t, SlotsFrom(data, Boundaries(t.table3, |data|), t.table3, 0, []).value, ParseSpec(data).value);
  }

  lemma AssembledHeaderSize(data: seq<byte>, t: Tables, slots: seq<Voice>, p: Parsed)
    requires TablesRead(data, t) && SlotsRead(data, t, slots) && Assembled(data, t, slots, p)
    ensures Indexed(p) && |p.voices| < 0x1_0000
    ensures forall i :: 0 <= i < |p.voices| ==> p.layout.offOffs[i] == p.layout.table3Off + 4 * i
    ensures 0 <= p.layout.headerSize <= |data|
    ensures forall i :: 0 <= i < |p.voices| ==> p.layout.headerSize <= Starts(p)[i]
    ensures p.layout.headerSize == |data| || exists i :: 0 <= i < |p.voices| && Starts(p)[i] == p.layout.headerSize
  {
    assert |p.voices| == |slots| == |t.table3|;
    AssembledStarts(data, t, p);
    HeaderSizeIsMinimum(t.table3, |data|);
    if p.layout.headerSize != |data| {
      var i :| 0 <= i < |t.table3| && t.table3[i] == p.layout.headerSize;
      assert Starts(p)[i] == p.layout.headerSize;
    }
  }

  /** The parsed clips are the byte ranges between consecutive boundaries,
      and together they cover everything after the header. */
  lemma ParsedClips(data: seq<byte>)
    requires |data| <= MAX_INT32 && ParseSpec(data).Ok?
    ensures var p := ParseSpec(data).value;
      && Indexed(p)
      && ClipsOf(data, Starts(p), p.voices)
      && TotalLength(p.voices) == |data| - p.layout.headerSize
  {
    ParseDecomposition(data);
    var t := ReadTables(data).value;
    SlotsReadOk(data, t);
    AssembledClips(data, t, SlotsFrom(data, Boundaries(t.table3, |data|), t.table3, 0, []).value, ParseSpec(data).value);
  }

  /** Only the bytes and the placeholder flag of a clip matter to
      `ClipsOf`. */
  lemma ClipsOfSameClips(data: seq<byte>, starts: seq<int>, a: seq<Voice>, b: seq<Voice>)
    requires ClipsOf(data, starts, a) && |a| == |b|
    requires forall i :: 0 <= i < |a| ==> a[i].data == b[i].data && a[i].isDummy == b[i].isDummy
    ensures ClipsOf(data, starts, b)
    ensures forall i :: 0 <= i < |a| ==> |a[i].data| == |b[i].data|
  {
    forall i | 0 <= i < |b| ensures ClipOf(data, starts + [|data|], starts[i], b[i]) {
      assert ClipOf(data, starts + [|data|], starts[i], a[i]);
    }
  }

  lemma AssembledClips(data: seq<byte>, t: Tables, slots: seq<Voice>, p: Parsed)
    requires TablesRead(data, t) && SlotsRead(data, t, slots) && Assembled(data, t, slots, p)
    ensures Indexed(p)
    ensures ClipsOf(data, Starts(p), p.voices)
    ensures TotalLength(p.voices) == |data| - p.layout.headerSize
  {
    assert |p.voices| == |slots| == |t.table3|;
    AssembledStarts(data, t, p);
    ClipsOfSameClips(data, t.table3, slots, p.voices);
    TotalLengthSameSizes(p.voices, slots);
  }

  /** The duration walk keeps this: every recorded slot index names a clip
      whose duration is the u32 at its recorded field; the other clips keep
      their duration; no clip's bytes or placeholder flag change. */
  ghost predicate DurationsRecorded(data: seq<byte>, lengthOffs: map<int, int>, voices: seq<Voice>, base: seq<Voice>) {
    && |voices| == |base|
    && (forall w :: 0 <= w < |voices| ==> voices[w].data == base[w].data && voices[w].isDummy == base[w].isDummy)
    && (forall w :: w in lengthOffs ==>
          0 <= w < |voices| && Fits(data, lengthOffs[w], 4) && voices[w].length == U32(data, lengthOffs[w]))
    && (forall w :: 0 <= w < |voices| && w !in lengthOffs ==> voices[w].length == base[w].length)
  }

  lemma {:induction false} DurationsFromOk(data: seq<byte>, table1: seq<int>, table2: seq<int>, i: nat,
                                           lengthOffs: map<int, int>, voices: seq<Voice>, base: seq<Voice>)
    requires DurationsRecorded(data, lengthOffs, voices, base)
    requires DurationsFrom(data, table1, table2, i, lengthOffs, voices).Ok?
    ensures var r := DurationsFrom(data, table1, table2, i, lengthOffs, voices).value;
      DurationsRecorded(data, r.0, r.1, base)
    decreases |table1| - i
  {
    if i < |table1| {
      var next := DurationStep(data, table1, table2, i, lengthOffs, voices).value;
      assert DurationsRecorded(data, next.0, next.1, base);
      DurationsFromOk(data, table1, table2, i + 1, next.0, next.1, base);
    }
  }

  /** Entry `e` of the entry table names slot `w`: its tag is not 0x100,
      its `table2` index is in range, and its slot index is `w`. */
  ghost predicate Names(data: seq<byte>, table1: seq<int>, table2: seq<int>, e: int, w: int)
    requires 0 <= e < |table1|
  {
    && Fits(data, table1[e], 2) && U16(data, table1[e]) != NO_DURATION_TAG
    && Fits(data, table1[e] + ENTRY_TABLE2_INDEX, 2) && U16(data, table1[e] + ENTRY_TABLE2_INDEX) < |table2|
    && Fits(data, table1[e] + ENTRY_SLOT_INDEX, 2) && U16(data, table1[e] + ENTRY_SLOT_INDEX) == w
  }

  /** The duration field that entry `e` points at: its `table2` entry plus
      0x50. */
  ghost function FieldOf(data: seq<byte>, table1: seq<int>, table2: seq<int>, e: int): int
    requires 0 <= e < |table1| && Fits(data, table1[e] + ENTRY_TABLE2_INDEX, 2)
    requires U16(data, table1[e] + ENTRY_TABLE2_INDEX) < |table2|
  {
    table2[U16(data, table1[e] + ENTRY_TABLE2_INDEX)] + DURATION_DISTANCE
  }

  /** Every read the walk makes of entry `e` is in range: its tag and, unless
      the tag is 0x100, its `table2` index, its slot index (below `n`) and
      the duration field it points at. */
  ghost predicate EntryRead(data: seq<byte>, table1: seq<int>, table2: seq<int>, e: int, n: int)
    requires 0 <= e < |table1|
  {
    && Fits(data, table1[e], 2)
    && (U16(data, table1[e]) != NO_DURATION_TAG ==>
          && Fits(data, table1[e] + ENTRY_TABLE2_INDEX, 2) && U16(data, table1[e] + ENTRY_TABLE2_INDEX) < |table2|
          && Fits(data, table1[e] + ENTRY_SLOT_INDEX, 2) && U16(data, table1[e] + ENTRY_SLOT_INDEX) < n
          && Fits(data, FieldOf(data, table1, table2, e), 4))
  }

  /** `off` is the field of the last entry before `i` that names slot `w`. */
  ghost predicate LastNaming(data: seq<byte>, table1: seq<int>, table2: seq<int>, i: int, w: int, off: int)
    requires i <= |table1|
  {
    exists e ::
      && 0 <= e < i
      && Names(data, table1, table2, e, w)
      && FieldOf(data, table1, table2, e) == off
      && forall e' :: e < e' < i ==> !Names(data, table1, table2, e', w)
  }

  /** After the walk has passed the entries before `i`: the recorded slots
      are those some earlier entry names, each with the field of the last
      entry naming it. */
  ghost predicate NamedUpTo(data: seq<byte>, table1: seq<int>, table2: seq<int>, i: int, lengthOffs: map<int, int>)
    requires i <= |table1|
  {
    && (forall w :: w in lengthOffs <==> exists e :: 0 <= e < i && Names(data, table1, table2, e, w))
    && (forall w :: w in lengthOffs ==> LastNaming(data, table1, table2, i, w, lengthOffs[w]))
  }

  /** One step of the walk keeps `NamedUpTo`, reads entry `i` in range and
      keeps the number of clips. */
  lemma NamesStep(data: seq<byte>, table1: seq<int>, table2: seq<int>, i: nat,
                  lengthOffs: map<int, int>, voices: seq<Voice>)
    requires i < |table1| && NamedUpTo(data, table1, table2, i, lengthOffs)
    requires DurationStep(data, table1, table2, i, lengthOffs, voices).Ok?
    ensures var next := DurationStep(data, table1, table2, i, lengthOffs, voices).value;
      && NamedUpTo(data, table1, table2, i + 1, next.0)
      && |next.1| == |voices|
      && EntryRead(data, table1, table2, i, |voices|)
  {
    var next := DurationStep(data, table1, table2, i, lengthOffs, voices).value;
    var m := next.0;
    var tagged := U16(data, table1[i]) != NO_DURATION_TAG;
    var slot := if tagged then U16(data, table1[i] + ENTRY_SLOT_INDEX) else -1;
    assert tagged ==> m == lengthOffs[slot := FieldOf(data, table1, table2, i)];
    assert !tagged ==> m == lengthOffs;
    forall w ensures Names(data, table1, table2, i, w) <==> tagged && w == slot {
    }
    forall w ensures w in m <==> exists e :: 0 <= e < i + 1 && Names(data, table1, table2, e, w) {
      if w in m && !(tagged && w == slot) {
        assert w in lengthOffs;
        var e :| 0 <= e < i && Names(data, table1, table2, e, w);
        assert 0 <= e < i + 1;
      } else if tagged && w == slot {
        assert Names(data, table1, table2, i, w);
      }
    }
    forall w | w in m ensures LastNaming(data, table1, table2, i + 1, w, m[w]) {
      if tagged && w == slot {
        assert Names(data, table1, table2, i, w);
      } else {
        assert LastNaming(data, table1, table2, i, w, lengthOffs[w]);
        var e :| && 0 <= e < i && Names(data, table1, table2, e, w)
                 && FieldOf(data, table1, table2, e) == lengthOffs[w]
                 && forall e' :: e < e' < i ==> !Names(data, table1, table2, e', w);
        assert forall e' :: e < e' < i + 1 ==> !Names(data, table1, table2, e', w);
      }
    }
  }

  /** The walk from entry `i` on: the recorded slots end up being those that
      some entry names, each with the field of the last entry naming it, and
      every entry read is in range. */
  lemma {:induction false} DurationsFromNames(data: seq<byte>, table1: seq<int>, table2: seq<int>, i: nat,
                                              lengthOffs: map<int, int>, voices: seq<Voice>)
    requires i <= |table1| && NamedUpTo(data, table1, table2, i, lengthOffs)
    requires DurationsFrom(data, table1, table2, i, lengthOffs, voices).Ok?
    ensures NamedUpTo(data, table1, table2, |table1|, DurationsFrom(data, table1, table2, i, lengthOffs, voices).value.0)
    ensures forall e :: i <= e < |table1| ==> EntryRead(data, table1, table2, e, |voices|)
    decreases |table1| - i
  {
    if i < |table1| {
      var next := DurationStep(data, table1, table2, i, lengthOffs, voices).value;
      NamesStep(data, table1, table2, i, lengthOffs, voices);
      DurationsFromNames(data, table1, table2, i + 1, next.0, next.1);
    }
  }

  /** Duration fields: in version 3 and earlier the recorded slots are
      exactly those some entry names, each recorded at the field of the last
      entry naming it, every entry was read in range, every recorded slot's
      clip has the duration in its field and the others read 0; later
      versions record none. */
  lemma ParsedDurations(data: seq<byte>)
    requires |data| <= MAX_INT32 && ParseSpec(data).Ok?
    ensures var p := ParseSpec(data).value;
      && (U32(data, VERSION_FIELD) > LAST_DURATION_VERSION ==> p.layout.lengthOffs == map[])
      && (forall w :: w in p.layout.lengthOffs ==>
            && 0 <= w < |p.voices| && Fits(data, p.layout.lengthOffs[w], 4)
            && p.voices[w].length == U32(data, p.layout.lengthOffs[w]))
      && (forall w :: 0 <= w < |p.voices| && w !in p.layout.lengthOffs ==> p.voices[w].length == 0)
    ensures var p := ParseSpec(data).value;
      var t := ReadTables(data).value;
      U32(data, VERSION_FIELD) <= LAST_DURATION_VERSION ==>
        && (forall e :: 0 <= e < |t.table1| ==> EntryRead(data, t.table1, t.table2, e, |p.voices|))
        && (forall w :: w in p.layout.lengthOffs <==> exists e :: 0 <= e < |t.table1| && Names(data, t.table1, t.table2, e, w))
        && (forall w :: w in p.layout.lengthOffs ==>
              LastNaming(data, t.table1, t.table2, |t.table1|, w, p.layout.lengthOffs[w]))
  {
    ParseDecomposition(data);
    var t := ReadTables(data).value;
    SlotsReadOk(data, t);
    if U32(data, VERSION_FIELD) <= LAST_DURATION_VERSION {
      var slots := SlotsFrom(data, Boundaries(t.table3, |data|), t.table3, 0, []).value;
      DurationsFromNames(data, t.table1, t.table2, 0, map[], slots);
    }
  }
}
