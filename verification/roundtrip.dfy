/** Parsing a container and saving it with its own clips.  `Save` lays the
    clips out back to back in slot order and rewrites every offset field,
    so it gives back the input exactly when the offset table increases in
    slot order, every written duration has a field, and the total-size
    field already holds the file length (for a layout whose rewritten
    fields sit apart inside the header). */
module RoundTrip {
  import opened Results
  import opened Bytes
  import opened ClipBounds
  import opened Voices
  import opened Container
  import opened ParseProps
  import opened Saving
  import opened SaveProps

  /** The entries strictly increase from left to right. */
  predicate Increasing(s: seq<int>) {
    forall i, j :: 0 <= i < j < |s| ==> s[i] < s[j]
  }

  /** What the parse of `p.layout.data` guarantees, as used here: the clips
      lie at the offset table's starts and tile the payload, the header ends
      at the smallest start, and each recorded duration is in its field. */
  ghost predicate ParsedShape(p: Parsed) {
    && |p.layout.data| <= MAX_INT32
    && Indexed(p)
    && ClipsOf(p.layout.data, Starts(p), p.voices)
    && TotalLength(p.voices) == |p.layout.data| - p.layout.headerSize
    && 0 <= p.layout.headerSize <= |p.layout.data|
    && (forall i :: 0 <= i < |p.voices| ==> p.layout.headerSize <= Starts(p)[i])
    && (p.layout.headerSize == |p.layout.data| || exists i :: 0 <= i < |p.voices| && Starts(p)[i] == p.layout.headerSize)
    && (forall w :: w in p.layout.lengthOffs ==>
          && 0 <= w < |p.voices| && Fits(p.layout.data, p.layout.lengthOffs[w], 4)
          && p.voices[w].length == U32(p.layout.data, p.layout.lengthOffs[w]))
  }

  lemma ParsedShapeOk(data: seq<byte>)
    requires |data| <= MAX_INT32 && ParseSpec(data).Ok?
    ensures ParseSpec(data).value.layout.data == data
    ensures ParsedShape(ParseSpec(data).value)
  {
    ParsedHeaderSize(data);
    ParsedClips(data);
    ParsedDurations(data);
  }

  /** The parse's clip starts are its offset table. */
  lemma ParsedStarts(data: seq<byte>)
    requires ParseSpec(data).Ok?
    ensures ReadTables(data).Ok? && Indexed(ParseSpec(data).value)
    ensures Starts(ParseSpec(data).value) == ReadTables(data).value.table3
  {
    ParseDecomposition(data);
    var t := ReadTables(data).value;
    SlotsFromOk(data, Boundaries(t.table3, |data|), t.table3, 0, []);
    AssembledStarts(data, t, ParseSpec(data).value);
  }

  /** The starts followed by the file length. */
  ghost function Bounds(p: Parsed): (s: seq<int>)
    requires Indexed(p)
    ensures |s| == |p.voices| + 1
  {
    Starts(p) + [|p.layout.data|]
  }

  /** The clips `vs` lie back to back in `l.data` at the boundaries `s`:
      the first at the header's end, each up to the next, the last up to
      the end of the file. */
  ghost predicate Laid(l: Layout, vs: seq<Voice>, s: seq<int>) {
    && |s| == |vs| + 1 && 0 <= l.headerSize == s[0] && s[|vs|] == |l.data| <= MAX_INT32
    && l.headerSize + TotalLength(vs) == |l.data|
    && forall i :: 0 <= i < |vs| ==> s[i] + |vs[i].data| == s[i + 1] && Holds(l.data, s[i], vs[i].data)
  }

  /** In an increasing table the next entry above an entry is its
      successor. */
  lemma NextAboveIsSuccessor(s: seq<int>, i: int, e: int)
    requires Increasing(s) && 0 <= i < |s| - 1 && IsNextAbove(s, s[i], e)
    ensures e == s[i + 1]
  {
    var j :| 0 <= j < |s| && s[j] == e;
    assert s[i + 1] in s;
    assert forall m :: 0 <= m < |s| && m != i + 1 ==> s[m] <= s[i] || s[i + 1] < s[m];
  }

  /** Every clip of a parse holds at least its placeholder mark. */
  lemma ClipsNonEmpty(p: Parsed)
    requires ParsedShape(p)
    ensures forall i :: 0 <= i < |p.voices| ==> |p.voices[i].data| > 0
  {
    forall i | 0 <= i < |p.voices| ensures |p.voices[i].data| > 0 {
      assert ClipOf(p.layout.data, Bounds(p), Starts(p)[i], p.voices[i]);
    }
  }

  /** A clip at entry `i` of an increasing table ends at entry `i + 1`. */
  lemma ClipStep(data: seq<byte>, s: seq<int>, i: int, v: Voice)
    requires Increasing(s) && 0 <= i < |s| - 1 && ClipOf(data, s, s[i], v)
    ensures s[i] + |v.data| == s[i + 1] && Holds(data, s[i], v.data)
  {
    NextAboveIsSuccessor(s, i, s[i] + |v.data|);
  }

  /** Increasing starts followed by a length past every clip increase. */
  lemma StartsThenLength(data: seq<byte>, vs: seq<Voice>, starts: seq<int>)
    requires |starts| == |vs| && Increasing(starts)
    requires forall i :: 0 <= i < |vs| ==> ClipOf(data, starts + [|data|], starts[i], vs[i])
    ensures Increasing(starts + [|data|])
  {
    var s := starts + [|data|];
    forall i, j | 0 <= i < j < |s| ensures s[i] < s[j] {
      if j == |vs| {
        assert ClipOf(data, s, starts[i], vs[i]);
      } else {
        assert s[i] == starts[i] && s[j] == starts[j];
      }
    }
  }

  /** Clips at increasing starts, each up to the next boundary, with the
      header ending at the smallest start, lie back to back. */
  lemma LaidFrom(l: Layout, vs: seq<Voice>, starts: seq<int>)
    requires |starts| == |vs| && Increasing(starts) && |l.data| <= MAX_INT32
    requires forall i :: 0 <= i < |vs| ==> ClipOf(l.data, starts + [|l.data|], starts[i], vs[i])
    requires TotalLength(vs) == |l.data| - l.headerSize && 0 <= l.headerSize <= |l.data|
    requires forall i :: 0 <= i < |vs| ==> l.headerSize <= starts[i]
    requires l.headerSize == |l.data| || exists i :: 0 <= i < |vs| && starts[i] == l.headerSize
    ensures Laid(l, vs, starts + [|l.data|])
  {
    var s := starts + [|l.data|];
    StartsThenLength(l.data, vs, starts);
    forall i | 0 <= i < |vs|
      ensures s[i] + |vs[i].data| == s[i + 1] && Holds(l.data, s[i], vs[i].data)
    {
      assert s[i] == starts[i];
      ClipStep(l.data, s, i, vs[i]);
    }
    if |vs| > 0 {
      assert ClipOf(l.data, s, starts[0], vs[0]);
      if l.headerSize != |l.data| {
        var j :| 0 <= j < |vs| && starts[j] == l.headerSize;
        if j > 0 { assert starts[0] < starts[j]; }
      }
    }
  }

  /** A parse whose offset table increases lays its clips back to back. */
  lemma ParsedLaid(p: Parsed)
    requires ParsedShape(p) && Increasing(Starts(p))
    ensures Laid(p.layout, p.voices, Bounds(p))
  {
    LaidFrom(p.layout, p.voices, Starts(p));
  }

  /** The offset `Save` computes for slot `i` is its boundary. */
  lemma {:induction false} OffsetIsStart(l: Layout, vs: seq<Voice>, s: seq<int>, i: nat)
    requires Laid(l, vs, s) && i <= |vs|
    ensures Offset(l, vs, i) == s[i]
  {
    if i == 0 {
      assert vs[..0] == [];
    } else {
      OffsetIsStart(l, vs, s, i - 1);
      OffsetNext(l, vs, i - 1);
    }
  }

  /** Some slot's clip covers every payload byte. */
  lemma {:induction false} Covering(s: seq<int>, k: int, j: nat)
    requires j < |s| - 1 && s[j] <= k < s[|s| - 1]
    ensures exists i :: j <= i < |s| - 1 && s[i] <= k < s[i + 1]
    decreases |s| - j
  {
    if k >= s[j + 1] {
      Covering(s, k, j + 1);
    }
  }

  /** Two buffers agree on byte `k` of a range where both hold `w`. */
  lemma SameInField(out: seq<byte>, data: seq<byte>, q: int, w: seq<byte>, k: int)
    requires Holds(out, q, w) && Holds(data, q, w) && q <= k < q + |w|
    ensures out[k] == data[k]
  {
    assert out[k] == out[q..q + |w|][k - q] == data[q..q + |w|][k - q];
  }

  /** A field of `out` that holds the value already in `data`'s field
      agrees with `data` on each of its bytes. */
  lemma FieldAgrees(out: seq<byte>, data: seq<byte>, q: int, x: u32, k: int)
    requires Fits(data, q, 4) && U32(data, q) == x && Holds(out, q, LE32(x)) && InField(k, q)
    ensures out[k] == data[k]
  {
    LE32OfU32(data, q);
    SameInField(out, data, q, LE32(x), k);
  }

  /** Every field `Save` rewrites already holds the value it writes. */
  ghost predicate FieldsCurrent(l: Layout, vs: seq<Voice>)
    requires Shaped(l, vs)
  {
    && Fits(l.data, TOTAL_SIZE_FIELD, 4) && U32(l.data, TOTAL_SIZE_FIELD) == |l.data|
    && (forall i :: 0 <= i < |vs| ==> Fits(l.data, l.offOffs[i], 4) && U32(l.data, l.offOffs[i]) == Offset(l, vs, i))
    && (forall w :: w in l.lengthOffs ==>
          0 <= w < |vs| && Fits(l.data, l.lengthOffs[w], 4) && vs[w].length == U32(l.data, l.lengthOffs[w]))
  }

  /** A parse with an increasing offset table and the file length in its
      total-size field has every rewritten field current. */
  lemma ParsedCurrent(p: Parsed)
    requires ParsedShape(p) && Increasing(Starts(p)) && Shaped(p.layout, p.voices)
    requires Fits(p.layout.data, TOTAL_SIZE_FIELD, 4) && U32(p.layout.data, TOTAL_SIZE_FIELD) == |p.layout.data|
    ensures Laid(p.layout, p.voices, Bounds(p)) && FieldsCurrent(p.layout, p.voices)
  {
    var l, vs := p.layout, p.voices;
    ParsedLaid(p);
    forall i | 0 <= i < |vs| ensures U32(l.data, l.offOffs[i]) == Offset(l, vs, i) {
      OffsetIsStart(l, vs, Bounds(p), i);
      assert Starts(p)[i] == I32(l.data, l.offOffs[i]) >= 0;
    }
  }

  /** A header byte of the image is the input's byte: kept bytes are
      copied, and every rewritten field gets the value it already held. */
  lemma HeaderByte(l: Layout, vs: seq<Voice>, out: seq<byte>, k: int)
    requires Shaped(l, vs) && FieldsCurrent(l, vs) && ImageHolds(l, vs, out) && |out| == |l.data|
    requires 0 <= k < l.headerSize
    ensures out[k] == l.data[k]
  {
    if !Kept(l, vs, k) {
      if InField(k, TOTAL_SIZE_FIELD) {
        FieldAgrees(out, l.data, TOTAL_SIZE_FIELD, |out|, k);
      } else if exists i :: 0 <= i < |l.offOffs| && InField(k, l.offOffs[i]) {
        var i :| 0 <= i < |l.offOffs| && InField(k, l.offOffs[i]);
        var q, x := l.offOffs[i], Offset(l, vs, i);
        assert Fits(l.data, q, 4) && U32(l.data, q) == x;
        assert Holds(out, q, LE32(x));
        FieldAgrees(out, l.data, q, x, k);
      } else {
        var i :| 0 <= i < |vs| && DurationWritten(l, vs[i]) && i in l.lengthOffs && InField(k, l.lengthOffs[i]);
        var q, x := l.lengthOffs[i], vs[i].length;
        assert Fits(l.data, q, 4) && U32(l.data, q) == x;
        assert Holds(out, q, LE32(x));
        FieldAgrees(out, l.data, q, x, k);
      }
    }
  }

  /** A payload byte of the image is the input's byte: it lies in a clip,
      which is written back where it was read from. */
  lemma PayloadByte(l: Layout, vs: seq<Voice>, s: seq<int>, out: seq<byte>, k: int)
    requires Shaped(l, vs) && Laid(l, vs, s) && ImageHolds(l, vs, out)
    requires l.headerSize <= k < |l.data|
    ensures out[k] == l.data[k]
  {
    Covering(s, k, 0);
    var i :| 0 <= i < |s| - 1 && s[i] <= k < s[i + 1];
    OffsetIsStart(l, vs, s, i);
    SameInField(out, l.data, s[i], vs[i].data, k);
  }

  /** When the clips lie back to back and every rewritten field is
      current, the image is the input. */
  lemma ImageIsInput(l: Layout, vs: seq<Voice>, s: seq<int>)
    requires Shaped(l, vs) && Laid(l, vs, s) && FieldsCurrent(l, vs)
    ensures Image(l, vs) == l.data
  {
    ImageFields(l, vs);
    var out := Image(l, vs);
    forall k | 0 <= k < |l.data| ensures out[k] == l.data[k] {
      if k < l.headerSize {
        HeaderByte(l, vs, out, k);
      } else {
        PayloadByte(l, vs, s, out, k);
      }
    }
  }

  /** When the image of `l` and `vs` is the input, each offset field holds
      the offset `Save` computes and the total-size field holds the file
      length. */
  lemma CurrentFromImage(l: Layout, vs: seq<Voice>)
    requires Shaped(l, vs) && Image(l, vs) == l.data
    ensures forall i :: 0 <= i < |vs| ==> Fits(l.data, l.offOffs[i], 4) && U32(l.data, l.offOffs[i]) == Offset(l, vs, i)
    ensures Fits(l.data, TOTAL_SIZE_FIELD, 4) && U32(l.data, TOTAL_SIZE_FIELD) == |l.data|
  {
    ImageFields(l, vs);
    U32OfField(l.data, TOTAL_SIZE_FIELD, |l.data|);
    forall i | 0 <= i < |vs| ensures U32(l.data, l.offOffs[i]) == Offset(l, vs, i) {
      U32OfField(l.data, l.offOffs[i], Offset(l, vs, i));
    }
  }

  /** Starts equal to the offsets `Save` computes for non-empty clips
      increase. */
  lemma OffsetsIncrease(l: Layout, vs: seq<Voice>, starts: seq<int>)
    requires 0 <= l.headerSize && l.headerSize + TotalLength(vs) <= MAX_INT32 && |starts| == |vs|
    requires forall i :: 0 <= i < |vs| ==> starts[i] == Offset(l, vs, i) && |vs[i].data| > 0
    ensures Increasing(starts)
  {
    forall i, j | 0 <= i < j < |starts| ensures starts[i] < starts[j] {
      OffsetsOrdered(l, vs, i, j);
    }
  }

  /** When the image of `l` and `vs` is the input, the starts read from
      the offset fields increase and the total-size field holds the file
      length. */
  lemma OrderFromImage(l: Layout, vs: seq<Voice>, starts: seq<int>)
    requires Shaped(l, vs) && Image(l, vs) == l.data && |starts| == |vs|
    requires forall i :: 0 <= i < |vs| ==> Fits(l.data, l.offOffs[i], 4) && starts[i] == I32(l.data, l.offOffs[i])
    requires forall i :: 0 <= i < |vs| ==> |vs[i].data| > 0
    ensures Increasing(starts)
    ensures Fits(l.data, TOTAL_SIZE_FIELD, 4) && U32(l.data, TOTAL_SIZE_FIELD) == |l.data|
  {
    CurrentFromImage(l, vs);
    OffsetsIncrease(l, vs, starts);
  }

  /** Every clip whose duration `Save` writes has a recorded field. */
  predicate DurationsKnown(p: Parsed) {
    forall w :: 0 <= w < |p.voices| && DurationWritten(p.layout, p.voices[w]) ==> w in p.layout.lengthOffs
  }

  /** The round trip: when the offset table increases in slot order, every
      real clip of a version 3 (or earlier) container has a recorded
      duration field, the total-size field holds the file length, and the
      rewritten fields sit apart inside the header, saving a parsed
      container with its own clips gives back its bytes. */
  lemma ParseSaveRoundTrip(data: seq<byte>)
    requires |data| <= MAX_INT32 && ParseSpec(data).Ok?
    requires Increasing(ReadTables(data).value.table3)
    requires FieldsInHeader(ParseSpec(data).value.layout)
    requires DurationsKnown(ParseSpec(data).value)
    requires U32(data, TOTAL_SIZE_FIELD) == |data|
    ensures SaveReady(ParseSpec(data).value.layout, ParseSpec(data).value.voices)
    ensures Saved(ParseSpec(data).value.layout, ParseSpec(data).value.voices) == Ok(data)
  {
    var p := ParseSpec(data).value;
    ParsedShapeOk(data);
    ParsedStarts(data);
    assert Shaped(p.layout, p.voices);
    ParsedCurrent(p);
    ImageIsInput(p.layout, p.voices, Bounds(p));
    SavedImage(p.layout, p.voices);
  }

  /** A parse that saves back to its own bytes has increasing starts, a
      field for every written duration and the file length in its
      total-size field. */
  lemma SavedInOrder(p: Parsed)
    requires ParsedShape(p) && FieldsInHeader(p.layout)
    requires SaveReady(p.layout, p.voices) && Saved(p.layout, p.voices) == Ok(p.layout.data)
    ensures Increasing(Starts(p)) && HasDurationFields(p.layout, p.voices, 0)
    ensures Fits(p.layout.data, TOTAL_SIZE_FIELD, 4) && U32(p.layout.data, TOTAL_SIZE_FIELD) == |p.layout.data|
  {
    assert Shaped(p.layout, p.voices);
    SavedImage(p.layout, p.voices);
    ClipsNonEmpty(p);
    OrderFromImage(p.layout, p.voices, Starts(p));
  }

  /** The converse, for a layout whose rewritten fields sit apart inside
      the header: when saving a parsed container with its own clips gives
      back its bytes, the offset table increases in slot order, every
      written duration has a recorded field, and the total-size field holds
      the file length.  On such a layout an out-of-order table, such as
      starts 140 and 100 in a 180-byte file, never survives the round trip:
      `Save` writes the clips back in slot order.  Without the condition a
      clip copied over the offset table can restore it. */
  lemma RoundTripNeedsOrder(data: seq<byte>)
    requires |data| <= MAX_INT32 && ParseSpec(data).Ok?
    requires FieldsInHeader(ParseSpec(data).value.layout)
    requires SaveReady(ParseSpec(data).value.layout, ParseSpec(data).value.voices)
    requires Saved(ParseSpec(data).value.layout, ParseSpec(data).value.voices) == Ok(data)
    ensures Increasing(ReadTables(data).value.table3)
    ensures HasDurationFields(ParseSpec(data).value.layout, ParseSpec(data).value.voices, 0)
    ensures U32(data, TOTAL_SIZE_FIELD) == |data|
  {
    ParsedShapeOk(data);
    ParsedStarts(data);
    SavedInOrder(ParseSpec(data).value);
  }
}
