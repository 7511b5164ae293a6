/** What `SCDFile.Save` writes, for a container whose rewritten fields sit
    in the header and do not overlap: the header is copied except for those
    fields, every slot's offset field points at its clip, the clips follow
    the header back to back in slot order, real clips in version 3 (and
    earlier) containers carry their duration, and the total-size field
    holds the new length. */
module SaveProps {
  import opened Results
  import opened Bytes
  import opened Voices
  import opened Container
  import opened Saving

  /** `s` holds the bytes `w` at `p`. */
  ghost predicate Holds(s: seq<byte>, p: int, w: seq<byte>) {
    Fits(s, p, |w|) && s[p..p + |w|] == w
  }

  /** Byte `k` belongs to the 4-byte field at `p`. */
  ghost predicate InField(k: int, p: int) {
    p <= k < p + 4
  }

  /** The ranges `[p, p + n)` and `[q, q + m)` do not meet. */
  ghost predicate Disjoint(p: int, n: int, q: int, m: int) {
    p + n <= q || q + m <= p
  }

  /** A field that `Save` rewrites: inside the header, and clear of the
      version field it reads and of the total-size field. */
  ghost predicate FieldIn(l: Layout, p: int) {
    0 <= p && p + 4 <= l.headerSize && Apart(p, VERSION_FIELD) && Apart(p, TOTAL_SIZE_FIELD)
  }

  /** The layout of a well-formed container: the header holds the
      total-size field and all offset and duration fields, and those fields
      are pairwise apart. */
  ghost predicate FieldsInHeader(l: Layout) {
    && TOTAL_SIZE_FIELD + 4 <= l.headerSize <= |l.data|
    && (forall i :: 0 <= i < |l.offOffs| ==> FieldIn(l, l.offOffs[i]))
    && (forall i :: i in l.lengthOffs ==> FieldIn(l, l.lengthOffs[i]))
    && (forall i, j :: 0 <= i < j < |l.offOffs| ==> Apart(l.offOffs[i], l.offOffs[j]))
    && (forall i, j :: i in l.lengthOffs && j in l.lengthOffs && i != j ==> Apart(l.lengthOffs[i], l.lengthOffs[j]))
    && (forall i, j :: i in l.lengthOffs && 0 <= j < |l.offOffs| ==> Apart(l.lengthOffs[i], l.offOffs[j]))
  }

  /** One clip per slot, a well-formed layout, and a new size in range. */
  ghost predicate Shaped(l: Layout, voices: seq<Voice>) {
    |voices| == |l.offOffs| && FieldsInHeader(l) && l.headerSize + TotalLength(voices) <= MAX_INT32
  }

  /** `Save` writes the duration of clip `v`: a real clip in a container of
      version 3 or earlier. */
  predicate DurationWritten(l: Layout, v: Voice) {
    !v.isDummy && Fits(l.data, VERSION_FIELD, 4) && U32(l.data, VERSION_FIELD) <= LAST_DURATION_VERSION
  }

  /** Every slot from `i` on whose duration is written has a recorded
      duration field. */
  ghost predicate HasDurationFields(l: Layout, voices: seq<Voice>, i: nat) {
    forall j :: i <= j < |voices| && DurationWritten(l, voices[j]) ==> j in l.lengthOffs
  }

  /** Where slot `i`'s clip goes: the header, then all earlier clips. */
  function Offset(l: Layout, voices: seq<Voice>, i: nat): (r: u32)
    requires i <= |voices| && 0 <= l.headerSize && l.headerSize + TotalLength(voices) <= MAX_INT32
    ensures l.headerSize <= r <= l.headerSize + TotalLength(voices)
  {
    TotalLengthMonotone(voices, i);
    l.headerSize + TotalLength(voices[..i])
  }

  /** Header byte `k` is not in any field `Save` writes. */
  ghost predicate Kept(l: Layout, voices: seq<Voice>, k: int) {
    && !InField(k, TOTAL_SIZE_FIELD)
    && (forall i :: 0 <= i < |l.offOffs| ==> !InField(k, l.offOffs[i]))
    && (forall i :: 0 <= i < |voices| && DurationWritten(l, voices[i]) && i in l.lengthOffs ==> !InField(k, l.lengthOffs[i]))
  }

  /** Slot `j` has been written: its offset field, its clip and, when it
      has one, its duration. */
  ghost predicate SlotDone(l: Layout, voices: seq<Voice>, buf: seq<byte>, j: int)
    requires Shaped(l, voices) && 0 <= j < |voices|
  {
    && Holds(buf, l.offOffs[j], LE32(Offset(l, voices, j)))
    && Holds(buf, Offset(l, voices, j), voices[j].data)
    && (DurationWritten(l, voices[j]) && j in l.lengthOffs ==> Holds(buf, l.lengthOffs[j], LE32(voices[j].length)))
  }

  /** The new buffer once the first `i` slots are written. */
  ghost predicate Done(l: Layout, voices: seq<Voice>, buf: seq<byte>, i: nat)
    requires Shaped(l, voices) && i <= |voices|
  {
    && |buf| == l.headerSize + TotalLength(voices)
    && (forall k :: 0 <= k < l.headerSize && Kept(l, voices, k) ==> buf[k] == l.data[k])
    && (forall j :: 0 <= j < i ==> SlotDone(l, voices, buf, j))
  }

  /** One of the ranges slot `i` writes: its offset field, its clip, or
      its duration field. */
  ghost predicate Region(l: Layout, voices: seq<Voice>, i: int, p: int, n: int)
    requires Shaped(l, voices) && 0 <= i < |voices|
  {
    || (p == l.offOffs[i] && n == 4)
    || (p == Offset(l, voices, i) && n == |voices[i].data|)
    || (DurationWritten(l, voices[i]) && i in l.lengthOffs && p == l.lengthOffs[i] && n == 4)
  }

  // ---- offsets ----

  lemma OffsetNext(l: Layout, voices: seq<Voice>, i: nat)
    requires i < |voices| && 0 <= l.headerSize && l.headerSize + TotalLength(voices) <= MAX_INT32
    ensures Offset(l, voices, i) + |voices[i].data| == Offset(l, voices, i + 1)
  {
    TotalLengthPrefix(voices, i);
  }

  /** Clips are laid out in slot order: an earlier clip ends before a later
      one starts. */
  lemma {:induction false} OffsetsOrdered(l: Layout, voices: seq<Voice>, j: nat, i: nat)
    requires j < i <= |voices| && 0 <= l.headerSize && l.headerSize + TotalLength(voices) <= MAX_INT32
    ensures Offset(l, voices, j) + |voices[j].data| <= Offset(l, voices, i)
    decreases i
  {
    OffsetNext(l, voices, i - 1);
    if j < i - 1 {
      OffsetsOrdered(l, voices, j, i - 1);
    }
  }

  lemma OffsetEnd(l: Layout, voices: seq<Voice>)
    requires 0 <= l.headerSize && l.headerSize + TotalLength(voices) <= MAX_INT32
    ensures Offset(l, voices, |voices|) == l.headerSize + TotalLength(voices)
  {
    assert voices[..|voices|] == voices;
  }

  // ---- a write that stays inside one slot's ranges keeps the others ----

  lemma HoldsSurvives(buf: seq<byte>, p: int, w: seq<byte>, q: int, x: seq<byte>)
    requires Fits(buf, p, |w|) && Holds(buf, q, x) && Disjoint(p, |w|, q, |x|)
    ensures Holds(Splice(buf, p, w), q, x)
  {
    SpliceKeeps(buf, p, w, q, q + |x|);
  }

  /** A range of slot `i` misses every range of an earlier slot `j`. */
  lemma RegionsDisjoint(l: Layout, voices: seq<Voice>, i: int, p: int, n: int, j: int)
    requires Shaped(l, voices) && 0 <= j < i < |voices| && Region(l, voices, i, p, n)
    ensures Disjoint(p, n, l.offOffs[j], 4)
    ensures Disjoint(p, n, Offset(l, voices, j), |voices[j].data|)
    ensures j in l.lengthOffs ==> Disjoint(p, n, l.lengthOffs[j], 4)
  {
    OffsetsOrdered(l, voices, j, i);
  }

  lemma SlotSurvives(l: Layout, voices: seq<Voice>, buf: seq<byte>, i: int, p: int, w: seq<byte>, j: int)
    requires Shaped(l, voices) && 0 <= j < i < |voices| && Region(l, voices, i, p, |w|)
    requires Fits(buf, p, |w|) && SlotDone(l, voices, buf, j)
    ensures SlotDone(l, voices, Splice(buf, p, w), j)
  {
    RegionsDisjoint(l, voices, i, p, |w|, j);
    HoldsSurvives(buf, p, w, l.offOffs[j], LE32(Offset(l, voices, j)));
    HoldsSurvives(buf, p, w, Offset(l, voices, j), voices[j].data);
    if DurationWritten(l, voices[j]) && j in l.lengthOffs {
      HoldsSurvives(buf, p, w, l.lengthOffs[j], LE32(voices[j].length));
    }
  }

  /** No byte of a range of slot `i` is a kept header byte. */
  lemma RegionNotKept(l: Layout, voices: seq<Voice>, i: int, p: int, n: int, k: int)
    requires Shaped(l, voices) && 0 <= i < |voices| && Region(l, voices, i, p, n)
    requires 0 <= k < l.headerSize && Kept(l, voices, k)
    ensures !(p <= k < p + n)
  {
  }

  lemma SpliceDone(l: Layout, voices: seq<Voice>, buf: seq<byte>, i: nat, p: int, w: seq<byte>)
    requires Shaped(l, voices) && i < |voices| && Region(l, voices, i, p, |w|)
    requires Fits(buf, p, |w|) && Done(l, voices, buf, i)
    ensures Done(l, voices, Splice(buf, p, w), i)
  {
    var next := Splice(buf, p, w);
    forall k | 0 <= k < l.headerSize && Kept(l, voices, k)
      ensures next[k] == l.data[k]
    {
      RegionNotKept(l, voices, i, p, |w|, k);
    }
    forall j | 0 <= j < i
      ensures SlotDone(l, voices, next, j)
    {
      SlotSurvives(l, voices, buf, i, p, w, j);
    }
  }

  // ---- the reference image ----

  /** The buffer `Save` starts from: the header, then zeros. */
  function Blank(l: Layout, voices: seq<Voice>): (r: seq<byte>)
    requires Shaped(l, voices)
    ensures |r| == l.headerSize + TotalLength(voices)
  {
    l.data[..l.headerSize] + seq(TotalLength(voices), _ => 0)
  }

  /** Slot `i`'s writes on `buf`, as they come out when none fails. */
  function Placed(l: Layout, voices: seq<Voice>, buf: seq<byte>, i: nat): (r: seq<byte>)
    requires Shaped(l, voices) && i < |voices| && |buf| == l.headerSize + TotalLength(voices)
    ensures |r| == |buf|
  {
    var off := Offset(l, voices, i);
    OffsetNext(l, voices, i);
    var b := Splice(Splice(buf, l.offOffs[i], LE32(off)), off, voices[i].data);
    if DurationWritten(l, voices[i]) && i in l.lengthOffs then Splice(b, l.lengthOffs[i], LE32(voices[i].length))
    else b
  }

  /** The rest of the save from slot `i` on, as it comes out when no write
      fails: the remaining slots, then the total size. */
  function Finish(l: Layout, voices: seq<Voice>, buf: seq<byte>, i: nat): (r: seq<byte>)
    requires Shaped(l, voices) && i <= |voices| && |buf| == l.headerSize + TotalLength(voices)
    ensures |r| == |buf|
    decreases |voices| - i
  {
    if i == |voices| then Splice(buf, TOTAL_SIZE_FIELD, LE32(Offset(l, voices, i)))
    else Finish(l, voices, Placed(l, voices, buf, i), i + 1)
  }

  /** What a successful `Save` returns. */
  function Image(l: Layout, voices: seq<Voice>): (r: seq<byte>)
    requires Shaped(l, voices)
    ensures |r| == l.headerSize + TotalLength(voices)
  {
    Finish(l, voices, Blank(l, voices), 0)
  }

  // ---- Save computes the image ----

  /** `buf` has the container's version. */
  ghost predicate SameVersion(l: Layout, buf: seq<byte>) {
    Fits(buf, VERSION_FIELD, 4) && Fits(l.data, VERSION_FIELD, 4) && U32(buf, VERSION_FIELD) == U32(l.data, VERSION_FIELD)
  }

  /** Slot `i`'s writes on a buffer of the new size with the container's
      version fail exactly when the duration is due but has no field, and
      otherwise are the reference writes, which keep the version. */
  lemma SlotWritePlaced(l: Layout, voices: seq<Voice>, buf: seq<byte>, i: nat)
    requires Shaped(l, voices) && i < |voices| && |buf| == l.headerSize + TotalLength(voices)
    requires SameVersion(l, buf)
    ensures SlotWrite(l, voices[i], i, buf, Offset(l, voices, i)) ==
      if DurationWritten(l, voices[i]) && i !in l.lengthOffs then Err(KeyNotFound) else Ok(Placed(l, voices, buf, i))
  {
    var off := Offset(l, voices, i);
    OffsetNext(l, voices, i);
    var b2 := Splice(Splice(buf, l.offOffs[i], LE32(off)), off, voices[i].data);
    assert U32(b2, VERSION_FIELD) == U32(buf, VERSION_FIELD);
  }

  /** The reference writes of a slot keep the version. */
  lemma PlacedVersion(l: Layout, voices: seq<Voice>, buf: seq<byte>, i: nat)
    requires Shaped(l, voices) && i < |voices| && |buf| == l.headerSize + TotalLength(voices)
    requires SameVersion(l, buf)
    ensures SameVersion(l, Placed(l, voices, buf, i))
  {
    OffsetNext(l, voices, i);
  }

  lemma HasDurationFieldsNext(l: Layout, voices: seq<Voice>, i: nat)
    requires i < |voices|
    ensures HasDurationFields(l, voices, i) <==>
      (!DurationWritten(l, voices[i]) || i in l.lengthOffs) && HasDurationFields(l, voices, i + 1)
  {
  }

  /** After the last slot, the total-size write. */
  lemma SaveFromEnd(l: Layout, voices: seq<Voice>, buf: seq<byte>)
    requires Shaped(l, voices) && |buf| == l.headerSize + TotalLength(voices)
    ensures SaveFrom(l, voices, buf, |voices|, Offset(l, voices, |voices|)) == Ok(Finish(l, voices, buf, |voices|))
  {
  }

  /** One pass of the save loop, given what the rest of the loop does
      after it. */
  lemma SaveFromFinishStep(l: Layout, voices: seq<Voice>, buf: seq<byte>, i: nat)
    requires Shaped(l, voices) && i < |voices| && |buf| == l.headerSize + TotalLength(voices)
    requires SameVersion(l, buf)
    requires !DurationWritten(l, voices[i]) || i in l.lengthOffs ==>
      var next := Placed(l, voices, buf, i);
      SaveFrom(l, voices, next, i + 1, Offset(l, voices, i + 1)) ==
        if HasDurationFields(l, voices, i + 1) then Ok(Finish(l, voices, next, i + 1)) else Err(KeyNotFound)
    ensures SaveFrom(l, voices, buf, i, Offset(l, voices, i)) ==
      if HasDurationFields(l, voices, i) then Ok(Finish(l, voices, buf, i)) else Err(KeyNotFound)
  {
    var off := Offset(l, voices, i);
    SlotWritePlaced(l, voices, buf, i);
    HasDurationFieldsNext(l, voices, i);
    if DurationWritten(l, voices[i]) && i !in l.lengthOffs {
      SaveFromFails(l, voices, buf, i, off);
    } else {
      var next := Placed(l, voices, buf, i);
      SaveFromStep(l, voices, buf, next, i, off);
      OffsetNext(l, voices, i);
      assert off + |voices[i].data| == Offset(l, voices, i + 1);
      assert Finish(l, voices, buf, i) == Finish(l, voices, next, i + 1);
    }
  }

  /** The save loop from slot `i` on: a missing key exactly when a later
      slot lacks its duration field, and otherwise the reference writes. */
  lemma {:induction false} SaveFromFinish(l: Layout, voices: seq<Voice>, buf: seq<byte>, i: nat)
    requires Shaped(l, voices) && i <= |voices| && |buf| == l.headerSize + TotalLength(voices)
    requires SameVersion(l, buf)
    ensures SaveFrom(l, voices, buf, i, Offset(l, voices, i)) ==
      if HasDurationFields(l, voices, i) then Ok(Finish(l, voices, buf, i)) else Err(KeyNotFound)
    decreases |voices| - i
  {
    if i == |voices| {
      SaveFromEnd(l, voices, buf);
    } else {
      if !DurationWritten(l, voices[i]) || i in l.lengthOffs {
        PlacedVersion(l, voices, buf, i);
        SaveFromFinish(l, voices, Placed(l, voices, buf, i), i + 1);
      }
      SaveFromFinishStep(l, voices, buf, i);
    }
  }

  /** `Save` on a well-formed layout: an overflow when the new size is out
      of the int32 range, otherwise a missing key exactly when some written
      duration has no field, otherwise the image. */
  lemma SavedImage(l: Layout, voices: seq<Voice>)
    requires |voices| == |l.offOffs| && FieldsInHeader(l) && l.headerSize <= MAX_INT32
    ensures l.headerSize + TotalLength(voices) > MAX_INT32 ==> Saved(l, voices) == Err(Overflow)
    ensures Shaped(l, voices) ==>
      Saved(l, voices) == if HasDurationFields(l, voices, 0) then Ok(Image(l, voices)) else Err(KeyNotFound)
  {
    if Shaped(l, voices) {
      SaveFromFinish(l, voices, Blank(l, voices), 0);
      assert Offset(l, voices, 0) == l.headerSize by {
        assert voices[..0] == [];
      }
    }
  }

  // ---- what the image holds ----

  lemma BlankDone(l: Layout, voices: seq<Voice>)
    requires Shaped(l, voices)
    ensures Done(l, voices, Blank(l, voices), 0)
  {
  }

  /** The writes for the slot's offset field and clip. */
  lemma PlacementDone(l: Layout, voices: seq<Voice>, buf: seq<byte>, i: nat)
    requires Shaped(l, voices) && i < |voices| && Done(l, voices, buf, i)
    ensures Fits(buf, l.offOffs[i], 4)
    ensures var b1 := Splice(buf, l.offOffs[i], LE32(Offset(l, voices, i)));
      && Fits(b1, Offset(l, voices, i), |voices[i].data|)
      && var b2 := Splice(b1, Offset(l, voices, i), voices[i].data);
      && Done(l, voices, b2, i)
      && Holds(b2, l.offOffs[i], LE32(Offset(l, voices, i)))
      && Holds(b2, Offset(l, voices, i), voices[i].data)
  {
    var off := Offset(l, voices, i);
    var b1 := Splice(buf, l.offOffs[i], LE32(off));
    SpliceDone(l, voices, buf, i, l.offOffs[i], LE32(off));
    OffsetNext(l, voices, i);
    var b2 := Splice(b1, off, voices[i].data);
    SpliceDone(l, voices, b1, i, off, voices[i].data);
    HoldsSurvives(b1, off, voices[i].data, l.offOffs[i], LE32(off));
  }

  lemma DoneNext(l: Layout, voices: seq<Voice>, buf: seq<byte>, i: nat)
    requires Shaped(l, voices) && i < |voices| && Done(l, voices, buf, i)
    requires SlotDone(l, voices, buf, i)
    ensures Done(l, voices, buf, i + 1)
  {
  }

  /** Slot `i`'s writes complete slot `i` and keep the earlier ones. */
  lemma PlacedDone(l: Layout, voices: seq<Voice>, buf: seq<byte>, i: nat)
    requires Shaped(l, voices) && i < |voices| && Done(l, voices, buf, i)
    ensures Done(l, voices, Placed(l, voices, buf, i), i + 1)
  {
    var off := Offset(l, voices, i);
    var v := voices[i];
    PlacementDone(l, voices, buf, i);
    var b2 := Splice(Splice(buf, l.offOffs[i], LE32(off)), off, v.data);
    if DurationWritten(l, v) && i in l.lengthOffs {
      var p := l.lengthOffs[i];
      var next := Splice(b2, p, LE32(v.length));
      SpliceDone(l, voices, b2, i, p, LE32(v.length));
      HoldsSurvives(b2, p, LE32(v.length), l.offOffs[i], LE32(off));
      HoldsSurvives(b2, p, LE32(v.length), off, v.data);
      DoneNext(l, voices, next, i);
    } else {
      DoneNext(l, voices, b2, i);
    }
  }

  /** The total-size write at the end keeps everything the slots wrote. */
  lemma TotalDone(l: Layout, voices: seq<Voice>, buf: seq<byte>)
    requires Shaped(l, voices) && Done(l, voices, buf, |voices|)
    ensures Fits(buf, TOTAL_SIZE_FIELD, 4)
    ensures var out := Splice(buf, TOTAL_SIZE_FIELD, LE32(Offset(l, voices, |voices|)));
      Done(l, voices, out, |voices|) && Holds(out, TOTAL_SIZE_FIELD, LE32(Offset(l, voices, |voices|)))
  {
    var w := LE32(Offset(l, voices, |voices|));
    var out := Splice(buf, TOTAL_SIZE_FIELD, w);
    forall j | 0 <= j < |voices|
      ensures SlotDone(l, voices, out, j)
    {
      assert SlotDone(l, voices, buf, j);
      HoldsSurvives(buf, TOTAL_SIZE_FIELD, w, l.offOffs[j], LE32(Offset(l, voices, j)));
      HoldsSurvives(buf, TOTAL_SIZE_FIELD, w, Offset(l, voices, j), voices[j].data);
      if DurationWritten(l, voices[j]) && j in l.lengthOffs {
        HoldsSurvives(buf, TOTAL_SIZE_FIELD, w, l.lengthOffs[j], LE32(voices[j].length));
      }
    }
  }

  /** The total-size write completes the output. */
  lemma FinishEnd(l: Layout, voices: seq<Voice>, buf: seq<byte>)
    requires Shaped(l, voices) && Done(l, voices, buf, |voices|)
    ensures Written(l, voices, Finish(l, voices, buf, |voices|))
  {
    TotalDone(l, voices, buf);
  }

  /** The reference writes from slot `i` on, started from a buffer where
      the earlier slots are written, write every slot and the total size. */
  lemma {:induction false} FinishWritten(l: Layout, voices: seq<Voice>, buf: seq<byte>, i: nat)
    requires Shaped(l, voices) && i <= |voices| && Done(l, voices, buf, i)
    ensures Written(l, voices, Finish(l, voices, buf, i))
    decreases |voices| - i
  {
    if i == |voices| {
      FinishEnd(l, voices, buf);
    } else {
      PlacedDone(l, voices, buf, i);
      FinishWritten(l, voices, Placed(l, voices, buf, i), i + 1);
    }
  }

  /** The finished output: every slot written, and the total size in its
      field. */
  ghost predicate Written(l: Layout, voices: seq<Voice>, out: seq<byte>)
    requires Shaped(l, voices)
  {
    Done(l, voices, out, |voices|) && Holds(out, TOTAL_SIZE_FIELD, LE32(Offset(l, voices, |voices|)))
  }

  /** The last clip ends where the output does. */
  lemma TotalIsLength(l: Layout, voices: seq<Voice>, out: seq<byte>)
    requires Shaped(l, voices) && |out| == l.headerSize + TotalLength(voices)
    requires Holds(out, TOTAL_SIZE_FIELD, LE32(Offset(l, voices, |voices|)))
    ensures Holds(out, TOTAL_SIZE_FIELD, LE32(|out|))
  {
    OffsetEnd(l, voices);
    assert Offset(l, voices, |voices|) == |out|;
  }

  /** `out` is an image of `l` and `voices` field by field: the header is
      the original one outside the rewritten fields; slot `i`'s offset
      field holds where its clip starts; that clip's bytes are there, right
      after the previous clip's; its duration is in its duration field when
      it is written; and the total-size field holds the image's length. */
  ghost predicate ImageHolds(l: Layout, voices: seq<Voice>, out: seq<byte>)
    requires Shaped(l, voices)
  {
    && |out| == l.headerSize + TotalLength(voices)
    && (forall k :: 0 <= k < l.headerSize && Kept(l, voices, k) ==> out[k] == l.data[k])
    && (forall i :: 0 <= i < |voices| ==> Holds(out, l.offOffs[i], LE32(Offset(l, voices, i))))
    && (forall i :: 0 <= i < |voices| ==> Holds(out, Offset(l, voices, i), voices[i].data))
    && (forall i :: 0 <= i < |voices| && DurationWritten(l, voices[i]) && i in l.lengthOffs ==>
          Holds(out, l.lengthOffs[i], LE32(voices[i].length)))
    && Holds(out, TOTAL_SIZE_FIELD, LE32(|out|))
  }

  /** The image, field by field. */
  lemma ImageFields(l: Layout, voices: seq<Voice>)
    requires Shaped(l, voices)
    ensures ImageHolds(l, voices, Image(l, voices))
  {
    var out := Image(l, voices);
    BlankDone(l, voices);
    FinishWritten(l, voices, Blank(l, voices), 0);
    TotalIsLength(l, voices, out);
    forall i | 0 <= i < |voices|
      ensures Holds(out, l.offOffs[i], LE32(Offset(l, voices, i)))
      ensures Holds(out, Offset(l, voices, i), voices[i].data)
      ensures DurationWritten(l, voices[i]) && i in l.lengthOffs ==> Holds(out, l.lengthOffs[i], LE32(voices[i].length))
    {
      assert SlotDone(l, voices, out, i);
    }
  }
}
