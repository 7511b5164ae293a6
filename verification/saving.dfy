/** Writing a container back out (`SCDFile.Save`): a new buffer holding the
    old header, then every clip in slot order, with each slot's offset
    field, each real clip's duration field (version 3 and earlier) and the
    total-size field rewritten.  The functions are the specification;
    `WriteAt` is the in-place copy the method in `ScdFiles` uses. */
module Saving {
  import opened Results
  import opened Bytes
  import opened Voices
  import opened Container

  /** The duration write for a real clip: read the version from the buffer
      being built; in version 3 and earlier the slot must have a recorded
      duration field, and the clip's duration goes there. */
  function LengthField(lengthOffs: map<int, int>, buf: seq<byte>, i: int, length: u32): (r: Result<seq<byte>>)
    ensures r.Ok? ==> |r.value| == |buf|
    ensures r.Err? ==> r.error != Overflow
  {
    var ver :- ReadU32(buf, VERSION_FIELD);
    if ver > LAST_DURATION_VERSION then Ok(buf)
    else if i !in lengthOffs then Err(KeyNotFound)
    else Put(buf, lengthOffs[i], LE32(length))
  }

  /** One pass of the save loop for slot `i`: its offset field gets
      `off`, its clip goes to `off`, and a real clip's duration is written. */
  function SlotWrite(l: Layout, v: Voice, i: int, buf: seq<byte>, off: u32): (r: Result<seq<byte>>)
    requires 0 <= i < |l.offOffs|
    ensures r.Ok? ==> |r.value| == |buf| && off + |v.data| <= |buf|
    ensures r.Err? ==> r.error != Overflow
  {
    var b1 :- Put(buf, l.offOffs[i], LE32(off));
    var b2 :- Put(b1, off, v.data);
    if v.isDummy then Ok(b2) else LengthField(l.lengthOffs, b2, i, v.length)
  }

  /** The save loop from slot `i` on, `off` being where slot `i`'s clip
      goes; after the last slot, the total-size field gets `off`.  A slot
      write only succeeds when its clip fits, so `off` stays inside the
      buffer, whose size is an int32. */
  function SaveFrom(l: Layout, voices: seq<Voice>, buf: seq<byte>, i: nat, off: int): (r: Result<seq<byte>>)
    requires i <= |voices| == |l.offOffs|
    requires |buf| <= MAX_INT32 && 0 <= off <= |buf|
    ensures r.Ok? ==> |r.value| == |buf|
    ensures r.Err? ==> r.error != Overflow
    decreases |voices| - i, 1
  {
    if i == |voices| then Put(buf, TOTAL_SIZE_FIELD, LE32(off))
    else SaveRest(l, voices, |buf|, SlotWrite(l, voices[i], i, buf, off), i, off)
  }

  /** The rest of the save loop once slot `i`'s writes gave `written`. */
  function SaveRest(l: Layout, voices: seq<Voice>, size: nat, written: Result<seq<byte>>, i: nat, off: int): (r: Result<seq<byte>>)
    requires i < |voices| == |l.offOffs| && size <= MAX_INT32 && 0 <= off
    requires written.Ok? ==> |written.value| == size && off + |voices[i].data| <= size
    ensures r.Ok? ==> |r.value| == size
    ensures written.Err? ==> r == written
    ensures r.Err? ==> r.error != Overflow || written.Err?
    decreases |voices| - i, 0
  {
    var b :- written;
    SaveFrom(l, voices, b, i + 1, off + |voices[i].data|)
  }

  /** One pass of the save loop: when slot `i`'s writes succeed on `buf`
      giving `next`, the rest of the loop from `next` at slot `i + 1` gives
      what the loop from `buf` at slot `i` gives. */
  lemma SaveFromStep(l: Layout, voices: seq<Voice>, buf: seq<byte>, next: seq<byte>, i: nat, off: int)
    requires i < |voices| == |l.offOffs|
    requires |buf| <= MAX_INT32 && 0 <= off <= |buf|
    requires SlotWrite(l, voices[i], i, buf, off) == Ok(next)
    ensures off + |voices[i].data| <= |next| == |buf|
    ensures SaveFrom(l, voices, next, i + 1, off + |voices[i].data|) == SaveFrom(l, voices, buf, i, off)
  {
  }

  /** When slot `i`'s writes fail, the rest of the loop fails with their
      error. */
  lemma SaveFromFails(l: Layout, voices: seq<Voice>, buf: seq<byte>, i: nat, off: int)
    requires i < |voices| == |l.offOffs|
    requires |buf| <= MAX_INT32 && 0 <= off <= |buf|
    requires SlotWrite(l, voices[i], i, buf, off).Err?
    ensures SaveFrom(l, voices, buf, i, off) == Err(SlotWrite(l, voices[i], i, buf, off).error)
  {
  }

  /** What `Save` needs of the object: one clip per offset field, and a
      header that lies inside the file and within the int32 range. */
  predicate SaveReady(l: Layout, voices: seq<Voice>) {
    |voices| == |l.offOffs| && 0 <= l.headerSize <= |l.data| && l.headerSize <= MAX_INT32
  }

  /** `SCDFile.Save` on the parse-time layout and the current clips.  The
      clip-length sum is checked and fails above the int32 range; the
      header size is then added without a check, and a negative array size
      fails as well. */
  function Saved(l: Layout, voices: seq<Voice>): (r: Result<seq<byte>>)
    requires SaveReady(l, voices)
    ensures r.Ok? ==> |r.value| == l.headerSize + TotalLength(voices) <= MAX_INT32
    ensures r.Err? && r.error == Overflow <==> l.headerSize + TotalLength(voices) > MAX_INT32
  {
    var total := TotalLength(voices);
    if total > MAX_INT32 then Err(Overflow)
    else if Wrap32(l.headerSize + total) < 0 then Err(Overflow)
    else SaveFrom(l, voices, l.data[..l.headerSize] + seq(total, _ => 0), 0, l.headerSize)
  }

  /** Copying `w` into the array at `p`, as `CopyTo` does; nothing is
      written when it does not fit. */
  method WriteAt(a: array<byte>, p: int, w: seq<byte>) returns (ok: bool)
    modifies a
    ensures ok <==> Fits(old(a[..]), p, |w|)
    ensures ok ==> a[..] == Splice(old(a[..]), p, w)
    ensures !ok ==> a[..] == old(a[..])
  {
    if p < 0 || p + |w| > a.Length {
      return false;
    }
    for k := 0 to |w|
      invariant forall j :: 0 <= j < a.Length ==> a[j] == (if p <= j < p + k then w[j - p] else old(a[j]))
    {
      a[p + k] := w[k];
    }
    ghost var s := Splice(old(a[..]), p, w);
    assert forall j :: 0 <= j < a.Length ==> a[j] == s[j];
    return true;
  }
}
