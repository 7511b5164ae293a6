/** The `SCDFile` object: what the constructor fixes about the container
    (its bytes, header size, offset-table position, offset and duration
    field positions) and the list of clips the program reassigns before
    saving. */
module ScdFiles {
  import opened Results
  import opened Bytes
  import opened Voices
  import opened Container
  import opened Saving
  import opened ParseProps

  /** `Voices.Sum(a => a.Data.Length)`: the clip lengths added up. */
  method SumLengths(voices: seq<Voice>) returns (total: nat)
    ensures total == TotalLength(voices)
  {
    total := 0;
    for i := 0 to |voices|
      invariant total == TotalLength(voices[..i])
    {
      TotalLengthPrefix(voices, i);
      total := total + |voices[i].data|;
    }
    assert voices[..|voices|] == voices;
  }

  /** `new byte[headersize + total]` with the old header copied in
      (`Array.Copy(data, newdata, headersize)`). */
  method HeaderCopy(data: seq<byte>, headerSize: nat, total: nat) returns (a: array<byte>)
    requires headerSize <= |data|
    ensures fresh(a) && a[..] == data[..headerSize] + seq(total, _ => 0)
  {
    a := new byte[headerSize + total](_ => 0);
    forall k | 0 <= k < headerSize {
      a[k] := data[k];
    }
    assert a[..] == data[..headerSize] + seq(total, _ => 0);
  }

  /** The body of `Save`'s loop for slot `i`, clip `v`, on the buffer being
      built. */
  method WriteSlot(l: Layout, v: Voice, i: int, newdata: array<byte>, off: u32) returns (r: Result<seq<byte>>)
    requires 0 <= i < |l.offOffs|
    modifies newdata
    ensures r == SlotWrite(l, v, i, old(newdata[..]), off)
    ensures r.Ok? ==> newdata[..] == r.value
  {
    var ok := WriteAt(newdata, l.offOffs[i], LE32(off));
    if !ok {
      return Err(OutOfRange);
    }
    ok := WriteAt(newdata, off, v.data);
    if !ok {
      return Err(OutOfRange);
    }
    if !v.isDummy {
      var ver :- ReadU32(newdata[..], VERSION_FIELD);
      if ver <= LAST_DURATION_VERSION {
        if i !in l.lengthOffs {
          return Err(KeyNotFound);
        }
        ok := WriteAt(newdata, l.lengthOffs[i], LE32(v.length));
        if !ok {
          return Err(OutOfRange);
        }
      }
    }
    return Ok(newdata[..]);
  }

  /** `Save`'s loop over the slots, then the total-size field, on the new
      buffer (which already holds the header). */
  method WriteSlots(l: Layout, vs: seq<Voice>, newdata: array<byte>) returns (r: Result<seq<byte>>)
    requires |vs| == |l.offOffs| && newdata.Length <= MAX_INT32 && 0 <= l.headerSize <= newdata.Length
    modifies newdata
    ensures r == SaveFrom(l, vs, old(newdata[..]), 0, l.headerSize)
  {
    ghost var buf := newdata[..];
    ghost var goal := SaveFrom(l, vs, buf, 0, l.headerSize);
    var off := l.headerSize;
    for i := 0 to |vs|
      invariant newdata[..] == buf && |buf| == newdata.Length
      invariant 0 <= off <= newdata.Length
      invariant SaveFrom(l, vs, buf, i, off) == goal
    {
      var written := WriteSlot(l, vs[i], i, newdata, off);
      if written.Err? {
        SaveFromFails(l, vs, buf, i, off);
        return Err(written.error);
      }
      SaveFromStep(l, vs, buf, written.value, i, off);
      buf := written.value;
      off := off + |vs[i].data|;
    }
    var ok := WriteAt(newdata, TOTAL_SIZE_FIELD, LE32(off));
    if !ok {
      return Err(OutOfRange);
    }
    return Ok(newdata[..]);
  }

  class ScdFile {
    /** The read-only fields set by the constructor. */
    const layout: Layout
    /** `Voices`: one clip per slot, replaced in place by the caller. */
    var voices: seq<Voice>

    /** One clip per offset field, and a header that lies inside the file. */
    ghost predicate Valid()
      reads this
    {
      SaveReady(layout, voices)
    }

    constructor (p: Parsed)
      requires |p.voices| == |p.layout.offOffs|
      requires 0 <= p.layout.headerSize <= |p.layout.data| && p.layout.headerSize <= MAX_INT32
      ensures layout == p.layout && voices == p.voices && Valid()
    {
      layout := p.layout;
      voices := p.voices;
    }

    /** `Save`: the bytes written back to the file. */
    method Save() returns (r: Result<seq<byte>>)
      requires Valid()
      ensures r == Saved(layout, voices)
    {
      var l, vs := layout, voices;
      var total := SumLengths(vs);
      if total > MAX_INT32 {
        return Err(Overflow);
      }
      var size := Wrap32(l.headerSize + total);
      if size < 0 {
        return Err(Overflow);
      }
      var newdata := HeaderCopy(l.data, l.headerSize, total);
      r := WriteSlots(l, vs, newdata);
    }
  }

  /** `new SCDFile(...)` on the file's bytes: the parse, and on success an
      object holding its result. */
  method Open(data: seq<byte>) returns (r: Result<ScdFile>)
    requires |data| <= MAX_INT32
    ensures r.Ok? <==> ParseSpec(data).Ok?
    ensures r.Err? ==> r.error == ParseSpec(data).error
    ensures r.Ok? ==>
      && fresh(r.value) && r.value.Valid()
      && r.value.layout == ParseSpec(data).value.layout && r.value.voices == ParseSpec(data).value.voices
  {
    var p :- Parse(data);
    ParsedHeaderSize(data);
    var f := new ScdFile(p);
    return Ok(f);
  }
}
