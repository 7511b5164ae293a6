/** Reading an SCD ("SEDBSSCF") container: the header tables, the clip
    slices and, in format version 3 and earlier, where each clip's duration
    field lives.  The functions are the specification; `Parse` is the
    constructor's step-by-step reading, proved to compute them. */
module Container {
  import opened Results
  import opened Bytes
  import opened Sorting
  import opened ClipBounds
  import opened Voices

  /** u16 at 0xE: where the sub-header starts. */
  const SUB_HEADER_FIELD: int := 0xE
  /** u32 at 8: the format version. */
  const VERSION_FIELD: int := 8
  /** i32 at 0x10: the container's total byte length. */
  const TOTAL_SIZE_FIELD: int := 0x10
  /** Distance from the sub-header to the entry table (`table1`). */
  const TABLE1_DISTANCE: int := 0x20
  /** Distance from a `table2` entry to the duration field it describes. */
  const DURATION_DISTANCE: int := 0x50
  /** Entry tag of an entry that has no duration field. */
  const NO_DURATION_TAG: int := 0x100
  /** Within an entry: the u16 index into `table2`, and the u16 slot index. */
  const ENTRY_TABLE2_INDEX: int := 0x10
  const ENTRY_SLOT_INDEX: int := 0x12
  /** Versions up to this one carry duration fields. */
  const LAST_DURATION_VERSION: int := 3

  /** The parts of a container the save step needs, fixed at parse time:
      the whole input, the header length, where the offset table sits, the
      position of each slot's offset field, and the position of each slot's
      duration field (slot index to byte offset). */
  datatype Layout = Layout(
    data: seq<byte>,
    headerSize: int,
    table3Off: int,
    offOffs: seq<int>,
    lengthOffs: map<int, int>)

  datatype Parsed = Parsed(layout: Layout, voices: seq<Voice>)

  /** The three header tables, with the offset table's position. */
  datatype Tables = Tables(table1: seq<int>, table2: seq<int>, table3Off: int, table3: seq<int>)

  /** `count` consecutive i32 values starting at `off`. */
  function Table(data: seq<byte>, off: int, count: nat): (r: Result<seq<int>>)
    ensures r.Ok? <==> count == 0 || Fits(data, off, 4 * count)
    ensures r.Err? ==> r.error == OutOfRange
    ensures r.Ok? ==> |r.value| == count
    ensures r.Ok? ==> forall i :: 0 <= i < count ==> Fits(data, off + 4 * i, 4) && r.value[i] == I32(data, off + 4 * i)
  {
    if count == 0 then Ok([])
    else if !Fits(data, off, 4 * count) then Err(OutOfRange)
    else Ok(seq(count, i requires 0 <= i < count => I32(data, off + 4 * i)))
  }

  /** The sub-header and the three tables, read in the constructor's order. */
  function ReadTables(data: seq<byte>): (r: Result<Tables>)
    ensures r.Ok? ==> |data| >= TOTAL_SIZE_FIELD && |r.value.table3| < 0x1_0000
    ensures r.Ok? ==> forall i :: 0 <= i < |r.value.table3| ==>
      Fits(data, r.value.table3Off + 4 * i, 4) && r.value.table3[i] == I32(data, r.value.table3Off + 4 * i)
  {
    var headOff :- ReadU16(data, SUB_HEADER_FIELD);
    var n1 :- ReadU16(data, headOff);
    var n2 :- ReadU16(data, headOff + 2);
    var n3 :- ReadU16(data, headOff + 4);
    var table2Off :- ReadI32(data, headOff + 8);
    var table3Off :- ReadI32(data, headOff + 12);
    var table1 :- Table(data, headOff + TABLE1_DISTANCE, n1);
    var table2 :- Table(data, table2Off, n2);
    var table3 :- Table(data, table3Off, n3);
    Ok(Tables(table1, table2, table3Off, table3))
  }

  /** One step of the slot loop: the clip of the slot that starts at `t`.
      `size` is an int32 difference, and a negative array size throws. */
  function SlotVoice(data: seq<byte>, bounds: seq<int>, t: int): Result<Voice> {
    var end :- SlotEnd(bounds, t);
    var size := Wrap32(end - t);
    if size < 0 then Err(Overflow)
    else if t < 0 || t + size > |data| then Err(OutOfRange)
    else MakeVoice(data[t..t + size])
  }

  /** The slot loop from slot `i` on, `acc` holding the clips made so far. */
  function SlotsFrom(data: seq<byte>, bounds: seq<int>, table3: seq<int>, i: nat, acc: seq<Voice>): Result<seq<Voice>>
    decreases |table3| - i
  {
    if i >= |table3| then Ok(acc)
    else
      var v :- SlotVoice(data, bounds, table3[i]);
      SlotsFrom(data, bounds, table3, i + 1, acc + [v])
  }

  /** One step of the duration walk over entry `table1[i]`: unless its tag
      is 0x100, record where its slot's duration field is and read the
      duration into the slot's clip.  A later entry for the same slot
      overrides an earlier one. */
  function DurationStep(data: seq<byte>, table1: seq<int>, table2: seq<int>, i: int,
                        lengthOffs: map<int, int>, voices: seq<Voice>): Result<(map<int, int>, seq<Voice>)>
    requires 0 <= i < |table1|
  {
    var e := table1[i];
    var tag :- ReadU16(data, e);
    if tag == NO_DURATION_TAG then Ok((lengthOffs, voices))
    else
      var idx :- ReadU16(data, e + ENTRY_TABLE2_INDEX);
      if idx >= |table2| then Err(OutOfRange)
      else
        var off := table2[idx] + DURATION_DISTANCE;
        var slot :- ReadU16(data, e + ENTRY_SLOT_INDEX);
        if slot >= |voices| then Err(OutOfRange)
        else
          var d :- ReadU32(data, off);
          Ok((lengthOffs[slot := off], voices[slot := voices[slot].(length := d)]))
  }

  function DurationsFrom(data: seq<byte>, table1: seq<int>, table2: seq<int>, i: nat,
                         lengthOffs: map<int, int>, voices: seq<Voice>): Result<(map<int, int>, seq<Voice>)>
    decreases |table1| - i
  {
    if i >= |table1| then Ok((lengthOffs, voices))
    else
      var next :- DurationStep(data, table1, table2, i, lengthOffs, voices);
      DurationsFrom(data, table1, table2, i + 1, next.0, next.1)
  }

  /** The positions of the offset-table fields, one per slot. */
  function OffsetFields(table3Off: int, n: nat): (r: seq<int>)
    ensures |r| == n && forall i :: 0 <= i < n ==> r[i] == table3Off + 4 * i
  {
    seq(n, i => table3Off + 4 * i)
  }

  /** The `SCDFile` constructor on the file's bytes. */
  function ParseSpec(data: seq<byte>): Result<Parsed> {
    var t :- ReadTables(data);
    var bounds := Boundaries(t.table3, |data|);
    var voices :- SlotsFrom(data, bounds, t.table3, 0, []);
    var durations :-
      if U32(data, VERSION_FIELD) <= LAST_DURATION_VERSION
      then DurationsFrom(data, t.table1, t.table2, 0, map[], voices)
      else Ok((map[], voices));
    Ok(Parsed(Layout(data, bounds[0], t.table3Off, OffsetFields(t.table3Off, |t.table3|), durations.0), durations.1))
  }

  /** One table-reading loop of the constructor. */
  method ReadTable(data: seq<byte>, off: int, count: nat) returns (r: Result<seq<int>>)
    ensures r == Table(data, off, count)
  {
    var table: seq<int> := [];
    for i := 0 to count
      invariant |table| == i && (i == 0 || Fits(data, off, 4 * i))
      invariant forall k :: 0 <= k < i ==> table[k] == I32(data, off + 4 * k)
    {
      var x :- ReadI32(data, off + 4 * i);
      table := table + [x];
    }
    if count > 0 {
      assert table == seq(count, i requires 0 <= i < count => I32(data, off + 4 * i));
    }
    return Ok(table);
  }

  /** The constructor's reads of the sub-header and its three table loops. */
  method ReadAllTables(data: seq<byte>) returns (r: Result<Tables>)
    ensures r == ReadTables(data)
  {
    var headOff :- ReadU16(data, SUB_HEADER_FIELD);
    var n1 :- ReadU16(data, headOff);
    var n2 :- ReadU16(data, headOff + 2);
    var n3 :- ReadU16(data, headOff + 4);
    var table2Off :- ReadI32(data, headOff + 8);
    var table3Off :- ReadI32(data, headOff + 12);
    var table1 :- ReadTable(data, headOff + TABLE1_DISTANCE, n1);
    var table2 :- ReadTable(data, table2Off, n2);
    var table3 :- ReadTable(data, table3Off, n3);
    return Ok(Tables(table1, table2, table3Off, table3));
  }

  /** One pass of the constructor's slot loop: the clip of the slot starting at `t`. */
  method ReadSlot(data: seq<byte>, bounds: seq<int>, t: int) returns (r: Result<Voice>)
    ensures r == SlotVoice(data, bounds, t)
  {
    var k := IndexOf(bounds, t) + 1;
    if k >= |bounds| {
      return Err(OutOfRange);
    }
    var size := Wrap32(bounds[k] - t);
    if size < 0 {
      return Err(Overflow);
    }
    if t < 0 || t + size > |data| {
      return Err(OutOfRange);
    }
    r := MakeVoice(data[t..t + size]);
  }

  /** The constructor's slot loop: record each slot's offset field and slice
      out its clip. */
  method ReadSlots(data: seq<byte>, bounds: seq<int>, table3Off: int, table3: seq<int>)
    returns (offOffs: seq<int>, r: Result<seq<Voice>>)
    ensures r == SlotsFrom(data, bounds, table3, 0, [])
    ensures r.Ok? ==> offOffs == OffsetFields(table3Off, |table3|)
  {
    offOffs := [];
    var voices: seq<Voice> := [];
    for i := 0 to |table3|
      invariant |offOffs| == i && forall k :: 0 <= k < i ==> offOffs[k] == table3Off + 4 * k
      invariant SlotsFrom(data, bounds, table3, i, voices) == SlotsFrom(data, bounds, table3, 0, [])
    {
      offOffs := offOffs + [table3Off + 4 * i];
      var v := ReadSlot(data, bounds, table3[i]);
      if v.Err? {
        return offOffs, Err(v.error);
      }
      voices := voices + [v.value];
    }
    assert offOffs == OffsetFields(table3Off, |table3|);
    r := Ok(voices);
  }


  /** The constructor's walk over the entry table (version 3 and earlier). */
  method ReadDurations(data: seq<byte>, table1: seq<int>, table2: seq<int>, slotted: seq<Voice>)
    returns (r: Result<(map<int, int>, seq<Voice>)>)
    ensures r == DurationsFrom(data, table1, table2, 0, map[], slotted)
  {
    var lengthOffs: map<int, int> := map[];
    var voices := slotted;
    for i := 0 to |table1|
      invariant DurationsFrom(data, table1, table2, i, lengthOffs, voices)
             == DurationsFrom(data, table1, table2, 0, map[], slotted)
    {
      var tag :- ReadU16(data, table1[i]);
      if tag != NO_DURATION_TAG {
        var idx :- ReadU16(data, table1[i] + ENTRY_TABLE2_INDEX);
        if idx >= |table2| {
          return Err(OutOfRange);
        }
        var off := table2[idx] + DURATION_DISTANCE;
        var slot :- ReadU16(data, table1[i] + ENTRY_SLOT_INDEX);
        lengthOffs := lengthOffs[slot := off];
        if slot >= |voices| {
          return Err(OutOfRange);
        }
        var d :- ReadU32(data, off);
        voices := voices[slot := voices[slot].(length := d)];
      }
    }
    return Ok((lengthOffs, voices));
  }

  /** The `SCDFile` constructor: read the tables, slice out the clips and,
      for version 3 and earlier, walk the entry table for the duration
      fields. */
  method Parse(data: seq<byte>) returns (r: Result<Parsed>)
    ensures r == ParseSpec(data)
  {
    var t :- ReadAllTables(data);
    var bounds := Boundaries(t.table3, |data|);
    var headerSize := bounds[0];
    var offOffs, slots := ReadSlots(data, bounds, t.table3Off, t.table3);
    var voices :- slots;
    var lengthOffs: map<int, int> := map[];
    if U32(data, VERSION_FIELD) <= LAST_DURATION_VERSION {
      var durations :- ReadDurations(data, t.table1, t.table2, voices);
      lengthOffs, voices := durations.0, durations.1;
    }
    return Ok(Parsed(Layout(data, headerSize, t.table3Off, offOffs, lengthOffs), voices));
  }
}
