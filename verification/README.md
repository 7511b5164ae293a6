# KH2 battle voice randomizer: SCD containers and clip redistribution

This project models the core of the KH2 battle voice randomizer. The tool opens every battle-voice SCD container ("SEDBSSCF") of the game. It pools the real voice clips of all containers, shuffles the pool, puts the clips back one per real slot, and saves each container with its internal tables rewritten.

The model covers four parts:

- **Parse** (the `SCDFile` constructor). The model reads the sub-header offset at 0xE, the three table counts, the two table offsets and the three tables. It sorts the offset table with the file length appended. It takes the header size as the smallest boundary and slices out each clip up to `table3sort[IndexOf(table3sort, start) + 1]`. For version 3 and earlier it walks the entry table and records each slot's duration field, reading the duration into the clip.
  - The functions in `Container` are the specification.
  - The methods `Container.Parse`, `ReadAllTables`, `ReadSlots` and `ReadDurations` are the constructor's loops, proved to compute those functions.
  - `ParseProps` proves what a successful parse means:
    - the header size is the minimum offset;
    - the clips are the byte ranges up to the next boundary and tile the payload;
    - duplicate offsets make the parse fail;
    - every recorded duration field holds its clip's duration, and it is the field named by the last entry that names the slot.
  - `RoundTrip` proves when saving a parsed container with its own clips gives back its bytes. For a layout whose rewritten fields sit apart inside the header (`FieldsInHeader`), this happens exactly when three things hold: the offset table increases in slot order, every written duration has a field, and the total-size field holds the file length.
- **Save** (`SCDFile.Save`). It allocates `headersize + Σ lengths`, copies the header, and walks the slots. For each slot it writes the running offset into the slot's offset field, copies the clip there and, for a real clip in a version 3 or earlier container, writes the clip's duration into the slot's duration field. Last, it writes the total length at 0x10.
  - `Saving.Saved` is the specification.
  - `ScdFiles.ScdFile.Save` writes into an `array<byte>` in place and is proved equal to `Saved`.
  - `SaveProps` proves what the output holds, field by field, against an independent reference image.
- **Placeholder detection** (`Voice`). A clip is a placeholder ("dummy") exactly when the i32 at byte 0xC is -1, that is, when those four bytes are 0xFF.
- **Redistribution** (the loops of `Main`).
  - The pool is the real clips in file-then-slot order.
  - The shuffle sorts the pool by one key per clip.
  - Refilling walks the same order with the counter `vi`, and each file is saved after its slots are refilled.
  - `Redistribution.Redistribute` runs on a list of `ScdFile` objects. It returns what saving `FillAll(before, Shuffle(keys, Pool(before)))` file by file gives. When every save succeeds, it is proved to leave every file holding that refill.
  - Lemmas about `FillAll` show three things: the placeholders stay put; the real slots, read in order, hold exactly the shuffled pool; and every pooled clip is used once.

C# exceptions become `Result` errors:
- `OutOfRange` for an index or argument out of range;
- `KeyNotFound` for a missing dictionary key;
- `Overflow` for the checked `Sum` or a negative array size.

`int` arithmetic that C# does unchecked is wrapped explicitly (`Bytes.Wrap32`) where it can matter.

Details of the behaviour that the model keeps:
- A clip ends at the entry right after the first equal one in the sorted table. When an offset repeats, that entry is the repeated offset itself. The clip then has length zero, `Voice` cannot read it, and the parse fails (`ClipBounds.SlotEndDuplicate`, `ParseProps.SlotsFacts`).
- `Save` decides whether to write durations from the version read out of the new buffer (`ToUInt32(newdata, 8)`), not from the original file (`Saving.LengthField`). That byte range holds the original version whenever the header covers bytes 8..11 and no rewritten field overlaps them. `SaveProps.FieldsInHeader` assumes both: through `TOTAL_SIZE_FIELD + 4 <= headerSize` and through `Apart(p, VERSION_FIELD)`. With a shorter header, the first clip written overwrites some of those bytes (all of them when the header ends at or before byte 8), and later offset or duration fields may overwrite them again.
- `Save` writes the clips back to back in slot order. A container whose offset table is not increasing in slot order is therefore rearranged. For example, offsets 140 and 100 in a 180-byte file are saved with the clips in the other order and the offsets rewritten as 100 and 140. `RoundTrip.RoundTripNeedsOrder` shows that such a container never saves back to its own bytes when its rewritten fields sit apart inside the header (`FieldsInHeader`).
- Overflow is not silent:
  - the clip-length sum is checked;
  - `headersize + sum` is unchecked, and when it overflows it becomes a negative array size, which throws;
  - `Saving.Saved` fails with `Overflow` exactly when the new size is above the int32 range.

## Model

| member | source | states |
|---|---|---|
| Bytes.U16 | KH2BattleVoiceRandomizer/Program.cs:143-146 | a little-endian u16 field is below 0x10000 |
| Bytes.I32 | KH2BattleVoiceRandomizer/Program.cs:151-155 | a two's-complement i32 field lies in the int32 range; it is -1 exactly when its four bytes are 0xFF; when non-negative it equals the u32 reading |
| Bytes.Wrap32 | KH2BattleVoiceRandomizer/Program.cs:164 | unchecked int arithmetic: the result is in the int32 range, in-range values are unchanged, and values just past the top wrap negative |
| Bytes.LE32 | KH2BattleVoiceRandomizer/Program.cs:187 | `GetBytes` gives four bytes that decode back to the value |
| Bytes.LE32OfU32 | KH2BattleVoiceRandomizer/Program.cs:187-190 | encoding is a left inverse of decoding: re-encoding a field gives its bytes |
| Bytes.U32OfField | KH2BattleVoiceRandomizer/Program.cs:189-193 | a field holding an encoding decodes to the encoded value |
| Bytes.ReadU16 | KH2BattleVoiceRandomizer/Program.cs:143-146 | `ToUInt16` succeeds exactly when the two bytes are inside the buffer, and otherwise fails with out-of-range |
| Bytes.ReadU32 | KH2BattleVoiceRandomizer/Program.cs:169 | `ToUInt32` succeeds exactly when the four bytes are inside the buffer, and then gives their value |
| Bytes.ReadI32 | KH2BattleVoiceRandomizer/Program.cs:148-149 | `ToInt32` succeeds exactly when the four bytes are inside the buffer, and then gives their signed value |
| Bytes.Splice | KH2BattleVoiceRandomizer/Program.cs:187-188 | after a copy into a buffer, the copied range holds the source bytes and every other byte is unchanged |
| Bytes.Put | KH2BattleVoiceRandomizer/Program.cs:187-188 | `CopyTo` succeeds exactly when the whole source fits at the position, and then is that splice |
| Bytes.SpliceKeeps | KH2BattleVoiceRandomizer/Program.cs:183-193 | a copy leaves every slice that does not meet its range unchanged |
| Voices.MakeVoice | KH2BattleVoiceRandomizer/Program.cs:204-208 | making a clip fails exactly when it is shorter than 0x10 bytes; otherwise it keeps the bytes, has duration 0, and is a placeholder exactly when bytes 0xC..0x10 are all 0xFF |
| Voices.TotalLengthSameSizes | KH2BattleVoiceRandomizer/Program.cs:182 | the clip-length sum depends only on the clips' sizes, so swapping clips of equal sizes keeps the new file size |
| Sorting.Sort | KH2BattleVoiceRandomizer/Program.cs:159 | `Array.Sort` gives an ascending permutation of its input |
| Sorting.SortSorted | KH2BattleVoiceRandomizer/Program.cs:159 | sorting an ascending sequence leaves it unchanged |
| Sorting.SortedUnique | KH2BattleVoiceRandomizer/Program.cs:159 | two ascending sequences with the same elements are equal |
| Sorting.SortIsUnique | KH2BattleVoiceRandomizer/Program.cs:159 | every ascending permutation of the input is `Sort`'s result, so the model agrees with `Array.Sort` whatever algorithm it uses |
| Sorting.IndexOf | KH2BattleVoiceRandomizer/Program.cs:164 | `Array.IndexOf` is the first index holding the value, and -1 exactly when the value is absent |
| Sorting.IndexOfDistinct | KH2BattleVoiceRandomizer/Program.cs:164 | in a sequence without repeats, `IndexOf` finds each element at its own index |
| Sorting.DistinctPermutation | KH2BattleVoiceRandomizer/Program.cs:156-159 | sorting keeps the table free of repeats |
| ClipBounds.Boundaries | KH2BattleVoiceRandomizer/Program.cs:156-159 | `table3sort` is the offset table plus the file length, sorted: a sorted permutation of one more element |
| ClipBounds.HeaderSizeIsMinimum | KH2BattleVoiceRandomizer/Program.cs:156-160 | `HeaderSize` (the first sorted boundary) is at most the file length and every offset, and equals one of them |
| ClipBounds.SlotEndInSorted | KH2BattleVoiceRandomizer/Program.cs:164 | about `SlotEnd` (the lookup `table3sort[IndexOf(table3sort, t) + 1]`) and `Gap` (the length it gives): on a sorted table, a repeated start ends where it starts; a start held once ends at the next larger boundary, and the lookup fails exactly when there is none; every gap is non-negative |
| ClipBounds.SlotEndDistinct | KH2BattleVoiceRandomizer/Program.cs:156-164 | with pairwise-distinct offsets, a slot's clip ends at the next larger offset or the file length, and the lookup fails exactly when there is no larger one |
| ClipBounds.SlotEndDuplicate | KH2BattleVoiceRandomizer/Program.cs:164 | an offset that repeats another one, or equals the file length, gives a zero-length clip |
| ClipBounds.SumGapsPermutation | KH2BattleVoiceRandomizer/Program.cs:161-168 | the sum of the clip lengths does not depend on the order of the slots |
| ClipBounds.SumGapsTelescope | KH2BattleVoiceRandomizer/Program.cs:164 | in a strictly increasing table, the gaps of the first k entries add up to the distance from the first entry to entry k |
| ClipBounds.GapsCoverPayload | KH2BattleVoiceRandomizer/Program.cs:156-168 | with distinct offsets below the file length, every slot finds its end and the clip lengths add up to the file length minus the header size |
| ClipBounds.LastBoundary | KH2BattleVoiceRandomizer/Program.cs:158-159 | when every offset is below the file length, the file length is the last sorted boundary |
| ClipBounds.InnerBoundaries | KH2BattleVoiceRandomizer/Program.cs:156-159 | when the file length is the last boundary, the other boundaries are a permutation of the offset table |
| ClipBounds.BoundaryExample | KH2BattleVoiceRandomizer/Program.cs:156-168 | offsets 100, 140, 180 in a 220-byte file give a 100-byte header and three 40-byte clips |
| Container.Table | KH2BattleVoiceRandomizer/Program.cs:150-155 | a table read succeeds exactly when it is empty or all its fields are inside the file, and then holds one i32 per consecutive 4-byte field |
| Container.ReadTables | KH2BattleVoiceRandomizer/Program.cs:143-155 | a successful read of the sub-header and tables means the file reaches 0x10, there are fewer than 0x10000 slots, and each offset is the i32 at its field |
| Container.OffsetFields | KH2BattleVoiceRandomizer/Program.cs:163 | slot i's offset field is at `table3off + 4 * i` |
| Container.ReadTable | KH2BattleVoiceRandomizer/Program.cs:150-155 | a table-reading loop computes the table function |
| Container.ReadAllTables | KH2BattleVoiceRandomizer/Program.cs:143-155 | the sub-header reads and the three table loops compute `ReadTables` |
| Container.ReadSlot | KH2BattleVoiceRandomizer/Program.cs:164-167 | one slot pass, with the int32 size and the array allocation and copy, computes the slot's clip or error (`SlotVoice`) |
| Container.ReadSlots | KH2BattleVoiceRandomizer/Program.cs:161-168 | the slot loop computes the clips in slot order (`SlotsFrom`) and records each slot's offset field |
| Container.ReadDurations | KH2BattleVoiceRandomizer/Program.cs:170-177 | the entry-table walk computes the duration fields and durations (`DurationsFrom`, one `DurationStep` per entry), a later entry overriding an earlier one |
| Container.Parse | KH2BattleVoiceRandomizer/Program.cs:139-178 | the constructor computes `ParseSpec`: the layout and clips, or the first error; `ParseSpec`, `SlotVoice`, `SlotsFrom`, `DurationStep` and `DurationsFrom` are the specification functions, whose meaning the `ParseProps` rows state |
| ParseProps.SlotsFromOk | KH2BattleVoiceRandomizer/Program.cs:161-168 | a successful slot loop gives one clip per slot, in slot order, each being that slot's own slicing result |
| ParseProps.SlotsFacts | KH2BattleVoiceRandomizer/Program.cs:156-168 | when the slot loop succeeds, the offsets are pairwise distinct and differ from the file length, and each clip is the `Gap` bytes at its start; so repeated offsets make the parse fail |
| ParseProps.PositiveGapsDistinct | KH2BattleVoiceRandomizer/Program.cs:164-167 | clips of positive length cannot share a start or start at the file length |
| ParseProps.ParseDecomposition | KH2BattleVoiceRandomizer/Program.cs:139-178 | a successful parse is the table read, then the slot loop, then a duration walk that changes only durations; later versions record no duration fields |
| ParseProps.ParsedHeaderSize | KH2BattleVoiceRandomizer/Program.cs:156-163 | after a parse, the header size lies in the file, is at most every clip start, and is a clip start or the file length; the offset fields are at consecutive 4-byte positions |
| ParseProps.ParsedClips | KH2BattleVoiceRandomizer/Program.cs:156-168 | after a parse, each clip is the file's bytes from its start up to the next larger boundary, the starts are distinct, each clip is a placeholder exactly when its bytes 0xC..0x10 are 0xFF, and the clips together cover everything after the header |
| ParseProps.ParsedDurations | KH2BattleVoiceRandomizer/Program.cs:169-177 | after a parse, every recorded duration field belongs to a slot whose clip's duration is the u32 in that field; the other clips have duration 0; versions after 3 record none; for versions up to 3, every entry was readable, a slot has a field exactly when some entry not tagged 0x100 names it, and its field is `table2[idx] + 0x50` of the last such entry |
| ParseProps.DurationsFromNames | KH2BattleVoiceRandomizer/Program.cs:170-177 | a successful walk from entry i on reads every remaining entry, and extends the fields found so far to exactly the slots named by an untagged entry, each at the field of the last entry naming it |
| ParseProps.NamesStep | KH2BattleVoiceRandomizer/Program.cs:171-176 | one entry either leaves the fields unchanged (tag 0x100) or sets its named slot's field to `table2[idx] + 0x50`, keeping the last-naming-entry description |
| ParseProps.DurationsFromOk | KH2BattleVoiceRandomizer/Program.cs:170-177 | the duration walk keeps the recorded fields matching the clips' durations and never changes a clip's bytes |
| Saving.LengthField | KH2BattleVoiceRandomizer/Program.cs:189-190 | the duration write keeps the buffer size and can fail only with out-of-range or a missing key |
| Saving.SlotWrite | KH2BattleVoiceRandomizer/Program.cs:187-190 | a successful slot write keeps the buffer size, and the clip fits at its offset |
| Saving.SaveFromStep | KH2BattleVoiceRandomizer/Program.cs:185-192 | when a slot's writes succeed, the rest of the loop from the next slot and offset gives the whole loop's result |
| Saving.SaveFromFails | KH2BattleVoiceRandomizer/Program.cs:185-192 | when a slot's writes fail, the save fails with their error |
| Saving.SaveFrom | KH2BattleVoiceRandomizer/Program.cs:184-193 | the save loop from slot i keeps the buffer size and never fails with overflow |
| Saving.SaveRest | KH2BattleVoiceRandomizer/Program.cs:187-192 | the rest of one slot's writes and the loop after it keep the buffer size, pass an earlier error on unchanged, and add no overflow |
| Saving.Saved | KH2BattleVoiceRandomizer/Program.cs:180-195 | a successful save has length header size plus clip-length sum (`Voices.TotalLength`), within int32; the save overflows exactly when that size is above the int32 range |
| Saving.WriteAt | KH2BattleVoiceRandomizer/Program.cs:187-190 | the in-place copy succeeds exactly when the source fits, writes exactly that range, and changes nothing when it fails |
| SaveProps.Offset | KH2BattleVoiceRandomizer/Program.cs:184-191 | where slot i's clip goes, the value of `offset` at slot i: between the header size and the new file size |
| SaveProps.Blank | KH2BattleVoiceRandomizer/Program.cs:182-183 | the new buffer before the loop, the header then zeros, has the new file size |
| SaveProps.Placed | KH2BattleVoiceRandomizer/Program.cs:187-190 | slot i's writes as they come out when none fails keep the buffer size |
| SaveProps.Finish | KH2BattleVoiceRandomizer/Program.cs:185-193 | the remaining slots' writes and the total-size write keep the buffer size |
| SaveProps.Image | KH2BattleVoiceRandomizer/Program.cs:180-193 | the reference image has the new file size |
| SaveProps.OffsetsOrdered | KH2BattleVoiceRandomizer/Program.cs:184-191 | the clips are laid out in slot order: an earlier clip ends at or before a later one starts |
| SaveProps.SlotWritePlaced | KH2BattleVoiceRandomizer/Program.cs:187-190 | a slot's writes fail exactly when its duration is due but has no recorded field, and otherwise give the reference writes |
| SaveProps.SaveFromFinish | KH2BattleVoiceRandomizer/Program.cs:185-193 | the save loop from slot i fails with a missing key exactly when a later slot lacks its duration field, and otherwise gives the reference writes |
| SaveProps.SavedImage | KH2BattleVoiceRandomizer/Program.cs:180-195 | on a well-formed layout, `Save` overflows when the new size is out of range; otherwise it fails with a missing key exactly when a written duration has no field, and otherwise returns the reference image |
| SaveProps.FinishWritten | KH2BattleVoiceRandomizer/Program.cs:185-193 | the reference writes leave every slot and the total size in place in the output |
| SaveProps.ImageFields | KH2BattleVoiceRandomizer/Program.cs:182-193 | the output field by field (`ImageHolds`): header bytes outside the rewritten fields are the original ones; slot i's offset field holds where its clip starts; the clip's bytes are there, right after the previous clip's; a written duration is in the slot's field; the total-size field holds the output length |
| ScdFiles.SumLengths | KH2BattleVoiceRandomizer/Program.cs:182 | the summing loop computes the clip-length total `Voices.TotalLength` |
| RoundTrip.ParseSaveRoundTrip | KH2BattleVoiceRandomizer/Program.cs:139-195 | parsing a container and saving it with its own clips gives back its bytes, when the offset table increases in slot order, every real clip of a version 3 or earlier container has a duration field, the total-size field holds the file length, and the rewritten fields sit apart in the header |
| RoundTrip.RoundTripNeedsOrder | KH2BattleVoiceRandomizer/Program.cs:139-195 | conversely, for a layout whose rewritten fields sit apart inside the header (`FieldsInHeader`), a parsed container that saves back to its own bytes has an offset table increasing in slot order, a field for every written duration and the file length in its total-size field |
| RoundTrip.SavedInOrder | KH2BattleVoiceRandomizer/Program.cs:180-195 | the same converse, also for `FieldsInHeader` layouts only, stated on the parse result |
| RoundTrip.LaidFrom | KH2BattleVoiceRandomizer/Program.cs:156-168 | clips at increasing starts, each running to the next boundary, lie back to back from the header's end to the end of the file |
| RoundTrip.OffsetIsStart | KH2BattleVoiceRandomizer/Program.cs:184-191 | for clips laid back to back, the offset `Save` computes for each slot is where its clip was read from |
| RoundTrip.ImageIsInput | KH2BattleVoiceRandomizer/Program.cs:182-193 | when the clips lie back to back and every rewritten field already holds the value `Save` writes, the output is the input |
| RoundTrip.OrderFromImage | KH2BattleVoiceRandomizer/Program.cs:184-193 | when the output is the input, the starts read from the offset fields increase and the total-size field holds the file length |
| ScdFiles.HeaderCopy | KH2BattleVoiceRandomizer/Program.cs:182-183 | the new buffer holds the old header followed by zeros up to the new size |
| ScdFiles.WriteSlot | KH2BattleVoiceRandomizer/Program.cs:187-190 | one pass of the save loop on the array computes the slot-write function, and on success the array holds its result |
| ScdFiles.WriteSlots | KH2BattleVoiceRandomizer/Program.cs:184-193 | the save loop and the total-size write on the array compute the save-loop function |
| ScdFiles.ScdFile.constructor | KH2BattleVoiceRandomizer/Program.cs:139-178 | the object holds the parsed layout and clips |
| ScdFiles.ScdFile.Save | KH2BattleVoiceRandomizer/Program.cs:180-195 | `Save` returns what `Saved` specifies for the object's layout and current clips |
| ScdFiles.Open | KH2BattleVoiceRandomizer/Program.cs:139-178 | opening succeeds exactly when the parse does, with the parse's error otherwise, and gives a fresh object holding the parsed layout and clips |
| Shuffling.InsertKeyed | KH2BattleVoiceRandomizer/Program.cs:48 | inserting a keyed clip keeps key order and adds exactly that element |
| Shuffling.SortKeyed | KH2BattleVoiceRandomizer/Program.cs:48 | `Array.Sort(keys, voices)` puts the pairs in ascending key order, as a permutation |
| Shuffling.SortKeyedClips | KH2BattleVoiceRandomizer/Program.cs:48 | sorting the pairs keeps the multiset of clips |
| Shuffling.Shuffle | KH2BattleVoiceRandomizer/Program.cs:45-48 | the shuffled pool is a permutation of the pool |
| Shuffling.ShuffleOrdered | KH2BattleVoiceRandomizer/Program.cs:45-48 | the shuffled clips are the pool's clips in ascending order of the keys they were given |
| Redistribution.Real | KH2BattleVoiceRandomizer/Program.cs:44 | a file's real clips are no more than its slots |
| Redistribution.InReal | KH2BattleVoiceRandomizer/Program.cs:44 | a clip is pooled from a file (`Real`, whose concatenation over the files is `Pool`) exactly when it is one of the file's clips and not a placeholder |
| Redistribution.PoolAllReal | KH2BattleVoiceRandomizer/Program.cs:44 | the pool holds no placeholder |
| Redistribution.PoolSplit | KH2BattleVoiceRandomizer/Program.cs:44 | `Pool`, the real clips in file then slot order, is the earlier files' real clips followed by the later files' |
| Redistribution.Fill | KH2BattleVoiceRandomizer/Program.cs:52-54 | refilling a file keeps its slot count |
| Redistribution.FillAll | KH2BattleVoiceRandomizer/Program.cs:49-54 | refilling all files keeps the file count and every file's slot count |
| Redistribution.FillAt | KH2BattleVoiceRandomizer/Program.cs:52-54 | after the inner loop a placeholder slot keeps its clip, and a real slot holds the clip whose index is the number of real slots before it |
| Redistribution.FillAllAt | KH2BattleVoiceRandomizer/Program.cs:49-54 | file k is refilled from the clips after those the earlier files took |
| Redistribution.Redistributed | KH2BattleVoiceRandomizer/Program.cs:49-54 | slot i of file k: a placeholder keeps its clip; a real slot gets the shuffled clip at the counter value `vi` reached there, which is below the pool size |
| Redistribution.RealFill | KH2BattleVoiceRandomizer/Program.cs:52-54 | the real slots of a refilled file hold, in order, exactly the clips it took |
| Redistribution.PoolFillAll | KH2BattleVoiceRandomizer/Program.cs:49-54 | the real slots of all files, in file then slot order, hold the first clips of the shuffled sequence, one each |
| Redistribution.FillOwn | KH2BattleVoiceRandomizer/Program.cs:52-54 | handing a file its own real clips in order leaves it unchanged |
| Redistribution.FillAllOwn | KH2BattleVoiceRandomizer/Program.cs:44-54 | refilling with the unshuffled pool changes nothing, so pooling and refilling are inverse |
| Redistribution.Conserved | KH2BattleVoiceRandomizer/Program.cs:44-54 | for any reordering of the pool, every file keeps its slot count, the real slots hold exactly that reordering, and every pooled clip is used once |
| Redistribution.PassConserves | KH2BattleVoiceRandomizer/Program.cs:44-54 | for one pass with any keys, the real slots hold the shuffled pool, a permutation of the pooled clips, and the placeholders stay where they were |
| Redistribution.DistinctAt | KH2BattleVoiceRandomizer/Program.cs:42 | the opened files are distinct objects, so refilling one does not change another |
| Redistribution.SaveAllOk | KH2BattleVoiceRandomizer/Program.cs:50-56 | `SaveAll`, saving the files in order, succeeds exactly when every save does, and then gives each file's saved bytes in file order |
| Redistribution.SaveAllErr | KH2BattleVoiceRandomizer/Program.cs:50-56 | when saving the files fails, the error is that of the first failing save, all earlier saves having succeeded |
| Redistribution.Refill | KH2BattleVoiceRandomizer/Program.cs:52-54 | the inner loop refills the file's real slots from the counter on and advances the counter by the file's number of real slots |
| Redistribution.RefillSave | KH2BattleVoiceRandomizer/Program.cs:51-56 | one outer pass refills exactly file `fi` with its share, leaves the other files alone, and saves it |
| Redistribution.RefillAll | KH2BattleVoiceRandomizer/Program.cs:49-56 | the outer loop gives the result of saving each file with its share of the shuffled clips, the first failed save ending it; when none fails every file holds its share and the counter has handed out every clip |
| Redistribution.Redistribute | KH2BattleVoiceRandomizer/Program.cs:44-56 | one pass: the result is saving the refill from the shuffled pool in file order; when every save succeeds the files end up holding that refill; with `Conserved` and `PassConserves` this means placeholders stay and each real clip is used once |

## Left out

- File I/O: `File.ReadAllBytes` becomes the byte sequence given to `ScdFiles.Open`, and `File.WriteAllBytes` becomes the bytes returned by `Save`. `Directory.CreateDirectory` and the file's `Name` are not modelled.
- The settings file, the folder dialog, directory enumeration, the "SEDBSSCF" magic check and the mod manifest (`Mod`, `Asset`, YAML) are not part of this model. They are configuration and output plumbing around the core.
- The random keys from `rand.Next()` are an input (`keys`). How uniform the shuffle is lies outside what can be proved here.
- Shuffling.Shuffle: ties between equal keys are broken by insertion order. The library's unstable sort may order tied clips differently, so with repeated keys the model fixes one of the possible orders. The permutation property holds either way.
- The second pass (lines 79-89) is the same code run on a second list of files. It is modelled by the same `Redistribution.Redistribute`.
- A `Voice` is a C# object shared by reference between the pool and the slots. The model treats it as a value, since clips are never changed after parsing.
- Exception kinds are merged: `IndexOutOfRange`, `ArgumentOutOfRange` and `ArgumentException` from `BitConverter` and `CopyTo` all become `OutOfRange`.
- The unchecked `table2[idx] + 0x50` is not wrapped. A value that would wrap is negative in C# and past the end of the file in the model, and both fail the following read.
- Files longer than the int32 range are excluded: `ScdFiles.Open` requires `|data| <= MAX_INT32`, as .NET arrays do. Running out of memory is not modelled.
- RoundTrip.ParseSaveRoundTrip: for a `FieldsInHeader` layout, a container whose offset table is out of slot order, or whose total-size field is stale, is saved with different bytes. `RoundTripNeedsOrder` shows these conditions are needed there, so the round trip holds only for containers already in the layout `Save` produces.
- RoundTrip.RoundTripNeedsOrder: the converse is stated only for `FieldsInHeader` layouts. Without that condition it does not hold. Example: the offset table lies inside the last clip, and that clip carries the values `Save` writes into the fields. A container like this can save back to its own bytes although its offset table is out of order.
- SaveProps.SavedImage, SaveProps.ImageFields: the field-by-field description assumes a well-formed layout, with the rewritten fields inside the header and pairwise apart (`FieldsInHeader`). For other layouts only `Saving.Saved` describes the output.
- Redistribution.RefillAll: when a save fails, the loop stops. The model states the error, and that the files are still valid, but not which files were already refilled. In the program, the exception ends it.
