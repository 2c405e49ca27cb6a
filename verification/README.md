# Wire formats and packet framing

A model, with proofs, of the code that decides what the bytes on the wire are: the FlatBuffers and
FlexBuffers headers in `Network/flatbuffers`, the packet header around a FlatBuffer in `Network/Protocol.h`,
and the loop that cuts the received stream into packets in the test client.

`dafny verify dfyconfig.toml` checks everything.

## How the model is built

Both builders change a buffer in place, so they are classes (`VectorDownward`, `FlatBufferBuilder`,
`TestInfoBuilder`, `Builder`), and so are the verifier with its two counters (`Verifier`), the packet buffer
(`DataBuffer`) and the receiving client (`Client`). Each method is proved to take the object from one state
to the next of a machine on values (`FlatLayout`, `FlexLayout`, `FlexMachine`), which says which bytes are
written where. What the formats are for is then proved about whole runs of that machine: it refines a second
one that does not know about bytes at all and only remembers what the caller asked for (`Abs` in `FlatRun` and
in `FlexMachine`). `Drive` and `Serialize` in `FlatDrive` and `FlexDrive` carry the results back to the bytes
in the memory of the objects. Readers return `None` for a read outside the buffer, so that a reader that
returns a value is also one that stayed inside.

- **FlatBuffers, writing.** `VectorDownwards` (one block of memory with two stacks), `FlatLayout`,
  `FlatBuilder`, `FlatObjects`, `FlatCreate`, `FlatTable`, `FlatEndTable`, `FlatRun`, `FlatProgress`,
  `FlatElision`, `FlatVTables`, `FlatFinish`, `FlatAligned`, `FlatBufferStart`, `FlatDrive`, `FlatExamples`.
- **FlatBuffers, reading and verifying.** `FlatReader`, `FlatSchema` (any schema of scalars, strings, vectors
  and tables, recursive ones included), `FlatVerifier`, `FlatVerifierClass`, `FlatSoundness`, `FlatTrees`,
  `FlatRoom`, `FlatWellFormed`, `FlatComplete`; `FlatSorted`, `Reflection` and `TestInfo`, `TestInfoBuilders` for the schemas at hand.
- **FlexBuffers.** `FlexWidth`, `FlexReader`, `FlexLayout`, `FlexDenote`, `FlexVector`, `FlexContainers`,
  `FlexTyped`, `FlexPool`, `FlexMachine`, `FlexLeaves`, `FlexRun`, `FlexRoundTrip`, `FlexTrees`, `FlexLookup`,
  `FlexSharing`, `FlexCodes`, `FlexExamples`, `FlexBuilder`, `FlexDrive`, `FlexMutate`.
- **Framing and text.** `Packets`, `StreamReassembly`, `Utf8`, `Escape`, `EscapeText`.
- **Shared.** `Bytes`, `StringOrder`, `Sorting`, `BinarySearch`.

## Main results

1. Whatever is built, in whatever order, reads back: tables through their vtables (`EveryObjectReadsBack`),
   FlexBuffers trees from the root (`RunRoundTrip`, `TreeRoundTrip`); and a legal sequence of calls fails
   only for want of room (`LegalRunSucceeds`, `RunSucceeds`).
2. For arbitrary bytes and every schema the verifier accepts exactly the buffers in which everything the
   readers reach is in range, terminated and aligned, within the limits (`AcceptsIff`); so what it accepts can
   be read throughout (`VerifiedBufferIsReadable`), and it accepts everything the builder finishes, if and only
   if the limits leave room for it and the identifier asked for is its own (`FinishedBufferVerifies`,
   `FinishedBufferVerifiesIff`).
3. Sharing changes bytes and never meaning: vtables (`SwitchesPreserveMeaning`, `RunVTablesDistinct`), strings
   (`PoolingIsExact`), keys (`KeySharingIsExact`).
4. Everything in a finished buffer is naturally aligned (`FinishedBufferIsAligned`), and the start of a buffer
   can be found from its root (`BufferStartInvertsGetRoot`).
5. The search for an element's width always succeeds, and no range assertion of the FlexBuffers builder is
   ever violated (`ElemWidth`, `FitsWider`, `AllElementsFit`).
6. Sorted vectors and maps answer lookups as the abstract map does (`LookupAfterCreate`, `Lookup`).
7. What the client delivers does not depend on how the stream is cut (`IndependentOfChunking`).
8. UTF-8 conversion and string escaping are invertible (`DecodeOfEncode`, `EncodeOfDecode`,
   `UnescapeOfEscape`), and escaped text is printable or natural as asked (`EscapedIsPrintable`,
   `NaturalText`).
9. The bytes are those of the formats: which fields a table stores (`ElidedIff`), the codes of the FlexBuffers
   types (`RootCode`, `TreeCode`), and a few buffers byte for byte (`FlatExamples`, `FlexExamples`).

## Where the code does less than it promises

In each of these cases the model does what the code does; there is a concrete input, and the exact condition
under which the promise holds.

- `AssemblePacketBuffer` (`Network/Protocol.h:148-153`) appends the packet type with the one-argument
  `AppendData` (`Common/DataBuffer.h:57-67`), which copies to the front of the buffer and does not advance.
  The type lands on the low byte of the size and the FlatBuffer one byte early. `AssembledReadsBackIff` says
  when such a packet reads back all the same, and `AssembledFlatBufferNeverReadsBack` that a FlatBuffer never
  does; `AssembledExample` is a small packet that does not. A packet put together by `SetSize`, `SetType` and
  `SetData` reads back if and only if its size fits two bytes (`SettersReadBackIff`), and for `TestInfo` that
  is the end-to-end result (`TestInfoPacketRoundTrip`).
- `ReadPacket` (`Test_Client.cpp:57-91`) reads the size of a carried packet again through a signed `char`, so
  a packet of 128 bytes or more that straddles two chunks is lost, with everything after it, and a size of
  zero keeps the loop from ending. `RunIff` is exact; `StraddlingPacketIsLost` and `ZeroSizeIsStuck`
  are examples.
- The FlexBuffers string pool compares with `strncmp` (`flexbuffers.h:1513-1523`), so strings that differ only
  behind a NUL are taken for one another: `SharedStringReadsIff`, `SharedStringReadsBackIff`,
  `SharingConfusesStringsWithNul`.
- `MutateBool` copies as many bytes as the elements of the vector have from a value of one byte
  (`flexbuffers.h:629-631`, `688-698`), so in a vector of wider elements bytes from behind the value come along,
  and an element set to false can read as true: `MutateBoolReadsIff`, `MutateBoolWritesIff`,
  `MutateBoolExample`.
- A FlexBuffers typed vector reads the size of a string as one byte (`flexbuffers.h:773`):
  `TypedStringsReadIff`, `LongStringExample`.
- A FlexBuffers tuple of anything but numbers has the type of something else (`flexbuffers.h:99-121`), although
  the builder accepts it: `FixedTypeRoundTripIffNumbers`, `PairOfKeysExample`.
- Without the alignment check a vtable of odd size at the end of the buffer lets an accessor read one byte too
  far: `OddVTableIsTheOnlyGap`, `OddVTableExample`.
- `LookupByKey` compares strings as C strings, while the sort compares all their bytes:
  `SearchAgreesIff`, `SearchExample`.

## Model

| member | source | states |
|---|---|---|
| Bytes.FromLEofLE | Network/flatbuffers/base.h:353-364 | reading a little-endian scalar of any width gives back what was written, for every value the width holds |
| Bytes.PaddingBytes | Network/flatbuffers/base.h:374-376 | the padding is smaller than the alignment and brings the size up to a multiple of it |
| Bytes.PaddingIsMaskedNegation | Network/flatbuffers/base.h:374-376 | the same two facts of the masked two's-complement negation the code computes, on 64-bit vectors |
| Bytes.PaddingIsMasked | Network/flatbuffers/base.h:374-376 | the padding is what the code computes: the complement of the size plus one, in 64 bits, masked with the alignment less one, for every size and alignment |
| StringOrder.StringLessThanIsStrictTotalOrder | Network/flatbuffers/flatbuffers.h:398-402 | StringLessThan is irreflexive and transitive, and two strings, embedded NULs included, are equivalent in it if and only if they are equal |
| StringOrder.StringLessThanIsLexLess | Network/flatbuffers/flatbuffers.h:398-402 | comparing by memcmp and then by length is the lexicographic order on bytes |
| StringOrder.LexLessMeans | Network/flatbuffers/flatbuffers.h:396-402 | one string is less than another if and only if they agree up to a point where the first one ends or has the smaller byte |
| VectorDownwards.VectorDownward.Reallocate | Network/flatbuffers/flatbuffers.h:866-881 | memory grows by half, or to the initial size, or by the room asked for if that is more, rounded up to the alignment; every byte is at the place data_at gives for its distance from the end, and the scratch bytes are unchanged |
| VectorDownwards.VectorDownward.CopyDownward | Network/flatbuffers/flatbuffers.h:466-472 | copies what is in use at the back to the back and what is in use at the front to the front |
| VectorDownwards.VectorDownward.EnsureSpace | Network/flatbuffers/flatbuffers.h:758-765 | afterwards the room asked for is there; data and scratch are as before; the size limit it asserts is its precondition |
| VectorDownwards.VectorDownward.MakeSpace | Network/flatbuffers/flatbuffers.h:767-771 | the data grows by exactly so many bytes at its front and is otherwise the old data |
| VectorDownwards.VectorDownward.Push | Network/flatbuffers/flatbuffers.h:803-811 | the data is the pushed bytes followed by the old data; the scratch space is untouched |
| VectorDownwards.VectorDownward.Fill | Network/flatbuffers/flatbuffers.h:821-829 | the data is zeros followed by the old data; the scratch space is untouched |
| VectorDownwards.VectorDownward.Pop | Network/flatbuffers/flatbuffers.h:831 | the data loses exactly its first bytes |
| VectorDownwards.VectorDownward.ScratchPush | Network/flatbuffers/flatbuffers.h:813-817 | the scratch space is the old one followed by the new bytes; the data is untouched, reallocated or not |
| VectorDownwards.VectorDownward.ScratchPop | Network/flatbuffers/flatbuffers.h:832 | the scratch space loses exactly its last bytes |
| VectorDownwards.VectorDownward.ClearScratch | Network/flatbuffers/flatbuffers.h:716-718 | the scratch space is empty, the data untouched |
| VectorDownwards.VectorDownward.Clear | Network/flatbuffers/flatbuffers.h:706-714 | both are empty and the memory is kept |
| VectorDownwards.DoAll | Network/flatbuffers/flatbuffers.h:758-832 | under every interleaving of pushes, fills, pops, scratch pushes and pops and clears, buf <= scratch <= cur <= end, the data is what the data operations alone make of it, and the scratch space what the scratch operations alone do |
| VectorDownwards.RoundUpIsMasked | Network/flatbuffers/flatbuffers.h:872 | the masked rounding yields a multiple of the alignment, not below the size and less than one alignment above it |
| VectorDownwards.RoundUpIsMaskedSum | Network/flatbuffers/flatbuffers.h:872 | the size reallocate rounds to is the masked sum the code computes |
| FlatBuilder.FlatBufferBuilder.PreAlign | Network/flatbuffers/flatbuffers.h:1284-1287 | the state becomes that of the layout function: padded so that after the announced bytes the size is aligned, and the largest alignment tracked |
| FlatBuilder.FlatBufferBuilder.PushElement | Network/flatbuffers/flatbuffers.h:1114-1120 | an aligned scalar in front of the data; the result is the new size |
| FlatBuilder.FlatBufferBuilder.ReferTo | Network/flatbuffers/flatbuffers.h:1163-1170 | an offset from the end becomes the distance from where it is about to be stored, after aligning; that it refers into the buffer is the asserted precondition |
| FlatBuilder.FlatBufferBuilder.PushOffset | Network/flatbuffers/flatbuffers.h:1122-1125 | the aligned relative offset in front of the data |
| FlatBuilder.FlatBufferBuilder.TrackField | Network/flatbuffers/flatbuffers.h:1129-1134 | one more field location in the scratch space, as bytes, and the largest field id so far |
| FlatBuilder.FlatBufferBuilder.AddElement | Network/flatbuffers/flatbuffers.h:1137-1142 | a value equal to its default is elided unless defaults are forced (which fields are, over whole runs, is FlatElision.ElidedIff); any other is pushed and tracked |
| FlatBuilder.FlatBufferBuilder.AddOffset | Network/flatbuffers/flatbuffers.h:1144-1147 | an offset of 0 is not stored; any other is made relative, pushed and tracked, never elided |
| FlatBuilder.FlatBufferBuilder.StartTable | Network/flatbuffers/flatbuffers.h:1171-1191 | nested from now on; the result is the size at which the table starts |
| FlatBuilder.FlatBufferBuilder.EndTable | Network/flatbuffers/flatbuffers.h:1196-1258 | for every set of fields: the vtable written slot by slot through the scratch records, the search for an equal older one, the removal or remembering, and the signed link patched in place give exactly the bytes, remembered vtables and state of the layout; its assertions (started, below 64 KB, no field twice) are preconditions or proved |
| FlatBuilder.FlatBufferBuilder.FillVTable | Network/flatbuffers/flatbuffers.h:1206-1226 | the zeros, the two sizes and the in-place slot writes make the vtable the fields call for, each slot being empty before it is set |
| FlatBuilder.FlatBufferBuilder.FindOldVTable | Network/flatbuffers/flatbuffers.h:1233-1244 | the scan over remembered vtables finds the first one of equal size and contents, if there is one |
| FlatBuilder.FlatBufferBuilder.LinkVTable | Network/flatbuffers/flatbuffers.h:1246-1254 | a new vtable is remembered and an old one is not; the four reserved bytes hold the signed distance to the vtable |
| FlatBuilder.FlatBufferBuilder.ClearOffsets | Network/flatbuffers/flatbuffers.h:1276-1280 | the field records leave the scratch space, the remembered vtables stay |
| FlatBuilder.FlatBufferBuilder.CreateString | Network/flatbuffers/flatbuffers.h:1298-1305 | terminator, characters and length, aligned so that the length needs no padding |
| FlatBuilder.FlatBufferBuilder.CreateSharedString | Network/flatbuffers/flatbuffers.h:1360-1377 | the string is written, searched for in the pool by contents, and taken back if it is there |
| FlatBuilder.FlatBufferBuilder.FindInPool | Network/flatbuffers/flatbuffers.h:1889-1901 | finds a pooled string with equal contents if and only if there is one |
| FlatBuilder.FlatBufferBuilder.StartVector | Network/flatbuffers/flatbuffers.h:1413-1418 | both alignments for the elements to come, then nested |
| FlatBuilder.FlatBufferBuilder.EndVector | Network/flatbuffers/flatbuffers.h:1407-1411 | no longer nested, the length pushed in front |
| FlatBuilder.FlatBufferBuilder.CreateScalars | Network/flatbuffers/flatbuffers.h:1443-1462 | length and elements as the layout says, with no padding between them |
| FlatBuilder.FlatBufferBuilder.CreateOffsets | Network/flatbuffers/flatbuffers.h:1464-1469 | the loop from the last element to the first gives the vector of relative offsets of the layout |
| FlatBuilder.FlatBufferBuilder.Finish | Network/flatbuffers/flatbuffers.h:1846-1861 | alignment for everything still to come, identifier, root offset, size prefix; the scratch space is cleared |
| FlatBuilder.FlatBufferBuilder.Clear | Network/flatbuffers/flatbuffers.h:1001-1008 | the builder is as good as new, whatever was under way; only the two switches stay |
| FlatDrive.Drive | Network/flatbuffers/flatbuffers.h:1094-1469 | any legal sequence of building calls, run on the object with either setting of the two switches, ends in the state the machine on values ends in |
| FlatDrive.Serialize | Network/flatbuffers/flatbuffers.h:1846-1861 | building and finishing on the object leaves bytes in memory that the verifier accepts and that decode to the tree that was built |
| FlatExamples.InfoExample | Network/testinfo_generated.h:52-71 | the finished buffer of name "a" and level 7, all 32 bytes |
| FlatExamples.ThreeTablesExample | Network/flatbuffers/flatbuffers.h:1196-1258 | three tables of one field, byte for byte: two vtables that differ in the table size, and a third table that links back to the second vtable |
| FlatExamples.ScalarVectorExample | Network/flatbuffers/flatbuffers.h:1443-1462 | a vector of scalars, byte for byte |
| FlatExamples.OffsetVectorExample | Network/flatbuffers/flatbuffers.h:1464-1469 | a vector of two strings, byte for byte |
| FlatCreate.CreateStringLayout | Network/flatbuffers/flatbuffers.h:1298-1305 | the length word is directly followed by the characters and the terminator, and lies on a multiple of 4 from the end |
| FlatCreate.CreateScalarsLayout | Network/flatbuffers/flatbuffers.h:1413-1418 | the length word is directly followed by the elements; it lies on a multiple of 4 and they on a multiple of their size from the end |
| FlatCreate.CreateOffsetsLayout | Network/flatbuffers/flatbuffers.h:1465-1469 | each element leads to the object it was given |
| FlatEndTable.EndTableReads | Network/flatbuffers/flatbuffers.h:1196-1258 | a finished table reads back each stored field's value and each elided or absent one's default through the vtable, whether the vtable is new or shared, and is aligned |
| FlatEndTable.LinkedTableReads | Network/flatbuffers/flatbuffers.h:2251-2263 | a table whose link leads to a vtable reads, for every field id, the slot of that vtable or absence |
| FlatElision.ElidedIff | Network/flatbuffers/flatbuffers.h:1137-1147 | over every run: in the finished buffer the accessors find slot 0 for a field that was added to a table if and only if it is a scalar whose value equals its default and defaults were not forced at that call |
| FlatElision.RunStores | Network/flatbuffers/flatbuffers.h:1206-1226 | over every run, each table stores exactly the fields its calls call for, among all field ids, in a vtable with room for the highest of them and no more |
| FlatElision.TableSizeWord | Network/flatbuffers/flatbuffers.h:1210-1215 | the second word of the vtable, new or shared, is the distance from StartTable to the end of the vtable link |
| FlatRun.StepInv | Network/flatbuffers/flatbuffers.h:1094-1469 | every building call keeps the invariant that every object so far reads back as what it was created from and sits aligned |
| FlatRun.EveryObjectReadsBack | Network/flatbuffers/flatbuffers.h:2251-2280 | after any legal run every object created so far reads back as what it was created from, whatever was pushed, popped or shared since, for either setting of the switches |
| FlatProgress.StepSucceeds | Network/flatbuffers/flatbuffers.h:1094-1469 | within the invariant a legal call goes through if and only if there is room for what it writes (a buffer below 2 GB, a table below 64 KB): the assertions on nesting, on offsets into the buffer and on fields set twice are never reached |
| FlatProgress.AssertionsHoldIff | Network/flatbuffers/flatbuffers.h:758-765 | the size assertions of the code, which look at the size before each push, hold if and only if there is room or a string or vector ends at exactly 2 to the 31, where nothing more can be written |
| FlatProgress.LegalRunSucceeds | Network/flatbuffers/flatbuffers.h:1094-1469 | so a whole run goes through if and only if there is room at every step; then every object created can be the root of a finished buffer |
| FlatProgress.NestingRefused | Network/flatbuffers/flatbuffers.h:1171-1195 | an assertion fails if something is built or a table is started inside a table, if a table ends that was not started, and if a field was stored twice |
| FlatRun.PoolingIsExact | Network/flatbuffers/flatbuffers.h:1360-1377 | over every run two shared strings have the same offset if and only if they have the same contents |
| FlatRun.SharedHit | Network/flatbuffers/flatbuffers.h:1366-1373 | a hit in the pool leaves the serialized bytes exactly as they were |
| FlatVTables.StepExtends | Network/flatbuffers/flatbuffers.h:1094-1469 | no building call changes a byte already serialized: every step only adds bytes in front |
| FlatVTables.RunVTablesDistinct | Network/flatbuffers/flatbuffers.h:1231-1246 | over every run with sharing on, remembered vtables are pairwise different and in order of age |
| FlatVTables.OwnVTable | Network/flatbuffers/flatbuffers.h:1231-1254 | with sharing off a table gets a vtable of its own, right in front of it |
| FlatVTables.RunOwnVTables | Network/flatbuffers/flatbuffers.h:1231-1254 | over every run that never turns sharing on there are as many vtables as tables |
| FlatVTables.RunDeduplicates | Network/flatbuffers/flatbuffers.h:1085 | over every run sharing is on if and only if the last call on the switch turned it on |
| FlatVTables.EndTableVTables | Network/flatbuffers/flatbuffers.h:1231-1246 | each remembered vtable lies strictly behind every later table, so one that is used again is never recorded again |
| FlatComplete.SwitchesPreserveMeaning | Network/flatbuffers/flatbuffers.h:1231-1254 | the same calls with vtable sharing and forced defaults on or off give buffers that decode to the same tree, for every schema the objects fit |
| FlatFinish.IndexAligned | Network/flatbuffers/flatbuffers.h:1849-1852 | because the finished size is a multiple of the tracked alignment, what was aligned from the end is aligned from the start |
| FlatAligned.FinishedBufferIsAligned | Network/flatbuffers/flatbuffers.h:1846-1861 | for every run, root, identifier and size prefix: the size of the finished buffer is a multiple of the tracked alignment, and in it every scalar of a table or vector lies at an index divisible by its size, every length, offset and vtable link at one divisible by 4, every vtable at an even one |
| FlatAligned.RunMinalign | Network/flatbuffers/flatbuffers.h:1849-1852 | over every run the tracked alignment is no more than one of the calls asks for |
| FlatFinish.FinishedObjects | Network/flatbuffers/flatbuffers.h:1846-1861 | every object still reads back from the finished buffer, whose size is a multiple of the tracked alignment and whose first word leads to the root |
| FlatVerifier.FieldOffsetInBounds | Network/flatbuffers/flatbuffers.h:2257-2265 | with the alignment check, the vtable reads of every accessor with an even field id stay inside the buffer |
| FlatVerifier.VerifyOffset | Network/flatbuffers/flatbuffers.h:2140-2151 | an offset that is not rejected is the stored one and leads into the buffer |
| FlatSoundness.VerifiedBufferIsReadable | Network/flatbuffers/flatbuffers.h:2095-2125 | if the verify chain of any schema accepts an arbitrary buffer, everything reachable from the root through the accessors is read inside the buffer, strings with their terminators; the depth is restored and the table counter raised by exactly the number of visits |
| FlatSoundness.TableSound | Network/flatbuffers/flatbuffers.h:2095-2106 | an accepted table decodes completely, with the counters accounted for |
| FlatSoundness.TablesSound | Network/flatbuffers/flatbuffers.h:2086-2093 | vectors of tables whose element offsets were not checked are sound as well, because each table lies behind the vector |
| FlatSoundness.OddVTableIsTheOnlyGap | Network/flatbuffers/flatbuffers.h:2095-2106 | without the alignment check an accessor reads outside if and only if its slot straddles the end of a vtable of odd size that ends the buffer |
| FlatSoundness.OddVTableExample | Network/flatbuffers/flatbuffers.h:2095-2106 | a buffer of nine bytes in that gap |
| FlatVerifierClass.Verifier.VerifyComplexity | Network/flatbuffers/flatbuffers.h:2161-2165 | both counters go up by one, and the limits are compared with the new values |
| FlatVerifierClass.Verifier.VerifyTableStart | Network/flatbuffers/flatbuffers.h:2095-2106 | the outcome and the counters, which go up only once the table itself is readable |
| FlatVerifierClass.Verifier.VerifyVectorOfStrings | Network/flatbuffers/flatbuffers.h:2076-2083 | the loop accepts if and only if every element is a terminated string inside the buffer |
| FlatVerifierClass.Verifier.VerifyTable | Network/flatbuffers/flatbuffers.h:2317-2349 | the recursive checks terminate and have the outcome and the counters of the specification |
| FlatVerifierClass.Verifier.VerifyField | Network/flatbuffers/flatbuffers.h:2323-2349 | one field, required or not, and what it refers to |
| FlatVerifierClass.Verifier.VerifyVectorOfTables | Network/flatbuffers/flatbuffers.h:2086-2093 | the loop over the tables of a vector |
| FlatVerifierClass.Verifier.VerifyBuffer | Network/flatbuffers/flatbuffers.h:2108-2125 | the identifier, if one is asked for, then the root offset, then the root table; the result is true if and only if the identifier is there and the buffer is well formed and within the limits |
| FlatVerifierClass.Verifier.VerifySizePrefixed | Network/flatbuffers/flatbuffers.h:2134-2138 | additionally the prefix has to be the size of the rest |
| FlatComplete.FinishedBufferVerifies | Network/flatbuffers/flatbuffers.h:1846-1861 | every buffer finished for a schema, plain or size-prefixed, with or without identifier, is accepted when the limits leave room for its depth and its visits, decodes to the tree that was built, and leaves the counters as many tables higher |
| FlatComplete.FinishedBufferVerifiesIff | Network/flatbuffers/flatbuffers.h:2108-2138 | and only then: a finished buffer is accepted if and only if the limits leave room, and an identifier that is asked for is the one it was finished with |
| FlatRoom.AcceptedHasRoom | Network/flatbuffers/flatbuffers.h:2161-2165 | whatever buffer is accepted, the tree it decodes to is no deeper and has no more tables than the limits leave room for |
| FlatWellFormed.AcceptsIff | Network/flatbuffers/flatbuffers.h:2001-2159 | for every schema, every byte sequence and every setting of the limits: VerifyBufferFromStart accepts if and only if everything the readers reach from the root is in range, terminated, present where required and aligned (tables, offsets and length words on 4, vtables and their sizes on 2), and the limits leave room for the number of tables and their depth; and what is well formed decodes |
| FlatWellFormed.TableIff | Network/flatbuffers/flatbuffers.h:2317-2349 | the same of the table at any position, for any counters |
| FlatWellFormed.VectorIff | Network/flatbuffers/flatbuffers.h:2058-2073 | a vector is accepted if and only if its length word is aligned and inside and all its elements are inside, for every position and element size |
| FlatWellFormed.IdentifiedIff | Network/flatbuffers/flatbuffers.h:2108-2120 | an identifier of four characters is accepted if and only if the four bytes behind the root offset are it and the buffer is accepted without it |
| FlatWellFormed.SizePrefixedIff | Network/flatbuffers/flatbuffers.h:2134-2138 | a size-prefixed buffer is accepted if and only if its first word is the size of the rest and the rest is accepted |
| FlatComplete.TableAccepted | Network/flatbuffers/flatbuffers.h:2095-2106 | every table a run built passes all checks of its type, in the finished buffer |
| FlatBufferStart.GetBufferStartFromRootPointer | Network/flatbuffers/flatbuffers.h:2373-2405 | the loop finds the first of five words in front of the root or its vtable that leads to the root |
| FlatBufferStart.NearestOfFive | Network/flatbuffers/flatbuffers.h:2373-2398 | the search ends at the nearest word that leads to the root among the five before the table or its vtable, whichever is first, aligned down; or there is none |
| FlatBufferStart.NoImpersonation | Network/flatbuffers/flatbuffers.h:2381-2391 | neither a padding word nor an identifier word can be taken for the root offset |
| FlatBufferStart.BufferStartInvertsGetRoot | Network/flatbuffers/flatbuffers.h:2373-2405 | for every run whose last object is the root, every alignment up to 16, with or without identifier and with the vtable before or behind the root, the search ends at the start of the buffer |
| Sorting.OrderSorts | Network/flatbuffers/flatbuffers.h:1732-1737 | distinct keys come out strictly sorted, for any strict total order |
| Sorting.SortedIsUnique | Network/flatbuffers/flatbuffers.h:1732-1737 | strictly sorted sequences of the same keys are equal, so which sort is used does not matter |
| BinarySearch.Search | Network/flatbuffers/flatbuffers.h:320-331 | finds an element that compares as equal if and only if there is one, for every comparison that ascends |
| FlatSorted.CreateSortedTablesSorts | Network/flatbuffers/flatbuffers.h:1732-1737 | the vector refers to each of the tables given and to no others, in strictly ascending order of their keys |
| FlatSorted.KeyLessMeans | Network/flatbuffers/reflection_generated.h:245-251 | integer keys ascend by value, string keys by the first byte they differ in |
| FlatSorted.CompareAscends | Network/flatbuffers/flatbuffers.h:345-353 | the order of the sort and the negated comparison of the search never contradict each other, although one compares lengths and the other stops at a NUL |
| FlatSorted.LookupByKey | Network/flatbuffers/flatbuffers.h:320-353 | finds an element whose key compares as equal, and none if and only if there is none |
| FlatSorted.CompareIsEquality | Network/flatbuffers/reflection_generated.h:247-252 | integer keys, and string keys without NUL, compare as equal to themselves only |
| FlatSorted.LookupAfterCreate | Network/flatbuffers/flatbuffers.h:1732-1737 | sorting and searching together: on the vector CreateVectorOfSortedTables made of tables with distinct keys (integers, or strings without NUL), and whatever was put in front of it since, LookupByKey finds a table with the key if and only if one of the tables has it |
| FlatSorted.SearchAgreesIff | Network/flatbuffers/reflection_generated.h:489-494 | for string keys the search agrees with linear search for every C string if and only if each key up to its first NUL is itself a key |
| FlatSorted.SearchExample | Network/flatbuffers/reflection_generated.h:489-494 | a key with a NUL inside is found under the name of what comes before it |
| FlatSorted.VectorKeysShift | Network/flatbuffers/flatbuffers.h:320-353 | whatever is built afterwards, the vector keeps its keys |
| Reflection.AcceptedReflectionIsReadable | Network/flatbuffers/reflection_generated.h:1040-1058 | an accepted reflection buffer is readable throughout, its required vectors are there, and the depth counter is restored |
| Reflection.SchemaReads | Network/flatbuffers/reflection_generated.h:1013-1058 | a schema that was decoded: objects at 4 and enums at 6 are there, and every slot of the table reads as its accessor does |
| Reflection.ObjectReads | Network/flatbuffers/reflection_generated.h:657-711 | so of the slots of an object |
| Reflection.FieldReads | Network/flatbuffers/reflection_generated.h:472-545 | so of the slots of a field |
| Reflection.EnumReads | Network/flatbuffers/reflection_generated.h:343-393 | so of the slots of an enum |
| Reflection.EnumValReads | Network/flatbuffers/reflection_generated.h:233-275 | so of the slots of an enum value |
| Reflection.TypeReads | Network/flatbuffers/reflection_generated.h:102-123 | so of the slots of a type |
| Reflection.KeyValueReads | Network/flatbuffers/reflection_generated.h:162-186 | so of the slots of an attribute |
| Reflection.RpcCallReads | Network/flatbuffers/reflection_generated.h:796-840 | so of the slots of a call |
| Reflection.ServiceReads | Network/flatbuffers/reflection_generated.h:911-950 | so of the slots of a service |
| Reflection.KeysAreReadable | Network/flatbuffers/reflection_generated.h:262-275 | the key of every table type that has one can be read in an accepted buffer |
| Reflection.VectorsHaveKeys | Network/flatbuffers/reflection_generated.h:694-711 | so every vector of such tables meets what the search asks of it |
| TestInfo.CallsAreLegal | Network/testinfo_generated.h:52-71 | the generated creation calls are legal building calls and describe a table with exactly these fields |
| TestInfo.TestInfoRoundTrip | Network/testinfo_generated.h:16-28 | for every name, or none, and every level the finished buffer is accepted; slot 4 of its root leads to the name or is empty, slot 6 holds the bits of the level, and the accessors return the two |
| TestInfo.TestInfoBuilds | Network/testinfo_generated.h:52-71 | no assertion fails on the way, and the buffer is at most 80 bytes longer than the name |
| TestInfoBuilders.TestInfoBuilder.constructor | Network/testinfo_generated.h:40-43 | a table is open from now on, and where it starts is remembered |
| TestInfoBuilders.TestInfoBuilder.AddLevel | Network/testinfo_generated.h:37-39 | the level goes to its field, unless it is the default |
| TestInfoBuilders.TestInfoBuilder.AddName | Network/testinfo_generated.h:34-36 | the name goes to its field, unless there is none |
| TestInfoBuilders.TestInfoBuilder.Finish | Network/testinfo_generated.h:45-49 | the table is finished from where it was started |
| TestInfoBuilders.CreateTestInfo | Network/testinfo_generated.h:52-60 | on a builder in any state a legal run leads to, the object goes through the run of the generated calls, whose assertions all hold, and returns the new table |
| TestInfoBuilders.BuildTestInfo | Network/testinfo_generated.h:62-71 | CreateTestInfoDirect and Finish on the object: whatever the name, or none, and the level, the bytes in memory are accepted by the verifier, slot 4 of the root leads to the name or is empty, slot 6 holds the level, and the accessors return the two |
| Packets.AssembleLayout | Network/Protocol.h:148-153 | what AssemblePacketBuffer makes of an empty buffer: the type replaces the low byte of the size, and the FlatBuffer starts one byte early |
| Packets.AssembledReadsBackIff | Network/Protocol.h:148-153 | the assembled packet reads back if and only if the type is the low byte of the size, and every byte of the data, and the byte behind it |
| Packets.AssembledExample | Network/Protocol.h:148-153 | two bytes of data that come out one byte early, and do not read back |
| Packets.AssembledFlatBufferNeverReadsBack | Network/Protocol.h:148-153 | no FlatBuffer satisfies this, so no assembled packet ever reads back |
| Packets.TestInfoPacketMisassembled | Network/Protocol.h:148-153 | for every name, level and type the assembled packet does not read back, although the FlatBuffer is intact at offset 2 |
| Packets.SettersReadBackIff | Network/Protocol.h:108-145 | a packet put together by SetSize, SetType and SetData reads back if and only if its size fits two bytes |
| Packets.SettersLayout | Network/Protocol.h:108-138 | size, low byte first, type and data take the first bytes in this order, and what is behind them stays |
| Packets.TestInfoPacketRoundTrip | Network/Protocol.h:108-145 | for every name and level that fit, such a packet gives back its length, its type, the name and the level |
| Packets.DataBuffer.AppendData | Common/DataBuffer.cpp:69-79 | appended and counted if it fits, else refused and nothing changed |
| Packets.DataBuffer.AppendValue | Network/Protocol.h:148-153 | the one-argument template, for the type, copies to the front of the buffer and does not count |
| Packets.DataBuffer.CopyBuffer | Common/DataBuffer.cpp:63-67 | the contents replace what was there, and are counted |
| Packets.DataBuffer.ClearBuffer | Common/DataBuffer.cpp:57-61 | all zeros, none in use |
| Packets.DataBuffer.AssemblePacketBuffer | Network/Protocol.h:148-153 | the three appends, the middle one being the template |
| Packets.DataBuffer.SetPacket | Network/Protocol.h:108-138 | size, type and data at their offsets, nothing else changed |
| StreamReassembly.Client.ReadPacket | For_Test(...ing)/Test_Client/Test_Client.cpp:57-91 | the loop on the packet buffer and the chunk has the outcome of the specification for every chunk: if the call ends, in that state, and never outside its buffer |
| StreamReassembly.ReadPacketIff | For_Test(...ing)/Test_Client/Test_Client.cpp:57-91 | one call delivers the whole packets and carries over the tail, or gets stuck on a size of zero, or misses the end of a carried packet of 128 bytes or more |
| StreamReassembly.RunIff | For_Test(...ing)/Test_Client/Test_Client.cpp:57-91 | over a whole run the client delivers exactly the packets of the stream, in order, and carries over exactly the incomplete tail, if and only if no size is zero and no completed packet of 128 bytes or more straddles a chunk boundary |
| StreamReassembly.IndependentOfChunking | For_Test(...ing)/Test_Client/Test_Client.cpp:57-91 | for packets of 1 to 127 bytes the outcome does not depend on how the stream is cut into chunks |
| StreamReassembly.StreamExample | For_Test(...ing)/Test_Client/Test_Client.cpp:57-91 | three packets in three chunks, the first two of which end inside a packet |
| StreamReassembly.LostForGood | For_Test(...ing)/Test_Client/Test_Client.cpp:70-80 | after a missed packet nothing is delivered any more |
| StreamReassembly.LostCall | For_Test(...ing)/Test_Client/Test_Client.cpp:70-90 | from then on a call keeps everything until the packet buffer is full |
| StreamReassembly.StraddlingPacketIsLost | For_Test(...ing)/Test_Client/Test_Client.cpp:70-72 | a packet of 128 bytes, delivered when it comes in one piece and lost when its first byte comes alone |
| StreamReassembly.ZeroSizeIsStuck | For_Test(...ing)/Test_Client/Test_Client.cpp:73-90 | whatever follows a size of zero, the call does not end |
| StreamReassembly.NothingIsLost | For_Test(...ing)/Test_Client/Test_Client.cpp:73-90 | the packets and the tail of a stream make up the stream |
| FlexWidth.WidthUIsLeast | Network/flatbuffers/flexbuffers.h:181-191 | the least width that holds an unsigned value |
| FlexWidth.WidthIIsLeast | Network/flatbuffers/flexbuffers.h:193-196 | the least width that holds a signed value in two's complement |
| FlexWidth.ElemWidth | Network/flatbuffers/flexbuffers.h:1353-1380 | the search always succeeds, so its last assertion is never reached, and returns the least width at which the offset fits |
| FlexWidth.FitsWider | Network/flatbuffers/flexbuffers.h:1361-1376 | an offset that fits some width fits every larger one, although a larger width moves the place it is stored at |
| FlexReader.FixedTypeRoundTripIffNumbers | Network/flatbuffers/flexbuffers.h:99-121 | the type of a tuple gives back its element type and length if and only if the elements are numbers |
| FlexReader.PairOfKeysExample | Network/flatbuffers/flexbuffers.h:99-121 | a pair of keys has the type of a triple of integers |
| FlexReader.ReadsPrefix | Network/flatbuffers/flexbuffers.h:350-600 | what was read keeps its meaning when the buffer grows at its end |
| FlexVector.AllElementsFit | Network/flatbuffers/flexbuffers.h:1432-1473 | with the width chosen for a vector every offset in it satisfies the range assertion where it is really written |
| FlexVector.VectorWidthIsLeast | Network/flatbuffers/flexbuffers.h:1438-1458 | the width of a vector is the least that serves the minimum asked for, its size, every element where it is measured, and the offset to the keys of a map |
| FlexVector.VectorAligned | Network/flatbuffers/flexbuffers.h:1460-1473 | the elements of a vector, a tuple or a map start on a multiple of their width |
| FlexLeaves.BlobAligned | Network/flatbuffers/flexbuffers.h:1402-1410 | the characters of a string and the bytes of a blob start on a multiple of the width of their size, less than 16 bytes on |
| FlexLeaves.IndirectAligned | Network/flatbuffers/flexbuffers.h:1295-1300 | an indirect number lies on a multiple of its width, less than 8 bytes on |
| FlexVector.KeysOffsetFits | Network/flatbuffers/flexbuffers.h:1438-1466 | so does the offset to the key vector of a map |
| FlexVector.ElemsRead | Network/flatbuffers/flexbuffers.h:1471-1473 | each element written reads as what it stands for |
| FlexContainers.UntypedVectorDenotes | Network/flatbuffers/flexbuffers.h:761-767 | an untyped vector reads element by element, each through its own packed type |
| FlexContainers.TypedVectorDenotes | Network/flatbuffers/flexbuffers.h:769-774 | a typed vector reads element by element with the one type it has |
| FlexTyped.NarrowStringReadsIff | Network/flatbuffers/flexbuffers.h:769-774 | a string read with one byte for its size, as elements of typed vectors are, is itself if and only if it is shorter than 256 bytes |
| FlexTyped.TypedStringsReadIff | Network/flatbuffers/flexbuffers.h:769-774 | so a typed vector of strings reads back if and only if each of its strings is shorter than 256 bytes |
| FlexTyped.LongStringExample | Network/flatbuffers/flexbuffers.h:769-774 | a string of 256 bytes that reads as one byte |
| FlexContainers.FixedVectorDenotes | Network/flatbuffers/flexbuffers.h:776-780 | so does a tuple of numbers, which is stored without its size |
| FlexContainers.MapDenotes | Network/flatbuffers/flexbuffers.h:321-328 | a map reads as its entries: sorted keys, each entry at one position, no others |
| FlexPool.StrcmpIsLexicographic | Network/flatbuffers/flexbuffers.h:1500-1511 | strcmp orders the keys lexicographically |
| FlexPool.StrncmpIgnoresBehindNul | Network/flatbuffers/flexbuffers.h:1513-1524 | the comparison of the string pool orders strings by what comes before their first NUL, so it takes for equal exactly those that agree up to there |
| FlexRun.FindKeyIsExact | Network/flatbuffers/flexbuffers.h:947-963 | the key pool finds a key if and only if it holds one with the same characters |
| FlexRun.StepInv | Network/flatbuffers/flexbuffers.h:880-1090 | every call of the builder keeps the invariant that each element on the stack stands for the tree the calls describe |
| FlexRun.RunInv | Network/flatbuffers/flexbuffers.h:880-1090 | so does every run, for every width, padding, sharing and forced width |
| FlexMachine.RunMinimum | Network/flatbuffers/flexbuffers.h:1225-1232 | over every run the minimum width is the one last asked for |
| FlexMachine.MixedTypesRefused | Network/flatbuffers/flexbuffers.h:1446-1461 | an assertion fails for a typed vector or tuple of elements of two types |
| FlexMachine.TupleLengthRefused | Network/flatbuffers/flexbuffers.h:99-108 | and for a tuple of other than two to four elements |
| FlexMachine.DuplicateKeyRefused | Network/flatbuffers/flexbuffers.h:1066-1080 | and for a map with a key twice |
| FlexCodes.IndirectWidth | Network/flatbuffers/flexbuffers.h:917-925 | an indirect number takes the least width that holds it |
| FlexRoundTrip.RunRoundTrip | Network/flatbuffers/flexbuffers.h:1234-1250 | whatever was called, if one element is left, navigating from the root of the finished buffer yields the tree the calls describe |
| FlexRoundTrip.FinishReads | Network/flatbuffers/flexbuffers.h:810-818 | the root read backwards from the end is the element that was written last |
| FlexCodes.RootCode | Network/flatbuffers/flexbuffers.h:51-82 | over every run the byte before the last one of the finished buffer holds, above two bits, the number of the format for the tree that was built: 0 for null, 1 and 2 for integers, 4 for a key, 5 for a string, 6 and 7 for indirect integers, 9 for a map, 10 for a vector, 11, 12, 14, 15 and 36 for typed vectors, 16, 17, 19, 20, 22 and 23 for tuples, 25 for a blob, 26 for a boolean; the two bits give the width of a scalar, the last byte that of the root, which is aligned to it |
| FlexCodes.TypeBytes | Network/flatbuffers/flexbuffers.h:1475-1479 | each type byte of a vector holds the code of its element, and the width of the vector for what is stored in it or its own for what is stored elsewhere |
| FlexRoundTrip.RunSucceeds | Network/flatbuffers/flexbuffers.h:1031-1090 | in a legal run no assertion of the builder fails, as long as sizes stay addressable |
| FlexTrees.TreeRoundTrip | Network/flatbuffers/flexbuffers.h:810-818 | for every finite tree the format can hold, building it bottom-up, finishing and navigating from the root yields exactly that tree |
| FlexCodes.TreeCode | Network/flatbuffers/flexbuffers.h:1234-1250 | for every tree that can be built the finished buffer has the code of that kind of tree |
| FlexExamples.MapExample | Network/flatbuffers/flexbuffers.h:1039-1090 | the map of "b" to 8 and "a" to 7, all 17 bytes: keys, sorted key vector, offset and width of it, size, values, types, root |
| FlexExamples.MixedExample | Network/flatbuffers/flexbuffers.h:1432-1490 | the vector of "h" and 70000, all 21 bytes: padding, elements of four bytes, types |
| FlexExamples.PairExample | Network/flatbuffers/flexbuffers.h:99-111 | a pair of small numbers: neither size nor types |
| FlexTrees.TreeBuilds | Network/flatbuffers/flexbuffers.h:1031-1090 | and building it never trips an assertion |
| FlexLookup.Lookup | Network/flatbuffers/flexbuffers.h:782-804 | looking a key up yields its value when it is in the map and the null reference when it is not |
| FlexSharing.KeySharingIsExact | Network/flatbuffers/flexbuffers.h:947-963 | over every run with sharing, of all keys asked for, wherever they have gone since, two were given the same place in the buffer if and only if they are the same key |
| FlexSharing.KeysOnStackShared | Network/flatbuffers/flexbuffers.h:947-963 | the same of the keys that are left on the stack |
| FlexSharing.UnsharedKeysAscend | Network/flatbuffers/flexbuffers.h:947-963 | over every run without sharing each key is written to a place of its own, one behind the other |
| FlexSharing.SharedKeyLeavesBuffer | Network/flatbuffers/flexbuffers.h:950-960 | a key leaves the buffer as it was if and only if the pool holds it |
| FlexSharing.RunDistinct | Network/flatbuffers/flexbuffers.h:968-985 | over every run the string pool tells its strings apart |
| FlexSharing.SharedStringReadsIff | Network/flatbuffers/flexbuffers.h:968-985 | whatever the pool holds, a shared string reads back as itself if and only if the string the pool cannot tell from it, if there is one, reads as it with the width its own size calls for |
| FlexSharing.SharedStringLeavesBuffer | Network/flatbuffers/flexbuffers.h:968-985 | with sharing a string leaves the buffer as it was if and only if the pool holds one that agrees with it up to the first NUL |
| FlexSharing.UnsharedStringIsWritten | Network/flatbuffers/flexbuffers.h:965-985 | without sharing every string is written behind everything else |
| FlexSharing.SharedStringReadsBack | Network/flatbuffers/flexbuffers.h:968-985 | it does if the pool holds no string that differs from it only behind a NUL |
| FlexSharing.SharedStringReadsBackIff | Network/flatbuffers/flexbuffers.h:968-985 | and only then, if the sizes of the strings it clashes with take as many bytes as its own |
| FlexSharing.SharingConfusesStringsWithNul | Network/flatbuffers/flexbuffers.h:1513-1523 | two strings of three bytes, the second of which reads as the first |
| FlexSharing.StepAppends | Network/flatbuffers/flexbuffers.h:947-1090 | no call changes what is already in the buffer |
| FlexBuilder.Builder.Align | Network/flatbuffers/flexbuffers.h:1261-1266 | zeros up to the alignment, which is the width in bytes |
| FlexBuilder.Builder.WriteOffset | Network/flatbuffers/flexbuffers.h:1289-1293 | the distance back to the target, whose range assertion is the precondition |
| FlexBuilder.Builder.WriteAny | Network/flatbuffers/flexbuffers.h:1391-1400 | a scalar truncated to the width, or an offset |
| FlexBuilder.Builder.PushIndirect | Network/flatbuffers/flexbuffers.h:1295-1300 | an aligned number in the buffer and its place on the stack |
| FlexBuilder.Builder.Key | Network/flatbuffers/flexbuffers.h:947-963 | serialized, searched for and taken back if the pool holds it |
| FlexBuilder.Builder.String | Network/flatbuffers/flexbuffers.h:968-985 | likewise for strings, the element keeping the width of the string asked for |
| FlexBuilder.Builder.CreateBlob | Network/flatbuffers/flexbuffers.h:1402-1410 | size, bytes and terminator |
| FlexBuilder.Builder.MeasureElements | Network/flatbuffers/flexbuffers.h:1444-1458 | the largest element width, measured at the index of each element, and the one type of a typed vector |
| FlexBuilder.Builder.WriteElements | Network/flatbuffers/flexbuffers.h:1471-1473 | all elements in order, each within its range assertion |
| FlexBuilder.Builder.WriteTypes | Network/flatbuffers/flexbuffers.h:1475-1479 | one packed type for each element |
| FlexBuilder.Builder.CreateVector | Network/flatbuffers/flexbuffers.h:1432-1485 | the loops over every element, or every other one, give the bytes and the value of the layout |
| FlexBuilder.Builder.EndVector | Network/flatbuffers/flexbuffers.h:1031-1037 | the elements on the stack are replaced by their vector |
| FlexBuilder.Builder.SortKeys | Network/flatbuffers/flexbuffers.h:1064-1080 | the order of the pairs by strcmp of their keys |
| FlexBuilder.Builder.EndMap | Network/flatbuffers/flexbuffers.h:1039-1090 | the pairs sorted in place, the key vector, the value vector, and the map in place of the pairs |
| FlexBuilder.Builder.Finish | Network/flatbuffers/flexbuffers.h:1234-1250 | the root element, its packed type and its byte width at the end of the buffer |
| FlexBuilder.Builder.Clear | Network/flatbuffers/flexbuffers.h:867-875 | as good as new, with the same flags |
| FlexDrive.Drive | Network/flatbuffers/flexbuffers.h:880-1090 | any legal sequence of calls, run on the object, ends in the state the machine on values ends in |
| FlexDrive.Serialize | Network/flatbuffers/flexbuffers.h:1234-1250 | building a tree on the object leaves bytes from whose root the tree is read |
| FlexMutate.Mutate | Network/flatbuffers/flexbuffers.h:688-698 | a value that needs more room than there is leaves the buffer alone; else as many bytes are copied as the element has, from the value and, if it is narrower, from what lies behind it |
| FlexMutate.MutateInt | Network/flatbuffers/flexbuffers.h:613-627 | succeeds if and only if the element is an integer, inline or indirect, and the new value fits its room; then the element reads as the new value and no other byte has changed |
| FlexMutate.MutateUInt | Network/flatbuffers/flexbuffers.h:633-647 | the same for an unsigned value, which signed elements take as the signed number of the same bits |
| FlexMutate.MutateBool | Network/flatbuffers/flexbuffers.h:629-631 | succeeds if and only if the element is a boolean, and then reads as the new one if and only if that is true or the bytes copied from behind it are zero; no other byte has changed |
| FlexMutate.MutateBoolReadsIff | Network/flatbuffers/flexbuffers.h:629-631 | whatever lies behind the value, the element reads as it if and only if it is true or the elements are one byte wide |
| FlexMutate.MutateBoolWritesIff | Network/flatbuffers/flexbuffers.h:629-631 | the element gets exactly the bytes of the value, whatever lies behind it, if and only if the elements are one byte wide |
| FlexMutate.MutateBoolExample | Network/flatbuffers/flexbuffers.h:629-631 | in the vector [true, 300] the first element can read as true after it was set to false |
| FlexMutate.MutateString | Network/flatbuffers/flexbuffers.h:669-677 | succeeds if and only if the element is a string of the same length; then it reads as the new one and no other byte has changed |
| Utf8.ToUTF8 | Network/flatbuffers/util.h:469-490 | appends the encoding of every code point below 2^31; its last assertion is never reached |
| Utf8.EncodeLayout | Network/flatbuffers/util.h:469-491 | the bytes of every code point below 2 to the 31, in all six lengths |
| Utf8.FromUTF8 | Network/flatbuffers/util.h:497-538 | decodes and advances, or returns -1; wherever it stops, behind the first byte it has passed at most three bytes, all of which continue a character |
| Utf8.DecodeStopsAtNul | Network/flatbuffers/util.h:497-538 | nothing behind a terminator has any influence on what is decoded |
| Utf8.MasksAreArithmetic | Network/flatbuffers/util.h:481-516 | the masks and shifts of the code, on bit-vectors, are the quotients and remainders of the model |
| Utf8.LeadBytesAreSums | Network/flatbuffers/util.h:479-480 | so are the first bytes of all six lengths, put together with a bitwise or, the sums of the model |
| Utf8.SixMoreBits | Network/flatbuffers/util.h:516-517 | and the bits FromUTF8 adds |
| Utf8.DecodeOfEncode | Network/flatbuffers/util.h:469-538 | FromUTF8 undoes ToUTF8 on Unicode scalar values and rejects everything else ToUTF8 writes |
| Utf8.EncodeOfDecode | Network/flatbuffers/util.h:469-538 | ToUTF8 undoes FromUTF8: every code point has one accepted encoding |
| Utf8.DecodeIsGrammar | Network/flatbuffers/util.h:497-538 | FromUTF8 accepts exactly the characters of section 4 of RFC 3629, with their lengths |
| Escape.EscapeString | Network/flatbuffers/util.h:569-637 | the loop appends the quoted text of the specification, or returns false |
| Escape.UnescapeOfEscape | Network/flatbuffers/util.h:569-637 | for every byte string and both flags, what is emitted decodes to the string, surrogate pairs and ill-formed bytes included |
| EscapeText.EscapedIsPrintable | Network/flatbuffers/util.h:584-637 | without natural UTF-8 every byte that comes out, for any input, is printable ASCII |
| EscapeText.NaturalText | Network/flatbuffers/util.h:569-636 | with natural UTF-8 well-formed text keeps every byte but the seven special characters, which are replaced one by one |
| EscapeText.NaturalIsItself | Network/flatbuffers/util.h:612-616 | so text without any of them comes out as itself between the quotes |
| EscapeText.PrintableIsItself | Network/flatbuffers/util.h:584-586 | and printable ASCII without quotes and backslashes does with any flags |
| EscapeText.SpecialPieces | Network/flatbuffers/util.h:575-583 | each special character comes out as a backslash and its letter, with any flags and whatever follows |
| EscapeText.CodePointPiece | Network/flatbuffers/util.h:617-632 | a character that is neither special nor printable comes out as its code point in four capital digits, or above U+FFFF as the two surrogates of UTF-16 |
| EscapeText.IllFormedPiece | Network/flatbuffers/util.h:591-593 | an ill-formed byte, where allowed, comes out as two capital digits, the high one first |
| EscapeText.TwoByteExample | Network/flatbuffers/util.h:612-620 | the bytes C3 A9 come out as an escape of E9, or as themselves if natural UTF-8 is asked for |
| EscapeText.FourByteExample | Network/flatbuffers/util.h:621-632 | the bytes F0 9F 98 80 come out as two escapes |
| Escape.EscapeSucceedsIff | Network/flatbuffers/util.h:590-610 | it returns false exactly on strings that are ill-formed by section 4 of RFC 3629 while ill-formed bytes are not allowed |
| Escape.FromHexOfHex | Network/flatbuffers/util.h:189-202 | the hexadecimal digits of a number give the number back |

## Left out

- FlexSharing.SharedStringReadsBackIff: needs strings it clashes with to have sizes of the same width, because else a wrong hit reads its size from other bytes, which may happen to be right; FlexSharing.SharedStringReadsIff is the condition for every pool.
- FlexTrees.TreeRoundTrip: numbers of 64 bits, keys without NUL and distinct in a map, strings without NUL if strings are shared, typed vectors of strings below 256 bytes and tuples of integers only, because the format holds no others; see the exact conditions above.
- Packets.TestInfoPacketRoundTrip: is about the setters, because with AssemblePacketBuffer the property is false, as Packets.TestInfoPacketMisassembled proves for every name and level.
- StreamReassembly.Client.ReadPacket: a turn the code would repeat for ever, or in which it would write past the packet buffer, is reported and not taken. Received chunks are at most 1024 bytes, the size of the receive buffer, in the results about runs.
- FlatBufferStart.GetBufferStartFromRootPointer: works on indices, so the buffer is taken to begin at an address that is a multiple of 4.
- FlatSorted.LookupAfterCreate: keys are distinct, as the search asks, and strings have no NUL; FlatSorted.SearchAgreesIff covers the other strings.
- FlatVerifierClass.Verifier.VerifyBuffer: the counters are unbounded, while those of the code wrap at 32 bits.
- FlatVerifierClass.Verifier.VerifySizePrefixed: with an identifier to compare, a buffer of 8 to 11 bytes, which has no room for one, is left out.
- FlatComplete.FinishedBufferVerifiesIff: nothing is said about asking for an identifier of a buffer that was finished without one.
- FlatProgress.StepSucceeds: counts a string or vector that ends at exactly 2 to the 31 as failing; the code lets it through and cannot go on from there, as FlatProgress.AssertionsHoldIff says.
- FlatProgress.LegalRunSucceeds: likewise; memory is always granted.
- Sockets, completion ports, threads, sessions, logging and singletons: plumbing without an algorithm of its own.
- PacketProcess: delivering a packet is appending it to a log.
- `Common/CircularQueue.hpp` and `Common/Freelist.hpp` with the session pool: not part of the formats.
- Floating point: scalars are modelled by their bits, and FlexBuffers floats, `WidthF` and `WriteDouble` not at all.
- Struct fields, vectors of structs, unions, `std::vector<bool>`, native packing and `ForceVectorAlignment`.
- FlexBuffers `ScalarVector` and its fixed variant, the sharing of key vectors (which the code leaves for later), `MutateFloat`, and the conversions between types when a reader asks for another type than the one stored.
- Allocators, moves, `Swap`, `Release`, `DetachedBuffer`, and big-endian machines: lifetime and portability.
- `std::sort`, `std::set` and `std::bsearch` are replaced by functions with the same contract: a sort whose result is unique for distinct keys (`Sorting.SortedIsUnique`), a sequence searched for an equivalent element, and `BinarySearch.Search`.
- Undefined behaviour of reads outside a buffer: such a read is `None`, and the results say when it does not occur.
- Strings are sequences of bytes; `EscapeString` reads its input as if a NUL followed it, which is what `std::string` and FlatBuffers strings guarantee.
- Union-valued and deprecated fields, and the object API of the generated code.
- Parsing, code generation, hashing and minireflection: their bodies are not part of this model.
