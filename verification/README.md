# Relon: the typed buffer protocol and the capability check, in Dafny

This project models two parts of Relon and proves what they promise.

**The typed binary buffer protocol** (`crates/relon-abi`). A value of a declared type (unit, booleans, integers,
floats, strings, lists, options, results, enums and records) is written into a byte buffer, rebased, read back and
verified:

- `Bytes`, `Schema`, `Layout`, `LayoutFacts`, `LayoutSpec`: bytes and little-endian codecs, types, the fixed-area
  layout, and the offset table stated on the field types alone.
- `Values`, `Reader`, `BufferReading`: run-time values, decoding by type, and the reader's loops.
- `Normal`, `Variants`, `Encodings`: what a value reads back as, variant records tag by tag, and what the bytes of
  numbers, strings and doubles mean, each stated without the functions writer and reader share.
- `Verifier`, `VerifierFacts`: the bounds verifier and what its verdict means.
- `Graph`, `GraphFacts`: encoded objects. An `Obj` says which bytes a value occupies independently of any buffer; a
  buffer *owns* an object when it holds those bytes, linked, well-shaped and with disjoint footprints. Writer,
  relocator, reader and verifier are all connected through objects.
- `Acceptance`: exactly which encoded objects the verifier accepts.
- `Moving`, `Relocation`, `RelocationFacts`, `Rebase`, `Paste`, `Relocator`, `Following`: displacing an object, the
  relocation the descriptors drive, the same relocation read off the types, relocation in place on a byte array, and
  which pointer slots reader, verifier and relocation follow.
- `Writer`, `WriterFrame`, `WriterFacts`, `ListFacts`, `RecordFacts`, `WriteSteps`, `WriterCorrect`, `WriterTotal`:
  what every write does to the bytes, what it leaves alone, what it encodes, and when it succeeds.
- `Placement`: where every appended record starts.
- `WriterRuns`, `Builder`, `ListWriting`, `Commits`, `Sessions`, `Progress`, `RoundTrip`, `Boundaries`: whole runs of
  a builder, the builder and the list writer as mutable objects, committed children, every history of calls, when a
  call succeeds, round trips, and the places where values are lost, with the exact condition.
- `SpecialisedWriting`, `NestedWriting`, `SpecialisedReading`, `InPlace`, `InPlaceDecoding`, `InPlaceTotal`: the typed
  writers and readers, in-place returns, and when there is one.

**Constant folding and dead-branch pruning in the capability check** (`crates/relon-analyzer`): `ConstFold`,
`Evaluation` (short-circuit evaluation as a relation over all runs), `Folding` (what folding finds, and when it does),
`Pruning`, `CapabilityCheck`.

Conventions. Integers are unbounded: the source's checked `usize` arithmetic never overflows here, while every 32-bit
and 64-bit width is explicit (`U32_LIMIT`, `i64`, `u64`, `Checked`). Errors are modelled as failure, with the bytes a
failed call leaves behind. Floats are 64-bit patterns; integer-to-float promotion is round to nearest, ties to even;
UTF-8 validity is section 4 of RFC 3629. `Good(ty)` says a type is layoutable and its field names and variant tags are
distinct, which the source's tables assume. `Norm(ty, v)` is the value `v` is expected to read back as: integers
promoted where a float is declared, undeclared keys dropped, records branded with their schema
(`Normal.ReadsBackAs` says the same declaratively).
`Written(b, s, t, raw)` says that `b` are the bytes of a builder every field of which holds a value, whichever calls,
successful or not, brought it there; a field given something the protocol cannot represent is *undetermined* until it is written again.

Places where the source loses or changes a value:

- The length of a string slot written by the generic writer is cast to 32 bits unchecked, so a string of 2^32 bytes or
  more does not read back (`Boundaries.StringSlotExact`).
- `ptr_array_elem_for` gives no descriptor for a list of inline scalars, so in lists nested three or more deep over
  one the middle pointer arrays are not rebased. `Boundaries.ThreeDeepListLost` is a concrete value that is lost;
  `Boundaries.ArenaExact` and `Paste.RelocationExact` say exactly when rebasing past the record's own length keeps the
  value in every surrounding arena, and `Boundaries.PasteExact` the same behind every parent. `Writable` carries this
  condition for records pasted inside other records. It is sufficient there and not necessary: a pointer that was not
  rebased can, by coincidence, lead to bytes that decode to the same value.
- `write_nested_scalar_list` casts the count of a row to 32 bits unchecked where the generic writer refuses the row,
  and writes rows of whatever type it is given into a field that declares another (`NestedWriting.WriteRowsExact`,
  `LongRowAccepted`, `IntRowsReinterpreted`).
- The object decoder turns a bare nested tuple record into a dictionary where the generic reader gives a tuple
  (`InPlace.ObjectFieldExact`, `HoldersDiffer`).

Where comments and code disagree the model follows the code. The header of `capability_check.rs` says dead branches
are not pruned, and the walk prunes them; `dead_branch_of_cached` says fold errors stay uncached, and
`const_bool_cached` stores an empty entry for them.

## Model

| member | source | states |
|---|---|---|
| LayoutFacts.ComputeOffsets | crates/relon-abi/src/layout.rs:571-629 | the offset loop computes the layout table, and fails exactly when some field is not layoutable |
| LayoutFacts.LayoutCorrect | crates/relon-abi/src/layout.rs:571-629 | slots are aligned, in declaration order, disjoint, inside the root, with less padding than the next alignment; the root size is the padded end and the root alignment is attained |
| LayoutFacts.LayoutableIffSupported | crates/relon-abi/src/layout.rs:236-511 | the mutually recursive layout passes accept a type exactly when it holds no closure and no list of units, at any depth |
| LayoutSpec.LayoutExact | crates/relon-abi/src/layout.rs:236-629 | the pass yields a table if and only if every field is supported and the table is the one its types ask for: slots 1, 8 or 4 wide and so aligned, tail alignment and element kind per type, each slot at the first aligned offset behind its predecessor, root alignment the largest slot |
| LayoutSpec.TableUnique | crates/relon-abi/src/layout.rs:571-629 | there is only one such table |
| LayoutSpec.DecisionIs | crates/relon-abi/src/layout.rs:236-511 | kind, size, alignment, tail alignment and element kind of every supported type |
| LayoutSpec.VariantIs | crates/relon-abi/src/layout.rs:518-548 | a variant record is aligned to 8 if an integer or float occurs in its type, else to 4 |
| LayoutSpec.RuntimeIs | crates/relon-abi/src/buffer.rs:150-193 | the alignment a paste keeps is 8 with an integer or float list or payload reachable, else 4 with a variant reachable, else 1 |
| LayoutSpec.PayloadSlotIs | crates/relon-abi/src/layout.rs:436-455 | the payload slot of a variant is as wide and aligned as a field of its type, at layout time and when written |
| LayoutFacts.ComputeVariantAlignment | crates/relon-abi/src/layout.rs:518-548 | the accumulating loop computes the variant record alignment |
| LayoutFacts.VariantAlignmentCoversRuntime | crates/relon-abi/src/layout.rs:518-548 | the layout-time alignment of a variant is a multiple of the one the writer pads to |
| LayoutFacts.GraphAlignmentCovers | crates/relon-abi/src/buffer.rs:150-193 | the layout-time graph alignment of every type covers the run-time one |
| Values.ScalarRoundTrip | crates/relon-abi/src/buffer.rs:1331-1350 | inline scalars decode to the value written, integers promoted to float |
| Encodings.LeByteAt | crates/relon-abi/src/buffer.rs:1331-1345 | integers are stored least significant byte first |
| Encodings.SignedBits | crates/relon-abi/src/buffer.rs:1331-1334 | in two's complement |
| Encodings.NearestDouble | crates/relon-abi/src/buffer.rs:1340-1344 | an integer stored as a float is the double nearest to it, the even one when it is half way, exact up to 53 bits |
| Encodings.EncodedIsValid | crates/relon-abi/src/buffer.rs:2527-2555 | every sequence of Unicode scalar values encodes to a string the readers accept |
| Encodings.ValidIsEncoded | crates/relon-abi/src/buffer.rs:2527-2555 | and they accept no other string |
| Normal.NormIff | crates/relon-abi/src/buffer.rs:1323-1387 | for every type, a value is taken and reads back as `w` if and only if `w` is the value by declared fields, items and brand, integers promoted where a float is declared, records branded with their schema's name |
| Normal.NormOption | crates/relon-abi/src/buffer.rs:2264-2281 | which options are taken, by `variant_of`, brand and key, and what they read back as; every other value is refused |
| Normal.NormResult | crates/relon-abi/src/buffer.rs:2282-2308 | the same for results |
| Normal.NormEnum | crates/relon-abi/src/buffer.rs:2309-2352 | the same for the variants of an enum, with and without payload fields |
| Normal.NormEnumNone | crates/relon-abi/src/buffer.rs:2313-2336 | a value without the enum's name or with an unknown brand is refused |
| Variants.TagWritten | crates/relon-abi/src/buffer.rs:1456-1487 | the first byte of an appended variant record is the tag the value's brand names |
| Variants.VariantReadIff | crates/relon-abi/src/buffer.rs:3459-3547 | on every buffer, a variant record reads as `w` if and only if its tag names the brand of `w` and its one key, or its declared fields, hold what the payload slot reads as |
| BufferReading.ReadFieldAt | crates/relon-abi/src/buffer.rs:3391-3457 | reading a slot agrees with the decoding function on every buffer |
| BufferReading.ReadListValueAt | crates/relon-abi/src/buffer.rs:3071-3146 | the list loop decodes the entries in order and stops at the first failure |
| BufferReading.ReadInlineScalarListAt | crates/relon-abi/src/buffer.rs:3249-3325 | the scalar loop decodes the padded payload, or fails on exactly the out-of-bounds ones |
| BufferReading.ReadRecordAt | crates/relon-abi/src/buffer.rs:3336-3385 | the field loop decodes every slot and assembles a tuple or branded dictionary |
| BufferReading.ReadVariantRecordAt | crates/relon-abi/src/buffer.rs:3459-3547 | the tag selects the payload decoded at the re-derived slot |
| GraphFacts.TargetReads | crates/relon-abi/src/buffer.rs:3071-3146 | a buffer that encodes an object reads as the value the object stands for, for every type |
| GraphFacts.SlotReads | crates/relon-abi/src/buffer.rs:3391-3457 | the same for a slot and whatever it points to |
| Verifier.AllowedInRange | crates/relon-abi/src/verifier.rs:331-372 | an accepted span lies inside the buffer |
| VerifierFacts.VerifierSound | crates/relon-abi/src/verifier.rs:536-816 | on every byte buffer, an accepted record decodes without leaving the buffer and can fail only on invalid UTF-8 |
| VerifierFacts.ValueVerifierSound | crates/relon-abi/src/verifier.rs:492-534 | the same for a bare value reached at an offset |
| VerifierFacts.VerifierLocal | crates/relon-abi/src/verifier.rs:428-473 | verdict and decoded value depend only on the bytes inside the bounds |
| VerifierFacts.ValueVerifierLocal | crates/relon-abi/src/verifier.rs:492-534 | the same for a bare value reached at an offset |
| VerifierFacts.VerifierMonotone | crates/relon-abi/src/verifier.rs:492-534 | acceptance of a value survives any widening of the bounds |
| VerifierFacts.RecordVerifierMonotone | crates/relon-abi/src/verifier.rs:428-473 | acceptance of a record survives any widening of the bounds |
| VerifierFacts.RegionWider | crates/relon-abi/src/verifier.rs:92-97 | a larger window is wider |
| VerifierFacts.RegionInMapWider | crates/relon-abi/src/verifier.rs:173-190 | a four-window map with a window containing a region is wider than the region |
| VerifierFacts.AcceptedSpanInExactlyOneRegion | crates/relon-abi/src/verifier.rs:173-190 | with disjoint windows a non-empty accepted span lies in exactly the window it is classified into |
| Acceptance.AcceptedIff | crates/relon-abi/src/verifier.rs:598-816 | under any bounds around it, an encoded object entered at a depth is accepted if and only if the depth plus the levels its own records reach is at most 64 |
| Acceptance.RecordAcceptedIff | crates/relon-abi/src/verifier.rs:428-473 | the same for the entry point of a record |
| Acceptance.LevelsByType | crates/relon-abi/src/verifier.rs:536-816 | an object reaches no deeper than its type nests |
| Acceptance.TargetVerifies | crates/relon-abi/src/verifier.rs:598-816 | in particular every encoded object whose type nests fewer than 64 levels |
| Acceptance.RecordVerifies | crates/relon-abi/src/verifier.rs:536-589 | the same for a record |
| RelocationFacts.ElemForIff | crates/relon-abi/src/buffer.rs:107-133 | an element descriptor is missing exactly for nests of inline scalars |
| RelocationFacts.RecordByType | crates/relon-abi/src/buffer.rs:359-401 | on every buffer, relocation driven by the cached descriptors is relocation by type |
| RelocationFacts.ListByType | crates/relon-abi/src/buffer.rs:1884-1941 | the same for a pointer array |
| RelocationFacts.VariantByType | crates/relon-abi/src/buffer.rs:1943-2009 | the same for a variant record |
| RelocationFacts.DescriptorsCover | crates/relon-abi/src/buffer.rs:107-133 | on every buffer, for types without a list three deep over an inline scalar, the walk of the descriptors is the walk that descends behind every pointer |
| Relocator.BumpInPlace | crates/relon-abi/src/buffer.rs:1826-1838 | one slot gains the base in place, or nothing changes on overflow or out of bounds |
| Relocator.RelocatePointers | crates/relon-abi/src/buffer.rs:1811-1868 | the in-place walk over a record leaves what the relocation function says and fails exactly when it does |
| Relocator.RelocateListPointerArray | crates/relon-abi/src/buffer.rs:1884-1941 | the same for the entry loop with its moving cursor |
| Relocator.RelocateVariant | crates/relon-abi/src/buffer.rs:1943-2009 | the same for a tagged payload |
| Moving.ShapeMove | crates/relon-abi/src/buffer.rs:150-193 | paste alignment suffices: displaced by a multiple of the type's graph alignment, every padded position is where the displaced bytes are |
| Moving.DecodeMove | crates/relon-abi/src/buffer.rs:3071-3146 | a displaced object stands for the same value |
| Rebase.TargetRebased | crates/relon-abi/src/buffer.rs:1811-2009 | relocating an encoded object yields the encoding of the object with its visited pointers bumped |
| Rebase.ExactlyOnce | crates/relon-abi/src/buffer.rs:1811-2009 | visited slots are disjoint, each gains the base once, every other byte is unchanged, and the only failure is a pointer that no longer fits |
| Following.ReaderFollows | crates/relon-abi/src/buffer.rs:3071-3146 | on every buffer, the generic reader, recording each pointer slot it follows, has followed exactly the slots reachable by type whenever it succeeds |
| Following.VerifierFollows | crates/relon-abi/src/verifier.rs:492-816 | on every buffer, so has the verifier whenever it accepts |
| Following.VisitedExact | crates/relon-abi/src/buffer.rs:1811-2009 | of an owned object relocation visits only followed slots, and all of them if and only if it leaves no pointer out |
| Following.RelocatesWhatIsFollowed | crates/relon-abi/src/buffer.rs:1811-2009 | for a covered type, relocation adds the base once to exactly the slots reader and verifier follow, and changes nothing else |
| Paste.PasteObj | crates/relon-abi/src/buffer.rs:1421-1454 | relocated bytes appended at their base hold the displaced object with the same value |
| Paste.RelocationPreservesMeaning | crates/relon-abi/src/buffer.rs:1811-2009 | relocated bytes read at the base as the original read at zero, whatever precedes them |
| Paste.RelocationSucceeds | crates/relon-abi/src/buffer.rs:1811-2009 | relocation succeeds whenever base and length fit 32 bits |
| Paste.RelocationExact | crates/relon-abi/src/buffer.rs:107-133 | past its own length, relocation keeps the value in every arena if and only if no pointer of the object is left out |
| WriterFrame.AppendExtends | crates/relon-abi/src/buffer.rs:1505-1713 | appending a value only extends the buffer, whether it succeeds or fails midway |
| WriterFrame.SlotExtends | crates/relon-abi/src/buffer.rs:1323-1387 | a slot write changes old bytes only in its own slot, and none if it fails |
| WriterCorrect.TargetWritten | crates/relon-abi/src/buffer.rs:1389-1713 | every successful append of a writable value leaves an owned object in the new bytes that decodes to the normal form |
| WriterCorrect.SlotWritten | crates/relon-abi/src/buffer.rs:1323-1387 | the same for a slot write, through the patched pointer |
| WriterCorrect.ChildWritten | crates/relon-abi/src/buffer.rs:1389-1419 | a detached record with every field written owns the record object |
| WriterTotal.TargetFits | crates/relon-abi/src/buffer.rs:1505-1713 | a conforming value within a size bound is appended, within the bound |
| WriterTotal.SlotFits | crates/relon-abi/src/buffer.rs:1323-1387 | a conforming value that fits is written |
| WriterTotal.ConformingRecordRoundTrips | crates/relon-abi/src/buffer.rs:560-575 | every conforming record value that fits is written and reads back as its normal form |
| Placement.TargetLands | crates/relon-abi/src/buffer.rs:1389-1487 | every appended record starts at the first multiple of the alignment its type asks for, behind zeros |
| Placement.CommitStart | crates/relon-abi/src/buffer.rs:1148-1211 | a committed child starts on the larger of its own alignment and the one its field declares |
| WriterRuns.TypeMatchesEqual | crates/relon-abi/src/buffer.rs:4075-4104 | the type comparison is equality on layoutable types |
| WriterRuns.HoldingStep | crates/relon-abi/src/buffer.rs:560-575 | one write, succeeding or not, keeps every other field and stores its own |
| WriterRuns.HoldingReads | crates/relon-abi/src/buffer.rs:2508-2522 | every field a builder holds a value for reads as that value's normal form |
| WriterRuns.LastWriteWins | crates/relon-abi/src/buffer.rs:527-611 | after any sequence of writes, successful or failing, each field reads as its last successful write |
| Builder.FindEntry | crates/relon-abi/src/buffer.rs:1213-1220 | the search returns the first field of that name |
| Builder.BufferBuilder.constructor | crates/relon-abi/src/buffer.rs:498-524 | a new builder holds the zeroed fixed area and no value |
| Builder.BufferBuilder.Pad | crates/relon-abi/src/buffer.rs:1717-1724 | zero padding up to the alignment |
| Builder.BufferBuilder.TailRecord | crates/relon-abi/src/buffer.rs:1294-1300 | appends an aligned length-prefixed record with the length cast to 32 bits |
| Builder.BufferBuilder.TailRecordAligned | crates/relon-abi/src/buffer.rs:1306-1321 | the same with the payload on its own alignment |
| Builder.BufferBuilder.WriteValue | crates/relon-abi/src/buffer.rs:560-575 | keeps the builder's invariant, its bytes are the writer function's, and exactly the written field's value changes |
| Builder.BufferBuilder.WriteValueSlot | crates/relon-abi/src/buffer.rs:1323-1387 | the dispatch leaves the writer function's bytes, on success and on failure |
| Builder.BufferBuilder.AppendListPayload | crates/relon-abi/src/buffer.rs:1505-1713 | header, element records and back-patched entries as the writer function says |
| Builder.EncodeScalars | crates/relon-abi/src/buffer.rs:1522-1552 | the payload loop encodes every element or reports the first that does not conform |
| Builder.BufferBuilder.AppendEntries | crates/relon-abi/src/buffer.rs:1556-1618 | the element loop appends the records and collects their offsets in order |
| Builder.BufferBuilder.PatchHeader | crates/relon-abi/src/buffer.rs:1584-1587 | the patch loop writes every entry |
| Builder.BufferBuilder.AppendSchemaValuePayload | crates/relon-abi/src/buffer.rs:1389-1419 | builds the nested record in a detached builder and pastes it |
| Builder.BufferBuilder.AppendChildRecordPayload | crates/relon-abi/src/buffer.rs:1421-1454 | pads to the deep alignment, rebases and appends the child |
| Builder.DeepAlign | crates/relon-abi/src/buffer.rs:1427-1432 | the running maximum is the deep alignment of the fields |
| Builder.BufferBuilder.AppendVariantRecord | crates/relon-abi/src/buffer.rs:1456-1487 | tag, padding and payload slot of a variant |
| Builder.BufferBuilder.FinishArenaAbsolute | crates/relon-abi/src/buffer.rs:1055-1066 | the finished bytes rebased to the arena offset; with every field written and values that survive, they decode to those values and the verifier accepts them in every arena that holds them there |
| Builder.BufferBuilder.FinishSubRecord | crates/relon-abi/src/buffer.rs:1148-1211 | it succeeds if and only if the field is declared a record and the rebased child fits 32 bits; committing any child gives the field the record the child stands for, or leaves it undetermined, and keeps every other field and every open list |
| Builder.BufferBuilder.NewListRecordWriter | crates/relon-abi/src/buffer.rs:922-981 | a list writer exists exactly for a field declared as a list of that schema, with no entry |
| Builder.BufferBuilder.FinishListRecord | crates/relon-abi/src/buffer.rs:1011-1033 | the field then holds the committed entries in order; every other field, and every open list beside it, is kept |
| Builder.ListRecordWriter.constructor | crates/relon-abi/src/buffer.rs:967-980 | a new list writer has no entry |
| Builder.ListRecordWriter.StartEntry | crates/relon-abi/src/buffer.rs:1758-1760 | a fresh detached builder for one entry |
| Builder.ListRecordWriter.FinishEntry | crates/relon-abi/src/buffer.rs:1768-1796 | any child and any parent: a record pasted into the list's own builder joins the list in bytes of its own, anything else leaves the list undetermined, a failed commit changes nothing held; the parent's fields are untouched |
| Builder.OpenAcrossWrite | crates/relon-abi/src/buffer.rs:560-575 | an open list writer keeps its entries across a field write or a sub-record of its parent |
| Builder.OpenAcrossEntry | crates/relon-abi/src/buffer.rs:1768-1796 | and when another list writer open on the same parent commits an entry |
| Builder.OpenAcrossFinish | crates/relon-abi/src/buffer.rs:1011-1033 | and when that writer emits its header |
| ListWriting.PendingKept | crates/relon-abi/src/buffer.rs:1768-1796 | field writes, sub-records and other finished lists keep every committed entry |
| ListWriting.PendingEntry | crates/relon-abi/src/buffer.rs:1768-1796 | a commit keeps the entries before it |
| ListWriting.ChildLinked | crates/relon-abi/src/buffer.rs:1148-1211 | linking an appended record gives its field the record's value |
| Commits.SubRecordCommitted | crates/relon-abi/src/buffer.rs:1148-1211 | committing any child keeps every other field and the tail, and gives its own field what the child stands for |
| Commits.EntryJoined | crates/relon-abi/src/buffer.rs:1768-1796 | pasting any entry: a record joins the list, anything else leaves it undetermined, a failure changes nothing |
| Commits.CommitIff | crates/relon-abi/src/buffer.rs:1148-1211 | a child is committed if and only if its field is declared a record, the padded end is below 2^32 and every pointer of the child still fits once rebased |
| Commits.PendingFinish | crates/relon-abi/src/buffer.rs:1011-1033 | a header placed after its entries still encodes the list |
| Commits.ListFinished | crates/relon-abi/src/buffer.rs:1011-1033 | a finished list, determined or not, takes over its own entries and nothing else |
| Sessions.AfterSound | crates/relon-abi/src/buffer.rs:527-1211 | every history of writes, nested lists, sub-records and any number of list writers open at once, with children that have histories of their own, keeps all fields and all open lists intact and apart |
| Sessions.HistoryReads | crates/relon-abi/src/buffer.rs:2508-2522 | after any history each determined field reads as the value it was last given |
| Sessions.UntouchedReads | crates/relon-abi/src/buffer.rs:560-575 | from any point of a history, a field no later call is directed at keeps reading the same |
| Sessions.HistoryFinishes | crates/relon-abi/src/buffer.rs:1055-1066 | after any history that leaves no field undetermined the buffer reads as the record of those values, verifies, and does both in every arena it is finished for |
| Progress.NamedWriteIff | crates/relon-abi/src/buffer.rs:560-575 | a write succeeds if and only if a field of that name and type is declared and its slot can be written |
| Progress.NamedWriteFits | crates/relon-abi/src/buffer.rs:560-575 | which every conforming value that fits 32 bits can |
| Progress.FinishListIff | crates/relon-abi/src/buffer.rs:1011-1033 | a list header is emitted if and only if its count and its offset fit 32 bits |
| Progress.ChildRelocates | crates/relon-abi/src/buffer.rs:1811-2009 | relocating a finished child succeeds if and only if each of its visited pointers still fits 32 bits |
| Progress.ChildHasRoom | crates/relon-abi/src/buffer.rs:1421-1454 | every finished child whose bytes fit behind the parent is pasted |
| Progress.WriteDetermines | crates/relon-abi/src/buffer.rs:560-575 | after any history, writing a conforming value that fits gives the field that value |
| Progress.CommitDetermines | crates/relon-abi/src/buffer.rs:1148-1211 | after any history, committing a finished child that fits gives the field its record and changes no other field |
| Progress.EntryJoins | crates/relon-abi/src/buffer.rs:1768-1796 | after any history, a finished entry that fits joins its open list |
| Progress.CloseDetermines | crates/relon-abi/src/buffer.rs:1011-1033 | after any history, closing a list gives its field the committed entries |
| RoundTrip.BuilderReads | crates/relon-abi/src/buffer.rs:1035-1038 | every fully written builder, however it was written, reads back as the record of its values |
| RoundTrip.BuilderVerifies | crates/relon-abi/src/verifier.rs:428-473 | the verifier accepts its bytes if the type nests fewer than 64 levels |
| RoundTrip.BuilderAcceptedIff | crates/relon-abi/src/verifier.rs:428-473 | for every type, it accepts them if and only if the written record reaches no deeper than 65 levels, itself included |
| RoundTrip.BuilderRebasedOnce | crates/relon-abi/src/buffer.rs:1811-2009 | relocating it adds the base to each of its disjoint pointer slots once, changes no other byte, and fails only on a pointer that no longer fits |
| RoundTrip.BuilderArenaReads | crates/relon-abi/src/buffer.rs:1055-1066 | rebased to any base aligned for its types, in any arena, it decodes to the same value |
| RoundTrip.BuilderArenaVerifies | crates/relon-abi/src/verifier.rs:448-473 | and the verifier accepts it in its own window and in any four-window map with a window containing it |
| RoundTrip.BuilderFinished | crates/relon-abi/src/buffer.rs:1055-1066 | both, for all arenas at once |
| RoundTrip.RecordRoundTrip | crates/relon-abi/src/buffer.rs:2200-2249 | a record value written in one pass reads back as its normal form, through any nesting |
| RoundTrip.BuiltRecordVerifies | crates/relon-abi/src/verifier.rs:428-473 | and is accepted by the verifier if it nests fewer than 64 levels |
| RoundTrip.BuiltRecordRebasedOnce | crates/relon-abi/src/buffer.rs:1811-2009 | and is rebased exactly once |
| RoundTrip.ArenaRoundTrip | crates/relon-abi/src/buffer.rs:1055-1066 | and decodes and verifies in every arena it is finished for |
| RoundTrip.CoveredRebasable | crates/relon-abi/src/buffer.rs:107-133 | outside lists three deep over an inline scalar, every value survives a paste |
| RoundTrip.CoveredWritable | crates/relon-abi/src/buffer.rs:107-133 | and with strings shorter than 2^32 bytes every value is one the writer keeps |
| Boundaries.StringSlotExact | crates/relon-abi/src/buffer.rs:1351-1354 | a written string slot reads back if and only if the length fits 32 bits |
| Boundaries.BuilderArenaExact | crates/relon-abi/src/buffer.rs:107-133 | rebased past its own length, a fully written builder keeps its value in every arena if and only if no deep scalar list it holds has a non-empty row |
| Boundaries.PasteExact | crates/relon-abi/src/buffer.rs:1421-1454 | pasted under a parent past its own length, a child keeps its value behind every parent of that length under exactly the same condition |
| Boundaries.ArenaExact | crates/relon-abi/src/buffer.rs:107-133 | the same for a record value written in one pass |
| Boundaries.ThreeDeepListLost | crates/relon-abi/src/buffer.rs:107-133 | a concrete list three deep over Int is written, reads back, and is lost when rebased |
| SpecialisedWriting.WriteString | crates/relon-abi/src/buffer.rs:585-611 | byte-identical to the generic writer below 2^32 bytes, refused without effect from there on |
| SpecialisedWriting.WriteListInt | crates/relon-abi/src/buffer.rs:620-656 | byte-identical to the generic writer, same failures |
| SpecialisedWriting.WriteListFloat | crates/relon-abi/src/buffer.rs:664-696 | byte-identical to the generic writer, same failures |
| SpecialisedWriting.WriteListBool | crates/relon-abi/src/buffer.rs:704-732 | byte-identical although it pads differently |
| SpecialisedWriting.WriteListString | crates/relon-abi/src/buffer.rs:742-806 | byte-identical to the generic writer, same failures |
| NestedWriting.WriteNestedScalarList | crates/relon-abi/src/buffer.rs:2019-2086 | any row type and any rows: the bytes, the field holding the rows truncated to their 32-bit counts if the row type is the declared one, and everything else kept |
| NestedWriting.AppendScalarRows | crates/relon-abi/src/buffer.rs:859-879 | the row loop appends the rows, counts cast unchecked, and collects their offsets |
| NestedWriting.WriteRowsExact | crates/relon-abi/src/buffer.rs:825-891 | for scalar rows, identical to the generic writer if and only if the row type is the declared one and no row of 2^32 elements or more is written, but for calls both refuse |
| NestedWriting.ConformingRowsExact | crates/relon-abi/src/buffer.rs:825-891 | for conforming rows where a long one is still reached, identical if and only if the row type is the declared one and every row has fewer than 2^32 elements |
| NestedWriting.LongRowAccepted | crates/relon-abi/src/buffer.rs:1306-1321 | such a row is accepted here and refused by the generic writer |
| NestedWriting.RowWritten | crates/relon-abi/src/buffer.rs:1306-1321 | a written row encodes the row truncated to its 32-bit count |
| NestedWriting.RowsKept | crates/relon-abi/src/buffer.rs:1306-1321 | rows of fewer than 2^32 elements are kept whole |
| NestedWriting.RowsHeld | crates/relon-abi/src/buffer.rs:825-891 | the field holds the truncated rows, or nothing known if the declared rows are of another type |
| NestedWriting.IntRowsReinterpreted | crates/relon-abi/src/buffer.rs:2037-2050 | integer rows written into a field of float rows become the floats with the same bits |
| NestedWriting.OtherRowsRefused | crates/relon-abi/src/buffer.rs:2079-2085 | rows that are not inline scalars are refused |
| NestedWriting.WriteNestedPointerArrayList | crates/relon-abi/src/buffer.rs:2103-2191 | any layoutable row type: the bytes, the field's value where the row type is the declared one, and everything else kept |
| NestedWriting.WriteInnerExact | crates/relon-abi/src/buffer.rs:2103-2191 | identical to the generic writer if and only if the row type is the declared one, but for calls both refuse |
| SpecialisedReading.DecodePointerHeader | crates/relon-abi/src/buffer.rs:3979-4028 | the remainder arithmetic finds the aligned payload |
| SpecialisedReading.ReadListInt | crates/relon-abi/src/buffer.rs:2561-2605 | on every buffer, with the tail alignment of 8 the layout gives such a list, succeeds exactly when the generic reader does, with the same elements |
| SpecialisedReading.ReadListFloat | crates/relon-abi/src/buffer.rs:2609-2660 | the same for floats |
| SpecialisedReading.ReadListBool | crates/relon-abi/src/buffer.rs:2665-2702 | the same for booleans |
| SpecialisedReading.ReadListString | crates/relon-abi/src/buffer.rs:2707-2774 | the same for strings |
| SpecialisedReading.ReadListList | crates/relon-abi/src/buffer.rs:3619-3671 | the same for rows of inline scalars |
| SpecialisedReading.DecodeListListRows | crates/relon-abi/src/buffer.rs:3734-3867 | the extra row-count guard refuses only what the generic reader refuses |
| SpecialisedReading.DecodeStrings | crates/relon-abi/src/buffer.rs:2727-2773 | the string loop decodes the entries in order and stops at the first failure |
| SpecialisedReading.ReadListStringAt | crates/relon-abi/src/buffer.rs:2791-2857 | from the header's offset, agrees with the generic list reader on every buffer |
| SpecialisedReading.ReadListListAt | crates/relon-abi/src/buffer.rs:3687-3725 | the same for rows of inline scalars |
| SpecialisedReading.ReadString | crates/relon-abi/src/buffer.rs:2527-2555 | agrees with the generic reader on every buffer |
| InPlace.DecodeSentinel | crates/relon-abi/src/inplace_return.rs:87-101 | a negative return value decodes to the root it encodes |
| InPlace.SentinelRoundTrip | crates/relon-abi/src/inplace_return.rs:87-101 | every encodable root is recovered, from exactly one value |
| InPlace.ArenaRegions.Regions | crates/relon-abi/src/inplace_return.rs:64-77 | fails exactly when the scratch window is inverted; otherwise a span is allowed if and only if it lies in the const, input, output or scratch window |
| InPlace.ObjectFieldExact | crates/relon-abi/src/inplace_return.rs:442-576 | whatever the object decoder returns the generic reader reads too, with the same value if and only if no bare tuple is reached through slots and non-empty lists |
| InPlace.HoldersDiffer | crates/relon-abi/src/inplace_return.rs:473-485 | a concrete list of one record with a tuple field on which the two differ, and the empty list of the same type on which they agree |
| InPlace.NothingReached | crates/relon-abi/src/inplace_return.rs:442-576 | a type without a bare tuple field reaches none in any buffer |
| InPlace.InplaceReturnExact | crates/relon-abi/src/inplace_return.rs:122-299 | a returned list was verified first; the generic reader reads it too, with the same value if and only if no tuple record of it reaches a bare tuple |
| InPlace.ObjectReturnExact | crates/relon-abi/src/inplace_return.rs:352-391 | a returned object was verified first; the generic record reader agrees if and only if no bare tuple is reached |
| InPlace.WrapperReturnExact | crates/relon-abi/src/inplace_return.rs:378-380 | the same for the single-value wrapper |
| InPlaceTotal.ListReturned | crates/relon-abi/src/inplace_return.rs:122-299 | a verified list is returned if and only if no string of it is invalid and, unless it is empty, its elements have a shape the decoder takes |
| InPlaceTotal.ObjectReturned | crates/relon-abi/src/inplace_return.rs:352-391 | an object is returned if and only if the scratch window is not inverted, the verifier accepts and no string of it is invalid |
| InPlaceTotal.WrapperReturned | crates/relon-abi/src/inplace_return.rs:352-391 | the same for the single-value wrapper |
| InPlaceTotal.ObjectFieldReads | crates/relon-abi/src/inplace_return.rs:442-576 | on verified bytes the object decoder reads whatever the generic reader reads |
| InPlaceDecoding.ReadObjectField | crates/relon-abi/src/inplace_return.rs:442-576 | each field through the reader of its type gives what the specification says |
| InPlaceDecoding.ReadObjectList | crates/relon-abi/src/inplace_return.rs:489-558 | each list shape through its own reader |
| InPlaceDecoding.ReadObjectSlots | crates/relon-abi/src/inplace_return.rs:398-425 | the field loop |
| InPlaceDecoding.ReadObjectEntries | crates/relon-abi/src/inplace_return.rs:516-537 | the record loop |
| InPlaceDecoding.ReadRecordField | crates/relon-abi/src/inplace_return.rs:612-656 | the fields of a dictionary element of a returned list |
| InPlaceDecoding.ReadReturnedList | crates/relon-abi/src/inplace_return.rs:234-298 | each returned list shape through its own reader |
| InPlaceDecoding.DecodeReturn | crates/relon-abi/src/inplace_return.rs:122-299 | regions, verifier, reader: the whole list return computes the specified result |
| InPlaceDecoding.DecodeObject | crates/relon-abi/src/inplace_return.rs:352-391 | the whole object return, wrapped or not, computes the specified result |
| Pruning.FoldSound | crates/relon-analyzer/src/const_fold.rs:56-195 | a tree that folds to a constant yields it in every successful evaluation, in every environment |
| Folding.DivisionTruncates | crates/relon-analyzer/src/const_fold.rs:126-137 | integer division rounds toward zero and the remainder has the sign of the dividend |
| Folding.IntegersFold | crates/relon-analyzer/src/const_fold.rs:56-195 | a tree of integer literals folds if and only if no step divides by zero or leaves 64 bits, and to its arithmetic value |
| Folding.BooleansFold | crates/relon-analyzer/src/const_fold.rs:56-195 | a tree of boolean literals folds to its truth value |
| Folding.BooleansEvaluate | crates/relon-analyzer/src/const_fold.rs:56-195 | which every run of it yields too |
| Folding.BooleansRun | crates/relon-evaluator/src/eval.rs:910-936 | and some run of it does |
| Pruning.DeadChildNotRun | crates/relon-analyzer/src/capability_check.rs:263-288 | no evaluation runs a branch called dead |
| Pruning.ReachedIsLive | crates/relon-analyzer/src/capability_check.rs:263-288 | no call made in any run lies in a dead branch |
| Folding.DecidedIsPruned | crates/relon-analyzer/src/capability_check.rs:263-288 | with such a condition the branch it rules out is called dead: either side of a ternary, and the right operand of a false conjunction or a true disjunction |
| Folding.PrunedIds | crates/relon-analyzer/src/capability_check.rs:162-185 | and everything under that branch is silenced |
| Folding.DecidedRuns | crates/relon-evaluator/src/eval.rs:910-936 | while the branch it decides for does run: anything that branch may do alone it may do there, with the same outcome and calls |
| Folding.CallMade | crates/relon-evaluator/src/eval.rs:850-909 | a call whose arguments come to values is made, whatever it returns |
| CapabilityCheck.MissingBits | crates/relon-cap/src/lib.rs:143-164 | exactly the required bits that are not granted |
| CapabilityCheck.NameIs | crates/relon-analyzer/src/capability_check.rs:317-326 | a callee has a name if and only if every segment is a plain name, and it is the names joined with dots |
| CapabilityCheck.NameJoins | crates/relon-analyzer/src/capability_check.rs:317-326 | the name of a longer path is the names of its two parts with a dot between |
| CapabilityCheck.CheckNodeExact | crates/relon-analyzer/src/capability_check.rs:192-224 | a computed or ungated callee gets no diagnostic; any other call gets one per missing bit, in declaration order, under the dotted name |
| CapabilityCheck.ReportExact | crates/relon-analyzer/src/capability_check.rs:162-224 | a diagnostic is reported if and only if it belongs to a call outside every dead branch |
| CapabilityCheck.DeniedCallReported | crates/relon-analyzer/src/capability_check.rs:162-224 | whatever the run, the index order and the other trees indexed beside, a call to a gated dotted name made with a bit missing is reported |
| CapabilityCheck.DeniedInWorkspace | crates/relon-analyzer/src/capability_check.rs:50-98 | the same for any tree of any module of a workspace |
| CapabilityCheck.WellIndexedAmong | crates/relon-analyzer/src/root_schemas.rs:180-193 | a tree indexed together with mirrored schema bodies is indexed among trees that share no identifier with it |
| CapabilityCheck.OrderIrrelevant | crates/relon-analyzer/src/capability_check.rs:162-185 | the multiset of diagnostics does not depend on the order of the index |
| CapabilityCheck.Walker.ConstBoolCached | crates/relon-analyzer/src/capability_check.rs:295-306 | the cached answer is the direct fold |
| CapabilityCheck.Walker.DeadBranchOfCached | crates/relon-analyzer/src/capability_check.rs:263-288 | the dead branch through the cache is the one without it |
| CapabilityCheck.Walker.CollectDescendantIds | crates/relon-analyzer/src/capability_check.rs:235-240 | adds the identifiers of the whole subtree |
| CapabilityCheck.Walker.Walk | crates/relon-analyzer/src/capability_check.rs:162-185 | the walk with its mutable cache, dead set and call queue appends exactly the uncached report |
| CapabilityCheck.CheckTree | crates/relon-analyzer/src/capability_check.rs:109-115 | the check of one tree |
| CapabilityCheck.CheckWorkspace | crates/relon-analyzer/src/capability_check.rs:50-98 | the check of every module against the entry's capabilities and gates |

## Left out

- FinishSubRecord: a child built for other fields than the declared ones, with a field missing, or with values that do
  not survive the paste leaves the parent's field undetermined; what a reader then finds there is not described.
- FinishEntry: such a child, or a parent other than the builder that opened the list, leaves the whole list
  undetermined, as for FinishSubRecord.
- FinishListRecord: for the builder that opened the list; the source would patch a slot at the same offset of any
  other.
- WriteNestedPointerArrayList: for a row type that is layoutable with distinct names; the source takes any, and
  refuses rows of a type that is not layoutable.
- RecordRoundTrip: for records nested in records the condition that values survive a paste is sufficient and not
  necessary, because a stale pointer can reach equal bytes by coincidence; `PasteExact` is the exact condition over
  all parents of a length.
- RelocatesWhatIsFollowed: for owned records, whose slots share no byte; on a buffer with overlapping slots relocation
  reads pointers it has already changed.
- Overflow of `usize`, and the error kinds, messages and labels.
- Building the descriptor cache once and sharing it; the descriptors are recomputed from the type.
- `write_int`, `write_float`, `write_bool` and `write_unit`: single cases of the generic writer.
- `write_list_record`, and `read_list_record` and `sub_record` as sub-readers: they wrap the operations modelled here.
- `check_declared_native_gates`: an audit of registration tables, independent of source code.
- DeniedInWorkspace: calls inside the arguments of decorators and directives are not `child_nodes`, so no index lists
  them and nothing is said of them.
- The evaluator's concatenation fast path, which can evaluate an operand twice, and its optional fused-call path
  (`try_eval_fused`); the evaluation relation evaluates operands once and calls as written. Closures: a closure's body
  may run any number of times once the closure expression is reached.
- Schema hashing and canonical JSON, schema lowering, the machine-code backends, and the other analyzer passes.
