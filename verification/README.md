# Sparsemap verification

This project models sparsemap, a compressed bitmap kept in one C file (`sm.c`), and proves that
every operation it models agrees with plain set semantics.

A map is a set of 64-bit indices stored in place in a buffer of 64-bit words.  In chunk mode the
buffer holds a chunk count and then, for each chunk, a start, a descriptor and payload words.  A
*sparse* chunk covers a window of 2048 indices through thirty-two 2-bit flags and one payload word
for each mixed flag; a *run-length* chunk holds a capacity and a length and stands for one run from
its start.  In small mode the buffer is a header and at most sixteen words of plain bitmap.

## How the model is built

* `Words`, `Chunks`, `Streams` define words as sequences of 64 bits, one chunk and a stream of
  chunks: membership, well-formedness, and the exact words they occupy.
* `Maps` holds the class `Map`: an array of words, the number of words in use, and a ghost `form`.
  `Valid` says that the words in use are exactly the layout of a well-formed form, so every method
  below is a statement about the words in the buffer; `Set` is the set they stand for.  `Strict`
  says that no chunk has unused slots, which is what every writer but the shift keeps.
* Everything that works step by step in the source is a method that edits words, positions and
  fields step by step: insertion and removal move the tail of the buffer, descriptors are rewritten
  in place, and the emitter, the run iterator, the sweep, the cursor and the cache are objects.
* The specification is always a set, a count, an order or a sequence defined without reference to
  the encodings: `Members`, `Count`, `Order(Ascending(..), Ascending(..))`, `Shifted`, `HashOf`,
  `IsNth`, `LeastSpan`, `Decodes`.
* Refusals are stated as room needed: `Sizes` counts the words of a chunk, or of the pieces of a run,
  from its set alone, `Footprints` bounds those of a merged stream by the runs of its set, and
  `RoomToSet`, `RoomToClear`, `RoomToPromote` and `RoomToAdd` say of the old state alone which
  updates go through.  `Lean` says that chunks are kept only when no bitmap takes no more words.

Well-formed streams have starts on multiples of 2048, ascending disjoint spans ending at or below
2^64 - 2048, no mixed word that is all zeros or all ones, at least one member in every chunk, and
run-length fields that do not exceed the largest multiple of 2048 below 2^31.  `ShortRuns` asks the
last of the members too, wherever runs are joined: the fields are masked at `sm.c:678` and
`sm.c:722`, and nothing splits longer runs.

## Where the code departs from its documentation

* **Removing a chunk's last member** (`sm.c:5033`).  After a chunk is emptied and cut out, its
  start is still used as the start of the chunk that moved into its place.  If the chunk before
  ends in a run up to that start and the moved chunk begins with a run, the two are merged as if the
  latter began at the removed start.  `Removing.MapUnset` and `Removing.Remove` prove that the
  result is the set without the index if and only if this situation (`Misfits`) is absent;
  `Removing.MisfitExample` gives three chunks for which it is present.
* **Promotion need not fit** (`sm.c:5475`, `sm.c:5514-5516`).  The comments say that promoting a
  bitmap to smaller chunks always fits.  Unless it is a run from bit 0, the bits are added one by
  one, and a chunk on the way can need more words than the last.  `Adding.AddLow` proves when the
  smaller form is reached, `Adding.PromotionExample` gives a bitmap and a buffer for which it is not.
* **Removal inside a run can leave chunks that could be merged** (`sm.c:4996`).  Coalescing is
  skipped after a separation.  `Removing.MapUnset` and `Removing.Remove` prove that this leaves two
  neighbours that could be merged if and only if the index is the last of a window past the first.
* **Overlapping spans are accepted** (`sm.c:9461-9465`).  The comment there says that no chunk can
  follow one that reaches 2^64.  A follower inside its span is accepted.  `Validate.AcceptedSpans`
  proves that accepted spans are disjoint if and only if no chunk before the last ends at 2^64, and
  `Validate.OverlapExample` gives an accepted stream in which two chunks share an index.
* **Small mode has several encodings of one set** (`sm.c:9369-9372`).  Bits 32 to 62 of the header
  are not looked at.  `Validate.SmallEncodings` proves that two accepted bitmaps of one set differ
  only there, `Validate.TwoEncodings` that they can.
* **The mode byte of the serialized header** (`sm.c:9576-9578`) is described as a mirror of the
  body's mode.  It is taken from the map, while an empty map is written as an empty chunk stream.
  `Wire.ModeByte` proves that it mirrors the body if and only if the map is not an empty bitmap.
* **Ranks of 2^63 and more** (`sm.c:1531-1535`, `sm.c:11271-11272`, `sm.c:11962`).  `sm.h:1011-1024`
  promises the last index for a rank past the last member.  The 64-bit rank is narrowed to a signed
  count, and a negative count passes the test for a hit at a run-length chunk and at a slot of ones.
  `Selects.Select` and `Locators.LocatorSelect` prove that below 2^63 the answer is the promised one,
  and that at any rank it is so if and only if the walk meets no run and no slot of ones with 2^63
  or more still to count, or the wrong hit happens to be right (`Answers`).  `Selects.SelectExample`
  gives two wrong answers.  A mixed word decrements the count; at its least value the language leaves
  that undefined.  The model wraps round there and states when it happens (`Overflows63`).
* **Clear bits of the whole index line** (`sm.c:11285-11411`).  Their number can be 2^64 less the
  members, which the width computed there cannot hold: `Ranks.Rank` proves that the answer is one
  short exactly for that range.
* **All-ones sparse chunks** (`sm.c:2866-2869`).  A comment says that such a chunk carries 32
  payload words.  By the size computed at `sm.c:1301-1317` it carries none; `Appends.FullRun`
  proves it.

## Model

| member | source | states |
|---|---|---|
| Chunks.RleCanonical | sm.c:590-724 | A run-length descriptor is determined by its 31-bit capacity and length, and writing the two fields gives it back. |
| Chunks.SparseCanonical | sm.c:6053-6140 | A well-formed sparse chunk is the encoding of the window it decodes to: decoding and encoding are inverse on well-formed chunks. |
| Chunks.ExpandSparse | sm.c:6053-6140 | Decoding an encoded window gives the window back, word by word. |
| Chunks.ChunkHasBound | sm.c:1168-1196 | Members of a chunk lie inside its span and below the capacity its readers use. |
| Maps.HeaderRoundTrip | sm.c:2409-2447 | Bit 63 of the first word tells small mode from chunk mode, and the first word gives the word or chunk count back. |
| Maps.Map.Insert | sm.c:2610-2622 | Opening a gap shifts exactly the tail of the used words and fills the gap. |
| Maps.Map.Remove | sm.c:2634-2653 | Closing a gap removes exactly those words. |
| Maps.Map.Load | sm.c:2148-2153 | Reading at the position of chunk i yields chunk i and the position of chunk i + 1. |
| Codec.ExpandChunk | sm.c:6053-6078 | Expands a sparse chunk into the words of its window and the slots in use. |
| Codec.EncodeSparse | sm.c:6093-6140 | Encodes a window, never leaving the last slot unused, and reports whether any slot carries data. |
| Codec.ExpandRle | sm.c:6161-6209 | The words show exactly the members of the run that fall into the target window. |
| RunLengths.GetRunLength | sm.c:737-807 | For a run-length chunk its length; for a sparse chunk the n of at least 64 for which its members are exactly its first n indices, and 0 exactly when there is none. |
| Appends.AppendRleChunk | sm.c:6441-6554 | Appending a run adds exactly its members, whether it becomes a chunk of its own or widens the last chunk. |
| Appends.AbsorbLast | sm.c:6622-6670 | The last chunk of the same window is taken back and ored in: nothing is lost or duplicated. |
| Appends.EmitWindow | sm.c:6622-6670 | A window goes out as a run when it is all ones, as a sparse chunk otherwise, and not at all when empty; its members are added exactly. |
| Appends.AppendRun | sm.c:6703-6744 | A run of any position and length is added exactly, over partial first and last windows. |
| Emitter.Emitter.EmitWords | sm.c:6810-6841 | A window is added to everything emitted so far; pieces of one window are merged before it goes out. |
| Emitter.Emitter.EmitRle | sm.c:6860-6933 | A run that starts on a window boundary is added exactly, and later emits may start at its end. |
| Emitter.Emitter.EmitRun | sm.c:6952-7004 | Any ascending, possibly abutting run is added exactly and the emitter is ready for the next one at its end; an empty run changes nothing. |
| Emitter.Emitter.Flush | sm.c:6786-6807 | Flushing keeps exactly what was emitted and leaves a well-formed stream with nothing pending. |
| EmitBits.EmitChunkBits | sm.c:9946-10046 | Exactly the members of one chunk in [from, to) are added. |
| Intersection.IntersectOverlap | sm.c:9813-9929 | Two overlapping chunks add exactly their common members, for all four pairs of encodings. |
| Intersection.IntersectWalk | sm.c:9714-9938 | One pass over both streams yields a well-formed stream of exactly the common members. |
| Difference.DifferOverlap | sm.c:10174-10345 | Over the common part of two spans exactly the members of the first that the second lacks are added. |
| Difference.DifferWalk | sm.c:10055-10385 | One pass over both streams yields a well-formed stream of exactly the members of a not in b. |
| Union.UnionOverlap | sm.c:10536-10777 | Two overlapping chunks are taken up to the nearer end, where both cursors then stand, each member once. |
| Union.UnionWalk | sm.c:10404-10833 | One pass over both streams yields a well-formed stream of exactly the members of either. |
| SetOps.ChunkView | sm.c:4671-4737 | A map is seen in chunk mode without changing its set; a bare bitmap is copied bit by bit. |
| SetOps.Intersect | sm.c:9714-9938 | The result is absent exactly for the empty set and otherwise a valid map of the intersection, for operands of either mode, in chunks only when no bitmap takes no more words. |
| SetOps.Subtract | sm.c:10055-10385 | The same for the difference; the result is a plain copy when there is nothing to take away. |
| SetOps.Unite | sm.c:10404-10833 | The same for the union; the result is a plain copy when one operand is empty. |
| Locate.WalkFrom | sm.c:2330-2370 | The walk stops at the first chunk that reaches past the index, or at the last chunk. |
| Appends.FullRun | sm.c:1301-1317 | A sparse chunk whose leading run is its whole window has the all-ones descriptor and no payload word. |
| Coalesce.CoalesceChunk | sm.c:2669-3050 | Coalescing a chunk with both neighbours at its own stored start keeps the set and well-formedness, removes nothing only when neither neighbour can be merged, and leaves nothing to merge when the two pairs it looks at were all there was; at the start of a removed chunk it is harmless or loses the set in a stated way. |
| Coalesce.RunUnique | sm.c:737-807 | A chunk has at most one run length, which the merging arithmetic rests on. |
| Coalesce.CoalesceMap | sm.c:3062-3136 | The pass over a map keeps the set and well-formedness, terminates, returns the number of chunks that went, and leaves no two neighbours that could be merged. |
| Separate.PiecesWf | sm.c:3155-3773 | The one to three pieces are well formed, ordered and disjoint, start where the run-length chunk did and stay within its span. |
| Separate.PiecesStream | sm.c:3155-3773 | The nine-word scratch buffer spells exactly these pieces. |
| Separate.BuildSide | sm.c:3155-3773 | A side of the separation holds exactly its part of the run and takes at most three words of the scratch buffer. |
| Separate.SeparateRle | sm.c:3155-3773 | One run-length chunk becomes chunks for the target without idx, with idx, or unchanged, by the state asked for; refused if and only if the words of the pieces, counted from the run alone, exceed what is there and free, and then nothing changes. |
| Separate.SeamOnly | sm.c:4975-4999 | With nothing to merge before, the pieces left by clearing an index inside a run can be merged with a neighbour if and only if the index is the last of a window past the first; then the piece before it ends where the run of the next begins. |
| Sizes.SparseWords | sm.c:1301-1317 | A sparse chunk takes two words and one for each slot that its set neither fills nor leaves empty. |
| Slots.SetSparseBit | sm.c:1457-1501 | Setting a bit adds exactly that index, through a fresh payload word, in place, or by dropping a word that became all ones; refused if and only if the slot was empty and no word is free. |
| Slots.ClearSparseBit | sm.c:1390-1440 | Clearing a bit removes exactly that index, and the chunk with its last member; refused if and only if the slot was full and no word is free. |
| Setting.CapacityLimit | sm.c:2068-2107 | The capacity granted to a run holds it, ends on a window boundary and stops short of the next chunk. |
| Setting.ExtendRun | sm.c:5170-5434 | The bit after a run lengthens the run in place, widening its capacity when it is used up. |
| Setting.MapSet | sm.c:5170-5434 | Every arm of the chunk setter adds exactly idx or refuses and changes nothing. It refuses if and only if fewer than two words and the spare one are free, or the surplus words of the one edit and the spare one do not fit: none, one or three, or those of the separated pieces less the two in place, read off the old chunk. Where no two neighbours could be merged before, none can after. |
| Setting.RoomAt | sm.c:2330-2370 | The room the setter needs is that of the one chunk the walk stops at, whichever description finds it. |
| Small.SmallAdd | sm.c:5442-5467 | A bare bitmap gains exactly idx; it is left alone if and only if the words up to that of idx do not fit. |
| Small.SmallRemove | sm.c:5051-5084 | A bare bitmap loses exactly idx and keeps no zero word at its end. |
| Small.IsRunFromZero | sm.c:4338-4373 | Recognises exactly the bitmaps that are a run from bit 0, with its length. |
| Adding.ChunkCost | sm.c:4397-4421 | The cost is that of the cheaper chunk encoding of the bitmap, counted from its set. |
| Adding.Promote | sm.c:4454-4554 | Promotion turns the bitmap into the one chunk that stands for its set, a run for a run from bit 0 that ends inside a word. It refuses, keeping the bitmap, if and only if the three words of that run, or for any other set some step of adding the bits one by one, do not fit. |
| Adding.TryDemote | sm.c:4562-4664 | Demotion keeps the set and turns a map into a bare bitmap exactly when the set has one that takes no more words. |
| Adding.Add | sm.c:5102-5156 | Adding yields the set with idx, whatever the mode, or refuses and keeps the set. It refuses if and only if the bitmap has no room for the word of idx, or the promotion that idx calls for has none, or the setter has none. Merged neighbours stay merged, and chunks are kept only for a set without a bitmap that takes no more words. |
| Adding.AddLow | sm.c:5484-5543 | The small arm adds idx and leaves the bitmap, or else the one chunk of its set: the chunk if and only if it takes fewer words and promotion has room. |
| Adding.CostIsPromoted | sm.c:4397-4554 | The cost that decides a promotion is the number of words the promoted map takes. |
| Adding.PromotionExample | sm.c:5475-5516 | A bitmap of five words whose chunk form takes four, with no room to promote it in a buffer of six. |
| Adding.AddGrow | sm.c:5591-5614 | One growth step always suffices. The buffer is replaced if and only if the addition has no room in it, by one of twice the length and at least 512 words. |
| Removing.ClearInRun | sm.c:4866-5038 | Inside a run-length chunk the index is cleared by shortening, re-encoding, separation or not at all. |
| Removing.MapUnset | sm.c:4866-5038 | Without coalescing the index is removed exactly; with it, if and only if the removal does not meet the misfit. It refuses, changing nothing, if and only if fewer than two words and the spare one are free or the surplus of the one edit and the spare one do not fit. Where no two neighbours could be merged before and no misfit is met, two can after if and only if the index is the last of a window inside a run. |
| Removing.Remove | sm.c:5051-5084 | The same for removal from a map of either mode; a bitmap never refuses, and chunks are kept only for a set without a bitmap that takes no more words. |
| Removing.MisfitBreaks | sm.c:5016-5037 | Coalescing at the removed start when it is not harmless never leaves the set without the index. |
| Removing.MisfitExample | sm.c:5016-5037 | Removing 2050 from [0, 2048), 2050, [4096, 4160) meets the misfit and joins into [0, 2112). |
| Offset.ShiftUp | sm.c:7350-7410 | The two output windows hold the window moved up, bit by bit. |
| Offset.ShiftDown | sm.c:7412-7437 | The output window holds the window moved down, the low bits dropped. |
| Offset.EmitSparse | sm.c:7297-7468 | A sparse chunk with every slot in use adds exactly its moved members; pieces landing in one output window are merged. |
| Offset.EmitRunChunk | sm.c:7138-7296 | A run-length chunk adds exactly its moved run, clipped at zero. |
| Offset.MaximumDecides | sm.c:7080-7098 | The greatest member alone decides whether the shift overflows or leaves nothing. |
| Offset.Offset | sm.c:7043-7487 | The result holds x exactly when x - k is a member; it is absent exactly when nothing is left or a member would overflow; after a shift other than zero no two of its chunks could be merged; for a shift by whole windows every slot of it is in use, so every other operation takes it. |
| Runs.DecodeChunk | sm.c:8007-8083 | A chunk is decoded into ascending, separated runs of exactly its members. |
| Runs.RunIter.NextRaw | sm.c:8090-8119 | Each decoded run is the first part of what is left. |
| Runs.RunIter.Next | sm.c:8135-8164 | Each call hands out the first maximal run of what is left, across chunk seams, and ends exactly when nothing is left. |
| Orders.UniqueDecomposition | sm.c:7926-8164 | A set has one decomposition into ascending maximal runs, however it is stored. |
| Orders.IsEmpty | sm.c:7494-7504 | True exactly for the empty set. |
| Orders.Equals | sm.c:9045-9073 | True exactly when the two maps stand for the same set. |
| Orders.Hash | sm.c:9015-9043 | The hash is a function of the set alone, so equal sets hash alike; what the function tells apart and where it lands is stated by the members of `Hashes`. |
| Hashes.MixByteApart | sm.c:9032-9039 | One step of the hash tells bytes apart for a fixed state and states apart for a fixed byte. |
| Hashes.HashApart | sm.c:9015-9043 | Two sets whose lists of maximal runs differ in one byte of one end have different hashes. |
| Hashes.OneRunApart | sm.c:9015-9043 | In particular two runs that differ in one byte of their beginning, or of their end. |
| Hashes.PublishedValue | sm.c:9018-9035 | From the published basis one step over the byte 0x61 gives the published 0xaf63dc4c8601ec8c. |
| Hashes.HashExample | sm.c:9015-9043 | The hash of the set of the one index 0x201 is 0xc99be74e3b20560e: the bytes of both ends go in least significant first, the beginning before the end. |
| Lex.OrderSkip | sm.c:9075-9123 | A shared prefix does not decide the order, so whole shared stretches of runs may be skipped. |
| Lex.Compare | sm.c:9075-9123 | The lexicographic order of the two ascending member sequences. |
| Lex.OrderZero | sm.c:9075-9123 | The order is zero exactly for equal sequences. |
| Lex.OrderFlips | sm.c:9075-9123 | Exchanging the operands negates the order. |
| Lex.OrderTransitive | sm.c:9075-9123 | The order is transitive, so it is a total order. |
| Lex.ListsUnique | sm.c:9075-9123 | A set has one ascending member sequence, so the order of maps is an order of sets. |
| Sweeps.Sweep.Next | sm.c:8785-8874 | Each stretch has constant membership on both sides and begins where the last one ended or after a gap; the sweep always advances. |
| Sweeps.SubsetCompare | sm.c:9125-9189 | The exact inclusion relation of the two sets. |
| Rebuild.SymmetricDifference | sm.c:8785-8874 | The members of exactly one operand; absent exactly for the empty set. Of two operands with members it is a bitmap whenever that takes no more words, and otherwise chunks of which no two could be merged. |
| Rebuild.CoalesceSorted | sm.c:8298-8322 | The separated runs of exactly the elements of a sorted array. |
| Rebuild.UnionRuns | sm.c:8343-8419 | A fresh well-formed map of the members of the map and of the runs, in which no two neighbours could be merged. |
| Rebuild.AddMany | sm.c:8428-8528 | The map gains exactly the elements. It refuses, changing nothing, if and only if it may not grow and the stream that was built for the new set, in which no two neighbours could be merged, exceeds the buffer; with eight words for each run of that set and one it never refuses. The buffer is replaced, by one of eight words more than the stream, if and only if the stream exceeds it. |
| Footprints.CompactBound | sm.c:3062-3136 | Merged chunks take at most eight words for each maximal run of the set, and one. |
| RangeAdd.AddRange | sm.c:8598-8769 | The map gains exactly [lo, hi), or is unchanged, if and only if the stream that was built for the new set exceeds the buffer. In it no two neighbours could be merged, and a set that is one run from the start of a window to before its end is a single run-length chunk; eight words for each run of the set and one always do. |
| RangeAdd.RefusalBound | sm.c:8743-8757 | Such a stream takes at most one word and 34 more for each member, so a refusal needs a set large for its buffer. |
| Counting.PairCounts | sm.c:8179-8221 | One pass counts both sets, their intersection and their union, each overlap once. |
| Ranks.ChunkRank | sm.c:1681-1872 | The number of members, in a range of distances from its start, of a chunk with every slot in use. |
| Ranks.Rank | sm.c:11285-11411 | The number of set or of clear bits in [begin, end]; for clear bits the whole 64-bit line is one short of its true count, and no map at all counts none. |
| Ranks.Cardinality | sm.c:5947-5961 | The number of members, in either mode. |
| Selects.ChunkSelect | sm.c:1517-1659 | The n-th member of a chunk, or what is left of n after its members, unless a negative count is met at the run or at a slot of ones, and then what is answered instead. |
| Selects.NoSnagBelow | sm.c:1531-1535 | A rank below 2^63 never meets a stretch of ones with a negative count. |
| Selects.Select | sm.c:11226-11283 | Below 2^63 the n-th member, or the sentinel exactly when there are no more than n; for every 64-bit rank this holds if and only if the walk does not snag, or snags without harm; when the count is decremented at its least value is stated too. |
| Selects.ChosenRight | sm.c:11226-11283 | What the walk answers is what is promised if and only if its first snag, when there is one, is without harm. |
| Selects.SelectExample | sm.c:1531-1535 | Rank 2^63 on the run [0, 2048) is answered with 2^63, rank 2^64 - 1 on [2048, 4096) with 2047: neither the sentinel nor a member. |
| Selects.SelectInvertsRank | sm.c:11226-11411 | Selecting the rank of a member gives the member back. |
| Spans.FindSpan | sm.c:11413-11469 | The search always ends; with fewer than 2^63 - 1 members, or when no rank it can ask for snags, the answer is the least start at or past idx of len consecutive members, or the sentinel exactly when there is none. |
| Spans.SearchEnd | sm.c:11413-11469 | Some rank past the last member is answered with the sentinel even by a walk that snags, so the search cannot run on. |
| Lookups.FindWith | sm.c:2268-2370 | The lookup that resumes at a cursor finds the chunk the head walk finds, also when it caches the left neighbour of a gap. |
| Lookups.Contains | sm.c:4798-4841 | Membership, with and without a cursor, which stays good for every later lookup in any order. |
| Lookups.ContainsCached | sm.c:11990-12046 | The same with the eight-way cache, for hits and misses. |
| Lookups.ContainsMany | sm.c:11486-11581 | One sweep answers every query of an ascending list. |
| Iterating.NextMember | sm.c:7626-7715 | The least member past the bound, with and without a cursor. |
| Iterating.ToArray | sm.c:8544-8566 | The array receives the first members in ascending order, as many as it has room for or as there are, and keeps the rest of its elements; without an array the members are counted. |
| Locators.Build | sm.c:11640-11749 | The directory samples real chunks with their starts, positions and exact counts of members before them, in ascending tables. |
| Locators.LocatorContains | sm.c:11832-11876 | The answer of the plain lookup. |
| Locators.LocatorRank | sm.c:11788-11914 | The answer of the plain rank, for set and for clear bits. |
| Locators.LocatorSelect | sm.c:11916-11984 | Below 2^63 the n-th member or the sentinel; for every 64-bit rank this holds if and only if the walk from the sampled chunk does not snag, or snags without harm. |
| Locators.SelectedUnique | sm.c:11916-11984 | A selection has one right answer, so the directory and the plain walk agree wherever both are right. |
| Validate.WfAccepted | sm.c:9337-9476 | Every well-formed buffer is accepted. |
| Validate.Check | sm.c:9337-9476 | Accepted exactly when the words decode as a whole: a small bitmap, or count chunks that fill the buffer and pass the chunk and neighbour checks. |
| Validate.LooseBound | sm.c:9406-9444 | The members of a chunk that passes the chunk check lie within its span. |
| Validate.AcceptedMembers | sm.c:9337-9476 | In an accepted stream no index is in two chunks when no chunk before the last ends at 2^64. |
| Validate.AcceptedLimits | sm.c:9361-9476 | What acceptance promises readers in plain numbers: a bitmap of at most 1024 bits without a zero word at its end, or chunks at rising multiples of 2048. |
| Validate.OneReading | sm.c:9337-9476 | A buffer decodes to at most one form. |
| Validate.AcceptedSpans | sm.c:9461-9465 | Accepted spans are disjoint if and only if no chunk before the last ends at 2^64. |
| Validate.OverlapExample | sm.c:9461-9465 | An accepted stream in which two chunks share an index. |
| Validate.SmallEncodings | sm.c:9361-9373 | Accepted bitmaps of one set agree in all words and differ at most in header bits 32 to 62. |
| Validate.TwoEncodings | sm.c:9361-9373 | Every bare bitmap has a second accepted encoding. |
| Wire.Serialize | sm.c:9595-9629 | The image of the map goes to the front of the output and the rest is untouched; 0 is returned exactly when the output is too short. Bytes 0 to 3 are 0x73 0x6d 0x31 0x30 or their mirror image, byte 4 is 2, byte 6 is 1 for a bitmap and 0 for chunks, and bytes 8 to 15 read back as the number of members. |
| Wire.Deserialize | sm.c:9631-9680 | Refuses exactly the bytes that read as no form, among them all with another magic number, version or byte order in bytes 0 to 5; otherwise the fresh map holds the body's words and the form they read as. |
| Wire.ImageHeader | sm.c:9595-9629 | The sixteen header bytes of an image by their values: brand, version, byte order, mode and number of members. |
| Wire.ImageBody | sm.c:9619-9629 | Every eight bytes after the header read back as the next word of the stored form. |
| Wire.GoodValues | sm.c:9640-9660 | A header is good exactly when bytes 0 to 4 have these values and the low bit of byte 5 is the host's byte order. |
| Wire.OtherHeader | sm.c:9640-9660 | Bytes that differ from an image in one of bytes 0 to 4 read as no form. |
| Wire.RoundTrip | sm.c:9595-9680 | On a host of the same byte order the image of a well-formed map reads as the stored form, as nothing else, and with the same set. |
| Wire.LoadedValid | sm.c:9631-9680 | A map read from such an image is valid and stands for the same set. |
| Wire.OtherOrder | sm.c:9650-9655 | A host of the other byte order refuses it. |
| Wire.ModeByte | sm.c:9576-9612 | Byte 6 of an image is 1 for a set top bit of the body's first word and 0 for a clear one if and only if the map is not an empty bitmap. |

## Left out

* `sm_split` (`sm.c:10839-11224`): it can leave empty chunks, outside the well-formedness used here.
* `sm_select` and `sm_span` for clear bits: the walk skips the zeros between chunks.
* `sm_scan`, `sm_prev_member`, `sm_minimum`, statistics, `sm_extract_range`, `sm_remove_range`, `sm_flip_range`, `sm_jaccard_index`, the inplace wrappers and the constructors from arrays and ranges: compositions or mirror images of what is proved.
* The last window of the index space (starts at or above 2^64 - 2048), wrap-around there, and the sentinel index 2^64 - 1, in every writer and reader; validation and deserialization do cover it.
* Runs of 2^31 - 2048 or more indices: `ShortRuns` and `ShortJoins` exclude them wherever runs are joined, because the fields are masked and not split.
- Removing.MapUnset: `ShortJoins` also bounds the two runs around a removed chunk, which a faulty merge would join.
- Offset.Offset: does not model results that reach into the last window of the index space without overflowing; for shifts that split windows it does not say which results have unused slots.
- Spans.FindSpan: says nothing about the answer for chunk-mode maps of 2^63 - 1 or more members on which a rank of the search snags.
- Selects.Select: decrementing the least signed count is modelled as wrapping round.
- Adding.AddGrow: growing the buffer always succeeds, since the allocator is not modelled.
- Removing.Tail: when the removed chunk was the last one, the source looks at the words just past the used region; the model does nothing there.
- Coalesce.CoalesceChunk: finds the left neighbour by the walk from the head, not through a position hint from a cursor.
- EmitBits.EmitChunkBits: a sparse chunk is always emitted whole, since well-formed operands never reach the masking of part of one; nor do they reach the arms for misaligned sparse chunks in the three merges.
- Rebuild.AddMany: takes a sorted array, since `qsort` is not modelled, and leaves the shorter inputs to single additions.
* Unused slots as input to anything but the difference between valid and strict maps, validation, the wire form and the run iterator: rank and the walks do not advance over them.
* Maps whose buffer was never initialised, except by `Validate.Check`.
* Cursors, caches and directories kept across a change of the map, and the checks that try to notice a stale directory; `Locators.IsStale` is used on an unchanged map only.
* Allocation failure, `errno`, ownership tags, realloc and free, alignment, prefetching and diagnostics.
* SIMD kernels, the byte tables for flags and the bit-counting instructions: the scalar loops are modelled.
* The eight bytes copied beyond the tail by insertion and removal (`sm.c:2610-2653`): an exact shift is modelled, with the spare word kept in the space check.
* The lazily stored cardinality: it is recomputed.
