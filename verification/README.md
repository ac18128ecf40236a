# Hyperscan runtime, verified in Dafny

A model of the parts of Hyperscan's runtime whose correctness is hardest to see
from the code, with proofs about every run, every input and every reachable state:

- **Chimera's hybrid scan** (`Chimera`, `ChimeraSafety`, `ChimeraDelivery`, `ChimeraHalt`,
  `ChimeraFindAll`, `ChimeraEarlyStop`, `ChimeraUtf8`, `ChimeraCoverage`, `ChimeraScan`,
  `MatchQueue`, `Utf8`). A scan
  mixes Hyperscan events, first PCRE confirmations and PCRE rescans through one
  priority queue. It is proved to deliver exactly what a two-line reference delivers:
  each pattern's leftmost non-overlapping matches, handed to the callback in
  (end, start, pattern) order. From that it is derived, of the buffer's matches alone,
  which of them are reported: a match is exactly if it does not start strictly inside a
  reported one. `Chimera` has one function per C function;
  `ChimeraScan` is the code with its loops, binary heap and per-pattern array, proved
  equal to those functions.
- **Stream compression** (`Multibit`, `StreamCompress`). The template that measures,
  writes and reads back stream state, down to the depth-first walk over multibit
  blocks. Reading back directs itself by what it has just read, and restores every
  part that was stored; for a buffer cut short, with anything behind the cut, it is
  proved where reading ends and when that is noticed.
- **CRC32C and database serialization** (`Crc32c`, `Database`). Slicing-by-8 equals the
  bit-serial definition; any change within four consecutive bytes is detected;
  serialized databases survive the round trip and changed ones are refused.
- **Regular expression trees** (`Language`, `Standardizer`, `NodeCounter`, `RegexMle`).
  Standardization and random binarization preserve the language; the node counter
  agrees with a tree it never builds, but for a difference given exactly; and it is
  proved for which expressions the counts learned do not depend on the draws.
- **The streaming runtime** (`StreamRuntime`, `StreamTrace`): history, offsets, sticky
  status, vectored scans as a composition of stream calls, and which programs of the
  engine any run of calls runs, in which order and on what.
- **Reports** (`Dedupe`, `LogicalCombination`): two parity logs refine an unbounded set;
  in-place evaluation computes the value of a formula.
- **Scratch space** (`ScratchSpace`): region layout and growth; after any databases,
  every one of them has room for all it uses, in memory that nothing else uses.

`Memory` and `Options` hold what several of them share.

`dafny verify dfyconfig.toml` checks everything (Dafny 4.11).

## What the engines are assumed to do

PCRE, the Rose engines, the user's callbacks and the allocator are parameters:

- PCRE is a function giving the match that starts exactly at an offset, if any, and the
  error raised when scanning from an offset, if any; a scan finds the leftmost match.
- Hyperscan's events arrive in order of their end. For a prefiltered pattern some
  event ends no later than any true match; for a fixed-width pattern the events are
  exactly the matches (`Chimera.ScanOk`).
- User callbacks may reply anything, as a function of all reports so far.
- The matching engine of a stream is any deterministic set of programs over an engine
  state, status flags and a log of callbacks. Where it matters, a boundary program
  that halts is taken to have raised a flag that ends the stream, as the assertion at
  src/runtime.c:936 has it.

## Where the code does not do what one might expect

Each of these has a lemma with an input that shows it. All but two have a lemma saying
exactly when the expected property holds; for binarization and for vectored scans there
is instead a sufficient condition and a lemma saying what the code does in general.

- *At most one queued item per pattern.* When the callback ends the scan while
  `multiCallback` is catching up, the hit is queued all the same
  (chimera/ch_runtime.c:433-465), beside the pattern's previous match
  (`HaltedScanRepeatsAnItem`). It happens exactly when the hit is due and the user ends
  the scan at one of the matches still to be delivered before the pattern's queued one
  (`RepeatedItemIff`). The queue still never exceeds its slots, and no report is affected.
- *Every shortened compressed stream is refused.* A flat multibit, and the root of an
  empty one, is read without looking at the space given
  (src/util/multibit_compress.h:146-158), so a buffer cut within such sets at the very
  end can be accepted (`ShortBufferExample`). Every cut is refused exactly when the
  engine has no start-of-match slots and either an endfix or iterated leftfix is active
  or there are no exhaustion, logical or combination keys (`EveryPrefixRefusedIff`).
- *All real history is stored.* src/stream_compress_impl.h:127 cuts the offset to 32
  bits (`HistoryLost`, `HistoryIsWholeIff`).
- *The node counter equals the standardized tree.* It counts the empty literal, which
  becomes an empty leaf, and does not count a '.' or '+' without children or what is
  below a boundary (`EmptyLiteralIsOvercounted`, `CountBalance`, `CountIsExactly`).
- *Standardization always gives a tree.* A repeat with max below min becomes `None`
  (`InvertedRepeatHasNoTree`, `WholeIffNotInverted`).
- *Binarization preserves the language.* An alternation of nothing becomes the leaf
  for the empty string (`EmptyAlternationIsLost`); `BinarizationPreserves` says what
  every expression becomes.
- *The counts learned do not depend on the random splits.* Binary nodes over
  boundaries can fall below the size that is counted (`DrawsDisagree`). All draws of an
  expression count the same exactly when it is settled (`DrawsAgreeIff`): every join in
  it has at most two children, or all neighbouring pairs of its children reach that
  size, or it has three children and both pairs or neither do, or it has four of size
  zero. That every draw counts every binary node is a stronger property
  (`CountedIffSolid`).
- *A vectored scan is open, scan each, close.* A null block ends it before the
  end-of-data matches (`VectorIsStream`, `VectorStopsAtNull`).

## Model

| member | source | states |
|---|---|---|
| MatchQueue.Insert | chimera/ch_runtime.c:74-85 | inserting into the sorted view of the queue adds exactly the one item |
| MatchQueue.InsertSorted | chimera/ch_runtime.c:48-72 | the sorted view stays sorted by (end, start, pattern) |
| MatchQueue.HeapFront | src/util/pqueue.h:75-78 | the top of the heap array is the front of the sorted view |
| MatchQueue.SmallerChild | src/util/pqueue.h:55-61 | picks a child that no other child precedes |
| MatchQueue.PqInsert | src/util/pqueue.h:87-100 | sifting up keeps the heap order and adds exactly the new item |
| MatchQueue.PqSift | src/util/pqueue.h:49-73 | sifting down restores the heap order and keeps the items |
| MatchQueue.PqPop | src/util/pqueue.h:80-85 | removes exactly the least item and keeps the heap order |
| Utf8.StepIsNextBoundary | chimera/ch_runtime.c:279-284 | on valid UTF-8, skipping continuation bytes from one byte past a code point boundary lands on the next boundary |
| ChimeraUtf8.StepStartsOk | chimera/ch_runtime.c:274-289 | after any match of a UTF-8 pattern in valid UTF-8, the next start is a code point boundary or lies past the end |
| ChimeraUtf8.QueuedStartsOk | chimera/ch_runtime.c:274-289 | in every state of every scan, so is the start kept for a queued UTF-8 pattern |
| Chimera.FirstMatch | chimera/ch_runtime.c:226-250 | the match found is the leftmost one at or after the start, and none means there is none |
| ChimeraCoverage.StepMissesNothing | chimera/ch_runtime.c:274-289 | the next start lies no further than the next match that does not start inside the last one, for UTF-8 patterns in valid UTF-8 too |
| Chimera.Step | chimera/ch_runtime.c:274-289 | the next start lies past the match, strictly when it is vacuous |
| Chimera.CatchupProgress | chimera/ch_runtime.c:301-363 | from any state, a turn that goes round again shrinks the queue, or keeps its size and strictly raises a pattern's start: catchupPcre terminates |
| ChimeraSafety.PushInv | chimera/ch_runtime.c:262-291 | queueing a match that comes after every report keeps the scan invariant |
| ChimeraSafety.PoppedInv | chimera/ch_runtime.c:312-321 | popping and reporting the front keeps the scan invariant, its pattern being open |
| ChimeraSafety.FrontIsDue | chimera/ch_runtime.c:308-311 | while catching up, the front never ends after the hit: the insert at line 309 is never taken |
| ChimeraSafety.NextIsLater | chimera/ch_runtime.c:339-347 | a rescan finds a match strictly after the one just reported |
| ChimeraSafety.RescanInv | chimera/ch_runtime.c:339-362 | the refill after a report keeps the invariant and closes the pattern |
| ChimeraSafety.CatchupTurnInv | chimera/ch_runtime.c:301-363 | each turn keeps the invariant, in every reply and failure case |
| ChimeraSafety.CatchupInv | chimera/ch_runtime.c:295-367 | catching up keeps the invariant and leaves nothing queued that ends before the hit |
| ChimeraSafety.ConfirmedIsLater | chimera/ch_runtime.c:415-429 | the first confirmed match ends no earlier than the event that triggered it |
| ChimeraSafety.ConfirmInv | chimera/ch_runtime.c:415-429 | a first confirmation keeps the invariant |
| ChimeraSafety.PushHitInv | chimera/ch_runtime.c:440-466 | queueing a fixed-width hit keeps the invariant |
| ChimeraSafety.QueueFits | chimera/ch_scratch.c:77 | a queue with at most one item per pattern fits patternCount slots |
| ChimeraSafety.RoomLeft | chimera/ch_runtime.c:456-465 | there is a free slot whenever an item is pushed |
| ChimeraSafety.DueIsQueued | chimera/ch_runtime.c:431-439 | a due hit finds its pattern's previous match still queued, ending before it |
| ChimeraSafety.OtherCallbacksKeepDistinct | chimera/ch_runtime.c:369-429 | an event that is not due never leaves two queued items of a pattern, with any failures and replies |
| ChimeraSafety.RepeatedItemIffHalted | chimera/ch_runtime.c:431-466 | a due one does exactly when catching up stopped the scan and its last report was another pattern's |
| ChimeraHalt.CatchupReaches | chimera/ch_runtime.c:295-367 | catching up gets to the pattern's queued match exactly when the reference delivers everything before it without the user ending the scan |
| ChimeraHalt.RepeatedItemIff | chimera/ch_runtime.c:369-469 | an event leaves two queued items of a pattern exactly when it is due and, as read off the state before the call, the user ends the scan at a match that comes before the queued one |
| ChimeraHalt.HaltedScanRepeatsAnItem | chimera/ch_runtime.c:431-466 | a whole scan that ends with two queued items of a pattern |
| ChimeraSafety.MultiCallbackInv | chimera/ch_runtime.c:369-469 | every event keeps the invariant |
| ChimeraSafety.InitQueueInv | chimera/ch_runtime.c:490-524 | the initial queue satisfies the invariant |
| ChimeraSafety.RunHitsInv | chimera/ch_runtime.c:471-488 | any run of events keeps the invariant, however it ends |
| ChimeraSafety.ScanIsSafe | chimera/ch_runtime.c:526-631 | over any whole scan, with any failures and replies: reports are true matches with their own captures in strictly increasing (end, start, pattern) order; SINGLEMATCH patterns report at most once; nothing is reported after a SKIP; the queue fits its slots |
| ChimeraDelivery.FrontIsLeast | chimera/ch_runtime.c:301-321 | the front of the queue is the least of everything still to be delivered |
| ChimeraDelivery.TurnDelivers | chimera/ch_runtime.c:301-363 | one turn of catching up does one step of the reference |
| ChimeraDelivery.CatchupDelivers | chimera/ch_runtime.c:295-367 | catching up leaves the rest of the reference's outcome |
| ChimeraDelivery.HitIsNextMatch | chimera/ch_runtime.c:398-438 | a fixed-width hit that is not too early is the match PCRE would find next |
| ChimeraDelivery.MultiCallbackDelivers | chimera/ch_runtime.c:369-469 | an event never loses, adds or reorders what is to be delivered |
| ChimeraDelivery.FlushDelivers | chimera/ch_runtime.c:618-626 | the final catch-up delivers all that is left |
| ChimeraDelivery.RescanPending | chimera/ch_runtime.c:339-362 | a rescan keeps what is still to be delivered, a PCRE error that the user tolerates ending the pattern's matches |
| ChimeraDelivery.ScanDelivers | chimera/ch_runtime.c:526-631 | for every buffer, pattern set, event stream and callback, and any tolerated PCRE errors, the scan makes exactly the reports of the reference, with the same captures, order and result |
| ChimeraFindAll.ReportsAreFindAll | chimera/ch_runtime.c:295-469 | if the user always continues, each pattern's reports are exactly its find-all sequence up to the first PCRE error, or its first match for SINGLEMATCH |
| ChimeraCoverage.ReportsDoNotOverlap | chimera/ch_runtime.c:526-631 | two reports of a pattern never overlap, whatever the user replies |
| ChimeraCoverage.ReportedIff | chimera/ch_runtime.c:526-631 | unless the scan is ended or the pattern skipped, a match is reported exactly when it does not start strictly inside a reported match of its pattern |
| ChimeraCoverage.SingleReportedIff | chimera/ch_runtime.c:526-631 | for a SINGLEMATCH pattern exactly the leftmost match is |
| ChimeraCoverage.ReportsAreMatchesInOrder | chimera/ch_runtime.c:295-337 | with any errors and replies, each report is the match at its start, with its captures if the database asks for them, and reports come by end, then start, then pattern |
| ChimeraCoverage.TerminateEndsScan | chimera/ch_runtime.c:322-327 | a scan ends early exactly when a report is answered with TERMINATE, and that report is its last |
| ChimeraCoverage.SkippedIsSilent | chimera/ch_runtime.c:328-346 | with any errors, nothing of a pattern is reported after a SKIP, or after its first report if it is SINGLEMATCH |
| ChimeraEarlyStop.IdleHits | chimera/ch_runtime.c:383-408 | once all patterns are on and all need confirming or all report once, events change nothing |
| ChimeraEarlyStop.EarlyStopIsInvisible | chimera/ch_runtime.c:383-408 | stopping Hyperscan early gives the same final state, reports and result as running it to the end |
| ChimeraScan.Scratch.PqInsertWith | chimera/ch_runtime.c:74-85 | the heap gains the item; its sorted view is Insert of the old one |
| ChimeraScan.Scratch.PqPopNice | chimera/ch_runtime.c:87-92 | the sorted view loses its front |
| ChimeraScan.Scratch.NextStart | chimera/ch_runtime.c:274-289 | the loop over continuation bytes computes Step |
| ChimeraScan.Scratch.ScanPcre | chimera/ch_runtime.c:210-293 | the new state and result are Chimera.ScanPcre of the old |
| ChimeraScan.Scratch.Rescan | chimera/ch_runtime.c:339-362 | the new state is Chimera.Rescan of the old |
| ChimeraScan.Scratch.CatchupPcre | chimera/ch_runtime.c:295-367 | the loop terminates with the state and result of Chimera.Catchup, never writing past the queue |
| ChimeraScan.Scratch.Confirm | chimera/ch_runtime.c:415-429 | the new state is Chimera.Confirm of the old |
| ChimeraScan.Scratch.MultiCallback | chimera/ch_runtime.c:369-469 | the new state is Chimera.MultiCallback of the old |
| ChimeraScan.Scratch.InitQueue | chimera/ch_runtime.c:490-524 | the new state is Chimera.InitQueue of the old |
| ChimeraScan.Scratch.ScanHyperscan | chimera/ch_runtime.c:471-488 | the new state is Chimera.RunHits of the old |
| ChimeraScan.Scratch.Scan | chimera/ch_runtime.c:526-631 | the whole scan ends with a safe log and, if PCRE's errors are tolerated, exactly the reference's reports and result |
| Multibit.NextBit | src/util/multibit_compress.h:64-71 | the bit descended to is the first set bit from the remaining ones |
| Multibit.PopcountDrops | src/util/multibit_compress.h:64-68 | masking out a set bit lowers the population count, so a block is counted on its first visit only |
| Multibit.Descend | src/util/multibit_compress.h:69-74 | going down to a child consumes it from what is left of the walk |
| Multibit.Ascend | src/util/multibit_compress.h:76-80 | going up leaves what is left of the walk unchanged |
| Multibit.RootOffsets | src/util/multibit.c:132-140 | the levels start where the table of the source says |
| Multibit.FootprintIsTight | src/util/multibit_build.cpp:49-73 | the structure ends with the block of the last key |
| Multibit.FootprintGrows | src/util/multibit_build.cpp:49-73 | a multibit over more keys takes no less room |
| Multibit.BlocksApart | src/util/multibit.c:132-140 | different blocks of a pyramid never overlap in memory |
| Multibit.CountBlocks | src/util/multibit_compress.h:53-82 | the iterative walk counts exactly the blocks reached from the root |
| Multibit.WriteBlocks | src/util/multibit_compress.h:107-137 | the iterative walk writes exactly those blocks in depth-first order and nothing else |
| Multibit.ReadBlocks | src/util/multibit_compress.h:159-197 | of a nonempty set whose stored bytes are shown up to any limit, with anything after it: read exactly when all of it is there, and then every block is restored over any memory and nothing outside the structure is written |
| Multibit.CompSize | src/util/multibit_compress.h:42-82 | the size is the length of the stored form |
| Multibit.Compress | src/util/multibit_compress.h:84-137 | writes the stored form, or nothing when the space is too small, exactly then |
| Multibit.Decompress | src/util/multibit_compress.h:139-197 | for any limit and anything after it: a set that is all there is restored; of a cut one a flat set is taken as it stands, a pyramid is accepted exactly when its root is cut and reads as empty |
| Multibit.AsReadKeys | src/util/multibit_compress.h:146-164 | an accepted cut set holds a key exactly when the bytes it was read from do |
| Multibit.SameSet | src/util/multibit.h:402-421 | a restored structure answers isset alike for every key |
| Multibit.SameImage | src/util/multibit_compress.h:85-137 | a restored structure is stored in the same bytes again |
| Multibit.RestoredElsewhere | src/util/multibit_compress.h:140-196 | writing outside its footprint leaves a restored structure restored |
| StreamCompress.Step | src/stream_compress_impl.h:108-183 | in each of the three passes, one more copy keeps position, bytes and everything restored so far |
| StreamCompress.Copier.MeasurePiece | src/stream_compress.c:56-90 | the size added is the length of what would be written |
| StreamCompress.Copier.WritePiece | src/stream_compress.c:40-71 | exactly the piece's bytes are appended |
| StreamCompress.Copier.ReadPiece | src/stream_compress.c:47-83 | for any space given: refused exactly as PieceEnd says; otherwise nothing outside the piece is written, and a piece that is all there is restored |
| StreamCompress.Copier.Copy | src/stream_compress.c:40-90 | each copy advances the pass by its piece, or a read fails where Reading ends |
| StreamCompress.Copier.CopyLeaves | src/stream_compress_impl.h:158-169 | the endfix states copied are those of the stored active set, read from the memory being restored |
| StreamCompress.Copier.CopyLeftfixes | src/stream_compress_impl.h:35-72 | the same for non-transient leftfixes, each with its lag byte |
| StreamCompress.Copier.CopySomInfo | src/stream_compress_impl.h:74-106 | both start-of-match sets, then exactly the valid slots |
| StreamCompress.Copier.Run | src/stream_compress_impl.h:108-183 | all three passes agree on the byte count; a read ends, or fails, exactly where ExpandEnd says, for any space given and anything after it |
| StreamCompress.SizeCompressStream | src/stream_compress.c:119-130 | the length of the stored form |
| StreamCompress.CompressStream | src/stream_compress.c:105-117 | writes the stored form and leaves the stream alone |
| StreamCompress.HsCompressStream | src/runtime.c:1178-1202 | reports the space needed; succeeds exactly when that much is given, and otherwise leaves the buffer alone |
| StreamCompress.PartsRestored | src/stream_compress_impl.h:108-183 | when all that is copied is restored, so are, in bytes and keys: offset, status, long literal state, groups, the anchor buffer while needed, the history, the state of every active endfix, state and lag byte of every active non-transient leftfix, every valid start-of-match slot, and membership in all eight sets |
| StreamCompress.ExpandStream | src/stream_compress.c:92-103 | over any memory, all of these are restored, the stream asks for the same copies and compresses to the same bytes; from a shortened buffer, exactly when that is refused |
| StreamCompress.SameScript | src/stream_compress_impl.h:108-183 | a restored stream asks for the same copies |
| StreamCompress.CutRefused | src/stream_compress.c:47-83 | under the condition below, a buffer is expanded only if all of it is there |
| StreamCompress.CutAccepted | src/util/multibit_compress.h:146-158 | if only sets follow some point and hold anything, the buffer cut there is accepted |
| StreamCompress.EveryPrefixRefusedIff | src/stream_compress_impl.h:108-183 | every shortened buffer is refused, whatever follows it, exactly when there are no start-of-match slots and either an endfix or iterated leftfix is active or there are no exhaustion, logical or combination keys |
| StreamCompress.ShortBufferExample | src/stream_compress_impl.h:155-156 | a concrete engine and stream with an accepted shortened buffer |
| StreamCompress.HistoryIsWholeIff | src/stream_compress_impl.h:124-146 | the history stored is the real one exactly while the offset is below 2^32 or its low 32 bits reach what is required |
| StreamCompress.HistoryLost | src/stream_compress_impl.h:124-146 | at offset 2^32 no history is stored |
| Crc32c.CheckValue | src/crc32.c:515-522 | the bit-serial definition gives CRC-32C's published check value for the nine digits |
| Crc32c.FirstEntry | src/crc32.c:71 | the second entry of the first table is the literal of the source |
| Crc32c.LastEntries | src/crc32.c:68-502 | the last entry of each of the eight tables, reached by the recurrence, is the literal of the source |
| Crc32c.TableIsShift | src/crc32.c:68-502 | table k holds the register shifted by 8(k + 1) bits |
| Crc32c.ReferenceChains | src/crc32.c:515-522 | the checksum of a concatenation is the chained checksum |
| Crc32c.PackAbsorbs | src/crc32.c:548-549 | up to four bytes can enter the register together |
| Crc32c.SliceIsShift | src/crc32.c:551-557 | four table lookups shift a word |
| Crc32c.Slice8IsReference | src/crc32.c:547-570 | the body of the main loop equals eight steps of the bit-serial definition |
| Crc32c.Bytewise | src/crc32.c:515-522 | the bytewise loop computes the bit-serial checksum |
| Crc32c.SlicingBy8 | src/crc32.c:528-579 | so does slicing-by-8, for every start value, buffer and alignment with enough bytes to align |
| Crc32c.ReferenceInjective | src/crc32.c:515-522 | different registers stay different over the same bytes |
| Crc32c.BurstIsDetected | src/crc32.c:515-522 | buffers of equal length that differ only within four consecutive bytes have different checksums |
| Database.StreamFromBlock | src/database.c:81-106 | byte by byte: the three words, the platform without its padding, the three words after it, the bytecode, zeros |
| Database.Serialize | src/database.c:61-110 | succeeds exactly for a correctly aligned header, giving the serialized header fields and the bytecode |
| Database.CodeOffsetFits | src/database.c:188-198 | the bytecode lands 64-byte aligned, inside the block and clear of the header fields |
| Database.BlockReads | src/database.c:188-198 | the rebuilt block reads back the same fields and bytecode |
| Database.Rebuild | src/database.c:188-240 | the three writes leave exactly the block of these fields and bytecode |
| Database.AcceptsFromBytes | src/database.c:115-186 | length, magic, version, declared length, platform and checksum, each read off the bytes at its place, give the error the source gives |
| Database.BlockFromBytes | src/database.c:188-240 | byte by byte, the rebuilt block holds the fields at their places and the bytecode at its cache-line aligned offset |
| Database.DeserializeAt | src/database.c:200-240 | the error is the one read off the bytes; on success the memory holds the block rebuilt from them; nothing is written before header and platform are accepted |
| Database.ValidFromBytes | src/database.c:326-354 | dbIsValid accepts exactly a block whose magic, version, platform, alignment and checksum, read off its bytes, are right |
| Database.StreamAccepted | src/database.c:129-175 | what was serialized from a valid database is accepted at every 8-byte aligned address |
| Database.BlockValid | src/database.c:326-354 | the rebuilt database passes dbIsValid |
| Database.RoundTrip | src/database.c:61-240 | a database accepted by dbIsValid survives serializing and deserializing at any aligned address with the same fields and bytecode |
| Database.CorruptionIsRejected | src/database.c:177-186 | a serialized database changed only in its bytecode, and there within four consecutive bytes, is refused |
| Standardizer.FoldDotMeaning | scripts/regex_ast.py:42-50 | folding children into binary '.' keeps their concatenation |
| Standardizer.FoldPlusMeaning | scripts/regex_ast.py:52-60 | folding children into binary '+' keeps their union |
| Standardizer.RangeMeaning | scripts/regex_ast.py:70-86 | a range becomes exactly its characters, whichever end is larger |
| Standardizer.ExpandMeaning | scripts/regex_ast.py:88-162 | expanding a repeat keeps the language, in every branch |
| Standardizer.StandardizePreserves | scripts/regex_ast.py:28-162 | standardization keeps the language of every expression |
| Standardizer.WholeIffNotInverted | scripts/regex_ast.py:144-160 | the result contains no None exactly when no small repeat has max below min |
| Standardizer.ExpandedIffNotLarge | scripts/regex_ast.py:88-162 | every repeat is expanded exactly when none asks for more than 5000 copies |
| Standardizer.InvertedRepeatHasNoTree | scripts/regex_ast.py:144-160 | an expression that is standardized to None |
| Standardizer.Standardize | scripts/regex_ast.py:28-162 | the visitor computes the specified tree |
| Standardizer.VisitSequence | scripts/regex_ast.py:42-50 | the loop computes the left fold |
| Standardizer.VisitAlternation | scripts/regex_ast.py:52-60 | the loop computes the left fold |
| Standardizer.VisitRange | scripts/regex_ast.py:70-86 | the loop computes the union of the characters |
| Standardizer.RepeatCopies | scripts/regex_ast.py:115-121 | the loop computes n copies in sequence |
| Standardizer.VisitRepeat | scripts/regex_ast.py:88-162 | the branches and loop compute the specified expansion |
| NodeCounter.TimesMultiplies | scripts/regex_ast.py:285-289 | adding counts k times is multiplying them and their total by k |
| NodeCounter.NodesOfExpand | scripts/regex_ast.py:241-341 | expanding a repeat makes the nodes the counter predicts from the child's |
| NodeCounter.CountRepeatLinear | scripts/regex_ast.py:241-341 | a repeat multiplies its child's counts by a weight and adds fixed nodes |
| NodeCounter.WeightIsZero | scripts/regex_ast.py:317-339 | the child is dropped exactly for {0} and for small repeats with max below min |
| NodeCounter.CountIsNodes | scripts/regex_ast.py:169-341 | the counter is right about repeats, and about each other kind of node exactly when no empty literal, sequence or alternation outlives expansion |
| NodeCounter.CountBalance | scripts/regex_ast.py:169-341 | for every expression, the counts plus what is lost (empty joins, children of boundaries) equal the tree's nodes plus what is surplus (empty literals), each as often as repeats copy it |
| NodeCounter.CountIsExactly | scripts/regex_ast.py:169-341 | all counts equal the tree's exactly when what is lost makes up for what is surplus; where no boundary has a child, exactly when no empty literal or join outlives expansion |
| NodeCounter.EmptyLiteralIsOvercounted | scripts/regex_ast.py:179-180 | the empty literal is counted but leaves no node |
| NodeCounter.Visit | scripts/regex_ast.py:169-341 | the visitor computes the specified counts, and its total is their sum |
| NodeCounter.VisitRepeat | scripts/regex_ast.py:241-341 | the branches of visitRepeat compute the specified counts, total included |
| NodeCounter.VisitAlternatives | scripts/regex_ast.py:317-333 | the loop over alternatives computes their counts, total included |
| RegexMle.JoinedAt | scripts/RegexMLE.py:72-77 | where a run of children is split does not change the language |
| RegexMle.BinarizationPreserves | scripts/RegexMLE.py:53-91 | every draw of split points gives the same language, for every expression, an empty alternation reading as the empty string |
| RegexMle.BinarizationPreservesMeaning | scripts/RegexMLE.py:53-91 | which is the expression's own language when alternations have children |
| RegexMle.EmptyAlternationIsLost | scripts/RegexMLE.py:65-66 | the alternation of nothing becomes a leaf that matches the empty string |
| RegexMle.SizeIsFixed | scripts/RegexMLE.py:93-98 | the size is the same for every draw |
| RegexMle.SizeIsHowMany | scripts/RegexMLE.py:93-98 | the size is the number of leaves, unary and binary nodes |
| RegexMle.LeavesAreHowMany | scripts/RegexMLE.py:117-119 | each token is counted as often as it is a leaf |
| RegexMle.UnaryIsHowMany | scripts/RegexMLE.py:108-112 | each quantifier is counted as often as it stands over a subtree of more than two nodes |
| RegexMle.BinaryIsHowMany | scripts/RegexMLE.py:113-115 | and so is each binary operator |
| RegexMle.ExtractIsBelow | scripts/RegexMLE.py:100-123 | unary and leaf counts are the same for every draw; binary counts never exceed k - 1 per node |
| RegexMle.CountedIffSolid | scripts/RegexMLE.py:100-123 | every draw counts every binary node exactly when no two neighbours have fewer than two nodes together |
| RegexMle.SettledIsComb | scripts/RegexMLE.py:53-123 | in a settled expression every draw counts the same |
| RegexMle.DrawsAgreeIff | scripts/RegexMLE.py:53-123 | all draws of an expression count the same exactly when it is settled |
| RegexMle.DrawsDisagree | scripts/RegexMLE.py:108-115 | two draws of one expression with different counts |
| RegexMle.Binarize | scripts/RegexMLE.py:53-91 | the recursion gives one of the possible results |
| RegexMle.SampleSplitIndex | scripts/RegexMLE.py:43-51 | both sides of a split are nonempty |
| RegexMle.Model.ExtractCounts | scripts/RegexMLE.py:100-123 | the dictionaries grow by exactly the counts of the tree, the totals with them |
| RegexMle.Model.Fit | scripts/RegexMLE.py:21-37 | the counts learned are those of the expressions, whatever was drawn, but for binary nodes in expressions that are not solid; they do not depend on the draws if all expressions are settled |
| StreamRuntime.ScanHolds | src/runtime.c:870-978 | one scan keeps offset and history in step with the text taken in |
| StreamRuntime.HistoryIsTail | src/runtime.c:77-86 | after any writes the history exposed is the last min(historyRequired, offset) bytes of the text, and the offset its length |
| StreamRuntime.LivingConsumesAll | src/runtime.c:962-977 | a stream that lives has taken in every block |
| StreamRuntime.CodeTells | src/runtime.c:877-977 | the code of a scan tells the status of the stream: null block, error, termination, or data taken in |
| StreamTrace.StreamRunsEveryProgram | src/runtime.c:632-978 | for an engine that records its calls, opening, scanning any blocks and closing runs exactly: for each nonempty block the offset-zero reports if it is the first, the engine and the start-of-match flush, on the block, the last required bytes before it and the offset; at the end the reports for empty or other streams, the end-of-data check and both flushes; each on the state the one before left |
| StreamTrace.VectorRunsEveryProgram | src/runtime.c:1106-1175 | so does a vectored scan |
| StreamTrace.NothingRunsAfterTheEnd | src/runtime.c:885-977 | over any stream, no program runs after one that ended the scan, and after one that broke the stream only flushes of the same call do |
| StreamRuntime.BrokenStaysBroken | src/runtime.c:885-895 | once terminated, exhausted or in error, no call changes the stream or delivers anything |
| StreamRuntime.StoppingEarlyIsSame | src/runtime.c:1144-1157 | the scans a vectored scan leaves out would have done nothing |
| StreamRuntime.VectorIsStream | src/runtime.c:1106-1175 | with every block given, a vectored scan ends in the same state with the same callbacks as open, scan each, close |
| StreamRuntime.VectorStopsAtNull | src/runtime.c:1144-1157 | a null block ends a vectored scan with what was delivered before it |
| StreamRuntime.MoveDown | src/runtime.c:493-497 | the overlapping move shifts the buffer |
| StreamRuntime.CopyEnd | src/runtime.c:498-501 | the end of the data becomes the end of the buffer |
| StreamRuntime.MaintainHistoryBuffer | src/runtime.c:478-509 | the buffer holds the last bytes of its old contents followed by the data |
| StreamRuntime.LiveStream.GetHistory | src/runtime.c:77-86 | as many bytes are exposed as have been written, up to what is required |
| StreamRuntime.LiveStream.constructor | src/runtime.c:511-540 | a new stream exposes no history |
| StreamRuntime.LiveStream.ScanInternal | src/runtime.c:870-978 | the new state and code are Scan of the old, with the array in place of the exposed history |
| StreamRuntime.LiveStream.ReportEodMatches | src/runtime.c:632-711 | the new state is ReportEod of the old |
| StreamRuntime.LiveStream.ScanVector | src/runtime.c:1106-1175 | the loop computes Vector |
| Dedupe.MoveRefines | src/report.h:66-81 | moving to the next report's offset keeps what can still be asked about, from the all-ones start value too |
| Dedupe.LogsRefine | src/report.h:54-117 | after any reports the two logs hold exactly the keys reported at the last two offsets |
| Dedupe.FirstReportContinues | src/report.h:54-117 | CONTINUE is returned for exactly the first logged report with each key and end offset, the end being the one passed by the caller, whatever the logs held before |
| Dedupe.MatchDeduper.Start | src/runtime.c:141-143 | a scan starts with the all-ones offset and uncleared logs |
| Dedupe.MatchDeduper.DedupeCatchup | src/report.h:54-117 | the array of two logs is updated as specified |
| LogicalCombination.ApplyHolds | src/report.h:201-221 | one operation gives its slot the value of its formula |
| LogicalCombination.IsLogicalCombination | src/report.h:192-223 | every slot of the range ends with the value of its formula, no other changes, and the result is the formula's |
| LogicalCombination.IsPurelyNegativeMatch | src/report.h:225-275 | true exactly when no pattern read in the range is on and the formula holds; patterns' slots are untouched |
| LogicalCombination.QuietIsAllOff | src/report.h:225-275 | then the formula also holds with every pattern off |
| ScratchSpace.Arena.Take | src/scratch.c:141-228 | moving the pointer stacks a new region on the others |
| ScratchSpace.TakeFatbits | src/scratch.c:158-176 | an array of fatbits takes exactly fatbit_array_size bytes, all entries aligned |
| ScratchSpace.LayFront | src/scratch.c:130-188 | the first regions in order, aligned, with the bytes they use |
| ScratchSpace.LayBack | src/scratch.c:190-228 | the remaining regions in order, aligned, with the bytes they use |
| ScratchSpace.AllocScratch | src/scratch.c:71-241 | every region is aligned, no two overlap, and all lie inside the allocation after realignment |
| ScratchSpace.FatbitSize | src/util/fatbit_build.cpp:40-42 | every fatbit size is a multiple of eight, and the larger of the struct and the multibit it holds |
| ScratchSpace.FatbitSizeGrows | src/util/fatbit_build.cpp:40-42 | more bits take no less room |
| ScratchSpace.GrowKeepsEven | src/rose/rose_build_bytecode.cpp:3821-3838 | the sizes raised to those of any database stay multiples of eight, which the layout needs |
| ScratchSpace.LogOfLargest | src/scratch.c:365-369 | after any databases the report log size is that of the most report keys seen |
| ScratchSpace.SizesCoverAll | src/scratch.c:299-369 | after any databases in any order the sizes cover each: every bit set, the report logs included, has room for a multibit over the database's keys, and the state for its mode |
| ScratchSpace.CoveredIsServed | src/scratch.c:141-228 | a layout made for such sizes has, one after the other and inside the allocation, room for everything the database uses |
| ScratchSpace.Handle.Raise | src/scratch.c:297-369 | the prototype is raised to the maximum of each size, and resized exactly when something grew |
| ScratchSpace.Handle.ServesEach | src/scratch.c:243-389 | every database passed since the space was had has room for all it uses |
| ScratchSpace.Handle.Alloc | src/scratch.c:243-389 | after a success that holds of every database passed so far; the space is lost exactly when memory was needed and not given |

## Left out

- Argument checks of `ch_scan` and the Hyperscan entry points (null pointers, in-use flags, magic numbers, length limits); the model starts behind them.
- Callback return values outside the documented three, and Hyperscan error codes from inside a Chimera scan.
- Captures: an inactive capture is one value; the offsets the source leaves in it are not modelled.
- PCRE results that depend on where the search started, such as lookbehind before the start offset.
- Rose, NFA, literal matcher and start-of-match engine bodies; they are parameters.
- Start-of-match deduplication (`dedupeCatchup` with `do_som`) and flushing of stored matches.
- Reading past a buffer: the bytes behind the space given may be anything, and memory that is not there reads as zeros. A block named by a cut root is not written if it lies outside the stream.
- `mmbit_iterate` and the sparse iterator are taken to visit the set keys in ascending order; setting and unsetting keys is not modelled.
- The narrowing of `expand_stream`'s result to `int`, and stream offsets beyond 64 bits.
- Alignment of the loads in `crc32c_sb8_64_bit`, and the SSE4.2 code path.
- Copying, resetting and flushing of streams (`hs_copy_stream`, `hs_reset_stream`): compositions of the modelled calls.
- Database platform strings, the informational calls, and the allocation in `hs_deserialize_database`, which otherwise does what `hs_deserialize_database_at` does.
- Escaped tokens, `StdNode` inputs and non-numeric repeat bounds in scripts/regex_ast.py; dictionary keys that are absent read as zero.
- The text of leaves and quantifiers in scripts/RegexMLE.py (a literal spelled like the word for an empty node shares its count), and the floating-point probabilities.
- Failure to allocate the temporary prototype in `hs_alloc_scratch`.
- 32-bit overflow of the sizes in `alloc_scratch`; sizes are unbounded.
- Crc32c.SlicingBy8: requires enough bytes to reach alignment, because src/crc32.c:537 subtracts them from the length.
- StreamCompress.CompressStream: requires room for the stored form, which the source asserts and its one caller sees to; `HsCompressStream` is stated for any space.
- NodeCounter.CountIsNodes: is stated for boundaries without children, because the counter ignores a boundary's child and the standardizer does not; `CountBalance` covers those.
- ChimeraDelivery.ScanDelivers: here and in the lemmas it rests on, PCRE errors must be exceeded limits that the user does not answer by ending the scan, and must not be raised for a fixed-width pattern, whose next match comes from Hyperscan or from PCRE depending on what else is queued; `ScanIsSafe` holds for all errors.
- ChimeraCoverage.ReportedIff: the same, and no errors for the pattern itself; `ReportsAreMatchesInOrder` and `SkippedIsSilent` hold for all errors.
- ChimeraHalt.RepeatedItemIff: the same as for `ScanDelivers`; `RepeatedItemIffHalted` and `OtherCallbacksKeepDistinct` hold for all errors.
