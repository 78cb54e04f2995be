# argon2: models and proofs

A Dafny model of the four parts of this Argon2 library whose correctness is not visible in any one
function, and the properties they are for.

**The memory fill** (`Machine`, `Params`, `Indexing`, `Fill`, `SliceView`, `Pool*`, `Tag`, `PoolTag`, `Hashing`, `Standards`).
The sequential pass, slice and lane loops run as the source runs them, on an array, down to the running
offsets of `fill_segment` in wrapping 32-bit arithmetic; the compression function is a parameter. The worker
pool is a step system: every atomic is a history of messages, a message carries what its writer had seen if it
was a release, and a thread may read any message not older than the newest it has seen. A thread has a program
counter; claiming a lane, filling one block, arriving, each load of each wait, each reset, the release of the
next slice, unwinding, being refused at the spawn are steps of their own. `PoolInvariant` states what every
step keeps, `PoolControl`, `PoolKnowledge`, `PoolLeader`, `PoolMemory`, `PoolViews`, `PoolRecord` prove it
field by field, `PoolSafety` puts it together, and `PoolTheorems`, `PoolLiveness`, `PoolFairness`,
`PoolOutcome`, `PoolProgress` draw the conclusions: a normal return leaves the sequential memory, there is no data
race by the stated orderings alone, each block is filled once, no fair run goes on for ever, and every run can be
carried on to its end. `Hashing` puts the whole computation together, on one thread or under any schedule of the
pool: the tag comes from the inputs alone. `Standards` and `PoolModel` say what the definitions come to with every
constant written out: what a write does, what each byte of the pre-hash is, what a thread may read and where it may fail.

**BLAKE2b** (`LittleEndian`, `Blake2`, `Blake2Avx2`, `Blake2Stream`, `Blake2Long`, `Vectors`). The portable and the
AVX2 compression against section 3.2 of RFC 7693, the streaming state against section 3.3 on the whole message,
and the variable-length hash against section 3.3 of RFC 9106. Two digests, taken through every half round, fix the
constants.

**PHC strings** (`Bits`, `Base64*`, `Decimal`, `Phc*`, `Spelling`). Branch-free scalar Base64 with its lossy accumulator,
the NEON, WebAssembly and x86 prefixes, minimal decimals, the printer, the strict and the lenient parser, and the
bounded decoder.

**Arena reuse** (`Stripes`, `Memory`, `Workspaces`, `Windows`, `Hashers`). The striped wipe under every
interleaving, the known-zeroed flag over every history with the wipe feature on and off, and a hasher that hashes in
the window of whatever arena it is lent and verifies untrusted strings.

What follows from the code and its documentation does not say:

- The position mapping reaches every block of its window exactly when the window has at most 2^31 blocks
  (`Indexing.MappingOnto`).
- The encoder has no limit on the length of a record, the strict decoder refuses 2^32 bytes and more, so decoding
  gives back what was printed exactly below that length (`PhcRoundTrip.DecodeOfPrinted`).
  A salt of 2^32 - 1 bytes, which the checks allow, is such a record (`PhcRoundTrip.LongSaltIsLost`).
- The lenient decoder ignores unknown keys, but not everywhere: the key `v` at the front of the parameters of a string
  without a version field is taken for the version, and the string is refused, whatever the value
  (`PhcRecords.VersionKeyIsNotIgnored`). This is the only place (`PhcRecords.UnknownFieldKeepsRecord`).
- A repeated parameter in a lenient string is not an error, the last one counts; one comma after the last
  parameter is accepted (`PhcFields.ParamsAreFields`).

The generation counter is modelled modulo 2^32, so nothing is assumed about the number of passes.

## Model

| member | source | states |
|---|---|---|
| Params.ValidateInputs | src/params.rs:456-535 | the checks pass if and only if every value is in bounds, 8 blocks a lane included, although that product may wrap |
| Params.InputErrors | src/params.rs:456-535 | each error, exactly when it is the first thing wrong, with the bounds as numbers |
| Params.BuildErrors | src/params.rs:717-770 | the tag length, then the memory, then the rest; the costs are the values given, threads being lanes where none are |
| Params.Build | src/params.rs:717-770 | the builder succeeds if and only if every unnarrowed value is in range, and then its costs are valid |
| Params.LayoutFacts | src/params.rs:977-991 | for validated costs nothing wraps; the arena is lanes of four segments of at least two blocks, the largest such within the memory asked for |
| Params.LayoutIs | src/params.rs:977-991 | the segment is the memory over four times the lanes, the lane four segments, the arena all lanes |
| Indexing.IndexAlphaIsMapping | src/core.rs:98-198 | the mixed 32- and 64-bit arithmetic computes the mapping of section 3.4.2 of RFC 9106 over its window, for every pseudo-random value; nothing wraps |
| Indexing.IndexAlphaIsSafe | src/core.rs:98-198 | the reference is never the current or the previous block, never in the live slice of another lane, and in pass 0 always already written |
| Indexing.WindowIsExact | src/core.rs:98-163 | the window holds exactly the blocks that section 3.4.2 of RFC 9106 lists, neither more nor fewer |
| Indexing.MappingAntitone | src/core.rs:165-176 | larger pseudo-random values pick older blocks |
| Indexing.MappingOnto | src/core.rs:165-178 | every block of the window can be picked if and only if the window has at most 2^31 blocks |
| Fill.AccessFacts | src/core.rs:551-567 | every offset of a fill is in bounds, in the lane and column meant, and no block read is the block written |
| Fill.NextAddresses | src/fill_block/scalar.rs:211-217 | the counter is bumped before the seed is compressed twice with the zero block |
| Fill.TakeRandom | src/fill_block/scalar.rs:297-309 | address blocks carried from block to block give, at each block, the word of the address block of its own counter |
| Fill.CreateBlock | src/fill_block/scalar.rs:311-356 | one turn of the segment loop, in the source's offsets, is one write of the schedule |
| Fill.FillSegment | src/fill_block/scalar.rs:232-360 | the running, wrapping offsets and carried address blocks fill the segment block by block as the schedule says |
| Fill.FillSliceSt | src/core.rs:516-532 | one slice, lane after lane |
| Fill.FillMemoryBlocksSt | src/core.rs:462-504 | the sequential memory after all slices, and what each trace callback sees if there is one |
| Standards.BlockWritten | src/fill_block/scalar.rs:289-356 | a write changes its block alone: to the compression of the block before and the one picked, high half of the random word for the lane, low half for the column |
| Standards.BlockReplaced | src/block.rs:370-372 | over the old block, but in version 0x13 after the first pass exclusive-or the old block |
| Standards.RandomWord | src/block.rs:358-397 | an address word for Argon2i and for Argon2id in the first half of the first pass, from the seed of section 3.4.1.2 of RFC 9106; else the first word of the block before |
| Standards.InstanceIs | src/block.rs:271-291 | the instance of a job has its algorithm, version, passes and lanes, as many threads as are of use, and the largest arena |
| SliceView.ReferenceIsQuiet | src/core.rs:551-567 | no reference lands in what another lane writes in this slice, however far that lane is |
| SliceView.NewBlockOnView | src/core.rs:547-577 | the block a lane writes next does not depend on how far the others have got |
| SliceView.ViewStep | src/core.rs:547-577 | one more block of any lane moves the memory from one view to the next, whatever the interleaving |
| SliceView.ViewAtEnd | src/core.rs:516-532 | when all lanes are done in any order the memory is that of the sequential slice |
| PoolLeader.BarrierMet | src/core.rs:839-853 | when the sum of two loads made one after the other reaches the number of helpers, every helper has arrived, is lost or was refused, and both values are final |
| PoolViews.LoadGenerationViews | src/core.rs:797-820 | a helper released by a publication has in its view every write before it |
| PoolViews.CaughtUpSeesAll | src/core.rs:604-638 | past the barrier the leader has seen every access and the newest message of both counters |
| PoolSafety.NextKeeps | src/core.rs:689-896 | every step of every thread keeps the whole invariant |
| PoolSafety.Reachable | src/core.rs:689-896 | every state of every run satisfies it, and is one the steps are defined on |
| PoolTheorems.ParallelEqualsSequential | src/core.rs:730-896 | a normal return leaves exactly the sequential memory and the sequential traces, with no helper lost, for every interleaving, thread count and set of refused threads |
| PoolTheorems.EveryTraceIsSequential | src/core.rs:860-885 | also in a run cut short each callback sees the sequential end of its pass |
| PoolTheorems.ClaimsAreSequential | src/core.rs:689-712 | lanes are claimed in the order of the sequential loops, each once, although the counter overshoots and is reset; a normal return has claimed them all |
| PoolTheorems.ClaimAt | src/core.rs:689-712 | the sequence of claims has each slice and lane at its one place |
| PoolTheorems.EachBlockOnce | src/core.rs:689-712 | no block is filled twice in any run; at a normal return each has been filled |
| PoolTheorems.SlicesInOrder | src/core.rs:604-630 | before any access of a slice, every block of every earlier slice is filled, and those fills happened before it |
| PoolTheorems.LanesDoNotConflict | src/core.rs:547-577 | two fills of one slice in different lanes never touch a block that either writes |
| PoolTheorems.NoDataRaces | src/core.rs:547-577 | of two conflicting accesses by different threads the first happened before the second, by acquire and release alone |
| PoolTheorems.CountersDoNotWrap | src/core.rs:689-712 | neither the overshooting lane counter nor the sum the leader waits on wraps |
| PoolTheorems.StoresAreLast | src/core.rs:887-892 | when the leader resets a counter with a plain store it has seen that counter's newest message |
| PoolTheorems.StopIsNotMissed | src/core.rs:806-813 | a helper released by the stopping bump sees the stop flag, though it loads it relaxed; before the leader leaves its loops no helper sees it |
| PoolModel.PoolSize | src/core.rs:730-753 | the pool has as many threads as the instance, one of them the leader |
| PoolModel.EveryHelperIsSpawned | src/core.rs:777-831 | each helper is spawned or refused in turn |
| PoolModel.LoadsMayBeStale | src/core.rs:806-853 | every load may read any message from the newest its thread has seen on |
| PoolModel.StepsAreFree | src/core.rs:689-896 | any other thread that has not ended can step at any time; the join waits |
| PoolModel.AnythingMayUnwind | src/core.rs:753-797 | any fill and the trace may unwind, leaving the memory as it is |
| PoolModel.RelaxedOrdersNothing | src/core.rs:826-892 | the leader's relaxed stores, addition and load order nothing |
| PoolModel.HelpersRelaxedOrdersNothing | src/core.rs:700-816 | nor do the claims and the loads of the stop flag |
| PoolModel.ViewsGrowByAcquiring | src/core.rs:604-638 | only making an access, acquiring it, joining or being spawned puts it into a thread's view |
| PoolLiveness.ProgressDecreases | src/core.rs:631-638 | every step but a turn of a wait loop decreases a lexicographic measure |
| PoolLiveness.SpinChangesNothing | src/core.rs:669-684 | a turn of a wait loop changes nothing but what that thread has seen |
| PoolFairness.NoDeadlock | src/core.rs:784-853 | in every state of every run that is not final some thread can step |
| PoolFairness.FairRunsEnd | src/core.rs:631-638 | no fair run is infinite, with refused threads, helpers unwinding in a lane, and the leader unwinding in a lane or the trace |
| PoolOutcome.RefusedThreadsDoNotMatter | src/core.rs:753-775 | when nothing unwinds, a fill that ends has returned with the sequential memory, whatever threads were refused |
| Tag.FillFirstBlocks | src/core.rs:315-367 | succeeds if and only if the last lane's pair fits, and then each lane starts with its two hashed blocks |
| Tag.FirstBlocksAt | src/core.rs:315-367 | each of these blocks is the hash with its own lane and counter, whatever is written after it |
| Standards.FirstBlockIs | src/core.rs:330-357 | the 72-byte seed: the digest, the block number at 64, the lane at 68 |
| Standards.FirstBlocksStay | src/core.rs:315-367 | the first pass leaves the first two blocks of each lane as they were hashed |
| Tag.Finalize | src/core.rs:918-962 | the tag is the long hash of the sum of the last blocks; the exact condition for an error, which leaves the output alone |
| Standards.LastBlocksAre | src/core.rs:918-962 | word by word, the exclusive-or of the last column over all lanes |
| Tag.FirstPassReads | src/core.rs:2797-2801 | in pass 0 each block is made from blocks this hash has written, without the old block |
| Tag.OldContentsDoNotMatter | src/core.rs:2797-2801 | whatever the arena held, the fill ends as it does from fresh zeros |
| Tag.OldContentsAreNotTraced | src/core.rs:470-499 | no trace sees anything an earlier hash left |
| Tag.TagIgnoresThreads | src/core.rs:716-728 | the tag is the same for any number of threads |
| Tag.JobIgnoresThreads | src/core.rs:1846-1860 | costs that differ in their threads only give the same tag |
| PoolTag.PooledTagIsSequential | src/core.rs:381-504 | a pooled fill of a used arena gives the tag of a sequential fill of a fresh one |
| PoolTag.FirstPassReadsOwnWrites | src/core.rs:604-630 | in the pooled schedule too each block read in pass 0 is a first block or was written by a fill that happened before |
| PoolProgress.CanAdvance | src/core.rs:784-853 | from every reachable state at most two turns of a wait loop come before a step that decreases the measure, with nothing refused or unwinding |
| PoolProgress.EveryRunCanFinish | src/core.rs:631-638 | every run, however far it has got and whatever was refused or has unwound, can be carried on to its end |
| PoolProgress.SomeRunReturns | src/core.rs:730-896 | every fill has a run that returns |
| Hashing.SchedulesExist | src/core.rs:730-896 | there are schedules under which every fill returns |
| Hashing.FillPooled | src/core.rs:730-896 | under every such schedule the pool leaves the sequential memory and traces |
| Hashing.FillMemoryBlocks | src/core.rs:439-504 | so do both arms, pooled or not |
| Hashing.HashInArena | src/core.rs:2811-2899 | on one thread or on the pool, tag, traces and final memory come from the inputs alone, whatever the arena held; an arena of another size is refused |
| LittleEndian.LoadStore | src/block.rs:53-68 | storing words and loading them gives them back |
| LittleEndian.StoreLoad | src/block.rs:53-68 | loading bytes and storing them gives them back |
| Blake2.MixInPlace | src/blake2b.rs:92-112 | the mixing of four places of the array is G on those four words and leaves the others |
| Blake2.CompressScalar | src/blake2b.rs:115-141 | the portable compression is F of section 3.2 of RFC 7693 |
| Vectors.InitializationVector | src/blake2b.rs:49-58 | section 2.6 of RFC 7693: the fractions of the square roots of the first eight primes |
| Vectors.SigmaIsPermutation | src/blake2b.rs:62-75 | section 2.7: every row of the schedule is a permutation |
| Vectors.AbcDigest | src/blake2b.rs:1121-1141 | the digest of appendix A of RFC 7693, through every half round |
| Vectors.KeyedDigest | src/blake2b.rs:1164-1174 | the published digest with a key of 64 bytes and a message of 128: two blocks, sixteen different words |
| Blake2Avx2.RotationsRotate | src/blake2b/avx2.rs:50-59 | the byte shuffles rotate every lane by 24 and by 16 |
| Blake2Avx2.HalvesRotate | src/blake2b/avx2.rs:44-47 | the dword shuffle rotates every lane by 32 |
| Blake2Avx2.DoublesRotate | src/blake2b/avx2.rs:62-65 | shifting, doubling and adding without carry rotates every lane by 63 |
| Blake2Avx2.ColumnsAreRows | src/blake2b/avx2.rs:68-87 | mixing the rows is mixing the four columns one after the other |
| Blake2Avx2.DiagonalsAreRows | src/blake2b/avx2.rs:90-133 | mixing the rotated rows is mixing the four diagonals one after the other |
| Blake2Avx2.CompressAvx2 | src/blake2b/avx2.rs:141-178 | the vector compression is the same F for every chaining value, counter, flag and message |
| Blake2Stream.CountingAdds | src/blake2b.rs:616-619 | comparing the low word with the increment is the carry of a 128-bit counter |
| Blake2Stream.AbsorbExtends | src/blake2b.rs:636-672 | blocks already compressed do not depend on what follows |
| Blake2Stream.Blake2b.IncrementCounter | src/blake2b.rs:616-619 | the two words are the number of bytes compressed |
| Blake2Stream.Blake2b.Update | src/blake2b.rs:636-672 | the state stands for the bytes so far followed by the input, a full block held back; after finalization nothing is taken |
| Blake2Stream.Blake2b.Finalize | src/blake2b.rs:685-711 | writes the digest of section 3.3 of RFC 7693 and nothing past it; refuses a used state or a short buffer, writing nothing |
| Blake2Stream.WithKey | src/blake2b.rs:542-560 | a key is one zero-padded block of message; the exact lengths accepted |
| Blake2Long.DigestPieces | src/blake2b.rs:636-711 | however a message is split, the digest is that of the concatenation |
| Blake2Long.LastPiece | src/blake2b.rs:792-846 | the output takes ceil(T/32)-2 halves, at least one, and the last piece is of 33 to 64 bytes |
| Blake2Long.BlakeLong | src/blake2b.rs:792-846 | H' of section 3.3 of RFC 9106 for every non-zero 32-bit length, every output byte |
| Standards.LongHashIs | src/blake2b.rs:792-846 | the length in four bytes, the first halves of a chain of 64-byte hashes, and one hash of what is left |
| Blake2Long.InitialHash | src/core.rs:253-300 | H0 of section 3.2 of RFC 9106, lengths cut to 32 bits as the code does, and eight zero bytes after it |
| Standards.PreHashIsLaidOut | src/core.rs:263-300 | where everything lies in the input of H0: lanes, tag length, memory, passes, version, type, then each input after its length |
| Blake2Long.LengthsAreKept | src/core.rs:263-267 | for inputs below 2^32 bytes the four bytes before each are its length |
| Base64.DecodeOfEncode | src/encoding.rs:416-589 | decoding an encoding, with anything outside the alphabet after it, gives the bytes back and stops at its end |
| Base64.EncodeOfDecode | src/encoding.rs:552-589 | what was decoded encodes to exactly the characters consumed |
| Base64.DecoderIsExact | src/encoding.rs:552-589 | it succeeds if and only if the maximal alphabet run is the encoding of some bytes that fit, and then those are the bytes |
| Base64.EncodedLength | src/encoding.rs:198-207 | the length is four characters for three bytes and the remainder plus one, and never 1 modulo 4 |
| Spelling.AlphabetIs | src/encoding.rs:125-138 | table 1 of RFC 4648 |
| Spelling.Foobar | src/encoding.rs:416-449 | test vectors of section 10 of RFC 4648 |
| Spelling.ErrorsAre | src/encoding.rs:416-589 | the one error of each half of the codec |
| Base64Scalar.ByteToCharIsAlphabet | src/encoding.rs:125-138 | the branch-free sums of masks are the alphabet |
| Base64Scalar.CharToByteIsSextet | src/encoding.rs:151-163 | and its inverse, with 0xFF for everything outside |
| Base64Scalar.ToBase64Scalar | src/encoding.rs:416-449 | the accumulator that loses its high bits emits the encoding; the exact room needed, with one byte to spare, and nothing else touched |
| Base64Decode.FromBase64Scalar | src/encoding.rs:552-589 | the result, stop position, error and every byte written, on success or failure |
| Base64Neon.EncodePrefix | src/base64/neon.rs:41-73 | the interleaved 8-lane encoder writes a prefix of the encoding |
| Base64Neon.DecodePrefix | src/base64/neon.rs:118-152 | the interleaved 8-lane decoder writes decoded bytes for alphabet blocks only |
| Base64Wasm.SplitQuadIs | src/base64/wasm128.rs:37-60 | the masked 16-bit shifts split three bytes into four sextets |
| Base64Wasm.LookupCharIs | src/base64/wasm128.rs:63-73 | the saturating index and the offset table are the alphabet |
| Base64Wasm.MergeQuadIs | src/base64/wasm128.rs:144-158 | the masked 32-bit shifts put four sextets back into three bytes |
| Base64Wasm.EncodePrefix | src/base64/wasm128.rs:81-96 | the vector encoder writes a prefix of the encoding, its overlong stores within the output |
| Base64Wasm.DecodePrefix | src/base64/wasm128.rs:166-191 | the vector decoder writes decoded bytes for alphabet blocks only |
| Base64X86.EncodePrefix | src/base64/x86.rs:60-147 | wide and narrow blocks write a prefix of the encoding, each loaded and stored in bounds |
| Base64X86.DecodePrefix | src/base64/x86.rs:246-394 | alphabet blocks that fit are decoded, a rejected wide block ends the prefix |
| Base64Codec.ToBase64 | src/encoding.rs:471-518 | prefix and resumed tail equal the scalar encoder in result and in every byte, for every backend |
| Base64Codec.FromBase64 | src/encoding.rs:610-663 | prefix and resumed tail equal the scalar decoder in result, stop, error and every byte, for every backend |
| Base64Codec.EncodeBase64 | src/encoding.rs:680-690 | the whole string is the encoding, for every backend |
| Base64Codec.DecodeBase64 | src/encoding.rs:710-724 | the whole-string decoder computes the inverse of the encoder, and its buffer is never too small |
| Base64Codec.DecodeAllInverts | src/encoding.rs:680-724 | a whole string decodes to bytes if and only if it is their encoding |
| Decimal.DecodeDecimal | src/encoding.rs:740-769 | the digit loop with its checked multiplication and addition reads what the specification reads |
| Decimal.DecimalIsExact | src/encoding.rs:740-769 | a number is read if and only if its minimal decimal is the maximal digit run and it fits 64 bits |
| Decimal.NumLen | src/encoding.rs:211-219 | the number of digits of the minimal decimal |
| Spelling.DigitsAre | src/encoding.rs:802-816 | decimal digits, most significant first |
| PhcText.EncodedLen | src/encoding.rs:340-357 | one byte more than the text of every record with these costs and lengths |
| PhcWriter.Writer.Put | src/encoding.rs:785-799 | strictly more room than bytes or nothing is written |
| PhcWriter.DigitsOf | src/encoding.rs:802-816 | the ten-byte buffer filled from its end holds the minimal decimal |
| PhcWriter.EncodeString | src/encoding.rs:880-917 | succeeds if and only if the checks pass and the buffer holds the text with a byte to spare; then the text is written |
| PhcWriter.EncodedLenIsExact | src/encoding.rs:340-357 | printing succeeds if and only if the buffer holds that many bytes, and writes one less |
| Spelling.StringsAre | src/params.rs:311-317 | the names of the algorithms and versions in a record |
| Spelling.PrintedIs | src/encoding.rs:880-917 | the printed record, character by character |
| PhcParser.AllFieldsIs | src/encoding.rs:1081-1176 | any fields written, followed by anything outside the alphabet, parse back |
| PhcParser.AllFieldsWas | src/encoding.rs:1081-1176 | whatever parses is the text of its fields |
| PhcParser.BoundIsEnough | src/encoding.rs:1050-1068 | the computed buffer bound of a binary field is never why it fails |
| PhcParser.DecodeStringRaw | src/encoding.rs:1081-1176 | the cursor parser is the specification, with its order of errors |
| PhcRoundTrip.DecodeIsExact | src/encoding.rs:1081-1176 | strict decoding yields a record if and only if the input is its text, with the version field or, for version 16, without |
| Spelling.DecodedIs | src/encoding.rs:1081-1176 | a strict record is those characters with its own numbers and bytes in their places |
| Spelling.TrailingText | src/encoding.rs:1130-1160 | text after a record is an error, after whatever is wrong with the numbers |
| Spelling.UnknownVersion | src/encoding.rs:1130-1160 | so is a version other than 16 and 19 |
| PhcRoundTrip.DecodeOfPrinted | src/encoding.rs:880-1176 | decoding what was printed gives the record back, threads being lanes, if and only if the text is below 2^32 bytes |
| PhcRoundTrip.LongSaltIsLost | src/encoding.rs:1081-1090 | a record the checks allow whose text is too long to be decoded |
| PhcRoundTrip.PrintOfDecoded | src/encoding.rs:880-1176 | printing what was decoded from a text with a version field gives the text back byte for byte |
| PhcRoundTrip.TextDetermines | src/encoding.rs:880-917 | two records with one text are equal |
| PhcRoundTrip.OneAlgorithm | src/encoding.rs:1081-1176 | no text decodes under two algorithms, although one name is a prefix of another |
| PhcRoundTrip.GateLetsThrough | src/core.rs:1805-1828 | the length gate never turns away a record that fits the ceiling, with its version field or without |
| PhcRoundTrip.BoundedIsSound | src/core.rs:1805-1871 | acceptance means the strict record, every cost within the ceiling, threads the smaller of the ceiling's and the lanes, all else unchanged |
| PhcRoundTrip.BoundedRefuses | src/core.rs:1831-1844 | a readable record is refused if and only if a cost exceeds the ceiling, and the error names one that does |
| Spelling.GateIsTight | src/core.rs:1805-1828 | the gate refuses what is more than one byte longer than the longest record of the ceiling, and nothing else |
| PhcRoundTrip.BoundedIsComplete | src/core.rs:1805-1871 | every string the strict decoder reads, within the ceiling and with a salt of at most 1024 bytes, is accepted |
| PhcRoundTrip.PrintedIsAccepted | src/core.rs:1805-1871 | every such record, printed, is accepted exactly below 2^32 bytes of text |
| PhcLenient.DecodePhcRaw | src/encoding.rs:1212-1318 | the lenient parser, with its loop over parameters, is the specification |
| PhcFields.OrderDoesNotMatter | src/encoding.rs:1285-1318 | two lists with the same last value of each known key read the same |
| PhcFields.PermutationsAgree | src/encoding.rs:1285-1318 | any order of the same parameters reads the same |
| PhcFields.UnknownKeysAreIgnored | src/encoding.rs:1285-1318 | an unknown key with any value, anywhere, leaves what the parameters read as |
| PhcFields.ParamsAreFields | src/encoding.rs:1285-1318 | parameters that read are fields between commas, with at most one comma after them, and read as the last value of each known key |
| PhcRecords.DecodePhcIs | src/encoding.rs:1212-1283 | what becomes of any record: refused if too long or its parameters are taken for a version, else as its parameters read |
| PhcRecords.DecodePhcIsExact | src/encoding.rs:1212-1283 | a string is accepted if and only if it is a record whose parameters read and are not taken for a version |
| Spelling.AcceptedBegins | src/encoding.rs:1212-1231 | an accepted string begins with the name of its algorithm, and of its version unless that is left out |
| Spelling.BeginningTells | src/encoding.rs:1212-1226 | so its beginning tells the algorithm |
| Spelling.ParametersAre | src/encoding.rs:1285-1318 | the values of `m`, `t`, `p` and `data`, wherever they stand |
| Spelling.LenientRecordIs | src/encoding.rs:1212-1283 | the record they make, associated data included |
| PhcRecords.SameParamsSameRecord | src/encoding.rs:1212-1283 | parameters that read the same decode to the same record |
| PhcRecords.UnknownFieldKeepsRecord | src/encoding.rs:1212-1318 | an unknown key put anywhere into a string that decodes keeps its record, unless it is `v` in front and there is no version field, or the string gets too long; then it is refused |
| PhcRecords.PermutedFieldsKeepRecord | src/encoding.rs:1212-1318 | any order of the parameters keeps the record, unless it puts `v` in front and there is no version field |
| PhcRecords.VersionKeyIsNotIgnored | src/encoding.rs:1228-1231 | a string that decodes, and does not with `v=1,` before its parameters |
| PhcRecords.LenientExtendsStrict | src/encoding.rs:1081-1318 | whatever the strict decoder accepts, the lenient one accepts with the identical record |
| Stripes.StripesFollow | src/memory.rs:559-603 | stripes begin on whole units, none is empty, each begins where the one before ends, the last ends with the region |
| Stripes.EachByteInOneStripe | src/memory.rs:559-603 | every byte of the region is in exactly one stripe |
| Stripes.OneStripeEach | src/memory.rs:559-603 | there are never more stripes than workers |
| Stripes.SharesAreEven | src/memory.rs:559-603 | no stripe is longer than an even share rounded up to a unit, and none but the last shorter than a share |
| Stripes.WipeIsExact | src/memory.rs:559-603 | whichever workers run, in any order, each stripe is wiped once and exactly the region ends up zero |
| Stripes.StepSpendsOne | src/memory.rs:559-603 | every step of every worker takes one off a count: no worker waits for another |
| Stripes.WorkersFinish | src/memory.rs:559-603 | until all workers have gone one can step, and they have gone after exactly as many steps as there were at the start |
| Stripes.StripeOver | src/memory.rs:559-616 | the calling thread alone zeroes exactly the region |
| Memory.LayoutBounds | src/memory.rs:708-720 | an arena has from one to 2^53 - 1 blocks |
| Memory.WipeMakesZero | src/memory.rs:656-676 | wiping the window makes the whole capacity zero, because what lies outside already was |
| Memory.DropLeavesZero | src/memory.rs:977-1016 | with the feature on freed memory is zero |
| Memory.ReserveKeeps | src/memory.rs:1255-1267 | the invariants, the capacity afterwards, and that it is no more than was parked or asked for |
| Memory.AcquireGivesZero | src/memory.rs:1304-1330 | an arena of the size asked for, zero throughout with the feature on |
| Memory.ReleaseKeeps | src/memory.rs:1342-1356 | the larger of two arenas stays, wiped |
| Memory.EveryHistoryKeeps | src/memory.rs:656-676 | the invariants hold over every history of reserving, lending, writing, zeroing, releasing, dropping and clearing, feature on and off |
| Memory.FlagNeverLies | src/memory.rs:656-676 | in every history the known-zeroed flag implies the whole capacity is zero |
| Memory.NoBorrowerSeesAnother | src/memory.rs:656-676 | in every history, with the feature on, a new borrower finds only zeros at any size |
| Memory.WithoutWipeBytesSurvive | src/memory.rs:666-676 | with the feature off an arena that is kept comes back with every byte it had, at any size it holds |
| Memory.WithWipeBytesDoNot | src/memory.rs:656-665 | with it on, whatever was released and was parked, what is lent next is zero |
| Workspaces.Arena.constructor | src/memory.rs:730-775 | zeroed, known to be, and sound |
| Workspaces.Arena.SetWorkers | src/memory.rs:785-787 | at least one worker |
| Workspaces.Arena.Scribble | src/memory.rs:835-865 | use of a mutable view clears the flag first and stays in the window |
| Workspaces.Arena.EnsureAllZero | src/memory.rs:880-890 | the whole capacity is zero and known to be |
| Workspaces.Arena.Wipe | src/memory.rs:905-928 | the window is zeroed, and the flag claimed, exactly with the feature on |
| Workspaces.Arena.Retarget | src/memory.rs:935-941 | the window moves if and only if it fits the capacity |
| Workspaces.Arena.Drop | src/memory.rs:977-1016 | with the feature on the memory is zero when it is freed, panicking or not |
| Workspaces.Workspace.ReserveBlocks | src/memory.rs:1255-1267 | what is parked and the error, for every answer of the allocator; an impossible size frees nothing |
| Workspaces.Workspace.AcquireOwned | src/memory.rs:1304-1330 | what is parked, what is lent and the error; a parked arena that is big enough is lent itself |
| Workspaces.Workspace.ReleaseArena | src/memory.rs:1342-1356 | the larger is kept and the returned arena is wiped either way |
| Workspaces.Workspace.Clear | src/memory.rs:1365-1373 | nothing is parked |
| Windows.BlocksOfBytes | src/memory.rs:835-865 | blocks stored as bytes load as the same blocks |
| Windows.StoreWindow | src/memory.rs:835-865 | the window holds the blocks written, the flag is cleared and nothing outside changes |
| Hashers.ConstantTimeEq | src/core.rs:969-1008 | the accumulated difference, and the verdict its sign bit gives, say equal if and only if the tags are equal |
| Hashers.HashInWindow | src/core.rs:2811-2899 | hashing in the window of an arena gives the tag of the inputs, whatever the window held, and touches nothing outside it |
| Hashers.VerifyOneShot | src/core.rs:1442-1475 | the verdict on that tag, over a private arena that is dropped |
| Hashers.CeilingKeepsVerdict | src/core.rs:1846-1870 | a ceiling that lets a record through does not change the verdict, whatever threads it allows |
| Hashers.ChecksAre | src/core.rs:2763-2787 | the inputs first, then the length of the output |
| Hashers.TagIsForInputs | src/core.rs:2534-2564 | the tag is of a pre-hash input that holds the password, then the salt, then nothing twice, each after its length |
| Hashers.VerdictIs | src/core.rs:2577-2598 | each verdict, exactly when it is given |
| Hashers.HashedVerifies | src/core.rs:2264-2288 | a tag printed with its configuration and salt verifies exactly the passwords that have that tag |
| Hashers.Hasher.SetArgon2 | src/core.rs:1994-1996 | a larger configuration is remembered as asked for, and nothing is allocated |
| Hashers.Hasher.Reserve | src/core.rs:2028-2030 | the configured size is retained, no more than was asked for, or the allocation failed |
| Hashers.Hasher.HashInWorkspace | src/core.rs:2912-2949 | the tag of the inputs, in whatever arena the workspace lends, and capacity no more than before or than the costs call for |
| Hashers.Hasher.HashIntoUsing | src/core.rs:2534-2564 | the checks in their order, then the tag of the configuration, password and salt into the output, an allocation failure only if memory was needed; on any error the output is as it was |
| Hashers.Hasher.HashInto | src/core.rs:2083-2085 | the same for the owner's configuration |
| Hashers.Hasher.VerifyEncoded | src/core.rs:2264-2288 | the verdict on the tag of section 3.2 of RFC 9106 whenever memory is to be had or what is retained is enough, pooled or private, and retained capacity within what the owner asked for, whatever the string |
| Hashers.Hasher.VerifyEncodedBounded | src/core.rs:2437-2458 | a record beyond the ceiling is refused with nothing allocated or freed; otherwise that verdict and the same bound |

## Left out

- The compression of two blocks: the fill kernels, scalar and vector, are an arbitrary function of the two blocks.
- `src/blake2b/sse41.rs` and `src/blake2b/avx512.rs`: other vector forms of what is proved for AVX2.
- Base64X86.EncodePrefix: the loops are the source's; what the vector instructions of one block store is taken from the contract of the prefixes.
- Base64X86.DecodePrefix: likewise.
- CPU detection, cached dispatch and backend tables: a backend is a parameter.
- Real memory: mmap, madvise, alignment, raw pointers, volatile stores and the bump allocator. Allocation is a zeroed array, or a failure the caller chooses; a wipe is zeroing. A window is loaded as blocks and stored again, since an array has no slices that alias it.
- Timing: constant-time comparison and Base64 classification are proved for their results only.
- Allocation failure of output buffers, in the codec and in the hasher.
- The overflow check of a debug build on a thread's own generation count, which this model lets wrap after 2^32 slices.
- Interleavings within one block: a block is filled in one step, which is what race freedom at that granularity justifies.
- 32-bit targets: `usize` holds any 32-bit product here, and the memory limit is the one for 64-bit pointers.
- Secret and associated data through the hasher's `with_ad` variants, the password-hashing aliases and random salts: delegation.
- `src/random.rs`, `src/error.rs`, `src/lib.rs`, `build.rs`: plumbing.
- Blake2Avx2.CompressAvx2: the twelve rounds, written out in the source, are a loop.
- Stripes.StripeOver: one thread; the interleavings of several are `Stripes.WipeIsExact`, on values.
- Hashing.HashInArena: of the pool's runs those that return; one in which a thread unwinds raises, and what the caller then finds in the arena is not modelled.
- PoolFairness.FairRunsEnd: fairness is assumed of the scheduler, and of the memory that a store is seen in the end by a thread that keeps loading.
