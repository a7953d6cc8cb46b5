# ShardVault in Dafny

A model of ShardVault's three cores with machine-checked proofs of what they promise.

1. **Erasure code.** GF(2^8) over 0x11D with its log and exponent tables, matrices over a flat array,
   in-place Gauss-Jordan inversion, the systematic Vandermonde matrix, Reed-Solomon encoding and
   reconstruction, and stripes of block files. Main results: `Matrices.Matrix.Invert` is sound and complete
   for every square matrix; any k rows of the systematic matrix are invertible for every k + m <= 255;
   reconstruction and stripe reads are exact for every loss of at most m shards; the code word is the values of
   one polynomial per position at the points 1 to k + m, in the field of polynomials modulo 0x11D.
2. **Crash-safe store.** CRC-32C and the block format, the record codec, the write-ahead log, segments,
   the commit protocol, compaction, recovery, published snapshots and per-prefix counters. The disk is a
   map of files with a durable part; a crash keeps the durable part of each file and makes anything of the
   rest, and a write over fsynced bytes makes them unsynced. Main results: `Guarantees.CrashConsistency` over every run, every step at which a crash may come
   and every interruption of recovery; `Recovery.ReplayIsLive`; `Guarantees.SnapshotIsolation`;
   `Rollups.RollupIsRecount`.
3. **Replication.** Followers that apply the leader's records, barriers, quorum, acknowledgements and
   backfill, as transition systems over every interleaving of the leader, the sessions, restarts of followers
   and backfills, complete or not. Main results: `FollowerGuarantees.FollowerSimulates` and
   `RecordsNeverRefused` for every run, `FollowerCrashSafety` with its exact condition;
   `ClusterGuarantees.QuorumBeforeCommit`, `FollowersHavePrefixes`, `ReadYourWrites`, `BackfillFindsValues`
   and `BackfillIsComplete` for every run; `Replication.FollowerOfCluster`.

## How the modules fit together

| modules | subject |
|---|---|
| Bytes, Gf, FieldProduct, Linear, Matrices, Vandermonde, ReedSolomonCode, Stripe | erasure code |
| Crc32c, Crc32cReference, Block, BlockCodec, Records, RecordCodec, Wal, Format | what is in the files, byte by byte |
| LogModel, Recovery, Disk | what a log of records means, what recovery makes of it, what it needs of the disk |
| Leader, CrashSafety, Runs, Guarantees | the single-writer store as a state machine, and its guarantees |
| Packing, Reclaiming | how puts fill segments, and what compactions gain |
| Rollups | per-prefix counters |
| SegmentStore, StoreObject | the store as an object updated in place, tied to Leader, Recovery and Disk |
| Refusal | a put that is refused after its record was logged |
| Follower, FollowerRuns, FollowerGuarantees, MissingBarrier, FollowerObject, FollowerCleanup | a follower, its runs, its guarantees and their limit, its object, and what its barriers leave on disk |
| Link, Cluster, ClusterGuarantees, Scenarios | one leader-follower link, the cluster, its guarantees, and runs that show their limits |
| Replication, Frames | the cluster and the follower's store together, and what is under way between them |

`LogModel.On` reads a log as the live store experiences it: a compaction takes effect with the Commit that
covers it. `Recovery.Recovered` reads it as recovery does: all puts and seals first, then all compactions.
`LogModel.Legal` says what a writer guarantees of each record; every store state machine is proved to write
only legal logs, so the lemmas about legal logs apply to every run.

## Where the code does less than it promises

Each of these has a counterexample and an exact condition in the model.

- DESIGN.md promises that any bit flip in a block is detected. Bytes past the payload are covered by no
  checksum (`Block.UndetectedFlip`); outside the length field a damaged byte is noticed exactly if it lies
  before the end of the payload (`Block.ByteDamageNoticed`).
- A put whose key has more than 4039 bytes and no slash can be accepted, and then stops the chunk loop of a
  compaction for good (`Rollups.UncompactableKey`); the loop advances exactly on shorter keys
  (`RecordCodec.ChunkProgress`).
- A put is logged before the record of its deltas, and a key with too many components fits the first and not the
  second. Such a put is refused, but its record stays in the log and memory does not know it: exactly then
  `StoreObject.Inner.StagePut` leaves an invalid store. If another put is then acknowledged, the store does not open
  again unless one of the two values is empty (`Refusal.RefusedDeltasStrand`,
  `Refusal.AcknowledgedThenStranded`). All results about runs of the store are about runs without such a refusal;
  refusals of long keys and long values are among their steps.
- DESIGN.md promises that a crash at any point of a compaction is survived (invariant 13). On a follower with a
  compaction pending, every crash in the barrier is survived if and only if no Commit that a crash may cut back to
  needs more of the replaced segment than is fsynced
  (`FollowerGuarantees.BarrierExactly`). A step that starts a compaction only then is called prudent
  (`FollowerGuarantees.PrudenceIsExact`), and all crashes of prudent runs are survived
  (`FollowerGuarantees.FollowerCrashSafety`). A backfill can bring puts and the compaction of their segment without a
  barrier in between; `MissingBarrier.MissingBarrierLoses` is a reachable follower, its first Commit durable, that
  loses its store that way. What a follower has in memory and in its files, crashes aside, does not depend on it
  (`FollowerGuarantees.FollowerSimulates`).
- DESIGN.md promises that a restarted follower converges and that the leader commits only what a majority has
  fsynced (invariants 7 and 5). If records above the commit index had left the queue before the session broke,
  the backfill does not bring them back and the follower goes on without them. `Scenarios.SkippedPutIsCommitted`
  is a run of three nodes in which the leader commits a put that no follower has or had acknowledged, and a
  follower's log is no prefix. The backfill is complete exactly if none had left (`ClusterGuarantees.BackfillIsComplete`); a follower's log
  is a prefix exactly if no backfill skipped a record at or below its last one
  (`ClusterGuarantees.FollowersHavePrefixes`), and any part of the log is on a quorum exactly if enough of the
  followers that acknowledged it skipped nothing of it (`ClusterGuarantees.QuorumBeforeCommit`). Both hold in every
  run in which no backfill of that follower ended after a live record was taken
  (`ClusterGuarantees.UntakenFollower`).
- Between a Commit and the announcement of the new commit index, a read of a key just overwritten finds
  nothing although an earlier put was acknowledged (`Scenarios.AcknowledgedKeyReadsAbsent`;
  `ClusterGuarantees.ReadIsLastAcknowledged` says exactly when); for clients that wait for each answer,
  read-your-writes holds (`ClusterGuarantees.ReadYourWrites`).
- The quorum is half the cluster rounded up, a strict majority exactly for odd sizes
  (`Cluster.QuorumIsMajority`).
- The counter of the root also counts keys without any component, which a listing leaves out; for every
  other canonical prefix the two agree (`Rollups.CountedIsListed`).

## Model

| member | source | states |
|---|---|---|
| Gf.OrderIs255 | crates/shardvault-ec/src/gf.rs:15-33 | doubling first returns to its start after exactly 255 steps |
| Gf.ExpInjective | crates/shardvault-ec/src/gf.rs:15-33 | the first 255 powers of 2 are pairwise different |
| Gf.ExpSurjective | crates/shardvault-ec/src/gf.rs:15-33 | every nonzero element is one of those powers, so the log table is total on nonzero elements |
| Gf.MulByLogs | crates/shardvault-ec/src/gf.rs:43-49 | adding logarithms is carry-less multiplication modulo 0x11D, for all nonzero operands |
| Gf.MulCommutes | crates/shardvault-ec/src/gf.rs:43-49 | multiplication commutes |
| Gf.MulAssociates | crates/shardvault-ec/src/gf.rs:43-49 | multiplication is associative |
| Gf.MulAddLeft | crates/shardvault-ec/src/gf.rs:39-49 | multiplication distributes over addition in the left factor |
| Gf.MulAddRight | crates/shardvault-ec/src/gf.rs:39-49 | multiplication distributes over addition in the right factor |
| Gf.MulInverse | crates/shardvault-ec/src/gf.rs:51-57 | every nonzero element times its inverse is 1 |
| FieldProduct.MulReduces | crates/shardvault-ec/src/gf.rs:15-33 | the field product differs from the product of the polynomials by a multiple of x^8 + x^4 + x^3 + x^2 + 1, and has degree below 8 |
| Gf.Tables.constructor | crates/shardvault-ec/src/gf.rs:15-33 | the loops fill the exponent table with two periods of powers and the log table with their inverse |
| Gf.Tables.Multiply | crates/shardvault-ec/src/gf.rs:43-49 | the table lookup is the field product, zero operands included |
| Gf.Tables.Inverse | crates/shardvault-ec/src/gf.rs:51-57 | the table lookup is the field inverse, and zero for zero |
| Gf.Tables.Divide | crates/shardvault-ec/src/gf.rs:59-61 | division is the product with the inverse |
| Linear.EliminationInverts | crates/shardvault-ec/src/matrix.rs:61-117 | if row steps took [A given I] to [I given B] without changing the kernel, then A*B = B*A = I |
| Linear.NoPivotDependency | crates/shardvault-ec/src/matrix.rs:73-81 | a column without a pivot yields a nonzero kernel vector of A |
| Linear.InverseTrivialKernel | crates/shardvault-ec/src/matrix.rs:61-117 | a matrix with an inverse has only the trivial kernel |
| Linear.InverseUnique | crates/shardvault-ec/src/matrix.rs:61-117 | there is at most one inverse |
| Matrices.Matrix.NewIdentity | crates/shardvault-ec/src/matrix.rs:22-28 | ones on the diagonal, zeros elsewhere |
| Matrices.Matrix.Multiply | crates/shardvault-ec/src/matrix.rs:46-59 | the nested loops compute the matrix product |
| Matrices.Matrix.FindPivot | crates/shardvault-ec/src/matrix.rs:74-81 | the first row at or below the diagonal with a nonzero entry, or proof that there is none |
| Matrices.Matrix.ClearColumn | crates/shardvault-ec/src/matrix.rs:93-108 | the column becomes a unit column and the kernel of the augmented matrix stays the same |
| Matrices.Matrix.Invert | crates/shardvault-ec/src/matrix.rs:61-117 | returns B with A*B = B*A = I exactly if A has only the trivial kernel, and none exactly otherwise |
| Vandermonde.FewRoots | crates/shardvault-ec/src/matrix.rs:119-149 | a polynomial with k coefficients and k distinct roots is zero |
| Vandermonde.FullRowsIndependent | crates/shardvault-ec/src/matrix.rs:127-138 | any k distinct rows of the Vandermonde matrix have only the trivial kernel |
| Vandermonde.SystematicTop | crates/shardvault-ec/src/matrix.rs:139-149 | the top k rows of the systematic matrix are the identity |
| Vandermonde.SystematicRowsIndependent | crates/shardvault-ec/src/matrix.rs:139-149 | any k distinct rows of the systematic matrix have only the trivial kernel, for every k + m <= 255 |
| Vandermonde.SystematicUnique | crates/shardvault-ec/src/matrix.rs:139-149 | V * T^-1 determines the systematic matrix |
| Vandermonde.SystematicEvaluates | crates/shardvault-ec/src/matrix.rs:127-149 | applied to the values of a polynomial at the first k points, row i of the matrix gives its value at point i |
| Vandermonde.Interpolates | crates/shardvault-ec/src/matrix.rs:127-149 | any k values are those of a polynomial with k coefficients |
| Vandermonde.NewSystematic | crates/shardvault-ec/src/matrix.rs:127-149 | the code builds V * T^-1 over the points 1 to k + m; the inversion it expects to succeed always does |
| ReedSolomonCode.DataPassesThrough | crates/shardvault-ec/src/rs.rs:69-88 | the first k code shards are the data shards |
| ReedSolomonCode.DataDetermined | crates/shardvault-ec/src/rs.rs:90-140 | any k code shards determine the data |
| ReedSolomonCode.CodeIsPolynomial | crates/shardvault-ec/src/rs.rs:69-88 | at each position, shard i is the value at i + 1 of every polynomial that has the data bytes as its values at 1 to k |
| ReedSolomonCode.RefusedExactly | crates/shardvault-ec/src/rs.rs:90-105 | too few shards are reported exactly if more than m are missing, and shards of equal length are otherwise accepted |
| ReedSolomonCode.ReconstructionExact | crates/shardvault-ec/src/rs.rs:90-140 | if the survivors are code shards of some data, filling restores all k + m code shards of that data |
| ReedSolomonCode.ReedSolomon.constructor | crates/shardvault-ec/src/rs.rs:33-53 | the matrix is systematic and every parity coefficient has its multiplication table |
| ReedSolomonCode.ReedSolomon.Encode | crates/shardvault-ec/src/rs.rs:69-88 | the table loops compute the parity: at each position there is a polynomial through the data at the points 1 to k, and parity shard j is its value at k + j + 1 |
| ReedSolomonCode.ReedSolomon.Reconstruct | crates/shardvault-ec/src/rs.rs:90-140 | too few or unequal survivors are refused with the right error and nothing changed; else every missing slot gets the code shard the survivors determine, and the singular case never happens |
| Stripe.PayloadsOfFile | crates/shardvault-core/src/stripe.rs:32-78 | a shard written as blocks reads back, for every length |
| Stripe.MissingExactly | crates/shardvault-core/src/stripe.rs:50-78 | a shard counts as missing exactly if its file is missing, torn, empty, or has a block that does not decode |
| Stripe.ShardFileBytes | crates/shardvault-core/src/stripe.rs:32-48 | block j of a shard file has the bytes from 4072 * j on, j as its LSN, and no flags |
| Stripe.DataShardBytes | crates/shardvault-core/src/stripe.rs:93-116 | each byte of each data shard: the length in eight bytes before the first, zeros behind the others, padding with zeros |
| Stripe.ShardLength | crates/shardvault-core/src/stripe.rs:95-95 | the smallest length with which k shards hold the data |
| Stripe.JoinedIsData | crates/shardvault-core/src/stripe.rs:93-124 | the pieces laid end to end begin with the data |
| Stripe.ReassembleDataShards | crates/shardvault-core/src/stripe.rs:155-179 | length prefix, padding and truncation cancel: data shards reassemble to the data, the empty one included |
| Stripe.WrittenReadsIntact | crates/shardvault-core/src/stripe.rs:32-78 | files as written, apart from lost or undecodable ones, read as shards of the stored data |
| Stripe.StripeSurvives | crates/shardvault-core/src/stripe.rs:140-179 | with k intact shards left, the rebuilt data shards are the stored ones |
| Stripe.StripeIo.Write | crates/shardvault-core/src/stripe.rs:93-124 | every node gets its shard's blocks; other stripes and nodes are untouched |
| Stripe.StripeIo.Read | crates/shardvault-core/src/stripe.rs:140-179 | returns the stored bytes whenever at most m shard files are missing or damaged, and nothing when more are |
| Crc32c.StepsXor | csrc/block.c:21-46 | the register update is linear over exclusive or |
| Crc32c.StepsInjective | csrc/block.c:21-46 | the register update is injective in the state |
| Crc32c.UpdateConcat | csrc/block.c:48-71 | the checksum of a concatenation is the checksum of the parts in turn |
| Crc32c.UpdateEight | csrc/block.c:48-66 | eight bytes at once are the sum of eight single-byte contributions |
| Crc32c.SliceStep | csrc/block.c:50-66 | eight table lookups advance the register by eight bytes |
| Crc32c.BurstDetected | csrc/block.c:48-71 | two streams that differ in at most four consecutive bytes have different checksums |
| Crc32cReference.RegisterIsRemainder | csrc/block.c:48-71 | read backwards, the register after any message is the remainder of its division by 0x1_1EDC_6F41, each byte lowest bit first |
| Crc32cReference.CrcIsRemainder | csrc/block.c:73-76 | the checksum of any message: all ones in, the remainder complemented out |
| Crc32cReference.ReverseBit | csrc/block.c:31-33 | bit i of a register read backwards is bit 31 - i |
| Crc32cReference.DigitsValue | csrc/block.c:73-76 | the digits 1 to 9 give 0xE3069283 |
| Crc32cReference.ZerosValue | csrc/block.c:73-76 | thirty-two zero bytes give 0x8A9136AA, as in RFC 3720 |
| Crc32c.Tables.constructor | csrc/block.c:21-46 | table t, entry b is byte b advanced by t + 1 bytes |
| Crc32c.Tables.Run | csrc/block.c:48-71 | the slicing loop with its byte tail is the bitwise definition, for every buffer and register |
| Block.ChecksumIsCrc | csrc/block.c:106-115 | the four-piece checksum is one CRC over the header with a zero checksum field, then the payload |
| Block.DecodeEncoded | csrc/block.c:117-157 | decoding an encoded block returns its LSN, flags and payload |
| Block.BurstReported | csrc/block.c:138-157 | any change of at most four consecutive bytes in the LSN, the checksum field, bytes 16 to 23 or the payload is a checksum error |
| Block.ByteDamageNoticed | csrc/block.c:138-157 | outside the length field a damaged byte is noticed exactly if it lies before the end of the payload |
| Block.UndetectedFlip | csrc/block.c:138-157 | a block whose last bit can flip without being noticed |
| BlockCodec.Encode | csrc/block.c:117-136 | the buffer becomes the encoded block; a payload that is too long is refused |
| BlockCodec.Decode | csrc/block.c:138-157 | the decoded block, or which check failed |
| Format.BlockBytes | csrc/block.c:117-136 | every byte of an encoded block: LSN at 0, length at 8, checksum at 12, flags at 16, payload at 24, zeros elsewhere |
| Format.BlockDecodes | csrc/block.c:138-157 | what any block decodes to, from the numbers in its header: a length above 4072, then a wrong CRC-32C, are errors |
| Format.PutBytes | crates/shardvault-core/src/wal.rs:87-101 | the tag and the offset and width of each field of a put |
| Format.FixedBytes | crates/shardvault-core/src/wal.rs:102-133 | the tag and fields of commits, seals and swaps |
| Format.AggDeltaBytes | crates/shardvault-core/src/wal.rs:114-125 | the tag, the count and the place and fields of each delta |
| Format.RemapBytes | crates/shardvault-core/src/wal.rs:134-150 | the tag, the target, the count and the place and fields of each entry |
| Format.LogFileBytes | crates/shardvault-core/src/wal.rs:299-311 | block i of the log file has record i, its LSN, and the tag as flags |
| Records.RecordRoundTrip | crates/shardvault-core/src/wal.rs:87-259 | every record that can be encoded decodes to itself |
| Records.DecodesExactly | crates/shardvault-core/src/wal.rs:184-259 | a payload decodes to a record with some bytes left if and only if it is the encoding of that record, valid, followed by them |
| RecordCodec.EncodeRecord | crates/shardvault-core/src/wal.rs:87-156 | the bytes of the record, or a refusal exactly if some length does not fit its field or the block |
| RecordCodec.Decode | crates/shardvault-core/src/wal.rs:184-259 | the cursor that reads each field of each kind of record decodes what the format says, and fails exactly where it does |
| RecordCodec.ChunkProgress | crates/shardvault-core/src/segment.rs:594-616 | the chunk loop advances exactly if the next key has at most 4039 bytes |
| RecordCodec.ChunkEncodable | crates/shardvault-core/src/segment.rs:596-611 | every chunk fits one block |
| RecordCodec.ChunkMaximal | crates/shardvault-core/src/segment.rs:596-611 | with one more entry a chunk would not fit |
| RecordCodec.ChunkEntries | crates/shardvault-core/src/segment.rs:594-616 | the chunks are nonempty, fit, concatenate to the entries in order, and each but the last is as full as it can be |
| Wal.ScanAfter | crates/shardvault-core/src/wal.rs:361-394 | records written after a valid part are scanned back with their LSNs, up to the damage |
| Wal.ScanTorn | crates/shardvault-core/src/wal.rs:361-394 | a write cut short anywhere leaves exactly its whole blocks |
| Wal.ScanCut | crates/shardvault-core/src/wal.rs:342-357 | cutting after n blocks leaves the first n records |
| Wal.HighWaterIs | crates/shardvault-core/src/wal.rs:342-357 | the LSN a log continues above is that of its last record or the one its last Commit names, whichever is larger |
| Wal.Wal.Open | crates/shardvault-core/src/wal.rs:272-289 | keeps the file up to the last Commit, for every file, and continues above the last LSN scanned |
| Wal.Wal.AppendAt | crates/shardvault-core/src/wal.rs:299-311 | the block of the record, its tag as flags, goes to the buffer, also at an LSN below the next one, which never falls; or a refusal of a record that does not fit, with nothing changed; a log that rises goes on rising if the LSN is above it |
| Wal.Wal.Append | crates/shardvault-core/src/wal.rs:291-297 | as AppendAt, at the next LSN |
| Wal.Wal.Sync | crates/shardvault-core/src/wal.rs:314-324 | the buffer goes to the end of the file, which then scans to the whole log |
| LogModel.OnSound | crates/shardvault-core/src/segment.rs:415-463 | in every legal log the index points to located puts, puts lie within the lengths of current segments, and ids stay below the bound |
| Recovery.PutCommutes | crates/shardvault-core/src/segment.rs:965-975 | a compaction commutes with a later put |
| Recovery.SealCommutes | crates/shardvault-core/src/segment.rs:976-984 | a compaction commutes with a later seal |
| Recovery.ReplayIsLive | crates/shardvault-core/src/segment.rs:959-1032 | recovering a whole committed log gives the layout of the live run, chained compactions included |
| Recovery.ReplacedNotCurrent | crates/shardvault-core/src/segment.rs:1067-1069 | recovery deletes no current segment |
| Disk.SafeCrash | crates/shardvault-core/src/segment.rs:1034-1066 | whatever a crash makes of unsynced bytes, a safe disk stays safe |
| Disk.RepairSafe | crates/shardvault-core/src/segment.rs:1055-1077 | each step of an interrupted recovery leaves a disk the next one can use |
| Disk.SafeIsRecoverable | crates/shardvault-core/src/segment.rs:1047-1064 | on a safe disk neither recovery error occurs |
| Disk.IndexIsLastPut | crates/shardvault-core/src/segment.rs:632-648 | through all compactions the index names the last put of every key |
| Disk.GetIsLastPut | crates/shardvault-core/src/segment.rs:851-861 | reads return the bytes of the last put |
| Leader.StagePutKeeps | crates/shardvault-core/src/segment.rs:415-463 | staging a put keeps the invariant of the store |
| Leader.WriteValueKeeps | crates/shardvault-core/src/segment.rs:267-284 | a value written past the end of the open segment, put or refused, keeps the invariant and every layout a crash may bring back |
| Leader.LogPutBreaks | crates/shardvault-core/src/segment.rs:435-441 | a put that is logged and not remembered breaks it |
| Leader.CommitKeeps | crates/shardvault-core/src/segment.rs:821-837 | a commit keeps the invariant and acknowledges everything logged |
| Leader.CompactStageKeeps | crates/shardvault-core/src/segment.rs:519-616 | staging a compaction keeps the invariant: old and new files serve both the layout before and the one after |
| Leader.CompactCommitKeeps | crates/shardvault-core/src/segment.rs:632-659 | once the covering Commit is durable, removing the old file keeps the invariant |
| CrashSafety.ReopenKeeps | crates/shardvault-core/src/segment.rs:366-396 | after a crash at any point the reopened store satisfies the invariant, with ids and LSNs above everything found |
| Runs.StepKeeps | crates/shardvault-core/src/segment.rs:415-463 | every step of puts, refused puts, commits, compactions, crashes and reopenings keeps the invariant, and no compaction reads short |
| Guarantees.CrashConsistency | crates/shardvault-core/src/segment.rs:959-1079 | in every run, after a crash at any step and any interruptions of recovery, the store opens, has all that was acknowledged, and serves for each key the last put before the last surviving Commit |
| Guarantees.AcknowledgedPutSurvives | crates/shardvault-core/src/segment.rs:821-837 | a put whose commit returned is served, or a later put of its key |
| Guarantees.WalSurvives | crates/shardvault-core/src/wal.rs:342-394 | the bytes a crash leaves scan to a prefix no shorter than the fsynced one, and cutting them after the last Commit leaves the surviving log |
| Guarantees.SnapshotIsolation | crates/shardvault-core/src/segment.rs:168-179 | every published snapshot keeps returning the same bytes for each key under every later step of the writer, and never fails |
| Guarantees.CommitPublishesLastPuts | crates/shardvault-core/src/segment.rs:407-409 | the snapshot published by a commit serves the last put of every key |
| Guarantees.PublishesLastPuts | crates/shardvault-core/src/segment.rs:632-659 | so does every snapshot published by a compaction or a recovery, from files that are there |
| Guarantees.IdsAreFresh | crates/shardvault-core/src/segment.rs:286-300 | the next id names no file, no segment of the log and no open handle, also after recoveries that found orphans |
| Guarantees.PutsAboveHorizonReadable | crates/shardvault-core/src/segment.rs:509-517 | every acknowledged put above all horizons used so far is readable with its original bytes |
| Guarantees.PutsDoNotOverlap | crates/shardvault-core/src/segment.rs:444-452 | locations in the open segment are disjoint and end at or below its offset |
| Packing.StagedFields | crates/shardvault-core/src/segment.rs:415-463 | the records a put adds, where its value goes, and what is open afterwards, from offset, size and limit |
| Packing.SegmentsArePacked | crates/shardvault-core/src/segment.rs:422-458 | in every run of puts, commits and compactions under one limit, a segment is sealed only if the next value did not fit or its single value exceeds the limit, and none has more than the limit but for a single value |
| Reclaiming.ReclaimsExactly | crates/shardvault-core/src/segment.rs:478-498 | a segment is worth rewriting exactly if its puts that are not current and not above the horizon have bytes |
| Reclaiming.CompactionReclaims | crates/shardvault-core/src/segment.rs:503-659 | a compaction removes the old file, forgets exactly those puts, and makes the new file shorter by exactly their bytes; every other file stays |
| Rollups.PartsOfJoin | crates/shardvault-core/src/rollup.rs:24-38 | splitting a joined list of components gives the list back |
| Rollups.PartsAtSlash | crates/shardvault-core/src/rollup.rs:24-38 | every text is cut into components at each byte 0x2F, and empty ones do not count |
| Rollups.PartsPlain | crates/shardvault-core/src/rollup.rs:24-38 | a text without that byte is one component |
| Rollups.PrefixesDeeper | crates/shardvault-core/src/rollup.rs:24-38 | the prefixes of p/c are those of p, and p |
| Rollups.PrefixesOfTwo | crates/shardvault-core/src/rollup.rs:24-38 | the prefixes of a/b are the root and a |
| Rollups.PrefixMembers | crates/shardvault-core/src/rollup.rs:24-38 | a text is among the prefixes of a key exactly if it is canonical and a proper prefix, or both are the root |
| Rollups.PrefixesOf | crates/shardvault-core/src/rollup.rs:24-38 | the loop lists the root and every proper prefix, all canonical; with PrefixesDeeper, as the byte 0x2F separates components |
| Rollups.RecordedAccurate | crates/shardvault-core/src/rollup.rs:49-60 | every put, new or overwriting, keeps every counter equal to a recount modulo 2^64 |
| Rollups.Rollup.Record | crates/shardvault-core/src/rollup.rs:49-60 | the loop over the prefixes makes that change in place; PutCountsUnder says what it is for each prefix |
| Rollups.PutCountsUnder | crates/shardvault-core/src/rollup.rs:49-60 | a put of p/rest adds one object and its bytes to p, or the change of its size if the key is known, modulo 2^64 |
| Rollups.PutListedUnder | crates/shardvault-core/src/segment.rs:940-955 | and is listed under p exactly if committed |
| Rollups.Rollup.Deltas | crates/shardvault-core/src/rollup.rs:64-77 | the deltas are the change the put makes to every counter |
| Rollups.Rollup.Get | crates/shardvault-core/src/rollup.rs:79-81 | the counter of a prefix, as a recount |
| Rollups.LoggedDeltasAddUp | crates/shardvault-core/src/segment.rs:438-442 | the logged deltas add up, modulo 2^64, to the counters recovery rebuilds from puts |
| Rollups.CountedIsListed | crates/shardvault-core/src/segment.rs:940-955 | the counter of a canonical prefix covers exactly the listed keys, unless it is the root and a key has no component |
| Rollups.OtherFormsAreEmpty | crates/shardvault-core/src/rollup.rs:79-81 | a prefix not in canonical form has empty counters |
| Rollups.RollupIsRecount | crates/shardvault-core/src/segment.rs:1004-1004 | in every legal log, through overwrites and compactions, the counters are the count and byte sum of the listed keys modulo 2^64, if the given commit LSN covers every indexed put |
| Rollups.CommitCoversIndex | crates/shardvault-core/src/segment.rs:821-837 | the LSN a commit passes, that of the last record before it, covers every indexed put |
| Rollups.PublishedRollupIsRecount | crates/shardvault-core/src/segment.rs:821-837 | so the counters a commit publishes are those of the keys it lists |
| Rollups.UncompactableKey | crates/shardvault-core/src/segment.rs:594-616 | every slash-free key of 4040 to 4057 bytes can be put with its own deltas, and the chunk loop never gets past it |
| SegmentStore.Repoint | crates/shardvault-core/src/segment.rs:1012-1026 | the entry loop shared by compaction, follower swaps and recovery moves exactly the keys whose current put moved |
| SegmentStore.Replay.Take | crates/shardvault-core/src/segment.rs:963-1006 | one record of the first pass of recovery |
| SegmentStore.Replay.Run | crates/shardvault-core/src/segment.rs:959-1032 | the two passes of recovery compute the recovered layout, the counters and the replaced segments |
| SegmentStore.RepairFiles | crates/shardvault-core/src/segment.rs:1034-1077 | for every directory, layout and list of replaced ids: fails exactly if a needed segment is missing or too short, else cuts, deletes and creates as the log says |
| SegmentStore.RebuiltIsRepaired | crates/shardvault-core/src/segment.rs:1055-1077 | if only segments without current puts were replaced, no file of a current segment is lost |
| SegmentStore.RebuiltLengths | crates/shardvault-core/src/segment.rs:1055-1077 | after a recovery each file has the length the log gives it and begins as it did; replaced and unknown ones are empty |
| SegmentStore.FirstFreeId | crates/shardvault-core/src/segment.rs:1070-1074 | one more than the largest id in the log or on disk |
| StoreObject.Inner.SealActive | crates/shardvault-core/src/segment.rs:286-300 | the object makes the seal step of the state machine |
| StoreObject.Inner.StagePut | crates/shardvault-core/src/segment.rs:415-463 | succeeds exactly if the value, the put record and the delta record fit, and then says how many records are logged, where the value is and what is open, from the old offset and the limit; a value or key that is too long is refused and the store stays valid; deltas that are too long are refused after the put was logged, and exactly then the store is not valid |
| StoreObject.Inner.Commit | crates/shardvault-core/src/segment.rs:821-837 | makes the commit steps in order, or nothing if nothing is staged |
| StoreObject.Inner.Choose | crates/shardvault-core/src/segment.rs:478-501 | the first sealed segment with reclaimable bytes, or none exactly if there is none |
| StoreObject.Inner.KeepList | crates/shardvault-core/src/segment.rs:503-517 | exactly the live puts and those above the horizon, once each, by offset |
| StoreObject.CopyKept | crates/shardvault-core/src/segment.rs:535-565 | the kept values end to end with entries to match; fails exactly on a short read |
| StoreObject.Inner.CompactStage | crates/shardvault-core/src/segment.rs:476-627 | rewrites the first eligible segment; the plan satisfies what the state machine asks of a compaction, and the object makes that step |
| StoreObject.Inner.CompactCommit | crates/shardvault-core/src/segment.rs:632-659 | makes the finishing step, keeping the invariant |
| StoreObject.Inner.Recover | crates/shardvault-core/src/segment.rs:959-1079 | for every list of records and every directory: fails exactly if a segment the log needs is missing or too short, else has the recovered layout, counters, files and first free id; on what a crash leaves of a store, it is the reopened store of the state machine |
| Refusal.TooManyComponents | crates/shardvault-core/src/rollup.rs:64-77 | a key with 227 components has deltas that fit no record, whatever was counted before |
| Refusal.RefusedDeltasStrand | crates/shardvault-core/src/segment.rs:427-443 | on a store whose open file ends where the next put goes: after such a put, another one and a commit, the store opens again exactly if one of the two values is empty |
| Refusal.AcknowledgedThenStranded | crates/shardvault-core/src/segment.rs:427-443 | on the empty store: a put is refused, the next is acknowledged, and the store does not open again |
| Follower.ApplyPutKeeps | crates/shardvault-core/src/segment.rs:674-695 | a put applied on a follower keeps its invariant, with a compaction still pending or not |
| Follower.ApplySwapKeeps | crates/shardvault-core/src/segment.rs:718-741 | starting a compaction finalizes the pending one and keeps the content whatever is unsynced; the follower stays secure if no Commit needs more of the replaced segment than is fsynced |
| Follower.ApplyRemapKeeps | crates/shardvault-core/src/segment.rs:742-788 | no remap of the leader is refused, and the rebuilt file has the values of all its entries |
| Follower.FinalizeKeeps | crates/shardvault-core/src/segment.rs:313-343 | finalizing changes nothing a crash could need |
| Follower.RefusesExactly | crates/shardvault-core/src/segment.rs:674-788 | a follower refuses exactly puts without a value of their length, seals of a segment that is not open, and remaps without their swap or with an entry it cannot copy |
| FollowerRuns.CoveredIsGone | crates/shardvault-core/src/segment.rs:347-358 | a segment whose swap is at or below the last Commit is not current, then or ever after |
| FollowerRuns.NodeKept | crates/shardvault-core/src/segment.rs:807-816 | every step of records, barriers and survived crashes keeps the follower's invariant, and no handle's bytes change; a prudent step keeps it secure |
| FollowerGuarantees.RecordsNeverRefused | crates/shardvault-core/src/segment.rs:665-797 | in every reachable state, with or without barriers between puts and compactions, the next record of the leader is accepted |
| FollowerGuarantees.DurablePrefixOnDisk | crates/shardvault-core/src/segment.rs:807-816 | after every prudent run, each segment of the durable committed log is on disk at its full fsynced length, with every put in place |
| FollowerGuarantees.FollowerCrashSafety | crates/shardvault-core/src/segment.rs:313-358 | after a crash at any step of a prudent run the follower opens again and serves a prefix of the leader's log no shorter than the durable committed one |
| FollowerGuarantees.DeletedOnlyWhenCovered | crates/shardvault-core/src/segment.rs:347-358 | a file disappears only after a durable Commit covers the swap that replaced it |
| FollowerGuarantees.FollowerSimulates | crates/shardvault-core/src/segment.rs:661-797 | in every run, once a closed log is applied and finalized the follower has the leader's index, offsets, sealed segments and counters, and every current put's place and bytes |
| FollowerGuarantees.FollowerSnapshotIsolation | crates/shardvault-core/src/segment.rs:313-358 | the snapshot a barrier publishes serves the last put of every key, and goes on doing so through every later record, swap and deletion |
| FollowerGuarantees.BarrierExactly | crates/shardvault-core/src/segment.rs:313-343 | with a compaction pending on a reachable follower, every crash while the barrier writes the log is survived if and only if no Commit it may cut back to needs more of the replaced segment than is fsynced |
| FollowerGuarantees.PrudenceIsExact | crates/shardvault-core/src/segment.rs:718-741 | the barrier after starting a compaction survives every crash if and only if the start was prudent |
| FollowerGuarantees.BarrierRestores | crates/shardvault-core/src/segment.rs:807-816 | a completed barrier on a closed log makes the follower secure again, prudent or not |
| MissingBarrier.MissingBarrierLoses | crates/shardvault-core/src/segment.rs:718-797 | a reachable follower, its first put and Commit durable, that applies a put and the compaction of its segment without a barrier, and a crash after which it does not open |
| FollowerObject.Store.Finalize | crates/shardvault-core/src/segment.rs:313-343 | the object makes the finalizing step |
| FollowerObject.Store.ApplyRecord | crates/shardvault-core/src/segment.rs:665-797 | accepts exactly the records the model accepts, with the same new state; a refused remap is already logged and leaves the compaction as far as it got or drops it, depending on the entry; every other refusal changes nothing |
| FollowerObject.Store.RemoveCovered | crates/shardvault-core/src/segment.rs:347-358 | the loop deletes exactly the listed segments whose swap the last Commit covers, keeps every other file, and keeps the others listed |
| FollowerObject.Store.SyncAllSteps | crates/shardvault-core/src/segment.rs:807-816 | the object goes through a barrier step by step; afterwards exactly the covered segments are gone, and all else is as it was |
| FollowerObject.BarrierKeeps | crates/shardvault-core/src/segment.rs:807-816 | after a barrier everything applied is durable and no compaction is pending; content and security are kept |
| FollowerObject.BarrierFiles | crates/shardvault-core/src/segment.rs:807-816 | which files a barrier leaves, with which bytes, and which are fsynced |
| FollowerCleanup.BarrierIsRun | crates/shardvault-core/src/segment.rs:807-816 | the barrier in one go is what its steps, one after the other, come to |
| FollowerCleanup.BarrierFreesReplaced | crates/shardvault-core/src/segment.rs:313-358 | after every barrier of every run, each segment replaced by a compaction that the last Commit covers is deleted or empty |
| Link.RequestedIs | crates/shardvault-node/src/node.rs:250-254 | the filter by LSN selects the records from the follower's end up to the commit position |
| Link.BackfillCompletes | crates/shardvault-node/src/node.rs:241-284 | the new queue is those records and the live ones above; processed, it gives the leader's log exactly if nothing above had been taken |
| Link.FinishKeeps | crates/shardvault-node/src/node.rs:268-284 | the end of a backfill keeps the link's invariant, whatever had been taken |
| Link.PrefixExactly | crates/shardvault-node/src/node.rs:558-569 | a follower's log is a prefix of the leader's exactly if no backfill skipped a record at or below its last one |
| Link.ReceiveKeeps | crates/shardvault-node/src/node.rs:558-585 | receiving a frame keeps the link's invariant, repetitions skipped |
| Link.AckKeeps | crates/shardvault-node/src/node.rs:380-387 | an acknowledgement keeps it; the match index becomes the larger of both, the committed point never falls, and becomes the commit index if that is acknowledged |
| Link.RestartKeeps | crates/shardvault-node/src/node.rs:547-557 | a restart keeps it |
| Link.EnqueueKeeps | crates/shardvault-node/src/node.rs:124-142 | sending a batch keeps it, also when a backfill already brought the Commit |
| Scenarios.SkippedPutIsCommitted | crates/shardvault-node/src/node.rs:241-284 | a run of three nodes that is about to commit a put that no follower has or had when it acknowledged, and a follower whose log is no prefix |
| Scenarios.AcknowledgedKeyReadsAbsent | crates/shardvault-node/src/node.rs:424-428 | a run in which a key with an acknowledged put reads as absent while its second put is being committed |
| Cluster.QuorumIsMajority | crates/shardvault-node/src/node.rs:99-99 | the quorum is a strict majority exactly for odd sizes |
| Cluster.QuorumIsHalf | crates/shardvault-node/src/node.rs:99-99 | it is the smallest number that is at least half |
| Cluster.HorizonExactly | crates/shardvault-node/src/node.rs:168-178 | the horizon is the commit index of a leader alone, else the lowest committed point of a follower |
| Cluster.StepKeeps | crates/shardvault-node/src/node.rs:144-207 | every interleaved step of the cluster keeps its invariant |
| ClusterGuarantees.QuorumBeforeCommit | crates/shardvault-node/src/node.rs:144-166 | when the leader appends a Commit, in every run, it has fsynced the whole log and a quorum has acknowledged it; any part of the log was fsynced by a quorum exactly if enough of the acknowledging followers skipped nothing of it in a backfill; a strict majority for odd sizes |
| ClusterGuarantees.HolderExactly | crates/shardvault-node/src/node.rs:380-387 | a follower had fsynced every record of a part of the log when it acknowledged it, exactly if none of them had been skipped |
| ClusterGuarantees.CommitIndexRises | crates/shardvault-node/src/node.rs:162-162 | the commit index never falls |
| ClusterGuarantees.ReadIsLastAcknowledged | crates/shardvault-node/src/node.rs:424-428 | a read returns the last acknowledged put of the key, or nothing exactly if there is none or it is above the commit index |
| ClusterGuarantees.ReadYourWrites | crates/shardvault-node/src/node.rs:424-428 | with no put half-committed, a read after an acknowledged put returns its bytes or those of a later put |
| ClusterGuarantees.HorizonBelowFollowers | crates/shardvault-node/src/node.rs:168-178 | no compaction used a horizon above any follower's durable last commit block |
| ClusterGuarantees.FollowersHavePrefixes | crates/shardvault-node/src/node.rs:558-569 | every follower's log is the leader's up to some position, less what its backfills skipped; it is a prefix exactly if they skipped nothing at or below its last record |
| ClusterGuarantees.UntakenFollower | crates/shardvault-node/src/node.rs:241-284 | if no backfill of the follower ended after a live record was taken, its log is a prefix and it had in full what it acknowledged |
| ClusterGuarantees.BackfillFindsValues | crates/shardvault-node/src/node.rs:255-267 | every put a backfill selects is readable on the leader with its original bytes |
| ClusterGuarantees.BackfillIsComplete | crates/shardvault-node/src/node.rs:268-284 | a backfill can always end; the queue it leaves rises in LSN, covers the gap up to the commit position and then the live records, and completes the log exactly if none had been taken |
| Replication.LeaderStreams | crates/shardvault-node/src/node.rs:124-142 | what the leader has logged is legal, and it has the bytes of every put in it |
| Replication.FollowerOfCluster | crates/shardvault-node/src/node.rs:558-585 | a follower of the cluster that skipped nothing refuses no record, and once caught up has the leader's memory, counters and bytes |
| Frames.FramesCarryValues | crates/shardvault-node/src/node.rs:124-142 | in every run, each record queued or on its way is of the leader's log, and each put has its own bytes with it, live or backfilled |
| Replication.CommittedRollupIsRecount | crates/shardvault-node/src/node.rs:157-161 | the counters every commit of the leader publishes are those of the keys listed |

## Left out

- TCP sessions, threads, condition variables, timeouts and bincode framing: frames are a datatype, sessions are lossless and in order until a restart.
- Command lines, JSON output, the Python harness, benches and reports.
- FFI safety and one-time table initialisation: tables are built before use.
- Short reads and writes and I/O errors: reads and writes are whole and succeed.
- Create, rename, remove and set_len are atomic and durable, since the code never fsyncs a directory; temporary files are invisible to recovery, which removes them.
- UTF-8 validation is a predicate given to the codec; keys are byte sequences.
- The flush when a store is dropped, a leader restart during replication, reconnecting without a follower restart, aborted compactions and concurrent puts.
- Damage to the length field of a block.
- LSNs and segment ids stay below 2^64; file names with more than eight digits are not modelled.
- DESIGN.md says LSNs are never reused; only what holds is stated, that a reopened log continues above every LSN scanned at that opening.
- The order of keys in a listing and the iteration order of hash maps: a listing is a set, and loops over maps take elements in any order.
- The lock-free publication of snapshots: publishing is one step.
- ReedSolomonCode.ReedSolomon.Reconstruct: requires that the shard array is not the matrix's byte array, which the types rule out in the source.
- RecordCodec.ChunkEntries: requires keys of at most 4039 bytes, because on longer ones the loop does not end.
- Cluster: a put whose quorum is lost stays in the log and is committed with the next put, as in the source; the error reply is not modelled.
- StoreObject.Inner.CompactStage: requires that the keys it keeps have at most 4039 bytes, so that the chunk loop ends, and fewer than 2^32 located puts, so that offsets fit their field.
- StoreObject.Inner.StagePut: requires room below 2^64 for the LSNs and ids of one put.
- FollowerRuns.NodeKept: a crash is a step only where the disk survives it; after the crash of FollowerGuarantees.BarrierExactly there is no follower to go on with.
- What a crash leaves counts as durable. The code never fsyncs what recovery read, so a process that is killed, recovers, deletes a replaced segment and then loses power is not covered.
- Cluster: puts that the leader's store refuses are covered if the open segment is not sealed before the refusal. If it is, the source never sends the seal record to followers; that is not modelled.
