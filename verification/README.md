# Storage, migration, cipher and bitmap code of DECAF, verified

DECAF is a whole-system analysis platform built on QEMU. This project models the parts of
its `decaf/` tree whose correctness is not visible from any one function, and proves what
they are for:

- **Live migration.** A running guest's disks and memory are copied while the guest keeps
  changing them. `BlockProtocol` is the block protocol as a state machine over guest writes,
  reads in flight, completions, sends and loads; `BlockMigration` is the code that drives it,
  proved to take only steps of the machine, with `BlockHistory` the record of all that
  happens; `BlockRecords` the records of the stream, `BlockStream` the receiving side, and
  `BlockRun` a whole migration from set-up to the loaded stream; `BlockHazards` two runs in
  which the code loses data. `RamStream` is the byte format of RAM pages and its decoder,
  `RamMigration` the sending side with its ring scan, `RamRun` a whole migration.
- **Block layer.** `DirtyBitmap` and `AioBitmap` (dirty chunks and reads in flight),
  `IoVector`, `WriteMerge`, `MergeRequests` and `MergeLoss` (merging write requests),
  `Multiwrite` (the completion counter), `ByteIo` (bytes over sectors), `Commit` (an overlay into its backing
  image).
- **AES** per FIPS 197: `Gf256` and `AesSpec` (the standard), `AesTables` (the ten tables),
  `AesColumns` (look-ups are rounds), `IteratedCipher` (the equivalent inverse cipher, for
  any layers), `KeySchedule` and `CipherRounds` (the loops, for any words), `Aes` (keys and
  blocks), `AesAnswers` (known answers of the standard), `Cbc` and `AesCbc` (chaining).
- **Bitmaps.** `Words` (64-bit words and their searches), `Bitmap` (scans and fills),
  `ZeroArea` (aligned first fit).
- **Streams and callbacks.** `BufferedFile` (the rate-limited output buffer), `BottomHalves`
  (re-entrant callbacks on a linked list). `Calendar` is `mktimegm`.

Code that changes state is modelled by classes, arrays and loops, with contracts that give
the new state; the properties over many calls are class invariants and lemmas. Choices the
code leaves to its surroundings are parameters: the order and moment of completions, what
the guest writes and when, how much the rate limit lets through, whether the remaining time
is judged short, what a transport answers, which sector reads and writes fail, whether a
driver takes a gap, what callbacks do. Every theorem is for all of them.

Six properties turn out to need a condition that the code does not establish by itself:

- *Reads of one chunk complete in the order they were submitted.* The bulk path does not set
  the in-flight bit that would enforce it. `BlockHazards.OrderNeeded` is a run without it
  that ends with different disks. `BlockProtocol.CompleteExact` says exactly which completions
  out of order do no harm, and `BlockProtocol.UnorderedSafety` that a run is safe throughout
  if and only if all of its completions are such.
- *The flush at the start of stage 3 sends the whole queue.* It stops at the rate limit, and
  the rest of the queue is then thrown away. `BlockHazards.CutFlushLoses` is a run after which
  that loses a disk's contents. `BlockProtocol.StageThree`,
  `BlockProtocol.StageThreeEverywhere` and `BlockMigration.Migration.SaveEnd` say exactly when
  it loses nothing, and `BlockRun.Migrate` that it never does if no call's rate exceeds what
  that flush may send.
- *Merging keeps the end of a request that contains the next one.* It is dropped:
  `MergeLoss.OverlapLoses` is such a pair. `MergeLoss.MergeRequestsExact` says exactly when
  requests are kept, whatever their data.
- *Chained decryption leaves the vector that encryption leaves.* After a partial block it
  leaves the decrypted block instead, as in `Cbc.VectorsDiffer`. `Cbc.VectorsAgree` says
  exactly when the two agree, and `Cbc.VectorsAgreeAlways` when they do for every cipher.
- *The output buffer keeps the order of puts.* A transport that answers 0 stops a flush
  without an error, and the next bytes go past the ones still held
  (`BufferedFile.ZeroReorders`). `BufferedFile.QEMUFileBuffered.PutBuffer` says exactly when
  the order of given bytes is kept, and `BufferedFile.QEMUFileBuffered.SizeKeepsOrderIs` when
  that of all bytes is.
- *The bitmaps of dirty and in-flight chunks hold the words their bits are in.* They are
  allocated in bytes and accessed in words. `DirtyBitmap.AllocationSuffices` says exactly for
  which devices the last word lies within the allocation.

And `DirtyBitmap.BlockDevice.SetDirtyTracking` says exactly when switching tracking on leaves
the dirty count right: not when it was on already with something dirty.

`dafny verify dfyconfig.toml` checks the whole project.

## Model

| member | source | states |
|---|---|---|
| `BlockProtocol.LandKeeps` | decaf/block.c:1284-1311 | a guest write whose data lands, before it is marked dirty, keeps the invariant: every chunk is not yet read in bulk, or dirty, or under an unmarked write, or the newest copy in flight is (sector by sector) current, or the destination equals the source |
| `BlockProtocol.MarkKeeps` | decaf/block.c:1097-1123 | setting the dirty bits of exactly the chunks a landed write touches keeps the invariant |
| `BlockProtocol.BulkReadKeeps` | decaf/block-migration.c:205-270 | submitting the read of the next bulk chunk and clearing its dirty bit keeps the invariant |
| `BlockProtocol.DirtyReadKeeps` | decaf/block-migration.c:379-447 | submitting the read of a dirty chunk and clearing its bit keeps the invariant |
| `BlockProtocol.FillKeeps` | decaf/block-migration.c:205-270 | a device that fills a read buffer sector by sector, with guest writes in between, keeps the invariant |
| `BlockProtocol.CompleteKeeps` | decaf/block-migration.c:186-203 | a completion that does not overtake an earlier read of the same chunk keeps the invariant |
| `BlockProtocol.CompleteExact` | decaf/block-migration.c:186-203 | a completion in any order keeps the invariant if and only if its chunk will be read or resent (not yet reached by the bulk phase, dirty, or under an unmarked write), or no read of the chunk is left behind, or the newest one left behind agrees with the source in every sector it has filled |
| `BlockProtocol.SendKeeps` | decaf/block-migration.c:464-494 | moving the head of the queue to the stream keeps the invariant |
| `BlockProtocol.SendNowKeeps` | decaf/block-migration.c:421-432 | reading and sending a dirty chunk at once keeps the invariant when no older copy of it is queued or pending |
| `BlockProtocol.LoadKeeps` | decaf/block-migration.c:645-720 | storing the next block of the stream on the destination keeps the invariant |
| `BlockProtocol.MigrationSafety` | decaf/block-migration.c:558-643 | in every run of these steps, in any order, the invariant holds at every point, and whenever nothing is left to read, mark, send or load the destination equals the source |
| `BlockProtocol.UnorderedSafety` | decaf/block-migration.c:186-203 | a run in which reads complete in any order keeps the invariant at every point if and only if each completion met that condition when it happened |
| `BlockProtocol.HarmlessMigration` | decaf/block-migration.c:558-643 | such a run, started correctly and with nothing left to read, mark, send or load, ends with the destination equal to the source |
| `BlockProtocol.StageThree` | decaf/block-migration.c:464-643 | stage 3 from any reachable stopped state, with a flush that sends only n blocks: the loaded destination equals the source if and only if each chunk that is left in the queue is dirty again or has a current copy on the other side |
| `BlockProtocol.StageThreeEverywhere` | decaf/block-migration.c:464-643 | what the source can check: stage 3 restores every destination that the invariant allows if and only if each chunk of which it drops a queued copy is dirty, or the last copy sent holds its present contents |
| `BlockProtocol.FullFlushLosesNothing` | decaf/block-migration.c:464-494 | that condition always holds when the flush empties the queue |
| `BlockProtocol.StoreAllAt` | decaf/block-migration.c:645-720 | after loading a stream each chunk of the destination holds the last block sent for it, or what it held |
| `BlockHazards.OrderNeeded` | decaf/block-migration.c:252-260 | a run that starts correctly and ends with everything loaded, in which two reads of one chunk complete out of order, and the destination differs |
| `BlockHazards.CutFlushLoses` | decaf/block-migration.c:473-489 | a run from the start (one chunk read in bulk and completed) after which nothing is dirty, so that nothing is resent, and a flush that the rate limit stops at once leaves the destination with its old contents |
| `BlockHistory.GenuineClosed` | decaf/block-migration.c:558-643 | whatever happens next, the record of a migration stays that of a run of the protocol, in which every write the guest has submitted is waiting or has landed, once, and the disks are those at the start with the landed writes applied in order |
| `BlockMigration.Migration.Start` | decaf/block-migration.c:281-330 | the state after set-up: cursors at zero, tracking on, nothing in flight, one end mark on the stream; any closed property of histories that holds of it will hold throughout |
| `BlockMigration.Migration.SaveDeviceBulk` | decaf/block-migration.c:205-270 | one protocol step for the chunk under the cursor, none at the end; reports the end exactly; only this device's cursor moves |
| `BlockMigration.Migration.ReadCallback` | decaf/block-migration.c:186-203 | one completion step; the in-flight mark of the chunk is cleared and the counters agree with the lists |
| `BlockMigration.Migration.AioFlush` | decaf/block-migration.c:396-400 | waiting for I/O lets every pending read complete and every guest request land and be marked: the writes that land are exactly those that were waiting; reads copy sector by sector between the writes, in any interleaving in which reads of one chunk complete in order; what was queued stays queued in front |
| `BlockMigration.Migration.SaveBulkedBlock` | decaf/block-migration.c:332-368 | reads the next chunk of the first device that has any left, and of no other; reports no more exactly when all devices have completed; what it puts on the stream carries no block |
| `BlockMigration.Migration.FlushBlks` | decaf/block-migration.c:464-494 | sends the first n blocks of the queue in order, n bounded by the queue and by what the rate limit allows |
| `BlockMigration.Migration.DirtyRound` | decaf/block-migration.c:379-447 | at one position of the dirty cursor: waits out a read in flight, then, if the chunk is dirty, takes the step of submitting its read, or moves the cursor one chunk on; either way the chunk is not dirty then; as long as each read in flight had a bit of its own it still has |
| `BlockMigration.MarkedOnce` | decaf/block-migration.c:396-420 | if there is a bit in flight for each pending read, no two are of one chunk, so each may complete next: the order that safety needs then holds by itself |
| `BlockMigration.Migration.SaveDeviceDirty` | decaf/block-migration.c:379-447 | every chunk the cursor passes was clean in a state of the run during this call; the last step taken is the submission of a read of the dirty chunk under the cursor, or the device's end is reported, exactly when the cursor is there; no other cursor moves |
| `BlockMigration.Migration.SaveDirtyBlock` | decaf/block-migration.c:449-462 | the same over the devices in turn: one read, of the chunk under the first cursor that meets a dirty one, as the last step taken, or every cursor at its end with each chunk ahead of it clean in some state of the run during this call |
| `BlockMigration.Migration.SavePart` | decaf/block-migration.c:558-612 | a stage 2 call: keeps the history one of protocol steps and the stream in step with the blocks sent; reports completion exactly when bulk is complete and nothing is dirty or the rest is judged quick; reads until the rate is reached, or else the bulk phase is over and every chunk of every device, from its first on, was clean in some state of this call; once the bulk phase is over, each read in flight keeps a bit of its own; never ends with more blocks unsent than before unless all but one of them are below the rate; ends the bulk phase if the rate is above the backlog |
| `BlockMigration.Migration.SendDeviceDirty` | decaf/block-migration.c:379-447 | with the guest stopped each non-final call sends exactly one dirty chunk; the final one proves the device clean |
| `BlockMigration.Migration.SendDirtyBlock` | decaf/block-migration.c:449-462 | sends one dirty chunk of some device, or no chunk of any device is dirty |
| `BlockMigration.Migration.SendAllDirty` | decaf/block-migration.c:613-632 | the final loop terminates with no chunk dirty; it has sent each dirty chunk once, and nothing else, with the disk's contents |
| `BlockMigration.Migration.SaveEnd` | decaf/block-migration.c:613-640 | stage 3 sends the queued blocks the rate limit lets through and one current copy of each dirty chunk, and nothing else; the destination that loads the whole stream equals the source if and only if the part of the queue that is dropped loses nothing; the stream ends with an end mark and carries exactly the blocks sent |
| `BlockStream.LoadEncoded` | decaf/block-migration.c:86-100 | the record of a block, its buffer padded with whatever the allocation held, is stored exactly where it came from, for every block, also the short last one |
| `BlockStream.Receiver.Load` | decaf/block-migration.c:645-720 | the receiving loop computes the decoding of the record list up to the end mark: the disks, what is left, and the error (unknown device, sector beyond the device, a record cut short, which is written before the error is seen, no flag at the end of the stream) |
| `BlockStream.BadBlockRefused` | decaf/block-migration.c:664-697 | a block of an unknown or empty device ends the loading with -EINVAL, one that starts beyond its device with -EIO, and nothing is written |
| `BlockStream.Receiver.LoadAll` | decaf/savevm.c:1852-1873 | section after section up to the first that fails |
| `BlockStream.LoadCarried` | decaf/block-migration.c:645-720 | a stream that carries a list of blocks, with end marks and progress records anywhere, loads to exactly the disks those blocks make, and without an error if and only if it is not cut inside a section |
| `BlockRun.Handle` | decaf/block-migration.c:186-203 | between calls a guest write is submitted, reaches the image or completes, or a read copies a sector or completes: exactly that step of the protocol, or none if it is not possible; a write that fits is on record as submitted |
| `BlockRun.StopGuest` | decaf/cpus.c:391-403 | stopping the guest ends in a reachable state with no request or read in flight, every write submitted applied once, and the queue extended by the reads |
| `BlockRun.Finish` | decaf/migration.c:264-274 | from the call on: stage 3 starts with the stream as it was and the queue extended by the reads in flight, and sends what it may of it and the dirty chunks; every write submitted has been applied once; the destination equals the source if and only if nothing dropped is lost, so always when the blocks not yet sent are within the budget |
| `BlockRun.Send` | decaf/migration.c:250-281 | a whole sender, for all disks, all events between calls and all rates: the writes submitted are those of the events; its state is one the protocol reaches, every write applied or waiting; it completes at the first call if that is judged quick and its rate is above the chunks there are; once complete, the blocks sent make the destination equal to the source if no call's rate exceeds what the last flush may send |
| `BlockRun.Migrate` | decaf/block-migration.c:558-720 | sender, stream and receiver: when the sender is done every section loads without an error, the source's disks are those at the start with all the guest's writes applied, each once, and the receiver's disks equal them whenever no call's rate exceeds what the last flush may send; in general if and only if the part of the queue that is dropped loses nothing |
| `RamStream.GetPut64` | decaf/arch_init.c:140-141 | an eight-byte big-endian word reads back, and leaves the rest of the stream |
| `RamStream.LoadPutPage` | decaf/arch_init.c:115-177 | the record of a page, whole or filled with one byte, with the block named or continued, decodes to the store of exactly that page and makes its block current |
| `RamStream.LoadPutHeader` | decaf/arch_init.c:292-299 | the block list decodes without error and consumes exactly itself when the other side knows the blocks with these lengths |
| `RamStream.CheckPutBlocks` | decaf/arch_init.c:396-428 | the check of names and lengths accepts what the sender lists, and stops where the list ends |
| `RamStream.CheckRejects` | decaf/arch_init.c:396-428 | and rejects it on every other receiver: one that lacks a block of the list or has it with another length |
| `RamStream.RefusePutHeader` | decaf/arch_init.c:386-428 | so that the first record of the stream is refused there |
| `RamStream.LoadSection` | decaf/arch_init.c:375-467 | a section of decodable items and its end mark loads to the state the items lead to |
| `RamStream.Receiver.CheckList` | decaf/arch_init.c:396-428 | the loop over the block list computes its check: every block known with this length, and where the list ends |
| `RamStream.Receiver.FindHost` | decaf/arch_init.c:345-373 | the block a page record belongs to, named or continued, or none |
| `RamStream.Receiver.StorePage` | decaf/arch_init.c:430-459 | one page of one block gets the bytes the record carries, and that block becomes current |
| `RamStream.Receiver.Load` | decaf/arch_init.c:375-467 | the load loop computes the decoding of its input: the new memory, the current block and the bytes left over, or failure |
| `RamMigration.IsDupPage` | decaf/arch_init.c:97-110 | word comparisons accept a page if and only if all its bytes are the given one |
| `RamMigration.Scan` | decaf/arch_init.c:115-177 | the ring scan visits pages in the order of the ring from the last position on, each at most once and all of them clean; the page it finds is the one after those, and is dirty; it finds none only after visiting all, and then none is dirty |
| `RamMigration.Saver.SaveBlock` | decaf/arch_init.c:115-177 | sends the first dirty page after the last one; returns 0 if and only if nothing was dirty, and then changes nothing; otherwise only that page's flag is cleared, the guest's writes meanwhile are made in order, and their pages are flagged or logged; what goes out is one record of that page, continued if its block is the last one sent and named if not, counted as one byte if the page was filled with one byte when it was tested and as a page if not |
| `RamMigration.Saver.SendPage` | decaf/arch_init.c:129-160 | the flag is reset, the page tested and copied, with guest writes between and during these: the record sent keeps sender and receiver in step, and a page that changed meanwhile is flagged or logged again |
| `RamMigration.Saver.CopyOut` | decaf/arch_init.c:152-159 | a page copied piece by piece while the guest writes: what is copied is what the page holds at the end, or the page is flagged or logged again |
| `RamMigration.Saver.Write` | decaf/arch_init.c:253-343 | a guest write at any moment, also while a page is being sent, keeps: each page that differs on the other side is dirty, in the log still to be synchronised, or being sent |
| `RamMigration.Saver.GuestRuns` | decaf/arch_init.c:253-343 | any writes are all made, in order, their pages flagged or logged, and nothing else changes |
| `RamMigration.Saver.SaveBlocks` | decaf/arch_init.c:304-313 | the rate-limited loop turn by turn: each turn sends the first dirty page in the ring from the last position on and clears its flag alone, until a turn finds nothing dirty, and then no more is sent; the flags and the log after each turn are exactly those with the guest's writes in it added |
| `RamMigration.SentUntilClean` | decaf/arch_init.c:304-313 | every turn of the loop sends a page, or exactly those before the first turn that finds nothing dirty do |
| `RamMigration.SentFalls` | decaf/arch_init.c:304-313 | if the guest sets no flag meanwhile, the pages still flagged are those not sent, no page is sent twice, and as many are sent as there are turns, or all if they are fewer |
| `RamMigration.Saver.SaveStart` | decaf/arch_init.c:253-343 | stage 1: the section opens with the block list and loads on top of what was loaded before; the memory is what it was with all the guest's writes made in order; from the flags as they are, the loop takes such turns |
| `RamMigration.Saver.SavePart` | decaf/arch_init.c:253-343 | stage 2, likewise, with the pages logged before the call flagged and the log empty when the loop begins |
| `RamMigration.Saver.SaveEnd` | decaf/arch_init.c:253-343 | stage 3: once its section is loaded every RAM block is byte for byte the same on both sides |
| `RamRun.Migrate` | decaf/arch_init.c:253-467 | any number of calls with any writes around them, each section loaded, then stage 3: every section loads, and in the end every RAM block is byte for byte the same on both sides, namely what it was at the start with all the guest's writes made in order |
| `AesSpec.SubstitutionBox` | decaf/aes.c:46-58 | the S-box behind the tables is the affine transformation of the multiplicative inverse in GF(2^8) (FIPS 197 section 5.1.1), for every byte |
| `AesSpec.InverseS` | decaf/aes.c:46-58 | the inverse S-box behind the tables inverts it |
| `AesSpec.Te0Entries` | decaf/aes.c:46-58 | every entry of Te0 is S[x].[02, 01, 01, 03] |
| `AesSpec.Te1Entries` | decaf/aes.c:46-58 | every entry of Te1 is S[x].[03, 02, 01, 01] |
| `AesSpec.Te2Entries` | decaf/aes.c:46-58 | every entry of Te2 is S[x].[01, 03, 02, 01] |
| `AesSpec.Te3Entries` | decaf/aes.c:46-58 | every entry of Te3 is S[x].[01, 01, 03, 02] |
| `AesSpec.EncryptionTables` | decaf/aes.c:46-58 | the four tables in terms of multiplication in GF(2^8): the products by 02, 01, 01 and 03 that a column of MixColumns sums up |
| `AesSpec.Te4Entries` | decaf/aes.c:46-58 | every entry of Te4 repeats S[x] |
| `AesSpec.Td0Entries` | decaf/aes.c:46-58 | every entry of Td0 is Si[x].[0e, 09, 0d, 0b] |
| `AesSpec.Td1Entries` | decaf/aes.c:46-58 | every entry of Td1 is Si[x].[0b, 0e, 09, 0d] |
| `AesSpec.Td2Entries` | decaf/aes.c:46-58 | every entry of Td2 is Si[x].[0d, 0b, 0e, 09] |
| `AesSpec.Td3Entries` | decaf/aes.c:46-58 | every entry of Td3 is Si[x].[09, 0d, 0b, 0e] |
| `AesSpec.DecryptionTables` | decaf/aes.c:46-58 | likewise by 0e, 09, 0d and 0b for InvMixColumns |
| `AesSpec.Td4Entries` | decaf/aes.c:46-58 | every entry of Td4 repeats Si[x] |
| `AesSpec.InverseMix` | decaf/aes.c:832-878 | InvMixColumns undoes MixColumns on every column |
| `AesSpec.UndoMix` | decaf/aes.c:832-878 | an InvMixColumns and the transformed round key undo a MixColumns and the round key |
| `AesSpec.AesInvertible` | decaf/aes.c:885-1261 | the layers of AES are invertible in the sense the equivalent inverse cipher needs |
| `IteratedCipher.MeetInTheMiddle` | decaf/aes.c:1076-1261 | for any such layers, i rounds of the equivalent inverse cipher from the ciphertext meet the state of encryption i rounds from its end |
| `IteratedCipher.InverseCipher` | decaf/aes.c:1076-1261 | the equivalent inverse cipher inverts the cipher for every number of rounds |
| `AesColumns.EncStepIs` | decaf/aes.c:981-1007 | sixteen table look-ups and the round key are one round of FIPS 197 section 5.1 |
| `AesColumns.EncLastIs` | decaf/aes.c:1038-1069 | the masked look-ups are the last round |
| `AesColumns.DecStepIs` | decaf/aes.c:1172-1198 | the look-ups of decryption are one round of the equivalent inverse cipher |
| `AesColumns.DecLastIs` | decaf/aes.c:1229-1260 | the masked look-ups of decryption are its last round |
| `AesColumns.UnmixLookupIs` | decaf/aes.c:853-876 | Td after Te4 on the bytes of a word is InvMixColumns of the word |
| `KeySchedule.Expand128` | decaf/aes.c:756-773 | the sliding-pointer loop writes exactly words 4 to 43 of the recurrence of FIPS 197 section 5.2 |
| `KeySchedule.Expand192` | decaf/aes.c:774-795 | words 6 to 51 |
| `KeySchedule.Expand256` | decaf/aes.c:796-825 | words 8 to 59 |
| `KeySchedule.ReverseKeys` | decaf/aes.c:846-852 | the swapping loop puts the round keys in reverse order and leaves the rest |
| `KeySchedule.Invert` | decaf/aes.c:846-877 | then all but the first and last round key are transformed |
| `CipherRounds.RunRounds` | decaf/aes.c:976-1069 | two rounds an iteration over a moving pointer are the rounds one by one under the schedule's keys, the last one apart |
| `CipherRounds.RunCipher` | decaf/aes.c:976-1069 | with functions that are rounds of the cipher, for any layers, the loop from the first key addition on computes the cipher |
| `CipherRounds.RunInverse` | decaf/aes.c:1167-1260 | and with those of the equivalent inverse cipher, that |
| `CipherRounds.InvertedReverses` | decaf/aes.c:846-877 | the inverted schedule holds the keys of the equivalent inverse cipher |
| `CipherRounds.ExpandersAgree` | decaf/aes.c:722-726 | schedules whose transformations agree on the round constants they use are equal |
| `Aes.RconEntries` | decaf/aes.c:722-726 | the ten constants are the powers of {02} in GF(2^8) |
| `Aes.LookupExpands` | decaf/aes.c:756-825 | the code's expansion by look-ups is the standard's wherever ten round constants suffice |
| `AesAnswers.RotWordIs` | decaf/aes.c:759-764 | the word goes in rotated left by one byte |
| `AesAnswers.A1Answer` | decaf/aes.c:756-773 | all 44 words of the example of FIPS 197 appendix A.1 |
| `AesAnswers.A2Answer` | decaf/aes.c:774-795 | all 52 words of appendix A.2 |
| `AesAnswers.A3Answer` | decaf/aes.c:796-825 | all 60 words of appendix A.3 |
| `AesAnswers.C1Answer` | decaf/aes.c:756-773 | all 44 words for the key of appendix C.1 |
| `AesAnswers.C1Cipher` | decaf/aes.c:885-1070 | the block of FIPS 197 appendix C.1 encrypts to its text under every schedule set from its key |
| `Aes.EncryptRuns` | decaf/aes.c:885-1070 | the code's look-ups, last round and key addition are the rounds of the cipher of FIPS 197 |
| `Aes.DecryptRuns` | decaf/aes.c:1076-1261 | and for decryption those of the equivalent inverse cipher |
| `Aes.AesKey.SetEncryptKey` | decaf/aes.c:731-827 | -1 for a null pointer, -2 for another key size, with nothing changed; otherwise the number of rounds and the standard's schedule |
| `Aes.AesKey.SetDecryptKey` | decaf/aes.c:832-878 | the same errors; otherwise the reversed and transformed schedule |
| `Aes.AesKey.Encrypt` | decaf/aes.c:885-1070 | the sixteen bytes written are the cipher's, for buffers that overlap in any way, and nothing else is |
| `Aes.AesKey.Decrypt` | decaf/aes.c:1076-1261 | likewise for the equivalent inverse cipher |
| `Aes.DecryptEncrypted` | decaf/aes.c:832-1261 | decryption under the schedule for decryption undoes encryption under the one for encryption, for every key of 128, 192 or 256 bits and every block |
| `Cbc.DecEnc` | decaf/aes.c:1265-1314 | chained decryption gives back the data at every length, for any block cipher |
| `Cbc.EncZeros` | decaf/aes.c:1285-1293 | a partial last block encrypts as if it were filled up with zeros, vector included |
| `Cbc.VectorsAgree` | decaf/aes.c:1295-1313 | both directions leave the same vector if and only if the length is a multiple of sixteen or the last ciphertext block decrypts to itself |
| `Cbc.VectorsDiffer` | decaf/aes.c:1304-1312 | a cipher and a message of one byte after which the two directions leave different vectors |
| `Cbc.VectorsAgreeAlways` | decaf/aes.c:1295-1313 | for given data the vectors agree under every pair of inverse block functions if and only if the length is a multiple of sixteen |
| `Cbc.EncSplit` | decaf/aes.c:1276-1294 | encrypting in two chained calls, split at a block boundary, is encrypting at once, vector included |
| `Cbc.DecryptInParts` | decaf/aes.c:1295-1313 | likewise for decryption |
| `AesCbc.EncryptCbc` | decaf/aes.c:1276-1294 | writes the chained ciphertext, padded to whole blocks, and the final vector, in place or not, and nothing else |
| `AesCbc.DecryptCbc` | decaf/aes.c:1295-1313 | writes exactly the plaintext bytes and the final vector, in place or not |
| `AesCbc.CbcRoundTrip` | decaf/aes.c:1265-1314 | with AES and one key: decryption gives back the data at every length, with the exact condition on the vectors |
| `AesCbc.ThereAndBack` | decaf/aes.c:731-1314 | setting both keys from one cipher key and encrypting a buffer in place gives the chained ciphertext under that key's schedule, and decrypting it gives back the bytes, for every key, length and vector; -2 for another key size |
| `IoVector.CopiedBytes` | decaf/cutils.c:178-209 | the segments copied hold exactly the bytes asked for, also when skip or size cuts a segment |
| `IoVector.Vector.Add` | decaf/cutils.c:157-169 | appends the buffer, grows the allocation, keeps the size right |
| `IoVector.Vector.Copy` | decaf/cutils.c:178-209 | appends exactly those segments |
| `MergeRequests.CombineIs` | decaf/block.c:2338-2361 | the combined vector is the first request up to the second, zeros in a gap, and the second |
| `MergeRequests.MergedIs` | decaf/block.c:2305-2374 | the requests left are the merged list of the writes, and no vector exceeds IOV_MAX |
| `MergeRequests.Merge` | decaf/block.c:2311-2373 | the loop over the array leaves exactly that list in front, for every driver |
| `MergeRequests.NeighboursApart` | decaf/block.c:2315-2337 | requests left next to each other had to be: there is a gap between them that the driver did not take, or their vectors with one more segment exceed IOV_MAX |
| `MergeRequests.TouchingMerge` | decaf/block.c:2319-2323 | requests of which each starts where the one before ends, or earlier, come out as one under every driver if their segments are few enough |
| `MergeRequests.NoGapTaken` | decaf/block.c:2325-2331 | under a driver that takes no gap, no gap is filled: nothing but the requests is written |
| `MergeRequests.MergeKeepsWrites` | decaf/block.c:2305-2374 | executing the merged requests leaves the disk of the sorted requests, with taken gaps zeroed, when no request ends before one that starts earlier |
| `MergeLoss.SameDecisions` | decaf/block.c:2315-2337 | which requests are merged depends on their places and segment lengths, never on the data |
| `MergeLoss.MergeRequestsExact` | decaf/block.c:2305-2374 | for the code's own decisions: the merged requests leave the disk of the sorted ones, whatever the data and the disk, if and only if each byte dropped from the end of a request is written by a later request or gap |
| `MergeLoss.OverlapLoses` | decaf/block.c:2344-2347 | a write of sectors 0 to 2 and one of sector 1, whose merge loses sector 2 under every driver |
| `WriteMerge.MergePreserves` | decaf/block.c:2305-2374 | the same for every way of deciding which neighbours to merge, when nothing dropped is left unwritten |
| `WriteMerge.MergeExact` | decaf/block.c:2344-2347 | merging preserves the writes for all data and all disks if and only if each byte dropped from the end of a request is written again later |
| `WriteMerge.EndsInOrder` | decaf/block.c:2344-2347 | which holds when requests end in the order they start |
| `WriteMerge.DisjointReorder` | decaf/block.c:2284-2311 | sorting requests that do not overlap changes nothing they do |
| `Multiwrite.MultiwriteCB.Callback` | decaf/block.c:2253-2282 | keeps: the counter is the writes outstanding and the requests only counted, the error is the first reported, no callback has run before the counter reaches 0 and then each once |
| `Multiwrite.MultiwriteCB.Completions` | decaf/block.c:2267-2282 | completions in any order and at any time keep this; the results reported are those of the writes outstanding, in order and each once, and the others stay outstanding |
| `Multiwrite.ReportedOnce` | decaf/block.c:2267-2282 | of any completions, each outstanding write that is among them reports once, and exactly the others stay outstanding |
| `Multiwrite.ReportedResults` | decaf/block.c:2267-2282 | the results reported are those of the first completion of each write outstanding, in the order they came |
| `Multiwrite.MultiwriteCB.Submit` | decaf/block.c:2442-2463 | the counter stays above 0 while writes are submitted, whatever completes meanwhile; the loop stops at the first write not accepted; what is outstanding and reported then is what the submissions and the completions during them amount to |
| `Multiwrite.AioMultiwrite` | decaf/block.c:2390-2476 | no medium, no requests, a first write not accepted (no callback will ever run, every request has -EIO), a later one (-EIO is reported after what was reported before), and success; the results reported are determined by the submissions |
| `Multiwrite.ExactlyOnce` | decaf/block.c:2390-2476 | a call followed by any completions in any order: no callback has run while a write is outstanding, and when none is each has run once, with the first error among the results of the writes in the order they completed, -EIO for a late refusal included |
| `Multiwrite.ErrorOf` | decaf/block.c:2442-2476 | the error of a call is the first reported while it submitted, or else -EIO for a late refusal, or else the first reported afterwards |
| `Multiwrite.LateRefusal` | decaf/block.c:2442-2476 | if any write is refused the error is below 0, and -EIO when every completion succeeds; if none is refused and all succeed it is 0 |
| `Multiwrite.FirstErrorIs` | decaf/block.c:2273-2275 | the error is the first negative result, and 0 only if there is none |
| `Multiwrite.AllReported` | decaf/block.c:2390-2476 | nothing is outstanding once every write has completed, during the call or after it |
| `ByteIo.Device.Pread` | decaf/block.c:1137-1180 | all bytes of the range are returned, or -EIO, and then the range leaves the device or one of the at most three sector reads made failed |
| `ByteIo.Device.Pwrite` | decaf/block.c:1182-1229 | exactly the bytes of the range are replaced, or -EIO, and then the range leaves the device or one of the at most five sector operations made failed; nothing outside the range ever changes |
| `ByteIo.ReadBack` | decaf/block.c:1137-1229 | a read after a write of any range returns what was written if inside, and what was there if outside; both succeed when the ranges are on the device and no sector operation fails |
| `Commit.Image.CopyLoop` | decaf/block.c:924-937 | what is visible through the overlay never changes, also when a read or write fails; it succeeds if and only if none of them fails, and then the backing image is what was visible |
| `Commit.Image.Commit` | decaf/block.c:924-942 | emptying the overlay afterwards changes nothing visible; success if and only if no read or write failed |
| `DirtyBitmap.BlockDevice.SetDirtyBitmap` | decaf/block.c:1097-1123 | exactly the chunks from first to last sector get the value, and the count stays the number of set bits |
| `DirtyBitmap.BlockDevice.MarkChunk` | decaf/block.c:1107-1121 | one bit changes and the count changes with it |
| `DirtyBitmap.BlockDevice.SetDirtyTracking` | decaf/block.c:3031-3050 | the count is right afterwards if and only if tracking ends, or was off, or nothing was dirty; a new bitmap is clear and has room for every chunk |
| `DirtyBitmap.AllocationSuffices` | decaf/block.c:3037-3041 | every word that holds a chunk's bit lies within the bytes allocated if and only if the number of chunks is a multiple of 64 or leaves a remainder above 56 |
| `DirtyBitmap.AllocationShort` | decaf/block.c:3037-3041 | a device of one chunk: one byte is allocated for a word of eight |
| `DirtyBitmap.BlockDevice.GetDirty` | decaf/block.c:3052-3063 | the bit of the sector's chunk, and false beyond the end or without tracking |
| `DirtyBitmap.CountIs` | decaf/block.c:1097-1123 | the count of set bits is the number of dirty chunks |
| `AioBitmap.Inflight.IsInflight` | decaf/block-migration.c:140-150 | the bit of the sector's chunk, and false beyond the end |
| `AioBitmap.Inflight.SetInflight` | decaf/block-migration.c:152-172 | exactly the chunks from first to last sector get the value |
| `AioBitmap.Inflight.OneChunk` | decaf/block-migration.c:152-172 | for the read of a chunk, short or not, that is the one chunk |
| `Words.Ffsl` | decaf/bitops.h:35-65 | the binary search returns the lowest set bit of every word but zero |
| `Words.Flsl` | decaf/bitops.h:73-103 | the highest |
| `Words.Ffz` | decaf/bitops.h:111-114 | the lowest clear bit of every word but all ones |
| `Words.LowIs` | decaf/bitmap.h:62-66 | one less than a shifted one is the word of low bits the last-word mask stands for |
| `Bitmap.FindNextBit` | decaf/bitops.c:21-64 | the first set bit at or after the offset, or the size, for every size and offset |
| `Bitmap.FindNextZeroBit` | decaf/bitops.c:70-113 | the first clear bit, likewise |
| `Bitmap.FindLastBit` | decaf/bitops.c:115-142 | the last set bit before the size, or the size |
| `Bitmap.BitmapSet` | decaf/bitmap.c:160-178 | sets exactly the bits of the range |
| `Bitmap.BitmapClear` | decaf/bitmap.c:180-198 | clears exactly the bits of the range |
| `ZeroArea.AlignIs` | decaf/bitmap.c:200 | rounding up by the mask gives the least multiple of the power of two |
| `ZeroArea.ClearWord` | decaf/bitmap.c:200 | masking a word with the complement of its low a bits is, as a number, clearing them |
| `ZeroArea.FindNextZeroArea` | decaf/bitmap.c:214-237 | terminates with the least aligned run of clear bits that fits, or above the size exactly when there is none |
| `BufferedFile.QEMUFileBuffered.Append` | decaf/buffered_file.c:47-69 | the buffer grows by the data, in a larger allocation if need be |
| `BufferedFile.QEMUFileBuffered.Push` | decaf/buffered_file.c:84-103 | the sending loops do exactly what the transport's answers determine: how many bytes it takes, in how many calls, whether output freezes and which error is set |
| `BufferedFile.OfferEnds` | decaf/buffered_file.c:84-103 | such a loop ends with everything taken, after -EAGAIN, at the rate limit, or after an answer that is not positive |
| `BufferedFile.QEMUFileBuffered.Flush` | decaf/buffered_file.c:71-108 | sends what the transport takes, holds the rest, and leaves delivered and held bytes together as they were; does nothing after an error |
| `BufferedFile.QEMUFileBuffered.PutBuffer` | decaf/buffered_file.c:110-169 | delivered and held bytes are still all accepted puts in order if and only if bytes sent past held ones commute with them and a put that fails has sent nothing; so they are, while no error is set, for every transport that never answers 0 |
| `BufferedFile.QEMUFileBuffered.SizeKeepsOrderIs` | decaf/buffered_file.c:110-169 | all puts of this size over all buffers of this length stay in order if and only if the transport takes nothing of the put, or the put does not fail and the flush before it has sent all that was held |
| `BufferedFile.ZeroReorders` | decaf/buffered_file.c:92-96 | two puts through a transport that answers 0 once: no error is set and the second byte is sent ahead of the first |
| `BufferedFile.QEMUFileBuffered.Close` | decaf/buffered_file.c:171-192 | terminates if an error is set or the transport at some point stops answering -EAGAIN and 0; without an error all that was accepted in order has been delivered |
| `BufferedFile.QEMUFileBuffered.RateTick` | decaf/buffered_file.c:241-261 | for every transport: nothing is sent while frozen; otherwise a new period starts at zero bytes and what is held is flushed: exactly what the transport's answers let through is delivered, in that many calls, with the freeze and the error they determine; delivered and held bytes together stay as they were |
| `BottomHalves.Context.BhNew` | decaf/async.c:44-53 | a new node, not scheduled, that points to what was the first; the links of the others as they were |
| `BottomHalves.Context.Act` | decaf/async.c:44-121 | whatever code does while a walk is active, polls within polls included: nodes are only added in front of the first, none is unlinked or freed, each keeps pointing to the next, what is deleted stays deleted and is never called, every callback is called with its flags cleared, and every change of a flag is on the log; what is done to one bottom half changes exactly the flags it should, and scheduling one that is scheduled already leaves it idle or not as it was |
| `BottomHalves.Apart` | decaf/async.c:55-92 | a list linked from node to node to null has no node twice |
| `BottomHalves.Context.Unlink` | decaf/async.c:79-84 | moving the anchor or the previous node's pointer past a node leaves a linked list of exactly the others |
| `BottomHalves.Context.Visit` | decaf/async.c:64-73 | a node's flags are cleared and its callback is called, before anything else happens, if and only if the node is scheduled and not deleted when its turn comes; the next pointer saved before still leads on along the list as it was |
| `BottomHalves.Context.Walk` | decaf/async.c:64-73 | whatever the callbacks do, every node that was on the list gets one turn, in the order of the list, and no other node does; its flags then are what the log of flag changes gives it, and it runs if and only if they make it due; the result is 1 if and only if one of those that ran was not idle then |
| `BottomHalves.QuietFlags` | decaf/async.c:64-73 | with callbacks that do nothing each turn finds its node with the flags it had when the walk began |
| `BottomHalves.Context.Sweep` | decaf/async.c:77-89 | in place, by pointers: unlinks and frees exactly the deleted nodes and leaves a linked list of the others in order |
| `BottomHalves.Context.BhPoll` | decaf/async.c:55-92 | a poll makes such a walk and returns its result; a nested one frees nothing; the outermost one leaves exactly the nodes that are not deleted, those created in it in front, in order, and frees exactly the deleted ones; what was deleted before it is not called in it |
| `Calendar.MktimegmCounts` | decaf/cutils.c:100-112 | for every Gregorian date from year 1 on the closed form is the number of days since 1970-01-01, counted by year and month lengths, in seconds |
| `Calendar.NextDay` | decaf/cutils.c:100-112 | consecutive days are 86400 seconds apart |
| `Calendar.StrictlyIncreasing` | decaf/cutils.c:100-112 | a later date or time of day gives a larger number |

## Left out

Parts of the modelled files:

- Shared-base block migration, cancelled migrations, and failing reads and writes during a
  migration.
- `BlockStream.LoadEncoded`: a record is a word, a name and a buffer of sectors; the length
  byte in front of the name, and with it names of 256 bytes and more, is not modelled.
- `RamStream.Receiver.Load`: a page record for an unknown block is a failure here; for a whole
  page the code goes on with a null pointer.
- Bandwidth estimates and clocks; `is_stage2_completed`'s estimate is a parameter, and what
  the progress reports say is not claimed.
- `BlockMigration.Migration.GuestWrite`: an empty write dirties nothing here, while the code
  rounds it to a chunk; `DirtyBitmap.BlockDevice.SetDirtyBitmap` has the rounding.
- In `BlockMigration` the dirty bitmap and the bitmap of reads in flight are sets of chunks;
  `DirtyBitmap` and `AioBitmap` have the words.
- `BlockRun.Migrate`: both sides list the same devices in the same order, and data lands on
  an image and reads fill between calls of `block_save_live` or while it waits for I/O.
- `RamRun.Migrate`: the guest's writes come before a scan, between the steps of sending a page
  and while it is copied, not during the scan.
- The version 3 RAM format, `sort_ram_list` and the page counters. The test for a page filled
  with one byte reads the page at one moment.
- `MergeRequests.Merge`: starts from the array as `qsort` leaves it, in any order of requests
  with equal start sectors; freeing the intermediate vectors and zero buffers is not
  modelled.
- `IoVector.Vector.Copy`: the source and the destination are different vectors, and segments
  are values, so buffers that change during a request are not modelled.
- `ByteIo.Device.Pwrite` and `Commit.Image.Commit`: a sector write that fails changes nothing.
- `Commit.Image.Commit`: both images have the same size and emptying the overlay succeeds;
  reopening a read-only backing image is left out.
- `DirtyBitmap.BlockDevice.SetDirtyTracking`: the allocation is rounded up to whole words, so
  for the devices `DirtyBitmap.AllocationSuffices` excludes the model has room that the code
  has not.
- `Words`: a word is its sixty-four bits and the operators are defined bit by bit; the
  conversions between C integer types are not modelled.
- `ZeroArea.FindNextZeroArea`: indices do not wrap around; for `nr == 0` nothing is claimed.
- `BufferedFile.QEMUFileBuffered.PutBuffer`: notifying the client and timers are left out, and
  so is `buffered_set_rate_limit`.
- `BottomHalves.Context.Act`: code in a callback names a bottom half by its place on the list,
  so it holds no pointer to a freed one.
- The one-line operations `qemu_bh_schedule`, `qemu_bh_cancel`, `qemu_bh_delete` and
  `buffered_rate_limit` are modelled, but no property of their own is claimed.
- `qemu_bh_update_timeout`, and the notification in `qemu_bh_schedule`.
- `Calendar.MktimegmCounts`: integers do not overflow, and dates are valid ones from year 1.
- `Aes.AesKey.Encrypt`: the unrolled variant that the code does not compile.
- `AesCbc.EncryptCbc` and `AesCbc.DecryptCbc`: the vector is a buffer of its own, and output
  never overwrites input that is still to be read.

Other parts of the repository: disassemblers, consoles and cursors, Bluetooth, semihosting,
coroutine back ends, option parsing, image opening and snapshots, the simple word-by-word
bitmap operations and single-bit operations, and everything outside the files named in the
table. They are plumbing over unseen libraries or would add only easy members.
