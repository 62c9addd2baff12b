# TecnicoFS: a verified model

TecnicoFS is a small file system in C. In parte-1 each file has ten direct blocks and one index block inside one flat
array, and any number of threads work on it under fine-grained locks. In parte-2 each file has one block, one global lock
covers the operations, and clients reach the server through named pipes. This project models both and proves what they
are for.

## What is modelled

**The multi-block file system (parte-1).** `Disk` holds the state as a value: the static tables of state.c, with every data
block, index block and directory entry inside the one array `fs_data`. `FileSystem.TecnicoFS` is the program: a class over
arrays whose methods have the loops, branches and error returns of the C code. Every method is proved against the
byte-sequence view of files (`Disk.Content`): a write is a splice, a read is a slice, no other file, entry or handle
changes, and every block number held by a live i-node is in range, TAKEN and held once. `Transfer` has the arithmetic of
the two loops for every block size; `Truncation` has the rounding of the code; `Laws`, `Runs` and `Conservation` speak of
several operations and of whole runs; `OpenOutcome` says what a caller sees of an open, in terms of names, contents and handles.
`IndexRoom` and `Overrun` are about the two places where the code goes past a block, and say exactly when no harm comes of it;
`Misuse` is about what it asks of its callers, with the input at which each goes wrong.

**The locking (parte-1).** `Interleaving` is a step machine with any number of threads inside open, close, read and write.
A step takes one lock, or releases one together with the work that the lock protected, or works under locks that are held.
`Deadlock` has the lock ranks, `Safety` the invariant, and the `Shared…` modules carry it over every step of every thread.
`Guarantees` states what follows. `Serial…` proves that reads and writes are serialisable on every file that nobody truncates,
whatever is truncated elsewhere (`Aside`), and `Record` and `Answered` say how what is on record follows from what was asked for
and seen under the locks. `Finishing` has one result and a bounded number of steps per operation, and `Lost` the conservation of
blocks among threads.

**The protocol (parte-2).** `Wire` and `Pipes` are the bytes: requests, replies, and the loops that move them in pieces.
`Protocol` is a transition system with any number of clients, the pipe, the receiver thread, a slot with lock, flag and
condition variable per session, one worker per session, the global lock, and `open_flag`. `Handshake`, `Remote` and `Progress`
prove what it keeps, and `Sessions` how sessions end. `SingleBlock`, `LocalFileSystem` and `RemoteFiles` are the file system
behind it; `LocalOutcome` and `RemoteOutcome` say what its callers and its clients are answered, and `RemoteCalls` joins the
operations of `RemoteFiles` to the bytes that carry their requests and answers. `Shutdown` is the machine of the open-file
count, its condition variable and the destruction that waits for it, `ShutdownOutcome` says what its calls return, and
`Reopening` when a file can be open again afterwards.

**Where the code and its purpose part.** The sequential model keeps the code as it is, and says exactly when it does what it
should:

- The end-block count is one short when the offset is not block-aligned and the length is a block multiple
  (parte-1/fs/operations.c:157-161, 292-296). `Transfer.TransferExact` gives the bytes that move in every case.
- A transfer of exactly one block at such an offset is a single copy that runs past the end of its block. A write does what it
  should for all buffers if and only if the file's next block lies directly behind (`Overrun.OneBlockWriteIff`); a read delivers the
  file's bytes if and only if the block behind starts with those of the file's next block (`Overrun.OneBlockReadIff`).
  `Overrun.SpillShows`, `SpillRenumbers` and `SpillUncovers` say what else comes of the write: bytes of another file, a block number of
  another file, or a size past the last mapped block.
- The index-block fill writes 1014 entries where 256 fit (parte-1/fs/operations.c:191-193). `IndexRoom.FillDamages` and
  `FillInstallsIff` give the exact condition under which that does no harm, and `Write` asks for that condition.
- Nothing checks the maximum size: the number of a block past it is taken from, and stored in, the block behind the index block
  (`Misuse.PastLastBlock`).
- Nothing checks that a handle is open. One that was closed works as before while it stands inside a live file; one that was never
  opened refers to the root directory, and a write through it replaces entries (`Misuse.UnopenedWriteRenames`).
- Two closes of one handle at once can both pass the check of its entry and both count (`Misuse.TwoClosesCountTwice`).
- Truncation rounds on the number of blocks instead of the size and frees no block that the index block names
  (parte-1/fs/operations.c:63-88): `Truncation.TruncatesBySize`, `TruncationLeaksIff` and `Conservation.TruncationFreesExactly`
  say for which sizes it goes through, when it loses blocks, and when it gives back exactly the file's own.
- A truncating open can leave another handle past the end: `Opening.OpenKeepsWFIff` says exactly when.
- A truncation that comes upon an unmapped slot takes the lock of block -1 before it finds that out
  (parte-1/fs/state.c:430-441 with `data_blocks_locks`): the C code indexes its lock array at -1, the interleaved model takes a
  lock of that name that no other block has.
- A write of no bytes keeps both of its locks (parte-1/fs/operations.c:147-155, 250-252): `EmptyWrite.EmptyWriteBlocks` says what
  follows. No run of the interleaved model starts one.
- Names of 40 bytes or more are stored cut and never found again: `Directory.StoredIsFound`, `Laws.CreateKeepsNames`.
- In parte-2 a path that does not begin with a slash is not found but still creates a file named by the rest of it, so two
  entries can have one name: `SingleBlock.PathWithoutSlashDuplicates`. The comments promise that the path is checked.
- In parte-2 an open that is past the check of `open_flag` can open a file after destruction: `Reopening.OpensAgainIff` says from
  which states, and `Shutdown.EarlyOpenSlipsThrough` is a run. `Remote.LateOpensAreRefused` is the same for remote clients.
- The receiver takes a session id, and the handle and the length of a write, with one plain read each and does not look at how
  many bytes came (parte-2/fs/tfs_server.c:98, 129, 135): `Pipes.ReceivedIff` says that a request arrives exactly when these reads
  are whole. They are when the request lies in the pipe as a whole.
- A remote read that finds no byte, of a client that asked for some, is answered but never heard, because `tfs_read` reads twice
  (parte-2/client/tecnicofs_client_api.c:153-157): `Pipes.ReadReplyIsFramed`, `RemoteFiles.ReadIsHeardIff` and
  `ReadAtEndWaitsForEver`. After a result of -1 the server sends its failure code, which the second read takes whole exactly
  when it asked for at least four bytes.

The interleaved model has the block count of the code and, but for the one-block transfer at an unaligned offset, its copies
(`Record.CopiesOfTheCode`). It takes the repaired line for three of these: that one-block transfer is cut in two at the block
end, a new index block is filled for one block, and a write that would pass the maximum size is refused.

## Model

| member | source | states |
|---|---|---|
| Bytes.EncodeInt | parte-1/fs/state.h:15-22 | A C int in four bytes, least significant first, reads back as itself |
| Bytes.StoreEntry | parte-1/fs/operations.c:203-204 | Storing a block number in one entry of an index block leaves every other entry alone |
| Bytes.SpliceTwice | parte-1/fs/operations.c:218-236 | Two adjacent copies are one write of both pieces |
| Directory.StoredMatches | parte-1/fs/state.c:353-354 | A stored name answers to exactly one name, its first 39 bytes |
| Directory.StoredIsFound | parte-1/fs/state.c:392-393 | A name is found under itself after it was stored if and only if it has at most 39 bytes |
| Directory.FindFrom | parte-1/fs/state.c:388-400 | The scan returns the i-number of an entry in use that matches, and fails only if there is none |
| Directory.AddKeepsUnique | parte-1/fs/state.c:349-359 | Filling a free entry keeps names unique if and only if nothing answers to the stored part; all other lookups are unchanged |
| FirstFit.AllocShifts | parte-1/fs/state.c:406-423 | After one first-fit allocation the rest of a run of allocations gets what it would have got |
| Ownership.TakeBlock | parte-1/fs/state.c:406-423 | A block that first-fit takes was held by nobody, and ownership stays exclusive |
| Ownership.AttachBlock | parte-1/fs/operations.c:166-210 | Putting an unowned TAKEN block in an empty slot keeps ownership exclusive and changes no other slot, though index blocks lie in the same array |
| Ownership.WriteKeepsSlots | parte-1/fs/operations.c:218-236 | A copy into a data block changes no block number of any file |
| Files.WrittenSplices | parte-1/fs/operations.c:218-236 | One copy into a block is a splice of that file's content and changes no other file |
| Files.AttachKeepsContent | parte-1/fs/operations.c:166-210 | Mapping a block changes the content of no file |
| Files.InstallKeepsContent | parte-1/fs/operations.c:182-193 | A new empty index block changes the content of no file |
| Transfer.TransferExact | parte-1/fs/operations.c:156-249 | For every block size: aligned offset or ragged length moves all n bytes inside blocks and never takes the third branch; otherwise n minus the offset in the block when n is two blocks or more, and one overrunning copy when n is one block |
| Transfer.CopiesExact | parte-1/fs/operations.c:163-249 | The copies of the loop follow each other without gap, stay inside their blocks, and add up to what is left |
| Transfer.CopiesShort | parte-1/fs/operations.c:157-161 | When the end-block count is one short the loop still stays inside blocks and leaves out exactly the part that does not fit |
| IndexRoom.FillDamages | parte-1/fs/operations.c:191-193 | The fill changes no other TAKEN block if and only if each TAKEN one of the three behind it already holds 0xFF on its part of the overrun |
| IndexRoom.FillInstallsIff | parte-1/fs/operations.c:182-193 | The fill leaves a proper empty index block and no TAKEN block changed under that condition and only then |
| Overrun.CopySpills | parte-1/fs/operations.c:226-236 | A one-block copy at an unaligned offset puts what does not fit over the start of the next block, which keeps its bytes if and only if they were those |
| Overrun.SpillShows | parte-1/fs/operations.c:226-236 | When the next block is a data block of another file, that file has the spilled bytes in its content as far as its size goes |
| Overrun.SpillRenumbers | parte-1/fs/operations.c:226-236 | When the next block is the index block of another file, its first entries become the spilled bytes read as block numbers |
| Overrun.SpillUncovers | parte-1/fs/operations.c:226-248 | When the file has no next block, the raised size covers bytes that lie in no block of it |
| Overrun.AdjacentSplices | parte-1/fs/operations.c:226-248 | When the file's next block lies directly behind, the overrunning copy is a splice of that file and changes no other file and no block number |
| Overrun.OneBlockWriteIff | parte-1/fs/operations.c:226-248 | The overrunning write, for every buffer of one block, splices the file, keeps the state well formed and changes no other file if and only if the file's next block lies directly behind |
| Overrun.OneBlockReadIff | parte-1/fs/operations.c:327-336 | The overrunning read delivers the bytes of the file if and only if the block behind starts with the bytes of the file's next block |
| Growth.CopyProgress | parte-1/fs/operations.c:218-249 | The next copy of a write under way extends the prefix of the buffer that is in the file, keeps ownership exclusive and every other file as it was |
| Growth.TakeAndAttach | parte-1/fs/operations.c:166-173 | Allocating a block for a file shows in no content |
| Growth.TakeAndInstall | parte-1/fs/operations.c:182-193 | Allocating an index block shows in no content |
| Invariant.ProgressKeepsWF | parte-1/fs/operations.c:163-249 | Whatever part of a write is in, the file system is well formed |
| Invariant.GrowsKeepsNoLeak | parte-1/fs/operations.c:163-217 | A write loses no block |
| WriteLoop.WriteEnds | parte-1/fs/operations.c:135-255 | A write that ends leaves the state well formed |
| WriteLoop.StuckEnds | parte-1/fs/operations.c:163-217 | A write that fails for want of a block leaves the state well formed |
| FileSystem.TecnicoFS.constructor | parte-1/fs/operations.c:7-17 | A new file system is formatted and well formed |
| FileSystem.TecnicoFS.CreateRoot | parte-1/fs/state.c:215-251 | The root i-node takes block 0 and all directory entries are unused |
| FileSystem.TecnicoFS.AllocBlock | parte-1/fs/state.c:406-423 | The first FREE block becomes TAKEN and nothing else changes; it fails only when all are TAKEN |
| FileSystem.TecnicoFS.FreeBlock | parte-1/fs/state.c:430-441 | A valid block becomes FREE; an invalid number changes nothing |
| FileSystem.TecnicoFS.FillIndexBlock | parte-1/fs/operations.c:191-193 | The fill with the bound of the code, up to 984 bytes into the third block behind |
| FileSystem.TecnicoFS.BlockToWrite | parte-1/fs/operations.c:163-217 | Finds or allocates the block of the file, mapping nothing else; fails only when no block is FREE |
| FileSystem.TecnicoFS.CopyToBlock | parte-1/fs/operations.c:218-248 | The bytes are in the block, and past its end where they run so far; the offset moved on, the size raised where passed |
| FileSystem.TecnicoFS.WriteStep | parte-1/fs/operations.c:163-249 | One turn of the write loop, the overrunning one included, keeps its invariant, ends it, or finds no block |
| FileSystem.TecnicoFS.Write | parte-1/fs/operations.c:135-255 | A write returns the bytes of its plan and splices them into the content, or returns -1 with exactly the prefix that fitted in; all other files, entries and handles unchanged; the state well formed. A one-block write at an unaligned offset leaves exactly what one copy past its block leaves, and is such a write where the next block lies directly behind |
| FileSystem.TecnicoFS.ReadStep | parte-1/fs/operations.c:298-349 | One turn of the read loop delivers the next bytes of the file, or those behind its block where it overruns |
| FileSystem.TecnicoFS.Read | parte-1/fs/operations.c:257-354 | A read moves the offset by the bytes of its plan and changes nothing else, and what it puts in the buffer is the slice of the content at the offset if and only if it does not overrun, or the block behind starts with the bytes of the file's next block |
| FileSystem.TecnicoFS.CreateFile | parte-1/fs/state.c:215-267 | The first FREE i-node becomes an empty file |
| FileSystem.TecnicoFS.AddDirEntry | parte-1/fs/state.c:322-361 | The first unused entry gets the name and number; it fails only on an empty name, a bad number or a full directory |
| FileSystem.TecnicoFS.FindInDir | parte-1/fs/state.c:370-400 | The scan of fs_data returns what the directory content says |
| FileSystem.TecnicoFS.AddHandle | parte-1/fs/state.c:463-479 | The first FREE entry refers to the file; it fails only when all are TAKEN |
| FileSystem.TecnicoFS.Close | parte-1/fs/state.c:486-502 | Succeeds if and only if the handle is valid and TAKEN, and then frees it and counts it out |
| FileSystem.TecnicoFS.Truncate | parte-1/fs/operations.c:63-88 | Frees the leading mapped blocks up to the code's own count, and the index block when the count says so; stops at the first unmapped one |
| FileSystem.TecnicoFS.Open | parte-1/fs/operations.c:40-130 | An open of a slash and a name hands out the first FREE entry, and that one only, on the file of that name, emptied or at its end if so asked, or on a new empty file under the first unused entry; it answers -1 exactly when the table, the i-nodes or the directory are full, the file cannot be emptied, or there is none and none is to be made; a path of any other form is answered with -1 and changes nothing |
| FileSystem.TecnicoFS.CopyToExternal | parte-1/fs/operations.c:356-398 | A copy of a slash and a name succeeds if and only if that file exists and an open-file entry is FREE, and then emits exactly its whole content, block multiples included; any other path fails; nothing changes |
| FileSystem.TecnicoFS.ReadAll | parte-1/fs/operations.c:385-398 | The read loop until a short read delivers the file from the offset to its end |
| Tables.CreatedKeepsWF | parte-1/fs/state.c:252-262 | A new file is empty and leaves all else well formed |
| Tables.LinkedKeepsWF | parte-1/fs/state.c:349-359 | A new entry for a file that has none leaves the state well formed and no file changed |
| Tables.OpenedKeepsWF | parte-1/fs/state.c:466-474 | A new handle inside its file leaves the state well formed |
| Tables.ClosedKeepsWF | parte-1/fs/state.c:493-502 | A closed handle leaves the state well formed and the count exact |
| Truncation.TruncatesBySize | parte-1/fs/operations.c:63-88 | For a file with no spare blocks truncation goes through if and only if its size is below one block, or below nine and ragged, or past the direct blocks |
| Truncation.TruncationKeepsWFIff | parte-1/fs/operations.c:63-88 | After truncating a non-empty file the state is well formed if and only if it went through and no handle stood past the start |
| Truncation.TruncationLeaksIff | parte-1/fs/operations.c:79-86 | Blocks are lost if and only if an index block that still names some was freed |
| Truncation.TruncateStep | parte-1/fs/operations.c:70-78 | Freeing one block and emptying its slot keeps ownership exclusive |
| Truncation.TruncatedOthers | parte-1/fs/operations.c:63-88 | Truncation, successful or not, changes no other file nor the directory |
| Conservation.TruncationFreesExactly | parte-1/fs/operations.c:63-88 | Truncation of a file with no spare blocks gives back exactly the blocks it held if and only if it has one to ten blocks' worth of bytes |
| Conservation.RunsConserve | parte-1/fs/operations.c:40-354 | Over runs in which writes find their blocks and truncating opens find empty files or files of one to ten blocks, no file has a spare block and the TAKEN blocks are exactly the owned ones |
| Opening.OpenKeepsWFIff | parte-1/fs/operations.c:40-130 | An open leaves the state well formed if and only if it is not a truncation that fails or leaves a handle past the end; blocks stay exclusively owned in any case |
| Opening.CreateKeepsWF | parte-1/fs/operations.c:98-116 | A created file is empty, linked once, and everything else is as it was |
| Opening.NotCreatedKeepsWF | parte-1/fs/operations.c:100-113 | A creation that fails changes no live file, entry or handle |
| OpenOutcome.OpenIsAsAsked | parte-1/fs/operations.c:40-130 | Every effect that the open of the code can have on a file system is one of the outcomes that its caller asked for, in terms of directory, contents and open-file table alone |
| OpenOutcome.AddedIsFound | parte-1/fs/state.c:349-400 | A name of at most 39 bytes that was not there is found, as the new file, once its entry is filled |
| Formatting.FormattedIsWF | parte-1/fs/state.c:170-190 | The initialised file system is well formed, holds no name and has lost no block |
| Laws.WriteTakesExactly | parte-1/fs/operations.c:163-217 | A successful write takes exactly the blocks of its range that were not mapped, and the index block when it first needs it |
| Laws.FailedWriteIsPrefixWrite | parte-1/fs/operations.c:163-248 | A failed write is the successful write of the prefix that fitted |
| Laws.OpenKeepsDirectory | parte-1/fs/operations.c:40-130 | An open that creates nothing leaves the directory alone |
| Laws.CreateKeepsNames | parte-1/fs/operations.c:98-116 | A created file is found under its name if and only if the name has at most 39 bytes; what other names stand for does not change |
| Laws.WriteThenReadBack | parte-1/fs/operations.c:135-354 | What a write puts in, a fresh open of the same file reads back at the same place |
| Misuse.PastLastBlock | parte-1/fs/operations.c:199-210 | The number of a block past the last one that can be mapped is read from and stored in the block behind the index block |
| Misuse.UnopenedWriteRenames | parte-1/fs/operations.c:135-248 | 44 bytes written through a handle that was never opened become the first entry of the root directory |
| Misuse.TwoClosesCountTwice | parte-1/fs/state.c:486-502 | A run in which two idle threads close one open handle: both pass the check, the entry is freed once, the count drops twice and is wrong from then on |
| Runs.RunsAreWF | parte-1/fs/operations.c:40-354 | Every state of every run is well formed: exclusive ownership, covered files, sound entries and handles, exact count |
| Runs.RunsLoseNoBlock | parte-1/fs/state.c:406-441 | Over runs without truncation the TAKEN blocks are exactly the owned ones |
| Runs.RunsKeepNames | parte-1/fs/operations.c:50-121 | Over runs with short names, names are unique and keep their file for ever |
| Deadlock.StepKeepsHeld | parte-1/fs/operations.c:50-125 | After every step a thread holds exactly the locks of its new place |
| Deadlock.WaitsInRankOrder | parte-1/fs/operations.c:143-153 | A lock is only waited for by a thread whose other locks all rank below it |
| Deadlock.FindEnabled | parte-1/fs/state.c:221-262 | Following who waits for whom from any unfinished thread leads to one that can step |
| SharedSteps.StepLands | parte-1/fs/operations.c:40-354 | Every step of every thread, truncation included, keeps the shared data whole and finds what its next place relies on |
| SharedCalm.StepCalm | parte-1/fs/operations.c:40-354 | No step of a thread disturbs what any other thread relies on |
| SharedTruncation.Freeing | parte-1/fs/state.c:430-441 | A block marked FREE before its slot is emptied leaves all other slots exclusively owned |
| SharedTables.Creating | parte-1/fs/state.c:215-262 | A new i-node is referred to by no entry and no handle |
| Reachable.ReachableIsSafe | parte-1/fs/operations.c:40-354 | Every state of every execution satisfies the invariant |
| Guarantees.MutualExclusion | parte-1/fs/state.c:89-131 | No two threads ever hold a lock in conflict, have one block in hand, or know a file that one of them is still making |
| Guarantees.ExclusiveOwnership | parte-1/fs/operations.c:63-217 | At every moment every block held is in range, TAKEN and held once, but for the slots of a file being truncated under its lock |
| Guarantees.AllocationIsExclusive | parte-1/fs/state.c:406-423 | Concurrent first-fit scans never hand out a block twice |
| Guarantees.NoDeadlock | parte-1/fs/operations.c:50-153 | Every reachable state with an unfinished thread has an unfinished thread that can step |
| EmptyWrite.EmptyWriteBlocks | parte-1/fs/operations.c:143-155 | After a write of no bytes, while its thread starts nothing, no other thread ever holds the lock of that entry or file, and one that asks for either cannot step |
| Guarantees.NamesStayUnique | parte-1/fs/operations.c:50-121 | Under any interleaving of opens with short names, names and i-numbers of entries stay unique, and a name keeps its file |
| Guarantees.LookupIsFind | parte-1/fs/state.c:388-400 | What the entry-by-entry scan of an open comes upon is what the name stands for at that moment |
| SharedContents.StepShown | parte-1/fs/operations.c:135-354 | While nobody truncates, no step changes a content but the copy of a write, which splices its piece into its own file |
| Aside.StepShownOutside | parte-1/fs/operations.c:40-354 | Whatever is truncated elsewhere, no step changes the content of a file that nobody truncates but the copy of a write to it, and its blocks stay there |
| SerialSteps.StepAccepted | parte-1/fs/operations.c:135-354 | Whatever is truncated elsewhere, each operation on a file that nobody truncates is recorded with a result that is legal for it at that moment |
| SerialRuns.Serialisable | parte-1/fs/operations.c:143-153 | Whichever files are truncated in the run, the operations recorded on the others are a legal serial history; every such file at rest, and every handle at rest, is what that history leaves |
| SerialRuns.TransfersAreIsolated | parte-1/fs/operations.c:266-277 | A transfer under way on a file that nobody truncates sees and leaves it as if nobody else were there; on any file it is the only one |
| SerialRuns.RecordedUnderLocks | parte-1/fs/operations.c:143-153 | Reads and writes are recorded while their thread holds the file's lock, so the history follows the lock order |
| Record.CopiesOfTheCode | parte-1/fs/operations.c:163-249 | A transfer of the interleaved model makes the copies of the code's loop one after the other and ends with it |
| Record.WritesAreWhole | parte-1/fs/operations.c:135-255 | A recorded write has in all the bytes that the code moves for its buffer, unless its scan found no FREE block; the bytes on record are the first ones of the buffer |
| Record.ScanSawTaken | parte-1/fs/state.c:406-423 | Each block that a scan has gone past was TAKEN when the scan held its lock |
| Record.PositionIsDecided | parte-1/fs/operations.c:50-125 | The offset that a thread carries to the open-file table is the one its open decided on under the lock of the file |
| Record.OpensAreAsDecided | parte-1/fs/operations.c:50-125 | A recorded open filled a FREE entry with its file at the end of it, if it appends and did not empty it, and at its start otherwise |
| Record.AppendsAtTheEnd | parte-1/fs/operations.c:90-94 | The size that an append goes by is the length of the file in the serial history of that moment |
| Record.NobodyTruncates | parte-1/fs/operations.c:63-65 | In a run whose opens do not ask for truncation every file is one that nobody truncates |
| Answered.HandedIsEarned | parte-1/fs/operations.c:50-125 | A thread that is handed a handle opened a name and, under the locks, found its file, emptied it after giving back every block that the truncation has to, or made it, when the flags asked for it; the handle is the first entry it did not see TAKEN, and nothing but that entry changes |
| Answered.FailureIsEarned | parte-1/fs/operations.c:50-125 | A thread that is told that its open failed saw no entry answer to the name and was not to make the file or saw every i-node TAKEN; or lacked a block to free; or found the directory full and gave the i-node back; or saw all open-file entries TAKEN |
| Answered.NothingUnasked | parte-1/fs/operations.c:98-120 | An open without the create flag makes no file and fills no entry at any step; without the truncate flag either it changes nothing before it comes to the table |
| Answered.DeclinedIff | parte-1/fs/operations.c:156-161 | A write is declined if and only if the bytes that the code would move end past the block map, with both locks held, and then it changes nothing |
| Answered.CloseIsEarned | parte-1/fs/state.c:486-502 | A close that succeeds saw its entry TAKEN under the lock and frees it and lowers the count; one that fails found it FREE and changes nothing |
| Finishing.StepReports | parte-1/fs/operations.c:40-354 | A step puts a result on record if and only if it takes its operation to the end, or to where only locks are left to release |
| Finishing.OneReport | parte-1/fs/operations.c:40-354 | Every operation puts exactly one result on record |
| Finishing.StepGoesOn | parte-1/fs/operations.c:40-354 | Every step of a thread lowers the number of steps that its operation has left |
| Finishing.StepsRunOut | parte-1/fs/operations.c:40-354 | Over any run an operation takes no more steps of its own than were left at its start, whatever the other threads do |
| Lost.StepLoses | parte-1/fs/operations.c:63-217 | A step of any thread loses the blocks that an index block it frees still names, and no others; nothing lost comes back |
| Lost.OnlyFreedIndexLoses | parte-1/fs/operations.c:63-88 | At every moment of every run the TAKEN blocks that neither a slot nor a thread holds are exactly those that index blocks named when truncations freed them |
| Lost.TakenIsHeld | parte-1/fs/state.c:406-441 | As long as no index block that names it is freed, a TAKEN block is in a slot or in the hand of a thread about to put it there |
| Wire.EncodeSize | parte-2/client/tecnicofs_client_api.c:128 | The eight bytes of a size read back as that size |
| Wire.NameArrives | parte-2/client/tecnicofs_client_api.c:90-91 | A name in its zero-filled field is read back if and only if it has at most 39 bytes |
| Wire.FieldsOf | parte-2/client/tecnicofs_client_api.c:37-167 | Each field of each request lies where the server looks for it |
| Wire.FrameOfEncoded | parte-2/fs/tfs_server.c:67-166 | The receiver cuts the stream exactly where the client's request ends |
| Wire.DecodeEncoded | parte-2/fs/tfs_server.c:188-299 | What the case functions read out of the buffer is the request, whatever the rest of the buffer holds |
| Wire.StreamRoundTrip | parte-2/fs/tfs_server.c:67-299 | Any list of requests written one after the other is read back exactly, with no byte left |
| Wire.StreamIsUnambiguous | parte-2/client/tecnicofs_client_api.c:37-167 | No two lists of requests give the same bytes |
| Pipes.WriteBuffer | parte-2/fs/state.c:128-140 | All bytes go into the pipe in order, whatever the pieces |
| Pipes.ReadBuffer | parte-2/fs/state.c:110-122 | The buffer gets exactly the bytes asked for, whatever the pieces |
| Pipes.BuildOpen | parte-2/client/tecnicofs_client_api.c:83-92 | The buffer of tfs_open is the encoding of its request |
| Pipes.BuildMount | parte-2/client/tecnicofs_client_api.c:37-41 | The buffer of tfs_mount is the encoding of its request |
| Pipes.BuildShort | parte-2/client/tecnicofs_client_api.c:57-62 | The buffers of unmount and shutdown are the encodings of their requests |
| Pipes.BuildClose | parte-2/client/tecnicofs_client_api.c:103-109 | The buffer of tfs_close is the encoding of its request |
| Pipes.BuildWrite | parte-2/client/tecnicofs_client_api.c:121-129 | The buffer of tfs_write is the encoding of its request |
| Pipes.BuildRead | parte-2/client/tecnicofs_client_api.c:141-148 | The buffer of tfs_read is the encoding of its request |
| Pipes.Send | parte-2/client/tecnicofs_client_api.c:193-204 | Sending appends exactly the encoding of the request to the pipe |
| Pipes.Receive | parte-2/fs/tfs_server.c:67-166 | One turn of the receiver for any counts that its three plain reads bring: the buffer, the variables and the rest of the pipe |
| Pipes.ReceivedIff | parte-2/fs/tfs_server.c:98-147 | A request arrives as sent, and the next is not touched, if and only if its plain reads are whole and its session id is in range |
| Pipes.ReceiveAll | parte-2/fs/tfs_server.c:63-176 | The server takes a stream of requests apart into exactly the requests sent, when each lies in the pipe as a whole before its turn |
| Pipes.ReadReplyIsFramed | parte-2/client/tecnicofs_client_api.c:153-160 | The reply of a read is taken whole if and only if it brings a byte or none was asked for, a reply of -1 if and only if four bytes were asked for; the client waits for ever exactly when a read of some bytes finds none |
| Handshake.StepKeeps | parte-2/fs/tfs_server.c:63-397 | Every step of clients, receiver and workers keeps the invariant of the protocol |
| Handshake.NothingOverwritten | parte-2/fs/tfs_server.c:102-112 | When the receiver holds a session to post into it, no request in it is unanswered |
| Handshake.Served | parte-2/fs/tfs_server.c:350-394 | A busy worker serves the one outstanding request of the client it will reply to |
| Remote.RemoteRefinesSerial | parte-2/fs/tfs_server.c:346-397 | The file system is what a serial run of the recorded operations leaves; each has its result there, or was refused after destruction; each client's requests are on record in program order, each once, and what it heard are their answers in order, each once |
| Remote.HeardIsFramed | parte-2/client/tecnicofs_client_api.c:150-160 | Whatever a client has heard, its calls took whole |
| Remote.UnframedWaitsForEver | parte-2/client/tecnicofs_client_api.c:153-157 | A client whose answer does not fit its call is never heard of again: one that was answered with no byte waits for ever; one that was told -1 after it asked for fewer than four bytes is followed no further |
| Remote.LateOpensAreRefused | parte-2/fs/operations.c:121-127 | Once destroyed with no checked operation past the check, every one that goes on record was refused, whatever the service answers then |
| Remote.PostedIsOutstanding | parte-2/fs/tfs_server.c:168-175 | A posted request whose session lock is free is its client's one outstanding request, not yet executed, and its worker is awake |
| Remote.NeverOverwritten | parte-2/fs/tfs_server.c:168-175 | No post overwrites a request that is not yet answered |
| Remote.OneShutdown | parte-2/fs/tfs_server.c:354-367 | At most one worker ever enters case_shutdown |
| Remote.RecordedWhen | parte-2/fs/tfs_server.c:188-397 | Each entry on record was put there by a step that found it deserved: an operation run on the files of that moment, a refusal with open_flag 0, a destruction with the service quiet and open_flag 1 |
| Remote.DestructionWasQuiet | parte-2/fs/operations.c:37-46 | A shutdown answered with Ok went on record at a moment when the service was quiet |
| Remote.OneDestruction | parte-2/fs/tfs_server.c:354-367 | At most one shutdown is ever answered with Ok |
| Sessions.OwnSession | parte-2/fs/tfs_server.c:70-96 | A client with a session id has one in range that no other client has, and the worker of that session answers to its pipe |
| Sessions.IdleSessionsAreBlank | parte-2/fs/tfs_server.c:390-392 | A session that is not active holds no request |
| Sessions.StopsWhenTold | parte-2/fs/tfs_server.c:301-316 | The server stops at the moment at which it has sent the word that the file system is destroyed to the client that asked for it, and at no other |
| Sessions.ShutdownEndsSession | parte-2/fs/tfs_server.c:354-367 | Whoever has a shutdown on record, granted or refused, has a worker that serves nothing more |
| Progress.NoStall | parte-2/fs/tfs_server.c:350-394 | The next step on the way of a waiting client is possible if and only if none of three hindrances stands (a mount past the limit, its own shutdown while the service is not quiet, an unframed answer), and it lowers the distance to the reply; it is never another request nor a spurious wakeup |
| Progress.ReplyIsReachable | parte-2/fs/tfs_server.c:63-397 | A client that waits for anything but a shutdown has its reply out after at most that many steps, if the mounts before it find sessions |
| SingleBlock.WriteSplicesLocally | parte-2/fs/operations.c:146-187 | A local write splices all its bytes, or those up to the end of the block, and returns how many; it fails if and only if there is something to write, the file is empty and no block is FREE; all other files and the tables are as they were |
| SingleBlock.ReadSlicesLocally | parte-2/fs/operations.c:199-231 | A local read returns the rest of the file cut at the length asked |
| SingleBlock.EmptiedKeepsWFIff | parte-2/fs/operations.c:81-88 | Truncation leaves the state well formed if and only if no handle stood past the start |
| SingleBlock.OpenExistingLocally | parte-2/fs/operations.c:73-95 | An open of a file stands at its start or its end, on the content or on nothing, and is safe if and only if its truncation is |
| SingleBlock.CreateLocally | parte-2/fs/operations.c:96-108 | A created file is empty under the first unused entry |
| SingleBlock.CreateKeepsNamesIff | parte-2/fs/operations.c:68-108 | A creating open keeps names unique if and only if nothing answers to the stored part of the path behind its first byte |
| SingleBlock.PathWithoutSlashDuplicates | parte-2/fs/operations.c:48-108 | A path without a slash makes a second entry for a name that is there already |
| LocalOutcome.LocalOpenFinds | parte-2/fs/operations.c:68-119 | A local open of a slash and the name of a file hands out the first FREE entry on it, at its start or its end, emptied if so asked, and changes nothing else; with a full table it answers -1 |
| LocalOutcome.LocalOpenMakes | parte-2/fs/operations.c:48-119 | A local open of any other path makes an empty file named by what follows the first byte, if so asked, or answers -1 and changes nothing; it answers -1 exactly when the name is empty or i-nodes, directory or table are full |
| LocalOutcome.CloseFreesLocally | parte-2/fs/state.c:405-418 | A local close answers 0 if and only if the handle is valid and TAKEN, and then frees that entry and no other and lowers the count; otherwise it answers -1 and changes nothing |
| LocalFileSystem.LocalFS.constructor | parte-2/fs/operations.c:10-23 | A new file system is formatted and well formed |
| LocalFileSystem.LocalFS.Write | parte-2/fs/operations.c:146-187 | The update in place is the local write, of which `WriteSplicesLocally` says what it does |
| LocalFileSystem.LocalFS.Read | parte-2/fs/operations.c:199-231 | The buffer, the offset and the result are those of the local read |
| LocalFileSystem.LocalFS.Close | parte-2/fs/state.c:405-418 | The update in place is the local close, of which `CloseFreesLocally` says what it does |
| LocalFileSystem.LocalFS.Open | parte-2/fs/operations.c:68-119 | The update in place, which leaves the number of a freed block behind, is the local open, of which `LocalOpenFinds` and `LocalOpenMakes` say what it does |
| RemoteFiles.RemoteFilesAreWF | parte-2/fs/operations.c:121-241 | Over every run of remote clients the file system is well formed and is what their operations leave one after the other |
| RemoteFiles.RemoteReadIsSlice | parte-2/fs/tfs_server.c:273-299 | The answer of a remote read is a slice of the file as the earlier operations left it, and the offset moves on by its length |
| RemoteFiles.RemoteWriteIsSplice | parte-2/fs/tfs_server.c:249-271 | A remote write is answered with all its bytes, or with those up to the end of the block, and spliced exactly these; it is answered with -1 if and only if the file was empty and no block FREE; nothing else changed |
| RemoteFiles.ReadIsHeardIff | parte-2/client/tecnicofs_client_api.c:153-160 | An answered remote read can be heard if and only if it brings a byte or none was asked for, or, through an invalid handle, four bytes were asked for |
| RemoteFiles.ReadAtEndWaitsForEver | parte-2/client/tecnicofs_client_api.c:157 | A client that reads at the end of its file and asks for at least one byte waits for ever |
| RemoteOutcome.RemoteOpen | parte-2/fs/operations.c:68-134 | A remote open is answered as an open of its path on the files as the earlier operations left them, or, after destruction, with -1 and no change |
| RemoteOutcome.RemoteClose | parte-2/fs/operations.c:136-143 | A remote close is answered with 0 if and only if its handle is open at that moment, and frees that entry alone; no close is refused |
| RemoteOutcome.QuietIff | parte-2/fs/operations.c:37-46 | The server may destroy the file system if and only if no open-file entry is TAKEN |
| RemoteOutcome.RemoteShutdown | parte-2/fs/operations.c:37-46 | A shutdown answered with Ok found no open handle, and is the only one so answered |
| RemoteOutcome.ShutdownGoesOnIff | parte-2/fs/operations.c:37-46 | A worker that waits to shut down can go on if and only if no handle is open |
| RemoteOutcome.OpensAfterDestruction | parte-2/fs/operations.c:121-127 | Once destroyed with no open past the check, every open that goes on record is answered with -1 and changes nothing |
| RemoteCalls.ServedAsAsked | parte-2/fs/tfs_server.c:67-299 | A call that fits its buffers, sent in whole, is received, decoded and served as the operation that the client asked for, flags included, and the rest of the stream is left alone |
| RemoteCalls.FlagBits | parte-2/common/common.h:5-9 | The three low bits of the int that an open carries are its flags for creation, truncation and appending, whatever the bits above them |
| RemoteCalls.AnsweredAsSent | parte-2/client/tecnicofs_client_api.c:93-167 | The call returns the answer that was sent and leaves nothing of it in the pipe if and only if the answer fits the call |
| RemoteCalls.AnswerNumber | parte-2/fs/tfs_server.c:188-316 | An answer starts with its number, in eight bytes for a transfer and in four otherwise: the session id, the result, 0 for done, or -1 for a refused shutdown |
| RemoteCalls.RecordedIsSent | parte-2/fs/tfs_server.c:188-299 | Every answer on record, to operations, mounts, unmounts and shutdowns, is one that the bytes of its reply can carry |
| Shutdown.CountIsExact | parte-2/fs/state.c:385-418 | Whenever its mutex is free, open_files_count is the number of TAKEN entries |
| Shutdown.DestroyedOnlyWhenClosed | parte-2/fs/operations.c:37-46 | Destruction happens only at a moment when no file is open |
| Shutdown.NobodySleepsAtZero | parte-2/fs/state.c:411-414 | When the count is zero and its mutex is free, nobody sleeps waiting for it |
| Shutdown.LateOpensFail | parte-2/fs/operations.c:121-127 | An open that starts after destruction never gets a handle: it waits for the check or has returned -1 |
| Shutdown.RestLastsForever | parte-2/fs/operations.c:37-46 | If no open was past the check at destruction, nothing is ever open again |
| Shutdown.EarlyOpenSlipsThrough | parte-2/fs/operations.c:121-134 | A run in which an open that passed the check before destruction opens a file after it |
| ShutdownOutcome.OpenReturns | parte-2/fs/operations.c:121-134 | An open beside the destroyer returns the first FREE entry, which it took and counted after it saw open_flag set; or -1 after it saw it cleared, or failed in its body, or found the table full, and then the table is untouched |
| ShutdownOutcome.CloseReturns | parte-2/fs/state.c:405-418 | A close beside the destroyer returns 0 after it freed its entry, which was TAKEN, and counted it out; or -1 after it saw that it is none, and then the table is untouched |
| ShutdownOutcome.EndReturns | parte-2/fs/operations.c:37-46 | The destroyer returns 0 after it found the count zero and cleared open_flag without letting go of the mutex in between |
| Reopening.OpensAgainIff | parte-2/fs/operations.c:121-134 | From every reachable destroyed state a file can be open again if and only if one is open or an open is past the check of open_flag |

## Left out

- Delays, logging, and mutex and rwlock set-up, teardown and errors: no effect on the state modelled.
- Named pipes, `open`, `unlink`, `mkfifo`, SIGPIPE, end of file and failed reads: a FIFO of bytes in which each request is contiguous (POSIX.1-2017, `write()`, for at most PIPE_BUF bytes).
- The external file of the copy function: an output sequence; errors of `fopen`, `malloc` and `fwrite` are not modelled.
- Mounts past the 63rd and `handle_too_many_clients`: the receiver of the model takes no mount once 63 sessions are given out.
- Between the shutdown reply and the exit of the process: the protocol machine stops at the reply.
- A `write()` of more than SSIZE_MAX bytes, which POSIX.1-2017 leaves to the implementation: taken to fail, as it does on Linux.
- A second `tfs_init` after destruction, and more than one thread in `tfs_destroy_after_all_closed` at a time.
- Fairness: each next step is shown possible and to lower the distance to the reply, not that a scheduler takes it.
- `inode_delete` of files that are not empty: the only call passes a fresh one.
- Handles are not checked before use: reads and writes ask for a handle that stands inside a live file (`Invariant.Usable`), as every open one does.
- Offsets past the size, after a truncation under a handle, make the unsigned subtraction wrap: reads ask for a usable handle; in the interleaved model such a read returns nothing.
- FileSystem.TecnicoFS.Write: asks (`Confined`) that the write stays inside fs_data and below the maximum size (`Misuse.PastLastBlock` says what happens there), that a new index block can be filled without harm (the condition of `IndexRoom.FillInstallsIff` for the block that first-fit will pick, with none of the three behind it a direct block of the file, whose bytes the write may change before), and that the handle stands inside a live file.
- FileSystem.TecnicoFS.WriteStep: asks for the same as `Write`.
- FileSystem.TecnicoFS.BlockToWrite: asks that a new index block can be filled without harm, as `Write` does.
- FileSystem.TecnicoFS.FillIndexBlock: asks that the three blocks behind exist, because the fill otherwise leaves the array.
- FileSystem.TecnicoFS.Read: asks (`ReadConfined`) that the read stays inside fs_data, and that the handle stands inside a live file.
- LocalFileSystem.LocalFS.Write: asks that the handle stands inside a live file; an entry that was never opened refers to the root directory, which the C code then overwrites.
- LocalFileSystem.LocalFS.Read: asks that the handle stands inside a live file, as `Write` does.
- SerialRuns.Serialisable: says nothing of the contents of files that threads truncate in the run, because a truncation under another handle leaves offsets past the size.
- SerialRuns.TransfersAreIsolated: says nothing of the contents of files that threads truncate in the run, as `Serialisable`.
- SharedContents.StepShown: is the case of `Aside.StepShownOutside` in which nobody truncates.
- SerialSteps.StepAccepted: a recorded write may be any prefix of its buffer for the specification; `Record.WritesAreWhole` says which one it is.
- Guarantees.NoDeadlock: speaks of runs without writes of no bytes, which keep their locks (`EmptyWrite.EmptyWriteBlocks`), and without transfers through handles that were never opened.
- The interleaved model: transfers through handles that were opened at some time, closes of handles in range (the C code takes the lock of the entry before it looks), and writes of at least one byte; taking and initialising an i-node is one step; work under a lock and the release that follows it are one step; a failed write is recorded as the write of the prefix that went in.
- The interleaved model repairs the one-block transfer at an unaligned offset, the index fill and the missing size check; the sequential model keeps them.
- Remote.UnframedWaitsForEver: the machine stops at the answer that does not fit its call; after a -1 to a read of fewer than four bytes the call of the C code returns, with bytes left in its pipe.
- LocalFileSystem.LocalFS: shares the tables and scans of `FileSystem.TecnicoFS`, which are the same code in both parts but for the locks and for i_data_block, which is direct slot 0.
- SingleBlock.LocalOpen: an empty path has another NUL behind it, as in the zero-filled field of a request; given to `tfs_open` directly, the C code reads the byte behind the string.
- Wire.Encode: names of 40 bytes or more and writes of more than 2031 bytes, which overrun the C buffers, have no encoding.
- Protocol: the op code 0 of an empty buffer and unknown op codes are not sent by any client.
