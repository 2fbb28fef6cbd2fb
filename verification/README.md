# Verification of xv6: storage, memory, protocols and small algorithms

This project models the parts of this xv6 (for RISC-V) where most of its logic is, and
proves what they promise: the crash-safe storage stack from the disk driver up to
directories, the address spaces, the sleep-and-wakeup protocols, and three user
algorithms.  It is Dafny 4.11; `dafny verify dfyconfig.toml` checks all of it.

Code that changes state in place is a class whose methods have the loops of the source
and are proved against functions and predicates on values (the `*Spec` modules).
Protocols in which processes, the device or crashes interleave are step systems, with
theorems over all runs.

| file | what it models |
|---|---|
| `Common.dfy`, `DiskBlocks.dfy` | options, sizes of finite sets; disk blocks as bytes and words |
| `LogSpec.dfy` | the redo log on disk: commit and recovery as sequences of disks, and crashes between any two writes |
| `LogProtocol.dfy`, `LogSpace.dfy`, `LogRuns.dfy`, `LogCapacity.dfy` | begin_op, log_write, end_op, commit, recovery and crashes in any interleaving, and how large the log must be |
| `BufferCache.dfy` | the LRU buffer cache over a disk |
| `RedoLog.dfy` | kernel/log.c over that cache |
| `FsSpec.dfy`, `FileSystem.dfy` | block allocation, bmap, itrunc, iupdate, readi, writei and filewrite, with the inodes in their blocks |
| `FsImage.dfy`, `FileCrash.dfy` | the disk that mkfs lays out; crashes in the middle of a filewrite, through the log |
| `LinkSpec.dfy`, `NameSpec.dfy`, `Directories.dfy` | directories, link counts and what names lead to: link, unlink and create |
| `VmSpec.dfy`, `Vm.dfy` | the page allocator, three-level page tables and user address spaces |
| `UserCopy.dfy` | copyout, copyin and copyinstr |
| `Virtio.dfy` | the virtio disk driver and the device behind its queue |
| `Pipe.dfy` | pipes |
| `SleepLock.dfy`, `WaitExit.dfy` | sleep locks; fork, wait and exit; both down to the single lock operations of sleep and wakeup |
| `Umalloc.dfy` | malloc and free |
| `ShellSpec.dfy`, `Shell.dfy` | the shell's parser |
| `ShellGrammar.dfy`, `ShellLayout.dfy` | the shell's grammar, and command lines as text |
| `Grep.dfy` | the regular expression matcher |

Results worth knowing:

- The log guard of log_write runs before the search for a block already logged, and mkfs
  makes the log LOGSIZE blocks with the header included.  So the reservation of begin_op
  does not rule out the panic: `AddingPanicsExactly` gives the exact condition for new
  blocks, a log of more than LOGSIZE blocks, and `AbsorbingPanicsExactly` shows that no
  log is large enough for blocks logged before.  In a longer log a transaction of NBUF
  blocks, which is LOGSIZE, would pin every buffer, and write_log could not read a slot
  (`NoneToSpare`).
- A link count is a short.  link keeps the counts right if and only if the count was
  below 32767 (`LinkGood`), and `LinkOverflows` shows an image where it was not.
- create cannot overflow a link count: a directory has at most 17152 entries, and each of
  its links is one of them or a subdirectory's (`DirCountSmall`).
- The second failure path of proc_pagetable cannot be taken: the trapframe lies under the
  tables that the trampoline has just got (`TopPaths`).
- The driver computes the sector in 32 bits: it asks for the right place if and only if the
  block number is below 2^31 (`SectorExactly`).
- growproc with a negative amount larger than the process wraps around and changes
  nothing, and reports success.
- A failing mappages leaves a prefix of its pages mapped; its callers in this kernel map
  one page at a time, and their own failure paths do restore everything.

Premises.  There is one device, and its block numbers and sizes are those of a laid-out
disk.  Copies between user and kernel inside writei, readi and pipes succeed, as they do
for kernel addresses.  The file system starts without holes.  Directory operations are
given the results of path lookup, with a parent directory that is still linked.  Each
file-system call runs as one transaction; a spinlock makes its region one step.  While a
commit runs other processes may read and release home blocks that it does not write; one
that wants such a block waits for its lock.  The address that sbrk returns and the room
left in a directory are parameters.

## Model

| member | source | states |
|---|---|---|
| `LogSpec.RecoverValue` | kernel/log.c:69-83 | After recovery every home block holds the log copy of its last entry in the header, or its old contents if the header does not name it. |
| `LogSpec.RecoveryStep` | kernel/log.c:69-83 | The disks of a recovery are those that its single block writes produce one after the other. |
| `LogSpec.RecoveryCrashSafe` | kernel/log.c:117-123 | Stopping recovery after any number of its writes leaves a well-formed disk from which recovery yields the same home blocks. |
| `LogSpec.RepeatedCrashesSafe` | kernel/log.c:117-123 | The same for any number of crashes, each during the recovery from the one before. |
| `LogSpec.CommitStep` | kernel/log.c:179-203 | The disks of a commit are those that its single block writes (log slots, header, home blocks, empty header) produce one after the other. |
| `LogSpec.CommitTraceAt` | kernel/log.c:179-203 | The sequence of disks that the commit loop leaves is, write by write, that of the specification. |
| `LogSpec.CommitPointValue` | kernel/log.c:103-114 | Recovering from the disk at the commit point gives each logged block its cached contents and every other home block its old ones. |
| `LogSpec.CommitAtomic` | kernel/log.c:194-203 | For every prefix of the writes of a commit, recovery yields all old home blocks or all new ones, and new exactly when the header write was among them. |
| `LogSpec.CommitComplete` | kernel/log.c:194-203 | A finished commit has installed every logged block, changed no other home block and left an empty log. |
| `LogSpec.CommitThenCrashes` | kernel/log.c:68-123 | A crash after any prefix of a commit and any number of further crashes in recovery leave the home blocks all old or all new, new exactly when the header write was done. |
| `LogSpec.CrashAfterAnyWrite` | kernel/log.c:178-203 | The same stated of the very disks that the commit loop writes, one by one. |
| `LogRuns.NextInv` | kernel/log.c:127-235 | Every step of begin_op, log_write, end_op, commit, recovery and crash keeps the bookkeeping, contents and reservation invariants. |
| `LogRuns.RunInvariant` | kernel/log.c:127-235 | Those invariants hold in every state of every interleaving. |
| `LogRuns.CrashSafety` | kernel/log.c:127-203 | At every point of every run, recovering from the disk as it stands gives exactly the effect of the committed calls, each whole; no committed call is still running; while a commit is in progress no call is outstanding. |
| `LogRuns.CommittedForever` | kernel/log.c:147-175 | A call once committed stays committed over all later steps and crashes. |
| `LogRuns.NoLostLogWakeup` | kernel/log.c:127-142 | In every run a call sleeps in begin_op only while a commit runs or the log has no room for one more call, and end_op never finds a commit in progress. |
| `LogRuns.CommitMovesOn` | kernel/log.c:194-203 | In every run a commit that has begun can take its next step, up to its end, so that those who wait for it do not wait for ever. |
| `LogRuns.RecoveryMovesOn` | kernel/log.c:117-123 | The same for a recovery. |
| `LogRuns.EndMovesOn` | kernel/log.c:147-175 | In every run a running call can end. |
| `LogRuns.BeginMovesOn` | kernel/log.c:127-142 | In every run, when no call and no commit is running, nobody sleeps in begin_op and a new call can begin. |
| `LogRuns.EnoughLogNeverPanics` | kernel/log.c:215-235 | If the log has more than LOGSIZE blocks, a call within its MAXOPBLOCKS can add a block in every interleaving without tripping the size guard. |
| `LogCapacity.ShortLogPanics` | kernel/log.c:220-221 | With at most LOGSIZE log blocks there is a run in which a call within its share trips the guard while adding a block. |
| `LogCapacity.AbsorbedWritePanics` | kernel/log.c:220-230 | Because the guard comes before the search for the block, there is, for every log with a slot, a run in which a write that needs no new slot trips it. |
| `LogCapacity.AbsorbingPanicsExactly` | kernel/log.c:220-230 | Writing again a block that is in the log never panics in any run if and only if the log has no slot at all. |
| `LogCapacity.WritePanicsExactly` | kernel/log.c:220-223 | In every run, a call that may write panics if and only if LOGSIZE blocks are logged or the log region is full; the guard on outstanding calls never fires. |
| `LogCapacity.AddingPanicsExactly` | mkfs/mkfs.c:25 | Adding a block never panics in any run if and only if the log has more than LOGSIZE blocks, header included; mkfs makes it LOGSIZE. |
| `BufferCache.BCache.constructor` | kernel/bio.c:37-53 | binit links all buffers into a well-formed circular list; the cache shows the disk and holds no reference. |
| `BufferCache.BCache.PushFront` | kernel/bio.c:46-52 | Inserting after the head puts the buffer first in the order and keeps the double links inverse to each other. |
| `BufferCache.BCache.Unlink` | kernel/bio.c:128-129 | Unlinking removes exactly that buffer from the order and keeps the links well formed. |
| `BufferCache.BCache.FindCached` | kernel/bio.c:66-73 | The forward scan finds the one buffer of the block, or none if and only if the block is not cached. |
| `BufferCache.BCache.FindUnused` | kernel/bio.c:77-88 | The backward scan finds the least recently released unreferenced buffer, or none if and only if all are referenced. |
| `BufferCache.BCache.BGet` | kernel/bio.c:59-89 | At most one buffer per block; a miss recycles the least recently used unreferenced buffer and never a referenced one; it fails exactly when the block is not cached and all buffers are referenced. |
| `BufferCache.BCache.BRead` | kernel/bio.c:93-103 | The locked buffer holds what an uncached disk would show for the block, and nothing that the cache shows changes. |
| `BufferCache.BCache.BWrite` | kernel/bio.c:107-112 | Exactly this block of the disk becomes the buffer's data, as one more write in the trace; the view is unchanged. |
| `BufferCache.BCache.SetData` | kernel/bio.c:93-112 | Changing a locked buffer changes exactly its block of the view and no block of the disk. |
| `BufferCache.BCache.BPin` | kernel/bio.c:140-144 | One more reference to the block, and nothing else. |
| `BufferCache.BCache.BUnpin` | kernel/bio.c:147-151 | One reference less, and nothing else. |
| `BufferCache.BCache.BRelse` | kernel/bio.c:117-137 | One reference and the lock are gone; the order is unchanged while references remain, else the buffer moves to the front. |
| `BufferCache.BCache.CleanView` | kernel/bio.c:59-137 | A block without references shows its contents on disk, so that a pinned block is the only kind that can differ. |
| `BufferCache.BCache.AllReferenced` | kernel/bio.c:88 | The panic of bget needs as many distinct referenced blocks as there are buffers. |
| `RedoLog.Log.WriteHead` | kernel/log.c:103-114 | In one disk write the header block becomes the count and the block numbers as little-endian words, its other bytes as they were, and nothing else changes, whatever other processes hold. |
| `RedoLog.Log.ReadHead` | kernel/log.c:87-97 | Reads back the list that the words of the header block encode, and changes nothing else. |
| `RedoLog.Log.WriteLog` | kernel/log.c:179-191 | The loop's disk writes are those of the specification: slot after slot receives the cached contents of its pinned block; buffers that other processes hold stay theirs. |
| `RedoLog.Log.InstallTrans` | kernel/log.c:69-83 | The loop's disk writes are those of recovery, and afterwards only what other processes hold is referenced. |
| `RedoLog.Log.ReadDuringFill` | kernel/bio.c:93-103 | A process that reads a home block while write_log runs gets its contents and disturbs nothing that the commit relies on. |
| `RedoLog.Log.DropDuringFill` | kernel/bio.c:117-137 | Releasing a block while write_log runs disturbs the commit as little. |
| `RedoLog.Log.ReadDuringInstall` | kernel/bio.c:93-103 | The same for a reader while install_trans runs. |
| `RedoLog.Log.DropDuringInstall` | kernel/bio.c:117-137 | The same for a release while install_trans runs. |
| `RedoLog.Log.Commit` | kernel/log.c:194-203 | The trace of disks is that of the specified commit (none for an empty log), every home block of the view is on disk, the log is empty, and other processes keep the buffers they hold. |
| `RedoLog.Log.RecoverFromLog` | kernel/log.c:117-123 | The trace of disks is that of the specified recovery, ending in the recovered disk with an empty log. |
| `RedoLog.Log.BeginOp` | kernel/log.c:127-142 | The call goes on exactly when no commit runs and the reservation fits, and is then counted. |
| `RedoLog.Log.FindEntry` | kernel/log.c:225-228 | Finds the first entry of the list with that block, or its end. |
| `RedoLog.Log.LogWrite` | kernel/log.c:215-235 | Panics exactly by the two guards; otherwise absorbs the block into the list, pinning it when it is new. |
| `RedoLog.Log.UpdateBlock` | kernel/log.c:215-235 | bread, change and log_write of a home block while others hold what they hold: panics exactly by the guards, else the view changes at that block only and the log stays ready. |
| `RedoLog.Log.ChangeLogged` | kernel/log.c:215-235 | The holder of a buffer changes it, logs it and releases it: panics exactly by the guards, else the view changes at that block, which is pinned once per transaction. |
| `RedoLog.Log.UpdateHolding` | kernel/fs.c:407-416 | The nesting of bmap and balloc: a block is updated while another is held, and the held one is changed after it; both are logged in that order. |
| `RedoLog.Log.EndOp` | kernel/log.c:147-175 | The last call out commits everything logged; for any other call nothing in the cache, on disk or in the log changes; a commit in progress is a panic. |
| `RedoLog.Log.TwoCalls` | kernel/log.c:127-175 | Group commit: two calls that overlap and change a block each are committed by the end of the second as one transaction. |
| `RedoLog.Log.NoneToSpare` | kernel/bio.c:76-88 | With as many blocks logged as there are buffers, every buffer is pinned and no log slot is cached, so that bread in write_log panics. |
| `RedoLog.CommitOutcome` | kernel/log.c:194-203 | What a commit leaves on disk is the view it started from, outside the log. |
| `FsSpec.SetBitAt` | kernel/fs.c:75-77 | Setting a bit of a bitmap byte changes that bit only. |
| `FsSpec.ClearBitAt` | kernel/fs.c:99-102 | Clearing a bit of a bitmap byte changes that bit only. |
| `FsSpec.MarkAt` | kernel/fs.c:72-105 | Marking block b in its bitmap block changes whether b is in use, for no other block. |
| `FsSpec.InvAlloc` | kernel/fs.c:66-88 | Allocating a free block keeps the ownership invariant with the block held outside any inode. |
| `FsSpec.InvFree` | kernel/fs.c:92-105 | Freeing an owned block keeps the invariant with the block still named by its inode. |
| `FsSpec.InvAttach` | kernel/fs.c:388-406 | Storing an allocated block in an address of an inode gives it that owner and disturbs no other block. |
| `FsSpec.InvAttachIndirect` | kernel/fs.c:407-416 | The same for an entry of the indirect block. |
| `FsSpec.InvDetach` | kernel/fs.c:432-449 | Clearing an address or freeing an indirect block takes exactly the owned range away. |
| `FsSpec.ReleasedFree` | kernel/fs.c:426-453 | A block that no inode owns is not marked in use. |
| `FsSpec.ChunkFits` | kernel/file.c:149-160 | A write of at most ((MAXOPBLOCKS-1-1-2)/2)*BSIZE bytes at any offset logs at most MAXOPBLOCKS blocks, even if every allocation is in another bitmap block. |
| `FsSpec.ChunkLargest` | kernel/file.c:149-160 | No larger number of blocks per transaction would do: some offset then may log more than MAXOPBLOCKS blocks. |
| `FsSpec.UnalignedThere` | kernel/fs.c:506-539 | Without holes, the block of an unaligned first byte is mapped already. |
| `FsSpec.PatchHolds` | kernel/fs.c:519-530 | Writing within one block of a file splices that file at that offset and leaves every other file alone. |
| `FsSpec.HeldContents` | kernel/fs.c:472-496 | The bytes reachable through the addresses up to the size are the contents of the file. |
| `FsSpec.ReadSliceAt` | kernel/fs.c:472-496 | What readi returns has the smaller of n and the bytes left, and is those bytes of the file in order; nothing past the end or for an offset that wraps. |
| `FsSpec.ReadAfterWrite` | kernel/fs.c:472-539 | Reading where bytes were written gives those bytes; reading before or after them gives what was there. |
| `FsSpec.InodeRoundTrip` | kernel/fs.c:226-241 | The size and addresses that iupdate stores in an inode's words of its block are read back, and no other inode of any block changes. |
| `FileSystem.FileSys.constructor` | kernel/fs.c:43-48 | Mounting a sound disk gives the inodes that its inode blocks hold, and the invariant. |
| `FileSystem.FileSys.ScanBitmap` | kernel/fs.c:72-84 | The inner loop finds the first free bit of a bitmap block, or that all are in use. |
| `FileSystem.FileSys.BAlloc` | kernel/fs.c:66-88 | Returns the first free block, marked and zeroed, or 0 with nothing changed if and only if every block is in use. |
| `FileSystem.FileSys.BFree` | kernel/fs.c:92-105 | Clears the bit of a block in use and no other; a free block is reported and nothing changes. |
| `FileSystem.FileSys.BMap` | kernel/fs.c:383-421 | The block of a file: the one mapped there, or a new one given to exactly this slot; out of space changes nothing but a possibly new indirect block; all blocks keep their owners and data. |
| `FileSystem.FileSys.ITrunc` | kernel/fs.c:426-453 | Every direct, indirect and data block of the inode is freed once and is free afterwards, the inode is empty, and no other block or inode changes; freeing a free block is unreachable. |
| `FileSystem.FileSys.IUpdate` | kernel/fs.c:226-241 | On disk this inode becomes the one in memory and every other inode, data block and bitmap bit stays; exactly its inode block is logged. |
| `FileSystem.FileSys.WriteI` | kernel/fs.c:506-539 | Refuses, changing nothing, exactly an offset past the end or an end past the largest file; otherwise the file becomes the old one with the first tot bytes replaced at off and extended (at its end: the old one followed by them), all other files are unchanged, a short count means the disk is full, and a write of filewrite's size logs at most MAXOPBLOCKS distinct blocks. |
| `FileSystem.FileSys.RefusedExactly` | kernel/fs.c:511-514 | The three guards, in 32-bit arithmetic, refuse exactly a gap and a file too large. |
| `FileSystem.FileSys.WriteChunk` | kernel/fs.c:519-530 | One round of the loop writes within one block or finds the disk full with all files as they were. |
| `FileSystem.FileSys.ReadI` | kernel/fs.c:472-496 | Returns the bytes of the file from off, the smaller of n and what is left, in order (nothing for a wrapping or past-the-end offset), and without holes changes, allocates and logs nothing. |
| `FileSystem.FileSys.WriteThenRead` | kernel/fs.c:472-539 | What a writei wrote a readi returns; a write that leaves no gap and fits is read back whole unless the disk is full. |
| `FileSystem.FileSys.WriteInTx` | kernel/file.c:156-163 | One transaction changes on disk only the blocks it logged, at most MAXOPBLOCKS, and leaves a sound disk with a prefix of the bytes written. |
| `FileSystem.FileSys.FileWrite` | kernel/file.c:148-175 | The loop splices a prefix of the bytes into the file at its offset and advances the offset by as many; its transactions follow one another from the old disk to the new, each logging at most MAXOPBLOCKS blocks and leaving a sound disk with a whole number of chunks written; their number is exact; it returns n or -1, and -1 only with a full disk, an offset past the end or a file too large. |
| `FsImage.FreshImage` | mkfs/mkfs.c:96-116 | The disk that mkfs lays out, zeroed and with the metadata blocks marked in use, satisfies the file system's invariant, all its files are empty, and exactly the blocks beyond the metadata are free. |
| `FileCrash.ImageAgrees` | kernel/log.c:194-203 | What the file system sees of a disk, its soundness and its files, does not depend on the log blocks. |
| `FileCrash.TxCommits` | kernel/log.c:194-203 | Committing what a transaction logged takes the disk from the state before it to the state after it. |
| `FileCrash.TxCrash` | kernel/log.c:117-203 | A crash after any write of that commit, and any further crashes in recovery, leave the state before if the header had not been written, else the state after. |
| `FileCrash.FileWriteCrash` | kernel/file.c:148-175 | A crash after any write of any transaction of a filewrite, and any number of crashes in the recoveries, leave a sound disk on which the file has a whole number of chunks of the new bytes, exactly those whose header was written, and every other file is unchanged. |
| `LinkSpec.LinkCounted` | kernel/sysfile.c:145-152 | One more entry and one more link keep every link count equal to the number of entries other than "." that name the inode in linked directories. |
| `LinkSpec.UnlinkFileCounted` | kernel/sysfile.c:222-232 | The same for removing a name of a file. |
| `LinkSpec.EmptyNamedOnce` | kernel/sysfile.c:217-220 | An empty directory is named by exactly one entry, so that its count reaches 0 when that goes. |
| `LinkSpec.ParentNamedTwice` | kernel/sysfile.c:225-228 | A directory with a subdirectory is named at least twice, so that it stays linked when the subdirectory goes. |
| `LinkSpec.UnlinkDirCounted` | kernel/sysfile.c:222-232 | The counts stay right when an empty directory is removed and its ".." stops counting. |
| `LinkSpec.CreateCounted` | kernel/sysfile.c:265-289 | The counts stay right when a new file, device or directory is linked, the parent gaining one for "..". |
| `LinkSpec.LinkGood` | kernel/sysfile.c:145-152 | link keeps all counts right if and only if the count it raised was below the largest short. |
| `LinkSpec.LinkOverflows` | kernel/fs.h:36 | A concrete image with 32767 links to one file, all counts right, on which one more link makes a count wrong. |
| `LinkSpec.DirCountSmall` | kernel/sysfile.c:280-287 | A directory has fewer links than a directory can have entries, so that create cannot overflow its count. |
| `LinkSpec.CreateGood` | kernel/sysfile.c:265-289 | Linking a new file, device or directory keeps the tree sound and all counts right. |
| `LinkSpec.FreeTree` | kernel/fs.c:337-362 | Freeing an inode without links keeps the directory tree sound. |
| `NameSpec.FirstLeads` | kernel/fs.c:552-575 | What dirlookup finds is the one inode that the name leads to. |
| `NameSpec.LinkAdds` | kernel/sysfile.c:145-152 | After link the new name leads to the inode, and every other name of every directory leads where it did; names stay unique. |
| `NameSpec.UnlinkRemoves` | kernel/sysfile.c:222-232 | After unlink the name leads nowhere, and every other name of every other directory leads where it did. |
| `NameSpec.UnlinkFrees` | kernel/sysfile.c:222-238 | The inode is freed exactly when that was its last link and nobody else holds it. |
| `NameSpec.CreateAdds` | kernel/sysfile.c:265-289 | After create the name leads to an inode of the kind asked for with one link, a new directory has just its two dots, and every other name leads where it did. |
| `NameSpec.WhenLinked` | kernel/sysfile.c:130-158 | link of a file fails only if the name leads somewhere or there is no room. |
| `NameSpec.WhenUnlinked` | kernel/sysfile.c:199-220 | unlink of a proper name fails only if it leads nowhere or to a directory that is not empty. |
| `NameSpec.WhenCreated` | kernel/sysfile.c:246-302 | create fails only without a free inode or room, or if the name leads somewhere; and never for an existing file or device that is to be opened. |
| `Directories.FileTree.constructor` | mkfs/mkfs.c:117-128 | The image with only a root directory satisfies the invariant. |
| `Directories.FileTree.DirLookup` | kernel/fs.c:552-575 | Finds the first entry in use with that name, or that there is none. |
| `Directories.FileTree.DirLink` | kernel/fs.c:580-606 | Fails with nothing changed exactly if the name is present or the entry to fill does not fit; otherwise fills the first unused entry or appends one. |
| `Directories.FileTree.IsDirEmpty` | kernel/sysfile.c:174-186 | True exactly when every entry after "." and ".." is unused. |
| `Directories.FileTree.Link` | kernel/sysfile.c:124-170 | Every failure has one of the source's reasons and leaves all inodes as they were; success adds exactly the new name and link, and the invariant holds afterwards if and only if the link count did not overflow. |
| `Directories.FileTree.Unlink` | kernel/sysfile.c:189-243 | Every failure, with its reason, changes nothing; success removes exactly the first entry of that name and the links it stood for, frees the inode when nobody needs it, and all link counts equal their entries again, also when an empty directory goes. |
| `Directories.FileTree.Create` | kernel/sysfile.c:246-302 | The invariant always holds afterwards; every failure has its reason and leaves all inodes as they were, undoing a half-made one; an existing file is returned as it is; success makes exactly the first free inode and its entry, with dots and the parent's link for a directory. |
| `Directories.FileTree.IAlloc` | kernel/fs.c:199-219 | Takes the first free inode and no other, or reports that there is none. |
| `Directories.FileTree.Put` | kernel/fs.c:337-362 | iput frees an inode exactly when it has no links and nobody else holds it, and keeps the invariant. |
| `VmSpec.PteRoundTrip` | kernel/riscv.h:347-363 | Encoding a page address and flags in an entry and decoding them gives them back, with the valid bit set. |
| `VmSpec.OnKid` | kernel/riscv.h:354-357 | Following the three 9-bit indices of an address leads from level to level to the node of its prefix. |
| `VmSpec.TreeAdd` | kernel/vm.c:95-100 | Installing a new zeroed table page adds exactly that node and changes no translation. |
| `VmSpec.TreeMap` | kernel/vm.c:158 | Writing a lowest-level entry adds exactly that translation to the flat map. |
| `VmSpec.TreeUnmap` | kernel/vm.c:190 | Clearing a lowest-level entry removes exactly that translation. |
| `VmSpec.MapRangeAt` | kernel/vm.c:143-165 | The flat map after mappages: the requested translations and the old ones, nothing else. |
| `VmSpec.SpaceOther` | kernel/vm.c:86-333 | An operation on one page table leaves every other page table, its pages and its user memory alone. |
| `VmSpec.MovesTrans` | kernel/vm.c:171-333 | Conservation composes: over a sequence of operations the pages held by the free list and the table together stay the same. |
| `VmSpec.SizedBound` | kernel/proc.c:301-320 | User memory cannot reach the trapframe: the distinct pages behind it run out first. |
| `VmSpec.GrownDropped` | kernel/vm.c:235-246 | Unmapping the pages given so far restores the old translations and the old set of user pages. |
| `VmSpec.SubRoot` | kernel/vm.c:272-287 | Every table page lies below the root, so that freewalk reaches it. |
| `VmSpec.NeedShort` | kernel/vm.c:143-249 | If mapping page by page stops for lack of pages, the free pages were too few for the whole range from the start, counting each missing table once. |
| `VmSpec.TopPaths` | kernel/proc.c:219-251 | The trampoline and the trapframe lie under the same tables, so that mapping the second needs no page. |
| `Vm.Memory.constructor` | kernel/kalloc.c:27-40 | After kinit every page of RAM is on the free list, once. |
| `Vm.Memory.KAlloc` | kernel/kalloc.c:69-82 | Pops the first free page, or returns 0 with nothing changed if there is none. |
| `Vm.Memory.KFree` | kernel/kalloc.c:47-63 | Pushes the page; every other page keeps its contents. |
| `Vm.Memory.Walk` | kernel/vm.c:86-103 | Finds the entry of the address; with alloc it adds exactly the missing tables and changes no translation, and fails exactly when fewer pages are free than tables are missing; without alloc it changes nothing. |
| `Vm.Memory.WalkAddr` | kernel/vm.c:109-126 | The page that the flat map gives for a user address, and 0 beyond MAXVA, unmapped or not for the user. |
| `Vm.Memory.MapPages` | kernel/vm.c:143-165 | Adds exactly the requested translations if and only if enough pages are free for the missing tables; otherwise it returns -1 with exactly a proper prefix of them added. |
| `Vm.Memory.UvmUnmap` | kernel/vm.c:171-192 | Removes exactly the translations of its range and, if asked, frees each of their pages once. |
| `Vm.Memory.UvmAlloc` | kernel/vm.c:226-249 | Succeeds exactly when enough pages are free for the new pages and the missing tables; then exactly the new pages up to the new size are mapped, zeroed, with the given permissions; else the translations and the user pages are as before and every data page is free again. |
| `Vm.Memory.UvmDealloc` | kernel/vm.c:256-267 | Exactly the pages between the two rounded sizes are unmapped and freed. |
| `Vm.Memory.UvmCopy` | kernel/vm.c:306-333 | Succeeds exactly when enough pages are free; then the child has a copy of every page below sz with the same contents and flags; else its translations and pages are as before; the parent is untouched. |
| `Vm.Memory.FreeWalk` | kernel/vm.c:272-287 | Frees exactly the pages of the subtree, and touches nothing else. |
| `Vm.Memory.UvmFree` | kernel/vm.c:292-297 | Every page that the table and its user held is free, and nothing else changed. |
| `Vm.Memory.UvmCreate` | kernel/vm.c:197-205 | An empty table made of one page that was free. |
| `Vm.Memory.ProcPagetable` | kernel/proc.c:219-251 | With three free pages or more, a table that maps the trampoline and the trapframe only; with fewer, 0 and exactly the same pages free as before. |
| `Vm.Memory.ProcFreePagetable` | kernel/proc.c:255-260 | Every user page and every table page is free again; the trampoline and trapframe pages are not. |
| `Vm.Process.GrowProc` | kernel/proc.c:301-320 | The mapped user pages stay exactly those below PGROUNDUP(sz); growing fails exactly when too few pages are free for the new pages and their tables, and then changes nothing the user sees; otherwise sizes and contents are as promised, and a size that wraps around 64 bits is ignored. |
| `UserCopy.PageRoundTrip` | kernel/vm.c:352-371 | Bytes stored in the words of a page are read back. |
| `UserCopy.ProcessTable` | kernel/proc.c:219-320 | In the tables that proc_pagetable makes and growproc keeps, the pages open to the user are the process's own, which is what the copies rely on. |
| `UserCopy.CopyOut` | kernel/vm.c:352-371 | Succeeds exactly when every address is open to the user; stores exactly the bytes before the first that is not; no other byte that the user sees and no page but the user's changes. |
| `UserCopy.CopyIn` | kernel/vm.c:377-396 | Succeeds exactly when every address is open to the user, and returns the bytes that the user sees there. |
| `UserCopy.CopyInStr` | kernel/vm.c:403-439 | Returns the string up to its NUL within max bytes; fails when there is none or a page is not the user's. |
| `UserCopy.StoredReads` | kernel/vm.c:352-396 | What copyout stored, copyin reads back. |
| `UserCopy.OwnMemoryOnly` | kernel/vm.c:109-126 | The addresses open to a process are its own pages below its size, never the trapframe or the trampoline. |
| `UserCopy.GrownReads` | kernel/vm.c:226-249 | Memory that the process has just got is open to it and reads as zeros. |
| `UserCopy.GrownElsewhere` | kernel/vm.c:226-249 | Growing changes nothing else that the process sees. |
| `UserCopy.DroppedShut` | kernel/vm.c:171-192 | Shrinking shuts exactly the pages given back. |
| `UserCopy.CopySees` | kernel/vm.c:306-333 | After uvmcopy the child sees, address by address, what the parent sees. |
| `UserCopy.UseNewMemory` | kernel/proc.c:301-320 | A process with enough free pages grows, reads zeros from its new memory, and reads back what it stores there; with too few it gets -1. |
| `Virtio.RingPush` | kernel/virtio_disk.c:271-277 | A ring with fewer than NUM entries pending takes another without overwriting any, across 16-bit wrap. |
| `Virtio.RingPop` | kernel/virtio_disk.c:312-314 | Comparing the 16-bit indices tells exactly whether an entry is pending, and the ring gives the right one. |
| `Virtio.SectorExactly` | kernel/virtio_disk.c:218 | The sector asked for is where the block begins if and only if the block number is below 2^31. |
| `Virtio.Disk.AllocDesc` | kernel/virtio_disk.c:157-166 | Takes a free descriptor, or reports that none is free. |
| `Virtio.Disk.FreeChain` | kernel/virtio_disk.c:186-197 | Frees exactly the three descriptors of a chain; free_desc does not panic. |
| `Virtio.Disk.Alloc3Desc` | kernel/virtio_disk.c:202-213 | Succeeds exactly when three descriptors are free; on failure the ones taken are free again. |
| `Virtio.Disk.Submit` | kernel/virtio_disk.c:216-286 | Sleeps for descriptors exactly when fewer than three are free; otherwise the request, of this buffer, block and direction, becomes a new disjoint chain of three, offered on the ring, with the descriptors describing it. |
| `Virtio.Disk.DeviceTake` | kernel/virtio_disk.c:271-281 | The device reads from the ring exactly the requests offered, each once and in order. |
| `Virtio.Disk.DeviceComplete` | kernel/virtio_disk.c:238-265 | Whichever request the device completes, following its descriptors, lengths and flags it makes the block the buffer or the buffer the block, as asked, and leaves every other block and buffer. |
| `Virtio.TransferCarries` | kernel/virtio_disk.c:216-265 | Moving the sectors asked for is, for block numbers below 2^31, moving that block and no other. |
| `Virtio.Disk.IntrStep` | kernel/virtio_disk.c:312-324 | Sees the used entries in order; each is a chain in flight with status 0, whose buffer is given back and whose process is woken. |
| `Virtio.Disk.Intr` | kernel/virtio_disk.c:295-327 | Afterwards every completed request has been seen. |
| `Virtio.Disk.Finish` | kernel/virtio_disk.c:283-291 | virtio_disk_rw goes on only after the used entry of its own request was seen, and frees exactly its own chain, waking those who wait for descriptors. |
| `Virtio.SleeperHasHope` | kernel/virtio_disk.c:226-233 | While a process sleeps for descriptors some request is in flight that will free three. |
| `Virtio.OneRequest` | kernel/virtio_disk.c:216-327 | A request on an idle disk goes all the way through driver, device and interrupt, transfers its block, and leaves the disk idle. |
| `Virtio.WriteThenRead` | kernel/virtio_disk.c:216-327 | What is written to a block through the driver is what a later read of it returns. |
| `WaitExit.StepKeeps` | kernel/proc.c:324-492 | Every step of fork, wait, exit, reparent, sleep, wakeup and kill keeps the invariants. |
| `WaitExit.RunInv` | kernel/proc.c:324-492 | They hold in every state of every interleaving. |
| `WaitExit.NoLostWakeup` | kernel/proc.c:936-982 | Whenever wait_lock is free, no process sleeps in wait while it has a zombie child, also after reparenting. |
| `WaitExit.ReapedOnce` | kernel/proc.c:442-492 | wait returns no pid twice. |
| `WaitExit.ZombieChildless` | kernel/proc.c:379-391 | A zombie has no children left: all were given to init. |
| `WaitExit.ForkStarts` | kernel/proc.c:335-372 | In every run fork ends with a child of the forker that can run and has a pid of its own. |
| `WaitExit.WaitReturnsChild` | kernel/proc.c:452-474 | A pid is returned only by wait, is that of a zombie child of the caller, and the child is then gone. |
| `WaitExit.NeverLost` | kernel/proc.c:400-492 | A process that was started stays in the table until a wait has returned its pid. |
| `WaitExit.LockMovesOn` | kernel/proc.c:379-492 | In every run whoever holds wait_lock can take a step, or waits for the lock of a process that is about to give it up: no deadlock. |
| `WaitExit.EveryoneMovesOn` | kernel/proc.c:324-492 | In every run, while wait_lock is free, every process that is neither asleep nor gone can take the next step of fork, wait, exit or sleep. |
| `SleepLock.StepKeeps` | kernel/sleeplock.c:22-41 | Every step of acquiresleep, releasesleep, sleep and wakeup keeps the invariants. |
| `SleepLock.MutualExclusion` | kernel/sleeplock.c:22-31 | In every run at most one process has the sleep lock. |
| `SleepLock.NoLostWakeup` | kernel/sleeplock.c:34-41 | In every run no process is asleep on a lock that is free. |
| `SleepLock.FreeLockTaken` | kernel/sleeplock.c:22-31 | A process that wants a free lock gets it. |
| `SleepLock.ReleaseWakesAll` | kernel/sleeplock.c:34-41 | When releasesleep returns, the lock is free and nobody who waited for it is asleep or about to sleep. |
| `SleepLock.SpinMovesOn` | kernel/sleeplock.c:22-41 | In every run whoever holds the inner spinlock can take a step, or waits for a process that is about to give up its own lock. |
| `SleepLock.EveryoneMovesOn` | kernel/sleeplock.c:22-41 | In every run, while the inner spinlock is free, everybody who is not asleep can take the next step. |
| `Pipe.Pipe.Write` | kernel/pipe.c:77-103 | Appends the bytes from where the call stands to what was written; sleeps exactly on a full pipe with an open reader, fails exactly without a reader, and never leaves a reader asleep on data. |
| `Pipe.Pipe.Read` | kernel/pipe.c:106-130 | What is read continues as a prefix of what was written, also across 32-bit wrap of the counters; sleeps exactly on an empty pipe with an open writer, and never leaves a writer asleep on room. |
| `Pipe.Pipe.Close` | kernel/pipe.c:59-74 | Closing one end wakes those who slept for it and keeps the invariants. |
| `Pipe.Counters` | kernel/pipe.c:88-113 | The wrapped counters are equal exactly when the pipe is empty, and PIPESIZE apart exactly when it is full. |
| `Umalloc.Heap.FindSlot` | user/umalloc.c:30-32 | The search ends, from any starting point of the circle, at the free block that precedes the one to free. |
| `Umalloc.Heap.Free` | user/umalloc.c:25-44 | The block becomes free and joins exactly the neighbours it touches; the list stays sorted, linked and maximally coalesced; the units are conserved. |
| `Umalloc.MergeCoalesces` | user/umalloc.c:33-42 | Joining two blocks makes no new pair touch but those of the second. |
| `Umalloc.Disjoint` | user/umalloc.c:25-90 | Blocks do not overlap. |
| `Umalloc.Heap.MoreCore` | user/umalloc.c:47-61 | The units granted by the system join the heap as free memory in a block of at least the size asked for. |
| `Umalloc.Heap.Take` | user/umalloc.c:75-85 | The block found is unlinked, or its tail is split off; the units are conserved. |
| `Umalloc.Heap.Malloc` | user/umalloc.c:64-90 | Ends after at most one call of morecore, made exactly when no free block is large enough; returns 0 exactly when that fails; otherwise exactly one new block is in use, which holds the bytes asked for and less than 16 more. |
| `Umalloc.PiecesApart` | user/umalloc.c:64-90 | Two pieces of memory that malloc returned and that are still in use have no byte in common. |
| `ShellSpec.RoundTrip` | user/sh.c:329-447 | The fully parenthesised printing of any command with at most nine words each parses to that command. |
| `ShellSpec.LineRound` | user/sh.c:346-360 | The same for a command that is followed by the end of the line or by a closing parenthesis. |
| `ShellSpec.NineWords` | user/sh.c:437-441 | A plain command parses back exactly when it has at most nine words. |
| `ShellGrammar.ParsesExactly` | user/sh.c:329-447 | The parser accepts exactly the lines of the grammar line = pipe {&} [; line], pipe = atom [| pipe], with redirections anywhere and at most nine words, and builds the command that the derivation stands for: | and ; group to the right, the last redirection is outermost. |
| `ShellLayout.LayoutRead` | user/sh.c:267-309 | Tokens are read back from their text, whatever blanks are put between them, as long as no two run into each other. |
| `ShellLayout.AnyLayout` | user/sh.c:329-447 | Any line of the grammar, in any layout, parses as what it stands for. |
| `ShellLayout.Unambiguous` | user/sh.c:329-447 | The grammar is unambiguous: the same tokens stand for one command only. |
| `ShellLayout.PlainRoundTrip` | user/sh.c:329-447 | Every command that can be written parses back from its text without needless parentheses, in any layout. |
| `ShellLayout.PlainSequences` | user/sh.c:346-373 | Any number of plain commands joined by | parses as a pipe grouped to the right, and joined by ; as a list grouped to the right. |
| `Shell.Parser.NextToken` | user/sh.c:267-309 | Returns the token of the grammar at the cursor, with the span of a whole word, and moves the cursor past it and the blanks. |
| `Shell.Parser.PeekAt` | user/sh.c:312-321 | Skips blanks and tells whether one of the characters comes next. |
| `Shell.Parser.ParseRedirections` | user/sh.c:376-398 | Wraps the command in exactly the redirections that come next, or panics on a missing file name; what is read replaces descriptor 0, what is written replaces descriptor 1 and is created, and truncated only for >. |
| `Shell.Parser.ParseExecCmd` | user/sh.c:417-447 | Agrees with the grammar in result, cursor and panics. |
| `Shell.Parser.ParseBlockCmd` | user/sh.c:401-414 | Agrees with the grammar in result, cursor and panics. |
| `Shell.Parser.ParsePipeCmd` | user/sh.c:363-373 | Agrees with the grammar in result, cursor and panics. |
| `Shell.Parser.ParseLineCmd` | user/sh.c:346-360 | Agrees with the grammar in result, cursor and panics; it ends on every input. |
| `Shell.NulTerminate` | user/sh.c:451-494 | Puts a NUL exactly where the words of the command end. |
| `Shell.WordsRead` | user/sh.c:451-494 | Afterwards every argument and file name reads as exactly its word, because no word has a character where another ends. |
| `Shell.ParseCommand` | user/sh.c:329-343 | A line is accepted exactly when it is one of the grammar, and then stands for its command with every string readable. |
| `Grep.HereStar` | user/grep.c:98-105 | c* followed by a pattern matches at the beginning exactly when some run of fitting characters leads to a match of the rest. |
| `Grep.Match` | user/grep.c:72-81 | Returns true exactly when some suffix of the text, or the text itself after ^, has a prefix in the denotation of the pattern. |
| `Grep.MatchHere` | user/grep.c:84-95 | Returns true exactly when some prefix of the text is in the denotation; the recursion ends. |
| `Grep.MatchStar` | user/grep.c:98-105 | Returns true exactly when some number of fitting characters can be skipped so that the rest matches. |
| `Grep.PatternRoundTrip` | user/grep.c:84-105 | A pattern of characters, repetitions and a final $ is read back from its text. |
| `Grep.LiteralSearch` | user/grep.c:72-95 | A pattern without special characters matches exactly the texts in which it occurs. |

## Left out

- The schedulers: the FCFS, PBS and MLFQ branches do not compile or do not do what they say, and round robin has no property beyond its loop.
- Concurrency inside one directory operation or one writei: inode locks are taken as giving one call at a time, since the interleaving that matters, of transactions and crashes, is in LogRuns.
- Failing user copies inside writei, readi and pipes: bytes can then be lost, by design of the source; wait's failing copyout is a step of WaitExit.
- Path walking (skipelem, namex), iget and the inode table's reference counts: callers get inode numbers, and who else holds an inode is a parameter.
- The type, device and link count in an on-disk inode, and directories as bytes: the inodes of FsSpec are their sizes and addresses, and those of LinkSpec are types, link counts and entries.
- The superblock's bytes and the files that mkfs copies into the image: FsImage stops at the empty disk, and the superblock is a parameter.
- Names longer than DIRSIZ: the names given to directory operations are those that path lookup has cut to length.
- Device numbers: the root device is the only one, so uniqueness of cached blocks is stated for it.
- exec, traps, the console, UART, PLIC, system call plumbing, the trace and priority calls, and user programs other than malloc, the shell's parser and grep's matcher.
- The times that waitx reports: its scan, sleep and freeing are those of wait, so the steps of WaitExit stand for both.
- Spinlocks, memory fences and context switches: mutual exclusion and atomic switches are taken for granted.
- The contents of freed pages: kalloc and kfree fill them with junk, of which only the free-list link is stated.
- uvmclear and uvmfirst: each is one step on one page, with no property beyond those of walk and mappages.
- Vm.Memory.UvmUnmap: unmapping a page of the user's without freeing it is excluded; the source asks for that only for the trampoline and the trapframe, and the page would belong to nobody.
- Shell.Parser.ParseArguments: fills argv of an execcmd inside its redirections as a value; the source does so through a pointer kept from before.
- Directories.FileTree.Create: the model frees a half-made inode at once, as iput does when nobody else holds it, which is the case there.
- FileCrash.FileWriteCrash: every transaction of the filewrite is committed by itself; calls that share a commit are in LogRuns and in RedoLog.Log.TwoCalls.
- Umalloc.Heap.Malloc: requests whose size in bytes does not fit the int that sbrk takes are excluded, and block sizes are unbounded numbers.
- WaitExit.ReapedOnce: pids are unbounded numbers, so that nextpid does not wrap.
- killed processes in pipes: a killed reader or writer returns early, which is left out; kill is a step of WaitExit and SleepLock.
