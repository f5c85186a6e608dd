# A verified model of the Xinu kernel's storage, paging, messages and scheduling

This project models six parts of the Xinu kernel in `project4/xinu` and proves what each is for.
Every part keeps the source's form: a class whose fields are the source's tables, with methods that
walk and update them in place, each proved equal to a function of the old state; theorems about
whole runs are then lemmas about those functions.

* **Local file system** (`Lfs*`). A disk of packed index blocks and data blocks, a directory, and
  any number of control blocks that each cache one index block and one data block, written back
  late. Every run of open, putc, getc, seek, truncate and close behaves as plain byte sequences
  with positions, and free lists and files partition the disk after every operation. Each operation
  is one step, as the file and directory mutexes make it.
* **Demand paging** (`Paging*`, `Vmalloc`). Frame tables, page tables, eviction of the oldest
  frame, swap-out and swap-in. Over any interleaving of processes a read returns what that process
  last wrote. The processor is modelled as setting the dirty flag on a write (section 4.8 of the
  Intel Software Developer's Manual, Volume 3A). Table sizes are parameters. `vmalloc` is first fit
  over the three bit planes.
* **Kernel heap** (`Heap*`). The address-ordered, coalescing free list, first fit from below for
  heap and last fit from above for stacks, over header words in memory.
* **qsort** (`Qsort`). The three-way partition with its nested loops, recursion on the smaller side
  and iteration on the larger.
* **Processes, queues, semaphores, messages and the clock** (`Queues`, `Delta`, `Kernel*`). One
  table of doubly linked indices with sentinels holds all queues. The invariant ties process
  states, queues and semaphore counts together in every reachable state, and what each call means to
  processes, counts, message slots and time slices is said a second time without queues. A call that blocks is two
  routines: up to the reschedule, and from the point where the process runs again. `kill` is split
  where its message to the parent may let other processes run.
* **Ports** (`Ports*`). Bounded message queues over a shared node pool, with processes that are
  blocked, or let go but not yet run, and a reset or delete in its three phases between
  reschedules. What receivers are answered is, in order, the front of what senders passed in.

Where the source does not meet a property on all inputs, a lemma says exactly when it does:
`vmalloc` of no bytes (`Vmalloc.CountsWrong`, `Vmalloc.ZeroBytesExample`), a timed receive of zero
ticks (`Delta.TickLost`, `Delta.ZeroDelayExample`), a heap request near 2^32 bytes
(`Heap.RoundCovers`), the overlap test of `freemem` when a sum wraps (`HeapOps.AdmitsExactly`, `HeapOps.WrappedReturns`), the
size check of `lfscreate` (`LfsCreate.DirectoryGoodIff`), and a port capacity above 65535
(`PortsRun.CapacityAfterReset`). Two further points where code and comment differ, modelled as the
code has them: the mode letters of an open file are recorded but not enforced by reads and writes,
and the fault handler sets the entry of a swapped-in page through an address that was never
assigned (`pagefault_handler.c:212`), read here as the faulting page's own entry, which the other
two branches use.

Where running out is possible (disk blocks, swap, page-table frames, message nodes) the outcome is
part of the model: the source's `panic`, or its unset frame number, is a result that ends the run.

## Model

| member | source | states |
|---|---|---|
| LfsDisk.ParseImage | project4/xinu/include/lfilesys.h:71-91 | An index block stored at any place in a sector and read back from there is the block that was stored, including the signed words of its pointers. |
| LfsDisk.IndexBlocksDisjoint | project4/xinu/include/lfilesys.h:86-91 | The byte ranges that ib2sect and ib2disp give two different index blocks never share a byte, and each range lies inside its sector. |
| LfsDisk.Disk.Lfibget | project4/xinu/device/lfs/lfibget.c:22-30 | The byte loop returns the index block stored under that number. |
| LfsDisk.Disk.Lfibput | project4/xinu/device/lfs/lfibput.c:23-42 | After the read-modify-write of the packed sector the numbered index block is the one given, and every other index block, the directory sector and every data sector keep their bytes. |
| LfsBlocks.Take | project4/xinu/device/lfs/lfdballoc.c:21-34 | Taking the head of a free list for the end of one file keeps every block in exactly one place. |
| LfsBlocks.GiveBack | project4/xinu/device/lfs/lftruncate.c:54-97 | Giving a whole file back to a free list keeps every block in exactly one place. |
| LfsBlocks.ReverseList | project4/xinu/device/lfs/lftruncate.c:54-97 | The order in which a file's blocks reach a free list does not disturb the partition. |
| LfsBlocks.Conservation | project4/xinu/device/lfs/lfdballoc.c:21-39 | Free blocks and blocks in files add up to the blocks there are. |
| LfsBlocks.FileFits | project4/xinu/device/lfs/lfsetup.c:45-114 | No file holds more blocks than the disk has, and free and used blocks fill the disk's range. |
| LfsFile.Flush | project4/xinu/device/lfs/lfflush.c:19-39 | Writing the dirty cached blocks back leaves the file's bytes, chain and position as they were, with the disk alone holding them. |
| LfsFile.LoadIndex | project4/xinu/device/lfs/lfsetup.c:55-92 | Reading index block k of a clean file into memory keeps the file and its invariant. |
| LfsFile.FirstIndex | project4/xinu/device/lfs/lfsetup.c:45-58 | Giving an empty file its first index block keeps its (empty) contents and makes its chain that one block. |
| LfsFile.NextIndex | project4/xinu/device/lfs/lfsetup.c:78-94 | Linking a new index block behind the last keeps the file's bytes and gives the new block the offset 8192 times its place in the chain. |
| LfsFile.LoadData | project4/xinu/device/lfs/lfsetup.c:100-119 | Reading the data block the index block names makes the byte pointer address the byte of the current position. |
| LfsFile.AddData | project4/xinu/device/lfs/lfsetup.c:106-119 | Appending a data block at the end of file keeps the file's bytes; only the cached index block's slot for the position changes. |
| LfsFile.Store | project4/xinu/device/lfs/lflputc.c:48-60 | Storing through the cache makes the file's bytes the old ones with the byte at the position replaced or appended, and the position one further. |
| LfsFile.Fetch | project4/xinu/device/lfs/lflgetc.c:45-49 | The byte the cache yields is the file's byte at the position. |
| LfsFile.Uncache | project4/xinu/device/lfs/lflclose.c:27-35 | Dropping a clean cache loses nothing: the disk holds the file. |
| LfsFile.Reposition | project4/xinu/device/lfs/lflseek.c:32-37 | Moving the position keeps the file; the invalid byte pointer forces a set-up on the next access. |
| LfsFile.Frame | project4/xinu/device/lfs/lfsetup.c:34-121 | A file's contents and invariant depend on its own blocks only, so writing other blocks does not change it. |
| LfsVolume.CacheStep | project4/xinu/device/lfs/lfsetup.c:45-72 | Replacing one file's cache keeps the invariant of the whole volume. |
| LfsVolume.FlushStep | project4/xinu/device/lfs/lfflush.c:19-39 | Flushing one handle keeps the volume invariant: every file intact and both free lists linked. |
| LfsVolume.FirstIndexStep | project4/xinu/device/lfs/lfsetup.c:50-58 | Taking the first index block of a file off the free list keeps the volume invariant and every file's bytes. |
| LfsVolume.NextIndexStep | project4/xinu/device/lfs/lfsetup.c:80-93 | Extending a chain from the free list, with the old last block rewritten on disk, keeps the volume invariant and every file's bytes. |
| LfsVolume.AddDataStep | project4/xinu/device/lfs/lfsetup.c:106-114 | Taking a data block off the free list for a file keeps the volume invariant and every file's bytes. |
| LfsVolume.StoreStep | project4/xinu/device/lfs/lflputc.c:48-60 | Storing a byte keeps the volume invariant and changes that one file only. |
| LfsSteps.AlreadyPositioned | project4/xinu/device/lfs/lflputc.c:39-46 | A byte pointer inside the buffer means that the right index and data blocks are in memory, so skipping the set-up is sound. |
| LfsSteps.SlotTells | project4/xinu/device/lfs/lfsetup.c:105-114 | With the right index block in memory its slot is null exactly when the position is at the end of the file on a block boundary. |
| LfsSteps.SplicedAt | project4/xinu/device/lfs/lftruncate.c:80-97 | Where each index block of a truncated file ends up in the new free list. |
| Lfs.LocalFs.constructor | project4/xinu/device/lfs/lfscreate.c:40-73 | Mounting a created disk gives a valid file system with no files. |
| Lfs.LocalFs.Lfflush | project4/xinu/device/lfs/lfflush.c:10-42 | SYSERR for a free control block; otherwise the disk, directory and flags are exactly those of the flush step, and every file and handle is as before. |
| Lfs.LocalFs.Lfiballoc | project4/xinu/device/lfs/lfiballoc.c:15-32 | Fails exactly when the index free list is empty; otherwise returns its head, and the directory, in memory and on disk, names the next one. |
| Lfs.LocalFs.Lfdballoc | project4/xinu/device/lfs/lfdballoc.c:19-39 | Fails exactly when the data free list is empty; otherwise returns its head, unlinked in the directory in memory and on disk, and a buffer of the fill byte. |
| Lfs.LocalFs.Lfibclear | project4/xinu/device/lfs/lfibclear.c:14-20 | The cleared block has the given offset, no successor and sixteen null pointers. |
| Lfs.LocalFs.FindFirst | project4/xinu/device/lfs/lfsetup.c:39-72 | Some index block of the file, at or before the position, is in memory; no file changes; it fails only for an empty file with no index block free. |
| Lfs.LocalFs.WalkStep | project4/xinu/device/lfs/lfsetup.c:78-94 | One step along, or one extension of, the chain advances the offset by 8192 and keeps every file. |
| Lfs.LocalFs.Walk | project4/xinu/device/lfs/lfsetup.c:74-94 | The loop ends with the index block that covers the position in memory, extending the chain only when the position lies just past it. |
| Lfs.LocalFs.NewDataBlock | project4/xinu/device/lfs/lfsetup.c:105-114 | Allocates a data block exactly when one is free and leaves the file positioned on it. |
| Lfs.LocalFs.Lfsetup | project4/xinu/device/lfs/lfsetup.c:34-121 | The index block and data block of the current position are in memory and the byte pointer addresses it; the bytes of all files and all positions are unchanged; it fails exactly when a needed block is not there to be had. |
| Lfs.LocalFs.Lflputc | project4/xinu/device/lfs/lflputc.c:18-63 | Refines the plain model of a file: SYSERR on a closed handle, otherwise the byte at the position is overwritten or appended; out of blocks exactly when the set-up needs one and none is free. |
| Lfs.LocalFs.Lflgetc | project4/xinu/device/lfs/lflgetc.c:18-51 | Returns the byte at the position and moves on one, or EOF at the end, or SYSERR on a closed handle; no file changes. |
| Lfs.LocalFs.Lflseek | project4/xinu/device/lfs/lflseek.c:16-40 | Moves to any offset up to the file size and refuses all others unchanged. |
| Lfs.LocalFs.Lflclose | project4/xinu/device/lfs/lflclose.c:15-37 | The handle is closed, no file changes, and everything written through it, with the directory if it was dirty, is on the disk. |
| Lfs.LocalFs.Lfsopen | project4/xinu/device/lfs/lfsopen.c:46-184 | Answers the device of the first closed control block, which then stands at the start of the file of that name, an old one with its bytes or a new empty one, with every other handle and file as before; refuses, with nothing changed, exactly a name too long or already open, a full handle table, a missing or existing file when the mode forbids it, and a full directory. |
| Lfs.LocalFs.Lfdbfree | project4/xinu/device/lfs/lfdbfree.c:18-24 | The block becomes the head of the data free list and links to the old head. |
| Lfs.LocalFs.FreeChain | project4/xinu/device/lfs/lftruncate.c:50-90 | The walk terminates, visits every index block of the file exactly once in chain order and frees every data block, also when the free list was empty. |
| Lfs.LocalFs.TruncateBlocks | project4/xinu/device/lfs/lftruncate.c:34-101 | The index free list becomes the file's chain in order followed by the old list, the data free list gets every data block, and the file is empty. |
| Lfs.LocalFs.Lftruncate | project4/xinu/device/lfs/lftruncate.c:24-103 | Empties the file, returns every block it had, keeps all other files, and does nothing to an empty file. |
| LfsRun.StepSound | project4/xinu/device/lfs/lfsopen.c:46-184 | The plain model keeps its own invariant and the size of its handle table under every operation. |
| LfsRun.OtherFilesUnchanged | project4/xinu/device/lfs/lflputc.c:33-60 | No operation changes the bytes of any file but the one its handle names. |
| LfsSpec.OpenMeans | project4/xinu/device/lfs/lfsopen.c:79-184 | The plain open answers, on the states before and after: the device is the first closed handle, now at position 0 of the file with that name, all else unchanged; SYSERR, unchanged, exactly for the six refusals. |
| LfsRun.StepMeans | project4/xinu/device/lfs/lfsopen.c:79-184 | For every operation the answer and the state left are exactly those that satisfy its relation between the states before and after: which handle moved where, which byte changed, and that nothing else did. |
| LfsRun.CloseOpenRead | project4/xinu/device/lfs/lflclose.c:15-37 | A file closed and opened again by name, on whatever device is answered, is read back whole. |
| LfsRun.SeekThen | project4/xinu/device/lfs/lflseek.c:30-40 | A seek is accepted exactly up to the size; the next read is the byte there, or the end of file at the size, and a byte stored there is the only one that changes or is appended. |
| LfsRun.Perform | project4/xinu/device/lfs/lflputc.c:18-63 | Each operation on the disk gives the answer and the new files of the plain model, and of its relation between the states before and after, and panics exactly when it would store a byte that needs a block more than the files leave free. |
| LfsRun.Run | project4/xinu/device/lfs/lfsetup.c:34-121 | Over any sequence of operations on any number of open files, every answer and the final files are those of plain byte sequences with positions, up to the first store that needs a block the disk does not have; whether it does is told by the sizes of the files alone. |
| LfsRun.Overlay | project4/xinu/device/lfs/lflwrite.c:21-28 | Bytes laid over a file from a position: the written part is the buffer, everything else is as before. |
| LfsRun.Lflwrite | project4/xinu/device/lfs/lflwrite.c:15-28 | A negative count and a closed handle are refused; otherwise the file is the old one with the buffer laid over it from the position, and it panics exactly when space runs out before some byte of the buffer. |
| LfsRun.Lflread | project4/xinu/device/lfs/lflread.c:15-38 | The loop over lflgetc returns the bytes from the position up to the count or the end of the file, EOF only when there is not one byte, and has its three error returns. |
| LfsRun.WriteSeekRead | project4/xinu/device/lfs/lflwrite.c:21-28 | Writing a buffer, seeking back and reading as many bytes returns the buffer. |
| LfsRead.ReadBack | project4/xinu/device/lfs/lfsetup.c:74-119 | Following the index chain on the disk, with the dirty cached blocks laid over, reads exactly the file's bytes through exactly its chain. |
| LfsRead.ClosedFileOnDisk | project4/xinu/device/lfs/lflclose.c:27-35 | The disk alone holds every file that is not open. |
| LfsRead.BlocksConserved | project4/xinu/device/lfs/lfsetup.c:45-114 | A file of n bytes owns exactly ceil(n/512) data blocks and ceil(n/8192) index blocks, and with the two free lists these are all the blocks of the disk. |
| LfsRead.ExhaustedMeans | project4/xinu/device/lfs/lfsetup.c:45-114 | A needed free list is empty exactly when the sizes of all files add up to every block of that kind. |
| LfsRead.PositionsFit | project4/xinu/device/lfs/lfsetup.c:74-100 | No file outgrows the disk, so positions and sizes fit the 32-bit fields of the source. |
| LfsCreate.BadDirectory | project4/xinu/device/lfs/lfscreate.c:40-46 | When one of the two first blocks does not exist, no free lists of all the blocks there are begin where the written directory says. |
| LfsCreate.DirectoryGoodIff | project4/xinu/device/lfs/lfscreate.c:31-46 | Of the requests the size check accepts, the written directory can head free lists of all the blocks exactly when at least one index block and 1536 bytes of disk were asked for. |
| LfsCreate.AcceptedButEmpty | project4/xinu/device/lfs/lfscreate.c:31-46 | Two accepted requests, one for no index blocks and one for a two-sector disk, for which no free lists begin where the written directory says. |
| LfsCreate.Lfscreate | project4/xinu/device/lfs/lfscreate.c:29-73 | SYSERR exactly on the size check; otherwise the written directory heads free lists that hold every index block and every data sector exactly once, in ascending order. |
| LfsCreate.MakeIndexList | project4/xinu/device/lfs/lfscreate.c:52-60 | The loop chains all index blocks in ascending order. |
| LfsCreate.MakeDataList | project4/xinu/device/lfs/lfscreate.c:62-71 | The loop chains all data blocks in ascending order and leaves the index blocks alone. |
| PagingModel.EntryUpdate | project4/xinu/system/paging.c:317-346 | Writing one page-table entry changes the entry of that page of that process and no other. |
| PagingModel.OnePlace | project4/xinu/system/paging.c:167-256 | No page has two frames or two swap slots, and a page in a frame is marked present with that frame as its base. |
| PagingModel.OldestUnique | project4/xinu/system/paging.c:119-151 | When all frames are in use the victim search has one answer: the frame loaded longest ago. |
| PagingModel.EvictStep | project4/xinu/system/paging.c:159-249 | Evicting a page, whether dirty or clean, with or without a swap copy, leaves every process's memory as it sees it unchanged and the invariant intact. |
| PagingModel.InstallStep | project4/xinu/system/pagefault_handler.c:173-212 | Giving a page a frame, from swap or fresh, makes it present with the contents its process last saw and disturbs no other page. |
| PagingModel.StoreStep | project4/xinu/system/paging.c:153-249 | Storing a page's new contents in its frame changes that page for that process only and sets the dirty flag of its entry; the clean-copy invariant survives. |
| PagingModel.KillStep | project4/xinu/system/kill.c:34-82 | Releasing a process's frames and slots leaves every other process's memory as it was. |
| PagingModel.TableStep | project4/xinu/system/pagefault_handler.c:137-193 | Adding a page table for a process changes no user page's entry. |
| PagingModel.SwapFull | project4/xinu/system/paging.c:261-279 | If swap is full and a resident page has no slot, then more pages have been touched than swap can hold. |
| Paging.Pager.constructor | project4/xinu/system/paging.c:7-45 | All three frame tables start free and the invariant holds. |
| Paging.Pager.GetPtFrame | project4/xinu/system/paging.c:52-72 | Returns the first free page-table frame, or none exactly when there is none. |
| Paging.Pager.GetSwapFrame | project4/xinu/system/paging.c:261-279 | Returns the first free swap frame and records the page there, or none exactly when swap is full. |
| Paging.Pager.ChooseSlot | project4/xinu/system/paging.c:167-236 | The swap frame of an evicted page is its own slot or else the first free one, and it is copied to unless the page is clean and has a slot. |
| Paging.Pager.FindVictim | project4/xinu/system/paging.c:119-151 | With every frame in use the loop always finds a victim, the oldest frame. |
| Paging.Pager.Evict | project4/xinu/system/paging.c:159-249 | Carries out the eviction step, and fails exactly when the page has no slot and no swap frame is free, which takes more touched pages than swap has frames. |
| Paging.Pager.GetFfsFrame | project4/xinu/system/paging.c:74-257 | The first free frame if there is one, else the oldest after evicting its page; reserved for the new page with a fresh load time. |
| Paging.Pager.PageFault | project4/xinu/system/pagefault_handler.c:72-225 | A fault on a valid page makes it present with the contents its process last saw, or, if it was never touched, whatever its new frame holds; a first touch is charged to heap or swap; the process is killed exactly when it needs a page table and both are used up; it gets stuck only when page-table frames are used up or more pages are touched than swap can hold. |
| Paging.Pager.Kill | project4/xinu/system/kill.c:34-82 | Every frame, slot and page table of the process is free afterwards, its resident frames are counted as free heap again, and no other process's memory changes. |
| Paging.Pager.Vcreate | project4/xinu/system/vcreate.c:112-163 | The new process has a directory and exactly four tables, which map the kernel's pages to the frames of the same number; nobody else's memory changes. |
| Paging.Pager.Read | project4/xinu/system/pagefault_handler.c:137-216 | A process reads the byte it last wrote, whether or not the page had been evicted. |
| Paging.Pager.Write | project4/xinu/system/pagefault_handler.c:137-216 | A write changes one byte of the process's memory as it sees it, and nothing else of anyone's. |
| Paging.ReleaseAll | project4/xinu/system/kill.c:37-81 | The loop frees exactly the entries of one process and returns how many there were. |
| Paging.OwnedCounts | project4/xinu/system/kill.c:37-81 | The number of entries given back is the size of the set of entries that carry the process's number. |
| Paging.TouchConserves | project4/xinu/system/pagefault_handler.c:85-112 | A first touch takes exactly one from the counters together, from heap while there is any and else from swap, so counters and touched pages add up to the same; with both used up swap wraps. |
| PagingRun.Run | project4/xinu/system/paging.c:102-256 | Over any interleaving of reads and writes by any number of processes, with processes created and killed in between, every operation makes its own entry in the log, with the effect on the machine that entry stands for, and every read returns what that process last wrote there; the run stops early only when page-table frames are used up or more pages are touched than swap can hold. |
| PagingRun.Perform | project4/xinu/system/pagefault_handler.c:72-225 | One operation: the byte read or written, the process begun, ended or killed for want of memory, or nothing when the process is not there. |
| Vmalloc.ClearOne | project4/xinu/system/vmalloc.c:175-196 | Clearing one bit takes exactly one page of the flattened space although three planes share each entry. |
| Vmalloc.ScanStep | project4/xinu/system/vmalloc.c:78-126 | One turn of the scan keeps what it knows about free runs, across table and plane boundaries. |
| Vmalloc.Space.constructor | project4/xinu/system/vcreate.c:118-141 | A new process has every page free and its page counts right. |
| Vmalloc.PagesHold | project4/xinu/system/vmalloc.c:20-22 | The pages taken hold the bytes asked for, and one page fewer would not. |
| Vmalloc.Space.Search | project4/xinu/system/vmalloc.c:55-127 | The nested loops find the lowest run of the requested length, or show that there is none. |
| Vmalloc.Space.Mark | project4/xinu/system/vmalloc.c:142-198 | The nested loops clear exactly the pages of the run and charge each to its plane's count. |
| Vmalloc.Space.Vmalloc | project4/xinu/system/vmalloc.c:20-205 | True first fit: the lowest run of exactly the pages that hold the bytes asked for is taken and its address returned, or SYSERR exactly when there is none; what a request for no bytes does is stated exactly; the counts stay right exactly unless such a request succeeds. |
| Vmalloc.CountsFollow | project4/xinu/system/vmalloc.c:175-196 | heap_size and swap_size stay the numbers of free pages in plane 0 and in planes 1 and 2. |
| Vmalloc.CountsWrong | project4/xinu/system/vmalloc.c:116-127 | After a successful request for no bytes one of the two counts is wrong. |
| Vmalloc.ZeroBytesExample | project4/xinu/system/vmalloc.c:116-134 | A space in which a request for no bytes succeeds and takes a page. |
| Vmalloc.Run | project4/xinu/system/vmalloc.c:20-205 | Over any run each request is answered by first fit from the pages as the earlier ones left them; byte ranges of different successful requests never overlap and every byte of them lies in a page that is taken at the end; the counts equal the free pages as long as no request is for no bytes. |
| Heap.RoundCovers | project4/xinu/include/memory.h:11-12 | Rounding up covers the request exactly when the request is at most 0xFFFFFFF8; above that the sum wraps and gives 0. |
| Heap.CanonicalUnique | project4/xinu/system/freemem.c:28-67 | A free list that is sorted, disjoint and never adjacent is determined by the bytes it covers. |
| Heap.TakeLowKeeps | project4/xinu/system/getmem.c:26-42 | Taking bytes off the low end of a block keeps the list canonical and the total right. |
| Heap.TakeHighKeeps | project4/xinu/system/getstk.c:43-49 | Taking bytes off the high end of a block keeps the list canonical and the total right. |
| Heap.TakeLowCovers | project4/xinu/system/getmem.c:26-42 | Exactly the bytes handed out stop being free. |
| Heap.TakeHighCovers | project4/xinu/system/getstk.c:43-51 | Exactly the bytes handed out stop being free. |
| Heap.TakeAligned | project4/xinu/system/getmem.c:22-42 | Blocks stay multiples of the header size when memory is taken. |
| Heap.PutBackKeeps | project4/xinu/system/freemem.c:49-67 | Returning memory keeps the list canonical, coalescing on either or both sides, and the total right. |
| Heap.PutBackCovers | project4/xinu/system/freemem.c:49-67 | Exactly the bytes returned become free. |
| Heap.PutBackAligned | project4/xinu/system/freemem.c:25-67 | Blocks stay multiples of the header size when memory returns. |
| Heap.GapIffDisjoint | project4/xinu/system/freemem.c:35-46 | Comparing with the two neighbours is the same as overlapping no free block at all. |
| HeapOps.AdmitsExactly | project4/xinu/system/freemem.c:35-46 | The overlap test as written accepts an overlapping block exactly when its end wraps past zero in front of a free block, for any rounded size including 0; it never rejects a disjoint one. |
| HeapOps.WrappedReturns | project4/xinu/system/freemem.c:18-46 | Two returns that are accepted although they overlap a free block: one whose end wraps past zero, and one whose size rounds to no bytes. |
| HeapOps.FreeList.Getmem | project4/xinu/system/getmem.c:16-48 | First fit on the linked list: the lowest block large enough gives up its low end, and SYSERR exactly when the size is 0 or nothing fits. |
| HeapOps.FreeList.Getstk | project4/xinu/system/getstk.c:17-51 | Last fit: the highest block large enough gives up its high end, and the address is that of the top word. |
| HeapOps.FreeList.Freemem | project4/xinu/system/freemem.c:18-69 | Refuses, unchanged, a size of 0 and an address outside the heap; any other block exactly when the overlap test as written says so, which is when it overlaps a free one as long as the 32-bit sums do not wrap; otherwise the list is then the coalesced one. |
| HeapOps.FreeList.Freestk | project4/xinu/include/memory.h:18-21 | The macro finds the block below a stack's top word and frees it. |
| HeapRun.TakeLowPutBack | project4/xinu/system/freemem.c:28-69 | getmem and then freemem of the same block is accepted and restores the identical list. |
| HeapRun.TakeHighPutBack | project4/xinu/include/memory.h:18-21 | getstk and then freestk of the same stack is accepted and restores the identical list. |
| HeapRun.Granted | project4/xinu/system/getmem.c:26-42 | Handing out free bytes keeps every byte in exactly one place. |
| HeapRun.Returned | project4/xinu/system/freemem.c:49-67 | Taking a block back keeps every byte in exactly one place. |
| HeapRun.HeldDisjoint | project4/xinu/system/freemem.c:18-46 | A block a caller holds overlaps no free block and lies in the heap, so freemem accepts it. |
| HeapRun.AllReturned | project4/xinu/system/freemem.c:49-67 | When nothing is held the list is the one the run began with. |
| HeapRun.Perform | project4/xinu/system/freemem.c:18-69 | One call by a caller that frees what it was given does to the list and to the grants what it does to the plain list of blocks, and keeps the partition; a free always succeeds. |
| HeapRun.Run | project4/xinu/system/getmem.c:16-48 | Over any run the list and the grants are those of first fit from below, last fit from above and coalescing return on a plain list of blocks; allocated and free blocks partition the heap, and with everything returned the list and its total are the original ones. |
| Qsort.LikePivot | project4/xinu/lib/qsort.c:53-88 | Comparing with any element of the middle region is comparing with the pivot. |
| Qsort.EqualBelow | project4/xinu/lib/qsort.c:55-59 | An element equal to the pivot joins the middle region from below, the other regions kept. |
| Qsort.EqualAbove | project4/xinu/lib/qsort.c:70-74 | The same from above. |
| Qsort.WrongSides | project4/xinu/lib/qsort.c:83-86 | Exchanging a large element below with a small one above puts both in place. |
| Qsort.ShiftUp | project4/xinu/lib/qsort.c:77-82 | With no room below the three-way exchange moves the middle up by one and the small element in. |
| Qsort.ShiftDown | project4/xinu/lib/qsort.c:107-108 | With no room above it moves the middle down by one and the large element out. |
| Qsort.PartitionSettles | project4/xinu/lib/qsort.c:92-104 | After a partition only pairs both below or both above the middle can be out of order. |
| Qsort.RearrangeHole | project4/xinu/lib/qsort.c:92-104 | Sorting one side cannot disturb what is settled elsewhere. |
| Qsort.Sorter.Qsexc | project4/xinu/lib/qsort.c:116-134 | Two elements change places. |
| Qsort.Sorter.Qstexc | project4/xinu/lib/qsort.c:140-162 | Three elements rotate, also when two of the places coincide. |
| Qsort.Sorter.Partition | project4/xinu/lib/qsort.c:47-108 | Terminates and rearranges for any comparison function; under a total preorder it leaves below, equal and above the pivot in that order. |
| Qsort.Sorter.Qs1 | project4/xinu/lib/qsort.c:29-110 | Rearranges the range for any comparison function, sorts it under a total preorder, and nests no deeper than log2 of the number of elements. |
| Qsort.Sorter.Qsort | project4/xinu/lib/qsort.c:13-23 | The first n elements are a sorted permutation, the rest is untouched. |
| Queues.LinkinChain | project4/xinu/system/insert.c:27-35 | Writing the five links puts the process between its two neighbours and keeps the list doubly linked between its sentinels. |
| Queues.LinkinFrame | project4/xinu/system/insert.c:27-35 | No other queue of the shared table changes. |
| Queues.UnlinkChain | project4/xinu/system/getitem.c:53-57 | Relinking the neighbours removes exactly that process. |
| Queues.UnlinkFrame | project4/xinu/system/getitem.c:53-57 | No other queue of the shared table changes. |
| Queues.KeyPlace | project4/xinu/system/insert.c:22-25 | The place in front of the first smaller key: behind every equal one. |
| Queues.Queuetab.Newqueue | project4/xinu/system/newqueue.c:11-29 | A fresh empty queue while the table has room, SYSERR exactly when it has none; other queues unchanged. |
| Queues.Queuetab.Enqueue | project4/xinu/system/queue.c:16-29 | The process goes to the tail of that queue and no other queue changes; a bad queue and a bad process are refused. |
| Queues.Queuetab.Dequeue | project4/xinu/system/queue.c:40-51 | The first process leaves and is on no queue, or EMPTY exactly for an empty queue; a bad queue is refused. |
| Queues.Queuetab.Getfirst | project4/xinu/system/getitem.c:16-21 | The first process leaves, or EMPTY exactly for an empty queue. |
| Queues.Queuetab.Getitem | project4/xinu/system/getitem.c:51-57 | The process leaves its queue wherever it stands, and is then on none. |
| Queues.Queuetab.Insert | project4/xinu/system/insert.c:15-35 | The process goes in front of the first smaller key; all other places and queues are kept; a bad queue and a bad process are refused. |
| Queues.Queuetab.Insertd | project4/xinu/system/insertd.c:15-41 | The process goes in front of the first process due later, keeps what is left of its delay, and its successor gives that up; a bad queue and a bad process are refused. |
| Delta.InsertRemainingSelf | project4/xinu/system/insertd.c:22-39 | A process inserted with delay d is due in d ticks. |
| Delta.InsertRemaining | project4/xinu/system/insertd.c:22-39 | Inserting one process changes nobody else's remaining time. |
| Delta.InsertOk | project4/xinu/system/insertd.c:22-39 | The delta list stays well formed exactly when the new delay is at least one. |
| Delta.RemoveRemaining | project4/xinu/system/unsleep.c:37-44 | Removing one process early changes nobody else's remaining time. |
| Delta.TickExact | project4/xinu/system/clkhandler.c:28-36 | A tick releases exactly the processes with one tick left and takes one from everyone else's time. |
| Delta.TickLost | project4/xinu/system/clkhandler.c:28-36 | Everyone else's time falls by one exactly when the first key is at least one; with a zero key in front the tick is lost on them. |
| Delta.ZeroDelayExample | project4/xinu/system/recvtime.c:25-31 | A timed receive of zero ticks makes another sleeper wait one tick longer. |
| Delta.WokenOnTime | project4/xinu/system/wakeup.c:13-18 | Over any sequence of sleeps, early leavings and ticks, with delays of at least one, a process is woken on exactly the tick its delay names and not before. |
| KernelModel.PlacedMove | project4/xinu/system/ready.c:21-26 | When one process changes state and queue together, every process is again on exactly the queue its state names. |
| KernelModel.Move | project4/xinu/system/kill.c:84-105 | The whole invariant of process table, semaphores and queues carries over such a move. |
| KernelModel.InsertDescending | project4/xinu/system/insert.c:22-35 | The ready list stays in priority order. |
| KernelSteps.SomeoneReady | project4/xinu/system/resched.c:38-42 | When the current process is no longer eligible the ready list is not empty: the null process is on it. |
| KernelSteps.MakeReadyInv | project4/xinu/system/ready.c:21-25 | Making a process ready keeps the invariant. |
| KernelSteps.ReschedStable | project4/xinu/system/resched.c:11-51 | After a reschedule one process runs and nobody ready has a higher priority. |
| KernelSteps.ReschedDeferred | project4/xinu/system/resched.c:16-21 | While deferred a reschedule changes nothing but the note that it was asked for. |
| KernelOps.ReleasedInv | project4/xinu/system/signal.c:26-28 | The process a signal releases is the first waiter; it was waiting on that semaphore and is now ready. |
| KernelOps.DeferStopStable | project4/xinu/system/resched.c:70-77 | Ending a deferral leaves the kernel stable, whatever was made ready meanwhile. |
| KernelOps.SignalStable | project4/xinu/system/signal.c:17-30 | signal keeps counts equal to queues and the kernel stable. |
| KernelOps.SignalnStable | project4/xinu/system/signaln.c:17-36 | signaln does the same for n signals under one deferral. |
| KernelOps.SemresetStable | project4/xinu/system/semreset.c:19-34 | semreset releases every waiter, sets the count and changes no other semaphore. |
| KernelOps.SemdeleteStable | project4/xinu/system/semdelete.c:16-35 | semdelete frees the entry, releases every waiter and changes no other semaphore. |
| KernelCalls.WaitStable | project4/xinu/system/wait.c:17-38 | wait keeps counts equal to queues and the kernel stable, for any process but a blocking null process. |
| KernelCalls.SendStable | project4/xinu/system/send.c:17-40 | send keeps the kernel stable for a recipient in any state. |
| KernelCalls.AsleepStable | project4/xinu/system/sleep.c:41-52 | Going to sleep, plainly or in a timed receive, keeps the kernel stable. |
| KernelCalls.SuspendStable | project4/xinu/system/suspend.c:17-40 | suspend keeps the kernel stable for a ready and for the current process. |
| KernelCalls.ResumeStable | project4/xinu/system/resume.c:17-30 | resume keeps the kernel stable. |
| KernelCalls.KillRestStable | project4/xinu/system/kill.c:84-105 | Whatever state the victim is in, it ends free, off every queue, with its semaphore's count put right, and the kernel is stable. |
| KernelCalls.WakeupStable | project4/xinu/system/wakeup.c:9-20 | Every sleeper that is due is released under one deferral and the kernel is stable. |
| KernelCalls.ClockStable | project4/xinu/system/clkhandler.c:26-44 | A tick keeps the kernel stable and changes the sleep queue exactly as the delta list theory says. |
| Kernel.Scheduler.constructor | project4/xinu/system/initialize.c:183-227 | The tables as set up at boot satisfy the invariant with the null process running. |
| Kernel.Scheduler.Resched | project4/xinu/system/resched.c:11-51 | The method on the tables carries out the reschedule step. |
| Kernel.Scheduler.ReschedCntl | project4/xinu/system/resched.c:57-82 | Starts or stops a deferral; stopping refuses when none is outstanding and reschedules when the last one ends and it was asked for. |
| Kernel.Scheduler.Ready | project4/xinu/system/ready.c:11-29 | The process is put on the ready list by priority and the processor is given out anew; a bad process is refused, unchanged. |
| Kernel.Scheduler.Wait | project4/xinu/system/wait.c:9-39 | The count falls by one; the caller blocks at the tail of the queue exactly when it was not positive; SYSERR exactly for a bad or free semaphore. |
| Kernel.Scheduler.Signal | project4/xinu/system/signal.c:9-31 | The count rises and the first waiter, if any, is made ready; SYSERR exactly for a bad or free semaphore. |
| Kernel.Scheduler.Signaln | project4/xinu/system/signaln.c:9-37 | As many signals, then one reschedule. |
| Kernel.Scheduler.Semreset | project4/xinu/system/semreset.c:9-35 | All waiters released in order, the count as given. |
| Kernel.Scheduler.Semdelete | project4/xinu/system/semdelete.c:9-36 | All waiters released in order, the entry free. |
| Kernel.Scheduler.Newsem | project4/xinu/system/semcreate.c:34-50 | A free entry, or SYSERR exactly when every entry is in use, wherever the cyclic search starts. |
| Kernel.Scheduler.Semcreate | project4/xinu/system/semcreate.c:11-28 | A new semaphore with the given count and nobody waiting; SYSERR exactly for a negative count or a full table. |
| Kernel.Scheduler.Send | project4/xinu/system/send.c:9-41 | Stores the message unless the recipient is bad or has one; a recipient blocked for one is made ready, off the sleep queue if it was on it. |
| Kernel.Scheduler.Receive | project4/xinu/system/receive.c:15-20 | Blocks exactly when no message is there. |
| Kernel.Scheduler.TakeMessage | project4/xinu/system/receive.c:21-24 | Returns the message and empties the slot. |
| Kernel.Scheduler.Recvtime | project4/xinu/system/recvtime.c:17-32 | Joins the sleep queue exactly when no message is there; a negative wait is refused. |
| Kernel.Scheduler.TakeTimed | project4/xinu/system/recvtime.c:34-43 | Returns the message if there is one, else TIMEOUT. |
| Kernel.Scheduler.Sleepms | project4/xinu/system/sleep.c:26-53 | Sleeps for a positive delay, only yields for zero, refuses a negative one. |
| Kernel.Scheduler.Suspend | project4/xinu/system/suspend.c:9-41 | Suspends a ready or the current process and returns its priority; refuses every other, and the null process. |
| Kernel.Scheduler.Resume | project4/xinu/system/resume.c:9-31 | Makes a suspended process ready and returns its priority; refuses every other. |
| Kernel.Scheduler.KillNotice | project4/xinu/system/kill.c:17-28 | The checks and the message to the parent, after which others may run. |
| Kernel.Scheduler.KillRest | project4/xinu/system/kill.c:84-108 | The victim is free and off its queue, from any state. |
| Kernel.Scheduler.Unsleep | project4/xinu/system/unsleep.c:22-46 | A sleeper leaves early and its delay passes to its successor; anyone else is refused. |
| Kernel.Scheduler.Wakeup | project4/xinu/system/wakeup.c:9-20 | The loop releases exactly the sleepers that are due. |
| Kernel.Scheduler.Clkhandler | project4/xinu/system/clkhandler.c:26-45 | One tick on the sleep queue and on the time slice. |
| Kernel.Scheduler.Newpid | project4/xinu/system/create.c:106-123 | A free process entry, or SYSERR exactly when there is none. |
| Kernel.Scheduler.Create | project4/xinu/system/create.c:28-57 | A new suspended process; SYSERR exactly for a priority below 1 or a full table. |
| KernelRun.DoStable | project4/xinu/system/resched.c:25-46 | Every step of the kernel keeps the global invariant and the scheduling guarantee. |
| KernelRun.RunStable | project4/xinu/system/resched.c:25-46 | Over any run: one current process, every process on exactly the queue its state names and on no other, counts equal to queues, and nobody ready outranking the current process. |
| KernelRun.DoKeeps | project4/xinu/system/queue.c:22-29 | A step touches no queue but the ready list and the one it works on. |
| KernelFair.DoQueue | project4/xinu/system/signal.c:26-28 | In every step a semaphore's queue loses some of its front, gains one at its tail, or loses a killed process, and nothing else. |
| KernelFair.NotOvertaken | project4/xinu/system/wait.c:29-35 | A waiter is let through only when nobody who came before it is still waiting. |
| KernelFair.SignalnWaiters | project4/xinu/system/signaln.c:28-33 | n signals release exactly the first n waiters. |
| KernelFair.DoSleepq | project4/xinu/system/kill.c:89-93 | Every step changes the sleep queue exactly as the sleeping, leaving or ticking it stands for. |
| KernelFair.RunOnTime | project4/xinu/system/wakeup.c:13-18 | In any run of the whole kernel without zero-tick receives every sleeper is woken on exactly its tick. |
| KernelFair.RingTurns | project4/xinu/system/resched.c:27-43 | A reschedule moves the current process behind its equals and runs the next of them. |
| KernelFair.TurnsInOrder | project4/xinu/system/insert.c:22-34 | Repeated reschedules run the processes of equal priority in strict rotation and come back to the first after one round. |
| KernelEffects.DoMeans | project4/xinu/system/resched.c:25-46 | The meaning of every call, said without queues: what it does to each process's state, priority, parent and message slot, up to which eligible process runs; to each semaphore's use and count; and to the time slice, which is whole for a process newly given the processor. |
| KernelTraces.WaitTakesOne | project4/xinu/system/wait.c:29-35 | An accepted wait takes one from the count and changes no other semaphore; the caller is then waiting on it exactly when the old count was not positive, and no other process is affected. |
| KernelTraces.CountOverRun | project4/xinu/system/signaln.c:28-33 | Over any run without reset or delete, a semaphore's count is its starting count plus accepted signals plus kills of its waiters minus accepted waits. |
| KernelTraces.PassedWaits | project4/xinu/system/wait.c:29-35 | The waits that have returned are the starting count plus the signals, less what is left over: never more get through than were given. |
| KernelTraces.SendDelivers | project4/xinu/system/send.c:18-40 | An accepted send leaves its message in the slot and the recipient not blocked for one; a send to a bad process or a full slot changes nothing. |
| KernelTraces.SlotKept | project4/xinu/system/send.c:24-29 | Over any run a message stays in its slot, unreplaced, until it is taken or the entry is given to a new process. |
| KernelTraces.MessageArrives | project4/xinu/system/kill.c:28-28 | What send, or the death of a child, delivers is the very message its receiver finds, however many steps later it takes it. |
| KernelTraces.SliceEnds | project4/xinu/system/clkhandler.c:41-44 | While no sleeper is due, the current process keeps the processor for all ticks of its slice, and then the next process of its priority gets a whole quantum. |
| KernelTraces.RoundRobin | project4/xinu/system/clkhandler.c:41-44 | Processes of equal priority run in strict turn, one quantum of ticks each, as long as no sleeper is due. |
| KernelTraces.YieldTurns | project4/xinu/system/sleep.c:36-39 | A yield, and a sleep of no time, give the processor to the next process of equal priority. |
| KernelTurns.DoGivesWay | project4/xinu/system/ready.c:22-28 | After a call that makes somebody eligible, yields or ends the time slice, also at the end of a deferral, the process that goes on strictly outranks everybody ready: its equals run first. |
| KernelTurns.DoGoesOn | project4/xinu/system/resched.c:57-82 | Any other call that does not stop its caller leaves the processor with it and the ready list as it was: a deferral in which nobody was released does not reschedule. |
| KernelDrive.Step | project4/xinu/system/resched.c:11-82 | A call of a routine on the tables is the step of the machine that was asked for, up to the key a waiter queues under and the entry a new semaphore or process gets, and is refused exactly when there is no such entry or the argument is bad. |
| PortsModel.QueueBounded | project4/xinu/system/ptsend.c:29-35 | A port never queues more than its capacity; a receiver holding a grant of the present incarnation finds a message, a sender finds space. |
| PortsModel.FirstInFirstOut | project4/xinu/system/ptrecv.c:37-44 | What has been received is the front of what was sent, and the queue is the rest. |
| PortsSteps.OtherPort | project4/xinu/system/ptclear.c:21-48 | A step at one port changes nothing another port's invariant depends on. |
| PortsSafety.UpSendInv | project4/xinu/system/ptrecv.c:45-45 | Signalling space makes it available or promises it to the first waiting sender. |
| PortsSafety.UpRecvInv | project4/xinu/system/ptsend.c:56-56 | Announcing a message makes it available or promises it to the first waiting receiver. |
| PortsSafety.PutInv | project4/xinu/system/ptsend.c:42-56 | Queueing a message turns the space token in hand into a message token: the sums are right again. |
| PortsSafety.CollectInv | project4/xinu/system/ptrecv.c:37-45 | A process promised a message finds the queue nonempty, and taking it gives its space back. |
| PortsSafety.ContinueInv | project4/xinu/system/ptrecv.c:28-33 | A process that runs again gets SYSERR exactly when its port is no longer the incarnation it started with, and then changes no port. |
| PortsSafety.ClearStartInv | project4/xinu/system/ptclear.c:21-42 | Entering limbo, with the sequence number raised and the senders let go, keeps the invariant. |
| PortsSafety.ClearNextInv | project4/xinu/system/ptclear.c:43-46 | Letting the receivers go keeps the invariant. |
| PortsSafety.ClearEndInv | project4/xinu/system/ptclear.c:40-48 | The port that comes back, or goes, keeps the invariant; one that comes back is empty, with all its space available and nobody waiting. |
| PortsSafety.PtCreateInv | project4/xinu/system/ptcreate.c:33-41 | Creating a port in a free entry keeps the invariant. |
| PortsSafety.KillInv | project4/xinu/system/kill.c:95-100 | Killing a waiter gives its place back; killing a process between grant and run loses exactly one token. |
| PortsNodes.AppendedOk | project4/xinu/system/ptsend.c:42-55 | Moving the first free node behind a port's last keeps every node on exactly one list and appends that message. |
| PortsNodes.ReturnedOk | project4/xinu/system/ptrecv.c:37-44 | Moving a port's first node to the free list keeps every node on exactly one list and drops that message. |
| PortsNodes.SplicedOk | project4/xinu/system/ptclear.c:34-38 | Splicing a port's list onto the free list keeps every node on exactly one list. |
| Ports.PortTable.constructor | project4/xinu/system/ptinit.c:22-43 | All nodes are on the free list and all ports free. |
| Ports.PortTable.LinkLast | project4/xinu/system/ptsend.c:42-55 | The relinking appends the message to that port and to no other. |
| Ports.PortTable.UnlinkFirst | project4/xinu/system/ptrecv.c:37-44 | The relinking takes the first message of that port, and that message is what is returned. |
| Ports.PortTable.Ptsend | project4/xinu/system/ptsend.c:20-58 | Sends at once if there is space, joins the waiting senders if not, SYSERR for a port not in use; panics exactly when no node is free. |
| Ports.PortTable.Ptrecv | project4/xinu/system/ptrecv.c:19-47 | Receives the first message at once if one is announced, joins the waiting receivers if not, SYSERR for a port not in use. |
| Ports.PortTable.Run | project4/xinu/system/ptsend.c:29-35 | A process let go continues only if its port is still allocated with the sequence number it remembered. |
| Ports.PortTable.DisposeAll | project4/xinu/system/ptclear.c:24-32 | The walk hands every queued message to the disposal routine once, in order. |
| Ports.PortTable.PtclearStart | project4/xinu/system/ptclear.c:21-42 | Limbo, new sequence number, messages disposed of, nodes back on the free list, senders let go. |
| Ports.PortTable.PtclearNext | project4/xinu/system/ptclear.c:43-46 | Receivers let go, the message semaphore at zero or deleted. |
| Ports.PortTable.PtclearEnd | project4/xinu/system/ptclear.c:48-49 | The port takes its new state. |
| Ports.PortTable.Ptreset | project4/xinu/system/ptreset.c:18-26 | Clears a port in use and refuses any other. |
| Ports.PortTable.Ptdelete | project4/xinu/system/ptdelete.c:17-26 | Clears a port in use and refuses any other. |
| Ports.PortTable.Ptcreate | project4/xinu/system/ptcreate.c:19-45 | Takes the next free entry; SYSERR exactly for a negative count or when none is free. |
| Ports.PortTable.Kill | project4/xinu/system/kill.c:95-100 | The table after a process inside a port routine is killed. |
| PortsRun.RunInv | project4/xinu/system/ptsend.c:29-56 | At every point of every run, for every port in use: space available, promised, used and lost adds up to the capacity; messages announced, promised and lost to the queue; the queue is within its bound and in order. |
| PortsRun.ClearOutdates | project4/xinu/system/ptclear.c:21-23 | A reset or delete outdates every process blocked in the port or let go by it. |
| PortsRun.OutdatedStays | project4/xinu/system/ptclear.c:21-23 | Once outdated, always outdated, whatever else happens to the port. |
| PortsRun.OldIncarnationRefused | project4/xinu/system/ptsend.c:29-35 | However long after a reset or delete it runs, a process of the earlier incarnation gets SYSERR and touches no port. |
| PortsRun.NoPanic | project4/xinu/system/ptsend.c:36-38 | ptsend never runs out of nodes while the capacities of the ports in use add up to no more than the pool. |
| PortsTraces.DoTraffic | project4/xinu/system/ptrecv.c:37-47 | In every step of a port that stays in use, what the port has received grows by exactly the message a receiver is answered with, and what was sent by exactly the message of a sender answered OK. |
| PortsTraces.RunTraffic | project4/xinu/system/ptsend.c:42-58 | Over any run of one incarnation the messages sent and received are those of the answers, in their order. |
| PortsTraces.InOrder | project4/xinu/system/ptrecv.c:37-47 | From a creation or reset on, the answers of the receivers are, in order, the first of the messages the senders passed in; the port holds the rest, at most its capacity. |
| PortsTraces.SendAnswers | project4/xinu/system/ptsend.c:20-40 | ptsend answers SYSERR exactly for a port not in use, waits exactly when no space is left, and panics exactly when it has space and no node is free. |
| PortsTraces.RecvAnswers | project4/xinu/system/ptrecv.c:20-33 | ptrecv answers SYSERR exactly for a port not in use, waits exactly when no message is announced, and otherwise has a message. |
| PortsTraces.RunAnswers | project4/xinu/system/ptrecv.c:29-33 | A process let go is refused exactly when the port is another incarnation; otherwise a receiver has a message and a sender has sent. |
| PortsFair.DoFair | project4/xinu/system/ptsend.c:29-31 | In every step each line of waiting senders or receivers is served from the front, grows at its end, or loses a killed process; a process that does not act is at most let go. |
| PortsFair.CallKept | project4/xinu/system/ptsend.c:28-35 | Over any run a process inside a port routine keeps its port, its incarnation, its message, and what a clearing is to end in. |
| PortsFair.WaiterSends | project4/xinu/system/ptsend.c:28-56 | However long it waited, a sender sends the message it was called with to the port it was called with, if the port is still the incarnation it waited on, and is refused otherwise. |
| PortsFair.ClearingEnds | project4/xinu/system/ptclear.c:20-49 | However it is interleaved, a reset brings its port back empty and a delete frees it. |
| PortsDrive.NodesConserved | project4/xinu/system/ptinit.c:37-43 | The nodes on the free list and on the lists of all ports are all the nodes there are. |
| PortsDrive.RoomIsFree | project4/xinu/system/ptsend.c:36-38 | The free list that ptsend tests is empty exactly when as many messages are queued as there are nodes. |
| PortsDrive.Step | project4/xinu/system/ptsend.c:15-58 | A call of a routine on the port table is the step of the machine that was asked for, with the same answer; ptcreate is refused exactly when no entry is free or the count is negative. |
| PortsRun.CapacityAfterReset | project4/xinu/system/ptcreate.c:33-41 | The capacity given at creation survives a reset exactly when it is at most 65535. |

## Left out

- HeapOps.FreeList.Freemem: what the list looks like after an accepted return whose rounded size is 0 or whose end wraps past 2^32 is not described; `HeapOps.AdmitsExactly` says when such a return is accepted.
- HeapRun.Run: the callers it covers ask for at most 0xFFFFFFF8 bytes at a time (above that the size rounds to 0, see `Heap.RoundCovers`) and free what they were given with the size they asked for; freeing part of a block, or someone else's, is covered one call at a time by `HeapOps.FreeList.Freemem`.
- LfsCreate.Lfscreate: for an accepted request without an index block or without a data block only the directory is described (`LfsCreate.BadDirectory`); the loops of the source then run over sectors that are not there.
- KernelFair.RunOnTime: runs with a timed receive of zero ticks are excluded, since the source then delays other sleepers (see `Delta.TickLost`).
- PagingRun.Run: says nothing after physical memory has run out; the source then uses an unset frame number.
- PortsRun.RunInv: says nothing after the panic of `ptsend`; `PortsRun.NoPanic` says when there is none.
- Kernel.Scheduler.KillRest: if other processes run between the notice to the parent and the rest, the process number may name another process by then; the step is modelled as the code has it, and only its safety is claimed.
- Kernel.Scheduler.Create: stacks, names, descriptors and page directories are not modelled, nor the count of live processes and the halt when it reaches one.
- Kernel.Scheduler.KillNotice: the count of live processes and the halt when it reaches one, the closing of descriptors and the release of the stack are not modelled.
- Kernel.Scheduler.Sleepms: `sleep` in seconds is a multiplication in front of it.
- Lfs.LocalFs.Lfsopen: the parsing of the mode string, the reading of the directory on first use and the check of its identity fields are not modelled; the two mode letters that matter are booleans.
- Lfs.LocalFs.constructor: mounts a disk that holds no files yet; reading the directory of a used disk is not modelled.
- Ports.PortTable.Ptcreate: its two semaphores are kept in the port's entry, so running out of semaphore entries is not modelled.
- Qsort.Sorter.Qsexc: elements are exchanged whole; the byte loop over an element's size is not modelled.
- Hardware: context switch, control registers, the translation cache, interrupts and device drivers; a routine that runs with interrupts off is one step.
- The network stack, remote disk and remote file devices, the shell, formatted input and output and string helpers.
- `vfree`, whose address arithmetic does not find the pages `vmalloc` marked, and the segmentation checks of the fault handler, which read an address that was never assigned.
- Vmalloc.Space.Vmalloc: the sleep of a second before the scan is not modelled; the pages belong to the one process that calls.
- `chprio`, which changes a priority without moving the process in its queue.
- The system-wide counters of available heap and swap are modelled as the code keeps them (`Paging.TouchConserves`), without any claim that they equal the free frames: they drift when processes end.
- The directory's layout on its sector, the boot-time layout of memory, and I/O errors of the disk.
- Wrap-around of the load counter and of port sequence numbers, and the disposal routine of ports beyond being called once a message.
- Ready-list keys equal to the sentinel's, which no priority of at least 0 reaches.
