# Checkpoint and restore, verified

A Dafny model of the parts of CRIU (checkpoint and restore of process trees in user space) where state has to
agree across several steps, several files or several processes, with proofs of what these parts are for.
`dafny verify dfyconfig.toml` checks everything.

1. **Memory snapshots.** A dump sorts the pages of a process into runs to be stored and runs left to the parent
   snapshot, packs them into pipes, and writes one pagemap and one pages image. Snapshots form chains. The reader
   walks every level of a chain with a cursor that only moves forward. The main result, `Incremental.DumpAndRestore`,
   goes from any number of incremental dumps to the address space after the restore, every page at its address, with
   the exact bounds that the 32-bit lengths and sizes of the program set; beside it, what comes of a write that fails
   unnoticed. Around it: the reader refines a plain recursive lookup, dedup of a parent cannot be seen through the
   child, a page server writes the images that a local dump would have written, up to an exact bound on the length of
   a run, and shared memory segments come back as they were.
2. **Ids for kernel objects.** The red-black insert with its rotations on a heap of linked nodes, and on top of it
   the tree of trees that gives two descriptors the same id exactly when the kernel says they are one object.
3. **Processes that restore together.** Passing shared files and pipes between tasks, the stage barrier and the
   futex mutex are transition systems over any number of processes; the results are about every reachable state and
   every fair run.
4. **Trees.** The mount walk that puts mounts off and tries again, its reverse, the process tree written and read
   back, and sessions given to tasks by forking at the right moment.
5. **Memory for the restorer.** The search for a free place between the areas of two address spaces, and the
   allocator whose buffer moves when it grows and once more at the end.

Code that works step by step is imperative Dafny (classes, arrays, loops). Code that runs in several processes is a
step function with an invariant. The kernel, the file system and the allocator are methods or parameters that say what
the call may answer. How many writes of a dump are possible is a number, `room`, because the first one that fails ends
it. Where a class has a field `flaky` it says whether such calls may fail at all; the contracts then also say that
without such a failure the operation succeeds, or exactly when it does not. No lemma relies on Dafny's automatic
induction: every induction is written out.

| file | models |
|---|---|
| PageImages, PageRead | pagemap and pages images, chains of snapshots, and the reader (page-read.c) |
| PagePipe, PageXfer, DumpImage | collecting runs of pages and writing them out (page-pipe.c, page-xfer.c) |
| Areas, MemDump | a task's areas, and what of them is dumped (mem.c, cr-dump.c) |
| Premap, Restore, Restorer, TaskMemory | mapping areas, reading pages into them and moving them into place (cr-restore.c, pie/restorer.c) |
| Incremental | any number of dumps, and the restore |
| Shmem | shared memory segments (shmem.c) |
| Dedup | punching pages out of a parent (cr-dedup.c) |
| PageServerWire, PageServer, RemoteDump | messages and sessions of the page server, and a dump through it (page-xfer.c) |
| RbTree, KcmpIds | red-black insert, and ids (rbtree.c, include/rbtree.h, kcmp-ids.c, file-ids.c) |
| FdCollect, FdProtocol | files shared between tasks (files.c, pipes.c) |
| StageBarrier, FutexMutex | stages and mutual exclusion (include/restorer.h, include/lock.h, cr-restore.c) |
| MountWalk | the walks over the mount tree (mount.c) |
| PsTree, Sessions | the process tree and its sessions (pstree.c, cr-restore.c) |
| VmaHint, RstMalloc | room and memory for the restorer (cr-restore.c, rst-malloc.c) |
| Options, Sequences | a value that may not be there, and finding and adding up elements of a sequence |

## Model

| member | source | states |
|---|---|---|
| PageImages.LookupSucceeds | page-read.c:128-154 | On a well-formed chain of any depth the recursive lookup "own page, else the parent's" finds a page exactly at the addresses of the newest pagemap. |
| PageImages.EntryAtUnique | page-read.c:91-126 | In a sorted pagemap an address has one entry. |
| PageImages.LengthFits | page-read.c:45-49 | The length of an entry in bytes, a product of 32 bits, is right exactly below 2^20 pages; above that the entry is read as the remainder. |
| PageImages.AsReadOwn | page-read.c:45-49 | Where all entries that store pages fit, each keeps its place in the pages image when it is read. |
| PageReader.PageRead.GetPagemap | page-read.c:51-71 | The next entry becomes current; 0 exactly at the end of the image, -1 exactly for an entry that needs a parent there is none of; cursor and offset stay in step. |
| PageReader.PageRead.SkipPages | page-read.c:80-89 | The cursor moves by the length, and the file offset with it exactly if the entry stores its pages. |
| PageReader.PageRead.Seek | page-read.c:91-126 | From any cursor: on success cursor and offset are on the page; on failure beyond the address nothing in between holds it; any other failure is the end of the image or an entry without its parent. |
| PageReader.PageRead.SeekAhead | page-read.c:91-126 | From a cursor not beyond the address the search succeeds exactly for the addresses of the pagemap. |
| PageReader.PageRead.ReadPage | page-read.c:128-154 | On a well-formed chain whose cursors are not past the address, reading never fails and gives what the recursive lookup gives, every level in step again and not past the next address. |
| PageReader.PageRead.SeekAndRead | page-read.c:132-139 | The same for a level that is asked by its child. |
| PageReader.PageRead.InParentPage | page-read.c:132-139 | A page of an entry left to the parent is there in the parent, and is what the chain means. |
| PageReader.PageRead.OwnPage | page-read.c:140-149 | A page of an entry that stores it lies at the file offset. |
| PageReader.OpenPageRead | page-read.c:167-239 | Whatever is in the images, opening gives one reader for each snapshot of the chain, before the first entry, with the entries as they are read; a chain that is well formed as it is read can then be read. |
| PagePipes.PagePipe.constructor | page-pipe.c:37-60 | An empty page pipe with one pipe. |
| PagePipes.PagePipe.Grow | page-pipe.c:10-35 | A new empty pipe, begun only when the last one is full and cannot grow or has as many runs as it can; the division of the runs among the pipes is kept. |
| PagePipes.PagePipe.TryAddPage | page-pipe.c:79-121 | The pages are the old ones and the new one, in order; a page that continues the last run makes it longer, any other takes one new run. Every pipe counts the pages of its runs and has room for them, and its runs do not touch. Another pipe is asked for only if this one can take no more; it is an error only if the pages take more runs than there are iovs. |
| PagePipes.PagePipe.AddPage | page-pipe.c:129-144 | The same with a new pipe if need be: a new run only for a page that does not continue the last one or for a new pipe. It fails only if a call fails or the pages can take more runs than there are iovs: one for each piece of pages in a row, and one more for each pipe that is used up. |
| PagePipes.PagePipe.AddHole | page-pipe.c:148-175 | The holes are the old ones and the new one, in order; it fails only if memory does. |
| PagePipes.BufsLonger | page-pipe.c:98-120 | Lengthening the last run keeps the division of the runs among the pipes. |
| PagePipes.BufsMore | page-pipe.c:111-120 | A new run in the last pipe keeps it. |
| PagePipes.RunsShort | page-pipe.c:84-96 | No run of pages is longer than a pipe can be, which is well below what the length of an entry can hold; a hole has no such limit. |
| PagePipes.RunsBound | page-pipe.c:79-144 | A page pipe never has more runs than that. |
| PagePipes.PiecesAtMost | page-pipe.c:79-144 | And never fewer than there are pieces. |
| PageXfers.DumpHoles | page-xfer.c:509-518 | Exactly the holes that start below the run are written, or the writes that are possible have run out and it stops short. |
| PageXfers.DumpRun | page-xfer.c:520-528 | A run is written, the entry and its pages; where a write fails the entry, or some of the pages, are missing. |
| PageXfers.DumpBuf | page-xfer.c:501-530 | One pipe is written out: each run after the holes before it, counted from the offset, with its own pages from the pipe; or it stops short. |
| PageXfers.DumpPages | page-xfer.c:490-544 | What is written, into local images or to a socket and for any offset, is the merge of runs and holes by address, each run with the pages of the memory at its addresses. It succeeds exactly if all writes it takes are possible; otherwise what is written is a first part of that, and in local images a proper one. |
| DumpImages.LocalDump | page-xfer.c:441-482 | In local images that is the merged pagemap and the stored pages in order. |
| DumpImages.LocalWrites | page-xfer.c:490-544 | It takes one write for every entry, and one more for every entry that stores pages. |
| DumpImages.AscendingRuns | page-pipe.c:79-121 | Runs that expand to ascending addresses are sorted and do not overlap. |
| DumpImages.MergedSorted | page-xfer.c:490-544 | Merging two sorted lists that are apart gives one sorted pagemap without overlap. |
| DumpImages.MergedGaps | page-pipe.c:148-175 | Holes that follow one another in the pagemap do not touch in memory. |
| DumpImages.DumpedImage | page-xfer.c:490-544 | For ascending additions the pagemap is sorted and the pages image has exactly the pages it speaks of. |
| DumpImages.DumpedPage | page-xfer.c:490-544 | An address is in the pagemap exactly if it was added, stored exactly if it was added as a page, and then reads as the memory's page. |
| DumpImages.DumpedAtOffset | page-xfer.c:520-528 | For runs written with any offset: the pagemap is sorted and has an address exactly if the page that far from the offset was added, and reads there as that page of the memory. |
| MemDump.MemSnap.PageInParent | mem.c:187-219 | For addresses asked in ascending order the rover answers as a search from the start would: clean and in the parent's pagemap. |
| MemDump.GenerateIovs | mem.c:230-276 | After an area, the page pipe has exactly the pages of the areas so far that belong into the snapshot, ascending, those left to the parent as holes; it fails only if a call fails or the pages can take more runs than there are iovs. |
| MemDump.SkippedIsFresh | mem.c:171-184 | By what the kernel's page records mean, a page that is not dumped reads as if it was never written: zeros, or what the file has there. |
| MemDump.WantedIsTouched | mem.c:171-184 | And none is dumped that was never written or is still the file's, but for the vdso. |
| MemDump.GrabPages | mem.c:369-388 | Every pipe holds exactly the pages of its runs; it fails only if a call moves fewer. |
| MemDump.ScannedIsDump | mem.c:307-430 | A page pipe with exactly the wanted pages is written out as a snapshot of the memory. |
| MemDump.DumpTask | mem.c:307-430 | One dump. It fails only if a call fails or its pages can take more runs than there are iovs, and it does fail if they are in more pieces than that. The result of writing the images is overwritten by that of the reset (mem.c:407-417), so if a dump is reported as done, what it wrote is a snapshot of the memory exactly if all its writes were possible: the pagemap has exactly the wanted pages, in_parent exactly on clean pages that the parent has, the others with their content. Otherwise it stops short of such a snapshot and is none. |
| MemDump.HalfIsTooFew | mem.c:346 | Half as many iovs as private pages may be too few: two areas of a page each take two runs. |
| MemDump.CutIsNoDump | mem.c:407-417 | Images that stop short of a snapshot of the memory are not one. |
| Restore.FindArea | cr-restore.c:358-375 | The area found is the private one that holds the address; otherwise there is none. |
| Restore.RestoreEntry | cr-restore.c:350-404 | The pages of one entry are put in place, or one of them has no private area. |
| Restore.RestoreContent | cr-restore.c:320-408 | It succeeds exactly if every page of the newest pagemap has a private area; then no other place has changed, and if the private areas do not share places each page is in its place with what the chain means. Areas that are not private may lie anywhere in between. |
| Premap.PrepareMappings | cr-restore.c:530-551 | The private areas are mapped one after the other. It succeeds exactly if the areas start in order and no size, returned as an int, is taken for an error, unless a call fails. |
| Premap.PlacesApartExactly | cr-restore.c:213-318 | Then no two private areas share a place exactly if all of them but the last are smaller than two gigabytes, guard page included. |
| Premap.FourGigabytes | cr-restore.c:213-318 | After a private area of four gigabytes the next is mapped at the very same place. |
| Premap.TwoGigabytes | cr-restore.c:213-318 | The size of an area of two gigabytes is taken for an error. |
| Restorer.VmaRemap | pie/restorer.c:396-470 | The pages of the source go to the target, in place of what was there, even where the two overlap; it fails only if a call does or the guard page is taken. |
| Restorer.ApartFromTarget | pie/restorer.c:410-433 | A free place as large as the target that has neither the guard page nor a page of the source cannot reach into the target. |
| Restorer.ShiftLeft | pie/restorer.c:637-662 | Going through the areas upwards, each that goes left is moved without touching one that waits or is in place, up to the first that goes right. |
| Restorer.ShiftRight | pie/restorer.c:664-689 | The same downwards for those that go right. |
| Restorer.ShiftVmas | pie/restorer.c:637-689 | Together every private area ends up in its place with its pages, if no area that goes right lies before one that goes left; areas that cross stay where they were. It fails only if a call does or a page of no area is where an area begins or ends. |
| TaskMemory.NoneCross | cr-restore.c:530-551 | As the areas were mapped side by side none cross, if below each that grows down there is a page for its guard. |
| TaskMemory.TwoStacks | cr-restore.c:261-269 | Two areas that grow down, each right above another, make areas cross. |
| TaskMemory.FreshPlace | cr-restore.c:272-288 | A freshly mapped area reads as if it was never written. |
| TaskMemory.ReadsAt | cr-restore.c:377-400 | A page is read into its area at the distance it has from the beginning of the area, and nowhere else. |
| TaskMemory.RestoreMemory | cr-restore.c:457-573 | From the images to the address space: every page of every private area is at its address with what the chain has for it, or else as if it was never written. This is for areas that can be mapped side by side. It fails only if a call does, if a size is taken for an error, if a page has no private area, or if a guard page is in the way. |
| Incremental.DumpIsFaithful | mem.c:187-276 | A dump on a parent that reads as the memory did reads as the memory does wherever it has a page to read, if clean pages kept their content. |
| Incremental.ChainIsFaithful | mem.c:187-276 | After any number of incremental dumps the last snapshot reads as the memory at the last dump, wherever it has a page to read. Both readers of a parent use the same 32 bits, so a page that one dump loses in a long hole is stored by the next. |
| Incremental.ReadWholeExactly | page-read.c:45-49 | A dump is read back whole exactly if it did not leave 2^20 pages in a row to its parent. |
| Incremental.FourCleanGigabytes | mem.c:122-125 | A second dump of a task with four clean gigabytes is not read back whole. |
| Incremental.DumpRounds | mem.c:307-430 | Dumps round after round that are all reported as done make such a chain exactly if every one of them could make all its writes. |
| Incremental.DumpAndRestore | cr-restore.c:457-573 | End to end, for images that could be written: after any number of dumps and a restore, every page of every dumped area, whether it was dumped or never written, reads at its own address as it did at the last dump, if the last dump left no 2^20 pages in a row to its parent and the areas can be mapped side by side: none but the last has two gigabytes, guard pages have room, all lies in the address space. Without failing calls, with enough iovs and no guard page in the way, it succeeds exactly if no size is taken for an error. |
| Incremental.FullDisk | mem.c:407-417 | Where no write is possible the dump of a task is reported as done though it is no snapshot, the restore from it succeeds, and every page is as if it was never written. |
| Incremental.LostPage | mem.c:407-417 | A task of one page, whatever is on it, comes back with a page of zeros that way. |
| Shmem.DumpShmem | shmem.c:312-388 | The images of a segment have exactly its pages that are in memory, counted from its beginning wherever it is mapped, each with its content; it fails only if a call does, if the images cannot be written or if the pages can take more runs than half the pages. |
| Shmem.HalfThePieces | shmem.c:353-358 | Pages among n in a row make at most half as many pieces, rounded up. |
| Shmem.HalfIsEnough | shmem.c:353-358 | So the iovs are enough for a segment smaller than half the largest pipe, and than 1024 pages. |
| Shmem.RestoreShmem | shmem.c:144-197 | Images in order that fit are read back, every page to its place and nothing else. |
| Shmem.DumpAndRestoreShmem | shmem.c:144-388 | There and back every page of the segment reads as it did, if pages that are not in memory were never written. |
| Dedup.PunchEffect | cr-dedup.c:129-140 | Punching at the file offset zeroes exactly the addresses at the cursor. |
| Dedup.Locate | cr-dedup.c:116-128 | The next place of a range in the parent, with nothing skipped; "past the end" exactly if the parent does not reach that far. |
| Dedup.PunchEntry | cr-dedup.c:129-141 | In one entry exactly the pages of the range are zeroed. |
| Dedup.DedupOneIovec | cr-dedup.c:104-149 | On every path exactly the parent's own pages in a first part of the range are zeroed, on success in all of it; without failing calls it succeeds exactly if the parent's pagemap reaches as far as the range. |
| Dedup.KeptMeansUnchanged | cr-dedup.c:61-102 | If only addresses that the child stores were touched, every address reads through the child as before. |
| Dedup.DedupOnePagemap | cr-dedup.c:61-102 | On every path every page read through the child is unchanged; on success the parent keeps no page where the child stores one; without failing calls it succeeds exactly if the parent reaches as far as all that the child stores. |
| PageServerWire.NumberRoundTrip | page-xfer.c:364-410 | A number that fits its width comes back. |
| PageServerWire.MsgRoundTrip | page-xfer.c:364-410 | A message whose fields fit comes back. |
| PageServerWire.PmIdRoundTrip | page-xfer.c:33-46 | Type and id of a pagemap come back exactly if the type fits eight bits and the id is a natural number of 56. |
| PageServerWire.OnTheWire | page-xfer.c:17-31 | A message byte by byte. |
| PageServers.PageServer.OpenXfer | page-xfer.c:65-81 | Opening makes new, empty images in place of any that are there, which are unlinked first; it fails only if a call fails. |
| PageServers.PageServer.PrepareXfer | page-xfer.c:83-90 | A message for another pagemap than the current one opens that, empty; the id that says none was opened passes for the current one at the start, and that alone is an error. |
| PageServers.PageServer.Add | page-xfer.c:92-130 | However the socket cuts the pages into non-empty pieces, the entry and all bytes are appended in order, both with the length computed in 32 bits. |
| PageServers.StarvedStays | page-xfer.c:109-127 | At the end of a stream that is too short the pieces are empty, and an empty piece changes nothing, neither the images nor the count. |
| PageServers.PageServer.AddHole | page-xfer.c:132-149 | The entry is appended, marked in_parent, with the length computed in 32 bits. |
| PageServers.PageServer.Serve | page-xfer.c:151-227 | Success only for a stream that is whole and ends in a flush, and then the images are what the stream means; without failing calls for every such stream. A read that gives only a part of a message header counts as a failing call here, though a socket may give one without failing; the program then stops. |
| PageServers.FlushIsLast | page-xfer.c:151-227 | A session that ends well has the flush as its last message. |
| PageServers.SocketBytes | page-xfer.c:364-410 | A dump into a socket sends exactly the bytes of its runs and holes. |
| PageServers.ServerRefinesLocal | page-xfer.c:151-227 | For every sequence of dumps, repeated ones too, whose runs and holes have fewer than 2^20 pages, the stream means to the server exactly the images that the dumps write locally, flushed. |
| PageServers.RefinesExactly | page-xfer.c:92-149 | For dumps of different pagemaps that is so exactly if every run and hole has fewer than 2^20 pages. |
| PageServers.ServerWritesShort | page-xfer.c:92-149 | Whatever it is sent, a server never writes an entry of 2^20 pages or more. |
| PageServers.LongHole | page-xfer.c:132-149 | A hole of 2^20 pages, which a local dump writes as it is, arrives at the server as one of no pages. |
| PageServers.ServeClient | page-xfer.c:151-227 | A whole session of such dumps leaves the images of the same dumps done locally; it fails only if a call fails. |
| RemoteDump.MergeSendable | page-xfer.c:364-410 | What a page pipe whose runs and holes have fewer than 2^20 pages is written out as is understood by the server. |
| RemoteDump.DumpToServer | page-xfer.c:490-544 | Such a page pipe dumped over a socket and served leaves, in any pieces, exactly the pagemap and the page bytes that the same dump writes locally, in place of any before; it fails only if a call of the server fails or the client cannot make all its writes. |
| RbTrees.RotateLeft | rbtree.c:8-28 | The heap, parent links included, is the rotated tree in the same surroundings. |
| RbTrees.RotateRight | rbtree.c:30-50 | The same the other way. |
| RbTrees.Recolor | rbtree.c:60-69 | The heap is the tree with parent and uncle black and the grandparent red, in the same surroundings. |
| RbTrees.RecolorOk | rbtree.c:60-69 | That tree again has at most one red node under a red one, two levels further up, and equal black heights. |
| RbTrees.RecolorSame | rbtree.c:60-69 | It has the same nodes in the same order. |
| RbTrees.FixLeft | rbtree.c:71-81 | The rotations on the left side end the rebalancing: no red node under a red one, same order, same black height. |
| RbTrees.FixRight | rbtree.c:94-104 | The same on the right side. |
| RbTrees.InsertColor | rbtree.c:52-109 | From a red node just linked in: the same nodes in the same order, parent links right, no red node under a red one, equal black heights, a black root; the depth of the red node falls in every round. |
| RbTrees.RbRoot.LinkAndBalance | include/rbtree.h:71-87 | Linking a node at a free place gives a proper tree whose order is the old one with the node at that place. |
| KcmpIds.FindSub | kcmp-ids.c:135-157 | The search in a subtree finds the node of the object, or the free place where it belongs, with everything else on the right side of it. |
| KcmpIds.FindGen | kcmp-ids.c:169-187 | The same in the main tree. |
| KcmpIds.KidTree.AllocKidEntry | kcmp-ids.c:112-133 | A new entry with the next id, alone in a proper subtree; none only if memory is lacking or the 32 bits of the counter are used up, which is a BUG in the program. |
| KcmpIds.KidTree.GenerateSub | kcmp-ids.c:135-167 | The object's id, "new" exactly if it was not seen before. |
| KcmpIds.KidTree.GenerateGen | kcmp-ids.c:169-198 | The same for any object; it fails only for lack of memory, or where the program stops because the counter has used up its 32 bits. |
| KcmpIds.KidTree.GenerateSpecial | file-ids.c:28-31 | Before the counter has used up its 32 bits: an id that no object has or gets, and no other special one. |
| KcmpIds.KidTree.SpecialAgain | file-ids.c:28-31 | At the end of the 32 bits the next special id is zero, and after that every id that an object has is drawn again. |
| KcmpIds.KidTree.FdIdGenerate | file-ids.c:33-49 | The file's id, and 1 exactly if it is new. |
| KcmpIds.KidTree.IdsAgree | kcmp-ids.c:112-198 | Of all ids ever given out: two are equal exactly if the kernel compares the objects as equal, and none is a special id. |
| FdCollect.InsertedSorted | files.c:499-504 | Inserting before the first higher pid keeps a file's descriptors in the order of pid and number. |
| FdCollect.CollectFd | files.c:477-508 | The list of the file gets the descriptor in its place, and nothing else changes; it fails exactly if there is no such file. |
| FdCollect.CollectTask | files.c:537-580 | All descriptors of a process are collected; it fails exactly if one names no file. |
| FdCollect.CollectAll | cr-restore.c:176-190 | In whatever order the processes come, every list has exactly its descriptors, in order of precedence. |
| FdCollect.CollectOnePipe | pipes.c:367-389 | One ring for each pipe, each end in one ring and once. |
| FdCollect.MarkRing | pipes.c:130-166 | The creator is the end whose master has precedence over all others of the ring; the ends not opened again are the first plain reader and the first plain writer. |
| FdCollect.MarkPipeMaster | pipes.c:112-175 | The same for all rings: one creator each, and "open again" on exactly the other ends. |
| FdCollect.PlannedOk | pipes.c:112-175 | What was collected is what the protocol needs: sorted lists, one creator with precedence over its peers, no two ends of one direction kept. |
| FdCollect.PlannedFits | pipes.c:367-389 | The files of the plan are what the images say: pipe ends with their direction, two on one pipe exactly if the images give them one pipe id. |
| FdCollect.Collect | cr-restore.c:176-192 | From any images and any order of processes such a plan comes out, with the descriptors and files of the images, or a descriptor names no file. Files other than pipe ends may have no descriptor. |
| FdCollect.AsDumped | files.c:716-839 | From the images to the end of any fair run: two descriptors share an open file exactly if the images give them one file; two pipe ends, opened again or not, are ends of one pipe exactly if the images say so, and each has the direction of its image, and is opened again if it has O_LARGEFILE, which no new pipe has. |
| FdProtocol.StepKeepsFle | files.c:652-839 | Every step of every task keeps, for every descriptor, transport, queued message and file exactly what the positions of the tasks say; a message to a transport that is not there would be lost, and none is. |
| FdProtocol.StepKeepsOpens | files.c:786-810 | No step opens a file a second time. |
| FdProtocol.StepKeeps | files.c:652-839 | The whole invariant is kept by every step. |
| FdProtocol.RunKeeps | files.c:892-950 | It holds throughout every run. |
| FdProtocol.SentToOpen | files.c:703-714 | In no run is anything sent to a transport before it is there. |
| FdProtocol.WaitsForCreator | pipes.c:264-294 | A task that waits for a pipe end waits for an unfinished task of a lower pid. |
| FdProtocol.WaitsForMaster | files.c:812-839 | A task that waits for a file waits for an unfinished task of a lower pid. |
| FdProtocol.NoDeadlock | files.c:652-839 | While some task is not done some task can go on. |
| FdProtocol.FairRunEnds | files.c:892-950 | If every task gets a turn in every round, after a computable number of rounds all are done. |
| FdProtocol.Restored | files.c:716-839 | Then every descriptor has the open file of its description, every file that has descriptors was opened once and no other, and no message is left. |
| FdProtocol.SharingRestored | files.c:716-839 | Under every fair schedule the restore ends with two descriptors sharing an open file exactly if they did when dumped. |
| FdProtocol.PipesRestored | pipes.c:250-351 | Then a descriptor of a pipe end is an end of that pipe in its direction, as it was created or opened again, and no other descriptor is. |
| StageBarrier.DoKeeps | include/restorer.h:178-182 | Every action keeps the counter equal to the number of participants that have not finished the stage. |
| StageBarrier.AllFinished | cr-restore.c:1359-1370 | The coordinator goes on only when every participant has finished the stage. |
| StageBarrier.Barrier | include/restorer.h:178-182 | No task passes the end of a stage, and no later stage is announced, before every participant, created yet or not, has finished it. |
| StageBarrier.NoDeadlock | cr-restore.c:1345-1370 | Until all is over something can happen. |
| StageBarrier.EveryRun | cr-restore.c:1326-1370 | Every run keeps all this, is finite, and where it can go no further all stages are complete and all tasks gone on. |
| FutexMutex.DoKeeps | include/lock.h:121-137 | Every action that does not wrap the counter keeps exclusion, "zero exactly if free", and that no sleeper is forgotten. |
| FutexMutex.IncrementKeeps | include/lock.h:121-130 | An increment keeps it exactly if it does not wrap the counter of 32 bits. |
| FutexMutex.WrapBreaks | include/lock.h:121-130 | If it does, the next process takes a mutex that is held. |
| FutexMutex.EveryRun | include/lock.h:111-137 | In every run without a wrap at most one process holds the mutex, and a free mutex with sleepers has somebody awake who tries again or is about to wake one. |
| FutexMutex.SomebodyGetsIt | include/lock.h:121-137 | While somebody wants a free mutex the processes are not stuck: somebody can take it within two steps. |
| FutexMutex.FreeIsTaken | include/lock.h:121-137 | In every run from a free mutex that is long enough somebody takes it: every other action brings the next try nearer. |
| FutexMutex.SoonTaken | include/lock.h:121-137 | Two steps for each process and one more are long enough. |
| FutexMutex.ComesToRest | include/lock.h:121-130 | A process that wants a held mutex comes to rest: if nobody else acts and no wait ends by itself it sleeps after at most two steps. |
| MountWalk.Up | mount.c:837-847 | From a finished subtree the cursor goes to the next place of the pre-order, or to the end. |
| MountWalk.TreeWalk | mount.c:814-849 | The walk with a cursor is the walk of the specification: a mount, then its children, unless it was put off, up to the first error. |
| MountWalk.WalkOrderly | mount.c:814-849 | A mount is tried only after its parent has succeeded; an error is the last call. |
| MountWalk.WalkKeepsAll | mount.c:814-849 | Done, to do and put off are together always all mounts, each once; what is left shrinks by what is done. |
| MountWalk.WalkStuck | mount.c:863-881 | A round without progress has put off every mount it was to do. |
| MountWalk.ForEach | mount.c:854-890 | For any tree and callback it ends; 0 means the callback succeeded for all mounts, parents first; -1 means a callback error or a round without progress. |
| MountWalk.EveryMountOnce | mount.c:854-890 | On success the callback has succeeded exactly once for each mount of the tree. |
| MountWalk.RevIsReversed | mount.c:814-849 | The order of the reverse walk is the pre-order backwards. |
| MountWalk.RevOrdered | mount.c:814-849 | In that order all mounts below a mount come before it. |
| MountWalk.ForEachReverse | mount.c:892-900 | The reverse walk calls the callback in exactly that order up to the first failure: each mount only after the callback has succeeded for all mounts below it, and on success for each mount of the tree once. |
| PsTree.ItemNext | pstree.c:159-171 | The next item of the pre-order, or none at its end. |
| PsTree.OrderEntries | pstree.c:205-226 | Items gone through in that order give the entries of the tree. |
| PsTree.EntryAfterParent | pstree.c:205-226 | Every entry but the first comes after one with its parent pid. |
| PsTree.DumpPstree | pstree.c:173-233 | The image is the list of entries of the tree. |
| PsTree.AttachKeeps | pstree.c:355-356 | A new first child keeps the items a tree with right parent links. |
| PsTree.SearchUp | pstree.c:335-339 | The nearest item with the pid among the last item and its ancestors. |
| PsTree.SearchAll | pstree.c:341-345 | The first item with the pid in the whole tree. |
| PsTree.ReadPstree | pstree.c:289-391 | What is read, or the error, for any image. |
| PsTree.ReadTree | pstree.c:335-357 | The entries of a subtree become that subtree, mirrored, under the right parent, which is found among the ancestors; nothing else changes. |
| PsTree.DumpAndRead | pstree.c:173-391 | For every tree with distinct non-zero pids: reading what was written gives the same tree with each list of siblings reversed, and the whole tree is never searched. |
| PsTree.MirrorTwice | pstree.c:173-391 | Writing and reading once more restores the order of siblings. |
| Sessions.MarkUp | pstree.c:459-484 | The ancestors up to the session's leader are marked; it fails only if no marks would do. |
| Sessions.PrepareIds | pstree.c:451-484 | Every task in a session of neither its own nor its parent gets the marks it asks for, and every mark was asked for by such a task below; it fails only if no marks would do. |
| Sessions.BornAsMarked | cr-restore.c:1183-1213 | A marked task is in fact born in the session it is marked with. |
| Sessions.ForksCheckOut | cr-restore.c:1191-1195 | The check on forking before setsid never fires. |
| Sessions.SessionsRestored | cr-restore.c:1072-1103 | Every task ends in its recorded session exactly if, in the tree, on the way from each such task up to the leader of its session every task is a leader itself or of that session. |
| Sessions.MarksAsWays | pstree.c:451-484 | No task but a leader is marked with another session than its own exactly if the tree is like that. |
| Sessions.AcceptedNotRestored | pstree.c:451-484 | A tree that the pass accepts and where a task ends in another session. |
| VmaHint.Skip | cr-restore.c:1673-1683 | The cursor moves past the area that is in the way, and no place is missed. |
| VmaHint.GetVmaHint | cr-restore.c:1659-1703 | The least address from 64K up that is clear of all areas but the last of each list and ends before the address space or the last area does; -1 exactly if there is none. |
| VmaHint.HintIsLeastGap | cr-restore.c:1659-1703 | If both last areas begin at the end of the address space or above: the least address clear of all areas; -1 only if none fits. |
| VmaHint.HintIsPlace | cr-restore.c:1673-1698 | The place found is the lowest address or the end of an area that is not a last one. |
| VmaHint.RightByPlaces | cr-restore.c:1674-1677 | The answer is right, the least place clear of all areas or none, exactly if none of these finitely many places has room without being clear of the last areas, unless one that is clear lies below it. |
| VmaHint.ClosedRoom | cr-restore.c:1666-1677 | With a marker behind each list the search sees all areas. |
| VmaHint.HintAndGap | cr-restore.c:1659-1703 | The search over lists with such a marker always gives the least place clear of all areas, and the program is right exactly if its answer is the same. |
| VmaHint.LastAreaIsNotSeen | cr-restore.c:1666-1677 | Two lists, one with the usual area behind the address space, where the place found is 64K and overlaps the last area of the other. |
| RstMalloc.ObjectsDisjoint | rst-malloc.c:141-159 | Live objects never overlap. |
| RstMalloc.ObjectsAreArray | rst-malloc.c:68-78 | Objects of one size allocated one after the other are an array. |
| RstMalloc.RstMemGrow | rst-malloc.c:23-31 | Whole pages, at least what is needed and at least the batch, and less than a page more than a large need. |
| RstMalloc.GrowsBy | rst-malloc.c:21-31 | In numbers: one byte takes two pages, 8193 bytes take three. |
| RstMalloc.RemapBuffer.Cpos | rst-malloc.c:127-132 | The cookie is the place of the next object, counted from the buffer. |
| RstMalloc.RemapBuffer.Grow | rst-malloc.c:57-90 | Wherever the buffer moves, every live object keeps its content at its cookie, and no other memory changes. |
| RstMalloc.RemapBuffer.Alloc | rst-malloc.c:141-159 | A new object behind all others, at its cookie; the others keep their content; no object exactly if the buffer is full and the kernel refuses. |
| RstMalloc.RemapBuffer.FreeLast | rst-malloc.c:161-170 | The last object goes, once. |
| RstMalloc.RemapBuffer.RemapOne | rst-malloc.c:177-201 | The buffer moves to its place, with every object's content at its cookie. |
| RstMalloc.Remap | rst-malloc.c:203-214 | The two buffers end up side by side, filling exactly their two sizes, every object of both with its content at its cookie. |
| RstMalloc.Run | rst-malloc.c:141-170 | Any calls that allocate, free the last object or write into objects, whatever the kernel answers: every object that is neither freed nor written into is where its cookie says, with its content. |
| RstMalloc.Life | rst-malloc.c:120-214 | The same for the whole life of the two buffers: any calls on the shared one, the switch to private memory, any calls on that, and the move of both to a free place. |
| RstMalloc.SharedBuffer.Grow | rst-malloc.c:33-55 | A new chunk apart from all live objects, which stay as they are. |
| RstMalloc.SharedBuffer.Alloc | rst-malloc.c:141-159 | A new object apart from all others; the others keep their place and content. |
| RstMalloc.SharedBuffer.FreeLast | rst-malloc.c:161-170 | The last object goes, once, and never one of an earlier chunk. |

## Left out

- Addresses and file offsets of the page images are counted in pages and do not overflow; the page server counts bytes. Lengths of entries wrap at 2^20 pages where they are read, as in the program; that the 32 bits of the number of pages in a written entry wrap at 2^32 pages is not modelled.
- PageXfers.PageXfer: a write that fails may leave some pages behind, but no part of an entry, a message or a page.
- PageReader.PageRead.ReadPage: on chains that are not well formed nothing is stated, because the cursors then promise nothing; the search itself is stated for every pagemap.
- PageReader.PageRead.Seek: the old page format without a pagemap (page-read.c:12-43) is not modelled.
- Dedup.DedupOneIovec: before the first entry the address of the cursor is not set in the program and arbitrary here, so for an empty parent pagemap only what is punched is stated, not the result.
- Dedup: opening images, walking the image directory, and dedup while dumping (page-xfer.c:441-458).
- MemDump.MemSnap.PageInParent: at the end of the table the answer is "not in the parent", where the program would look at an unused slot.
- Incremental.DumpAndRestore: images that could not be written are shown by Incremental.FullDisk and not restored in general, because reading images that lack pages promises nothing.
- MemDump.DumpTask: running out of iovs is a BUG in the program and an error here.
- MemDump.SkippedIsFresh: that the files behind private mappings are the same when a task is restored is taken for granted.
- PageServers.PageServer.Serve: a stream that ends inside the pages of a run is excluded, because the program then goes on reading for ever (PageServers.StarvedStays).
- PageServers.PageServer.PrepareXfer: where nothing was opened and the id is the one that says so, the program calls through an unset pointer, which is an error here.
- PageServers.PageServer.OpenXfer: a type on the wire that is no type of image is not told apart.
- RemoteDump.DumpToServer: a client whose writes fail stops; that a full dump goes on and is reported as done (mem.c:407-417) is modelled for local images only.
- Restorer.VmaRemap: that there is room somewhere for one more copy of an area is taken for granted; the place of the restorer itself is not modelled.
- TaskMemory.RestoreMemory: protections, the patches to a restored vdso, and mapping the areas that are not private.
- Shmem.DumpShmem: finding the segments, and the old image format.
- Restore.RestoreContent: areas inherited from the parent process, page bitmaps and copy-on-write (cr-restore.c:377-393) are not modelled.
- RbTrees: erase, replace, first, last, next and previous, which the ids do not use.
- KcmpIds.KidTree.GenerateSpecial: only as long as the counter fits 32 bits; after that ids repeat (KcmpIds.KidTree.SpecialAgain).
- FdProtocol: file types other than plain files and pipes, shared descriptor tables, close-on-exec flags, post-open, the controlling terminal, and failing calls.
- FdProtocol.SharingRestored: for descriptors listed in ascending order in each process, as the dump writes them.
- StageBarrier.Barrier: aborts are not modelled, because an abort can be overwritten by the next set of the counter; a zombie's countdown, done by its parent's signal handler, is counted as its own.
- StageBarrier.EveryRun: the futex waits are waits for the condition; that sleepers are woken is modelled for the mutex only.
- MountWalk: the order in which siblings are listed; the results hold for any.
- PsTree.DumpPstree: the refusal to dump a root that is no session leader, and reading the ids image of each process.
- Sessions.PrepareIds: trees that need helper tasks, for dead session leaders or process groups, are not modelled. A child of the root that is in another session than the root and does not lead it makes such a tree: the program puts it under a helper and accepts it, the model refuses it.
- VmaHint.GetVmaHint: empty lists, and the unset list link of the end marker, are not modelled.
- RstMalloc.RemapBuffer.Grow: memory that mremap() adds is taken to be usable. For the shared kind, RM_SHREMAP, the kernel does not enlarge the object behind the mapping, so that in the program the added part cannot be used.
- RstMalloc: 64-bit wrap-around of sizes.
- Sockets, terminals, namespaces, IPC, parasite injection, ptrace, protobuf packing and option handling: mostly calls into the kernel with little state of their own.
