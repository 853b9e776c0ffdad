# pTOS in Dafny

A model of the hard core of pTOS, a TOS-compatible operating system kernel, with proofs of what it
keeps. Everything is verified together: `dafny verify dfyconfig.toml`.

| files | what they model |
|---|---|
| `Basics` | what the others have in common |
| `FsMedia`, `FsCache`, `FsFat`, `FsChain`, `FsFile`, `FsIo`, `FsVolume` | the FAT file system: write-back sector cache, FAT12/FAT16 table, cluster chains, byte-level read, write and seek, and runs of these on several files |
| `AesTree`, `AesRect`, `AesLattice` | the walk over an object tree without recursion, the lists of visible rectangles of the windows, and how many records they take |
| `AesKernel`, `AesTimer`, `AesMutex`, `AesQueue` | the AES: event blocks and dispatcher, delay list, window update lock, message pipe |
| `MemUser`, `MemOs` | the user memory pools, and the pool of the operating system itself |
| `ElfUleb`, `ElfLoad`, `ElfExample` | the ELF loader with its compact relocation stream, and a file it loads |

How it is put together:

- State that the program changes in place is a class; each method is proved against a function or a
  predicate on values, and the lemmas about those carry the properties. Linked lists are sequences;
  a buffer of fixed size is an array.
- The file system is proved against the simple picture: a drive is a map from records to bytes
  (`contents`, the logical disk), a chain of clusters is a sequence of bytes. `FsIo.IxRead`,
  `FsIo.IxWrite` and `FsIo.WriteSeekRead` are stated in those terms alone, and
  `FsVolume.Volume.Run` refines every run of operations on several files to plain byte sequences and
  a number of free clusters, which determine every answer.
- The AES kernel, the lock, the message pipe, the delay list and the memory pools are also transition
  systems, with invariants proved over every run.
- The window lists are proved against point sets, the free list against the one canonical list of the
  free addresses, the delay list against a clock with absolute deadlines, the loaded image against
  the byte-by-byte meaning of the program headers.

Where the code does not do what one would expect, the model follows the code; one lemma gives a
concrete case, another says exactly when all is well:

- `ixlseek` counts clusters in 16 bits. For a position 65536 clusters or more ahead the count wraps,
  and a seek beyond the end of the chain can succeed (`FsIo.SeekWrapsExample`, `FsIo.SeekWraps`).
- `xrw_recs` counts whole clusters in 16 bits as well. Of a request with 65536 or more of them after
  its header, multiples of 65536 clusters are dropped: at a cluster boundary a write of just 65536
  clusters returns 0 (`FsIo.TriedExample`, `FsIo.TriedWholeIff`, `FsIo.IxWrite`).
- NUM_ORECT is asked about where it is defined (aes/gemlib.h:89). With 16 windows it is not enough: crossing
  windows can need 173 of the 160 records, and the original then follows a null pointer
  (`AesLattice.NotEnough`, `AesLattice.RunsOut`). 3n(n-1)+4 records are enough for n windows
  (`AesRect.Windows.Refresh`), which covers 7 of 16 windows, or 5 of 8 (`AesLattice.EnoughFor`).
- `adelay` does not look at the ticks already counted: a timer started while ticks are unreported is
  charged for them at the next `tchange` and completes that much early (`AesTimer.EarlyExample`,
  `AesTimer.InterruptKeeps`).
- In `doq` a queued redraw takes up an arrow or slider message of its window as well, which is then lost
  (`AesQueue.ArrowLost`); a message goes in as itself exactly as `AesQueue.FoldIs` and `AesQueue.FoldNone` say.
- `ffit` rounds a request up in 32 bits. A request above 2^31 minus the unit wraps to a negative
  amount, is granted, and ruins the pool (`MemUser.MallocWrapsExample`, `MemUser.MallocKeepsIff`).
- `Mshrink` rounds to the allocation unit and `shrinkit` to four bytes. With two-byte units the new
  length can round up to the whole block, which leaves an empty block on the free list; a negative
  length is not refused either (`MemUser.MshrinkRoundsExample`, `MemUser.MshrinkNegativeExample`,
  `MemUser.MshrinkKeepsIff`, and `MemUser.MshrinkOutcome` for the lengths that are in order).
- `unsync` does not look at who calls it: `END_UPDATE` by a process that does not own the lock lets a
  second process in (`AesMutex.StrayUnlock`, `AesMutex.UnlockKeepsIff`).
- The relocation stream may list slots two bytes apart where only two-byte alignment is asked for;
  such slots spoil each other (`ElfLoad.OverlapExample`, `ElfLoad.AllRightIff`). With four-byte
  alignment this cannot happen (`ElfLoad.AlignedSpaced`).
- At its link address a program is loaded without a look at the relocation stream, although
  doc/elfload.txt describes its header as checked (`ElfLoad.UncheckedExample`); nothing is lost by
  that, since a bias of zero changes nothing (`ElfLoad.RelocatedZero`).

## Model

| member | source | states |
|---|---|---|
| FsMedia.AtInjective | bdos/fsdrive.c:218-245 | the FAT, root and data regions of a drive never share a sector: a physical address names one type and record |
| FsCache.Cache.constructor | bdos/fsbuf.c:64-81 | buffers that hold nothing give a valid cache whose logical disk is the medium |
| FsCache.FlushKeepsList | bdos/fsbuf.c:93-113 | writing a buffer out keeps the list coherent with an unchanged logical disk |
| FsCache.FlushKeepsMirror | bdos/fsbuf.c:93-113 | flushing a FAT buffer keeps both FAT copies equal wherever no FAT buffer is dirty |
| FsCache.FlushKeepsAgreement | bdos/fsbuf.c:93-113 | flushing any buffer, FAT or not, keeps the FAT copies in agreement |
| FsCache.DropKeepsList | bdos/fsio.c:71-73 | a clean buffer can be invalidated without changing the logical disk |
| FsCache.LoadKeepsList | bdos/fsbuf.c:172-183 | reading a record no buffer holds into an invalid buffer keeps one buffer per record and the logical disk |
| FsCache.ReloadKeepsList | bdos/fsbuf.c:162-184 | replacing a clean buffer by a record keeps the list coherent, also when it is the record's own buffer after a doubtful media check |
| FsCache.MoveKeepsList | bdos/fsbuf.c:201-207 | moving a buffer to the head permutes the same buffers and keeps the list coherent |
| FsCache.MoveKeepsMru | bdos/fsbuf.c:201-207 | asking for a block and moving it to the head keeps the list in order of last use, as the history of requests tells it |
| FsCache.RunKeepsOrder | bdos/fsbuf.c:122-210 | over every run of requests, direct transfers and changes in place a list is a permutation of the same blocks, most recently used first |
| FsCache.MoveKeepsMirror | bdos/fsbuf.c:201-207 | reordering the FAT buffers keeps the agreement of the FAT copies |
| FsCache.ReplaceKeepsMirror | bdos/fsbuf.c:170-183 | replacing a FAT buffer that is not dirty keeps the agreement of the FAT copies |
| FsCache.StoreKeepsList | bdos/fsbuf.c:236-242 | a caller's write into a dirty buffer changes the logical disk at that one record |
| FsCache.CoveredIffHas | bdos/fsbuf.c:138-141 | an address is cached exactly when some buffer matches drive, type and record, so the search test is complete |
| FsCache.OnMedium | bdos/fsio.c:65-77 | once no data buffer holds a record of the range, the medium has the logical bytes |
| FsCache.DirectKeeps | bdos/fsio.c:61-78 | a direct write of a range no buffer holds changes the logical disk by just that range, on both lists and both FAT copies |
| FsCache.Cache.Flush | bdos/fsbuf.c:93-113 | the buffer becomes clean, the medium gets its sector (twice for a mirrored FAT), the logical disk stays |
| FsCache.Cache.Replace | bdos/fsbuf.c:167-183 | the buffer is flushed if dirty and then holds exactly the requested record; other buffers stay |
| FsCache.Cache.Touch | bdos/fsbuf.c:201-207 | the list becomes its own move-to-front permutation, and the request goes into the history |
| FsCache.Cache.Fetch | bdos/fsbuf.c:128-199 | hit, doubtful hit or miss: the result holds the logical bytes of the record, victim chosen as documented, nothing else changes |
| FsCache.Cache.GetBcb | bdos/fsbuf.c:122-210 | the buffer with the logical bytes ends at the head; the rest of the list keeps its order; the request goes into the history |
| FsCache.Cache.GetRec | bdos/fsbuf.c:217-243 | returns the logical bytes without changing the logical disk; the buffer found or refilled comes to the head, dirty on a write request; all others keep place and content; the other list is untouched |
| FsCache.Cache.Poke | bdos/fsbuf.c:236-242 | bytes stored through the pointer change exactly those bytes of the logical disk |
| FsCache.Cache.EvictRange | bdos/fsio.c:65-75 | afterwards no data buffer holds a record of the range; every block keeps its place, and buffers outside the range and all FAT buffers are unchanged |
| FsCache.Cache.ReadDirect | bdos/fsio.c:61-78 | a direct read past the cache returns the logical bytes; only buffers of the range are given up |
| FsCache.Cache.WriteDirect | bdos/fsio.c:61-78 | a direct write past the cache overwrites exactly its records of the logical disk; only buffers of the range are given up |
| FsFat.GetPutSame | bdos/fsfat.c:41-159 | getrealcl after clfix gives the stored link; 12-bit links are truncated and 0xff8 up read as end of chain |
| FsFat.GetPutOther | bdos/fsfat.c:41-105 | every other entry reads unchanged, also the 12-bit neighbour that shares a byte |
| FsFat.EntryBytes | bdos/fsfat.c:119-159 | the link in terms of the bytes of the table: even and odd 12-bit entries in three bytes, 16-bit entries low byte first, end marks widened (Microsoft FAT specification, FAT Data Structure) |
| FsFat.PutBytes | bdos/fsfat.c:41-105 | which bytes storing a link writes and what is in them, the neighbour's half byte kept |
| FsFat.PutTable | bdos/fsfat.c:41-105 | storing a link is a one-entry update of the table of links |
| FsFat.EntryPlace | bdos/fsfat.c:48-50 | a 16-bit entry never spans records; a 12-bit one spans exactly when its offset is the last byte, and then the next FAT record exists |
| FsFat.EntryBytesAt | bdos/fsfat.c:119-159 | the two bytes of an entry, found in one or two records, decode to the table's link |
| FsFat.PokeImage | bdos/fsbuf.c:236-242 | a write into a cached record is a splice of the region's byte image |
| FsFat.OtherImage | bdos/fsbuf.c:236-242 | writing one region leaves the byte images of the other regions unchanged |
| FsFat.GetRealCl | bdos/fsfat.c:119-159 | returns the table's link without changing the logical disk |
| FsFat.ClFix | bdos/fsfat.c:41-105 | the table of links changes in the one entry, to the stored form of the link; nothing outside the FAT changes |
| FsFat.ClFix12 | bdos/fsfat.c:62-105 | the same for packed 12-bit entries, read-modify-write over one or two records |
| FsFat.ClFix16 | bdos/fsfat.c:56-62 | the same for 16-bit entries |
| FsChain.ChainAcyclic | bdos/fsfat.c:171-176 | a chain that ends has no cluster twice |
| FsChain.ChainUnique | bdos/fsfat.c:171-176 | the chain from a start cluster is unique |
| FsChain.FirstFreeUnique | bdos/fsfat.c:185-245 | first free cluster from a given start is one number, so the fast FAT16 scan and the plain scan from 2 agree |
| FsChain.FindFree16 | bdos/fsfat.c:185-211 | the record-wise scan finds the first free cluster from 2, or 0 when none of 2..numcl+1 is free |
| FsChain.FindFree | bdos/fsfat.c:219-245 | the circular scan finds the first free cluster from the given one on, or 0 when none is free |
| FsChain.ExtendChain | bdos/fsfat.c:258-304 | linking a free cluster at the end makes the chain longer by it |
| FsChain.ExtendOther | bdos/fsfat.c:258-304 | every disjoint chain stays a chain, still disjoint from the grown one |
| FsChain.Allocate | bdos/fsfat.c:280-294 | a new end cluster is taken, marked and linked, or the table is untouched and full |
| FsChain.NextCl | bdos/fsfat.c:258-304 | moves to the next cluster of the chain, extending it on a write; fails at the end, on a write only when no cluster is free |
| FsChain.FreeChain | bdos/fsopnclo.c:504-518 | the freeing loop clears every cluster of the chain and no other entry |
| FsChain.GrowKeeps | bdos/fsfat.c:258-304 | extending one file keeps all chains acyclic, pairwise disjoint and off the free clusters |
| FsChain.DeleteKeeps | bdos/fsopnclo.c:504-518 | deleting one file keeps the other chains as they were |
| FsChain.StepConserves | bdos/fsfat.c:185-304 | free plus chained clusters stay the same set |
| FsChain.GrownFree | bdos/fsfat.c:185-304 | what a chain grows by is what the number of free clusters loses |
| FsChain.FreedFree | bdos/fsopnclo.c:504-518 | freeing a chain makes each of its clusters free, and the number of free clusters grows by its length |
| FsChain.RunKeeps | bdos/fsfat.c:185-304 | over any run of extensions and deletions the chains stay acyclic and disjoint, and free plus chained clusters are conserved |
| FsFile.RunPlace | bdos/fsio.c:134-173 | bytes of a run of consecutive clusters lie one after the other in the data region |
| FsFile.ReadRun | bdos/fsio.c:134-173 | a piece of the data region in a run of clusters is the corresponding piece of the file |
| FsFile.WriteRun | bdos/fsio.c:134-173 | overwriting it overwrites just that piece of the file |
| FsFile.GatherImage | bdos/fsio.c:77-77 | records read directly are a slice of the data region |
| FsFile.ScatterImage | bdos/fsio.c:77-77 | records written directly are a splice of the data region, and no other region changes |
| FsIo.Addit | bdos/fsio.c:37-51 | position and length move by the size, the descriptor is dirty exactly when it was or the length grew; the offset in the cluster moves only for less than a cluster |
| FsIo.XferPart | bdos/fsio.c:238-248 | a part of a record through the cache moves exactly those bytes of the file |
| FsIo.Usrio | bdos/fsio.c:61-78 | whole records past the cache move exactly those bytes of the file and leave the links alone |
| FsIo.Complete | bdos/fsio.c:152-162 | the pending run of clusters is transferred in one request |
| FsIo.Collect | bdos/fsio.c:134-173 | one round of the cluster loop: what is collected stays contiguous, below the request limit and in step with the file |
| FsIo.WholeClusters | bdos/fsio.c:123-173 | the coalescing loop transfers the clusters in order, or stops at the end of the chain with all before it done |
| FsIo.HeadRecs | bdos/fsio.c:99-121 | the records up to the end of the current cluster, with the position kept in step |
| FsIo.TailRecs | bdos/fsio.c:175-188 | the records at the start of one more cluster |
| FsIo.TriedWholeIff | bdos/fsio.c:92-129 | a request is tried as a whole exactly when it has fewer than 65536 whole clusters after its header |
| FsIo.TriedExample | bdos/fsio.c:129-129 | at a cluster boundary nothing is tried of a request of 65536 clusters |
| FsIo.TriedRecords | bdos/fsio.c:123-129 | in bytes: header, whole clusters modulo 65536 and tail records |
| FsIo.XrwRecs | bdos/fsio.c:88-191 | header records, the number of whole clusters modulo 65536, and tail records are moved, or fewer when the chain ends |
| FsIo.HeadBytes | bdos/fsio.c:227-249 | the bytes up to the end of the current record |
| FsIo.TailCluster | bdos/fsio.c:265-274 | the cluster of the tail bytes: the current one or the next |
| FsIo.TailBytes | bdos/fsio.c:264-282 | the bytes at the start of one more record |
| FsIo.TriedAtWholeIff | bdos/fsio.c:212-288 | the same from any position: whole exactly when the length is below the room in the cluster plus 65536 clusters |
| FsIo.TriedInChain | bdos/fsio.c:123-173 | a request inside the chain is always tried as a whole |
| FsIo.Xrw | bdos/fsio.c:212-288 | headers, records and tail together move exactly n bytes at the position; n is what is tried, short of it only at the end of the chain |
| FsIo.MovedIn | bdos/fsio.c:212-288 | what a read has moved: the user's buffer is the file's bytes, the disk is unchanged |
| FsIo.MovedOut | bdos/fsio.c:212-288 | what a write has moved: the file is its old bytes with the buffer's prefix over them |
| FsIo.OtherKept | bdos/fsio.c:212-288 | every file on other clusters keeps its chain and its bytes |
| FsIo.ExtentIs | bdos/fsfat.c:265-304 | the clusters of a file after a write: the least number, no fewer than before, that reaches the position |
| FsIo.WriteTakes | bdos/fsio.c:123-173 | a write takes clusters only as far as it gets, and stops short only when none is free |
| FsIo.IxRead | bdos/fsio.c:510-537 | returns exactly the bytes from the position on, as many as asked for, left in the file, tried, and left in the chain |
| FsIo.IxWrite | bdos/fsio.c:585-588 | the file becomes its bytes overwritten or extended by the written prefix; exactly how many bytes are written, from what is tried and the number of free clusters, and how many clusters that takes; with room left it is complete exactly when fewer than 65536 whole clusters follow the header; other files, root and FAT data stay |
| FsIo.Follow | bdos/fsio.c:417-422 | following clnum links reaches that element of the chain, and fails exactly when the chain is shorter |
| FsIo.SeekPlan | bdos/fsio.c:373-415 | start cluster and number of links in 16 bits, from the current cluster or the first: the count leads to the cluster of the position, boundary convention included |
| FsIo.IxLseek | bdos/fsio.c:358-430 | cluster, record and offset reached and when each error occurs, with the 16-bit cluster counts as they are |
| FsIo.SeekReaches | bdos/fsio.c:373-418 | the walk from any start leads to the cluster of the position exactly when that is fewer than 65536 clusters ahead, so up to 65536 clusters chaining forward and restarting agree |
| FsIo.SeekWraps | bdos/fsio.c:373-422 | from any start: a position in the chain is reached; one beyond it is refused except exactly when the 16-bit count wraps to an element of the chain |
| FsIo.SeekWrapsExample | bdos/fsio.c:376-376 | a concrete position for which the count from the first cluster wraps and that from the second does not |
| FsIo.SeekPosition | bdos/fsio.c:404-427 | after a seek the position convention holds: on a boundary the cluster before it |
| FsIo.SeekInside | bdos/fsio.c:358-430 | a seek inside the chain succeeds and keeps the position invariant |
| FsIo.WriteSeekRead | bdos/fsio.c:358-588 | what is written, sought back to and read again is what was written, all of it |
| FsIo.ShortChain | bdos/fsfat.c:171-176 | no chain is longer than the number of clusters of the drive |
| FsVolume.ReadFile | bdos/fsio.c:510-537 | a read gives the bytes of the file as its users see it, up to its end |
| FsVolume.WriteFile | bdos/fsio.c:585-588 | a write overwrites or extends the file as its users see it by exactly what is tried as far as its own and the free clusters go, takes no more clusters than that needs, and leaves every file on other clusters alone and apart |
| FsVolume.WrittenBytes | bdos/fsio.c:37-51 | the spliced bytes of a longer chain, cut to the recorded length, are the old file overwritten or extended |
| FsVolume.FreedOthers | bdos/fsopnclo.c:504-518 | freeing the chain of a file leaves every other file its chain and its bytes |
| FsVolume.EraseFile | bdos/fsopnclo.c:504-518 | after a deletion every cluster of the chain is free and no other link has changed, the file is empty, and every file on other clusters is as it was |
| FsVolume.StillShows | bdos/fsio.c:212-288 | a file that an operation on another one leaves alone is seen as before |
| FsVolume.Volume.constructor | bdos/fsopnclo.c:144-174 | files with disjoint chains are a volume that shows each of them |
| FsVolume.Volume.Read | bdos/fsio.c:510-537 | of several files one is read and its position moves; nothing else changes |
| FsVolume.Volume.Write | bdos/fsio.c:585-588 | of several files one is written; the others keep bytes and position; exactly how much is taken, and free clusters plus those of the file stay the same |
| FsVolume.Volume.Seek | bdos/fsio.c:358-430 | succeeds exactly from 0 to the length of the file, and moves that position only |
| FsVolume.Volume.Delete | bdos/fsopnclo.c:504-518 | one file becomes empty and its clusters are free; the others keep bytes and position |
| FsVolume.Volume.Do | bdos/fsio.c:358-588 | each operation gives the one answer that byte sequences and a count of free clusters determine |
| FsVolume.Volume.Run | bdos/fsio.c:358-588 | over every run of reads, writes, seeks and deletions on several files: the drive with its cache, FAT and chains gives the answers that a list of byte sequences with positions, cluster counts and a number of free clusters determines, and still shows that list |
| FsVolume.RunConserves | bdos/fsopnclo.c:504-518 | over every run the free clusters and those of all files add up to the same |
| FsVolume.ShortIff | bdos/fsio.c:585-588 | a write falls short of what is tried exactly when the file's clusters and the free ones do not hold it, and then none is free |
| FsVolume.DeletionHelps | bdos/fsopnclo.c:504-518 | on a full drive a write at the end of a file takes nothing; after deleting another file it takes its cluster |
| FsVolume.WrittenIsRead | bdos/fsio.c:358-588 | a write, a seek back and a read give what was written |
| AesTree.EveryObj | aes/gemobjop.c:76-137 | the goto walk terminates and makes exactly the calls of the recursive preorder, with summed offsets, up to the stop object |
| AesTree.GetPar | aes/gemobjop.c:145-162 | finds the parent of an object; none for the root |
| AesTree.PreorderDistinct | aes/gemobjop.c:76-137 | no object is called twice, and only objects of the start tree |
| AesTree.BeforeIndex | aes/gemobjop.c:76-137 | stopping at an object gives exactly the calls before it |
| AesTree.BeforeNil | aes/gemobjop.c:76-137 | without a stop object all calls are made |
| AesRect.OverlapIff | aes/gemwrect.c:107-110 | the comparison says whether two rectangles have a point in common |
| AesRect.PieceInside | aes/gemwrect.c:64-98 | each piece has an area and lies in the old rectangle and outside the new one |
| AesRect.PiecesApart | aes/gemwrect.c:64-98 | two pieces have no point in common |
| AesRect.PiecesCover | aes/gemwrect.c:112-122 | every point of the old rectangle outside the new one is in a piece |
| AesRect.SplitCuts | aes/gemwrect.c:101-132 | the pieces tile the old rectangle minus the new one |
| AesRect.CutTiles | aes/gemwrect.c:136-162 | cutting a window's list by a rectangle above removes just that rectangle from what it tiles |
| AesRect.WinCut | aes/gemwrect.c:136-162 | one more window above keeps the tiling, the edges, and VF_BROKEN as overlap with some window above |
| AesRect.PieceEdged | aes/gemwrect.c:64-98 | a piece has the edges of its rectangle or of the window that cuts: left edges are right edges of windows above, or the window's own |
| AesRect.Windows.Break | aes/gemwrect.c:101-132 | the pieces there are, and the ORECTs of pieces and free list conserved; fails only when the free list is used up |
| AesRect.Windows.MkRect | aes/gemwrect.c:136-162 | the window's list afterwards tiles what it tiled outside the rectangle, with no edges but the window's own and those of windows above, ORECTs conserved; the flag is set exactly on overlap; if the free list runs out, free list and list together had at most three ORECTs more than some list without overlaps, with those edges and inside the old one |
| AesRect.Windows.BreakBelow | aes/gemwrect.c:198-198 | all windows below are cut, none else is touched, ORECTs conserved; fails only with fewer ORECTs in all than Enough |
| AesRect.Windows.Dump | aes/gemwrect.c:174-187 | the list goes back to the free list |
| AesRect.Windows.NewRect | aes/gemwrect.c:165-205 | from lists in order for the windows so far to lists in order with this window on top; fails only with fewer ORECTs in all than Enough |
| AesRect.Windows.Refresh | aes/gemwmlib.c:1086-1087 | after the walk every window of the tree has a tiling of its visible part, VF_BROKEN exactly when overlapped, ORECTs conserved; 3n(n-1)+4 free ORECTs are enough for n windows |
| AesRect.CornersCount | aes/gemwrect.c:101-132 | no two rectangles of a list without overlaps have their corner in one place |
| AesRect.FlatClear | aes/gemwmlib.c:1086-1087 | the rectangles of all windows together do not overlap, also while one of them is half cut |
| AesRect.PlacesCount | aes/gemlib.h:89-89 | in how many places the corners of the rectangles of n windows can be |
| AesRect.FitsSize | aes/gemlib.h:89-89 | while the n-th window cuts those below, these have at most 3n(n-1) rectangles at any time |
| AesLattice.SpreadCount | aes/gemwrect.c:136-162 | a list that covers points no two of which fit in one of its rectangles has at least as many rectangles |
| AesLattice.SpotsApart | aes/gemwrect.c:107-110 | points of the desktop among crossing windows: between any two of them there is a window |
| AesLattice.DeskNeeds | aes/gemwrect.c:136-162 | what the desktop needs below p upright and q level windows |
| AesLattice.LatticeNeeds | aes/gemlib.h:89-89 | the desktop with p upright and q level windows takes 2pq+4p+4q+1 ORECTs or more, however the lists are made up |
| AesLattice.TreeOrder | aes/gemwmlib.c:1254-1263 | the walk over a window tree of one level comes to the windows in the order of their handles |
| AesLattice.RefreshLattice | aes/gemwmlib.c:1086-1087 | rebuilding these windows fails with fewer ORECTs than that, and succeeds with Enough free ones |
| AesLattice.NotEnough | aes/gemlib.h:89-89 | with 16 windows NUM_ORECT is not enough: 7 upright and 8 level windows take at least 173 of 160 ORECTs |
| AesLattice.RunsOut | aes/gemwrect.c:53-70 | on the pool of 160 ORECTs the rebuild of those windows always ends with the free list used up |
| AesLattice.EnoughFor | aes/gemlib.h:89-89 | a full free list is enough for 7 windows of 16, and for 5 of 8 |
| AesRect.AbovePoints | aes/gemwmlib.c:254-262 | the rectangles above cover just the points of later windows' true sizes |
| AesRect.Visible | aes/gemwmlib.c:1086-1087 | point by point: a list in order is clear and covers a point exactly when the window has it and no window above has |
| AesKernel.ZombieKeeps | aes/gemasync.c:35-78 | completing an event keeps all invariants, with the sleeper moved off nrl exactly when it waits for it |
| AesKernel.AskKeeps | aes/gemasync.c:130-179 | taking a block for a new event keeps the invariants |
| AesKernel.NoPanic | aes/struct.h:38-51 | with EVBS_PER_PD blocks per process a process that may ask for an event finds a free block |
| AesKernel.WaitKeeps | aes/gemasync.c:117-127 | going to sleep keeps the invariants: never with an awaited event already flagged |
| AesKernel.YieldKeeps | aes/gemdisp.c:74-79 | giving up the processor keeps the invariants |
| AesKernel.ScheduleKeeps | aes/gemdisp.c:181-205 | moving drl to the end of rlr keeps the invariants |
| AesKernel.SwitchKeeps | aes/gemdisp.c:246-252 | switching to the head of rlr keeps the invariants |
| AesKernel.StartKeeps | aes/gempd.c:110-131 | starting a process keeps the invariants |
| AesKernel.CancelKeeps | aes/gemasync.c:217-243 | cancelling frees just the outstanding blocks of the mask |
| AesKernel.ApretKeeps | aes/gemasync.c:182-214 | collecting an event frees its block and clears its flag |
| AesKernel.CollectedKeeps | aes/gemevlib.c:272-292 | collecting the events one by one leaves only flags that were not collected |
| AesKernel.FinishBlocks | aes/gemevlib.c:262-292 | after cancel and collect the process has no block and no flag left |
| AesKernel.FinishKeeps | aes/gemevlib.c:64-69 | leaving ev_block or ev_multi keeps the invariants |
| AesKernel.StepKeeps | aes/gemasync.c:35-243 | every step of the system keeps the invariants |
| AesKernel.StepPossible | aes/gemasync.c:130-136 | every enabled step can be carried out: no panic, no missing list element |
| AesKernel.StepStays | aes/gemdisp.c:221-253 | a process in a wait stays in that wait until it runs again |
| AesKernel.SingleDone | aes/gemevlib.c:64-69 | a process that runs again after a wait for one event has just that event to collect: not cancelling is right |
| AesKernel.MultiDone | aes/gemevlib.c:262-292 | a process that runs again after a wait has an event it waited for, and finishing leaves it nothing |
| AesKernel.RunKeeps | aes/gemdisp.c:221-253 | every state of every run is in order |
| AesKernel.RunIsSafe | aes/gemdisp.c:221-253 | on every run: each process on exactly one list, each block free or on one process's list, no sleeper with an awaited event complete, the current process awake |
| AesKernel.ArrivalsIff | aes/gemasync.c:35-74 | the events that arrive for a process are exactly those that some step completes while it does not run |
| AesKernel.OthersFlags | aes/gemasync.c:35-74 | while a process waits its flags grow by just the events that arrive |
| AesKernel.RoundsReady | aes/gemdisp.c:181-205 | whoever wakes up gets in line behind those that are ready |
| AesKernel.WokenOrder | aes/gemasync.c:35-74 | the last process to wake up is the first of those in line |
| AesKernel.TurnComes | aes/gemdisp.c:221-253 | a ready process runs once as many processes as were before it have given up the processor, whatever happens meanwhile |
| AesKernel.StartsOk | aes/gemasync.c:130-136 | the initial state is in order |
| AesKernel.Kernel.Azombie | aes/gemasync.c:35-78 | the code on the lists does what the step does |
| AesKernel.Kernel.Iasync | aes/gemasync.c:130-179 | the same for asking, complete at once or not |
| AesKernel.Kernel.Acancel | aes/gemasync.c:217-243 | the same for cancelling; returns the events that could not be cancelled |
| AesKernel.Kernel.ApretEvent | aes/gemasync.c:182-214 | the same for collecting, also when there is no such event |
| AesKernel.Kernel.ScheduleAll | aes/gemdisp.c:193-197 | the same for moving drl to rlr |
| AesKernel.Kernel.Forker | aes/gemdisp.c:101-155 | the fork ring completes its events one after the other, keeping the invariants |
| AesKernel.Kernel.Disp | aes/gemdisp.c:221-253 | the current process sleeps or is requeued; then round by round the fork ring is run first and those it woke are moved to rlr after it; only a process on rlr that is awake is switched to, and if another one was ready it is the next in line, not the caller |
| AesKernel.Kernel.OthersRun | aes/gemdisp.c:221-253 | whatever the rest of the system does meanwhile is the run of the script; the process stays in its wait until it runs again, invariants kept |
| AesKernel.Kernel.Mwait | aes/gemasync.c:117-127 | goes on at once when something awaited has happened, else through the dispatcher; the flags then are those before and what arrived |
| AesKernel.Kernel.AskAll | aes/gemevlib.c:236-261 | one block for each event of the mask, no panic; the flags are those that had happened |
| AesKernel.Kernel.CollectAll | aes/gemevlib.c:276-291 | the events that have happened are collected in order |
| AesKernel.Kernel.EvBlock | aes/gemevlib.c:64-69 | ask, wait, collect: returns with no block outstanding and no flag set, whatever else runs, and only if the event had happened or arrived while it waited |
| AesKernel.Kernel.EvMulti | aes/gemevlib.c:233-296 | ask, wait, cancel, collect: returns exactly those of the events asked for that had happened or arrived while the process waited, with no block outstanding and no flag set |
| AesTimer.InsertDue | aes/geminput.c:524-541 | starting a timer gives it its wait and leaves every other remaining time unchanged |
| AesTimer.InsertOk | aes/geminput.c:524-541 | the list stays free of duplicates and of negative differences behind the head |
| AesTimer.DropDue | aes/gemasync.c:96-114 | taking a timer off leaves every other remaining time unchanged |
| AesTimer.TickDue | aes/gemflag.c:33-69 | c ticks leave exactly the timers with more than c to go, each with c less |
| AesTimer.TickTick | aes/gemflag.c:33-69 | ticks reported in one go or in two leave the same list |
| AesTimer.InsertDrop | aes/gemasync.c:96-114 | starting a timer and cancelling it restores the list |
| AesTimer.StepRefines | aes/geminput.c:497-543 | one operation agrees with a clock with absolute deadlines |
| AesTimer.RunRefines | aes/gemflag.c:33-69 | over every run the differences say what absolute deadlines say |
| AesTimer.InterruptKeeps | aes/arch/m68k/gemdosif.S:389-405 | a tick keeps the list ahead of real time by the ticks unreported when each timer was started; a timer completes exactly when the clock calls and no more than that is left of its time, never late |
| AesTimer.StartDrivenKeeps | aes/geminput.c:497-543 | starting a timer keeps that |
| AesTimer.StopDrivenKeeps | aes/gemasync.c:96-114 | cancelling one keeps that |
| AesTimer.DrivenRunKeeps | aes/arch/m68k/gemdosif.S:389-405 | over every run of ticks, starts and cancellations no timer is overdue, and none early by more than was unreported at its start |
| AesTimer.EarlyExample | aes/geminput.c:505-513 | a timer of 60 ticks started 50 ticks into one of 100 completes after 50 |
| AesTimer.TickingStarts | aes/geminput.c:504-522 | what starting a timer does to CMP_TICK and NUM_TICK is that step |
| AesTimer.Delays.Adelay | aes/geminput.c:497-543 | a wait of 0 counts as 1; only the new timer's time is set; the clock calls after that wait at the latest |
| AesTimer.Delays.StartTicking | aes/geminput.c:504-522 | CMP_TICK becomes the earlier of the two, NUM_TICK counts on or starts at 0 |
| AesTimer.Delays.Takeoff | aes/gemasync.c:96-114 | the block goes, its wait passes to the next one, no other remaining time changes |
| AesTimer.Delays.Tchange | aes/gemflag.c:33-69 | completes exactly the timers that are due, in the order of the list, and moves the others up; CMP_TICK becomes the wait of the first one left |
| AesTimer.Delays.Tikcod | aes/arch/m68k/gemdosif.S:389-405 | the interrupt routine does that step: counts, and at the end of the count completes what is due |
| AesMutex.LockKeeps | aes/gemflag.c:72-103 | locking keeps the invariant; the process is let in exactly when the lock is free or its own |
| AesMutex.HandOver | aes/gemflag.c:125-136 | the last release lets the first waiter in at depth 1 |
| AesMutex.UnlockKeepsIff | aes/gemflag.c:106-140 | unlocking is in order exactly when the owner does it or nobody holds the lock |
| AesMutex.StrayUnlock | aes/gemflag.c:106-140 | an unlock by another process puts two processes inside |
| AesMutex.MutualExclusion | aes/gemwmlib.c:1776-1795 | at most one process is inside, the owner |
| AesMutex.RunKeeps | aes/gemwmlib.c:1776-1795 | over every run in which only the owner unlocks: count = nesting depth, waiters only while held, requests conserved |
| AesMutex.RunRequests | aes/gemwmlib.c:1776-1795 | over every such run, process by process: what it has asked for and not given back is granted or waits |
| AesMutex.DrainFrees | aes/gemflag.c:106-140 | as many unlocks as requests serve every waiter and free the lock |
| AesMutex.Mutex.TakFlag | aes/gemflag.c:72-87 | count and owner after an attempt |
| AesMutex.Mutex.Amutex | aes/gemflag.c:90-103 | in, or at the head of the wait list |
| AesMutex.Mutex.Unsync | aes/gemflag.c:106-140 | the released state and who is woken |
| AesMutex.Mutex.WmUpdate | aes/gemwmlib.c:1776-1795 | what begin and end of an update do; the process waits exactly when another one holds the lock; the invariant is kept exactly unless a stranger ends the update |
| AesQueue.Union | util/rectfunc.c:84-97 | the union is the least rectangle that contains both |
| AesQueue.EnqCovers | aes/gemqueue.c:37-74 | a message going in uncovers no redraw rectangle, and a redraw message is covered itself |
| AesQueue.EnqSteady | aes/gemqueue.c:37-74 | messages of all kinds but redraw, arrow and slider pass in order and unchanged |
| AesQueue.FoldIs | aes/gemqueue.c:41-73 | the first message the search comes to that is a redraw of the window or an arrow takes the new one up, by union or by becoming it, and no other message changes |
| AesQueue.FoldNone | aes/gemqueue.c:41-73 | if there is none the message goes in as the last |
| AesQueue.ArrowLost | aes/gemqueue.c:53-58 | an arrow or slider message is lost in a queued redraw of its window |
| AesQueue.PutAccounted | aes/gemqueue.c:37-74 | both, for everything accepted so far: each redraw covered by what is queued or was read since it went in |
| AesQueue.GetAccounted | aes/gemqueue.c:75-81 | reading a message keeps what was accepted accounted for, as read since or still queued |
| AesQueue.RedrawReaches | aes/gemqueue.c:37-81 | an accepted redraw rectangle is covered by a queued WM_REDRAW of its window, or one read after it was accepted covered it |
| AesQueue.WriteKeeps | aes/gemqueue.c:85-125 | a write, direct, to a blocked reader or blocking, keeps the invariants; with seven senders messages queued exceed blocked writers |
| AesQueue.ReadKeeps | aes/gemqueue.c:85-125 | a read, with a blocked writer let in, keeps them |
| AesQueue.NeverBoth | aes/gemqueue.c:101-124 | a blocked reader and a blocked writer never coexist |
| AesQueue.FastReadSame | aes/gemaplib.c:73-82 | the 16-byte short cut is an ordinary read: no writer is left behind |
| AesQueue.RunKeeps | aes/gemqueue.c:85-125 | over every run, cancellations included: queue of at most eight, no reader blocked beside a writer, every redraw covered until a covering message is read, other messages in order |
| AesQueue.SentKept | aes/gemqueue.c:85-125 | over every run and for each sender: what it has written and not cancelled is what went in from it, in order, followed by what it is blocked with |
| AesQueue.AllSent | aes/gemqueue.c:85-125 | from an empty pipe a sender that is not blocked has got in all it wrote, one that is blocked all but the last |
| AesQueue.Queue.Nq | aes/gemqueue.c:36-74 | the loop over the buffer makes exactly the fold or the append; the byte count stays a multiple of 16 in 0..128 |
| AesQueue.Queue.Dq | aes/gemqueue.c:75-81 | the first message comes out and the others move down |
| AesQueue.Queue.AqueueWrite | aes/gemqueue.c:85-125 | queued, handed to a blocked reader, or blocked; ready exactly when there is room |
| AesQueue.Queue.AqueueRead | aes/gemqueue.c:85-125 | the first message, with a blocked writer let in, or blocked; ready exactly when there is a message |
| AesQueue.Queue.ApRead | aes/gemaplib.c:69-89 | an appl_read, short cut or not, is the ordinary read and keeps the invariants |
| MemUser.Canonical | bdos/iumem.c:192-228 | an ascending list without touching blocks is determined by the addresses it covers |
| MemUser.FreeDetermined | bdos/iumem.c:192-228 | the free list is determined by what is taken, whatever the history |
| MemUser.AllFree | bdos/iumem.c:211-228 | when everything is freed the region is one block again |
| MemUser.FitKeeps | bdos/iumem.c:95-144 | the head of the first block that is big enough is taken, tiling and order kept; nothing happens on failure |
| MemUser.RoundedIs | bdos/iumem.c:86-93 | rounding gives the least multiple of the unit at or above the amount, if the sum does not wrap |
| MemUser.MallocKeepsIff | bdos/iumem.c:86-144 | a request keeps the pool exactly when it is at most 2^31 minus the unit: above that the rounding wraps |
| MemUser.MallocWrapsExample | bdos/iumem.c:90-93 | a request that wraps, and what it does |
| MemUser.InsertSeparated | bdos/iumem.c:192-228 | inserting with joins keeps the free list ascending with no two blocks touching |
| MemUser.InsertCounts | bdos/iumem.c:192-228 | it adds exactly the addresses of the block |
| MemUser.ReleaseKeeps | bdos/iumem.c:151-229 | freeing keeps the pool, and frees just the block meant |
| MemUser.MallocFree | bdos/iumem.c:35-229 | freeing what was just taken restores the pool exactly |
| MemUser.FreesCommute | bdos/iumem.c:151-229 | the order of two frees does not matter |
| MemUser.ShrunkKeeps | bdos/iumem.c:235-275 | shrinking to a positive smaller length keeps the pool |
| MemUser.ShrunkToFull | bdos/iumem.c:235-275 | shrinking to the full length frees an empty block, which keeps the pool exactly when a free block follows |
| MemUser.MshrinkKeepsIff | bdos/umem.c:198-224 | exactly when Mshrink keeps the pool: not for a negative length, nor where two-byte units round up to the whole block and no free block follows |
| MemUser.MshrinkOutcome | bdos/umem.c:170-229 | code and new length of the block for every length that is neither negative nor wraps; no other block changes |
| MemUser.MshrinkBadAddress | bdos/umem.c:181-196 | refused as a bad address exactly when no block starts there |
| MemUser.MshrinkBadLength | bdos/umem.c:198-224 | for every other length: never refused; the block is freed or left with no or a negative length |
| MemUser.MshrinkRoundsExample | bdos/umem.c:200-224 | 8 bytes shrunk to 5 with two-byte units: success is reported and an empty block is on the free list |
| MemUser.MshrinkNegativeExample | bdos/umem.c:207-224 | 8 bytes shrunk to -8: success is reported and a block of negative length stays |
| MemUser.FreeOwnedKeeps | bdos/proc.c:109-118 | after the sweep exactly the blocks of other processes are allocated, in their order |
| MemUser.ReserveKeeps | bdos/proc.c:94-106 | reserved blocks stay out of use, and tiling is kept |
| MemUser.ApplyKeeps | bdos/iumem.c:35-275 | every operation used properly keeps the pool; after exit or reserve nothing of that owner is allocated |
| MemUser.RunKeeps | bdos/iumem.c:35-275 | over every run free, allocated and reserved blocks tile the region, the free list ascending with gaps |
| MemUser.Memory.constructor | bdos/umem.c:554-559 | a fresh pool: one free block, in order |
| MemUser.Memory.FfitMax | bdos/iumem.c:64-81 | the largest free block; trimming to the unit has nothing to do |
| MemUser.Memory.Ffit | bdos/iumem.c:83-145 | the code on the lists does what first fit does on values, also when the amount wraps; descriptors out = blocks listed |
| MemUser.Memory.FreeIt | bdos/iumem.c:151-229 | the block that starts at the address is freed, nothing happens if none does; one descriptor given back per join |
| MemUser.Memory.AddFree | bdos/iumem.c:192-228 | the insertion and the joins |
| MemUser.Memory.ShrinkIt | bdos/iumem.c:235-275 | the block keeps its head and the tail is freed; nothing changes without a descriptor |
| MemUser.Memory.Xmfree | bdos/umem.c:135-159 | a bad address exactly when no block starts there, otherwise freed |
| MemUser.Memory.Xsetblk | bdos/umem.c:170-229 | the four outcomes, and exactly when the pool stays in order |
| MemUser.Memory.FreeAllOwned | bdos/proc.c:109-118 | the sweep that frees while it iterates leaves exactly the others' blocks |
| MemUser.Memory.ReserveBlocks | bdos/proc.c:94-106 | the sweep that unlinks while it iterates keeps exactly the others' descriptors; the memory stays taken |
| MemOs.BlocksApart | bdos/osmem.c:115-130 | carved blocks do not overlap and lie in the array |
| MemOs.GetBlockKeeps | bdos/osmem.c:326-341 | a block handed out is neither free nor in use |
| MemOs.GetBlkKeeps | bdos/osmem.c:306-370 | getting a block keeps the invariants, and fails exactly when nothing is left |
| MemOs.FreBlkKeeps | bdos/osmem.c:376-400 | a block freed is on the quick list and not in use; getting a block then gives it back and restores the pool |
| MemOs.GetMdKeeps | bdos/osmem.c:184-238 | a descriptor handed out was not in use; none is exactly when nothing is left; the chain keeps holding exactly the blocks with one or two in use |
| MemOs.GetMdUses | bdos/osmem.c:184-238 | the descriptor handed out is in use afterwards, and every other one as before |
| MemOs.FreMdKeeps | bdos/osmem.c:244-287 | freeing a descriptor keeps that, and an unused MDBLOCK becomes a free block |
| MemOs.FreMdFrees | bdos/osmem.c:244-287 | the descriptor freed is not in use any more, every other one is as before, and a block with none in use is a free block |
| MemOs.GetFreMd | bdos/osmem.c:184-287 | taking a descriptor and freeing it leaves the same ones in use |
| MemOs.FreMdOthers | bdos/osmem.c:244-287 | every other descriptor stays in use |
| MemOs.Conserved | bdos/osmem.c:306-400 | carved blocks = quick list + MDBLOCKs + blocks handed out |
| MemOs.RunKeeps | bdos/osmem.c:115-400 | over every run the invariants hold: chain = MDBLOCKs with one or two entries in use, every carved block in one place |
| MemOs.OsMemory.GetOsm | bdos/osmem.c:115-130 | the next words of the pool, or none |
| MemOs.OsMemory.FindBlock | bdos/osmem.c:326-341 | quick list first, then the pool |
| MemOs.OsMemory.XmGetBlk | bdos/osmem.c:306-370 | a freed block, else the next of the pool, else none; invariants kept |
| MemOs.OsMemory.XmFreBlk | bdos/osmem.c:376-400 | the block heads the quick list; invariants kept |
| MemOs.OsMemory.UnlinkMdblock | bdos/osmem.c:138-165 | taken off the chain wherever it is; tells whether it was there |
| MemOs.OsMemory.XmGetMd | bdos/osmem.c:184-238 | the first free entry of the first MDBLOCK on the chain, or of a new one; a full block leaves the chain, invariants kept |
| MemOs.OsMemory.XmFreMd | bdos/osmem.c:244-287 | the entry is free again; the MDBLOCK joins the chain, stays, or becomes a free block, by the number of free entries |
| ElfUleb.DecodeEncode | bdos/elfld.c:654-686 | decoding is the inverse of ULEB128 encoding for every 32-bit value (section 7.6 of DWARF Version 5) |
| ElfUleb.DecodeBytes | bdos/elfld.c:654-686 | a number is read exactly if there is one of at most five bytes, and its value in terms of these bytes, lowest group first |
| ElfUleb.DecodeRange | bdos/elfld.c:654-686 | an accepted number is below 2^32, has at most five bytes and ends at or before the limit |
| ElfUleb.DecodeLocal | bdos/elfld.c:663-664 | nothing at or past the limit is looked at |
| ElfUleb.DecodeShortest | bdos/elfld.c:654-686 | the bytes read are the shortest encoding exactly when they do not end in a padding zero |
| ElfUleb.ReadUleb128 | bdos/elfld.c:654-686 | the loop computes the decoded number and the next position, or fails |
| ElfUleb.StreamAscends | bdos/elfld.c:720-744 | an accepted stream lists strictly ascending 32-bit addresses |
| ElfUleb.StreamPack | bdos/elfld.c:720-744 | reading back a packed list of slots gives the list |
| ElfUleb.StreamExample | bdos/elfld.c:720-744 | a stream of three bytes and its two slots |
| ElfLoad.WordPut | bdos/elfld.c:493-496 | a stored word reads back, in either byte order |
| ElfLoad.RelocatedElsewhere | bdos/elfld.c:724-744 | bytes in no slot stay |
| ElfLoad.RelocatedSlot | bdos/elfld.c:724-744 | each slot of a list without overlaps grows by the bias modulo 2^32 |
| ElfLoad.RelocatedZero | bdos/elfld.c:704-705 | a bias of zero changes nothing, so skipping it is right |
| ElfLoad.AlignedSpaced | bdos/elfld.c:484-489 | with four-byte alignment accepted slots cannot overlap |
| ElfLoad.PairSpoils | bdos/elfld.c:724-744 | of two overlapping slots at least one is wrong, in either byte order and for every bias but 0 |
| ElfLoad.AllRightIff | bdos/elfld.c:724-744 | slots an even distance apart all grow by the bias exactly when no two overlap or the bias is 0 |
| ElfLoad.LoadedRightIff | bdos/elfld.c:694-747 | a file accepted away from its link address has every slot right exactly when no two slots overlap |
| ElfLoad.OverlapExample | bdos/elfld.c:127-137 | two overlapping slots a two-byte aligned machine accepts, and what becomes of the first |
| ElfLoad.UncheckedExample | bdos/elfld.c:704-718 | a stream without a header is accepted at the link address and refused elsewhere |
| ElfLoad.TwoBases | bdos/elfld.c:694-747 | two relocated images differ in the slots only, there by the distance modulo 2^32 |
| ElfLoad.LoadsAlike | bdos/elfld.c:1129-1218 | the same for a file accepted at two addresses, one of them perhaps its link address |
| ElfLoad.ExtentUnique | bdos/elfld.c:361-372 | the extent of the segments is unique |
| ElfLoad.ExtentOrder | bdos/elfld.c:378-388 | link base, file end and image end are in order, so no span underflows |
| ElfLoad.ElfScan | bdos/elfld.c:321-391 | succeeds exactly on sound tables (gABI chapter 5, Program Header), with the exact extent |
| ElfLoad.ElfFixup | bdos/elfld.c:465-499 | a slot is accepted exactly when inside the image and aligned; then the bias is added to that word only |
| ElfLoad.ElfRelocatePtos | bdos/elfld.c:694-747 | succeeds exactly on acceptable streams, and then the image is the relocated one; no write outside |
| ElfLoad.LoadSegments | bdos/elfld.c:1151-1215 | zero fill and file parts, later segments over earlier ones; fails exactly when a file part cannot be read in full; the last headers of relocation stream and imports are remembered |
| ElfLoad.LoadableExtent | bdos/elfld.c:1120-1127 | whether a file can be loaded does not depend on a choice of extent |
| ElfLoad.LoadProgram | bdos/elfld.c:1120-1222 | with a good header: malformed exactly when not loadable; otherwise the outcome tells which special headers there are, and the image at the load address has the last relocation stream applied if there is one |
| ElfLoad.LoadedSlots | bdos/elfld.c:1176-1218 | a file with a relocation stream, loaded away from its link address, ends loaded or with imports to do; every slot of the last stream has grown by the bias if none overlap, every other byte is as linked |
| ElfLoad.ElfPgmhdrld | bdos/elfld.c:400-440 | the sizing pass: text plus bss is the image, for exactly the files with a good header and an extent |
| ElfLoad.ElfPgmld | bdos/elfld.c:1091-1222 | header checks included: refused as malformed exactly when not loadable; otherwise image and base page fields as LoadedAs says, and no byte outside the announced image is written |
| ElfLoad.PageOf | bdos/elfld.c:1143-1149 | entry point inside the image, text and bss adjoining and adding up to it |
| ElfLoad.PhdrLayout | bdos/elfld.c:165-174 | the fields of a program header are read where gABI chapter 5, Program Header, has them |
| ElfLoad.EhdrLayout | bdos/elfld.c:148-163 | the same for the ELF header (gABI chapter 4, ELF Header) |
| ElfLoad.HeaderLayout | bdos/elfld.c:292-318 | which headers are accepted, in terms of the bytes |
| ElfLoad.RelocLayout | bdos/elfld.c:200-206 | the eight bytes before the stream, and where it begins |
| ElfExample.LoadsExample | bdos/elfld.c:1091-1222 | a program file byte by byte: it can be loaded, and the image it gives at 0x3000 |

## Left out

- Errors of the BIOS calls and the longjmp out of them, and a media change that is certain: the medium answers every request, `Mediach` says "unchanged" or "perhaps".
- Masks and shifts by powers of two in the file system are `/` and `%`; record and cluster sizes only have to be what logging in a drive establishes.
- The root directory and the FAT as files of their own, `ixgetfcb`, directories, file names and handles.
- FsIo.IxWrite: lengths are not negative; the original passes a negative length through.
- FsIo.IxLseek: a file of positive length has a first cluster; the original follows cluster 0 otherwise.
- FsVolume.Volume.Run: each file has one descriptor, which outlives a deletion and then shows an empty file; the directory entries and the closing of open files in ixdel are not modelled, nor that the length of a file fits in a LONG.
- FsCache.Cache.Poke: stands for the caller's stores through the pointer that getrec returns.
- Copying between buffer and user happens before the descriptor is updated in the model, after it in the code; no other step comes between.
- AesTree.EveryObj: a start object other than the root is given with its `ob_next` as stop object, as all callers do, and the depth limit is within the offset arrays; what the routine does is not modelled.
- AesRect.Windows.Refresh: between 3n(n-1)+4 free ORECTs, which are enough, and what the crossing windows of AesLattice need, it is open how many n windows can take; for 8 windows and 80 ORECTs neither bound decides. Window sizes are not negative. Where the original would follow a null pointer the method gives up, and says that the free list is then empty.
- AesRect.Windows.NewRect: window sizes are not negative, and coordinates do not overflow a WORD; so in AesRect.Windows.Refresh.
- AesKernel.Kernel.Iasync: whether the event has already happened is a parameter; the wait lists of keyboard, buttons and mouse rectangles are not modelled, a block is complete or not.
- AesKernel.Kernel.Disp: the keyboard poll is part of what the rounds of the fork ring bring; event recording, the in-progress flag NOCANCEL, which is set and cleared inside one step, and the context switch are not modelled.
- AesTimer.Delays.Tikcod: the fork ring has room for the entry, and it is run before the next tick.
- AesTimer.Delays.Tchange: times do not overflow a LONG; over runs against real time waits are not negative.
- AesMutex.Mutex.Unsync: back links of the wait list are not modelled.
- AesQueue.Queue.Nq: messages have 16 bytes, and the extra length a message announces is a multiple of 16; rectangles do not overflow a WORD.
- AesQueue.WriteKeeps: at most seven other processes send, and a blocked one sends nothing more; which of several blocked readers is served is not recorded, since the owner of the pipe is the only one; the drain of the whole queue in ap_exit is not modelled.
- MemUser.Memory.Ffit: whether `xmgetmd` finds a descriptor is a parameter; amounts are positive, as `xmxalloc` sees to; one pool is modelled, the choice between ST-RAM and alternative RAM (`xmxalloc`, `alloc_tpa`) is not.
- MemOs.OsMemory.XmGetBlk: freeing directory nodes when memory runs out, halting, and the zero fill of the block are not modelled; sizes are those of the 68000 port.
- ElfLoad.LoadProgram: section-based relocation and imports are outcomes that are not carried out.
- ElfLoad.ElfPgmld: section-based relocation and imports are not modelled; the outcomes `BySections` and `ThenImports` say where they would go on.
- ElfLoad.ElfScan: the overflow tests inside the loop are left out, since the test of the whole table before it covers them.
- Drawing, VDI, menus, forms, desktop, shell, console, clock, the PRG loader and all hardware access.
