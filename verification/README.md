# A verified model of the kernel's file system, memory managers, console and keyboard

The project models five parts of the kernel in Dafny and proves what they are for.

* **FAT32** (`kernel/src/fs/fat32.c`). A volume is a sequence of 512-byte sectors. The table and the data clusters
  are views of the sectors (`Volume`), chains are views of the table (`FatTable`, `Chains`), files are byte
  sequences over chains (`FileSpec`, `FileCursor`, `FileWrite`), and directories are sequences of 32-byte slots over
  chains (`DirSlots`, `Directory`, `FsOps`, `PathOps`; byte by byte in `EntryFormat`). Each layer is proved against
  the next. The classes `Volume.MountedVolume`, `OpenFile.File` and `FileSystem.FatFileSystem` run the loops of the
  source in place, and each method is proved to move its object exactly as a function on values does. `Persistence`
  puts create, rewrite, update and reopen together; `Runs` covers whole runs over many open files; `Session` runs
  them on the device, with all copies of the table equal throughout; `SaveRun` is the save of a new file as such a
  run. `PlainFiles` is what open files are for their users, a map from handles to bytes; `PlainRuns` proves that
  every run is one of plain files, and `ClosedFiles` that files which are not open keep their bytes. `PathChanges`
  and `PathRuns` tell what becomes of paths. `FreshVolume` is a formatted volume on which all their premises hold,
  `FreshDevice` its sectors, and `ForeignVolume` one with a directory that another system made. `MidWrite` tells
  exactly when a write is right, `StrayPaths` when a path is resolved rightly.
* **Configuration files** (`kernel/src/utils/config.c` with the string functions under it): `Lines`, `CStrings`,
  `Config`.
* **Physical and virtual memory and processes** (`kernel/src/mm/pmm.c`, `kernel/src/mm/vmm.c`,
  `kernel/src/process.c`). `Paging`, `Frames` and `Process` are the value level, `MapLoop` is the mapping loop with
  addresses that wrap, `Protection` combines the protection bits of directories and tables, `CreateFate` tells from
  counts how a creation ends, `Boot` is the state after initialisation, `MemoryRuns` covers whole runs, and
  `Scenarios` has a few runs from boot. The classes `Machine.Memory` and `ProcessTable.Processes` update bitmaps of
  32-bit words (`Bitmap`), tables and the process table in place.
* **Console** (`kernel/src/drivers/tty.c`): `Terminal`, against a layout of unbounded text that is defined by
  cutting the text into rows from its front.
* **Keyboard** (`kernel/src/drivers/keyboard.c`): `Keyboard`, against the history of key events.

Page numbers stand for addresses divided by 4096. Cluster sizes are multiples of 512 bytes, up to 255 times that on
a device; `Arith` holds the multiplication and division by a cluster size.

## What the source does, where that may surprise

These are properties of the code, kept in the model and stated exactly.

* A directory scan never reports the very last slot of a directory's chain (`fat32.c:521-524`), so an entry
  placed there is not found: see `PathOps.CreateThenOpen`, `PathOps.MkdirThenOpen`, and for an input
  `FreshVolume.CreatedButNotFound`.
* The format gives cluster 0 to the entry ".." of a directory whose parent is the root (section "Directory
  Structure" of the FAT32 specification). `fat32_open_file` takes it for a cluster number (`fat32.c:360-361`) and
  goes on in the last table copy, where `fat32_create` and `fat32_mkdir` would also write. The kernel's own
  `fat32_mkdir` writes the root's cluster number instead (`fat32.c:572-575`). `StrayPaths.ResolvesRightlyIff`,
  `StrayPaths.DotDotOfRootStrays`, `StrayPaths.WritingClusterZeroBreaksCopies`, and for an input
  `ForeignVolume.StrayPathFails`.
* `fat32_create` never looks whether the name exists (`fat32.c:595-609`). The second entry hides the first exactly
  when it goes to a slot before it: `PathChanges.CreateOverExisting`, `PathChanges.OpensAfterCreate`, and for an
  input `ForeignVolume.CreateHidesOldFile`.
* `fat32_write` never advances along existing clusters (`fat32.c:619-634`), so a write that starts before the last
  cluster and leaves the cluster it starts in goes wrong, and past the end of the chain it can report success and
  leave the file with fewer clusters than its size needs: `MidWrite.WriteIsRightIff`, `MidWrite.AcrossIsWrong`,
  `MidWrite.WritePastEndIsWrong`, and for an input `MidWrite.WriteFromStartFails`. What it reports is
  `MidWrite.WriteReports`.
* A write before the last cluster that ends exactly at its cluster's end is right, but leaves the cursor on that
  cluster with the offset of the next (`fat32.c:646-660`), so that a read goes on with the wrong bytes:
  `MidWrite.CursorRightIff`, and for an input `MidWrite.WriteThenReadRepeats`.
* A read up to the end of a file that fills its chain leaves current cluster 0; an append from there abandons the
  old chain (`fat32.c:433-436`, `622-634`): `MidWrite.AppendFromEndedCursorLosesChain`, and for an input
  `MidWrite.ReadToEndThenAppendFails`.
* `fat32_seek` to such an end fails after `file_offset` has moved (`fat32.c:481-489`), and so does one into a cluster
  that ends at 4 GiB, where the position of its walk wraps: `FileCursor.SeekMovesCursor`. An append after the first
  links its cluster behind the one that the cursor stood on and cuts the rest of the chain off, unless that was the
  last one: `MidWrite.AppendAtEndIsRightIff`, and for an input `MidWrite.SeekToEndThenAppendFails`.
* A line longer than the buffer is cut, and the cursor skips to the end of the last chunk that was read
  (`fat32.c:444-474`): `Lines.ReadLine`. What repeated calls then return is `Lines.Pieces`, which are the file's lines
  exactly when these fit: `Lines.PiecesAreLines`, `Lines.ReadLines`, and for an input `Lines.LongLineLosesNext`.
* The value that `config_get_str` returns keeps the newline of its line: `Config.KeyValueOfAssignment`.
* `tolower` changes lower-case letters and leaves upper-case ones alone (`ctype.c:3-11`). Paths are upper-cased before
  they are used, so name comparison is plain equality there: `Names.CaseCompareUpper`.
* When the parent's first cluster has no free slot, `fat32_mkdir` fails after it has taken a cluster
  (`fat32.c:554-590`). The cluster stays used, as a chain that no entry names: `PathOps.MkdirSucceedsIff`,
  `PathOps.FailedMkdirKeepsCluster`, and for an input `FreshVolume.MkdirOnFullRootKeepsCluster`.
* `vmm_mappage` on a range that ends with the last page of the address space never returns 0: its page numbers wrap,
  it rewrites the page tables that all directories share, and it ends with -1 at the first region without a table,
  because a directory would need more tables than there are frames: `MapLoop.LoopReturns`, `MapLoop.LoopLeaves`,
  `MapLoop.WrapOverwritesKernel`, and for a run `Scenarios.MappingLastPageOverwritesKernel`.
* A range that goes past the end of the address space into an earlier page, as 8192 bytes from 0xFFFFF000 do, is
  mapped nowhere, and `vmm_mappage` returns 0 (`vmm.c:158-160`): `Paging.NothingMapped`.
* The directory of a process is closed to user mode (`vmm.c:84`), and so are its two pages (`process.c:43`, `60`),
  so that in user mode a process reaches no page at all: `Protection.UserModeReachesNothing`.
* `set_fat_entry` clears the top four bits of an entry (`fat32.c:186`), which the section "FAT Data Structure" of the
  FAT32 specification wants kept: `Volume.MountedVolume.SetFatEntry`.
* The page bitmaps are searched by whole words: of the 1046527 pages above 8 MiB 1046496 can be handed out, of the
  1023 internal frames 992.
* Freeing a page leaves the kernel's entry present, so as long as the page is free the next allocation panics:
  `Frames.AllocPageSpec`, `MemoryRuns.FreedPagePanics`, `MemoryRuns.CreateAfterTerminatePanics`, and for a run
  `Scenarios.SecondCreationPanics`.
* Page tables and directories are never given back, not after a failed creation and not at termination; only pages
  above 8 MiB are. So a failed creation is all-or-nothing for pages, but not for internal frames:
  `CreateFate.CreateMeetsFate`, `CreateFate.FailedCreationKeepsFrames`, and for a run
  `Scenarios.FailureKeepsLastFrame`.
* `process_create` allocates one page for the program and copies all of it (`process.c:50-69`). The page behind it is
  never mapped at that point, so a program longer than a page ends in the kernel's page fault: `Process.CopySpec`,
  `CreateFate.CreateMeetsFate`, `Scenarios.LongProgramFaults`.
* The keyboard's indices have eight bits, so its ring of 1024 bytes holds 255 characters:
  `Keyboard.FullLooksEmpty`, and for inputs `Keyboard.FullRingIsSilent`, `Keyboard.OverrunGivesLastFirst`.

Four places are modelled as they are evidently meant, because what the C text does there is not what its callers
rely on.

* The block device returns the sectors that were written; the byte order of the write loop in
  `kernel/src/drivers/pata_pio.c:141-144` is not followed.
* `fat32_read_dir` reads the current cluster on every call, not only at offset 0 (`fat32.c:503-510`).
* Name bytes are unsigned, so a slot that starts with 0xE5 is a deleted one (`fat32.c:224`, `294`, `528`).
* `process_terminate` compares the pid of the slot that it is scanning (`process.c:89`).


## Model

| member | source | states |
|---|---|---|
| FatTable.FirstFreeFrom | kernel/src/fs/fat32.c:167-183 | the scan returns the least free cluster not below its start, and 0 iff there is none |
| FatTable.FirstFreeIsLeast | kernel/src/fs/fat32.c:167-183 | the cluster handed out is the least of all free ones in the volume; 0 means that none is free |
| FatTable.ChainIsAcyclic | kernel/src/fs/fat32.c:377-394 | a chain that reaches its end mark visits no cluster twice |
| FatTable.ChainIsUnique | kernel/src/fs/fat32.c:377-394 | the table determines the chain of a start cluster: two chains that start alike are equal |
| FatTable.FreeChain | kernel/src/fs/fat32.c:672-677 | the freeing loop ends on every well-ranged table, cyclic ones included (measure: used entries, cluster != 0), and neither length nor range of the table changes |
| FatTable.FreeChainZeroesReachable | kernel/src/fs/fat32.c:672-677 | it zeroes exactly the entries reachable from the start cluster, on cyclic and cross-linked tables too |
| FatTable.FreeChainFreesChain | kernel/src/fs/fat32.c:672-677 | on a proper chain it zeroes the chain's entries and no other |
| FatTable.FreeChainReturns | kernel/src/fs/fat32.c:672-677 | the free clusters afterwards are the old ones and the chain's, with their numbers adding up |
| Volume.Geometry.TableSectorsDisjoint | kernel/src/fs/fat32.c:185-207 | sectors of different table copies are different |
| Volume.Geometry.LbasDisjoint | kernel/src/fs/fat32.c:30-32 | the sectors of different clusters do not overlap |
| Volume.Geometry.Places | kernel/src/fs/fat32.c:30-32 | sector k of table copy i and the first sector of cluster c, as plain products |
| Bytes.ToLe32Digits | kernel/src/fs/fat32.c:195 | byte k of a stored 32-bit value is the value divided by 256 to the k, modulo 256: the least significant first |
| Bytes.Le32Digits | kernel/src/fs/fat32.c:377-394 | and so it is read back |
| Bytes.ToLe16Digits | kernel/src/fs/fat32.c:256-257 | the same for the two-byte halves of a cluster number |
| Bytes.Le16Digits | kernel/src/fs/fat32.c:360-361 | and for reading them |
| Volume.EntryBytes | kernel/src/fs/fat32.c:377-394 | the table that all results are about is the four-byte entries of the first copy, the least significant byte first, the upper half of the last byte left out |
| Volume.ClusterBytes | kernel/src/fs/fat32.c:396-398 | and the bytes of a cluster are those of its sectors, 512 of each, in order |
| Volume.SetRawSets | kernel/src/fs/fat32.c:185-207 | replacing four bytes of a table sector changes that entry and no other of the sector |
| Volume.SetEntryRefines | kernel/src/fs/fat32.c:185-207 | writing the changed sector to every copy updates the table at one cluster, leaves every data cluster alone and keeps the copies equal |
| Volume.WriteSpanReadsBack | kernel/src/fs/fat32.c:646-649 | sectors written are read back as the bytes they were written with |
| Volume.WriteClusterRefines | kernel/src/fs/fat32.c:646-649 | writing a cluster changes that cluster's bytes only; the table and its copies stay |
| Volume.MountedVolume.NextCluster | kernel/src/fs/fat32.c:377-394 | the entry is what the four bytes at place 4 * (c mod 128) of sector c / 128 of the first table copy hold, the least significant first, without the top four bits; the result is the successor, and 0 from 0x0FFFFFF8 on |
| Volume.MountedVolume.FindFreeCluster | kernel/src/fs/fat32.c:167-183 | the sector-by-sector scan finds the first free cluster of the table it represents |
| Volume.MountedVolume.SetFatEntry | kernel/src/fs/fat32.c:185-207 | in every table copy the four bytes of that entry hold the 28 bits of the value, the least significant first, with the top four bits 0, and no other byte of the device changes; so the table maps that cluster to the masked value, the data is as before, and all copies are equal |
| Volume.MountedVolume.ReadCluster | kernel/src/fs/fat32.c:396-398 | returns the bytes of that cluster |
| Volume.MountedVolume.WriteCluster | kernel/src/fs/fat32.c:636-649 | that cluster holds the bytes given, everything else is as before |
| Chains.FreeIffUnchained | kernel/src/fs/fat32.c:167-207 | in a sound volume the clusters in no chain are exactly those with a zero entry |
| Chains.RechainSound | kernel/src/fs/fat32.c:611-686 | giving one file a new chain out of its own and free clusters keeps all chains in range, closed, disjoint and covering |
| FileCursor.ReadMovesCursor | kernel/src/fs/fat32.c:400-442 | a read moves the cursor by what was left to read, keeps it on its cluster, and leaves cluster 0 at the exact end of the chain |
| FileCursor.ReadReturnsContent | kernel/src/fs/fat32.c:400-442 | a read returns content[off .. min(off + n, size)], over any number of cluster hops |
| FileCursor.SeekMovesCursor | kernel/src/fs/fat32.c:476-496 | seek succeeds iff offset <= size, the offset is inside the first cluster or inside the chain, and its cluster ends below 4 GiB; past the size nothing changes; otherwise it fails after moving the offset |
| OpenFile.File.Read | kernel/src/fs/fat32.c:400-442 | the loop over chunks is that read: bytes in the buffer's front, the rest of the buffer untouched, nothing for directories |
| OpenFile.File.Seek | kernel/src/fs/fat32.c:476-496 | the walk from the start cluster, with a position that wraps at 32 bits, is that seek |
| OpenFile.File.WalkTo | kernel/src/fs/fat32.c:483-492 | the walk ends on the cluster that the value-level walk reaches, or at the chain's end |
| FileWrite.WriteKeepsReady | kernel/src/fs/fat32.c:611-665 | writing at the end or in the last cluster keeps the chain exactly as long as the size needs and the handle fit for the next such write |
| FileWrite.ExtendMarksEnd | kernel/src/fs/fat32.c:622-634 | a cluster that a write takes gets the end mark 0x0FFFFFF8, the one before it leads to it, and no other entry changes |
| FileWrite.WriteReplacesBytes | kernel/src/fs/fat32.c:611-665 | the file is then its old bytes with the written ones put over them from the old offset on |
| FileWrite.WriteFrame | kernel/src/fs/fat32.c:611-665 | no entry and no cluster outside the file's chain changes, new clusters were free, and the free count drops by the growth of the chain |
| FileWrite.WriteStopsFull | kernel/src/fs/fat32.c:619-634 | a write falls short only when no cluster is free and the last one is full |
| FileWrite.WriteSucceedsIffFits | kernel/src/fs/fat32.c:611-665 | a write returns true iff the blocks of the new size are no more than the chain's and the free ones |
| FileWrite.WriteConcat | kernel/src/fs/fat32.c:611-665 | two writes in a row are one write of the concatenation, for every handle that may be written |
| MidWrite.WriteIsRightIff | kernel/src/fs/fat32.c:611-665 | on a file whose chain is as long as its size needs, with the cursor on any cluster of it or on none, writing n bytes is right for all bytes (reported complete, and a chain from the start holds the old bytes with the new ones put over them) iff, before the last cluster, it stays inside the cluster, and else the cursor stands on the last cluster and there are clusters for the new size |
| MidWrite.WriteBeforeLastIsRightIffInside | kernel/src/fs/fat32.c:617-646 | the first case: from before the last cluster it is right for all bytes iff it stays inside the cluster it starts in |
| MidWrite.AcrossIsWrong | kernel/src/fs/fat32.c:617-646 | past that cluster it is wrong for all bytes that change the one behind the cluster |
| MidWrite.WritePastEndIsWrong | kernel/src/fs/fat32.c:617-646 | past the end of the chain a write from before the last cluster that is reported complete is wrong whatever the bytes are |
| MidWrite.WriteReports | kernel/src/fs/fat32.c:619-634 | a write is reported complete iff the blocks of the size and the free clusters hold it, right or wrong |
| MidWrite.WriteFromStartFails | kernel/src/fs/fat32.c:617-646 | an input: three bytes over a file of two one-byte clusters, written from its start, are reported written, and no chain from the start holds them |
| MidWrite.AppendAtEndIsRightIff | kernel/src/fs/fat32.c:619-634 | appending at the end of a file that fills its chain is right iff the cursor still stands on the last cluster and there are clusters for it; from any other cluster, and from none, a write reported complete is wrong for all bytes |
| MidWrite.SeekToEndThenAppendFails | kernel/src/fs/fat32.c:476-496 | an input: seek to the end of such a file, which fails and moves the offset, then append one byte: it is reported written and lost |
| MidWrite.ReadToEndThenAppendFails | kernel/src/fs/fat32.c:400-442 | an input: read up to the end of it, then append one byte: it is reported written and lost |
| MidWrite.AppendFromEndedCursorLosesChain | kernel/src/fs/fat32.c:622-634 | an append from a cursor that ran off the chain starts a new chain at the first free cluster and leaves the old one behind |
| MidWrite.PlacedWrite | kernel/src/fs/fat32.c:611-665 | a write from the last cluster, or from before it that ends inside its cluster, puts what it has written over the bytes, grows the chain out of free clusters, falls short only on a full volume, and leaves the cursor right |
| MidWrite.CursorRightIff | kernel/src/fs/fat32.c:646-660 | a right write from before the last cluster leaves the cursor right iff it ends before its cluster does |
| MidWrite.WriteThenReadRepeats | kernel/src/fs/fat32.c:400-442 | an input: a write of exactly the first cluster is right, and the read behind it gives the byte just written instead of the next one |
| FileWrite.RewriteReplacesFile | kernel/src/fs/fat32.c:667-686 | rewrite succeeds iff the blocks fit the free and the file's old clusters; else the file holds the longest prefix of whole clusters; content, chain length and the free + used count are exact either way |
| FileWrite.RewriteFrame | kernel/src/fs/fat32.c:667-686 | rewrite touches no cluster that was neither free nor the file's |
| OpenFile.File.Write | kernel/src/fs/fat32.c:611-665 | the loop with its read-modify-write of clusters is that write, on volume and handle |
| OpenFile.File.Rewrite | kernel/src/fs/fat32.c:667-686 | the freeing loop followed by the write is that rewrite |
| Lines.SplitIsFaithful | kernel/src/fs/fat32.c:444-474 | the lines of a byte sequence, concatenated, are the sequence; each ends at its first newline, only the last may lack one |
| Lines.PiecesAreLines | kernel/src/fs/fat32.c:444-474 | what repeated calls return is exactly the file's lines iff every line is shorter than the buffer |
| Lines.LongLineLosesNext | kernel/src/fs/fat32.c:444-474 | an input: two lines, the first of five bytes, read with a buffer of four: its first three bytes come back, and nothing else |
| Lines.ReadLines | kernel/src/fs/fat32.c:444-474 | calling fat32_read_line until it returns 0 gives exactly those pieces, the file's lines iff each is shorter than the buffer, and leaves the cursor at the end of the file |
| Lines.ReadLine | kernel/src/fs/fat32.c:444-474 | a line shorter than the buffer is returned whole and the cursor moves just behind it; a longer one is cut, and the cursor moves to the end of the last chunk of 512 bytes that was read, or of the file |
| CStrings.StrTok.Token | libc/src/string.c:94-109 | strtok cuts the next token in place, and what remains for the next call is what follows its delimiter |
| CStrings.StrCmp | libc/src/string.c:38-44 | the difference of the first characters that differ, the terminator counting as 0; zero iff the strings are equal |
| CStrings.StrNCpy | libc/src/string.c:25-36 | n bytes are the string cut or zero-padded, the rest of the buffer is untouched |
| Config.LookupIsFirstMatch | kernel/src/utils/config.c:5-21 | the lookup gives the value of the first line whose key matches, and nothing iff no line matches |
| Config.KeyValueOfAssignment | kernel/src/utils/config.c:9-12 | a line key=value gives that key and that value, the value with the line's newline |
| Config.TwoTokens | kernel/src/utils/config.c:9-12 | two strtok calls on the line give its key and value, and cutting the second leaves the first intact |
| Config.GetStr | kernel/src/utils/config.c:5-21 | on every file it succeeds iff one of the pieces that repeated line reads with a buffer of 512 return matches, which are the file's lines when none is longer than 511 bytes, and leaves that piece's value, cut to size - 1 characters |
| Names.CaseCompareZero | libc/src/string.c:60-69 | strcasecmp is zero iff the strings agree letter by letter under tolower |
| Names.CaseCompareUpper | libc/src/ctype.c:3-11 | on names without lower-case letters that is plain equality, although tolower is wrong |
| Names.CaseCompareEqual | libc/src/string.c:60-69 | the bytes that strcasecmp takes as the same are equal ones, and lower-case letters with the bytes 32 above them |
| Names.CaseCompareValue | libc/src/string.c:60-69 | else it gives the difference of the first two that it does not take as the same, the end counting as 0 |
| Names.UpperForgetsCase | libc/src/ctype.c:13-21 | upper-casing makes equal exactly the strings that agree up to the case of their letters, and gives each letter its capital |
| Names.DecodeEncode | kernel/src/fs/fat32.c:209-324 | the 11-byte name field decodes to the upper-cased name iff the name fits 8.3 |
| Names.DecodedParts | kernel/src/fs/fat32.c:285-324 | every name field, made by this source or not, decodes to what stands before the first blank of its first eight bytes and, unless the ninth is blank, a dot and what stands before the first blank of its last three, cut at a zero byte |
| Names.EncodeInjective | kernel/src/fs/fat32.c:209-283 | different upper-case 8.3 names have different fields |
| NameCodec.EncodeName | kernel/src/fs/fat32.c:209-283 | the padding loops produce that field |
| NameCodec.DecodeName | kernel/src/fs/fat32.c:285-324 | the rebuilding loops undo it |
| NameCodec.StrCaseCmp | libc/src/string.c:60-69 | the loop is that comparison |
| NameCodec.FindLastSlash | libc/src/string.c:82-92 | the loop finds the last slash, -1 if there is none |
| NameCodec.StrToUpper | kernel/src/fs/fat32.c:43-49 | each byte of the string in the caller's buffer becomes its capital, which is the letter 32 below it for a lower-case letter and the byte itself otherwise; the rest of the buffer stays |
| DirSlots.MakeSlotFields | kernel/src/fs/fat32.c:226-278 | the composed entry carries the cluster, split over its two halves, and the size |
| EntryFormat.SlotReads | kernel/src/fs/fat32.c:285-324 | the cluster is read from bytes 26, 27, 20, 21 and the size from 28 to 31, each least significant first; bit 4 of byte 11 tells a directory; 0 and 0xE5 in byte 0 tell a free entry; attributes 0x0F and 0x08 never match |
| EntryFormat.CreateWritesEntry | kernel/src/fs/fat32.c:209-283 | create changes the 32 bytes of the first free entry of its parent and nothing else; they are, byte by byte, the capitals of the name padded with blanks to eight and three, attributes 0x20, the clock in its five places, cluster and size 0 |
| EntryFormat.MkdirWritesEntries | kernel/src/fs/fat32.c:544-593 | mkdir gives the first free cluster the end mark 0x0FFFFFF8, fills it with the entries "." and ".." and zeros, and writes such an entry, with attributes 0x10 and that cluster, into its parent; no other byte changes |
| EntryFormat.UpdateWritesEntry | kernel/src/fs/fat32.c:742-812 | an update changes bytes 20 to 31 of the first live entry of that name, to start, size and time of writing, and nothing else |
| DirSlots.FindIsFirstHit | kernel/src/fs/fat32.c:285-324 | a lookup returns the first matching live entry before the first unused slot, never the chain's very last slot, and nothing iff there is none |
| DirSlots.MadeSlotHit | kernel/src/fs/fat32.c:209-324 | an entry made for an upper-case 8.3 name is matched by exactly that name |
| DirSlots.FindAfterInsert | kernel/src/fs/fat32.c:209-324 | after an entry of a new name fills the first free slot, looking the name up returns it, unless the slot is the chain's last |
| DirSlots.FindOtherAfterInsert | kernel/src/fs/fat32.c:209-324 | and every other name is looked up as before |
| DirSlots.FindAfterUpdate | kernel/src/fs/fat32.c:742-812 | after an update the lookup that returned the entry returns the rewritten one |
| DirSlots.NextEntryIsFirst | kernel/src/fs/fat32.c:498-535 | the entry reported next is the first used one that is neither deleted (0xE5) nor part of a long name (attributes 0x0F), before any unused one and the last |
| FileSystem.FatFileSystem.ReadDir | kernel/src/fs/fat32.c:498-535 | the walk over a directory's clusters returns its next entry and moves the position behind it; without an entry it stops at the first unused slot or behind the last one |
| FileSystem.FatFileSystem.FindFile | kernel/src/fs/fat32.c:285-324 | the loop over entries is the lookup |
| FileSystem.FatFileSystem.OpenPath | kernel/src/fs/fat32.c:326-375 | the component walk is path resolution, with an outcome of its own where it steps into cluster 0, and the caller's string is in capitals afterwards (which capitals: `NameCodec.StrToUpper`) |
| FileSystem.FatFileSystem.CreateDirEntry | kernel/src/fs/fat32.c:209-283 | the first free slot of the directory's first cluster receives the composed entry; false and no change if there is none |
| FileSystem.FatFileSystem.OpenParent | kernel/src/fs/fat32.c:149-165 | the path is cut at its last slash and its directory part opened |
| FileSystem.FatFileSystem.Create | kernel/src/fs/fat32.c:595-609 | moves the whole file system as the value-level creation does and keeps it well formed |
| FileSystem.FatFileSystem.Mkdir | kernel/src/fs/fat32.c:544-593 | the same for a new directory |
| FileSystem.FatFileSystem.UpdateFileEntry | kernel/src/fs/fat32.c:742-812 | the same for recording start cluster and size |
| Directory.ComponentIs | kernel/src/fs/fat32.c:345-360 | a path component ends at a slash, at the end of the path, or after twelve characters |
| PathOps.CaseDoesNotMatter | kernel/src/fs/fat32.c:43-49 | paths that agree up to the case of their letters open as the same thing, and create, mkdir and update do the same with them |
| FsOps.ResolveSplit | kernel/src/fs/fat32.c:149-165 | a path resolves as its last component in the directory that its front resolves to |
| StrayPaths.ResolvesRightlyIff | kernel/src/fs/fat32.c:345-374 | a path resolves to what it means (cluster 0 in a directory's entry being the root, as in ".." of the root's subdirectories) iff its walk takes no directory's entry with cluster 0 |
| StrayPaths.NothingStrays | kernel/src/fs/fat32.c:345-374 | on a volume without such entries, as this source makes its own directories, every path does |
| StrayPaths.DotDotOfRootStrays | kernel/src/fs/fat32.c:360-361 | on every volume with a subdirectory of the root made as the format says, the path /SUB/../rest goes astray |
| StrayPaths.ClusterZeroIsTable | kernel/src/fs/fat32.c:30-32 | when two clusters are no longer than a table copy, the sectors that the source takes for cluster 0 lie in the last copy |
| StrayPaths.WritingClusterZeroBreaksCopies | kernel/src/fs/fat32.c:209-283 | so writing a changed directory back there leaves table copies that differ |
| ForeignVolume.ForeignIsOk | kernel/src/fs/fat32.c:326-375 | a volume with such a directory is well formed in the sense of all results here |
| ForeignVolume.StrayPathFails | kernel/src/fs/fat32.c:326-375 | an input: on it /X opens and /SUB/../X, which means the same, goes astray |
| FsOps.ResolveKept | kernel/src/fs/fat32.c:326-375 | when every directory keeps its names, every path that resolved still does |
| FsOps.CreateEntryFound | kernel/src/fs/fat32.c:209-324 | a new entry makes its name resolve, keeps all other names of the directory and every name elsewhere |
| PathOps.CreateThenOpen | kernel/src/fs/fat32.c:595-609 | after create the path opens as an empty file iff its entry is not in the chain's last slot; every path that opened before opens as before |
| PathOps.CreatedOpensInAnyCase | kernel/src/fs/fat32.c:595-609 | and it opens through every path that differs from the created one only in the case of letters |
| PathChanges.OpensAfterCreate | kernel/src/fs/fat32.c:209-283 | after a create of any name, old or new, every path opens as before, or as the new empty file exactly when its walk looks in that directory for a name that the new entry has and would find only behind it |
| PathChanges.OpensAfterMkdir | kernel/src/fs/fat32.c:544-593 | after a mkdir of any name, failed or not, every path whose walk does not meet the new entry opens as before |
| PathChanges.CreateOverExisting | kernel/src/fs/fat32.c:595-609 | create of a name that is there succeeds all the same; the path then opens as the new empty file iff the free slot lies before the old entry, else as before |
| ForeignVolume.CreateHidesOldFile | kernel/src/fs/fat32.c:595-609 | an input: a file behind a deleted entry, created again, opens as empty |
| PathOps.MkdirThenOpen | kernel/src/fs/fat32.c:544-593 | after mkdir the path opens as the newly taken cluster, "." and ".." lead to itself and its parent, exactly that cluster became used, every earlier path is kept |
| PathOps.CreateSucceedsIff | kernel/src/fs/fat32.c:595-609 | create succeeds iff the parent is a directory whose first cluster has a free slot |
| FreshVolume.CreatedButNotFound | kernel/src/fs/fat32.c:521-524 | an input: on a volume whose root has only its last slot left every new 8.3 name is created with success, and no file opens under it |
| PathOps.MkdirSucceedsIff | kernel/src/fs/fat32.c:544-593 | mkdir succeeds iff, besides, a cluster is free |
| PathOps.FailedMkdirKeepsCluster | kernel/src/fs/fat32.c:554-592 | a mkdir that fails takes the first free cluster out of the free ones iff the parent is a directory and a cluster was free, and nothing otherwise |
| FreshVolume.MkdirOnFullRootKeepsCluster | kernel/src/fs/fat32.c:554-592 | an input: on a volume whose root has no slot left every mkdir fails and keeps a cluster |
| Persistence.SavedFileReadsBack | kernel/src/fs/fat32.c:667-812 | rewrite, record, reopen, read: exactly the saved bytes, and the file system stays well formed |
| Persistence.SavedFileKeepsRest | kernel/src/fs/fat32.c:667-812 | the save leaves every other path, chain and byte alone |
| Persistence.NewFileReadsBack | kernel/src/fs/fat32.c:595-812 | create, rewrite, record, reopen, read: exactly the saved bytes |
| Persistence.NewFileKeepsRest | kernel/src/fs/fat32.c:595-812 | that run leaves every path that opened before, and every other chain and its bytes, alone |
| Runs.StepKeepsWorld | kernel/src/fs/fat32.c:326-812 | every open, read, seek, write, rewrite, create, mkdir, entry update and close, on open files with different chains, keeps file system and all cursors well formed |
| Runs.WholeRunSafety | kernel/src/fs/fat32.c:167-686 | after every run every chain starts where its file starts, follows the table inside the volume to an end mark and repeats no cluster, no two chains share one, and the clusters in no chain are exactly the zero entries |
| Session.Mounted.Execute | kernel/src/fs/fat32.c:167-812 | each of these calls, on the device with its loops, moves volume, chains and all handles as the value level says and returns its answer |
| Session.Mounted.ExecuteAll | kernel/src/fs/fat32.c:167-812 | so does every run of them: after it the sectors represent the state that the value-level run gives, all copies of the table are equal, and all chains are safe |
| PlainRuns.StepRefines | kernel/src/fs/fat32.c:326-812 | each call is that of plain files, a map from handles to byte sequences with an offset and a count of free clusters: write puts bytes over one file, rewrite replaces one, read gives a slice, changes of the tree touch none; state and reply agree exactly, short writes included |
| PlainRuns.RunRefines | kernel/src/fs/fat32.c:326-812 | so does every run: all replies, the bytes and offsets of all open files, and the free clusters are those of the plain files |
| PlainRuns.RunPlainly | kernel/src/fs/fat32.c:326-812 | and the calls of a session on the device, with all copies of the table equal |
| ClosedFiles.ClosedFilesKept | kernel/src/fs/fat32.c:167-812 | over every run that does not open it, a closed file keeps its clusters and its bytes |
| ClosedFiles.ReopenedHasItsBytes | kernel/src/fs/fat32.c:326-375 | opened after such a run, through any path, it gives the bytes of the chain it had before, as many as the entry says |
| PathRuns.PathStays | kernel/src/fs/fat32.c:326-812 | over every run a path that no call creates over or records over opens as it did |
| PathRuns.SameFileAgain | kernel/src/fs/fat32.c:326-812 | and a file that is not opened meanwhile can then be opened through it, as the same file, and has exactly the bytes it had |
| SaveRun.SaveRunReadsBack | kernel/src/fs/fat32.c:400-812 | on every mounted file system with any files open, the seven calls create, open, rewrite, record, close, open, read each succeed and the last returns exactly the bytes written |
| SaveRun.SaveRunKeepsRest | kernel/src/fs/fat32.c:400-812 | that run leaves every path that opened before, and every other chain and its bytes, alone |
| SaveRun.SaveAndRead | kernel/src/fs/fat32.c:400-812 | the seven calls on the device return that, with all copies of the table equal afterwards |
| FreshVolume.FreshFileReadsBack | kernel/src/fs/fat32.c:595-812 | on a freshly formatted volume every 8.3 name can be created, rewritten with whatever fits, recorded and reopened, and reads back as written |
| FreshVolume.FreshRunsAreSafe | kernel/src/fs/fat32.c:167-812 | and every run of operations on it leaves all chains safe |
| FreshDevice.FreshDiskIsFresh | kernel/src/fs/fat32.c:51-86 | the sectors of a formatted disk, with the root's chain in every copy of the table, represent exactly that volume |
| FreshDevice.MountFresh | kernel/src/fs/fat32.c:51-86 | mounting it starts a session in that volume |
| FreshDevice.RunOnFresh | kernel/src/fs/fat32.c:167-812 | every run of calls on it follows the value level, with all copies of the table equal and all chains safe afterwards |
| FreshDevice.SaveOnFresh | kernel/src/fs/fat32.c:400-812 | on it every 8.3 name and all bytes that fit the free clusters are saved and read back, with no further premise |
| Bitmap.FirstClear | kernel/src/mm/pmm.c:14-26 | the least clear bit, -1 iff all are set |
| Bitmap.BitOfPower | kernel/src/mm/pmm.c:14-40 | bit k of a bitmap word is the one with the value 2 to the k |
| Bitmap.FindFirstPage | kernel/src/mm/pmm.c:14-26 | skipping full words and scanning bits finds the least clear bit of the array |
| Bitmap.BitmapSet | kernel/src/mm/pmm.c:28-33 | exactly that bit becomes set |
| Bitmap.BitmapClear | kernel/src/mm/pmm.c:35-40 | exactly that bit becomes clear |
| Paging.IntrAlloc | kernel/src/mm/pmm.c:42-52 | the first free internal frame, all before it being in use, marked and zeroed; nothing iff all are in use |
| Paging.WalkKeepsOwned | kernel/src/mm/vmm.c:131-150 | a walk gives the region a table of its own and keeps every table with one owner, tables 0 and 1 shared |
| Paging.WalkKeepsTranslation | kernel/src/mm/vmm.c:131-150 | and changes no translation of any directory |
| Paging.MapTranslates | kernel/src/mm/vmm.c:152-183 | for every range: on success each page of it goes to its frame, below 8 MiB in every directory; every other page, and every page above 8 MiB of other directories, translates as before, also when it fails half way |
| Paging.MapIsolates | kernel/src/mm/vmm.c:152-183 | so a mapping above 8 MiB changes no other directory |
| Paging.MapSetsEntries | kernel/src/mm/vmm.c:152-183 | on success each entry of the range holds its frame and exactly the protection bits asked for; entries outside it, and those of other directories above 8 MiB, stay |
| Paging.MapPagesTranslates | kernel/src/mm/vmm.c:115-183 | for every range of addresses from va to b, the last one: on success each x in it translates to pa + (x - va), below 8 MiB in every directory; every page with no address of [va, va + size), and every page above 8 MiB of other directories, translates as before, also when it fails half way |
| Paging.NothingMapped | kernel/src/mm/vmm.c:155-183 | a range of size 0 from a page boundary, or one that goes past the end of the address space into an earlier page, maps nothing and returns 0 |
| MapLoop.LoopLeaves | kernel/src/mm/vmm.c:152-183 | the loop over 32-bit addresses ends for every range |
| MapLoop.LoopReturns | kernel/src/mm/vmm.c:152-183 | for 0 < size and va + size <= 0xFFFFF000 it returns what the unwrapped mapping does; for 0xFFFFF000 < va + size <= 2^32 it never returns 0; for other ranges the 32-bit address of the last byte decides in the same way; and it stops at a walk that finds no frame |
| MapLoop.WrapOverwritesKernel | kernel/src/mm/vmm.c:152-183 | on the way a loop that wraps has replaced the identity mapping of page 0 in the tables that all directories share |
| Scenarios.MappingLastPageOverwritesKernel | kernel/src/mm/vmm.c:152-183 | a run: after boot, mapping the last page under the kernel's directory takes page 0 of its identity map within two turns |
| Frames.MissingTableMeansFirstPage | kernel/src/mm/pmm.c:71-100 | under the kernel map a missing table means the page is the first of its region, so filling the table's first entry is right |
| Frames.AllocPageSpec | kernel/src/mm/pmm.c:63-105 | picks the least free page: "Page already allocated" iff that page was handed out before, "Failed allocate page table" iff it is the next one, the first of its region, and no frame is left; otherwise the page is mapped to itself, every other translation stays, and the kernel map holds of one page more |
| Frames.FreeKeepsKernelMap | kernel/src/mm/pmm.c:107-114 | freeing keeps the kernel map: the entry stays present |
| Frames.CreateDirSpec | kernel/src/mm/vmm.c:68-94 | a new directory maps nothing above 8 MiB, is no other directory or table, and disturbs no translation (its protection bits: `Protection.CreateDirKeepsGuard`) |
| Frames.SharedLow | kernel/src/mm/vmm.c:68-94 | below 8 MiB every directory maps each page to itself |
| Boot.BootKernelMap | kernel/src/mm/vmm.c:13-66 | after pmm_init and vmm_init the kernel map holds with no page handed out, whatever memory held |
| Scenarios.BootHandsOut | kernel/src/mm/pmm.c:42-105 | after boot there are 992 internal frames, handed out from 0x400000 on, and 1046496 pages, from 0x800000 on |
| Protection.GuardMeans | kernel/src/mm/vmm.c:82-84 | what the invariant of the rows below says of both levels together: user mode reaches a page iff it lies below 8 MiB and the directory is the kernel's; a page may be written iff it lies there or the kernel's directory maps it |
| Protection.BootIsGuarded | kernel/src/mm/vmm.c:13-66 | it holds after vmm_init, which opens the kernel's directory and its two tables to user mode and writing |
| Protection.MapKeepsGuard | kernel/src/mm/vmm.c:131-183 | a mapping above 8 MiB keeps it, half way too, if it asks for no user bit, and for the write bit exactly in the kernel's directory; a walk sets no protection bit |
| Protection.AllocKeepsGuard | kernel/src/mm/pmm.c:63-105 | page allocation keeps it; the page's entry in the kernel's map is present, writable and closed to user mode, and no other entry changes |
| Protection.CreateDirKeepsGuard | kernel/src/mm/vmm.c:68-94 | a new user directory keeps it: all its entries are closed to user mode, also those of the two tables that are open themselves |
| Protection.CreateKeepsGuard | kernel/src/process.c:11-82 | process creation keeps it, failing or not; the kernel stack at page 0x10000 and the program at page 0x80000 are read-only and closed to user mode |
| Protection.RunKeepsGuard | kernel/src/mm/pmm.c:63-114 | so does every run of alloc, free, create and terminate |
| Protection.UserModeReachesNothing | kernel/src/mm/vmm.c:68-183 | on every such run from boot, user mode reaches no page under any directory but the kernel's, so none of a live process's, and only low memory may be written there |
| Machine.Memory.InitPmm | kernel/src/mm/pmm.c:9-12 | both bitmaps empty |
| Machine.Memory.InitVmm | kernel/src/mm/vmm.c:13-66 | the three loops build the kernel directory and its two identity tables |
| Machine.Memory.IntrAllocPage | kernel/src/mm/pmm.c:42-52 | the in-place allocation is the value-level one |
| Machine.Memory.AllocPage | kernel/src/mm/pmm.c:63-105 | the in-place allocation is the value-level one, each panic told from the other, and the page handed out is zeroed |
| Machine.Memory.FreePage | kernel/src/mm/pmm.c:107-114 | clears that page's bit, ignoring addresses below 8 MiB |
| Machine.Memory.CreateUserPageDirectory | kernel/src/mm/vmm.c:68-94 | the fill loop makes the user directory: of its 1024 entries the first two are present, all are writable and none is open to user mode |
| Machine.Memory.DestroyUserPageDirectory | kernel/src/mm/vmm.c:96-113 | the double loop over entries frees exactly what the directory maps |
| Machine.Memory.TranslateAddress | kernel/src/mm/vmm.c:115-129 | reads the translation |
| Machine.Memory.WalkPgdir | kernel/src/mm/vmm.c:131-150 | the in-place walk is the value-level one |
| Machine.Memory.MapPage | kernel/src/mm/vmm.c:152-183 | the in-place loop, for every range: the value-level mapping for 0 < size and va + size <= 0xFFFFF000, and a failure for 0xFFFFF000 < va + size <= 2^32 |
| Process.CreateIsAllOrNothing | kernel/src/process.c:11-82 | for every program: a failure that is no panic leaves the pages in use, all live processes and the slot's being unused as they were; a success takes the first unused slot with the next pid, two pages that were free, the program at 0x80000000, and at 0x10000000 a kernel stack of zeros but for the context, to which the stack pointer translates and whose last word is 0x80000000 |
| Process.CopySpec | kernel/src/process.c:69 | copying the program through the kernel's map fills the page allocated last, and faults iff the program is longer than a page |
| CreateFate.CreateMeetsFate | kernel/src/process.c:11-82 | how a creation ends (each panic, the page fault of a program longer than a page, failure, success) and how many internal frames it takes, from what can be counted before it: slots, free frames, pages ever handed out, the least free page |
| CreateFate.FailedCreationKeepsFrames | kernel/src/process.c:32-66 | a failed creation keeps internal frames iff there was a slot and a frame for its directory |
| Scenarios.FirstCreationSucceeds | kernel/src/process.c:11-82 | after boot the first creation succeeds for every program of at most a page |
| Scenarios.LongProgramFaults | kernel/src/process.c:69 | after boot the first creation with a longer program ends in the kernel's page fault |
| Scenarios.SecondCreationPanics | kernel/src/process.c:11-101 | boot, create, terminate, create: the second creation ends in "Page already allocated" |
| Scenarios.FailureKeepsLastFrame | kernel/src/process.c:32-66 | a run: after enough allocations a creation fails and keeps the last internal frame |
| Process.CreateKeepsPids | kernel/src/process.c:27 | pids stay distinct until the 32-bit counter wraps |
| Process.PidFindsSlot | kernel/src/process.c:84-95 | looking a live process up by pid finds its own slot |
| Process.TerminateFreesOwnPages | kernel/src/process.c:84-101 | termination frees exactly the pages the process maps above 8 MiB, keeps every other process's pages in use and translations, and frees the slot |
| ProcessTable.Processes.Create | kernel/src/process.c:11-82 | the imperative creation with its five rollbacks is the value-level one |
| ProcessTable.Processes.Terminate | kernel/src/process.c:84-101 | the imperative termination is the value-level one |
| MemoryRuns.BootOk | kernel/src/mm/vmm.c:13-66 | the booted system is in order |
| MemoryRuns.RunKeepsGood | kernel/src/mm/pmm.c:63-114 | over every run of alloc, free, create and terminate, of any length, without a panic and with pids left for its creations, the kernel map holds and no two live processes share a page |
| MemoryRuns.BootedRunsAreGood | kernel/src/mm/pmm.c:9-114 | the same from boot on |
| MemoryRuns.FreedPagePanics | kernel/src/mm/pmm.c:86-100 | while any page handed out before is free, allocation ends in "Page already allocated", and so does every creation that gets a slot and a directory |
| MemoryRuns.CreateAfterTerminatePanics | kernel/src/process.c:84-101 | so after a process with a page is terminated, the next creation that gets a directory panics |
| Terminal.LayoutSnoc | kernel/src/drivers/tty.c:113-125 | one more character extends the last row, or starts a new one at a newline and after column 80; earlier rows never change |
| Terminal.ScreenShowsLastRows | kernel/src/drivers/tty.c:52-131 | after every sequence of characters and colour changes the screen shows the last 25 rows of the text's layout, and row and column are behind its last character |
| Terminal.LayoutGrows | kernel/src/drivers/tty.c:101-125 | a newline starts the next row, and so does the 80th character of a row; an empty text is one empty row |
| Terminal.ScreenCells | kernel/include/vga.h:29-31 | cell by cell: of 25 rows of 80 cells, one behind the other, the low byte is the character and the high byte its colour; blanks behind a row's end, in light grey on black on the first screen |
| Terminal.Screen.constructor | kernel/src/drivers/tty.c:52-66 | clears whatever the video memory held |
| Terminal.Screen.PutEntryAt | kernel/src/drivers/tty.c:68-72 | one cell changes |
| Terminal.Screen.Scroll | kernel/src/drivers/tty.c:83-99 | the copy and blank loops, for every line argument |
| Terminal.ScrolledRows | kernel/src/drivers/tty.c:83-99 | row by row: the bottom rows are blank, those above from the last but that many on move up by one, the others stay |
| Terminal.Screen.StartLine | kernel/src/drivers/tty.c:101-111 | the next row, scrolling at the bottom |
| Terminal.Screen.Put | kernel/src/drivers/tty.c:113-125 | the in-place update is the value-level one |
| Terminal.Screen.Puts | kernel/src/drivers/tty.c:127-131 | puts the characters one by one |
| Keyboard.ReaderGetsPrefix | kernel/src/drivers/keyboard.c:13-65 | for every interleaving with fewer than 256 unread characters the reader is given the first of the typed characters in order (which: `Keyboard.TypedCharacters`) |
| Keyboard.TypedCharacters | kernel/include/drivers/keyboard.h:33-109 | what is typed, key by key and without the tables: the three rows of letters, 32 lower when shift is held or caps lock is on but not both, and digits, signs and control characters alike either way; shift and caps lock by the history of keys 42, 54 and 58; nothing for releases |
| Keyboard.FullLooksEmpty | kernel/src/drivers/keyboard.c:48-59 | with 256 unread characters the ring looks empty: the 8-bit indices hold 255 |
| Keyboard.FullRingIsSilent | kernel/src/drivers/keyboard.c:48-59 | an input: after 256 presses of a key the reader is given nothing |
| Keyboard.OverrunGivesLastFirst | kernel/src/drivers/keyboard.c:48-59 | an input: after one more press, of another key, the reader is given that last character first |
| Keyboard.Controller.HandleInterrupt | kernel/src/drivers/keyboard.c:13-50 | the handler is the value-level step, on a status with its lowest bit set, and nothing else is |
| Keyboard.Controller.GetChar | kernel/src/drivers/keyboard.c:52-65 | it waits exactly while the ring is empty, handling the interrupts that come, then gives the next character and echoes it to the screen |

## Left out

- Device failure: sectors are always read and written; `set_fat_entry` results are ignored by the source as well.
- `kmalloc` always succeeds, and its blocks do not overlap; its free list is not modelled.
- `fat32_init`: the geometry it reads from the boot sector is a parameter that has to be consistent (`Volume.Geometry.Ok`, `Fits`), with 512-byte sectors; the disk of `FreshDevice` has no boot sector of its own.
- Directory entries with long names are skipped as the source skips them; their contents are not modelled.
- Chains.FreeIffUnchained: bad-cluster marks (0x0FFFFFF7) are excluded from tables, although the source would pass them over when it looks for a free cluster.
- The clock: creation and write times are a parameter (`Stamp`).
- `fat32_remove`, `fat32_rmdir`, `fat32_update_timestamps`: they rest on a `memcmp` that takes greater for equal, and the chain of a removed file is not freed.
- PathOps.CreateSucceedsIff: creations and updates whose parent path goes astray are outside the contracts of `CreateRun`, `MkdirRun` and `UpdateRun` (`PathOps.OnCourse`), and so of the methods for them; what the source then writes is in `StrayPaths`.
- FileSystem.FatFileSystem.Create: paths are taken whose directory part has at most 255 and whose last component at most 12 characters, which is what the source's buffers hold.
- OpenFile.File.Seek: a walk whose position has wrapped at 4 GiB and goes on behind it, which takes a chain longer than that, is outside the contract.
- OpenFile.File.Write: writes that move the offset to 4 GiB and beyond, where the 32-bit offset wraps, are outside the contract.
- Lines.ReadLine: the place behind the newline plus a cluster stays below 4 GiB, so that the seek to it does not wrap.
- Lines.ReadLines: so does the file's size plus a cluster.
- Config.GetStr: the same bound on the file's size.
- Runs.WholeRunSafety: writes are made from a file's last cluster, or inside a cluster before it, so not after a read or a failed seek to the end of a file that fills its chain (what those do is in `MidWrite`); seeks go to clusters that end below 4 GiB; two open files never share a chain. An open that finds nothing or a directory is a call; one that finds a file whose entry does not tell its start and size as they are, because they were not recorded after a write, or one that is open already, is none, and neither is a call on a path that goes astray.
- Volume.MountedVolume: sectors are a sequence field that methods reassign, not a byte array, and clusters are read into values instead of caller-supplied buffers.
- Machine.Memory.FreePage: the 31 pages behind the last whole bitmap word, whose bits lie outside the bitmap's array, are excluded; no such page is ever handed out.
- Machine.Memory.DestroyUserPageDirectory: a directory that maps one of the 31 pages behind the last whole bitmap word is excluded; no such page is ever handed out.
- Process.CreateIsAllOrNothing: page contents are those of the pages handed out; the kernel's copy goes through its own map, and the page fault is told by an outcome, not by the interrupt's path to `kpanic`.
- Paging.MapTranslates: caching, global and dirty bits of the entries, and the translation cache of the processor, are not modelled. Tables are read by physical frame, also after a mapping below 8 MiB has replaced the identity that the kernel itself runs on.
- MapLoop.LoopReturns: the same holds behind the wrap, where the kernel's own pages have been mapped elsewhere; what it would execute then is not modelled.
- MemoryRuns.RunKeepsGood: `pmm_intr_free_page` is not among the operations, since nothing calls it; runs with 2^32 and more creations, whose pids wrap, are excluded.
- `vmm_switch_kernel_page_directory`, called at `kernel/src/cpu/syscall.c:54`, maps the kernel stack's page in the kernel's own directory; after it the kernel's map of `MemoryRuns.RunKeepsGood` no longer holds and that page is open to user mode there, and it is not among the operations.
- Protection.UserModeReachesNothing: it tells what the entries allow; whether the processor holds the kernel itself to read-only pages is not modelled.
- ProcessTable.Processes.Terminate: a pid whose slot was terminated before, or never got a directory, is excluded; the source then walks that slot's old directory again.
- Terminal.Screen.Put: the hardware cursor ports are not modelled.
- Keyboard.Controller.GetChar: interrupts come between two looks at the ring, and not inside one.
- `kernel/src/scheduler.c`, interrupt and segment tables, assembly, port input and output, system call dispatch and formatted printing are not part of this model.
