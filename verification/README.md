# Verified models of zerOS components

This project models the parts of the operating system whose correctness is hardest to see by reading them, and proves
what they are for. Each model follows the branches, loops, constants and error returns of the C source. Where the
source updates state in place, the model is a class or a method on an array, proved against specification functions;
what the code promises is then proved about those functions.

Check everything with `dafny verify dfyconfig.toml` (Dafny 4.11).

## The models

**FAT volume** (`FatTable`, `FatChain`, `FatFile`, `FatDir`, `FatState`, `FatSteps`, `FatDirSteps`, `FatDriver`,
`FatPath`, `FatNames`, `FatText`, `FatFormat`, `FatMount`, `FatLayout`, `FatLost`, over `Bytes`). A disk is a sequence
of 512-byte sectors with any geometry; FAT16 and FAT32. `FatDriver.Volume` is the driver: a sector buffer, a descriptor
table, the rotating allocation hint, and one method per function of the source, sector by sector. The ghost map `nodes`
says which clusters every file and directory owns. The invariant `FatState.Inv` ties it to the disk: copies of the table
agree, chains are linked, finite and pairwise disjoint, long enough for the sizes, directories have no live entry behind
an end marker and no name twice, every live entry is a known node, and an entry agrees with its node unless the file is
open for writing, in which case the descriptor stands in for the entry. A file may be open several times for reading,
once for writing. Every method keeps the invariant or says exactly when it does not. Above it, `FatPath` shows the
volume as a map from paths to bytes and says what opening, creating, truncating, deleting and making directories do to
that map; `FatText` splits path texts and opens what they stand for, with the second lookup by the text behind the last
slash. `FatMount` reads the boot sector and shows that the disks the repository's formatter makes start in the
invariant; `FatLayout` writes boot sectors and directory entries out field by field and shows that the driver reads them
so; `FatLost` says what the second lookup can leave behind.

**Processes without an MMU** (`Pages`, `ProcImages`, `ProcPlan`, `ProcTable`, `ElfFile`, `ElfLayout`, `ProcKernel`,
`ProcEntry`, `ProcRun`, `ProcStray`). Programs share link addresses, so images are swapped to heap pages and back.
`ProcKernel.Kernel` has memory, the page bitmap, the process table and the wait stack, and methods for eviction,
swap-in, loading, spawn, wait, exit, yield, kill and reap. What a program sees is its logical image: its shadow while
evicted, memory at its link address otherwise. `ProcPlan` computes beforehand what a scan for images in the way does to
the page map and the table, so that the contracts say when an image comes back as a condition on the state before the
call. For every call a function (`RunFrom`, `StartedFrom`, `LeftFrom`, `YieldedFrom`, `WaitedFrom`, `KilledFrom`) gives
the page map, the table, who runs and the wait stack afterwards. `ProcRun.Run` executes any sequence of system calls and
stores, up to the first that leaves the wait stack out of order, and records the moments it goes through. From that
history follow the list of all stores and the map of all images loaded, and every image is what was loaded for its
process, changed by exactly the stores that went into it. A child that is handed control is entered at its file's entry,
on top of its own stack, or where it gave control back last.

**In-memory files** (`VfsPath`, `VfsTree`, `VfsFiles`, `Vfs`, `VfsStatus`). Path normalisation in its fixed buffers, the
node table as a tree, and files whose bytes lie in pages of the shared page map. `Vfs.Volume` is the file system:
lookup, making, writing, opening, reading and removing, each proved against a map from paths to what is there;
`VfsStatus` says what each call answers in terms of that map.

**Both together** (`Machine`). Processes and files on one page map and one memory. `Machine.Joint` says what each side
knows of the other's pages; every process step and every file system call keeps it and leaves the other side's contents.
`RunBoth` runs any interleaving, up to the first act that leaves the wait stack or a descriptor out of order, and its
history says what each act did to the processes, to the descriptors and to what every path leads to.

**minipy front end** (`PyTokens`, `PyLexer`, `PyLayout`, `PyCover`, `PyGrammar`, `PyParser`, `PyBalance`, `PyWhole`,
`PyPrint`, `PyPrecedence`, `PySpelt`, `PyForms`, `PyShow`, `PyText`). The indentation lexer with its fixed token array,
the recursive-descent parser as a class that moves a position forward, a grammar it is proved against, the block
structure that lexer and parser agree on, exactly which sources lose a statement, and a printer for whole programs that
lexing and parsing undo. Both directions are there: what is printed is read back, and whatever lexes is words, blanks
and comments (`PyCover`), whatever parses follows the rules of the grammar (`PySpelt`, `PyForms`). `PyLayout` says which
layout does not matter, `PyPrecedence` how operators bind.

**minipy evaluator** (`PyEnv`, `PyEval`, `PyScope`, `PyOrder`, `PyFuel`, `PyLaws`, `PyPrograms`, `PyContext`).
`PyContext.Context` is the evaluator with its one array of slots for all names, updated in place and proved equal to the
specification in `PyEval`; `PyScope` says what a call does to the names it binds, `PyOrder` in which order built-in
functions are asked, `PyLaws` what operators compute by the laws they obey, and `PyPrograms` what small programs come
to. Integers wrap at 32 bits. `fuel` bounds the depth of calls and only bounds it.

**Event queue and initial ramdisk** (`EventRing`, `Initrd`). A window's ring buffer as a queue that merges pointer moves
and resizes; the packer of the ramdisk image and the unpacker's loop, with its offsets in 32 bits.

**Clock and drawing** (`Rtc`, `Paint`, `PaintMaze`). Calendar conversion, the one-second step and the tick catch-up of
the wall clock; Bresenham's line and the flood fill with its bounded stack.

## Where the code falls short

* `LostWithoutNewline`: the source `if x:` without a newline parses as the empty module. `SourceWhole`: a source that
  lexes loses a statement if and only if its last token, dedents and end aside, is a colon; with a final newline none is
  lost (`SourceParses`).
* `ProcStray.Stray`: from the start, on a heap that is just large enough, a program that starts itself again goes on
  running while its image is swapped out, and what it stores goes into the other process's image; its own store is lost
  to it. `Spawn`, `ReturnToKernel`, `Exit` and `YieldToParent` say exactly when the process that then runs has its image
  in memory, as a condition on the state before the call; `StorePrivate` says exactly when its stores are private.
* `Kill` of a process that waits gives up the row of the one that is running, which descends from it; of any other
  process it leaves the wait stack alone. `RunBlocking` and `Wait` keep the wait stack a line of parents if and only if
  the process waited for is a child.
* `ProcStray.Failed`: on a heap with room for the image but not for the stacks, a program that starts itself again gets
  an error, and goes on running although its image is swapped out. `RunsOn` says exactly when a spawn leaves its caller
  in memory.
* A call of a minipy function with two parameters of the same name does not restore the binding. `CallRestores`: each
  name is bound as it was just before the argument of its last occurrence, so `CallRestoresAt`: what was bound before an
  earlier argument comes back if and only if that is the same. `CallLeaves` says what stays behind when the arguments
  call nothing, and `DuplicateLeaks` shows it for any body.
* `PrefixBinds`: `not a == b` is `(not a) == b`, as `not` binds like a sign. `FallsOff`: a function that ends without a
  `return` gives the value of its last statement.
* `Vfs.Volume.WriteFile` on a full heap leaves a new empty file behind, and `Open` truncates before it finds that there
  is no descriptor left. `WriteFile`, `Open` and `Unlink` leave a descriptor behind the end of its file, or on a node
  that is gone, if and only if one is open there (`Needed`).
* `FatOpen` looks a file up again by the text behind the path's last slash. It is tied to the descriptor if and only if
  that text packs to the path's last name (`OpenText`), which it does if it is not empty and fits (`LeafFits`); it is
  empty if and only if the path ends in a slash (`LeafLost`). Otherwise another file may be opened and emptied instead,
  or the descriptor has no entry. `OpenAndClose`: opening and closing then leaves a disk that no account of its files
  fits if and only if the file had clusters and was emptied. `HelloLost` shows it for `/disk/hello.txt/` on the
  formatter's own disk.
* `FatUnlink` of a file that is open leaves a disk that no account fits, and of any other a sound one.
* `FromUnix32` yields the right date exactly for times before 2101. `NotAhead`: the clock is behind by whole turns of
  the tick counter if and only if some read came a whole turn late.
* `BufferedTwice`: normalising a path twice is normalising it once unless the buffer had room for a slash but not for
  the component behind it.
* `RoundsEnd`: the unpacker of the ramdisk stops behind the records that can be read if and only if no file's end wraps
  around at 32 bits; on `Loop` it never stops (`LoopsForever`). Packed ramdisks are not of that kind
  (`PackedUnwrapped`).
* `MadeMounts`: the formatter's volumes are sound exactly up to 128 MiB, which it does not check.
* `PackedReadsBack` and `PackedLinks`: which path components survive packing to eleven bytes, and which collide with a
  directory's links to itself and its parent. `LongSplits`: a component of more than 15 characters names a file in a
  directory.
* The range check of a flood fill's stack drops pixels when it is full. `FloodFill`: with three places per pixel of the
  component and one more the component is filled. `CorridorUnfinished`: on the real canvas and stack a corridor of 32160
  pixels is left after 1647.

## Model

| member | source | states |
|---|---|---|
| FatDriver.Volume.constructor | kernel/fs/fat.c:509-554 | a volume of a given layout that satisfies the invariant starts with nothing open |
| FatDriver.Volume.FatGet | kernel/fs/fat.c:82-98 | reads the table entry, reserved bits masked |
| Bytes.LowFirst | kernel/fs/fat.c:82-98 | words are read as the machine keeps them, low byte first |
| FatDriver.Volume.FatSet | kernel/fs/fat.c:100-127 | changes that one entry in every copy, keeps FAT32's reserved bits and every other entry, and copies that agreed still agree |
| FatTable.SetOneEffect | kernel/fs/fat.c:100-127 | one sector write changes one entry of one copy and no other, wherever entries share sectors |
| FatChain.FreedExactlyReached | kernel/fs/fat.c:500-507 | on every table with entries in range, cyclic ones included, freeing clears exactly the clusters reached by following links from the start |
| FatChain.FreedIsCleared | kernel/fs/fat.c:500-507 | freeing a proper chain returns exactly its clusters |
| FatChain.ChainUnique | kernel/fs/fat.c:499-507 | a first cluster has at most one chain |
| FatChain.LinkedChain | kernel/fs/fat.c:330-353 | a chain grown by a free cluster is a chain; every disjoint chain is untouched |
| FatDriver.Volume.FreeChain | kernel/fs/fat.c:500-507 | ends on every table in range and leaves the freed table |
| FatDriver.Volume.AllocCluster | kernel/fs/fat.c:330-353 | claims a free cluster and fails only if there is none, wherever the rotating hint stands |
| FatDriver.Volume.ZeroCluster | kernel/fs/fat.c:355-364 | zeroes that cluster's sectors and changes no other sector |
| FatDriver.Volume.ClaimCluster | kernel/fs/fat.c:721-732 | a claimed cluster is linked behind the chain and zeroed; a full disk changes nothing |
| FatFile.PatchedBytes | kernel/fs/fat.c:738-760 | patching a sector of a chain is overwriting the flat bytes it holds |
| FatFile.ContentFrame | kernel/fs/fat.c:699-772 | a file's bytes depend on its own clusters only |
| FatDriver.Volume.FatRead | kernel/fs/fat.c:653-697 | returns exactly the bytes from the position on, as many as asked for or left, and moves the position past them; errors as in the source |
| FatDriver.Volume.FatWrite | kernel/fs/fat.c:699-772 | replaces exactly the bytes it reports from the position on, also when the disk fills midway, falls short only if the disk is full, and changes no other file or directory |
| FatDriver.Volume.SeekCluster | kernel/fs/fat.c:721-737 | at a cluster boundary behind the end the chain grows by one cluster before writing |
| FatDriver.Volume.AdvanceCluster | kernel/fs/fat.c:753-768 | inside a write the chain grows at each boundary until the disk is full |
| FatDriver.Volume.UpdateDirent | kernel/fs/fat.c:483-498 | the entry then names the descriptor's first cluster and size, nothing else is seen to change; without an entry nothing happens |
| FatDriver.Volume.FatClose | kernel/fs/fat.c:642-651 | frees the descriptor, writes the entry back if it was open for writing, changes no file and no directory; a descriptor that names no entry is freed and the disk left as it is |
| FatDriver.WrittenThen | kernel/fs/fat.c:699-772 | successive partial writes add up to one write of all their bytes |
| FatSteps.WriteFile | kernel/fs/fat.c:738-752 | writing within an open file's clusters keeps the invariant and every other file |
| FatSteps.GrowFile | kernel/fs/fat.c:721-737 | a file open for writing may grow; all chains stay disjoint and its bytes stay |
| FatSteps.DirentStep | kernel/fs/fat.c:483-498 | rewriting an open file's entry keeps names, files and invariant |
| FatSteps.CloseStep | kernel/fs/fat.c:642-651 | once the entry is written back the descriptor may go |
| FatDirSteps.TruncStep | kernel/fs/fat.c:626-631 | between freeing the chain at open and rewriting the entry the invariant holds with the descriptor in place of the entry |
| FatDir.LookupFinds | kernel/fs/fat.c:205-265 | scanning entries up to an end marker is lookup in the directory's map of names |
| FatDir.EntryCreated | kernel/fs/fat.c:450-481 | filling the first free entry adds exactly that name, also where it was the end marker |
| FatDir.EntryDeleted | kernel/fs/fat.c:974-978 | marking an entry removes exactly its name; all others are found where they were |
| FatDir.DirGrown | kernel/fs/fat.c:366-417 | a directory longer by blank sectors has the same names at the same places |
| FatDriver.Volume.FindInDir | kernel/fs/fat.c:205-265 | finds a name if and only if the directory has it, and where it is |
| FatDriver.Volume.FindFreeSlot | kernel/fs/fat.c:366-417 | the first usable entry, in a cluster added if need be; fails if and only if none is left in the flat root or in the directory's clusters with no cluster free |
| FatDriver.Volume.CreateEntry | kernel/fs/fat.c:450-481 | the name is new in its directory, at the place reported, for a file without clusters or a directory with one; fails if and only if the directory is full and cannot grow |
| FatDriver.Volume.OpenFile | kernel/fs/fat.c:616-640 | truncation frees exactly the file's chain; the new descriptor has the file's start and size, at 0 or the end |
| FatDriver.Volume.OpenEntry | kernel/fs/fat.c:576-640 | when opening a name creates, when it truncates, exactly when each error arises, for lack of an entry or of a descriptor included, and that no other file changes |
| FatDriver.Volume.FatOpen | kernel/fs/fat.c:576-640 | opens the entry wanted, another file's, another directory or the file without its entry, by what the second lookup finds; the invariant holds afterwards in all cases but the last |
| FatDriver.Volume.DirIsEmpty | kernel/fs/fat.c:910-952 | tells whether the directory holds anything but links |
| FatDriver.Volume.FatUnlink | kernel/fs/fat.c:954-987 | removes exactly that name and frees exactly its chain, or says why not and changes nothing; the disk is sound afterwards if and only if no descriptor is on a file that went |
| FatDriver.Volume.FatMkdir | kernel/fs/fat.c:774-813 | adds one empty directory whose first two entries are directories named "." with its own first cluster and ".." with its parent's, or changes nothing that can be seen; exactly when there is no space |
| FatPath.PathsUnique | kernel/fs/fat.c:267-319 | two paths to the same file or directory are the same path |
| FatPath.ReachStep | kernel/fs/fat.c:267-319 | changing one name of one directory changes what one path leads to |
| FatPath.Walk | kernel/fs/fat.c:419-448 | following components reaches a directory if and only if the path leads to one, and gives that directory's first cluster |
| FatPath.OpenPath | kernel/fs/fat.c:576-640 | the map from paths to bytes changes at that path only, or at the one the second lookup finds, as creating and truncating say; exactly when each error arises; the descriptor is on the file at the path if and only if it is found again by its own name |
| FatPath.UnlinkPath | kernel/fs/fat.c:954-987 | exactly that path goes, and exactly its clusters are freed; exactly when the disk is sound afterwards |
| FatPath.MkdirPath | kernel/fs/fat.c:774-813 | exactly that path becomes a directory, with links to its own first cluster and to that of the directory its parent's path leads to; no file is seen to change; exactly when each error arises |
| FatPath.WriteView | kernel/fs/fat.c:699-772 | a write through a descriptor is a flat overwrite at the file's one path and nowhere else |
| FatNames.Name83 | kernel/fs/fat.c:136-162 | packs a component as specified |
| FatNames.Decode83 | kernel/fs/fat.c:164-186 | reads a packed name as specified and never overruns its buffer |
| FatNames.PackedReadsBack | kernel/fs/fat.c:136-186 | packing and reading back gives the lower-case component if and only if it is a valid 8.3 name |
| FatNames.UnpackedPacksBack | kernel/fs/fat.c:136-186 | packing the text of a stored name gives the stored name |
| FatNames.LinksReadAsDots | kernel/fs/fat.c:928-931 | which stored names read as links, as the emptiness test takes them |
| FatNames.PackedLinks | kernel/fs/fat.c:136-162 | which components pack to such a name |
| FatText.NextComponent | kernel/fs/fat.c:188-203 | takes exactly the next component off, cut at 15 characters |
| FatText.Split | kernel/fs/fat.c:419-448 | splitting and packing a path text gives its path |
| FatText.PartsJoin | kernel/fs/fat.c:188-203 | a slash puts the components of two texts side by side; doubled and trailing slashes change nothing |
| FatText.JoinedParts | kernel/fs/fat.c:188-203 | components that fit, joined by slashes, are split as they were joined |
| FatText.LongSplits | kernel/fs/fat.c:188-203 | a component that is too long becomes two or more |
| FatText.SameFile | kernel/fs/fat.c:267-319 | two texts lead to the same file if and only if their components pack alike |
| FatText.OpenText | kernel/fs/fat.c:576-640 | what opening a path text does, by what the text behind its last slash finds; the descriptor is on the file the text stands for if and only if that text packs to its last name |
| FatText.LeafIsLast | kernel/fs/fat.c:596-606 | the text behind the last slash is the last component if it is there and fits |
| FatText.LeafFits | kernel/fs/fat.c:596-606 | then a file is looked up again by its own name, with or without the volume's name in front |
| FatText.LeafLost | kernel/fs/fat.c:596-606 | it is looked up by no name if and only if the path ends in a slash |
| FatText.LeafCut | kernel/fs/fat.c:596-606 | whatever is in front, it is looked up by the first 15 characters behind the last slash |
| FatLost.DirsSame | kernel/fs/fat.c:500-507 | giving a file's clusters back leaves every account of the disk with the directories that paths lead to |
| FatLost.GoneStart | kernel/fs/fat.c:623-640 | when the clusters are free and the entry still names them, no account of the disk is in order |
| FatLost.LostClosed | kernel/fs/fat.c:596-651 | closing a descriptor that names no entry leaves a sound disk if and only if no clusters were given back |
| FatLost.OpenAndClose | kernel/fs/fat.c:576-651 | opening and closing what any path text stands for leaves a sound disk unless the file had clusters, was emptied and was not found again |
| FatLost.HelloLost | kernel/fs/fat.c:576-651 | on the formatter's disk that happens for this very text |
| FatFormat.FormattedStarts | kernel/fs/fat.c:509-554 | the invariant holds on every freshly formatted volume, whatever entries 0 and 1 hold |
| FatMount.Mount | kernel/fs/fat.c:509-554 | reads the layout from the boot sector; refuses exactly what is no boot sector of 512-byte sectors |
| FatMount.TableSectors | scripts/mkfat.py:17-26 | the formatter's search for a table size ends, with two sectors per MiB |
| FatMount.MadeMounts | scripts/mkfat.py:27-53 | mounting reads the formatter's layout back, and it is sound if and only if the volume has at most 128 MiB |
| FatMount.MadeInv | scripts/mkfat.py:27-77 | what the formatter writes satisfies the invariant of a mounted volume |
| FatMount.MadeHolds | scripts/mkfat.py:65-77 | it holds one file, at its path, with the greeting |
| FatLayout.BootReads | kernel/fs/fat.c:509-554 | from a boot sector written field by field, of either kind, mounting reads that layout |
| FatLayout.FormattedMounts | kernel/fs/fat.c:509-554 | such a volume, FAT32 included, mounts and satisfies the invariant once formatted |
| FatLayout.EntryReads | kernel/fs/fat.c:205-265 | name, attribute, first cluster and size of an entry are read where FAT has them |
| FatLayout.FieldsSet | kernel/fs/fat.c:483-498 | bringing an entry up to date sets its cluster and size and nothing else |
| FatLayout.NewEntryIs | kernel/fs/fat.c:450-481 | a new entry has its name, its kind and its cluster, and zeros |
| FatLayout.KindsOf | kernel/fs/fat.c:205-265 | files, directories, volume labels and pieces of long names are told apart by their attributes |
| Pages.WithBitReads | kernel/core/mm.c:11-22 | setting a bit of a byte changes that bit only |
| Pages.RoomFound | kernel/core/mm.c:32-53 | the scan finds room if and only if that many free pages lie together |
| Pages.RunCounts | kernel/core/mm.c:32-53 | an allocation takes exactly its number of pages |
| Pages.RunBack | kernel/core/mm.c:55-66 | giving the same run back restores the map |
| Pages.PageMap.Alloc | kernel/core/mm.c:32-53 | the lowest run of free pages, none only if there is none; marks exactly that run |
| Pages.PageMap.Free | kernel/core/mm.c:55-66 | clears exactly the run, as far as it lies in the map |
| Pages.PageMap.PhysUsed | kernel/core/mm.c:79-86 | bytes of all marked pages |
| ProcImages.EvictOne | kernel/proc/proc.c:40-65 | copying a live image to free pages keeps every image and the page accounting |
| ProcImages.RestoreOne | kernel/proc/proc.c:98-103 | copying it back where nobody lives keeps every image and returns exactly its pages |
| ProcImages.DropRow | kernel/proc/proc.c:549-562 | a reaped process's three runs were its alone |
| ProcPlan.RoomAhead | kernel/proc/proc.c:40-104 | whether there is room for what is still in the way does not depend on the rows seen to |
| ProcPlan.SweepOne | kernel/proc/proc.c:40-104 | swapping out the next image in the way leaves what the whole scan comes to as it was computed beforehand |
| ProcKernel.Kernel.constructor | kernel/proc/proc.c:106-120 | process 1 runs and nothing else exists |
| ProcKernel.Kernel.EvictRange | kernel/proc/proc.c:40-65 | afterwards no live image meets the range, or one in the way had nowhere to go; which, and the whole page map and table, follow from the state before; every image is kept either way |
| ProcKernel.Kernel.EnsureResident | kernel/proc/proc.c:67-104 | the image is in memory if and only if it was, or the scan of the state before finds room for every image in its way; every image is kept either way |
| ElfFile.ImageByte | kernel/proc/elf.c:72-81 | a byte of an image comes from the last segment over it, from the file or 0 |
| ElfFile.ImageGap | kernel/proc/elf.c:70 | a byte under no segment is 0 |
| ElfFile.FindSpan | kernel/proc/elf.c:49-62 | the least range over all loaded segments, or none if one is misplaced or nothing is loaded |
| ElfLayout.ExecutableReads | kernel/proc/elf.c:28-62 | from headers written field by field the entry and all segments are read |
| ProcKernel.WholePages | kernel/proc/elf.c:64-70 | zeroing up to the end of the last page touches no image outside the evicted range |
| ProcKernel.Kernel.ElfLoad | kernel/proc/elf.c:28-88 | memory then shows the image of the file where no live image is; a failure at any point loses no image |
| ProcKernel.Kernel.Spawn | kernel/proc/proc.c:329-442 | a new child with the next pid whose image is the file's, whether it is resident or already swapped out again, entered at the file's entry with its stack pointer 32 bytes below the end of its stack; every failure keeps all images; result, table, page map and whether the caller is in memory follow from the state before |
| ProcKernel.Kernel.RunBlocking | kernel/proc/proc.c:483-534 | the process runs with its image in memory and the caller waits, or nothing changes hands; exactly when each happens, and when the wait stack stays a line of parents |
| ProcKernel.Kernel.ReturnToKernel | kernel/proc/proc.c:444-481 | the process that waited runs again; its image is in memory if and only if it was or there is room for every image in its way |
| ProcKernel.Kernel.Exit | kernel/proc/proc.c:536-545 | the parent resumes with pid and exit code, the child's row and pages are gone, all other images stay; exactly when the parent's image is in memory |
| ProcKernel.Kernel.YieldToParent | kernel/proc/proc.c:630-642 | the parent resumes; the child will go on exactly where its trap frame says, with that frame's instruction and stack pointers; exactly when the parent's image is in memory |
| ProcKernel.Kernel.Wait | kernel/proc/proc.c:650-686 | which process it is about, each of its outcomes, and exactly when the wait stack stays in order |
| ProcKernel.Kernel.Reap | kernel/proc/proc.c:549-562 | gives up a zombie's row and exactly its pages |
| ProcKernel.Kernel.KillOne | kernel/proc/proc.c:564-589 | ends because pids increase downwards; a zombie remains, everything reached through processes that are no zombies is gone, every other row is as it was |
| ProcKernel.Kernel.Kill | kernel/proc/proc.c:591-604 | the same for a pid, with exit code 137 for one that was no zombie yet; the wait stack is untouched if and only if the process does not wait, else the running process's row is given up |
| ProcKernel.Kernel.Store | kernel/proc/proc.c:64-104 | a store changes the image that lies at its address in memory, and no other |
| ProcKernel.StorePrivate | kernel/proc/proc.c:64-104 | stores at an address leave every other image alone, whatever is stored, if and only if no other image lies there in memory |
| ProcKernel.KilledRunning | kernel/proc/proc.c:564-604 | killing a process that waits gives up the row of the one that runs |
| ProcTable.LineUnder | kernel/proc/proc.c:483-534 | whoever is further along the wait stack descends from everybody before |
| ProcTable.LineIncreases | kernel/proc/proc.c:483-534 | pids increase along the wait stack, so nobody waits twice |
| ProcTable.HandOver | kernel/proc/proc.c:492-523 | waiting puts the child on top: each waits for its child and only the last runs |
| ProcTable.HandBack | kernel/proc/proc.c:444-470 | leaving or yielding takes it off again |
| ProcTable.UnderOne | kernel/proc/proc.c:572-579 | the descendants of two siblings are apart |
| ProcTable.LineNotUnder | kernel/proc/proc.c:591-604 | nobody who waits, nor the one who runs, descends from a process outside the wait stack |
| ProcTable.ChildWhole | kernel/proc/proc.c:572-579 | when its turn comes a child and its subtree are untouched by the loop so far |
| ProcRun.Do | kernel/proc/proc.c:329-686 | one step takes the moment before to the one its function says; what was loaded and stored grows by what that step loads and stores, and accounts for every image; exactly when the wait stack stays in order |
| ProcRun.Run | kernel/proc/proc.c:329-686 | over every run each step does what its function says; every image is what its start loaded, changed by the stores that went into it; every child started in the run is entered at its file's entry, or where it gave control back last; all computed from the steps and the moments they were taken at |
| ProcRun.StepPoised | kernel/proc/proc.c:329-686 | a step leaves every process started in the run ready to be entered where it should be |
| ProcEntry.StartedPoised | kernel/proc/proc.c:432-441 | a started process waits to be entered at its file's entry, everyone else as before |
| ProcEntry.ChildIdle | kernel/proc/proc.c:483-534 | a child that is waited for was not running, so it is entered as it was left |
| ProcRun.RunPrivate | kernel/proc/proc.c:64-104 | over a run every store is its own image's doing if and only if none is made where another image lies |
| ProcRun.HitOwn | kernel/proc/proc.c:64-104 | a store goes into its own image, or nowhere, if and only if no other image lies there; otherwise the one that stores is swapped out |
| ProcStray.SecondSpawn | kernel/proc/proc.c:329-442 | on a heap that is just large enough a program that starts itself again is left swapped out |
| ProcStray.BackStuck | kernel/proc/proc.c:444-481 | and is still so when the new process has run and yielded |
| ProcStray.Stray | kernel/proc/proc.c:329-648 | reached from the start: the running process's store goes into the other one's image |
| ProcStray.FailedSpawn | kernel/proc/proc.c:329-442 | with room for the image but not for the stacks the spawn fails and leaves its caller swapped out |
| ProcStray.Failed | kernel/proc/proc.c:329-442 | reached from the start: the running process gets the error while its image is swapped out |
| ProcStray.TinySmall | kernel/proc/elf.c:28-88 | there is such a program |
| Machine.PagesApart | kernel/core/mm.c:32-66 | over all files, shadows and stacks every owned page has one owner and is marked |
| Machine.AfterKernel | kernel/proc/proc.c:40-442 | after any step of the processes the files' bytes and pages are what they were |
| Machine.AfterFiles | kernel/fs/vfs.c:157-374 | after any call to the file system the images and the processes' pages are what they were |
| Machine.ProcStep | kernel/proc/proc.c:329-686 | a process step does what its function says and keeps the joint invariant, every descriptor and what every path leads to; what was loaded and stored grows by that step's |
| Machine.FileStep | kernel/fs/vfs.c:157-374 | a file system call does to every path and descriptor what it should, keeps the joint invariant, the processes and every image; exactly when it strands a descriptor |
| Machine.RunBoth | kernel/fs/vfs.c:157-374 | over every interleaving from the start each act does just that; every image is accounted for by the starts and stores among the acts, every path by the calls among them |
| Machine.StoresPrivate | kernel/proc/proc.c:64-104 | over an interleaving every store is its own image's doing if and only if none is made where another image lies |
| VfsPath.Normalize | kernel/fs/vfs.c:33-77 | what the fixed buffers hold for any path |
| VfsPath.FittingNormalized | kernel/fs/vfs.c:33-77 | for a path that fits that is its normal form |
| VfsPath.CompsConcat | kernel/fs/vfs.c:46-61 | two paths with a slash between have the components of both |
| VfsPath.NormTwice | kernel/fs/vfs.c:33-77 | normalising twice is normalising once |
| VfsPath.NormJoin | kernel/fs/vfs.c:33-77 | the part in front of a slash may be normalised first |
| VfsPath.NamesKept | kernel/fs/vfs.c:46-61 | a path of names only keeps exactly its components |
| VfsPath.NormDown | kernel/fs/vfs.c:46-61 | a name goes down: the components are those in front of it, and it |
| VfsPath.NormUp | kernel/fs/vfs.c:55-59 | two dots go up one component, and stay at the root |
| VfsPath.DotsAtEnd | kernel/fs/vfs.c:53-59 | a name and two dots behind it, or one dot, at the end of a path change nothing |
| VfsPath.DotsInside | kernel/fs/vfs.c:46-61 | the same anywhere inside a path |
| VfsPath.BufferedTwice | kernel/fs/vfs.c:33-77 | in the fixed buffers normalising twice is normalising once if and only if the result is the root or does not end in a slash |
| VfsPath.BufferedJoin | kernel/fs/vfs.c:33-77 | for paths that fit the part in front of a slash may be normalised first, in the fixed buffers too |
| VfsPath.BufferedDots | kernel/fs/vfs.c:33-77 | a name and two dots behind it vanish in the fixed buffers too, for paths that fit |
| VfsTree.PathUnique | kernel/fs/vfs.c:89-115 | two paths to one node are the same path |
| VfsTree.GrownFind | kernel/fs/vfs.c:171-178 | a new child adds one path and changes none |
| VfsTree.PrunedFind | kernel/fs/vfs.c:362-373 | a removed child takes one path away and changes none |
| VfsFiles.Moved | kernel/fs/vfs.c:318-337 | a file that moves to other pages keeps the account of all pages |
| VfsFiles.ViewWritten | kernel/fs/vfs.c:308-341 | changing one file's bytes changes what one path leads to |
| Vfs.Volume.Lookup | kernel/fs/vfs.c:89-115 | finds the node of a path in the tree, and none if there is none |
| Vfs.Volume.EnsureParent | kernel/fs/vfs.c:117-143 | where the last name belongs, or why nowhere |
| Vfs.Volume.Mkdir | kernel/fs/vfs.c:157-179 | exactly that path becomes a directory; exactly when each error arises |
| Vfs.Volume.WriteFile | kernel/fs/vfs.c:181-217 | exactly that path then has the bytes; exactly when each error arises, and what is left behind; descriptors stay in order if and only if none stands behind the new end |
| Vfs.Volume.Grab | kernel/fs/vfs.c:318-337 | a longer run of pages, the bytes copied over, the old run given back; fails if and only if there is no room |
| Vfs.Volume.Open | kernel/fs/vfs.c:245-273 | what opening does to the path and to the descriptors, and exactly when each error arises; the others stay in order if and only if none stands inside a file that is emptied |
| Vfs.Volume.Write | kernel/fs/vfs.c:308-341 | a flat overwrite at the descriptor's position, at the file's one path and nowhere else; exactly when each error arises |
| Vfs.Volume.Read | kernel/fs/vfs.c:285-306 | the bytes from the position on, as many as asked for or left |
| Vfs.Volume.Unlink | kernel/fs/vfs.c:343-374 | exactly that path goes and exactly its pages are given back, or why not; descriptors stay in order if and only if none is open on it |
| VfsStatus.MkdirMeans | kernel/fs/vfs.c:157-179 | making a directory is refused exactly if something is there, its parent is no directory or its path was cut short, or there is no room |
| VfsStatus.WriteMeans | kernel/fs/vfs.c:181-217 | writing a file is refused exactly at directories and without a parent directory, and else only for want of room |
| VfsStatus.UnlinkMeans | kernel/fs/vfs.c:343-374 | removing is refused exactly for the root, for what is not there, for the two fixed directories and for a directory with something in it |
| PyLexer.TokensNested | py/lex.c:114-270 | tokens of a newline-terminated source are balanced, never below zero, with one EOF at the end and block structure only at line starts |
| PyLexer.Lex | py/lex.c:114-270 | succeeds if and only if the source has no error and all its tokens fit; then none is missing although operators ignore a full array |
| PyLexer.Lexer.PushTok | py/lex.c:41-55 | appends if there is room, and says so |
| PyLexer.Lexer.EmitIndent | py/lex.c:78-112 | opens one indentation, closes as many as are deeper, or rejects |
| PyLexer.Lexer.ScanToken | py/lex.c:142-259 | one token as specified |
| PyLexer.ValueDecimal | py/lex.c:169-177 | a number read digit by digit in 32 bits is what its digits stand for, wrapped once |
| PyLayout.CommentIgnored | py/lex.c:146-150 | a comment at the end of a line of code, or at the end of the source, changes no token |
| PyLayout.LineIgnored | py/lex.c:78-87 | a line of blanks and a comment adds one newline and no block structure |
| PyLayout.BlankIgnored | py/lex.c:142-145 | a blank where no two tokens would merge changes no token |
| PyLayout.BlanksIgnored | py/lex.c:142-145 | nor do any number of blanks |
| PyLayout.SlashesAlike | py/lex.c:209-218 | one slash and two are the same operator |
| PyLayout.QuotesAlike | py/lex.c:179-195 | single and double quotes make the same literal |
| PyLayout.AdjustedWhen | py/lex.c:92-111 | an indentation is accepted if and only if it is one of the open ones, or deeper with room for one more |
| PyLayout.TabRefused | py/lex.c:88-91 | a tab among the spaces a line begins with is refused, whatever follows |
| PyCover.SourceCovered | py/lex.c:142-259 | every source that lexes is words, blanks, comments and newlines from end to end, and its tokens are those words and newlines and the block structure |
| PyCover.CharKnown | py/lex.c:142-259 | exactly which single characters are a source |
| PyParser.Parser.ParseExpr | py/parse.c:285-288 | result, position and message are those of the grammar |
| PyParser.Parser.ParseOr | py/parse.c:269-283 | the loop joins operands to the left as the grammar does |
| PyParser.Parser.ParsePrimary | py/parse.c:87-182 | atoms and subscripts |
| PyParser.Parser.ParseSuite | py/parse.c:296-318 | block or one statement |
| PyParser.Parser.ParseStmt | py/parse.c:400-480 | one statement, or a silent failure |
| PyParser.Parser.ParseBlock | py/parse.c:482-506 | statements up to DEDENT or EOF |
| PyParser.Parser.ParseModule | py/parse.c:508-536 | result, position and message of the whole module |
| PyBalance.StatementBalanced | py/parse.c:400-480 | on any tokens a statement that parses takes a balanced segment, and so does one that stops silently |
| PyLexer.TokensLexical | py/lex.c:114-270 | the tokens of every source are balanced, with one EOF at the end and block structure only at line starts or at the end |
| PyWhole.SourceWhole | py/parse.c:296-536 | every source that lexes is parsed to its end or rejected with a message, and a statement is dropped silently if and only if the last token, dedents and end aside, is a colon |
| PyWhole.SourceParses | py/parse.c:508-536 | of a newline-terminated source nothing is dropped silently |
| PyWhole.LostWithoutNewline | py/parse.c:309-318 | this source lexes, parses as the empty module, and loses its statement |
| PyPrint.ParsedShown | py/parse.c:87-288 | for every tree, parsing the printed tokens gives that tree and stops right behind them |
| PyPrecedence.TwoOperators | py/parse.c:198-288 | of two operators the tighter one takes the operand between them, of two alike the first; a second comparison is not taken along |
| PyPrecedence.PrefixBinds | py/parse.c:184-196 | signs and `not` bind tighter than any operator between operands |
| PySpelt.LevelSpelt | py/parse.c:87-288 | whatever expression is accepted, its tokens spell it by the rules of the grammar |
| PyForms.StatementForms | py/parse.c:296-480 | whatever statement is accepted, its tokens follow the rules of the grammar |
| PyForms.SourceForms | py/parse.c:482-530 | whatever source is accepted, its tokens are the module that the tree says; only a statement without its suite at the very end is left out |
| PyShow.ModuleShown | py/parse.c:400-536 | for every module the parser can build, parsing the tokens it is printed as gives that module |
| PyText.WordScan | py/lex.c:142-259 | every token a program is printed with is read back from its text |
| PyText.TextLexed | py/lex.c:78-270 | lexing indented lines gives their tokens with the INDENTs and DEDENTs between them |
| PyText.SourceLexed | py/lex.c:114-270 | lexing the text of a program gives the tokens it is printed as |
| PyText.SourceParsedBack | py/parse.c:508-536 | writing a program, lexing the text and parsing the tokens gives the program back |
| PyPrint.UnescapedEscaped | py/parse.c:44-69 | string escapes are undone |
| PyPrint.EscapesUndone | py/parse.c:44-69 | all escapes are undone, those for tabs and carriage returns included |
| PyContext.Context.EnvGet | py/eval.c:30-38 | the binding of a name |
| PyContext.Context.EnvSet | py/eval.c:40-65 | binds that name and no other, in its slot or the first free one, or fails as specified |
| PyContext.Context.EvalNode | py/eval.c:736-975 | the value and the whole state are what evaluation means |
| PyContext.Context.EvalBinop | py/eval.c:127-218 | both operands in order, then the operation, or its error |
| PyContext.Context.CallUser | py/eval.c:262-327 | arguments, body and restored bindings as a call means |
| PyContext.Context.EvalStmt | py/eval.c:736-975 | one statement as specified |
| PyContext.Context.EvalBlock | py/eval.c:736-975 | the loop over statements is running them one after the other, up to an error or a return |
| PyContext.Context.EvalModule | py/eval.c:971-977 | a module runs from a clean slate as its statements mean |
| PyScope.EvalKeeps | py/eval.c:736-975 | evaluation keeps names unique and never leaves a return pending |
| PyScope.ExecSplit | py/eval.c:736-975 | running two blocks one after the other is running them as one |
| PyScope.CallFreePure | py/eval.c:736-975 | only calls change what names are bound to |
| PyScope.CallRestores | py/eval.c:262-327 | after a call each parameter's name is bound as it was just before the argument of its last occurrence, whatever the body does, and every other name as the body left it |
| PyScope.CallRestoresAt | py/eval.c:262-327 | what was bound before an argument comes back if and only if it was bound so before the argument of the name's last occurrence too; always if the names are distinct |
| PyScope.CallTransparent | py/eval.c:262-327 | if the arguments call nothing, as it was before the call |
| PyScope.CallLeaves | py/eval.c:285-326 | with arguments that call nothing, a name that occurs again stays bound to the value of its last argument but one, and any other is as before the call |
| PyOrder.EvalLater | py/eval.c:736-975 | evaluation forgets no question asked of a built-in function, makes no object twice and undoes no error |
| PyOrder.OperandsInOrder | py/eval.c:127-230 | the left operand is evaluated first; what it asks is asked first, and after its error nothing is |
| PyOrder.ItemsInOrder | py/eval.c:753-766 | items are evaluated from the first on, each in what those before leave |
| PyOrder.ArgumentsInOrder | py/eval.c:285-303 | arguments are evaluated from the first on, each with the parameters before it bound |
| PyScope.DuplicateLeaks | py/eval.c:285-326 | with two parameters of one name, a name that was unbound stays bound to the first argument, whatever the body |
| PyFuel.EvalMore | py/eval.c:736-975 | an evaluation that ends without an error is the same under any larger bound on the depth of calls |
| PyFuel.ExecMore | py/eval.c:736-975 | so is the run of a block |
| PyLaws.PlusCounts | py/eval.c:193-198 | adding is counting on, in 32 bits, and commutes |
| PyLaws.MinusUndoes | py/eval.c:193-199 | a difference plus what was taken away is the number there was, wherever both are integers |
| PyLaws.StarRepeats | py/eval.c:193-200 | a product is a repeated sum |
| PyLaws.Divides | py/eval.c:201-212 | quotient and remainder: a == q * b + r, the remainder smaller than the divisor and with the sign of the dividend |
| PyLaws.Defined | py/eval.c:127-218 | exactly for which operands an operator is an error |
| PyLaws.PlusJoins | py/eval.c:152-176 | texts and lists are joined one behind the other, lists up to 64 items |
| PyLaws.StarCopies | py/eval.c:177-192 | a text times a number is that many copies, none for a negative one |
| PyLaws.Compares | py/eval.c:220-260 | the six comparisons are those of one strict total order of numbers and of texts |
| PyLaws.LessMeans | py/eval.c:220-260 | texts are ordered by the first character in which they differ |
| PyLaws.LessOn | py/eval.c:220-260 | that order is transitive |
| PyLaws.ComparesOther | py/eval.c:220-260 | things without an order are equal to themselves only |
| PyLaws.NotMeans | py/object.c:131-142 | `not` is true of nothing, false, zero, and empty texts and lists |
| PyLaws.SignLaws | py/eval.c:798-814 | a minus sign takes from zero and, twice, gives the number |
| PyLaws.ItemsCounted | py/eval.c:767-797 | item k counts from the start, item -k from the end, and there are no others |
| PyLaws.PartsAre | py/eval.c:880-905 | a loop goes over all items in order |
| PyPrograms.DifferenceOf | py/eval.c:127-218 | the difference of two literals, evaluated, and its sum with the second |
| PyPrograms.DivisionOf | py/eval.c:201-212 | quotient and remainder of two literals, evaluated |
| PyPrograms.ItemOf | py/eval.c:753-797 | item k of a list of literals, evaluated, from either end |
| PyPrograms.ShortCircuit | py/eval.c:129-142 | `and` and `or` leave their second operand alone if the first decides |
| PyPrograms.Branches | py/eval.c:859-867 | a conditional runs one of its blocks, by what counts as false |
| PyPrograms.MinimumRuns | py/eval.c:844-867 | a conditional program leaves the smaller of two numbers |
| PyPrograms.CountingRuns | py/eval.c:868-879 | a loop counts up to its limit, or 100000 rounds |
| PyPrograms.SummingRuns | py/eval.c:880-893 | a loop over a list adds up its numbers and leaves the last one in its name |
| PyPrograms.SumOfNumerals | py/eval.c:753-893 | the same over a list of literals |
| PyPrograms.FactorialRuns | py/eval.c:262-327 | a recursive function computes the factorial, in 32 bits, and leaves every name bound as before |
| PyPrograms.FallsOff | py/eval.c:308-327 | without a `return` a call gives the value of the last statement |
| EventRing.PostedTidy | kernel/gui/display.c:344-396 | at most one resize is pending and no two pointer moves are neighbours |
| EventRing.PostedHard | kernel/gui/display.c:344-396 | an event of another kind that is taken comes last, and no posting changes those before |
| EventRing.Refused | kernel/gui/display.c:344-396 | an event is refused if and only if the queue is full and holds none it may be merged with; then nothing changes |
| EventRing.PostedNewest | kernel/gui/display.c:344-396 | an event that is taken is in the queue with its own place and buttons, at the end if it is a pointer move and there is room; all other pending events stay |
| EventRing.InOrder | kernel/gui/display.c:344-415 | over every run events of other kinds are polled once each and in the order they were taken |
| EventRing.Ring.Post | kernel/gui/display.c:344-396 | the ring does to its contents what the queue's specification says |
| EventRing.Ring.Poll | kernel/gui/display.c:398-415 | takes the oldest event, or none of an empty ring |
| Initrd.Pack | scripts/pack_initrd.py:25-37 | the records of the entries one behind the other, for all entries whose lengths fit their fields |
| Initrd.Unpack | kernel/fs/initrd.c:23-73 | visits the records it can read, up to the first that is not whole, and says whether there the offset wraps around |
| Initrd.UnpackPacked | kernel/fs/initrd.c:23-73 | unpacking a packed ramdisk visits exactly its entries, in order, if and only if every path and length is one the unpacker takes |
| Initrd.UnpackCut | kernel/fs/initrd.c:31-36 | cut off anywhere it gives exactly the entries that are complete |
| Initrd.RoundsEnd | kernel/fs/initrd.c:26-36 | the loop in 32 bits never visits more than what can be read if and only if no file's end wraps around |
| Initrd.LoopsForever | kernel/fs/initrd.c:26-36 | on this ramdisk it visits one record for ever |
| Initrd.PackedUnwrapped | kernel/fs/initrd.c:26-36 | in a packed ramdisk, whole or cut off anywhere, no file's end wraps around |
| Rtc.YearDaysFormula | kernel/drivers/rtc.c:53-68 | counting years one by one is the closed formula of POSIX |
| Rtc.MonthDaysFormula | kernel/drivers/rtc.c:53-79 | the days before a month are the closed formula for years that begin in March |
| Rtc.PosixInjective | kernel/drivers/rtc.c:41-79 | a time has one valid date |
| Rtc.Clock.FromUnix32 | kernel/drivers/rtc.c:41-79 | always a valid date; the right one if and only if the time is before 2101 |
| Rtc.Clock.AddOneSecond | kernel/drivers/rtc.c:81-104 | the date one second later, through every carry |
| Rtc.Clock.AdvanceByPit | kernel/drivers/rtc.c:106-117 | moves by the elapsed seconds, at most 3600, with the counter's wrap-around |
| Rtc.Clock.Read | kernel/drivers/rtc.c:126-140 | the first read sets the seed, later ones catch up |
| Rtc.NotAhead | kernel/drivers/rtc.c:106-117 | over any reads the clock is never ahead; it is behind by whole turns of the counter if and only if a read came a whole turn late, and besides by less than a second unless clamped |
| Rtc.ReadAll | kernel/drivers/rtc.c:106-140 | over any reads, however late, the clock is where its seed put it plus the ticks consumed over 100 |
| Paint.PaintLine | user/gui/paint.c:97-121 | exactly max(abs dx, abs dy) + 1 points, from end to end, each within half a pixel of the ideal line |
| Paint.NextPoint | user/gui/paint.c:108-119 | the error test advances the major axis every time and keeps the distance small |
| Paint.FloodFill | user/gui/paint.c:142-177 | exactly which pixels are recoloured on any canvas and stack; only pixels connected to the seed through its colour, and all of them if the stack has three places for each and one more |
| PaintMaze.CorridorUnfinished | user/gui/paint.c:142-177 | on the canvas and stack of the program exactly 1647 pixels of a corridor are filled and the next one is not |
| Paint.ClosedIsWhole | user/gui/paint.c:154-176 | a set that contains the seed and is closed under neighbours contains everything connected |
| Paint.NeighboursAre | user/gui/paint.c:154-176 | neighbours are the points at distance one |

## Left out

- Sector I/O errors: reads and writes of sectors are assumed to succeed.
- FatDriver.Volume.constructor: takes the layout as given and the invariant as holding, as no code can check it; `FatMount.Mount` reads the layout and `FatMount.MadeInv` gives disks that satisfy the invariant.
- FatMount.Mount: assumes the invariant of a disk whose layout it can read; sums of boot sector fields do not wrap at 32 bits, which in a sound layout they cannot.
- FatMount.MadeInv: bytes of the boot sector that mounting does not read are left zero.
- FatDriver.Volume.FatOpen: assumes that the file is not open for writing already, nor open at all if it is opened for writing, as the code does not keep such descriptors apart.
- FatDriver.Volume.FatUnlink: assumes that the entry of a file open for writing has been brought up to date, as it is after every call but opening to empty it.
- Reading and writing through a descriptor that names no entry.
- FatDriver.Volume.FatWrite: assumes on volumes of four gigabytes and more that position and length stay below 2 to the 32 (`NoWrap`), so no position wraps around.
- FatDriver.Volume.FatRead: moves the position once per call, not once per sector.
- FatPath.Walk: takes the components already split and packed, as `FatText.Split` gives them.
- Names that begin with 0xE5 and components that read as links to the directory itself or its parent: excluded by `Usable`.
- FatDriver.Volume.FatMkdir: the cluster claimed before the name could not be entered stays claimed, as in the source; it is not counted.
- `fat_listdir`, `fat_exists`, `fat_isdir`, `fat_file_size`: they add only easy members.
- A volume label counts as a file without clusters.
- ProcKernel.Kernel.ElfLoad: assumes page-aligned link addresses, segments within memory, no more bytes in the file than in memory, and that sums of header fields do not wrap at 32 bits.
- ProcKernel.Kernel.Spawn: the same of the file; reading it from a file system is replaced by its bytes or none.
- ProcKernel.Kernel.RunBlocking: is called for a row in use that is no zombie, as `proc_wait` and the first process do.
- ProcRun.Run: ends after a step that leaves the wait stack out of order; stores go to addresses of the running process's own image.
- Machine.RunBoth: ends after an act that leaves the wait stack or a descriptor out of order; windows are not among the owners of pages, whose pages count as others'.
- The jump into a program and back is modelled by where it enters with which stack pointer and by its effect on who runs and on the wait stack; kernel stacks and the task segment are not part of this model.
- Console rings, redirection, working directories and names of processes.
- The rows and stack pages that a failing spawn leaks stay taken, as in the source; they are not counted.
- Vfs.Volume.Read: and the other calls start from descriptors in order, so not from those that a call before has stranded.
- Vfs.Volume.Write: the sum of position and length does not wrap at 32 bits.
- The dispatch of `/disk` paths to the FAT volume, `vfs_init`'s two directories, which are calls of `Mkdir`, and `vfs_listdir`, `vfs_exists`, `vfs_size`.
- PyLexer.Lex: line and column numbers, the count of pending dedents, which nothing sets, and which message is reported.
- PyText.SourceParsedBack: programs whose names are identifiers, whose numbers are not negative and fit 32 bits, whose bodies are not empty and whose nesting stays within the lexer's 32 levels; no others have a text.
- PyParser.Parser.ParseExpr: memory for the tree is assumed to suffice.
- PyContext.Context.EvalNode: dividing the least integer by -1 wraps instead of trapping, text is ASCII, the heap does not run out, the depth of calls is bounded by `fuel`, built-in functions answer from an arbitrary oracle that knows all earlier questions, and a list that was handed out is not changed by appending to it.
- EventRing.Ring.Post: the permission checks of posting and polling and the search for the window.
- Initrd.Unpack: the `/sys` prefix, making missing parent directories and the calls that write the files; what it does from a record on whose end wraps around, which `Round` says; ramdisks within 136 bytes of four gigabytes.
- Paint.PaintLine: the brush drawn at each point, and machine-integer overflow of its error variable.
- Windows and their pixel pages, the network stack, drivers and user programs.
