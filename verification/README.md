# A verified model of the simulated operating system

The repository simulates an operating system as four programs: a kernel, a CPU, a memory and I/O devices
that talk over sockets. This project models the five parts of it with the hardest promises and proves those
promises for all inputs and all runs.

- **DialFS**, a contiguous-allocation file system with compaction. `DialFsDirectory` is what it is meant to
  be: an ordered directory of named byte strings with a quota of blocks. `DialFsModel` and `DialFsSteps` are
  the disk as a value (block bytes, bitmap, metadata) and its invariant: extents in range and disjoint, the
  bitmap exactly their union, every byte outside a file zero. `DialFs` is the program, a class with arrays
  and loops, and refines the directory over every run. `DialFsMap` reads the directory as a map, over
  runs too.
- **Paged memory.** `PagedMemoryModel` has the loops over the frame bitmap and the page tables,
  `PagedMemoryRuns` what every run keeps, `PagedMemoryView` the flat private memory that reads and writes
  across pages refine, `PagedMemoryPrivate` isolation between processes over runs, `PagedMemory` the class.
- **Kernel.** `KernelPool` (counting resources, their queues and the held list), `KernelDevices` (the request
  and reply protocol with a device), `KernelModel` and `KernelSteps` (the transition system), `KernelRuns`,
  `KernelEvents` and `KernelReach` (what each piece, each event and each run keeps), `KernelStall` (when the
  CPU waits in vain), `KernelEffects` (what each event does to the CPU and the queues), `Kernel` (the class).
  `DialFsService` joins a device's protocol with the directory behind it.
- **TLB.** `TlbModel` (contents, LRU inclusion), `Tlb` (the class, and agreement with the page tables),
  `AddressSpace` (stores and loads through both the TLB and the paged memory).
- **Wire format.** `WireModel` (integers, packets, streams, PCBs and their round trips), `Wire` (the classes).

Each class method is proved against a function of the old state; what the source promises is then proved
about those functions.

Where the code does not do what it is meant to, the model keeps the code and a lemma gives an input:

- The shrink loop of the memory removes page `cant_paginas - i` although pages are numbered from 0
  (`memoria/src/memoria.c:668`, `:688`). `Numbering` selects that (`Written`) or `cant_paginas - 1 - i`
  (`Meant`). Safety holds of both; that no marked frame is lost holds over every run of `Meant`, and
  `PagedMemoryRuns.StepKeeps` says exactly when it holds of a step of either.
- A creation on a full disk sends no reply, so later replies wake the wrong process
  (`DialFsService.FullDiskWakesTheWrongProcess`); `DialFsService.WakesUnlessCreationRefused` says exactly when.
- A name that does not exist makes lookups answer the last file, so deletion removes that one, and its
  metadata file stays behind and prevents its creation (`DialFsMap.StaleMetadata`); `DialFsMap.DeleteAsMap`,
  `DialFsMap.CleanStep` and `DialFsMap.CreateAsMap` say exactly when each happens.
- Under VRR the kernel can wait on READY+ while READY has a process, or the other way around
  (`KernelStall.StallReached`); `KernelStall.StallIff` says exactly which events cause it.
- A shrinking RESIZE does not touch the TLB (`Tlb.ShrinkBreaksIt`); `Tlb.ShrinkAgreesIff` says exactly which
  shrinks make it wrong.
- An access past the end of memory gets an extra OUT_OF_MEMORY answer and then goes on
  (`memoria/src/memoria.c:701-709`); `PagedMemory.Memory.Write` and `Read` answer both.

## Model

| member | source | states |
|---|---|---|
| `DialFs.FileSystem.Serve` | `entradasalida/src/inout.c:14-32` | Any sequence of create, delete, truncate, write and read requests leaves a disk that satisfies the whole disk invariant, and files and metadata files that are exactly what `DialFsDirectory.Run` makes of the same sequence, requests for missing names included. |
| `DialFs.FileSystem.Execute` | `entradasalida/src/inout.c:630-672` | One request does the directory step, on files and metadata files, and keeps the invariant; an answer is sent except for a creation when the quota is used up. |
| `DialFs.FileSystem.Compact` | `entradasalida/src/inout.c:266-355` | Used blocks become a prefix of the disk with no hole; every other file keeps its bytes and the order on disk; the enlarged file comes last, at the sum of the blocks of the others, with its bytes and then zeros; the directory entry gets the new size. |
| `DialFs.FileSystem.PackOthers` | `entradasalida/src/inout.c:266-328` | The compaction loop terminates (the sum of start blocks falls each round) with the lifted file's bytes in hand and no used block above the first hole. |
| `DialFs.FileSystem.Round` | `entradasalida/src/inout.c:293-328` | One round keeps the extent and bitmap invariant and all contents, although source and destination may overlap, and strictly lowers the sum of start blocks. |
| `DialFs.FileSystem.FileToMove` | `entradasalida/src/inout.c:284-300` | The first used block after the first hole is where exactly the found file starts, and that is not the file being enlarged, whose stale start is still in the list. |
| `DialFs.FileSystem.LiftOut` | `entradasalida/src/inout.c:270-279` | Copies out exactly the file's bytes and clears exactly its bytes and bits. |
| `DialFs.FileSystem.SlideDown` | `entradasalida/src/inout.c:296-318` | Moves one file down to the hole: bytes, bitmap and start block. |
| `DialFs.FileSystem.NextMove` | `entradasalida/src/inout.c:320-325` | First free block and first used block after it, -1 for none. |
| `DialFs.FileSystem.PutLast` | `entradasalida/src/inout.c:332-345` | Writes the lifted file at the hole and marks the blocks of its new size. |
| `DialFs.FileSystem.Truncate` | `entradasalida/src/inout.c:801-868` | Growing and shrinking of the file looked up is the directory truncation, whether it happens in place, by compaction or is refused; files move only if it grows, the quota allows it and the blocks after it are not free. |
| `DialFs.FileSystem.Grow` | `entradasalida/src/inout.c:811-846` | The file gets its new size with zeros after its bytes exactly when the quota of blocks allows it: fragmentation never causes a refusal. It stays where it is if the blocks after it are free, the disk is compacted if not, and a refusal changes nothing. |
| `DialFs.FileSystem.GrowInto` | `entradasalida/src/inout.c:826-836` | Growth into the free blocks just after the file gives the same directory as compaction would. |
| `DialFs.FileSystem.RoomNextTo` | `entradasalida/src/inout.c:819-826` | Answers yes if and only if the blocks after the file are free, and on the disk, up to the new size. |
| `DialFs.FileSystem.Shrink` | `entradasalida/src/inout.c:848-864` | Keeps the prefix, clears the bytes past it and frees only blocks no longer owned. |
| `DialFs.FileSystem.Create` | `entradasalida/src/inout.c:716-756` | A new empty file, last of the list, owning the first free block, and its metadata file; nothing if a metadata file of that name exists or no block is free; answers exactly when a block is free. |
| `DialFs.FileSystem.Delete` | `entradasalida/src/inout.c:759-798` | Removes the file looked up, its bytes and its blocks, and the metadata file of the name it was given, which is another one when that name does not exist. |
| `DialFs.FileSystem.Write` | `entradasalida/src/inout.c:871-896` | Overwrites the bytes of that file and no other when they fit its size, and changes nothing when they do not. |
| `DialFs.FileSystem.Read` | `entradasalida/src/inout.c:899-916` | Any range that ends within the disk: the bytes of the blocks from the start of the file found; within its own blocks, the bytes of the file and zeros after them. |
| `DialFs.FileSystem.Mount` | `entradasalida/src/inout.c:457-589` | Whatever metadata is found, exactly its blocks are marked besides those kept; if the disk is sound and any part of its bitmap was kept, that gives the whole bitmap and the disk invariant. |
| `DialFs.FileSystem.AddKnown` | `entradasalida/src/inout.c:564-580` | Appends the file and marks its blocks. |
| `DialFs.FileSystem.FindByStart` | `entradasalida/src/inout.c:40-59` | The first file that starts at the block; the last of the list when there is none. |
| `DialFs.FileSystem.FindByName` | `entradasalida/src/inout.c:62-87` | The first file of that name; the last of the list when there is none. |
| `DialFs.FileSystem.FirstUsedFrom` | `entradasalida/src/inout.c:197-213` | First used block from a position, -1 exactly when there is none. |
| `DialFs.FileSystem.FirstFree` | `entradasalida/src/inout.c:236-249` | First free block, -1 exactly when there is none. |
| `DialFs.FileSystem.CountFree` | `entradasalida/src/inout.c:225-233` | The number of free blocks. |
| `DialFs.FileSystem.ClearBits` | `entradasalida/src/inout.c:252-257` | Clears exactly that run of bits. |
| `DialFs.FileSystem.SetBits` | `entradasalida/src/inout.c:259-264` | Sets exactly that run of bits. |
| `DialFs.FileSystem.ClearBytes` | `entradasalida/src/inout.c:546-551` | Zeroes exactly that run of bytes. |
| `DialFsDirectory.BlocksIsCeiling` | `entradasalida/src/inout.c:216-222` | The block count is the size over the block size rounded up, and 1 for an empty file. |
| `DialFsModel.GapEndsAtOneFile` | `entradasalida/src/inout.c:284-300` | While compacting, the first used block after the first hole starts exactly one file, never the one being enlarged. |
| `DialFsModel.SlideKeeps` | `entradasalida/src/inout.c:296-318` | Sliding a file into the hole keeps extents disjoint, the bitmap exact, free bytes zero and all contents. |
| `DialFsModel.SlideOrder` | `entradasalida/src/inout.c:293-328` | Sliding keeps the files' order on disk. |
| `DialFsModel.SlideOk` | `entradasalida/src/inout.c:293-328` | A round keeps what holds at the head of the loop and lowers the measure that ends it. |
| `DialFsModel.CountOk` | `entradasalida/src/inout.c:225-233` | The bitmap marks exactly as many blocks as the files own. |
| `DialFsModel.CompactedRoom` | `entradasalida/src/inout.c:332-335` | After the loop the hole is at the sum of the other files' blocks and the enlarged file fits from there to within the disk. |
| `DialFsModel.CompactionEnds` | `entradasalida/src/inout.c:332-345` | Putting the file back gives the compacted disk, with one directory entry changed. |
| `DialFsModel.LiftOk` | `entradasalida/src/inout.c:270-279` | Lifting a file out leaves the others' extents and bytes as they were. |
| `DialFsModel.PlaceOk` | `entradasalida/src/inout.c:332-345` | Putting a file in free blocks keeps the invariant and the other contents; its own are the data and then zeros. |
| `DialFsSteps.GrowthTest` | `entradasalida/src/inout.c:811-816` | The test of the code, over free blocks, is the same as: all files' blocks, with the new size, are at most the block count. |
| `DialFsSteps.FreeIffQuota` | `entradasalida/src/inout.c:236-249` | A block is free exactly when the directory is below its quota. |
| `DialFsSteps.CreateStep` | `entradasalida/src/inout.c:716-756` | Creating in a free block is the directory step and keeps the invariant. |
| `DialFsSteps.DeleteStep` | `entradasalida/src/inout.c:759-798` | Clearing the extent and dropping the entry is the directory step and keeps the invariant. |
| `DialFsSteps.CompactStep` | `entradasalida/src/inout.c:837-841` | Compaction is the directory truncation. |
| `DialFsSteps.GrowStep` | `entradasalida/src/inout.c:826-836` | Growth in place is the same directory truncation: the bytes grown into are already zero. |
| `DialFsSteps.ShrinkStep` | `entradasalida/src/inout.c:848-864` | Shrinking is the directory truncation and leaves only zero bytes outside files. |
| `DialFsSteps.WriteStep` | `entradasalida/src/inout.c:871-896` | A write in range is the directory write; one out of range changes nothing. |
| `DialFsSteps.ReadStep` | `entradasalida/src/inout.c:899-916` | Bytes read within the blocks of a file are those of the directory entry, and zeros past its size. |
| `DialFsSteps.MarkedIs` | `entradasalida/src/inout.c:564-580` | The bitmap after mounting marks exactly the blocks kept and those of the files found. |
| `DialFsSteps.MarkedSound` | `entradasalida/src/inout.c:457-589` | Mounting a sound disk, of whose bitmap any part was kept, gives its bitmap. |
| `DialFsMap.CreateAsMap` | `entradasalida/src/inout.c:716-756` | Creation adds an empty string under a new name, within the quota, if and only if no metadata file of that name was left behind; the file is the last of the list. |
| `DialFsMap.DeleteAsMap` | `entradasalida/src/inout.c:759-798` | Deletion removes that name from the map if and only if the file exists; otherwise it removes the last file of the list. The others keep their order. |
| `DialFsMap.TruncateAsMap` | `entradasalida/src/inout.c:801-868` | Truncation keeps the prefix or extends with zeros, when the quota allows it, of the file found: the one named if and only if it exists, otherwise the last of the list. |
| `DialFsMap.WriteAsMap` | `entradasalida/src/inout.c:871-896` | A write that fits replaces those bytes of the file found, in the same sense, and leaves the rest of the map. |
| `DialFsMap.RunKeeps` | `entradasalida/src/inout.c:14-32` | Over every run names stay distinct, every file keeps its metadata file, and the blocks owned stay within the disk. |
| `DialFsMap.RunAsMap` | `entradasalida/src/inout.c:716-916` | Over every run of requests that name existing files, the files are the map that the same requests make of names and byte strings, and the blocks used are those the map uses. |
| `DialFsMap.CleanStep` | `entradasalida/src/inout.c:759-798` | A metadata file is left behind by a request if and only if it deletes a name that does not exist. |
| `DialFsMap.StaleMetadata` | `entradasalida/src/inout.c:723-748` | A concrete run: a file deleted under a wrong name cannot be created again. |
| `DialFsService.WakesUnlessCreationRefused` | `entradasalida/src/inout.c:716-756` | In any run of requests to a DialFS device, reads included, a reply wakes the process whose request it answers if and only if no earlier request was a creation on a full disk. |
| `DialFsService.FullDiskWakesTheWrongProcess` | `entradasalida/src/inout.c:716-756` | A concrete run: on a full disk one process asks for a creation and another for a deletion, and the one answer wakes the first. |
| `DialFsService.ServeOk` | `entradasalida/src/inout.c:630-672` | The answers sent are for exactly the requests that the directory answers, in order. |
| `PagedMemory.Memory.Resize` | `memoria/src/memoria.c:602-633` | Grows, shrinks or does nothing, with the answer sent: none when the page count stays. |
| `PagedMemory.Memory.Grow` | `memoria/src/memoria.c:635-683` | First-fit growth; when frames run out it keeps those it took. |
| `PagedMemory.Memory.Shrink` | `memoria/src/memoria.c:686-699` | Removes pages and marks in the numbering chosen. |
| `PagedMemory.Memory.Release` | `memoria/src/memoria.c:402-428` | Clears the marks of the pages counted and drops the table. |
| `PagedMemory.Memory.Register` | `memoria/src/memoria.c:388-399` | An empty table under the pid. |
| `PagedMemory.Memory.constructor` | `memoria/src/memoria.c:335-353` | All frames free, no process. |
| `PagedMemory.Memory.Write` | `memoria/src/memoria.c:430-498` | Across any frames it writes what `WriteLoop` writes; at the physical address of a logical one it stores at exactly those bytes of the process and changes no other process. An access that ends within the memory gets exactly one answer, OK if all of it fitted. |
| `PagedMemory.Memory.Read` | `memoria/src/memoria.c:500-573` | Across any frames it answers what `ReadLoop` answers; at the physical address of a logical one, what `LoadedShows` says. An access that ends within the memory gets exactly one answer. |
| `PagedMemory.Memory.AddressParts` | `memoria/src/memoria.c:430-437` | A physical address is one frame and one offset, and no other pair makes it. |
| `PagedMemoryView.LoadedShows` | `memoria/src/memoria.c:511-570` | A read at a logical address answers, of the bytes asked for, exactly those that are not zero and have no zero before them in their page's part; OUT_OF_MEMORY if and only if some lie beyond the end. |
| `PagedMemoryView.LoadedInPage` | `memoria/src/memoria.c:511-570` | Inside one page, everything before the first zero. |
| `PagedMemory.Memory.LimitReply` | `memoria/src/memoria.c:701-709` | An extra OUT_OF_MEMORY if and only if the access ends beyond the memory. |
| `PagedMemory.Memory.GetFrame` | `memoria/src/memoria.c:356-385` | The frame of a page, -1 when there is none or no such process. |
| `PagedMemory.Memory.FindPage` | `memoria/src/memoria.c:584-600` | The page mapped to a frame, -2 when there is none. |
| `PagedMemory.Memory.FollowFrame` | `memoria/src/memoria.c:575-582` | The frame of the page after the one mapped to a frame. |
| `PagedMemory.PagesForIsCeiling` | `memoria/src/memoria.c:606-611` | The page count is the size over the page size rounded up. |
| `PagedMemoryRuns.RunSafe` | `memoria/src/memoria.c:402-428` | Of the code as written: over every run of creation, RESIZE and release no frame is mapped twice and every mapped frame is marked. |
| `PagedMemoryRuns.StepKeeps` | `memoria/src/memoria.c:602-699` | Under either numbering a request keeps that, and loses no marked frame if and only if a check made before it passes. |
| `PagedMemoryRuns.MeantRunExact` | `memoria/src/memoria.c:686-699` | With pages removed from `cant_paginas - 1` down, over every run with fresh pids the marked frames are exactly the mapped ones. |
| `PagedMemoryRuns.WrittenShrinkStale` | `memoria/src/memoria.c:686-699` | With the loop as written, any shrink of a process leaves one page too many mapped, whose frame is lost by the next release, and by a growth if and only if that obtains a frame. |
| `PagedMemoryRuns.WrittenLeak` | `memoria/src/memoria.c:686-699` | A concrete run of four requests after which no process is left and a frame stays marked. |
| `PagedMemoryRuns.GrowthOutcome` | `memoria/src/memoria.c:622-683` | Growth succeeds exactly when enough frames are free; pages already mapped, of any process, keep their frames. |
| `PagedMemoryRuns.ResizeAnswers` | `memoria/src/memoria.c:602-699` | OUT_OF_MEMORY exactly when more frames are asked for than are free, no answer at all when the page count stays, OK otherwise, also for a shrink. |
| `PagedMemoryRuns.ReleaseAfterGrowth` | `memoria/src/memoria.c:602-683` | Releasing after a growth, failed or not, gives back exactly what was taken. |
| `PagedMemoryModel.GrowLoopGrows` | `memoria/src/memoria.c:635-683` | Each new page gets a frame that was free, different from all others; nothing else changes; on failure every frame is used. |
| `PagedMemoryModel.ShrinkLoopUnmarks` | `memoria/src/memoria.c:686-699` | Exactly the pages of the range removed lose their entries and their marks, in both numberings. |
| `PagedMemoryModel.ReleaseLoopUnmarks` | `memoria/src/memoria.c:402-428` | Exactly the frames of the pages below the count lose their marks. |
| `PagedMemoryView.WriteIsPrivate` | `memoria/src/memoria.c:430-498` | A write at a logical address changes exactly those bytes of that process's flat memory, as far as it reaches, and no byte of any other process; it is refused if and only if some lie beyond. |
| `PagedMemoryView.WriteLoopFlat` | `memoria/src/memoria.c:442-497` | Writing across non-adjacent frames is one write into their bytes laid end to end, of as much as fits. |
| `PagedMemoryView.ReadLoopFlat` | `memoria/src/memoria.c:511-570` | Reading across non-adjacent frames answers if and only if the pages last, with the bytes laid end to end, each page's part cut at its first zero; so the bytes themselves if and only if none is zero. |
| `PagedMemoryView.ReadIsPrivate` | `memoria/src/memoria.c:500-573` | A read at a logical address answers that process's bytes from there, each page's part cut at its first zero, and the bytes themselves if and only if none is zero; it is refused if and only if some lie beyond its end. |
| `PagedMemoryView.LoadStored` | `memoria/src/memoria.c:430-573` | What a process stores at a logical address it reads back from there, up to the first zero in each page. |
| `PagedMemoryView.ReadBack` | `memoria/src/memoria.c:430-573` | What was written, without zeros, is read back. |
| `PagedMemoryView.NextFrameWalks` | `memoria/src/memoria.c:575-600` | Following frames goes through the process's pages in order and ends in -1, because page -1, which the -2 of a failed lookup becomes, is never mapped. |
| `PagedMemoryPrivate.Isolation` | `memoria/src/memoria.c:388-498` | Over any run of creation, RESIZE, release and writes that does not name a process, in either numbering and with growths refused or not, its flat memory stays byte for byte as it was. |
| `PagedMemoryPrivate.RunSound` | `memoria/src/memoria.c:602-699` | Over any such run nothing is shared, and the pages of every process whose last growth was not refused stay numbered without a gap. |
| `PagedMemoryPrivate.ResizeKeepsBytes` | `memoria/src/memoria.c:602-699` | A resize, refused or not, keeps the frames and so the bytes of every page that the process had and still has, in either numbering. |
| `PagedMemoryPrivate.IsolationFromStart` | `memoria/src/memoria.c:335-353` | The same from the empty memory, after any first run. |
| `PagedMemoryView.GrowthKeepsBytes` | `memoria/src/memoria.c:635-683` | A growth leaves the bytes of every page counted where they were; the page that a shrink of the code as written left behind is the only one it replaces. |
| `PagedMemoryView.ResizeKeepsShape` | `memoria/src/memoria.c:602-699` | Every resize that is not refused keeps what reads and writes rely on, in both numberings. |
| `KernelReach.Reachable` | `kernel/src/kernel.c:971-1099` | In every reachable state semaphores and pid lists mirror their queues, every process is in exactly the queue of its state, free slots plus admitted unfinished processes make the degree of multiprogramming, the resource invariant holds, whatever may happen next pops no empty queue, and an idle CPU means that nothing is ready and no process is admitted and unfinished. |
| `KernelReach.StepKeeps` | `kernel/src/kernel.c:1103-1271` | Every allowed event finds what it looks up and keeps the whole invariant. |
| `KernelReach.CompletionWakes` | `kernel/src/kernel.c:216-319` | In any run where no device drops a request, a completion makes ready exactly the process whose request it answers. |
| `KernelReach.NobodyIsOvertaken` | `kernel/src/kernel.c:971-1048` | Over any run, a process with i others ahead of it in READY or READY+ stays there, with one less ahead for each dispatch from that queue. |
| `KernelReach.RunsInTurn` | `kernel/src/kernel.c:971-1048` | Once nobody is ahead of it, the next dispatch from that queue runs it. |
| `KernelStall.NeverStalls` | `kernel/src/kernel.c:971-1048` | Under FIFO and RR, in any run, whenever nothing runs and a process is ready, one can be dispatched. |
| `KernelStall.StallReached` | `kernel/src/kernel.c:1001-1043` | Under VRR it can: a run after which READY holds a process and the CPU waits on READY+. |
| `KernelStall.StallIff` | `kernel/src/kernel.c:971-1048` | Of any event in any reachable state: it makes the CPU wait while a process is ready if and only if the CPU was waiting on an empty queue and the event puts a process in the other one (an admission while it waits on READY+, a completion or a kill that wakes someone while it waits on READY under VRR); and such a wait ends if and only if an event feeds the queue waited for. |
| `KernelStall.RunStallFreeIff` | `kernel/src/kernel.c:971-1048` | Over a whole run, under any algorithm, the CPU never waits while a process is ready if and only if every event passes that check. |
| `KernelEffects.CpuAfter` | `kernel/src/kernel.c:971-1048` | After every event: READY+ is waited on under VRR exactly when it has a process, or when nobody is ready and the process left to block on a device or resource; the first admission starts the scheduler under every algorithm; a dispatch runs the head of the queue chosen; nothing else touches the CPU. |
| `KernelEffects.RequestComesBack` | `kernel/src/kernel.c:1125-1197` | Under every algorithm, a process that asks a device at rest while nobody else is ready runs again: request, service, answer and dispatch are each possible in turn. |
| `KernelEffects.AskerRunsAgain` | `kernel/src/kernel.c:1001-1026` | Under VRR, whatever else happens before the next dispatch, once the answer to such a process is received it is the last of READY+, a dispatch is possible, and it is the one to run if nobody else came back before it. |
| `KernelEffects.FifoKeepsTheCpu` | `kernel/src/kernel.c:770-886` | Under FIFO a process keeps the CPU until it blocks or ends itself. |
| `KernelEffects.EndsGone` | `kernel/src/kernel.c:1222-1262` | A process that ends, or names an unknown resource or a device it may not use, leaves no entry and goes to EXIT, waking those it held up. |
| `KernelEffects.AdmittedInOrder` | `kernel/src/kernel.c:519-532` | Processes are admitted in order of arrival: over any run, one with i others ahead of it in NEW has one less ahead for each admission, until its own. |
| `KernelEffects.AdmitFirst` | `kernel/src/kernel.c:724-733` | The first of NEW joins the end of READY and takes a slot. |
| `KernelEffects.CreateAtTheEnd` | `kernel/src/kernel.c:519-532` | A new process joins the end of NEW. |
| `KernelEffects.QuantumToReady` | `kernel/src/kernel.c:1063-1085` | At the end of its quantum a process joins the end of READY, under VRR too. |
| `KernelEffects.IoDoneToReady` | `kernel/src/kernel.c:216-319` | A completion moves the first of the queue of the device to the end of READY+ under VRR, of READY otherwise. |
| `KernelEffects.AsksAtTheEnd` | `kernel/src/kernel.c:1050-1061` | A process that asks a device joins the end of its queue. |
| `KernelEffects.WaitsAtTheEnd` | `kernel/src/kernel.c:1446-1503` | WAIT takes one instance away and adds its entry at the end of the list; with none left the process joins the end of the queue. |
| `KernelEffects.SignalWakesFirst` | `kernel/src/kernel.c:1535-1563` | SIGNAL gives the instance back, and the first of the queue, if anyone waits, joins READY or READY+. |
| `KernelEffects.ConnectAdds` | `kernel/src/kernel.c:166-196` | A device that connects has an empty queue; one that connects again keeps its queue and its requests. |
| `KernelEvents.FinishEffect` | `kernel/src/kernel.c:1273-1321` | A process that ends leaves no held entry; the others' entries stay; each resource wakes the first of its queue, one per unit held, and they join READY or READY+ in that order. |
| `KernelEvents.KillEffect` | `kernel/src/kernel.c:624-643` | The same for a process killed while it waits for a resource, after it is taken out of the middle of the queue. |
| `KernelEvents.AdmitKeeps` | `kernel/src/kernel.c:710-742` | Admission takes a slot and the head of NEW and keeps the invariant. |
| `KernelEvents.DispatchKeeps` | `kernel/src/kernel.c:971-1048` | Dispatch takes the head of the chosen queue, its semaphore and its pid mirror together. |
| `KernelEvents.QuantumKeeps` | `kernel/src/kernel.c:1063-1099` | End of quantum puts the running process at the end of READY. |
| `KernelEvents.AskKeeps` | `kernel/src/kernel.c:1050-1061` | Blocking on a device adds the process to that device's queue together with its request. |
| `KernelEvents.IoDoneKeeps` | `kernel/src/kernel.c:216-319` | A completion finds a process in the queue and moves it to READY or READY+. |
| `KernelEvents.WaitKeeps` | `kernel/src/kernel.c:1446-1523` | WAIT takes an instance or blocks, and keeps the invariant. |
| `KernelEvents.FinishKeeps` | `kernel/src/kernel.c:1273-1321` | Ending the running process keeps the invariant. |
| `KernelEvents.KillKeeps` | `kernel/src/kernel.c:624-672` | Killing a process that waits for a resource keeps the invariant. |
| `KernelRuns.SignalKeeps` | `kernel/src/kernel.c:1535-1586` | SIGNAL wakes at most the head of the queue and keeps the invariant. |
| `KernelRuns.ReleaseKeeps` | `kernel/src/kernel.c:1307-1321` | `liberar_recursos` terminates, keeps the invariant, and the processes it wakes join READY or READY+ in order. |
| `KernelPool.ReleaseEffect` | `kernel/src/kernel.c:1307-1321` | For each resource exactly the first min(units held, waiters) waiters are woken, in order; the entries left are the others'; the resource invariant holds. |
| `KernelPool.ReleaseInOrder` | `kernel/src/kernel.c:1307-1321` | An exiting process wakes the others in the order in which it took its resources, and each queue in its own order. |
| `KernelPool.WaitOk` | `kernel/src/kernel.c:1446-1523` | WAIT keeps: available plus entries make the initial count, the queue is as long as the count is negative, each waiter has an entry. |
| `KernelPool.SignalOk` | `kernel/src/kernel.c:1535-1573` | SIGNAL keeps the same. |
| `KernelPool.TakeOutOk` | `kernel/src/kernel.c:629-640` | Taking a waiter out of the middle of a queue keeps the same. |
| `KernelPool.FilteredOrder` | `kernel/src/kernel.c:646-672` | Going once around the queue takes out that process and keeps the order of the others. |
| `KernelPool.PoolBounds` | `kernel/src/kernel.c:1446-1586` | Entries that do not wait never exceed the initial count, and a signal that must wake someone finds someone. |
| `KernelPool.RemoveFirstCounts` | `kernel/src/kernel.c:1575-1586` | One entry of that process and resource goes, and no other count changes. |
| `KernelDevices.QueueMirrorsChannels` | `kernel/src/kernel.c:1156-1192` | Over every run without drops, a device's wait queue is the replies in flight, then the request in service, then the requests in flight. |
| `KernelDevices.WakesTheRightProcess` | `kernel/src/kernel.c:255-266` | A completion wakes the process whose request finished if and only if no earlier request was dropped. |
| `KernelDevices.DropWakesTheWrongProcess` | `entradasalida/src/inout.c:716-756` | A concrete run: after one dropped request the first process is woken by the answer to the second. |
| `KernelDevices.StepOk` | `kernel/src/kernel.c:1050-1061` | Every step of the request and reply protocol keeps the device invariant, and a reply never finds the queue empty. |
| `Kernel.Kernel.Happen` | `kernel/src/kernel.c:1103-1271` | Whatever happens, the fields of the kernel take the step of the transition system and keep its invariant. |
| `Kernel.Kernel.constructor` | `kernel/src/kernel.c:39-78` | Starts in the initial state, which satisfies the invariant. |
| `Kernel.Kernel.NewProcess` | `kernel/src/kernel.c:519-532` | A new pid in NEW, and the whole kernel invariant kept: queues and states, semaphores and pid lists, slots, resources. |
| `Kernel.Kernel.Admit` | `kernel/src/kernel.c:710-742` | One round of admission, with replanning for the very first process, keeps the whole kernel invariant. |
| `Kernel.Kernel.Dispatch` | `kernel/src/kernel.c:979-1048` | The head of the chosen queue runs, its semaphore and pid list moved with it, and the whole kernel invariant is kept. |
| `Kernel.Kernel.Wait` | `kernel/src/kernel.c:1446-1523` | WAIT by the running process; false for an unknown resource. |
| `Kernel.Kernel.Signal` | `kernel/src/kernel.c:1535-1573` | SIGNAL; false for an unknown resource. |
| `Kernel.Kernel.RemoveHolding` | `kernel/src/kernel.c:1575-1586` | The list without its first such entry. |
| `Kernel.Kernel.FindHolding` | `kernel/src/kernel.c:1307-1317` | The resource of the first entry of a process, if it has any. |
| `Kernel.Kernel.ReleaseResources` | `kernel/src/kernel.c:1307-1321` | Signals until the process holds nothing; it terminates. |
| `Kernel.Kernel.Kill` | `kernel/src/kernel.c:586-643` | FINALIZAR_PROCESO for a process that waits for a resource. |
| `Kernel.Kernel.EndQuantum` | `kernel/src/kernel.c:1063-1099` | The running process goes to the end of READY, another is chosen, and the whole kernel invariant is kept. |
| `Kernel.Kernel.Finish` | `kernel/src/kernel.c:1273-1305` | The running process releases everything and ends, another is chosen, and the whole kernel invariant is kept. |
| `Kernel.Kernel.AskDevice` | `kernel/src/kernel.c:1125-1197` | The running process joins the queue of the device together with its request, and the whole kernel invariant is kept. |
| `Kernel.Kernel.IoDone` | `kernel/src/kernel.c:216-319` | The head of the queue of the device joins READY or READY+, and the whole kernel invariant is kept. |
| `Kernel.TakeFromQueue` | `kernel/src/kernel.c:646-672` | The rotation loop equals filtering the process out, and finds it if and only if it is there. |
| `TlbModel.Contents` | `cpu/src/cpu.c:374-475` | After any translations LRU holds the last N distinct pid and page pairs in order of last use, FIFO the last N loaded in order of load; the size stays N. |
| `TlbModel.LruInclusion` | `cpu/src/cpu.c:374-475` | For the same translations the buffer with n entries is the suffix of the one with n + 1, so every hit with n is a hit with n + 1. |
| `TlbModel.HeldDistinct` | `cpu/src/cpu.c:418-475` | No process page is held twice, under either policy. |
| `TlbModel.LoadsApart` | `cpu/src/cpu.c:428-445` | FIFO never loads again a page that is among its last N loads. |
| `TlbModel.LruStep` | `cpu/src/cpu.c:447-474` | One translation moves the page to the end of the order of last use. |
| `TlbModel.FifoStep` | `cpu/src/cpu.c:428-445` | One translation appends on a miss and changes nothing on a hit. |
| `Tlb.TlbUnit.Translate` | `cpu/src/cpu.c:679-706` | The physical address from the cached frame or else the memory's, -1 for an unmapped page, and the buffer refreshed on hits as on misses. |
| `Tlb.HoldsTranslations` | `cpu/src/cpu.c:679-706` | Over any run in which no request moves a cached page, the buffer is what the sequence of translations of mapped pages, hits too, makes of it. |
| `Tlb.HeldFromStart` | `cpu/src/cpu.c:679-706` | From the start, after any such run, the buffer holds the last N distinct pages translated in order of last use under LRU, the last N loaded in order of load under FIFO. |
| `Tlb.InclusionFromStart` | `cpu/src/cpu.c:679-706` | For the same run the LRU buffer of n entries is that of n + 1 without its first, so whatever hits in the one hits in the other. |
| `Tlb.TlbUnit.Refresh` | `cpu/src/cpu.c:418-475` | The replacement of the policy. |
| `Tlb.TlbUnit.Cached` | `cpu/src/cpu.c:394-416` | The cached frame or -1. |
| `Tlb.TlbUnit.constructor` | `cpu/src/cpu.c:374-392` | N entries with a pid that no process has. |
| `Tlb.Transparent` | `cpu/src/cpu.c:679-706` | In every run where no request moves a page that is cached, shrinks included, a buffer of any size under either policy gives the same frames as no buffer. |
| `Tlb.ChangeAgreesIff` | `memoria/src/memoria.c:635-671` | Creation, growth, release or shrink: every cached entry of a live process stays right if and only if the request moves no page that is cached. |
| `Tlb.ShrinkAgreesIff` | `memoria/src/memoria.c:686-699` | A shrinking RESIZE keeps the buffer right if and only if none of the pages that the loop removes is cached, in either numbering. |
| `Tlb.CarelessShows` | `cpu/src/cpu.c:505-532` | After a request every translation is right if and only if it passes that check. |
| `Tlb.OnlyShrinksMove` | `memoria/src/memoria.c:635-671` | Creation, release, and growth of a process with no page beyond its count always pass. |
| `Tlb.TransparentFromStart` | `cpu/src/cpu.c:679-706` | From the start, in every run without shrinks, a buffer of any size translates as none does. |
| `AddressSpace.StoreThenLoad` | `cpu/src/cpu.c:679-706` | What a process stores at a logical address it loads from there, through a buffer of any size under either policy, whatever the other processes stored, grew, shrank and released in between, as long as no request moved a cached page; each page's part comes back up to its first zero. |
| `AddressSpace.AddressIs` | `cpu/src/cpu.c:679-706` | Whatever the buffer holds, the physical address is the one the page table gives. |
| `Tlb.CoherentTranslate` | `cpu/src/cpu.c:679-706` | A translation keeps every cached entry of a live process in agreement with its page table. |
| `Tlb.ShrinkBreaksIt` | `cpu/src/cpu.c:505-532` | A concrete shrink that fails that check, under either numbering: a page that the memory denies is still translated. |
| `WireModel.StreamRoundTrip` | `utils/src/utils/utils.c:138-157` | Any sequence of messages and packets written to one stream decodes to the same sequence. |
| `WireModel.UnpackPack` | `utils/src/utils/utils.c:138-157` | Length-prefixed values come back from a packet, whatever bytes they hold. |
| `WireModel.IntRoundTrip` | `utils/src/utils/utils.c:205-218` | A 32-bit integer in the stream comes back, wherever it stands. |
| `WireModel.PcbRoundTrip` | `utils/src/utils/utils.c:303-387` | A PCB comes back with its pid, program counter and registers, its quantum as the integer part, on the side of zero, and the values sent after it stay in the list. |
| `WireModel.PcbLayout` | `utils/src/utils/utils.c:303-352` | The fourteen values travel in the order of the source. |
| `WireModel.SerializedLayout` | `utils/src/utils/utils.c:205-218` | Operation code, 0 for a text and 1 for a packet, then the size, then that many bytes. |
| `WireModel.RegistersRoundTrip` | `utils/src/utils/utils.c:316-377` | All eleven registers come back, for every 8-bit and 32-bit value. |
| `WireModel.RegisterRoundTrip` | `utils/src/utils/utils.c:316-377` | Values from 2^31 up travel as negative decimals and wrap back. |
| `WireModel.AtoiItoa` | `utils/src/utils/utils.c:303-387` | `atoi` undoes `string_itoa` on every integer. |
| `WireModel.AtoiSkips` | `utils/src/utils/utils.c:354-387` | `atoi` skips spaces and a plus sign and stops at the first byte that is no digit. |
| `Wire.Channel.Drain` | `utils/src/utils/utils.c:89-157` | Receiving until the stream ends gives exactly the messages sent, in order. |
| `Wire.Channel.ReceivePacket` | `utils/src/utils/utils.c:138-157` | The loop reads exactly the values of the packet and leaves what follows it. |
| `Wire.Channel.ReceiveMessage` | `utils/src/utils/utils.c:89-157` | One message off the stream, of either kind. |
| `Wire.Channel.SendPackage` | `utils/src/utils/utils.c:245-253` | The stream grows by the serialized packet. |
| `Wire.Channel.SendText` | `utils/src/utils/utils.c:185-203` | The stream grows by the text with its final zero. |
| `Wire.Channel.ReceiveOperation` | `utils/src/utils/utils.c:89-101` | The operation code, -1 on a closed stream. |
| `Wire.Channel.ReceiveBuffer` | `utils/src/utils/utils.c:103-112` | The length-prefixed buffer. |
| `Wire.Package.Add` | `utils/src/utils/utils.c:235-243` | The packet holds one value more. |
| `Wire.Package.AddRegisters` | `utils/src/utils/utils.c:316-352` | The packet holds the eleven registers more, in order. |
| `Wire.Process.AddTo` | `utils/src/utils/utils.c:303-314` | The packet holds the fourteen values of the PCB more. |
| `Wire.Process.Load` | `utils/src/utils/utils.c:354-387` | The PCB is filled from the first fourteen values and the rest stay in the list. |

## Left out

- Sockets, handshakes, `mmap` and `msync`, directory scanning, configuration files, logging, `readline` and `usleep`: foreign calls. Blocks, bitmap and metadata are in-memory state; a channel is a sequence of bytes; what the memory answers to the file system is a parameter.
- Allocation and freeing of memory, string buffers, and the order of bytes in an `int`, taken as low byte first.
- Overflow of `int` in `block_size * block_count`, block numbers times block size, and pids; counts are unbounded. The 32-bit wrap of registers and lengths is modelled.
- `ceil` over `double` is integer division rounded up; the quantum is a `real` and its `float` rounding is not modelled.
- DialFs.FileSystem.Create: a file whose name collides with those of the block, bitmap or other non-metadata files is not modelled.
- DialFs.FileSystem.Execute: a lookup with no file at all crashes the code and is excluded; so are negative sizes and offsets, and, in runs, reads that go past the blocks of the file.
- DialFs.FileSystem.Read: a range that goes past the end of the disk is not rejected by the code and is excluded. The code then sends the bytes on as a C string, which stops at the first zero byte; that is not modelled.
- DialFs.FileSystem.Write: when the memory answers fewer bytes than asked for, the code copies what lies after them; the model takes the bytes answered as the whole of the write.
- DialFs.FileSystem.Mount: metadata whose blocks go past the end of the bitmap is excluded. A metadata file left behind is found again by the next mount; runs here do not mount twice.
- PagedMemory.Memory.Write: an address in no frame of the memory is not rejected by the code and is excluded. So are negative addresses and a process whose last growth failed, from which only release follows.
- PagedMemory.Memory.Read: the same.
- PagedMemory.Memory.constructor: the bitmap has one bit for each frame; the rounding of its bytes is not modelled.
- Kernel.Kernel.Kill: a resource whose name contains IO is taken for a device by the code and is excluded. Console FINALIZAR_PROCESO for processes in other states, and MULTIPROGRAMACION, keep none of these invariants: the first posts the multiprogramming semaphore twice or waits on one that is never posted, the second never stores the new degree.
- Kernel.Kernel.Signal: signalling a resource that the process does not hold makes the code dereference a null pointer, so holding it is a precondition.
- Kernel.Kernel.Happen: each event is one atomic step. Interleavings inside a step, the quantum timer threads, the pause of planning, and `cola_exec` as a queue are not modelled; the running process is a field.
- KernelReach.StepKeeps: an instruction the device does not allow is a parameter of the event, because the list of allowed instructions is text that the device sends. After an unknown resource or device the code frees the motive, twice for a resource, and then replans with the freed string; the model replans as for any motive that is neither I/O nor WAIT.
- Names compared ignoring case are taken as already in one form.
- The device histories in `KernelDevices.Device` (requests asked, taken and finished) stand for the sockets between kernel and device, which are FIFO.
- The CPU's instructions, registers by name and request building; the memory's instruction files; stopwatch updates of the quantum under VRR.
- Malformed packets: lengths that do not fit the buffer are excluded by preconditions of the receiving methods.
