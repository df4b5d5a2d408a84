# xv6 with the sume32 tool chain: a Dafny model

This project models the parts of the system whose correctness is hardest to see from the code, and proves what they
are for.

- **Storage.** The buffer cache, the redo log with group commit and recovery, the block bitmap, the double-indirect
  block tree under `readi`, `writei` and `itrunc`, the chunking of `filewrite`, and link counts under directory
  operations.
- **sume32.** The text and byte encodings, the verifier, a stack machine that gives programs their meaning, the two-pass x86 code
  generator, and an x86 machine on which the emitted bytes run.
- **Processes.** Sleep locks, `sleep`/`wakeup`, `fork`, `exit`, `wait`, `kill`, `yield` and the scheduler as
  interleaved steps, and pipes.
- **Memory.** The user-level `malloc`, page allocation, page tables and address spaces; and the matcher of `grep`.

Code that changes state in place is a class or a method with loops (`BufferCache`, `Log`, `FileSystem`, `Verifier`,
`Generator`, `ProcTable`, `Arena`, `Pipe`, `Vm`). Protocols are step relations, and their results are about every run
(`CacheRuns`, `LogSpace`, `LoggedOps`, `Sleepers`, `LinkRuns`, `LinkLaws`, `Soundness`). A panic of the kernel is a result of the
method. The device, the kernel's answers to `sbrk`, the contents of an uninitialised variable and the point at which
the machine crashes are parameters.

`dafny verify dfyconfig.toml` checks everything.

## Model

| member | source | states |
|---|---|---|
| `BufferCache.BCache.constructor` | bio.c:38-56 | After binit the list holds every buffer exactly once, all are free and blank, and the device is untouched. |
| `BufferCache.BCache.Bget` | bio.c:61-93 | The buffer that carries the block gains a reference; if there is none, the least recently released buffer that is neither referenced nor dirty is reused; panics exactly when there is neither. One buffer per block and the list's order are kept. |
| `BufferCache.BCache.Bread` | bio.c:96-106 | Returns the chosen buffer, locked and holding the block's contents (the cached ones, else the device's); no other buffer changes; panics exactly when no buffer can be had. |
| `BufferCache.BCache.Bwrite` | bio.c:109-116 | Exactly the buffer's block changes on the device, to the buffer's bytes, as one write; the buffer is no longer dirty. |
| `BufferCache.BCache.Brelse` | bio.c:120-141 | One reference goes; a buffer without references moves to the front of the list and the others keep their order. |
| `CacheRuns.CacheIsTransparent` | bio.c:38-141 | In every run of processes that get, change, log or write, and release buffers, the holder of a filled buffer sees what was last given to its block, no two buffers carry one block, and every block shows through the cache what was last given to it. |
| `CacheRuns.OnlyFreeBuffersAreRecycled` | bio.c:79-90 | In every run a step takes a buffer away from its block only if nobody references, awaits or holds it and the log has not pinned it. |
| `LogDisk.HeadRoundTrip` | log.c:85-113 | A header written over any block is read back with the same count and the same block numbers. |
| `LogDisk.CommitPoint` | log.c:177-202 | For a crash after any prefix of a commit's writes, recovery yields all of the transaction if the header write happened and none of it otherwise. |
| `LogDisk.RecoverPoint` | log.c:69-122 | A recovery cut short after any of its writes can be started over with the same outcome. |
| `LogDisk.CrashAtomicity` | log.c:69-202 | Crash after any write of a commit, then crash any number of recoveries anywhere: the recovery that completes leaves an empty log and every home block as before the transaction, or every one as after it. |
| `Log.Log.Recover` | log.c:115-122 | From a well-formed log on a freshly booted cache, the device ends as the recovered one, through exactly the writes of the recovery's trace, and the log is ready and empty. |
| `Log.Log.BeginOp` | log.c:125-141 | Admits an operation exactly if no commit is running and the header plus MAXOPBLOCKS for every operation, this one included, fits LOGSIZE. |
| `Log.Log.LogWrite` | log.c:213-233 | Panics exactly if the log is full by either limit or no operation is open; otherwise the block is listed once and its buffer is pinned. |
| `Log.Log.Commit` | log.c:192-202 | The writes reaching the device are a prefix of the commit's trace, all of it unless bget panics, which it does not when one buffer is spare. |
| `Log.Log.EndOp` | log.c:145-174 | The last operation out commits for everyone: its writes are the first k of the trace over the pinned blocks, and without a panic the transaction is applied in full and the log is empty. Only the buffers of the blocks the commit touches must be unlocked. |
| `Log.CommitHasBuffers` | log.c:177-190 | A commit that finds no buffer referenced never runs out of buffers, however full the log. |
| `LogSpace.LogFits` | log.c:125-174 | In every interleaving where each operation appends at most ten blocks, the header plus the open reservations fits LOGSIZE, and no operation is open during a commit. |
| `LogSpace.PanicReachableIff` | log.c:213-221 | Over every interleaving of begin_op, log_write and end_op, "too big a transaction" is unreachable if and only if operations append at most nine blocks. |
| `LoggedOps.NineNeverPanic` | log.c:213-233 | Operations that log at most nine different blocks, however often and however interleaved, never reach the panic. |
| `LoggedOps.FilewriteNeverPanics` | file.c:133-152 | Whatever chunks of whatever files are written in whatever interleaving, log_write does not panic. |
| `LoggedOps.ObservedIsAtomic` | log.c:192-202 | Anything that can be read off the home blocks, such as a file's bytes, is after a crash in a commit and any crashed recoveries what it was before or what the transaction made it. |
| `LoggedOps.WriteIsAtomic` | fs.c:491-521 | After a crash anywhere in the commit of what writei, a chunk of filewrite or itrunc logged, and any crashed recoveries, the disk shows every inode and the contents of every file as they were before the operation, or as it made them. |
| `FileImage.PackedRoundTrip` | fs.c:221-237 | ilock reads back from its slot of the inode block the size and addresses iupdate put there, and the other seven inodes as they were. |
| `FileImage.ImageNoted` | fs.c:221-237 | On the disk with all inodes in their blocks, every block that an operation changes is among those it logged. |
| `FileImage.ImageShows` | fs.c:288-311 | A disk that agrees with that one where inodes and data lie shows the same inodes and the same contents of every file. |
| `FileSystem.Fs.Balloc` | fs.c:56-78 | Takes the lowest free block, which becomes used and zero while nothing else changes; panics exactly when every block is used. |
| `FileSystem.Fs.Bfree` | fs.c:81-96 | Clears the block's bit and nothing else; panics exactly when the block is free already. |
| `FileSystem.Fs.Bmap` | fs.c:373-410 | Returns the file's block for every index below MAXFILE, allocating data and index blocks as needed on a block no file had; no other file's tree or bytes change, an existing block costs no write, every block that changes is logged, and it fails only beyond MAXFILE or on a full disk. |
| `FileSystem.Fs.Itrunc` | fs.c:417-445 | No block it frees is free already, so it never panics; the file is empty, every other file keeps its blocks and bytes, reachable blocks stay distinct and used, and every block and inode that changes is logged. |
| `FileTruncate.TruncateLeaks` | fs.c:426-441 | After itrunc no place refers to any of the file's former blocks; such a block is still marked used if and only if it was a data block below the second-level index. |
| `FileSystem.Fs.Readi` | fs.c:462-486 | Returns exactly the slice of the file from off, cut at its end, or -1 for a bad offset or a wrapping sum; allocates and changes nothing. |
| `FileSystem.Fs.Writei` | fs.c:491-521 | The file's bytes become the old ones with the source put in at off, every other file is as it was, ownership and the absence of holes are kept, memory and disk agree on the inodes, and every block and inode that changes is logged; -1 exactly for the refused ranges, changing nothing; panics only on a full disk. |
| `FileSystem.Fs.Filewrite` | file.c:117-156 | The file receives a prefix of the source at the offset, all of it or as many whole chunks as fit, by a sequence of operations each of which leads from a well-formed file system to one and logs all that it changes, at most nine blocks; "short filewrite" cannot happen. |
| `FileSystem.ChunkLogsNine` | file.c:133-140 | A chunk of filewrite, at any offset of any file, logs at most nine different blocks, although blocks are double-indirect. |
| `Directory.DirLookup` | fs.c:534-558 | Finds the first entry of the name, or reports that there is none. |
| `Directory.DirLink` | fs.c:561-588 | Refuses a name that is there, and otherwise puts the entry into the first empty place, all places before it being taken, or at the end if there is none; the name is then there. |
| `Directory.IsDirEmpty` | sysfile.c:168-181 | True exactly if no place behind "." and ".." is taken. |
| `LinkRuns.RunInv` | sysfile.c:118-284 | Every state of every run of create, link, unlink, lookups and iput from a fresh file system, with counts below the short limit, keeps links and names in step, also between the two halves of link and of unlink. |
| `LinkRuns.LinksSuffice` | sysfile.c:118-165 | In every run an inode's nlink is at least the number of its names plus the ".." of its linked children. |
| `LinkRuns.NamesNeverDangle` | sysfile.c:184-239 | In every run no name refers to a freed inode, so that neither "ilock: no type" nor "unlink: nlink < 1" can be reached through one. |
| `LinkRuns.DotDotOfNamed` | sysfile.c:241-284 | In every run the ".." of a directory that has a name is the directory that names it, and looking it up does not panic. |
| `LinkRuns.RootStays` | fs.c:332-353 | In every run the root directory is never freed. |
| `LinkRuns.IncrementIff` | sysfile.c:133-138 | sys_link's increment keeps the balance of links and names if and only if nlink is below the limit of a short. |
| `LinkRuns.DotDotDangles` | sysfile.c:184-239 | A run of nine operations after which a process inside a removed directory has a ".." that leads to a freed inode. |
| `LinkLimit.FreeKeepsIff` | fs.c:332-353 | Freeing a removed directory changes no other inode's surplus of links over what its names need if and only if nothing had been entered in it. |
| `LinkLaws.FailedLinkUndoes` | sysfile.c:158-164 | Below the limit of a short, sys_link's decrement after a failure restores the state before its increment. |
| `LinkLaws.StepExcess` | sysfile.c:118-284 | Every step of create, link, unlink, lookups and iput changes the surplus of links of every inode, over its names, its children's ".." and the calls under way, by exactly the names that go with a freed directory. |
| `LinkLaws.RunExcess` | sysfile.c:118-284 | In every run the surplus of an inode is what it was at the start plus all the names of it that went with freed directories. |
| `LinkLaws.CountsExact` | sysfile.c:118-284 | In every run in which each freed directory is empty, nlink exceeds names, ".." and calls under way only by what it did at the start. |
| `LinkLaws.UnnamedIsFreed` | fs.c:332-353 | In such a run an inode without names, children's ".." and calls under way is freed when its last reference is put: none leaks. |
| `LinkLimit.LimitReached` | sysfile.c:118-165 | A run, on a disk with two names, that takes a link count to the end of its range by links made in removed directories; one more link makes it negative, and unlinking the name then panics. |
| `Sume.FetchOfEncode` | from_ir.c:8-67 | The decoder recovers every encoded token and consumes exactly its bytes, unless it carries an immediate and is last in the program. |
| `Sume.RoundTrip` | from_ir.c:8-67 | Decoding an encoded program gives it back if and only if it does not end in a token with an immediate; otherwise the decoder reports an error. |
| `TypeList.GetTypeList` | to_ir.c:264-323 | Reads the list of types the text goes on with, through blanks and comments, and leaves it packed two bits at a time, whatever the buffer held, with nothing before it changed; fails exactly if there is no list. |
| `ToIr.NextToken` | to_ir.c:35-52 | Finds the first token whose whole name stands here, or that there is none. |
| `ToIr.GetInt` | to_ir.c:152-209 | Reads the number with its sign and radix as its value modulo 2^32, and fails exactly on a text that is none. |
| `ToIr.ParseSume` | to_ir.c:325-384 | Turns the text into the encoding of the program in it, and fails exactly if there is none. |
| `ToIr.TextRoundTrip` | to_ir.c:325-384 | From text to tokens: what the decoder reads from the bytes of any text with a program is that program, unless it ends in an immediate, and then an error. |
| `Listing.NamesTell` | sume_strs.h:1-53 | The 51 names are words without blanks, no two the same, and each token's name is told by five of its characters. |
| `Listing.NumberRead` | to_ir.c:152-209 | A number printed in base 2, 8, 10 or 16, with either sign and followed by a blank or the end of the text, is read back modulo 2^32. |
| `Listing.WordRead` | to_ir.c:152-209 | Every word is read back from its digits. |
| `Listing.TextOf` | to_ir.c:325-384 | Every program whose types are int and flt, printed one instruction on a line, is the program the parser reads. |
| `Listing.HasText` | to_ir.c:325-384 | A program is read from some text if and only if all its types are int or flt. |
| `Verifier.Verifier.PushT` | verif.c:22-33 | Pushes the type on the innermost frame's list, or fails without effect exactly when there is no frame or no room. |
| `Verifier.Verifier.PopT` | verif.c:35-44 | Pops the innermost frame's last type, and fails without effect exactly when that frame is empty: a pop never crosses a frame. |
| `Verifier.Verifier.PushFrame` | verif.c:47-58 | Opens an empty frame above the others, or fails without effect exactly when all 64 are in use. |
| `Verifier.Verifier.PopFrame` | verif.c:60-73 | Drops the innermost frame with its types and returns to the one below as it was left. |
| `Verifier.Verifier.Token` | verif.c:108-265 | One turn of the loop passes exactly when the typing rules have a step for the token, and leaves exactly that step's state in the shared stack and frame arrays. |
| `Verifier.PopulateFns` | populate_fns.c:43-131 | Succeeds exactly on bytes that decode, and then the table lists the declared functions of the decoded program. |
| `Verifier.Verify` | verif.c:95-267 | Accepts exactly the bytes that decode to a program every token of which passes, and so every program that has a typing within the limits. |
| `Soundness.VerifierSound` | verif.c:95-267 | Along every run of an accepted program, however long and whatever `ret` was compared with, operands, locals and frames have the types the verifier recorded at that point, and the run gets stuck if and only if it stands at a `ret` of an int function where the record has no int on top. |
| `Soundness.VerifierSoundFor` | verif.c:185-195 | A program whose record has an int on top at every `ret` of an int function never gets stuck. |
| `Completeness.RejectsOnly` | verif.c:95-267 | Inside a function a token is rejected only if it is a declaration, if `br`, `ret` or `trap` is not followed by `end`, if the function `ret` is compared with does not exist or wants an int the record lacks, if the types behind it exceed the stack or frame limit, or if a configuration of exactly the recorded types is stuck there. |
| `Typability.TypedIsAccepted` | verif.c:95-267 | Every program whose tokens can be given operand types such that no configuration of these types is stuck and every step leads to the types of the next token, within the limits, is accepted. |
| `Typability.AcceptedIsTyped` | verif.c:95-267 | The record of an accepted program, with its int at every `ret`, is such a typing. |
| `Typability.AcceptedIffTyped` | verif.c:95-267 | A program is accepted, with its int at every `ret`, if and only if it has such a typing. |
| `Returns.RecordsAlike` | verif.c:185-195 | Whatever `ret` is compared with, the records of two accepting runs agree everywhere but in the list right behind a `ret`. |
| `Returns.TypedIffMeant` | verif.c:185-195 | An accepted program has that int at every such `ret` if and only if it would be accepted too if `ret` were compared with the function it stands in. |
| `Returns.MeantIsSound` | verif.c:95-267 | The verifier with `ret` compared with the current function is sound: no run of a program it accepts is stuck. |
| `Returns.AgreeingIsTyped` | verif.c:189 | Where every `ret` of an int function was compared with an int function, it has its int. |
| `Typing.AcceptedIsTold` | verif.c:240-261 | An accepting run knows the current function at every token inside one, and never looked outside the table. |
| `Typing.RetsAlwaysAgreeIff` | verif.c:189 | Every `ret` of an int function is compared with an int function, whatever the variable read contains, if and only if the program has no such `ret` or no void function. |
| `Soundness.RetMustAgree` | verif.c:189 | A program of four tokens that is accepted when that variable names the wrong function, and is stuck at once. |
| `HeapBounds.FitsIff` | to_asm.c:334-398 | Every access that begins inside the heap stays inside if and only if the heap's size is a multiple of four. |
| `HeapBounds.RunNeverWild` | to_asm.c:334-398 | Along every run that starts with a heap of whole words the heap keeps its size and no access leaves it. |
| `HeapBounds.WildAtTheEnd` | to_asm.c:334-398 | For any other size, the 32-bit load at the last, incomplete word leaves the heap. |
| `IntegerLaws.BitwiseAt` | to_asm.c:154-246 | Bit k of the and, or, xor of two words is set exactly if both, at least one, exactly one of theirs is. |
| `IntegerLaws.BitwiseSum` | to_asm.c:148-246 | For all words a + b = or + and, and xor = or - and. |
| `IntegerLaws.RotlBit` | to_asm.c:200-206 | rotl by b moves bit i to bit (i + b) mod 32. |
| `IntegerLaws.RotationsUndo` | to_asm.c:200-213 | rotl and rotr by the same count undo each other. |
| `IntegerLaws.ShiftedLeftBit` | to_asm.c:214-220 | shl moves every bit up by the count modulo 32 and fills with zeros. |
| `IntegerLaws.ShiftedRightBit` | to_asm.c:228-234 | shr_u moves every bit down by the count modulo 32 and fills with zeros. |
| `IntegerLaws.ShiftedSigned` | to_asm.c:221-227 | shr_s is the signed number divided by a power of two, rounded down. |
| `IntegerLaws.QuotientRounds` | to_asm.c:160-199 | Dividend = divisor times quotient plus remainder, the remainder smaller than the divisor and of the dividend's sign. |
| `IntegerLaws.TrailIs` | sume_strs.h:4 | ctz counts the clear bits below the lowest set one. |
| `IntegerLaws.LeadIs` | sume_strs.h:3 | clz counts the clear bits above the highest set one. |
| `IntegerLaws.OnesIs` | sume_strs.h:5 | popcnt counts the set bits. |
| `X86.DecodeOfEncode` | instrs.c:32-561 | The processor reads back exactly the instruction an emitter wrote, with its length. |
| `Generator.Asm.Populate` | to_asm.c:91-513 | One pass over the program leaves every token at the same offset as the other pass, and fills, or has filled, the tables of blocks and functions with the addresses meant. |
| `Generator.ToAsm` | to_asm.c:515-526 | The output of the second pass is the translation of the whole program: entry and exit code, then every token's instructions at its offset, with every relative jump aimed at the loop head, the end of the block, the callee, the next token or the trap exit. |
| `Compiler.VerifiedIsTranslatable` | to_asm.c:91-513 | Every accepted program is translated; the generator's own stack heights and block nesting never fail on it. |
| `Steps.SimStep` | to_asm.c:129-513 | One step of the stack machine, by any token, calls and returns included, is a stretch of the processor's run ending in the related state: same heap, same operands, locals and frames on the machine stack, same code position. |
| `Steps.SimRun` | to_asm.c:129-513 | The same for whole runs of any length, with recursion to any depth that fits the stack. |
| `Compiler.CallReturns` | to_asm.c:20-65 | When the program returns, the call of the emitted code returns 0 to C, with the program's heap and the caller's registers and stack restored. |
| `Compiler.CallTraps` | to_asm.c:67-89 | When the program traps, at any call depth, the emitted code unwinds all frames and returns -1, with the heap as the program left it and the caller's registers restored. |
| `Toolchain.Translate` | umb2x86.c:46 | The verifier (as in umbverif.c) and then the translator: bytes are rejected exactly when they do not decode or a token fails; otherwise the output is the accepted program's translation. |
| `Toolchain.RunIsSafe` | verif.c:95-267 | At every point of every run of an accepted program, with a heap of whole words, no access leaves the heap, and the program is stuck exactly at a `ret` of an int function without an int on top in the record. |
| `Toolchain.EndToEnd` | to_asm.c:20-526 | From accepted bytes to the processor: the call of the emitted code returns 0 with the program's heap if the program returns, returns -1 with its heap if it traps, faults if it divides by zero, and if it comes to a function's closing `end` runs on into the next function or faults behind the last; no run leaves its heap, and a run is stuck exactly at a `ret` as in `Toolchain.RunIsSafe`. |
| `CodeLimits.SignedDivisionIff` | to_asm.c:160-198 | The emitted code of a signed division or remainder, wherever it stands in a run, pushes the word the language means, or faults where it traps, if and only if the operands meet an explicit condition; for the quotient that is a dividend below 2^31. |
| `CodeLimits.DivisionFaults` | to_asm.c:160-198 | A division by zero, where the language traps, makes the processor fault. |
| `CodeLimits.ArgumentLoaded` | to_asm.c:399-493 | A call followed by get_l in the callee loads the word three bytes per callee local above the argument. |
| `CodeLimits.ArgumentsFoundIff` | to_asm.c:476-493 | The callee finds its argument, whatever the memory holds, if and only if it has no locals: with locals there is memory from which the same code loads another word. |
| `CodeLimits.BranchKeepsIff` | to_asm.c:436-442 | After the code of `br` the processor's stack is the one the language's branch leaves if and only if the target block was opened without operands. |
| `CodeLimits.ScansDiffer` | to_asm.c:134-145 | The code of clz and ctz takes two operands and leaves the bit index of the lower one, never the stack the language means. |
| `CodeLimits.PopcntRightIff` | to_asm.c:146-147 | popcnt has no code, so it is right if and only if the operand is 0 or 1. |
| `CodeLimits.StoreLeaves` | to_asm.c:389-390 | str16 has no code and leaves its operands. |
| `ProcTable.Ptable.Wakeup1` | proc.c:476-484 | Exactly the processes asleep on the channel become runnable. |
| `ProcTable.Ptable.Exit` | proc.c:269-282 | The parent and, if a zombie child is handed over, init are woken; all children go to init; the caller is a zombie. |
| `ProcTable.Ptable.Scan` | proc.c:298-322 | The first zombie child is given back and its slot cleared; otherwise nothing changes, there is no zombie child, and the result says whether there are children at all. |
| `ProcTable.Ptable.AllocProc` | proc.c:72-92 | The first unused slot becomes an embryo with the next pid; fails exactly if there is none. |
| `ProcTable.Ptable.Kill` | proc.c:498-516 | The first entry with the pid is marked, and woken if asleep; fails exactly if no entry has the pid. |
| `Sleepers.RunInv` | proc.c:436-493 | The invariant of locks, sleepers, parents and births holds in every state of every run from boot, over all interleavings of all processors. |
| `Sleepers.SleepersHaveALock` | sleeplock.c:22-42 | In every run, if someone sleeps on a sleep lock whose spin lock is free, the lock is held by a process that is not a zombie: no wakeup is lost. |
| `Sleepers.OneHolder` | sleeplock.c:22-42 | In every run at most one process holds a sleep lock. |
| `Sleepers.NoZombieIsForgotten` | proc.c:246-331 | In every run a zombie's parent is a live process, and it is not asleep in wait. |
| `Sleepers.SleepersInWait` | proc.c:291-331 | In every run whoever sleeps on a process is that process itself, in wait. |
| `Sleepers.OneProcessor` | proc.c:341-401 | In every run no process is on two processors, and one that is on a processor is RUNNING unless it has the table's lock. |
| `Pipe.Channel.Write` | pipe.c:78-98 | Appends a prefix of the bytes to the stream of stored bytes; the ring always holds exactly the stored but undelivered bytes, at most 512, also when the 32-bit counters wrap; says when it sleeps or fails, and exactly when it leaves a reader asleep beside bytes to read. |
| `Pipe.Channel.Read` | pipe.c:100-121 | What is delivered continues the stream where it stopped; it sleeps only on an empty pipe that can still be written, and leaves no one asleep who could go on. |
| `Pipe.Channel.Close` | pipe.c:59-75 | Closes one end and wakes everyone waiting for it. |
| `Pipe.ReaderLeftAsleep` | pipe.c:78-98 | A reader that waits, and a killed writer with more than 512 bytes: the reader stays asleep beside a full pipe. |
| `FreeList.FreedRight` | umalloc.c:24-44 | Giving a block back keeps the list in address order with no two blocks touching, and adds exactly the block's units. |
| `FreeList.CarvedCovers` | umalloc.c:74-86 | The list after carving together with the piece is the old list. |
| `FreeList.SameList` | umalloc.c:24-44 | A merged list is determined by the units it holds. |
| `Umalloc.UnitsEnoughIff` | umalloc.c:69 | The units computed from the byte count hold the bytes if and only if the sum does not wrap. |
| `Arena.Heap.Free` | umalloc.c:24-44 | For any live block the search loop ends at its place, and the list becomes the old one with the block merged in; free and live blocks stay disjoint and together make up all memory obtained. |
| `Arena.Heap.Morecore` | umalloc.c:46-61 | Adds at least 4096 units at the address granted to the list, or reports failure and changes nothing. |
| `Arena.Heap.Malloc` | umalloc.c:63-90 | The block is new, disjoint and of the right size, taken from the first block after freep that fits; the kernel is asked at most once, exactly if no block fits; 0 only if the kernel refuses. |
| `Arena.FreeUndoesMalloc` | umalloc.c:24-90 | Giving back at once what malloc has carved off restores the list. |
| `Arena.FreeOrder` | umalloc.c:24-44 | In which order two blocks are given back makes no difference to the list. |
| `Arena.SbrkAsksIff` | umalloc.c:46-61 | The kernel is asked for the bytes of the units wanted if and only if they are fewer than 2^28; from there on the argument is zero or negative. |
| `Vm.Kernel.Kalloc` | kalloc.c:82-95 | Returns the first free page, which nobody else has, or 0 exactly if there is none. |
| `Vm.Kernel.Kfree` | kalloc.c:59-77 | The page is free again and only its bytes change. |
| `Vm.Kernel.Walk` | vm.c:35-55 | Finds the table page for an address, or makes an empty one if wanted; no translation changes, and it fails only if there is no table and none is wanted or no page is free. |
| `Vm.Kernel.Mappages` | vm.c:60-80 | Maps exactly the range, page by page; panics only on a page mapped already; stops early only when memory has run out, and then at a page without a table. |
| `Vm.Kernel.Setupkvm` | vm.c:118-136 | A new directory with the kernel's ranges and no user page, obtained exactly if there are more free pages than tables needed; on failure every page is back. |
| `Vm.Kernel.Allocuvm` | vm.c:221-249 | The pages between the sizes are fresh, zeroed and distinct, and no other translation or page changes; or 0 with none of them mapped and all of them free again, but for table pages. It succeeds exactly if as many pages are free as there are between the sizes plus the tables among them that are missing, and panics exactly if it comes to a page already mapped before memory runs out. |
| `Vm.Kernel.Deallocuvm` | vm.c:299-323 | Exactly the pages between the sizes are unmapped and free, also across missing tables; table pages stay. |
| `Vm.Kernel.GrowAndShrink` | vm.c:221-323 | allocuvm followed by deallocuvm between the same sizes: every translation is as before, and exactly the pages taken are free again, but for new table pages; the same if allocuvm fails, when nothing was mapped there. |
| `Vm.Kernel.Freevm` | vm.c:327-342 | The free pages are exactly the old ones together with every page, table and directory of the address space. |
| `Vm.Kernel.Copyuvm` | vm.c:371-399 | The child has equal bytes and flags at every page below the size, on frames that were free and are pairwise distinct, while the parent is untouched; it succeeds exactly if enough pages are free, and panics exactly if it comes to a page that is not mapped before memory runs out; on failure all pages are back, or exactly one is lost, if and only if memory ran out at a new table. |
| `Vm.CopyLeaks` | vm.c:388-392 | The smallest losing case: one user page, and one free page beyond the kernel's tables. |
| `Grep.MatchStar` | grep.c:99-106 | True exactly if some number of repetitions is followed by a text that begins with a word of the rest. |
| `Grep.MatchHere` | grep.c:85-96 | True exactly if some prefix of the text is a word the pattern denotes, the end of the text standing behind it where the pattern asks for it. |
| `Grep.Match` | grep.c:72-82 | True exactly if some substring of the text, tied by a leading ^ and a final $, is a word the pattern denotes. |
| `Grep.DollarIff` | grep.c:85-96 | A $ put behind a pattern makes it match exactly where a word of the pattern can end at the end of the text, if and only if the pattern does not already end in $. |

## Findings

Each of these is a property one would expect, a lemma with an input on which it fails, and where possible the exact
condition under which it holds.

- Admission to the log reserves ten blocks per operation but one of the 30 log blocks is the header: the panic "too big
  a transaction" is reachable if and only if an operation may append ten blocks (`LogSpace.PanicReachableIff`).
  `filewrite` stays below (`LoggedOps.FilewriteNeverPanics`).
- `ret` in `verif.c` compares with the function a stale variable names. A program can be accepted and get stuck
  (`Soundness.RetMustAgree`). Exactly one thing can go wrong: a `ret` of an int function with no int on top
  (`Soundness.VerifierSound`). Every such `ret` has its int if and only if the program would also be accepted with the
  comparison as it was meant (`Returns.TypedIffMeant`), and then no run is stuck (`Returns.MeantIsSound`).
- `itrunc` frees the second-level index blocks but not the data blocks they list. These stay marked used for ever
  (`FileTruncate.TruncateLeaks`).
- Signed division clears EDX instead of extending the sign; it is right if and only if the dividend is not negative,
  and the remainder under its own condition (`CodeLimits.SignedDivisionIff`). A division by zero faults instead of
  trapping (`CodeLimits.DivisionFaults`).
- A call reserves one byte per local of the callee where the callee expects four: arguments are found if and only if
  there are no locals (`CodeLimits.ArgumentsFoundIff`).
- A branch drops the operands to height 0, not to the target's height; it is right if and only if that is 0
  (`CodeLimits.BranchKeepsIff`).
- The bounds test of a 32-bit access looks at the first byte only: accesses stay inside if and only if the heap's size
  is a multiple of four (`HeapBounds.FitsIff`, `HeapBounds.WildAtTheEnd`).
- The decoder rejects an immediate that ends exactly at the end of the program (`Sume.RoundTrip`).
- A killed writer can fill a pipe and leave without waking the reader (`Pipe.ReaderLeftAsleep`); `Pipe.Channel.Write`
  says exactly when.
- `malloc` computes the units modulo 2^32 (`Umalloc.UnitsEnoughIff`), and for 2^28 units or more `sbrk` is asked for
  nothing, or to give memory back (`Arena.SbrkAsksIff`).
- `copyuvm` loses a page if memory runs out when a new table is needed (`Vm.Kernel.Copyuvm`, `Vm.CopyLeaks`).
- The ".." of a directory that was removed while a process is inside it can refer to a freed inode, and then looking it
  up panics (`LinkRuns.DotDotDangles`). The ".." of a directory with a name cannot (`LinkRuns.DotDotOfNamed`).
- Names entered in a directory that has been removed go with it, and the links they gave stay (`LinkLimit.FreeKeepsIff`).
  Nothing else makes a count differ from what it stands for (`LinkLaws.StepExcess`, `LinkLaws.CountsExact`).
  So a link count can reach the limit of a short, where it wraps (`LinkRuns.IncrementIff`), and a file with a name then
  has a negative count (`LinkLimit.LimitReached`).
- clz and ctz take one operand too many, and popcnt and str16 have no code (`CodeLimits.ScansDiffer`,
  `CodeLimits.PopcntRightIff`, `CodeLimits.StoreLeaves`).
- A function's closing `end` has no code, so control runs on into the next function (`Toolchain.EndToEnd`).

## Left out

- Toolchain.EndToEnd: speaks of programs without clz, ctz, popcnt and str16 whose blocks and function bodies open and close without operands and whose called functions have no locals, of runs whose heap is of whole words, whose signed dividends are not negative and whose frames fit the stack, and of code loaded at address 0; `CodeLimits` says what the code does in the other cases of tokens, blocks, locals and dividends. What the processor does at a `ret` that has no int is not stated, nor what it does after running on behind a function's closing `end`.
- Compiler.CallReturns: the same conditions.
- Compiler.CallTraps: the same conditions; a division by zero is not such a trap but a fault.
- Steps.SimStep: the same conditions.
- Steps.SimRun: the same conditions.
- Toolchain.Translate: the two commands umbverif and umb2x86 are used one after the other; here the second follows the first.
- FileSystem.Fs.Filewrite: for a disk whose bitmap is one block, as mkfs makes it.
- FileSystem.Fs.Readi: plain files; the device branches of readi and writei are not part of this model.
- FileSystem.Fs.Writei: inodes are a table beside the disk; `FileImage` puts their size and addresses into the inode blocks, the type, device and link fields are not there.
- Log.Log.EndOp: with the buffers of the blocks the commit touches unlocked, where the source would wait for them; the commit runs at once; that other processes go on reading meanwhile is in `CacheRuns`, that none may begin an operation in `LogSpace`.
- BufferCache.BCache.Bread: by a process that finds the buffer's lock free; waiting for it is in `CacheRuns` and `Sleepers`.
- Arena.Heap.Malloc: for fewer than 2^28 units; `Arena.SbrkAsksIff` says what is asked of the kernel beyond.
- Vm.Kernel.Deallocuvm: for sizes up to KERNBASE, as all callers keep them.
- Vm.Kernel.Copyuvm: page tables are kept apart from the bytes of user pages, and flags are numbers of which only "present" has a meaning.
- Vm.Kernel.Mappages: for ranges of the kernel's half; user pages are mapped one by one inside `Vm.Kernel.Allocuvm` and `Vm.Kernel.Copyuvm`. A wrapping end address is not part of this model.
- Directory.DirLink: a directory that cannot grow (writei failing inside dirlink) is not part of this model.
- LinkRuns.RunInv: a step is what a system call does under the inode locks it holds; path walking is a sequence of lookups, and runs keep link counts below the limit of a short.
- Sleepers.RunInv: spin locks are atomic; interrupts happen between the modelled operations only, as yields; the pids and memory of new processes are those `ProcTable` gives.
- Pipe.Channel.Write: a process sleeps at most once per call of the method and calls it again when woken, with the bytes left.
- Verifier.PopulateFns: the tables for functions and their types are unbounded; the source has fixed sizes and does not test them.
- Verifier.Verify: the tables for functions, parameters and locals are unbounded; the source has fixed sizes and does not test them.
- Generator.ToAsm: output is appended to a sequence; the growth of `dyn_arr.c` is not part of this model.
- ToIr.ParseSume: the buffer for one instruction is as large as needed; the source has 100 bytes and does not test it. Floats, which no token uses, are not part of this model.
- TypeList.GetTypeList: behind the end of the text there is no closing parenthesis; the source looks at one byte there.
- allocxuvm, loaduvm, inituvm and copyout: close relatives of allocuvm and copyuvm.
- The file table (filealloc, filedup, fileclose) and the inode cache's slots: reference counts without further structure.
- ialloc and iget as table scans; `ide.c`, `lapic.c`, boot code and other hardware: a block transfer is one step.
- exec, system call dispatch, the console, the shell, printing and the user commands other than the matcher of grep.
- Liveness: that a process asleep is eventually woken is not stated; that a wakeup is due and not lost is.
