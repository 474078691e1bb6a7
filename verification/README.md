# Verified models of miniz's DEFLATE codec and wasm3's compiler

Two parts of the repository are modelled, with their data structures, branches and constants, and
proved correct; a third, smaller one is the index of a ZIP directory.

**The DEFLATE codec** (`kernel/miniz/miniz.c`). The compressor takes bytes into a mirrored 32 KB
dictionary, finds matches along hash chains, parses lazily, records codes in a packed buffer, sorts
symbol counts by radix, finds code lengths in place in one array, limits them, packs them, and writes
bits into a fixed buffer, through a plain path or a 64-bit one. The decompressor is one coroutine that
stops wherever input or room runs out, with a 10-bit lookup table, an overflow tree and several copy
loops. Both are classes with the record's fields. Between them stands `InflateMachine`, a small-step
reading of RFC 1951: what the compressor writes takes this machine to the source bytes, and every call
of the decompressor follows the machine's steps. Together: whatever is compressed comes back, however
the stream is cut up and through whatever windows the output is written.

**The wasm3 compiler** (`kernel/wasm3/source/m3_compile.c`), for functions on `i32` with locals,
globals, memory and structured control. `WasmSemantics` says what code means and `WasmValidation` which
code is valid; `ThreadedMachine` is the machine the compiler emits for, in which a loop is a native
call that returns the address of the loop to go on with. The compiler keeps operands in counted slots,
in a pool of constants, as references to locals that are copied only when a local changes, or in one
register; forward branches are patched at the end of their block. The theorem is that the emitted code
does what the function does: it returns the same value, traps alike, leaves the same globals and memory,
and goes on for ever exactly when the function does. It is proved of functions on values; the class
`Compilation`, whose methods update the record of the source in place, is shown to compile as they say,
and the class `Machine` to run as `ThreadedMachine` says, so that `CompileAndRun.CompileAndCall`, which
compiles into the one and runs on the other, ends as the function does.

The compiler emits to tapes without an end, and keeps a log of what it emits. On real pages an operation
takes as many lines as it has words, and a bridge leads on where lines get scarce: `PagedMachine` shows that
running pages laid out in that way is running the tape, `PageEmission` that emitting on pages with the lists
of open and full pages (`CodePages`) lays them out so, and `Transcription` that whatever the compiler has
emitted can be carried out so, step by step. `PagedFunction.CompileToPages` compiles a function onto pages,
and what they hold does what the function does.

**The ZIP directory index** (`kernel/miniz/miniz.c`): the heap sort of the names in place, the search by
bisection, their agreement with a scan of the directory, and locating a file by the one or the other.

Some results settle questions that the source leaves open.

- The source falls back to the fixed codes in case a block with codes of its own does not fit the output
  buffer, which it calls extremely unlikely if not impossible. It is impossible
  (`BlockLength.DynamicFits`): limiting code sizes to 15 bits costs at most one bit for each 176 symbols
  of the alphabet and each occurrence (`LimitCost.LimitingCosts`), so that no flush ever loses bytes.
- Before a block the compiler looks for references to locals under the indices of the locals instead of
  under their slots. The two differ from the second parameter on, and then the property is false:
  `Miscompiled.CulpritMiscompiled` names a function that returns the wrong value, and
  `Miscompiled.RightForEveryBody` says that functions of a given shape are all compiled right if and only
  if they have at most one parameter. With more parameters a body is compiled right as long as compiling it
  never comes to an assignment to a local that an operand from outside the block refers to (`Sheltered`, the
  condition of `CompileFunction.FunctionImplements`). The condition is sufficient and not necessary: it does
  not ask whether the operand is used again, or whether the local really gets another value.
- The index of a ZIP directory finds the entry that a scan finds for every name that at most one entry has
  up to case (`DirectoryIndex.OnceAgrees`), and for no number of copies from two on can it be relied on to
  (`DirectoryIndex.CopiesDiffer`): whatever the directory, it does if and only if there is at most one copy
  (`DirectoryIndex.SameIfUnique`).
- A code never gets longer than 30 bits before it is limited, so that the 32 counters for code sizes
  suffice (`Huffman.LeafDepthBound`).

Modules follow the source's functions; a file's first lines name the lines it models.

| part | modules |
|---|---|
| Bits, sums and options | `Arith`, `Bits`, `SymbolSums`, `Wrappers` |
| Huffman codes | `RadixSort`, `Huffman`, `Optimality`, `CodeLimit`, `LimitCost`, `Canonical`, `HuffTable` |
| Tables sent and decoded | `CodeSizeRle`, `FastTable`, `TableTrim` |
| What a stream means | `Tokens`, `InflateMachine`, `InflateRun`, `InflateWait`, `InflateSteps` |
| Writing blocks | `BitWriter`, `BlockBits`, `LzCodes`, `BlockEncoder`, `FastBits`, `BlockStart`, `TokenCounts`, `BlockLength`, `BlockFlush` |
| Blocks decoded | `BlockDecode`, `HeaderDecode`, `BlockRoundTrip` |
| The checksum | `Adler32` |
| The compressor and the decompressor | `LzWindow`, `Compressor`, `InflateBits`, `InflateOut`, `Inflater`, `Codec` |
| WebAssembly | `WasmValues`, `WasmSemantics`, `WasmValidation` |
| The machine | `ThreadedMachine`, `MachineRuns` |
| Compiling | `SlotAllocator`, `PlainCompile`, `ControlCompile`, `FunctionFrame`, `CompileFunction` |
| Compiling and running in place | `CompileSteps`, `EmissionLog`, `Compilation`, `Interpreter`, `CompileAndRun` |
| What compiling keeps | `PlainInvariants`, `ControlGuards`, `ControlStructure`, `ControlHeights`, `BlockAssignments` |
| Code on pages | `PagedMachine`, `PageLayout`, `CodePages`, `PageEmission`, `Transcription`, `PagedFunction` |
| The ZIP directory | `DirectoryIndex` |
| Compiled code against its meaning | `PlainSimulation`, `ControlOutcomes`, `BlockSimulation`, `BranchSimulation`, `ControlSimulation`, `Miscompiled` |

## Model

| member | source | states |
|---|---|---|
| `RadixSort.RadixSortSyms` | kernel/miniz/miniz.c:732-762 | the result is a permutation of the symbols in ascending order of their counts, whichever of the two arrays the passes end in |
| `Optimality.CalculateMinimumRedundancy` | kernel/miniz/miniz.c:765-819 | the one array that holds counts, sums, links and depths ends with code lengths that fill the code space, are no longer for more frequent symbols, are at most 30, and cost no more than those of any prefix code |
| `Optimality.TreeIsMinimum` | kernel/miniz/miniz.c:765-819 | the depths of the leaves of the tree that the greedy merges build are such code lengths, given the history of the merges |
| `Huffman.LeafDepthBound` | kernel/miniz/miniz.c:822-825 | a symbol's count times the Fibonacci number of its parent's depth is at most the sum of all counts, and with a sum below 65536 no code is longer than 30 |
| `CodeLimit.EnforceMaxCodeSize` | kernel/miniz/miniz.c:821-848 | limiting ends, keeps the number of codes, leaves no negative count, fills the code space exactly, and lengthens a code only if keeping it with the rest at the limit would not leave room |
| `LimitCost.LimitingCosts` | kernel/miniz/miniz.c:821-848 | code lengths of least cost cost at most one bit more for each 176 symbols and each occurrence once they are limited to 15 |
| `HuffTable.TableNearOptimal` | kernel/miniz/miniz.c:862-885 | the sizes of a table of counts, however its symbols were sorted, cost at most that much more than the sizes of any prefix code for the same counts |
| `HuffTable.OptimizeHuffmanTable` | kernel/miniz/miniz.c:850-901 | used symbols and no others get sizes, more frequent ones no longer ones, within the limit and filling the code space; every symbol gets its canonical code, reversed |
| `Canonical.PrefixFree` | kernel/miniz/miniz.c:887-900 | no canonical code of a feasible table begins another one |
| `FastTable.BuildTable` | kernel/miniz/miniz.c:2511-2572 | building fails exactly for sizes that are neither complete nor a single code, and otherwise lookup and tree together lead every codeword to its symbol, without running out of tree entries |
| `FastTable.Capacity` | kernel/miniz/miniz.c:2543-2570 | a complete table of at most 288 symbols has fewer than 288 prefixes beyond ten bits, so that the 576 tree entries suffice |
| `FastTable.DecodeSymbol` | kernel/miniz/miniz.c:2347-2379 | with a complete table looking a symbol up gives, for every content of the bit buffer, the one symbol whose codeword comes next, and its size; with an incomplete one it does so whenever a codeword comes next |
| `InflateMachine.NeverBad` | kernel/miniz/miniz.c:2521-2534 | canonical codes of feasible sizes have a symbol to read at every place of every bit string, unless it ends too early, if and only if they are complete |
| `CodeSizeRle.PackCodeSizes` | kernel/miniz/miniz.c:921-1029 | expanding the packed items gives the sizes back, the packed form is no longer than the sizes, and every code is counted as often as it occurs |
| `BlockStart.StartDynamicBlock` | kernel/miniz/miniz.c:969-1054 | the bits put are a header that describes the used beginnings of the tables in use, both tables can be decoded, and both are near the least cost |
| `BlockEncoder.CompressLzCodes` | kernel/miniz/miniz.c:1175-1220 | the bits put are those of the recorded codes and the end of the block, and the result tells whether they fit the buffer |
| `FastBits.CompressLzCodesFast` | kernel/miniz/miniz.c:1081-1171 | the 64-bit version puts exactly the same bits, or reports that they do not fit in exactly the same cases |
| `LzCodes.LzCodes.Finish` | kernel/miniz/miniz.c:1247-1248 | after the last flags are shifted down the buffer is exactly the packed form of the codes recorded |
| `BlockRoundTrip.DynamicRoundTrip` | kernel/miniz/miniz.c:969-1230 | a block with tables of its own, wherever it begins in a stream, takes the inflate machine from its first bit to its end with exactly the bytes that its codes stand for |
| `BlockRoundTrip.StaticRoundTrip` | kernel/miniz/miniz.c:1056-1076 | the same for the fixed tables |
| `BlockRoundTrip.RawRoundTrip` | kernel/miniz/miniz.c:1262-1285 | the same for a stored block, with the padding in front of its lengths |
| `TokenCounts.StaticFits` | kernel/miniz/miniz.c:1286-1292 | a block with the fixed codes takes at most 81924 bytes, whatever a full code buffer holds |
| `BlockLength.DynamicFits` | kernel/miniz/miniz.c:1286-1292 | so does a block with tables made from the counts of its codes, whatever the counts are: the fallback is never needed |
| `BlockFlush.PutBlock` | kernel/miniz/miniz.c:1258-1292 | whichever form is chosen, stored, fixed or dynamic, and after whichever restart, the block put decodes to the bytes of its codes and leaves room for what a flush appends |
| `Compressor.Compressor.FindMatch` | kernel/miniz/miniz.c:1438-1480 | any match found lies in the dictionary, is as long as stated and really repeats the bytes ahead, whatever the hash chains hold, and is longer than the one to beat |
| `Compressor.Compressor.Decide` | kernel/miniz/miniz.c:1796-1833 | after each step replaying the recorded codes gives the source up to the position, but for the one byte of a match held back |
| `Compressor.Compressor.FlushBlock` | kernel/miniz/miniz.c:1232-1365 | what is delivered continues what was delivered before, byte for byte and without a gap, the stream stands for the source up to the end of the block, and the block starts anew |
| `Compressor.Compressor.Compress` | kernel/miniz/miniz.c:1877-1943 | all input is taken in; after a sync or full flush the bytes delivered stand for all of it and end at a byte boundary; after a finish they are a complete stream for all input of all calls |
| `InflateRun.FinalUnique` | kernel/miniz/miniz.c:2404-2797 | the inflate machine ends in one way only |
| `InflateWait.WaitPast` | kernel/miniz/miniz.c:2266-2345 | where the machine waits at the end of a beginning of a stream, its next step on the whole stream ends beyond it |
| `InflateSteps.OwedAhead` | kernel/miniz/miniz.c:2445-2471 | in a state that asks for room the final output is longer than the output so far |
| `Inflater.Decompressor.FillForSymbol` | kernel/miniz/miniz.c:2312-2339 | input bytes are taken only until the next symbol can be decoded, and running out means that it cannot be |
| `Inflater.Decompressor.CopyFast` | kernel/miniz/miniz.c:2727-2769 | copying a match by eight bytes, by threes and the rest arrives where the machine does, which copies byte by byte, overlap included |
| `Inflater.Decompressor.ArraysFit` | kernel/miniz/miniz.h:891-898 | at every stop the saved arrays are within the record's sizes and the bit buffer is below 2^61 |
| `Inflater.Decompressor.Decompress` | kernel/miniz/miniz.c:2381-2820 | from any stop a call goes on as the machine does: it ends for lack of input only where the machine needs more, for lack of room only where a byte is owed, otherwise where the machine ends, and it gives back every byte it did not need |
| `Codec.InflatesUnique` | kernel/miniz/miniz.c:2381-2820 | a complete stream stands for one string of bytes |
| `Codec.CompressBuffer` | kernel/miniz/miniz.c:1996-2009 | the output is a complete stream for the input, for every kind of block and every way of lazy, greedy, run-length or filtered parsing |
| `Codec.DecompressToCallback` | kernel/miniz/miniz.c:2901-2928 | through a 32 KB ring, passed on piece by piece, a complete stream gives exactly its bytes, and exactly its own length is used |
| `Codec.DecompressPieces` | kernel/miniz/miniz.c:2801-2820 | so it does however the stream is cut into pieces and whatever positive windows the output is written through, into any buffer of at least that length |
| `Codec.RoundTrip` | kernel/miniz/miniz.c:1996-2928 | compressing and then decompressing, with any cuts and windows, is the identity |
| `Adler32.MzAdler32` | kernel/miniz/miniz.c:39-65 | in 32-bit arithmetic, eight bytes at a time and with remainders only after every 5552 bytes, the result is the checksum of RFC 1950, which takes them after every byte |
| `Adler32.BlockFits` | kernel/miniz/miniz.c:42-63 | no sum overflows within a block, whatever 16-bit values it starts from |
| `Adler32.LongerOverflows` | kernel/miniz/miniz.c:42-63 | with any longer block the second sum can overflow |
| `Adler32.ChecksumPieces` | kernel/miniz/miniz.c:1926-1927 | the checksum of the data of all calls is that of each call's data, started from the one before |
| `Adler32.ChangeDetected` | kernel/miniz/miniz.c:2847-2848 | changing any one byte changes the checksum |
| `SlotAllocator.BelowNextFrame` | kernel/wasm3/source/m3_compile.c:346-358 | every operand and constant is below the slot where the frame of a callee would begin |
| `PlainInvariants.PlainKeeps` | kernel/wasm3/source/m3_compile.c:231-510 | every instruction without control flow, on reachable or unreachable code, keeps usage counts equal to the numbers of operands, constants pooled, locals apart and the register with one operand; it leaves what lies below its block alone if it does not assign to a local that something there refers to |
| `PlainSimulation.PlainRelated` | kernel/wasm3/source/m3_compile.c:1057-1168 | running what is emitted for such an instruction does what it means: every operand is then where the compiler says it is and every local's slot holds its value; traps are alike |
| `PlainSimulation.StraightLineRelated` | kernel/wasm3/source/m3_compile.c:1747-1930 | so does running what is emitted for any sequence of them, for any number of parameters |
| `WasmValidation.CodeSafe` | kernel/wasm3/source/m3_compile.c:2164-2230 | valid code never gets stuck, whatever the fuel, and leaves or branches with operands as high as its type says |
| `ControlStructure.CodeGrows` | kernel/wasm3/source/m3_compile.c:2164-2265 | compiling any code keeps the allocation invariant, changes no line emitted before except pointers still to be filled in, and leaves only pointers that the open blocks will fill in |
| `ControlHeights.CodeTracks` | kernel/wasm3/source/m3_compile.c:2164-2230 | on reachable code the compile-time stack is as high as validation says |
| `MachineRuns.NextTurn` | kernel/wasm3/source/m3_exec.c:247-267 | a turn of a loop that returns the loop's own address is followed by another turn, and starves when that does |
| `BranchSimulation.BrDoes` | kernel/wasm3/source/m3_compile.c:1171-1257 | a compiled branch arrives at the patched end of its block with the value in the register, or returns the address of its loop |
| `ControlSimulation.CodeDoes` | kernel/wasm3/source/m3_compile.c:1555-1635 | running what is compiled for any nesting of blocks, loops, ifs and branches comes to what the code comes to, with operands and locals where the compiler says they are |
| `FunctionFrame.SetUpSound` | kernel/wasm3/source/m3_compile.c:2345-2395 | laying out parameters, locals and constants establishes the allocation invariant and gives every local the slot that the caller and the entry operation use |
| `CompileFunction.FunctionImplements` | kernel/wasm3/source/m3_compile.c:2333-2410 | a compiled function returns what the function returns, traps when it traps, with the same globals and memory, and is unfinished as long as the function is, if compiling it never comes to an assignment to a local that an operand from outside the block refers to |
| `CompileFunction.TerminateTogether` | kernel/wasm3/source/m3_compile.c:2333-2410 | it returns if and only if the function does |
| `CompileFunction.FewSheltered` | kernel/wasm3/source/m3_compile.c:2353-2370 | with at most one parameter every body is one that the theorem covers |
| `CompileFunction.ApartSheltered` | kernel/wasm3/source/m3_compile.c:1525-1553 | so is, for any number of parameters, every body that in blocks assigns only to locals whose slots are indices of locals; without blocks that is every body |
| `WasmValues.LoadAfterStore` | kernel/wasm3/source/m3_exec.h:755-886 | a load of as many bytes as were stored gives them back, extended by its sign or by zeros, and a load of other bytes gives what it gave before, traps included |
| `Compilation.Compilation.FindReferencedLocalWithinCurrentBlock` | kernel/wasm3/source/m3_compile.c:856-893 | the loop over the compile-time stack moves every reference to the local, and no other operand, to one free slot, counts them there, and gives up exactly when there is no slot or a count overflows |
| `Compilation.Compilation.CompileStatements` | kernel/wasm3/source/m3_compile.c:2164-2195 | on a record in order, on reachable or unreachable code, the loop over a block's instructions leaves the record, the lines and the patches as compiling says, or gives up exactly when it does, and stays within its arrays |
| `Compilation.CompileOne` | kernel/wasm3/source/m3_compile.c:2333-2410 | compiling with a cleared record succeeds exactly when compiling as a function of values does, and with the same code, constants and frame; what was emitted is logged step by step, and every step was possible |
| `Interpreter.Machine.Run` | kernel/wasm3/source/m3_exec.c:247-267 | on code that is never lost the operations, writing slots, globals and memory in place, end as the machine does after as many steps, loops by native calls included |
| `CompileAndRun.CompileAndCall` | kernel/wasm3/source/m3_exec.c:198-240 | compiling a function and calling it ends as the function does: the result in slot 0, or the same trap, with the same globals and memory; only for lack of time does it end otherwise |
| `PagedMachine.PagesReturn` | kernel/wasm3/source/m3_emit.c:13-36 | over bridges, and with real addresses in place of those on the tape, the run of the pages returns what the run of the tape returns, addresses of loops included |
| `PagedMachine.PagesUnfinished` | kernel/wasm3/source/m3_emit.c:13-36 | and it is unfinished as long as that of the tape is |
| `CodePages.Runtime.AcquireCodePageWithCapacity` | kernel/wasm3/source/m3_env.c:223-246 | the page acquired has the lines asked for and was not active, and is a new one only if no open page has as many; every page stays in one of the lists or active, open and full and active ones add up to all, and no page is used beyond its end |
| `CodePages.Runtime.ReleaseCodePage` | kernel/wasm3/source/m3_env.c:862-877 | so it does for a page given back, which goes to the full ones exactly if it has fewer than six lines left, and no line changes |
| `PageEmission.Emission.EmitOp` | kernel/wasm3/source/m3_emit.c:49-70 | the operation comes next on its tape, with or without a bridge; addresses given out before stay good, the page never overruns, and two lines are left for the next bridge |
| `PageEmission.Emission.FillIn` | kernel/wasm3/source/m3_compile.c:703-733 | filling a reserved pointer in on the page fills it in on the tape, and changes nothing else |
| `PageEmission.Emission.StartElse` | kernel/wasm3/source/m3_compile.c:1574-1585 | the other branch of an if begins a tape of its own on a page that no open tape goes on on |
| `Transcription.Transcriber.PerformAll` | kernel/wasm3/source/m3_emit.c:13-104 | whatever the compiler has emitted can be carried out on pages, with real addresses in its pointers: nested other branches, pointers filled in and bridges included |
| `PagedFunction.OnPages` | kernel/wasm3/source/m3_compile.c:2333-2410 | wherever the bridges are, what is true of a compiled function on its tape is true of it on pages that the tape is laid out on: it returns or traps as the function does, and goes on as long |
| `PagedFunction.CompileToPages` | kernel/wasm3/source/m3_compile.c:2333-2410 | compiling a function onto the pages of a runtime puts lines on them that, run from the address returned, do what the function does for all arguments, globals and memories; compiled or not, no page is left active that was not before |
| `DirectoryIndex.HeapSortSorts` | kernel/miniz/miniz.c:3441-3491 | heap sort leaves the indices in the order of their names up to case, and only reorders them |
| `DirectoryIndex.SortByFilename` | kernel/miniz/miniz.c:3441-3491 | the loops on the array of indices sort it so |
| `DirectoryIndex.IndexAgrees` | kernel/miniz/miniz.c:4262-4301 | bisection finds an entry exactly when the scan does, with the same name up to case, and the scan's entry is the first one with that name |
| `DirectoryIndex.OnceAgrees` | kernel/miniz/miniz.c:4312-4370 | it is the same entry for every name that at most one entry has up to case, whatever the other names are |
| `DirectoryIndex.CopiesDiffer` | kernel/miniz/miniz.c:4312-4370 | with any number k of equal names from two on the index gives entry (k - 1) / 2 + 1 and the scan entry 0 |
| `DirectoryIndex.SameIfUnique` | kernel/miniz/miniz.c:4312-4370 | the two agree in every directory with k copies of a name if and only if k is at most one |
| `DirectoryIndex.LocateFile` | kernel/miniz/miniz.c:4312-4376 | whatever the flags, the comment and the index, the entry located is one of those asked for, and none is exactly if there is none; without the index it is the first one; a name or comment that is too long is an error only for the scan |
| `Miscompiled.CulpritMiscompiled` | kernel/wasm3/source/m3_compile.c:1525-1546 | with two parameters or more, getting the last local before a loop that sets it gives the new value instead of the old one |
| `Miscompiled.RightForEveryBody` | kernel/wasm3/source/m3_compile.c:1525-1546 | whatever the body, functions of a given shape are compiled right if and only if they have at most one parameter |

## Left out

- Codec.CompressBuffer: the zlib header and trailer around the stream (the checksum in the trailer is `Adler32`), a put-buffer callback that fails, and the buffer-to-buffer mode, in which part of a block may wait for the next call.
- Compressor.Compressor.Compress: `tdefl_compress_fast`, which one probe with greedy parsing selects, and the wrap of the 32-bit position after 4 GB.
- Compressor.Compressor.FindMatch: the version that compares 16 bits at a time; the byte-wise version is modelled.
- Inflater.Decompressor.Decompress: streams that end in no state of the machine, the zlib header and the comparison with the checksum after the stream, a ring that is not as large as the farthest distance, and another output buffer for each call; `m_dist_from_out_buf_start` is computed anew instead of being saved, and the order of the first byte in the loop for two symbols at a time is not distinguished.
- CompileFunction.FunctionImplements: with two parameters or more, bodies in which a block assigns to a local that an operand from outside the block refers to; `Miscompiled` shows why. Of these it does not tell the ones that come out right nevertheless.
- FunctionFrame.SetUp: the estimate of constant slots is a parameter instead of a scan of the body for opcode bytes.
- ControlCompile: instructions are a tree instead of bytes; `Compilation` emits to tapes without an end and keeps a log, which `Transcription` carries out on pages in the same order once the function is compiled, and not at all if compiling fails; a pointer to be filled in and the list of patches, in the source linked records, are values, and so are the open blocks, in the source records on the native stack.
- ThreadedMachine: the macros for `i32` operators are the same functions in the semantics and in the machine, so that nothing is said about their C text; the check for stack overflow in the entry operation; the frame of the caller. A tail call to the next operation is the next turn of a loop, and every run has a number of steps.
- Floats, 64-bit values, calls, `memory.size`, `memory.grow`, `return`, `unreachable` and branch tables.
- PlainCompile.CompileSelect: on unreachable code with fewer than two operands the source emits a null operation; the model emits one that is never run.
- CodePages.Runtime.AcquireCodePageWithCapacity: allocation that fails, pages that another runtime has left behind, and the count of users of a page; the lists, linked through the pages in the source, are sequences.
- PageEmission.Emission.EmitOp: an operation and its immediates are written at once; branch tables, which reserve lines for themselves.
- DirectoryIndex.LocateFile: entries are names and comments instead of headers in the directory's bytes, and an archive that is not open for reading.
- Reading and writing ZIP files.
- Tables of the source that follow a rule are written as the rule; bits that do not overlap are added instead of combined by or; a code-size item holds its extra bits beside its code.
- Arrays that only grow to their fixed size (`m_raw_header`, `m_table_sizes`, `m_len_codes`) are sequences; `Inflater.Decompressor.ArraysFit` says that they stay within it.
