# Verified models of Quadrants analyses, scan kernels and image codecs

Quadrants is a compiler for parallel kernels. This project models its hardest analyses, its parallel prefix
sum and the image codecs that it ships, and proves what the rest of the system relies on. All statements are
about every input, every program or every run.

| area | files | main results |
|---|---|---|
| store destinations of functions | `StoreDests` | Tarjan's algorithm with merged results computes reachability; when the outcome is exact |
| control-flow graph | `Cfg`, `CfgBuilder`, `CfgRuns` | every run is a path through the graph; when every path is a run |
| zlib | `Bits`, `BitReverse`, `Huffman`, `Deflate`, `Inflate`, `BitWriting`, `Matcher`, `Adler`, `Zlib` | decompression inverts compression, of any number of blocks, and succeeds on streams of the format only; canonical codes are prefix-free and decoded by both paths |
| PNG and Radiance rows | `Png`, `Hdr` | the readers invert the writers and follow the rule of the format; when the Radiance reader does not end |
| parallel loops | `Words`, `LoopUnique`, `Alias`, `UniquePointers`, `DynamicIndexing` | accepted fields are accessed by one iteration per cell; the flagged pointers have a closed form |
| local variables | `Ssa`, `ImmutableLocals`, `EliminateLocals`, `StoreForwarding`, `ConstExpr` | when eliminating immutable variables preserves every run; forwarding and constant propagation are sound |
| statement trees | `Comparator`, `Cloner`, `SameValue` | comparison decides covering by a renumbering, a clone is a renumbering and compares as the same, equal values are equal |
| prefix sum | `PrefixSum` | the executor computes inclusive prefix sums of every length, in 32-bit words |

`dafny verify dfyconfig.toml` checks the project.

## How the models relate to the code

- Visitors, builders, readers and writers are classes with the fields of the original, updated by its methods.
  Each method is specified by a function of the old state or by an invariant; lemmas say what that function or
  invariant means, in terms that do not name it. Ghost parameters carry the specification and have no run-time effect.
- IR is a datatype. In `StoreDests`, `Cfg`, `Ssa` and `Comparator` blocks nest as in the IR; in `LoopUnique`
  the statements of an offload are listed in visiting order, with operands as positions. Where the original
  changes operands in place (`Cloner`), the operands are in a table that the methods update.
- Runs are semantics of our own. In `Cfg` branch conditions and trip counts are free, so every choice is a
  run. In `Ssa` a machine with arbitrary functions stands for all statements that are not modelled, and a step
  bound on loop iterations makes execution a function; results hold for all bounds.
- In `LoopUnique`, two moments of a loop are two assignments of 32-bit words to the statements of which only
  the operators neg, add, sub and xor, constants, shapes, loop indices and loop-unique marks are constrained.
- `Options` holds the one datatype for null pointers and missing values.
- Bit streams are natural numbers, least significant bit first, so that appending and consuming bits are exact.

## Where the code and its documentation differ

- The search for immutable variables is documented to report variables that are stored once and only loaded
  after that. A variable that is itself the value of a store is reported too, and then elimination can leave an
  operand that nothing computes and change what a run does (`EliminateLocals.StoredVariableEscapes`).
  `EliminateLocals.EliminationExact` says when all is well: the addresses of reported variables go into reported
  variables only, and what is loaded from there is not used otherwise. Allocas have an address as their value.
- The pass over stores to functions adds to what the functions hold already, so after a recompilation
  destinations of the old bodies stay (`StoreDests.GatherExactly`, `StoreDests.GatherStale`).
- The graph builder adds an edge behind a `while` for each `continue` in it, although a `continue` does not
  leave the loop (`CfgRuns.ContinueLeavesWhile`). `CfgRuns.PathsAreRuns` gives a condition under which the graph
  is exact; it is sufficient for all programs and, for a program that is one `while`, also necessary
  (`CfgRuns.WhileExactly`). If its body has no blocks, the condition can be read off the statements
  (`CfgRuns.FlatWhileExactly`).
- The uniqueness of external arrays is claimed for all accesses, but holds for pairs of accesses under the
  condition of `UniquePointers.CommonAxesApart` only (`UniquePointers.ThreeAccessesCollide`), which
  `UniquePointers.ApartExactly` proves exact.
- Constant propagation calls the control flow to a statement constant, but does not look at exits from the
  block (`ConstExpr.ExitInterferes`). It is right when every exit is decided by inferred statements or has
  nothing inferred behind it (`ConstExpr.Noninterference`), and for blocks whose conditions come from the world
  and are used once, the failing one among them, only then (`ConstExpr.FreeExactly`).
- `same_statements` ignores a branch that only its second argument has (`Comparator.ExtraBranchUnnoticed`).
- The Radiance reader does not end on data whose packets run out before the row is full, since bytes past the
  end read as empty packets (`Hdr.RowHangs`, `Hdr.TruncatedRowHangs`); the model returns `Hangs` there. Data that
  ends behind the length of a dump is filled up with zeros instead (`Hdr.TruncatedDumpEnds`).
- The executor of the prefix sum allocates no buffer for exactly one value (`PrefixSum.BufferFits`).

## Model

| member | source | states |
|---|---|---|
| `StoreDests.GatherFuncStoreDests` | quadrants/analysis/gather_func_store_dests.cpp:96-99 | for every call graph, cycles included: the stack ends empty, every reachable function gets at least the tracked destinations of all functions it reaches, and at most those plus what some function it reaches held before the pass; no function loses a destination |
| `StoreDests.GatherExactly` | quadrants/transforms/compile_to_offloads.cpp:69-71 | each reachable function ends with exactly the tracked destinations of the functions it reaches if and only if no reachable function held another one before, as before the first call; before the second call functions may hold destinations that their recompiled bodies do not store to, and these stay |
| `StoreDests.GatherStale` | quadrants/transforms/compile_to_offloads.cpp:69-71 | a function that stores nothing keeps a destination that it held before, so the outcome is not exact |
| `StoreDests.Run` | quadrants/analysis/gather_func_store_dests.cpp:22-41 | one function: it is finished with its component, or stays on the stack below the functions it belongs with; the numbering invariant and all finished functions are kept |
| `StoreDests.TarjanData.Enter` | quadrants/analysis/gather_func_store_dests.cpp:24-26 | the function gets the next number and goes on top of the stack; nothing else changes |
| `StoreDests.TarjanData.PopComponent` | quadrants/analysis/gather_func_store_dests.cpp:30-38 | exactly the functions from the root upwards leave the stack, each with the results added; all others are unchanged |
| `StoreDests.Searcher.VisitStmt` | quadrants/analysis/gather_func_store_dests.cpp:56-72 | the tracked destinations of a statement, and no external ones, are collected, inside functions only |
| `StoreDests.Searcher.VisitCall` | quadrants/analysis/gather_func_store_dests.cpp:74-94 | after a call the callee is finished and its destinations are collected, or it is on the stack and the low number says so |
| `StoreDests.Searcher.StackedCallee` | quadrants/analysis/gather_func_store_dests.cpp:87-89 | the case of a callee on the stack: its number is taken over |
| `StoreDests.Searcher.FinishedCallee` | quadrants/analysis/gather_func_store_dests.cpp:90-93 | the case of a finished callee: its set is collected |
| `StoreDests.Searcher.RootCall` | quadrants/analysis/gather_func_store_dests.cpp:76-81 | a call from the root runs a new callee to its end and collects nothing |
| `StoreDests.Searcher.NewCallee` | quadrants/analysis/gather_func_store_dests.cpp:82-86 | the case of a callee that was not visited: its results and low number are merged |
| `StoreDests.AfterStackedCallee` | quadrants/analysis/gather_func_store_dests.cpp:87-89 | a callee on the stack lowers the low number, which keeps the search invariant |
| `StoreDests.AfterFinishedCallee` | quadrants/analysis/gather_func_store_dests.cpp:90-93 | a finished callee adds its own set, which keeps the search invariant |
| `StoreDests.AfterNewCallee` | quadrants/analysis/gather_func_store_dests.cpp:83-86 | merging the results of a searched callee keeps the search invariant |
| `StoreDests.PendingReachesRoot` | quadrants/analysis/gather_func_store_dests.cpp:29-38 | every function above a component root on the stack reaches the root |
| `StoreDests.ComponentCovers` | quadrants/analysis/gather_func_store_dests.cpp:29-38 | the results collected at a root hold the destinations of everything its component reaches |
| `StoreDests.RootComplete` | quadrants/analysis/gather_func_store_dests.cpp:29-38 | when low equals dfn, the results at the root are complete and justified for every function of the component |
| `StoreDests.PoppedInv` | quadrants/analysis/gather_func_store_dests.cpp:30-38 | popping a complete component keeps the invariant of the whole search |
| `StoreDests.DoneReaches` | quadrants/analysis/gather_func_store_dests.cpp:90-93 | all functions reachable from a finished function are finished |
| `CfgBuilder.BuildCfg` | quadrants/analysis/build_cfg.cpp:423-433 | the finished graph represents the program: its paths from start to final node spell exactly the loose runs, its node ranges hold exactly the ordinary statements, first and last node are empty |
| `CfgBuilder.Builder.NewNode` | quadrants/analysis/build_cfg.cpp:90-103 | a node for the range from the begin location to the current statement, with edges from all pending nodes |
| `CfgBuilder.Builder.VisitContinue` | quadrants/analysis/build_cfg.cpp:120-123 | the block so far is represented after a continue, whose node is added to the continue list |
| `CfgBuilder.Builder.VisitWhileControl` | quadrants/analysis/build_cfg.cpp:140-145 | the same after a while control, whose node both breaks and goes on |
| `CfgBuilder.Builder.VisitIf` | quadrants/analysis/build_cfg.cpp:172-197 | the same after an if with any combination of missing branches; the assertion that no node is pending holds |
| `CfgBuilder.Builder.VisitBranch` | quadrants/analysis/build_cfg.cpp:175-187 | one branch is built behind the node before the if |
| `CfgBuilder.Builder.VisitLoop` | quadrants/analysis/build_cfg.cpp:218-247 | the body is built, the back edges and the continue edges go to its first node, and the pending nodes are those that may leave the loop |
| `CfgBuilder.Builder.VisitLoopStmt` | quadrants/analysis/build_cfg.cpp:249-259 | the block so far is represented after a while or a for loop |
| `CfgBuilder.Builder.ConnectContinues` | quadrants/analysis/build_cfg.cpp:235-238 | every continue node goes back to the loop begin and is pending behind the loop |
| `CfgBuilder.Builder.VisitStatements` | quadrants/analysis/build_cfg.cpp:410-413 | after all statements, the block is represented up to its end |
| `CfgBuilder.Builder.VisitBlock` | quadrants/analysis/build_cfg.cpp:398-421 | the assertions at the entry hold, and a visited block is represented by the nodes from its first to its deterministic last one |
| `CfgBuilder.RootBuilt` | quadrants/analysis/build_cfg.cpp:423-425 | the graph of the root block represents it |
| `CfgBuilder.FinalNodeBuilt` | quadrants/analysis/build_cfg.cpp:426-431 | the extra empty final node changes no trace |
| `CfgRuns.RunsArePaths` | quadrants/analysis/build_cfg.cpp:90-145 | every terminating run is a path whose ranges spell the ordinary statements that the run executed |
| `CfgRuns.PathsAreRuns` | quadrants/analysis/build_cfg.cpp:218-247 | paths and terminating runs are the same if every iteration of a while that ends in continue has the trace of some run of that while |
| `CfgRuns.WhileExactly` | quadrants/analysis/build_cfg.cpp:218-247 | for a program that is one while, this condition on its body holds if and only if paths and terminating runs are the same |
| `CfgRuns.FlatEndsLike` | quadrants/analysis/build_cfg.cpp:120-145 | for a body without blocks the condition is on the statements: before the first continue comes a while control with no ordinary statement between the two, or with none before it |
| `CfgRuns.FlatWhileExactly` | quadrants/analysis/build_cfg.cpp:218-247 | for a while with such a body, that holds if and only if paths and terminating runs are the same |
| `CfgRuns.TameHarmless` | quadrants/analysis/build_cfg.cpp:120-123 | the condition holds when no while has a continue of its own |
| `CfgRuns.ContinueLeavesWhile` | quadrants/analysis/build_cfg.cpp:235-238 | a while whose body is one continue never ends, but the graph has a path through it |
| `CfgRuns.BlockAgrees` | quadrants/analysis/build_cfg.cpp:218-247 | strict runs are loose runs, and conversely under that condition |
| `Zlib.RoundTrip` | external/include/stb_image.h:4091-4117 | for every byte sequence and every quality, the decoder gives back what was compressed, whenever it fits the output buffer or the buffer may grow |
| `Zlib.Compress` | external/include/stb_image_write.h:745-848 | the output is a zlib stream of the data, holds the chosen tokens and less than a byte of padding, and ends in the checksum |
| `Zlib.WriteBlock` | external/include/stb_image_write.h:766-818 | the tokens written so far expand to the data consumed so far, up to all of it; every token before the last three bytes is the one that the match finder chooses with the chains of that place |
| `Zlib.WriteToken` | external/include/stb_image_write.h:766-814 | one round: the chosen token is written, and the route of places goes on |
| `Zlib.WriteLiteral` | external/include/stb_image_write.h:811-814 | one more literal |
| `Zlib.WriteMatch` | external/include/stb_image_write.h:801-810 | one more match, overlapping or not |
| `Zlib.WriteStart` | external/include/stb_image_write.h:757-760 | the header bytes and the bits of a final block with fixed codes |
| `Zlib.BlockIsWhole` | external/include/stb_image_write.h:757-843 | header, fixed block and checksum together are a stream that the decoder accepts |
| `Matcher.CountMatching` | external/include/stb_image_write.h:711-717 | the number of equal bytes, at most 258: they agree, and the next pair differs or does not exist |
| `Matcher.FindBest` | external/include/stb_image_write.h:768-777 | the longest match among the chain entries in the window, the last of them if there are several, or none if no entry has three bytes |
| `Matcher.NextIsBetter` | external/include/stb_image_write.h:786-799 | true exactly when an entry in the window of the next position has a longer match |
| `Matcher.Chains.Push` | external/include/stb_image_write.h:778-783 | the position is appended to its chain, after the older half of a full chain is dropped; other chains stay |
| `Matcher.PushedKeeps` | external/include/stb_image_write.h:778-783 | a chain never has more than twice the quality, and the latest positions are kept |
| `Matcher.Chains.Choose` | external/include/stb_image_write.h:766-814 | the longest match of the chain, if the next position has no longer one; else a literal |
| `BitWriting.BitWriter.Flush` | external/include/stb_image_write.h:691-699 | whole bytes move from the bit buffer to the output; the stream of bits is unchanged and fewer than eight bits stay |
| `BitWriting.BitWriter.Add` | external/include/stb_image_write.h:731-733 | the code is appended to the stream, least significant bit first |
| `BitWriting.BitWriter.BitRev` | external/include/stb_image_write.h:701-709 | the bits of a code in reverse order |
| `BitWriting.BitWriter.AddCode` | external/include/stb_image_write.h:734 | a Huffman code is appended, most significant bit first |
| `BitWriting.BitWriter.SymbolCode` | external/include/stb_image_write.h:735-741 | the codes of the macros are the canonical codes of the fixed lengths |
| `BitWriting.BitWriter.AddSymbol` | external/include/stb_image_write.h:740-741 | the fixed code of a symbol is appended |
| `BitWriting.BitWriter.SearchLength` | external/include/stb_image_write.h:804-806 | the length code whose range holds the length, and the extra bits fit |
| `BitWriting.BitWriter.SearchDist` | external/include/stb_image_write.h:807-809 | the distance code whose range holds the distance, and the extra bits fit |
| `BitWriting.BitWriter.AddMatch` | external/include/stb_image_write.h:801-809 | length code, extra bits, distance code and extra bits are appended |
| `BitWriting.BitWriter.Pad` | external/include/stb_image_write.h:820-822 | as many zero bits as the byte boundary needs |
| `Adler.Block` | external/include/stb_image_write.h:834 | the unreduced sums of up to 5552 bytes stay below 2^32 and agree with the definition modulo 65521 |
| `Adler.Checksum` | external/include/stb_image_write.h:828-838 | the deferred remainders give the checksum by definition, for every length and with a short or empty first block |
| `Adler.SumsAre` | external/include/stb_image_write.h:828-838 | the two sums are those without remainders, modulo 65521 |
| `Huffman.Table.Build` | external/include/stb_image.h:3772-3817 | succeeds exactly for feasible lengths, and then the tables represent the canonical code |
| `BitReverse.BitReverse16Reverses` | external/include/stb_image.h:3755-3762 | the masks and shifts compute the reversal of 16 bits that the rest of the model uses |
| `Huffman.Table.CountSizes` | external/include/stb_image.h:3780-3782 | how many symbols have each length |
| `Huffman.Table.SizesFit` | external/include/stb_image.h:3783-3785 | true exactly when no length has more symbols than codes; false means that the lengths are not feasible |
| `Huffman.Table.AssignLevels` | external/include/stb_image.h:3786-3798 | first codes, first symbols and preshifted limits of the canonical code, or failure exactly when a level overflows |
| `Huffman.Table.AssignLevel` | external/include/stb_image.h:3787-3797 | one level, or failure exactly when it has more codes than fit |
| `Huffman.LevelNext` | external/include/stb_image.h:3787-3797 | the numbers of a level have 16 bits, its preshifted limit is where the next level starts, and too many codes make the lengths infeasible |
| `Huffman.Table.FillFast` | external/include/stb_image.h:3806-3812 | every direct table entry whose low bits are the reversed code |
| `Huffman.Table.AssignSymbols` | external/include/stb_image.h:3799-3815 | all symbols are in the direct table and in the list |
| `Huffman.PrefixFree` | external/include/stb_image.h:3772-3817 | no two symbols of an accepted length list match the same bits |
| `Huffman.MatchesInterval` | external/include/stb_image.h:3786-3797 | a match means that the reversed bits lie in the interval of the code |
| `Huffman.IntervalMatches` | external/include/stb_image.h:3873-3879 | bits in the interval of a level match a symbol of that length |
| `Huffman.SpaceMatches` | external/include/stb_image.h:3869-3873 | bits below a preshifted limit match some symbol that is not longer |
| `Huffman.HitAt` | external/include/stb_image.h:3886-3891 | a direct table hit is the matching symbol with its length |
| `Huffman.MissAt` | external/include/stb_image.h:3886-3893 | a miss leaves only codes of more than nine bits |
| `Huffman.NoMatchAbove` | external/include/stb_image.h:3870-3873 | when no limit exceeds the bits, no symbol matches: the code is invalid |
| `Deflate.FixedLengthsOk` | external/include/stb_image.h:4062-4073 | the default lengths are an acceptable length list |
| `Deflate.FixedDistancesOk` | external/include/stb_image.h:4074-4077 | the default distances are an acceptable length list |
| `Deflate.LengthRule` | external/include/stb_image.h:3915-3921 | the length table by the rule of section 3.2.5 of RFC 1951 |
| `Deflate.DistRule` | external/include/stb_image.h:3923-3927 | the distance table by the same rule |
| `Deflate.FixedCode` | external/include/stb_image_write.h:735-740 | the canonical code of the default lengths is what the macros of the compressor compute |
| `Deflate.CopyRepeats` | external/include/stb_image.h:3960-3966 | copying bytewise from a distance, overlaps included, reproduces data that repeats at that distance |
| `Deflate.CopyAt` | external/include/stb_image.h:3960-3966 | every byte of a copy is the one a distance before it |
| `Deflate.PutSymbolMatches` | external/include/stb_image.h:3882-3894 | a stream that starts with the code of a symbol matches that symbol |
| `Inflate.ZBuf.Get8` | external/include/stb_image.h:3839-3843 | the next byte, or zero at the end |
| `Inflate.ZBuf.FillBits` | external/include/stb_image.h:3845-3852 | more than 24 bits are buffered, at most 32, and the stream of bits is unchanged |
| `Inflate.ZBuf.Receive` | external/include/stb_image.h:3854-3862 | the next bits of the stream, which are consumed |
| `Inflate.ZBuf.SearchLength` | external/include/stb_image.h:3870-3872 | the first length whose preshifted limit exceeds the bits |
| `Inflate.ZBuf.DecodeSlow` | external/include/stb_image.h:3864-3880 | the symbol whose code starts the stream, or -1 when there is none |
| `Inflate.ZBuf.LookUp` | external/include/stb_image.h:3886-3887 | what an entry of the direct table says about the bits |
| `Inflate.ZBuf.Decode` | external/include/stb_image.h:3882-3894 | the symbol whose code starts the stream, which is consumed, or -1 when there is none |
| `Inflate.ZBuf.ZExpand` | external/include/stb_image.h:3896-3913 | the buffer is doubled until the bytes fit, unless it may not grow or memory runs out |
| `Inflate.ZBuf.CopyBack` | external/include/stb_image.h:3960-3966 | the output grows by the bytes that the match denotes |
| `Inflate.ZBuf.ReadLength` | external/include/stb_image.h:3948-3950 | the length of a match, from its code and extra bits |
| `Inflate.ZBuf.ReadDistance` | external/include/stb_image.h:3951-3954 | the distance, from its code and extra bits |
| `Inflate.ZBuf.ParseMatch` | external/include/stb_image.h:3948-3966 | a match that comes next in the stream is appended to the output; a success means that the bits are those of a length and a distance within the output |
| `Inflate.ZBuf.ParseSymbol` | external/include/stb_image.h:3932-3967 | one symbol: the next token is expanded, or the block ends; an invalid code never succeeds |
| `Inflate.ZBuf.ParseLiteral` | external/include/stb_image.h:3934-3941 | a literal is appended |
| `Inflate.ZBuf.DecodeHead` | external/include/stb_image.h:3933-3934 | the symbol of the token that comes next, and the stream behind it |
| `Inflate.ZBuf.ParseHuffmanBlock` | external/include/stb_image.h:3929-3969 | the tokens of a block are expanded, and the stream is left behind its end; a success means that every symbol was one of the format |
| `Inflate.ZBuf.ParseHeader` | external/include/stb_image.h:4049-4060 | accepts exactly the headers with the right check value, without a dictionary and with DEFLATE |
| `Inflate.ZBuf.BuildFixed` | external/include/stb_image.h:4106-4109 | both tables for the fixed codes |
| `Inflate.ZBuf.ParseBlock` | external/include/stb_image.h:4098-4115 | one block; a fixed block that is ahead is decoded, and the verdict says whether it is the last; other types have their own verdict; every further block consumes bits |
| `Inflate.ZBuf.BlockStart` | external/include/stb_image.h:4098-4100 | the final flag and the type, which are consumed; a fixed block makes the stream smaller |
| `Inflate.ZBuf.ParseFixed` | external/include/stb_image.h:4104-4113 | a block with fixed codes is decoded |
| `Inflate.ZBuf.ParseZlib` | external/include/stb_image.h:4091-4117 | the whole stream; it terminates, and gives the data of all its blocks; if it succeeds, header and bits mean what was read |
| `Inflate.ZBuf.ParseBlocks` | external/include/stb_image.h:4098-4115 | any number of blocks up to the final one: all of them are expanded, one after the other; and a success means that the stream is such blocks, bit by bit |
| `Inflate.Decompress` | external/include/stb_image.h:4091-4117 | a stream of any number of blocks that encodes data is decoded to that data; a success means that the input is a stream whose bits mean the output |
| `Png.Paeth` | external/include/stb_image.h:4267-4276 | the first of left, up and upper left that is nearest to left plus up minus upper left |
| `Png.PredictConforms` | external/include/stb_image.h:4322-4374 | what the code predicts is what section 6 of RFC 2083 says, filter by filter, with zeros outside the image |
| `Png.FilterLine` | external/include/stb_image_write.h:936-956 | every byte is the sample minus its prediction, modulo 256, and the prediction is that of the format |
| `Png.ChooseFilter` | external/include/stb_image_write.h:928-962 | the first filter with the smallest sum of absolute differences, and the row filtered with it |
| `Png.FilterImage` | external/include/stb_image_write.h:927-966 | for each row its filter number and bytes that stand for its samples by the rule of the format |
| `Png.UnfilterLine` | external/include/stb_image.h:4325-4374 | every sample is the byte plus the prediction of the format from the samples already restored, modulo 256 |
| `Png.UnfilterFiltered` | external/include/stb_image.h:4322-4374 | undoing any filter, the two for a first row included, restores the row |
| `Png.CreateImage` | external/include/stb_image.h:4281-4374 | succeeds if and only if the input is long enough and no filter number is above 4; then the bytes stand for the samples by the rule of the format, rows written with any filters are restored, and trailing bytes are ignored |
| `Png.PixelsRoundTrip` | external/include/stb_image_write.h:927-968 | the pixels survive filtering, compression, decompression and unfiltering |
| `Hdr.FindRun` | external/include/stb_image_write.h:583-591 | the first position where three bytes are equal, or the end of the row |
| `Hdr.WriteDumps` | external/include/stb_image_write.h:592-598 | dump packets of 1 to 128 bytes |
| `Hdr.WriteRuns` | external/include/stb_image_write.h:604-610 | run packets of 1 to 127 bytes, so the length byte fits |
| `Hdr.WriteComponent` | external/include/stb_image_write.h:579-613 | packets, none of them empty, whose data is the row; no three equal bytes start in a dump, runs start with three equal bytes, and both are cut only where they must |
| `Hdr.WriteScanline` | external/include/stb_image_write.h:528-613 | the header with the width, then the packets of the four rows, cut like that |
| `Hdr.Reader.ReadPacket` | external/include/stb_image.h:6581-6594 | exactly the packet at the head of the data, zeros for bytes past the end; a packet beyond the row is refused; it consumes input while there is any |
| `Hdr.Reader.ReadPackets` | external/include/stb_image.h:6580-6596 | the verdict and the row of the packet walk over the bytes |
| `Hdr.StuckAtEnd` | external/include/stb_image.h:6580-6596 | a round of the loop at the end of the data adds nothing and leaves the position, any number of times |
| `Hdr.RowHangs` | external/include/stb_image.h:6580-6596 | the loop never ends if and only if the packets run out before the row is full |
| `Hdr.TruncatedRowHangs` | external/include/stb_image.h:6580-6596 | two bytes of a row of eight make the loop run for ever |
| `Hdr.TruncatedDumpEnds` | external/include/stb_image.h:6590-6595 | data that ends behind the length of a dump that fills the row is read, with zeros |
| `Hdr.Reader.ReadComponent` | external/include/stb_image.h:6578-6596 | packets of a row give the row; the verdict says whether the row is full, a packet is too long, or the loop never ends, the last exactly when it does not end |
| `Hdr.Reader.ReadHeader` | external/include/stb_image.h:6549-6568 | the verdict on the four header bytes, zeros past the end |
| `Hdr.Reader.ReadScanline` | external/include/stb_image.h:6548-6597 | verdict and rows of any data: the header, then each row filled by its packets; written scanlines are read, and the position is behind them |
| `Hdr.ScanlineRoundTrip` | external/include/stb_image.h:6548-6597 | for every width from 8 to 32767 and every four rows, reading gives back what was written |
| `LoopUnique.UnaryInjective` | quadrants/analysis/gather_uniquely_accessed_pointers.cpp:54-58 | negation of a value that identifies a coordinate identifies it too, in 32-bit words |
| `LoopUnique.BinaryInjective` | quadrants/analysis/gather_uniquely_accessed_pointers.cpp:78-91 | add, subtract and exclusive or with a loop-invariant operand keep a coordinate identified |
| `LoopUnique.FactsSound` | quadrants/analysis/gather_uniquely_accessed_pointers.cpp:32-91 | all that the first traversal collects is true at all pairs of moments of every loop |
| `LoopUnique.InvariantsExact` | quadrants/analysis/gather_uniquely_accessed_pointers.cpp:41-53 | the invariant statements are exactly the expressions over constants and shapes |
| `LoopUnique.UniqueExact` | quadrants/analysis/gather_uniquely_accessed_pointers.cpp:32-91 | the unique statements are exactly those whose coordinate is known by their form, or by their first mark, where they are used |
| `LoopUnique.NumExact` | quadrants/analysis/gather_uniquely_accessed_pointers.cpp:61-71 | the number of coordinates is that of the kind of loop, or one more than the largest axis that a mark adds |
| `LoopUnique.LoopUniqueSearcher.VisitAll` | quadrants/analysis/gather_uniquely_accessed_pointers.cpp:321 | the first traversal, statement by statement, collects the facts, which are true |
| `LoopUnique.LoopUniqueSearcher.VisitUnary` | quadrants/analysis/gather_uniquely_accessed_pointers.cpp:49-59 | the new state after a unary operation |
| `LoopUnique.LoopUniqueSearcher.VisitBinary` | quadrants/analysis/gather_uniquely_accessed_pointers.cpp:73-92 | the new state after a binary operation |
| `LoopUnique.LoopUniqueSearcher.VisitMark` | quadrants/analysis/gather_uniquely_accessed_pointers.cpp:61-71 | the new state after a loop-unique decoration, which may raise the number of coordinates |
| `LoopUnique.FullSet` | quadrants/analysis/gather_uniquely_accessed_pointers.cpp:137-143 | n distinct coordinates below n are all coordinates |
| `LoopUnique.LoopUniqueIndicesSound` | quadrants/analysis/gather_uniquely_accessed_pointers.cpp:119-144 | a pointer that passes the test has the same loop-unique indices in one iteration only |
| `LoopUnique.LoopUniqueIndicesExactly` | quadrants/analysis/gather_uniquely_accessed_pointers.cpp:119-144 | if all coordinates are those of the loop, a pointer passes if and only if an index is unique to the iteration or every coordinate has an index |
| `LoopUnique.LoopUniqueSearcher.IsPtrIndicesLoopUnique` | quadrants/analysis/gather_uniquely_accessed_pointers.cpp:119-144 | true exactly when some index is unique to the loop or the indices identify as many coordinates as the loop has |
| `Alias.AliasSound` | quadrants/analysis/alias_analysis.cpp:113-175 | for array and field pointers, "same" means the same cell and "different" different cells, at every moment |
| `Alias.CompareSound` | quadrants/analysis/alias_analysis.cpp:158-175 | the index loop for field pointers |
| `Alias.CompareArraySound` | quadrants/analysis/alias_analysis.cpp:128-141 | the index loop for array pointers |
| `Alias.CompareExactly` | quadrants/analysis/alias_analysis.cpp:158-175 | same exactly when all differences are certain and zero, different exactly when one is not zero |
| `Alias.CompareArrayExactly` | quadrants/analysis/alias_analysis.cpp:128-141 | the same for array pointers, where the difference must be certain |
| `Alias.AliasExactly` | quadrants/analysis/alias_analysis.cpp:113-175 | which answer two pointers get, from their buffers and the differences of their indices |
| `UniquePointers.UniquelyAccessedSearcher.VisitGlobalPtr` | quadrants/analysis/gather_uniquely_accessed_pointers.cpp:239-251 | entries stay right: first access and all accesses definitely at its address, or null, which stays null |
| `UniquePointers.UniquelyAccessedSearcher.UniqueIndicesMatch` | quadrants/analysis/gather_uniquely_accessed_pointers.cpp:284-301 | whether all loop-unique indices of the access equal those of the recorded one |
| `UniquePointers.UniquelyAccessedSearcher.VisitExternalPtr` | quadrants/analysis/gather_uniquely_accessed_pointers.cpp:254-304 | entries stay right: first access, all accesses loop-unique and matching it, or null |
| `UniquePointers.UniquelyAccessedSearcher.VisitAll` | quadrants/analysis/gather_uniquely_accessed_pointers.cpp:322 | the second traversal leaves the right entry for every field and array |
| `UniquePointers.RecordedField` | quadrants/analysis/gather_uniquely_accessed_pointers.cpp:239-251 | a field with a recorded pointer has no cell that two iterations access |
| `UniquePointers.RecordedApart` | quadrants/analysis/gather_uniquely_accessed_pointers.cpp:254-304 | no access to a recorded array is at the index tuple of the recorded pointer in another iteration |
| `UniquePointers.CommonAxesApart` | quadrants/analysis/gather_uniquely_accessed_pointers.cpp:284-300 | two accesses never collide across iterations if the axes that are loop-unique in both suffice |
| `UniquePointers.IncludedAxesApart` | quadrants/analysis/gather_uniquely_accessed_pointers.cpp:284-300 | in particular if the loop-unique axes of one are among those of the other |
| `UniquePointers.ApartExactly` | quadrants/analysis/gather_uniquely_accessed_pointers.cpp:284-300 | for bodies of loop indices, constants, unknown values and accesses: apart if and only if the common loop-unique axes hold all coordinates |
| `UniquePointers.ThreeAccessesCollide` | quadrants/analysis/gather_uniquely_accessed_pointers.cpp:284-300 | a[i, i], a[i, 3], a[7, i] is accepted whatever the comparison of values is, but two iterations access a[7, 3] |
| `UniquePointers.ThreeAccessesPlain` | quadrants/analysis/gather_uniquely_accessed_pointers.cpp:284-300 | this body is one of those for which the condition is exact |
| `UniquePointers.GatherThreeAccesses` | quadrants/analysis/gather_uniquely_accessed_pointers.cpp:306-326 | the search does record a[i, i] for this array |
| `UniquePointers.GatherUniquelyAccessedPointers` | quadrants/analysis/gather_uniquely_accessed_pointers.cpp:306-326 | for one coordinate of a range-for, as many as a struct-for has active indices, none of serial code, and those that marks add: the entries of both traversals, uniqueness of every recorded field in that loop, and no collision with a recorded array pointer |
| `DynamicIndexing.UncertainSameTarget` | quadrants/analysis/gather_dynamically_indexed_pointers.cpp:62-66 | an uncertain alias is in the same bucket, so the buckets lose nothing |
| `DynamicIndexing.DynamicIndexingAnalyzer.RecordDynamicIndexedPtr` | quadrants/analysis/gather_dynamically_indexed_pointers.cpp:28-47 | the pointer and the seen pointers of its group are flagged |
| `DynamicIndexing.DynamicIndexingAnalyzer.RecordMayAliasPtr` | quadrants/analysis/gather_dynamically_indexed_pointers.cpp:58-99 | the bucket gives the answer of a scan over all pointers seen |
| `DynamicIndexing.DynamicIndexingAnalyzer.VisitPtr` | quadrants/analysis/gather_dynamically_indexed_pointers.cpp:105-129 | what a pointer statement flags, and that it is seen afterwards |
| `DynamicIndexing.DynamicIndexingAnalyzer.VisitMatrixPtr` | quadrants/analysis/gather_dynamically_indexed_pointers.cpp:131-155 | what a matrix pointer with a computed offset flags |
| `DynamicIndexing.DynamicIndexingAnalyzer.Traverse` | quadrants/analysis/gather_dynamically_indexed_pointers.cpp:180-181 | what one traversal flags, from the pointers seen before it |
| `DynamicIndexing.FlaggedInClosed` | quadrants/analysis/gather_dynamically_indexed_pointers.cpp:176-185 | no traversal flags anything outside the closed form |
| `DynamicIndexing.FullTraversal` | quadrants/analysis/gather_dynamically_indexed_pointers.cpp:176-185 | a traversal that knows all pointers flags exactly the closed form, so a third one adds nothing |
| `DynamicIndexing.OrderIndependent` | quadrants/analysis/gather_dynamically_indexed_pointers.cpp:176-185 | the closed form does not depend on the order of the visits |
| `DynamicIndexing.ClosedExactly` | quadrants/analysis/gather_dynamically_indexed_pointers.cpp:28-155 | which pointers are flagged: those with a computed index or offset, those that may alias a visited pointer, and the visited pointers with the same base or the same parent |
| `DynamicIndexing.GatherDynamicallyIndexedPointers` | quadrants/analysis/gather_dynamically_indexed_pointers.cpp:176-185 | two traversals flag exactly these pointers |
| `DynamicIndexing.UnflaggedDefinite` | quadrants/analysis/gather_dynamically_indexed_pointers.cpp:49-57 | a pointer that is not flagged is at the cell of another pointer always or never |
| `ImmutableLocals.GatherImmutableLocalVars.DefaultVisit` | quadrants/analysis/gather_immutable_local_vars.cpp:55-63 | variables among the operands become invalid |
| `ImmutableLocals.GatherImmutableLocalVars.VisitLoad` | quadrants/analysis/gather_immutable_local_vars.cpp:29-37 | a load before the store makes a variable invalid |
| `ImmutableLocals.GatherImmutableLocalVars.VisitStore` | quadrants/analysis/gather_immutable_local_vars.cpp:39-53 | the first store in the own block with the own type is remembered, any other makes the variable invalid |
| `ImmutableLocals.GatherImmutableLocalVars.VisitBlock` | quadrants/analysis/gather_immutable_local_vars.cpp:24-71 | the statuses after a block |
| `ImmutableLocals.BlockKeeps` | quadrants/analysis/gather_immutable_local_vars.cpp:24-63 | an invalid variable stays invalid, and exactly the declared variables have a status |
| `ImmutableLocals.BlockExact` | quadrants/analysis/gather_immutable_local_vars.cpp:24-71 | no variable of a set becomes invalid if and only if all are used once; the statuses then say which are stored |
| `ImmutableLocals.GatheredExactly` | quadrants/analysis/gather_immutable_local_vars.cpp:73-83 | a variable is reported if and only if it is stored, only once, in its block, with its type, and otherwise only loaded afterwards |
| `ImmutableLocals.GatherImmutable` | quadrants/analysis/gather_immutable_local_vars.cpp:73-83 | the reported set, with that meaning |
| `EliminateLocals.EliminateImmutableLocalVars.VisitStmt` | quadrants/transforms/eliminate_immutable_local_vars.cpp:28-47 | one statement, tested with its operands replaced: erased, or kept, and the recorded replacements |
| `EliminateLocals.EliminateImmutableLocalVars.VisitBlock` | quadrants/transforms/eliminate_immutable_local_vars.cpp:28-47 | the same for a block |
| `EliminateLocals.LoadGone` | quadrants/transforms/eliminate_immutable_local_vars.cpp:34-39 | an erased load has the value of the statement that replaces it |
| `EliminateLocals.LeftIds` | quadrants/transforms/eliminate_immutable_local_vars.cpp:28-53 | exactly the declarations, loads and stores of the eliminated variables are gone |
| `EliminateLocals.BlockSame` | quadrants/transforms/eliminate_immutable_local_vars.cpp:28-47 | a block and what is left of it run alike, inside any nesting of branches and loops, with break and continue |
| `EliminateLocals.EliminationPreserves` | quadrants/transforms/eliminate_immutable_local_vars.cpp:49-53 | when no address of a reported variable escapes, for every machine and every run: same world, same remaining variables, same exit, and neither program diverges alone |
| `EliminateLocals.EliminationScoped` | quadrants/transforms/eliminate_immutable_local_vars.cpp:28-53 | every operand of the result is computed before it is used if and only if no address escapes, a condition on the program before elimination |
| `EliminateLocals.EliminationExact` | quadrants/transforms/eliminate_immutable_local_vars.cpp:49-53 | no address escapes if and only if the result is well scoped and all runs stay the same |
| `EliminateLocals.NotStoredNoEscape` | quadrants/analysis/gather_immutable_local_vars.cpp:39-53 | if no reported variable is the value of a store, no address escapes |
| `EliminateLocals.GatheredDirect` | quadrants/analysis/gather_immutable_local_vars.cpp:39-63 | the reported variables are accessed by loads and stores only if and only if no store has one of them as its value |
| `EliminateLocals.StoredVariableEscapes` | quadrants/analysis/gather_immutable_local_vars.cpp:39-53 | a variable that is itself stored and loaded again is reported; its elimination leaves an operand that nothing computes, and a run that differs |
| `EliminateLocals.StoredVariableUnused` | quadrants/analysis/gather_immutable_local_vars.cpp:39-53 | a reported variable that is stored and not used after that does not escape |
| `EliminateLocals.EliminateImmutable` | quadrants/transforms/eliminate_immutable_local_vars.cpp:49-53 | exactly the accesses to the reported variables are gone; the program stays well scoped with the same runs if and only if no address escapes, for programs whose loads and stores have no load as their address |
| `StoreForwarding.HasStoreOrAtomic` | quadrants/analysis/has_store_or_atomic.cpp:25-47 | true exactly when a store or an atomic to the variable occurs, at any depth |
| `StoreForwarding.LocalStoreForwarder.VisitIf` | quadrants/analysis/last_store_or_atomic.cpp:47-80 | how the answers of the branches are joined |
| `StoreForwarding.LocalStoreForwarder.VisitStmt` | quadrants/analysis/last_store_or_atomic.cpp:25-101 | the answer after one statement |
| `StoreForwarding.LastStoreOrAtomic` | quadrants/analysis/last_store_or_atomic.cpp:109-119 | the answer for a block, for a variable in view: a valid statement exactly when every way through the block ends in it, valid without a statement exactly when the block neither modifies nor declares the variable |
| `StoreForwarding.UnmodifiedFinds` | quadrants/analysis/last_store_or_atomic.cpp:25-113 | code that does not modify the variable does not change the answer |
| `StoreForwarding.NothingExactly` | quadrants/analysis/last_store_or_atomic.cpp:25-113 | the same equivalence: once there is an answer, or no valid one, "valid without a statement" does not come back |
| `StoreForwarding.FoundExactly` | quadrants/analysis/last_store_or_atomic.cpp:25-113 | a store or declaration is found if and only if it is the last thing done to the variable, or both branches of an if store its value last |
| `StoreForwarding.LastStoreFound` | quadrants/analysis/last_store_or_atomic.cpp:25-30 | a store followed by code that leaves the variable alone is the answer |
| `StoreForwarding.LastIfFound` | quadrants/analysis/last_store_or_atomic.cpp:47-80 | so is the store of the first branch if both store the same value |
| `StoreForwarding.LastUnclear` | quadrants/analysis/last_store_or_atomic.cpp:32-107 | an atomic, a modifying loop, or an if with anything else in its branches leaves no valid answer |
| `StoreForwarding.FoundShape` | quadrants/analysis/last_store_or_atomic.cpp:70-71 | the statements found in branches are stores, so the assertions hold |
| `StoreForwarding.ForwarderSound` | quadrants/analysis/last_store_or_atomic.cpp:25-113 | a valid answer without a statement means that the variable is unchanged by every run of the block that ends, left by continue and break included; after every run to the end of the block, a valid store is what the variable holds |
| `ConstExpr.ConstExprPropagation.VisitStmt` | quadrants/analysis/constexpr_propagation.cpp:32-75 | which statement is inferred, and that branches are entered only under an inferred condition |
| `ConstExpr.ConstExprProp` | quadrants/analysis/constexpr_propagation.cpp:84-100 | exactly the statements that are justified by the inferred ones, with noninterference for predictable blocks, and only for them if conditions are free |
| `ConstExpr.InferredExactly` | quadrants/analysis/constexpr_propagation.cpp:22-75 | a statement is inferred if and only if it is reached under inferred conditions only, and is a seed or an operation of one to three inferred operands |
| `ConstExpr.Noninterference` | quadrants/analysis/constexpr_propagation.cpp:11-87 | in a block where every exit is decided by inferred statements or has nothing inferred behind it, two finished runs that agree on the seeds agree, for every inferred statement, on whether it runs and on its value |
| `ConstExpr.FreeExactly` | quadrants/analysis/constexpr_propagation.cpp:66-80 | for every block, with branches at any depth, whose conditions come from the world and are used once, and which has no dead code, that condition is necessary too |
| `ConstExpr.NoExitPredictable` | quadrants/analysis/constexpr_propagation.cpp:66-80 | the condition holds for blocks without exits |
| `ConstExpr.BlockAgrees` | quadrants/analysis/constexpr_propagation.cpp:66-80 | the same from statements inferred before the block, and both runs reach the end of a steady block or neither does |
| `ConstExpr.ExitInterferes` | quadrants/analysis/constexpr_propagation.cpp:66-80 | a continue under an unknown condition breaks the condition and makes the property fail |
| `ConstExpr.ExitingFree` | quadrants/analysis/constexpr_propagation.cpp:66-80 | the failing block is one of those for which the condition is exact |
| `Cloner.IRCloner.RegisterBlock` | quadrants/analysis/clone.cpp:25-36 | the first traversal pairs every statement with its copy |
| `Cloner.IRCloner.ReplaceOperands` | quadrants/analysis/clone.cpp:37-47 | the operands of a copy: copies of inner statements, outer statements themselves |
| `Cloner.IRCloner.ReplaceBlock` | quadrants/analysis/clone.cpp:25-91 | the second traversal redirects exactly the copies |
| `Cloner.Redirect` | quadrants/analysis/clone.cpp:122-126 | both traversals: exactly the copies change, and use copies where the originals use inner statements |
| `Cloner.Clone` | quadrants/analysis/clone.cpp:120-129 | the clone has the shape of the original with its statements renumbered by a bijection onto the new statements, outer operands are shared, the original is unchanged, nothing else is added, and the comparison of the two succeeds |
| `Cloner.ClonedSame` | quadrants/analysis/clone.cpp:120-129 | a clone and its original cover each other, are paired exactly by the renumbering, and compare as the same |
| `Cloner.CloneCompares` | quadrants/analysis/clone.cpp:120-129 | comparing a tree with its clone returns true |
| `Comparator.IRNodeComparator.CheckMapping` | quadrants/analysis/same_statements.cpp:54-70 | one pair of operands: as recorded, or identical and then recorded |
| `Comparator.IRNodeComparator.BasicCheck` | quadrants/analysis/same_statements.cpp:99-188 | one pair of statements: class, fields and operands |
| `Comparator.IRNodeComparator.VisitShape` | quadrants/analysis/same_statements.cpp:190-247 | one pair of statements with their blocks |
| `Comparator.IRNodeComparator.VisitBlock` | quadrants/analysis/same_statements.cpp:79-97 | one pair of blocks |
| `Comparator.SameExactly` | quadrants/analysis/same_statements.cpp:263-313 | success if and only if the second tree covers the first, statement by statement up to renumbering, with outer operands shared; it may have further branches |
| `Comparator.PairsInverse` | quadrants/analysis/same_statements.cpp:190-247 | if each tree covers the other, the pairs are a renumbering in both directions |
| `Comparator.SameStatements` | quadrants/analysis/same_statements.cpp:263-313 | the verdict for two trees, with that meaning |
| `Comparator.ExtraBranchUnnoticed` | quadrants/analysis/same_statements.cpp:194-217 | a branch that only the second if has goes unnoticed |
| `SameValue.ValueComparator.CheckMapping` | quadrants/analysis/same_statements.cpp:54-77 | one pair of operands, followed through the graph when a map was given |
| `SameValue.ValueComparator.BasicCheck` | quadrants/analysis/same_statements.cpp:99-188 | one pair of statements when only the value matters |
| `SameValue.CheckedSound` | quadrants/analysis/same_statements.cpp:99-188 | while the comparison succeeds, all pairs in the map have equal values in every environment that respects the given map |
| `SameValue.CheckedComplete` | quadrants/analysis/same_statements.cpp:99-188 | a recursive comparison inside a correspondence succeeds |
| `SameValue.ShallowExactly` | quadrants/analysis/same_statements.cpp:54-70 | without a map the comparison of different statements succeeds exactly for twins |
| `SameValue.SameValue` | quadrants/analysis/same_statements.cpp:317-325 | statements called the same have equal values; without a map, exactly identical statements and twins are: one class, the same fields that matter and the same operands; with a map, every correspondence around it is found |
| `PrefixSum.RoundDoubles` | python/quadrants/_kernels.py:263-282 | a round whose offset is the window width doubles the window |
| `PrefixSum.WarpScan` | python/quadrants/_kernels.py:257-283 | five rounds give the inclusive prefix sums of 32 lanes |
| `PrefixSum.BlockScan` | python/quadrants/_kernels.py:312-338 | two warps and the shared array give those of 64 threads |
| `PrefixSum.JoinWarps` | python/quadrants/_kernels.py:322-338 | the totals in shared memory are added to the second warp |
| `PrefixSum.SumWraps` | python/quadrants/_kernels.py:257-283 | sums in 32-bit words are the sums of the numbers modulo 2^32 |
| `PrefixSum.ScanBlock` | python/quadrants/_kernels.py:309-343 | one block in place, and its total |
| `PrefixSum.ScanAddInclusive` | python/quadrants/_kernels.py:298-343 | every block is scanned, every block total is written behind the range, all else is unchanged |
| `PrefixSum.UniformAdd` | python/quadrants/_kernels.py:346-352 | every block but the first grows by the total before it, all else is unchanged |
| `PrefixSum.PrefixSumExecutor.constructor` | python/quadrants/algorithms/_algorithms.py:89-107 | the levels and the size of the buffer |
| `PrefixSum.PrefixSumExecutor.UpSweep` | python/quadrants/algorithms/_algorithms.py:142-158 | the scans of all levels |
| `PrefixSum.PrefixSumExecutor.DownSweep` | python/quadrants/algorithms/_algorithms.py:160-161 | the additions from the second last level down |
| `PrefixSum.SummedAt` | python/quadrants/algorithms/_algorithms.py:141-161 | after both sweeps each level holds the prefix sums of what it held before its scan |
| `PrefixSum.PrefixSumExecutor.Run` | python/quadrants/algorithms/_algorithms.py:109-163 | the array becomes its inclusive prefix sums modulo 2^32, whatever the buffer held before |
| `PrefixSum.BufferFits` | python/quadrants/algorithms/_algorithms.py:96-107 | the buffer has room for the values if and only if there is not exactly one |

## Left out

- Offloads in the control-flow graph, the flag for parallel execution, the links between nodes of one block, and the multiplicity of edges, which are a set here.
- Inflate.ZBuf.ParseBlock: stored blocks and blocks with dynamic codes end in a verdict of their own, since the compressor writes neither.
- Inflate.Decompress: what is read at distance zero, which two unused codes have, is arbitrary; that every stream with unused length codes is accepted is not stated.
- Inflate.ZBuf.ZExpand: memory is a number of available bytes; overflow of the doubled limit as a C int is not modelled.
- Matcher.Chains.Choose: pointers into the data are positions, and the hash table never runs out of memory.
- Png.CreateImage: samples of other depths, an added alpha channel, interlacing and row strides other than the row length.
- Png.ChooseFilter: the estimate does not overflow a C int.
- Hdr.Reader.ReadScanline: the interleaving of the four components in memory, the conversion between floats and shared exponents, and flat scanlines.
- PNG chunks and checksums of chunks, all other image formats, files, callbacks and error strings.
- Alias.AliasSound: matrix pointers, allocas, temporaries, thread-local, block-local and child pointers; `value_diff_ptr_index` is an abstract function that is right when it is certain and reports zero when it is not.
- UniquePointers.GatherUniquelyAccessedPointers: mesh loops, matrix pointers and bit structs; `same_value` is an abstract function that is right when it says yes.
- UniquePointers.ApartExactly: the converse is for bodies of loop indices, constants, unknown values and accesses, where an unknown value or a constant is on one axis only; with other expressions a collision may be excluded by their values.
- DynamicIndexing.GatherDynamicallyIndexedPointers: external pointers whose base is not an argument.
- EliminateLocals.EliminationExact: an operand that nothing computes is wrong by itself; in code that is never reached no run shows it.
- CfgRuns.PathsAreRuns: one-way for programs other than a single `while`, where a loop that breaks the condition may be unreachable.
- EliminateLocals.EliminateImmutable: programs in which the address of a load or store is itself a load, which the IR verifier refuses (quadrants/analysis/verify.cpp:102-112); for them the pass would also erase accesses through an address that it has replaced.
- EliminateLocals.EliminationPreserves: the IR is rebuilt, not changed in place, and usages are replaced when a statement is visited, which is after the load that they use.
- StoreForwarding.ForwarderSound: mesh loops and offloads, and variables whose address is used otherwise.
- ConstExpr.Noninterference: only runs that finish are compared.
- ConstExpr.FreeExactly: conditions that operations compute or that are used again in branches, and dead code; an exit that is not inferred may be impossible there, so the condition need not be necessary.
- Cloner.Clone: the raw copy with new statements is given; offloads and mesh loops are not modelled.
- SameValue.SameValue: container statements as operands, and `same_statements` with a map of numbers.
- PrefixSum.PrefixSumExecutor.Run: the threads of a block run phase by phase between barriers, and blocks run in order, which is without effect since they write different places.
- The offline cache, arithmetic ranges, block-local and mesh analyses, sorting stages and floating-point kernels.
