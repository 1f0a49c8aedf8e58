# Verified models of gzip, compress, bc and peglib

This project models five pieces of software and proves what they are for.

* **gzip 1.2.4**, the DEFLATE pair. `trees.c` builds length-limited Huffman trees with a
  heap and sends them run-length coded; `deflate.c` finds matches through hash chains in a
  sliding window; `inflate.c` builds linked lookup tables and expands into a circular
  window. The format is that of RFC 1951. The end of it: whatever the input, and for
  levels 1 to 9, inflating what deflate wrote gives the input back.
* **gzip's unlzh.c**, which decodes with one table and a binary tree behind it. The end of
  it: a complete set of lengths is decoded to its canonical code.
* **ncompress 4.2.4**, LZW. The two sides of `compress42.c` keep their tables one entry
  apart and never exchange them. The end of it: decompressing what compress wrote gives the
  input back, however the input of either side comes in pieces and wherever the ratio check
  starts a new table.
* **bc 1.06**, from the actions of the grammar over the text of the byte code, the loader
  and the bytes in memory to the machine. The end of it: the bytes of a program end if and
  only if the program does, in the same way and with the same variables, arrays and output.
* **cpp-peglib 0.1.12**, the parser engine. The end of it: parsing with the packrat cache
  finds what parsing without it finds; and precedence climbing builds the one tree in which
  the operators bind as they should.

Code that changes things in place is modelled by classes and methods with loops over
arrays; each is proved against functions on values, and the promises are lemmas about
those. Numbers of bc are an abstract type with uninterpreted arithmetic; values of the
parser are a type parameter, and its actions are functions.

`dafny verify dfyconfig.toml` checks the project.

## Where things are

* Numbers and bits: `Powers`, `Bits`.
* Huffman codes: `Canonical`, `TreeCodes` (codes from lengths), `HuftTables`, `HuftSort`,
  `HuftProof`, `InflateTables` (lookup tables), `HuffTheory`, `HuffHeap`, `HuffMerge`,
  `HuffDepth`, `HuffGrow`, `HuffLengths`, `HuffRepair`, `BuildTree` (optimal lengths).
* unlzh: `LzhTrie` (what the cells mean), `LzhTables` (make_table and decoding).
* The block format: `CodeLengths`, `Lz77`, `BlockFormat`, `Blocks`, `Streams`;
  `DeflateFacts` (what the standard says in numbers).
* inflate: `InflateCodes`, `InflateBlock`. deflate: `CtInit`, `Tally`, `BlockCost`,
  `FlushBlock`, `Hash`, `Matcher`, `SlidingWindow`, `Deflate`. Both: `RoundTrip`.
* compress: `LzwFormat`, `LzwHash`, `LzwWriter`, `LzwCompress`, `LzwDecompress`,
  `LzwRoundTrip`.
* bc: `BcSyntax` (language and code), `BcStore` (variables), `BcNames` (numbers of names),
  `BcArrays` and `BcCells` (the trees of arrays), `BcEval` (meaning), `BcBases` (arrays that
  are passed), `BcMachine` (machine), `BcGenerate` (the actions); `BcLayout`, `BcLabels`,
  `BcSteps`, `BcParts`, `BcSimulation`, `BcCorrect` (the code does what the program means);
  `BcCalls`, `BcArguments` (calls); `BcLaws` (what the operations mean to each other); `BcBytes`, `BcLaid`, `BcTargets`, `BcWhole` (the code in
  bytes); `BcLoad`, `BcLoads`, `BcProgram` (the text that is loaded).
* peglib: `PegGrammar` (what operators match), `PegValues` (what they yield), `PegPackrat`
  (the engine and its cache), `PegPrecedence`.

## Model

| member | source | states |
|---|---|---|
| RoundTrip.DeflateThenInflate | gzip-1.2.4/deflate.c:661-763 | for every input, every level from 1 to 9 and every trailer that follows, inflate succeeds on what deflate wrote, returns the input, and uses exactly the bytes of the stream |
| Deflate.Deflater.Run | gzip-1.2.4/deflate.c:580-763 | the bytes written are a well-formed stream of blocks, padded to a byte, whose expansion is the input and whose distances are at most MAX_DIST |
| InflateBlock.Inflate | gzip-1.2.4/inflate.c:867-954 | from the bits of any well-formed stream of stored, fixed and dynamic blocks, inflate puts out its expansion and gives back the lookahead it did not use |
| FlushBlock.BlockSender.Flush | gzip-1.2.4/trees.c:853-952 | what is sent for a block is exactly the block of the kind with the smallest predicted size, and the bytes counted from the predicted lengths are the bytes sent |
| FlushBlock.FormSizes | gzip-1.2.4/trees.c:639-645 | the predicted lengths of the dynamic and the fixed form are the numbers of bits of those blocks, with header, extra bits and end of block |
| FlushBlock.ChosenCheapest | gzip-1.2.4/trees.c:880-929 | of the stored, the static and the dynamic form none costs fewer bytes than the one that is chosen; when they cost the same, the stored form comes first and the static one second |
| BlockCost.ItemsLength | gzip-1.2.4/trees.c:1011-1055 | the bits of a block's symbols are the sum of frequency times code length and extra bits |
| BuildTree.Trees.Build | gzip-1.2.4/trees.c:609-688 | codes are cut off exactly when no optimal code is within the limit; when none is, the lengths are optimal and no optimal code has a smaller greatest length; in any case who occurs more often has no longer code, the code is complete and within the limit, the codes are the canonical ones, and both predicted costs are exact, forced codes included |
| BuildTree.OptimalAmongPrefixCodes | gzip-1.2.4/trees.c:609-688 | optimal lengths cost no more than those of any binary prefix code on the used symbols |
| HuffDepth.Shallow | gzip-1.2.4/trees.c:441-443 | because of nodes with equal frequency those with the lowest trees are merged first, lengths that cost as little as the merges reach as deep as their tree |
| HuffDepth.Attained | gzip-1.2.4/trees.c:653-676 | there are admissible lengths that cost what the merges cost and are as deep as their tree |
| HuffMerge.LowerBound | gzip-1.2.4/trees.c:653-676 | no admissible lengths cost less than the merges recorded by the heap loop |
| HuffHeap.PqDownHeap | gzip-1.2.4/trees.c:451-471 | from a heap but for the node at k it makes a heap, with the same nodes and nothing outside it changed |
| HuffRepair.FixCounts | gzip-1.2.4/trees.c:523-537 | while lengths overflow there is always a leaf to move down; each round moves the deepest that is not at the limit; in the end the Kraft sum is one and the number of leaves is unchanged |
| HuffRepair.Reassign | gzip-1.2.4/trees.c:543-557 | after reassignment there are bl_count[b] leaves of each length b, who occurs more often has no longer code, and the cost is adjusted accordingly |
| TreeCodes.BiReverse | gzip-1.2.4/bits.c:148-158 | the result is the low bits of the code in the opposite order |
| TreeCodes.GenCodes | gzip-1.2.4/trees.c:568-599 | every symbol with a length gets its canonical code, bit-reversed |
| Canonical.DecodeUnique | gzip-1.2.4/trees.c:568-599 | with a Kraft sum of at most one, a bit stream begins with at most one of the codes |
| Canonical.DecodeExists | gzip-1.2.4/trees.c:568-599 | with a Kraft sum of one, every bit stream begins with one of the codes |
| InflateTables.HuftBuild | gzip-1.2.4/inflate.c:271-465 | the status tells over-subscribed, complete and incomplete sets apart, and walking the linked tables decodes exactly the canonical codes, with the value of the symbol and its length, and rejects every other stream |
| InflateCodes.InflateCodes | gzip-1.2.4/inflate.c:490-595 | symbols decoded through the tables and copied in the circular window give the expansion of the block's tokens, up to the end of block, an invalid code, or the end of the input |
| Lz77.Window.CopyMatch | gzip-1.2.4/inflate.c:548-577 | the masked copy in chunks, with flushes of the full window, puts out the byte-at-a-time copy, overlapping or not, up to a distance of 32768 |
| Lz77.ChunkIsCopy | gzip-1.2.4/inflate.c:560-573 | one chunk of the copy is the byte-at-a-time copy |
| Lz77.CopyUnique | gzip-1.2.4/inflate.c:548-577 | the copy is the only continuation that repeats the output at the distance |
| CodeLengths.TwoTrees | gzip-1.2.4/trees.c:696-784 | reading the symbols of the literal tree and then of the distance tree as one stream gives both arrays of lengths |
| CodeLengths.ExpandSymbols | gzip-1.2.4/inflate.c:770-815 | the run-length symbols of any lengths mean those lengths |
| CodeLengths.ScanTree | gzip-1.2.4/trees.c:696-734 | the frequency of each symbol grows by the number of times send_tree will emit it |
| CodeLengths.SendTree | gzip-1.2.4/trees.c:740-784 | the bits sent are those of the run-length symbols of the lengths |
| FlushBlock.BuildBlTree | gzip-1.2.4/trees.c:790-816 | the code length tree fits the symbols of both trees, and opt_len grows by the exact size of the header |
| FlushBlock.SendAllTrees | gzip-1.2.4/trees.c:823-846 | the bits sent are the header of a dynamic block |
| InflateBlock.InflateDynamic | gzip-1.2.4/inflate.c:703-863 | from a header and the items of a block, the lengths, the tables and the expansion are those sent |
| InflateBlock.InflateStored | gzip-1.2.4/inflate.c:599-648 | a stored block is copied after its lengths are checked |
| InflateBlock.InflateFixed | gzip-1.2.4/inflate.c:652-699 | a block in the fixed codes is expanded |
| Tally.TallyBuffers.CtTally | gzip-1.2.4/trees.c:959-1006 | the buffers hold one token more, the frequencies count it, and a flush is asked for exactly when they are full, or after every 4096 tokens when there are few matches and the tokens cost at most half the length of the input |
| Tally.BoundIs | gzip-1.2.4/trees.c:988-995 | the bound computed code by code from the frequencies is what the tokens cost one by one, at eight bits for a literal or a length and five and the extra bits for a distance |
| Tally.CompressBlock | gzip-1.2.4/trees.c:1011-1055 | the bits sent are the codes and extra bits of the tokens in the buffers, and the end of block |
| BlockFormat.ItemsRoundTrip | gzip-1.2.4/trees.c:1022-1049 | length and distance codes with their extra bits give back the tokens |
| BlockFormat.LengthCodeSpan | gzip-1.2.4/trees.c:350-364 | every length from 3 to 258 has a code that covers it |
| Blocks.OrderIs | gzip-1.2.4/trees.c:220-221 | the code length codes come in the order 16, 17, 18, 0, and then the lengths by their distance from eight, the smaller of two first; each comes once |
| DeflateFacts.ExtraBitsGrow | gzip-1.2.4/trees.c:94-98 | lengths begin with 3 and distances with 1, and there is one extra bit more after every four lengths from the eighth and every two distances from the fourth on |
| DeflateFacts.RunsMean | gzip-1.2.4/inflate.c:770-815 | 16 repeats the length before it three to six times, 17 stands for three to ten zeros and 18 for eleven to 138 |
| DeflateFacts.StaticCodes | gzip-1.2.4/trees.c:384-388 | the static codes are those of the table in section 3.2.6 of RFC 1951 |
| DeflateFacts.TenLettersAre | gzip-1.2.4/inflate.c:867-918 | the bytes 4b 4c 84 01 00 are a stream that stands for ten letters a |
| Matcher.LongestMatch | gzip-1.2.4/deflate.c:357-480 | of the positions on the chain that are looked at, which are as many as the chain length allows, a quarter of it after a good match, none repeats more bytes than the match found; the match is the first of its length; a nice match ends the search, and is the first that is nice; the match repeats the text within MAX_DIST |
| Matcher.LongestOfAll | gzip-1.2.4/deflate.c:357-480 | when the chain was followed to its end, no string in reach that was inserted repeats more bytes |
| Matcher.AllOnChain | gzip-1.2.4/deflate.c:278-281 | every string in reach that was inserted and has the hash is on the chain |
| Matcher.ChainedSlide | gzip-1.2.4/deflate.c:529-551 | the hash chains are still those of the text after the window slides |
| Hash.ThirdByte | gzip-1.2.4/deflate.c:281-307 | equal hashes and two equal bytes imply an equal third byte |
| SlidingWindow.Slider.FillWindow | gzip-1.2.4/deflate.c:516-564 | the window shows the next part of the input after sliding and reading, and the chains are kept |
| SlidingWindow.Slider.InsertString | gzip-1.2.4/deflate.c:278-281 | the head is the latest position before with the same hash, and the chains to the next position hold |
| Deflate.Deflater.LazyStep | gzip-1.2.4/deflate.c:684-745 | the match of the step before is put out exactly when it has three bytes at least and the one found now is not longer; otherwise a literal is, if a byte is pending, and the match found now is kept |
| Deflate.Deflater.LazySearch | gzip-1.2.4/deflate.c:692-713 | the match is the one of the search along the chain, cut to the lookahead, if the match before is not long enough to do without, and no match of three bytes that is too far back |
| Deflate.Deflater.FastEmit | gzip-1.2.4/deflate.c:607-645 | a match found is put out at once, and the strings in it are inserted exactly when it is no longer than the limit; otherwise a literal is put out |
| Bits.BitWriter.SendBits | gzip-1.2.4/bits.c:119-141 | the value's bits follow those sent; bits above the valid ones stay zero |
| Bits.SendAndReadBack | gzip-1.2.4/bits.c:119-175 | values sent with lengths from 1 to 16 and read with the same lengths come back |
| LzhTables.Tables.Make | gzip-1.2.4/unlzh.c:141-199 | the set is rejected exactly when its Kraft sum is no multiple of one, and then nothing changes; an accepted set is written beyond the table exactly when the codes of a length that is looked up in the table alone end beyond it, which is never so with a sum of one at most; with a sum of one, and a code no longer than the table is deep, the table and the tree decode every number as the canonical code does, the symbol 0 included |
| LzhTables.FourOnes | gzip-1.2.4/unlzh.c:155-184 | four codes of one bit have a Kraft sum of two, and are written beyond the table |
| LzhTables.OnesAndTwos | gzip-1.2.4/unlzh.c:155-184 | two codes of one bit and four of two bits have a Kraft sum of two, and stay inside |
| LzhTables.Tables.Decode | gzip-1.2.4/unlzh.c:273-297 | the walk through table and tree ends at the symbol whose canonical code the bits begin with |
| LzhTables.Starts | gzip-1.2.4/unlzh.c:150-157 | the sums, kept in sixteen bits, are the first codes of each length modulo 65536, and pass exactly when the Kraft sum is a multiple of one |
| LzhTables.FewSymbols | gzip-1.2.4/unlzh.c:169-173 | if there are no more symbols than entries, a complete set has a code no longer than the table is deep |
| LzhTrie.DecodesOwner | gzip-1.2.4/unlzh.c:287-297 | in finished tables, a number that begins with the code of a symbol is decoded to it; nodes are never taken for leaves |
| LzwRoundTrip.CompressThenDecompress | ncompress-4.2.4/compress42.c:1340-1791 | for every input, every limit from 10 to 16 bits and every way in which reads deliver pieces, decompress succeeds and returns the input |
| LzwRoundTrip.OneMeaning | ncompress-4.2.4/compress42.c:1587-1791 | different inputs are never compressed to the same file |
| LzwRoundTrip.ThreeLetters | ncompress-4.2.4/compress42.c:1587-1791 | the bytes 1f 9d 90 61 02 02 are the file of three letters a |
| LzwCompress.Compressor.Run | ncompress-4.2.4/compress42.c:1374-1568 | the file is the header and bits whose meaning is the input |
| LzwCompress.Compressor.Step | ncompress-4.2.4/compress42.c:1470-1548 | while the string read and the next byte are in the table the string grows; exactly when they are not, its code is sent, the string begins anew with the byte, and both get a code if the table still grows |
| LzwCompress.OnlyIfFound | ncompress-4.2.4/compress42.c:1480-1548 | a pair of code and byte is in the dictionary exactly when some code has their string, since the strings of all codes are different |
| LzwCompress.Compressor.CheckRatio | ncompress-4.2.4/compress42.c:1406-1435 | with the table full and enough read since the last time, CLEAR is sent and everything starts anew exactly when the ratio of input to output is less than before |
| LzwCompress.Compressor.Restart | ncompress-4.2.4/compress42.c:1423-1435 | a CLEAR keeps the decoder in step and nothing of the input is lost |
| LzwCompress.SameString | ncompress-4.2.4/compress42.c:1699-1760 | every code the compressor may send stands for the same string in the decoder's table, which is one entry behind, the string just about to be entered included |
| LzwDecompress.Decompressor.Decompress | ncompress-4.2.4/compress42.c:1587-1791 | on any file the output and the end are what the bits mean, corrupt streams included, those apart that begin with a code that is no byte |
| LzwFormat.LastCode | ncompress-4.2.4/compress42.c:1560-1565 | the last code is understood although the compressor did not widen it, because the fill of the last byte serves as the missing bit |
| LzwHash.HashTable.Find | ncompress-4.2.4/compress42.c:1480-1499 | the probe sequence ends, and finds a pair exactly when it was entered since the last clear; otherwise it ends at an empty slot |
| LzwHash.HashTable.Put | ncompress-4.2.4/compress42.c:1540-1544 | the dictionary is as before with the new pair, so that all others are still found |
| LzwHash.ProbesDiffer | ncompress-4.2.4/compress42.c:1485-1496 | with a prime size, the probe sequence comes to no slot twice |
| LzwWriter.CodeWriter.Output | ncompress-4.2.4/compress42.c:494-499 | the bits of the code follow those in the buffer |
| BcWhole.BytesEndAsProgram | bc-1.06/bc/execute.c:90-545 | if a program ends, the bytes of its code end in the same way, with the same variables, arrays and output; as the program is read this holds for all arrays that are passed, as it is meant for those of ArraysClear |
| BcWhole.ProgramEndsAsBytes | bc-1.06/bc/execute.c:90-545 | if the bytes end, the program ends in the same way, and no instruction worked on an empty operand stack |
| BcCorrect.CodeEndsAsProgram | bc-1.06/bc/execute.c:90-545 | the same for the code as a list of instructions: if the program ends, the code ends in the same way |
| BcCorrect.ProgramEndsAsCode | bc-1.06/bc/execute.c:90-545 | if the code ends, the program ends in the same way; the code never uses an empty operand stack and leaves it empty |
| BcCorrect.MeaningIsOne | bc-1.06/bc/execute.c:90-545 | the meaning of a program does not depend on how long it is looked at, once it ends |
| BcCorrect.ForExactly | bc-1.06/bc/bc.c:1103-1150 | a `for` that is reached and ends does what it means and leaves the operand stack as it was if and only if it has a condition, and a first expression or nothing on the stack |
| BcCorrect.EndlessForFails | bc-1.06/bc/bc.c:1103-1150 | `for (;;) break;` means to do nothing, and its code pops an empty operand stack |
| BcCorrect.ArrayReached | bc-1.06/bc/bc.c:1303-1324 | a call gets the array that was named if and only if its number has one digit or the base of the moment is ten |
| BcCorrect.TenthArray | bc-1.06/bc/execute.c:599-677 | read in base sixteen the number of the tenth array is sixteen, in base two it is two |
| BcBases.ReadExactly | bc-1.06/bc/execute.c:599-677 | the digits of a number, read in a base from 2 to 16 with digits that the base does not have clamped, and a single digit at its face, give the number if and only if it has one digit or the base is ten |
| BcBases.NineInBaseTwo | bc-1.06/bc/execute.c:629-648 | in base two `19` and `91` are three and `9` is nine |
| BcBases.SameSs | bc-1.06/bc/bc.c:1303-1324 | programs that pass only arrays with one digit, and those that never store to ibase and start at ten, mean the same whether an array that is passed is the one named or the one whose number is read |
| BcSimulation.SimSs | bc-1.06/bc/bc.c:1103-1198 | the code of statements does what they mean and leaves the operand stack as it was |
| BcSimulation.SimE | bc-1.06/bc/bc.c:1349-1599 | the code of an expression leaves exactly its value on the operand stack |
| BcLabels.UniqueCode | bc-1.06/bc/bc.c:1103-1198 | every label of a segment is defined at most once |
| BcGenerate.Generator.GenS | bc-1.06/bc/bc.c:1067-1198 | the actions append the code of the statement and restore the labels of the enclosing statements; a break or continue in a wrong place is an error |
| BcCalls.CallReturns | bc-1.06/bc/execute.c:143-173 | a call with matching kinds comes back behind its instruction with the same frames, the arguments replaced by the value; every variable that the function binds has exactly the values it had, and every array that it binds, unless it is passed, stands for what it stood for; of all others nothing below the top has changed |
| BcCalls.FrameKeeps | bc-1.06/bc/storage.c:844-941 | entering a frame, changing nothing below the tops of the stacks and leaving it gives every name that the function binds the values it had, and leaves the others unchanged below the top |
| BcLaws.ReadsWritten | bc-1.06/bc/storage.c:448-462 | a variable has the value that was stored in it, and all others have the values they had |
| BcLaws.ReadsElement | bc-1.06/bc/storage.c:572-601 | an element has the value that was stored in it, also under another name of the array, and all others have the values they had |
| BcLaws.FreshZero | bc-1.06/bc/storage.c:361-440 | an element that was never written, or whose array has not come into use, is zero |
| BcLaws.StepIsAssign | bc-1.06/bc/storage.c:733-839 | where succ and pred add and subtract one, `++x` gives and does what `x += 1` does and `--x` what `x -= 1` does, `x++` and `x--` do the same and give the value before, for variables and for elements, errors included |
| BcLaws.StepsAlone | bc-1.06/bc/storage.c:679-807 | a step of a variable changes no other variable |
| BcLaws.SpecialTakes | bc-1.06/bc/storage.c:463-566 | ibase, obase and scale take the number that is stored, or the nearest they can have |
| BcLaws.HistoryIs | bc-1.06/bc/storage.c:448-566 | without a line editor, the history variable takes nothing that is stored in it, but `++` and `--` add and subtract one |
| BcLaws.SpecialSteps | bc-1.06/bc/storage.c:679-803 | a step of ibase, obase or scale does what storing the sum or difference with one does |
| BcLaws.SubscriptIs | bc-1.06/bc/storage.c:583-587 | subscripts are the integers from 0 to 65535, and a number between zero and one is none |
| BcLaws.RunInRange | bc-1.06/bc/execute.c:90-545 | in every run ibase stays between 2 and 16, obase and scale within their limits, the bases that calls have saved between 2 and 16, and what has been put out stays |
| BcLaws.RelationMeans | bc-1.06/bc/execute.c:462-514 | with numbers that stand for reals and a comparison that gives their order, a relation is one when it holds of the reals, and else zero |
| BcLaws.ShownExactly | bc-1.06/bc/bc.y:154-162 | an expression is not shown exactly when it is an assignment or made of assignments by operators without parentheses |
| BcLaws.ShownIsLast | bc-1.06/bc/execute.c:256-263 | the value that is shown is put out in the output base, and is the last one |
| BcLaws.AutosZero | bc-1.06/bc/storage.c:845-873 | when a function begins its autos are zero, and its auto arrays empty |
| BcLaws.ArgumentReturned | bc-1.06/bc/storage.c:901-941 | `define f(x) { return (x) }` gives its argument and leaves every variable as it was |
| BcArguments.ArgumentsInOrder | bc-1.06/bc/storage.c:987-1067 | each parameter gets its own argument: a number its value, an array a copy that nothing else shows, a `*` array the array itself |
| BcArguments.ProcessParams | bc-1.06/bc/storage.c:987-1067 | walking the parameter list and popping the operand stack binds the arguments in source order, and fails exactly when numbers or kinds do not match |
| BcArguments.NamesInOrder | bc-1.06/bc/util.c:89-130 | the list is written from its end and loaded by putting names in front, which gives the order of the source |
| BcBytes.ComesBack | bc-1.06/bc/load.c:151-351 | every instruction whose operands fit is read from its bytes again, with the address of the next |
| BcBytes.NameComesBack | bc-1.06/bc/load.c:311-328 | a name comes back from its one or two bytes if and only if it is below 32768 |
| BcNames.NameTable.Lookup | bc-1.06/bc/util.c:540-625 | the number of a name is the one it has, or the next of its kind, or none when there are too many |
| BcNames.NumbersDiffer | bc-1.06/bc/util.c:540-625 | different names of a kind have different numbers, and a name keeps its number, unless it is that of a library function that is defined again |
| BcNames.FitsExactly | bc-1.06/bc/util.c:576-620 | every number that lookup returns fits its two bytes, if and only if it does not define a library function again when the numbers are used up |
| BcNames.TwoRedefined | bc-1.06/bc/util.c:591-596 | when all numbers of functions are given, the second library function that is defined again gets 32768 |
| BcLaid.StepInBytes | bc-1.06/bc/execute.c:90-545 | a step of the machine on bytes is a step on instructions, labels apart, which are no step |
| BcTargets.LabelsDecide | bc-1.06/bc/load.c:86-124 | the labels of the main code fit if and only if it has at most 65535 of them |
| BcLoad.Loader.LoadCode | bc-1.06/bc/load.c:151-351 | the loader, character by character with its state kept between calls, does what the turns of its specification do |
| BcLoads.CodeLoaded | bc-1.06/bc/load.c:151-351 | from the text of code that fits, the loader adds exactly the bytes of the code and the addresses of its labels |
| BcProgram.ProgramLoaded | bc-1.06/bc/load.c:233-278 | from the text of a program, every function gets its parameters, its autos and its code, and the main segment the main code |
| BcProgram.LoadAndRun | bc-1.06/bc/execute.c:90-545 | loading the text of a program and running its bytes ends only as the program does, with the same variables, arrays and output |
| BcProgram.LoaderStops | bc-1.06/bc/load.c:86-124 | the loader gives up if and only if the main code or a function has more than 65535 labels |
| BcProgram.ManyIfs | bc-1.06/bc/load.c:86-124 | it gives up on a program of n statements `if (1) {}` if and only if n is more than 65535 |
| BcArrays.Tree.Locate | bc-1.06/bc/storage.c:361-442 | the node and item found are those of the element; growing the tree keeps every node and every value |
| BcArrays.Tree.Put | bc-1.06/bc/storage.c:573-601 | the tree that shows a total map shows it with this one element changed |
| BcArrays.Tree.CellsDiffer | bc-1.06/bc/storage.c:361-442 | different elements have different cells |
| BcArrays.CopyArray | bc-1.06/bc/storage.c:944-979 | the copy has the same values, and all its nodes are new |
| BcCells.StoreElement | bc-1.06/bc/storage.c:573-601 | trees that show the arrays of the store, with no object in common, show those of the store after an element is stored |
| BcCells.CopyElements | bc-1.06/bc/storage.c:944-979 | and so they do when an array is copied to a new place |
| PegPackrat.WithAndWithout | cpp-peglib-0.1.12/peglib.h:878-906 | for every grammar and text on which parsing ends, the engine with the cache and without it find the same length, values and tokens, or both fail |
| PegPackrat.Context.Packrat | cpp-peglib-0.1.12/peglib.h:878-906 | the result for a rule, remembered or not, is the one parsing without the cache finds there, and every registered cell still holds such a result |
| PegPackrat.Context.Parse | cpp-peglib-0.1.12/peglib.h:995-1222 | length and values are those of the specification, the values below are untouched and the stack is as high as before; out of fuel only if the specification is |
| PegPackrat.Context.ParseReference | cpp-peglib-0.1.12/peglib.h:2477-2549 | a rule passes on its value unless it is ignored; a rule that fails or whose action rejects leaves the values alone |
| PegPackrat.Context.Push | cpp-peglib-0.1.12/peglib.h:908-930 | values that are used again are as good as new |
| PegGrammar.SameOut | cpp-peglib-0.1.12/peglib.h:995-1222 | an operator has one result at a place, however much fuel finds it |
| PegValues.AddsItsOwn | cpp-peglib-0.1.12/peglib.h:995-1222 | what an operator matches does not depend on the values there are, and it adds to them what it would yield alone |
| PegValues.SequenceYields | cpp-peglib-0.1.12/peglib.h:1003-1032 | a sequence matches when its first operator does and the others do behind it, and yields what they yield in this order |
| PegValues.ChoiceYields | cpp-peglib-0.1.12/peglib.h:1048-1086 | a choice yields what the first alternative that matches yields, and which of how many it was |
| PegValues.RepetitionYields | cpp-peglib-0.1.12/peglib.h:1101-1143 | a repetition goes on as long as its operator matches, up to its greatest number and the end of the text, and fails exactly when fewer rounds match than are wanted |
| PegValues.LooksAhead | cpp-peglib-0.1.12/peglib.h:1172-1222 | `&e` and `!e` take nothing and yield nothing, one matches where the other does not, and `!!e` is `&e` |
| PegValues.LeavesOut | cpp-peglib-0.1.12/peglib.h:1395-1422 | what is ignored is as long and yields nothing, and a token yields its place and length as well |
| PegValues.ReferenceYields | cpp-peglib-0.1.12/peglib.h:2528-2536 | a rule yields its own value with its tag, and nothing else; one that is ignored yields nothing |
| PegValues.ValueOfFirst | cpp-peglib-0.1.12/peglib.h:2551-2559 | a rule without an action whose body begins with a rule that is not ignored has the value of that rule at the same place |
| PegValues.ActionGiven | cpp-peglib-0.1.12/peglib.h:2505-2514 | an action is given the values of the body, and the choice when the body is one, but not when a choice is inside it |
| PegGrammar.FailsTraceless | cpp-peglib-0.1.12/peglib.h:1101-1143 | an operator that is no repetition with two or more rounds wanted, and no token or repetition of one, leaves the values exactly as they were when it fails, so that taking back a failed round of it is exact |
| PegGrammar.RepeatedReference | cpp-peglib-0.1.12/peglib.h:1127-1138 | a failed round of a rule wanted n times is taken back as a whole, for every grammar and text, if and only if n is at most two |
| PegGrammar.LeftBehind | cpp-peglib-0.1.12/peglib.h:1127-1138 | for every n from three on, `(D{n})?` on n - 1 digits matches nothing and passes on the values of all of them but the first |
| PegPrecedence.ParseExpression | cpp-peglib-0.1.12/peglib.h:2633-2712 | the tree and the end are those of a machine with a stack of open operands; what is consumed is what these take by turns, an operator without an atom behind it included, and the tree flattens to this without those operators. It flattens to everything if and only if no accepted operator is left hanging where the chain of operators and atoms ends; then all operators bind by level and associativity, and nothing more could be taken |
| PegPrecedence.OneTree | cpp-peglib-0.1.12/peglib.h:2633-2712 | a row of atoms and operators has one tree in which all operators bind so |
| PegPrecedence.PrecedesMeans | cpp-peglib-0.1.12/peglib.h:2674-2683 | operators bind so exactly when under every operator the operator of a child has a higher level, or the same level on the side that the table names |
| PegPrecedence.OneComb | cpp-peglib-0.1.12/peglib.h:2682-2683 | over a row with operators of one level every right child is an atom when they are left-associative, and every left child when they are not |
| PegPrecedence.ThreeRows | cpp-peglib-0.1.12/peglib.h:2682-2683 | `1-2-3` is (1-2)-3, `1^2^3` is 1^(2^3), `1+2*3` is 1+(2*3) and `1*2+3` is (1*2)+3 |
| PegPrecedence.KeptExactly | cpp-peglib-0.1.12/peglib.h:2679-2694 | everything consumed is kept if and only if no accepted operator hangs at the end of the chain, and then the chain is what is consumed |
| PegPrecedence.OnePlus | cpp-peglib-0.1.12/peglib.h:2679-2694 | of `1+` both characters are consumed and the tree is the first |
| PegPrecedence.TwoStars | cpp-peglib-0.1.12/peglib.h:2679-2694 | of `1+2**3` one star is dropped and the sum becomes an operand of the other |

## Findings

* **bc, `for` without its first expression or its condition.** The actions test the value
  of a missing expression, which is 16, for its sign (bc-1.06/bc/bc.c:1103-1150), so that a
  pop is generated after a missing first expression and no constant for a missing
  condition. `ForExactly` gives the exact condition: the statement is right if and only if
  it has a condition, and a first expression or an empty operand stack.
  `EndlessForFails` gives the input `for (;;) break;`. The theorems on whole programs are
  about those in which every `for` has a condition, and a first expression unless it stands
  where the stack is empty; `bare` names the functions that are called only there.
* **bc, arrays as arguments.** The number of the array is emitted in decimal and read in
  the base of the moment (bc-1.06/bc/bc.c:1303-1324, bc-1.06/bc/execute.c:599-677). The
  call gets the array that was named if and only if the number has one digit or the base is
  ten (`ArrayReached`); `TenthArray` is an input. Numbers of arrays begin at one, so that
  nine are always safe. The byte code does what the program means as it is read, without
  exception; what it means as it is meant, when the arrays it passes have one digit, or
  when it never stores to ibase and starts at ten (`ArraysClear`).
* **bc, library functions.** lookup gives up at 32767, so that numbers fit their bytes; but
  a library function that is defined again gets a new number without this check
  (bc-1.06/bc/util.c:591-596). `FitsExactly` is the exact condition, `TwoRedefined` an
  input.
* **bc, labels.** The loader gives up beyond 65535 labels, and exactly then (`LoaderStops`,
  `ManyIfs`).
* **unlzh, the check of make_table.** The sum is kept in sixteen bits, so that it accepts
  every Kraft sum that is a multiple of one (`Starts`, `FourOnes`). Some of the other sets
  are written beyond the table; `Make` says exactly which.
* **peglib, repetitions.** After a failed round one value and one token are erased, even
  when the round left more. A round leaves nothing if its operator wants no second round
  (`FailsTraceless`); for a rule that is wanted n times, taking back is exact if and only
  if n is at most two (`RepeatedReference`, `LeftBehind`).
* **peglib, precedence climbing.** An operator is counted before its right operand is
  parsed (cpp-peglib-0.1.12/peglib.h:2679-2694), so that it is consumed and dropped when no
  atom follows. `ParseExpression` and `KeptExactly` say what is consumed and when nothing
  is dropped, `OnePlus` is an input. Behind a dropped operator, an operator that binds
  loosely can become an operand of one that binds tightly (`TwoStars`).

## Left out

- HuftBuild: incomplete sets with unused symbols, whose dummy codes look like values; sizes outside UsualSizes, where a step can go one bit too far; tables are sequences of tables instead of memory that is allocated and freed.
- Make: lengths above 16; what is written beyond the table, where the model stops; what the tables decode when the Kraft sum is not one, or no code is short.
- Decode: read_pt_len, read_c_len, the window of unlzh and its buffer of bits are not part of this model.
- Build: when a length was cut off, the lengths are complete, within the limit and in order of frequency, and not claimed to be the best within the limit, which they need not be.
- Flush: opt_len and compressed_len are unbounded numbers; set_file_type and the header and trailer of the file are not part of this model; nor is the branch for output that can be rewritten, which is never taken, since seekable is 0 (gzip-1.2.4/gzip.h:232).
- Inflate: streams that are not well-formed; bad input is covered by InflateStored, InflateCodes and HuftBuild alone.
- InflateDynamic: headers that no compressor writes, and incomplete codes.
- Run: errors of reading and writing are not part of this model; the window has MAX_MATCH + 1 bytes more than the source's, so that comparing beyond the lookahead stays inside it.
- CompressThenDecompress: a limit of nine bits and files without block mode, on which the two sides do not agree.
- Decompress: the model stops with a status of its own at a first code that is no byte, where the program goes on; the table and the stack, which share an array, are apart here; output buffers smaller than 2048.
- CodeEndsAsProgram: read(), quit, the line editor and its history, and the arithmetic of numbers, which is abstract; print shows its text as one event, without escapes; the warnings.
- ProcessParams: what happens after the error for mismatched parameters.
- ArgumentsInOrder: an argument that names an array which a parameter behind it has hidden by then.
- CopyArray: allocation that fails, and memory that is freed.
- LoadCode: text that no action writes, such as commands after `@`; label numbers beyond the range of int.
- Lookup: the balanced tree that finds names is a map, and the tables that grow with the numbers are not part of this model.
- Parse: captures, back references, macros, %whitespace, %word, actions with a state, error positions and messages, tracing; a text on which parsing does not end is one for which every fuel is too little.
- Context.Packrat: rules that climb precedence, since they exchange the action of the rule for a token of their own while they are parsed.
- ParseExpression: the action is one that builds a tree; operators of the table have at least one character.
- The checks of grammars in peglib, the other decoders of gzip (unpack.c, unlzw.c), dc, the command lines of all programs and all other input and output are not part of this model.
