# Verified models of yarv-uc

Dafny models of the parts of the yarv-uc repository whose correctness rests on an argument
rather than on reading one branch, with the arguments proved:

- the CoreMark list benchmark on its memory block: find, reverse, move to front, bottom-up
  mergesort by relinking with comparators that rewrite the data they compare, remove and undo,
  the state-machine and matrix kernels it calls, the CRC, and `iterate` around it;
- the peripheral bus: the AXI4-Lite master bridge in front of the 1-to-3 crossbar and its
  decode-error terminator, against targets that choose their READY and VALID timing freely;
- the ALU: adder and compares, two multiplier structures, the restoring divider;
- the word-at-a-time `strcpy` of the Dhrystone port;
- SHA-256 against FIPS 180-4;
- 8N1 framing and the UART peripheral: the simulation harness's two printers and sampling monitor,
  and the peripheral between them and the bus, sending to the monitor and receiving from the driver;
- the branch predictor, chiefly its return-address stack;
- quicksort, and the two-pass assembler of the test generators.

`dafny verify dfyconfig.toml` checks everything.

## How the models are built

Each file of the source has a module. What the source updates in place is a class or a method
on arrays here, proved equal to a function of the old state; what the source promises is then
proved about that function, for all inputs or over whole runs. `XxxProof` files hold the
theorems, the other file the model.

- **List nodes** are indices into the memory block (`next`, `info`, `data16`, `idx`), which is
  how the block is laid out. `ListHeap` relates pointers to sequences of nodes, `ListSort` is the
  sort over any comparator, `CoreList` the benchmark on sequences, `CoreListCode` the code on the
  arrays.
- **Words.** 8- and 16-bit data of the list and the CRC are bit-vectors; `ee_u8` in the CRC is kept
  zero-extended. Everywhere else words are integers with wrap-around, truncation and sign written
  out. The encoders add fields that the script or-s, since they do not overlap.
- **Clocked logic.** A register file is a datatype; one function gives the outputs of a cycle, one
  the registers after the edge, and a class has the registers as fields.
- What a data word stands for is said in numbers (`DataWord`), what the find loop does by the orders
  the list goes through (`FindTrace`), what is returned by both (`BenchValue`), the transition counts by
  the languages of the scanner's states (`CoreStateProof`), the matrix kernel by exact sums and bits
  (`CoreMatrixProof`): these statements do not use the functions that the code is modelled with.
- Nested loops of one C function are methods of their own, so that each has one loop.
- The comparators are called with and without a results record as the benchmark does:
  `cmp_complex` with it, `cmp_idx` with NULL.

Where code and documentation disagree the code was followed:

- `core_state.c:122` lists `-87e+832` among its scientific patterns; the machine calls an exponent
  without a dot invalid (`CoreStateProof.ScientificWithoutDot`).
- "The list is back to original state" (`core_list_join.c:156`) holds of the data, and of the order
  only while no two nodes share an idx; `core_list_init` makes such lists for some seeds. Then a call
  can leave `res->list` in the middle of the list (`CoreListExact.RepeatedIndexExample`), and
  `iterate` goes on with one node less (`IterateExact.IterateLosesNode`).
  `CoreListExact.RestoredAlways` and `BenchListExactly` give the exact condition, for all calls and
  for one. Of the state block it holds exactly under `CoreStateProof.RestoredExactly`'s condition.
- BAUDDIV is documented to take effect once both engines are idle (`axi4_lite_uart.sv:43-48`). A write
  that commits in the very cycle in which an earlier one is applied never does
  (`UartTxProof.DivisorLost`).
- The crossbar's header describes a router for any AXI4-Lite master. It routes a W beat by its own
  address if and only if, in the cycle the beat is handed over, that address is the one of the open
  write, or no write is open and it is on the pins (an address of the same window will do):
  `CrossbarRouting.RoutedExactly`. Masters that AXI allows and that are misrouted send W before AW
  (`EarlyDataMisroutes`) or do not wait for the response (`LockStepMisroutes`). The bridge keeps the
  condition (`BridgeKeepsDiscipline`).

## Model

| member | source | states |
|---|---|---|
| CoreUtil.Crcu8 | sim/sw/coremark/eembc/core_util.c:164-188 | the carry loop is eight steps of division by the reflected polynomial 0xA001 of register xor data |
| CoreUtil.CrcU8Linear | sim/sw/coremark/eembc/core_util.c:164-188 | the CRC step is GF(2)-linear in data and register together |
| CoreUtil.CrcU16IsDivision | sim/sw/coremark/eembc/core_util.c:189-195 | two byte steps, low byte first, are one sixteen-step division of the whole word |
| CoreUtil.CrcU16Cancels | sim/sw/coremark/eembc/core_util.c:189-195 | a word sends the register to 0 if and only if it equals the register |
| CoreUtil.CrcU32IsFold | sim/sw/coremark/eembc/core_util.c:196-207 | crcu32 is the byte-wise fold over its four bytes, low byte first |
| CoreUtil.CrcU32Words | sim/sw/coremark/eembc/core_util.c:196-207 | crcu32 of the number that two words stand for is the CRC of the low word, then of the high one |
| CoreState.Switch | sim/sw/coremark/eembc/core_state.c:230-326 | one symbol moves the machine and its transition counts as Next and Track say; what the counts are over a text is CoreStateProof.TracksCountPieces |
| CoreState.Scan | sim/sw/coremark/eembc/core_state.c:222-229 | the pointer never moves back, and on any non-NUL input it strictly advances, so both scanning loops end |
| CoreState.CoreStateTransition | sim/sw/coremark/eembc/core_state.c:216-330 | the scanning loop returns the state, pointer and counts of Scan, which CoreStateProof.TransitionDecides and ScanDeparts describe by the language of the token |
| CoreState.ScanBlock | sim/sw/coremark/eembc/core_state.c:66-75 | the loop over tokens ends at the NUL with the tallies of ScanAll |
| CoreState.CorruptBlock | sim/sw/coremark/eembc/core_state.c:77-83 | every byte a step lands on is xored unless it is a comma, no other changes |
| CoreState.CrcTally | sim/sw/coremark/eembc/core_state.c:105-110 | final and transition counts enter the CRC state by state, alternately |
| CoreState.CoreBenchState | sim/sw/coremark/eembc/core_state.c:45-111 | two scans and two corruptions in the block give the CRC and block of BenchState |
| CoreListCode.NulStaysAfter | sim/sw/coremark/eembc/core_state.c:66-103 | if every scan of every sequence of state kernel calls finds a NUL, so it is after one more call |
| CoreListCode.SparedStays | sim/sw/coremark/eembc/core_state.c:66-103 | a NUL that no step lands on is enough for that |
| CoreListCode.SteadyStays | sim/sw/coremark/eembc/core_state.c:66-103 | for a block that every call gives back it holds if and only if the two scans of a single call find one |
| CoreStateProof.MachineDecides | sim/sw/coremark/eembc/core_state.c:230-326 | each non-invalid final state names exactly a regular language: INT, FLOAT and SCIENTIFIC as documented, and the four partial forms |
| CoreStateProof.TransitionDecides | sim/sw/coremark/eembc/core_state.c:216-330 | the state returned classifies the token up to comma or NUL; unless invalid the pointer ends just past it, and never passes the NUL |
| CoreStateProof.ScientificWithoutDot | sim/sw/coremark/eembc/core_state.c:269-280 | an exponent without a dot is invalid, though the data lists such a pattern as scientific |
| CoreStateProof.FinalCountsSum | sim/sw/coremark/eembc/core_state.c:66-75 | the final counts grow by exactly the number of tokens scanned |
| CoreStateProof.FinalsCountPieces | sim/sw/coremark/eembc/core_state.c:66-75 | for every block the final count of a state is the number of pieces of the text, cut at commas and behind each symbol that makes one invalid, in that state's language |
| CoreStateProof.ScanDeparts | sim/sw/coremark/eembc/core_state.c:216-330 | one token: each transition count grows by the places of the piece that count for it |
| CoreStateProof.TracksCountPieces | sim/sw/coremark/eembc/core_state.c:216-330 | for every block the transition count of Start, S1, Int, Float, S2 and Exponent is the number of places where a piece's prefix is in the state's language and the prefix one symbol longer is not; that of Invalid is the number of invalid first symbols and of symbols that end a scientific prefix; that of Scientific stays 0 |
| CoreStateProof.SymbolsAre | sim/sw/coremark/eembc/core_state.c:197-203 | the digits, signs, exponent marks, comma and dot of the languages, by character |
| CoreStateProof.CorruptedAt | sim/sw/coremark/eembc/core_state.c:77-83 | a corrupted byte is the old one xor the seed if it is below the size, at a multiple of the step and no comma, else the old one |
| CoreStateProof.SeedByteIs | sim/sw/coremark/eembc/core_state.c:81-81 | the byte xored in is the seed's residue modulo 256 |
| CoreStateProof.BenchStateIs | sim/sw/coremark/eembc/core_state.c:45-111 | the value returned is the CRC of sixteen words: for the states in the order of the enumeration, the pieces in its language and the places that count for it, of the text before and after the first corruption together |
| CoreStateProof.RestoredExactly | sim/sw/coremark/eembc/core_state.c:77-103 | the block is back to its old contents if and only if every byte landed on is a comma, or the seeds' low bytes agree and the byte does not become a comma |
| CoreMatrix.MatrixAddConst | sim/sw/coremark/eembc/core_matrix.c:284-295 | every element plus the constant, wrapped to 16 bits |
| CoreMatrix.MatrixMulConst | sim/sw/coremark/eembc/core_matrix.c:268-279 | every element times the constant |
| CoreMatrix.MatrixMulVect | sim/sw/coremark/eembc/core_matrix.c:302-314 | the first N entries of C become the row products, the rest of C stays |
| CoreMatrix.InnerProduct | sim/sw/coremark/eembc/core_matrix.c:329-333 | one entry of C becomes the product of its row and column, no other changes |
| CoreMatrix.MatrixMulMatrix | sim/sw/coremark/eembc/core_matrix.c:321-359 | C is the matrix product, or its bit-extracted form |
| CoreMatrix.ComputeMatrixSum | sim/sw/coremark/eembc/core_matrix.c:237-262 | the clipped running sum over C in row order |
| CoreMatrix.ComputeMatrixTest | sim/sw/coremark/eembc/core_matrix.c:129-162 | the four products' CRC, with A as it was afterwards |
| CoreMatrix.CoreBenchMatrix | sim/sw/coremark/eembc/core_matrix.c:91-103 | the CRC of matrix_test folded into the running CRC; A ends as it began |
| CoreMatrix.AddConstRestores | sim/sw/coremark/eembc/core_matrix.c:135-160 | adding val and then -val gives A back, for every val, also -32768 |
| CoreMatrix.DotIsExact | sim/sw/coremark/eembc/core_matrix.c:321-359 | wrapping at every step of an inner product is wrapping the exact sum once |
| CoreMatrix.RowIsProduct | sim/sw/coremark/eembc/core_matrix.c:321-359 | the running row offset is i times N |
| CoreMatrixProof.WrapIs | sim/sw/coremark/eembc/core_matrix.c:321-359 | a value stored in 16 or 32 bits keeps its residue |
| CoreMatrixProof.Crc16Is | sim/sw/coremark/eembc/core_util.c:203-207 | crc16 of a signed value is the CRC of the word with its residue |
| CoreMatrixProof.BigIs | sim/sw/coremark/eembc/core_matrix.c:48-48 | matrix_big keeps the lower twelve bits and sets the upper four |
| CoreMatrixProof.BitExtractIs | sim/sw/coremark/eembc/core_matrix.c:355-355 | the bit-extracted product is bits 2-5 times bits 5-11, bit by bit |
| CoreMatrixProof.EntryIs | sim/sw/coremark/eembc/core_matrix.c:321-359 | entry i N + j of the matrix product, or of its bit-extracted form, is the exact sum over k of A at i N + k and B at k N + j, wrapped once |
| CoreMatrixProof.VectorEntryIs | sim/sw/coremark/eembc/core_matrix.c:302-314 | entry i is the exact sum over k of A at i N + k and B at k; behind the first N nothing changes |
| CoreMatrixProof.MatrixSumIs | sim/sw/coremark/eembc/core_matrix.c:237-262 | modulo 2^16: ten for each entry that takes the sum since the last such entry over the clip value, one for each other entry above the one before it |
| CoreMatrixProof.MatrixTestIs | sim/sw/coremark/eembc/core_matrix.c:129-162 | the matrices matrix_test goes through, entry by entry, and the order in which their sums enter a CRC that starts at 0 |
| ListSortProof.MergeSortCorrect | sim/sw/coremark/eembc/core_list_join.c:499-595 | for every comparator whose touch is idempotent and keeps keys and tags, and every list, also one whose nodes share payloads, the sort is a stable permutation in key order, every node touched once there are two |
| ListSortProof.MergeSortRestores | sim/sw/coremark/eembc/core_list_join.c:499-595 | if keys do not depend on the data, any shuffle of a strictly ordered list sorts back to it |
| ListSortProof.SortAlike | sim/sw/coremark/eembc/core_list_join.c:499-595 | two runs of the sort from related results records give the same order and related records |
| SortTouches.SortTouchesInOrder | sim/sw/coremark/eembc/core_list_join.c:499-595 | whichever comparisons the sort makes, its side effect is that of touching each node of the list it was given once, in order |
| BenchValue.SortCallsInOrder | sim/sw/coremark/eembc/core_list_join.c:69-126 | the sort by data leaves items, results record and kernel memory as calc_func does, called for each item once in the order of the list |
| CoreListProof.ByDataLawful | sim/sw/coremark/eembc/core_list_join.c:69-126 | cmp_complex keeps its key once cached, whatever the kernels return |
| CoreListProof.ByIndexLawful | sim/sw/coremark/eembc/core_list_join.c:133-142 | cmp_idx rewrites a word to a value it then keeps, and its key never changes |
| CoreListProof.SortByDataCorrect | sim/sw/coremark/eembc/core_list_join.c:69-126 | sorting with cmp_complex: a stable permutation by the cached 7 bits; with two or more nodes every node is cached; every upper byte is unchanged |
| CoreListProof.SortByIndexCorrect | sim/sw/coremark/eembc/core_list_join.c:133-142 | sorting with cmp_idx: a stable permutation by idx; with two or more nodes every low byte equals its upper byte |
| CoreListProof.FinalSortRestores | sim/sw/coremark/eembc/core_list_join.c:221-223 | if idx strictly increases and the low bytes were the upper ones, the last sort gives node order and data back from any shuffle |
| CoreListProof.BenchListRestores | sim/sw/coremark/eembc/core_list_join.c:158-235 | for any list of three or more nodes with strictly increasing idx and low bytes equal to upper ones, any finder_idx and seed3: same order, payload pointers and data afterwards |
| CoreListExact.FinalSortOrders | sim/sw/coremark/eembc/core_list_join.c:221-223 | from any shuffle the last sort gives the order back if and only if the list was ordered by idx and the shuffle kept nodes of equal idx in order, and the data if and only if low bytes equalled upper ones |
| CoreListExact.BenchListExactly | sim/sw/coremark/eembc/core_list_join.c:151-235 | one call gives the data back if and only if low bytes equalled upper ones, and the order if and only if it was by idx and ties are in order before the last sort |
| CoreListExact.RestoredAlways | sim/sw/coremark/eembc/core_list_join.c:151-235 | a list whose head has idx 0 is given back by every finder_idx and seed3 if and only if idx strictly increases and low bytes equal upper ones |
| CoreListExact.RepeatedIndexLosesHead | sim/sw/coremark/eembc/core_list_join.c:221-223 | two nodes of equal idx in front: with seed3 1 and a search that only reverses, such as iterate's by data when no low byte is 0, the old head is no longer the head |
| CoreListExact.RepeatedIndexExample | sim/sw/coremark/eembc/core_list_join.c:221-223 | idx 0, 0, 5, 0x7fff is such a list, for finder_idx 0 and for iterate's -1 |
| CoreList.RemoveUndone | sim/sw/coremark/eembc/core_list_join.c:376-419 | undoing a removal gives back payload pointers and node order |
| CoreList.ReverseAt | sim/sw/coremark/eembc/core_list_join.c:464-476 | element i of the reversed list is element n-1-i |
| CoreList.FindFirst | sim/sw/coremark/eembc/core_list_join.c:434-449 | what is found matches, by idx or by low byte when idx is negative, and nothing before it does |
| FindTrace.FindLoopLeaves | sim/sw/coremark/eembc/core_list_join.c:173-203 | in turn i the key is finder_idx + i while that is below 0x8000, or i & 0xff if it is negative; each turn finds the first node its key hits in the order the turn before left, and leaves the list reversed with the node behind the found one second; modulo 2^16 retval is 4 for each turn that finds one, less 1 for each that does not, and the bit 9 of each odd word found and the bit 8 of the second word after each miss |
| BenchValue.BenchReturns | sim/sw/coremark/eembc/core_list_join.c:158-235 | for every list: the value returned is the find loop's checksum, then one CRC step of the head's word for each item from the first that the last key hits on once the second item is gone, then one for each node but the first in index order |
| DataWord.ValueIs | sim/sw/coremark/eembc/core_list_join.c:71-78 | the cached result is the word modulo 128 |
| DataWord.BytesAre | sim/sw/coremark/eembc/core_list_join.c:137-138 | low byte and backup are the remainder and quotient by 256 |
| DataWord.FlagIs | sim/sw/coremark/eembc/core_list_join.c:81-81 | the flag is the word modulo 8 |
| DataWord.CachedIs | sim/sw/coremark/eembc/core_list_join.c:73-77 | a word is cached if and only if its quotient by 128 is odd |
| DataWord.DTypeIs | sim/sw/coremark/eembc/core_list_join.c:82-85 | dtype is 17 times the four bits from bit 3 on |
| DataWord.StepIs | sim/sw/coremark/eembc/core_list_join.c:88-90 | the state kernel's step is dtype, but at least 34 |
| DataWord.StoreIs | sim/sw/coremark/eembc/core_list_join.c:109-111 | a cached word keeps its upper byte and has bit 7 and the result modulo 128 below |
| DataWord.RebuildIs | sim/sw/coremark/eembc/core_list_join.c:137-138 | a rebuilt word is 257 times its upper byte |
| DataWord.CalcIs | sim/sw/coremark/eembc/core_list_join.c:69-114 | calc_func in these numbers: which words stay, which kernel runs, what is stored and what enters res->crc |
| CoreMain.MeasureSame | sim/sw/coremark/eembc/core_main.c:65-68 | on any list of three or more nodes one call leaves payloads, state block and matrix A as they were, and what it makes of list and result depends on res->crc alone |
| CoreMain.MeasureRestores | sim/sw/coremark/eembc/core_main.c:65-68 | for strictly increasing idx one call also leaves list and data as they were |
| CoreMain.IterateRepeats | sim/sw/coremark/eembc/core_main.c:51-73 | for strictly increasing idx the final crc is one fixed function applied iterations times to 0: core_bench_list with finder_idx 1 and then with -1, on the list as it was, each result folded into res->crc; crclist is that function of 0, list, block and A end as they began, and every call finds its three nodes |
| IterateExact.TurnLosesNode | sim/sw/coremark/eembc/core_main.c:65-68 | when only the first two idx are equal, no low byte is 0 and seed3 is 1, one iteration ends with res->list on a list one node shorter, the second node lost |
| IterateExact.IterateLosesNode | sim/sw/coremark/eembc/core_main.c:51-73 | iterate on such a list: the first iteration works on n nodes and all later ones on n - 1, which gives the final crc and crclist |
| ListHeap.ReverseStep | sim/sw/coremark/eembc/core_list_join.c:468-474 | one relinking keeps the reversed part and the rest two disjoint lists |
| ListHeap.PromoteLinks | sim/sw/coremark/eembc/core_list_join.c:189-195 | the three assignments move the found node's successor behind the head of one list |
| ListHeap.RemoveLinks | sim/sw/coremark/eembc/core_list_join.c:376-389 | the list without its third node, which becomes a list of its own |
| ListHeap.UndoLinks | sim/sw/coremark/eembc/core_list_join.c:407-419 | the removed node back behind the one that was modified |
| ListHeap.TakeFromP | sim/sw/coremark/eembc/core_list_join.c:557-576 | appending from the first run keeps the merged part, both runs and the rest one partition of the list |
| ListHeap.TakeFromChain | sim/sw/coremark/eembc/core_list_join.c:545-576 | the same from the second run |
| CoreListCode.CoreMark.StateKernel | sim/sw/coremark/eembc/core_list_join.c:88-99 | the state kernel with step 17 ((n / 8) % 16), but at least 34, for the word n; crcstate set only while it is 0; needs only that its own two scans find a NUL |
| CoreListCode.CoreMark.MatrixKernel | sim/sw/coremark/eembc/core_list_join.c:100-104 | the matrix kernel with seed 17 ((n / 8) % 16) for the word n, crcmatrix set only while it is 0 |
| CoreListCode.CoreMark.KernelFor | sim/sw/coremark/eembc/core_list_join.c:84-108 | the three lowest bits of the item choose the state kernel, the matrix kernel, or the item itself |
| CoreListCode.CoreMark.CalcFunc | sim/sw/coremark/eembc/core_list_join.c:69-114 | the word, results record and kernel memory afterwards are those of Calc, which DataWord.CalcIs describes by numbers; the value returned is the word modulo 128 |
| CoreListCode.CalcKeepsNul | sim/sw/coremark/eembc/core_list_join.c:69-114 | what later calls need of the block is kept by one |
| CoreListCode.CoreMark.CompareByData | sim/sw/coremark/eembc/core_list_join.c:120-126 | cmp_complex touches both words in order and returns the difference of the cached values |
| CoreListCode.CoreMark.CompareByIndex | sim/sw/coremark/eembc/core_list_join.c:133-142 | cmp_idx with a null res rebuilds both words and returns the difference of the indices |
| CoreListCode.CoreMark.CompareItems | sim/sw/coremark/eembc/core_list_join.c:120-142 | the comparator the sort was given, and its answer by the keys afterwards |
| CoreListCode.CoreMark.CoreListFind | sim/sw/coremark/eembc/core_list_join.c:434-449 | the node at position Find, or NULL |
| CoreListCode.CoreMark.CoreListReverse | sim/sw/coremark/eembc/core_list_join.c:464-476 | the pointers afterwards are the reversed list |
| CoreListCode.CoreMark.Choose | sim/sw/coremark/eembc/core_list_join.c:536-565 | which run the next element comes from keeps the rest of the merge the specified one |
| CoreListCode.CoreMark.MergeTwo | sim/sw/coremark/eembc/core_list_join.c:533-577 | relinking two adjacent runs is Merge, data rewritten on the way included |
| CoreListCode.CoreMark.SplitRun | sim/sw/coremark/eembc/core_list_join.c:518-527 | stepping past at most insize nodes |
| CoreListCode.CoreMark.MergeRuns | sim/sw/coremark/eembc/core_list_join.c:516-580 | the next two runs of the list merged behind what is done |
| CoreListCode.CoreMark.OnePass | sim/sw/coremark/eembc/core_list_join.c:508-583 | one pass over the list is Pass, and nmerges tells whether it was the last |
| CoreListCode.CoreMark.CoreListMergesort | sim/sw/coremark/eembc/core_list_join.c:499-595 | on every non-empty acyclic list it terminates and leaves list, data and results record as MergeSort says |
| CoreListCode.CoreMark.CoreListRemove | sim/sw/coremark/eembc/core_list_join.c:376-389 | pointers and payloads of RemoveNodes and RemoveInfo |
| CoreListCode.CoreMark.CoreListUndoRemove | sim/sw/coremark/eembc/core_list_join.c:407-419 | pointers and payloads of UndoNodes and UndoInfo |
| CoreListCode.CoreMark.MoveBehindHead | sim/sw/coremark/eembc/core_list_join.c:189-195 | the list afterwards is Promote |
| CoreListCode.CoreMark.FindTurn | sim/sw/coremark/eembc/core_list_join.c:173-202 | one turn of find, reverse and move to front is SearchStep |
| CoreListCode.CoreMark.FindLoop | sim/sw/coremark/eembc/core_list_join.c:170-203 | the list, key and retval the loop ends with are those of FindTrace.FindLoopLeaves, and the counters those of SearchLoop |
| CoreListCode.CoreMark.CrcWalk | sim/sw/coremark/eembc/core_list_join.c:210-217 | one CRC step of the head's word for each node from the finder on |
| CoreListCode.CoreMark.RemoveAndRestore | sim/sw/coremark/eembc/core_list_join.c:207-221 | the walk sees the list without the removed node, and the list is back afterwards |
| CoreListCode.CoreMark.SortPhase | sim/sw/coremark/eembc/core_list_join.c:205-206 | the list is sorted by data only when finder_idx is positive |
| CoreListCode.CoreMark.FinishBench | sim/sw/coremark/eembc/core_list_join.c:207-234 | removal, walk, undo, sort by index and second walk give the result of Finish |
| CoreListCode.CoreMark.CoreBenchList | sim/sw/coremark/eembc/core_list_join.c:158-235 | the code on the memory block leaves the list, data and results record of BenchList and returns the value that BenchValue.BenchReturns describes |
| CoreListCode.CoreMark.BenchInPlace | sim/sw/coremark/eembc/core_list_join.c:151-235 | on any list: res->list then heads the part of the resulting list from the old head on, with data, payloads and result of BenchList |
| CoreListCode.CoreMark.RunIterate | sim/sw/coremark/eembc/core_main.c:51-73 | on every list long enough for each call the loop ends with the memory and crclist of IterateBench |
| CoreMain.VisibleIsSuffix | sim/sw/coremark/eembc/core_list_join.c:158-163 | a pointer to a node shows the list from that node on |
| AxiLite.MasterBridge.Comb | src/rtl/bus/axi4_lite_master_bridge.sv:116-252 | the combinational block drives and answers as the bridge functions say |
| AxiLite.MasterBridge.Clock | src/rtl/bus/axi4_lite_master_bridge.sv:100-108 | request latch and state after one edge are BridgeNext |
| AxiLite.Crossbar.Comb | src/rtl/bus/axi4_lite_xbar_3.sv:83-234 | all five channels are routed as XbarForward and XbarBack say, payload included; what arrives at a target is BusSystem.AwRouted, WRouted and ArRouted |
| AxiLite.Crossbar.ClockTerminator | src/rtl/bus/axi4_lite_xbar_3.sv:238-266 | the error flags after one edge, a later assignment winning |
| AxiLite.Crossbar.ClockSelects | src/rtl/bus/axi4_lite_xbar_3.sv:268-280 | the busy flags and select latches after one edge |
| AxiLite.Crossbar.Clock | src/rtl/bus/axi4_lite_xbar_3.sv:245-282 | the crossbar's registers after one edge are XbarNext |
| BusSystem.WindowsAre | src/rtl/bus/axi4_lite_xbar_3.sv:29-34 | of the 4 KiB pages from 0x10000000 on the first is target 0, the next two are target 1, the fourth target 2, and no other address is mapped |
| BusSystem.AwRouted | src/rtl/bus/axi4_lite_xbar_3.sv:124-141 | an AW handshake at the master is one AW handshake at one target's pins, the window decode names, with the master's address on those pins |
| BusSystem.WRouted | src/rtl/bus/axi4_lite_xbar_3.sv:143-160 | the same for W, at the latched or else the live select, with the master's data and strobes on those pins |
| BusSystem.BRouted | src/rtl/bus/axi4_lite_xbar_3.sv:162-185 | a response at the master is one response of the latched target, or of the terminator |
| BusSystem.ArRouted | src/rtl/bus/axi4_lite_xbar_3.sv:187-204 | an AR handshake at the master is one AR handshake at the window decode names, with the master's address on those pins |
| BusSystem.RRouted | src/rtl/bus/axi4_lite_xbar_3.sv:206-233 | a read response at the master is one response of the latched target, with that target's data and code |
| BusSystem.InvStep | src/rtl/bus/axi4_lite_master_bridge.sv:116-252 | every cycle with legal targets keeps the joint invariant of bridge, crossbar and what each target owes |
| BusSystem.EventsFollow | src/rtl/bus/axi4_lite_xbar_3.sv:83-282 | the handshakes of a cycle are exactly what the protocol monitor allows next |
| BusSystem.RunFollows | src/rtl/bus/axi4_lite_master_bridge.sv:100-260 | over every run from reset the monitor never breaks and always stands where the bridge does |
| BusSystem.Explain | src/rtl/bus/axi4_lite_master_bridge.sv:26-49 | any log the monitor accepts is complete transactions and a proper prefix of one more |
| BusSystem.RunIsTransactions | src/rtl/bus/axi4_lite_master_bridge.sv:26-49 | each accepted write makes exactly one AW and one W at the pins of decode's window, carrying the accepted address, data and strobes, before its one response, each read one AR and returns that window's data, one transaction at a time; the native master may change or drop its request at any time |
| BusSystem.IdleIsClear | src/rtl/bus/axi4_lite_xbar_3.sv:55-72 | in every reachable state with the bridge idle all busy and error flags are clear and no target owes an answer |
| BusSystem.ProgressExactly | src/rtl/bus/axi4_lite_master_bridge.sv:32-46 | no deadlock: in every reachable state a cycle moves the open transaction on if and only if the one slave it is addressed to offers what is due |
| BusSystem.HeldUntilReady | src/rtl/bus/axi4_lite_master_bridge.sv:88-99 | at every target, AWVALID, WVALID and ARVALID with their payload hold until READY (section A3.2.1 of ARM IHI 0022E) |
| BusSystem.UnmappedWrite | src/rtl/bus/axi4_lite_xbar_3.sv:236-263 | an unmapped write is answered with DECERR in the cycle after acceptance |
| BusSystem.UnmappedRead | src/rtl/bus/axi4_lite_xbar_3.sv:227-266 | an unmapped read shows DECERR and data 0 from the next cycle and completes at the first rready |
| CrossbarRouting.AddressesLand | src/rtl/bus/axi4_lite_xbar_3.sv:124-141 | for every master and all targets: the addresses arrive in the order handed over, each at the window it decodes to |
| CrossbarRouting.BeatInTime | src/rtl/bus/axi4_lite_xbar_3.sv:69-160 | a W beat arrives where its own address does if and only if it is in time for it, seen at the master's port alone |
| CrossbarRouting.RoutedExactly | src/rtl/bus/axi4_lite_xbar_3.sv:69-282 | for every master and all targets, over every run: each k-th W beat arrives where the k-th address does if and only if each is handed over while its own address is the open write's, or none is open and it is on the pins, up to equal windows |
| CrossbarRouting.DisciplineSuffices | src/rtl/bus/axi4_lite_xbar_3.sv:69-282 | a master that holds AW until accepted and hands over each beat only while its own address is open or being driven is always routed |
| CrossbarRouting.BridgeKeepsDiscipline | src/rtl/bus/axi4_lite_master_bridge.sv:88-252 | over every run with legal targets the bridge is such a master |
| CrossbarRouting.BridgeIsRouted | src/rtl/bus/axi4_lite_master_bridge.sv:88-252 | behind the bridge every beat arrives with its own address |
| CrossbarRouting.EarlyDataMisroutes | src/rtl/bus/axi4_lite_xbar_3.sv:74-76 | W one cycle before AW is misrouted: the terminator keeps the beat and target 0 gets the address |
| CrossbarRouting.LockStepMisroutes | src/rtl/bus/axi4_lite_xbar_3.sv:74-76 | AW and W in lock-step, but not waiting for B, are misrouted |
| BusSystem.Bus.Cycle | src/rtl/bus/axi4_lite_master_bridge.sv:60-70 | the two modules wired together step as the system of functions does |
| Alu.CompareCorrect | src/rtl/core/alu.sv:143-145 | carry out and sign bit of the one subtraction decide SLTU and SLT for all operands |
| Alu.AdderCorrect | src/rtl/core/alu.sv:126-136 | SUB wraps, and the indexed address is a + b 2^shamt modulo 2^32 |
| Alu.MultipliersCorrect | src/rtl/core/alu.sv:228-266 | the one 33x33 product and the three products both give section 7.1 of the RISC-V Unprivileged ISA 20191213 for MUL, MULH, MULHSU, MULHU |
| Alu.ProductFits | src/rtl/core/alu.sv:235-250 | no product overflows its 66 or 64 bits |
| Alu.Divider.Clock | src/rtl/core/alu.sv:361-410 | the divider's registers after one edge are DivNext |
| Alu.Divider.Output | src/rtl/core/alu.sv:439-472 | result and valid of a divide from the registers |
| AluProof.DivStep | src/rtl/core/alu.sv:378-390 | one shift-subtract keeps quotient, remainder and the dividend bits to come, for every divisor, and starts below 2^31 |
| AluProof.DividerCorrect | src/rtl/core/alu.sv:348-445 | from any launch exactly 32 RUN steps, whatever the inputs meanwhile, then DONE with the value of section 7.2, divide by zero and INT_MIN / -1 included, then IDLE |
| AluProof.NoBitDropped | src/rtl/core/alu.sv:328-346 | in every reachable RUN state the partial remainder is below 2^31, so the bit rem_part drops is 0 |
| AluProof.SignsCorrect | src/rtl/core/alu.sv:296-302 | one sign flop and the zero flag finish DIV, DIVU, REM and REMU correctly from the magnitudes |
| AluProof.ResultCorrect | src/rtl/core/alu.sv:456-472 | every single-cycle result is the ISA's value with either multiplier, and ea_o equals result_o for ADD and LX |
| AluProof.DivideAnswers | src/rtl/core/alu.sv:456-472 | a divide is valid only in the cycle after its 32 steps, with the ISA's value |
| Strcpy.ZeroByteTest | sim/sw/dhrystone/dhry_portme.c:133-136 | HAS_ZERO_BYTE is non-zero if and only if some byte is zero |
| Strcpy.PhaseTest | sim/sw/dhrystone/dhry_portme.c:142-145 | the low two bits of the pointers' xor are zero if and only if the pointers have the same phase |
| Strcpy.Memory.LoadWord | sim/sw/dhrystone/dhry_portme.c:156-156 | a word load demands an aligned address and records the bytes it touches |
| Strcpy.Memory.StoreWord | sim/sw/dhrystone/dhry_portme.c:158-158 | a word store demands an aligned address and writes its four bytes only |
| Strcpy.ToBoundary | sim/sw/dhrystone/dhry_portme.c:145-147 | bytes are copied up to a word boundary or through the terminator |
| Strcpy.CopyWordOrStop | sim/sw/dhrystone/dhry_portme.c:155-160 | the loop stops exactly at the word that holds the terminator |
| Strcpy.Words | sim/sw/dhrystone/dhry_portme.c:148-163 | whole words are copied up to that word |
| Strcpy.SamePhase | sim/sw/dhrystone/dhry_portme.c:142-164 | pointers of one phase: bytes to the boundary, then words; done if the terminator came before the boundary |
| Strcpy.Tail | sim/sw/dhrystone/dhry_portme.c:166-168 | the remaining bytes through the terminator |
| Strcpy.StringCopy | sim/sw/dhrystone/dhry_portme.c:138-170 | for every string, alignment pair and non-overlapping buffers: the string and its NUL are copied, no other byte is ever written, no word read goes past the aligned word of the NUL |
| Sha256Spec.RoundConstants | sim/sw/sha256/sha256.c:69-86 | all 64 constants are the fractional cube roots of the table's numbers (section 4.2.2 of FIPS 180-4) |
| PrimeTable.TableIsPrimes | sim/sw/sha256/sha256.c:69-86 | the 64 numbers of the table are the primes up to 311, all of them and in order |
| Sha256Spec.InitialHash | sim/sw/sha256/sha256.c:92-101 | the initial hash value is the fractional square roots of the first eight primes (section 5.3.3) |
| Sha256Spec.PadZerosLeast | sim/sw/sha256/sha256.c:229-247 | the zeros of the padding are the fewest that reach 56 bytes modulo 64 (section 5.1.1) |
| Sha256Spec.LengthField | sim/sw/sha256/sha256.c:252-264 | the last eight bytes read back as the length in bits |
| Sha256Spec.PadInjective | sim/sw/sha256/sha256.c:226-264 | different messages never pad to the same blocks |
| Sha256Spec.ChChooses | sim/sw/sha256/sha256.c:27-30 | bit by bit, Ch is y where x has ones and z where it has zeros |
| Sha256Spec.MajAgrees | sim/sw/sha256/sha256.c:32-35 | bit by bit, Maj is what two of its operands agree on |
| Sha256Example.HelloDigest | sim/sw/sha256/sha256.c:13-15 | the digest of "hello" is the one the file gives as its example |
| Sha256.BigSigma0Rotates | sim/sw/sha256/sha256.c:37-42 | the shift pairs of big_sigma0 are the rotations by 2, 13 and 22 of section 4.1.2 |
| Sha256.BigSigma1Rotates | sim/sw/sha256/sha256.c:44-49 | the shift pairs of big_sigma1 are the rotations by 6, 11 and 25 |
| Sha256.SmallSigma0Rotates | sim/sw/sha256/sha256.c:51-56 | the shift pairs of small_sigma0 are the rotations by 7 and 18 |
| Sha256.SmallSigma1Rotates | sim/sw/sha256/sha256.c:58-63 | the shift pairs of small_sigma1 are the rotations by 17 and 19 |
| Sha256.Schedule | sim/sw/sha256/sha256.c:118-138 | the array W holds the message schedule of the block |
| Sha256.Rounds | sim/sw/sha256/sha256.c:140-175 | the loop on eight variables is the 64 rounds of section 6.2.2 |
| Sha256.Transform | sim/sw/sha256/sha256.c:107-186 | H takes in one block as the specification's compression |
| Sha256.PadBlocks | sim/sw/sha256/sha256.c:222-264 | whole blocks and the one or two last ones are exactly the padded message |
| Sha256.WholeBlocks | sim/sw/sha256/sha256.c:216-219 | the whole blocks of the data in order |
| Sha256.StoreLength | sim/sw/sha256/sha256.c:249-264 | the length in bits, most significant byte first |
| Sha256.Finish | sim/sw/sha256/sha256.c:237-266 | the last block or two complete the digest |
| Sha256.Digest | sim/sw/sha256/sha256.c:195-270 | for every message and every 32-bit length the digest is the specification's |
| Uart.TxMonitor.Tick | sim/hw/uart_tb/uart_tb.cpp:89-112 | one sampled level moves the monitor as Sample says |
| Uart.Line.RxFrame | sim/hw/uart_tb/uart_tb.cpp:186-194 | the levels driven are the frame: start, eight bits low first, stop |
| Uart.UartRxDriver.Step | sim/sim_main.cpp:135-153 | one step drives the level and moves to the state the driver functions say |
| UartProof.FrameLength | sim/hw/uart_tb/uart_tb.cpp:186-194 | a frame is exactly ten bit widths long |
| UartProof.FrameStep | sim/hw/uart_tb/uart_tb.cpp:89-112 | cycle by cycle, where the monitor is in a frame of a width it tolerates and which bits it has sampled |
| UartProof.FramesRoundTrip | sim/hw/uart_tb/uart_tb.cpp:84-112 | for every byte sequence and every width it tolerates, its own among them, the monitor decodes back-to-back frames to exactly those bytes and is armed again |
| UartProof.FramesDecodeExactly | sim/hw/uart_tb/uart_tb.cpp:84-112 | a monitor of width w decodes every text sent at bit width W if and only if 8 W <= 8 w + w / 2 < 9 W |
| UartProof.DriverRoundTrip | sim/sim_main.cpp:127-153 | under every schedule of blocked cycles the monitor has decoded the text up to the driver's place, and all of it when the driver is done |
| UartProof.DriverDone | sim/sim_main.cpp:124-153 | the driver is done after enough cycles in which it is not blocked, however they lie; if it never is, exactly from the last cycle of the last frame on |
| UartProof.FrameLasts | sim/sim_main.cpp:135-153 | a frame once begun takes exactly ten bit widths and is the frame of its byte, whatever is blocked |
| UartProof.PacedStart | sim/sim_main.cpp:99-103 | a paced driver begins a frame if and only if it is past its gap, has a byte left and is not blocked |
| AxiUart.UartPeripheral.Signals | src/rtl/utils/axi4_lite_uart.sv:246-299 | the write path's handshakes, commit and effective address, data and strobe in a cycle |
| AxiUart.UartPeripheral.ReadSignals | src/rtl/utils/axi4_lite_uart.sv:366-398 | the read handshake, both pops and whether both engines are idle |
| AxiUart.UartPeripheral.ReadMux | src/rtl/utils/axi4_lite_uart.sv:379-389 | the word a read returns |
| AxiUart.UartPeripheral.Outputs | src/rtl/utils/axi4_lite_uart.sv:250-377 | READY, VALID, data and response on the bus pins, and the line |
| AxiUart.UartPeripheral.ClockWrite | src/rtl/utils/axi4_lite_uart.sv:301-350 | address, data and response registers after one edge, a later assignment winning |
| AxiUart.UartPeripheral.ClockControl | src/rtl/utils/axi4_lite_uart.sv:325-364 | CTRL, the pending divisor and the one in use after one edge |
| AxiUart.UartPeripheral.ClockRead | src/rtl/utils/axi4_lite_uart.sv:400-412 | the read response after one edge |
| AxiUart.UartPeripheral.ClockTxFifo | src/rtl/utils/axi4_lite_uart.sv:492-505 | slot and pointers of the transmit buffer after a push and a pop |
| AxiUart.UartPeripheral.ClockRxFifo | src/rtl/utils/axi4_lite_uart.sv:492-507 | the same for the receive buffer |
| AxiUart.UartPeripheral.ClockTx | src/rtl/utils/axi4_lite_uart.sv:417-478 | the transmit engine after one edge |
| AxiUart.UartPeripheral.ClockRx | src/rtl/utils/axi4_lite_uart.sv:536-594 | the receive engine after one edge |
| AxiUart.UartPeripheral.ClockOverrun | src/rtl/utils/axi4_lite_uart.sv:489-534 | a completed frame is pushed if there is room or a pop makes some, else it sets RX_OVERRUN |
| AxiUart.UartPeripheral.Clock | src/rtl/utils/axi4_lite_uart.sv:246-594 | all registers of the peripheral after one edge are Next |
| UartFifo.HoldsNext | src/rtl/utils/axi4_lite_uart.sv:178-218 | a ring buffer with its extra pointer bit is a queue under push, pop and both at once, also when full |
| UartTxProof.AllowedNext | src/rtl/utils/axi4_lite_uart.sv:338-364 | the divisor in use is always the one of the reset or one that a committed write has set |
| UartTxProof.SendsNext | src/rtl/utils/axi4_lite_uart.sv:417-478 | cycle by cycle the engine, its line and the sampling monitor are at the same place of the frame for the byte popped; the divisor changes only between frames |
| UartTxProof.LineIsWritten | src/rtl/utils/axi4_lite_uart.sv:246-505 | whatever the master drives: if the monitor tolerates the reset's divisor and each one that a committed write sets, it decodes the bytes of the TXDATA writes carried out, in order and without loss; at most 17 are still on their way, none when engine and ring buffer are empty |
| UartTxProof.LineDecodesExactly | src/rtl/utils/axi4_lite_uart.sv:417-478 | a monitor of width w decodes what is written in every run in which software sets no other divisor, if and only if 8 W <= 8 w + w / 2 < 9 W for W = divisor + 1 |
| UartTxProof.DivisorMisheard | src/rtl/utils/axi4_lite_uart.sv:338-364 | divisor 4, monitor width 5: after a write of 0 to BAUDDIV the byte 0x41 is decoded as 0xff |
| UartTxProof.DivisorLost | src/rtl/utils/axi4_lite_uart.sv:336-355 | a BAUDDIV write that commits in the cycle in which an earlier one is applied is answered and never takes effect |
| UartTxProof.RoomWithin | src/rtl/utils/axi4_lite_uart.sv:277-297 | a full ring buffer has room within ten bit widths and a cycle, whatever the master drives |
| UartRegisters.RegisterMap | src/rtl/utils/axi4_lite_uart.sv:20-45 | the byte offsets of the five registers |
| UartRegisters.HandshakesAre | src/rtl/utils/axi4_lite_uart.sv:250-254 | what is taken is what valid and ready on the pins say; an address is refused while one is held or answered, or if it is that of TXDATA and 16 bytes are queued |
| UartRegisters.StatusReads | src/rtl/utils/axi4_lite_uart.sv:34-41 | STATUS: bit 0 if and only if the transmit queue has room, bit 1 if and only if a received byte waits, bit 2 the overrun flag |
| UartRegisters.DataReads | src/rtl/utils/axi4_lite_uart.sv:379-389 | RXDATA reads the oldest byte received; TXDATA and what is behind the map read 0 |
| UartRegisters.ControlReads | src/rtl/utils/axi4_lite_uart.sv:42-43 | CTRL reads back the two enables last written |
| UartRegisters.DivisorReads | src/rtl/utils/axi4_lite_uart.sv:43-48 | BAUDDIV reads back the lower half of what was written from the cycle after the first in which both engines are idle on |
| UartRegisters.OverrunSince | src/rtl/utils/axi4_lite_uart.sv:524-534 | over every run RX_OVERRUN is set if and only if a frame has been dropped since the last read of RXDATA |
| UartRxProof.HearsNext | src/rtl/utils/axi4_lite_uart.sv:536-594 | cycle by cycle where the receive engine is in a frame of its own width, which bits it has, and when it is done |
| UartRxProof.Lag | sim/sim_top.sv:285-292 | two flops behind the driver: a frame the engine sees is still the driver's last one, and a driver past its gap has been waiting |
| UartRxProof.ReadReturns | src/rtl/utils/axi4_lite_uart.sv:379-408 | a read of RXDATA that finds a byte returns the head of the buffer |
| UartRxProof.TextIsHeard | sim/sim_main.cpp:135-153 | driver, two flops and receive engine of one bit width of at least two cycles, any master drive that keeps the divisor, paced or not: the frames completed are the text in order, at most one behind the driver, all of it at the end |
| UartRxProof.PacedIsRead | src/rtl/utils/axi4_lite_uart.sv:485-535 | with a paced driver reads of RXDATA return the text in order without loss, at most 17 bytes behind the driver, all of it once the buffer is empty |
| UartRxProof.PacedNeverOverruns | sim/sim_main.cpp:99-101 | for every text, every divisor that the driver's width matches and every master drive that keeps it, paced stimulus never provokes RX_OVERRUN |
| UartRxProof.UnreadOverruns | src/rtl/utils/axi4_lite_uart.sv:524-534 | without reads RX_OVERRUN is set exactly when more than 16 frames have come, so an unpaced text of more than 16 bytes sets it |
| UartRxProof.NarrowMisses | src/rtl/utils/axi4_lite_uart.sv:545-566 | at a bit width of one cycle the start bit is looked for too late: 0xff is never received |
| BranchPredictor.Predictor.Clock | src/rtl/core/branch_predictor.sv:234-302 | all registers after one training edge are Trained |
| BranchPredictor.Predictor.ClockStack | src/rtl/core/branch_predictor.sv:245-259 | slot, pointer and count after a call or a return |
| BranchPredictor.AlwaysTopSegment | src/rtl/core/branch_predictor.sv:164-173 | over every trace, overflow and empty pops included, the circular stack is a top segment of the unbounded call stack |
| BranchPredictor.ReturnsTrue | src/rtl/core/branch_predictor.sv:164-173 | whenever ras_valid holds, ras_top is the true return address |
| BranchPredictor.ShallowIsExact | src/rtl/core/branch_predictor.sv:251-258 | while the call depth stays within the hardware's eight, the count is the call depth and the top is offered if and only if there is one |
| BranchPredictor.LookupsAgree | src/rtl/core/branch_predictor.sv:187-214 | the push-time pair gives for both halfwords what the decode lookup reads with the same history |
| BranchPredictor.HistoryIsOutcomes | src/rtl/core/branch_predictor.sv:242-244 | bit i of the history is the outcome of the i-th last conditional branch |
| BranchPredictor.EntriesAreCounters | src/rtl/core/branch_predictor.sv:278-283 | every table entry is its own count, up and down between 0 and 3, trained only through its index |
| BranchPredictor.LookupReads | src/rtl/core/branch_predictor.sv:164-171 | over every trace a branch is predicted taken if and only if the upper bit of the count at its index is set; bit k of the index is bit k of the halfword address, inverted if the k-th last conditional branch was taken |
| BranchPredictor.TwoSettle | src/rtl/core/branch_predictor.sv:219-224 | two equal outcomes settle a counter, and after a third one opposite outcome does not unsettle it |
| Quicksort.Partition | sim/sw/quicksort/main.c:104-122 | the pivot is at the returned index, nothing larger before it, only larger after it, the range rearranged and nothing else changed |
| Quicksort.QuickSort | sim/sw/quicksort/main.c:127-134 | for every array and range, also an empty one: the range sorted, a permutation of what it was, all else unchanged |
| Quicksort.CallsSort | sim/sw/quicksort/main.c:129-133 | sorting both sides of a partition sorts the range |
| Encoding.BranchOffset | sim/sw/intr/wfi_trap/gen_hex.py:40-43 | a B-type offset reads back if and only if it is even and fits in 13 bits; registers and codes read back |
| Encoding.JumpOffset | sim/sw/intr/wfi_trap/gen_hex.py:46-49 | a J-type offset reads back if and only if it is even and fits in 21 bits |
| Encoding.Immediate | sim/sw/intr/wfi_trap/gen_hex.py:30-32 | an I-type immediate reads back signed if and only if it fits in 12 bits, unsigned for a CSR number |
| Encoding.StoreOffset | sim/sw/intr/wfi_trap/gen_hex.py:35-37 | an S-type offset reads back if and only if it fits in 12 bits |
| Encoding.LiLoads | sim/sw/intr/wfi_trap/gen_hex.py:100-107 | lui and addi leave the constant modulo 2^32 in the register |
| Encoding.CLiReads | sim/sw/isa/ifault_hold/gen_hex.py:112-116 | c.li's register, immediate and codes read back |
| Assembler.EncodeSize | sim/sw/intr/wfi_trap/gen_hex.py:172-172 | every instruction emits as many words as the sizing pass counted |
| Encoding.RegisterFields | sim/sw/intr/wfi_trap/gen_hex.py:25-27 | all six fields of an R-type word read back |
| Assembler.EncodeReads | sim/sw/intr/wfi_trap/gen_hex.py:182-215 | every mnemonic of one word whose operands fit is emitted as the word that the ISA listings give this instruction, with its registers and immediate; a branch or jump goes to its target |
| Assembler.Assemble | sim/sw/intr/wfi_trap/gen_hex.py:175-219 | labels and words of the two passes, or the name that stops the script |
| Assembler.LabelIsPlace | sim/sw/intr/wfi_trap/gen_hex.py:176-180 | a label's address is 4 times the index of its entry's first emitted word |
| Assembler.LabelIsCarried | sim/sw/intr/wfi_trap/gen_hex.py:176-180 | every label comes from the last entry that carries it |
| Assembler.BranchReaches | sim/sw/intr/wfi_trap/gen_hex.py:205-206 | a branch decoded at its own address goes to its label if and only if the label is within 4 KiB |
| Assembler.JumpReaches | sim/sw/intr/wfi_trap/gen_hex.py:207-208 | the same for a jump and 1 MiB |
| Assembler.JumpToReaches | sim/sw/isa/ifault_hold/gen_hex.py:183-184 | a jump to a number goes there if and only if the number is even and within 1 MiB |
| Assembler.LiInImage | sim/sw/intr/wfi_trap/gen_hex.py:184-186 | an li in the image loads its constant or its label's address |
| Assembler.Pack | sim/sw/intr/wfi_trap/gen_hex.py:237-239 | the lines are the padded words in pairs, lower address in the low half |
| Assembler.PackRoundTrip | sim/sw/intr/wfi_trap/gen_hex.py:237-239 | unpacking the lines gives back the words |
| Assembler.WordsInLines | sim/sw/intr/wfi_trap/gen_hex.py:228-239 | every word of an image of any length is found at its own index |
| Assembler.EdgeReads | sim/sw/isa/ifault_hold/gen_hex.py:222-224 | the edge line holds its four halves in address order |
| Assembler.HeadBelowEdge | sim/sw/isa/ifault_hold/gen_hex.py:200-201 | the overrun check holds if and only if the head stays below the edge line, the last of the memory |

## Left out

- core_list_init, core_list_insert_new, core_init_state, core_init_matrix: the initial list, block and matrices are arbitrary values that meet the stated conditions.
- core_list_mergesort on the empty list: line 583 dereferences a null tail, so a non-empty list is required; lists have fewer than 2^30 nodes, so that insize stays within an ee_s32.
- cmp_idx with a results record, and copy_info: the benchmark never calls the first, and list initialisation alone uses the second.
- Signed overflow in C: the matrix kernels' 32-bit sums are taken to wrap.
- CoreListProof.FinalSortRestores: for strictly increasing idx only. Equal idx values, which core_list_init can produce, are covered by CoreListExact.FinalSortOrders.
- CoreListProof.BenchListRestores: likewise; CoreListExact.BenchListExactly and RestoredAlways say when it holds with equal idx values.
- CoreMain.IterateRepeats: for strictly increasing idx only. With equal ones the order of nodes can change from call to call, and with it the result; IterateExact.IterateLosesNode says what happens when the first two are equal.
- CoreMain.MeasureRestores: likewise; CoreListExact.BenchListExactly has the exact condition.
- CoreListCode.CoreMark.CompareItems: the code scans to a NUL without a bound. That every scan finds one is required for this and any later call of a sort, also with data words that never occur (NulStays).
- core_main.c apart from iterate, score reports and validation against known CRCs.
- The 1-to-2 crossbar: the same protocol with one target fewer and no terminator.
- UartRxProof.TextIsHeard: the driver's bit width is the peripheral's and software sets no other, as the driver's comment demands; what a receiver of another width makes of a frame is not followed.
- The UART's interrupt line, the other targets, and the pipeline units around the bridge, the ALU and the predictor.
- BusSystem.ProgressExactly: a mapped target that never answers stalls the bus; no bound on its delay is assumed.
- Shifts and bitwise operations of the ALU, and its synchronous reset after power-up.
- memcpy, memset and the heap of the Dhrystone port.
- The line editor and digest printing around sha256.
- Escape decoding, environment variables and tracing of the simulation harness; the remaining checks of uart_tb.cpp.
- Simulation-only counters of the branch predictor.
- fill_array, printing and the self-check of the quicksort program. Indexed loads are plain element accesses.
- Names of registers and CSRs in the assembler, the comments of the hex files and the data image. The two scripts' mnemonics are one table here.
