# PIMProf cost model and offloading pipeline, in Dafny

PIMProf decides which basic blocks of a program should run on a
processing-in-memory (PIM) core rather than on the host CPU. A profiler
records each block's elapsed time, instruction count and memory accesses
on both sites. A cost solver then picks a CPU or PIM decision for every
block, weighing the cost of switching between the sites and of data reuse.
An LLVM pass injects offload markers into the blocks chosen for PIM, and
simulator hooks turn those markers into region events at run time. Two
Python utilities summarise the reports.

This project models that pipeline and proves properties of the model. It
has one module per source file:

- `Common` models block hashes, cost sites and control values (`PIMProfSolver/Common.h`).
- `Util` models the disjoint set and the block scope stack (`PIMProfSolver/Util.h`).
- `DataReuse` models the reuse segments, the switch counter and the reuse trie, as an arena of nodes (`PIMProfSolver/DataReuse.h`).
- `StorageSets` models the cache sets, their replacement policies and the access counters (`PIMProfSolver/Storage.h`).
- `StorageConfig` models the configuration sections, the cache geometry and the level wiring (`PIMProfSolver/Storage.cpp`).
- `Storage` models the cache hierarchy as a class over an arena of levels, with configuration reading, accesses, flushes and the tag-to-segment map (`PIMProfSolver/Storage.cpp`).
- `Stats` models the per-block statistics and the per-thread block stack of the profiler (`PIMProfSolver/Stats.h`).
- `ThreadRuns` models the per-thread run record the solver merges reports into (`PIMProfSolver/CostSolver.h`).
- `CostSolver` models reading the reports, the sorted statistics and the solver's state (`PIMProfSolver/CostSolver.h`, `PIMProfSolver/CostSolver.cpp`).
- `CostModel` models the elapsed time of a decision, the switch and reuse costs and the trie walk (`PIMProfSolver/CostSolver.cpp`).
- `OffloadSearch` models the MPKI, greedy and reuse-aware decisions (`PIMProfSolver/CostSolver.cpp`).
- `PinCostSolver` models the Pin-side solver (`PinInstrument/CostSolver.cpp`).
- `ZSimHooks` models the simulator hooks as a state machine over a scope stack (`LLVMAnalysis/PIMProfZSimHooks.cpp`).
- `OffloaderInjection` models the offload-marker pass, from the decision file to the markers of every block (`LLVMAnalysis/OffloaderInjection.cpp`).
- `CfgHeatmap` models the heatmap grid and the block colours (`util/cfgheatmap.py`).
- `CsvDecision` models the summary table (`util/csvdecision.py`).
- `Text` holds the tokenising and number reading and writing that the readers and writers share.

The cost type `COST` is modelled as an integer, because the solver only
adds and compares costs. Calls into code outside the model become parameters:

- the switch-cost function;
- `log10`;
- the uninitialised variables a failed read leaves behind;
- the directory listing;
- the environment variables.

## Model

| member | source | states |
|---|---|---|
| Text.WordLength | PIMProfSolver/CostSolver.cpp:126-133 | the word at the start of a line is a non-empty run of non-space characters ending at a space or at the end |
| Text.Tokens | PIMProfSolver/CostSolver.cpp:126-133 | what successive `>>` reads see: every token is a word |
| Text.TokensJoin | PIMProfSolver/CostSolver.cpp:126-133 | splitting words joined by spaces gives the words back |
| Text.Contains | PIMProfSolver/CostSolver.cpp:119 | `find` does not return `npos` exactly when the pattern occurs at some position |
| Text.DigitOf | LLVMAnalysis/OffloaderInjection.cpp:349-352 | digit values lie in 0 .. 15, -1 for a non-digit |
| Text.DigitChar | PIMProfSolver/Stats.h:389-397 | the digit written for a value reads back as that value |
| Text.Show | PIMProfSolver/Stats.h:389-397 | a written number is a numeral of its base |
| Text.ShowValue | PIMProfSolver/Stats.h:389-397 | the value of a written numeral is the number written |
| Text.ShowIsWord | PIMProfSolver/Stats.h:389-397 | a written number is one token |
| Text.ParseDec | PIMProfSolver/CostSolver.cpp:129-132 | a signed decimal read succeeds only on a non-empty token, and a negative result comes from a leading minus |
| Text.ParseNat | PIMProfSolver/CostSolver.cpp:129-132 | an unsigned decimal read succeeds exactly on a string of decimal digits |
| Text.ParseHex64 | PIMProfSolver/CostSolver.cpp:133 | a hexadecimal read succeeds only on a non-empty token |
| Text.ParseDecShow | PIMProfSolver/CostSolver.cpp:129-132 | a decimal number written, with or without a minus sign, reads back as itself |
| Text.ParseHexShow | PIMProfSolver/CostSolver.cpp:133 | every 64-bit value written in hexadecimal reads back as itself |
| Text.IndexOfAny | LLVMAnalysis/OffloaderInjection.cpp:346 | the first position holding one of the characters, no earlier position holding any |
| Text.ShowPlain | LLVMAnalysis/OffloaderInjection.cpp:346 | a written decimal has no sign, point or exponent |
| Text.ParseRealDigits | LLVMAnalysis/OffloaderInjection.cpp:346 | a plain decimal numeral read into a `double` is its value |
| Text.ParseRealShow | LLVMAnalysis/OffloaderInjection.cpp:346 | an integer of either sign, written in decimal, reads into a `double` as itself |
| Text.ParseReal | LLVMAnalysis/OffloaderInjection.cpp:346 | a decimal real with an optional sign, as `>>` into a `double` and Python's `float` read it (`Text.ParseRealDigits`, `Text.ParseRealShow`) |
| Common.UuidLessTotal | PIMProfSolver/Common.h:49 | the `std::pair` order on block hashes is total and asymmetric |
| Common.Xor64Facts | PIMProfSolver/Common.h:71-75 | the XOR that hashes a block hash is commutative and cancels on equal halves |
| Common.UuidHashSymmetric | PIMProfSolver/Common.h:67-76 | swapping the two halves of a hash leaves its bucket hash unchanged; equal halves hash to 0 |
| Common.SiteValue | PIMProfSolver/Common.h:112-117 | CPU..ALL are 0..4, DEFAULT is 0x0fffffff, INVALID is 0x3fffffff |
| Common.UuidHash | PIMProfSolver/Common.h:67-76 | the bucket hash of a block hash is the XOR of its halves; symmetric (`Common.UuidHashSymmetric`) |
| Common.GetControlValue | PIMProfSolver/Common.h:56-58 | the OpenMP flag in the upper 32 bits over the op type; `Common.ControlValueSplit` proves it inverts the two getters |
| Common.GetIsOpenMP | PIMProfSolver/Common.h:59-61 | the upper 32 bits of the control word, so below 2^32 |
| Common.GetOpType | PIMProfSolver/Common.h:62-64 | the lower 32 bits of the control word, so below 2^32 |
| Common.CostSiteStringAt | PIMProfSolver/Common.h:119-129 | the lookup as written returns a letter exactly when the enumerator's value indexes the seven-entry table |
| Common.GetCostSiteString | PIMProfSolver/Common.h:119-129 | every site has a one-letter name: C for CPU, P for PIM, I for INVALID |
| Common.CostSiteStringInjective | PIMProfSolver/Common.h:119-129 | distinct sites have distinct letters |
| Common.CostSiteStringAtOutOfBounds | PIMProfSolver/Common.h:112-129 | the as-written lookup reads past the table exactly for DEFAULT and INVALID, and agrees with the intended lookup elsewhere |
| Common.OpTypeRoundTrip | PIMProfSolver/Common.h:51-64 | packing then extracting gives back any 32-bit op type, whatever the OpenMP flag |
| Common.IsOpenMPRoundTrip | PIMProfSolver/Common.h:51-61 | packing then extracting gives back a 32-bit OpenMP flag |
| Common.ControlValueSplit | PIMProfSolver/Common.h:51-64 | extracting both halves then packing gives back any 64-bit control word |
| Util.RootOf | PIMProfSolver/Util.h:26-42 | following parents from any element of a forest ends at a root, an element that is its own parent |
| Util.HalvingKeepsRoot | PIMProfSolver/Util.h:36-39 | pointing an element at its grandparent keeps a forest and keeps every element's root |
| Util.HalvingKeepsRoots | PIMProfSolver/Util.h:36-39 | one halving step keeps the root of every element |
| Util.LinkMovesRoot | PIMProfSolver/Util.h:44-48 | linking root x under root y moves exactly the elements rooted at x to y |
| Util.LinkRoots | PIMProfSolver/Util.h:44-48 | after the link every element rooted at x has root y and every other keeps its root |
| Util.AddSingletonKeepsRoot | PIMProfSolver/Util.h:31-34 | adding an unseen id as its own parent keeps the forest and every other root |
| Util.AddSingletonKeepsRoots | PIMProfSolver/Util.h:31-34 | adding an unseen id keeps all roots and makes the new id its own root |
| Util.DisjointSet.constructor | PIMProfSolver/Util.h:26-28 | a new disjoint set has no ids |
| Util.DisjointSet.Find | PIMProfSolver/Util.h:30-42 | returns the root of l, adds l as a singleton when unseen, and leaves every id's root unchanged |
| Util.DisjointSet.Union | PIMProfSolver/Util.h:44-48 | afterwards m and n share a root; exactly the ids that shared m's old root now have n's old root |
| Util.UnionRoots | PIMProfSolver/Util.h:44-48 | the two finds and the link of Union together send m's class to n's root and leave other classes alone |
| Util.BBLScope.constructor | PIMProfSolver/Util.h:58-61 | a new scope holds only the global block id, which is its top |
| Util.BBLScope.Push | PIMProfSolver/Util.h:62-65 | pushing puts the id on top and keeps the stack below it |
| Util.BBLScope.Pop | PIMProfSolver/Util.h:66-69 | popping removes exactly the top |
| Util.BBLScope.Top | PIMProfSolver/Util.h:70-73 | the top is the id pushed last: the stack is what popping leaves plus the top |
| Util.PushPopRestores | PIMProfSolver/Util.h:62-73 | a push then a pop gives back the stack and its top |
| DataReuse.InsertSorted | PIMProfSolver/DataReuse.h:111-126 | inserting into a `std::set` keeps it strictly ascending and adds exactly the new element; an element already there changes nothing |
| DataReuse.SortedUnique | PIMProfSolver/DataReuse.h:111 | two strictly ascending sequences with the same elements are equal, so a set has one ordered form |
| DataReuse.Zeros | PIMProfSolver/DataReuse.h:73-76 | `resize(n, 0)` padding is n zeros |
| DataReuse.SumZeros | PIMProfSolver/DataReuse.h:73-76 | zero padding does not change a row's sum |
| DataReuse.SumAddAt | PIMProfSolver/DataReuse.h:78-79 | adding c to one cell adds c to the row's sum |
| DataReuse.Grow | PIMProfSolver/DataReuse.h:71-77 | growing a row keeps its prefix, pads with zeros and keeps its sum |
| DataReuse.BBLSwitchCount.constructor | PIMProfSolver/DataReuse.h:33-40 | a new counter has no elements and no counts |
| DataReuse.BBLSwitchCount.CreateElem | PIMProfSolver/DataReuse.h:43-50 | an unseen element gets the next index and is appended to the index table; a known one changes nothing |
| DataReuse.BBLSwitchCount.GetIdx | PIMProfSolver/DataReuse.h:52-57 | the index of a created element, which the index table maps back to it |
| DataReuse.BBLSwitchCount.GetElem | PIMProfSolver/DataReuse.h:59-63 | the element of a valid index, which maps back to that index |
| DataReuse.BBLSwitchCount.Insert | PIMProfSolver/DataReuse.h:65-80 | creates both elements, keeps every existing index, adds c to exactly the (from, to) cell and to from's row total |
| DataReuse.BBLSwitchCount.Bump | PIMProfSolver/DataReuse.h:71-79 | grows the matrix as needed and adds c to exactly one cell and one total |
| DataReuse.BumpKeepsRows | PIMProfSolver/DataReuse.h:71-79 | after an insert every row total is still the sum of its row |
| DataReuse.BumpCell | PIMProfSolver/DataReuse.h:71-78 | cell (i, j) gains c and every other cell is unchanged |
| DataReuse.BumpTotal | PIMProfSolver/DataReuse.h:73-79 | total i gains c and every other total is unchanged |
| DataReuse.CreateElemIdempotent | PIMProfSolver/DataReuse.h:43-50 | creating the same element twice appends it at most once |
| DataReuse.IndexRoundTrip | PIMProfSolver/DataReuse.h:52-63 | getElem(getIdx(e)) == e and getIdx(getElem(i)) == i |
| DataReuse.NewSegment | PIMProfSolver/DataReuse.h:115-117 | a new segment is empty with count 1 |
| DataReuse.SegmentOf | PIMProfSolver/Storage.cpp:82 | a tag without a segment gets a fresh empty one with count 1; the segment returned is well formed when the tag's own segment is |
| DataReuse.SegInsert | PIMProfSolver/DataReuse.h:121-126 | inserting adds the element; the head is set only when the set was empty |
| DataReuse.SegUnion | PIMProfSolver/DataReuse.h:128-131 | inserting another segment's set adds exactly its elements; head and count are kept |
| DataReuse.SegDiff | PIMProfSolver/DataReuse.h:133-141 | the set difference, in ascending order |
| DataReuse.SegClear | PIMProfSolver/DataReuse.h:143-147 | clearing empties the set and resets the count to 1, keeping the head |
| DataReuse.Lookup | PIMProfSolver/DataReuse.h:185-241 | the child stored under a key, or none when no child has that key |
| DataReuse.InsertChild | PIMProfSolver/DataReuse.h:185-247 | adding a child under a new key keeps the child map ordered by key and adds exactly that child |
| DataReuse.GrowsKeepsPath | PIMProfSolver/DataReuse.h:229-263 | growing the trie keeps the key path of every existing node |
| DataReuse.TrieHoldsKept | PIMProfSolver/DataReuse.h:229-263 | a leaf the trie holds for a segment stays held while the trie only grows |
| DataReuse.AddChild | PIMProfSolver/DataReuse.h:244-257 | a new child node with count 0 is allocated under the key and linked into its parent; old nodes keep their counts and leaf flags |
| DataReuse.LookupFinds | PIMProfSolver/DataReuse.h:185 | a child present in an ordered child map is found under its key |
| DataReuse.MarkLeaf | PIMProfSolver/DataReuse.h:260-262 | the node becomes a leaf and gains the count; no other node changes |
| DataReuse.ChildPath | PIMProfSolver/DataReuse.h:245-246 | a child's key path is its parent's plus its own key |
| DataReuse.Walk | PIMProfSolver/DataReuse.h:237-251 | the node reached from a start by following existing child links key by key, or none when a link is missing; a node reached is in the arena |
| DataReuse.WalkSnoc | PIMProfSolver/DataReuse.h:237-250 | a walk one key longer goes through the child map of the node the shorter walk reached |
| DataReuse.WalkKept | PIMProfSolver/DataReuse.h:240-249 | a walk that reaches a node still reaches it after child links are only added |
| DataReuse.AddChildWellFormed | PIMProfSolver/DataReuse.h:240-249 | linking a new child under its parent keeps the trie well formed and keeps every existing child |
| DataReuse.WalkStep | PIMProfSolver/DataReuse.h:240-249 | one loop step: an existing child is reused exactly when the old trie's walk gets that far, and it is then the node that walk reaches |
| DataReuse.DataReuse.constructor | PIMProfSolver/DataReuse.h:223 | a new trie is a lone root and has no leaves |
| DataReuse.DataReuse.UpdateTrie | PIMProfSolver/DataReuse.h:229-263 | segments of size at most 1 change nothing. Otherwise the leaf is the node reached by walking the segment's set and then its head. It existed before exactly when that walk already succeeded in the old trie; it is then that same leaf and the leaf list is unchanged. Otherwise it is new and appended once. Its count grows by the segment's count, no other count changes, and every old child link is kept |
| DataReuse.DataReuse.InsertPath | PIMProfSolver/DataReuse.h:237-250 | walks down the sorted elements, reusing each existing child and creating missing ones. The node reached is where the walk ends in the new trie. It existed before exactly when the old trie's walk succeeded; it is then that walk's end and the trie is unchanged. Its key path is the elements plus the start's |
| DataReuse.DataReuse.Descend | PIMProfSolver/DataReuse.h:240-249 | the child under the key: an existing one is returned and the trie is unchanged; otherwise a count-0 child is created at the next arena index. Either way the child map links it under the key |
| DataReuse.DataReuse.HangLeaf | PIMProfSolver/DataReuse.h:251-262 | the child keyed by the head: an existing one is reused and the leaf list is unchanged; otherwise it is created at the next index and appended to the leaf list. It is marked a leaf and its count grows by the segment's count |
| DataReuse.DataReuse.ExportSegment | PIMProfSolver/DataReuse.h:277-289 | the exported segment has the leaf's head and count and the keys on the leaf's path |
| DataReuse.DataReuse.SortLeaves | PIMProfSolver/DataReuse.h:292-295 | the leaf list is permuted into descending count order |
| DataReuse.InsertByCount | PIMProfSolver/DataReuse.h:292-295 | inserting into a list ordered by descending count keeps the order and adds exactly the new leaf |
| DataReuse.HeadStaysOnTop | PIMProfSolver/DataReuse.h:292-295 | when the newcomer ranks below the head, the head still ranks at least as high as every leaf of the rebuilt tail |
| DataReuse.UpdateThenExport | PIMProfSolver/DataReuse.h:229-289 | recording a segment and exporting the leaf UpdateTrie reached gives back the segment's set and head, with that leaf's count: its earlier count plus the segment's |
| DataReuse.UpdateTwice | PIMProfSolver/DataReuse.h:229-263 | recording one segment twice updates one leaf; it gains twice the segment's count and is appended to the leaf list at most once |
| StorageSets.ShrOne | PIMProfSolver/Storage.h:36-69 | x >> k is 1 exactly when the top set bit of x is bit k |
| StorageSets.ShrZero | PIMProfSolver/Storage.h:36-69 | x >> k is 0 exactly when x < 2^k |
| StorageSets.BitAndShifted | PIMProfSolver/Storage.h:43-63 | masking with a shifted mask is masking the shifted value |
| StorageSets.ShlIsProduct | PIMProfSolver/Storage.h:43-63 | m << k is m times 2^k |
| StorageSets.BitAndLowMask | PIMProfSolver/Storage.h:449-460 | y & (2^w - 1) keeps exactly the low w bits |
| StorageSets.UpperHalf | PIMProfSolver/Storage.h:43-63 | the upper half of a 2w-bit window of x is non-zero exactly when x >= 2^w |
| StorageSets.MaskValues | PIMProfSolver/Storage.h:43-63 | the masks 0xffff0000, 0xff00, 0xf0, 0xc and 0x2 are the upper halves of 32-, 16-, 8-, 4- and 2-bit windows |
| StorageSets.FloorLog2 | PIMProfSolver/Storage.h:33-69 | -1 for 0; otherwise the p with 2^p <= n < 2^(p+1), the position of the top set bit |
| StorageSets.FloorLog2Steps | PIMProfSolver/Storage.h:43-66 | the five shift stages move the top set bit to bit 0 |
| StorageSets.ShrChain | PIMProfSolver/Storage.h:43-66 | the five shifts add up to one shift by the sum, and a final value of 1 places n between 2^sum and 2^(sum+1) |
| StorageSets.FloorLog2OfPow2 | PIMProfSolver/Storage.h:33-69 | FloorLog2(2^k) == k for every k < 32 |
| StorageSets.FloorLog2Top | PIMProfSolver/Storage.h:33-69 | the largest 32-bit value has its top bit at 31 |
| StorageSets.BitAndPrev | PIMProfSolver/Storage.h:26-31 | n & (n - 1) is 0 exactly when n is a power of two or 0 |
| StorageSets.IsPower2 | PIMProfSolver/Storage.h:28-31 | the test `(n & (n - 1)) == 0` on a 32-bit value; `StorageSets.IsPower2Iff` proves it holds exactly for 0 and the powers of two |
| StorageSets.IsPower2Iff | PIMProfSolver/Storage.h:26-31 | the 32-bit test holds exactly for 0 and the powers 2^0 .. 2^31 |
| StorageSets.Pow2FloorLog2 | PIMProfSolver/Storage.h:26-69 | for a non-zero power of two, 2^FloorLog2(n) == n |
| StorageSets.CeilLog2 | PIMProfSolver/Storage.h:71-77 | 32 for 0 (the wrap-around of n - 1); otherwise the least p with n <= 2^p |
| StorageSets.SplitAddress | PIMProfSolver/Storage.h:449-453 | the set index is below the number of sets |
| StorageSets.SplitAddressLowBits | PIMProfSolver/Storage.h:449-453 | with 2^k sets the set index is the low k bits of the tag address |
| Storage.NumSets | PIMProfSolver/Storage.h:433 | a level has at least one set, and every set index an address splits to names one of them |
| StorageSets.ZeroTags | PIMProfSolver/Storage.h:179-253 | associativity fresh tags, each holding address 0 |
| StorageSets.NewSet | PIMProfSolver/Storage.h:133-255 | a new set of the given policy and associativity with all tags 0; a round-robin set starts at its last way |
| StorageSets.FirstIndex | PIMProfSolver/Storage.h:288-304 | the first position holding the tag |
| StorageSets.Promote | PIMProfSolver/Storage.h:296-300 | moving a tag to the front keeps the length and the multiset of tags |
| StorageSets.PromoteFront | PIMProfSolver/Storage.h:296-300 | promoting the most recently used tag changes nothing |
| StorageSets.PromoteIdempotent | PIMProfSolver/Storage.h:296-300 | promoting twice is promoting once |
| StorageSets.RoundRobinFind | PIMProfSolver/Storage.h:203-211 | finds a way holding the tag, searching from the last way down, or none when no way holds it |
| StorageSets.LruFind | PIMProfSolver/Storage.h:288-304 | a hit exactly when the tag is held, and a hit promotes it to most recently used |
| StorageSets.Find | PIMProfSolver/Storage.h:148-304 | a hit exactly when the set holds the tag; only an LRU hit changes the set, by promotion (`StorageSets.AfterFind`) |
| StorageSets.AfterFind | PIMProfSolver/Storage.h:287-304 | the set after a lookup: same policy and the same tags, and an LRU set holding the tag has it at the front |
| StorageSets.Replace | PIMProfSolver/Storage.h:155-313 | the new tag is held afterwards: direct-mapped overwrites its one tag, round-robin the way at the pointer, LRU evicts the least recently used and puts the tag in front |
| StorageSets.ReplacePointer | PIMProfSolver/Storage.h:216-220 | one round-robin replacement moves the pointer one way down, wrapping to the last way |
| StorageSets.ReplaceAllKeeps | PIMProfSolver/Storage.h:213-222 | round-robin replacements leave a way alone until the pointer reaches it |
| StorageSets.RoundRobinPointer | PIMProfSolver/Storage.h:213-222 | k replacements in a row walk the pointer k ways down, cyclically |
| StorageSets.RoundRobinCycle | PIMProfSolver/Storage.h:213-222 | up to associativity replacements in a row each land in a distinct way and all stay held |
| StorageSets.Flush | PIMProfSolver/Storage.h:160-329 | every tag becomes 0, the associativity is kept and a round-robin set restarts at its last way |
| StorageSets.AccessCounters.Record | PIMProfSolver/Storage.h:350 | recording an access bumps exactly the (type, hit) counter |
| StorageSets.AccessCounters.Hits | PIMProfSolver/Storage.h:385 | the hit counter of one access type |
| StorageSets.AccessCounters.Misses | PIMProfSolver/Storage.h:386 | the miss counter of one access type |
| StorageSets.AccessCounters.Accesses | PIMProfSolver/Storage.h:387 | hits plus misses of one access type; their totals agree (`StorageSets.AccessesTotal`) |
| StorageSets.SumAccess | PIMProfSolver/Storage.h:368-378 | the hits (or misses) of loads and stores together |
| StorageSets.AccessesTotal | PIMProfSolver/Storage.h:385-390 | total hits plus total misses is the sum of the per-type accesses |
| StorageSets.RecordCounts | PIMProfSolver/Storage.h:385-390 | recording one access adds one access, and one hit exactly when it hit |
| StorageConfig.LastLevel | PIMProfSolver/Storage.cpp:430-439 | the last cache level read for a site: every level up to it has a section and the next one does not (-1 when IL1 has none) |
| StorageConfig.LastFrom | PIMProfSolver/Storage.cpp:433-439 | the scan from level j stops at the first level without a section |
| StorageConfig.FirstMissing | PIMProfSolver/Storage.cpp:441-460 | none exactly when all five attributes are present; otherwise the first missing one, which is the one reported |
| StorageConfig.ParsePolicy | PIMProfSolver/Storage.cpp:142-166 | exactly "direct_mapped", "round_robin" and "lru" name a policy |
| StorageConfig.ToU32 | PIMProfSolver/Storage.cpp:482 | an `int32_t` passed as `uint32_t` keeps non-negative values and wraps negative ones by 2^32 |
| StorageConfig.HitCosts | PIMProfSolver/Storage.cpp:472-500 | the hit cost is the level's own at its site and 0 at the other |
| StorageConfig.Product | PIMProfSolver/Storage.cpp:137 | the product is 0 exactly when a factor is 0 |
| StorageConfig.ProductIsMultiplication | PIMProfSolver/Storage.cpp:137 | the recursive product is multiplication |
| StorageConfig.SetBytesNonZero | PIMProfSolver/Storage.cpp:137 | a set of non-zero size has at least one way and a non-empty line |
| StorageConfig.EmptyCacheAccepted | PIMProfSolver/Storage.cpp:129-141 | a 32-byte cache of 64-byte lines gets mask 2^32 - 1 and zero sets, passes the power-of-two assertion, and every set index it computes is out of range |
| StorageConfig.Geometry | PIMProfSolver/Storage.cpp:136-141 | defined exactly when the cache holds at least one set; then the set count is cacheSize / setBytes, one more than the mask, and the sets fit in the cache |
| StorageConfig.GeometryAsWritten | PIMProfSolver/Storage.cpp:137-141 | in 32-bit arithmetic the set count is always cacheSize / setBytes, even when that is 0; the mask is one less, but wraps to 2^32 - 1 for a cache smaller than one set |
| StorageConfig.GeometryFacts | PIMProfSolver/Storage.cpp:137 | the set count times the set size does not exceed the cache size |
| StorageConfig.IL1OnlyUnconnected | PIMProfSolver/Storage.cpp:506-515 | as written, with only IL1 configured IL1 gets no next level |
| StorageConfig.NextLevel | PIMProfSolver/Storage.cpp:484-520 | the next level is a later level that exists or memory; IL1 and DL1 lead to UL2, UL2 to UL3; it agrees with the as-written wiring unless IL1 is last |
| StorageConfig.NextLevelAsWritten | PIMProfSolver/Storage.cpp:484-520 | a level is left without a next level exactly when IL1 is the last level configured; otherwise its next level comes after it and is memory or a configured level |
| StorageConfig.ChainReachesMemory | PIMProfSolver/Storage.cpp:484-520 | following next levels from any configured level reaches memory |
| StorageConfig.TopIL1Level | PIMProfSolver/Storage.cpp:506-524 | the top instruction level is IL1, or memory exactly when no cache level is configured |
| StorageConfig.TopDL1Level | PIMProfSolver/Storage.cpp:506-524 | the top data level is DL1, or memory exactly when DL1 is not configured |
| StorageConfig.Slot | PIMProfSolver/Storage.cpp:482-505 | where a site's level sits in the level arena; memory comes right after the last configured level |
| StorageConfig.AcceptedLineSizesAgree | PIMProfSolver/Storage.cpp:462-470 | in an accepted configuration every cache level of both sites has the same line size |
| StorageConfig.SiteLineSize | PIMProfSolver/Storage.cpp:462-470 | within an accepted site every level has the line size fixed by the first level read |
| StorageConfig.SameAsGlobal | PIMProfSolver/Storage.cpp:429-470 | every accepted level has the line size of the first level read |
| Storage.AtLeastThreads | PIMProfSolver/Storage.cpp:67-69 | the count is raised to the thread count when below it, and the blocks and head are kept |
| Storage.Storage.constructor | PIMProfSolver/Storage.cpp:405-409 | no levels, no tag segments, every last I-cache line 0 and an empty reuse trie |
| Storage.Storage.PushSegment | PIMProfSolver/Storage.cpp:72-83 | a segment of two or more blocks ends up in the trie under its head with exactly its blocks on the path; a shorter one changes nothing |
| Storage.Storage.SplitOnMiss | PIMProfSolver/Storage.cpp:81-85 | the tag's segment is pushed into the trie and then cleared; nothing else changes (`Storage.Pushes` of that one segment) |
| Storage.Storage.InsertOnHit | PIMProfSolver/Storage.cpp:63-79 | the global block (when not enabled) changes nothing; a load adds the block to the tag's segment with the count raised to the thread count; a store also pushes that segment into the trie and restarts it as the one block; the map and the trie are those `Storage.HitEffect` gives |
| Storage.HitEffect | PIMProfSolver/Storage.cpp:63-79 | the map after `InsertOnHit` and the segments it pushes: only the tag's segment changes, and a segment is pushed exactly for a store of a block that is not the disabled global block |
| Storage.HitSegment | PIMProfSolver/Storage.cpp:65-69 | the block joins the segment's set (as head of an empty one) and the count is the larger of the old count and the thread count |
| Storage.Restarted | PIMProfSolver/Storage.cpp:73-76 | a store leaves the segment holding only the block, as its head, with count max(thread count, 1) |
| Storage.Storage.AccessSingleLine | PIMProfSolver/Storage.cpp:252-398 | exactly the (type, hit) counter of the level goes up; memory always hits; a cache level hits iff the tag is in its set; its set afterwards is the set after the lookup (an LRU hit promotes the tag) or, on an allocating miss, after `Replace`, and the miss counts one access at the next level; earlier levels and the other site are untouched; the levels afterwards are exactly `Storage.ChainLevels` of the levels before, and the tag-to-segment map and the trie are those `Storage.ChainReuse` gives |
| Storage.Storage.CacheAccessSingleLine | PIMProfSolver/Storage.cpp:252-298 | the cache-level case of the above: one counter bumped, the sets and levels `CacheOutcome` describes, the levels afterwards exactly `Storage.ChainLevels` of the levels before, and the reuse bookkeeping `Storage.ChainReuse` gives |
| Storage.Storage.ApplyLookup | PIMProfSolver/Storage.cpp:262-295 | after the lookup: the counter of (type, hit) goes up, the sets and levels are as `CacheOutcome` says, the levels afterwards are exactly `Storage.ChainLevels` of the levels before (the next level's own chain included after a forwarded miss), and the reuse bookkeeping is as `Storage.ChainReuse` says |
| Storage.Storage.SplitThenAccess | PIMProfSolver/Storage.cpp:286-289 | the split exactly when the next level is memory and the level above tracks reuse, then one more access of the type at the next level; the levels afterwards are exactly `Storage.ChainLevels` of the next level; the map and the trie are those `Storage.ForwardReuse` gives |
| Storage.ForwardStep | PIMProfSolver/Storage.cpp:286-289 | the split followed by the next level's access together make up `Storage.ForwardReuse` |
| Storage.Storage.StoreLevel | PIMProfSolver/Storage.cpp:293-295 | a level that does not forward: only that level changes, and a tracked hit changes the map and the trie as `Storage.HitEffect` says, an untracked access not at all |
| Storage.Storage.MissForward | PIMProfSolver/Storage.cpp:281-292 | the set replaces a tag with the missing one, the next level counts exactly one more access of the type, the levels afterwards are the next level's `Storage.ChainLevels` with this level's set replaced, and the map and trie are those `Storage.ForwardReuse` gives: split first when the next level is memory and this is a CPU level |
| Storage.Outcome | PIMProfSolver/Storage.cpp:257-295 | a hit iff the set held the tag; the set after the lookup, or after `Replace` on an allocating miss; a forwarded miss leaves the tag in the set and one more access at the next level; otherwise only the level itself changes |
| Storage.SetAfter | PIMProfSolver/Storage.cpp:261-283 | the set after the lookup: valid, of the same policy and associativity; a hit keeps the same tags; an allocating miss leaves the tag in the set |
| Storage.ChainLevels | PIMProfSolver/Storage.cpp:252-295 | the levels after one single-line access, read off the levels before it: as many, with the earlier levels and the other site unchanged |
| Storage.ChainLevelsCache | PIMProfSolver/Storage.cpp:257-292 | at a cache level: the level with the set after the lookup and its (type, hit) counter bumped, over the next level's own chain after a forwarded miss |
| Storage.ChainLevelsOk | PIMProfSolver/Storage.cpp:252-295 | an access keeps the levels consistent and every level's shape: only set contents and counters change |
| Storage.ChainLevelsFrame | PIMProfSolver/Storage.cpp:281-292 | the levels from idx on after an access at idx depend only on the levels from idx on |
| Storage.ChainLevelsAfterSet | PIMProfSolver/Storage.cpp:283-291 | replacing the missing tag before the next level is accessed gives the next level's chain with the changed level put back |
| Storage.LoadInstalls | PIMProfSolver/Storage.cpp:276-283 | after a load at a cache level its set holds the line, hit or miss: every access promotes its address into the cache |
| Storage.LoadMissFillsNext | PIMProfSolver/Storage.cpp:276-291 | a load that misses a cache level is the same load at the next level: from there on the levels are the next level's own chain, and a next cache level ends up holding the line too |
| Storage.ChainReuse | PIMProfSolver/Storage.cpp:252-295 | the reuse bookkeeping of one single-line access read off the levels before it: memory changes nothing, an allocating miss goes on through `Storage.ForwardReuse`, a hit of a CPU level is `InsertOnHit`, anything else changes nothing; every segment stays well formed |
| Storage.ForwardReuse | PIMProfSolver/Storage.cpp:281-289 | a forwarded miss splits the tag's segment (pushed, then cleared) exactly when the next level is memory and this is a CPU level, then accesses the next level |
| Storage.MemoryKeepsReuse | PIMProfSolver/Storage.cpp:392-398 | an access at the memory level leaves the map and the trie alone |
| Storage.SplitAboveMemory | PIMProfSolver/Storage.cpp:281-289 | a load miss at a CPU level right above memory pushes exactly the tag's segment and leaves it empty with count 1 and its head kept |
| Storage.ChainReuseFrame | PIMProfSolver/Storage.cpp:252-295 | the bookkeeping of an access at level idx depends only on the levels from idx on |
| Storage.ForwardReuseFrame | PIMProfSolver/Storage.cpp:281-289 | the bookkeeping of a forwarded miss depends only on the levels from the next one on |
| Storage.PushesTrans | PIMProfSolver/Storage.cpp:72-85 | pushing p and then q into the trie is pushing p + q: the trie only grows and holds a leaf for every long segment of both |
| Storage.LineBase | PIMProfSolver/Storage.cpp:220-224 | the start of addr's line: at most addr, and addr lies within the line |
| Storage.Visits | PIMProfSolver/Storage.cpp:216-226 | the lines the do-while visits, starting at addr (`Storage.VisitsCover`) |
| Storage.VisitsCover | PIMProfSolver/Storage.cpp:216-226 | the lines the do-while loop visits: addr first, each next one the start of the following line, all after the first below addr + size, the last reaching addr + size |
| Storage.VisitsChain | PIMProfSolver/Storage.cpp:221-226 | the visited lines start at addr and each one starts right after the line of the one before |
| Storage.VisitsLast | PIMProfSolver/Storage.cpp:221-226 | the loop stops once the next line would start at or beyond addr + size |
| Storage.VisitsBelow | PIMProfSolver/Storage.cpp:226 | every visited line after the first starts below addr + size |
| Storage.Storage.Access | PIMProfSolver/Storage.cpp:214-389 | one access of the type is counted per visited line (64-byte lines at memory) and the result is true iff all of them hit; the other type's counters are unchanged; the levels, the tag-to-segment map and the trie afterwards are those `Storage.LinesEffect` gives, one single-line access after another over the visited lines |
| Storage.Storage.AccessLines | PIMProfSolver/Storage.cpp:216-226 | the do-while loop makes one single-line access per visited line: the count it reports is the number of lines visited, and the level's counters gain exactly that many accesses of the type, with the flag true iff every one hit; the levels, the map and the trie afterwards are the fold `Storage.LinesEffect` of the visited lines |
| Storage.Storage.AccessStep | PIMProfSolver/Storage.cpp:222-226 | one pass of the do-while: one single-line access, one more access counted, the next address is the start of the following line, the loop goes on iff that is below addr + size, and the fold of the lines not yet visited moves on (or is complete) |
| Storage.LinesEffectStep | PIMProfSolver/Storage.cpp:214-226 | the fold over the visited lines is the first line's single-line access followed by the fold over the lines from the next line start |
| Storage.FoldedNext | PIMProfSolver/Storage.cpp:222-226 | after one more line, with lines left, the levels, map and pushes so far and the fold of the remaining lines still make up the whole fold |
| Storage.FoldedLast | PIMProfSolver/Storage.cpp:222-226 | after the last line, the levels, map and pushes are the whole fold's |
| Storage.Storage.ResetStats | PIMProfSolver/Storage.cpp:322-330 | every counter of the level is 0 and the reset counter is one more; nothing else changes |
| Storage.Cleared | PIMProfSolver/Storage.cpp:324-328 | both counters of one type are 0 and the other type's are kept |
| Storage.FlushOrderAsWritten | PIMProfSolver/Storage.cpp:302 | the loop as written reads set indices NumSets() down to 0, one more than there are sets |
| Storage.FlushReadsPastEnd | PIMProfSolver/Storage.cpp:302-304 | the first set index read as written is one past the last set |
| Storage.Storage.FlushLevel | PIMProfSolver/Storage.cpp:300-308 | corrected to start at the last set: every tag of every set of the level is 0, the flush counter is one more, counters and other levels are kept |
| Storage.IFetch | PIMProfSolver/Storage.cpp:569-624 | nothing is fetched iff the instruction stays in the last line fetched; otherwise at most two lines, each the current or the next line, and the new last line is the last of them |
| Storage.Storage.InstrCacheRefSite | PIMProfSolver/Storage.cpp:570-623 | one site's top I-cache fetches the lines `IFetch` names and records the last; the other site is untouched |
| Storage.Storage.InstrCacheRef | PIMProfSolver/Storage.cpp:562-625 | every site's top I-cache fetches the lines `IFetch` names for its own last line |
| Storage.Storage.DataCacheRefSite | PIMProfSolver/Storage.cpp:634-635 | one site's top D-cache counts one access of the type per line `Access` visits; the other site's levels are untouched |
| Storage.Storage.DataCacheRef | PIMProfSolver/Storage.cpp:628-636 | every site's top D-cache counts one access of the type per line `Access` visits |
| Storage.LevelAt | PIMProfSolver/Storage.cpp:430-439 | the ordinal names memory exactly at the last ordinal |
| Storage.NewSets | PIMProfSolver/Storage.cpp:142-162 | NumSets() sets, each valid, of the policy and associativity, all tags 0 |
| Storage.NewCacheLevel | PIMProfSolver/Storage.cpp:129-169 | built exactly when the policy is known and the geometry and associativity pass the checks; then the given geometry, policy, costs, line shift and empty sets, no next level; a zero set size fails as a division by zero |
| Storage.Connect | PIMProfSolver/Storage.cpp:484-520 | setting one level's next level changes that field only |
| Storage.ConnectKeepsBuilt | PIMProfSolver/Storage.cpp:484-490 | connecting keeps what the constructor built |
| Storage.ReadLevel | PIMProfSolver/Storage.cpp:441-482 | a level is built exactly when every attribute is present, the line size matches the first one read and the hit cost is non-negative; the first level read fixes the line size |
| Storage.ReadStep | PIMProfSolver/Storage.cpp:431-490 | a failing level rejects the site; a passing one extends the built and connected block by one level |
| Storage.LevelAppended | PIMProfSolver/Storage.cpp:480-490 | a level that passed its checks, appended and connected, extends the block by one |
| Storage.WireStepOk | PIMProfSolver/Storage.cpp:484-490 | a connection step keeps the built levels and connects IL1 and DL1 to UL2 and UL2 to UL3 as they appear |
| Storage.WireMemoryOk | PIMProfSolver/Storage.cpp:506-524 | after memory is connected every level's next level is the one `NextLevel` names |
| Storage.WireMemoryNext | PIMProfSolver/Storage.cpp:506-520 | one level's next level after memory is connected |
| Storage.WireMemoryBuilt | PIMProfSolver/Storage.cpp:506-520 | connecting memory keeps every built level |
| Storage.ConnectTwiceKeepsBuilt | PIMProfSolver/Storage.cpp:510-512 | connecting IL1 and DL1 to the same level keeps both as built |
| Storage.FinishSite | PIMProfSolver/Storage.cpp:493-524 | the site is accepted exactly when its memory hit cost is valid; then the memory level is appended and the last cache level connected to it |
| Storage.CompleteBlock | PIMProfSolver/Storage.cpp:493-524 | connecting memory and appending the memory level completes the site's block |
| Storage.FullBlock | PIMProfSolver/Storage.cpp:493-524 | wired cache levels plus the memory level form the site's block |
| Storage.ReadSite | PIMProfSolver/Storage.cpp:430-524 | a site's block is read exactly when the site's configuration is accepted; then it is its built, connected levels followed by memory |
| Storage.SiteRejected | PIMProfSolver/Storage.cpp:441-482 | a failing section the site reaches rejects the site |
| Storage.SiteAcceptedFromSections | PIMProfSolver/Storage.cpp:493-503 | when every section passes, the site is accepted iff its memory hit cost is non-negative |
| Storage.SectionsOkStep | PIMProfSolver/Storage.cpp:441-482 | one more passing section extends the passing prefix |
| Storage.ReadSites | PIMProfSolver/Storage.cpp:427-526 | succeeds exactly on an accepted configuration; then the arena is site 0's block then site 1's and each top lies in its own site's block |
| Storage.SitesInOrder | PIMProfSolver/Storage.cpp:430-526 | reading stops at the first rejected site, and accepting both sites accepts the configuration |
| Storage.SitesReadStep | PIMProfSolver/Storage.cpp:430-524 | appending a site's block and setting its tops extends the sites read |
| Storage.SitesReadDone | PIMProfSolver/Storage.cpp:427-526 | after both sites the arena is consistent, the tops are in their site's blocks and the layout is the configured one |
| Storage.LayoutFrom | PIMProfSolver/Storage.cpp:430-524 | both blocks with their tops are the configured layout |
| Storage.LayoutValid | PIMProfSolver/Storage.cpp:430-524 | both blocks together are a consistent arena whose tops lie in their own site's block |
| Storage.LayoutTops | PIMProfSolver/Storage.cpp:506-520 | each site's top IL1 (or DL1) lies in its own block |
| Storage.LayoutLevelsOk | PIMProfSolver/Storage.cpp:430-524 | site 0's block followed by site 1's is a consistent arena |
| Storage.TopSlotIn | PIMProfSolver/Storage.cpp:506-520 | a site's top level lies in its own block |
| Storage.BlockLevelsOk | PIMProfSolver/Storage.cpp:430-524 | appending a site's block keeps every level consistent |
| Storage.BlockSites | PIMProfSolver/Storage.cpp:430-524 | every level of a site's block belongs to the site and has one hit cost per site |
| Storage.Storage.ReadConfig | PIMProfSolver/Storage.cpp:427-526 | succeeds exactly on an accepted configuration, stopping at the first failing check; then the storage is valid and laid out as configured |
| Stats.NewBBLStats | PIMProfSolver/Stats.h:50-58 | a block with the given id and hash and every counter 0 |
| Stats.MergeStats | PIMProfSolver/Stats.h:68-73 | id and hash are kept and the three counters are added field by field |
| Stats.MergeIntoNew | PIMProfSolver/Stats.h:330-332 | merging into a fresh entry copies the counters under the fresh entry's id and hash |
| Stats.MergeCommutes | PIMProfSolver/Stats.h:68-73 | the order in which two blocks are merged into an entry does not matter |
| Stats.InsertUuid | PIMProfSolver/Stats.h:88-91 | inserting a new hash keeps the sequence ascending and adds exactly that hash |
| Stats.SortedHashes | PIMProfSolver/Stats.h:85-91 | the key set's hashes in ascending order, each exactly once |
| Stats.SortStatsMap | PIMProfSolver/Stats.h:82-92 | every entry of the map exactly once, the map's own entry for its hash, in ascending hash order |
| Stats.GenerateBBLID | PIMProfSolver/Stats.h:342-349 | the ids become 0 .. n-1 in ascending hash order; nothing but the ids changes |
| Stats.IdsAreRanks | PIMProfSolver/Stats.h:346-348 | numbering entries by their position in ascending order makes id order agree with hash order |
| Stats.MergeMap | PIMProfSolver/Stats.h:325-339 | the merged map holds the shared map's hashes and the thread's, each under its own hash |
| Stats.Restrict | PIMProfSolver/Stats.h:327 | the thread's entries whose hash is among those already merged |
| Stats.MergeMapAdd | PIMProfSolver/Stats.h:328-337 | merging one more of the thread's blocks changes only that hash's entry, by `MergeStats` into the existing or a fresh entry |
| Stats.MergeMapCommutes | PIMProfSolver/Stats.h:325-339 | the shared map does not depend on the order in which two threads are merged into it |
| Stats.HitOnce | PIMProfSolver/Stats.h:298-302 | the block joins the segment's set (as head of an empty one) and the count is 1 |
| Stats.RestartOnce | PIMProfSolver/Stats.h:307-310 | after a store the segment holds only the block, as its head, with count 1 |
| Stats.ThreadStats.constructor | PIMProfSolver/Stats.h:126-146 | on CPU, with no switches, inside the global block, which is the only block known; no segments and an empty trie |
| Stats.ThreadStats.BBLStart | PIMProfSolver/Stats.h:195-211 | the block of the hash (created under the global id if new, else the existing one) becomes innermost and exactly the switch from the previous innermost block to it is counted |
| Stats.ThreadStats.Enter | PIMProfSolver/Stats.h:199-209 | the block of the hash is pushed, created once at zero if new |
| Stats.ThreadStats.BBLEnd | PIMProfSolver/Stats.h:213-225 | requires the hash to be the innermost block's; pops it and counts exactly the switch back to the enclosing block |
| Stats.ThreadStats.OffloadStart | PIMProfSolver/Stats.h:227-244 | the decision is pushed; CPU-to-PIM goes up exactly when it turns PIM on from CPU and PIM-to-CPU exactly when it turns it off; the block (hi, 0) starts: created at zero if its hash is new, pushed as the innermost block, and exactly the switch-count cell from the previous innermost block to it gains one |
| Stats.ThreadStats.OffloadEnd | PIMProfSolver/Stats.h:246-264 | requires the decision to match the innermost one; pops it, counts a switch only when the site changes, in its direction, and ends block (hi, 0): that block is popped and exactly the switch-count cell back to the enclosing block gains one, stats unchanged |
| Stats.ThreadStats.AddTimeInstruction | PIMProfSolver/Stats.h:267-272 | only the innermost block's time and instruction count grow, by the given amounts |
| Stats.ThreadStats.AddMemory | PIMProfSolver/Stats.h:274-277 | only the innermost block's memory-access count grows, by the given amount |
| Stats.ThreadStats.InsertSegOnHit | PIMProfSolver/Stats.h:285-312 | the innermost block joins the tag's segment (created if absent) with count 1; a store also pushes the segment into the trie and restarts it as that block alone |
| Stats.ThreadStats.CurrentHash | PIMProfSolver/Stats.h:190 | the hash of the innermost block, which the hash index maps back to that block |
| Stats.ThreadStats.SplitSegOnMiss | PIMProfSolver/Stats.h:314-323 | an unknown tag changes nothing; otherwise the tag's segment is pushed into the trie and cleared |
| Stats.ThreadStats.LocalStats | PIMProfSolver/Stats.h:114 | the thread's blocks by hash, each under its own hash |
| Stats.ThreadStats.MergeStatsMap | PIMProfSolver/Stats.h:325-339 | the result is the shared map with each of the thread's blocks merged in, into a fresh entry when the hash is new |
| Stats.ThreadStats.AssignBBLID | PIMProfSolver/Stats.h:351-360 | requires every hash of the thread to be in the merged map; each block takes the id the merged map holds for its hash and nothing else changes |
| CostModel.SingleSegMaxReuseCost | PIMProfSolver/CostSolver.h:137-141 | the larger of CPU-flush-plus-PIM-fetch and PIM-flush-plus-CPU-fetch: at least each and equal to one |
| CostModel.ElapsedTime | PIMProfSolver/CostSolver.cpp:984-1003 | the CPU and PIM time of a decision, accumulated over the blocks; `CostModel.ElapsedTimeTotals` proves the pair is the two per-site sums |
| CostModel.SiteTotal | PIMProfSolver/CostSolver.cpp:973-982 | the sum of the times of the blocks the decision puts on one site; INVALID blocks count on neither |
| CostModel.Busy | PIMProfSolver/CostSolver.cpp:967-971 | the CPU time plus the PIM time of a decision, the last two terms of `Cost` |
| CostModel.LeafCost | PIMProfSolver/CostSolver.cpp:1028-1043 | a leaf reached through a site change costs its count times the flush of the head's site plus the fetch from the other site |
| CostModel.ReuseCost | PIMProfSolver/CostSolver.cpp:1017-1024 | the walk from every child of the root with no site change seen yet; never negative (`CostModel.RootCost`), 0 for a uniform decision (`CostModel.ReuseCostUniform`) |
| CostModel.Cost | PIMProfSolver/CostSolver.cpp:967-971 | reuse cost plus switch cost plus both elapsed times; bounded below by the busy time (`CostModel.CostBounds`) |
| CostModel.ElapsedTimeTotals | PIMProfSolver/CostSolver.cpp:984-1003 | the loop's pair is the CPU time summed over the CPU blocks and the PIM time summed over the PIM blocks |
| CostModel.SiteTotalLast | PIMProfSolver/CostSolver.cpp:988-1001 | a site's total splits off the last block as well as the first |
| CostModel.SiteTotalUpdate | PIMProfSolver/CostSolver.cpp:991-1000 | changing one block's decision moves exactly its time from the old site's total to the new site's |
| CostModel.AllOnSite | PIMProfSolver/CostSolver.cpp:973-1003 | with every block on one site, that site's total is the sum of all times and the other site's is 0 |
| CostModel.ElapsedAllCpu | PIMProfSolver/CostSolver.cpp:984-1003 | the all-CPU decision takes the sum of the CPU times and no PIM time |
| CostModel.ElapsedAllPim | PIMProfSolver/CostSolver.cpp:984-1003 | the all-PIM decision takes no CPU time and the sum of the PIM times |
| CostModel.ElapsedInvalid | PIMProfSolver/CostSolver.cpp:997-1000 | an INVALID block adds nothing: deciding it adds exactly its time to the chosen site's total |
| CostModel.SubtreeCost | PIMProfSolver/CostSolver.cpp:1026-1058 | the reuse cost a subtree adds is never negative |
| CostModel.ChildrenCost | PIMProfSolver/CostSolver.cpp:1046-1056 | the children's reuse cost is never negative |
| CostModel.RootCost | PIMProfSolver/CostSolver.cpp:1017-1024 | the cost of the walks from the root's children is never negative |
| CostModel.SubtreeSameSite | PIMProfSolver/CostSolver.cpp:1026-1058 | a subtree whose blocks all share a site, entered with no change seen, adds no reuse cost |
| CostModel.ChildrenSameSite | PIMProfSolver/CostSolver.cpp:1046-1056 | children all on one site, entered with no change seen, add no reuse cost |
| CostModel.RootSameSite | PIMProfSolver/CostSolver.cpp:1017-1024 | with all nodes on one site the walks from the root add nothing |
| CostModel.ReuseCostUniform | PIMProfSolver/CostSolver.cpp:1017-1058 | with every block on the same site the reuse cost is 0 |
| CostModel.SubtreeChangeCosts | PIMProfSolver/CostSolver.cpp:1026-1058 | a site change seen higher up never lowers a subtree's reuse cost |
| CostModel.ChildrenChangeCosts | PIMProfSolver/CostSolver.cpp:1046-1056 | the same for the children from the k-th on |
| CostModel.CostBounds | PIMProfSolver/CostSolver.cpp:967-971 | the cost is never below the busy time; with every block on the CPU (or on PIM) it is the sum of that site's times plus the switch cost |
| ThreadRuns.SetThreadTime | PIMProfSolver/CostSolver.h:51-57 | the vector grows with zeros to cover the thread, the thread's slot holds the new time and every other slot is kept |
| ThreadRuns.NewRun | PIMProfSolver/CostSolver.h:39-48 | the first report: times of size tid + 1, zero except the reporting thread's time |
| ThreadRuns.MergeRun | PIMProfSolver/CostSolver.h:50-60 | a later report: counters added, the thread's time set, parallelism one more |
| ThreadRuns.SecondThreadTime | PIMProfSolver/CostSolver.h:51-57 | thread 1 reporting into one or two threads' times gives [a, e] |
| ThreadRuns.MaxOf | PIMProfSolver/CostSolver.h:71-77 | an element of the sequence that no element exceeds |
| ThreadRuns.MaxOfPermutation | PIMProfSolver/CostSolver.h:62-64 | sorting does not change the maximum |
| ThreadRuns.LastIsMax | PIMProfSolver/CostSolver.h:74 | the last element of an ascending sequence is its maximum |
| ThreadRuns.InsertAscending | PIMProfSolver/CostSolver.h:63 | inserting keeps the sequence ascending and adds exactly the element |
| ThreadRuns.SortAscending | PIMProfSolver/CostSolver.h:63 | an ascending permutation of the times |
| ThreadRuns.ThreadBBLStats.constructor | PIMProfSolver/CostSolver.h:39-48 | the first report's counters, both vectors of size tid + 1 with only the thread's time non-zero, parallelism 0 |
| ThreadRuns.ThreadBBLStats.MergeStatsAsWritten | PIMProfSolver/CostSolver.h:50-60 | as written: counters added, thread tid's time overwritten in both vectors (grown as needed), parallelism one more; the sorted copy's slot tid is overwritten whatever it holds |
| ThreadRuns.ThreadBBLStats.MergeStats | PIMProfSolver/CostSolver.h:50-60 | corrected: the same per-thread state, and the sorted copy keeps holding exactly the per-thread times |
| ThreadRuns.ThreadBBLStats.SetBblid | PIMProfSolver/CostSolver.cpp:94 | only the block id changes |
| ThreadRuns.ThreadBBLStats.SortElapsedTime | PIMProfSolver/CostSolver.h:62-64 | the sorted copy becomes an ascending permutation of itself; nothing else changes |
| ThreadRuns.ThreadBBLStats.MaxElapsedTime | PIMProfSolver/CostSolver.h:71-77 | returns the largest time of the sorted copy and stores it as the block's elapsed time; while the copy holds the per-thread times this is the slowest thread's time |
| ThreadRuns.SortedPair | PIMProfSolver/CostSolver.h:63 | the only ascending arrangement of 5 and 1 is [1, 5] |
| ThreadRuns.MaxOfPair | PIMProfSolver/CostSolver.h:71-77 | the maximum of two times is the larger one |
| ThreadRuns.SecondReportAsWritten | PIMProfSolver/CostSolver.h:50-77 | times 5 (thread 0), then 1 and 2 (thread 1) with a maximum read in between: the per-thread times are [5, 2] yet the maximum read is 2 |
| ThreadRuns.SecondReport | PIMProfSolver/CostSolver.h:50-77 | with the corrected merge the same reports give the maximum 5 |
| CostSolver.ParseRowShow | PIMProfSolver/CostSolver.cpp:126-133 | a row of the six fields written with spaces (decimal, then the hash halves in hex) reads back as the same statistics |
| CostSolver.HeaderTid | PIMProfSolver/CostSolver.cpp:119-122 | the thread id after the header line: its second token when that reads, 0 when it is malformed, the old id when it is missing (`CostSolver.HeaderTidShow`) |
| CostSolver.ParseRow | PIMProfSolver/CostSolver.cpp:126-133 | the six fields in order, the time read as a `double` and kept as its floor, each field after the first failed read left at its default of 0 (`CostSolver.ParseRowShow`, `CostSolver.FractionalTime`) |
| CostSolver.RowFieldsRead | PIMProfSolver/CostSolver.cpp:126-133 | six tokens that each read give the row of their values, with the time as the floor of the real read |
| CostSolver.RowFieldsTime | PIMProfSolver/CostSolver.cpp:126-133 | a row written as decimals and hex with any readable time token reads back with that time's floor |
| CostSolver.FractionReads | PIMProfSolver/Stats.h:390 | a time as the report writes a `double`, "1234.57", reads as 1234.57 |
| CostSolver.FractionalTime | PIMProfSolver/CostSolver.cpp:126-133 | a row whose time has a fraction keeps every other field, and its time is the floor 1234 |
| CostSolver.Fold | PIMProfSolver/CostSolver.cpp:114-144 | the rows folded into the map in file order; fails exactly at a negative time or thread id (`CostSolver.FoldOk`) |
| CostSolver.Step | PIMProfSolver/CostSolver.cpp:135-142 | the row's hash joins the keys and no other entry changes; the hash's merge count goes up by one, or starts at 0 for a new hash |
| CostSolver.HeaderTidShow | PIMProfSolver/CostSolver.cpp:119-122 | the header line "Thread k" after a separator sets the thread id to k |
| CostSolver.FoldOk | PIMProfSolver/CostSolver.cpp:118-143 | reading fails exactly when some row has a negative elapsed time or thread id |
| CostSolver.FoldKeys | PIMProfSolver/CostSolver.cpp:135-142 | the map afterwards holds the entries it had plus one per hash read |
| CostSolver.FoldKeyed | PIMProfSolver/CostSolver.cpp:135-142 | every entry stays filed under its own hash |
| CostSolver.FoldKnown | PIMProfSolver/CostSolver.cpp:140-142 | a known hash gains one merge and the counters of each of its rows |
| CostSolver.FoldNew | PIMProfSolver/CostSolver.cpp:135-142 | read from nothing, a hash has an entry exactly when a row has it; the entry merged all rows but the first and its counters are the sums over its rows |
| CostSolver.RowsOfThread | PIMProfSolver/CostSolver.cpp:126-142 | with no further separator every line is a row of the current thread |
| CostSolver.RowsAfterHeader | PIMProfSolver/CostSolver.cpp:119-124 | a separator, "Thread k" header and title line are skipped and the rows after them belong to thread k |
| CostSolver.RowsAtSeparator | PIMProfSolver/CostSolver.cpp:119-124 | at a separator the rows continue after the next two lines, in the thread the header names |
| CostSolver.RowsAtData | PIMProfSolver/CostSolver.cpp:126-142 | any other line is one row of the current thread |
| CostSolver.View | PIMProfSolver/CostSolver.h:115 | the values of the objects, under the same hashes |
| CostSolver.ParseStats | PIMProfSolver/CostSolver.cpp:114-144 | succeeds exactly when the fold of the rows succeeds; then the objects' values are that fold: a known hash merged into, a new hash given a new object |
| CostSolver.ReadLine | PIMProfSolver/CostSolver.cpp:118-143 | one pass consumes a separator with its two lines or one row and keeps the remaining fold equal to the whole fold |
| CostSolver.Insert | PIMProfSolver/CostSolver.cpp:135-142 | one row folded into the map of objects, as `Step` says |
| CostSolver.MergeInto | PIMProfSolver/CostSolver.cpp:141 | a row of a known hash merges into that hash's object and no other |
| CostSolver.AddNew | PIMProfSolver/CostSolver.cpp:137-138 | a row of a new hash gets a new object holding that row's first-report state |
| CostSolver.SortThreadStatsMap | PIMProfSolver/CostSolver.h:90-100 | every object of the map exactly once, in ascending hash order |
| CostSolver.AlignOn | PIMProfSolver/CostSolver.cpp:88-102 | the aligned PIM map holds its own hashes and every CPU hash listed |
| CostSolver.AlignOnStep | PIMProfSolver/CostSolver.cpp:91-101 | one more CPU hash: the PIM entry takes the CPU block id, or a thread-0 placeholder is added |
| CostSolver.AlignOnMatches | PIMProfSolver/CostSolver.cpp:82-112 | after alignment every CPU hash has a PIM entry with the same hash and block id; a PIM entry keeps its counters and times, a missing one is a placeholder with zero counters |
| CostSolver.SetBblid | PIMProfSolver/CostSolver.cpp:94 | only that block's id changes |
| CostSolver.AlignPim | PIMProfSolver/CostSolver.cpp:88-102 | the alignment loop lists, block by block, the aligned PIM entry for each CPU hash; old PIM objects stay filed |
| CostSolver.AlignOne | PIMProfSolver/CostSolver.cpp:89-101 | one pass aligns and lists one more CPU hash |
| CostSolver.AlignKnown | PIMProfSolver/CostSolver.cpp:92-95 | the PIM object of the hash takes the CPU block id and is listed |
| CostSolver.AlignMissing | PIMProfSolver/CostSolver.cpp:96-101 | a new placeholder object with zero counters is filed under the hash and listed |
| CostSolver.SortAndAlign | PIMProfSolver/CostSolver.cpp:84-108 | both lists have one entry per CPU hash in ascending hash order, with equal hashes and block ids at every index; the CPU side is unchanged |
| CostSolver.BlockIds | PIMProfSolver/CostSolver.cpp:90 | the block ids of the listed CPU objects, in list order |
| CostSolver.Solver.constructor | PIMProfSolver/CostSolver.h:115-117 | the two maps, with the lists still to be built |
| CostSolver.Solver.GetBBLSortedStats | PIMProfSolver/CostSolver.cpp:82-112 | on the first call lists the CPU map in hash order and aligns the PIM map with it; later calls return the same lists; the CPU side never changes |
| CostSolver.Solver.Install | PIMProfSolver/CostSolver.cpp:109-111 | the built lists and aligned map become the solver's and it is no longer dirty |
| CostSolver.Initialize | PIMProfSolver/CostSolver.cpp:38-71 | a solver exists exactly when both reports read; then its maps are the folds of the CPU and PIM reports |
| CostSolver.ReadReport | PIMProfSolver/CostSolver.cpp:44-51 | one report read into a new map of new objects, exactly when its fold succeeds |
| OffloadSearch.Greedy | PIMProfSolver/CostSolver.cpp:404-417 | each block on its faster site, the CPU on a tie; every block decided |
| OffloadSearch.IsGreedy | PIMProfSolver/CostSolver.cpp:408-417 | a greedy decision is decided and puts a block on PIM exactly when PIM is strictly faster |
| OffloadSearch.GreedyTotals | PIMProfSolver/CostSolver.cpp:408-417 | the greedy decision's CPU and PIM totals together are at most those of any decision of CPU and PIM entries |
| OffloadSearch.GreedyMinimisesBusy | PIMProfSolver/CostSolver.cpp:404-427 | no decision of CPU and PIM entries has less busy time than the greedy one |
| OffloadSearch.Mpki | PIMProfSolver/CostSolver.cpp:358-391 | the global block goes to the CPU; any other block goes to PIM exactly when its misses per thousand instructions exceed 5, its merges exceed 15 and its instructions exceed 1% of the PIM total |
| OffloadSearch.MpkiOffloads | PIMProfSolver/CostSolver.cpp:384 | a block that passes the test has memory accesses, more than one per 200 instructions |
| OffloadSearch.MpkiMonotone | PIMProfSolver/CostSolver.cpp:384 | more memory accesses, more merges or a lower instruction threshold never move a block from PIM back to the CPU |
| OffloadSearch.Assign | PIMProfSolver/CostSolver.cpp:442-447 | only the first j batch entries are written, each CPU or PIM |
| OffloadSearch.AssignOverwrites | PIMProfSolver/CostSolver.cpp:437-447 | two decisions that agree outside the batch agree after the inner loop wherever it has written |
| OffloadSearch.SameAssign | PIMProfSolver/CostSolver.cpp:437-447 | the full inner loop depends only on the entries outside the batch |
| OffloadSearch.AssignBits | PIMProfSolver/CostSolver.cpp:443-446 | in a batch without repeats, block batch[k] goes to PIM exactly when bit k of the counter is set |
| OffloadSearch.WriteBatch | PIMProfSolver/CostSolver.cpp:442-447 | the inner loop writes the batch from the bits of the counter as `Assign` says |
| OffloadSearch.PermuteDecision | PIMProfSolver/CostSolver.cpp:431-457 | only batch entries change; the result is no more than the cost of any of the 2^k assignments and is either FLT_MAX with the decision unchanged or the cost of the assignment kept; among equally cheap assignments the one with the largest counter is kept |
| OffloadSearch.FillInvalid | PIMProfSolver/CostSolver.cpp:783-795 | every INVALID block goes to its faster site (the CPU on a tie) and every decided block is kept |
| OffloadSearch.FillFromNothingIsGreedy | PIMProfSolver/CostSolver.cpp:783-795 | from an all-INVALID decision the fill gives the greedy decision |
| OffloadSearch.FlipSearch | PIMProfSolver/CostSolver.cpp:797-813 | the result is decided, its cost is the running total, and that total is never above the cost before the flips |
| OffloadSearch.Flip | PIMProfSolver/CostSolver.cpp:803 | the result is CPU or PIM, and for CPU or PIM it is the other site |
| OffloadSearch.FinishRound | PIMProfSolver/CostSolver.cpp:783-818 | the best cost never rises, and a new best is a decided decision whose cost it is |
| PinCostSolver.ParseU32 | PinInstrument/CostSolver.cpp:23-34 | a thread id read into a `uint32_t` is below 2^32 |
| PinCostSolver.ReadFields | PinInstrument/CostSolver.cpp:33-36 | the six fields read into the variables in order; the first failed field stores 0 and later ones keep their values (`PinCostSolver.ReadFieldsShow`, `PinCostSolver.ReadFieldsBadTid`) |
| PinCostSolver.Load | PinInstrument/CostSolver.cpp:32-48 | every line of a report read and inserted in order (`PinCostSolver.LoadKeeps`) |
| PinCostSolver.ReadStep | PinInstrument/CostSolver.cpp:33-47 | a PIM line from a thread other than 0 leaves the map as it was; any other line adds its hash to the keys; no other entry changes |
| PinCostSolver.PinDecision | PinInstrument/CostSolver.cpp:89-107 | the hash with every bit set goes to the CPU; otherwise PIM exactly when the PIM misses per thousand instructions exceed 10 and the instructions exceed the threshold |
| PinCostSolver.PinFieldsRead | PinInstrument/CostSolver.cpp:34-36 | at most six fields, and no more than there are tokens |
| PinCostSolver.ShowFieldsParse | PinInstrument/CostSolver.cpp:34-36 | each written field is one token that parses back to its value in its base |
| PinCostSolver.ReadFieldsShow | PinInstrument/CostSolver.cpp:33-36 | a line of the six fields separated by spaces reads back as those fields, whatever the variables held before |
| PinCostSolver.AllFieldsRead | PinInstrument/CostSolver.cpp:34-36 | six well-formed tokens are all read |
| PinCostSolver.ReadFieldsComplete | PinInstrument/CostSolver.cpp:33-36 | a line with six well-formed fields sets every variable from its token |
| PinCostSolver.ReadFieldsEmpty | PinInstrument/CostSolver.cpp:32-36 | an empty line leaves every variable as the previous line left it |
| PinCostSolver.ReadFieldsBadTid | PinInstrument/CostSolver.cpp:34 | a line whose first token is not a thread id reads nothing but sets the thread id to 0 |
| PinCostSolver.Inserted | PinInstrument/CostSolver.cpp:51-60 | the map gains the hash; a new hash gets the number of entries before it as id, a known one keeps its id; other entries are unchanged |
| PinCostSolver.InsertedDense | PinInstrument/CostSolver.cpp:51-60 | inserting keeps the ids 0 .. n-1, and adds the counters to the named site only |
| PinCostSolver.LoadKeeps | PinInstrument/CostSolver.cpp:32-48 | reading a report keeps ids dense; every entry keeps its id and the other site's counters |
| PinCostSolver.PimOtherThread | PinInstrument/CostSolver.cpp:46-47 | a PIM line of a thread other than 0 changes no entry |
| PinCostSolver.InitializedDense | PinInstrument/CostSolver.cpp:29-48 | after reading both reports the ids are dense and the hash (0, 0) is block 0 |
| PinCostSolver.InsertById | PinInstrument/CostSolver.cpp:64-66 | inserting keeps the list in ascending id order and adds exactly the hash |
| PinCostSolver.SortById | PinInstrument/CostSolver.cpp:64-66 | every hash of the map once, in ascending id order |
| PinCostSolver.IdAtLeast | PinInstrument/CostSolver.cpp:150-154 | in strictly ascending id order an entry's id is at least its position |
| PinCostSolver.IdAtMost | PinInstrument/CostSolver.cpp:150-154 | with as many entries as the map, an entry's id is at most its position |
| PinCostSolver.IdsAreIndices | PinInstrument/CostSolver.cpp:150-154 | with dense ids, entry i of the id-ordered list has id i, so the id check never fails |
| PinCostSolver.IdsInOrder | PinInstrument/CostSolver.cpp:150-154 | the check passes exactly when every listed entry's id is its position |
| PinCostSolver.Decide | PinInstrument/CostSolver.cpp:77-108 | one decision per entry by the MPKI rule, the CPU-only and PIM-only totals, and the MPKI time split into CPU and PIM parts that add up to it |
| PinCostSolver.MpkiSolution | PinInstrument/CostSolver.cpp:68-108 | the threshold is 1% of the PIM instruction total; the MPKI time equals the two elapsed totals of the decision |
| PinCostSolver.TotalsStep | PinInstrument/CostSolver.cpp:86-107 | one more entry adds its times to the running totals of the site it is decided on |
| PinCostSolver.SiteTotalPrefix | PinInstrument/CostSolver.cpp:79-108 | decisions beyond the entries read do not change the totals |
| PinCostSolver.PinSolver.constructor | PinInstrument/CostSolver.cpp:17-19 | an empty map |
| PinCostSolver.PinSolver.InsertBBLHash | PinInstrument/CostSolver.cpp:51-60 | the map becomes `Inserted` of the old map |
| PinCostSolver.PinSolver.Initialize | PinInstrument/CostSolver.cpp:17-49 | the global block (0, 0) as block 0, then every CPU line, then the PIM lines of thread 0; ids dense |
| PinCostSolver.PinSolver.ReadStep1 | PinInstrument/CostSolver.cpp:32-47 | one line read and inserted, as `ReadStep` says |
| PinCostSolver.PinSolver.PrintMPKISolution | PinInstrument/CostSolver.cpp:62-154 | the entries in id order, where entry i has id i; one MPKI decision per entry with the 1% threshold; the MPKI time is the decision's elapsed total; the id check passes |
| ZSimHooks.Code | LLVMAnalysis/PIMProfZSimHooks.cpp:10-18 | every operation number lies in 1025 .. 1032 |
| ZSimHooks.CodesDistinct | LLVMAnalysis/PIMProfZSimHooks.cpp:10-18 | two operations share a number exactly when they are the same operation |
| ZSimHooks.Call | LLVMAnalysis/PIMProfZSimHooks.cpp:64-96 | a failed process stays failed; a running call with mode 0 or 1 that keeps running emits exactly one event |
| ZSimHooks.Roi | LLVMAnalysis/PIMProfZSimHooks.cpp:103-114 | the scope stack is untouched |
| ZSimHooks.RegionEvents | LLVMAnalysis/PIMProfZSimHooks.cpp:45-52 | the PIM region beginnings and ends of a trace, no more of them than events |
| ZSimHooks.StartInv | LLVMAnalysis/PIMProfZSimHooks.cpp:61-62 | the initial state keeps the invariant |
| ZSimHooks.CallInv | LLVMAnalysis/PIMProfZSimHooks.cpp:64-96 | every call keeps the invariant: sentinel at the bottom, alternating decisions above it, and a PIM region open exactly when the innermost scope is PIM |
| ZSimHooks.EnterInv | LLVMAnalysis/PIMProfZSimHooks.cpp:71-82 | entering a block keeps the invariant |
| ZSimHooks.LeaveInv | LLVMAnalysis/PIMProfZSimHooks.cpp:83-94 | leaving a block keeps the invariant |
| ZSimHooks.RoiInv | LLVMAnalysis/PIMProfZSimHooks.cpp:103-114 | the region-of-interest hooks keep the invariant |
| ZSimHooks.EnterIff | LLVMAnalysis/PIMProfZSimHooks.cpp:66-82 | entering succeeds exactly when the decision is the toggle of the enclosing scope's, and then emits the switch to it |
| ZSimHooks.LeaveIff | LLVMAnalysis/PIMProfZSimHooks.cpp:83-94 | leaving succeeds exactly when the decision is the one on top of the stack |
| ZSimHooks.EnterLeave | LLVMAnalysis/PIMProfZSimHooks.cpp:64-96 | a block entered and left with the same decision leaves the stack as it was and emits the switch and the switch back |
| ZSimHooks.Hooks.constructor | LLVMAnalysis/PIMProfZSimHooks.cpp:61-62 | uninitialised scope, nothing emitted |
| ZSimHooks.Hooks.Offloader | LLVMAnalysis/PIMProfZSimHooks.cpp:64-96 | the state becomes `Call` of the old state and 0 is returned |
| ZSimHooks.Hooks.OffloaderNull | LLVMAnalysis/PIMProfZSimHooks.cpp:98-101 | returns 0 and changes nothing |
| ZSimHooks.Hooks.Offloader2 | LLVMAnalysis/PIMProfZSimHooks.cpp:103-114 | the state becomes `Roi` of the old state and 0 is returned |
| OffloaderInjection.ParseInt32 | LLVMAnalysis/OffloaderInjection.cpp:335 | a block id read by `ss >>` into an `int` is within the 32-bit range |
| OffloaderInjection.ParseLine | LLVMAnalysis/OffloaderInjection.cpp:328-359 | the key and decision the ten-field loop gives one line (`OffloaderInjection.ParseWellFormed`, `OffloaderInjection.ShortLineKeepsHash`) |
| OffloaderInjection.ReadFields | LLVMAnalysis/OffloaderInjection.cpp:333-358 | a failed stream stays failed; a stream that has not failed has moved past exactly the n fields read |
| OffloaderInjection.Load | LLVMAnalysis/OffloaderInjection.cpp:328-360 | the data lines stored in order, a later line overwriting an earlier one with the same key (`OffloaderInjection.LoadKeys`, `OffloaderInjection.LastLineWins`) |
| OffloaderInjection.FieldStep | LLVMAnalysis/OffloaderInjection.cpp:333-358 | a failed stream stays failed; a field read without failure consumed exactly one token |
| OffloaderInjection.ReadFieldsWellFormed | LLVMAnalysis/OffloaderInjection.cpp:333-358 | on a line whose numeric fields are well formed, the first n fields are all read and the block id, decision ("P" is PIM), parallel flag ("O" is 1), difference and the two hexadecimal hash halves hold their tokens' values |
| OffloaderInjection.ParseWellFormed | LLVMAnalysis/OffloaderInjection.cpp:328-359 | a well-formed line yields exactly its documented key and decision, whatever the variables held before |
| OffloaderInjection.ReadFieldsPos | LLVMAnalysis/OffloaderInjection.cpp:333-358 | the stream never gets ahead of the field loop, and while nothing failed it has consumed one token per field |
| OffloaderInjection.ShortLineKeepsHash | LLVMAnalysis/OffloaderInjection.cpp:332-359 | a line of fewer than nine tokens is stored under whatever the uninitialised hash variables held |
| OffloaderInjection.ReadFieldsUpTo8 | LLVMAnalysis/OffloaderInjection.cpp:333-350 | the first eight fields never touch the hash variables |
| OffloaderInjection.ShowInt | PIMProfSolver/CostSolver.cpp:342-351 | a signed decimal as `<<` writes it |
| OffloaderInjection.ShowIntIsWord | PIMProfSolver/CostSolver.cpp:342-351 | a written signed decimal is one token |
| OffloaderInjection.ShowIntReadsBack | PIMProfSolver/CostSolver.cpp:342-351 | a written signed decimal reads back as its value |
| OffloaderInjection.Signed64 | PIMProfSolver/CostSolver.cpp:349-351 | the `(int64_t)` cast of a hash half, within the signed 64-bit range |
| OffloaderInjection.WrittenRow | PIMProfSolver/CostSolver.cpp:338-353 | the eight columns of one row of the solver's decision file |
| OffloaderInjection.WrittenRowWords | PIMProfSolver/CostSolver.cpp:338-353 | each column of a written row is one token |
| OffloaderInjection.LetterIsWord | PIMProfSolver/Common.h:119-129 | every decision letter is one token |
| OffloaderInjection.WrittenRowKeepsHash | LLVMAnalysis/OffloaderInjection.cpp:328-359 | as written, every row the solver writes is stored under the hash the variables held before, whatever the block's hash |
| OffloaderInjection.ParseWrittenLine | LLVMAnalysis/OffloaderInjection.cpp:328-359 | the corrected reader: difference from column 5, hash from the signed columns 6 and 7; a line whose block id or numbers do not read is no row |
| OffloaderInjection.WrittenRowKeysBlock | PIMProfSolver/CostSolver.cpp:338-353 | every row the solver writes for block i reads back under that block's own hash, with its decision, id and difference |
| OffloaderInjection.TitleLineSkipped | PIMProfSolver/CostSolver.cpp:329-337 | the column-title line after the marker is no row for the corrected reader |
| OffloaderInjection.FirstAfterMarker | LLVMAnalysis/OffloaderInjection.cpp:323-326 | the data starts right after the first line containing "====", no earlier line contains it, and without one there are no data lines |
| OffloaderInjection.NoMarkerNoRows | LLVMAnalysis/OffloaderInjection.cpp:323-326 | a file without a marker line has no data lines |
| OffloaderInjection.LoadKeys | LLVMAnalysis/OffloaderInjection.cpp:328-360 | a hash is in the decision map exactly when it was there before or some data line yields it |
| OffloaderInjection.LastLineWins | LLVMAnalysis/OffloaderInjection.cpp:359 | a hash yielded by several lines keeps the decision of the last of them |
| OffloaderInjection.RoiOf | LLVMAnalysis/OffloaderInjection.cpp:311-321 | "CPUONLY" selects the CPU, "PIMONLY" the PIM, and nothing else selects either |
| OffloaderInjection.BlockMarkers | LLVMAnalysis/OffloaderInjection.cpp:135-185 | a block is annotated exactly when its hash is mapped to a PIM decision; it then gets one offload start and one offload end, the end at its start exactly when the CPU is the region of interest |
| OffloaderInjection.Found | LLVMAnalysis/OffloaderInjection.cpp:136-141 | no more blocks are found than there are |
| OffloaderInjection.AnnotatedFound | LLVMAnalysis/OffloaderInjection.cpp:136-186 | the insert count never exceeds the found count |
| OffloaderInjection.OffloadCodes | LLVMAnalysis/OffloaderInjection.cpp:47-48 | the offload codes of a marker sequence are no more than its markers |
| OffloaderInjection.OffloadCodesAppend | LLVMAnalysis/OffloaderInjection.cpp:47-48 | the offload codes of two runs one after the other are the codes of each, in order |
| OffloaderInjection.PimRunBalanced | LLVMAnalysis/OffloaderInjection.cpp:180-185 | with the PIM as region of interest, block markers alternate start, end, beginning with a start |
| OffloaderInjection.MainEntry | LLVMAnalysis/OffloaderInjection.cpp:253-263 | the region start comes first; the only offload code is one start, present exactly when the CPU is the region of interest |
| OffloaderInjection.MainExit | LLVMAnalysis/OffloaderInjection.cpp:265-279 | the region end comes last; the only offload code is one end, present exactly when the CPU is the region of interest |
| OffloaderInjection.BlockRun | LLVMAnalysis/OffloaderInjection.cpp:174-186 | two codes per annotated block: the run is twice as long as the insert count |
| OffloaderInjection.ProgramRun | LLVMAnalysis/OffloaderInjection.cpp:377-383 | the blocks' codes, plus four for `main` when the CPU is the region of interest, which then open with the region start and close with the region end |
| OffloaderInjection.CpuRunShape | LLVMAnalysis/OffloaderInjection.cpp:174-179 | with the CPU as region of interest, block markers alternate end, start, beginning with an end, in pairs |
| OffloaderInjection.CpuProgramCodes | LLVMAnalysis/OffloaderInjection.cpp:253-279 | with the CPU as region of interest the offload codes of a run of `main` are its own offload start, the blocks' codes, and its offload end |
| OffloaderInjection.ProgramRunBalanced | LLVMAnalysis/OffloaderInjection.cpp:174-185 | whichever site is the region of interest, the offload markers of a run of `main`, with its own markers, are balanced |
| OffloaderInjection.Offloader.constructor | LLVMAnalysis/OffloaderInjection.cpp:79-83 | empty decision map, counters at zero, region of interest unset |
| OffloaderInjection.Offloader.SelectRoi | LLVMAnalysis/OffloaderInjection.cpp:311-321 | the region of interest is the one the environment names, and the assertion holds exactly when one was named; nothing else changes |
| OffloaderInjection.Offloader.ReadLine | LLVMAnalysis/OffloaderInjection.cpp:329-358 | the loop over ten fields yields the key and decision of `ParseLine` |
| OffloaderInjection.Offloader.ReadDecisions | LLVMAnalysis/OffloaderInjection.cpp:322-360 | the decision map becomes the old one updated by every line after the marker, in order; nothing else changes |
| OffloaderInjection.Offloader.InjectBlock | LLVMAnalysis/OffloaderInjection.cpp:85-197 | a block is counted as found exactly when its hash is mapped, as not found otherwise, and as inserted exactly when it gets markers |
| OffloaderInjection.Offloader.InjectAll | LLVMAnalysis/OffloaderInjection.cpp:365-376 | every block is counted once, as found or not; the found and insert counts grow by `Found` and `Annotated`, and inserts never outnumber finds |
| OffloaderInjection.Offloader.InjectMain | LLVMAnalysis/OffloaderInjection.cpp:199-282 | with the CPU as region of interest `main` gets the region start then the offload start at entry and the offload end then the region end before each return; otherwise nothing |
| CfgHeatmap.ParseRow | util/cfgheatmap.py:107-110 | a row parses only with at least three tokens; the decision is token 1 and the difference the third token from the end read as a float; a row the solver writes reads back as its own decision and difference (`CfgHeatmap.ParseWrittenRow`) |
| CfgHeatmap.ShowIntReadsAsReal | util/cfgheatmap.py:110 | an integer printed in decimal, sign included, reads back under `float` as that number |
| CfgHeatmap.ParseWrittenRow | util/cfgheatmap.py:107-110 | a decision row as the solver writes it (PIMProfSolver/CostSolver.cpp:338-353) parses to its cost site's letter and the difference cpu - pim |
| CfgHeatmap.BlockLines | util/cfgheatmap.py:106 | the first seven lines are skipped; a shorter file has no block lines |
| CfgHeatmap.ParseAll | util/cfgheatmap.py:106-110 | one parse per row, in order |
| CfgHeatmap.Collect | util/cfgheatmap.py:109-110 | collected columns, when they exist, have one entry per row |
| CfgHeatmap.Columns | util/cfgheatmap.py:102-110 | the decision and difference columns have one entry per block line |
| CfgHeatmap.CollectAt | util/cfgheatmap.py:109-110 | entry i of the collected columns is the parse of row i |
| CfgHeatmap.CollectNone | util/cfgheatmap.py:109-110 | collecting fails only at a row that failed to parse |
| CfgHeatmap.CollectStep | util/cfgheatmap.py:106-110 | each row appends its parse to both columns, or the loop stops with an error |
| CfgHeatmap.ColumnsAt | util/cfgheatmap.py:106-110 | row i of the columns is the parse of block line i |
| CfgHeatmap.ColumnsIff | util/cfgheatmap.py:106-110 | the columns exist exactly when every block line has its fields |
| CfgHeatmap.Range | util/cfgheatmap.py:113-115 | -1 for either bound selects every block; otherwise the bounds are kept |
| CfgHeatmap.Clamp | util/cfgheatmap.py:57-58 | a Python slice index lands within the sequence |
| CfgHeatmap.Slice | util/cfgheatmap.py:57-58 | a slice inside the sequence is the subsequence |
| CfgHeatmap.Repeat | util/cfgheatmap.py:57-58 | `[x] * n` has max(n, 0) copies of x |
| CfgHeatmap.PadCount | util/cfgheatmap.py:57-58 | fewer than ten padding cells |
| CfgHeatmap.PaddedLength | util/cfgheatmap.py:57-58 | a range inside the columns pads to whole rows of ten: at least the range and less than a row more |
| CfgHeatmap.CostSlice | util/cfgheatmap.py:57 | for a range inside the column: the range's values in order, then zeros |
| CfgHeatmap.DecisionSlice | util/cfgheatmap.py:58 | for a range inside the column: the range's decisions in order, then empty strings |
| CfgHeatmap.Abs | util/cfgheatmap.py:64 | the magnitude is non-negative and is the value or its negation |
| CfgHeatmap.ScaledValue | util/cfgheatmap.py:64 | within one of zero a block is plotted at zero; beyond, at minus the sign times its decades |
| CfgHeatmap.Scaled | util/cfgheatmap.py:64 | a non-zero plotted value comes from a difference of more than one in magnitude |
| CfgHeatmap.YTicks | util/cfgheatmap.py:70 | for a non-empty range, one tick per row of ten: (ub - lb) / 10 + 1 |
| CfgHeatmap.Label | util/cfgheatmap.py:66 | the label is "PIM" exactly for a "P" decision, empty otherwise |
| CfgHeatmap.Reshape | util/cfgheatmap.py:67-68 | rows of ten exist exactly when the length is a multiple of ten, and hold every cell |
| CfgHeatmap.ReshapeAt | util/cfgheatmap.py:67-68 | row i is the i-th run of ten cells |
| CfgHeatmap.ReshapeLength | util/cfgheatmap.py:67-68 | q runs of ten reshape into q rows |
| CfgHeatmap.MaxAbs | util/cfgheatmap.py:74 | defined exactly on a non-empty slice, and bounds the magnitude of every cell |
| CfgHeatmap.MaxAbsAttained | util/cfgheatmap.py:74 | some cell has the largest magnitude |
| CfgHeatmap.ScaledAll | util/cfgheatmap.py:64 | every cell scaled, in order |
| CfgHeatmap.LabelAll | util/cfgheatmap.py:66 | every cell labelled, in order |
| CfgHeatmap.PaddedAt | util/cfgheatmap.py:57-66 | cell k of the padded, scaled and labelled slices is block lb + k within the range and padding (0 and "") after it |
| CfgHeatmap.HeatmapOf | util/cfgheatmap.py:53-81 | for a range inside the columns every step of `heatmap` succeeds and yields rows of ten with the colour limit of the scaled cells |
| CfgHeatmap.Heatmap | util/cfgheatmap.py:53-81 | the scaled and labelled slices reshaped into rows of ten with the colour limit, or failure (`CfgHeatmap.HeatmapOf`, `CfgHeatmap.HeatmapLimit`) |
| CfgHeatmap.HeatmapShape | util/cfgheatmap.py:57-70 | the grid has as many rows as y tick labels, row i being the i-th ten scaled and labelled cells |
| CfgHeatmap.ReshapeMaxAbs | util/cfgheatmap.py:67-74 | the largest magnitude bounds every cell of the rows and is reached by one |
| CfgHeatmap.HeatmapLimit | util/cfgheatmap.py:74-77 | the colour limit bounds every cell of the grid and some cell reaches it |
| CfgHeatmap.SentinelCoversAll | util/cfgheatmap.py:113-117 | with the -1 sentinel the grid covers every block of the report |
| CfgHeatmap.EmptyReportFails | util/cfgheatmap.py:74 | a report without block lines fails at the colour limit |
| CfgHeatmap.Proc | util/cfgheatmap.py:94-117 | a report with a malformed block line fails; otherwise the result is the heatmap of its columns over the selected range |
| CfgHeatmap.Ceil | util/cfgheatmap.py:28 | the ceiling is the least integer not below its argument |
| CfgHeatmap.FadeByte | util/cfgheatmap.py:27-33 | a fading channel is a byte |
| CfgHeatmap.Hex2 | util/cfgheatmap.py:38 | two lower-case hexadecimal digits whose value is the channel |
| CfgHeatmap.Color | util/cfgheatmap.py:21-38 | a colour is "#" and six characters |
| CfgHeatmap.Fade | util/cfgheatmap.py:27-33 | 255 minus the ceiling of the capped logarithmic share; a byte (`CfgHeatmap.FadeByte`) |
| CfgHeatmap.Rgb | util/cfgheatmap.py:21-37 | red for differences of at least 1, green for at most -1, white between (`CfgHeatmap.RgbBytes`, `CfgHeatmap.ColorChannels`) |
| CfgHeatmap.RgbBytes | util/cfgheatmap.py:21-37 | each channel is a byte |
| CfgHeatmap.ColorReadsBack | util/cfgheatmap.py:38 | the three hexadecimal pairs of the colour read back as its channels |
| CfgHeatmap.ColorChannels | util/cfgheatmap.py:25-37 | a PIM-friendly block is full red with equal green and blue, a CPU-friendly one full green with equal red and blue, and the band between is white |
| CfgHeatmap.ColorMonotone | util/cfgheatmap.py:25-29 | the more PIM-friendly, the less green and blue, none from the maximum on |
| CsvDecision.StrLeTotal | util/csvdecision.py:9 | any two names are ordered one way or the other |
| CsvDecision.StrLeTrans | util/csvdecision.py:9 | the name order is transitive |
| CsvDecision.Insert | util/csvdecision.py:9 | inserting into a sorted list keeps it sorted and adds exactly the name |
| CsvDecision.Sort | util/csvdecision.py:9 | the names come out sorted and are a permutation of the names given |
| CsvDecision.FileNames | util/csvdecision.py:8 | a name is listed exactly when the directory holds a regular file of that name |
| CsvDecision.Remove | util/csvdecision.py:8-10 | the names other than the one removed, and the list unchanged when it was absent |
| CsvDecision.CostFiles | util/csvdecision.py:8-10 | every regular file except the table itself, sorted |
| CsvDecision.CostFilesAsWritten | util/csvdecision.py:8-9 | every regular file, the table of an earlier run included, sorted |
| CsvDecision.Line | util/csvdecision.py:24-47 | `readline()` past the end of a file reads an empty line |
| CsvDecision.Workload | util/csvdecision.py:14 | the workload is the file name without its last four characters, or empty for a shorter name |
| CsvDecision.TokenLines | util/csvdecision.py:24-43 | the whitespace-separated tokens of each of the first six lines |
| CsvDecision.RowsOf | util/csvdecision.py:15-47 | a report yields its rows exactly when lines 1 and 2 have a fifth token and lines 4 to 6 a seventeenth, and then five rows |
| CsvDecision.Template | util/csvdecision.py:14-21 | five rows of six cells; the workload name heads the first row only; every row has a title and no figures |
| CsvDecision.Summary | util/csvdecision.py:31-47 | six cells: empty, the title, then tokens 7, 10, 13 and 16 |
| CsvDecision.FileRows | util/csvdecision.py:15-47 | a report that yields rows has at least six lines and yields five rows |
| CsvDecision.FileRowsShape | util/csvdecision.py:14-21 | five rows of six cells labelled CPU-only, PIM-only, MPKI, Greedy and Opt, the workload name on the first only |
| CsvDecision.Line3Ignored | util/csvdecision.py:30 | the third line of a report plays no part |
| CsvDecision.TrailingLinesIgnored | util/csvdecision.py:23-47 | lines after the sixth play no part |
| CsvDecision.FillSummary | util/csvdecision.py:31-47 | a summary row gets tokens 7, 10, 13 and 16 in its CPU, PIM, Reuse and Switch cells, its label cells kept and the other rows unchanged |
| CsvDecision.ProcessFile | util/csvdecision.py:13-47 | filling the template cell by cell succeeds exactly when the report has its fields, and then gives `FileRows` |
| CsvDecision.Render | util/csvdecision.py:11-12 | one comma-separated line per row written |
| CsvDecision.RenderRow | util/csvdecision.py:11 | the line starts with the first cell's text; a row of empty cells is its commas alone, one fewer than its cells |
| CsvDecision.MakeTable | util/csvdecision.py:7-49 | the table is the header followed by the run over the cost files in name order |
| CsvDecision.Run | util/csvdecision.py:13-49 | the reports read in order, five rows each appended; stops at the first report that raises (`CsvDecision.RunKeeps`, `CsvDecision.RunFinished`) |
| CsvDecision.MakeTableAsWritten | util/csvdecision.py:7-49 | the table as written, with the listing taken before `decision.csv` is opened (`CsvDecision.RerunFails`) |
| CsvDecision.RunKeeps | util/csvdecision.py:13-49 | rows already written stay at the head of the table, whether or not the run finishes |
| CsvDecision.Reports | util/csvdecision.py:13-47 | what each listed report yields, in order |
| CsvDecision.TablesCons | util/csvdecision.py:13-49 | the rows of a list of reports are those of the first followed by those of the rest |
| CsvDecision.RunFinished | util/csvdecision.py:13-49 | a finished run read every report successfully and appended all their rows, in order |
| CsvDecision.FlattenLength | util/csvdecision.py:49 | reports of five rows each give five rows per report |
| CsvDecision.FlattenAt | util/csvdecision.py:49 | the rows of report i are rows 5i to 5i+4 |
| CsvDecision.FlattenCell | util/csvdecision.py:49 | row m is row m % 5 of report m / 5 |
| CsvDecision.TablesRow | util/csvdecision.py:14-49 | row m of the reports' rows has six cells and the workload name of report m / 5 exactly on the first of its five |
| CsvDecision.TableLayout | util/csvdecision.py:10-49 | a finished table is the header, then five six-cell rows per report in name order, the workload name on the first of each five |
| CsvDecision.RenderRowNoSpace | util/csvdecision.py:49 | cells without blanks are written as a line without blanks |
| CsvDecision.HeaderOneToken | util/csvdecision.py:12 | the header line is a single token |
| CsvDecision.RunFailsOnTable | util/csvdecision.py:10-32 | once the header is written, reading the table itself as a report stops the run with an error |
| CsvDecision.RerunFails | util/csvdecision.py:8-10 | as written, a directory that holds the table of an earlier run makes the script fail |
| CsvDecision.FirstRunAgrees | util/csvdecision.py:8-10 | without an earlier table the script as written and the corrected one produce the same table |
| CsvDecision.ContentWithTable | util/csvdecision.py:23 | a stale table in the listing changes no other file's content |
| CsvDecision.RemoveAppend | util/csvdecision.py:8-10 | removing the table name from a list ending in it is removing it from the rest |
| CsvDecision.FileNamesAppend | util/csvdecision.py:8 | one more listing entry adds its name exactly when it is a regular file |
| CsvDecision.RunSameFiles | util/csvdecision.py:13-49 | the run depends only on the contents of the files it reads |
| CsvDecision.StaleTableIgnored | util/csvdecision.py:8-10 | corrected, a stale table from an earlier run does not change the table written |

## Left out

- Fixed-width integers are unbounded in the model. This covers `ADDRINT`, the `CACHE_STATS` counters and the `uint64_t` counters of the statistics. Wrap-around is modelled only where the cache geometry depends on it (`StorageConfig.GeometryAsWritten`, `StorageSets.IsPower2`).
- `COST` is a `double` in the source and an integer here. The model therefore has no rounding, infinities or NaN.
- Stats.ThreadStats.AddTimeInstruction: takes the elapsed time already in nanoseconds. The femtosecond-to-nanosecond division by 1e6 (PIMProfSolver/Stats.h:267-272) is a floating-point step and is not modelled.
- OffloadSearch.Mpki: the 1% instruction threshold is the integer comparison `instructions > total / 100`. For integer counts this is the same as the source's `instructions > total * 0.01`, apart from floating-point rounding.
- PinCostSolver.Decide: the miss-rate test is `misses * 1000 > 10 * instructions`. This is the source's floating-point division, multiplied out.
- The cost of a memory access and of an instruction fetch is not modelled: `MEMORY_LEVEL::AddMemCost`, `AddInstructionMemCost` and the cost bookkeeping of `Storage.cpp:184-211`, 231-249, 266-271 and 342-371. They multiply floating-point costs by SIMD factors, and the model tracks hits, misses and cache contents instead.
- `PrintReuseStats` is modelled from its fill, flip and minimum steps (`OffloadSearch.FillInvalid`, `OffloadSearch.FlipSearch`, `OffloadSearch.FinishRound`). Its batch construction, with the partial trie and the choice of blocks by switch count (`PIMProfSolver/CostSolver.cpp:713-778`), is not modelled. The exhaustive search over a batch is modelled for a given batch of fewer than 64 blocks (`OffloadSearch.PermuteDecision`).
- The per-thread `ElapsedTime(tid)` getter of `ThreadBBLStats` is a plain field read and has no member.
- The switch-cost formula is not visible in the core files, so `CostModel` takes it as a parameter function.
- Trailing text after the fields a report line needs is ignored, as `>>` ignores it.
- Python's `float` also accepts `inf`, `nan`, underscores and Unicode whitespace. These are not modelled: `Text.ParseReal` reads plain decimal reals, and `Text.Tokens` splits on ASCII whitespace only.
- `log10` is a parameter, constrained only by the facts the colours depend on (`CfgHeatmap.IsLog10`).
- Text.Show: writes the shortest numeral. The writers' column widths and zero padding (PIMProfSolver/Stats.h:379-397) are not modelled, so the report round trips (`CostSolver.ParseRowShow`, `PinCostSolver.ShowFieldsParse`) are stated for unpadded output.
- Plotting and graph drawing are not modelled. This covers `sb.heatmap`, the colour bar, saving the figure, the Graphviz output and the disabled `cfgheatmap` function. `CfgHeatmap.Proc` returns the grid `heatmap` would draw.
- CfgHeatmap.HeatmapShape: states each grid row as a slice of the scaled and labelled cells. The cell-by-cell reading of that slice is given separately by `CfgHeatmap.PaddedAt`.
- Printing is not modelled:
  - `PrintStats`, `StatsLong`, `WriteStats`, `PrintDotGraph`, `PrintAllSegments`, `PrintBBLSwitchCount`;
  - the formatting of `PrintDecision` and `PrintSolution`;
  - the output of the `ThreadStats` destructor;
  - `AddOffloadingTime`, `AddCPUTime` and `PrintPIMTime`.
  The decisions and totals these print are modelled.
- CsvDecision.Render: joins cells with commas without CSV quoting. The cells the script writes are tokens without blanks (`CsvDecision.RenderRowNoSpace`).
- File buffering, opening and closing, and command-line parsing are not modelled. Files are sequences of lines, and a directory is a listing of named entries.
- The rewriting of LLVM IR is not modelled. `OffloaderInjection` computes which markers go at the start of a block, before its terminator, at the entry of `main` and before its returns. It does not model the instructions inserted, the MurmurHash3 hash of a block's text or the annotated module that is printed.
- The assertion that the decision-file variable is set, and reading a missing file, are not modelled: the decision file is given as its lines.
- The assertions that the input files opened (`PIMProfSolver/CostSolver.cpp:47-49`) are not modelled, because files are given as their lines.
- OffloaderInjection.BlockRun: a run is a sequence of whole blocks. Calls out of a block body, which nest one block's markers inside another's, are not modelled.
- The inline assembly of the magic operations and the `printf` of the hooks are not modelled. A magic operation is an event appended to a trace.
- PinCostSolver.PinSolver.Initialize: a block that only one report lists keeps the zero counters of `BBLStatsPair()` on the other site, as the source's default construction gives.
- The Pin solver's global block (0, 0) and the hash with every bit set are two different keys in the source (`PinInstrument/CostSolver.cpp:30` and 90-91). The model keeps them apart as written.
- OffloaderInjection.Load: the pass as modelled reads the ten-field layout its source reads. The corrected reader of the solver's eight-column layout (`OffloaderInjection.ParseWrittenLine`, see "Findings") is proved on single rows and is not wired into `OffloaderInjection.Offloader.ReadDecisions`.
- CsvDecision.FileRows: the cells taken from each report are exactly its tokens. The model does not check that they are numbers, as the script does not.
- Text.ParseDec: reads a field only when the whole token is a numeral. `>>` takes the longest numeric prefix and leaves the rest for the next read ("12P" gives 12 and then "P"), and in C++11 it stores the largest or smallest value on overflow. The model gives a failed read in both cases. Only malformed or out-of-range tokens are affected.
- Text.ParseNat: as `Text.ParseDec`. In addition, `>>` into an unsigned field accepts a leading `-` and wraps the value ("-1" gives the largest value); the model rejects such a token.
- Text.ParseHex64: as `Text.ParseDec`, for the hexadecimal prefix; on overflow `>>` stores 2^64 - 1, where the model fails the read.
- Text.ParseReal: reads the whole token, where `>>` into a `double` reads the longest numeric prefix. Only malformed tokens are affected.
- PinCostSolver.ParseU32: reads the whole token as at most 2^32 - 1. `>>` into a `uint32_t` takes a numeric prefix, wraps a leading `-` and stores 2^32 - 1 on overflow. Only malformed or out-of-range tokens are affected.
- OffloaderInjection.ParseInt32: reads the whole token within the `int` range. `>>` takes a numeric prefix and stores the `int` limits on overflow. Only malformed or out-of-range tokens are affected.
- CostSolver.ParseRow: inherits the whole-token reads above, so a row with a malformed or out-of-range field may read differently from the source from that field on.
- CostSolver.ParseRow: reads the time column as the source does, into a `double` (`Text.ParseReal`), and then keeps its floor, because `COST` is an integer here. The fraction of a nanosecond is dropped. A negative time stays negative, so `CostSolver.FoldOk` fails on the same rows as the source's assertion.
- PinCostSolver.ReadFields: inherits the whole-token reads above, with the same difference on malformed or out-of-range fields.
- OffloaderInjection.FieldStep: inherits the whole-token reads above, with the same difference on malformed or out-of-range fields.
- Stats.ThreadStats.BBLEnd: a block end that does not match the innermost open block is a precondition. The source prints a diagnostic and aborts on its assertion (PIMProfSolver/Stats.h:217-221); that path is not modelled, and neither is popping the global block.
- Stats.ThreadStats.OffloadEnd: an offload end whose decision does not match the innermost offload flag is a precondition. The source prints a diagnostic and aborts on its assertion (PIMProfSolver/Stats.h:248-251); that path is not modelled, and neither is popping the outermost offload flag, which the source does on an unchecked `pop_back` (its behaviour then is undefined).
- Storage.Storage.DataCacheRef: states, per site, the counters of the top D-cache and that the other site is untouched. The set contents, the tag-to-segment map and the trie after it follow from `Storage.Storage.Access`, which states them as `Storage.LinesEffect`; the two sites' folds are not composed into one ensures.
- Storage.Storage.DataCacheRefSite: as `Storage.Storage.DataCacheRef`, for one site.
- Storage.Storage.InstrCacheRef: states the fetched lines' counts and the last line fetched; the set contents and the reuse bookkeeping of each fetched line are those `Storage.Storage.AccessSingleLine` states, and are not folded over the fetched lines.
- OffloadSearch.PermuteDecision: counts down from 2^k - 1 for every batch size below 64, as the source's assertion admits. The source computes that start as `(1 << cur_batch_size) - 1` on a 32-bit `int` (PIMProfSolver/CostSolver.cpp:439), which overflows at 31 blocks and is undefined from 32 to 63 blocks. The model does not reproduce the overflow. The solver skips every segment of 10 or more blocks before it searches (PIMProfSolver/CostSolver.cpp:70, 638, 737), and its batches stay far below 31 blocks, where the two agree.
- Stats.ThreadStats.InsertSegOnHit: a segment's blocks are arena indices of the block statistics, kept in allocation order. The source's segment holds `BBLStats*` ordered by address (PIMProfSolver/Stats.h:287-300). The set of blocks and the count are the same, so the reuse cost is unaffected. The order of the keys along a trie path can differ.
- Stats.ThreadStats.SplitSegOnMiss: pushes segments ordered as in `Stats.ThreadStats.InsertSegOnHit`, with the same difference.

## Findings

| source | as written | input that shows it | evidently intended | confidence | as-written member | corrected member |
|---|---|---|---|---|---|---|
| PIMProfSolver/Common.h:119-129 | `getCostSiteString` indexes its seven-letter table with the enumerator's value | `DEFAULT` (0x0fffffff) or `INVALID` (0x3fffffff) reads far past the table | one letter per site, by declaration order | not executed | Common.CostSiteStringAtOutOfBounds | Common.GetCostSiteString |
| PIMProfSolver/Storage.cpp:300-308 | `Flush` starts its loop at `NumSets()` and reads `_sets[NumSets()]` | any cache level: the first index read is one past its last set | every set from the last one down to 0 | not executed | Storage.FlushReadsPastEnd | Storage.Storage.FlushLevel |
| PIMProfSolver/Storage.cpp:506-515 | when IL1 is the last level configured, no next level is set for it | a configuration with only an IL1 section: IL1 misses are forwarded to an unset level | the last configured level leads to memory | not executed | StorageConfig.IL1OnlyUnconnected | StorageConfig.ChainReachesMemory |
| PIMProfSolver/Storage.cpp:129-141 | the set count is `cachesize / setbytes` in 32-bit arithmetic, with no check that it is at least one | cache size 32 with a line size of 64: the mask wraps to 2^32 - 1, `NumSets()` is 0, and 0 passes the power-of-two assertion | a cache holds at least one set | not executed | StorageConfig.EmptyCacheAccepted | StorageConfig.Geometry |
| PIMProfSolver/CostSolver.h:50-77 | `MergeStats` writes a thread's time into the sorted copy at the thread's index, after an earlier sort moved that slot | time 5 from thread 0 and then 1 from thread 1; `MaxElapsedTime` is read and sorts the copy to [1, 5]; then thread 1 reports 2, which overwrites slot 1. The per-thread times are [5, 2] but the maximum read is 2. The defect is latent in the solver as written: `Initialize` reads both reports (PIMProfSolver/CostSolver.cpp:50-51) before any maximum is read | the maximum is the slowest thread's time, 5 | not executed | ThreadRuns.SecondReportAsWritten | ThreadRuns.SecondReport |
| LLVMAnalysis/OffloaderInjection.cpp:328-359 | the pass takes the difference from column 7 and reads the hash in hexadecimal from columns 8 and 9; the solver's decision rows have eight columns, with the hash as signed decimals in columns 6 and 7 (PIMProfSolver/CostSolver.cpp:338-353) | any row the solver writes: reading stops before the hash, so the row is stored under whatever the hash variables held. The column-title line after the marker is read as a row too | each row is stored under its own block's hash, and the title line is skipped | not executed | OffloaderInjection.WrittenRowKeepsHash | OffloaderInjection.WrittenRowKeysBlock |
| util/csvdecision.py:8-10 | the files are listed before `decision.csv` is opened, so the table of an earlier run is read as a report | a directory that already holds `decision.csv`: its header line has one token, and `line[4]` raises an error | the table is not one of the reports | not executed | CsvDecision.RerunFails | CsvDecision.StaleTableIgnored |
