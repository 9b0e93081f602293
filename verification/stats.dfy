/**
 * Per-thread profiling statistics: the counters of one basic block, the
 * nesting stacks of blocks and of offload decisions a thread keeps while
 * it runs, its block-switch matrix and reuse segments, and the merge of
 * all threads' counters into one map on which block ids are agreed.
 *
 * A `BBLStats *` of the source is an index into the thread's arena
 * `stats`; the hash map from block hash to pointer maps a hash to its
 * index. Elapsed time is a `double` in the source and an integer here.
 */
module Stats {
  import opened Common
  import DR = DataReuse

  /** The counters of one basic block. */
  datatype BBLStats = BBLStats(
    bblid: int,
    bblhash: UUID,
    elapsedTime: int,
    instructionCount: nat,
    memoryAccess: nat)

  /** `BBLStats(bblid, bblhash)`: a block with every counter at zero. */
  function NewBBLStats(bblid: int, bblhash: UUID): (r: BBLStats)
    ensures r.bblid == bblid && r.bblhash == bblhash
    ensures r.elapsedTime == 0 && r.instructionCount == 0 && r.memoryAccess == 0
  {
    BBLStats(bblid, bblhash, 0, 0, 0)
  }

  /** `MergeStats`: adds the counters of rhs; the id and hash stay those of s. */
  function MergeStats(s: BBLStats, rhs: BBLStats): (r: BBLStats)
    ensures r.bblid == s.bblid && r.bblhash == s.bblhash
  {
    s.(elapsedTime := s.elapsedTime + rhs.elapsedTime,
       instructionCount := s.instructionCount + rhs.instructionCount,
       memoryAccess := s.memoryAccess + rhs.memoryAccess)
  }

  /** Merging into a fresh entry copies the counters. */
  lemma MergeIntoNew(bblid: int, h: UUID, x: BBLStats)
    ensures MergeStats(NewBBLStats(bblid, h), x) == x.(bblid := bblid, bblhash := h)
  {
  }

  /** The order in which two blocks are merged in does not matter. */
  lemma MergeCommutes(s: BBLStats, a: BBLStats, b: BBLStats)
    ensures MergeStats(MergeStats(s, a), b) == MergeStats(MergeStats(s, b), a)
  {
  }

  /** Every entry is stored under its own hash. */
  predicate KeyedByHash(m: map<UUID, BBLStats>)
  {
    forall h | h in m :: m[h].bblhash == h
  }

  // ---------------------------------------------------------------------
  // Sorting by hash
  // ---------------------------------------------------------------------

  predicate UuidsAscending(s: seq<UUID>)
  {
    forall i, j | 0 <= i < j < |s| :: UuidLess(s[i], s[j])
  }

  /** x placed into an ascending sequence that does not hold it. */
  function InsertUuid(s: seq<UUID>, x: UUID): (r: seq<UUID>)
    requires UuidsAscending(s) && x !in s
    ensures UuidsAscending(r) && |r| == |s| + 1
    ensures forall y :: y in r <==> y in s || y == x
  {
    if s == [] then [x]
    else if UuidLess(x, s[0]) then [x] + s
    else
      UuidLessTotal(x, s[0]);
      var rest := InsertUuid(s[1..], x);
      var r := [s[0]] + rest;
      assert forall k | 0 <= k < |rest| :: UuidLess(s[0], rest[k]) by {
        forall k | 0 <= k < |rest| ensures UuidLess(s[0], rest[k]) {
          assert rest[k] in rest;
        }
      }
      r
  }

  /** The hashes of a key set in ascending order. */
  method SortedHashes(keys: set<UUID>) returns (s: seq<UUID>)
    ensures UuidsAscending(s) && |s| == |keys|
    ensures forall h :: h in s <==> h in keys
  {
    s := [];
    var rest := keys;
    while rest != {}
      invariant rest <= keys && UuidsAscending(s) && |s| + |rest| == |keys|
      invariant forall h :: h in s <==> h in keys && h !in rest
      decreases |rest|
    {
      var h :| h in rest;
      s := InsertUuid(s, h);
      rest := rest - {h};
    }
  }

  predicate HashesAscending(s: seq<BBLStats>)
  {
    forall i, j | 0 <= i < j < |s| :: UuidLess(s[i].bblhash, s[j].bblhash)
  }

  /**
   * `SortStatsMap`: every entry of the map once, in ascending hash order
   * (pointers in the source, so the entries are the map's own).
   */
  method SortStatsMap(statsmap: map<UUID, BBLStats>) returns (sorted: seq<BBLStats>)
    requires KeyedByHash(statsmap)
    ensures |sorted| == |statsmap| && HashesAscending(sorted)
    ensures forall k | 0 <= k < |sorted| ::
      sorted[k].bblhash in statsmap && statsmap[sorted[k].bblhash] == sorted[k]
    ensures forall h | h in statsmap :: statsmap[h] in sorted
  {
    var keys := SortedHashes(statsmap.Keys);
    sorted := seq(|keys|, k requires 0 <= k < |keys| => statsmap[keys[k]]);
    forall h | h in statsmap ensures statsmap[h] in sorted {
      var k :| 0 <= k < |keys| && keys[k] == h;
      assert sorted[k] == statsmap[h];
    }
  }

  /**
   * `GenerateBBLID` (a thread method that reads no thread state): the
   * merged map's blocks are numbered 0, 1, ... in ascending hash order;
   * nothing but the ids changes.
   */
  method GenerateBBLID(statsmap: map<UUID, BBLStats>) returns (out: map<UUID, BBLStats>)
    requires KeyedByHash(statsmap)
    ensures out.Keys == statsmap.Keys && KeyedByHash(out)
    ensures forall h | h in out :: out[h] == statsmap[h].(bblid := out[h].bblid)
    ensures forall h | h in out :: 0 <= out[h].bblid < |out|
    ensures forall h1, h2 | h1 in out && h2 in out :: UuidLess(h1, h2) <==> out[h1].bblid < out[h2].bblid
  {
    var sorted := SortStatsMap(statsmap);
    out := statsmap;
    for i := 0 to |sorted|
      invariant out.Keys == statsmap.Keys
      invariant forall h | h in out :: out[h] == statsmap[h].(bblid := out[h].bblid)
      invariant forall k | 0 <= k < i :: out[sorted[k].bblhash].bblid == k
    {
      out := out[sorted[i].bblhash := out[sorted[i].bblhash].(bblid := i)];
    }
    assert |out| == |out.Keys| == |statsmap.Keys| == |statsmap|;
    IdsAreRanks(statsmap, sorted, out);
  }

  /** Numbering the hashes by their position in ascending order keeps their order. */
  lemma IdsAreRanks(statsmap: map<UUID, BBLStats>, sorted: seq<BBLStats>, out: map<UUID, BBLStats>)
    requires KeyedByHash(statsmap) && out.Keys == statsmap.Keys && HashesAscending(sorted)
    requires forall h | h in statsmap :: statsmap[h] in sorted
    requires forall k | 0 <= k < |sorted| :: sorted[k].bblhash in out && out[sorted[k].bblhash].bblid == k
    ensures forall h | h in out :: 0 <= out[h].bblid < |sorted|
    ensures forall h1, h2 | h1 in out && h2 in out :: UuidLess(h1, h2) <==> out[h1].bblid < out[h2].bblid
  {
    forall h | h in out ensures exists k | 0 <= k < |sorted| :: sorted[k].bblhash == h {
      var k :| 0 <= k < |sorted| && sorted[k] == statsmap[h];
    }
    forall h1, h2 | h1 in out && h2 in out
      ensures UuidLess(h1, h2) <==> out[h1].bblid < out[h2].bblid
    {
      var k1 :| 0 <= k1 < |sorted| && sorted[k1].bblhash == h1;
      var k2 :| 0 <= k2 < |sorted| && sorted[k2].bblhash == h2;
      UuidLessTotal(h1, h2);
    }
  }

  // ---------------------------------------------------------------------
  // Merging the threads' maps
  // ---------------------------------------------------------------------

  /** The entry a merge starts from: the existing one, or a fresh one with the global id. */
  function MergeBase(m: map<UUID, BBLStats>, h: UUID): BBLStats
  {
    if h in m then m[h] else NewBBLStats(GLOBAL_BBLID, h)
  }

  /** A thread's blocks merged into the shared map. */
  function MergeMap(m: map<UUID, BBLStats>, local: map<UUID, BBLStats>): (r: map<UUID, BBLStats>)
    ensures r.Keys == m.Keys + local.Keys
    ensures KeyedByHash(m) ==> KeyedByHash(r)
  {
    map h | h in m.Keys + local.Keys :: if h in local then MergeStats(MergeBase(m, h), local[h]) else m[h]
  }

  /** The entries of local whose hashes are in keys. */
  function Restrict(local: map<UUID, BBLStats>, keys: set<UUID>): (r: map<UUID, BBLStats>)
    ensures r.Keys == local.Keys * keys
  {
    map h | h in local && h in keys :: local[h]
  }

  /** Merging one more of the thread's blocks changes only that block's entry. */
  lemma MergeMapAdd(m: map<UUID, BBLStats>, local: map<UUID, BBLStats>, done: set<UUID>, h: UUID)
    requires h in local && h !in done
    ensures var before := MergeMap(m, Restrict(local, done));
      MergeMap(m, Restrict(local, done + {h})) == before[h := MergeStats(MergeBase(before, h), local[h])]
  {
    var before := MergeMap(m, Restrict(local, done));
    var after := MergeMap(m, Restrict(local, done + {h}));
    var want := before[h := MergeStats(MergeBase(before, h), local[h])];
    assert MergeBase(before, h) == MergeBase(m, h);
    forall k | k in after ensures after[k] == want[k] {
    }
    assert after.Keys == want.Keys;
  }

  /** The shared map does not depend on the order in which threads are merged. */
  lemma MergeMapCommutes(m: map<UUID, BBLStats>, a: map<UUID, BBLStats>, b: map<UUID, BBLStats>)
    ensures MergeMap(MergeMap(m, a), b) == MergeMap(MergeMap(m, b), a)
  {
    var ab, ba := MergeMap(MergeMap(m, a), b), MergeMap(MergeMap(m, b), a);
    forall h | h in ab ensures ab[h] == ba[h] {
      if h in a && h in b {
        MergeCommutes(MergeBase(m, h), a[h], b[h]);
      }
    }
  }

  // ---------------------------------------------------------------------
  // Segments of the thread's tag map
  // ---------------------------------------------------------------------

  /** The segment after a hit by `elem`: the block joins it, the count is set to 1. */
  function HitOnce(seg: DR.Segment, elem: int): (r: DR.Segment)
    requires DR.SegOk(seg)
    ensures DR.SegOk(r) && r.count == 1
    ensures DR.Elems(r.elems) == DR.Elems(seg.elems) + {elem}
    ensures r.head == if seg.elems == [] then Some(elem) else seg.head
  {
    DR.SegInsert(seg, elem).(count := 1)
  }

  /** The segment a store restarts: only `elem`, which is its head, with count 1. */
  function RestartOnce(seg: DR.Segment, elem: int): (r: DR.Segment)
    ensures DR.SegOk(r) && r.elems == [elem] && r.head == Some(elem) && r.count == 1
  {
    var r := DR.SegInsert(DR.SegClear(seg), elem).(count := 1);
    assert r.elems == [elem] by {
      assert DR.Elems(r.elems) == {elem};
      assert DR.Elems([elem]) == {elem};
      DR.SortedUnique(r.elems, [elem]);
    }
    r
  }

  // ---------------------------------------------------------------------
  // The thread
  // ---------------------------------------------------------------------

  /** Each index of the arena is stored under its block's hash, and each hash maps to its block. */
  predicate Indexed(stats: seq<BBLStats>, index: map<UUID, nat>)
  {
    (forall h | h in index :: index[h] < |stats| && stats[index[h]].bblhash == h) &&
    (forall i | 0 <= i < |stats| :: stats[i].bblhash in index && index[stats[i].bblhash] == i)
  }

  function Last<T>(s: seq<T>): T
    requires s != []
  {
    s[|s| - 1]
  }

  class ThreadStats {
    var tid: int
    var switchCpu2Pim: nat
    var switchPim2Cpu: nat
    /** The stack of decisions of the enclosing offload annotations; true is PIM. */
    var usingPim: seq<bool>
    /** The stack of enclosing blocks, as arena indices. */
    var current: seq<nat>
    /** The arena of block statistics (the `BBLStats *` objects). */
    var stats: seq<BBLStats>
    var bblhash2stats: map<UUID, nat>
    var tag2seg: map<nat, DR.Segment>
    /** Switches between blocks, whose elements are arena indices. */
    const switchCount: DR.BBLSwitchCount
    const dataReuse: DR.DataReuse

    /**
     * The stacks are never empty, the hash map and the arena agree, the
     * outermost decision is CPU, and the two switch counters differ
     * exactly by whether the thread is on PIM now.
     */
    ghost predicate Valid()
      reads this, switchCount, dataReuse
    {
      switchCount.Valid() && dataReuse.Valid() &&
      usingPim != [] && !usingPim[0] &&
      switchCpu2Pim == switchPim2Cpu + (if Last(usingPim) then 1 else 0) &&
      current != [] && (forall k | 0 <= k < |current| :: current[k] < |stats|) &&
      Indexed(stats, bblhash2stats) &&
      forall t | t in tag2seg :: DR.SegOk(tag2seg[t])
    }

    /** The hash of the innermost block. */
    function CurrentHash(): (r: UUID)
      reads this
      requires current != [] && Last(current) < |stats|
      ensures Indexed(stats, bblhash2stats) ==> r in bblhash2stats && bblhash2stats[r] == Last(current)
    {
      stats[Last(current)].bblhash
    }

    /** On CPU, inside the global block, which is the only block known. */
    constructor (tid: int)
      ensures Valid() && fresh(switchCount) && fresh(dataReuse)
      ensures this.tid == tid && switchCpu2Pim == 0 && switchPim2Cpu == 0
      ensures usingPim == [false] && current == [0]
      ensures stats == [NewBBLStats(GLOBAL_BBLID, GLOBAL_BBLHASH)]
      ensures bblhash2stats == map[GLOBAL_BBLHASH := 0] && tag2seg == map[]
      ensures switchCount.elem2idx == map[] && dataReuse.nodes == [DR.EmptyNode]
    {
      this.tid := tid;
      switchCpu2Pim, switchPim2Cpu := 0, 0;
      usingPim := [false];
      stats := [NewBBLStats(GLOBAL_BBLID, GLOBAL_BBLHASH)];
      bblhash2stats := map[GLOBAL_BBLHASH := 0];
      current := [0];
      tag2seg := map[];
      switchCount := new DR.BBLSwitchCount();
      dataReuse := new DR.DataReuse();
    }

    /**
     * `BBLStart`: the block, created at zero under the global id the first
     * time its hash is seen, becomes the innermost one, and the switch
     * from the previous innermost block to it is counted.
     */
    method BBLStart(hi: u64, lo: u64)
      requires Valid()
      modifies this, switchCount
      ensures Valid() && CurrentHash() == UUID(hi, lo)
      ensures UUID(hi, lo) in old(bblhash2stats) ==>
        stats == old(stats) && bblhash2stats == old(bblhash2stats)
      ensures UUID(hi, lo) !in old(bblhash2stats) ==>
        stats == old(stats) + [NewBBLStats(GLOBAL_BBLID, UUID(hi, lo))] &&
        bblhash2stats == old(bblhash2stats)[UUID(hi, lo) := |old(stats)|]
      ensures current == old(current) + [bblhash2stats[UUID(hi, lo)]]
      ensures Last(old(current)) in switchCount.elem2idx && Last(current) in switchCount.elem2idx
      ensures forall i: nat, j: nat ::
        switchCount.Cell(i, j) == old(switchCount.Cell(i, j)) +
          (if i == switchCount.elem2idx[Last(old(current))] && j == switchCount.elem2idx[Last(current)] then 1 else 0)
      ensures usingPim == old(usingPim) && tag2seg == old(tag2seg) && tid == old(tid)
      ensures switchCpu2Pim == old(switchCpu2Pim) && switchPim2Cpu == old(switchPim2Cpu)
    {
      var prev := Last(current);
      Enter(UUID(hi, lo));
      switchCount.Insert(prev, Last(current), 1);
    }

    /** The block of hash h, created at zero under the global id if new, is pushed. */
    method Enter(h: UUID)
      requires Valid()
      modifies this
      ensures Valid() && CurrentHash() == h
      ensures h in old(bblhash2stats) ==> stats == old(stats) && bblhash2stats == old(bblhash2stats)
      ensures h !in old(bblhash2stats) ==>
        stats == old(stats) + [NewBBLStats(GLOBAL_BBLID, h)] && bblhash2stats == old(bblhash2stats)[h := |old(stats)|]
      ensures current == old(current) + [bblhash2stats[h]]
      ensures usingPim == old(usingPim) && tag2seg == old(tag2seg) && tid == old(tid)
      ensures switchCpu2Pim == old(switchCpu2Pim) && switchPim2Cpu == old(switchPim2Cpu)
    {
      if h !in bblhash2stats {
        stats := stats + [NewBBLStats(GLOBAL_BBLID, h)];
        bblhash2stats := bblhash2stats[h := |stats| - 1];
      }
      current := current + [bblhash2stats[h]];
    }

    /**
     * `BBLEnd`: the ending block must be the innermost one and must have an
     * enclosing block; it is popped and the switch back is counted.
     */
    method BBLEnd(hi: u64, lo: u64)
      requires Valid() && |current| > 1 && CurrentHash() == UUID(hi, lo)
      modifies this, switchCount
      ensures Valid()
      ensures current == old(current)[..|old(current)| - 1]
      ensures stats == old(stats) && bblhash2stats == old(bblhash2stats)
      ensures Last(old(current)) in switchCount.elem2idx && Last(current) in switchCount.elem2idx
      ensures forall i: nat, j: nat ::
        switchCount.Cell(i, j) == old(switchCount.Cell(i, j)) +
          (if i == switchCount.elem2idx[Last(old(current))] && j == switchCount.elem2idx[Last(current)] then 1 else 0)
      ensures usingPim == old(usingPim) && tag2seg == old(tag2seg) && tid == old(tid)
      ensures switchCpu2Pim == old(switchCpu2Pim) && switchPim2Cpu == old(switchPim2Cpu)
    {
      var prev := Last(current);
      current := current[..|current| - 1];
      switchCount.Insert(prev, Last(current), 1);
    }

    /**
     * `OffloadStart`: the decision is pushed, a change of site is counted
     * in its direction, and the block `(hi, 0)` starts.
     */
    method OffloadStart(hi: u64, decision: u64)
      requires Valid()
      modifies this, switchCount
      ensures Valid() && CurrentHash() == UUID(hi, 0)
      ensures usingPim == old(usingPim) + [decision == PIMPROF_DECISION_PIM]
      ensures switchCpu2Pim == old(switchCpu2Pim) + (if !Last(old(usingPim)) && decision == PIMPROF_DECISION_PIM then 1 else 0)
      ensures switchPim2Cpu == old(switchPim2Cpu) + (if Last(old(usingPim)) && decision != PIMPROF_DECISION_PIM then 1 else 0)
      ensures UUID(hi, 0) in old(bblhash2stats) ==>
        stats == old(stats) && bblhash2stats == old(bblhash2stats)
      ensures UUID(hi, 0) !in old(bblhash2stats) ==>
        stats == old(stats) + [NewBBLStats(GLOBAL_BBLID, UUID(hi, 0))] &&
        bblhash2stats == old(bblhash2stats)[UUID(hi, 0) := |old(stats)|]
      ensures current == old(current) + [bblhash2stats[UUID(hi, 0)]]
      ensures bblhash2stats.Keys == old(bblhash2stats).Keys + {UUID(hi, 0)}
      ensures Last(old(current)) in switchCount.elem2idx && Last(current) in switchCount.elem2idx
      ensures forall i: nat, j: nat ::
        switchCount.Cell(i, j) == old(switchCount.Cell(i, j)) +
          (if i == switchCount.elem2idx[Last(old(current))] && j == switchCount.elem2idx[Last(current)] then 1 else 0)
      ensures tag2seg == old(tag2seg) && tid == old(tid)
    {
      var prev := Last(usingPim);
      usingPim := usingPim + [decision == PIMPROF_DECISION_PIM];
      if prev != Last(usingPim) {
        if prev {
          switchPim2Cpu := switchPim2Cpu + 1;
        } else {
          switchCpu2Pim := switchCpu2Pim + 1;
        }
      }
      BBLStart(hi, 0);
    }

    /**
     * `OffloadEnd`: the decision must match the innermost one and must have
     * an enclosing one; it is popped, a change of site is counted, and the
     * block `(hi, 0)` ends.
     */
    method OffloadEnd(hi: u64, decision: u64)
      requires Valid() && |usingPim| > 1 && Last(usingPim) == (decision == PIMPROF_DECISION_PIM)
      requires |current| > 1 && CurrentHash() == UUID(hi, 0)
      modifies this, switchCount
      ensures Valid()
      ensures usingPim == old(usingPim)[..|old(usingPim)| - 1]
      ensures switchCpu2Pim == old(switchCpu2Pim) + (if !Last(old(usingPim)) && Last(usingPim) then 1 else 0)
      ensures switchPim2Cpu == old(switchPim2Cpu) + (if Last(old(usingPim)) && !Last(usingPim) then 1 else 0)
      ensures current == old(current)[..|old(current)| - 1]
      ensures stats == old(stats) && bblhash2stats == old(bblhash2stats)
      ensures Last(old(current)) in switchCount.elem2idx && Last(current) in switchCount.elem2idx
      ensures forall i: nat, j: nat ::
        switchCount.Cell(i, j) == old(switchCount.Cell(i, j)) +
          (if i == switchCount.elem2idx[Last(old(current))] && j == switchCount.elem2idx[Last(current)] then 1 else 0)
      ensures tag2seg == old(tag2seg) && tid == old(tid)
    {
      var prev := Last(usingPim);
      usingPim := usingPim[..|usingPim| - 1];
      if prev != Last(usingPim) {
        if prev {
          switchPim2Cpu := switchPim2Cpu + 1;
        } else {
          switchCpu2Pim := switchCpu2Pim + 1;
        }
      }
      BBLEnd(hi, 0);
    }

    /**
     * `AddTimeInstruction`: the innermost block gains the elapsed time
     * (already in nanoseconds) and the instruction count; no other block
     * and no stack changes.
     */
    method AddTimeInstruction(elapsed: int, instr: nat)
      requires Valid()
      modifies this
      ensures Valid()
      ensures |stats| == |old(stats)| && current == old(current)
      ensures var k := Last(current);
        stats[k] == old(stats[k]).(elapsedTime := old(stats[k]).elapsedTime + elapsed,
                                   instructionCount := old(stats[k]).instructionCount + instr)
      ensures forall j | 0 <= j < |stats| && j != Last(current) :: stats[j] == old(stats[j])
      ensures bblhash2stats == old(bblhash2stats) && usingPim == old(usingPim)
      ensures tag2seg == old(tag2seg) && tid == old(tid)
      ensures switchCpu2Pim == old(switchCpu2Pim) && switchPim2Cpu == old(switchPim2Cpu)
    {
      var k := Last(current);
      var s := stats[k];
      stats := stats[k := s.(elapsedTime := s.elapsedTime + elapsed, instructionCount := s.instructionCount + instr)];
    }

    /** `AddMemory`: the innermost block gains the memory accesses. */
    method AddMemory(memoryAccess: nat)
      requires Valid()
      modifies this
      ensures Valid()
      ensures |stats| == |old(stats)| && current == old(current)
      ensures var k := Last(current);
        stats[k] == old(stats[k]).(memoryAccess := old(stats[k]).memoryAccess + memoryAccess)
      ensures forall j | 0 <= j < |stats| && j != Last(current) :: stats[j] == old(stats[j])
      ensures bblhash2stats == old(bblhash2stats) && usingPim == old(usingPim)
      ensures tag2seg == old(tag2seg) && tid == old(tid)
      ensures switchCpu2Pim == old(switchCpu2Pim) && switchPim2Cpu == old(switchPim2Cpu)
    {
      var k := Last(current);
      var s := stats[k];
      stats := stats[k := s.(memoryAccess := s.memoryAccess + memoryAccess)];
    }

    /**
     * `InsertSegOnHit`: the innermost block joins the tag's segment (found
     * or created), whose count is set to 1; on a store the segment is
     * pushed into the reuse trie and restarts as that block alone.
     */
    method InsertSegOnHit(tag: nat, isStore: bool)
      requires Valid()
      modifies this, dataReuse
      ensures Valid() && DR.Grows(old(dataReuse.nodes), dataReuse.nodes)
      ensures !isStore ==>
        tag2seg == old(tag2seg)[tag := HitOnce(DR.SegmentOf(old(tag2seg), tag), Last(current))] &&
        dataReuse.nodes == old(dataReuse.nodes)
      ensures isStore ==>
        var pushed := HitOnce(DR.SegmentOf(old(tag2seg), tag), Last(current));
        tag2seg == old(tag2seg)[tag := RestartOnce(pushed, Last(current))] &&
        (|pushed.elems| > 1 ==> DR.TrieHolds(dataReuse.nodes, DR.Elems(pushed.elems), pushed.head.value))
      ensures usingPim == old(usingPim) && current == old(current) && tid == old(tid)
      ensures stats == old(stats) && bblhash2stats == old(bblhash2stats)
      ensures switchCpu2Pim == old(switchCpu2Pim) && switchPim2Cpu == old(switchPim2Cpu)
    {
      var bblstats := Last(current);
      var seg := HitOnce(DR.SegmentOf(tag2seg, tag), bblstats);
      if isStore {
        var leaf := dataReuse.UpdateTrie(0, seg);
        if |seg.elems| > 1 {
          assert DR.PathSet(old(dataReuse.nodes), 0) == {};
        }
        seg := RestartOnce(seg, bblstats);
      }
      tag2seg := tag2seg[tag := seg];
    }

    /**
     * `SplitSegOnMiss`: a tag without a segment is ignored; otherwise its
     * segment is pushed into the reuse trie and cleared.
     */
    method SplitSegOnMiss(tag: nat)
      requires Valid()
      modifies this, dataReuse
      ensures Valid() && DR.Grows(old(dataReuse.nodes), dataReuse.nodes)
      ensures tag !in old(tag2seg) ==> tag2seg == old(tag2seg) && dataReuse.nodes == old(dataReuse.nodes)
      ensures tag in old(tag2seg) ==>
        var seg := old(tag2seg)[tag];
        tag2seg == old(tag2seg)[tag := DR.SegClear(seg)] &&
        (|seg.elems| > 1 ==> DR.TrieHolds(dataReuse.nodes, DR.Elems(seg.elems), seg.head.value))
      ensures usingPim == old(usingPim) && current == old(current) && tid == old(tid)
      ensures stats == old(stats) && bblhash2stats == old(bblhash2stats)
      ensures switchCpu2Pim == old(switchCpu2Pim) && switchPim2Cpu == old(switchPim2Cpu)
    {
      if tag in tag2seg {
        var seg := tag2seg[tag];
        var leaf := dataReuse.UpdateTrie(0, seg);
        if |seg.elems| > 1 {
          assert DR.PathSet(old(dataReuse.nodes), 0) == {};
        }
        tag2seg := tag2seg[tag := DR.SegClear(seg)];
      }
    }

    /** The thread's blocks by hash. */
    function LocalStats(): (m: map<UUID, BBLStats>)
      reads this
      requires Indexed(stats, bblhash2stats)
      ensures m.Keys == bblhash2stats.Keys && KeyedByHash(m)
    {
      map h | h in bblhash2stats :: stats[bblhash2stats[h]]
    }

    /**
     * `MergeStatsMap`: each of the thread's blocks is merged into the
     * shared map, into a fresh entry when the map does not have it yet.
     */
    method MergeStatsMap(statsmap: map<UUID, BBLStats>) returns (out: map<UUID, BBLStats>)
      requires Valid()
      ensures out == MergeMap(statsmap, LocalStats())
    {
      var local := LocalStats();
      out := statsmap;
      ghost var done: set<UUID> := {};
      var rest := local.Keys;
      while rest != {}
        invariant rest !! done && rest + done == local.Keys
        invariant out == MergeMap(statsmap, Restrict(local, done))
        decreases rest
      {
        var h :| h in rest;
        MergeMapAdd(statsmap, local, done, h);
        if h !in out {
          out := out[h := MergeStats(NewBBLStats(GLOBAL_BBLID, h), local[h])];
        } else {
          out := out[h := MergeStats(out[h], local[h])];
        }
        done := done + {h};
        rest := rest - {h};
      }
      assert Restrict(local, done) == local;
    }

    /**
     * `AssignBBLID`: every block of the thread takes the id the merged map
     * holds for its hash, which must be there.
     */
    method AssignBBLID(statsmap: map<UUID, BBLStats>)
      requires Valid() && bblhash2stats.Keys <= statsmap.Keys
      modifies this
      ensures Valid()
      ensures |stats| == |old(stats)|
      ensures forall i | 0 <= i < |stats| ::
        stats[i] == old(stats[i]).(bblid := statsmap[old(stats[i]).bblhash].bblid)
      ensures bblhash2stats == old(bblhash2stats) && current == old(current) && usingPim == old(usingPim)
      ensures tag2seg == old(tag2seg) && tid == old(tid)
      ensures switchCpu2Pim == old(switchCpu2Pim) && switchPim2Cpu == old(switchPim2Cpu)
    {
      var arena := stats;
      var rest := bblhash2stats.Keys;
      while rest != {}
        invariant rest <= bblhash2stats.Keys && |arena| == |stats|
        invariant forall i | 0 <= i < |stats| ::
          arena[i] == if stats[i].bblhash in rest then stats[i]
                      else stats[i].(bblid := statsmap[stats[i].bblhash].bblid)
        decreases rest
      {
        var h :| h in rest;
        var idx := bblhash2stats[h];
        arena := arena[idx := arena[idx].(bblid := statsmap[h].bblid)];
        rest := rest - {h};
      }
      stats := arena;
    }
  }
}
