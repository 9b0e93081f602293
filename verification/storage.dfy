/**
 * The storage hierarchy of one profiling run (`STORAGE`): for each cost
 * site (CPU and PIM) a chain of cache levels ending in a memory level, the
 * per-tag data-reuse segments and the reuse trie they are pushed into.
 *
 * The levels live in one arena `levels` owned by the storage object; a
 * level's `_next_level` pointer is the arena index `next`, always larger
 * than the level's own index, so a miss walks down the chain and stops at
 * the memory level.
 */
module Storage {
  import opened Common
  import opened StorageSets
  import DR = DataReuse
  import SC = StorageConfig

  const MAX_COST_SITE: nat := 2
  /** Index of the CPU site in `_hitcost` and the per-site arrays. */
  const CPU_SITE: nat := 0

  datatype StorageLevel = IL1 | DL1 | UL2 | UL3 | MEM

  /** CACHE_ALLOC::STORE_ALLOCATE; any other allocation value does not allocate on a store miss. */
  const STORE_ALLOCATE: int := 0

  /** The memory level splits its accesses on fixed 64-byte lines. */
  const MEMORY_LINE_SIZE: nat := 64

  /**
   * A storage level. A cache level keeps its geometry, its sets, its
   * counters, `_hitcost`, the arena index of its next level and its flush
   * and reset counters; the memory level only counts.
   */
  datatype Level =
    | CacheLevel(site: nat, storageLevel: StorageLevel, lineSize: nat, lineShift: nat,
                 setIndexMask: nat, allocation: int, sets: seq<CacheSet>,
                 access: AccessCounters, hitCost: seq<int>, next: nat,
                 flushes: nat, resets: nat)
    | MemoryLevel(site: nat, access: AccessCounters, hitCost: seq<int>)

  function LevelName(l: Level): StorageLevel
  {
    if l.MemoryLevel? then MEM else l.storageLevel
  }

  /** The line size `Access` splits on. */
  function LineSizeOf(l: Level): nat
  {
    if l.CacheLevel? then l.lineSize else MEMORY_LINE_SIZE
  }

  /** `NumSets() == _setIndexMask + 1`. */
  function NumSets(l: Level): (r: nat)
    requires l.CacheLevel?
    ensures r >= 1 && forall addr: nat :: SplitAddress(addr, l.lineShift, l.setIndexMask).1 < r
  {
    l.setIndexMask + 1
  }

  /** `_hitcost[CPU] > 0`: only CPU cache levels track data reuse. */
  predicate TracksReuse(l: Level)
    requires |l.hitCost| == MAX_COST_SITE
  {
    l.hitCost[CPU_SITE] > 0
  }

  /** Level i is consistent and its next level comes later, on the same site. */
  predicate LevelOk(levels: seq<Level>, i: nat)
    requires i < |levels|
  {
    var l := levels[i];
    l.site < MAX_COST_SITE && |l.hitCost| == MAX_COST_SITE &&
    (l.CacheLevel? ==>
      l.lineSize >= 1 && |l.sets| == NumSets(l) &&
      (forall k | 0 <= k < |l.sets| :: SetValid(l.sets[k])) &&
      i < l.next < |levels| && levels[l.next].site == l.site)
  }

  predicate LevelsOk(levels: seq<Level>)
  {
    forall i | 0 <= i < |levels| :: LevelOk(levels, i)
  }

  /** Two versions of a level that differ at most in set contents and counters. */
  predicate SameShape(a: Level, b: Level)
  {
    a.site == b.site && a.hitCost == b.hitCost &&
    (a.CacheLevel? <==> b.CacheLevel?) &&
    (a.CacheLevel? ==>
      a.storageLevel == b.storageLevel && a.lineSize == b.lineSize &&
      a.lineShift == b.lineShift && a.setIndexMask == b.setIndexMask &&
      a.allocation == b.allocation && a.next == b.next &&
      |a.sets| == |b.sets| &&
      forall k | 0 <= k < |a.sets| ::
        SetValid(b.sets[k]) && PolicyOf(b.sets[k]) == PolicyOf(a.sets[k]) &&
        Associativity(b.sets[k]) == Associativity(a.sets[k]))
  }

  predicate SameShapes(a: seq<Level>, b: seq<Level>)
  {
    |a| == |b| && forall i | 0 <= i < |a| :: SameShape(a[i], b[i])
  }

  lemma SameShapeOk(levels: seq<Level>, i: nat, l: Level)
    requires LevelsOk(levels) && i < |levels| && SameShape(levels[i], l)
    ensures LevelsOk(levels[i := l]) && SameShapes(levels, levels[i := l])
  {
    var r := levels[i := l];
    forall j | 0 <= j < |r| ensures LevelOk(r, j) && SameShape(levels[j], r[j]) {
      assert LevelOk(levels, j);
    }
  }

  /** Every level of an earlier index or of another site than level idx is unchanged. */
  predicate KeepsFrom(before: seq<Level>, after: seq<Level>, idx: nat)
    requires idx < |before| && |after| == |before|
  {
    forall j | 0 <= j < |after| && (j < idx || before[j].site != before[idx].site) ::
      after[j] == before[j]
  }

  lemma KeepsFromTrans(a: seq<Level>, b: seq<Level>, c: seq<Level>, idx: nat)
    requires idx < |a| && SameShapes(a, b) && SameShapes(b, c)
    requires KeepsFrom(a, b, idx) && KeepsFrom(b, c, idx)
    ensures KeepsFrom(a, c, idx)
  {
    assert a[idx].site == b[idx].site;
  }

  /** Replacing one set by a valid set of the same policy and size keeps the level's shape. */
  lemma SetShape(l: Level, setIndex: nat, s: CacheSet, c: AccessCounters)
    requires l.CacheLevel? && setIndex < |l.sets| && forall k | 0 <= k < |l.sets| :: SetValid(l.sets[k])
    requires SetValid(s) && PolicyOf(s) == PolicyOf(l.sets[setIndex]) && Associativity(s) == Associativity(l.sets[setIndex])
    ensures SameShape(l, l.(sets := l.sets[setIndex := s], access := c))
  {
  }

  lemma SameShapesRefl(levels: seq<Level>)
    requires LevelsOk(levels)
    ensures SameShapes(levels, levels)
  {
    forall i | 0 <= i < |levels| ensures SameShape(levels[i], levels[i]) {
      assert LevelOk(levels, i);
    }
  }

  lemma SameShapesTrans(a: seq<Level>, b: seq<Level>, c: seq<Level>)
    requires SameShapes(a, b) && SameShapes(b, c)
    ensures SameShapes(a, c)
  {
  }

  /** Raising a segment's count to at least the thread count. */
  function AtLeastThreads(seg: DR.Segment, threadCount: nat): (r: DR.Segment)
    ensures r.head == seg.head && r.elems == seg.elems
    ensures r.count >= seg.count && r.count >= threadCount
    ensures r.count == seg.count || r.count == threadCount
  {
    if threadCount > seg.count then seg.(count := threadCount) else seg
  }

  class Storage {
    var levels: seq<Level>
    /** `_storage_top[site][IL1]` and `_storage_top[site][DL1]`. */
    var topIL1: seq<nat>
    var topDL1: seq<nat>
    var lastICacheLine: seq<nat>
    var tagSegMap: map<nat, DR.Segment>
    var threadCount: nat
    var enableGlobalBbl: bool
    const reuse: DR.DataReuse

    /**
     * `STORAGE()`: no levels yet and every last I-cache line 0; the thread
     * count, the global-block switch and the reuse trie belong to the cost
     * package the storage reports to.
     */
    constructor (threadCount: nat, enableGlobalBbl: bool)
      ensures reuse.Valid() && fresh(reuse) && reuse.nodes == [DR.EmptyNode] && reuse.leaves == []
      ensures levels == [] && lastICacheLine == [0, 0] && tagSegMap == map[]
      ensures this.threadCount == threadCount && this.enableGlobalBbl == enableGlobalBbl
    {
      levels := [];
      topIL1 := [0, 0];
      topDL1 := [0, 0];
      lastICacheLine := [0, 0];
      tagSegMap := map[];
      this.threadCount := threadCount;
      this.enableGlobalBbl := enableGlobalBbl;
      reuse := new DR.DataReuse();
    }

    ghost predicate Valid()
      reads this, reuse
    {
      reuse.Valid() && LevelsOk(levels) &&
      |topIL1| == MAX_COST_SITE && |topDL1| == MAX_COST_SITE && |lastICacheLine| == MAX_COST_SITE &&
      (forall s | 0 <= s < MAX_COST_SITE ::
        topIL1[s] < |levels| && levels[topIL1[s]].site == s &&
        topDL1[s] < |levels| && levels[topDL1[s]].site == s) &&
      SegsOk(tagSegMap)
    }

    /** The levels a call may have changed: none of an earlier index, none of another site. */
    ghost predicate KeepsOthers(old_levels: seq<Level>, idx: nat)
      reads this
      requires idx < |old_levels| && |levels| == |old_levels|
    {
      KeepsFrom(old_levels, levels, idx)
    }

    /**
     * `UpdateTrie(getRoot(), seg)`: a segment of two or more blocks ends up
     * as a leaf under the main root, keyed by its head, whose path holds
     * exactly its blocks.
     */
    method PushSegment(seg: DR.Segment)
      requires Valid() && DR.SegOk(seg)
      modifies reuse
      ensures Valid() && DR.Grows(old(reuse.nodes), reuse.nodes)
      ensures |seg.elems| <= 1 ==> reuse.nodes == old(reuse.nodes)
      ensures |seg.elems| > 1 ==> DR.TrieHolds(reuse.nodes, DR.Elems(seg.elems), seg.head.value)
    {
      var leaf := reuse.UpdateTrie(0, seg);
      if |seg.elems| > 1 {
        assert DR.PathSet(old(reuse.nodes), 0) == {};
      }
    }

    /**
     * `SplitOnMiss`: the tag's segment is pushed into the reuse trie and
     * then cleared (count back to 1, head kept).
     */
    method SplitOnMiss(tag: nat)
      requires Valid()
      modifies this, reuse
      ensures Valid()
      ensures levels == old(levels) && topIL1 == old(topIL1) && topDL1 == old(topDL1)
      ensures lastICacheLine == old(lastICacheLine) && threadCount == old(threadCount)
      ensures enableGlobalBbl == old(enableGlobalBbl)
      ensures tagSegMap == old(tagSegMap)[tag := DR.SegClear(DR.SegmentOf(old(tagSegMap), tag))]
      ensures DR.Grows(old(reuse.nodes), reuse.nodes)
      ensures var seg := DR.SegmentOf(old(tagSegMap), tag);
        |seg.elems| > 1 ==> DR.TrieHolds(reuse.nodes, DR.Elems(seg.elems), seg.head.value)
      ensures Pushes(old(reuse.nodes), reuse.nodes, [DR.SegmentOf(old(tagSegMap), tag)])
    {
      var seg := DR.SegmentOf(tagSegMap, tag);
      PushSegment(seg);
      assert [seg][0] == seg;
      tagSegMap := tagSegMap[tag := DR.SegClear(seg)];
    }

    /**
     * `InsertOnHit`: unless the block is the global block (and global
     * blocks are not enabled) the block joins the tag's segment, whose
     * count is raised to the thread count; a store then pushes the
     * segment into the trie and restarts it as the one block.
     */
    method InsertOnHit(tag: nat, accessType: AccessType, bblid: int)
      requires Valid()
      modifies this, reuse
      ensures Valid()
      ensures levels == old(levels) && topIL1 == old(topIL1) && topDL1 == old(topDL1)
      ensures lastICacheLine == old(lastICacheLine) && threadCount == old(threadCount)
      ensures enableGlobalBbl == old(enableGlobalBbl)
      ensures DR.Grows(old(reuse.nodes), reuse.nodes)
      ensures bblid == GLOBAL_BBLID && !enableGlobalBbl ==>
        tagSegMap == old(tagSegMap) && reuse.nodes == old(reuse.nodes)
      ensures (bblid != GLOBAL_BBLID || enableGlobalBbl) && accessType == Load ==>
        tagSegMap == old(tagSegMap)[tag := HitSegment(DR.SegmentOf(old(tagSegMap), tag), bblid, threadCount)] &&
        reuse.nodes == old(reuse.nodes)
      ensures (bblid != GLOBAL_BBLID || enableGlobalBbl) && accessType == Store ==>
        var pushed := HitSegment(DR.SegmentOf(old(tagSegMap), tag), bblid, threadCount);
        tagSegMap == old(tagSegMap)[tag := Restarted(pushed, bblid, threadCount)] &&
        (|pushed.elems| > 1 ==> DR.TrieHolds(reuse.nodes, DR.Elems(pushed.elems), pushed.head.value))
      ensures var e := HitEffect(old(tagSegMap), tag, accessType, bblid, threadCount, enableGlobalBbl);
        tagSegMap == e.segs && Pushes(old(reuse.nodes), reuse.nodes, e.pushes)
    {
      if bblid != GLOBAL_BBLID || enableGlobalBbl {
        var seg := HitSegment(DR.SegmentOf(tagSegMap, tag), bblid, threadCount);
        if accessType == Store {
          PushSegment(seg);
          assert [seg][0] == seg;
          seg := Restarted(seg, bblid, threadCount);
        }
        tagSegMap := tagSegMap[tag := seg];
      }
    }

    /** Writes back level idx with new set contents or counters. */
    method SetLevel(idx: nat, l: Level)
      requires Valid() && idx < |levels| && SameShape(levels[idx], l)
      modifies this
      ensures Valid() && SameShapes(old(levels), levels)
      ensures levels == old(levels)[idx := l]
      ensures topIL1 == old(topIL1) && topDL1 == old(topDL1) && lastICacheLine == old(lastICacheLine)
      ensures threadCount == old(threadCount) && enableGlobalBbl == old(enableGlobalBbl)
      ensures tagSegMap == old(tagSegMap)
    {
      SameShapeOk(levels, idx, l);
      levels := levels[idx := l];
    }

    /**
     * `AccessSingleLine` of level idx. The memory level always hits. A
     * cache level looks the tag up in its set; either way exactly one
     * counter, `_access[accessType][hit]`, goes up. A miss of a load, or of
     * a store under STORE_ALLOCATE, replaces a tag of the set and is
     * forwarded to the next level, which counts exactly one access of its
     * own; a CPU level right above memory first splits the tag's reuse
     * segment. A hit of a CPU level adds the block to the tag's segment.
     */
    method AccessSingleLine(idx: nat, addr: nat, accessType: AccessType, bblid: int) returns (hit: bool)
      requires Valid() && idx < |levels|
      modifies this, reuse
      decreases |levels| - idx, 4
      ensures Valid() && SameShapes(old(levels), levels)
      ensures topIL1 == old(topIL1) && topDL1 == old(topDL1) && lastICacheLine == old(lastICacheLine)
      ensures threadCount == old(threadCount) && enableGlobalBbl == old(enableGlobalBbl)
      ensures KeepsOthers(old(levels), idx)
      ensures levels[idx].access == old(levels[idx].access).Record(accessType, hit)
      ensures old(levels[idx]).MemoryLevel? ==> hit
      ensures old(levels[idx]).CacheLevel? && LevelOk(old(levels), idx) ==>
        CacheOutcome(old(levels), levels, idx, addr, accessType, hit)
      ensures levels == ChainLevels(old(levels), idx, addr, accessType)
      ensures var e := ChainReuse(old(levels), idx, addr, accessType, bblid, threadCount, enableGlobalBbl, old(tagSegMap));
        tagSegMap == e.segs && Pushes(old(reuse.nodes), reuse.nodes, e.pushes)
    {
      if levels[idx].MemoryLevel? {
        hit := true;
        var l := levels[idx];
        SetLevel(idx, MemoryLevel(l.site, l.access.Record(accessType, true), l.hitCost));
      } else {
        hit := CacheAccessSingleLine(idx, addr, accessType, bblid);
      }
    }

    /** `CACHE_LEVEL::AccessSingleLine`. */
    method CacheAccessSingleLine(idx: nat, addr: nat, accessType: AccessType, bblid: int) returns (hit: bool)
      requires Valid() && idx < |levels| && levels[idx].CacheLevel?
      modifies this, reuse
      decreases |levels| - idx, 3
      ensures Valid() && SameShapes(old(levels), levels)
      ensures topIL1 == old(topIL1) && topDL1 == old(topDL1) && lastICacheLine == old(lastICacheLine)
      ensures threadCount == old(threadCount) && enableGlobalBbl == old(enableGlobalBbl)
      ensures KeepsOthers(old(levels), idx)
      ensures levels[idx].access == old(levels[idx].access).Record(accessType, hit)
      ensures LevelOk(old(levels), idx) && CacheOutcome(old(levels), levels, idx, addr, accessType, hit)
      ensures levels == ChainLevels(old(levels), idx, addr, accessType)
      ensures var e := ChainReuse(old(levels), idx, addr, accessType, bblid, threadCount, enableGlobalBbl, old(tagSegMap));
        tagSegMap == e.segs && Pushes(old(reuse.nodes), reuse.nodes, e.pushes)
    {
      var level := levels[idx];
      assert LevelOk(levels, idx);
      var (tag, setIndex) := SplitAddress(addr, level.lineShift, level.setIndexMask);
      var set';
      hit, set' := Find(level.sets[setIndex], tag);
      ApplyLookup(idx, addr, tag, setIndex, hit, set', accessType, bblid);
    }

    /**
     * What follows the lookup of a cache level: the new set and the bumped
     * counter are stored, then the miss is forwarded or the level settles.
     */
    method ApplyLookup(idx: nat, addr: nat, tag: nat, setIndex: nat, hit: bool, set': CacheSet,
                       accessType: AccessType, bblid: int)
      requires Valid() && idx < |levels| && levels[idx].CacheLevel? && LevelOk(levels, idx)
      requires (tag, setIndex) == SplitAddress(addr, levels[idx].lineShift, levels[idx].setIndexMask)
      requires hit <==> tag in Contents(levels[idx].sets[setIndex])
      requires set' == AfterFind(levels[idx].sets[setIndex], tag) && SetValid(set')
      requires PolicyOf(set') == PolicyOf(levels[idx].sets[setIndex])
      requires Associativity(set') == Associativity(levels[idx].sets[setIndex])
      modifies this, reuse
      decreases |levels| - idx, 2
      ensures Valid() && SameShapes(old(levels), levels)
      ensures topIL1 == old(topIL1) && topDL1 == old(topDL1) && lastICacheLine == old(lastICacheLine)
      ensures threadCount == old(threadCount) && enableGlobalBbl == old(enableGlobalBbl)
      ensures KeepsOthers(old(levels), idx)
      ensures levels[idx].access == old(levels[idx].access).Record(accessType, hit)
      ensures CacheOutcome(old(levels), levels, idx, addr, accessType, hit)
      ensures levels == ChainLevels(old(levels), idx, addr, accessType)
      ensures var e := ChainReuse(old(levels), idx, addr, accessType, bblid, threadCount, enableGlobalBbl, old(tagSegMap));
        tagSegMap == e.segs && Pushes(old(reuse.nodes), reuse.nodes, e.pushes)
    {
      var level := levels[idx];
      var l' := level.(sets := level.sets[setIndex := set'], access := level.access.Record(accessType, hit));
      SetShape(level, setIndex, set', l'.access);
      ghost var before := levels;
      ChainReuseCache(levels, idx, addr, accessType, bblid, threadCount, enableGlobalBbl, tagSegMap, tag, setIndex, hit);
      ChainLevelsCache(levels, idx, addr, accessType, tag, setIndex, hit);
      if Forwards(level, hit, accessType) {
        assert set' == level.sets[setIndex];
        MissForward(idx, l', addr, tag, setIndex, accessType, bblid);
        Outcome(before, levels, idx, addr, accessType, hit);
      } else {
        StoreLevel(idx, l', tag, accessType, bblid, hit && TracksReuse(level));
        Outcome(before, levels, idx, addr, accessType, hit);
      }
    }

    /** A level that does not forward: its new state, and the hit added to the tag's segment when tracked. */
    method StoreLevel(idx: nat, l: Level, tag: nat, accessType: AccessType, bblid: int, track: bool)
      requires Valid() && idx < |levels| && SameShape(levels[idx], l)
      modifies this, reuse
      ensures Valid() && SameShapes(old(levels), levels) && levels == old(levels)[idx := l]
      ensures topIL1 == old(topIL1) && topDL1 == old(topDL1) && lastICacheLine == old(lastICacheLine)
      ensures threadCount == old(threadCount) && enableGlobalBbl == old(enableGlobalBbl)
      ensures var e := if track then HitEffect(old(tagSegMap), tag, accessType, bblid, threadCount, enableGlobalBbl)
        else ReuseEffect(old(tagSegMap), []);
        tagSegMap == e.segs && Pushes(old(reuse.nodes), reuse.nodes, e.pushes)
    {
      SetLevel(idx, l);
      if track {
        InsertOnHit(tag, accessType, bblid);
      }
    }

    /**
     * The allocating miss of a cache level: the set replaces a tag with
     * `tag`, a CPU level right above memory splits the tag's segment, and
     * the line is accessed at the next level.
     */
    method MissForward(idx: nat, l: Level, addr: nat, tag: nat, setIndex: nat, accessType: AccessType, bblid: int)
      requires Valid() && idx < |levels| && SameShape(levels[idx], l) && l.CacheLevel?
      requires setIndex < |l.sets|
      modifies this, reuse
      decreases |levels| - idx, 0
      ensures Valid() && SameShapes(old(levels), levels)
      ensures topIL1 == old(topIL1) && topDL1 == old(topDL1) && lastICacheLine == old(lastICacheLine)
      ensures threadCount == old(threadCount) && enableGlobalBbl == old(enableGlobalBbl)
      ensures KeepsOthers(old(levels), idx)
      ensures levels[idx] == l.(sets := l.sets[setIndex := Replace(l.sets[setIndex], tag)])
      ensures l.next < |levels| &&
        levels[l.next].access.Accesses(accessType) == old(levels[l.next].access.Accesses(accessType)) + 1
      ensures idx < l.next < |old(levels)| && |l.hitCost| == MAX_COST_SITE
      ensures levels == ChainLevels(old(levels), l.next, addr, accessType)[idx := l.(sets := l.sets[setIndex := Replace(l.sets[setIndex], tag)])]
      ensures var e := ForwardReuse(old(levels), l.next, TracksReuse(l), tag, addr, accessType, bblid,
                                    threadCount, enableGlobalBbl, old(tagSegMap));
        tagSegMap == e.segs && Pushes(old(reuse.nodes), reuse.nodes, e.pushes)
    {
      assert LevelOk(levels, idx);
      SetLevel(idx, l.(sets := l.sets[setIndex := Replace(l.sets[setIndex], tag)]));
      ghost var mid := levels;
      assert LevelOk(levels, l.next);
      SplitThenAccess(l.next, TracksReuse(l), tag, addr, accessType, bblid);
      SameShapesTrans(old(levels), mid, levels);
      ForwardReuseFrame(old(levels), mid, l.next, TracksReuse(l), tag, addr, accessType, bblid,
                        threadCount, enableGlobalBbl, old(tagSegMap));
      ChainLevelsAfterSet(old(levels), mid, idx, l.next, addr, accessType);
    }

    /**
     * The rest of an allocating miss: the split, when the level above
     * tracks reuse and the next level is memory, then the access at the
     * next level.
     */
    method SplitThenAccess(next: nat, tracks: bool, tag: nat, addr: nat, accessType: AccessType, bblid: int)
      requires Valid() && next < |levels|
      modifies this, reuse
      decreases |levels| - next, 5
      ensures Valid() && SameShapes(old(levels), levels)
      ensures topIL1 == old(topIL1) && topDL1 == old(topDL1) && lastICacheLine == old(lastICacheLine)
      ensures threadCount == old(threadCount) && enableGlobalBbl == old(enableGlobalBbl)
      ensures KeepsOthers(old(levels), next)
      ensures levels[next].access.Accesses(accessType) == old(levels[next].access.Accesses(accessType)) + 1
      ensures levels == ChainLevels(old(levels), next, addr, accessType)
      ensures var e := ForwardReuse(old(levels), next, tracks, tag, addr, accessType, bblid,
                                    threadCount, enableGlobalBbl, old(tagSegMap));
        tagSegMap == e.segs && Pushes(old(reuse.nodes), reuse.nodes, e.pushes)
    {
      ghost var m := tagSegMap;
      ghost var n0 := reuse.nodes;
      if LevelName(levels[next]) == MEM && tracks {
        SplitOnMiss(tag);
      }
      ghost var mid := levels;
      ghost var m1 := tagSegMap;
      ghost var n1 := reuse.nodes;
      var nextHit := AccessSingleLine(next, addr, accessType, bblid);
      RecordCounts(mid[next].access, accessType, nextHit);
      ForwardStep(old(levels), mid, next, tracks, tag, addr, accessType, bblid, threadCount, enableGlobalBbl,
                  m, m1, tagSegMap, n0, n1, reuse.nodes);
    }

    /**
     * `Access` of level idx: one `AccessSingleLine` for the line of addr
     * and one for every following line that starts below addr + size (the
     * memory level splits on 64-byte lines); the result is true iff every
     * one of them hit.
     */
    method Access(idx: nat, addr: nat, size: nat, accessType: AccessType, bblid: int) returns (allHit: bool)
      requires Valid() && idx < |levels|
      modifies this, reuse
      ensures Valid() && SameShapes(old(levels), levels)
      ensures topIL1 == old(topIL1) && topDL1 == old(topDL1) && lastICacheLine == old(lastICacheLine)
      ensures threadCount == old(threadCount) && enableGlobalBbl == old(enableGlobalBbl)
      ensures KeepsOthers(old(levels), idx)
      ensures var L := LineSizeOf(old(levels[idx]));
        L >= 1 && var n := |Visits(addr, addr + size, L)|;
        levels[idx].access.Accesses(accessType) == old(levels[idx].access.Accesses(accessType)) + n &&
        (allHit <==> levels[idx].access.Hits(accessType) == old(levels[idx].access.Hits(accessType)) + n)
      ensures forall t: AccessType, h: bool | t != accessType ::
        levels[idx].access.Count(t, h) == old(levels[idx].access.Count(t, h))
      ensures var F := LinesEffect(old(levels), idx, Visits(addr, addr + size, LineSizeOf(old(levels[idx]))), accessType,
                                   bblid, threadCount, enableGlobalBbl, old(tagSegMap));
        levels == F.0 && tagSegMap == F.1.segs && Pushes(old(reuse.nodes), reuse.nodes, F.1.pushes)
    {
      var L := LineSizeOf(levels[idx]);
      assert LevelOk(levels, idx);
      ghost var done;
      allHit, done := AccessLines(idx, addr, addr + size, L, accessType, bblid);
    }

    /** The loop of `Access`: one single-line access per line touched by [addr, high). */
    method AccessLines(idx: nat, addr: nat, high: nat, L: nat, accessType: AccessType, bblid: int)
      returns (allHit: bool, ghost done: nat)
      requires Valid() && idx < |levels| && L >= 1 && L == LineSizeOf(levels[idx])
      modifies this, reuse
      ensures Valid() && SameShapes(old(levels), levels) && KeepsOthers(old(levels), idx)
      ensures done == |Visits(addr, high, L)|
      ensures var L := LineSizeOf(old(levels[idx]));
        L >= 1 && var n := |Visits(addr, high, L)|;
        levels[idx].access.Accesses(accessType) == old(levels[idx].access.Accesses(accessType)) + n &&
        (allHit <==> levels[idx].access.Hits(accessType) == old(levels[idx].access.Hits(accessType)) + n)
      ensures forall t: AccessType, h: bool | t != accessType ::
        levels[idx].access.Count(t, h) == old(levels[idx].access.Count(t, h))
      ensures topIL1 == old(topIL1) && topDL1 == old(topDL1) && lastICacheLine == old(lastICacheLine)
      ensures threadCount == old(threadCount) && enableGlobalBbl == old(enableGlobalBbl)
      ensures var F := LinesEffect(old(levels), idx, Visits(addr, high, LineSizeOf(old(levels[idx]))), accessType,
                                   bblid, threadCount, enableGlobalBbl, old(tagSegMap));
        levels == F.0 && tagSegMap == F.1.segs && Pushes(old(reuse.nodes), reuse.nodes, F.1.pushes)
    {
      ghost var before, c0 := levels, levels[idx].access;
      SameShapesRefl(levels);
      allHit := true;
      var a := addr;
      var more := true;
      done := 0;
      ghost var pushed: seq<DR.Segment> := [];
      ghost var F := LinesEffect(levels, idx, Visits(addr, high, L), accessType, bblid, threadCount,
                                 enableGlobalBbl, tagSegMap);
      assert pushed + F.1.pushes == F.1.pushes;
      while more
        invariant Progress(before, idx)
        invariant topIL1 == old(topIL1) && topDL1 == old(topDL1) && lastICacheLine == old(lastICacheLine)
        invariant threadCount == old(threadCount) && enableGlobalBbl == old(enableGlobalBbl)
        invariant |Visits(addr, high, L)| == done + (if more then |Visits(a, high, L)| else 0)
        invariant Counted(c0, levels[idx].access, accessType, done, allHit)
        invariant Folded(F, levels, tagSegMap, pushed, idx, a, high, L, more, accessType, bblid, threadCount, enableGlobalBbl)
        invariant Pushes(old(reuse.nodes), reuse.nodes, pushed)
        decreases high - a, more
      {
        var hit;
        hit, a, more, pushed := AccessStep(before, c0, idx, a, high, L, accessType, bblid, done, allHit, F, pushed,
                                           old(reuse.nodes));
        allHit := allHit && hit;
        done := done + 1;
      }
    }

    /** Valid, with the levels of `before` reshaped only at idx and the levels idx changes. */
    ghost predicate Progress(before: seq<Level>, idx: nat)
      reads this, reuse
      requires idx < |before|
    {
      Valid() && SameShapes(before, levels) && KeepsFrom(before, levels, idx)
    }

    /**
     * One pass of the loop of `Access`: the line of addr is accessed, one
     * more access is counted at level idx, and the loop moves on to the
     * next line start, if it is below high; the fold F of the visited
     * lines moves on with it, or is finished.
     */
    method AccessStep(ghost before: seq<Level>, ghost c0: AccessCounters, idx: nat, addr: nat, high: nat, L: nat,
                      accessType: AccessType, bblid: int, ghost done: nat, ghost allHit: bool,
                      ghost F: (seq<Level>, ReuseEffect), ghost pushed: seq<DR.Segment>, ghost n0: seq<DR.TrieNode>)
      returns (hit: bool, next: nat, more: bool, ghost pushed': seq<DR.Segment>)
      requires idx < |before| && Progress(before, idx)
      requires Counted(c0, levels[idx].access, accessType, done, allHit)
      requires Folded(F, levels, tagSegMap, pushed, idx, addr, high, L, true, accessType, bblid, threadCount, enableGlobalBbl)
      requires Pushes(n0, reuse.nodes, pushed)
      modifies this, reuse
      ensures Progress(before, idx)
      ensures Counted(c0, levels[idx].access, accessType, done + 1, allHit && hit)
      ensures topIL1 == old(topIL1) && topDL1 == old(topDL1) && lastICacheLine == old(lastICacheLine)
      ensures threadCount == old(threadCount) && enableGlobalBbl == old(enableGlobalBbl)
      ensures more == (LineBase(addr, L) + L < high) && next == if more then LineBase(addr, L) + L else addr
      ensures |Visits(addr, high, L)| == 1 + (if more then |Visits(next, high, L)| else 0)
      ensures Folded(F, levels, tagSegMap, pushed', idx, next, high, L, more, accessType, bblid, threadCount, enableGlobalBbl)
      ensures Pushes(n0, reuse.nodes, pushed')
    {
      ghost var mid, sm, nd := levels, tagSegMap, reuse.nodes;
      hit := AccessSingleLine(idx, addr, accessType, bblid);
      CountedStep(c0, mid[idx].access, accessType, done, allHit, hit);
      SameShapesTrans(before, mid, levels);
      KeepsFromTrans(before, mid, levels, idx);
      ghost var e := ChainReuse(mid, idx, addr, accessType, bblid, threadCount, enableGlobalBbl, sm);
      PushesTrans(n0, nd, reuse.nodes, pushed, e.pushes);
      pushed' := pushed + e.pushes;
      VisitsLength(addr, high, L);
      next := LineBase(addr, L) + L;
      more := next < high;
      if more {
        FoldedNext(F, mid, levels, sm, pushed, idx, addr, high, L, accessType, bblid, threadCount, enableGlobalBbl);
      } else {
        FoldedLast(F, mid, levels, sm, pushed, idx, addr, high, L, accessType, bblid, threadCount, enableGlobalBbl);
        next := addr;
      }
    }

    /** `CACHE_LEVEL::ResetStats`: every counter back to 0, one more reset. */
    method ResetStats(idx: nat)
      requires Valid() && idx < |levels| && levels[idx].CacheLevel?
      modifies this
      ensures Valid()
      ensures levels == old(levels)[idx := old(levels[idx]).(access := NoAccesses, resets := old(levels[idx].resets) + 1)]
      ensures topIL1 == old(topIL1) && topDL1 == old(topDL1) && lastICacheLine == old(lastICacheLine)
      ensures tagSegMap == old(tagSegMap)
    {
      var l := levels[idx];
      assert LevelOk(levels, idx);
      var c := l.access;
      var types := [Load, Store];
      var i := 0;
      while i < |types|
        invariant i <= |types|
        invariant forall t: AccessType, h: bool :: c.Count(t, h) == (if t in types[..i] then 0 else l.access.Count(t, h))
      {
        c := Cleared(c, types[i]);
        assert types[..i + 1] == types[..i] + [types[i]];
        i := i + 1;
      }
      assert types[..i] == types;
      assert c == NoAccesses by {
        assert c.Count(Load, false) == 0 && c.Count(Load, true) == 0;
        assert c.Count(Store, false) == 0 && c.Count(Store, true) == 0;
      }
      SetLevel(idx, l.(access := c, resets := l.resets + 1));
    }

    /**
     * `CACHE_LEVEL::Flush`, with the loop starting at the last set: every
     * tag of every set becomes 0 (round-robin pointers restart) and the
     * flush counter goes up.
     */
    method FlushLevel(idx: nat)
      requires Valid() && idx < |levels| && levels[idx].CacheLevel?
      modifies this
      ensures Valid() && SameShapes(old(levels), levels)
      ensures forall j | 0 <= j < |levels| && j != idx :: levels[j] == old(levels[j])
      ensures levels[idx].access == old(levels[idx].access) && levels[idx].resets == old(levels[idx].resets)
      ensures levels[idx].flushes == old(levels[idx].flushes) + 1
      ensures forall k | 0 <= k < |levels[idx].sets| :: AllZero(Contents(levels[idx].sets[k]))
      ensures topIL1 == old(topIL1) && topDL1 == old(topDL1) && lastICacheLine == old(lastICacheLine)
      ensures tagSegMap == old(tagSegMap)
    {
      var l := levels[idx];
      assert LevelOk(levels, idx);
      var sets := l.sets;
      var index := NumSets(l) - 1;
      while index >= 0
        invariant unchanged(this) && unchanged(reuse)
        invariant -1 <= index < |sets| && |sets| == |l.sets|
        invariant forall k | 0 <= k < |sets| ::
          SetValid(sets[k]) && PolicyOf(sets[k]) == PolicyOf(l.sets[k]) &&
          Associativity(sets[k]) == Associativity(l.sets[k])
        invariant forall k | index < k < |sets| :: AllZero(Contents(sets[k]))
      {
        var flushed := Flush(sets[index]);
        sets := sets[index := flushed];
        index := index - 1;
      }
      SetLevel(idx, l.(sets := sets, flushes := l.flushes + 1));
    }

    /**
     * `InstrCacheRef` for one site: the I-cache fetches the lines
     * `IFetch` names and remembers the last of them.
     */
    method InstrCacheRefSite(site: nat, addr: nat, size: nat, bblid: int)
      requires Valid() && site < MAX_COST_SITE && levels[topIL1[site]].CacheLevel?
      modifies this, reuse
      ensures Valid() && SameShapes(old(levels), levels)
      ensures topIL1 == old(topIL1) && topDL1 == old(topDL1)
      ensures threadCount == old(threadCount) && enableGlobalBbl == old(enableGlobalBbl)
      ensures forall j | 0 <= j < |levels| && old(levels[j]).site != site :: levels[j] == old(levels[j])
      ensures forall s | 0 <= s < MAX_COST_SITE && s != site :: lastICacheLine[s] == old(lastICacheLine[s])
      ensures Fetched(old(levels), levels, topIL1[site], old(lastICacheLine[site]), lastICacheLine[site], addr, size)
    {
      var top := topIL1[site];
      assert LevelOk(levels, top);
      SameShapesRefl(levels);
      var f := IFetch(lastICacheLine[site], addr, size, levels[top].lineSize);
      var i := 0;
      ghost var c0 := levels[top].access;
      while i < |f.0|
        invariant i <= |f.0|
        invariant Valid() && SameShapes(old(levels), levels)
        invariant topIL1 == old(topIL1) && topDL1 == old(topDL1) && lastICacheLine == old(lastICacheLine)
        invariant threadCount == old(threadCount) && enableGlobalBbl == old(enableGlobalBbl)
        invariant forall j | 0 <= j < |levels| && old(levels[j]).site != site :: levels[j] == old(levels[j])
        invariant levels[top].access.Accesses(Load) == c0.Accesses(Load) + i
      {
        FetchStep(old(levels), site, top, f.0[i], bblid, c0, i);
        i := i + 1;
      }
      lastICacheLine := lastICacheLine[site := f.1];
    }

    /** One line fetched by the site's I-cache level top: one more load counted there, no other site touched. */
    method FetchStep(ghost before: seq<Level>, site: nat, top: nat, addr: nat, bblid: int, ghost c0: AccessCounters, ghost i: nat)
      requires Valid() && top < |levels| && SameShapes(before, levels) && before[top].site == site
      requires forall j | 0 <= j < |levels| && before[j].site != site :: levels[j] == before[j]
      requires levels[top].access.Accesses(Load) == c0.Accesses(Load) + i
      modifies this, reuse
      ensures Valid() && SameShapes(before, levels)
      ensures topIL1 == old(topIL1) && topDL1 == old(topDL1) && lastICacheLine == old(lastICacheLine)
      ensures threadCount == old(threadCount) && enableGlobalBbl == old(enableGlobalBbl)
      ensures forall j | 0 <= j < |levels| && before[j].site != site :: levels[j] == before[j]
      ensures levels[top].access.Accesses(Load) == c0.Accesses(Load) + i + 1
    {
      ghost var mid := levels;
      var hit := AccessSingleLine(top, addr, Load, bblid);
      RecordCounts(mid[top].access, Load, hit);
      SameShapesTrans(before, mid, levels);
      forall j | 0 <= j < |levels| && before[j].site != site ensures levels[j] == before[j] {
        assert SameShape(before[j], mid[j]) && SameShape(before[top], mid[top]);
      }
    }

    /**
     * `STORAGE::InstrCacheRef`: every site's first-level I-cache fetches
     * the lines of the instruction as `IFetch` says; the levels of one
     * site never see the other site's fetches.
     */
    method InstrCacheRef(addr: nat, size: nat, bblid: int)
      requires Valid() && forall s | 0 <= s < MAX_COST_SITE :: levels[topIL1[s]].CacheLevel?
      modifies this, reuse
      ensures Valid() && SameShapes(old(levels), levels)
      ensures topIL1 == old(topIL1) && topDL1 == old(topDL1)
      ensures forall s | 0 <= s < MAX_COST_SITE ::
        Fetched(old(levels), levels, topIL1[s], old(lastICacheLine[s]), lastICacheLine[s], addr, size)
    {
      SameShapesRefl(levels);
      for i := 0 to MAX_COST_SITE
        invariant Valid() && SameShapes(old(levels), levels)
        invariant topIL1 == old(topIL1) && topDL1 == old(topDL1)
        invariant forall j | 0 <= j < |levels| && old(levels[j]).site >= i :: levels[j] == old(levels[j])
        invariant forall s | i <= s < MAX_COST_SITE :: lastICacheLine[s] == old(lastICacheLine[s])
        invariant forall s | 0 <= s < i ::
          Fetched(old(levels), levels, topIL1[s], old(lastICacheLine[s]), lastICacheLine[s], addr, size)
      {
        ghost var mid := levels;
        ghost var midLast := lastICacheLine;
        assert levels[topIL1[i]] == old(levels[topIL1[i]]);
        InstrCacheRefSite(i, addr, size, bblid);
        SameShapesTrans(old(levels), mid, levels);
        forall s | 0 <= s < i
          ensures Fetched(old(levels), levels, topIL1[s], old(lastICacheLine[s]), lastICacheLine[s], addr, size)
        {
          assert old(levels[topIL1[s]]).site == s;
          assert levels[topIL1[s]] == mid[topIL1[s]];
        }
      }
    }

    /** One site of `DataCacheRef`: its first-level D-cache is accessed, no other site is touched. */
    method DataCacheRefSite(site: nat, addr: nat, size: nat, accessType: AccessType, bblid: int)
      requires Valid() && site < MAX_COST_SITE
      modifies this, reuse
      ensures Valid() && SameShapes(old(levels), levels)
      ensures topIL1 == old(topIL1) && topDL1 == old(topDL1) && lastICacheLine == old(lastICacheLine)
      ensures forall j | 0 <= j < |levels| && old(levels[j]).site != site :: levels[j] == old(levels[j])
      ensures Accessed(old(levels), levels, topDL1[site], addr, size, accessType)
    {
      var top := topDL1[site];
      assert old(levels[top]).site == site;
      var allHit := Access(top, addr, size, accessType, bblid);
    }

    /**
     * `STORAGE::DataCacheRef`: every site's first-level D-cache counts one
     * access for each line `Access` visits.
     */
    method DataCacheRef(addr: nat, size: nat, accessType: AccessType, bblid: int)
      requires Valid()
      modifies this, reuse
      ensures Valid() && SameShapes(old(levels), levels)
      ensures topIL1 == old(topIL1) && topDL1 == old(topDL1) && lastICacheLine == old(lastICacheLine)
      ensures forall s | 0 <= s < MAX_COST_SITE ::
        Accessed(old(levels), levels, topDL1[s], addr, size, accessType)
    {
      assert SameShapes(levels, levels) by { SameShapesRefl(levels); }
      for i := 0 to MAX_COST_SITE
        invariant Valid() && SameShapes(old(levels), levels)
        invariant topIL1 == old(topIL1) && topDL1 == old(topDL1) && lastICacheLine == old(lastICacheLine)
        invariant forall j | 0 <= j < |levels| && old(levels[j]).site >= i :: levels[j] == old(levels[j])
        invariant forall s | 0 <= s < i :: Accessed(old(levels), levels, topDL1[s], addr, size, accessType)
      {
        ghost var mid := levels;
        assert levels[topDL1[i]] == old(levels[topDL1[i]]);
        DataCacheRefSite(i, addr, size, accessType, bblid);
        assert SameShapes(old(levels), levels) by { SameShapesTrans(old(levels), mid, levels); }
        forall s | 0 <= s < i ensures Accessed(old(levels), levels, topDL1[s], addr, size, accessType) {
          assert old(levels[topDL1[s]]).site == s;
          assert levels[topDL1[s]] == mid[topDL1[s]];
        }
      }
    }

    /**
     * The levels, tops and connections an accepted configuration yields:
     * site 0's block of levels, then site 1's, each with its memory level
     * last.
     */
    ghost predicate Configured(config: SC.Config)
      reads this
    {
      ConfiguredAs(config, levels, topIL1, topDL1)
    }

    /**
     * `STORAGE::ReadConfig` on a new storage: builds each site's levels
     * from its sections and connects them; it stops at the first section
     * that fails a check, and succeeds exactly on an accepted
     * configuration, which has a single line size.
     */
    method ReadConfig(config: SC.Config) returns (err: Option<SC.ConfigError>)
      requires reuse.Valid() && levels == [] && tagSegMap == map[] && |lastICacheLine| == MAX_COST_SITE
      modifies this
      ensures err.None? <==> SC.ConfigAccepted(config)
      ensures err.None? ==> Valid() && Configured(config)
    {
      var arena, tops1, tops2;
      err, arena, tops1, tops2 := ReadSites(config);
      levels := arena;
      if err.None? {
        topIL1 := tops1;
        topDL1 := tops2;
      }
    }
  }

  /**
   * The outer loop of `ReadConfig`: each site's block in turn, appended to
   * the arena, with the site's top IL1 and top DL1; it stops at the first
   * failing check.
   */
  method ReadSites(config: SC.Config) returns (err: Option<SC.ConfigError>, arena: seq<Level>, tops1: seq<nat>, tops2: seq<nat>)
    ensures err.None? <==> SC.ConfigAccepted(config)
    ensures err.None? ==> (
      LevelsOk(arena) && |tops1| == MAX_COST_SITE && |tops2| == MAX_COST_SITE &&
      (forall s | 0 <= s < MAX_COST_SITE ::
        tops1[s] < |arena| && arena[tops1[s]].site == s && tops2[s] < |arena| && arena[tops2[s]].site == s) &&
      ConfiguredAs(config, arena, tops1, tops2))
  {
    var global := -1;
    arena, tops1, tops2 := [], [0, 0], [0, 0];
    ghost var b0: seq<Level> := [];
    ghost var b1: seq<Level> := [];
    for i := 0 to MAX_COST_SITE
      invariant i == 0 ==> global == -1 && arena == []
      invariant i >= 1 ==> SC.SiteAccepted(config, 0, -1)
      invariant i == 1 ==> global == SC.GlobalAfter(config, 0, -1)
      invariant i == 2 ==> SC.ConfigAccepted(config)
      invariant SitesRead(config, i, arena, tops1, tops2, b0, b1)
    {
      var base := |arena|;
      var r, g := ReadSite(config, i, base, global);
      SitesInOrder(config, i, global, g, r.Ok?);
      if r.Fail? {
        return Some(r.error), arena, tops1, tops2;
      }
      var last := SC.LastLevel(config, i);
      var top1 := base + SC.Slot(last, SC.TopIL1Level(last));
      var top2 := base + SC.Slot(last, SC.TopDL1Level(last));
      ghost var nb0, nb1 := if i == 0 then r.value else b0, if i == 0 then b1 else r.value;
      SitesReadStep(config, i, arena, tops1, tops2, b0, b1, r.value, top1, top2, nb0, nb1);
      arena := arena + r.value;
      tops1 := tops1[i := top1];
      tops2 := tops2[i := top2];
      b0, b1 := nb0, nb1;
      global := g;
    }
    err := None;
    SitesReadDone(config, arena, tops1, tops2, b0, b1);
  }

  /** Both sites read: the arena and the tops are what `ConfiguredAs` describes, and consistent. */
  lemma SitesReadDone(config: SC.Config, arena: seq<Level>, tops1: seq<nat>, tops2: seq<nat>, b0: seq<Level>, b1: seq<Level>)
    requires SitesRead(config, 2, arena, tops1, tops2, b0, b1)
    ensures LevelsOk(arena) && |tops1| == MAX_COST_SITE && |tops2| == MAX_COST_SITE
    ensures forall s | 0 <= s < MAX_COST_SITE ::
      tops1[s] < |arena| && arena[tops1[s]].site == s && tops2[s] < |arena| && arena[tops2[s]].site == s
    ensures ConfiguredAs(config, arena, tops1, tops2)
  {
    LayoutFrom(config, b0, b1, tops1, tops2);
    LayoutValid(config, b0, b1, tops1, tops2);
  }

  /** After i sites: the arena holds their blocks in order, and their tops are set. */
  predicate SitesRead(config: SC.Config, i: nat, arena: seq<Level>, tops1: seq<nat>, tops2: seq<nat>,
                      b0: seq<Level>, b1: seq<Level>)
  {
    |tops1| == MAX_COST_SITE && |tops2| == MAX_COST_SITE &&
    (i >= 1 ==> SiteBlock(config, 0, 0, b0) && tops1[0] == TopSlot(config, 0, 0, true) &&
                tops2[0] == TopSlot(config, 0, 0, false)) &&
    (i == 1 ==> arena == b0) &&
    (i == 2 ==> arena == b0 + b1 && SiteBlock(config, 1, |b0|, b1) &&
                tops1[1] == TopSlot(config, 1, |b0|, true) && tops2[1] == TopSlot(config, 1, |b0|, false))
  }

  /** Appending the block of site i and setting its tops extends `SitesRead`. */
  lemma SitesReadStep(config: SC.Config, i: nat, arena: seq<Level>, tops1: seq<nat>, tops2: seq<nat>,
                      b0: seq<Level>, b1: seq<Level>, block: seq<Level>, top1: nat, top2: nat,
                      nb0: seq<Level>, nb1: seq<Level>)
    requires i < MAX_COST_SITE && (i == 0 ==> arena == []) && SitesRead(config, i, arena, tops1, tops2, b0, b1)
    requires SiteBlock(config, i, |arena|, block)
    requires var last := SC.LastLevel(config, i);
      top1 == |arena| + SC.Slot(last, SC.TopIL1Level(last)) && top2 == |arena| + SC.Slot(last, SC.TopDL1Level(last))
    requires nb0 == (if i == 0 then block else b0) && nb1 == (if i == 0 then b1 else block)
    ensures SitesRead(config, i + 1, arena + block, tops1[i := top1], tops2[i := top2], nb0, nb1)
  {
    if i == 0 {
      assert arena + block == block && nb0 == block;
      assert top1 == TopSlot(config, 0, 0, true) && top2 == TopSlot(config, 0, 0, false);
    } else {
      assert i == 1 && arena == b0 && nb0 == b0 && nb1 == block;
      assert top1 == TopSlot(config, 1, |b0|, true) && top2 == TopSlot(config, 1, |b0|, false);
    }
  }

  /** Reading site i after the sites before it passed: how its outcome decides the configuration's. */
  lemma SitesInOrder(config: SC.Config, i: nat, global: int, g: int, ok: bool)
    requires i < MAX_COST_SITE
    requires i == 0 ==> global == -1
    requires i >= 1 ==> SC.SiteAccepted(config, 0, -1) && global == SC.GlobalAfter(config, 0, -1)
    requires ok <==> SC.SiteAccepted(config, i, global)
    requires ok ==> g == SC.GlobalAfter(config, i, global)
    ensures ok ==> SC.SiteAccepted(config, 0, -1) && (i == 0 ==> g == SC.GlobalAfter(config, 0, -1))
    ensures ok && i == 1 ==> SC.ConfigAccepted(config)
    ensures !ok ==> !SC.ConfigAccepted(config)
  {
  }

  /** Where a site's top IL1 (or top DL1) level lies: in its block, or its memory level. */
  function TopSlot(config: SC.Config, site: nat, base: nat, instruction: bool): nat
  {
    var last := SC.LastLevel(config, site);
    base + SC.Slot(last, if instruction then SC.TopIL1Level(last) else SC.TopDL1Level(last))
  }

  /** Both sites' blocks in arena order, and the tops of each site. */
  predicate Layout(config: SC.Config, b0: seq<Level>, b1: seq<Level>, tops1: seq<nat>, tops2: seq<nat>)
  {
    SiteBlock(config, 0, 0, b0) && SiteBlock(config, 1, |b0|, b1) &&
    tops1 == [TopSlot(config, 0, 0, true), TopSlot(config, 1, |b0|, true)] &&
    tops2 == [TopSlot(config, 0, 0, false), TopSlot(config, 1, |b0|, false)]
  }

  /** The arena is site 0's block followed by site 1's, with the tops of each. */
  ghost predicate ConfiguredAs(config: SC.Config, levels: seq<Level>, tops1: seq<nat>, tops2: seq<nat>)
  {
    exists b0: seq<Level>, b1: seq<Level> :: levels == b0 + b1 && Layout(config, b0, b1, tops1, tops2)
  }

  lemma LayoutFrom(config: SC.Config, b0: seq<Level>, b1: seq<Level>, tops1: seq<nat>, tops2: seq<nat>)
    requires SiteBlock(config, 0, 0, b0) && SiteBlock(config, 1, |b0|, b1)
    requires |tops1| == MAX_COST_SITE && |tops2| == MAX_COST_SITE
    requires tops1[0] == TopSlot(config, 0, 0, true) && tops2[0] == TopSlot(config, 0, 0, false)
    requires tops1[1] == TopSlot(config, 1, |b0|, true) && tops2[1] == TopSlot(config, 1, |b0|, false)
    ensures ConfiguredAs(config, b0 + b1, tops1, tops2)
  {
    assert Layout(config, b0, b1, tops1, tops2);
  }

  /** Both site blocks together form a consistent arena whose tops lie in their own site's block. */
  lemma LayoutValid(config: SC.Config, b0: seq<Level>, b1: seq<Level>, tops1: seq<nat>, tops2: seq<nat>)
    requires Layout(config, b0, b1, tops1, tops2)
    ensures LevelsOk(b0 + b1)
    ensures forall s | 0 <= s < MAX_COST_SITE ::
      tops1[s] < |b0 + b1| && (b0 + b1)[tops1[s]].site == s && tops2[s] < |b0 + b1| && (b0 + b1)[tops2[s]].site == s
  {
    LayoutLevelsOk(config, b0, b1);
    LayoutTops(config, b0, b1, tops1, true);
    LayoutTops(config, b0, b1, tops2, false);
  }

  /** The tops of one kind lie in their own site's block. */
  lemma LayoutTops(config: SC.Config, b0: seq<Level>, b1: seq<Level>, tops: seq<nat>, instruction: bool)
    requires SiteBlock(config, 0, 0, b0) && SiteBlock(config, 1, |b0|, b1)
    requires tops == [TopSlot(config, 0, 0, instruction), TopSlot(config, 1, |b0|, instruction)]
    ensures forall s | 0 <= s < MAX_COST_SITE :: tops[s] < |b0 + b1| && (b0 + b1)[tops[s]].site == s
  {
    BlockSites(config, 0, 0, b0);
    BlockSites(config, 1, |b0|, b1);
    TopSlotIn(config, 0, 0, b0, instruction);
    TopSlotIn(config, 1, |b0|, b1, instruction);
    TopsInBlocks(b0, b1, tops, 0, 1);
  }

  /** Site 0's block followed by site 1's is a consistent arena. */
  lemma LayoutLevelsOk(config: SC.Config, b0: seq<Level>, b1: seq<Level>)
    requires SiteBlock(config, 0, 0, b0) && SiteBlock(config, 1, |b0|, b1)
    ensures LevelsOk(b0 + b1)
  {
    BlockLevelsOk([], config, 0, b0);
    assert [] + b0 == b0;
    BlockLevelsOk(b0, config, 1, b1);
  }

  /** A site's top level lies in the site's block. */
  lemma TopSlotIn(config: SC.Config, site: nat, base: nat, block: seq<Level>, instruction: bool)
    requires site < MAX_COST_SITE && SiteBlock(config, site, base, block)
    ensures base <= TopSlot(config, site, base, instruction) < base + |block|
  {
  }

  lemma TopsInBlocks(b0: seq<Level>, b1: seq<Level>, tops: seq<nat>, s0: nat, s1: nat)
    requires |tops| == MAX_COST_SITE && tops[0] < |b0| && |b0| <= tops[1] < |b0| + |b1|
    requires forall k | 0 <= k < |b0| :: b0[k].site == s0
    requires forall k | 0 <= k < |b1| :: b1[k].site == s1
    ensures (b0 + b1)[tops[0]].site == s0 && (b0 + b1)[tops[1]].site == s1
  {
    assert (b0 + b1)[tops[0]] == b0[tops[0]];
    assert (b0 + b1)[tops[1]] == b1[tops[1] - |b0|];
  }

  /** `addr & ~(lineSize - 1)` for a power-of-two line size: the start of addr's line. */
  function LineBase(addr: nat, lineSize: nat): (r: nat)
    requires lineSize >= 1
    ensures r <= addr < r + lineSize
  {
    addr - addr % lineSize
  }

  /**
   * The addresses the do-while loop of `Access` hands to
   * `AccessSingleLine`: addr itself, then the start of each next line while
   * it is below `high == addr + size`.
   */
  function Visits(addr: nat, high: nat, lineSize: nat): (r: seq<nat>)
    requires lineSize >= 1
    ensures |r| >= 1 && r[0] == addr
    decreases high - addr
  {
    var n := LineBase(addr, lineSize) + lineSize;
    [addr] + (if n < high then Visits(n, high, lineSize) else [])
  }

  lemma VisitsLength(addr: nat, high: nat, lineSize: nat)
    requires lineSize >= 1
    ensures var n := LineBase(addr, lineSize) + lineSize;
      n > addr && |Visits(addr, high, lineSize)| == 1 + (if n < high then |Visits(n, high, lineSize)| else 0)
  {
  }

  /**
   * The lines `Access` visits: consecutive lines, all starting below the
   * end of the access, the last one reaching it. So for size >= 1 every
   * line from addr's to the one holding addr + size - 1 is accessed once.
   */
  lemma VisitsCover(addr: nat, high: nat, lineSize: nat)
    requires lineSize >= 1
    ensures var v := Visits(addr, high, lineSize);
      |v| >= 1 && v[0] == addr &&
      (forall k | 0 <= k < |v| - 1 :: v[k + 1] == LineBase(v[k], lineSize) + lineSize) &&
      (forall k | 1 <= k < |v| :: v[k] < high) &&
      LineBase(v[|v| - 1], lineSize) + lineSize >= high
  {
    VisitsChain(addr, high, lineSize);
    VisitsLast(addr, high, lineSize);
    VisitsBelow(addr, high, lineSize);
  }

  /** The visited lines start at addr and each follows the line before. */
  lemma {:induction false} VisitsChain(addr: nat, high: nat, lineSize: nat)
    requires lineSize >= 1
    ensures |Visits(addr, high, lineSize)| >= 1 && Visits(addr, high, lineSize)[0] == addr
    ensures forall k | 0 <= k < |Visits(addr, high, lineSize)| - 1 ::
      Visits(addr, high, lineSize)[k + 1] == LineBase(Visits(addr, high, lineSize)[k], lineSize) + lineSize
    decreases high - addr
  {
    var n := LineBase(addr, lineSize) + lineSize;
    var v := Visits(addr, high, lineSize);
    if n < high {
      VisitsChain(n, high, lineSize);
      var w := Visits(n, high, lineSize);
      assert v == [addr] + w;
      forall k | 0 <= k < |v| - 1 ensures v[k + 1] == LineBase(v[k], lineSize) + lineSize {
        if k > 0 {
          assert v[k + 1] == w[k] && v[k] == w[k - 1];
        }
      }
    } else {
      assert v == [addr];
    }
  }

  /** The line after the last visited one starts at or beyond high. */
  lemma {:induction false} VisitsLast(addr: nat, high: nat, lineSize: nat)
    requires lineSize >= 1
    ensures |Visits(addr, high, lineSize)| >= 1
    ensures LineBase(Visits(addr, high, lineSize)[|Visits(addr, high, lineSize)| - 1], lineSize) + lineSize >= high
    decreases high - addr
  {
    var n := LineBase(addr, lineSize) + lineSize;
    var v := Visits(addr, high, lineSize);
    if n < high {
      VisitsLast(n, high, lineSize);
      var w := Visits(n, high, lineSize);
      assert v == [addr] + w;
      assert v[|v| - 1] == w[|w| - 1];
    } else {
      assert v == [addr];
    }
  }

  /** Every visited line after the first starts below high. */
  lemma {:induction false} VisitsBelow(addr: nat, high: nat, lineSize: nat)
    requires lineSize >= 1
    ensures forall k | 1 <= k < |Visits(addr, high, lineSize)| :: Visits(addr, high, lineSize)[k] < high
    decreases high - addr
  {
    var n := LineBase(addr, lineSize) + lineSize;
    var v := Visits(addr, high, lineSize);
    if n < high {
      VisitsBelow(n, high, lineSize);
      var w := Visits(n, high, lineSize);
      assert v == [addr] + w;
      forall k | 1 <= k < |v| ensures v[k] < high {
        assert v[k] == w[k - 1];
      }
    } else {
      assert v == [addr];
    }
  }

  /**
   * The I-cache lines one instruction fetch reads and the new last line:
   * nothing when it stays within the last line fetched, the next line
   * when it reaches into it, else its own line and, when it reaches into
   * the next line, that one too.
   */
  function IFetch(last: nat, addr: nat, size: nat, lineSize: nat): (f: (seq<nat>, nat))
    requires lineSize >= 1
    ensures var cur := LineBase(addr, lineSize);
      (f.0 == [] <==> cur == last && addr + size < cur + lineSize) &&
      (f.0 == [] ==> f.1 == last) &&
      (f.0 != [] ==> f.1 == f.0[|f.0| - 1] && f.0[|f.0| - 1] <= cur + lineSize) &&
      |f.0| <= 2 && forall k | 0 <= k < |f.0| :: f.0[k] == cur || f.0[k] == cur + lineSize
  {
    var curLine := LineBase(addr, lineSize);
    var nextLine := curLine + lineSize;
    if curLine == last then
      if addr + size >= nextLine then ([nextLine], nextLine) else ([], last)
    else if addr + size >= nextLine then ([curLine, nextLine], nextLine)
    else ([curLine], curLine)
  }

  /**
   * After n single-line accesses of one type: n more accesses of that type,
   * all of them hits iff allHit, and the other type untouched.
   */
  predicate Counted(c0: AccessCounters, c: AccessCounters, accessType: AccessType, n: nat, allHit: bool)
  {
    c.Accesses(accessType) == c0.Accesses(accessType) + n &&
    c.Hits(accessType) <= c0.Hits(accessType) + n &&
    (allHit <==> c.Hits(accessType) == c0.Hits(accessType) + n) &&
    forall t: AccessType, h: bool | t != accessType :: c.Count(t, h) == c0.Count(t, h)
  }

  lemma CountedMeans(c0: AccessCounters, c: AccessCounters, accessType: AccessType, n: nat, allHit: bool)
    requires Counted(c0, c, accessType, n, allHit)
    ensures c.Accesses(accessType) == c0.Accesses(accessType) + n
    ensures allHit <==> c.Hits(accessType) == c0.Hits(accessType) + n
    ensures forall t: AccessType, h: bool | t != accessType :: c.Count(t, h) == c0.Count(t, h)
  {
  }

  lemma CountedStep(c0: AccessCounters, c: AccessCounters, accessType: AccessType, n: nat, allHit: bool, hit: bool)
    requires Counted(c0, c, accessType, n, allHit)
    ensures Counted(c0, c.Record(accessType, hit), accessType, n + 1, allHit && hit)
  {
    RecordCounts(c, accessType, hit);
  }

  /**
   * The I-cache level top fetched, from `before` to `after`, the lines
   * `IFetch` names for the last line oldLast, and newLast is the last line
   * now.
   */
  predicate Fetched(before: seq<Level>, after: seq<Level>, top: nat, oldLast: nat, newLast: nat, addr: nat, size: nat)
  {
    top < |before| && top < |after| && before[top].CacheLevel? && before[top].lineSize >= 1 &&
    var f := IFetch(oldLast, addr, size, before[top].lineSize);
    newLast == f.1 && after[top].access.Accesses(Load) == before[top].access.Accesses(Load) + |f.0|
  }

  /** Level top counted one access of this type for each line `Access` visits. */
  predicate Accessed(before: seq<Level>, after: seq<Level>, top: nat, addr: nat, size: nat, accessType: AccessType)
  {
    top < |before| && top < |after| && LineSizeOf(before[top]) >= 1 &&
    after[top].access.Accesses(accessType) ==
      before[top].access.Accesses(accessType) + |Visits(addr, addr + size, LineSizeOf(before[top]))|
  }

  /** Both counters of one access type back to 0. */
  function Cleared(c: AccessCounters, accessType: AccessType): (r: AccessCounters)
    ensures forall h: bool :: r.Count(accessType, h) == 0
    ensures forall t: AccessType, h: bool | t != accessType :: r.Count(t, h) == c.Count(t, h)
  {
    match accessType
    case Load => c.(loadMiss := 0, loadHit := 0)
    case Store => c.(storeMiss := 0, storeHit := 0)
  }

  /**
   * The `index` values `CACHE_LEVEL::Flush` reads `_sets` at, as written:
   * from NumSets() down to 0.
   */
  function FlushOrderAsWritten(numSets: nat): (r: seq<int>)
    ensures |r| == numSets + 1 && forall k | 0 <= k < |r| :: r[k] == numSets - k
    decreases numSets
  {
    if numSets == 0 then [0] else [numSets] + FlushOrderAsWritten(numSets - 1)
  }

  /** The first set the loop as written reads is one past the last of the NumSets() sets. */
  lemma FlushReadsPastEnd(l: Level)
    requires l.CacheLevel? && |l.sets| == NumSets(l)
    ensures FlushOrderAsWritten(NumSets(l))[0] == |l.sets|
  {
  }

  /**
   * What a cache level's single-line access did: it hit iff the tag was
   * in its set; a forwarded miss replaced a tag of the set with it and
   * counts one access at the next level; anything else only looked the
   * tag up (an LRU hit promotes it) and leaves the other levels alone.
   */
  ghost predicate CacheOutcome(before: seq<Level>, after: seq<Level>, idx: nat, addr: nat,
                               accessType: AccessType, hit: bool)
    requires idx < |before| && before[idx].CacheLevel? && LevelOk(before, idx)
    requires SameShapes(before, after)
  {
    var l := before[idx];
    var (tag, setIndex) := SplitAddress(addr, l.lineShift, l.setIndexMask);
    (hit <==> tag in Contents(l.sets[setIndex])) &&
    after[idx].sets == l.sets[setIndex := if Forwards(l, hit, accessType) then Replace(l.sets[setIndex], tag)
                                          else AfterFind(l.sets[setIndex], tag)] &&
    (Forwards(l, hit, accessType) ==>
      tag in Contents(after[idx].sets[setIndex]) &&
      after[l.next].access.Accesses(accessType) == before[l.next].access.Accesses(accessType) + 1) &&
    (!Forwards(l, hit, accessType) ==>
      forall j | 0 <= j < |after| && j != idx :: after[j] == before[j])
  }

  /** `CacheOutcome` from what the lookup found and what the level became. */
  lemma Outcome(before: seq<Level>, after: seq<Level>, idx: nat, addr: nat, accessType: AccessType, hit: bool)
    requires idx < |before| && before[idx].CacheLevel? && LevelOk(before, idx) && SameShapes(before, after)
    requires var l := before[idx]; var (tag, setIndex) := SplitAddress(addr, l.lineShift, l.setIndexMask);
      (hit <==> tag in Contents(l.sets[setIndex])) &&
      after[idx].sets == l.sets[setIndex := if Forwards(l, hit, accessType) then Replace(l.sets[setIndex], tag)
                                            else AfterFind(l.sets[setIndex], tag)] &&
      (Forwards(l, hit, accessType) ==>
        tag in Contents(after[idx].sets[setIndex]) &&
        after[l.next].access.Accesses(accessType) == before[l.next].access.Accesses(accessType) + 1) &&
      (!Forwards(l, hit, accessType) ==> after == before[idx := after[idx]])
    ensures CacheOutcome(before, after, idx, addr, accessType, hit)
  {
  }

  /** A miss that allocates: every load miss, and a store miss under STORE_ALLOCATE. */
  predicate Forwards(l: Level, hit: bool, accessType: AccessType)
    requires l.CacheLevel?
  {
    !hit && (accessType == Load || l.allocation == STORE_ALLOCATE)
  }

  /**
   * The segment after a hit by `bblid`: the block joins the set (becoming
   * the head of an empty one) and the count is raised to the thread count.
   */
  function HitSegment(seg: DR.Segment, bblid: int, threadCount: nat): (r: DR.Segment)
    requires DR.SegOk(seg)
    ensures DR.SegOk(r) && bblid in r.elems
    ensures DR.Elems(r.elems) == DR.Elems(seg.elems) + {bblid}
    ensures r.head == if seg.elems == [] then Some(bblid) else seg.head
    ensures r.count == if threadCount > seg.count then threadCount else seg.count
  {
    var r := AtLeastThreads(DR.SegInsert(seg, bblid), threadCount);
    assert bblid in DR.Elems(r.elems);
    r
  }

  /** The segment a store restarts: clear, then the one block, with the thread count. */
  function Restarted(seg: DR.Segment, bblid: int, threadCount: nat): (r: DR.Segment)
    requires DR.SegOk(seg)
    ensures DR.SegOk(r) && r.elems == [bblid] && r.head == Some(bblid)
    ensures r.count == if threadCount > 1 then threadCount else 1
  {
    var r := DR.SegInsert(DR.SegClear(seg), bblid);
    assert r.elems == [bblid] by {
      SortedSingleton(r.elems, bblid);
    }
    AtLeastThreads(r, threadCount)
  }

  lemma SortedSingleton(s: seq<int>, x: int)
    requires DR.StrictlySorted(s) && DR.Elems(s) == {x}
    ensures s == [x]
  {
    DR.SortedUnique(s, [x]);
  }

  // ---------------------------------------------------------------------
  // The reuse bookkeeping of one single-line access
  // ---------------------------------------------------------------------

  /** Every segment of a tag-to-segment map is well formed. */
  predicate SegsOk(m: map<nat, DR.Segment>)
  {
    forall t | t in m :: DR.SegOk(m[t])
  }

  /**
   * What an access does to the reuse bookkeeping: the tag-to-segment map
   * afterwards and the segments it pushed into the trie, in order.
   */
  datatype ReuseEffect = ReuseEffect(segs: map<nat, DR.Segment>, pushes: seq<DR.Segment>)

  predicate EffectOk(e: ReuseEffect)
  {
    SegsOk(e.segs) && forall k | 0 <= k < |e.pushes| :: DR.SegOk(e.pushes[k])
  }

  /**
   * `InsertOnHit` on the map: unless the block is the global block (and
   * global blocks are off) it joins the tag's segment; a store then pushes
   * that segment and restarts it. No other tag's segment changes.
   */
  function HitEffect(m: map<nat, DR.Segment>, tag: nat, accessType: AccessType, bblid: int,
                     threadCount: nat, enableGlobalBbl: bool): (r: ReuseEffect)
    requires SegsOk(m)
    ensures EffectOk(r)
    ensures forall t | t != tag :: (t in r.segs <==> t in m) && (t in m ==> r.segs[t] == m[t])
    ensures accessType == Load ==> r.pushes == []
    ensures (bblid != GLOBAL_BBLID || enableGlobalBbl) && accessType == Store ==> r.pushes != []
  {
    if bblid == GLOBAL_BBLID && !enableGlobalBbl then ReuseEffect(m, [])
    else
      var seg := HitSegment(DR.SegmentOf(m, tag), bblid, threadCount);
      if accessType == Store then ReuseEffect(m[tag := Restarted(seg, bblid, threadCount)], [seg])
      else ReuseEffect(m[tag := seg], [])
  }

  /**
   * The reuse bookkeeping of `AccessSingleLine` at level idx, read off the
   * levels as they were before the access: memory changes nothing; a cache
   * level that forwards its miss hands on to `ForwardReuse`; a CPU cache
   * level that hits runs `InsertOnHit`; any other access changes nothing.
   */
  function ChainReuse(levels: seq<Level>, idx: nat, addr: nat, accessType: AccessType, bblid: int,
                      threadCount: nat, enableGlobalBbl: bool, m: map<nat, DR.Segment>): (r: ReuseEffect)
    requires LevelsOk(levels) && idx < |levels| && SegsOk(m)
    ensures EffectOk(r)
    decreases |levels| - idx, 0
  {
    assert LevelOk(levels, idx);
    var l := levels[idx];
    if l.MemoryLevel? then ReuseEffect(m, [])
    else
      var (tag, setIndex) := SplitAddress(addr, l.lineShift, l.setIndexMask);
      var hit := tag in Contents(l.sets[setIndex]);
      if Forwards(l, hit, accessType) then
        ForwardReuse(levels, l.next, TracksReuse(l), tag, addr, accessType, bblid, threadCount, enableGlobalBbl, m)
      else if hit && TracksReuse(l) then HitEffect(m, tag, accessType, bblid, threadCount, enableGlobalBbl)
      else ReuseEffect(m, [])
  }

  /**
   * A forwarded miss: a CPU level (`tracks`) whose next level is memory
   * first splits the tag's segment (pushes it and clears it), then the next
   * level is accessed.
   */
  function ForwardReuse(levels: seq<Level>, next: nat, tracks: bool, tag: nat, addr: nat, accessType: AccessType,
                        bblid: int, threadCount: nat, enableGlobalBbl: bool, m: map<nat, DR.Segment>): (r: ReuseEffect)
    requires LevelsOk(levels) && next < |levels| && SegsOk(m)
    ensures EffectOk(r)
    decreases |levels| - next, 1
  {
    if LevelName(levels[next]) == MEM && tracks then
      var seg := DR.SegmentOf(m, tag);
      var e := ChainReuse(levels, next, addr, accessType, bblid, threadCount, enableGlobalBbl, m[tag := DR.SegClear(seg)]);
      ReuseEffect(e.segs, [seg] + e.pushes)
    else ChainReuse(levels, next, addr, accessType, bblid, threadCount, enableGlobalBbl, m)
  }

  /** `ChainReuse` at a cache level, for the tag, set and hit its lookup gives. */
  lemma ChainReuseCache(levels: seq<Level>, idx: nat, addr: nat, accessType: AccessType, bblid: int,
                        threadCount: nat, enableGlobalBbl: bool, m: map<nat, DR.Segment>,
                        tag: nat, setIndex: nat, hit: bool)
    requires LevelsOk(levels) && idx < |levels| && SegsOk(m) && levels[idx].CacheLevel? && LevelOk(levels, idx)
    requires (tag, setIndex) == SplitAddress(addr, levels[idx].lineShift, levels[idx].setIndexMask)
    requires hit <==> tag in Contents(levels[idx].sets[setIndex])
    ensures var l := levels[idx];
      ChainReuse(levels, idx, addr, accessType, bblid, threadCount, enableGlobalBbl, m) ==
      if Forwards(l, hit, accessType) then
        ForwardReuse(levels, l.next, TracksReuse(l), tag, addr, accessType, bblid, threadCount, enableGlobalBbl, m)
      else if hit && TracksReuse(l) then HitEffect(m, tag, accessType, bblid, threadCount, enableGlobalBbl)
      else ReuseEffect(m, [])
  {
  }

  // ---------------------------------------------------------------------
  // The levels after one single-line access
  // ---------------------------------------------------------------------

  /** The set of a cache level after its lookup of the tag: the replacement on an allocating miss. */
  function SetAfter(l: Level, tag: nat, setIndex: nat, hit: bool, accessType: AccessType): (r: CacheSet)
    requires l.CacheLevel? && setIndex < |l.sets| && SetValid(l.sets[setIndex])
    ensures SetValid(r) && PolicyOf(r) == PolicyOf(l.sets[setIndex]) && Associativity(r) == Associativity(l.sets[setIndex])
    ensures hit ==> multiset(Contents(r)) == multiset(Contents(l.sets[setIndex]))
    ensures Forwards(l, hit, accessType) ==> tag in Contents(r)
  {
    if Forwards(l, hit, accessType) then Replace(l.sets[setIndex], tag) else AfterFind(l.sets[setIndex], tag)
  }

  /**
   * The levels after `AccessSingleLine` at level idx, read off the levels
   * before it: memory counts a hit; a cache level counts its lookup and
   * keeps the set the lookup leaves, except that an allocating miss
   * replaces a tag of the set with the line's and accesses the next level
   * in turn. Levels above idx and the other site's levels are kept.
   */
  function ChainLevels(levels: seq<Level>, idx: nat, addr: nat, accessType: AccessType): (r: seq<Level>)
    requires LevelsOk(levels) && idx < |levels|
    ensures |r| == |levels| && KeepsFrom(levels, r, idx)
    decreases |levels| - idx
  {
    assert LevelOk(levels, idx);
    var l := levels[idx];
    if l.MemoryLevel? then levels[idx := MemoryLevel(l.site, l.access.Record(accessType, true), l.hitCost)]
    else
      var (tag, setIndex) := SplitAddress(addr, l.lineShift, l.setIndexMask);
      var hit := tag in Contents(l.sets[setIndex]);
      var l' := l.(sets := l.sets[setIndex := SetAfter(l, tag, setIndex, hit, accessType)],
                   access := l.access.Record(accessType, hit));
      if Forwards(l, hit, accessType) then ChainLevels(levels, l.next, addr, accessType)[idx := l']
      else levels[idx := l']
  }

  /** `ChainLevels` at a cache level, for the tag, set and hit its lookup gives. */
  lemma ChainLevelsCache(levels: seq<Level>, idx: nat, addr: nat, accessType: AccessType,
                         tag: nat, setIndex: nat, hit: bool)
    requires LevelsOk(levels) && idx < |levels| && levels[idx].CacheLevel? && LevelOk(levels, idx)
    requires (tag, setIndex) == SplitAddress(addr, levels[idx].lineShift, levels[idx].setIndexMask)
    requires hit <==> tag in Contents(levels[idx].sets[setIndex])
    ensures var l := levels[idx];
      var l' := l.(sets := l.sets[setIndex := SetAfter(l, tag, setIndex, hit, accessType)],
                   access := l.access.Record(accessType, hit));
      ChainLevels(levels, idx, addr, accessType) ==
      if Forwards(l, hit, accessType) then ChainLevels(levels, l.next, addr, accessType)[idx := l']
      else levels[idx := l']
  {
  }

  /** An access keeps the arena consistent and every level's shape: only set contents and counters change. */
  lemma {:induction false} ChainLevelsOk(levels: seq<Level>, idx: nat, addr: nat, accessType: AccessType)
    requires LevelsOk(levels) && idx < |levels|
    ensures LevelsOk(ChainLevels(levels, idx, addr, accessType))
    ensures SameShapes(levels, ChainLevels(levels, idx, addr, accessType))
    decreases |levels| - idx
  {
    assert LevelOk(levels, idx);
    var l := levels[idx];
    var r := ChainLevels(levels, idx, addr, accessType);
    if l.MemoryLevel? {
      SameShapeOk(levels, idx, r[idx]);
    } else {
      var (tag, setIndex) := SplitAddress(addr, l.lineShift, l.setIndexMask);
      var hit := tag in Contents(l.sets[setIndex]);
      var l' := r[idx];
      SetShape(l, setIndex, SetAfter(l, tag, setIndex, hit, accessType), l.access.Record(accessType, hit));
      if Forwards(l, hit, accessType) {
        var rest := ChainLevels(levels, l.next, addr, accessType);
        ChainLevelsOk(levels, l.next, addr, accessType);
        assert rest[idx] == l;
        SameShapeOk(rest, idx, l');
        SameShapesTrans(levels, rest, r);
      } else {
        SameShapeOk(levels, idx, l');
      }
    }
  }

  /**
   * The levels and the reuse bookkeeping after single-line accesses of
   * level idx at the given lines, one after another: each line sees the
   * sets and segments the lines before it left, and the pushes follow
   * in line order.
   */
  function LinesEffect(levels: seq<Level>, idx: nat, lines: seq<nat>, accessType: AccessType, bblid: int,
                       threadCount: nat, enableGlobalBbl: bool, m: map<nat, DR.Segment>): (seq<Level>, ReuseEffect)
    requires LevelsOk(levels) && idx < |levels| && SegsOk(m)
    decreases |lines|
  {
    if lines == [] then (levels, ReuseEffect(m, []))
    else
      var e := ChainReuse(levels, idx, lines[0], accessType, bblid, threadCount, enableGlobalBbl, m);
      var ls := ChainLevels(levels, idx, lines[0], accessType);
      ChainLevelsOk(levels, idx, lines[0], accessType);
      var rest := LinesEffect(ls, idx, lines[1..], accessType, bblid, threadCount, enableGlobalBbl, e.segs);
      (rest.0, ReuseEffect(rest.1.segs, e.pushes + rest.1.pushes))
  }

  /** `LinesEffect` of the lines `Access` visits from addr: the first line, then those from the next line start. */
  lemma LinesEffectStep(levels: seq<Level>, idx: nat, addr: nat, high: nat, lineSize: nat, accessType: AccessType,
                        bblid: int, threadCount: nat, enableGlobalBbl: bool, m: map<nat, DR.Segment>)
    requires LevelsOk(levels) && idx < |levels| && SegsOk(m) && lineSize >= 1
    ensures LevelsOk(ChainLevels(levels, idx, addr, accessType))
    ensures var e := ChainReuse(levels, idx, addr, accessType, bblid, threadCount, enableGlobalBbl, m);
      var ls := ChainLevels(levels, idx, addr, accessType);
      var n := LineBase(addr, lineSize) + lineSize;
      var rest := LinesEffect(ls, idx, if n < high then Visits(n, high, lineSize) else [], accessType, bblid,
                              threadCount, enableGlobalBbl, e.segs);
      LinesEffect(levels, idx, Visits(addr, high, lineSize), accessType, bblid, threadCount, enableGlobalBbl, m) ==
        (rest.0, ReuseEffect(rest.1.segs, e.pushes + rest.1.pushes))
  {
    var n := LineBase(addr, lineSize) + lineSize;
    ChainLevelsOk(levels, idx, addr, accessType);
    var v := Visits(addr, high, lineSize);
    assert v[1..] == if n < high then Visits(n, high, lineSize) else [];
  }

  /**
   * Where the loop of `Access` stands against the whole fold F: while lines
   * remain, the fold of the lines from a on gives F's levels and map, and
   * F's pushes are those made so far followed by theirs; once done, the
   * levels, map and pushes are F's.
   */
  ghost predicate Folded(F: (seq<Level>, ReuseEffect), levels: seq<Level>, m: map<nat, DR.Segment>,
                         pushed: seq<DR.Segment>, idx: nat, a: nat, high: nat, lineSize: nat, more: bool,
                         accessType: AccessType, bblid: int, threadCount: nat, enableGlobalBbl: bool)
  {
    LevelsOk(levels) && idx < |levels| && SegsOk(m) && lineSize >= 1 &&
    if more then
      var R := LinesEffect(levels, idx, Visits(a, high, lineSize), accessType, bblid, threadCount, enableGlobalBbl, m);
      F.0 == R.0 && F.1.segs == R.1.segs && F.1.pushes == pushed + R.1.pushes
    else levels == F.0 && m == F.1.segs && F.1.pushes == pushed
  }

  /** One more line of `Access`, with lines left after it: the fold goes on from the next line. */
  lemma FoldedNext(F: (seq<Level>, ReuseEffect), levels: seq<Level>, after: seq<Level>, m: map<nat, DR.Segment>,
                   pushed: seq<DR.Segment>, idx: nat, a: nat, high: nat, lineSize: nat,
                   accessType: AccessType, bblid: int, threadCount: nat, enableGlobalBbl: bool)
    requires Folded(F, levels, m, pushed, idx, a, high, lineSize, true, accessType, bblid, threadCount, enableGlobalBbl)
    requires after == ChainLevels(levels, idx, a, accessType)
    requires LineBase(a, lineSize) + lineSize < high
    ensures var e := ChainReuse(levels, idx, a, accessType, bblid, threadCount, enableGlobalBbl, m);
      Folded(F, after, e.segs, pushed + e.pushes, idx, LineBase(a, lineSize) + lineSize, high, lineSize, true,
             accessType, bblid, threadCount, enableGlobalBbl)
  {
    LinesEffectStep(levels, idx, a, high, lineSize, accessType, bblid, threadCount, enableGlobalBbl, m);
    var e := ChainReuse(levels, idx, a, accessType, bblid, threadCount, enableGlobalBbl, m);
    var rest := LinesEffect(after, idx, Visits(LineBase(a, lineSize) + lineSize, high, lineSize), accessType, bblid,
                            threadCount, enableGlobalBbl, e.segs);
    assert pushed + (e.pushes + rest.1.pushes) == (pushed + e.pushes) + rest.1.pushes;
  }

  /** The last line of `Access`: the levels, map and pushes are the fold's. */
  lemma FoldedLast(F: (seq<Level>, ReuseEffect), levels: seq<Level>, after: seq<Level>, m: map<nat, DR.Segment>,
                   pushed: seq<DR.Segment>, idx: nat, a: nat, high: nat, lineSize: nat,
                   accessType: AccessType, bblid: int, threadCount: nat, enableGlobalBbl: bool)
    requires Folded(F, levels, m, pushed, idx, a, high, lineSize, true, accessType, bblid, threadCount, enableGlobalBbl)
    requires after == ChainLevels(levels, idx, a, accessType)
    requires LineBase(a, lineSize) + lineSize >= high
    ensures var e := ChainReuse(levels, idx, a, accessType, bblid, threadCount, enableGlobalBbl, m);
      Folded(F, after, e.segs, pushed + e.pushes, idx, a, high, lineSize, false,
             accessType, bblid, threadCount, enableGlobalBbl)
  {
    LinesEffectStep(levels, idx, a, high, lineSize, accessType, bblid, threadCount, enableGlobalBbl, m);
    var e := ChainReuse(levels, idx, a, accessType, bblid, threadCount, enableGlobalBbl, m);
    assert LinesEffect(after, idx, [], accessType, bblid, threadCount, enableGlobalBbl, e.segs) == (after, ReuseEffect(e.segs, []));
    assert pushed + (e.pushes + []) == pushed + e.pushes;
  }

  /** The levels from idx on after the access depend only on the levels from idx on. */
  lemma {:induction false} ChainLevelsFrame(a: seq<Level>, b: seq<Level>, idx: nat, addr: nat, accessType: AccessType)
    requires LevelsOk(a) && LevelsOk(b) && |a| == |b| && idx < |a|
    requires forall j | idx <= j < |a| :: a[j] == b[j]
    ensures forall j | idx <= j < |a| ::
      ChainLevels(a, idx, addr, accessType)[j] == ChainLevels(b, idx, addr, accessType)[j]
    decreases |a| - idx
  {
    assert LevelOk(a, idx);
    var l := a[idx];
    if l.CacheLevel? {
      ChainLevelsFrame(a, b, l.next, addr, accessType);
    }
  }

  /**
   * Accessing the next level from levels that differ from the old ones
   * only at an earlier level idx gives the old chain with that level
   * changed.
   */
  lemma ChainLevelsAfterSet(before: seq<Level>, mid: seq<Level>, idx: nat, next: nat, addr: nat, accessType: AccessType)
    requires LevelsOk(before) && LevelsOk(mid) && idx < next < |before| && |mid| == |before|
    requires mid == before[idx := mid[idx]]
    ensures ChainLevels(mid, next, addr, accessType) == ChainLevels(before, next, addr, accessType)[idx := mid[idx]]
  {
    var x := ChainLevels(mid, next, addr, accessType);
    var y := ChainLevels(before, next, addr, accessType)[idx := mid[idx]];
    ChainLevelsFrame(mid, before, next, addr, accessType);
    forall j | 0 <= j < |x| ensures x[j] == y[j] {
    }
  }

  /** After a load at a cache level, that level's set holds the line. */
  lemma LoadInstalls(levels: seq<Level>, idx: nat, addr: nat)
    requires LevelsOk(levels) && idx < |levels| && levels[idx].CacheLevel?
    ensures var l := levels[idx]; var (tag, setIndex) := SplitAddress(addr, l.lineShift, l.setIndexMask);
      setIndex < |l.sets| && tag in Contents(ChainLevels(levels, idx, addr, Load)[idx].sets[setIndex])
  {
    assert LevelOk(levels, idx);
    var l := levels[idx];
    var (tag, setIndex) := SplitAddress(addr, l.lineShift, l.setIndexMask);
    var hit := tag in Contents(l.sets[setIndex]);
    var r := SetAfter(l, tag, setIndex, hit, Load);
    if hit {
      assert tag in multiset(Contents(l.sets[setIndex]));
      assert tag in multiset(Contents(r));
    }
    assert ChainLevels(levels, idx, addr, Load)[idx].sets[setIndex] == r;
  }

  /**
   * A load that misses a cache level is a load of the next level: from
   * there on the levels are those of the next level's own access, so a
   * next cache level holds the line too.
   */
  lemma LoadMissFillsNext(levels: seq<Level>, idx: nat, addr: nat)
    requires LevelsOk(levels) && idx < |levels| && levels[idx].CacheLevel? && LevelOk(levels, idx)
    requires var l := levels[idx]; var (tag, setIndex) := SplitAddress(addr, l.lineShift, l.setIndexMask);
      tag !in Contents(l.sets[setIndex])
    ensures var l := levels[idx];
      && l.next < |levels|
      && forall j | l.next <= j < |levels| ::
           ChainLevels(levels, idx, addr, Load)[j] == ChainLevels(levels, l.next, addr, Load)[j]
    ensures var l := levels[idx]; var n := levels[l.next];
      n.CacheLevel? ==> (
        var (tag, setIndex) := SplitAddress(addr, n.lineShift, n.setIndexMask);
        setIndex < |n.sets| && tag in Contents(ChainLevels(levels, idx, addr, Load)[l.next].sets[setIndex]))
  {
    var l := levels[idx];
    assert Forwards(l, false, Load);
    if levels[l.next].CacheLevel? {
      LoadInstalls(levels, l.next, addr);
    }
  }

  /** The memory level never touches the reuse bookkeeping. */
  lemma MemoryKeepsReuse(levels: seq<Level>, idx: nat, addr: nat, accessType: AccessType, bblid: int,
                         threadCount: nat, enableGlobalBbl: bool, m: map<nat, DR.Segment>)
    requires LevelsOk(levels) && idx < |levels| && SegsOk(m) && levels[idx].MemoryLevel?
    ensures ChainReuse(levels, idx, addr, accessType, bblid, threadCount, enableGlobalBbl, m) == ReuseEffect(m, [])
  {
  }

  /**
   * A CPU level right above memory that misses on a load pushes the tag's
   * segment and leaves it cleared, with its head kept.
   */
  lemma SplitAboveMemory(levels: seq<Level>, idx: nat, addr: nat, bblid: int,
                         threadCount: nat, enableGlobalBbl: bool, m: map<nat, DR.Segment>)
    requires LevelsOk(levels) && idx < |levels| && SegsOk(m) && levels[idx].CacheLevel? && LevelOk(levels, idx)
    requires var l := levels[idx];
      && |l.hitCost| == MAX_COST_SITE && TracksReuse(l)
      && l.next < |levels| && levels[l.next].MemoryLevel?
      && SplitAddress(addr, l.lineShift, l.setIndexMask).0 !in Contents(l.sets[SplitAddress(addr, l.lineShift, l.setIndexMask).1])
    ensures var l := levels[idx]; var tag := SplitAddress(addr, l.lineShift, l.setIndexMask).0;
      var r := ChainReuse(levels, idx, addr, Load, bblid, threadCount, enableGlobalBbl, m);
      r.pushes == [DR.SegmentOf(m, tag)] && tag in r.segs && r.segs[tag].elems == [] && r.segs[tag].count == 1 &&
      r.segs[tag].head == DR.SegmentOf(m, tag).head
  {
    assert LevelOk(levels, idx);
    var l := levels[idx];
    var tag := SplitAddress(addr, l.lineShift, l.setIndexMask).0;
    var m' := m[tag := DR.SegClear(DR.SegmentOf(m, tag))];
    assert Forwards(l, false, Load);
    MemoryKeepsReuse(levels, l.next, addr, Load, bblid, threadCount, enableGlobalBbl, m');
  }

  /** The bookkeeping from level idx on reads only the levels from idx on. */
  lemma {:induction false} ChainReuseFrame(a: seq<Level>, b: seq<Level>, idx: nat, addr: nat, accessType: AccessType,
                                           bblid: int, threadCount: nat, enableGlobalBbl: bool, m: map<nat, DR.Segment>)
    requires LevelsOk(a) && LevelsOk(b) && |a| == |b| && idx < |a| && SegsOk(m)
    requires forall j | idx <= j < |a| :: a[j] == b[j]
    ensures ChainReuse(a, idx, addr, accessType, bblid, threadCount, enableGlobalBbl, m) ==
            ChainReuse(b, idx, addr, accessType, bblid, threadCount, enableGlobalBbl, m)
    decreases |a| - idx
  {
    assert LevelOk(a, idx);
    var l := a[idx];
    if l.CacheLevel? {
      var tag := SplitAddress(addr, l.lineShift, l.setIndexMask).0;
      var m' := m[tag := DR.SegClear(DR.SegmentOf(m, tag))];
      ChainReuseFrame(a, b, l.next, addr, accessType, bblid, threadCount, enableGlobalBbl, m');
      ChainReuseFrame(a, b, l.next, addr, accessType, bblid, threadCount, enableGlobalBbl, m);
    }
  }

  /** The bookkeeping of a forwarded miss reads only the levels from the next one on. */
  lemma ForwardReuseFrame(a: seq<Level>, b: seq<Level>, next: nat, tracks: bool, tag: nat, addr: nat,
                          accessType: AccessType, bblid: int, threadCount: nat, enableGlobalBbl: bool,
                          m: map<nat, DR.Segment>)
    requires LevelsOk(a) && LevelsOk(b) && |a| == |b| && next < |a| && SegsOk(m)
    requires forall j | next <= j < |a| :: a[j] == b[j]
    ensures ForwardReuse(a, next, tracks, tag, addr, accessType, bblid, threadCount, enableGlobalBbl, m) ==
            ForwardReuse(b, next, tracks, tag, addr, accessType, bblid, threadCount, enableGlobalBbl, m)
  {
    ChainReuseFrame(a, b, next, addr, accessType, bblid, threadCount, enableGlobalBbl, m);
    ChainReuseFrame(a, b, next, addr, accessType, bblid, threadCount, enableGlobalBbl,
                    m[tag := DR.SegClear(DR.SegmentOf(m, tag))]);
  }

  /**
   * `ForwardReuse` from its two steps: the split (or nothing) that takes
   * the map from m to m1 and the trie from n0 to n1, then the access at the
   * next level, read off levels mid that agree with the levels before from
   * the next level on.
   */
  lemma ForwardStep(before: seq<Level>, mid: seq<Level>, next: nat, tracks: bool, tag: nat, addr: nat,
                    accessType: AccessType, bblid: int, threadCount: nat, enableGlobalBbl: bool,
                    m: map<nat, DR.Segment>, m1: map<nat, DR.Segment>, m2: map<nat, DR.Segment>,
                    n0: seq<DR.TrieNode>, n1: seq<DR.TrieNode>, n2: seq<DR.TrieNode>)
    requires LevelsOk(before) && LevelsOk(mid) && |before| == |mid| && next < |before|
    requires forall j | next <= j < |before| :: before[j] == mid[j]
    requires SegsOk(m) && SegsOk(m1) && DR.WellFormed(n2)
    requires LevelName(before[next]) == MEM && tracks ==>
      m1 == m[tag := DR.SegClear(DR.SegmentOf(m, tag))] && Pushes(n0, n1, [DR.SegmentOf(m, tag)])
    requires !(LevelName(before[next]) == MEM && tracks) ==> m1 == m && n1 == n0
    requires var e := ChainReuse(mid, next, addr, accessType, bblid, threadCount, enableGlobalBbl, m1);
      m2 == e.segs && Pushes(n1, n2, e.pushes)
    ensures var e := ForwardReuse(before, next, tracks, tag, addr, accessType, bblid, threadCount, enableGlobalBbl, m);
      m2 == e.segs && Pushes(n0, n2, e.pushes)
  {
    ChainReuseFrame(before, mid, next, addr, accessType, bblid, threadCount, enableGlobalBbl, m1);
    if LevelName(before[next]) == MEM && tracks {
      PushesTrans(n0, n1, n2, [DR.SegmentOf(m, tag)],
        ChainReuse(mid, next, addr, accessType, bblid, threadCount, enableGlobalBbl, m1).pushes);
    }
  }

  /**
   * The trie after pushing the segments ps in order: it only grows, it is
   * unchanged when every push is of at most one block, and it holds a leaf
   * for every pushed segment of two or more blocks.
   */
  ghost predicate Pushes(before: seq<DR.TrieNode>, after: seq<DR.TrieNode>, ps: seq<DR.Segment>)
  {
    DR.Grows(before, after) && (AllSingle(ps) ==> after == before) && LeavesHeld(after, ps)
  }

  /** Every segment of ps is of at most one block. */
  predicate AllSingle(ps: seq<DR.Segment>)
  {
    forall k | 0 <= k < |ps| :: |ps[k].elems| <= 1
  }

  /** The trie holds a leaf for every segment of ps of two or more blocks. */
  ghost predicate LeavesHeld(trie: seq<DR.TrieNode>, ps: seq<DR.Segment>)
  {
    forall k | 0 <= k < |ps| && |ps[k].elems| > 1 ::
      ps[k].head.Some? && DR.TrieHolds(trie, DR.Elems(ps[k].elems), ps[k].head.value)
  }

  lemma PushesTrans(a: seq<DR.TrieNode>, b: seq<DR.TrieNode>, c: seq<DR.TrieNode>, p: seq<DR.Segment>, q: seq<DR.Segment>)
    requires Pushes(a, b, p) && Pushes(b, c, q) && DR.WellFormed(c)
    ensures Pushes(a, c, p + q)
  {
    var r := p + q;
    forall k | 0 <= k < |r| && |r[k].elems| > 1
      ensures r[k].head.Some? && DR.TrieHolds(c, DR.Elems(r[k].elems), r[k].head.value)
    {
      if k < |p| {
        assert r[k] == p[k];
        DR.TrieHoldsKept(b, c, DR.Elems(p[k].elems), p[k].head.value);
      } else {
        assert r[k] == q[k - |p|];
      }
    }
    if AllSingle(r) {
      forall k | 0 <= k < |p| ensures |p[k].elems| <= 1 {
        assert r[k] == p[k];
      }
      forall k | 0 <= k < |q| ensures |q[k].elems| <= 1 {
        assert r[|p| + k] == q[k];
      }
    }
  }

  // ---------------------------------------------------------------------
  // Building the levels from the configuration
  // ---------------------------------------------------------------------

  /** The storage level with ordinal j in IL1, DL1, UL2, UL3, MEM. */
  function LevelAt(j: nat): (l: StorageLevel)
    requires j <= SC.MEM_ORDINAL
    ensures l == MEM <==> j == SC.MEM_ORDINAL
  {
    if j == 0 then IL1 else if j == 1 then DL1 else if j == 2 then UL2 else if j == 3 then UL3 else MEM
  }

  /**
   * A cache level as the constructor leaves it: the given geometry, site,
   * policy and costs, `_lineShift` the shift that undoes the line size,
   * as many sets as fit in the cache, all of them empty, and all counters 0.
   */
  predicate BuiltFrom(l: Level, site: nat, j: nat, policy: ReplacementPolicy, cacheSize: u32, lineSize: u32,
                      associativity: u32, allocation: u32, hitCost: seq<int>)
    requires j < SC.CACHE_LEVELS
  {
    l.CacheLevel? && l.site == site && l.storageLevel == LevelAt(j) &&
    l.lineSize == lineSize && lineSize >= 1 && Pow2(l.lineShift) == lineSize &&
    l.allocation == allocation && l.hitCost == hitCost &&
    l.access == NoAccesses && l.flushes == 0 && l.resets == 0 &&
    |l.sets| == NumSets(l) && NumSets(l) * SC.SetBytes(lineSize, associativity) <= cacheSize &&
    forall k | 0 <= k < |l.sets| ::
      SetValid(l.sets[k]) && PolicyOf(l.sets[k]) == policy &&
      Associativity(l.sets[k]) == associativity && AllZero(Contents(l.sets[k]))
  }

  /**
   * `CACHE_LEVEL(...)`: the level is built iff the geometry, the policy and
   * the associativity pass the constructor's checks, with a cache too small
   * for one set rejected; its next level is not connected yet.
   */
  method NewCacheLevel(site: nat, j: nat, policy: string, cacheSize: u32, lineSize: u32,
                       associativity: u32, allocation: u32, hitCost: seq<int>) returns (r: SC.Outcome<Level>)
    requires j < SC.CACHE_LEVELS
    ensures r.Ok? <==> SC.Accepts(policy, cacheSize, lineSize, associativity)
    ensures r.Ok? ==> (
      BuiltFrom(r.value, site, j, SC.ParsePolicy(policy).value, cacheSize, lineSize, associativity, allocation, hitCost) &&
      r.value.next == 0)
    ensures r.Fail? && SC.SetBytes(lineSize, associativity) == 0 ==> r.error == SC.DivisionByZero(site, j)
  {
    var setBytes := SC.SetBytes(lineSize, associativity);
    if setBytes == 0 {
      return SC.Fail(SC.DivisionByZero(site, j));
    }
    SC.SetBytesNonZero(lineSize, associativity);
    if !IsPower2(lineSize) {
      return SC.Fail(SC.LineSizeNotPower2(site, j));
    }
    var lineShift := FloorLog2(lineSize);
    Pow2FloorLog2(lineSize);
    var geometry := SC.Geometry(cacheSize, setBytes);
    if geometry.None? {
      return SC.Fail(SC.EmptyCache(site, j));
    }
    var mask := geometry.value.0;
    var numSets := geometry.value.1;
    if !IsPower2(numSets) {
      return SC.Fail(SC.NumSetsNotPower2(site, j));
    }
    var parsed := SC.ParsePolicy(policy);
    if parsed.None? {
      return SC.Fail(SC.InvalidPolicy(site, j));
    }
    var p := parsed.value;
    if (p == DirectMappedPolicy && associativity != 1) || (p != DirectMappedPolicy && associativity > MAX_ASSOCIATIVITY) {
      return SC.Fail(SC.InvalidAssociativity(site, j));
    }
    var sets := NewSets(p, associativity, numSets);
    assert numSets * setBytes <= cacheSize;
    r := SC.Ok(CacheLevel(site, LevelAt(j), lineSize, lineShift, mask, allocation, sets,
                          NoAccesses, hitCost, 0, 0, 0));
  }

  /** The constructor's loop: `numSets` empty sets of the policy. */
  method NewSets(policy: ReplacementPolicy, associativity: nat, numSets: nat) returns (sets: seq<CacheSet>)
    requires 1 <= associativity <= MAX_ASSOCIATIVITY
    requires policy == DirectMappedPolicy ==> associativity == 1
    ensures |sets| == numSets
    ensures forall k | 0 <= k < numSets ::
      SetValid(sets[k]) && PolicyOf(sets[k]) == policy &&
      Associativity(sets[k]) == associativity && AllZero(Contents(sets[k]))
  {
    sets := [];
    for i := 0 to numSets
      invariant |sets| == i
      invariant forall k | 0 <= k < i ::
        SetValid(sets[k]) && PolicyOf(sets[k]) == policy &&
        Associativity(sets[k]) == associativity && AllZero(Contents(sets[k]))
    {
      var cacheSet := NewSet(policy, associativity);
      sets := sets + [cacheSet];
    }
  }

  /**
   * The block of levels one site contributes, starting at arena index
   * base: its configured cache levels built from their sections and
   * connected along `NextLevel`, then its memory level.
   */
  predicate SiteBlock(config: SC.Config, site: nat, base: nat, block: seq<Level>)
    requires site < MAX_COST_SITE
  {
    var last := SC.LastLevel(config, site);
    |block| == last + 2 && BlockBuilt(config, site, block, last + 1) &&
    (forall j: nat | j <= last :: block[j].next == base + SC.Slot(last, SC.NextLevel(last, j))) &&
    block[last + 1] == MemoryLevel(site, NoAccesses, SC.HitCosts(site, SC.MemoryHitcost(config, site)))
  }

  /** Level j of the site was built by the constructor from its section. */
  predicate Built(l: Level, site: nat, j: nat, sec: SC.CacheSection)
    requires site < MAX_COST_SITE && j < SC.CACHE_LEVELS
  {
    SC.ParsePolicy(sec.policy).Some? &&
    BuiltFrom(l, site, j, SC.ParsePolicy(sec.policy).value, SC.ToU32(sec.cachesize),
              SC.ToU32(sec.linesize), SC.ToU32(sec.associativity), SC.ToU32(sec.allocation),
              SC.HitCosts(site, sec.hitcost))
  }

  /** The first n levels of the block were built from the site's first n sections. */
  predicate BlockBuilt(config: SC.Config, site: nat, block: seq<Level>, n: nat)
  {
    site < MAX_COST_SITE && n <= |block| && n <= SC.CACHE_LEVELS &&
    forall k: nat | k < n :: (site, k) in config.caches && Built(block[k], site, k, config.caches[(site, k)])
  }

  /** `_next_level = ...` on level k of a block under construction. */
  function Connect(block: seq<Level>, k: nat, next: nat): (r: seq<Level>)
    requires k < |block| && block[k].CacheLevel?
    ensures |r| == |block| && r[k] == block[k].(next := next)
    ensures forall i | 0 <= i < |block| && i != k :: r[i] == block[i]
  {
    block[k := block[k].(next := next)]
  }

  /** Connecting a level leaves what the constructor built in place. */
  lemma ConnectKeepsBuilt(config: SC.Config, site: nat, block: seq<Level>, n: nat, k: nat, next: nat)
    requires BlockBuilt(config, site, block, n) && k < n
    ensures block[k].CacheLevel? && BlockBuilt(config, site, Connect(block, k, next), n)
  {
    var r := Connect(block, k, next);
    forall i: nat | i < n ensures Built(r[i], site, i, config.caches[(site, i)]) {
      assert Built(block[i], site, i, config.caches[(site, i)]);
    }
  }

  /** Where the loop of `ReadSite` has connected level k after reading levels below j. */
  function WiredSoFar(base: nat, j: nat, k: nat): nat
  {
    if k <= SC.DL1_ORDINAL && j > SC.UL2_ORDINAL then base + SC.UL2_ORDINAL
    else if k == SC.UL2_ORDINAL && j > SC.UL3_ORDINAL then base + SC.UL3_ORDINAL
    else 0
  }

  /**
   * One pass of the outer loop of `ReadConfig`: reads the site's levels
   * in order up to the first missing section, checks and builds each,
   * connects IL1 and DL1 to UL2 and UL2 to UL3 as they appear, then builds
   * the memory level and connects it below the last cache level.
   */
  method ReadSite(config: SC.Config, site: nat, base: nat, global: int) returns (r: SC.Outcome<seq<Level>>, newGlobal: int)
    requires site < MAX_COST_SITE
    ensures r.Ok? <==> SC.SiteAccepted(config, site, global)
    ensures r.Ok? ==> SiteBlock(config, site, base, r.value) && newGlobal == SC.GlobalAfter(config, site, global)
  {
    var block: seq<Level> := [];
    newGlobal := global;
    var j: nat := 0;
    while j < SC.CACHE_LEVELS && (site, j) in config.caches
      invariant j <= SC.CACHE_LEVELS && |block| == j
      invariant j as int <= SC.LastLevel(config, site) + 1
      invariant newGlobal == (if j == 0 then global else SC.GlobalAfter(config, site, global))
      invariant SectionsOk(config, site, global, j)
      invariant BlockBuilt(config, site, block, j)
      invariant forall k: nat | k < j :: block[k].next == WiredSoFar(base, j, k)
    {
      var step;
      step, newGlobal := ReadStep(config, site, base, global, j, block, newGlobal);
      if step.Fail? {
        return SC.Fail(step.error), newGlobal;
      }
      block := step.value;
      j := j + 1;
    }
    assert j as int - 1 == SC.LastLevel(config, site);
    r := FinishSite(config, site, base, global, block);
  }

  /**
   * One pass of the inner loop of `ReadSite`: level j is read, checked and
   * built, appended to the block and connected as far as the levels read
   * so far allow.
   */
  method ReadStep(config: SC.Config, site: nat, base: nat, global: int, j: nat, block: seq<Level>, cur: int)
      returns (r: SC.Outcome<seq<Level>>, newGlobal: int)
    requires site < MAX_COST_SITE && j < SC.CACHE_LEVELS && (site, j) in config.caches && |block| == j
    requires j as int <= SC.LastLevel(config, site)
    requires cur == (if j == 0 then global else SC.GlobalAfter(config, site, global))
    requires SectionsOk(config, site, global, j) && BlockBuilt(config, site, block, j)
    requires forall k: nat | k < j :: block[k].next == WiredSoFar(base, j, k)
    ensures r.Fail? ==> !SC.SiteAccepted(config, site, global)
    ensures r.Ok? ==> |r.value| == j + 1 && newGlobal == SC.GlobalAfter(config, site, global)
    ensures r.Ok? ==> SectionsOk(config, site, global, j + 1) && BlockBuilt(config, site, r.value, j + 1)
    ensures r.Ok? ==> forall k: nat | k < j + 1 :: r.value[k].next == WiredSoFar(base, j + 1, k)
  {
    assert cur == SC.EffectiveLineSize(config, site, j, global);
    var made;
    made, newGlobal := ReadLevel(site, j, config.caches[(site, j)], cur);
    if made.Fail? {
      SiteRejected(config, site, global, j);
      return SC.Fail(made.error), newGlobal;
    }
    LevelAppended(config, site, base, global, j, block, made.value);
    r := SC.Ok(WireStep(block + [made.value], base, j));
  }

  /** A level that passed its checks, appended and wired, extends the block by one level. */
  lemma LevelAppended(config: SC.Config, site: nat, base: nat, global: int, j: nat, block: seq<Level>, l: Level)
    requires site < MAX_COST_SITE && j < SC.CACHE_LEVELS && (site, j) in config.caches && |block| == j
    requires j > 0 ==> (site, 0) in config.caches
    requires SectionsOk(config, site, global, j) && BlockBuilt(config, site, block, j)
    requires forall k: nat | k < j :: block[k].next == WiredSoFar(base, j, k)
    requires SC.SectionOk(config.caches[(site, j)], SC.EffectiveLineSize(config, site, j, global))
    requires Built(l, site, j, config.caches[(site, j)]) && l.next == 0
    ensures (forall k | 0 <= k <= j :: (block + [l])[k].CacheLevel?) && |WireStep(block + [l], base, j)| == j + 1
    ensures SectionsOk(config, site, global, j + 1) && BlockBuilt(config, site, WireStep(block + [l], base, j), j + 1)
    ensures forall k: nat | k < j + 1 :: WireStep(block + [l], base, j)[k].next == WiredSoFar(base, j + 1, k)
  {
    SectionsOkStep(config, site, global, j);
    BlockBuiltAppend(config, site, block, l);
    WireStepOk(config, site, base, block + [l], j);
  }

  /**
   * The end of one pass of `ReadConfig`'s outer loop: the memory level's
   * hit cost is checked, the last cache level is connected to memory and
   * the memory level is appended.
   */
  method FinishSite(config: SC.Config, site: nat, base: nat, global: int, block: seq<Level>) returns (r: SC.Outcome<seq<Level>>)
    requires site < MAX_COST_SITE
    requires |block| == SC.LastLevel(config, site) + 1
    requires SectionsOk(config, site, global, |block|) && BlockBuilt(config, site, block, |block|)
    requires forall k: nat | k < |block| :: block[k].next == WiredSoFar(base, |block|, k)
    ensures r.Ok? <==> SC.SiteAccepted(config, site, global)
    ensures r.Ok? ==> SiteBlock(config, site, base, r.value)
  {
    var last: int := |block| - 1;
    SiteAcceptedFromSections(config, site, global);
    var cost := SC.MemoryHitcost(config, site);
    if cost < 0 {
      return SC.Fail(SC.InvalidMemoryHitCost(site));
    }
    CompleteBlock(config, site, base, block);
    r := SC.Ok(WireMemory(block, base, last) + [MemoryLevel(site, NoAccesses, SC.HitCosts(site, cost))]);
  }

  /** Connecting memory below the cache levels read and appending the memory level completes the site's block. */
  lemma CompleteBlock(config: SC.Config, site: nat, base: nat, block: seq<Level>)
    requires site < MAX_COST_SITE
    requires |block| == SC.LastLevel(config, site) + 1 && BlockBuilt(config, site, block, |block|)
    requires forall k: nat | k < |block| :: block[k].next == WiredSoFar(base, |block|, k)
    ensures (forall k | 0 <= k < |block| :: block[k].CacheLevel?)
    ensures SiteBlock(config, site, base, WireMemory(block, base, |block| - 1) +
      [MemoryLevel(site, NoAccesses, SC.HitCosts(site, SC.MemoryHitcost(config, site)))])
  {
    var last: int := |block| - 1;
    WireMemoryOk(config, site, base, block, last);
    var wired := WireMemory(block, base, last);
    FullBlock(config, site, base, wired, wired + [MemoryLevel(site, NoAccesses, SC.HitCosts(site, SC.MemoryHitcost(config, site)))]);
  }

  /**
   * The checks `ReadConfig` makes on one section (every attribute present,
   * the line size of the first level read, a non-negative hit cost), then
   * the level's constructor. `global` is the line size read so far, -1
   * before the first level.
   */
  method ReadLevel(site: nat, j: nat, sec: SC.CacheSection, global: int) returns (r: SC.Outcome<Level>, newGlobal: int)
    requires site < MAX_COST_SITE && j < SC.CACHE_LEVELS
    ensures r.Ok? <==> SC.SectionOk(sec, global)
    ensures r.Ok? ==> Built(r.value, site, j, sec) && r.value.next == 0
    ensures r.Ok? ==> newGlobal == (if global == -1 then sec.linesize else global)
  {
    newGlobal := global;
    var missing := SC.FirstMissing(sec);
    if missing.Some? {
      return SC.Fail(SC.InvalidAttribute(site, j, missing.value)), newGlobal;
    }
    if newGlobal == -1 {
      newGlobal := sec.linesize;
    } else if sec.linesize != newGlobal {
      return SC.Fail(SC.InconsistentLineSize(site, j)), newGlobal;
    }
    if sec.hitcost < 0 {
      return SC.Fail(SC.InvalidHitCost(site, j)), newGlobal;
    }
    r := NewCacheLevel(site, j, sec.policy, SC.ToU32(sec.cachesize), SC.ToU32(sec.linesize),
                       SC.ToU32(sec.associativity), SC.ToU32(sec.allocation), SC.HitCosts(site, sec.hitcost));
  }

  lemma BlockBuiltAppend(config: SC.Config, site: nat, block: seq<Level>, l: Level)
    requires |block| < SC.CACHE_LEVELS && BlockBuilt(config, site, block, |block|)
    requires (site, |block|) in config.caches && Built(l, site, |block|, config.caches[(site, |block|)])
    ensures BlockBuilt(config, site, block + [l], |block| + 1)
  {
    var grown := block + [l];
    forall k: nat | k <= |block| ensures Built(grown[k], site, k, config.caches[(site, k)]) {
      if k < |block| {
        assert grown[k] == block[k];
      }
    }
  }

  /** The connections made when level j of a site has just been built. */
  function WireStep(block: seq<Level>, base: nat, j: nat): (r: seq<Level>)
    requires |block| == j + 1 && j < SC.CACHE_LEVELS
    requires forall k | 0 <= k <= j :: block[k].CacheLevel?
  {
    if j == SC.UL2_ORDINAL then Connect(Connect(block, 0, base + SC.UL2_ORDINAL), 1, base + SC.UL2_ORDINAL)
    else if j == SC.UL3_ORDINAL then Connect(block, 2, base + SC.UL3_ORDINAL)
    else block
  }

  /** A connection step keeps the built levels and extends the wiring by one level. */
  lemma WireStepOk(config: SC.Config, site: nat, base: nat, block: seq<Level>, j: nat)
    requires |block| == j + 1 && j < SC.CACHE_LEVELS && BlockBuilt(config, site, block, j + 1)
    requires block[j].next == 0 && forall k: nat | k < j :: block[k].next == WiredSoFar(base, j, k)
    ensures (forall k | 0 <= k <= j :: block[k].CacheLevel?) && |WireStep(block, base, j)| == j + 1
    ensures BlockBuilt(config, site, WireStep(block, base, j), j + 1)
    ensures forall k: nat | k <= j :: WireStep(block, base, j)[k].next == WiredSoFar(base, j + 1, k)
  {
    forall k | 0 <= k <= j ensures block[k].CacheLevel? {
      assert Built(block[k], site, k, config.caches[(site, k)]);
    }
    if j == SC.UL2_ORDINAL {
      ConnectKeepsBuilt(config, site, block, j + 1, 0, base + SC.UL2_ORDINAL);
      ConnectKeepsBuilt(config, site, Connect(block, 0, base + SC.UL2_ORDINAL), j + 1, 1, base + SC.UL2_ORDINAL);
    } else if j == SC.UL3_ORDINAL {
      ConnectKeepsBuilt(config, site, block, j + 1, 2, base + SC.UL3_ORDINAL);
    }
  }

  /** Connects the last cache level (IL1 and DL1 together when DL1 is last) to memory. */
  function WireMemory(block: seq<Level>, base: nat, last: int): (r: seq<Level>)
    requires -1 <= last < SC.CACHE_LEVELS as int && |block| == last + 1
    requires forall k | 0 <= k < |block| :: block[k].CacheLevel?
  {
    var memory := base + last + 1;
    if last == SC.DL1_ORDINAL as int then Connect(Connect(block, 0, memory), 1, memory)
    else if last == SC.IL1_ORDINAL as int then Connect(block, 0, memory)
    else if last != -1 then Connect(block, last, memory)
    else block
  }

  /** After connecting memory, every level points where `NextLevel` says. */
  lemma WireMemoryOk(config: SC.Config, site: nat, base: nat, block: seq<Level>, last: int)
    requires -1 <= last < SC.CACHE_LEVELS as int && |block| == last + 1
    requires BlockBuilt(config, site, block, last + 1)
    requires forall k: nat | k <= last :: block[k].next == WiredSoFar(base, last + 1, k)
    ensures (forall k | 0 <= k < |block| :: block[k].CacheLevel?) && |WireMemory(block, base, last)| == last + 1
    ensures BlockBuilt(config, site, WireMemory(block, base, last), last + 1)
    ensures forall k: nat | k <= last ::
      WireMemory(block, base, last)[k].next == base + SC.Slot(last, SC.NextLevel(last, k))
  {
    WireMemoryBuilt(config, site, base, block, last);
    forall k: nat | k <= last
      ensures WireMemory(block, base, last)[k].next == base + SC.Slot(last, SC.NextLevel(last, k))
    {
      WireMemoryNext(block, base, last, k);
    }
  }

  /** Connecting memory keeps every level built from its section. */
  lemma WireMemoryBuilt(config: SC.Config, site: nat, base: nat, block: seq<Level>, last: int)
    requires -1 <= last < SC.CACHE_LEVELS as int && |block| == last + 1
    requires BlockBuilt(config, site, block, last + 1)
    ensures (forall k | 0 <= k < |block| :: block[k].CacheLevel?) && |WireMemory(block, base, last)| == last + 1
    ensures BlockBuilt(config, site, WireMemory(block, base, last), last + 1)
  {
    BuiltAreCaches(config, site, block, last + 1);
    var memory := base + last + 1;
    if last == SC.DL1_ORDINAL as int {
      ConnectTwiceKeepsBuilt(config, site, block, memory);
      assert WireMemory(block, base, last) == Connect(Connect(block, 0, memory), 1, memory);
    } else if last == SC.IL1_ORDINAL as int {
      ConnectKeepsBuilt(config, site, block, last + 1, 0, memory);
      assert WireMemory(block, base, last) == Connect(block, 0, memory);
    } else if last != -1 {
      ConnectKeepsBuilt(config, site, block, last + 1, last, memory);
      assert WireMemory(block, base, last) == Connect(block, last, memory);
    } else {
      assert WireMemory(block, base, last) == block;
    }
  }

  /** Connecting IL1 and DL1 to the same level leaves what the constructor built in place. */
  lemma ConnectTwiceKeepsBuilt(config: SC.Config, site: nat, block: seq<Level>, memory: nat)
    requires BlockBuilt(config, site, block, |block|) && |block| == 2
    ensures block[0].CacheLevel? && block[1].CacheLevel? && Connect(block, 0, memory)[1].CacheLevel?
    ensures BlockBuilt(config, site, Connect(Connect(block, 0, memory), 1, memory), 2)
  {
    ConnectKeepsBuilt(config, site, block, 2, 0, memory);
    ConnectKeepsBuilt(config, site, Connect(block, 0, memory), 2, 1, memory);
  }

  /** Every level the constructor built is a cache level. */
  lemma BuiltAreCaches(config: SC.Config, site: nat, block: seq<Level>, n: nat)
    requires BlockBuilt(config, site, block, n)
    ensures forall k | 0 <= k < n :: block[k].CacheLevel?
  {
    forall k | 0 <= k < n ensures block[k].CacheLevel? {
      assert Built(block[k], site, k, config.caches[(site, k)]);
    }
  }

  /** Connecting memory leaves level k pointing where `NextLevel` says. */
  lemma WireMemoryNext(block: seq<Level>, base: nat, last: int, k: nat)
    requires -1 <= last < SC.CACHE_LEVELS as int && |block| == last + 1
    requires forall i | 0 <= i < |block| :: block[i].CacheLevel?
    requires k <= last && block[k].next == WiredSoFar(base, last + 1, k)
    ensures WireMemory(block, base, last)[k].next == base + SC.Slot(last, SC.NextLevel(last, k))
  {
  }

  /** A failing section the site reaches rejects the site. */
  lemma SiteRejected(config: SC.Config, site: nat, global: int, j: nat)
    requires j as int <= SC.LastLevel(config, site)
    requires !SC.SectionOk(config.caches[(site, j)], SC.EffectiveLineSize(config, site, j, global))
    ensures !SC.SiteAccepted(config, site, global)
  {
  }

  /** When every section passes, the site is accepted iff its memory hit cost is valid. */
  lemma SiteAcceptedFromSections(config: SC.Config, site: nat, global: int)
    requires SectionsOk(config, site, global, (SC.LastLevel(config, site) + 1) as nat)
    ensures SC.SiteAccepted(config, site, global) <==> SC.MemoryHitcost(config, site) >= 0
  {
    var last := SC.LastLevel(config, site);
    forall j: nat | j <= last
      ensures SC.SectionOk(config.caches[(site, j)], SC.EffectiveLineSize(config, site, j, global))
    {
    }
  }

  /** Appending the memory level to the wired cache levels completes the site's block. */
  lemma FullBlock(config: SC.Config, site: nat, base: nat, block: seq<Level>, full: seq<Level>)
    requires site < MAX_COST_SITE
    requires |block| == SC.LastLevel(config, site) + 1 && BlockBuilt(config, site, block, |block|)
    requires forall k: nat | k < |block| :: block[k].next == base + SC.Slot(|block| - 1, SC.NextLevel(|block| - 1, k))
    requires full == block + [MemoryLevel(site, NoAccesses, SC.HitCosts(site, SC.MemoryHitcost(config, site)))]
    ensures SiteBlock(config, site, base, full)
  {
    forall k: nat | k < |block| ensures Built(full[k], site, k, config.caches[(site, k)]) {
      assert full[k] == block[k];
    }
  }

  /** One more section passing its checks extends `SectionsOk`. */
  lemma SectionsOkStep(config: SC.Config, site: nat, global: int, j: nat)
    requires SectionsOk(config, site, global, j) && (site, j) in config.caches && (site, 0) in config.caches
    requires SC.SectionOk(config.caches[(site, j)], SC.EffectiveLineSize(config, site, j, global))
    ensures SectionsOk(config, site, global, j + 1)
  {
  }

  /** The first n sections of the site pass their checks. */
  predicate SectionsOk(config: SC.Config, site: nat, global: int, n: nat)
  {
    forall k: nat | k < n ::
      (site, k) in config.caches && (site, 0) in config.caches &&
      SC.SectionOk(config.caches[(site, k)], SC.EffectiveLineSize(config, site, k, global))
  }

  /** Appending a site block keeps every level consistent. */
  lemma BlockLevelsOk(levels: seq<Level>, config: SC.Config, site: nat, block: seq<Level>)
    requires site < MAX_COST_SITE && LevelsOk(levels) && SiteBlock(config, site, |levels|, block)
    ensures LevelsOk(levels + block)
  {
    var all := levels + block;
    BlockSites(config, site, |levels|, block);
    forall i | 0 <= i < |all| ensures LevelOk(all, i) {
      if i < |levels| {
        assert LevelOk(levels, i);
        assert all[i] == levels[i];
        if levels[i].CacheLevel? {
          assert all[levels[i].next] == levels[levels[i].next];
        }
      } else {
        BlockLevelOk(levels, config, site, block, i - |levels|);
      }
    }
  }

  /** Every level of a site block belongs to the site. */
  lemma BlockSites(config: SC.Config, site: nat, base: nat, block: seq<Level>)
    requires site < MAX_COST_SITE && SiteBlock(config, site, base, block)
    ensures forall k | 0 <= k < |block| :: block[k].site == site && |block[k].hitCost| == MAX_COST_SITE
  {
    forall k | 0 <= k < |block| ensures block[k].site == site && |block[k].hitCost| == MAX_COST_SITE {
      if k < |block| - 1 {
        assert Built(block[k], site, k, config.caches[(site, k)]);
      }
    }
  }

  /** Level j of an appended site block is consistent. */
  lemma BlockLevelOk(levels: seq<Level>, config: SC.Config, site: nat, block: seq<Level>, j: nat)
    requires site < MAX_COST_SITE && SiteBlock(config, site, |levels|, block) && j < |block|
    requires forall k | 0 <= k < |block| :: block[k].site == site && |block[k].hitCost| == MAX_COST_SITE
    ensures LevelOk(levels + block, |levels| + j)
  {
    var all := levels + block;
    var last := SC.LastLevel(config, site);
    assert all[|levels| + j] == block[j];
    if j as int <= last {
      assert Built(block[j], site, j, config.caches[(site, j)]);
      var p := SC.Slot(last, SC.NextLevel(last, j));
      assert block[j].next == |levels| + p;
      assert all[|levels| + p] == block[p];
    }
  }
}
