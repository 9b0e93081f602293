/**
 * The cache configuration `STORAGE::ReadConfig` reads: one section per
 * site and cache level ("CPU/IL1", ..., "PIM/UL3"), each with a line
 * size, a cache size, an associativity, an allocation mode, a replacement
 * policy and a hit cost, and a hit cost per memory level ("CPU/MEM",
 * "PIM/MEM"). This module holds the configuration values, the errors
 * `ReadConfig` and the `CACHE_LEVEL` constructor stop on, and the rules
 * by which the levels of one site are connected.
 */
module StorageConfig {
  import opened Common
  import opened StorageSets

  /** `int32_t`, the type `GetInteger` results are stored in. */
  type i32 = x: int | -0x8000_0000 <= x < 0x8000_0000

  /** The cache levels a site may configure: IL1, DL1, UL2, UL3 (`MAX_LEVEL - 1`). */
  const CACHE_LEVELS: nat := 4
  /** Ordinal of MEM among the storage levels. */
  const MEM_ORDINAL: nat := 4
  const IL1_ORDINAL: nat := 0
  const DL1_ORDINAL: nat := 1
  const UL2_ORDINAL: nat := 2
  const UL3_ORDINAL: nat := 3

  /**
   * One cache section as the reader returns it: an absent integer
   * attribute reads as -1, an absent policy as "", an absent hit cost as -1.
   */
  datatype CacheSection = CacheSection(linesize: i32, cachesize: i32, associativity: i32,
                                       allocation: i32, policy: string, hitcost: int)

  /**
   * The sections present, keyed by (site, level ordinal), and the hit cost
   * of each site's memory section (a missing one reads as -1).
   */
  datatype Config = Config(caches: map<(nat, nat), CacheSection>, memoryHitcost: map<nat, int>)

  datatype ConfigError =
    | InvalidAttribute(site: nat, level: nat, attribute: nat)
    | InconsistentLineSize(site: nat, level: nat)
    | InvalidHitCost(site: nat, level: nat)
    | InvalidMemoryHitCost(site: nat)
    | DivisionByZero(site: nat, level: nat)
    | LineSizeNotPower2(site: nat, level: nat)
    | NumSetsNotPower2(site: nat, level: nat)
    | EmptyCache(site: nat, level: nat)
    | InvalidPolicy(site: nat, level: nat)
    | InvalidAssociativity(site: nat, level: nat)

  datatype Outcome<T> = Ok(value: T) | Fail(error: ConfigError)

  function MemoryHitcost(config: Config, site: nat): int
  {
    if site in config.memoryHitcost then config.memoryHitcost[site] else -1
  }

  /**
   * The last level ordinal configured for a site: the levels are read in
   * order and reading stops at the first missing section; -1 when IL1 is
   * missing.
   */
  function LastLevel(config: Config, site: nat): (last: int)
    ensures -1 <= last < CACHE_LEVELS as int
    ensures forall j: nat | j <= last :: (site, j) in config.caches
    ensures last + 1 < CACHE_LEVELS ==> (site, (last + 1) as nat) !in config.caches
  {
    LastFrom(config, site, 0)
  }

  function LastFrom(config: Config, site: nat, j: nat): (last: int)
    requires j <= CACHE_LEVELS
    requires forall k: nat | k < j :: (site, k) in config.caches
    ensures j as int - 1 <= last < CACHE_LEVELS as int
    ensures forall k: nat | k <= last :: (site, k) in config.caches
    ensures last + 1 < CACHE_LEVELS ==> (site, (last + 1) as nat) !in config.caches
    decreases CACHE_LEVELS - j
  {
    if j < CACHE_LEVELS && (site, j) in config.caches then LastFrom(config, site, j + 1) else j - 1
  }

  /** An integer attribute is missing iff it reads -1; the policy iff it reads "". */
  predicate AttributeMissing(sec: CacheSection, attribute: nat)
    requires attribute < 5
  {
    match attribute
    case 0 => sec.linesize == -1
    case 1 => sec.cachesize == -1
    case 2 => sec.associativity == -1
    case 3 => sec.allocation == -1
    case _ => sec.policy == ""
  }

  /** The first missing attribute, which is the one reported. */
  function FirstMissing(sec: CacheSection): (r: Option<nat>)
    ensures r.None? <==> forall a: nat | a < 5 :: !AttributeMissing(sec, a)
    ensures r.Some? ==> (r.value < 5 && AttributeMissing(sec, r.value) &&
      forall a: nat | a < r.value :: !AttributeMissing(sec, a))
  {
    if sec.linesize == -1 then assert AttributeMissing(sec, 0); Some(0)
    else if sec.cachesize == -1 then assert AttributeMissing(sec, 1); Some(1)
    else if sec.associativity == -1 then assert AttributeMissing(sec, 2); Some(2)
    else if sec.allocation == -1 then assert AttributeMissing(sec, 3); Some(3)
    else if sec.policy == "" then assert AttributeMissing(sec, 4); Some(4)
    else None
  }

  /** The policy names the constructor accepts. */
  function ParsePolicy(policy: string): (r: Option<ReplacementPolicy>)
    ensures r == Some(DirectMappedPolicy) <==> policy == "direct_mapped"
    ensures r == Some(RoundRobinPolicy) <==> policy == "round_robin"
    ensures r == Some(LruPolicy) <==> policy == "lru"
  {
    if policy == "direct_mapped" then Some(DirectMappedPolicy)
    else if policy == "round_robin" then Some(RoundRobinPolicy)
    else if policy == "lru" then Some(LruPolicy)
    else None
  }

  /** An `int32_t` passed where a `uint32_t` is expected. */
  function ToU32(x: i32): (r: u32)
    ensures x >= 0 ==> r == x
    ensures x < 0 ==> r == x + U32
  {
    x % U32
  }

  /** `_hitcost`: zero except at the level's own site. */
  function HitCosts(site: nat, cost: int): (r: seq<int>)
    requires site < 2
    ensures |r| == 2 && r[site] == cost && r[1 - site] == 0
  {
    [0, 0][site := cost]
  }

  // ---------------------------------------------------------------------
  // Geometry of a cache level
  // ---------------------------------------------------------------------

  /** `associativity * lineSize` in 32-bit arithmetic: the bytes of one set. */
  function SetBytes(lineSize: u32, associativity: u32): u32
  {
    Product(associativity, lineSize) % U32
  }

  /**
   * a * b as repeated addition, so that the solver unfolds the product
   * only where a proof needs it; `ProductIsMultiplication` ties it to `*`.
   */
  function Product(a: nat, b: nat): (p: nat)
    ensures p == 0 <==> a == 0 || b == 0
  {
    if a == 0 then 0 else b + Product(a - 1, b)
  }

  lemma {:induction false} ProductIsMultiplication(a: nat, b: nat)
    ensures Product(a, b) == a * b
  {
    if a > 0 {
      ProductIsMultiplication(a - 1, b);
      assert a * b == b + (a - 1) * b;
    }
  }

  /** A set of non-zero size has at least one way and a non-empty line. */
  lemma SetBytesNonZero(lineSize: u32, associativity: u32)
    requires SetBytes(lineSize, associativity) != 0
    ensures associativity >= 1 && lineSize >= 1
  {
  }

  /**
   * `_setIndexMask` and `NumSets()` as the constructor computes them, in
   * 32-bit arithmetic: cacheSize / setBytes - 1, and one more.
   */
  function GeometryAsWritten(cacheSize: u32, setBytes: u32): (r: (u32, u32))
    requires setBytes != 0
    ensures r.1 == cacheSize / setBytes
    ensures cacheSize >= setBytes ==> r.0 + 1 == r.1
    ensures cacheSize < setBytes ==> r.0 == U32 - 1
  {
    var mask := (cacheSize / setBytes - 1) % U32;
    DivBounds(cacheSize, setBytes);
    assert cacheSize / setBytes >= 1 ==> mask == cacheSize / setBytes - 1;
    assert cacheSize / setBytes == 0 ==> mask == U32 - 1;
    (mask, (mask + 1) % U32)
  }

  /**
   * A cache smaller than one set of lines: the mask wraps to 2^32 - 1 and
   * `NumSets()` to 0, which passes the power-of-two assertion, so the level
   * is built with no sets although every set index lies at or above 0.
   */
  lemma EmptyCacheAccepted()
    ensures SetBytes(64, 1) == 64
    ensures var g := GeometryAsWritten(32, SetBytes(64, 1));
      g.0 == U32 - 1 && g.1 == 0 && IsPower2(g.1) &&
      forall addr: nat :: SplitAddress(addr, 6, g.0).1 >= g.1
  {
  }

  /**
   * The geometry the constructor evidently intends: at least one set, and
   * then the mask and set count as written, without wrap-around, with the
   * sets fitting in the cache.
   */
  function Geometry(cacheSize: u32, setBytes: u32): (g: Option<(nat, nat)>)
    requires setBytes != 0
    ensures g.Some? <==> cacheSize >= setBytes
    ensures g.Some? ==> g.value.1 == cacheSize / setBytes
    ensures g.Some? ==> (g.value.1 == g.value.0 + 1 && 1 <= g.value.1 <= cacheSize &&
      g.value.1 * setBytes <= cacheSize && g.value == GeometryAsWritten(cacheSize, setBytes))
  {
    var numSets := cacheSize / setBytes;
    GeometryFacts(cacheSize, setBytes);
    if numSets == 0 then None
    else Some((numSets - 1, numSets))
  }

  lemma GeometryFacts(cacheSize: u32, setBytes: u32)
    requires setBytes != 0
    ensures var n := cacheSize / setBytes;
      n * setBytes <= cacheSize && n <= cacheSize && (n == 0 <==> cacheSize < setBytes) &&
      (n >= 1 ==> GeometryAsWritten(cacheSize, setBytes) == (n - 1, n))
  {
    DivBounds(cacheSize, setBytes);
    var n := cacheSize / setBytes;
    if n >= 1 {
      assert (n - 1) % U32 == n - 1;
      assert n % U32 == n;
    }
  }

  lemma DivBounds(a: nat, b: nat)
    requires b >= 1
    ensures (a / b) * b <= a && a / b <= a
    ensures a / b == 0 <==> a < b
  {
  }

  // ---------------------------------------------------------------------
  // Connecting the levels of one site
  // ---------------------------------------------------------------------

  /**
   * The next level of cache level j after `ReadConfig` as written, when
   * `last` is the last level configured: IL1 and DL1 lead to UL2 once it
   * exists, UL2 to UL3 once it exists, and the memory level is connected
   * to DL1 and IL1 when DL1 is last, to the last level when UL2 or UL3 is
   * last, and to nothing when IL1 is last. None: the pointer is never set.
   */
  function NextLevelAsWritten(last: nat, j: nat): (r: Option<nat>)
    requires j <= last < CACHE_LEVELS
    ensures r.None? <==> last == IL1_ORDINAL
    ensures r.Some? ==> j < r.value <= MEM_ORDINAL && (r.value == MEM_ORDINAL || r.value <= last)
  {
    if last >= UL2_ORDINAL && j <= DL1_ORDINAL then Some(UL2_ORDINAL)
    else if last == UL3_ORDINAL && j == UL2_ORDINAL then Some(UL3_ORDINAL)
    else if last == DL1_ORDINAL then Some(MEM_ORDINAL)
    else if last == IL1_ORDINAL then None
    else Some(MEM_ORDINAL)
  }

  /** With only IL1 configured, IL1 has no next level, yet its misses are forwarded. */
  lemma IL1OnlyUnconnected()
    ensures NextLevelAsWritten(IL1_ORDINAL, IL1_ORDINAL) == None
  {
  }

  /** The connection evidently intended: an IL1 that is last leads to memory. */
  function NextLevel(last: nat, j: nat): (k: nat)
    requires j <= last < CACHE_LEVELS
    ensures j < k && (k <= last || k == MEM_ORDINAL)
    ensures k != MEM_ORDINAL ==> k == (if j <= DL1_ORDINAL then UL2_ORDINAL else j + 1)
    ensures last != IL1_ORDINAL ==> NextLevelAsWritten(last, j) == Some(k)
  {
    if last == IL1_ORDINAL then MEM_ORDINAL
    else NextLevelAsWritten(last, j).value
  }

  /** Each configured cache level's misses reach memory along `NextLevel`. */
  lemma {:induction false} ChainReachesMemory(last: nat, j: nat)
    requires j <= last < CACHE_LEVELS
    ensures ReachesMemory(last, j, CACHE_LEVELS - j)
    decreases CACHE_LEVELS - j
  {
    var k := NextLevel(last, j);
    if k != MEM_ORDINAL {
      ChainReachesMemory(last, k);
      ReachesMemoryMono(last, k, CACHE_LEVELS - k, CACHE_LEVELS - j - 1);
    }
  }

  /** Following `NextLevel` from j reaches memory within `steps` steps. */
  predicate ReachesMemory(last: nat, j: nat, steps: nat)
    requires j <= last < CACHE_LEVELS
    decreases steps
  {
    steps >= 1 &&
    var k := NextLevel(last, j);
    k == MEM_ORDINAL || ReachesMemory(last, k, steps - 1)
  }

  lemma {:induction false} ReachesMemoryMono(last: nat, j: nat, steps: nat, more: nat)
    requires j <= last < CACHE_LEVELS && steps <= more
    requires ReachesMemory(last, j, steps)
    ensures ReachesMemory(last, j, more)
    decreases steps
  {
    var k := NextLevel(last, j);
    if k != MEM_ORDINAL {
      ReachesMemoryMono(last, k, steps - 1, more - 1);
    }
  }

  /** `_storage_top[site][IL1]`: IL1, or memory when no cache level is configured. */
  function TopIL1Level(last: int): (k: nat)
    requires -1 <= last < CACHE_LEVELS as int
    ensures k == MEM_ORDINAL <==> last == -1
    ensures k != MEM_ORDINAL ==> k == IL1_ORDINAL
  {
    if last == -1 then MEM_ORDINAL else IL1_ORDINAL
  }

  /** `_storage_top[site][DL1]`: DL1, or memory when DL1 is not configured. */
  function TopDL1Level(last: int): (k: nat)
    requires -1 <= last < CACHE_LEVELS as int
    ensures k == MEM_ORDINAL <==> last < DL1_ORDINAL as int
    ensures k != MEM_ORDINAL ==> k == DL1_ORDINAL
  {
    if last >= DL1_ORDINAL as int then DL1_ORDINAL else MEM_ORDINAL
  }

  /**
   * Where a level ordinal sits in a site's block of the level arena: the
   * cache levels 0..last in order, then the memory level.
   */
  function Slot(last: int, k: nat): (p: nat)
    requires -1 <= last < CACHE_LEVELS as int && (k <= last || k == MEM_ORDINAL)
    ensures p <= last + 1 && (k == MEM_ORDINAL <==> p == last + 1)
  {
    if k == MEM_ORDINAL then last + 1 else k
  }

  // ---------------------------------------------------------------------
  // What ReadConfig accepts
  // ---------------------------------------------------------------------

  /**
   * The constructor's checks on one cache level: a non-zero set size, a
   * power-of-two line size, at least one set, a power-of-two number of
   * sets, a known policy and an associativity the policy's sets accept.
   */
  predicate Accepts(policy: string, cacheSize: u32, lineSize: u32, associativity: u32)
  {
    var setBytes := SetBytes(lineSize, associativity);
    setBytes != 0 && IsPower2(lineSize) && cacheSize >= setBytes &&
    (DivBounds(cacheSize, setBytes); IsPower2(cacheSize / setBytes)) &&
    ParsePolicy(policy).Some? &&
    (if ParsePolicy(policy) == Some(DirectMappedPolicy) then associativity == 1
     else associativity <= MAX_ASSOCIATIVITY)
  }

  /**
   * The line size level j of a site is compared with: the one of the
   * first level read, unless level j is that first level (-1).
   */
  function EffectiveLineSize(config: Config, site: nat, j: nat, global: int): int
    requires j > 0 ==> (site, 0) in config.caches
  {
    if global != -1 then global
    else if j == 0 then -1
    else config.caches[(site, 0)].linesize
  }

  /** One section passes every check `ReadConfig` and the constructor make. */
  predicate SectionOk(sec: CacheSection, global: int)
  {
    FirstMissing(sec).None? &&
    (global != -1 ==> sec.linesize == global) &&
    sec.hitcost >= 0 &&
    Accepts(sec.policy, ToU32(sec.cachesize), ToU32(sec.linesize), ToU32(sec.associativity))
  }

  /** Every configured level of the site and its memory level pass. */
  predicate SiteAccepted(config: Config, site: nat, global: int)
  {
    var last := LastLevel(config, site);
    (forall j: nat | j <= last :: SectionOk(config.caches[(site, j)], EffectiveLineSize(config, site, j, global))) &&
    MemoryHitcost(config, site) >= 0
  }

  /** The line size every later level must have after the site is read. */
  function GlobalAfter(config: Config, site: nat, global: int): int
  {
    if global != -1 then global
    else if LastLevel(config, site) >= 0 then config.caches[(site, 0)].linesize
    else -1
  }

  /** Both sites, read in order, pass. */
  predicate ConfigAccepted(config: Config)
  {
    SiteAccepted(config, 0, -1) && SiteAccepted(config, 1, GlobalAfter(config, 0, -1))
  }

  /**
   * An accepted configuration has one line size: any two configured cache
   * levels, of either site, have the same. A configuration with two
   * different line sizes is rejected.
   */
  lemma AcceptedLineSizesAgree(config: Config, s1: nat, j1: nat, s2: nat, j2: nat)
    requires ConfigAccepted(config)
    requires s1 < 2 && s2 < 2 && j1 as int <= LastLevel(config, s1) && j2 as int <= LastLevel(config, s2)
    ensures config.caches[(s1, j1)].linesize == config.caches[(s2, j2)].linesize
  {
    var g := GlobalAfter(config, 0, -1);
    if g != -1 {
      SameAsGlobal(config, s1, j1);
      SameAsGlobal(config, s2, j2);
    } else {
      assert LastLevel(config, 0) == -1 && s1 == 1 && s2 == 1;
      SiteLineSize(config, 1, -1, j1);
      SiteLineSize(config, 1, -1, j2);
    }
  }

  /** Within an accepted site every level has the site's line size. */
  lemma SiteLineSize(config: Config, site: nat, global: int, j: nat)
    requires SiteAccepted(config, site, global) && j as int <= LastLevel(config, site)
    ensures config.caches[(site, j)].linesize == GlobalAfter(config, site, global)
  {
    assert SectionOk(config.caches[(site, j)], EffectiveLineSize(config, site, j, global));
  }

  lemma SameAsGlobal(config: Config, s: nat, j: nat)
    requires ConfigAccepted(config) && s < 2 && j as int <= LastLevel(config, s)
    requires GlobalAfter(config, 0, -1) != -1
    ensures config.caches[(s, j)].linesize == GlobalAfter(config, 0, -1)
  {
    if s == 0 {
      SiteLineSize(config, 0, -1, j);
    } else {
      SiteLineSize(config, 1, GlobalAfter(config, 0, -1), j);
    }
  }
}
