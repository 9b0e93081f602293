/**
 * The older, Pin-side solver: one map from block hash to a pair of
 * counters (CPU and PIM) with a block id, read from a CPU report and a
 * PIM report, and the MPKI decision over the blocks listed in id order.
 *
 * Ids are dense: a hash seen for the first time gets the map's size
 * before insertion, so the ids of a map with n entries are 0 .. n-1.
 * Times and counters are `uint64_t` in the source and unbounded here.
 */
module PinCostSolver {
  import opened Common
  import opened Text
  import opened Stats
  import CM = CostModel
  import DR = DataReuse

  /** A block's entry (`BBLStatsPair`): its id and its counters on each site. */
  datatype StatsPair = StatsPair(bblid: int, cpu: BBLStats, pim: BBLStats)

  /** The counters of a block nobody has reported yet. */
  const ZERO_STATS: BBLStats := NewBBLStats(GLOBAL_BBLID, GLOBAL_BBLHASH)

  /** `BBLStatsPair()`: id 0 and zero counters on both sites. */
  const EMPTY_PAIR: StatsPair := StatsPair(0, ZERO_STATS, ZERO_STATS)

  /** The hash with every bit set, which marks the part of the run outside any block. */
  const OUTSIDE_BBLHASH: UUID := UUID(0xFFFF_FFFF_FFFF_FFFF, 0xFFFF_FFFF_FFFF_FFFF)

  /** The misses per thousand instructions a block must exceed to go to PIM. */
  const PIN_MPKI_THRESHOLD: nat := 10

  // ---------------------------------------------------------------------
  // Reading report lines
  // ---------------------------------------------------------------------

  /**
   * The variables one report line is read into: thread id, the two hash
   * halves and the three counters. They live across lines, so a field a
   * line does not supply keeps the value of an earlier line.
   */
  datatype Fields = Fields(tid: nat, hi: u64, lo: u64, elapsed: int, instructions: nat, memoryAccesses: nat)

  /** A decimal token read into a `uint32_t`. */
  function ParseU32(tok: string): (r: Option<nat>)
    ensures r.Some? ==> r.value < 0x1_0000_0000
  {
    match ParseNat(tok)
    case Some(v) => if v < 0x1_0000_0000 then Some(v) else None
    case None => None
  }

  /**
   * How many of the six fields read successfully, in order: thread id
   * (decimal), hash halves (hexadecimal), elapsed time, instructions and
   * memory accesses (decimal). Reading stops at the first failure.
   */
  function PinFieldsRead(t: seq<string>): (n: nat)
    ensures n <= 6 && n <= |t|
  {
    if |t| < 1 || ParseU32(t[0]).None? then 0
    else if |t| < 2 || ParseHex64(t[1]).None? then 1
    else if |t| < 3 || ParseHex64(t[2]).None? then 2
    else if |t| < 4 || ParseDec(t[3]).None? then 3
    else if |t| < 5 || ParseNat(t[4]).None? then 4
    else if |t| < 6 || ParseNat(t[5]).None? then 5
    else 6
  }

  /**
   * One line read into the variables: a field before the first failure
   * takes its token's value; the field that fails is set to 0 when its
   * token is there but malformed and left as it was when the line has no
   * more tokens; every field after it is left as it was.
   */
  function ReadFields(line: string, prev: Fields): Fields
  {
    var t := Tokens(line);
    var n := PinFieldsRead(t);
    Fields(
      if n > 0 then ParseU32(t[0]).value else if |t| > 0 then 0 else prev.tid,
      if n > 1 then ParseHex64(t[1]).value else if n == 1 && |t| > 1 then 0 else prev.hi,
      if n > 2 then ParseHex64(t[2]).value else if n == 2 && |t| > 2 then 0 else prev.lo,
      if n > 3 then ParseDec(t[3]).value else if n == 3 && |t| > 3 then 0 else prev.elapsed,
      if n > 4 then ParseNat(t[4]).value else if n == 4 && |t| > 4 then 0 else prev.instructions,
      if n > 5 then ParseNat(t[5]).value else if n == 5 && |t| > 5 then 0 else prev.memoryAccesses)
  }

  /** The six fields as the report writes them: decimal, hexadecimal hash halves, decimal. */
  function ShowFields(f: Fields): (ws: seq<string>)
    requires f.elapsed >= 0
    ensures |ws| == 6
  {
    [Show(f.tid, 10), Show(f.hi, 16), Show(f.lo, 16), Show(f.elapsed, 10),
     Show(f.instructions, 10), Show(f.memoryAccesses, 10)]
  }

  /** Each written field is one token and parses back to its value. */
  lemma ShowFieldsParse(f: Fields)
    requires f.tid < 0x1_0000_0000 && f.elapsed >= 0
    ensures var ws := ShowFields(f);
      IsWord(ws[0]) && IsWord(ws[1]) && IsWord(ws[2]) && IsWord(ws[3]) && IsWord(ws[4]) && IsWord(ws[5])
      && ParseU32(ws[0]) == Some(f.tid) && ParseHex64(ws[1]) == Some(f.hi) && ParseHex64(ws[2]) == Some(f.lo)
      && ParseDec(ws[3]) == Some(f.elapsed) && ParseNat(ws[4]) == Some(f.instructions)
      && ParseNat(ws[5]) == Some(f.memoryAccesses)
  {
    ShowIsWord(f.tid, 10);
    ShowIsWord(f.hi, 16);
    ShowIsWord(f.lo, 16);
    ShowIsWord(f.elapsed, 10);
    ShowIsWord(f.instructions, 10);
    ShowIsWord(f.memoryAccesses, 10);
    ParseDecShow(f.tid);
    ParseDecShow(f.elapsed);
    ParseDecShow(f.instructions);
    ParseDecShow(f.memoryAccesses);
    ParseHexShow(f.hi);
    ParseHexShow(f.lo);
  }

  /** A line written as the six fields separated by spaces reads back as those fields, whatever came before. */
  lemma ReadFieldsShow(f: Fields, prev: Fields)
    requires f.tid < 0x1_0000_0000 && f.elapsed >= 0
    ensures ReadFields(Join(ShowFields(f)), prev) == f
  {
    var ws := ShowFields(f);
    ShowFieldsParse(f);
    assert forall k | 0 <= k < |ws| :: IsWord(ws[k]) by {
      forall k | 0 <= k < |ws| ensures IsWord(ws[k]) {
        assert k == 0 || k == 1 || k == 2 || k == 3 || k == 4 || k == 5;
      }
    }
    TokensJoin(ws);
    AllFieldsRead(ws);
    ReadFieldsComplete(Join(ws), prev);
  }

  /** Six well-formed tokens are all read. */
  lemma AllFieldsRead(t: seq<string>)
    requires |t| == 6 && ParseU32(t[0]).Some? && ParseHex64(t[1]).Some? && ParseHex64(t[2]).Some?
    requires ParseDec(t[3]).Some? && ParseNat(t[4]).Some? && ParseNat(t[5]).Some?
    ensures PinFieldsRead(t) == 6
  {
  }

  /** A line with all six fields well formed sets every variable from its token. */
  lemma ReadFieldsComplete(line: string, prev: Fields)
    requires PinFieldsRead(Tokens(line)) == 6
    ensures var t := Tokens(line);
      ReadFields(line, prev) == Fields(ParseU32(t[0]).value, ParseHex64(t[1]).value, ParseHex64(t[2]).value,
                                       ParseDec(t[3]).value, ParseNat(t[4]).value, ParseNat(t[5]).value)
  {
  }

  /** An empty line reads nothing: every variable keeps the previous line's value. */
  lemma ReadFieldsEmpty(prev: Fields)
    ensures ReadFields("", prev) == prev
  {
    assert Tokens("") == [];
  }

  /** A line whose first token is not a thread id reads nothing but sets the thread id to 0. */
  lemma ReadFieldsBadTid(line: string, prev: Fields)
    requires Tokens(line) != [] && ParseU32(Tokens(line)[0]).None?
    ensures ReadFields(line, prev) == prev.(tid := 0)
  {
  }

  // ---------------------------------------------------------------------
  // The hash map and its dense ids
  // ---------------------------------------------------------------------

  /**
   * `InsertBBLHash` on map values: a new hash gets an entry with id equal
   * to the number of entries before it; the counters are added to the
   * entry's site.
   */
  function Inserted(m: map<UUID, StatsPair>, h: UUID, s: BBLStats, site: CostSite): (r: map<UUID, StatsPair>)
    requires site == CPU || site == PIM
    ensures r.Keys == m.Keys + {h}
    ensures r[h].bblid == if h in m then m[h].bblid else |m|
    ensures forall g | g in m && g != h :: r[g] == m[g]
  {
    var p := if h in m then m[h] else EMPTY_PAIR.(bblid := |m|);
    m[h := if site == CPU then p.(cpu := MergeStats(p.cpu, s)) else p.(pim := MergeStats(p.pim, s))]
  }

  /** The ids of a map with n entries are 0 .. n-1, each once. */
  predicate Dense(m: map<UUID, StatsPair>)
  {
    (forall h | h in m :: 0 <= m[h].bblid < |m|)
    && (forall h, g | h in m && g in m && h != g :: m[h].bblid != m[g].bblid)
  }

  /** Inserting keeps the ids dense, and adds the counters to the named site only. */
  lemma InsertedDense(m: map<UUID, StatsPair>, h: UUID, s: BBLStats, site: CostSite)
    requires site == CPU || site == PIM
    ensures Dense(m) ==> Dense(Inserted(m, h, s, site))
    ensures var old_ := if h in m then m[h] else EMPTY_PAIR; var r := Inserted(m, h, s, site)[h];
      if site == CPU then r.cpu == MergeStats(old_.cpu, s) && r.pim == old_.pim
      else r.pim == MergeStats(old_.pim, s) && r.cpu == old_.cpu
  {
    var r := Inserted(m, h, s, site);
    if h !in m {
      assert |r| == |m| + 1 by {
        assert r.Keys == m.Keys + {h};
      }
    } else {
      assert r.Keys == m.Keys;
    }
  }

  /** One line of a report: read it, then insert its counters (a PIM line only when its thread id is 0). */
  function ReadStep(acc: (map<UUID, StatsPair>, Fields), line: string, pim: bool): (r: (map<UUID, StatsPair>, Fields))
    ensures pim && r.1.tid != 0 ==> r.0 == acc.0
    ensures !(pim && r.1.tid != 0) ==> r.0.Keys == acc.0.Keys + {UUID(r.1.hi, r.1.lo)}
    ensures forall h | h in acc.0 && h != UUID(r.1.hi, r.1.lo) :: h in r.0 && r.0[h] == acc.0[h]
  {
    var f := ReadFields(line, acc.1);
    var s := ZERO_STATS.(elapsedTime := f.elapsed, instructionCount := f.instructions, memoryAccess := f.memoryAccesses);
    if pim && f.tid != 0 then (acc.0, f)
    else (Inserted(acc.0, UUID(f.hi, f.lo), s, if pim then PIM else CPU), f)
  }

  /** The lines of a report, first to last. */
  function Load(acc: (map<UUID, StatsPair>, Fields), lines: seq<string>, pim: bool): (map<UUID, StatsPair>, Fields)
    decreases |lines|
  {
    if lines == [] then acc
    else ReadStep(Load(acc, lines[..|lines| - 1], pim), lines[|lines| - 1], pim)
  }

  /** Reading a report keeps the ids dense; every entry keeps its id and its other site's counters. */
  lemma {:induction false} LoadKeeps(acc: (map<UUID, StatsPair>, Fields), lines: seq<string>, pim: bool)
    ensures Dense(acc.0) ==> Dense(Load(acc, lines, pim).0)
    ensures forall h | h in acc.0 :: h in Load(acc, lines, pim).0 && Load(acc, lines, pim).0[h].bblid == acc.0[h].bblid
    ensures forall h | h in acc.0 ::
      if pim then Load(acc, lines, pim).0[h].cpu == acc.0[h].cpu else Load(acc, lines, pim).0[h].pim == acc.0[h].pim
    decreases |lines|
  {
    if lines != [] {
      var before := Load(acc, lines[..|lines| - 1], pim);
      LoadKeeps(acc, lines[..|lines| - 1], pim);
      var f := ReadFields(lines[|lines| - 1], before.1);
      var s := ZERO_STATS.(elapsedTime := f.elapsed, instructionCount := f.instructions, memoryAccess := f.memoryAccesses);
      if !(pim && f.tid != 0) {
        InsertedDense(before.0, UUID(f.hi, f.lo), s, if pim then PIM else CPU);
      }
    }
  }

  /** A PIM line of a thread other than 0 changes no entry. */
  lemma PimOtherThread(acc: (map<UUID, StatsPair>, Fields), line: string)
    requires ReadFields(line, acc.1).tid != 0
    ensures ReadStep(acc, line, true).0 == acc.0
  {
  }

  /** The map `initialize` builds: the global block first, then the CPU report, then thread 0 of the PIM report. */
  function Initialized(cpuLines: seq<string>, pimLines: seq<string>, start: Fields): map<UUID, StatsPair>
  {
    var afterCpu := Load((map[GLOBAL_BBLHASH := EMPTY_PAIR], start), cpuLines, false);
    Load(afterCpu, pimLines, true).0
  }

  /** After `initialize` the ids are dense and the global block (0, 0) is block 0. */
  lemma InitializedDense(cpuLines: seq<string>, pimLines: seq<string>, start: Fields)
    ensures Dense(Initialized(cpuLines, pimLines, start))
    ensures GLOBAL_BBLHASH in Initialized(cpuLines, pimLines, start)
    ensures Initialized(cpuLines, pimLines, start)[GLOBAL_BBLHASH].bblid == GLOBAL_BBLID
  {
    var first: (map<UUID, StatsPair>, Fields) := (map[GLOBAL_BBLHASH := EMPTY_PAIR], start);
    assert Dense(first.0) && first.0[GLOBAL_BBLHASH].bblid == GLOBAL_BBLID;
    LoadKeeps(first, cpuLines, false);
    var afterCpu := Load(first, cpuLines, false);
    assert Dense(afterCpu.0) && GLOBAL_BBLHASH in afterCpu.0 && afterCpu.0[GLOBAL_BBLHASH].bblid == GLOBAL_BBLID;
    LoadKeeps(afterCpu, pimLines, true);
    assert Initialized(cpuLines, pimLines, start) == Load(afterCpu, pimLines, true).0;
  }

  // ---------------------------------------------------------------------
  // Listing in id order
  // ---------------------------------------------------------------------

  /** The listed hashes are entries of the map, in strictly ascending id order. */
  predicate IdsAscending(m: map<UUID, StatsPair>, s: seq<UUID>)
  {
    (forall k | 0 <= k < |s| :: s[k] in m)
    && forall i, j | 0 <= i < j < |s| :: m[s[i]].bblid < m[s[j]].bblid
  }

  /** h placed into a list in id order that does not hold it. */
  function InsertById(m: map<UUID, StatsPair>, s: seq<UUID>, h: UUID): (r: seq<UUID>)
    requires Dense(m) && h in m && h !in s && IdsAscending(m, s)
    ensures IdsAscending(m, r) && |r| == |s| + 1
    ensures forall y :: y in r <==> y in s || y == h
  {
    if s == [] then [h]
    else if m[h].bblid < m[s[0]].bblid then [h] + s
    else
      var rest := InsertById(m, s[1..], h);
      var r := [s[0]] + rest;
      assert forall k | 0 <= k < |rest| :: m[s[0]].bblid < m[rest[k]].bblid by {
        forall k | 0 <= k < |rest| ensures m[s[0]].bblid < m[rest[k]].bblid {
          assert rest[k] in rest;
        }
      }
      r
  }

  /** The `std::sort` by id of the map's entries: every hash once, in ascending id order. */
  method SortById(m: map<UUID, StatsPair>) returns (s: seq<UUID>)
    requires Dense(m)
    ensures IdsAscending(m, s) && |s| == |m|
    ensures forall h :: h in s <==> h in m
  {
    s := [];
    var rest := m.Keys;
    while rest != {}
      invariant rest <= m.Keys && IdsAscending(m, s) && |s| + |rest| == |m|
      invariant forall h :: h in s <==> h in m && h !in rest
      decreases |rest|
    {
      var h :| h in rest;
      s := InsertById(m, s, h);
      rest := rest - {h};
    }
  }

  /** In a list in strictly ascending id order, ids are at least their positions. */
  lemma {:induction false} IdAtLeast(m: map<UUID, StatsPair>, s: seq<UUID>, i: nat)
    requires Dense(m) && IdsAscending(m, s) && i < |s|
    ensures m[s[i]].bblid >= i
  {
    if i > 0 {
      IdAtLeast(m, s, i - 1);
    }
  }

  /** ... and at most their positions when the list is as long as the map. */
  lemma {:induction false} IdAtMost(m: map<UUID, StatsPair>, s: seq<UUID>, i: nat)
    requires Dense(m) && IdsAscending(m, s) && i < |s| == |m|
    ensures m[s[i]].bblid <= i
    decreases |s| - i
  {
    if i < |s| - 1 {
      IdAtMost(m, s, i + 1);
    }
  }

  /** With dense ids, entry i of the list in id order has id i: `PrintDecision`'s check always passes. */
  lemma IdsAreIndices(m: map<UUID, StatsPair>, s: seq<UUID>)
    requires Dense(m) && IdsAscending(m, s) && |s| == |m|
    ensures forall i | 0 <= i < |s| :: m[s[i]].bblid == i
  {
    forall i | 0 <= i < |s| ensures m[s[i]].bblid == i {
      IdAtLeast(m, s, i);
      IdAtMost(m, s, i);
    }
  }

  /** `PrintDecision`'s check: true when every listed entry's id is its position. */
  method IdsInOrder(m: map<UUID, StatsPair>, s: seq<UUID>) returns (ok: bool)
    requires forall k | 0 <= k < |s| :: s[k] in m
    ensures ok <==> forall i | 0 <= i < |s| :: m[s[i]].bblid == i
  {
    var i := 0;
    while i < |s|
      invariant i <= |s| && forall k | 0 <= k < i :: m[s[k]].bblid == k
    {
      if m[s[i]].bblid != i {
        return false;
      }
      i := i + 1;
    }
    return true;
  }

  // ---------------------------------------------------------------------
  // The MPKI decision
  // ---------------------------------------------------------------------

  function CpuTimes(m: map<UUID, StatsPair>, s: seq<UUID>): (r: seq<int>)
    requires forall k | 0 <= k < |s| :: s[k] in m
    ensures |r| == |s|
  {
    seq(|s|, i requires 0 <= i < |s| => m[s[i]].cpu.elapsedTime)
  }

  function PimTimes(m: map<UUID, StatsPair>, s: seq<UUID>): (r: seq<int>)
    requires forall k | 0 <= k < |s| :: s[k] in m
    ensures |r| == |s|
  {
    seq(|s|, i requires 0 <= i < |s| => m[s[i]].pim.elapsedTime)
  }

  function PimInstructions(m: map<UUID, StatsPair>, s: seq<UUID>): (r: seq<int>)
    requires forall k | 0 <= k < |s| :: s[k] in m
    ensures |r| == |s|
  {
    seq(|s|, i requires 0 <= i < |s| => m[s[i]].pim.instructionCount)
  }

  /**
   * The MPKI rule of this solver: the outside-of-blocks hash stays on the
   * CPU; any other block goes to PIM exactly when its PIM run has more
   * than 10 memory accesses per thousand instructions and more
   * instructions than the threshold.
   */
  function PinDecision(h: UUID, p: StatsPair, threshold: int): CostSite
  {
    if h == OUTSIDE_BBLHASH then CPU
    else if p.pim.memoryAccess * 1000 > PIN_MPKI_THRESHOLD * p.pim.instructionCount
         && p.pim.instructionCount > threshold then PIM
    else CPU
  }

  /** What `PrintMPKISolution` computes. */
  datatype MpkiReport = MpkiReport(decision: seq<CostSite>, cpuOnly: int, pimOnly: int, mpki: int, mpkiCpu: int, mpkiPim: int)

  lemma {:induction false} SumLast(s: seq<int>)
    requires s != []
    ensures DR.Sum(s) == DR.Sum(s[..|s| - 1]) + s[|s| - 1]
    decreases |s|
  {
    if |s| > 1 {
      SumLast(s[1..]);
      assert s[1..][..|s| - 2] == s[..|s| - 1][1..];
    }
  }

  /**
   * `PrintMPKISolution`'s loops over the entries in id order: the PIM
   * instruction total and its 1% threshold, then one decision per entry,
   * the CPU-only and PIM-only times, and the MPKI time split by site.
   */
  method MpkiSolution(m: map<UUID, StatsPair>, s: seq<UUID>) returns (r: MpkiReport)
    requires forall k | 0 <= k < |s| :: s[k] in m
    ensures |r.decision| == |s|
    ensures forall i | 0 <= i < |s| :: r.decision[i] == PinDecision(s[i], m[s[i]], DR.Sum(PimInstructions(m, s)) / 100)
    ensures r.cpuOnly == DR.Sum(CpuTimes(m, s)) && r.pimOnly == DR.Sum(PimTimes(m, s))
    ensures r.mpkiCpu == CM.SiteTotal(CpuTimes(m, s), r.decision, CPU)
    ensures r.mpkiPim == CM.SiteTotal(PimTimes(m, s), r.decision, PIM)
    ensures r.mpki == r.mpkiCpu + r.mpkiPim
    ensures r.mpki == CM.ElapsedTime(CpuTimes(m, s), PimTimes(m, s), r.decision).0
                      + CM.ElapsedTime(CpuTimes(m, s), PimTimes(m, s), r.decision).1
  {
    var instr := PimInstructions(m, s);
    var total := 0;
    var i := 0;
    while i < |s|
      invariant i <= |s| && total == DR.Sum(instr[..i])
    {
      SumLast(instr[..i + 1]);
      assert instr[..i + 1][..i] == instr[..i];
      total := total + m[s[i]].pim.instructionCount;
      i := i + 1;
    }
    assert instr[..|s|] == instr;
    var threshold := total / 100;
    r := Decide(m, s, threshold);
    CM.ElapsedTimeTotals(CpuTimes(m, s), PimTimes(m, s), r.decision);
  }

  /** The decision loop of `PrintMPKISolution`, for a given instruction threshold. */
  method Decide(m: map<UUID, StatsPair>, s: seq<UUID>, threshold: int) returns (r: MpkiReport)
    requires forall k | 0 <= k < |s| :: s[k] in m
    ensures |r.decision| == |s|
    ensures forall i | 0 <= i < |s| :: r.decision[i] == PinDecision(s[i], m[s[i]], threshold)
    ensures r.cpuOnly == DR.Sum(CpuTimes(m, s)) && r.pimOnly == DR.Sum(PimTimes(m, s))
    ensures r.mpkiCpu == CM.SiteTotal(CpuTimes(m, s), r.decision, CPU)
    ensures r.mpkiPim == CM.SiteTotal(PimTimes(m, s), r.decision, PIM)
    ensures r.mpki == r.mpkiCpu + r.mpkiPim
  {
    var cpu, pim := CpuTimes(m, s), PimTimes(m, s);
    var decision: seq<CostSite> := [];
    var cpuOnly, pimOnly, mpki, mpkiCpu, mpkiPim := 0, 0, 0, 0, 0;
    var i := 0;
    while i < |s|
      invariant i <= |s| && |decision| == i
      invariant forall k | 0 <= k < i :: decision[k] == PinDecision(s[k], m[s[k]], threshold)
      invariant cpuOnly == DR.Sum(cpu[..i]) && pimOnly == DR.Sum(pim[..i])
      invariant mpkiCpu == CM.SiteTotal(cpu[..i], decision, CPU) && mpkiPim == CM.SiteTotal(pim[..i], decision, PIM)
      invariant mpki == mpkiCpu + mpkiPim
    {
      var p := m[s[i]];
      cpuOnly := cpuOnly + p.cpu.elapsedTime;
      pimOnly := pimOnly + p.pim.elapsedTime;
      var site := PinDecision(s[i], p, threshold);
      if site == PIM {
        mpki := mpki + p.pim.elapsedTime;
        mpkiPim := mpkiPim + p.pim.elapsedTime;
      } else {
        mpki := mpki + p.cpu.elapsedTime;
        mpkiCpu := mpkiCpu + p.cpu.elapsedTime;
      }
      TotalsStep(cpu, pim, decision, site, i);
      decision := decision + [site];
      i := i + 1;
    }
    assert cpu[..|s|] == cpu && pim[..|s|] == pim;
    r := MpkiReport(decision, cpuOnly, pimOnly, mpki, mpkiCpu, mpkiPim);
  }

  /** The running totals after one more entry. */
  lemma TotalsStep(cpu: seq<int>, pim: seq<int>, d: seq<CostSite>, site: CostSite, i: nat)
    requires i == |d| < |cpu| == |pim|
    ensures DR.Sum(cpu[..i + 1]) == DR.Sum(cpu[..i]) + cpu[i]
    ensures DR.Sum(pim[..i + 1]) == DR.Sum(pim[..i]) + pim[i]
    ensures CM.SiteTotal(cpu[..i + 1], d + [site], CPU)
         == CM.SiteTotal(cpu[..i], d, CPU) + (if site == CPU then cpu[i] else 0)
    ensures CM.SiteTotal(pim[..i + 1], d + [site], PIM)
         == CM.SiteTotal(pim[..i], d, PIM) + (if site == PIM then pim[i] else 0)
  {
    assert cpu[..i + 1][..i] == cpu[..i] && pim[..i + 1][..i] == pim[..i];
    SumLast(cpu[..i + 1]);
    SumLast(pim[..i + 1]);
    CM.SiteTotalLast(cpu[..i + 1], d + [site], CPU);
    CM.SiteTotalLast(pim[..i + 1], d + [site], PIM);
    SiteTotalPrefix(cpu[..i], d, [site], CPU);
    SiteTotalPrefix(pim[..i], d, [site], PIM);
  }

  /** Decisions past the listed times do not count. */
  lemma {:induction false} SiteTotalPrefix(times: seq<int>, d: seq<CostSite>, more: seq<CostSite>, site: CostSite)
    requires |times| <= |d|
    ensures CM.SiteTotal(times, d + more, site) == CM.SiteTotal(times, d, site)
    decreases |times|
  {
    if times != [] {
      assert (d + more)[1..] == d[1..] + more;
      SiteTotalPrefix(times[1..], d[1..], more, site);
    }
  }

  // ---------------------------------------------------------------------
  // The solver object
  // ---------------------------------------------------------------------

  /** The Pin-side solver: the block map its `initialize` fills. */
  class PinSolver {
    var hashMap: map<UUID, StatsPair>

    constructor ()
      ensures hashMap == map[]
    {
      hashMap := map[];
    }

    /** `InsertBBLHash`: counters of one report line into the block's entry on the given site. */
    method InsertBBLHash(h: UUID, s: BBLStats, site: CostSite)
      requires site == CPU || site == PIM
      modifies this
      ensures hashMap == Inserted(old(hashMap), h, s, site)
    {
      var p := if h in hashMap then hashMap[h] else EMPTY_PAIR;
      if h !in hashMap {
        p := p.(bblid := |hashMap|);
      }
      if site == CPU {
        p := p.(cpu := MergeStats(p.cpu, s));
      } else {
        p := p.(pim := MergeStats(p.pim, s));
      }
      hashMap := hashMap[h := p];
    }

    /**
     * `initialize`: the global block (0, 0) as block 0, then every CPU line,
     * then the PIM lines of thread 0. `start` stands for the values the
     * line variables hold before the first line (the source leaves them
     * uninitialised).
     */
    method Initialize(cpuLines: seq<string>, pimLines: seq<string>, start: Fields)
      requires hashMap == map[]
      modifies this
      ensures hashMap == Initialized(cpuLines, pimLines, start)
      ensures Dense(hashMap) && GLOBAL_BBLHASH in hashMap && hashMap[GLOBAL_BBLHASH].bblid == GLOBAL_BBLID
    {
      hashMap := map[GLOBAL_BBLHASH := EMPTY_PAIR];
      var f := start;
      ghost var first := (hashMap, start);
      var i := 0;
      while i < |cpuLines|
        invariant i <= |cpuLines| && (hashMap, f) == Load(first, cpuLines[..i], false)
      {
        assert cpuLines[..i + 1][..i] == cpuLines[..i];
        f := ReadStep1(cpuLines[i], f, false);
        i := i + 1;
      }
      assert cpuLines[..i] == cpuLines;
      ghost var afterCpu := (hashMap, f);
      i := 0;
      while i < |pimLines|
        invariant i <= |pimLines| && (hashMap, f) == Load(afterCpu, pimLines[..i], true)
      {
        assert pimLines[..i + 1][..i] == pimLines[..i];
        f := ReadStep1(pimLines[i], f, true);
        i := i + 1;
      }
      assert pimLines[..i] == pimLines;
      InitializedDense(cpuLines, pimLines, start);
    }

    /** One pass of either reading loop. */
    method ReadStep1(line: string, prev: Fields, pim: bool) returns (f: Fields)
      modifies this
      ensures (hashMap, f) == ReadStep((old(hashMap), prev), line, pim)
    {
      f := ReadFields(line, prev);
      var s := ZERO_STATS.(elapsedTime := f.elapsed, instructionCount := f.instructions, memoryAccess := f.memoryAccesses);
      if pim {
        if f.tid == 0 {
          InsertBBLHash(UUID(f.hi, f.lo), s, PIM);
        }
      } else {
        InsertBBLHash(UUID(f.hi, f.lo), s, CPU);
      }
    }

    /**
     * `PrintMPKISolution`: the entries in id order, the MPKI decision and
     * time totals over them, and `PrintDecision`'s id check, which passes.
     */
    method PrintMPKISolution() returns (sorted: seq<UUID>, r: MpkiReport, idsOk: bool)
      requires Dense(hashMap)
      ensures |sorted| == |hashMap| && IdsAscending(hashMap, sorted)
      ensures forall i | 0 <= i < |sorted| :: hashMap[sorted[i]].bblid == i
      ensures |r.decision| == |hashMap|
      ensures forall i | 0 <= i < |sorted| ::
        r.decision[i] == PinDecision(sorted[i], hashMap[sorted[i]], DR.Sum(PimInstructions(hashMap, sorted)) / 100)
      ensures r.mpki == r.mpkiCpu + r.mpkiPim
      ensures r.mpki == CM.ElapsedTime(CpuTimes(hashMap, sorted), PimTimes(hashMap, sorted), r.decision).0
                        + CM.ElapsedTime(CpuTimes(hashMap, sorted), PimTimes(hashMap, sorted), r.decision).1
      ensures idsOk
    {
      sorted := SortById(hashMap);
      r := MpkiSolution(hashMap, sorted);
      idsOk := IdsInOrder(hashMap, sorted);
      IdsAreIndices(hashMap, sorted);
    }
  }
}
