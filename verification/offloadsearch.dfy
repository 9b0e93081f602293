/**
 * The solver's decision rules over the aligned per-block statistics: the
 * greedy rule, the MPKI rule, the exhaustive search over a batch of blocks,
 * and the filling and one-flip improvement that end a round of the
 * data-reuse search.
 */
module OffloadSearch {
  import opened Common
  import opened CostModel
  import SS = StorageSets

  /** A decision names a site for every block; the search only ever writes CPU or PIM. */
  predicate Decided(d: seq<CostSite>)
  {
    forall i | 0 <= i < |d| :: d[i] == CPU || d[i] == PIM
  }

  // ---------------------------------------------------------------------
  // Greedy
  // ---------------------------------------------------------------------

  /** Each block on its faster site, the CPU on a tie. */
  predicate IsGreedy(cpu: seq<int>, pim: seq<int>, d: seq<CostSite>)
    requires |pim| == |cpu|
    ensures IsGreedy(cpu, pim, d) ==> |d| == |cpu| && Decided(d) && forall i | 0 <= i < |d| :: d[i] == PIM <==> pim[i] < cpu[i]
  {
    |d| == |cpu| && forall i | 0 <= i < |d| :: d[i] == if cpu[i] <= pim[i] then CPU else PIM
  }

  /** `PrintGreedyStats`' decision loop. */
  method Greedy(cpu: seq<int>, pim: seq<int>) returns (d: seq<CostSite>)
    requires |pim| == |cpu|
    ensures IsGreedy(cpu, pim, d) && Decided(d)
  {
    d := [];
    var i := 0;
    while i < |cpu|
      invariant 0 <= i <= |cpu| && |d| == i
      invariant forall k | 0 <= k < i :: d[k] == if cpu[k] <= pim[k] then CPU else PIM
    {
      if cpu[i] <= pim[i] {
        d := d + [CPU];
      } else {
        d := d + [PIM];
      }
      i := i + 1;
    }
  }

  lemma {:induction false} GreedyTotals(cpu: seq<int>, pim: seq<int>, g: seq<CostSite>, d: seq<CostSite>)
    requires |pim| == |cpu| && IsGreedy(cpu, pim, g) && |d| == |cpu| && Decided(d)
    ensures SiteTotal(cpu, g, CPU) + SiteTotal(pim, g, PIM) <= SiteTotal(cpu, d, CPU) + SiteTotal(pim, d, PIM)
    decreases |cpu|
  {
    if cpu != [] {
      GreedyTotals(cpu[1..], pim[1..], g[1..], d[1..]);
    }
  }

  /** No decision of CPU and PIM entries is busy for less time than the greedy one. */
  lemma GreedyMinimisesBusy(cpu: seq<int>, pim: seq<int>, g: seq<CostSite>, d: seq<CostSite>)
    requires |pim| == |cpu| && IsGreedy(cpu, pim, g) && |d| == |cpu| && Decided(d)
    ensures Busy(cpu, pim, g) <= Busy(cpu, pim, d)
  {
    ElapsedTimeTotals(cpu, pim, g);
    ElapsedTimeTotals(cpu, pim, d);
    GreedyTotals(cpu, pim, g, d);
  }

  // ---------------------------------------------------------------------
  // MPKI
  // ---------------------------------------------------------------------

  const MPKI_THRESHOLD: nat := 5
  const PARALLELISM_THRESHOLD: nat := 15

  /** What the MPKI rule reads of a block's PIM statistics. */
  datatype PimCounters = PimCounters(hash: UUID, instructions: nat, memoryAccesses: nat, parallelism: nat)

  function InstrTotal(s: seq<PimCounters>): nat
  {
    if s == [] then 0 else s[0].instructions + InstrTotal(s[1..])
  }

  /**
   * The offload test: more than 5 misses per thousand instructions, more
   * than 15 merges and more than 1% of all PIM instructions.
   */
  predicate MpkiOffloads(c: PimCounters, threshold: nat)
    ensures MpkiOffloads(c, threshold) ==> c.memoryAccesses > 0 && c.memoryAccesses * 200 > c.instructions
  {
    c.instructions > 0 && c.memoryAccesses * 1000 > MPKI_THRESHOLD * c.instructions
    && c.parallelism > PARALLELISM_THRESHOLD && c.instructions > threshold
  }

  /** `PrintMPKIStats`' decision loops: the instruction total, then one decision per block. */
  method Mpki(s: seq<PimCounters>) returns (d: seq<CostSite>)
    ensures |d| == |s| && Decided(d)
    ensures forall i | 0 <= i < |s| ::
      d[i] == if s[i].hash != GLOBAL_BBLHASH && MpkiOffloads(s[i], InstrTotal(s) / 100) then PIM else CPU
  {
    var total := 0;
    var i := |s|;
    while i > 0
      invariant 0 <= i <= |s| && total == InstrTotal(s[i..])
    {
      i := i - 1;
      assert s[i..][1..] == s[i + 1..];
      total := total + s[i].instructions;
    }
    assert s[0..] == s;
    var threshold := total / 100;
    d := [];
    while i < |s|
      invariant 0 <= i <= |s| && |d| == i
      invariant forall k | 0 <= k < i :: d[k] == if s[k].hash != GLOBAL_BBLHASH && MpkiOffloads(s[k], threshold) then PIM else CPU
    {
      if s[i].hash == GLOBAL_BBLHASH {
        d := d + [CPU];
      } else if s[i].memoryAccesses * 1000 > MPKI_THRESHOLD * s[i].instructions && s[i].instructions > 0
        && s[i].parallelism > PARALLELISM_THRESHOLD && s[i].instructions > threshold
      {
        d := d + [PIM];
      } else {
        d := d + [CPU];
      }
      i := i + 1;
    }
  }

  /** More memory accesses, more merges or a lower threshold never move a block from PIM back to the CPU. */
  lemma MpkiMonotone(c: PimCounters, threshold: nat, mem: nat, para: nat, lower: nat)
    requires MpkiOffloads(c, threshold) && mem >= c.memoryAccesses && para >= c.parallelism && lower <= threshold
    ensures MpkiOffloads(c.(memoryAccesses := mem, parallelism := para), lower)
  {
  }

  // ---------------------------------------------------------------------
  // Exhaustive search over a batch
  // ---------------------------------------------------------------------

  /** `FLT_MAX`, the start value of the running minimum. */
  const FLT_MAX: int := 340282346638528859811704183484516925440

  /** Bit j of p: the j-th batch block goes to PIM when it is set. */
  predicate Bit(p: nat, j: nat)
  {
    (p / SS.Pow2(j)) % 2 == 1
  }

  /** The inner loop of the search: batch entries 0 .. j-1 written from the bits of p, in order. */
  function Assign(d: seq<CostSite>, batch: seq<nat>, p: nat, j: nat): (r: seq<CostSite>)
    requires j <= |batch| && forall b | b in batch :: b < |d|
    ensures |r| == |d|
    ensures forall i | 0 <= i < |d| && i !in batch[..j] :: r[i] == d[i]
    ensures forall i | 0 <= i < |d| && i in batch[..j] :: r[i] == CPU || r[i] == PIM
    decreases j
  {
    if j == 0 then d
    else
      assert batch[..j] == batch[..j - 1] + [batch[j - 1]];
      assert batch[j - 1] in batch;
      Assign(d, batch, p, j - 1)[batch[j - 1] := if Bit(p, j - 1) then PIM else CPU]
  }

  /** Entries outside the batch are all the inner loop cannot change, so only they matter. */
  lemma {:induction false} AssignOverwrites(d1: seq<CostSite>, d2: seq<CostSite>, batch: seq<nat>, p: nat, j: nat)
    requires |d1| == |d2| && j <= |batch| && forall b | b in batch :: b < |d1|
    requires forall i | 0 <= i < |d1| && i !in batch :: d1[i] == d2[i]
    ensures forall i | 0 <= i < |d1| && i !in batch[j..] :: Assign(d1, batch, p, j)[i] == Assign(d2, batch, p, j)[i]
    decreases j
  {
    if j > 0 {
      AssignOverwrites(d1, d2, batch, p, j - 1);
      assert batch[j - 1..] == [batch[j - 1]] + batch[j..];
    }
  }

  lemma SameAssign(d1: seq<CostSite>, d2: seq<CostSite>, batch: seq<nat>, p: nat)
    requires |d1| == |d2| && forall b | b in batch :: b < |d1|
    requires forall i | 0 <= i < |d1| && i !in batch :: d1[i] == d2[i]
    ensures Assign(d1, batch, p, |batch|) == Assign(d2, batch, p, |batch|)
  {
    AssignOverwrites(d1, d2, batch, p, |batch|);
    assert batch[|batch|..] == [];
  }

  /** In a batch without repeats, block batch[k] gets the site bit k of p names. */
  lemma {:induction false} AssignBits(d: seq<CostSite>, batch: seq<nat>, p: nat, j: nat, k: nat)
    requires j <= |batch| && forall b | b in batch :: b < |d|
    requires forall a, b | 0 <= a < b < |batch| :: batch[a] != batch[b]
    requires k < j
    ensures batch[k] < |d| && Assign(d, batch, p, j)[batch[k]] == if Bit(p, k) then PIM else CPU
    decreases j
  {
    assert batch[k] in batch;
    if k < j - 1 {
      AssignBits(d, batch, p, j - 1, k);
    }
  }

  /** The inner loop of the search, writing every batch entry from the bits of q. */
  method WriteBatch(temp: seq<CostSite>, batch: seq<nat>, q: nat) returns (r: seq<CostSite>)
    requires forall b | b in batch :: b < |temp|
    ensures r == Assign(temp, batch, q, |batch|)
  {
    r := temp;
    var j := 0;
    while j < |batch|
      invariant 0 <= j <= |batch| && r == Assign(temp, batch, q, j)
    {
      assert batch[j] in batch;
      if (q / SS.Pow2(j)) % 2 == 1 {
        r := r[batch[j] := PIM];
      } else {
        r := r[batch[j] := CPU];
      }
      j := j + 1;
    }
  }

  /** One more assignment tried: the smaller of the best cost and its cost bounds every assignment tried so far. */
  lemma BestSoFarStep(p: Problem, d: seq<CostSite>, batch: seq<nat>, q: nat, total: int, t: int)
    requires ProblemOk(p) && |d| == |p.cpu| && forall b | b in batch :: b < |d|
    requires forall r: nat | q < r < SS.Pow2(|batch|) :: total <= Cost(p, Assign(d, batch, r, |batch|))
    requires t == Cost(p, Assign(d, batch, q, |batch|))
    ensures forall r: nat | q <= r < SS.Pow2(|batch|) ::
      (if t < total then t else total) <= Cost(p, Assign(d, batch, r, |batch|))
  {
  }

  /**
   * `PermuteDecision`: tries p = 2^k - 1 down to 0, writing the batch from
   * the bits of p, and keeps the first cheapest assignment seen. Only batch
   * entries change, and the result is the least cost over all 2^k
   * assignments (or `FLT_MAX` when none is cheaper, with the decision
   * unchanged). Among equally cheap assignments the one of the largest p
   * is kept, since only a strictly smaller cost replaces the best.
   */
  method PermuteDecision(p: Problem, d: seq<CostSite>, batch: seq<nat>) returns (total: int, out: seq<CostSite>)
    requires ProblemOk(p) && |d| == |p.cpu| && |batch| < 64 && forall b | b in batch :: b < |d|
    ensures |out| == |d| && forall i | 0 <= i < |d| && i !in batch :: out[i] == d[i]
    ensures forall q: nat | q < SS.Pow2(|batch|) :: total <= Cost(p, Assign(d, batch, q, |batch|))
    ensures (total == FLT_MAX && out == d)
         || exists q: nat | q < SS.Pow2(|batch|) :: out == Assign(d, batch, q, |batch|) && total == Cost(p, out)
    ensures total <= FLT_MAX
    ensures total < FLT_MAX ==> exists q: nat | q < SS.Pow2(|batch|) ::
      out == Assign(d, batch, q, |batch|) && total == Cost(p, out) &&
      forall r: nat | q < r < SS.Pow2(|batch|) :: total < Cost(p, Assign(d, batch, r, |batch|))
  {
    var k := |batch|;
    total := FLT_MAX;
    out := d;
    var temp := d;
    ghost var best := -1;
    var q: int := SS.Pow2(k) - 1;
    while q != -1
      invariant -1 <= q < SS.Pow2(k) && total <= FLT_MAX
      invariant |temp| == |d| && forall i | 0 <= i < |d| && i !in batch :: temp[i] == d[i]
      invariant forall r: nat | q < r < SS.Pow2(k) :: total <= Cost(p, Assign(d, batch, r, k))
      invariant best == -1 ==> total == FLT_MAX && out == d
      invariant best != -1 ==> q < best < SS.Pow2(k) && out == Assign(d, batch, best, k) && total == Cost(p, out)
      invariant best != -1 ==> forall r: nat | best < r < SS.Pow2(k) :: total < Cost(p, Assign(d, batch, r, k))
      decreases q
    {
      ghost var start := temp;
      temp := WriteBatch(temp, batch, q);
      SameAssign(start, d, batch, q);
      assert temp == Assign(d, batch, q, k);
      assert batch[..k] == batch;
      var t := Cost(p, temp);
      BestSoFarStep(p, d, batch, q, total, t);
      if t < total {
        total := t;
        out := temp;
        best := q;
      }
      q := q - 1;
    }
    if best != -1 {
      var w: nat := best;
      assert w < SS.Pow2(k) && out == Assign(d, batch, w, k) && total == Cost(p, out);
      assert forall r: nat | w < r < SS.Pow2(k) :: total < Cost(p, Assign(d, batch, r, k));
    }
  }

  // ---------------------------------------------------------------------
  // The end of a round: fill, then flip
  // ---------------------------------------------------------------------

  /** The fill loop: every block still INVALID goes to its faster site, the CPU on a tie. */
  method FillInvalid(cpu: seq<int>, pim: seq<int>, d: seq<CostSite>) returns (out: seq<CostSite>)
    requires |pim| == |cpu| == |d|
    ensures |out| == |d| && forall i | 0 <= i < |d| :: out[i] != Invalid
    ensures forall i | 0 <= i < |d| && d[i] != Invalid :: out[i] == d[i]
    ensures forall i | 0 <= i < |d| && d[i] == Invalid :: out[i] == if cpu[i] <= pim[i] then CPU else PIM
  {
    out := d;
    var i := 0;
    while i < |cpu|
      invariant 0 <= i <= |cpu| && |out| == |d|
      invariant forall k | 0 <= k < |d| && (k >= i || d[k] != Invalid) :: out[k] == d[k]
      invariant forall k | 0 <= k < i && d[k] == Invalid :: out[k] == if cpu[k] <= pim[k] then CPU else PIM
    {
      if out[i] == Invalid {
        if cpu[i] <= pim[i] {
          out := out[i := CPU];
        } else {
          out := out[i := PIM];
        }
      }
      i := i + 1;
    }
  }

  /** Starting from no decision at all, the fill gives the greedy decision. */
  lemma FillFromNothingIsGreedy(cpu: seq<int>, pim: seq<int>, d: seq<CostSite>, out: seq<CostSite>)
    requires |pim| == |cpu| == |d| == |out| && forall i | 0 <= i < |d| :: d[i] == Invalid
    requires forall i | 0 <= i < |d| && d[i] == Invalid :: out[i] == if cpu[i] <= pim[i] then CPU else PIM
    ensures IsGreedy(cpu, pim, out)
  {
  }

  /** The other site: PIM for CPU, the CPU for anything else. */
  function Flip(s: CostSite): (r: CostSite)
    ensures r == CPU || r == PIM
    ensures (s == CPU || s == PIM) ==> r != s
  {
    if s == CPU then PIM else CPU
  }

  /**
   * The flip loop: two passes over the blocks, each flipping one block and
   * flipping it back when that costs more. The running total always is the
   * cost of the current decision and never grows.
   */
  method FlipSearch(p: Problem, d: seq<CostSite>) returns (out: seq<CostSite>, cur: int)
    requires ProblemOk(p) && |d| == |p.cpu| && Decided(d)
    ensures |out| == |d| && Decided(out)
    ensures cur == Cost(p, out) && cur <= Cost(p, d)
  {
    out := d;
    cur := Cost(p, out);
    var pass := 0;
    while pass < 2
      invariant 0 <= pass <= 2 && |out| == |d| && Decided(out)
      invariant cur == Cost(p, out) && cur <= Cost(p, d)
    {
      var id := 0;
      while id < |out|
        invariant 0 <= id <= |out| && |out| == |d| && Decided(out)
        invariant cur == Cost(p, out) && cur <= Cost(p, d)
      {
        ghost var before := out;
        out := out[id := Flip(out[id])];
        var t := Cost(p, out);
        if t > cur {
          out := out[id := Flip(out[id])];
          assert out == before;
        } else {
          cur := t;
        }
        id := id + 1;
      }
      pass := pass + 1;
    }
  }

  /**
   * The end of a round of the reuse search: fill, cost, flip, and keep the
   * decision when it beats the best so far.
   */
  method FinishRound(p: Problem, d: seq<CostSite>, minTotal: int, minDecision: seq<CostSite>)
    returns (newMin: int, newDecision: seq<CostSite>)
    requires ProblemOk(p) && |d| == |p.cpu|
    requires forall i | 0 <= i < |d| :: d[i] == CPU || d[i] == PIM || d[i] == Invalid
    ensures newMin <= minTotal
    ensures (newMin == minTotal && newDecision == minDecision)
         || (|newDecision| == |d| && Decided(newDecision) && newMin == Cost(p, newDecision))
  {
    var filled := FillInvalid(p.cpu, p.pim, d);
    var flipped, cur := FlipSearch(p, filled);
    if minTotal > cur {
      newMin, newDecision := cur, flipped;
    } else {
      newMin, newDecision := minTotal, minDecision;
    }
  }
}
