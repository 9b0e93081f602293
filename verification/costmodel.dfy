/**
 * The solver's cost of a decision vector (one `CostSite` per block id):
 * the elapsed time of the blocks on each site, the data-reuse cost read
 * off the reuse trie, and the switch cost, which is a parameter here.
 * Block times are the per-block maxima over threads (what
 * `MaxElapsedTime` returns); `COST` is modelled as an integer.
 */
module CostModel {
  import opened Common
  import DR = DataReuse

  /** The flush and fetch costs the solver is initialised with. */
  const FLUSH_CPU: int := 60
  const FLUSH_PIM: int := 30
  const FETCH_CPU: int := 60
  const FETCH_PIM: int := 30

  /** The reuse cost of one segment occurrence when its sites differ, whichever way round. */
  function SingleSegMaxReuseCost(): (r: int)
    ensures r >= FLUSH_CPU + FETCH_PIM && r >= FLUSH_PIM + FETCH_CPU
    ensures r == FLUSH_CPU + FETCH_PIM || r == FLUSH_PIM + FETCH_CPU
  {
    if FLUSH_CPU + FETCH_PIM >= FLUSH_PIM + FETCH_CPU then FLUSH_CPU + FETCH_PIM else FLUSH_PIM + FETCH_CPU
  }

  // ---------------------------------------------------------------------
  // Elapsed time
  // ---------------------------------------------------------------------

  /**
   * `ElapsedTime(decision)`: the loop over block ids adding the CPU time of
   * the blocks on the CPU and the PIM time of the blocks on PIM; a block
   * with any other decision adds nothing.
   */
  function ElapsedTime(cpu: seq<int>, pim: seq<int>, d: seq<CostSite>): (int, int)
    requires |pim| == |cpu| <= |d|
    decreases |cpu|
  {
    if cpu == [] then (0, 0)
    else
      var n := |cpu| - 1;
      var acc := ElapsedTime(cpu[..n], pim[..n], d);
      if d[n] == CPU then (acc.0 + cpu[n], acc.1)
      else if d[n] == PIM then (acc.0, acc.1 + pim[n])
      else acc
  }

  /** The sum of the times of the blocks whose decision is site. */
  function SiteTotal(times: seq<int>, d: seq<CostSite>, site: CostSite): int
    requires |times| <= |d|
  {
    if times == [] then 0
    else (if d[0] == site then times[0] else 0) + SiteTotal(times[1..], d[1..], site)
  }

  /** SiteTotal peels off its last block as well as its first. */
  lemma {:induction false} SiteTotalLast(times: seq<int>, d: seq<CostSite>, site: CostSite)
    requires 0 < |times| <= |d|
    ensures SiteTotal(times, d, site)
         == SiteTotal(times[..|times| - 1], d, site) + (if d[|times| - 1] == site then times[|times| - 1] else 0)
    decreases |times|
  {
    var n := |times| - 1;
    if n > 0 {
      SiteTotalLast(times[1..], d[1..], site);
      assert times[1..][..n - 1] == times[..n][1..];
      assert times[..n][0] == times[0];
    }
  }

  /** The loop's two totals are the CPU total over CPU blocks and the PIM total over PIM blocks. */
  lemma {:induction false} ElapsedTimeTotals(cpu: seq<int>, pim: seq<int>, d: seq<CostSite>)
    requires |pim| == |cpu| <= |d|
    ensures ElapsedTime(cpu, pim, d) == (SiteTotal(cpu, d, CPU), SiteTotal(pim, d, PIM))
    decreases |cpu|
  {
    if cpu != [] {
      var n := |cpu| - 1;
      ElapsedTimeTotals(cpu[..n], pim[..n], d);
      SiteTotalLast(cpu, d, CPU);
      SiteTotalLast(pim, d, PIM);
    }
  }

  /** Changing one block's decision moves its time from the old site's total to the new one's. */
  lemma {:induction false} SiteTotalUpdate(times: seq<int>, d: seq<CostSite>, i: nat, s: CostSite, site: CostSite)
    requires |times| <= |d| && i < |times|
    ensures SiteTotal(times, d[i := s], site)
         == SiteTotal(times, d, site) - (if d[i] == site then times[i] else 0) + (if s == site then times[i] else 0)
    decreases |times|
  {
    if i > 0 {
      assert d[i := s][1..] == d[1..][i - 1 := s];
      SiteTotalUpdate(times[1..], d[1..], i - 1, s, site);
    }
  }

  /** Putting every block on the CPU costs the sum of the CPU times and no PIM time. */
  lemma {:induction false} AllOnSite(times: seq<int>, d: seq<CostSite>, site: CostSite, other: CostSite)
    requires |times| <= |d| && site != other
    requires forall i | 0 <= i < |d| :: d[i] == site
    ensures SiteTotal(times, d, site) == DR.Sum(times) && SiteTotal(times, d, other) == 0
    decreases |times|
  {
    if times != [] {
      AllOnSite(times[1..], d[1..], site, other);
    }
  }

  lemma ElapsedAllCpu(cpu: seq<int>, pim: seq<int>, d: seq<CostSite>)
    requires |pim| == |cpu| <= |d|
    requires forall i | 0 <= i < |d| :: d[i] == CPU
    ensures ElapsedTime(cpu, pim, d) == (DR.Sum(cpu), 0)
  {
    ElapsedTimeTotals(cpu, pim, d);
    AllOnSite(cpu, d, CPU, PIM);
    AllOnSite(pim, d, CPU, PIM);
  }

  lemma ElapsedAllPim(cpu: seq<int>, pim: seq<int>, d: seq<CostSite>)
    requires |pim| == |cpu| <= |d|
    requires forall i | 0 <= i < |d| :: d[i] == PIM
    ensures ElapsedTime(cpu, pim, d) == (0, DR.Sum(pim))
  {
    ElapsedTimeTotals(cpu, pim, d);
    AllOnSite(cpu, d, PIM, CPU);
    AllOnSite(pim, d, PIM, CPU);
  }

  /** A block left INVALID adds nothing: deciding it adds exactly its time on the chosen site. */
  lemma ElapsedInvalid(cpu: seq<int>, pim: seq<int>, d: seq<CostSite>, i: nat)
    requires |pim| == |cpu| <= |d| && i < |cpu| && d[i] == Invalid
    ensures ElapsedTime(cpu, pim, d[i := CPU]) == (ElapsedTime(cpu, pim, d).0 + cpu[i], ElapsedTime(cpu, pim, d).1)
    ensures ElapsedTime(cpu, pim, d[i := PIM]) == (ElapsedTime(cpu, pim, d).0, ElapsedTime(cpu, pim, d).1 + pim[i])
  {
    ElapsedTimeTotals(cpu, pim, d);
    ElapsedTimeTotals(cpu, pim, d[i := CPU]);
    ElapsedTimeTotals(cpu, pim, d[i := PIM]);
    SiteTotalUpdate(cpu, d, i, CPU, CPU);
    SiteTotalUpdate(pim, d, i, CPU, PIM);
    SiteTotalUpdate(cpu, d, i, PIM, CPU);
    SiteTotalUpdate(pim, d, i, PIM, PIM);
  }

  /** The busy time of a decision: both totals of `ElapsedTime` added. */
  function Busy(cpu: seq<int>, pim: seq<int>, d: seq<CostSite>): int
    requires |pim| == |cpu| <= |d|
  {
    ElapsedTime(cpu, pim, d).0 + ElapsedTime(cpu, pim, d).1
  }

  // ---------------------------------------------------------------------
  // Reuse cost
  // ---------------------------------------------------------------------

  /** Every node that hangs under a key carries a block id the decision covers. */
  predicate Covers(nodes: seq<DR.TrieNode>, n: nat)
  {
    forall i | 0 <= i < |nodes| && nodes[i].parent.Some? :: 0 <= nodes[i].cur < n
  }

  /** What a leaf adds when the sites on its path differ, by the site of its head. */
  function LeafCost(d: seq<CostSite>, head: nat, count: nat): int
    requires head < |d|
  {
    count * (if d[head] == CPU then FLUSH_CPU + FETCH_PIM else FLUSH_PIM + FETCH_CPU)
  }

  /**
   * `TrieBFS` at node i (which hangs under key `nodes[i].cur`): a leaf adds
   * its cost when a site change was seen on the way down; an inner node
   * passes each child the flag, set also when the child's site differs
   * from its own. A leaf's children are not visited.
   */
  function SubtreeCost(nodes: seq<DR.TrieNode>, d: seq<CostSite>, i: nat, isDifferent: bool): (r: int)
    requires DR.WellFormed(nodes) && i < |nodes| && Covers(nodes, |d|) && nodes[i].parent.Some?
    ensures r >= 0
    decreases |nodes| - i, 1
  {
    var n := nodes[i];
    if n.isLeaf then
      if isDifferent then LeafCost(d, n.cur, n.count) else 0
    else ChildrenCost(nodes, d, i, 0, isDifferent)
  }

  /** The children of inner node i from the k-th on. */
  function ChildrenCost(nodes: seq<DR.TrieNode>, d: seq<CostSite>, i: nat, k: nat, isDifferent: bool): (r: int)
    requires DR.WellFormed(nodes) && i < |nodes| && Covers(nodes, |d|) && nodes[i].parent.Some?
    requires k <= |nodes[i].children|
    ensures r >= 0
    decreases |nodes| - i, 0, |nodes[i].children| - k
  {
    if k == |nodes[i].children| then 0
    else
      var c := nodes[i].children[k];
      assert c in nodes[i].children && DR.NodeOk(nodes, i);
      SubtreeCost(nodes, d, c.node, isDifferent || d[nodes[i].cur] != d[c.key])
        + ChildrenCost(nodes, d, i, k + 1, isDifferent)
  }

  /** The root's children from the k-th on, each entered with no change seen. */
  function RootCost(nodes: seq<DR.TrieNode>, d: seq<CostSite>, root: nat, k: nat): (r: int)
    requires DR.WellFormed(nodes) && root < |nodes| && Covers(nodes, |d|)
    requires k <= |nodes[root].children|
    ensures r >= 0
    decreases |nodes[root].children| - k
  {
    if k == |nodes[root].children| then 0
    else
      var c := nodes[root].children[k];
      assert c in nodes[root].children && DR.NodeOk(nodes, root);
      SubtreeCost(nodes, d, c.node, false) + RootCost(nodes, d, root, k + 1)
  }

  /** `ReuseCost`: the walk started at every child of the root. */
  function ReuseCost(nodes: seq<DR.TrieNode>, d: seq<CostSite>, root: nat): int
    requires DR.WellFormed(nodes) && root < |nodes| && Covers(nodes, |d|)
  {
    RootCost(nodes, d, root, 0)
  }

  /** Every node hanging at index i or later has the site s. */
  predicate SameSiteFrom(nodes: seq<DR.TrieNode>, d: seq<CostSite>, i: nat, s: CostSite)
    requires Covers(nodes, |d|)
  {
    forall j | i <= j < |nodes| && nodes[j].parent.Some? :: d[nodes[j].cur] == s
  }

  /**
   * No site change below node i (children sit at larger indices) means no
   * reuse cost from its subtree.
   */
  lemma {:induction false} SubtreeSameSite(nodes: seq<DR.TrieNode>, d: seq<CostSite>, i: nat, s: CostSite)
    requires DR.WellFormed(nodes) && i < |nodes| && Covers(nodes, |d|) && nodes[i].parent.Some?
    requires SameSiteFrom(nodes, d, i, s)
    ensures SubtreeCost(nodes, d, i, false) == 0
    decreases |nodes| - i, 1
  {
    if !nodes[i].isLeaf {
      ChildrenSameSite(nodes, d, i, 0, s);
    }
  }

  lemma {:induction false} ChildrenSameSite(nodes: seq<DR.TrieNode>, d: seq<CostSite>, i: nat, k: nat, s: CostSite)
    requires DR.WellFormed(nodes) && i < |nodes| && Covers(nodes, |d|) && nodes[i].parent.Some?
    requires k <= |nodes[i].children|
    requires SameSiteFrom(nodes, d, i, s)
    ensures ChildrenCost(nodes, d, i, k, false) == 0
    decreases |nodes| - i, 0, |nodes[i].children| - k
  {
    if k < |nodes[i].children| {
      var c := nodes[i].children[k];
      assert c in nodes[i].children && DR.NodeOk(nodes, i);
      assert d[nodes[i].cur] == s && d[c.key] == s;
      SubtreeSameSite(nodes, d, c.node, s);
      ChildrenSameSite(nodes, d, i, k + 1, s);
    }
  }

  lemma {:induction false} RootSameSite(nodes: seq<DR.TrieNode>, d: seq<CostSite>, root: nat, k: nat, s: CostSite)
    requires DR.WellFormed(nodes) && root < |nodes| && Covers(nodes, |d|)
    requires k <= |nodes[root].children|
    requires SameSiteFrom(nodes, d, root, s)
    ensures RootCost(nodes, d, root, k) == 0
    decreases |nodes[root].children| - k
  {
    if k < |nodes[root].children| {
      var c := nodes[root].children[k];
      assert c in nodes[root].children && DR.NodeOk(nodes, root);
      SubtreeSameSite(nodes, d, c.node, s);
      RootSameSite(nodes, d, root, k + 1, s);
    }
  }

  /** With every block on the same site there is no reuse cost. */
  lemma ReuseCostUniform(nodes: seq<DR.TrieNode>, d: seq<CostSite>, root: nat, s: CostSite)
    requires DR.WellFormed(nodes) && root < |nodes| && Covers(nodes, |d|)
    requires forall b | 0 <= b < |d| :: d[b] == s
    ensures ReuseCost(nodes, d, root) == 0
  {
    RootSameSite(nodes, d, root, 0, s);
  }

  /** Seeing a site change higher up never lowers a subtree's cost. */
  lemma {:induction false} SubtreeChangeCosts(nodes: seq<DR.TrieNode>, d: seq<CostSite>, i: nat)
    requires DR.WellFormed(nodes) && i < |nodes| && Covers(nodes, |d|) && nodes[i].parent.Some?
    ensures SubtreeCost(nodes, d, i, false) <= SubtreeCost(nodes, d, i, true)
    decreases |nodes| - i, 1
  {
    if !nodes[i].isLeaf {
      ChildrenChangeCosts(nodes, d, i, 0);
    }
  }

  lemma {:induction false} ChildrenChangeCosts(nodes: seq<DR.TrieNode>, d: seq<CostSite>, i: nat, k: nat)
    requires DR.WellFormed(nodes) && i < |nodes| && Covers(nodes, |d|) && nodes[i].parent.Some?
    requires k <= |nodes[i].children|
    ensures ChildrenCost(nodes, d, i, k, false) <= ChildrenCost(nodes, d, i, k, true)
    decreases |nodes| - i, 0, |nodes[i].children| - k
  {
    if k < |nodes[i].children| {
      var c := nodes[i].children[k];
      assert c in nodes[i].children && DR.NodeOk(nodes, i);
      SubtreeChangeCosts(nodes, d, c.node);
      ChildrenChangeCosts(nodes, d, i, k + 1);
    }
  }

  // ---------------------------------------------------------------------
  // Total cost
  // ---------------------------------------------------------------------

  /**
   * What the cost of a decision depends on: the per-block CPU and PIM
   * times (aligned by block id), a reuse trie with its root, and the switch
   * cost, which is computed by code that is not part of this model.
   */
  datatype Problem = Problem(cpu: seq<int>, pim: seq<int>, nodes: seq<DR.TrieNode>, root: nat, switchCost: seq<CostSite> -> int)

  ghost predicate ProblemOk(p: Problem)
  {
    |p.pim| == |p.cpu| && DR.WellFormed(p.nodes) && p.root < |p.nodes| && Covers(p.nodes, |p.cpu|)
    && forall d :: p.switchCost(d) >= 0
  }

  /** `Cost`: reuse cost, switch cost and both elapsed totals. */
  function Cost(p: Problem, d: seq<CostSite>): int
    requires ProblemOk(p) && |d| == |p.cpu|
  {
    ReuseCost(p.nodes, d, p.root) + p.switchCost(d) + Busy(p.cpu, p.pim, d)
  }

  /** The cost is never below the busy time, and with one site for all blocks it is the busy time plus the switch cost. */
  lemma CostBounds(p: Problem, d: seq<CostSite>)
    requires ProblemOk(p) && |d| == |p.cpu|
    ensures Cost(p, d) >= Busy(p.cpu, p.pim, d)
    ensures (forall b | 0 <= b < |d| :: d[b] == CPU) ==> Cost(p, d) == DR.Sum(p.cpu) + p.switchCost(d)
    ensures (forall b | 0 <= b < |d| :: d[b] == PIM) ==> Cost(p, d) == DR.Sum(p.pim) + p.switchCost(d)
  {
    if forall b | 0 <= b < |d| :: d[b] == CPU {
      ReuseCostUniform(p.nodes, d, p.root, CPU);
      ElapsedAllCpu(p.cpu, p.pim, d);
    }
    if forall b | 0 <= b < |d| :: d[b] == PIM {
      ReuseCostUniform(p.nodes, d, p.root, PIM);
      ElapsedAllPim(p.cpu, p.pim, d);
    }
  }
}
