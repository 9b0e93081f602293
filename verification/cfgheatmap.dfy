/**
 * The heatmap script: it reads the block rows of a decision report (the
 * decision letter and the CPU-minus-PIM time difference of each block),
 * cuts the requested block range, pads it to whole rows of ten cells,
 * labels the PIM cells, and colours blocks by how much one site beats
 * the other.
 *
 * `log10` is a parameter `lg`; where a property needs what the real
 * function satisfies (log10 of 1e8 is 8, it is non-negative and
 * increasing from 1 on) the lemma asks for it. Python raising an
 * exception is `None`.
 */
module CfgHeatmap {
  import opened Common
  import opened Text
  import OI = OffloaderInjection

  /** The lines before the first block row (`readlines()[7:]`). */
  const HEADER_LINES: nat := 7

  /** The number of cells in a heatmap row. */
  const N: nat := 10

  /** `PIMmax` and `CPUmax`: the differences that get the full colour. */
  const PIM_MAX: real := 100000000.0
  const CPU_MAX: real := 100000000.0

  // ---------------------------------------------------------------------
  // Reading the report
  // ---------------------------------------------------------------------

  /** One block row: token 1 is the decision, the third token from the end the difference. */
  function ParseRow(line: string): (r: Option<(string, real)>)
    ensures r.Some? ==> |Tokens(line)| >= 3 && r.value.0 == Tokens(line)[1]
    ensures r.Some? ==> ParseReal(Tokens(line)[|Tokens(line)| - 3]) == Some(r.value.1)
  {
    var t := Tokens(line);
    if |t| < 3 then None
    else
      match ParseReal(t[|t| - 3])
      case Some(v) => Some((t[1], v))
      case None => None
  }

  /** A signed decimal as the solver writes it reads as a float of the same value. */
  lemma ShowIntReadsAsReal(v: int)
    ensures ParseReal(OI.ShowInt(v)) == Some(v as real)
  {
    ParseRealShow(if v < 0 then -v else v);
  }

  /**
   * The solver's decision rows are what this reader expects: token 1 is the
   * decision letter and the third token from the end the CPU-minus-PIM
   * difference.
   */
  lemma ParseWrittenRow(i: nat, site: CostSite, par: nat, cpu: int, pim: int, h: UUID)
    ensures ParseRow(Join(OI.WrittenRow(i, site, par, cpu, pim, h))) == Some((GetCostSiteString(site), (cpu - pim) as real))
  {
    var ws := OI.WrittenRow(i, site, par, cpu, pim, h);
    OI.WrittenRowWords(i, site, par, cpu, pim, h);
    TokensJoin(ws);
    assert Tokens(Join(ws)) == ws;
    ShowIntReadsAsReal(cpu - pim);
    assert ws[|ws| - 3] == OI.ShowInt(cpu - pim);
  }

  /** The lines after the header; a shorter file has none. */
  function BlockLines(lines: seq<string>): (r: seq<string>)
    ensures |r| == if |lines| > HEADER_LINES then |lines| - HEADER_LINES else 0
  {
    if |lines| > HEADER_LINES then lines[HEADER_LINES..] else []
  }

  /** The parse of every row. */
  function ParseAll(rows: seq<string>): (ps: seq<Option<(string, real)>>)
    ensures |ps| == |rows| && forall i | 0 <= i < |rows| :: ps[i] == ParseRow(rows[i])
  {
    seq(|rows|, i requires 0 <= i < |rows| => ParseRow(rows[i]))
  }

  /** The two columns of parsed rows, appended in order, or `None` at the first row that failed. */
  function Collect(ps: seq<Option<(string, real)>>): (r: Option<(seq<string>, seq<real>)>)
    ensures r.Some? ==> |r.value.0| == |r.value.1| == |ps|
  {
    if ps == [] then Some(([], []))
    else
      match (Collect(ps[..|ps| - 1]), ps[|ps| - 1])
      case (Some(cols), Some(p)) => Some((cols.0 + [p.0], cols.1 + [p.1]))
      case _ => None
  }

  /** The decision and difference columns, or `None` when some row lacks a field. */
  function Columns(rows: seq<string>): (r: Option<(seq<string>, seq<real>)>)
    ensures r.Some? ==> |r.value.0| == |r.value.1| == |rows|
  {
    Collect(ParseAll(rows))
  }

  /** Entry i of the collected columns is parsed row i. */
  lemma {:induction false} CollectAt(ps: seq<Option<(string, real)>>, i: nat)
    requires Collect(ps).Some? && i < |ps|
    ensures ps[i] == Some((Collect(ps).value.0[i], Collect(ps).value.1[i]))
  {
    var n := |ps| - 1;
    if i < n {
      CollectAt(ps[..n], i);
    }
  }

  /** Collecting fails only at a row that failed. */
  lemma {:induction false} CollectNone(ps: seq<Option<(string, real)>>) returns (i: nat)
    requires Collect(ps).None?
    ensures i < |ps| && ps[i].None?
  {
    var n := |ps| - 1;
    if Collect(ps[..n]).None? {
      i := CollectNone(ps[..n]);
    } else {
      i := n;
    }
  }

  /** One more row: its parse is appended, or collecting fails. */
  lemma CollectStep(ps: seq<Option<(string, real)>>, i: nat)
    requires i < |ps|
    ensures Collect(ps[..i + 1]) == match (Collect(ps[..i]), ps[i])
      case (Some(cols), Some(p)) => Some((cols.0 + [p.0], cols.1 + [p.1]))
      case _ => None
  {
    assert ps[..i + 1][..i] == ps[..i];
  }

  /** Row i of the columns is the parse of line i. */
  lemma ColumnsAt(rows: seq<string>, i: nat)
    requires Columns(rows).Some? && i < |rows|
    ensures ParseRow(rows[i]) == Some((Columns(rows).value.0[i], Columns(rows).value.1[i]))
  {
    CollectAt(ParseAll(rows), i);
  }

  /** The columns exist exactly when every row has its fields. */
  lemma ColumnsIff(rows: seq<string>)
    ensures Columns(rows).Some? <==> forall i | 0 <= i < |rows| :: ParseRow(rows[i]).Some?
  {
    if Columns(rows).Some? {
      forall i | 0 <= i < |rows|
        ensures ParseRow(rows[i]).Some?
      {
        CollectAt(ParseAll(rows), i);
      }
    } else {
      var i := CollectNone(ParseAll(rows));
    }
  }

  /** The range sentinel: -1 for either bound means every block. */
  function Range(lb: int, ub: int, count: nat): (r: (int, int))
    ensures lb == -1 || ub == -1 ==> r == (0, count - 1)
    ensures lb != -1 && ub != -1 ==> r == (lb, ub)
  {
    if lb == -1 || ub == -1 then (0, count - 1) else (lb, ub)
  }

  // ---------------------------------------------------------------------
  // The grid
  // ---------------------------------------------------------------------

  /** A Python slice index: negative counts from the end, and both are clamped to the sequence. */
  function Clamp(i: int, len: nat): (r: nat)
    ensures r <= len
  {
    if i < 0 then (if i + len < 0 then 0 else i + len) else if i > len then len else i
  }

  /** `s[a:b]`. */
  function Slice<T>(s: seq<T>, a: int, b: int): (r: seq<T>)
    ensures 0 <= a <= b <= |s| ==> r == s[a..b]
  {
    var x, y := Clamp(a, |s|), Clamp(b, |s|);
    if x < y then s[x..y] else []
  }

  /** `[x] * n`. */
  function Repeat<T>(x: T, n: int): (r: seq<T>)
    ensures |r| == if n < 0 then 0 else n
    ensures forall k | 0 <= k < |r| :: r[k] == x
  {
    if n <= 0 then [] else Repeat(x, n - 1) + [x]
  }

  /** How many padding cells follow the slice. */
  function PadCount(lb: int, ub: int): (k: nat)
    ensures k < N
  {
    N - (ub - lb) % N - 1
  }

  /** The slice of the range with its padding, the difference column padded with 0. */
  function CostSlice(costdiff: seq<real>, lb: int, ub: int): (r: seq<real>)
    ensures 0 <= lb <= ub < |costdiff| ==>
      |r| > ub - lb && r[..ub - lb + 1] == costdiff[lb..ub + 1] && forall k | ub - lb + 1 <= k < |r| :: r[k] == 0.0
  {
    Slice(costdiff, lb, ub + 1) + Repeat(0.0, PadCount(lb, ub))
  }

  /** The decision column padded with empty strings. */
  function DecisionSlice(decision: seq<string>, lb: int, ub: int): (r: seq<string>)
    ensures 0 <= lb <= ub < |decision| ==>
      |r| > ub - lb && r[..ub - lb + 1] == decision[lb..ub + 1] && forall k | ub - lb + 1 <= k < |r| :: r[k] == ""
  {
    Slice(decision, lb, ub + 1) + Repeat("", PadCount(lb, ub))
  }

  /** A range inside the columns fills whole rows: its padded length is a multiple of ten, at least the range and less than a row more. */
  lemma PaddedLength(costdiff: seq<real>, lb: int, ub: int)
    requires 0 <= lb <= ub < |costdiff|
    ensures |CostSlice(costdiff, lb, ub)| % N == 0
    ensures ub - lb + 1 <= |CostSlice(costdiff, lb, ub)| < ub - lb + 1 + N
    ensures |CostSlice(costdiff, lb, ub)| == N * ((ub - lb) / N + 1)
  {
    var d := ub - lb;
    assert d == N * (d / N) + d % N;
    assert |CostSlice(costdiff, lb, ub)| == d + 1 + N - d % N - 1;
  }

  /** `np.sign`. */
  function Sign(v: real): real
  {
    if v > 0.0 then 1.0 else if v < 0.0 then -1.0 else 0.0
  }

  function Abs(v: real): (r: real)
    ensures r >= 0.0 && (r == v || r == -v)
  {
    if v < 0.0 then -v else v
  }

  /** The plotted value: minus the magnitude of the difference in decades, with its sign; 0 within one of zero. */
  function Scaled(v: real, lg: real -> real): (r: real)
    ensures r != 0.0 ==> Abs(v) > 1.0 && lg(Abs(v)) != 0.0
  {
    -(if Abs(v) > 1.0 then lg(Abs(v)) else 0.0) * Sign(v)
  }

  /** Within one of zero a block is plotted at zero; beyond, at the decades of its difference with the sign flipped. */
  lemma ScaledValue(v: real, lg: real -> real)
    ensures -1.0 <= v <= 1.0 ==> Scaled(v, lg) == 0.0
    ensures v > 1.0 ==> Scaled(v, lg) == -lg(v)
    ensures v < -1.0 ==> Scaled(v, lg) == lg(-v)
  {
  }

  /** The cell label: "PIM" for a PIM block, nothing otherwise. */
  function Label(d: string): (r: string)
    ensures r == "PIM" <==> d == "P"
    ensures r != "PIM" ==> r == ""
  {
    if d != "P" then "" else "PIM"
  }

  /** `np.reshape(s, (-1, N))`: rows of ten, or an error when the length is not a multiple of ten. */
  function Reshape<T>(s: seq<T>): (r: Option<seq<seq<T>>>)
    ensures r.Some? <==> |s| % N == 0
    ensures r.Some? ==> |r.value| * N == |s|
    decreases |s|
  {
    if |s| % N != 0 then None
    else if s == [] then Some([])
    else Some([s[..N]] + Reshape(s[N..]).value)
  }

  /** Row i of the reshaped sequence is its i-th run of ten. */
  lemma {:induction false} ReshapeAt<T>(s: seq<T>, i: nat)
    requires Reshape(s).Some? && i < |Reshape(s).value|
    ensures i * N + N <= |s|
    ensures Reshape(s).value[i] == s[i * N..i * N + N]
    decreases i
  {
    if i > 0 {
      ReshapeAt(s[N..], i - 1);
      assert (i - 1) * N + N == i * N;
      assert s[N..][(i - 1) * N..(i - 1) * N + N] == s[i * N..i * N + N];
    }
  }

  /** A sequence of q runs of ten reshapes into q rows. */
  lemma {:induction false} ReshapeLength<T>(s: seq<T>, q: nat)
    requires |s| == N * q
    ensures Reshape(s).Some? && |Reshape(s).value| == q
    decreases q
  {
    if q > 0 {
      ReshapeLength(s[N..], q - 1);
    }
  }

  /** The value of largest magnitude, as a magnitude (`abs(max(s, key=abs))`); an error on an empty slice. */
  function MaxAbs(s: seq<real>): (r: Option<real>)
    ensures r.Some? <==> s != []
    ensures r.Some? ==> forall k | 0 <= k < |s| :: Abs(s[k]) <= r.value
  {
    if s == [] then None
    else if |s| == 1 then Some(Abs(s[0]))
    else
      var m := MaxAbs(s[..|s| - 1]).value;
      var last := Abs(s[|s| - 1]);
      assert forall k | 0 <= k < |s| - 1 :: s[..|s| - 1][k] == s[k];
      Some(if last > m then last else m)
  }

  /** The largest magnitude is that of an element. */
  lemma {:induction false} MaxAbsAttained(s: seq<real>) returns (k: nat)
    requires s != []
    ensures k < |s| && Abs(s[k]) == MaxAbs(s).value
  {
    if |s| == 1 {
      k := 0;
    } else {
      var n := |s| - 1;
      k := MaxAbsAttained(s[..n]);
      if Abs(s[n]) > MaxAbs(s[..n]).value {
        k := n;
      }
    }
  }

  /** What the plot shows: the scaled values and the labels as rows of ten, the number of row labels, and the colour limit. */
  datatype Grid = Grid(cost: seq<seq<real>>, labels: seq<seq<string>>, yticks: nat, lim: real)

  /** The number of y tick labels: `int((ub-lb + N - (ub-lb)%N)/N)` items of a range from 0. */
  function YTicks(lb: int, ub: int): (r: nat)
    ensures lb <= ub ==> r == (ub - lb) / N + 1
  {
    var x := (ub - lb + N - (ub - lb) % N) / N;
    assert lb <= ub ==> x == (ub - lb) / N + 1 by {
      var d := ub - lb;
      assert d == N * (d / N) + d % N;
      assert d + N - d % N == N * (d / N + 1);
    }
    if x < 0 then 0 else x
  }

  /** The scaled value of every cell. */
  function ScaledAll(cs: seq<real>, lg: real -> real): (r: seq<real>)
    ensures |r| == |cs| && forall k | 0 <= k < |cs| :: r[k] == Scaled(cs[k], lg)
  {
    seq(|cs|, k requires 0 <= k < |cs| => Scaled(cs[k], lg))
  }

  /** The label of every cell. */
  function LabelAll(ds: seq<string>): (r: seq<string>)
    ensures |r| == |ds| && forall k | 0 <= k < |ds| :: r[k] == Label(ds[k])
  {
    seq(|ds|, k requires 0 <= k < |ds| => Label(ds[k]))
  }

  /** `heatmap(costdiff, decision, lb, ub)` up to the drawing. */
  function Heatmap(costdiff: seq<real>, decision: seq<string>, lb: int, ub: int, lg: real -> real): (r: Option<Grid>)
  {
    var costslice := ScaledAll(CostSlice(costdiff, lb, ub), lg);
    var labels := LabelAll(DecisionSlice(decision, lb, ub));
    var cost, lab, lim := Reshape(costslice), Reshape(labels), MaxAbs(costslice);
    if cost.Some? && lab.Some? && lim.Some? then Some(Grid(cost.value, lab.value, YTicks(lb, ub), lim.value)) else None
  }

  /** Cell k of the padded slices, scaled and labelled: block lb + k inside the range, padding after it. */
  lemma PaddedAt(costdiff: seq<real>, decision: seq<string>, lb: int, ub: int, lg: real -> real, k: nat)
    requires |costdiff| == |decision| && 0 <= lb <= ub < |costdiff|
    requires k < |CostSlice(costdiff, lb, ub)|
    ensures |DecisionSlice(decision, lb, ub)| == |CostSlice(costdiff, lb, ub)|
    ensures ScaledAll(CostSlice(costdiff, lb, ub), lg)[k] == if lb + k <= ub then Scaled(costdiff[lb + k], lg) else 0.0
    ensures LabelAll(DecisionSlice(decision, lb, ub))[k] == if lb + k <= ub then Label(decision[lb + k]) else ""
  {
  }

  /** For a range inside the columns every step of `heatmap` succeeds. */
  lemma HeatmapOf(costdiff: seq<real>, decision: seq<string>, lb: int, ub: int, lg: real -> real)
    requires |costdiff| == |decision| && 0 <= lb <= ub < |costdiff|
    ensures var cs := ScaledAll(CostSlice(costdiff, lb, ub), lg);
      var ds := LabelAll(DecisionSlice(decision, lb, ub));
      |cs| == |ds| == N * ((ub - lb) / N + 1)
      && |Reshape(cs).value| == |Reshape(ds).value| == (ub - lb) / N + 1
      && Heatmap(costdiff, decision, lb, ub, lg)
         == Some(Grid(Reshape(cs).value, Reshape(ds).value, (ub - lb) / N + 1, MaxAbs(cs).value))
  {
    PaddedLength(costdiff, lb, ub);
    assert |DecisionSlice(decision, lb, ub)| == |CostSlice(costdiff, lb, ub)|;
    var d := ub - lb;
    assert YTicks(lb, ub) == d / N + 1 by {
      assert d + N - d % N == N * (d / N + 1);
    }
    ReshapeLength(ScaledAll(CostSlice(costdiff, lb, ub), lg), d / N + 1);
    ReshapeLength(LabelAll(DecisionSlice(decision, lb, ub)), d / N + 1);
  }

  /** For a range inside the columns the grid exists, with as many rows of ten as y tick labels. */
  lemma HeatmapShape(costdiff: seq<real>, decision: seq<string>, lb: int, ub: int, lg: real -> real)
    requires |costdiff| == |decision| && 0 <= lb <= ub < |costdiff|
    ensures Heatmap(costdiff, decision, lb, ub, lg).Some?
    ensures var g := Heatmap(costdiff, decision, lb, ub, lg).value;
      |g.cost| == |g.labels| == g.yticks == (ub - lb) / N + 1
      && (forall i | 0 <= i < g.yticks ::
            i * N + N <= |CostSlice(costdiff, lb, ub)| == |DecisionSlice(decision, lb, ub)|
            && g.cost[i] == ScaledAll(CostSlice(costdiff, lb, ub), lg)[i * N..i * N + N]
            && g.labels[i] == LabelAll(DecisionSlice(decision, lb, ub))[i * N..i * N + N])
  {
    HeatmapOf(costdiff, decision, lb, ub, lg);
    var cs := ScaledAll(CostSlice(costdiff, lb, ub), lg);
    var ds := LabelAll(DecisionSlice(decision, lb, ub));
    forall i | 0 <= i < (ub - lb) / N + 1
      ensures Reshape(cs).value[i] == cs[i * N..i * N + N] && Reshape(ds).value[i] == ds[i * N..i * N + N]
    {
      ReshapeAt(cs, i);
      ReshapeAt(ds, i);
    }
  }

  /** The largest magnitude of a sequence bounds every cell of its rows of ten, and some cell reaches it. */
  lemma ReshapeMaxAbs(cs: seq<real>)
    requires |cs| % N == 0 && cs != []
    ensures var rows := Reshape(cs).value; var m := MaxAbs(cs).value;
      (forall i | 0 <= i < |rows| :: |rows[i]| == N && forall j | 0 <= j < N :: Abs(rows[i][j]) <= m)
      && exists i, j | 0 <= i < |rows| && 0 <= j < N :: Abs(rows[i][j]) == m
  {
    var rows := Reshape(cs).value;
    forall i | 0 <= i < |rows|
      ensures |rows[i]| == N && forall j | 0 <= j < N :: Abs(rows[i][j]) <= MaxAbs(cs).value
    {
      ReshapeAt(cs, i);
    }
    var k := MaxAbsAttained(cs);
    var i, j := k / N, k % N;
    assert k == i * N + j;
    ReshapeAt(cs, i);
    assert rows[i][j] == cs[k];
  }

  /** The colour limit is the largest magnitude of a cell: it bounds every cell and some cell reaches it. */
  lemma HeatmapLimit(costdiff: seq<real>, decision: seq<string>, lb: int, ub: int, lg: real -> real)
    requires |costdiff| == |decision| && 0 <= lb <= ub < |costdiff|
    ensures Heatmap(costdiff, decision, lb, ub, lg).Some?
    ensures var g := Heatmap(costdiff, decision, lb, ub, lg).value;
      |g.cost| == g.yticks
      && (forall i | 0 <= i < g.yticks :: |g.cost[i]| == N && forall j | 0 <= j < N :: Abs(g.cost[i][j]) <= g.lim)
      && exists i, j | 0 <= i < g.yticks && 0 <= j < N :: Abs(g.cost[i][j]) == g.lim
  {
    HeatmapOf(costdiff, decision, lb, ub, lg);
    ReshapeMaxAbs(ScaledAll(CostSlice(costdiff, lb, ub), lg));
  }

  /** With the sentinel the grid covers every block of the report. */
  lemma SentinelCoversAll(costdiff: seq<real>, decision: seq<string>, lg: real -> real)
    requires |costdiff| == |decision| > 0
    ensures var rg := Range(-1, -1, |costdiff|);
      Heatmap(costdiff, decision, rg.0, rg.1, lg).Some?
      && |Heatmap(costdiff, decision, rg.0, rg.1, lg).value.cost| * N >= |costdiff|
  {
    var d := |costdiff| - 1;
    HeatmapOf(costdiff, decision, 0, d, lg);
    PaddedLength(costdiff, 0, d);
    var cs := ScaledAll(CostSlice(costdiff, 0, d), lg);
    assert |Reshape(cs).value| * N == |cs| >= d + 1;
  }

  /** An empty report draws nothing: the colour limit of an empty slice is an error. */
  lemma EmptyReportFails(lg: real -> real)
    ensures var rg := Range(-1, -1, 0); Heatmap([], [], rg.0, rg.1, lg).None?
  {
    assert PadCount(0, -1) == 0;
  }

  // ---------------------------------------------------------------------
  // `proc`
  // ---------------------------------------------------------------------

  /** `proc(costfile, lb, ub)` with the drawing replaced by the grid it would draw. */
  method Proc(lines: seq<string>, lb: int, ub: int, lg: real -> real) returns (r: Option<Grid>)
    ensures Columns(BlockLines(lines)).None? ==> r.None?
    ensures Columns(BlockLines(lines)).Some? ==>
      var cols := Columns(BlockLines(lines)).value;
      var rg := Range(lb, ub, |cols.1|);
      r == Heatmap(cols.1, cols.0, rg.0, rg.1, lg)
  {
    var rows := BlockLines(lines);
    var decision: seq<string> := [];
    var costdiff: seq<real> := [];
    var i := 0;
    while i < |rows|
      invariant i <= |rows| && Collect(ParseAll(rows)[..i]) == Some((decision, costdiff))
    {
      CollectStep(ParseAll(rows), i);
      var line := Tokens(rows[i]);
      if |line| < 3 {
        ColumnsIff(rows);
        return None;
      }
      var v := ParseReal(line[|line| - 3]);
      if v.None? {
        ColumnsIff(rows);
        return None;
      }
      decision := decision + [line[1]];
      costdiff := costdiff + [v.value];
      i := i + 1;
    }
    assert ParseAll(rows)[..i] == ParseAll(rows);
    var rg := Range(lb, ub, |costdiff|);
    r := Heatmap(costdiff, decision, rg.0, rg.1, lg);
  }

  // ---------------------------------------------------------------------
  // `color`
  // ---------------------------------------------------------------------

  /** `math.ceil`. */
  function Ceil(x: real): (c: int)
    ensures x <= c as real < x + 1.0
  {
    -((-x).Floor)
  }

  function Min(a: real, b: real): real
  {
    if b < a then b else a
  }

  /** What the real `log10` satisfies that the colours depend on. */
  ghost predicate IsLog10(lg: real -> real)
  {
    lg(PIM_MAX) == 8.0 && lg(CPU_MAX) == 8.0
    && forall x, y | 1.0 <= x <= y :: 0.0 <= lg(x) <= lg(y)
  }

  /** The channel that fades with the difference: 255 at a difference of 1, 0 from the maximum on. */
  function Fade(v: real, max: real, lg: real -> real): int
    requires lg(max) != 0.0
  {
    255 - Ceil(Min(255.0 * lg(v) / lg(max), 255.0))
  }

  /** The red, green and blue of a difference: PIM-friendly (at least 1) red, CPU-friendly (at most -1) green, white between. */
  function Rgb(costdiff: real, lg: real -> real): (int, int, int)
    requires IsLog10(lg)
  {
    if costdiff >= 1.0 then (255, Fade(costdiff, PIM_MAX, lg), Fade(costdiff, PIM_MAX, lg))
    else if costdiff <= -1.0 then (Fade(-costdiff, CPU_MAX, lg), 255, Fade(-costdiff, CPU_MAX, lg))
    else (255, 255, 255)
  }

  /** A channel is a byte when lg is log10. */
  lemma FadeByte(v: real, max: real, lg: real -> real)
    requires IsLog10(lg) && v >= 1.0 && (max == PIM_MAX || max == CPU_MAX)
    ensures 0 <= Fade(v, max, lg) <= 255
  {
    assert lg(max) == 8.0;
    assert 0.0 <= lg(v);
  }

  /** `"{:02x}".format(n)`: two lower-case hexadecimal digits. */
  function Hex2(n: int): (s: string)
    requires 0 <= n <= 255
    ensures |s| == 2 && IsNumeral(s, 16) && NumeralValue(s, 16) == n
  {
    var s := [DigitChar(n / 16), DigitChar(n % 16)];
    assert s[..1][..0] == [];
    assert NumeralValue(s[..1], 16) == n / 16;
    s
  }

  /** `color(costdiff)`: "#" and the three channels in hexadecimal. */
  function Color(costdiff: real, lg: real -> real): (s: string)
    requires IsLog10(lg)
    ensures |s| == 7 && s[0] == '#'
  {
    var c := Rgb(costdiff, lg);
    assert 0 <= c.0 <= 255 && 0 <= c.1 <= 255 && 0 <= c.2 <= 255 by {
      if costdiff >= 1.0 {
        FadeByte(costdiff, PIM_MAX, lg);
      } else if costdiff <= -1.0 {
        FadeByte(-costdiff, CPU_MAX, lg);
      }
    }
    "#" + Hex2(c.0) + Hex2(c.1) + Hex2(c.2)
  }

  /** The channels are bytes when lg is log10. */
  lemma RgbBytes(costdiff: real, lg: real -> real)
    requires IsLog10(lg)
    ensures var c := Rgb(costdiff, lg); 0 <= c.0 <= 255 && 0 <= c.1 <= 255 && 0 <= c.2 <= 255
  {
    if costdiff >= 1.0 {
      FadeByte(costdiff, PIM_MAX, lg);
    } else if costdiff <= -1.0 {
      FadeByte(-costdiff, CPU_MAX, lg);
    }
  }

  /** Reading the colour back gives the channels. */
  lemma ColorReadsBack(costdiff: real, lg: real -> real)
    requires IsLog10(lg)
    ensures var s := Color(costdiff, lg); var c := Rgb(costdiff, lg);
      NumeralValue(s[1..3], 16) == c.0 && NumeralValue(s[3..5], 16) == c.1 && NumeralValue(s[5..7], 16) == c.2
  {
    RgbBytes(costdiff, lg);
    var c := Rgb(costdiff, lg);
    var s := Color(costdiff, lg);
    assert s == "#" + Hex2(c.0) + Hex2(c.1) + Hex2(c.2);
    assert s[1..3] == Hex2(c.0) && s[3..5] == Hex2(c.1) && s[5..7] == Hex2(c.2);
  }

  /** PIM-friendly is full red with equal green and blue, CPU-friendly full green with equal red and blue, and the band between is white. */
  lemma ColorChannels(costdiff: real, lg: real -> real)
    requires IsLog10(lg)
    ensures costdiff >= 1.0 ==> Rgb(costdiff, lg).0 == 255 && Rgb(costdiff, lg).1 == Rgb(costdiff, lg).2
    ensures costdiff <= -1.0 ==> Rgb(costdiff, lg).1 == 255 && Rgb(costdiff, lg).0 == Rgb(costdiff, lg).2
    ensures -1.0 < costdiff < 1.0 ==> Color(costdiff, lg) == "#ffffff"
  {
    if -1.0 < costdiff < 1.0 {
      assert Rgb(costdiff, lg) == (255, 255, 255);
      assert Hex2(255) == "ff";
    }
  }

  /** The more PIM-friendly a block, the redder: green and blue never grow with the difference, and vanish from the maximum on. */
  lemma ColorMonotone(a: real, b: real, lg: real -> real)
    requires IsLog10(lg) && 1.0 <= a <= b
    ensures Rgb(b, lg).1 <= Rgb(a, lg).1
    ensures b >= PIM_MAX ==> Rgb(b, lg).1 == 0
  {
    assert lg(a) <= lg(b);
    assert 255.0 * lg(a) / 8.0 <= 255.0 * lg(b) / 8.0;
    if b >= PIM_MAX {
      assert lg(PIM_MAX) <= lg(b);
    }
  }
}
