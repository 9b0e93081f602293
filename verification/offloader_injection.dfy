/**
 * The decision side of the LLVM offloader pass: it picks the region of
 * interest from the environment, reads the decision file into a map from
 * block hash to decision, and for every basic block decides whether (and
 * in which order) the offload markers are inserted around it.
 *
 * The rewriting of the IR itself is not modelled: the markers a block or
 * `main` receives are returned as the codes of the magic instructions in
 * the order they end up in the code.
 */
module OffloaderInjection {
  import opened Common
  import opened Text

  /** The codes the inserted magic instructions pass to the simulator. */
  const SIM_CMD_ROI_START: int := 1
  const SIM_CMD_ROI_END: int := 2
  const SIM_PIM_OFFLOAD_START: int := 15
  const SIM_PIM_OFFLOAD_END: int := 16

  /** The line that ends the header of a decision file. */
  const MARKER: string := "===="

  /** One decision-file row as the pass keeps it. */
  datatype Decision = Decision(decision: CostSite, bblid: int, difference: real, parallel: int)

  /**
   * The values the per-line variables hold before anything is read into
   * them; the source leaves them uninitialised, so they are a parameter.
   */
  datatype Garbage = Garbage(bblid: int, difference: real, hi: u64, lo: u64)

  // ---------------------------------------------------------------------
  // Numbers read from a line
  // ---------------------------------------------------------------------

  /** A decimal token read into an `int`. */
  function ParseInt32(tok: string): (r: Option<int>)
    ensures r.Some? ==> -0x8000_0000 <= r.value < 0x8000_0000
  {
    match ParseDec(tok)
    case Some(v) => if -0x8000_0000 <= v < 0x8000_0000 then Some(v) else None
    case None => None
  }

  // ---------------------------------------------------------------------
  // One line of the decision file
  // ---------------------------------------------------------------------

  /**
   * The string stream of one line while the ten fields are extracted:
   * the next token, whether a read has failed (every later read then
   * fails), the last token read into `token`, and the variables.
   */
  datatype LineState = LineState(pos: nat, fail: bool, token: string, d: Decision, hi: u64, lo: u64)

  function Start(g: Garbage): LineState
  {
    LineState(0, false, "", Decision(CPU, g.bblid, g.difference, 0), g.hi, g.lo)
  }

  /** The stream still has a token to give. */
  predicate Available(t: seq<string>, st: LineState)
  {
    !st.fail && st.pos < |t|
  }

  /** `ss >> token`: a string read fails only when the line is used up, and then leaves `token` as it was. */
  function ReadToken(t: seq<string>, st: LineState): (r: LineState)
  {
    if Available(t, st) then st.(token := t[st.pos], pos := st.pos + 1) else st.(fail := true)
  }

  /**
   * Field i of the loop over ten fields: 0 the block id, 1 the decision
   * ("P" is PIM, anything else CPU), 2 the parallel flag ("O" is 1), 7 the
   * difference, 8 and 9 the hash halves in hexadecimal; the others are
   * read and ignored. A malformed number stores 0 and fails the stream; a
   * read from a failed or used-up stream changes nothing.
   */
  function FieldStep(t: seq<string>, i: nat, st: LineState): (r: LineState)
    ensures st.fail ==> r.fail
    ensures !r.fail ==> Available(t, st) && r.pos == st.pos + 1
  {
    if i == 1 then
      var r := ReadToken(t, st);
      r.(d := r.d.(decision := if r.token == "P" then PIM else CPU))
    else if i == 2 then
      var r := ReadToken(t, st);
      r.(d := r.d.(parallel := if r.token == "O" then 1 else 0))
    else if i != 0 && i != 7 && i != 8 && i != 9 then ReadToken(t, st)
    else if !Available(t, st) then st.(fail := true)
    else if i == 0 then
      match ParseInt32(t[st.pos])
      case Some(v) => st.(d := st.d.(bblid := v), pos := st.pos + 1)
      case None => st.(d := st.d.(bblid := 0), fail := true)
    else if i == 7 then
      match ParseReal(t[st.pos])
      case Some(v) => st.(d := st.d.(difference := v), pos := st.pos + 1)
      case None => st.(d := st.d.(difference := 0.0), fail := true)
    else if i == 8 then
      match ParseHex64(t[st.pos])
      case Some(v) => st.(hi := v, pos := st.pos + 1)
      case None => st.(hi := 0, fail := true)
    else
      match ParseHex64(t[st.pos])
      case Some(v) => st.(lo := v, pos := st.pos + 1)
      case None => st.(lo := 0, fail := true)
  }

  /** The stream after the first n fields. */
  function ReadFields(t: seq<string>, n: nat, st0: LineState): (r: LineState)
    ensures st0.fail ==> r.fail
    ensures !r.fail ==> r.pos == st0.pos + n
  {
    if n == 0 then st0 else FieldStep(t, n - 1, ReadFields(t, n - 1, st0))
  }

  /** The key and the decision one line yields. */
  function ParseLine(line: string, g: Garbage): (UUID, Decision)
  {
    var st := ReadFields(Tokens(line), 10, Start(g));
    (UUID(st.hi, st.lo), st.d)
  }

  /** Every numeric field of the line is well formed. */
  predicate WellFormedRow(t: seq<string>)
  {
    |t| >= 10 && ParseInt32(t[0]).Some? && ParseReal(t[7]).Some? && ParseHex64(t[8]).Some? && ParseHex64(t[9]).Some?
  }

  /** The documented fields of a well-formed line, whatever the variables held before. */
  function RowOf(t: seq<string>): (UUID, Decision)
    requires WellFormedRow(t)
  {
    (UUID(ParseHex64(t[8]).value, ParseHex64(t[9]).value),
     Decision(if t[1] == "P" then PIM else CPU, ParseInt32(t[0]).value, ParseReal(t[7]).value, if t[2] == "O" then 1 else 0))
  }

  /** On a well-formed line the first n fields are all read, and each holds its token's value. */
  lemma {:induction false} ReadFieldsWellFormed(t: seq<string>, n: nat, g: Garbage)
    requires WellFormedRow(t) && n <= 10
    ensures var r := ReadFields(t, n, Start(g));
      !r.fail && r.pos == n
      && (n > 0 ==> r.d.bblid == RowOf(t).1.bblid)
      && (n > 1 ==> r.d.decision == RowOf(t).1.decision)
      && (n > 2 ==> r.d.parallel == RowOf(t).1.parallel)
      && (n > 7 ==> r.d.difference == RowOf(t).1.difference)
      && (n > 8 ==> r.hi == RowOf(t).0.hi)
      && (n > 9 ==> r.lo == RowOf(t).0.lo)
  {
    if n > 0 {
      ReadFieldsWellFormed(t, n - 1, g);
    }
  }

  /** A well-formed line yields exactly its documented fields. */
  lemma ParseWellFormed(line: string, g: Garbage)
    requires WellFormedRow(Tokens(line))
    ensures ParseLine(line, g) == RowOf(Tokens(line))
  {
    ReadFieldsWellFormed(Tokens(line), 10, g);
  }

  /** The stream never runs ahead of the fields, and stays on them while nothing failed. */
  lemma {:induction false} ReadFieldsPos(t: seq<string>, n: nat, g: Garbage)
    ensures var r := ReadFields(t, n, Start(g));
      r.pos <= n && (!r.fail ==> r.pos == n && n <= |t|)
  {
    if n > 0 {
      ReadFieldsPos(t, n - 1, g);
    }
  }

  /**
   * A line with fewer than nine tokens never reaches the hash fields: the
   * key it is stored under is whatever the hash variables held. The rows
   * both solvers write have seven or eight tokens.
   */
  lemma ShortLineKeepsHash(line: string, g: Garbage)
    requires |Tokens(line)| < 9
    ensures ParseLine(line, g).0 == UUID(g.hi, g.lo)
  {
    var t := Tokens(line);
    ReadFieldsPos(t, 8, g);
    ReadFieldsUpTo8(t, 8, g);
    ReadFieldsPos(t, 9, g);
  }

  lemma {:induction false} ReadFieldsUpTo8(t: seq<string>, n: nat, g: Garbage)
    requires n <= 8
    ensures ReadFields(t, n, Start(g)).hi == g.hi && ReadFields(t, n, Start(g)).lo == g.lo
  {
    if n > 0 {
      ReadFieldsUpTo8(t, n - 1, g);
    }
  }

  // ---------------------------------------------------------------------
  // The rows the cost solver writes
  // ---------------------------------------------------------------------

  /** A signed decimal as `<<` writes it: a minus sign before the magnitude. */
  function ShowInt(v: int): string
  {
    if v < 0 then "-" + Show(-v, 10) else Show(v, 10)
  }

  /** A written signed decimal is one token. */
  lemma ShowIntIsWord(v: int)
    ensures IsWord(ShowInt(v))
  {
    var n: nat := if v < 0 then -v else v;
    ShowIsWord(n, 10);
    if v < 0 {
      var w := "-" + Show(n, 10);
      assert forall c | c in w :: c == '-' || c in Show(n, 10);
    }
  }

  /** A written signed decimal reads back as its value. */
  lemma ShowIntReadsBack(v: int)
    ensures ParseDec(ShowInt(v)) == Some(v)
  {
    ParseDecShow(if v < 0 then -v else v);
  }

  /** `(int64_t)x`: a 64-bit value seen as two's complement. */
  function Signed64(x: u64): (v: int)
    ensures -0x8000_0000_0000_0000 <= v < 0x8000_0000_0000_0000
  {
    if x < 0x8000_0000_0000_0000 then x else x - 0x1_0000_0000_0000_0000
  }

  /** A signed 64-bit value back as the unsigned word it came from. */
  function Unsigned64(v: int): u64
    requires -0x8000_0000_0000_0000 <= v < 0x8000_0000_0000_0000
  {
    if v < 0 then v + 0x1_0000_0000_0000_0000 else v
  }

  /**
   * The eight columns of one decision row of the solver's decision file:
   * block id, decision letter, parallelism, the CPU and PIM times, their
   * difference, and the hash halves as signed decimals.
   */
  function WrittenRow(i: nat, site: CostSite, par: nat, cpu: int, pim: int, h: UUID): (ws: seq<string>)
    ensures |ws| == 8
  {
    [Show(i, 10), GetCostSiteString(site), Show(par, 10), ShowInt(cpu), ShowInt(pim), ShowInt(cpu - pim),
     ShowInt(Signed64(h.hi)), ShowInt(Signed64(h.lo))]
  }

  /** Each column of a written row is one token. */
  lemma WrittenRowWords(i: nat, site: CostSite, par: nat, cpu: int, pim: int, h: UUID)
    ensures forall k | 0 <= k < 8 :: IsWord(WrittenRow(i, site, par, cpu, pim, h)[k])
  {
    var ws := WrittenRow(i, site, par, cpu, pim, h);
    ShowIsWord(i, 10);
    ShowIsWord(par, 10);
    LetterIsWord(site);
    ShowIntIsWord(cpu);
    ShowIntIsWord(pim);
    ShowIntIsWord(cpu - pim);
    ShowIntIsWord(Signed64(h.hi));
    ShowIntIsWord(Signed64(h.lo));
  }

  /** A decision letter is one token. */
  lemma LetterIsWord(site: CostSite)
    ensures IsWord(GetCostSiteString(site))
  {
    var w := GetCostSiteString(site);
    assert w == [w[0]];
    match site {
      case CPU =>
      case PIM =>
      case MaxCostSite =>
      case NotPIM =>
      case All =>
      case Default =>
      case Invalid =>
    }
  }

  /** As written, every row the solver writes is stored under the hash the variables held before it. */
  lemma WrittenRowKeepsHash(i: nat, site: CostSite, par: nat, cpu: int, pim: int, h: UUID, g: Garbage)
    ensures ParseLine(Join(WrittenRow(i, site, par, cpu, pim, h)), g).0 == UUID(g.hi, g.lo)
  {
    WrittenRowWords(i, site, par, cpu, pim, h);
    TokensJoin(WrittenRow(i, site, par, cpu, pim, h));
    ShortLineKeepsHash(Join(WrittenRow(i, site, par, cpu, pim, h)), g);
  }

  /**
   * A decision row read in the layout the solver writes: the difference
   * from column 5 and the hash from the signed columns 6 and 7; a line
   * whose block id or numbers do not read (the column titles) is no row.
   */
  function ParseWrittenLine(line: string): (r: Option<(UUID, Decision)>)
    ensures r.Some? ==> |Tokens(line)| >= 8
  {
    var t := Tokens(line);
    if |t| >= 8 && ParseInt32(t[0]).Some? && ParseDec(t[5]).Some? && ParseDec(t[6]).Some? && ParseDec(t[7]).Some?
       && -0x8000_0000_0000_0000 <= ParseDec(t[6]).value < 0x8000_0000_0000_0000
       && -0x8000_0000_0000_0000 <= ParseDec(t[7]).value < 0x8000_0000_0000_0000
    then
      Some((UUID(Unsigned64(ParseDec(t[6]).value), Unsigned64(ParseDec(t[7]).value)),
            Decision(if t[1] == "P" then PIM else CPU, ParseInt32(t[0]).value, ParseDec(t[5]).value as real,
                     if t[2] == "O" then 1 else 0)))
    else None
  }

  /** Every row the solver writes for block i keys that block's own hash, with its decision and difference. */
  lemma WrittenRowKeysBlock(i: nat, site: CostSite, par: nat, cpu: int, pim: int, h: UUID)
    requires i < 0x8000_0000
    ensures ParseWrittenLine(Join(WrittenRow(i, site, par, cpu, pim, h))) ==
      Some((h, Decision(if site == PIM then PIM else CPU, i, (cpu - pim) as real, 0)))
  {
    var ws := WrittenRow(i, site, par, cpu, pim, h);
    WrittenRowWords(i, site, par, cpu, pim, h);
    TokensJoin(ws);
    var t := Tokens(Join(ws));
    assert t == ws;
    assert ParseInt32(t[0]) == Some(i as int) by {
      ParseDecShow(i);
    }
    ShowIntReadsBack(cpu - pim);
    ShowIntReadsBack(Signed64(h.hi));
    ShowIntReadsBack(Signed64(h.lo));
    assert ParseDec(t[5]) == Some(cpu - pim);
    assert ParseDec(t[6]) == Some(Signed64(h.hi)) && Unsigned64(Signed64(h.hi)) == h.hi;
    assert ParseDec(t[7]) == Some(Signed64(h.lo)) && Unsigned64(Signed64(h.lo)) == h.lo;
    assert (t[1] == "P") == (site == PIM) by {
      if t[1] == "P" {
        CostSiteStringInjective(site, PIM);
      }
    }
    assert t[2] != "O" by {
      assert 0 <= DigitOf(Show(par, 10)[0]) < 10;
    }
  }

  /** The column titles the solver writes after the marker line. */
  const TITLES: seq<string> := ["BBLID", "Decision", "Parallelism", "CPU", "PIM", "Difference", "Hash(hi)", "Hash(lo)"]

  /** The column-title line that follows the marker is no row. */
  lemma TitleLineSkipped(line: string)
    requires Tokens(line) == TITLES
    ensures ParseWrittenLine(line).None?
  {
    assert TITLES[0] == "BBLID";
    assert DigitOf('B') == 11;
    assert !IsNumeral(TITLES[0], 10);
    assert ParseInt32(Tokens(line)[0]).None?;
  }

  // ---------------------------------------------------------------------
  // The whole file
  // ---------------------------------------------------------------------

  /** The index of the first line after the header: the line after the first one containing the marker, or the end. */
  function FirstAfterMarker(lines: seq<string>): (i: nat)
    ensures i <= |lines|
    ensures forall k | 0 <= k < i - 1 :: !Contains(lines[k], MARKER)
    ensures 0 < i < |lines| ==> Contains(lines[i - 1], MARKER)
    ensures i == 0 <==> lines == []
  {
    if lines == [] then 0
    else if Contains(lines[0], MARKER) then 1
    else 1 + FirstAfterMarker(lines[1..])
  }

  /** Without a marker line every line is header. */
  lemma NoMarkerNoRows(lines: seq<string>)
    requires forall k | 0 <= k < |lines| :: !Contains(lines[k], MARKER)
    ensures FirstAfterMarker(lines) == |lines|
  {
  }

  /** The map after the data lines, each parsed with the values its variables started with. */
  function Load(m: map<UUID, Decision>, rows: seq<string>, junk: nat -> Garbage): (r: map<UUID, Decision>)
    decreases |rows|
  {
    if rows == [] then m
    else
      var n := |rows| - 1;
      var p := ParseLine(rows[n], junk(n));
      Load(m, rows[..n], junk)[p.0 := p.1]
  }

  function KeyAt(rows: seq<string>, junk: nat -> Garbage, i: nat): UUID
    requires i < |rows|
  {
    ParseLine(rows[i], junk(i)).0
  }

  /** Some line yields the hash k. */
  predicate Yields(rows: seq<string>, junk: nat -> Garbage, k: UUID)
  {
    exists i | 0 <= i < |rows| :: KeyAt(rows, junk, i) == k
  }

  lemma YieldsLast(rows: seq<string>, junk: nat -> Garbage, k: UUID)
    requires rows != []
    ensures Yields(rows, junk, k) <==> Yields(rows[..|rows| - 1], junk, k) || KeyAt(rows, junk, |rows| - 1) == k
  {
    var n := |rows| - 1;
    if Yields(rows, junk, k) && KeyAt(rows, junk, n) != k {
      var i :| 0 <= i < |rows| && KeyAt(rows, junk, i) == k;
      assert rows[..n][i] == rows[i];
      assert KeyAt(rows[..n], junk, i) == k;
    }
    if Yields(rows[..n], junk, k) {
      var i :| 0 <= i < n && KeyAt(rows[..n], junk, i) == k;
      assert rows[..n][i] == rows[i];
      assert KeyAt(rows, junk, i) == k;
    }
  }

  /** A hash is in the map exactly when it was there before or some line yields it. */
  lemma {:induction false} LoadKeys(m: map<UUID, Decision>, rows: seq<string>, junk: nat -> Garbage, k: UUID)
    ensures k in Load(m, rows, junk) <==> k in m || Yields(rows, junk, k)
    decreases |rows|
  {
    if rows != [] {
      LoadKeys(m, rows[..|rows| - 1], junk, k);
      YieldsLast(rows, junk, k);
    }
  }

  /** A hash yielded by several lines keeps the decision of the last of them. */
  lemma {:induction false} LastLineWins(m: map<UUID, Decision>, rows: seq<string>, junk: nat -> Garbage, i: nat)
    requires i < |rows|
    requires forall j | i < j < |rows| :: KeyAt(rows, junk, j) != KeyAt(rows, junk, i)
    ensures KeyAt(rows, junk, i) in Load(m, rows, junk)
    ensures Load(m, rows, junk)[KeyAt(rows, junk, i)] == ParseLine(rows[i], junk(i)).1
    decreases |rows|
  {
    var n := |rows| - 1;
    if i < n {
      assert rows[..n][i] == rows[i];
      assert KeyAt(rows[..n], junk, i) == KeyAt(rows, junk, i);
      assert KeyAt(rows, junk, n) != KeyAt(rows, junk, i);
      forall j | i < j < n ensures KeyAt(rows[..n], junk, j) != KeyAt(rows[..n], junk, i) {
        assert rows[..n][j] == rows[j];
        assert KeyAt(rows, junk, j) != KeyAt(rows, junk, i);
      }
      LastLineWins(m, rows[..n], junk, i);
    }
  }

  // ---------------------------------------------------------------------
  // Which blocks are annotated, and how
  // ---------------------------------------------------------------------

  /** `ROI` from the environment variable: "CPUONLY" and "PIMONLY" select a site; anything else, or no variable, fails. */
  function RoiOf(env: Option<string>): (r: CostSite)
    ensures r == CPU || r == PIM || r == Default
    ensures r == CPU <==> env == Some("CPUONLY")
    ensures r == PIM <==> env == Some("PIMONLY")
  {
    if env == Some("CPUONLY") then CPU
    else if env == Some("PIMONLY") then PIM
    else Default
  }

  /** The markers a block receives: (at its first insertion point, before its terminator). */
  datatype Markers = Markers(atStart: int, beforeTerminator: int)

  /**
   * Only a block whose hash is in the map with decision PIM is annotated;
   * with the CPU as region of interest the offload end goes at its start
   * and the offload start before its terminator, otherwise the reverse.
   */
  function BlockMarkers(m: map<UUID, Decision>, roi: CostSite, h: UUID): (r: Option<Markers>)
    ensures r.Some? <==> h in m && m[h].decision == PIM
    ensures r.Some? ==> {r.value.atStart, r.value.beforeTerminator} == {SIM_PIM_OFFLOAD_START, SIM_PIM_OFFLOAD_END}
    ensures r.Some? ==> (r.value.atStart == SIM_PIM_OFFLOAD_END <==> roi == CPU)
  {
    if h !in m || m[h].decision != PIM then None
    else if roi == CPU then Some(Markers(SIM_PIM_OFFLOAD_END, SIM_PIM_OFFLOAD_START))
    else Some(Markers(SIM_PIM_OFFLOAD_START, SIM_PIM_OFFLOAD_END))
  }

  /** How many of the blocks have a hash in the map. */
  function Found(m: map<UUID, Decision>, blocks: seq<UUID>): (n: nat)
    ensures n <= |blocks|
  {
    if blocks == [] then 0
    else Found(m, blocks[..|blocks| - 1]) + (if blocks[|blocks| - 1] in m then 1 else 0)
  }

  /** How many of the blocks are annotated. */
  function Annotated(m: map<UUID, Decision>, roi: CostSite, blocks: seq<UUID>): nat
  {
    if blocks == [] then 0
    else Annotated(m, roi, blocks[..|blocks| - 1]) + (if BlockMarkers(m, roi, blocks[|blocks| - 1]).Some? then 1 else 0)
  }

  /** Every annotated block was found: the insert count never exceeds the found count. */
  lemma {:induction false} AnnotatedFound(m: map<UUID, Decision>, roi: CostSite, blocks: seq<UUID>)
    ensures Annotated(m, roi, blocks) <= Found(m, blocks)
    decreases |blocks|
  {
    if blocks != [] {
      AnnotatedFound(m, roi, blocks[..|blocks| - 1]);
    }
  }

  /**
   * The codes `main` receives when the CPU is the region of interest:
   * at its entry the region start then the offload start; before each
   * return the offload end then the region end.
   */
  function MainEntry(roi: CostSite): (r: seq<int>)
    ensures r != [] && r[0] == SIM_CMD_ROI_START
    ensures OffloadCodes(r) == if roi == CPU then [SIM_PIM_OFFLOAD_START] else []
  {
    [SIM_CMD_ROI_START] + (if roi == CPU then [SIM_PIM_OFFLOAD_START] else [])
  }

  function MainExit(roi: CostSite): (r: seq<int>)
    ensures r != [] && r[|r| - 1] == SIM_CMD_ROI_END
    ensures OffloadCodes(r) == if roi == CPU then [SIM_PIM_OFFLOAD_END] else []
  {
    (if roi == CPU then [SIM_PIM_OFFLOAD_END] else []) + [SIM_CMD_ROI_END]
  }

  /** The offload codes of a sequence of markers, in order. */
  function OffloadCodes(s: seq<int>): (r: seq<int>)
    ensures |r| <= |s|
  {
    if s == [] then []
    else
      var rest := OffloadCodes(s[..|s| - 1]);
      if s[|s| - 1] in {SIM_PIM_OFFLOAD_START, SIM_PIM_OFFLOAD_END} then rest + [s[|s| - 1]] else rest
  }

  /** Offload starts and ends alternate, starting with a start and ending with an end. */
  predicate Balanced(s: seq<int>)
  {
    |s| % 2 == 0 && forall i | 0 <= i < |s| :: s[i] == (if i % 2 == 0 then SIM_PIM_OFFLOAD_START else SIM_PIM_OFFLOAD_END)
  }

  /** The codes a run emits when the given blocks run one after another, none calling out of its own body. */
  function BlockRun(m: map<UUID, Decision>, roi: CostSite, blocks: seq<UUID>): (r: seq<int>)
    ensures |r| == 2 * Annotated(m, roi, blocks)
    decreases |blocks|
  {
    if blocks == [] then []
    else
      var b := BlockMarkers(m, roi, blocks[|blocks| - 1]);
      BlockRun(m, roi, blocks[..|blocks| - 1]) + (if b.Some? then [b.value.atStart, b.value.beforeTerminator] else [])
  }

  /** What `main` emits: its own markers around the blocks when the CPU is the region of interest, the blocks alone otherwise. */
  function ProgramRun(m: map<UUID, Decision>, roi: CostSite, blocks: seq<UUID>): (r: seq<int>)
    ensures |r| == 2 * Annotated(m, roi, blocks) + (if roi == CPU then 4 else 0)
    ensures roi == CPU ==> r[0] == SIM_CMD_ROI_START && r[|r| - 1] == SIM_CMD_ROI_END
  {
    if roi == CPU then MainEntry(roi) + BlockRun(m, roi, blocks) + MainExit(roi)
    else BlockRun(m, roi, blocks)
  }

  lemma {:induction false} OffloadCodesAppend(s: seq<int>, u: seq<int>)
    ensures OffloadCodes(s + u) == OffloadCodes(s) + OffloadCodes(u)
    decreases |u|
  {
    if u == [] {
      assert s + u == s;
    } else {
      var n := |u| - 1;
      assert (s + u)[..|s + u| - 1] == s + u[..n];
      assert (s + u)[|s + u| - 1] == u[n];
      OffloadCodesAppend(s, u[..n]);
    }
  }

  /** With the PIM as region of interest, the blocks' own markers alternate start, end. */
  lemma {:induction false} PimRunBalanced(m: map<UUID, Decision>, blocks: seq<UUID>)
    ensures Balanced(OffloadCodes(BlockRun(m, PIM, blocks)))
    decreases |blocks|
  {
    if blocks != [] {
      var n := |blocks| - 1;
      PimRunBalanced(m, blocks[..n]);
      var b := BlockMarkers(m, PIM, blocks[n]);
      var tail := if b.Some? then [b.value.atStart, b.value.beforeTerminator] else [];
      OffloadCodesAppend(BlockRun(m, PIM, blocks[..n]), tail);
      if b.Some? {
        assert OffloadCodes(tail) == [SIM_PIM_OFFLOAD_START, SIM_PIM_OFFLOAD_END] by {
          assert tail[..1] == [SIM_PIM_OFFLOAD_START];
        }
      } else {
        assert OffloadCodes(tail) == [];
      }
    }
  }

  /**
   * With the CPU as region of interest each annotated block emits an end
   * then a start, so between `main`'s own start and end the markers read
   * start, (end, start)*, end: the offload region is everything outside
   * the PIM blocks.
   */
  lemma {:induction false} CpuRunShape(m: map<UUID, Decision>, blocks: seq<UUID>)
    ensures var c := OffloadCodes(BlockRun(m, CPU, blocks));
      |c| % 2 == 0 && forall i | 0 <= i < |c| :: c[i] == (if i % 2 == 0 then SIM_PIM_OFFLOAD_END else SIM_PIM_OFFLOAD_START)
    decreases |blocks|
  {
    if blocks != [] {
      var n := |blocks| - 1;
      CpuRunShape(m, blocks[..n]);
      var b := BlockMarkers(m, CPU, blocks[n]);
      var tail := if b.Some? then [b.value.atStart, b.value.beforeTerminator] else [];
      OffloadCodesAppend(BlockRun(m, CPU, blocks[..n]), tail);
      if b.Some? {
        assert OffloadCodes(tail) == [SIM_PIM_OFFLOAD_END, SIM_PIM_OFFLOAD_START] by {
          assert tail[..1] == [SIM_PIM_OFFLOAD_END];
        }
      } else {
        assert OffloadCodes(tail) == [];
      }
    }
  }

  /** An end, start, ... end, start sequence between a start and an end is balanced. */
  lemma WrapBalanced(c: seq<int>)
    requires |c| % 2 == 0 && forall i | 0 <= i < |c| :: c[i] == (if i % 2 == 0 then SIM_PIM_OFFLOAD_END else SIM_PIM_OFFLOAD_START)
    ensures Balanced([SIM_PIM_OFFLOAD_START] + c + [SIM_PIM_OFFLOAD_END])
  {
    var all := [SIM_PIM_OFFLOAD_START] + c + [SIM_PIM_OFFLOAD_END];
    forall i | 0 <= i < |all| ensures all[i] == (if i % 2 == 0 then SIM_PIM_OFFLOAD_START else SIM_PIM_OFFLOAD_END) {
      if 0 < i <= |c| {
        assert all[i] == c[i - 1];
      }
    }
  }

  /** With the CPU as region of interest, `main`'s own offload start and end enclose the blocks' codes. */
  lemma CpuProgramCodes(m: map<UUID, Decision>, blocks: seq<UUID>)
    ensures OffloadCodes(ProgramRun(m, CPU, blocks))
      == [SIM_PIM_OFFLOAD_START] + OffloadCodes(BlockRun(m, CPU, blocks)) + [SIM_PIM_OFFLOAD_END]
  {
    var body := BlockRun(m, CPU, blocks);
    OffloadCodesAppend(MainEntry(CPU) + body, MainExit(CPU));
    OffloadCodesAppend(MainEntry(CPU), body);
    assert OffloadCodes(MainEntry(CPU)) == [SIM_PIM_OFFLOAD_START] by {
      assert MainEntry(CPU)[..1] == [SIM_CMD_ROI_START];
    }
    assert OffloadCodes(MainExit(CPU)) == [SIM_PIM_OFFLOAD_END] by {
      assert MainExit(CPU)[..1] == [SIM_PIM_OFFLOAD_END];
    }
  }

  /** Whichever site is the region of interest, a run's offload markers are balanced. */
  lemma ProgramRunBalanced(m: map<UUID, Decision>, roi: CostSite, blocks: seq<UUID>)
    requires roi == CPU || roi == PIM
    ensures Balanced(OffloadCodes(ProgramRun(m, roi, blocks)))
  {
    if roi == CPU {
      CpuRunShape(m, blocks);
      CpuProgramCodes(m, blocks);
      WrapBalanced(OffloadCodes(BlockRun(m, CPU, blocks)));
    } else {
      PimRunBalanced(m, blocks);
    }
  }

  // ---------------------------------------------------------------------
  // The pass and its globals
  // ---------------------------------------------------------------------

  /** The pass's global state: the decision map, the three counters and the region of interest. */
  class Offloader {
    var decisionMap: map<UUID, Decision>
    var foundCnt: int
    var notFoundCnt: int
    var insertCnt: int
    var roi: CostSite

    constructor ()
      ensures decisionMap == map[] && foundCnt == 0 && notFoundCnt == 0 && insertCnt == 0 && roi == Default
    {
      decisionMap, foundCnt, notFoundCnt, insertCnt, roi := map[], 0, 0, 0, Default;
    }

    /** The region-of-interest selection; `ok` is false where the source's assertion fails. */
    method SelectRoi(env: Option<string>) returns (ok: bool)
      modifies this
      ensures roi == RoiOf(env) && (ok <==> roi != Default)
      ensures decisionMap == old(decisionMap) && foundCnt == old(foundCnt)
      ensures notFoundCnt == old(notFoundCnt) && insertCnt == old(insertCnt)
    {
      if env.Some? && env.value == "CPUONLY" {
        roi := CPU;
      } else if env.Some? && env.value == "PIMONLY" {
        roi := PIM;
      } else {
        roi := Default;
      }
      ok := roi != Default;
    }

    /** One line through the ten-field loop. */
    static method ReadLine(line: string, g: Garbage) returns (key: UUID, d: Decision)
      ensures (key, d) == ParseLine(line, g)
    {
      var t := Tokens(line);
      var st := Start(g);
      for i := 0 to 10
        invariant st == ReadFields(t, i, Start(g))
      {
        st := FieldStep(t, i, st);
      }
      key, d := UUID(st.hi, st.lo), st.d;
    }

    /** The header is skipped up to and including the marker line; every later line overwrites its hash's entry. */
    method ReadDecisions(lines: seq<string>, junk: nat -> Garbage)
      modifies this
      ensures decisionMap == Load(old(decisionMap), lines[FirstAfterMarker(lines)..], junk)
      ensures foundCnt == old(foundCnt) && notFoundCnt == old(notFoundCnt)
      ensures insertCnt == old(insertCnt) && roi == old(roi)
    {
      var i := 0;
      while i < |lines|
        invariant i <= |lines| && FirstAfterMarker(lines) == i + FirstAfterMarker(lines[i..])
        invariant i == |lines| || FirstAfterMarker(lines[i..]) > 0
      {
        assert lines[i..][1..] == lines[i + 1..];
        i := i + 1;
        if Contains(lines[i - 1], MARKER) {
          break;
        }
      }
      assert i == FirstAfterMarker(lines);
      var rows := lines[i..];
      var j := 0;
      while j < |rows|
        invariant j <= |rows| && decisionMap == Load(old(decisionMap), rows[..j], junk)
        invariant foundCnt == old(foundCnt) && notFoundCnt == old(notFoundCnt)
        invariant insertCnt == old(insertCnt) && roi == old(roi)
      {
        var key, d := ReadLine(rows[j], junk(j));
        assert rows[..j + 1][..j] == rows[..j];
        decisionMap := decisionMap[key := d];
        j := j + 1;
      }
      assert rows[..j] == rows;
    }

    /** `InjectOffloaderCall` on a block with the given hash: counts it as found or not, and gives its markers. */
    method InjectBlock(h: UUID) returns (marks: Option<Markers>)
      modifies this
      ensures marks == BlockMarkers(decisionMap, roi, h)
      ensures decisionMap == old(decisionMap) && roi == old(roi)
      ensures foundCnt == old(foundCnt) + (if h in decisionMap then 1 else 0)
      ensures notFoundCnt == old(notFoundCnt) + (if h in decisionMap then 0 else 1)
      ensures insertCnt == old(insertCnt) + (if marks.Some? then 1 else 0)
    {
      if h !in decisionMap {
        notFoundCnt := notFoundCnt + 1;
        return None;
      }
      foundCnt := foundCnt + 1;
      if decisionMap[h].decision != PIM {
        return None;
      }
      if roi == CPU {
        marks := Some(Markers(SIM_PIM_OFFLOAD_END, SIM_PIM_OFFLOAD_START));
      } else {
        marks := Some(Markers(SIM_PIM_OFFLOAD_START, SIM_PIM_OFFLOAD_END));
      }
      insertCnt := insertCnt + 1;
    }

    /** The loop over every block of the module: every block is counted once, as found or not found. */
    method InjectAll(blocks: seq<UUID>) returns (marks: seq<Option<Markers>>)
      modifies this
      ensures decisionMap == old(decisionMap) && roi == old(roi)
      ensures |marks| == |blocks| && forall i | 0 <= i < |blocks| :: marks[i] == BlockMarkers(decisionMap, roi, blocks[i])
      ensures foundCnt == old(foundCnt) + Found(decisionMap, blocks)
      ensures foundCnt + notFoundCnt == old(foundCnt) + old(notFoundCnt) + |blocks|
      ensures insertCnt == old(insertCnt) + Annotated(decisionMap, roi, blocks)
      ensures insertCnt - old(insertCnt) <= foundCnt - old(foundCnt)
    {
      marks := [];
      var i := 0;
      while i < |blocks|
        invariant i <= |blocks| && |marks| == i
        invariant decisionMap == old(decisionMap) && roi == old(roi)
        invariant forall k | 0 <= k < i :: marks[k] == BlockMarkers(decisionMap, roi, blocks[k])
        invariant foundCnt == old(foundCnt) + Found(decisionMap, blocks[..i])
        invariant foundCnt + notFoundCnt == old(foundCnt) + old(notFoundCnt) + i
        invariant insertCnt == old(insertCnt) + Annotated(decisionMap, roi, blocks[..i])
      {
        assert blocks[..i + 1][..i] == blocks[..i];
        var b := InjectBlock(blocks[i]);
        marks := marks + [b];
        i := i + 1;
      }
      assert blocks[..i] == blocks;
      AnnotatedFound(decisionMap, roi, blocks);
    }

    /** `InjectOffloaderCall` on `main`, which the pass applies only when the CPU is the region of interest. */
    method InjectMain() returns (entry: seq<int>, beforeReturn: seq<int>)
      ensures roi == CPU ==> entry == MainEntry(roi) && beforeReturn == MainExit(roi)
      ensures roi != CPU ==> entry == [] && beforeReturn == []
    {
      if roi == CPU {
        entry := [SIM_CMD_ROI_START, SIM_PIM_OFFLOAD_START];
        beforeReturn := [SIM_PIM_OFFLOAD_END, SIM_CMD_ROI_END];
      } else {
        entry, beforeReturn := [], [];
      }
    }
  }
}
