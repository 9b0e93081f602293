/**
 * The solver's input side: reading a statistics report into a map from
 * block hash to per-block statistics objects, listing such a map in hash
 * order, and aligning the PIM list with the CPU list so that index i names
 * the same block in both.
 */
module CostSolver {
  import opened Common
  import opened Text
  import opened Stats
  import opened ThreadRuns

  /** The separator line of the report: sixty '=' characters. */
  const HORIZONTAL_LINE: string := "============================================================"

  // ---------------------------------------------------------------------
  // Lines of a statistics report
  // ---------------------------------------------------------------------

  /**
   * The thread id a header line sets (`ss >> token >> tid`): left as it was
   * when the line has fewer than two words, the second word's value when
   * it is a decimal numeral, and 0 (what a failed read stores) otherwise.
   */
  function HeaderTid(line: string, tid: int): int
  {
    var t := Tokens(line);
    if |t| < 2 then tid
    else match ParseDec(t[1])
      case Some(v) => v
      case None => 0
  }

  /** How many of a data row's six fields read successfully, in order; reading stops at the first failure. */
  function FieldsRead(t: seq<string>): nat
  {
    if |t| < 1 || ParseDec(t[0]).None? then 0
    else if |t| < 2 || ParseReal(t[1]).None? then 1
    else if |t| < 3 || ParseNat(t[2]).None? then 2
    else if |t| < 4 || ParseNat(t[3]).None? then 3
    else if |t| < 5 || ParseHex64(t[4]).None? then 4
    else if |t| < 6 || ParseHex64(t[5]).None? then 5
    else 6
  }

  /**
   * A data row: block id in decimal, elapsed time as a `double` (kept as
   * its floor, the model's times being integers), instruction count and
   * memory accesses in decimal, then the hash halves in hexadecimal. A
   * field that is not read keeps its default, which is 0 for every field
   * (the default hash is `GLOBAL_BBLHASH`, (0, 0)).
   */
  function ParseRow(line: string): BBLStats
  {
    RowFields(Tokens(line))
  }

  /** The statistics of a data row's tokens. */
  function RowFields(t: seq<string>): BBLStats
  {
    var n := FieldsRead(t);
    BBLStats(
      if n > 0 then ParseDec(t[0]).value else 0,
      UUID(if n > 4 then ParseHex64(t[4]).value else 0, if n > 5 then ParseHex64(t[5]).value else 0),
      if n > 1 then ParseReal(t[1]).value.Floor else 0,
      if n > 2 then ParseNat(t[2]).value else 0,
      if n > 3 then ParseNat(t[3]).value else 0)
  }

  /** Six tokens that each read: the row holds their values, the time as the floor of x. */
  lemma RowFieldsRead(t: seq<string>, s: BBLStats, x: real)
    requires |t| == 6 && ParseDec(t[0]) == Some(s.bblid) && ParseReal(t[1]) == Some(x)
    requires ParseNat(t[2]) == Some(s.instructionCount) && ParseNat(t[3]) == Some(s.memoryAccess)
    requires ParseHex64(t[4]) == Some(s.bblhash.hi) && ParseHex64(t[5]) == Some(s.bblhash.lo)
    ensures RowFields(t) == s.(elapsedTime := x.Floor)
  {
    assert FieldsRead(t) == 6;
    var r := RowFields(t);
    assert r.bblid == s.bblid && r.bblhash == s.bblhash && r.elapsedTime == x.Floor;
    assert r.instructionCount == s.instructionCount && r.memoryAccess == s.memoryAccess;
  }

  /**
   * The tokens of a row whose time token reads as x: every field reads,
   * and the time is the floor of x.
   */
  lemma RowFieldsTime(s: BBLStats, time: string, x: real)
    requires s.bblid >= 0 && ParseReal(time) == Some(x)
    ensures RowFields([Show(s.bblid, 10), time, Show(s.instructionCount, 10),
                       Show(s.memoryAccess, 10), Show(s.bblhash.hi, 16), Show(s.bblhash.lo, 16)]) ==
            s.(elapsedTime := x.Floor)
  {
    var id, instrs, mems := Show(s.bblid, 10), Show(s.instructionCount, 10), Show(s.memoryAccess, 10);
    var hi, lo := Show(s.bblhash.hi, 16), Show(s.bblhash.lo, 16);
    ParseDecShow(s.bblid);
    ParseDecShow(s.instructionCount);
    ParseDecShow(s.memoryAccess);
    ParseHexShow(s.bblhash.hi);
    ParseHexShow(s.bblhash.lo);
    var t := [id, time, instrs, mems, hi, lo];
    assert t[0] == id && t[1] == time && t[2] == instrs && t[3] == mems && t[4] == hi && t[5] == lo;
    RowFieldsRead(t, s, x);
  }

  /** A row written with its fields separated by spaces reads back as the same statistics. */
  lemma ParseRowShow(s: BBLStats)
    requires s.bblid >= 0 && s.elapsedTime >= 0
    ensures ParseRow(Join([Show(s.bblid, 10), Show(s.elapsedTime, 10), Show(s.instructionCount, 10),
                           Show(s.memoryAccess, 10), Show(s.bblhash.hi, 16), Show(s.bblhash.lo, 16)])) == s
  {
    var ws := [Show(s.bblid, 10), Show(s.elapsedTime, 10), Show(s.instructionCount, 10),
               Show(s.memoryAccess, 10), Show(s.bblhash.hi, 16), Show(s.bblhash.lo, 16)];
    ShowIsWord(s.bblid, 10);
    ShowIsWord(s.elapsedTime, 10);
    ShowIsWord(s.instructionCount, 10);
    ShowIsWord(s.memoryAccess, 10);
    ShowIsWord(s.bblhash.hi, 16);
    ShowIsWord(s.bblhash.lo, 16);
    TokensJoin(ws);
    ParseRealShow(s.elapsedTime);
    RowFieldsTime(s, Show(s.elapsedTime, 10), s.elapsedTime as real);
  }

  /** The shape of "1234.57": no exponent, the point at index 4. */
  lemma FractionShape()
    ensures IndexOfAny("1234.57", {'e', 'E'}) == 7 && IndexOfAny("1234.57", {'.'}) == 4
    ensures "1234.57"[..7] == "1234.57" && "1234.57"[..4] == "1234" && "1234.57"[5..] == "57"
  {
    NoExponent();
    assert "1234.57"[1..] == "234.57" && "234.57"[1..] == "34.57" && "34.57"[1..] == "4.57";
    assert "4.57"[1..] == ".57";
  }

  lemma NoExponent()
    ensures IndexOfAny("1234.57", {'e', 'E'}) == 7
  {
    assert "57"[1..] == "7" && "7"[1..] == [];
    assert IndexOfAny(".57", {'e', 'E'}) == 3 by { assert ".57"[1..] == "57"; }
    assert IndexOfAny("34.57", {'e', 'E'}) == 5 by { assert "34.57"[1..] == "4.57" && "4.57"[1..] == ".57"; }
    assert "1234.57"[1..] == "234.57" && "234.57"[1..] == "34.57";
  }

  /** "1234.57", as the report's `double` column holds a time, reads as 1234.57. */
  lemma FractionReads()
    ensures ParseReal("1234.57") == Some(123457.0 / 100.0)
  {
    FractionShape();
    NumeralValues();
    assert Scale(-2) == 1.0 / 100.0;
  }

  lemma NumeralValues()
    ensures NumeralValue("1234", 10) == 1234 && NumeralValue("57", 10) == 57
  {
    assert NumeralValue("1", 10) == 1 by { assert "1"[..0] == []; }
    assert NumeralValue("12", 10) == 12 by { assert "12"[..1] == "1"; }
    assert NumeralValue("123", 10) == 123 by { assert "123"[..2] == "12"; }
    assert "1234"[..3] == "123";
    assert NumeralValue("5", 10) == 5 by { assert "5"[..0] == []; }
    assert "57"[..1] == "5";
  }

  /**
   * A row whose time is written with a fraction is read whole: the time is
   * kept as its floor and the fields after it still read.
   */
  lemma FractionalTime(s: BBLStats)
    requires s.bblid >= 0
    ensures RowFields([Show(s.bblid, 10), "1234.57", Show(s.instructionCount, 10),
                       Show(s.memoryAccess, 10), Show(s.bblhash.hi, 16), Show(s.bblhash.lo, 16)]) ==
            s.(elapsedTime := 1234)
  {
    FractionReads();
    assert (123457.0 / 100.0).Floor == 1234;
    RowFieldsTime(s, "1234.57", 123457.0 / 100.0);
  }

  /** The header the per-thread report writes sets the thread id it names. */
  lemma HeaderTidShow(k: nat, tid: int)
    ensures HeaderTid("Thread " + Show(k, 10), tid) == k
  {
    var ws := ["Thread", Show(k, 10)];
    ShowIsWord(k, 10);
    assert IsWord("Thread") by {
      forall c | c in "Thread" ensures !IsSpace(c) {
      }
    }
    TokensJoin(ws);
    assert Join(ws) == "Thread " + Show(k, 10) by {
      assert Join(ws[1..]) == Show(k, 10);
    }
    ParseDecShow(k);
  }

  /** A data row with the thread it is attributed to. */
  datatype Row = Row(tid: int, stats: BBLStats)

  function Drop3(n: nat): nat
  {
    if n < 3 then n else 3
  }

  /**
   * The rows of a report, read as `ParseStats` reads them: a line holding
   * the separator is followed by a header line, which sets the thread id,
   * and a column-title line, both skipped; every other line is a data row
   * of the current thread.
   */
  function Rows(lines: seq<string>, tid: int): seq<Row>
    decreases |lines|
  {
    if lines == [] then []
    else if Contains(lines[0], HORIZONTAL_LINE) then
      Rows(lines[Drop3(|lines|)..], if |lines| > 1 then HeaderTid(lines[1], tid) else tid)
    else [Row(tid, ParseRow(lines[0]))] + Rows(lines[1..], tid)
  }

  /** Every row names a thread and has a non-negative elapsed time, as the reader requires. */
  predicate RowsOk(rows: seq<Row>)
  {
    forall k | 0 <= k < |rows| :: rows[k].tid >= 0 && rows[k].stats.elapsedTime >= 0
  }

  /** One row folded into the map: a new hash gets a new entry, a known one is merged into. */
  function Step(v: map<UUID, Run>, r: Row): (w: map<UUID, Run>)
    requires r.tid >= 0
    ensures w.Keys == v.Keys + {r.stats.bblhash}
    ensures forall h | h in v && h != r.stats.bblhash :: w[h] == v[h]
    ensures w[r.stats.bblhash].parallelism == if r.stats.bblhash in v then v[r.stats.bblhash].parallelism + 1 else 0
  {
    var h := r.stats.bblhash;
    if h in v then v[h := MergeRun(v[h], r.tid, r.stats)] else v[h := NewRun(r.tid, r.stats)]
  }

  /** The rows folded into the map in order; reading fails at the first row with a negative thread id or elapsed time. */
  function Fold(v: map<UUID, Run>, rows: seq<Row>): Option<map<UUID, Run>>
    decreases |rows|
  {
    if rows == [] then Some(v)
    else if rows[0].tid < 0 || rows[0].stats.elapsedTime < 0 then None
    else Fold(Step(v, rows[0]), rows[1..])
  }

  /** Reading fails exactly when some row is out of range. */
  lemma {:induction false} FoldOk(v: map<UUID, Run>, rows: seq<Row>)
    ensures Fold(v, rows).Some? <==> RowsOk(rows)
    decreases |rows|
  {
    if rows != [] {
      assert RowsOk(rows) <==> rows[0].tid >= 0 && rows[0].stats.elapsedTime >= 0 && RowsOk(rows[1..]) by {
        if rows[0].tid >= 0 && rows[0].stats.elapsedTime >= 0 && RowsOk(rows[1..]) {
          forall k | 0 <= k < |rows| ensures rows[k].tid >= 0 && rows[k].stats.elapsedTime >= 0 {
            if k > 0 {
              assert rows[k] == rows[1..][k - 1];
            }
          }
        }
        if RowsOk(rows) {
          forall k | 0 <= k < |rows[1..]| ensures rows[1..][k].tid >= 0 && rows[1..][k].stats.elapsedTime >= 0 {
            assert rows[1..][k] == rows[k + 1];
          }
        }
      }
      if rows[0].tid >= 0 && rows[0].stats.elapsedTime >= 0 {
        FoldOk(Step(v, rows[0]), rows[1..]);
      }
    }
  }

  function Hashes(rows: seq<Row>): set<UUID>
  {
    set k | 0 <= k < |rows| :: rows[k].stats.bblhash
  }

  /** The entries after the fold are those before it and one per hash read. */
  lemma {:induction false} FoldKeys(v: map<UUID, Run>, rows: seq<Row>)
    requires Fold(v, rows).Some?
    ensures Fold(v, rows).value.Keys == v.Keys + Hashes(rows)
    decreases |rows|
  {
    if rows != [] {
      FoldKeys(Step(v, rows[0]), rows[1..]);
      assert Hashes(rows) == {rows[0].stats.bblhash} + Hashes(rows[1..]) by {
        forall h | h in Hashes(rows) ensures h in {rows[0].stats.bblhash} + Hashes(rows[1..]) {
          var k :| 0 <= k < |rows| && rows[k].stats.bblhash == h;
          if k > 0 {
            assert rows[1..][k - 1] == rows[k];
          }
        }
      }
    }
  }

  predicate RunsKeyed(v: map<UUID, Run>)
  {
    forall h | h in v :: v[h].base.bblhash == h
  }

  /** Each entry is filed under its own hash. */
  lemma {:induction false} FoldKeyed(v: map<UUID, Run>, rows: seq<Row>)
    requires Fold(v, rows).Some? && RunsKeyed(v)
    ensures RunsKeyed(Fold(v, rows).value)
    decreases |rows|
  {
    if rows != [] {
      FoldKeyed(Step(v, rows[0]), rows[1..]);
    }
  }

  /** The number of rows with hash h. */
  function Count(rows: seq<Row>, h: UUID): nat
  {
    if rows == [] then 0 else (if rows[0].stats.bblhash == h then 1 else 0) + Count(rows[1..], h)
  }

  /** The counters of the rows with hash h, added up. */
  function Totals(rows: seq<Row>, h: UUID): BBLStats
  {
    if rows == [] then NewBBLStats(0, h)
    else if rows[0].stats.bblhash == h then MergeStats(Totals(rows[1..], h), rows[0].stats)
    else Totals(rows[1..], h)
  }

  /** Counters of an entry plus the counters of more rows. */
  predicate AddsUp(total: BBLStats, before: BBLStats, more: BBLStats)
  {
    total.elapsedTime == before.elapsedTime + more.elapsedTime
    && total.instructionCount == before.instructionCount + more.instructionCount
    && total.memoryAccess == before.memoryAccess + more.memoryAccess
  }

  /** A known hash gains one merge and the counters of each of its rows. */
  lemma {:induction false} FoldKnown(v: map<UUID, Run>, rows: seq<Row>, h: UUID)
    requires Fold(v, rows).Some? && h in v
    ensures h in Fold(v, rows).value
    ensures Fold(v, rows).value[h].parallelism == v[h].parallelism + Count(rows, h)
    ensures AddsUp(Fold(v, rows).value[h].base, v[h].base, Totals(rows, h))
    decreases |rows|
  {
    if rows != [] {
      FoldKnown(Step(v, rows[0]), rows[1..], h);
    }
  }

  /**
   * Read from nothing, a hash has an entry exactly when some row has it;
   * the entry merged all but the first of its rows, and its counters are
   * the sums over its rows.
   */
  lemma {:induction false} FoldNew(v: map<UUID, Run>, rows: seq<Row>, h: UUID)
    requires Fold(v, rows).Some? && h !in v
    ensures h in Fold(v, rows).value <==> Count(rows, h) > 0
    ensures h in Fold(v, rows).value ==>
      Fold(v, rows).value[h].parallelism + 1 == Count(rows, h)
      && AddsUp(Fold(v, rows).value[h].base, NewBBLStats(0, h), Totals(rows, h))
    decreases |rows|
  {
    if rows != [] {
      var v' := Step(v, rows[0]);
      if rows[0].stats.bblhash == h {
        FoldKnown(v', rows[1..], h);
      } else {
        FoldNew(v', rows[1..], h);
      }
    }
  }

  /** Rows after a "Thread k" header, with no further separator, all belong to thread k. */
  lemma {:induction false} RowsOfThread(lines: seq<string>, k: int)
    requires forall j | 0 <= j < |lines| :: !Contains(lines[j], HORIZONTAL_LINE)
    ensures forall j | 0 <= j < |Rows(lines, k)| :: Rows(lines, k)[j].tid == k
    ensures |Rows(lines, k)| == |lines|
  {
    if lines != [] {
      RowsOfThread(lines[1..], k);
    }
  }

  lemma RowsAfterHeader(title: string, body: seq<string>, k: nat, tid: int)
    requires forall j | 0 <= j < |body| :: !Contains(body[j], HORIZONTAL_LINE)
    ensures Rows([HORIZONTAL_LINE, "Thread " + Show(k, 10), title] + body, tid) == Rows(body, k)
  {
    var lines := [HORIZONTAL_LINE, "Thread " + Show(k, 10), title] + body;
    assert OccursAt(lines[0], HORIZONTAL_LINE, 0);
    HeaderTidShow(k, tid);
    assert lines[3..] == body;
  }

  // ---------------------------------------------------------------------
  // Reading a report into statistics objects
  // ---------------------------------------------------------------------

  /** Each hash has its own object, and every object's time vectors are in step. */
  ghost predicate Objects(m: map<UUID, ThreadBBLStats>)
    reads m.Values
  {
    Distinct(m) && AllValid(m)
  }

  /** Every object's sorted copy holds exactly its per-thread times. */
  ghost predicate AllValid(m: map<UUID, ThreadBBLStats>)
    reads m.Values
  {
    forall h | h in m :: m[h].Valid()
  }

  predicate Distinct(m: map<UUID, ThreadBBLStats>)
  {
    forall h, g | h in m && g in m && h != g :: m[h] != m[g]
  }

  /** A new object under a new hash keeps the objects distinct. */
  lemma DistinctAdd(m: map<UUID, ThreadBBLStats>, h: UUID, p: ThreadBBLStats)
    requires Distinct(m) && h !in m && p !in m.Values
    ensures Distinct(m[h := p])
  {
  }

  /** The values of the objects of a map. */
  function View(m: map<UUID, ThreadBBLStats>): (v: map<UUID, Run>)
    reads m.Values
    ensures v.Keys == m.Keys
  {
    map h | h in m :: m[h].Snapshot()
  }

  /**
   * `ParseStats`: folds the rows of a report into the map, merging into the
   * object of a known hash and creating one for a new hash. It fails (the
   * source's assertion, or an index below zero) on a row with a negative
   * elapsed time or a negative thread id.
   */
  method ParseStats(lines: seq<string>, statsmap: map<UUID, ThreadBBLStats>)
    returns (out: map<UUID, ThreadBBLStats>, ok: bool)
    requires Objects(statsmap)
    modifies statsmap.Values
    ensures ok <==> Fold(old(View(statsmap)), Rows(lines, 0)).Some?
    ensures ok ==> Objects(out) && View(out) == Fold(old(View(statsmap)), Rows(lines, 0)).value
    ensures forall o | o in out.Values :: o in statsmap.Values || fresh(o)
  {
    out := statsmap;
    ok := true;
    var tid := 0;
    var i := 0;
    ghost var v0 := View(statsmap);
    ghost var v := v0;
    while i < |lines|
      invariant 0 <= i <= |lines|
      invariant Objects(out) && View(out) == v
      invariant forall o | o in out.Values :: o in statsmap.Values || fresh(o)
      invariant Fold(v, Rows(lines[i..], tid)) == Fold(v0, Rows(lines, 0))
      decreases |lines| - i
    {
      out, tid, i, ok, v := ReadLine(lines, i, tid, out, v);
      if !ok {
        return;
      }
    }
    assert lines[i..] == [];
  }

  /**
   * One pass of the reading loop: a separator line with the header and
   * title lines after it, or one data row.
   */
  method ReadLine(lines: seq<string>, i: nat, tid: int, m: map<UUID, ThreadBBLStats>, ghost v: map<UUID, Run>)
    returns (out: map<UUID, ThreadBBLStats>, tid': int, i': nat, ok: bool, ghost v': map<UUID, Run>)
    requires i < |lines| && Objects(m) && View(m) == v
    modifies m.Values
    ensures i < i' <= |lines|
    ensures forall o | o in out.Values :: o in m.Values || fresh(o)
    ensures ok ==> Objects(out) && View(out) == v'
    ensures ok ==> Fold(v', Rows(lines[i'..], tid')) == Fold(v, Rows(lines[i..], tid))
    ensures !ok ==> Fold(v, Rows(lines[i..], tid)) == None
  {
    if Contains(lines[i], HORIZONTAL_LINE) {
      tid' := if i + 1 < |lines| then HeaderTid(lines[i + 1], tid) else tid;
      RowsAtSeparator(lines, i, tid);
      i' := i + Drop3(|lines| - i);
      out, ok, v' := m, true, v;
    } else {
      var s := ParseRow(lines[i]);
      RowsAtData(lines, i, tid);
      tid', i' := tid, i + 1;
      if s.elapsedTime < 0 || tid < 0 {
        out, ok, v' := m, false, v;
      } else {
        out := Insert(m, tid, s);
        ok, v' := true, Step(v, Row(tid, s));
      }
    }
  }

  /** At a separator line the rows continue after the header and title lines, in the header's thread. */
  lemma RowsAtSeparator(lines: seq<string>, i: nat, tid: int)
    requires i < |lines| && Contains(lines[i], HORIZONTAL_LINE)
    ensures Rows(lines[i..], tid)
      == Rows(lines[i + Drop3(|lines| - i)..], if i + 1 < |lines| then HeaderTid(lines[i + 1], tid) else tid)
  {
    var rest := lines[i..];
    assert |rest| > 1 ==> rest[1] == lines[i + 1];
    assert rest[Drop3(|rest|)..] == lines[i + Drop3(|lines| - i)..];
  }

  /** Any other line is a row of the current thread. */
  lemma RowsAtData(lines: seq<string>, i: nat, tid: int)
    requires i < |lines| && !Contains(lines[i], HORIZONTAL_LINE)
    ensures Rows(lines[i..], tid) == [Row(tid, ParseRow(lines[i]))] + Rows(lines[i + 1..], tid)
    ensures Rows(lines[i..], tid)[1..] == Rows(lines[i + 1..], tid)
  {
    assert lines[i..][1..] == lines[i + 1..];
  }

  /** One data row into the map of objects. */
  method Insert(m: map<UUID, ThreadBBLStats>, tid: nat, s: BBLStats) returns (out: map<UUID, ThreadBBLStats>)
    requires Objects(m)
    modifies if s.bblhash in m then {m[s.bblhash]} else {}
    ensures Objects(out) && View(out) == Step(old(View(m)), Row(tid, s))
    ensures forall o | o in out.Values :: o in m.Values || fresh(o)
  {
    if s.bblhash in m {
      MergeInto(m, tid, s);
      out := m;
    } else {
      out := AddNew(m, tid, s);
    }
  }

  /** A row of a known hash merges into that hash's object and no other. */
  method MergeInto(m: map<UUID, ThreadBBLStats>, tid: nat, s: BBLStats)
    requires Objects(m) && s.bblhash in m
    modifies m[s.bblhash]
    ensures Objects(m)
    ensures View(m) == old(View(m))[s.bblhash := m[s.bblhash].Snapshot()]
    ensures m[s.bblhash].Snapshot() == MergeRun(old(m[s.bblhash].Snapshot()), tid, s)
  {
    var h := s.bblhash;
    var o := m[h];
    ghost var rest := m - {h};
    ghost var vr := View(rest);
    ObjectsSplit(m, h);
    o.MergeStats(tid, s);
    assert View(rest) == vr && AllValid(rest);
    ObjectsAdd(rest, h, o);
    UpdateTwice(vr, h, old(o.Snapshot()), o.Snapshot());
  }

  lemma UpdateTwice<K, V>(v: map<K, V>, k: K, a: V, b: V)
    ensures v[k := a][k := b] == v[k := b]
  {
  }

  /** A row of a new hash gets a new object. */
  method AddNew(m: map<UUID, ThreadBBLStats>, tid: nat, s: BBLStats) returns (out: map<UUID, ThreadBBLStats>)
    requires Distinct(m) && s.bblhash !in m
    ensures s.bblhash in out && out == m[s.bblhash := out[s.bblhash]] && fresh(out[s.bblhash])
    ensures Distinct(out) && View(out) == old(View(m))[s.bblhash := out[s.bblhash].Snapshot()]
    ensures old(AllValid(m)) ==> AllValid(out)
    ensures out[s.bblhash].Snapshot() == NewRun(tid, s)
  {
    ghost var v0 := View(m);
    ghost var valid := AllValid(m);
    var p := new ThreadBBLStats(tid, s);
    assert View(m) == v0 && AllValid(m) == valid;
    out := m[s.bblhash := p];
    ObjectsAdd(m, s.bblhash, p);
  }

  /** Without one of its entries, a map still has distinct (and valid) objects, none of them the removed one. */
  lemma ObjectsSplit(m: map<UUID, ThreadBBLStats>, h: UUID)
    requires Distinct(m) && h in m
    ensures Distinct(m - {h}) && m[h] !in (m - {h}).Values && (m - {h})[h := m[h]] == m
    ensures AllValid(m) ==> AllValid(m - {h})
    ensures View(m) == View(m - {h})[h := m[h].Snapshot()]
  {
    assert (m - {h})[h := m[h]] == m;
    ObjectsAdd(m - {h}, h, m[h]);
  }

  /** An object not yet in the map, under a new hash: the objects stay distinct and the view gains its value. */
  lemma ObjectsAdd(m: map<UUID, ThreadBBLStats>, h: UUID, p: ThreadBBLStats)
    requires h !in m
    ensures Distinct(m) && p !in m.Values ==> Distinct(m[h := p])
    ensures AllValid(m) && p.Valid() ==> AllValid(m[h := p])
    ensures View(m[h := p]) == View(m)[h := p.Snapshot()]
  {
  }

  // ---------------------------------------------------------------------
  // Listing in hash order and aligning PIM with CPU
  // ---------------------------------------------------------------------

  /** Index k of s is the object m files under order[k]. */
  predicate Listed(m: map<UUID, ThreadBBLStats>, s: seq<ThreadBBLStats>, order: seq<UUID>)
  {
    |s| == |order| && forall k | 0 <= k < |order| :: order[k] in m && s[k] == m[order[k]]
  }

  /** Both maps hold distinct objects filed under their own hashes, and share none. */
  ghost predicate Loaded(cpu: map<UUID, ThreadBBLStats>, pim: map<UUID, ThreadBBLStats>)
    reads cpu.Values, pim.Values
  {
    Apart(cpu, pim, View(cpu), View(pim))
  }

  /** Loaded, given the values of the objects. */
  predicate Apart(cpu: map<UUID, ThreadBBLStats>, pim: map<UUID, ThreadBBLStats>, cv: map<UUID, Run>, pv: map<UUID, Run>)
  {
    Distinct(cpu) && Distinct(pim) && RunsKeyed(cv) && RunsKeyed(pv) && cpu.Values !! pim.Values
  }

  /**
   * `SortStatsMap` for statistics objects: every object of the map once,
   * in ascending hash order (keys names the hashes in that order).
   */
  method SortThreadStatsMap(statsmap: map<UUID, ThreadBBLStats>) returns (sorted: seq<ThreadBBLStats>, keys: seq<UUID>)
    requires RunsKeyed(View(statsmap))
    ensures Listed(statsmap, sorted, keys) && |keys| == |statsmap| && UuidsAscending(keys)
    ensures forall h :: h in keys <==> h in statsmap
    ensures forall k | 0 <= k < |sorted| :: sorted[k].base.bblhash == keys[k]
  {
    keys := SortedHashes(statsmap.Keys);
    sorted := seq(|keys|, k requires 0 <= k < |keys| => statsmap[keys[k]]);
    forall k | 0 <= k < |sorted| ensures sorted[k].base.bblhash == keys[k] {
      assert View(statsmap)[keys[k]] == sorted[k].Snapshot();
    }
  }

  /**
   * The PIM entries after alignment: each hash of `order` takes the CPU
   * entry's block id, or, when PIM never reported it, a placeholder run
   * by thread 0 with zero counters; other PIM entries are as they were.
   */
  function AlignOn(cpu: map<UUID, Run>, pim: map<UUID, Run>, order: set<UUID>): (r: map<UUID, Run>)
    requires order <= cpu.Keys
    ensures r.Keys == pim.Keys + order
  {
    map h | h in pim.Keys + order ::
      if h !in order then pim[h]
      else if h in pim then pim[h].(base := pim[h].base.(bblid := cpu[h].base.bblid))
      else NewRun(0, NewBBLStats(cpu[h].base.bblid, h))
  }

  /** The hashes of the first k entries of a list. */
  function FirstKeys(keys: seq<UUID>, k: nat): set<UUID>
    requires k <= |keys|
  {
    set i | 0 <= i < k :: keys[i]
  }

  /** Each listed hash has the same block id on both sides. */
  predicate SameIds(cpu: map<UUID, Run>, pim: map<UUID, Run>, order: seq<UUID>)
  {
    forall k | 0 <= k < |order| ::
      order[k] in cpu && order[k] in pim && pim[order[k]].base.bblid == cpu[order[k]].base.bblid
  }

  /** AlignOn with one more listed hash. */
  lemma AlignOnStep(cpu: map<UUID, Run>, pim: map<UUID, Run>, order: set<UUID>, h: UUID)
    requires order <= cpu.Keys && h in cpu
    ensures AlignOn(cpu, pim, order + {h}) == AlignOn(cpu, pim, order)[h :=
      if h in pim then pim[h].(base := pim[h].base.(bblid := cpu[h].base.bblid))
      else NewRun(0, NewBBLStats(cpu[h].base.bblid, h))]
  {
  }

  /**
   * After alignment every listed hash has a PIM entry with the CPU block
   * id and the same hash; a PIM entry that was missing is a thread-0
   * placeholder with zero counters, and an entry PIM reported keeps its
   * counters and times.
   */
  lemma AlignOnMatches(cpu: map<UUID, Run>, pim: map<UUID, Run>, order: seq<UUID>)
    requires forall k | 0 <= k < |order| :: order[k] in cpu
    requires RunsKeyed(cpu) && RunsKeyed(pim)
    ensures SameIds(cpu, AlignOn(cpu, pim, FirstKeys(order, |order|)), order)
    ensures RunsKeyed(AlignOn(cpu, pim, FirstKeys(order, |order|)))
    ensures forall k | 0 <= k < |order| ::
      var r := AlignOn(cpu, pim, FirstKeys(order, |order|))[order[k]];
      r.base.bblhash == cpu[order[k]].base.bblhash
      && (order[k] in pim ==> r == pim[order[k]].(base := r.base) && r.base == pim[order[k]].base.(bblid := r.base.bblid))
      && (order[k] !in pim ==> r.base.elapsedTime == r.base.instructionCount == r.base.memoryAccess == 0
                               && r.parallelism == 0 && r.threadTimes == [0])
  {
    var r := AlignOn(cpu, pim, FirstKeys(order, |order|));
    forall k | 0 <= k < |order|
      ensures order[k] in r && r[order[k]].base.bblid == cpu[order[k]].base.bblid
    {
      assert order[k] in FirstKeys(order, |order|);
    }
  }

  /** Block h of a map of objects takes block id `id`; nothing else changes. */
  method SetBblid(m: map<UUID, ThreadBBLStats>, h: UUID, id: int)
    requires Distinct(m) && h in m
    modifies m[h]
    ensures View(m) == old(View(m))[h := old(View(m))[h].(base := old(View(m))[h].base.(bblid := id))]
  {
    var o := m[h];
    ghost var rest := m - {h};
    ghost var vr := View(rest);
    ObjectsSplit(m, h);
    o.SetBblid(id);
    assert View(rest) == vr;
    ObjectsAdd(rest, h, o);
    UpdateTwice(vr, h, old(o.Snapshot()), o.Snapshot());
  }

  /**
   * The alignment loop of `getBBLSortedStats`: for each CPU block in list
   * order (hash keys[k], block id ids[k]), the PIM object of that hash
   * takes the CPU block id and is listed, or a placeholder with zero
   * counters is created, filed and listed.
   */
  method AlignPim(keys: seq<UUID>, ids: seq<int>, pim: map<UUID, ThreadBBLStats>, ghost cv: map<UUID, Run>,
                  ghost avoid: set<ThreadBBLStats>)
    returns (out: map<UUID, ThreadBBLStats>, ps: seq<ThreadBBLStats>)
    requires |ids| == |keys| && forall i | 0 <= i < |keys| :: keys[i] in cv && ids[i] == cv[keys[i]].base.bblid
    requires UuidsAscending(keys) && Distinct(pim)
    modifies pim.Values
    ensures AlignedUpTo(out, ps, keys, |keys|, cv, old(View(pim)))
    ensures forall g | g in pim :: g in out && out[g] == pim[g]
    ensures forall g | g in out && g !in pim :: out[g] !in avoid
  {
    ghost var pv := View(pim);
    out, ps := pim, [];
    var k := 0;
    FirstKeysIn(keys, 0, cv);
    AlignOnNone(cv, pv, FirstKeys(keys, 0));
    while k < |keys|
      invariant k <= |keys| && AlignedUpTo(out, ps, keys, k, cv, pv)
      invariant forall g | g in pim :: g in out && out[g] == pim[g]
      invariant forall g | g in out && g !in pim :: out[g] !in avoid
    {
      assert keys[k] !in FirstKeys(keys, k);
      out, ps := AlignOne(keys, k, ids[k], out, ps, cv, pv, avoid);
      k := k + 1;
    }
  }

  /**
   * The alignment loop after k passes: the first k CPU hashes are aligned
   * and listed.
   */
  ghost predicate AlignedUpTo(m: map<UUID, ThreadBBLStats>, ps: seq<ThreadBBLStats>, keys: seq<UUID>, k: nat,
                              cv: map<UUID, Run>, pv: map<UUID, Run>)
    reads m.Values
  {
    k <= |keys| && FirstKeys(keys, k) <= cv.Keys
    && Distinct(m) && View(m) == AlignOn(cv, pv, FirstKeys(keys, k))
    && |ps| == k && forall i | 0 <= i < k :: keys[i] in m && ps[i] == m[keys[i]]
  }

  lemma FirstKeysNext(keys: seq<UUID>, k: nat)
    requires k < |keys|
    ensures FirstKeys(keys, k + 1) == FirstKeys(keys, k) + {keys[k]}
  {
  }

  lemma AlignOnNone(cpu: map<UUID, Run>, pim: map<UUID, Run>, order: set<UUID>)
    requires order == {}
    ensures AlignOn(cpu, pim, order) == pim
  {
  }

  lemma FirstKeysIn<V>(keys: seq<UUID>, k: nat, m: map<UUID, V>)
    requires k <= |keys| && forall i | 0 <= i < |keys| :: keys[i] in m
    ensures FirstKeys(keys, k) <= m.Keys
  {
  }

  /** One more pass of the alignment, for a hash not listed before, as an update of the map so far. */
  lemma AlignOnNext(cv: map<UUID, Run>, pv: map<UUID, Run>, keys: seq<UUID>, k: nat)
    requires k < |keys| && (forall i | 0 <= i < |keys| :: keys[i] in cv) && keys[k] !in FirstKeys(keys, k)
    ensures FirstKeys(keys, k) <= cv.Keys && FirstKeys(keys, k + 1) <= cv.Keys
    ensures var a := AlignOn(cv, pv, FirstKeys(keys, k)); var h := keys[k];
      AlignOn(cv, pv, FirstKeys(keys, k + 1)) == a[h :=
        if h in a then a[h].(base := a[h].base.(bblid := cv[h].base.bblid))
        else NewRun(0, NewBBLStats(cv[h].base.bblid, h))]
  {
    FirstKeysIn(keys, k, cv);
    FirstKeysIn(keys, k + 1, cv);
    FirstKeysNext(keys, k);
    AlignOnStep(cv, pv, FirstKeys(keys, k), keys[k]);
  }

  /** One pass of the alignment loop: CPU entry k, whose block id is `id`. */
  method AlignOne(keys: seq<UUID>, k: nat, id: int, m: map<UUID, ThreadBBLStats>, ps: seq<ThreadBBLStats>,
                  ghost cv: map<UUID, Run>, ghost pv: map<UUID, Run>, ghost avoid: set<ThreadBBLStats>)
    returns (out: map<UUID, ThreadBBLStats>, ps': seq<ThreadBBLStats>)
    requires k < |keys| && (forall i | 0 <= i < |keys| :: keys[i] in cv) && id == cv[keys[k]].base.bblid
    requires keys[k] !in FirstKeys(keys, k)
    requires AlignedUpTo(m, ps, keys, k, cv, pv)
    modifies if keys[k] in m then {m[keys[k]]} else {}
    ensures AlignedUpTo(out, ps', keys, k + 1, cv, pv)
    ensures forall g | g in m :: g in out && out[g] == m[g]
    ensures forall g | g in out && g !in m :: out[g] !in avoid
  {
    AlignOnNext(cv, pv, keys, k);
    if keys[k] in m {
      ps' := AlignKnown(keys, k, id, m, ps, cv, pv);
      out := m;
    } else {
      out, ps' := AlignMissing(keys, k, id, m, ps, cv, pv);
    }
  }

  /** The PIM object of the hash takes the CPU block id and is listed. */
  method AlignKnown(keys: seq<UUID>, k: nat, id: int, m: map<UUID, ThreadBBLStats>, ps: seq<ThreadBBLStats>,
                    ghost cv: map<UUID, Run>, ghost pv: map<UUID, Run>)
    returns (ps': seq<ThreadBBLStats>)
    requires k < |keys| && keys[k] in m && keys[k] in cv && id == cv[keys[k]].base.bblid
    requires FirstKeys(keys, k + 1) <= cv.Keys && AlignedUpTo(m, ps, keys, k, cv, pv)
    requires var a := AlignOn(cv, pv, FirstKeys(keys, k)); var h := keys[k];
      AlignOn(cv, pv, FirstKeys(keys, k + 1)) == a[h := a[h].(base := a[h].base.(bblid := id))]
    modifies m[keys[k]]
    ensures AlignedUpTo(m, ps', keys, k + 1, cv, pv)
  {
    var h := keys[k];
    ps' := ps + [m[h]];
    SetBblid(m, h, id);
  }

  /** A placeholder with zero counters is created, filed under the hash and listed. */
  method AlignMissing(keys: seq<UUID>, k: nat, id: int, m: map<UUID, ThreadBBLStats>, ps: seq<ThreadBBLStats>,
                      ghost cv: map<UUID, Run>, ghost pv: map<UUID, Run>)
    returns (out: map<UUID, ThreadBBLStats>, ps': seq<ThreadBBLStats>)
    requires k < |keys| && keys[k] !in m
    requires FirstKeys(keys, k + 1) <= cv.Keys && AlignedUpTo(m, ps, keys, k, cv, pv)
    requires AlignOn(cv, pv, FirstKeys(keys, k + 1))
      == AlignOn(cv, pv, FirstKeys(keys, k))[keys[k] := NewRun(0, NewBBLStats(id, keys[k]))]
    ensures AlignedUpTo(out, ps', keys, k + 1, cv, pv)
    ensures keys[k] in out && out == m[keys[k] := out[keys[k]]] && fresh(out[keys[k]])
  {
    var h := keys[k];
    ghost var a := View(m);
    out := AddNew(m, 0, NewBBLStats(id, h));
    ps' := ps + [out[h]];
    assert View(out) == a[h := NewRun(0, NewBBLStats(id, h))];
  }

  /**
   * The work of `getBBLSortedStats` on a first call: the CPU map listed in
   * hash order, and the PIM map aligned with that list.
   */
  method SortAndAlign(cm: map<UUID, ThreadBBLStats>, pim: map<UUID, ThreadBBLStats>)
    returns (cs: seq<ThreadBBLStats>, keys: seq<UUID>, pm: map<UUID, ThreadBBLStats>, ps: seq<ThreadBBLStats>)
    requires Loaded(cm, pim)
    modifies pim.Values
    ensures Loaded(cm, pm) && View(cm) == old(View(cm))
    ensures Listed(cm, cs, keys) && Listed(pm, ps, keys) && UuidsAscending(keys)
    ensures forall h :: h in keys <==> h in cm
    ensures SameIds(View(cm), View(pm), keys)
    ensures View(pm) == AlignOn(old(View(cm)), old(View(pim)), cm.Keys)
    ensures forall g | g in pim :: g in pm && pm[g] == pim[g]
  {
    ghost var cv, pv := View(cm), View(pim);
    cs, keys := SortThreadStatsMap(cm);
    var ids := BlockIds(cm, cs, keys);
    Unchanged(cm);
    Unchanged(pim);
    pm, ps := AlignPim(keys, ids, pim, cv, cm.Values);
    Unchanged(cm);
    AlignOnMatches(cv, pv, keys);
    KeysAll(keys, cm);
    DisjointAfter(cm, pim, pm);
  }

  /** The block ids of the listed CPU objects. */
  method BlockIds(cm: map<UUID, ThreadBBLStats>, cs: seq<ThreadBBLStats>, keys: seq<UUID>) returns (ids: seq<int>)
    requires Listed(cm, cs, keys)
    ensures |ids| == |keys| && forall i | 0 <= i < |keys| :: keys[i] in View(cm) && ids[i] == View(cm)[keys[i]].base.bblid
  {
    ids := seq(|cs|, i requires 0 <= i < |cs| reads cs => cs[i].base.bblid);
  }

  lemma KeysAll<V>(keys: seq<UUID>, m: map<UUID, V>)
    requires forall h :: h in keys <==> h in m
    ensures FirstKeys(keys, |keys|) == m.Keys
  {
  }

  /** Placeholders that are not CPU objects keep the PIM objects apart from the CPU ones. */
  lemma DisjointAfter(cm: map<UUID, ThreadBBLStats>, pim: map<UUID, ThreadBBLStats>, pm: map<UUID, ThreadBBLStats>)
    requires cm.Values !! pim.Values
    requires forall g | g in pim :: g in pm && pm[g] == pim[g]
    requires forall g | g in pm && g !in pim :: pm[g] !in cm.Values
    ensures cm.Values !! pm.Values
  {
  }

  /** Objects nobody wrote to keep their values. */
  twostate lemma Unchanged(m: map<UUID, ThreadBBLStats>)
    requires unchanged(m.Values)
    ensures View(m) == old(View(m)) && (old(AllValid(m)) ==> AllValid(m))
  {
  }

  /**
   * The solver's invariant over its maps, the values of their objects
   * (cv, pv), its lists and its flag: the maps are loaded, and the lists
   * are empty while dirty and aligned once built.
   */
  ghost predicate SolverInv(cpu: map<UUID, ThreadBBLStats>, pim: map<UUID, ThreadBBLStats>, cv: map<UUID, Run>, pv: map<UUID, Run>,
                            sc: seq<ThreadBBLStats>, sp: seq<ThreadBBLStats>, dirty: bool, order: seq<UUID>)
  {
    Apart(cpu, pim, cv, pv)
    && (dirty ==> sp == [])
    && (!dirty ==> Aligned(cpu, pim, cv, pv, sc, sp, order))
  }

  /**
   * Index k of both lists is block order[k]; the listed blocks are those
   * of the CPU map in ascending hash order, and both entries of a block
   * carry the same block id.
   */
  ghost predicate Aligned(cpu: map<UUID, ThreadBBLStats>, pim: map<UUID, ThreadBBLStats>, cv: map<UUID, Run>, pv: map<UUID, Run>,
                          sc: seq<ThreadBBLStats>, sp: seq<ThreadBBLStats>, order: seq<UUID>)
  {
    UuidsAscending(order) && (forall h :: h in order <==> h in cpu)
    && Listed(cpu, sc, order) && Listed(pim, sp, order)
    && SameIds(cv, pv, order)
  }

  /**
   * The solver's statistics: the CPU and PIM maps read from the two
   * reports and, once listed, both lists aligned block by block; `order`
   * names the listed hashes.
   */
  class Solver {
    var cpuStats: map<UUID, ThreadBBLStats>
    var pimStats: map<UUID, ThreadBBLStats>
    var sortedCpu: seq<ThreadBBLStats>
    var sortedPim: seq<ThreadBBLStats>
    /** Whether the lists are still to be built. */
    var dirty: bool
    ghost var order: seq<UUID>

    ghost predicate Valid()
      reads this, cpuStats.Values, pimStats.Values
    {
      SolverInv(cpuStats, pimStats, View(cpuStats), View(pimStats), sortedCpu, sortedPim, dirty, order)
    }

    constructor (cpu: map<UUID, ThreadBBLStats>, pim: map<UUID, ThreadBBLStats>)
      requires Loaded(cpu, pim)
      ensures Valid() && dirty && cpuStats == cpu && pimStats == pim
    {
      cpuStats, pimStats := cpu, pim;
      sortedCpu, sortedPim := [], [];
      dirty := true;
      order := [];
    }

    /**
     * `getBBLSortedStats`: on the first call, lists the CPU map in hash
     * order and, block by block, lists the PIM entry of the same hash after
     * giving it the CPU block id, or a new placeholder when PIM has none.
     * The CPU side is left as it was.
     */
    method GetBBLSortedStats() returns (cpu: seq<ThreadBBLStats>, pim: seq<ThreadBBLStats>)
      requires Valid()
      modifies this, pimStats.Values
      ensures Valid() && !dirty && cpu == sortedCpu && pim == sortedPim
      ensures cpuStats == old(cpuStats) && View(cpuStats) == old(View(cpuStats))
      ensures View(pimStats) ==
        if old(dirty) then AlignOn(old(View(cpuStats)), old(View(pimStats)), cpuStats.Keys) else old(View(pimStats))
      ensures forall g | g in old(pimStats) :: g in pimStats && pimStats[g] == old(pimStats)[g]
    {
      if dirty {
        var cs, keys, pm, ps := SortAndAlign(cpuStats, pimStats);
        Install(cs, keys, pm, ps);
      }
      cpu, pim := sortedCpu, sortedPim;
    }

    /** The lists built, and the aligned PIM map, become the solver's. */
    method Install(cs: seq<ThreadBBLStats>, keys: seq<UUID>, pm: map<UUID, ThreadBBLStats>, ps: seq<ThreadBBLStats>)
      requires SolverInv(cpuStats, pm, View(cpuStats), View(pm), cs, ps, false, keys)
      modifies this
      ensures Valid() && !dirty && sortedCpu == cs && sortedPim == ps && pimStats == pm
      ensures cpuStats == old(cpuStats) && View(cpuStats) == old(View(cpuStats)) && View(pm) == old(View(pm))
    {
      pimStats, sortedCpu, sortedPim, order, dirty := pm, cs, ps, keys, false;
      Unchanged(cpuStats);
      Unchanged(pm);
    }
  }

  /**
   * `initialize`: the CPU report and the PIM report are each read into an
   * empty map, and the solver starts with its lists still to be built. A
   * report the source's assertion rejects yields no solver.
   */
  method Initialize(cpuLines: seq<string>, pimLines: seq<string>) returns (s: Solver?)
    ensures s != null <==> Fold(map[], Rows(cpuLines, 0)).Some? && Fold(map[], Rows(pimLines, 0)).Some?
    ensures s != null ==> fresh(s) && s.Valid() && s.dirty && AllValid(s.cpuStats) && AllValid(s.pimStats)
    ensures s != null ==> View(s.cpuStats) == Fold(map[], Rows(cpuLines, 0)).value
                          && View(s.pimStats) == Fold(map[], Rows(pimLines, 0)).value
  {
    var cpu, okCpu := ReadReport(cpuLines, map[]);
    var pim, okPim := ReadReport(pimLines, cpu);
    if !okCpu || !okPim {
      return null;
    }
    label read:
    s := new Solver(cpu, pim);
    Unchanged@read(cpu);
    Unchanged@read(pim);
  }

  /** One report read into a new map, whose objects are all new and so none of `other`'s. */
  method ReadReport(lines: seq<string>, other: map<UUID, ThreadBBLStats>) returns (out: map<UUID, ThreadBBLStats>, ok: bool)
    ensures ok <==> Fold(map[], Rows(lines, 0)).Some?
    ensures ok ==> Objects(out) && RunsKeyed(View(out)) && View(out) == Fold(map[], Rows(lines, 0)).value
    ensures ok ==> other.Values !! out.Values
    ensures forall o | o in out.Values :: fresh(o)
  {
    out, ok := ParseStats(lines, map[]);
    if ok {
      FoldKeyed(map[], Rows(lines, 0));
    }
  }
}
