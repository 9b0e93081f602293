/**
 * The CSV script: for every regular file of a directory of solver reports,
 * in name order, it copies fixed tokens of the report's first six lines
 * into five rows of a table (CPU-only, PIM-only, MPKI, Greedy and the
 * reuse-aware optimum), under a header row, and writes the table to
 * `decision.csv` in the same directory.
 *
 * A directory is its listing (`os.listdir`, in the order the system gives
 * it) of names and entries; a file is its lines. A CSV cell is
 * `Option<string>`: `None` is Python's `None`, written as an empty field.
 * An `IndexError` stops the run: the rows of the files already done stay
 * in the table.
 */
module CsvDecision {
  import opened Common
  import opened Text

  /** A directory entry: a regular file with its lines, or anything else. */
  datatype Entry = File(lines: seq<string>) | Other

  /** `os.listdir`: names and entries, in the listing's order. */
  type Listing = seq<(string, Entry)>

  type Row = seq<Option<string>>

  /** The table's file name. */
  const OUTPUT: string := "decision.csv"

  const HEADER: Row := [None, None, Some("CPU"), Some("PIM"), Some("Reuse"), Some("Switch")]

  // ---------------------------------------------------------------------
  // Names, in order
  // ---------------------------------------------------------------------

  /** Python's `<` on strings: code point by code point, a proper prefix first. */
  predicate StrLe(a: string, b: string)
    decreases |a|
  {
    a == [] || (b != [] && (a[0] < b[0] || (a[0] == b[0] && StrLe(a[1..], b[1..]))))
  }

  lemma StrLeTotal(a: string, b: string)
    ensures StrLe(a, b) || StrLe(b, a)
    decreases |a|
  {
    if a != [] && b != [] && a[0] == b[0] {
      StrLeTotal(a[1..], b[1..]);
    }
  }

  lemma StrLeTrans(a: string, b: string, c: string)
    requires StrLe(a, b) && StrLe(b, c)
    ensures StrLe(a, c)
    decreases |a|
  {
    if a != [] && b != [] && c != [] && a[0] == b[0] == c[0] {
      StrLeTrans(a[1..], b[1..], c[1..]);
    }
  }

  predicate Sorted(s: seq<string>)
  {
    forall i, j | 0 <= i < j < |s| :: StrLe(s[i], s[j])
  }

  /** x placed before the first name it does not follow. */
  function Insert(x: string, s: seq<string>): (r: seq<string>)
    requires Sorted(s)
    ensures Sorted(r) && multiset(r) == multiset(s) + multiset{x}
  {
    if s == [] then [x]
    else if StrLe(x, s[0]) then
      assert forall j | 0 < j < |s| :: StrLe(x, s[j]) by {
        forall j | 0 < j < |s| ensures StrLe(x, s[j]) { StrLeTrans(x, s[0], s[j]); }
      }
      [x] + s
    else
      var t := Insert(x, s[1..]);
      assert multiset(s) == multiset{s[0]} + multiset(s[1..]) by { assert s == [s[0]] + s[1..]; }
      assert forall j | 0 <= j < |t| :: StrLe(s[0], t[j]) by {
        forall j | 0 <= j < |t| ensures StrLe(s[0], t[j]) {
          assert t[j] in multiset(t);
          if t[j] == x { StrLeTotal(x, s[0]); } else { assert t[j] in s[1..]; }
        }
      }
      [s[0]] + t
  }

  /** `list.sort()`: the names in ascending order. */
  function Sort(s: seq<string>): (r: seq<string>)
    ensures Sorted(r) && multiset(r) == multiset(s)
  {
    if s == [] then []
    else
      assert s == [s[0]] + s[1..];
      Insert(s[0], Sort(s[1..]))
  }

  /** The names of the regular files, in listing order (`isfile`). */
  function FileNames(dir: Listing): (r: seq<string>)
    ensures forall n :: n in r <==> exists i | 0 <= i < |dir| :: dir[i].0 == n && dir[i].1.File?
  {
    if dir == [] then []
    else
      assert forall i | 0 < i < |dir| :: dir[i] == dir[1..][i - 1];
      (if dir[0].1.File? then [dir[0].0] else []) + FileNames(dir[1..])
  }

  /** The names other than x. */
  function Remove(s: seq<string>, x: string): (r: seq<string>)
    ensures forall n :: n in r <==> n in s && n != x
    ensures x !in s ==> r == s
  {
    if s == [] then []
    else (if s[0] == x then [] else [s[0]]) + Remove(s[1..], x)
  }

  /** The files the table is made of: every regular file but the table itself, in name order. */
  function CostFiles(dir: Listing): (r: seq<string>)
    ensures Sorted(r) && multiset(r) == multiset(Remove(FileNames(dir), OUTPUT))
    ensures OUTPUT !in r
  {
    var r := Sort(Remove(FileNames(dir), OUTPUT));
    assert OUTPUT !in multiset(r);
    r
  }

  /** The files as the script lists them: every regular file, the table of an earlier run included. */
  function CostFilesAsWritten(dir: Listing): (r: seq<string>)
    ensures Sorted(r) && multiset(r) == multiset(FileNames(dir))
  {
    Sort(FileNames(dir))
  }

  // ---------------------------------------------------------------------
  // One report
  // ---------------------------------------------------------------------

  /** The lines of the named file (the first entry of that name). */
  function Content(dir: Listing, name: string): seq<string>
  {
    if dir == [] then []
    else if dir[0].0 == name && dir[0].1.File? then dir[0].1.lines
    else Content(dir[1..], name)
  }

  /** Line k of a file, counting from 0; `readline()` past the end reads "". */
  function Line(lines: seq<string>, k: nat): (l: string)
    ensures k >= |lines| ==> l == ""
  {
    if k < |lines| then lines[k] else ""
  }

  /** `name[:-4]`: the name without its four-character extension. */
  function Workload(name: string): (w: string)
    ensures |name| >= 4 ==> name == w + name[|name| - 4..]
    ensures |name| < 4 ==> w == ""
  {
    if |name| >= 4 then name[..|name| - 4] else ""
  }

  /** The five rows before any field is filled. */
  function Template(name: string): (r: seq<Row>)
    ensures |r| == 5 && forall k | 0 <= k < 5 :: |r[k]| == 6
    ensures r[0][0] == Some(Workload(name)) && forall k | 1 <= k < 5 :: r[k][0].None?
    ensures forall k, c | 0 <= k < 5 && 2 <= c < 6 :: r[k][1].Some? && r[k][c].None?
  {
    [[Some(Workload(name)), Some("CPU-only"), None, None, None, None],
     [None, Some("PIM-only"), None, None, None, None],
     [None, Some("MPKI"), None, None, None, None],
     [None, Some("Greedy"), None, None, None, None],
     [None, Some("Opt"), None, None, None, None]]
  }

  /** A summary line: tokens 7, 10, 13 and 16 are the CPU, PIM, Reuse and Switch figures. */
  function Summary(title: string, t: seq<string>): (r: Row)
    requires |t| > 16
    ensures |r| == 6 && r[0].None? && r[1] == Some(title)
    ensures forall c | 2 <= c < 6 :: r[c] == Some(t[3 * c + 1])
  {
    [None, Some(title), Some(t[7]), Some(t[10]), Some(t[13]), Some(t[16])]
  }

  /** The blank-separated tokens of the first six lines (`readline().split()`). */
  function TokenLines(lines: seq<string>): (ts: seq<seq<string>>)
    ensures |ts| == 6 && forall k | 0 <= k < 6 :: ts[k] == Tokens(Line(lines, k))
  {
    seq(6, k requires 0 <= k < 6 => Tokens(Line(lines, k)))
  }

  /**
   * The rows of one report from its tokenized lines: token 4 of the first
   * line is the CPU-only time, token 4 of the second the PIM-only time,
   * the third line is skipped, and the fourth to sixth lines are the MPKI,
   * Greedy and reuse-aware summaries. `None` when a token is missing.
   */
  function RowsOf(name: string, ts: seq<seq<string>>): (r: Option<seq<Row>>)
    requires |ts| == 6
    ensures r.Some? <==> |ts[0]| > 4 && |ts[1]| > 4 && |ts[3]| > 16 && |ts[4]| > 16 && |ts[5]| > 16
    ensures r.Some? ==> |r.value| == 5
  {
    if |ts[0]| <= 4 || |ts[1]| <= 4 || |ts[3]| <= 16 || |ts[4]| <= 16 || |ts[5]| <= 16 then None
    else
      Some([[Some(Workload(name)), Some("CPU-only"), Some(ts[0][4]), None, None, None],
            [None, Some("PIM-only"), None, Some(ts[1][4]), None, None],
            Summary("MPKI", ts[3]), Summary("Greedy", ts[4]), Summary("Opt", ts[5])])
  }

  /** The rows of one report. */
  function FileRows(name: string, lines: seq<string>): (r: Option<seq<Row>>)
    ensures r.Some? ==> |lines| >= 6 && |r.value| == 5
  {
    var ts := TokenLines(lines);
    var r := RowsOf(name, ts);
    assert r.Some? ==> ts[5] != [];
    r
  }

  /** Five rows of six cells, labelled as the template; the workload name only on the first. */
  lemma FileRowsShape(name: string, lines: seq<string>)
    requires FileRows(name, lines).Some?
    ensures var r := FileRows(name, lines).value;
      |r| == 5 && (forall k | 0 <= k < 5 :: |r[k]| == 6 && r[k][0] == (if k == 0 then Some(Workload(name)) else None))
      && r[0][1] == Some("CPU-only") && r[1][1] == Some("PIM-only") && r[2][1] == Some("MPKI")
      && r[3][1] == Some("Greedy") && r[4][1] == Some("Opt")
  {
  }

  /** The third line plays no part. */
  lemma Line3Ignored(name: string, lines: seq<string>, other: string)
    requires |lines| > 2
    ensures FileRows(name, lines[2 := other]) == FileRows(name, lines)
  {
    var l := lines[2 := other];
    assert forall k | k != 2 :: Line(l, k) == Line(lines, k);
    assert TokenLines(l)[2 := []] == TokenLines(lines)[2 := []];
  }

  /** Lines after the sixth play no part. */
  lemma TrailingLinesIgnored(name: string, lines: seq<string>, more: seq<string>)
    requires |lines| >= 6
    ensures FileRows(name, lines + more) == FileRows(name, lines)
  {
    assert forall k | k < 6 :: Line(lines + more, k) == Line(lines, k);
    assert TokenLines(lines + more) == TokenLines(lines);
  }

  /** Filling the four figures of one summary row. */
  method FillSummary(rows: seq<Row>, k: nat, line: seq<string>) returns (r: seq<Row>)
    requires k < |rows| && |rows[k]| == 6 && |line| > 16
    ensures r == rows[k := rows[k][..2] + [Some(line[7]), Some(line[10]), Some(line[13]), Some(line[16])]]
  {
    var row := rows[k];
    row := row[2 := Some(line[7])];
    row := row[3 := Some(line[10])];
    row := row[4 := Some(line[13])];
    row := row[5 := Some(line[16])];
    assert row == rows[k][..2] + [Some(line[7]), Some(line[10]), Some(line[13]), Some(line[16])];
    r := rows[k := row];
  }

  /** One report's rows, filled cell by cell as its lines are read. */
  method ProcessFile(name: string, lines: seq<string>) returns (rows: seq<Row>, ok: bool)
    ensures ok <==> FileRows(name, lines).Some?
    ensures ok ==> rows == FileRows(name, lines).value
  {
    rows := Template(name);
    var line := Tokens(Line(lines, 0));
    if |line| <= 4 {
      return rows, false;
    }
    rows := rows[0 := rows[0][2 := Some(line[4])]];
    line := Tokens(Line(lines, 1));
    if |line| <= 4 {
      return rows, false;
    }
    rows := rows[1 := rows[1][3 := Some(line[4])]];
    line := Tokens(Line(lines, 3));
    if |line| <= 16 {
      return rows, false;
    }
    rows := FillSummary(rows, 2, line);
    line := Tokens(Line(lines, 4));
    if |line| <= 16 {
      return rows, false;
    }
    rows := FillSummary(rows, 3, line);
    line := Tokens(Line(lines, 5));
    if |line| <= 16 {
      return rows, false;
    }
    rows := FillSummary(rows, 4, line);
    ok := true;
    ghost var ts := TokenLines(lines);
    assert rows[0] == [Some(Workload(name)), Some("CPU-only"), Some(ts[0][4]), None, None, None];
    assert rows[1] == [None, Some("PIM-only"), None, Some(ts[1][4]), None, None];
    assert rows[2] == Summary("MPKI", ts[3]);
    assert rows[3] == Summary("Greedy", ts[4]);
    assert rows[4] == Summary("Opt", ts[5]);
    assert rows == RowsOf(name, ts).value;
  }

  // ---------------------------------------------------------------------
  // The table
  // ---------------------------------------------------------------------

  /** A row as `csv.writer` writes it: the cells joined by commas, `None` empty. */
  function RenderRow(row: Row): (r: string)
    ensures |r| + 1 >= |row|
    ensures row != [] && row[0].Some? ==> |r| >= |row[0].value| && r[..|row[0].value|] == row[0].value
    ensures (forall k | 0 <= k < |row| :: row[k].None?) ==> |r| + 1 == |row| || (row == [] && r == "")
  {
    if row == [] then ""
    else if |row| == 1 then (if row[0].Some? then row[0].value else "")
    else (if row[0].Some? then row[0].value else "") + "," + RenderRow(row[1..])
  }

  /** The lines of the table written so far. */
  function Render(rows: seq<Row>): (r: seq<string>)
    ensures |r| == |rows| && forall k | 0 <= k < |rows| :: r[k] == RenderRow(rows[k])
  {
    seq(|rows|, k requires 0 <= k < |rows| => RenderRow(rows[k]))
  }

  /** What opening a listed file reads: the table itself holds what has been written to it in this run. */
  function Read(dir: Listing, name: string, written: seq<Row>): seq<string>
  {
    if name == OUTPUT then Render(written) else Content(dir, name)
  }

  /** The run over the given files after the rows already written: the final table, and whether it finished. */
  function Run(dir: Listing, names: seq<string>, written: seq<Row>): (r: (seq<Row>, bool))
    decreases |names|
  {
    if names == [] then (written, true)
    else
      match FileRows(names[0], Read(dir, names[0], written))
      case None => (written, false)
      case Some(rows) => Run(dir, names[1..], written + rows)
  }

  /** `main(mypath)` as written: the table of an earlier run is among the files read. */
  function MakeTableAsWritten(dir: Listing): (r: (seq<Row>, bool))
  {
    Run(dir, CostFilesAsWritten(dir), [HEADER])
  }

  /** `main(mypath)`, with the table itself left out of the files read. */
  method MakeTable(dir: Listing) returns (out: seq<Row>, ok: bool)
    ensures (out, ok) == Run(dir, CostFiles(dir), [HEADER])
  {
    var costfiles := CostFiles(dir);
    out := [HEADER];
    var i := 0;
    while i < |costfiles|
      invariant i <= |costfiles|
      invariant Run(dir, costfiles[i..], out) == Run(dir, costfiles, [HEADER])
    {
      var rows, fine := ProcessFile(costfiles[i], Read(dir, costfiles[i], out));
      if !fine {
        return out, false;
      }
      assert costfiles[i..][1..] == costfiles[i + 1..];
      out := out + rows;
      i := i + 1;
    }
    ok := true;
  }

  /** The rows already written stay at the head of the table, whether or not the run finishes. */
  lemma {:induction false} RunKeeps(dir: Listing, names: seq<string>, written: seq<Row>)
    ensures |Run(dir, names, written).0| >= |written| && Run(dir, names, written).0[..|written|] == written
    decreases |names|
  {
    if names != [] {
      var r := FileRows(names[0], Read(dir, names[0], written));
      if r.Some? {
        RunKeeps(dir, names[1..], written + r.value);
        assert (written + r.value)[..|written|] == written;
      }
    }
  }

  /** What each listed report yields, in order. */
  function Reports(dir: Listing, names: seq<string>): (r: seq<Option<seq<Row>>>)
    ensures |r| == |names| && forall i | 0 <= i < |names| :: r[i] == FileRows(names[i], Content(dir, names[i]))
  {
    seq(|names|, i requires 0 <= i < |names| => FileRows(names[i], Content(dir, names[i])))
  }

  /** The rows of the reports one after the other (a report missing a field adds none). */
  function Flatten(rs: seq<Option<seq<Row>>>): seq<Row>
  {
    if rs == [] then []
    else (match rs[0] case Some(rows) => rows case None => []) + Flatten(rs[1..])
  }

  /** The rows of the listed reports, one report after the other. */
  function Tables(dir: Listing, names: seq<string>): seq<Row>
  {
    Flatten(Reports(dir, names))
  }

  lemma TablesCons(dir: Listing, names: seq<string>)
    requires names != []
    ensures Tables(dir, names)
         == (match FileRows(names[0], Content(dir, names[0])) case Some(rows) => rows case None => [])
            + Tables(dir, names[1..])
  {
    assert Reports(dir, names)[1..] == Reports(dir, names[1..]);
  }

  /** A finished run read every report and appended its rows, in order. */
  lemma {:induction false} RunFinished(dir: Listing, names: seq<string>, written: seq<Row>)
    requires OUTPUT !in names && Run(dir, names, written).1
    ensures forall n | n in names :: FileRows(n, Content(dir, n)).Some?
    ensures Run(dir, names, written).0 == written + Tables(dir, names)
    decreases |names|
  {
    if names != [] {
      assert names[0] in names;
      var rows := FileRows(names[0], Content(dir, names[0])).value;
      RunFinished(dir, names[1..], written + rows);
      TablesCons(dir, names);
      assert forall n | n in names :: n == names[0] || n in names[1..];
    }
  }

  /** Every report yields five rows. */
  predicate FiveEach(rs: seq<Option<seq<Row>>>)
  {
    forall k | 0 <= k < |rs| :: rs[k].Some? && |rs[k].value| == 5
  }

  lemma {:induction false} FlattenLength(rs: seq<Option<seq<Row>>>)
    requires FiveEach(rs)
    ensures |Flatten(rs)| == 5 * |rs|
    decreases |rs|
  {
    if rs != [] {
      assert FiveEach(rs[1..]) by {
        assert forall k | 0 <= k < |rs| - 1 :: rs[1..][k] == rs[k + 1];
      }
      FlattenLength(rs[1..]);
    }
  }

  /** Reports of five rows each: the rows of report i are rows 5i to 5i+4. */
  lemma {:induction false} FlattenAt(rs: seq<Option<seq<Row>>>, i: nat)
    requires FiveEach(rs) && i < |rs|
    ensures |Flatten(rs)| == 5 * |rs|
    ensures Flatten(rs)[5 * i..5 * i + 5] == rs[i].value
    decreases |rs|
  {
    FlattenLength(rs);
    var rest := rs[1..];
    assert Flatten(rs) == rs[0].value + Flatten(rest);
    if i > 0 {
      assert FiveEach(rest) by {
        assert forall k | 0 <= k < |rest| :: rest[k] == rs[k + 1];
      }
      FlattenAt(rest, i - 1);
      assert rest[i - 1] == rs[i];
      assert Flatten(rs)[5 * i..5 * i + 5] == Flatten(rest)[5 * (i - 1)..5 * (i - 1) + 5];
    }
  }

  /** Row m of the rows of five-row reports is row m % 5 of report m / 5. */
  lemma FlattenCell(rs: seq<Option<seq<Row>>>, m: nat)
    requires FiveEach(rs) && m < 5 * |rs|
    ensures m / 5 < |rs| && |Flatten(rs)| == 5 * |rs|
    ensures Flatten(rs)[m] == rs[m / 5].value[m % 5]
  {
    var i, k := m / 5, m % 5;
    assert m == 5 * i + k && k < 5;
    FlattenAt(rs, i);
    assert Flatten(rs)[m] == Flatten(rs)[5 * i..5 * i + 5][k];
  }

  /** Row m of the reports' rows: six cells, the workload name of report m / 5 on the first of its five. */
  lemma TablesRow(dir: Listing, names: seq<string>, m: nat)
    requires forall n | n in names :: FileRows(n, Content(dir, n)).Some?
    requires m < 5 * |names|
    ensures |Tables(dir, names)| == 5 * |names|
    ensures |Tables(dir, names)[m]| == 6
    ensures Tables(dir, names)[m][0] == (if m % 5 == 0 then Some(Workload(names[m / 5])) else None)
  {
    var rs := Reports(dir, names);
    forall k | 0 <= k < |rs| ensures rs[k].Some? && |rs[k].value| == 5 {
      assert names[k] in names;
    }
    FlattenCell(rs, m);
    var i := m / 5;
    FileRowsShape(names[i], Content(dir, names[i]));
  }

  /** A finished table: the header, then five rows of six cells per report in name order, the workload name on the first of each five. */
  lemma TableLayout(dir: Listing)
    requires Run(dir, CostFiles(dir), [HEADER]).1
    ensures var out := Run(dir, CostFiles(dir), [HEADER]).0; var names := CostFiles(dir);
      |out| == 1 + 5 * |names| && out[0] == HEADER
      && forall j | 1 <= j < |out| ::
           |out[j]| == 6 && out[j][0] == (if (j - 1) % 5 == 0 then Some(Workload(names[(j - 1) / 5])) else None)
  {
    var names := CostFiles(dir);
    RunFinished(dir, names, [HEADER]);
    var out := Run(dir, names, [HEADER]).0;
    if names != [] {
      TablesRow(dir, names, 0);
    }
    forall j | 1 <= j < |out|
      ensures |out[j]| == 6 && out[j][0] == (if (j - 1) % 5 == 0 then Some(Workload(names[(j - 1) / 5])) else None)
    {
      TablesRow(dir, names, j - 1);
    }
  }

  // ---------------------------------------------------------------------
  // Running the script a second time
  // ---------------------------------------------------------------------

  /** Cells without blanks make a line without blanks. */
  lemma {:induction false} RenderRowNoSpace(row: Row)
    requires forall i | 0 <= i < |row| :: row[i].Some? ==> forall c | c in row[i].value :: !IsSpace(c)
    ensures forall c | c in RenderRow(row) :: !IsSpace(c)
    decreases |row|
  {
    if |row| > 1 {
      RenderRowNoSpace(row[1..]);
    }
  }

  /** The header's line has no blank, so it is a single token. */
  lemma HeaderOneToken()
    ensures |Tokens(RenderRow(HEADER))| == 1
  {
    var h := RenderRow(HEADER);
    RenderRowNoSpace(HEADER);
    assert h == "," + RenderRow(HEADER[1..]);
    assert IsWord(h);
    WordThenRest(h, []);
    assert h + [] == h;
  }

  /** Reading the table as a report fails at once: its first line is the header. */
  lemma {:induction false} RunFailsOnTable(dir: Listing, names: seq<string>, written: seq<Row>)
    requires OUTPUT in names && written != [] && written[0] == HEADER
    ensures !Run(dir, names, written).1
    decreases |names|
  {
    if names[0] == OUTPUT {
      HeaderOneToken();
      assert Line(Read(dir, OUTPUT, written), 0) == RenderRow(HEADER);
    } else {
      var r := FileRows(names[0], Read(dir, names[0], written));
      if r.Some? {
        assert OUTPUT in names[1..];
        RunFailsOnTable(dir, names[1..], written + r.value);
      }
    }
  }

  /** As written, a directory that holds the table of an earlier run makes the script stop with an error. */
  lemma RerunFails(dir: Listing)
    requires exists i | 0 <= i < |dir| :: dir[i].0 == OUTPUT && dir[i].1.File?
    ensures !MakeTableAsWritten(dir).1
  {
    assert OUTPUT in FileNames(dir);
    assert OUTPUT in multiset(CostFilesAsWritten(dir));
    RunFailsOnTable(dir, CostFilesAsWritten(dir), [HEADER]);
  }

  /** Before the table exists the script as written and the corrected one agree. */
  lemma FirstRunAgrees(dir: Listing)
    requires forall i | 0 <= i < |dir| :: dir[i].0 == OUTPUT ==> !dir[i].1.File?
    ensures MakeTableAsWritten(dir) == Run(dir, CostFiles(dir), [HEADER])
  {
    assert OUTPUT !in FileNames(dir);
  }

  /** A stale table at the end of the listing changes nothing else's content. */
  lemma {:induction false} ContentWithTable(dir: Listing, lines: seq<string>, name: string)
    requires name != OUTPUT
    ensures Content(dir + [(OUTPUT, File(lines))], name) == Content(dir, name)
    decreases |dir|
  {
    if dir != [] {
      assert (dir + [(OUTPUT, File(lines))])[1..] == dir[1..] + [(OUTPUT, File(lines))];
      ContentWithTable(dir[1..], lines, name);
    }
  }

  lemma {:induction false} RemoveAppend(s: seq<string>, x: string)
    ensures Remove(s + [x], x) == Remove(s, x)
    decreases |s|
  {
    if s != [] {
      assert (s + [x])[1..] == s[1..] + [x];
      RemoveAppend(s[1..], x);
    }
  }

  lemma {:induction false} FileNamesAppend(dir: Listing, e: (string, Entry))
    ensures FileNames(dir + [e]) == FileNames(dir) + (if e.1.File? then [e.0] else [])
    decreases |dir|
  {
    if dir != [] {
      assert (dir + [e])[1..] == dir[1..] + [e];
      FileNamesAppend(dir[1..], e);
    }
  }

  /** The run reads the listed files only. */
  lemma {:induction false} RunSameFiles(dir1: Listing, dir2: Listing, names: seq<string>, written: seq<Row>)
    requires OUTPUT !in names && forall n | n in names :: Content(dir1, n) == Content(dir2, n)
    ensures Run(dir1, names, written) == Run(dir2, names, written)
    decreases |names|
  {
    if names != [] {
      assert names[0] in names;
      var r := FileRows(names[0], Content(dir1, names[0]));
      if r.Some? {
        RunSameFiles(dir1, dir2, names[1..], written + r.value);
      }
    }
  }

  /** Corrected, a stale table from an earlier run does not change the table a run writes. */
  lemma StaleTableIgnored(dir: Listing, lines: seq<string>)
    ensures Run(dir + [(OUTPUT, File(lines))], CostFiles(dir + [(OUTPUT, File(lines))]), [HEADER])
         == Run(dir, CostFiles(dir), [HEADER])
  {
    var dir2 := dir + [(OUTPUT, File(lines))];
    FileNamesAppend(dir, (OUTPUT, File(lines)));
    RemoveAppend(FileNames(dir), OUTPUT);
    assert CostFiles(dir2) == CostFiles(dir);
    forall n | n in CostFiles(dir)
      ensures Content(dir2, n) == Content(dir, n)
    {
      ContentWithTable(dir, lines, n);
    }
    RunSameFiles(dir2, dir, CostFiles(dir), [HEADER]);
  }
}
