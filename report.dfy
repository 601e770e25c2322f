/**
 * `compare_excel_files` of `kinmu_report`: both workbooks are read into
 * memory, and for every cleaned sheet title they share, the rows from the
 * eleventh on are compared over the precomputed column list.  Each cell pair
 * whose normalized values differ yields one mismatch record; nothing is
 * painted, and the yellow count is always 0.
 *
 * The diff is stated for any normalizer, and instantiated with the report's
 * own (`Normalize.NormalizeReport`) only in `CompareExcelFiles`.
 */
module Report {
  import opened Wrappers
  import opened Values
  import opened Normalize
  import opened Sheets
  import opened Columns

  /** One entry of `mismatches`: 1-based rows and columns and the raw values. */
  datatype Mismatch = Mismatch(v1Row: int, v1Col: int, v2Row: int, v2Col: int, v1: Cell, v2: Cell)

  /** `{'yellow_count': …, 'mismatches': …}`. */
  datatype SheetReport = SheetReport(yellowCount: int, mismatches: seq<Mismatch>)

  /** `{"ERROR": -1}`, or the reports keyed by the V2 sheet's title. */
  datatype Outcome = Failed(code: int) | Compared(results: map<string, SheetReport>)

  /**
   * `[row for row in ws.iter_rows(values_only=True)]`: rows 1 to `max_row`,
   * each with the values of columns 1 to `max_column`.
   */
  function Data(s: Sheet): (d: seq<seq<Cell>>)
    reads s
    ensures |d| == s.maxRow
    ensures forall r :: 0 <= r < |d| ==> |d[r]| == s.maxCol
    ensures forall r, c :: 0 <= r < |d| && 0 <= c < |d[r]| ==> d[r][c] == At(s.cells, r + 1, c + 1)
  {
    var g := s.cells;
    var width := s.maxCol;
    seq(s.maxRow, r => seq(width, c => At(g, r + 1, c + 1)))
  }

  /** `data[i][j]` when both indices are in range, `None` otherwise. */
  function Pick(d: seq<seq<Cell>>, i: int, j: int): Cell {
    if 0 <= i < |d| && 0 <= j < |d[i]| then d[i][j] else Blank
  }

  /** The cell pair at 0-based row `idx` and 0-based columns `p` differs once normalized. */
  predicate Differs(norm: Cell -> Option<Canon>, d1: seq<seq<Cell>>, d2: seq<seq<Cell>>, p: (int, int), idx: int) {
    norm(Pick(d1, idx, p.0)) != norm(Pick(d2, idx, p.1))
  }

  /** The record for 0-based row `idx` and 0-based columns `p`. */
  function Record(d1: seq<seq<Cell>>, d2: seq<seq<Cell>>, p: (int, int), idx: int): Mismatch {
    Mismatch(idx + 1, p.0 + 1, idx + 1, p.1 + 1, Pick(d1, idx, p.0), Pick(d2, idx, p.1))
  }

  /** The records of row `idx` over `columns`, in column-list order. */
  function RowMismatches(norm: Cell -> Option<Canon>, d1: seq<seq<Cell>>, d2: seq<seq<Cell>>,
                         columns: seq<(int, int)>, idx: int): seq<Mismatch>
  {
    if |columns| == 0 then []
    else
      var p := columns[|columns| - 1];
      RowMismatches(norm, d1, d2, columns[..|columns| - 1], idx)
        + (if Differs(norm, d1, d2, p, idx) then [Record(d1, d2, p, idx)] else [])
  }

  /** The records of the 0-based rows 10 to `hi - 1`, row by row. */
  function Mismatches(norm: Cell -> Option<Canon>, d1: seq<seq<Cell>>, d2: seq<seq<Cell>>,
                      columns: seq<(int, int)>, hi: int): seq<Mismatch>
    decreases hi
  {
    if hi <= 10 then []
    else Mismatches(norm, d1, d2, columns, hi - 1) + RowMismatches(norm, d1, d2, columns, hi - 1)
  }

  /** The V2 columns of the list strictly increase. */
  predicate Increasing(columns: seq<(int, int)>) {
    forall i, j :: 0 <= i < j < |columns| ==> columns[i].1 < columns[j].1
  }

  /** `a` comes before `b` in row-major order of the V2 cells. */
  predicate Before(a: Mismatch, b: Mismatch) {
    a.v2Row < b.v2Row || (a.v2Row == b.v2Row && a.v2Col < b.v2Col)
  }

  predicate InOrder(ms: seq<Mismatch>) {
    forall i, j :: 0 <= i < j < |ms| ==> Before(ms[i], ms[j])
  }

  /**
   * `m` is the record of a differing cell pair over the column list; a record
   * names its own row and columns, so these are read off `m`.
   */
  predicate Hit(norm: Cell -> Option<Canon>, d1: seq<seq<Cell>>, d2: seq<seq<Cell>>, columns: seq<(int, int)>, m: Mismatch) {
    var p := (m.v1Col - 1, m.v2Col - 1);
    p in columns && Differs(norm, d1, d2, p, m.v2Row - 1) && m == Record(d1, d2, p, m.v2Row - 1)
  }

  /** A row's records are exactly those of its differing cell pairs. */
  lemma {:induction false} RowMismatchesMembers(norm: Cell -> Option<Canon>, d1: seq<seq<Cell>>, d2: seq<seq<Cell>>,
                                                columns: seq<(int, int)>, idx: int, m: Mismatch)
    ensures m in RowMismatches(norm, d1, d2, columns, idx) <==> m.v2Row == idx + 1 && Hit(norm, d1, d2, columns, m)
    decreases |columns|
  {
    if |columns| > 0 {
      var front := columns[..|columns| - 1];
      var p := columns[|columns| - 1];
      RowMismatchesMembers(norm, d1, d2, front, idx, m);
      assert columns == front + [p];
    }
  }

  /** Every record of a row carries that row on both sides and a V2 column of the list. */
  lemma {:induction false} RowMismatchesRows(norm: Cell -> Option<Canon>, d1: seq<seq<Cell>>, d2: seq<seq<Cell>>,
                                             columns: seq<(int, int)>, idx: int)
    ensures forall m :: m in RowMismatches(norm, d1, d2, columns, idx) ==>
      m.v1Row == m.v2Row == idx + 1 && exists j :: 0 <= j < |columns| && m.v2Col == columns[j].1 + 1
    decreases |columns|
  {
    if |columns| > 0 {
      var front := columns[..|columns| - 1];
      RowMismatchesRows(norm, d1, d2, front, idx);
      forall m | m in RowMismatches(norm, d1, d2, front, idx)
        ensures exists j :: 0 <= j < |columns| && m.v2Col == columns[j].1 + 1
      {
        var j :| 0 <= j < |front| && m.v2Col == front[j].1 + 1;
        assert columns[j] == front[j];
      }
    }
  }

  /** With increasing V2 columns, a row's records come in increasing V2 column. */
  lemma {:induction false} RowMismatchesOrdered(norm: Cell -> Option<Canon>, d1: seq<seq<Cell>>, d2: seq<seq<Cell>>,
                                                columns: seq<(int, int)>, idx: int)
    requires Increasing(columns)
    ensures InOrder(RowMismatches(norm, d1, d2, columns, idx))
    decreases |columns|
  {
    if |columns| > 0 {
      var front := columns[..|columns| - 1];
      var p := columns[|columns| - 1];
      RowMismatchesOrdered(norm, d1, d2, front, idx);
      RowMismatchesRows(norm, d1, d2, front, idx);
      var a := RowMismatches(norm, d1, d2, front, idx);
      var b := if Differs(norm, d1, d2, p, idx) then [Record(d1, d2, p, idx)] else [];
      forall m | m in a ensures Before(m, Record(d1, d2, p, idx)) {
        var j :| 0 <= j < |front| && m.v2Col == front[j].1 + 1;
        assert front[j] == columns[j];
      }
      ConcatInOrder(a, b);
    }
  }

  /** Two ordered runs, the first wholly before the second, make an ordered run. */
  lemma ConcatInOrder(a: seq<Mismatch>, b: seq<Mismatch>)
    requires InOrder(a) && InOrder(b)
    requires forall x, y :: x in a && y in b ==> Before(x, y)
    ensures InOrder(a + b)
  {
    forall i, j | 0 <= i < j < |a + b| ensures Before((a + b)[i], (a + b)[j]) {
      if j < |a| {
        assert (a + b)[i] == a[i] && (a + b)[j] == a[j];
      } else if i >= |a| {
        assert (a + b)[i] == b[i - |a|] && (a + b)[j] == b[j - |a|];
      } else {
        assert (a + b)[i] in a && (a + b)[j] in b;
      }
    }
  }

  /**
   * The diff holds exactly the records of the differing cell pairs of rows 10
   * to `hi - 1` (0-based) over the column list.
   */
  lemma {:induction false} MismatchesMembers(norm: Cell -> Option<Canon>, d1: seq<seq<Cell>>, d2: seq<seq<Cell>>,
                                             columns: seq<(int, int)>, hi: int, m: Mismatch)
    ensures m in Mismatches(norm, d1, d2, columns, hi) <==> 11 <= m.v2Row <= hi && Hit(norm, d1, d2, columns, m)
    decreases hi
  {
    if hi > 10 {
      MismatchesMembers(norm, d1, d2, columns, hi - 1, m);
      RowMismatchesMembers(norm, d1, d2, columns, hi - 1, m);
    }
  }

  /** Every record of the diff names the same row on both sides, a row of 11 to `hi`. */
  lemma {:induction false} MismatchesRows(norm: Cell -> Option<Canon>, d1: seq<seq<Cell>>, d2: seq<seq<Cell>>,
                                          columns: seq<(int, int)>, hi: int)
    ensures forall m :: m in Mismatches(norm, d1, d2, columns, hi) ==> m.v1Row == m.v2Row && 11 <= m.v2Row <= hi
    decreases hi
  {
    if hi > 10 {
      MismatchesRows(norm, d1, d2, columns, hi - 1);
      RowMismatchesRows(norm, d1, d2, columns, hi - 1);
    }
  }

  /** With increasing V2 columns, the diff is in row-major order of the V2 cells. */
  lemma {:induction false} MismatchesOrdered(norm: Cell -> Option<Canon>, d1: seq<seq<Cell>>, d2: seq<seq<Cell>>,
                                             columns: seq<(int, int)>, hi: int)
    requires Increasing(columns)
    ensures InOrder(Mismatches(norm, d1, d2, columns, hi))
    decreases hi
  {
    if hi > 10 {
      MismatchesOrdered(norm, d1, d2, columns, hi - 1);
      MismatchesRows(norm, d1, d2, columns, hi - 1);
      RowMismatchesRows(norm, d1, d2, columns, hi - 1);
      RowMismatchesOrdered(norm, d1, d2, columns, hi - 1);
      ConcatInOrder(Mismatches(norm, d1, d2, columns, hi - 1), RowMismatches(norm, d1, d2, columns, hi - 1));
    }
  }

  /** The report's column list keeps the V2 columns in increasing order. */
  lemma ColumnListIncreasing(name: string, n: int)
    ensures Increasing(ColumnPairs(name, n))
  {
    ColumnPairsIncreasing(name, n);
  }

  // ---------------------------------------------------------------------
  // The loops

  /** The inner loop over the column list for 0-based row `idx`. */
  method DiffRow(norm: Cell -> Option<Canon>, d1: seq<seq<Cell>>, d2: seq<seq<Cell>>,
                 columns: seq<(int, int)>, idx: int) returns (found: seq<Mismatch>)
    ensures found == RowMismatches(norm, d1, d2, columns, idx)
  {
    var v1Row := if 0 <= idx < |d1| then d1[idx] else [];
    var resRow := if 0 <= idx < |d2| then d2[idx] else [];
    found := [];
    var j := 0;
    while j < |columns|
      invariant 0 <= j <= |columns|
      invariant found == RowMismatches(norm, d1, d2, columns[..j], idx)
    {
      var p := columns[j];
      var v1Val := if 0 <= p.0 < |v1Row| then v1Row[p.0] else Blank;
      var resVal := if 0 <= p.1 < |resRow| then resRow[p.1] else Blank;
      assert v1Val == Pick(d1, idx, p.0) && resVal == Pick(d2, idx, p.1);
      assert columns[..j + 1][..j] == columns[..j];
      if norm(v1Val) != norm(resVal) {
        found := found + [Mismatch(idx + 1, p.0 + 1, idx + 1, p.1 + 1, v1Val, resVal)];
      }
      j := j + 1;
    }
    assert columns[..|columns|] == columns;
  }

  /** The row loop over the 0-based rows 10 to `max_rows - 1`. */
  method Diff(norm: Cell -> Option<Canon>, d1: seq<seq<Cell>>, d2: seq<seq<Cell>>,
              columns: seq<(int, int)>) returns (mismatches: seq<Mismatch>)
    ensures mismatches == Mismatches(norm, d1, d2, columns, Max(|d1|, |d2|))
  {
    var maxRows := Max(|d1|, |d2|);
    mismatches := [];
    var idx := 10;
    while idx < maxRows
      invariant 10 <= idx <= Max(maxRows, 10)
      invariant mismatches == Mismatches(norm, d1, d2, columns, idx)
      decreases maxRows - idx
    {
      var found := DiffRow(norm, d1, d2, columns, idx);
      assert Mismatches(norm, d1, d2, columns, idx + 1) == Mismatches(norm, d1, d2, columns, idx) + found;
      mismatches := mismatches + found;
      idx := idx + 1;
    }
  }

  /**
   * What the report reads of one sheet: its title, its `max_column` and its
   * rows.  The workbooks are opened read-only, so this is all it ever sees.
   */
  datatype Table = Table(title: string, maxCol: nat, rows: seq<seq<Cell>>)

  function Snapshot(s: Sheet): Table
    reads s
  {
    Table(s.title, s.maxCol, Data(s))
  }

  /** The snapshot of every sheet of a workbook, in workbook order. */
  function Tables(wb: seq<Sheet>): (ts: seq<Table>)
    reads wb
    ensures |ts| == |wb|
    ensures forall i :: 0 <= i < |wb| ==> ts[i] == Snapshot(wb[i])
  {
    if |wb| == 0 then [] else Tables(wb[..|wb| - 1]) + [Snapshot(wb[|wb| - 1])]
  }

  /** The report of one pair of matched sheets, as a function of what was read of them. */
  function SheetEntry(norm: Cell -> Option<Canon>, t1: Table, t2: Table): SheetReport {
    var columns := ColumnPairs(t1.title, Max(t1.maxCol, t2.maxCol));
    SheetReport(0, Mismatches(norm, t1.rows, t2.rows, columns, Max(|t1.rows|, |t2.rows|)))
  }

  /**
   * `m` is a record the report files for this sheet pair: a row from the
   * eleventh to `max_rows`, the same on both sides; a V2 column up to the
   * larger `max_column` that the column mapping of the V1 title keeps, with
   * the V1 column it maps to; the raw values there (`None` off the data); and
   * those values differ once normalized.
   */
  predicate Reported(norm: Cell -> Option<Canon>, t1: Table, t2: Table, m: Mismatch) {
    var i := m.v2Row - 1;
    11 <= m.v2Row <= Max(|t1.rows|, |t2.rows|) && m.v1Row == m.v2Row
    && 1 <= m.v2Col <= Max(t1.maxCol, t2.maxCol) && ReportColumns(m.v2Col, t1.title) == Some((m.v1Col, m.v2Col))
    && m.v1 == Pick(t1.rows, i, m.v1Col - 1) && m.v2 == Pick(t2.rows, i, m.v2Col - 1)
    && norm(m.v1) != norm(m.v2)
  }

  /** One sheet pair's report: a yellow count of 0, mismatches in row-major order. */
  lemma SheetEntryOrdered(norm: Cell -> Option<Canon>, t1: Table, t2: Table)
    ensures SheetEntry(norm, t1, t2).yellowCount == 0
    ensures InOrder(SheetEntry(norm, t1, t2).mismatches)
  {
    var n := Max(t1.maxCol, t2.maxCol);
    ColumnListIncreasing(t1.title, n);
    MismatchesOrdered(norm, t1.rows, t2.rows, ColumnPairs(t1.title, n), Max(|t1.rows|, |t2.rows|));
  }

  /** One sheet pair's mismatches are exactly the `Reported` records. */
  lemma SheetEntryMembers(norm: Cell -> Option<Canon>, t1: Table, t2: Table, m: Mismatch)
    ensures m in SheetEntry(norm, t1, t2).mismatches <==> Reported(norm, t1, t2, m)
  {
    var n := Max(t1.maxCol, t2.maxCol);
    var columns := ColumnPairs(t1.title, n);
    MismatchesMembers(norm, t1.rows, t2.rows, columns, Max(|t1.rows|, |t2.rows|), m);
    KeptPair(t1.title, n, m.v1Col, m.v2Col);
    var i := m.v2Row - 1;
    assert m == Record(t1.rows, t2.rows, (m.v1Col - 1, m.v2Col - 1), i) <==>
      m.v1Row == m.v2Row && m.v1 == Pick(t1.rows, i, m.v1Col - 1) && m.v2 == Pick(t2.rows, i, m.v2Col - 1);
  }

  /** A 0-based pair is in the column list exactly when its V2 column maps to it. */
  lemma KeptPair(name: string, n: int, c1: int, c2: int)
    ensures (c1 - 1, c2 - 1) in ColumnPairs(name, n) <==> 1 <= c2 <= n && ReportColumns(c2, name) == Some((c1, c2))
  {
    var q := (c1 - 1, c2 - 1);
    ColumnPairsMembers(name, n, q);
    if q in ColumnPairs(name, n) {
      var c :| 1 <= c <= n && ReportColumns(c, name) == Some((q.0 + 1, q.1 + 1));
      ReportColumnsAgree(c, name);
      KinmuColumnsV2(c, name);
    }
    if 1 <= c2 <= n && ReportColumns(c2, name) == Some((c1, c2)) {
      assert ReportColumns(c2, name) == Some((q.0 + 1, q.1 + 1));
    }
  }

  /** One pair of matched sheets: the column list and the diff. */
  method CompareSheetPair(norm: Cell -> Option<Canon>, t1: Table, t2: Table) returns (entry: SheetReport)
    ensures entry == SheetEntry(norm, t1, t2)
  {
    var columns := ColumnList(t1.title, Max(t1.maxCol, t2.maxCol));
    var mismatches := Diff(norm, t1.rows, t2.rows, columns);
    entry := SheetReport(0, mismatches);
  }

  /** The V2 titles of the cleaned titles `ks`. */
  function Titles(wb1: seq<Sheet>, wb2: seq<Sheet>, ks: set<string>): set<string>
    requires ks <= CommonNames(wb1, wb2)
  {
    set k | k in ks :: Right(wb1, wb2, k).title
  }

  /** Distinct shared cleaned titles lead to V2 sheets of distinct titles. */
  lemma RightTitlesDistinct(wb1: seq<Sheet>, wb2: seq<Sheet>, ks: set<string>, k: string)
    requires ks <= CommonNames(wb1, wb2) && k in CommonNames(wb1, wb2) && k !in ks
    ensures Right(wb1, wb2, k).title !in Titles(wb1, wb2, ks)
    ensures Titles(wb1, wb2, ks + {k}) == Titles(wb1, wb2, ks) + {Right(wb1, wb2, k).title}
  {
    forall k' | k' in ks ensures Right(wb1, wb2, k').title != Right(wb1, wb2, k).title {
      assert Key(Right(wb1, wb2, k')) == k' != k == Key(Right(wb1, wb2, k));
    }
  }

  /** Two shared cleaned titles with the same V2 title are the same. */
  lemma RightTitlesInjective(wb1: seq<Sheet>, wb2: seq<Sheet>, ks: set<string>)
    requires ks <= CommonNames(wb1, wb2)
    ensures forall k1, k2 | k1 in ks && k2 in ks && Right(wb1, wb2, k1).title == Right(wb1, wb2, k2).title :: k1 == k2
  {
    forall k1, k2 | k1 in ks && k2 in ks && Right(wb1, wb2, k1).title == Right(wb1, wb2, k2).title ensures k1 == k2 {
      assert Key(Right(wb1, wb2, k1)) == k1 && Key(Right(wb1, wb2, k2)) == k2;
    }
  }

  /** The entry of the shared cleaned title `k`, from the snapshots of both workbooks. */
  function EntryOf(norm: Cell -> Option<Canon>, wb1: seq<Sheet>, wb2: seq<Sheet>, tb1: seq<Table>, tb2: seq<Table>,
                   k: string): SheetReport
    requires k in CommonNames(wb1, wb2) && |tb1| == |wb1| && |tb2| == |wb2|
  {
    SheetEntry(norm, tb1[LeftAt(wb1, wb2, k)], tb2[RightAt(wb1, wb2, k)])
  }

  /**
   * The report entry of every shared cleaned title in `ks` sits under its V2
   * title, and nothing else is in `results`.
   */
  ghost predicate Filed(norm: Cell -> Option<Canon>, wb1: seq<Sheet>, wb2: seq<Sheet>, tb1: seq<Table>, tb2: seq<Table>,
                        ks: set<string>, results: map<string, SheetReport>)
    requires ks <= CommonNames(wb1, wb2) && |tb1| == |wb1| && |tb2| == |wb2|
  {
    results.Keys == Titles(wb1, wb2, ks) &&
    forall k | k in ks :: results[Right(wb1, wb2, k).title] == EntryOf(norm, wb1, wb2, tb1, tb2, k)
  }

  /** Filing one more cleaned title keeps the earlier entries. */
  lemma FiledAdd(norm: Cell -> Option<Canon>, wb1: seq<Sheet>, wb2: seq<Sheet>, tb1: seq<Table>, tb2: seq<Table>,
                 ks: set<string>, k: string, results: map<string, SheetReport>)
    requires ks <= CommonNames(wb1, wb2) && k in CommonNames(wb1, wb2) && k !in ks
    requires |tb1| == |wb1| && |tb2| == |wb2|
    requires Filed(norm, wb1, wb2, tb1, tb2, ks, results)
    ensures Filed(norm, wb1, wb2, tb1, tb2, ks + {k},
                  results[Right(wb1, wb2, k).title := EntryOf(norm, wb1, wb2, tb1, tb2, k)])
  {
    RightTitlesDistinct(wb1, wb2, ks, k);
  }

  /** The reports of the shared cleaned titles `ks`, under their V2 titles. */
  function Expected(norm: Cell -> Option<Canon>, wb1: seq<Sheet>, wb2: seq<Sheet>, tb1: seq<Table>, tb2: seq<Table>,
                    ks: set<string>): (m: map<string, SheetReport>)
    requires ks <= CommonNames(wb1, wb2) && |tb1| == |wb1| && |tb2| == |wb2|
    ensures ks == {} ==> m == map[]
  {
    RightTitlesInjective(wb1, wb2, ks);
    map k | k in ks :: Right(wb1, wb2, k).title := EntryOf(norm, wb1, wb2, tb1, tb2, k)
  }

  /** The expected map files every shared cleaned title of `ks` and nothing else. */
  lemma ExpectedFiled(norm: Cell -> Option<Canon>, wb1: seq<Sheet>, wb2: seq<Sheet>, tb1: seq<Table>, tb2: seq<Table>,
                      ks: set<string>)
    requires ks <= CommonNames(wb1, wb2) && |tb1| == |wb1| && |tb2| == |wb2|
    ensures Filed(norm, wb1, wb2, tb1, tb2, ks, Expected(norm, wb1, wb2, tb1, tb2, ks))
  {
    RightTitlesInjective(wb1, wb2, ks);
  }

  /** `Filed` pins the result map down completely. */
  lemma FiledUnique(norm: Cell -> Option<Canon>, wb1: seq<Sheet>, wb2: seq<Sheet>, tb1: seq<Table>, tb2: seq<Table>,
                    ks: set<string>, a: map<string, SheetReport>, b: map<string, SheetReport>)
    requires ks <= CommonNames(wb1, wb2) && |tb1| == |wb1| && |tb2| == |wb2|
    requires Filed(norm, wb1, wb2, tb1, tb2, ks, a) && Filed(norm, wb1, wb2, tb1, tb2, ks, b)
    ensures a == b
  {
    forall t | t in a.Keys ensures a[t] == b[t] {
      var k :| k in ks && Right(wb1, wb2, k).title == t;
    }
  }

  /** Filing one more shared cleaned title extends the expected map by its entry. */
  lemma ExpectedAdd(norm: Cell -> Option<Canon>, wb1: seq<Sheet>, wb2: seq<Sheet>, tb1: seq<Table>, tb2: seq<Table>,
                    ks: set<string>, k: string)
    requires ks <= CommonNames(wb1, wb2) && k in CommonNames(wb1, wb2) && k !in ks
    requires |tb1| == |wb1| && |tb2| == |wb2|
    ensures Expected(norm, wb1, wb2, tb1, tb2, ks + {k}) ==
      Expected(norm, wb1, wb2, tb1, tb2, ks)[Right(wb1, wb2, k).title := EntryOf(norm, wb1, wb2, tb1, tb2, k)]
  {
    var before := Expected(norm, wb1, wb2, tb1, tb2, ks);
    var after := before[Right(wb1, wb2, k).title := EntryOf(norm, wb1, wb2, tb1, tb2, k)];
    ExpectedFiled(norm, wb1, wb2, tb1, tb2, ks);
    ExpectedFiled(norm, wb1, wb2, tb1, tb2, ks + {k});
    FiledAdd(norm, wb1, wb2, tb1, tb2, ks, k, before);
    FiledUnique(norm, wb1, wb2, tb1, tb2, ks + {k}, Expected(norm, wb1, wb2, tb1, tb2, ks + {k}), after);
  }

  /** One turn of the loop over the shared cleaned titles: compare and file. */
  method FileSheetPair(norm: Cell -> Option<Canon>, wb1: seq<Sheet>, wb2: seq<Sheet>, tb1: seq<Table>, tb2: seq<Table>,
                       ghost done: set<string>, k: string, results: map<string, SheetReport>)
    returns (results': map<string, SheetReport>)
    requires done <= CommonNames(wb1, wb2) && k in CommonNames(wb1, wb2) && k !in done
    requires |tb1| == |wb1| && |tb2| == |wb2|
    requires results == Expected(norm, wb1, wb2, tb1, tb2, done)
    ensures results' == Expected(norm, wb1, wb2, tb1, tb2, done + {k})
  {
    var entry := CompareSheetPair(norm, tb1[LeftAt(wb1, wb2, k)], tb2[RightAt(wb1, wb2, k)]);
    ExpectedAdd(norm, wb1, wb2, tb1, tb2, done, k);
    results' := results[Right(wb1, wb2, k).title := entry];
  }

  /** The loop over the shared cleaned titles, in any order. */
  method FileAll(norm: Cell -> Option<Canon>, wb1: seq<Sheet>, wb2: seq<Sheet>, tb1: seq<Table>, tb2: seq<Table>,
                 names: set<string>) returns (results: map<string, SheetReport>)
    requires names <= CommonNames(wb1, wb2) && |tb1| == |wb1| && |tb2| == |wb2|
    ensures results == Expected(norm, wb1, wb2, tb1, tb2, names)
  {
    results := map[];
    var todo := names;
    while todo != {}
      invariant todo <= names
      invariant results == Expected(norm, wb1, wb2, tb1, tb2, names - todo)
      decreases |todo|
    {
      var k :| k in todo;
      results := FileSheetPair(norm, wb1, wb2, tb1, tb2, names - todo, k, results);
      assert names - todo + {k} == names - (todo - {k});
      todo := todo - {k};
    }
    assert names - todo == names;
  }

  /**
   * `compare_excel_files` of the report over any normalizer, on the sheets as
   * read (`tb1`, `tb2`): `{"ERROR": -1}` without a shared title; otherwise
   * one report per shared title, under the V2 sheet's title, with a yellow
   * count of 0 and exactly the diff of that sheet pair (`Filed`, through
   * `Expected`).
   */
  method CompareWorkbooks(norm: Cell -> Option<Canon>, wb1: seq<Sheet>, wb2: seq<Sheet>, tb1: seq<Table>, tb2: seq<Table>)
    returns (r: Outcome)
    requires |tb1| == |wb1| && |tb2| == |wb2|
    ensures CommonNames(wb1, wb2) == {} ==> r == Failed(-1)
    ensures CommonNames(wb1, wb2) != {} ==> r == Compared(Expected(norm, wb1, wb2, tb1, tb2, CommonNames(wb1, wb2)))
  {
    var names := CommonNames(wb1, wb2);
    if names == {} {
      return Failed(-1);
    }
    var results := FileAll(norm, wb1, wb2, tb1, tb2, names);
    r := Compared(results);
  }

  /**
   * `compare_excel_files` of the report, with its own normalizer, on the
   * workbooks as they are when it opens them.
   */
  method CompareExcelFiles(wb1: seq<Sheet>, wb2: seq<Sheet>) returns (r: Outcome)
    ensures CommonNames(wb1, wb2) == {} ==> r == Failed(-1)
    ensures CommonNames(wb1, wb2) != {} ==>
      r == Compared(Expected(NormalizeReport, wb1, wb2, Tables(wb1), Tables(wb2), CommonNames(wb1, wb2)))
  {
    var tb1 := Tables(wb1);
    var tb2 := Tables(wb2);
    r := CompareWorkbooks(NormalizeReport, wb1, wb2, tb1, tb2);
  }
}
