/**
 * `compare_excel_files` of kinmu_compare 3.2: the walk over every pair of
 * matched sheets, row by row and column by column, that paints V2's
 * mismatching cells yellow and answers 'X' or 'O'.
 */
module Kinmu32 {
  import opened Wrappers
  import opened Text
  import opened Values
  import opened Normalize
  import opened Times
  import opened Columns
  import opened Sheets
  import opened Chain

  // ---------------------------------------------------------------------
  // The file name

  /** `file1_path.split('/')[-1]`: the last component of the path. */
  function BaseName(path: string): (r: string)
    ensures '/' !in r
    ensures '/' !in path ==> r == path
  {
    var parts := SplitOn(path, '/');
    if '/' in path then parts[|parts| - 1]
    else SplitOnAbsent(path, '/'); parts[|parts| - 1]
  }

  // ---------------------------------------------------------------------
  // Data rows and the row offset

  /** Column C of `row` normalises, by `norm`, to "計": the totals row. */
  predicate TotalRow(norm: Cell -> Option<Canon>, g: Grid, row: int) {
    norm(At(g, row, 3)) == Some(Str("計"))
  }

  /** The rows from `row` up to `maxRow` before the first one where `stop` holds. */
  function RowsBefore(stop: int -> bool, row: int, maxRow: int): nat
    decreases maxRow - row
  {
    if row > maxRow || stop(row) then 0 else 1 + RowsBefore(stop, row + 1, maxRow)
  }

  /** `RowsBefore` is the length of the run of rows without `stop` that starts at `row`. */
  lemma {:induction false} RowsBeforeMeaning(stop: int -> bool, row: int, maxRow: int)
    ensures var n := RowsBefore(stop, row, maxRow);
      (n == 0 || row + n <= maxRow + 1)
      && (forall r :: row <= r < row + n ==> !stop(r))
      && (row + n > maxRow || stop(row + n))
    decreases maxRow - row
  {
    if row <= maxRow && !stop(row) {
      RowsBeforeMeaning(stop, row + 1, maxRow);
    }
  }

  /** The data rows of a sheet: from row 10 up to `max_row`, stopping at the totals row. */
  function DataRows(norm: Cell -> Option<Canon>, g: Grid, maxRow: int): nat {
    RowsBefore(r => TotalRow(norm, g, r), 10, maxRow)
  }

  /** Rows 10 to 9 + `DataRows` hold no "計" in column C, and the row after them does or lies past `max_row`. */
  lemma DataRowsMeaning(norm: Cell -> Option<Canon>, g: Grid, maxRow: int)
    ensures var n := DataRows(norm, g, maxRow);
      (n == 0 || 10 + n <= maxRow + 1)
      && (forall r :: 10 <= r < 10 + n ==> !TotalRow(norm, g, r))
      && (10 + n > maxRow || TotalRow(norm, g, 10 + n))
  {
    var stop := r => TotalRow(norm, g, r);
    RowsBeforeMeaning(stop, 10, maxRow);
    var n := DataRows(norm, g, maxRow);
    assert n == RowsBefore(stop, 10, maxRow);
    forall r | 10 <= r < 10 + n ensures !TotalRow(norm, g, r) {
      assert !stop(r);
    }
  }

  /** The loop counting the data rows of a sheet. */
  method CountDataRows(norm: Cell -> Option<Canon>, s: Sheet) returns (n: nat)
    ensures n == DataRows(norm, s.cells, s.maxRow)
  {
    ghost var g := s.cells;
    ghost var stop := r => TotalRow(norm, g, r);
    n := 0;
    var row := 10;
    while row <= s.maxRow
      invariant row == 10 + n
      invariant RowsBefore(stop, 10, s.maxRow) == n + RowsBefore(stop, row, s.maxRow)
      decreases s.maxRow - row
    {
      if TotalRow(norm, s.cells, row) {
        break;
      }
      n := n + 1;
      row := row + 1;
    }
  }

  /** `skipped_row`: how many more data rows V1 has than V2, or 0. */
  function SkipOffset(n1: nat, n2: nat): (k: nat)
    ensures k > 0 <==> n1 > n2
    ensures n2 + k == Max(n1, n2)
  {
    if n1 > n2 then n1 - n2 else 0
  }

  /** Rows 38 to 40, while the offset is not yet on: column C of both sheets is read. */
  predicate InWindow(skipping: bool, skip: int, row: int) {
    !skipping && skip > 0 && 37 < row < 41
  }

  /**
   * The V1 row paired with row `row` of V2, and whether the offset is on
   * afterwards; `v1` and `v2` are the normalised column C of `row` in V1
   * and V2, which matter only in the window.
   */
  function RowPair(skipping: bool, skip: int, row: int, v1: Option<Canon>, v2: Option<Canon>): (r: (int, bool))
    ensures r.1 <==> skipping || (skip > 0 && 37 < row < 41 && v1.None? && v2.Some?)
    ensures r.0 == (if r.1 then row + skip else row)
  {
    if InWindow(skipping, skip, row) then
      if v1.None? && v2.Some? then (row + skip, true) else (row, false)
    else if skipping then (row + skip, true)
    else (row, false)
  }

  // ---------------------------------------------------------------------
  // One row

  /** Column G names "時間休" at least twice: the row is not compared. */
  predicate LeaveTwice(c: Cell) {
    c.TextCell? && c.s != "" && CountOf(c.s, "時間休") >= 2
  }

  /** V1's paid-leave hours (column G) and outing (column M) both hold, and their ranges overlap. */
  predicate LeaveMeetsOuting(g1: Grid, row1: int) {
    Truthy(At(g1, row1, 7)) && Truthy(At(g1, row1, 13))
    && TimesOverlap(FormatTimeRangeCell(At(g1, row1, 7)), FormatTimeRangeCell(At(g1, row1, 13)))
  }

  /** When the leave and outing ranges overlap, the formatted ranges are written into columns N and O. */
  function OverlapCopy(g1: Grid, row1: int): Grid {
    if LeaveMeetsOuting(g1, row1) then
      g1[(row1, 14) := TextCell(FormatTimeRangeCell(At(g1, row1, 7)).value)]
        [(row1, 15) := TextCell(FormatTimeRangeCell(At(g1, row1, 13)).value)]
    else g1
  }

  /** The copy writes nothing but columns N and O of `row1`. */
  lemma OverlapCopyFrame(g1: Grid, row1: int)
    ensures forall r, c :: (r, c) != (row1, 14) && (r, c) != (row1, 15) ==> At(OverlapCopy(g1, row1), r, c) == At(g1, r, c)
  {
  }

  /**
   * After a copy, columns N and O hold two ranges that parse and share a
   * minute, which is what `times_overlap` tests.
   */
  lemma OverlapCopyShares(g1: Grid, row1: int)
    requires LeaveMeetsOuting(g1, row1)
    ensures var g := OverlapCopy(g1, row1);
      At(g, row1, 14).TextCell? && At(g, row1, 15).TextCell?
      && ParseSpan(At(g, row1, 14).s).Some? && ParseSpan(At(g, row1, 15).s).Some?
      && exists k :: Shares(ParseSpan(At(g, row1, 14).s).value, ParseSpan(At(g, row1, 15).s).value, k)
  {
    var l := FormatTimeRangeCell(At(g1, row1, 7)).value;
    var o := FormatTimeRangeCell(At(g1, row1, 13)).value;
    assert TimesOverlap(Some(l), Some(o));
    assert At(OverlapCopy(g1, row1), row1, 14) == TextCell(l);
    assert At(OverlapCopy(g1, row1), row1, 15) == TextCell(o);
    SpansShare(l, o);
  }

  /** Two overlapping ranges parse, and some minute lies in both. */
  lemma SpansShare(l: string, o: string)
    requires TimesOverlap(Some(l), Some(o))
    ensures ParseSpan(l).Some? && ParseSpan(o).Some? && exists k :: Shares(ParseSpan(l).value, ParseSpan(o).value, k)
  {
    TimesOverlapShares(l, o);
  }

  /** V2's row `row2`, columns 1 to `n`, copied over V1's row `row1`. */
  function CopyRowInto(g1: Grid, g2: Grid, row1: int, row2: int, n: int): Grid
    decreases n
  {
    if n < 1 then g1 else CopyRowInto(g1, g2, row1, row2, n - 1)[(row1, n) := At(g2, row2, n)]
  }

  /** After the copy, V1's row `row1` reads as V2's row `row2` in columns 1 to `n`; nothing else changes. */
  lemma {:induction false} CopyRowIntoMeaning(g1: Grid, g2: Grid, row1: int, row2: int, n: int)
    ensures forall r, c ::
      At(CopyRowInto(g1, g2, row1, row2, n), r, c) == if r == row1 && 1 <= c <= n then At(g2, row2, c) else At(g1, r, c)
    decreases n
  {
    if n >= 1 {
      var h := CopyRowInto(g1, g2, row1, row2, n - 1);
      CopyRowIntoMeaning(g1, g2, row1, row2, n - 1);
      forall r, c
        ensures At(CopyRowInto(g1, g2, row1, row2, n), r, c) ==
          if r == row1 && 1 <= c <= n then At(g2, row2, c) else At(g1, r, c)
      {
        assert CopyRowInto(g1, g2, row1, row2, n) == h[(row1, n) := At(g2, row2, n)];
        if (r, c) != (row1, n) {
          assert At(CopyRowInto(g1, g2, row1, row2, n), r, c) == At(h, r, c);
        }
      }
    }
  }

  /**
   * The judgement of one column: from V1's and V2's cells, V2's row, V1's
   * row and the column, what the comparison loop does there.
   */
  type Judge = (Grid, Grid, int, int, int) -> Step

  /** The judgement of version 3.2 for the file `name`; V2's row is the loop's row. */
  function Judge32(name: string): Judge {
    (g1, g2, row, row1, col) => Cell32(g1, g2, name, row, row1, row, col)
  }

  /** What the walk is parametrised by: `normalize_value`, and the judgement of one column. */
  datatype Rules = Rules(norm: Cell -> Option<Canon>, judge: Judge)

  /** Version 3.2's rules for the file `name`. */
  function Rules32(name: string): Rules {
    Rules(NormalizeKinmu, Judge32(name))
  }

  /** The judgement stops a row only where version 3.2's column-D rule does. */
  ghost predicate StopsAtD(judge: Judge) {
    forall g1, g2, row, row1, col :: StopAllowed(g1, g2, row1, row, col, judge(g1, g2, row, row1, col))
  }

  lemma Judge32StopsAtD(name: string)
    ensures StopsAtD(Judge32(name))
  {
    forall g1, g2, row, row1, col
      ensures StopAllowed(g1, g2, row1, row, col, Judge32(name)(g1, g2, row, row1, col))
    {
      var s := Cell32(g1, g2, name, row, row1, row, col);
      assert StopAllowed(g1, g2, row1, row, col, s);
    }
  }

  /**
   * A cell version 3.2 does not pass has a V2 column, and it is the loop's
   * column: painting `sheet2.cell(row2, col2)` paints (row, col).
   */
  lemma PaintsLoopColumn(g1: Grid, g2: Grid, name: string, row: int, row1: int, col: int)
    requires Cell32(g1, g2, name, row, row1, row, col) != Pass
    ensures Column32(g2, name, row, col).Some? && Column32(g2, name, row, col).value.1 == col
  {
    KinmuColumnsV2(col, name);
  }

  /** What the column loop did: the V2 cells painted, the mismatches counted, and whether column D copied the row. */
  datatype Tally = Tally(fills: set<(int, int)>, count: nat, copy: bool)

  /** The column loop from `col` to `colMax` on V1 row `row1` and V2 row `row`. */
  function ColumnsFrom(judge: Judge, g1: Grid, g2: Grid, row: int, row1: int, col: int, colMax: int): Tally
    decreases colMax - col
  {
    if col > colMax then Tally({}, 0, false)
    else match judge(g1, g2, row, row1, col)
      case Pass => ColumnsFrom(judge, g1, g2, row, row1, col + 1, colMax)
      case Flag =>
        var t := ColumnsFrom(judge, g1, g2, row, row1, col + 1, colMax);
        Tally({(row, col)} + t.fills, t.count + 1, t.copy)
      case Fail =>
        var t := ColumnsFrom(judge, g1, g2, row, row1, col + 1, colMax);
        Tally(t.fills, t.count + 1, t.copy)
      case CopyRow => Tally({}, 0, true)
      case EndRow => Tally({}, 0, false)
  }

  /** Every painted cell is a compared cell of V2's row, and each was counted. */
  lemma {:induction false} ColumnsFromFacts(judge: Judge, g1: Grid, g2: Grid, row: int, row1: int, col: int, colMax: int)
    ensures var t := ColumnsFrom(judge, g1, g2, row, row1, col, colMax);
      (forall f | f in t.fills :: f.0 == row && col <= f.1 <= colMax)
      && |t.fills| <= t.count
    decreases colMax - col
  {
    if col <= colMax {
      var t := ColumnsFrom(judge, g1, g2, row, row1, col + 1, colMax);
      ColumnsFromFacts(judge, g1, g2, row, row1, col + 1, colMax);
      if judge(g1, g2, row, row1, col) == Flag {
        assert |{(row, col)} + t.fills| <= 1 + |t.fills|;
      }
    }
  }

  /** Under version 3.2's rules the row is copied only when V1's column D is empty and V2's is not. */
  lemma {:induction false} ColumnsFromCopy(judge: Judge, g1: Grid, g2: Grid, row: int, row1: int, col: int, colMax: int)
    requires StopsAtD(judge)
    ensures ColumnsFrom(judge, g1, g2, row, row1, col, colMax).copy ==>
      col <= 4 <= colMax && Empty(At(g1, row1, 4)) && !Empty(At(g2, row, 4))
    decreases colMax - col
  {
    if col <= colMax {
      ColumnsFromCopy(judge, g1, g2, row, row1, col + 1, colMax);
      assert StopAllowed(g1, g2, row1, row, col, judge(g1, g2, row, row1, col));
    }
  }

  /**
   * The column where the column loop stops early, from `col` on: the first
   * one judged `CopyRow` or `EndRow`, or `colMax + 1` when none is.
   */
  function StopColumn(judge: Judge, g1: Grid, g2: Grid, row: int, row1: int, col: int, colMax: int): (s: int)
    ensures col <= s && (col <= colMax + 1 ==> s <= colMax + 1)
    ensures s <= colMax ==> judge(g1, g2, row, row1, s).CopyRow? || judge(g1, g2, row, row1, s).EndRow?
    ensures forall c | col <= c < s :: Verdict(judge(g1, g2, row, row1, c))
    decreases colMax - col
  {
    if col > colMax then col
    else match judge(g1, g2, row, row1, col)
      case CopyRow => col
      case EndRow => col
      case _ => StopColumn(judge, g1, g2, row, row1, col + 1, colMax)
  }

  /** The cells of V2's row `row` in columns `col` to `stop - 1` judged `Flag`. */
  function Flagged(judge: Judge, g1: Grid, g2: Grid, row: int, row1: int, col: int, stop: int): set<(int, int)> {
    set c | col <= c < stop && judge(g1, g2, row, row1, c) == Flag :: (row, c)
  }

  /**
   * The column loop paints exactly the cells judged `Flag` before it stops,
   * and counts nothing exactly when every column judged before it stops passes.
   */
  lemma {:induction false} ColumnsFromSilent(judge: Judge, g1: Grid, g2: Grid, row: int, row1: int, col: int, colMax: int)
    ensures var t := ColumnsFrom(judge, g1, g2, row, row1, col, colMax);
      var s := StopColumn(judge, g1, g2, row, row1, col, colMax);
      t.fills == Flagged(judge, g1, g2, row, row1, col, s)
      && (t.count == 0 <==> forall c | col <= c < s :: judge(g1, g2, row, row1, c) == Pass)
    decreases colMax - col
  {
    var s := StopColumn(judge, g1, g2, row, row1, col, colMax);
    var j := judge(g1, g2, row, row1, col);
    if col > colMax || j.CopyRow? || j.EndRow? {
      assert Flagged(judge, g1, g2, row, row1, col, s) == {};
    } else {
      ColumnsFromSilent(judge, g1, g2, row, row1, col + 1, colMax);
      var rest := Flagged(judge, g1, g2, row, row1, col + 1, s);
      if j == Flag {
        assert Flagged(judge, g1, g2, row, row1, col, s) == {(row, col)} + rest;
      } else {
        assert Flagged(judge, g1, g2, row, row1, col, s) == rest;
      }
    }
  }

  /** What one row did: V1's grid afterwards, the V2 cells painted and the mismatches counted. */
  datatype RowResult = RowResult(g1: Grid, fills: set<(int, int)>, count: nat)

  /** Row `row` of V2 against row `row1` of V1: the two skips, the overlap copy, then the columns. */
  function Row32(judge: Judge, g1: Grid, g2: Grid, row: int, row1: int, colMax: int): RowResult {
    if LeaveTwice(At(g1, row1, 7)) || OutTimeClash(g1, g2, row1, row) then RowResult(g1, {}, 0)
    else
      var g := OverlapCopy(g1, row1);
      var t := ColumnsFrom(judge, g, g2, row, row1, 1, colMax);
      RowResult(if t.copy then CopyRowInto(g, g2, row1, row, colMax) else g, t.fills, t.count)
  }

  /**
   * A row paints only compared cells of V2's row `row`, each one counted,
   * and changes only V1's row `row1`.
   */
  lemma Row32Facts(judge: Judge, g1: Grid, g2: Grid, row: int, row1: int, colMax: int)
    ensures var r := Row32(judge, g1, g2, row, row1, colMax);
      (forall f | f in r.fills :: f.0 == row && 1 <= f.1 <= colMax)
      && |r.fills| <= r.count
      && (forall x, c :: x != row1 ==> At(r.g1, x, c) == At(g1, x, c))
  {
    if !(LeaveTwice(At(g1, row1, 7)) || OutTimeClash(g1, g2, row1, row)) {
      var g := OverlapCopy(g1, row1);
      OverlapCopyFrame(g1, row1);
      ColumnsFromFacts(judge, g, g2, row, row1, 1, colMax);
      CopyRowIntoMeaning(g, g2, row1, row, colMax);
    }
  }

  /**
   * Row `row` of V2 against row `row1` of V1 counts nothing: it is skipped,
   * or every column judged before the column loop stops passes, on V1's
   * grid after the overlap copy.
   */
  ghost predicate RowPasses(judge: Judge, g1: Grid, g2: Grid, row: int, row1: int, colMax: int) {
    LeaveTwice(At(g1, row1, 7)) || OutTimeClash(g1, g2, row1, row) ||
    var g := OverlapCopy(g1, row1);
    forall c | 1 <= c < StopColumn(judge, g, g2, row, row1, 1, colMax) :: judge(g, g2, row, row1, c) == Pass
  }

  /**
   * A row counts nothing exactly when it passes, and paints exactly the
   * cells judged `Flag` before its column loop stops (none when skipped).
   */
  lemma Row32Silent(judge: Judge, g1: Grid, g2: Grid, row: int, row1: int, colMax: int)
    ensures var r := Row32(judge, g1, g2, row, row1, colMax);
      (r.count == 0 <==> RowPasses(judge, g1, g2, row, row1, colMax))
      && r.fills == if LeaveTwice(At(g1, row1, 7)) || OutTimeClash(g1, g2, row1, row) then {}
                    else var g := OverlapCopy(g1, row1);
                      Flagged(judge, g, g2, row, row1, 1, StopColumn(judge, g, g2, row, row1, 1, colMax))
  {
    if !(LeaveTwice(At(g1, row1, 7)) || OutTimeClash(g1, g2, row1, row)) {
      ColumnsFromSilent(judge, OverlapCopy(g1, row1), g2, row, row1, 1, colMax);
    }
  }

  // ---------------------------------------------------------------------
  // One sheet pair

  /**
   * The state carried from row to row: V1's cells, both `max_row`s (the
   * window reads can raise them), V2's fills, the mismatch count and
   * `is_start_skip`.
   */
  datatype Walk = Walk(g1: Grid, max1: int, max2: int, fills: set<(int, int)>, count: nat, skipping: bool)

  /**
   * Where row `row` of V2 stands from state `w`: the V1 row paired with it,
   * both `max_row`s after the window reads, and `is_start_skip` afterwards.
   */
  datatype Pairing = Pairing(row1: int, max1: int, max2: int, skipping: bool)

  function PairingAt(rules: Rules, g2: Grid, skip: nat, row: int, w: Walk): (p: Pairing)
    ensures p.row1 == row || p.row1 == row + skip
    ensures !InWindow(w.skipping, skip, row) ==> p.max1 == w.max1 && p.max2 == w.max2
  {
    var window := InWindow(w.skipping, skip, row);
    var pair := RowPair(w.skipping, skip, row, rules.norm(At(w.g1, row, 3)), rules.norm(At(g2, row, 3)));
    Pairing(pair.0, if window then Max(w.max1, row) else w.max1, if window then Max(w.max2, row) else w.max2, pair.1)
  }

  /** The bounds test: both paired rows lie within their sheets' `max_row`. */
  predicate Compared(p: Pairing, row: int) {
    p.row1 <= p.max1 && row <= p.max2
  }

  /** Row `row` of a sheet pair, from state `w`: the row pairing, the bounds test and the row itself. */
  function Advance(rules: Rules, g2: Grid, skip: nat, colMax: int, row: int, w: Walk): Walk {
    var p := PairingAt(rules, g2, skip, row, w);
    if !Compared(p, row) then Walk(w.g1, p.max1, p.max2, w.fills, w.count, p.skipping)
    else
      var r := Row32(rules.judge, w.g1, g2, row, p.row1, colMax);
      Walk(r.g1, p.max1, p.max2, w.fills + r.fills, w.count + r.count, p.skipping)
  }

  /**
   * One row only adds to the count; a new painted cell lies in row `row`
   * and the compared columns, and a row that counts nothing paints nothing.
   */
  lemma AdvanceFacts(rules: Rules, g2: Grid, skip: nat, colMax: int, row: int, w: Walk)
    ensures var v := Advance(rules, g2, skip, colMax, row, w);
      w.count <= v.count
      && (forall f | f in v.fills && f !in w.fills :: f.0 == row && 1 <= f.1 <= colMax)
      && (v.count == w.count ==> v.fills == w.fills)
      && (w.skipping ==> v.skipping)
  {
    var p := PairingAt(rules, g2, skip, row, w);
    if Compared(p, row) {
      Row32Facts(rules.judge, w.g1, g2, row, p.row1, colMax);
    }
  }

  /** The rows from `row` to `rowMax` of a sheet pair, from state `w`. */
  function RowsFrom(rules: Rules, g2: Grid, skip: nat, colMax: int, row: int, rowMax: int, w: Walk): Walk
    decreases rowMax - row
  {
    if row > rowMax then w
    else RowsFrom(rules, g2, skip, colMax, row + 1, rowMax, Advance(rules, g2, skip, colMax, row, w))
  }

  /**
   * The walk only adds to the count; every new painted cell lies in the
   * compared rows and columns, and a walk that counts nothing paints
   * nothing.  Once the offset is on it stays on.
   */
  lemma {:induction false} RowsFromFacts(rules: Rules, g2: Grid, skip: nat, colMax: int, row: int, rowMax: int, w: Walk)
    ensures var v := RowsFrom(rules, g2, skip, colMax, row, rowMax, w);
      w.count <= v.count
      && (forall f | f in v.fills && f !in w.fills :: row <= f.0 <= rowMax && 1 <= f.1 <= colMax)
      && (v.count == w.count ==> v.fills == w.fills)
      && (w.skipping ==> v.skipping)
    decreases rowMax - row
  {
    if row <= rowMax {
      var a := Advance(rules, g2, skip, colMax, row, w);
      AdvanceFacts(rules, g2, skip, colMax, row, w);
      RowsFromFacts(rules, g2, skip, colMax, row + 1, rowMax, a);
    }
  }

  /** What one row paints does not depend on what V2 had painted before: it only adds to it. */
  lemma AdvanceFills(rules: Rules, g2: Grid, skip: nat, colMax: int, row: int, w: Walk)
    ensures var b := Advance(rules, g2, skip, colMax, row, w.(fills := {}));
      Advance(rules, g2, skip, colMax, row, w) == b.(fills := w.fills + b.fills)
  {
  }

  /** What the walk paints does not depend on what V2 had painted before: it only adds to it. */
  lemma {:induction false} RowsFromFills(rules: Rules, g2: Grid, skip: nat, colMax: int, row: int, rowMax: int, w: Walk)
    ensures var u := RowsFrom(rules, g2, skip, colMax, row, rowMax, w.(fills := {}));
      RowsFrom(rules, g2, skip, colMax, row, rowMax, w) == u.(fills := w.fills + u.fills)
    decreases rowMax - row
  {
    if row <= rowMax {
      var a := Advance(rules, g2, skip, colMax, row, w);
      var b := Advance(rules, g2, skip, colMax, row, w.(fills := {}));
      AdvanceFills(rules, g2, skip, colMax, row, w);
      RowsFromFills(rules, g2, skip, colMax, row + 1, rowMax, a);
      RowsFromFills(rules, g2, skip, colMax, row + 1, rowMax, b);
      assert a.(fills := {}) == b.(fills := {});
    }
  }

  /** Row `row` of V2, reached in state `w`, counts nothing: it fails the bounds test, or its pair of rows passes. */
  ghost predicate RowQuiet(rules: Rules, g2: Grid, skip: nat, colMax: int, row: int, w: Walk) {
    var p := PairingAt(rules, g2, skip, row, w);
    !Compared(p, row) || RowPasses(rules.judge, w.g1, g2, row, p.row1, colMax)
  }

  lemma AdvanceSilent(rules: Rules, g2: Grid, skip: nat, colMax: int, row: int, w: Walk)
    ensures Advance(rules, g2, skip, colMax, row, w).count == w.count <==> RowQuiet(rules, g2, skip, colMax, row, w)
  {
    var p := PairingAt(rules, g2, skip, row, w);
    if Compared(p, row) {
      Row32Silent(rules.judge, w.g1, g2, row, p.row1, colMax);
    }
  }

  /**
   * Every row from `row` to `rowMax` counts nothing in the state the walk
   * reaches it in, starting at row `row` in state `w`.
   */
  ghost predicate EveryRowQuiet(rules: Rules, g2: Grid, skip: nat, colMax: int, row: int, rowMax: int, w: Walk)
    decreases rowMax - row
  {
    row > rowMax ||
    (RowQuiet(rules, g2, skip, colMax, row, w) &&
     EveryRowQuiet(rules, g2, skip, colMax, row + 1, rowMax, Advance(rules, g2, skip, colMax, row, w)))
  }

  /** The walk counts nothing more exactly when every row it goes through counts nothing. */
  lemma {:induction false} RowsFromSilent(rules: Rules, g2: Grid, skip: nat, colMax: int, row: int, rowMax: int, w: Walk)
    ensures RowsFrom(rules, g2, skip, colMax, row, rowMax, w).count == w.count <==> EveryRowQuiet(rules, g2, skip, colMax, row, rowMax, w)
    decreases rowMax - row
  {
    if row <= rowMax {
      var a := Advance(rules, g2, skip, colMax, row, w);
      AdvanceSilent(rules, g2, skip, colMax, row, w);
      AdvanceFacts(rules, g2, skip, colMax, row, w);
      RowsFromFacts(rules, g2, skip, colMax, row + 1, rowMax, a);
      RowsFromSilent(rules, g2, skip, colMax, row + 1, rowMax, a);
    }
  }

  /** The walk of a whole sheet pair, from the sheets' state before it; `fills` are the cells it paints. */
  function PairWalk(rules: Rules, g1: Grid, max1: nat, col1: nat, g2: Grid, max2: nat, col2: nat): Walk {
    var skip := SkipOffset(DataRows(rules.norm, g1, max1), DataRows(rules.norm, g2, max2));
    RowsFrom(rules, g2, skip, Max(col1, col2), 1, Max(max1, max2), Walk(g1, max1, max2, {}, 0, false))
  }

  /** A sheet pair that counts no mismatch paints no cell, and every painted cell is a compared one. */
  lemma PairWalkSilent(rules: Rules, g1: Grid, max1: nat, col1: nat, g2: Grid, max2: nat, col2: nat)
    ensures var w := PairWalk(rules, g1, max1, col1, g2, max2, col2);
      (w.count == 0 ==> w.fills == {})
      && (forall f | f in w.fills :: 1 <= f.0 <= Max(max1, max2) && 1 <= f.1 <= Max(col1, col2))
  {
    var skip := SkipOffset(DataRows(rules.norm, g1, max1), DataRows(rules.norm, g2, max2));
    RowsFromFacts(rules, g2, skip, Max(col1, col2), 1, Max(max1, max2), Walk(g1, max1, max2, {}, 0, false));
  }

  // ---------------------------------------------------------------------
  // The methods

  /** `sheet1.cell(row1, c).value = sheet2.cell(row2, c).value` for every column up to `colMax`. */
  method CopyRow(s1: Sheet, s2: Sheet, row1: int, row2: int, colMax: int)
    requires s1 != s2 && 1 <= row1 <= s1.maxRow
    modifies s1
    ensures s1.cells == CopyRowInto(old(s1.cells), s2.cells, row1, row2, colMax)
    ensures s1.fills == old(s1.fills) && s1.maxRow == old(s1.maxRow)
  {
    var c := 1;
    while c <= colMax
      invariant 1 <= c && (c <= colMax + 1 || c == 1)
      invariant s1.cells == CopyRowInto(old(s1.cells), s2.cells, row1, row2, c - 1)
      invariant s1.fills == old(s1.fills) && s1.maxRow == old(s1.maxRow)
    {
      s1.Put(row1, c, s2.Get(row2, c));
      c := c + 1;
    }
  }

  /** The column loop of one row; it ends early after column D copies or stops. */
  method CompareColumns(judge: Judge, s1: Sheet, s2: Sheet, row: int, row1: int, colMax: int) returns (count: nat)
    requires s1 != s2 && 1 <= row <= s2.maxRow && 1 <= row1 <= s1.maxRow
    modifies s1, s2
    ensures var t := ColumnsFrom(judge, old(s1.cells), s2.cells, row, row1, 1, colMax);
      s2.fills == old(s2.fills) + t.fills && count == t.count
      && s1.cells == (if t.copy then CopyRowInto(old(s1.cells), s2.cells, row1, row, colMax) else old(s1.cells))
    ensures s2.cells == old(s2.cells) && s1.fills == old(s1.fills)
    ensures s1.maxRow == old(s1.maxRow) && s2.maxRow == old(s2.maxRow)
  {
    ghost var g1 := s1.cells;
    ghost var added: set<(int, int)> := {};
    count := 0;
    var col := 1;
    while col <= colMax
      invariant 1 <= col
      invariant s1.cells == g1 && s2.cells == old(s2.cells) && s1.fills == old(s1.fills)
      invariant s1.maxRow == old(s1.maxRow) && s2.maxRow == old(s2.maxRow)
      invariant s2.fills == old(s2.fills) + added
      invariant var t := ColumnsFrom(judge, g1, s2.cells, row, row1, 1, colMax);
        var u := ColumnsFrom(judge, g1, s2.cells, row, row1, col, colMax);
        t.fills == added + u.fills && t.count == count + u.count && t.copy == u.copy
      decreases colMax - col
    {
      match judge(s1.cells, s2.cells, row, row1, col) {
        case Pass =>
        case Flag =>
          s2.Highlight(row, col);
          added := added + {(row, col)};
          count := count + 1;
        case Fail =>
          count := count + 1;
        case CopyRow =>
          CopyRow(s1, s2, row1, row, colMax);
          return;
        case EndRow =>
          return;
      }
      col := col + 1;
    }
  }

  /** One row: the two skip tests, the overlap copy into columns N and O, then the columns. */
  method CompareRow(judge: Judge, s1: Sheet, s2: Sheet, row: int, row1: int, colMax: int) returns (count: nat)
    requires s1 != s2 && 1 <= row <= s2.maxRow && 1 <= row1 <= s1.maxRow
    modifies s1, s2
    ensures var r := Row32(judge, old(s1.cells), s2.cells, row, row1, colMax);
      s1.cells == r.g1 && s2.fills == old(s2.fills) + r.fills && count == r.count
    ensures s2.cells == old(s2.cells) && s1.fills == old(s1.fills)
    ensures s1.maxRow == old(s1.maxRow) && s2.maxRow == old(s2.maxRow)
  {
    if LeaveTwice(s1.Get(row1, 7)) {
      return 0;
    }
    if OutTimeClash(s1.cells, s2.cells, row1, row) {
      return 0;
    }
    var leave := s1.Get(row1, 7);
    var outing := s1.Get(row1, 13);
    if Truthy(leave) && Truthy(outing) {
      var l := FormatTimeRangeCell(leave);
      var o := FormatTimeRangeCell(outing);
      if TimesOverlap(l, o) {
        s1.Put(row1, 14, TextCell(l.value));
        s1.Put(row1, 15, TextCell(o.value));
      }
    }
    assert s1.cells == OverlapCopy(old(s1.cells), row1);
    count := CompareColumns(judge, s1, s2, row, row1, colMax);
  }

  /** The window reads of column C and the V1 row paired with V2 row `row`. */
  method PairRows(norm: Cell -> Option<Canon>, s1: Sheet, s2: Sheet, skip: nat, row: int, skipping: bool) returns (row1: int, skipping': bool)
    requires s1 != s2 && row >= 1
    modifies s1, s2
    ensures (row1, skipping') ==
      RowPair(skipping, skip, row, norm(At(s1.cells, row, 3)), norm(At(s2.cells, row, 3)))
    ensures s1.cells == old(s1.cells) && s2.cells == old(s2.cells)
    ensures s1.fills == old(s1.fills) && s2.fills == old(s2.fills)
    ensures s1.maxRow == (if InWindow(skipping, skip, row) then Max(old(s1.maxRow), row) else old(s1.maxRow))
    ensures s2.maxRow == (if InWindow(skipping, skip, row) then Max(old(s2.maxRow), row) else old(s2.maxRow))
  {
    row1, skipping' := row, skipping;
    if !skipping && skip > 0 && 37 < row < 41 {
      var v1 := norm(s1.Get(row, 3));
      s1.Touch(row, 3);
      var v2 := norm(s2.Get(row, 3));
      s2.Touch(row, 3);
      if v1.None? && v2.Some? {
        row1 := row + skip;
        skipping' := true;
      }
    } else if skipping {
      row1 := row + skip;
    }
  }

  /** One pass of the row loop: the pairing, the bounds test, then the row. */
  method WalkRow(rules: Rules, s1: Sheet, s2: Sheet, skip: nat, colMax: int, row: int, count: nat, skipping: bool)
    returns (count': nat, skipping': bool)
    requires s1 != s2 && row >= 1
    modifies s1, s2
    ensures Walk(s1.cells, s1.maxRow, s2.maxRow, s2.fills, count', skipping') ==
      Advance(rules, old(s2.cells), skip, colMax, row,
              Walk(old(s1.cells), old(s1.maxRow), old(s2.maxRow), old(s2.fills), count, skipping))
    ensures s2.cells == old(s2.cells) && s1.fills == old(s1.fills)
  {
    var row1;
    row1, skipping' := PairRows(rules.norm, s1, s2, skip, row, skipping);
    count' := count;
    if row1 <= s1.maxRow && row <= s2.maxRow {
      var c := CompareRow(rules.judge, s1, s2, row, row1, colMax);
      count' := count + c;
    }
  }

  /**
   * One pair of matched sheets: count the data rows, set the offset, and
   * walk every row up to the larger `max_row`.
   */
  method ComparePair(rules: Rules, s1: Sheet, s2: Sheet) returns (count: nat)
    requires s1 != s2
    modifies s1, s2
    ensures var w := PairWalk(rules, old(s1.cells), old(s1.maxRow), old(s1.maxCol), old(s2.cells), old(s2.maxRow), old(s2.maxCol));
      s1.cells == w.g1 && s1.maxRow == w.max1 && s2.maxRow == w.max2 && s2.fills == old(s2.fills) + w.fills && count == w.count
    ensures s2.cells == old(s2.cells) && s1.fills == old(s1.fills)
    ensures count == 0 ==> s2.fills == old(s2.fills)
  {
    PairWalkSilent(rules, s1.cells, s1.maxRow, s1.maxCol, s2.cells, s2.maxRow, s2.maxCol);
    var rowMax := Max(s1.maxRow, s2.maxRow);
    var colMax := Max(s1.maxCol, s2.maxCol);
    var n1 := CountDataRows(rules.norm, s1);
    var n2 := CountDataRows(rules.norm, s2);
    var skip := SkipOffset(n1, n2);
    ghost var g2 := s2.cells;
    ghost var w0 := Walk(s1.cells, s1.maxRow, s2.maxRow, s2.fills, 0, false);
    RowsFromFills(rules, g2, skip, colMax, 1, rowMax, w0);
    var skipping := false;
    count := 0;
    var row := 1;
    while row <= rowMax
      invariant 1 <= row <= rowMax + 1
      invariant s2.cells == g2 && s1.fills == old(s1.fills)
      invariant RowsFrom(rules, g2, skip, colMax, 1, rowMax, w0) ==
        RowsFrom(rules, g2, skip, colMax, row, rowMax, Walk(s1.cells, s1.maxRow, s2.maxRow, s2.fills, count, skipping))
      decreases rowMax - row
    {
      count, skipping := WalkRow(rules, s1, s2, skip, colMax, row, count, skipping);
      row := row + 1;
    }
  }

  // ---------------------------------------------------------------------
  // The workbooks

  /** The walk of one sheet pair, over the sheets' states. */
  function SheetWalk(rules: Rules, a: SheetState, b: SheetState): Walk {
    PairWalk(rules, a.cells, a.maxRow, a.maxCol, b.cells, b.maxRow, b.maxCol)
  }

  /** The walk of the sheet pair matched under the common cleaned title `k`, over the sheet states `st1` and `st2`. */
  function TitleWalk(rules: Rules, wb1: seq<Sheet>, wb2: seq<Sheet>, st1: seq<SheetState>, st2: seq<SheetState>, k: string): Walk
    requires |st1| == |wb1| && |st2| == |wb2| && k in CommonNames(wb1, wb2)
  {
    SheetWalk(rules, st1[LeftAt(wb1, wb2, k)], st2[RightAt(wb1, wb2, k)])
  }

  /** No walk of a matched sheet pair counts a mismatch. */
  predicate AllSilent(rules: Rules, wb1: seq<Sheet>, wb2: seq<Sheet>, st1: seq<SheetState>, st2: seq<SheetState>)
    requires |st1| == |wb1| && |st2| == |wb2|
  {
    forall k | k in CommonNames(wb1, wb2) :: TitleWalk(rules, wb1, wb2, st1, st2, k).count == 0
  }

  /**
   * Every row of the walk of the sheet states `a` and `b` counts nothing:
   * each one compared has every column judged before its column loop stops
   * passing.
   */
  ghost predicate SheetPasses(rules: Rules, a: SheetState, b: SheetState) {
    var skip := SkipOffset(DataRows(rules.norm, a.cells, a.maxRow), DataRows(rules.norm, b.cells, b.maxRow));
    EveryRowQuiet(rules, b.cells, skip, Max(a.maxCol, b.maxCol), 1, Max(a.maxRow, b.maxRow), Walk(a.cells, a.maxRow, b.maxRow, {}, 0, false))
  }

  /** Every matched sheet pair passes. */
  ghost predicate AllPairsPass(rules: Rules, wb1: seq<Sheet>, wb2: seq<Sheet>, st1: seq<SheetState>, st2: seq<SheetState>)
    requires |st1| == |wb1| && |st2| == |wb2|
  {
    forall k | k in CommonNames(wb1, wb2) :: SheetPasses(rules, st1[LeftAt(wb1, wb2, k)], st2[RightAt(wb1, wb2, k)])
  }

  /** No walk counts a mismatch exactly when every matched sheet pair passes. */
  lemma AllSilentPass(rules: Rules, wb1: seq<Sheet>, wb2: seq<Sheet>, st1: seq<SheetState>, st2: seq<SheetState>)
    requires |st1| == |wb1| && |st2| == |wb2|
    ensures AllSilent(rules, wb1, wb2, st1, st2) <==> AllPairsPass(rules, wb1, wb2, st1, st2)
  {
    forall k | k in CommonNames(wb1, wb2)
      ensures TitleWalk(rules, wb1, wb2, st1, st2, k).count == 0 <==>
        SheetPasses(rules, st1[LeftAt(wb1, wb2, k)], st2[RightAt(wb1, wb2, k)])
    {
      var a, b := st1[LeftAt(wb1, wb2, k)], st2[RightAt(wb1, wb2, k)];
      var skip := SkipOffset(DataRows(rules.norm, a.cells, a.maxRow), DataRows(rules.norm, b.cells, b.maxRow));
      RowsFromSilent(rules, b.cells, skip, Max(a.maxCol, b.maxCol), 1, Max(a.maxRow, b.maxRow), Walk(a.cells, a.maxRow, b.maxRow, {}, 0, false));
    }
  }

  /** The walks of the titles of `order`, in that order. */
  function WalksOf(rules: Rules, wb1: seq<Sheet>, wb2: seq<Sheet>, st1: seq<SheetState>, st2: seq<SheetState>,
                   order: seq<string>): (ts: seq<Walk>)
    requires |st1| == |wb1| && |st2| == |wb2|
    requires forall i | 0 <= i < |order| :: order[i] in CommonNames(wb1, wb2)
    ensures |ts| == |order|
    ensures forall i | 0 <= i < |order| :: ts[i] == TitleWalk(rules, wb1, wb2, st1, st2, order[i])
  {
    seq(|order|, i requires 0 <= i < |order| => TitleWalk(rules, wb1, wb2, st1, st2, order[i]))
  }

  /** The mismatches the walks `ts` count, one after another. */
  function Counted(ts: seq<Walk>): nat {
    if |ts| == 0 then 0 else Counted(ts[..|ts| - 1]) + ts[|ts| - 1].count
  }

  /** Walks counted one after another count nothing exactly when each counts nothing. */
  lemma {:induction false} CountedSilent(ts: seq<Walk>)
    ensures Counted(ts) == 0 <==> forall i | 0 <= i < |ts| :: ts[i].count == 0
  {
    if |ts| > 0 {
      CountedSilent(ts[..|ts| - 1]);
    }
  }

  /** The walks of the titles of `order` are the walks of the sheets `left[i]` and `right[i]` as they stand. */
  lemma Ready(rules: Rules, wb1: seq<Sheet>, wb2: seq<Sheet>, order: seq<string>, left: seq<Sheet>, right: seq<Sheet>, ts: seq<Walk>)
    requires |left| == |order| && |right| == |order|
    requires forall i | 0 <= i < |order| ::
      order[i] in CommonNames(wb1, wb2) && left[i] == Left(wb1, wb2, order[i]) && right[i] == Right(wb1, wb2, order[i])
    requires ts == WalksOf(rules, wb1, wb2, States(wb1), States(wb2), order)
    ensures forall i | 0 <= i < |ts| ::
      ts[i] == SheetWalk(rules, SheetState(left[i].cells, left[i].maxRow, left[i].maxCol), SheetState(right[i].cells, right[i].maxRow, right[i].maxCol))
  {
  }

  /**
   * After the loop: each common title `k` was compared at `Position(order, k)`,
   * and the count is nil exactly when no title's walk counted.
   */
  lemma Done(rules: Rules, wb1: seq<Sheet>, wb2: seq<Sheet>, st1: seq<SheetState>, st2: seq<SheetState>,
             order: seq<string>, left: seq<Sheet>, right: seq<Sheet>, ts: seq<Walk>)
    requires |st1| == |wb1| && |st2| == |wb2|
    requires forall k :: k in order <==> k in CommonNames(wb1, wb2)
    requires |left| == |order| && |right| == |order|
    requires forall i | 0 <= i < |order| ::
      order[i] in CommonNames(wb1, wb2) && left[i] == Left(wb1, wb2, order[i]) && right[i] == Right(wb1, wb2, order[i])
    requires ts == WalksOf(rules, wb1, wb2, st1, st2, order)
    ensures Counted(ts) == 0 <==> AllSilent(rules, wb1, wb2, st1, st2)
    ensures forall k | k in CommonNames(wb1, wb2) ::
      Position(order, k) < |right| && Left(wb1, wb2, k) == left[Position(order, k)] && Right(wb1, wb2, k) == right[Position(order, k)] &&
      TitleWalk(rules, wb1, wb2, st1, st2, k) == ts[Position(order, k)]
  {
    CountedSilent(ts);
  }

  /**
   * The pairs the comparison loop visits: the V1 and V2 sheets of each common
   * title, distinct sheets, with `ts` their walks over the sheet states `st1`
   * and `st2`; the title `k` sits at `Position(order, k)`.
   */
  method PairSheets(rules: Rules, wb1: seq<Sheet>, wb2: seq<Sheet>, ghost st1: seq<SheetState>, ghost st2: seq<SheetState>)
    returns (left: seq<Sheet>, right: seq<Sheet>, ghost order: seq<string>, ghost ts: seq<Walk>)
    requires forall s | s in wb1 :: s !in wb2
    requires st1 == States(wb1) && st2 == States(wb2)
    ensures |left| == |ts| && |right| == |ts| && |order| == |ts|
    ensures forall k :: k in order <==> k in CommonNames(wb1, wb2)
    ensures |ts| == 0 ==> CommonNames(wb1, wb2) == {}
    ensures forall i, j | 0 <= i < |left| && 0 <= j < |right| :: left[i] != right[j]
    ensures forall i, j | 0 <= i < j < |left| :: left[i] != left[j]
    ensures forall i, j | 0 <= i < j < |right| :: right[i] != right[j]
    ensures forall i | 0 <= i < |left| :: left[i] in MatchedLeft(wb1, wb2)
    ensures forall i | 0 <= i < |right| :: right[i] in MatchedRight(wb1, wb2)
    ensures forall i | 0 <= i < |ts| ::
      ts[i] == SheetWalk(rules, SheetState(left[i].cells, left[i].maxRow, left[i].maxCol), SheetState(right[i].cells, right[i].maxRow, right[i].maxCol))
    ensures Counted(ts) == 0 <==> AllSilent(rules, wb1, wb2, st1, st2)
    ensures forall k | k in CommonNames(wb1, wb2) ::
      Position(order, k) < |right| && Left(wb1, wb2, k) == left[Position(order, k)] && Right(wb1, wb2, k) == right[Position(order, k)] &&
      TitleWalk(rules, wb1, wb2, st1, st2, k) == ts[Position(order, k)]
  {
    order, left, right := MatchSheets(wb1, wb2);
    ts := WalksOf(rules, wb1, wb2, st1, st2, order);
    Apart(wb1, wb2, order, left, right);
    Ready(rules, wb1, wb2, order, left, right, ts);
    Done(rules, wb1, wb2, st1, st2, order, left, right, ts);
  }

  /**
   * Every cleaned sheet title both workbooks show is compared under `rules`;
   * 'X' when there is none or when the walk of any pair counts a mismatch,
   * 'O' otherwise.  The sheets of each common title end as their pair's walk
   * over the workbooks as they were leaves them: V1's cells and `max_row`
   * from the walk, V2's `max_row` from the walk and its fills gaining the
   * walk's; V2's values and V1's fills are kept, and no other sheet changes.
   */
  method CompareWorkbooks(rules: Rules, wb1: seq<Sheet>, wb2: seq<Sheet>) returns (result: char, count: nat)
    requires forall s | s in wb1 :: s !in wb2
    modifies MatchedLeft(wb1, wb2), MatchedRight(wb1, wb2)
    ensures result == 'O' || result == 'X'
    ensures result == 'O' <==> CommonNames(wb1, wb2) != {} && AllSilent(rules, wb1, wb2, old(States(wb1)), old(States(wb2)))
    ensures CommonNames(wb1, wb2) != {} ==> (result == 'X' <==> count > 0)
    ensures forall k | k in CommonNames(wb1, wb2) ::
      var w := TitleWalk(rules, wb1, wb2, old(States(wb1)), old(States(wb2)), k);
      Left(wb1, wb2, k).cells == w.g1 && Left(wb1, wb2, k).maxRow == w.max1 && Left(wb1, wb2, k).fills == old(Left(wb1, wb2, k).fills) &&
      Right(wb1, wb2, k).cells == old(Right(wb1, wb2, k).cells) && Right(wb1, wb2, k).maxRow == w.max2 &&
      Right(wb1, wb2, k).fills == old(Right(wb1, wb2, k).fills) + w.fills
  {
    ghost var st1, st2 := States(wb1), States(wb2);
    var left, right, order, ts := PairSheets(rules, wb1, wb2, st1, st2);
    if |left| == 0 {
      return 'X', 0;
    }
    count := CompareEach(rules, left, right, ts);
    result := if count > 0 then 'X' else 'O';
  }

  /**
   * The loop over the common titles: the V1 sheet `left[i]` against the V2
   * sheet `right[i]`, whose walk is `ts[i]`, one pair after another.
   */
  method CompareEach(rules: Rules, left: seq<Sheet>, right: seq<Sheet>, ghost ts: seq<Walk>) returns (count: nat)
    requires |left| == |right| == |ts|
    requires forall i, j | 0 <= i < |left| && 0 <= j < |right| :: left[i] != right[j]
    requires forall i, j | 0 <= i < j < |left| :: left[i] != left[j]
    requires forall i, j | 0 <= i < j < |right| :: right[i] != right[j]
    requires forall i {:trigger SheetWalk(rules, SheetState(left[i].cells, left[i].maxRow, left[i].maxCol), SheetState(right[i].cells, right[i].maxRow, right[i].maxCol))}
      | 0 <= i < |ts| ::
      ts[i] == SheetWalk(rules, SheetState(left[i].cells, left[i].maxRow, left[i].maxCol), SheetState(right[i].cells, right[i].maxRow, right[i].maxCol))
    modifies left, right
    ensures count == Counted(ts)
    ensures forall i | 0 <= i < |left| :: left[i].cells == ts[i].g1 && left[i].maxRow == ts[i].max1 && left[i].fills == old(left[i].fills)
    ensures forall i | 0 <= i < |right| ::
      right[i].cells == old(right[i].cells) && right[i].maxRow == ts[i].max2 && right[i].fills == old(right[i].fills) + ts[i].fills
  {
    count := 0;
    for i := 0 to |right|
      invariant forall j | 0 <= j < i ::
        left[j].cells == ts[j].g1 && left[j].maxRow == ts[j].max1 && right[j].maxRow == ts[j].max2 && right[j].fills == old(right[j].fills) + ts[j].fills
      invariant forall j | 0 <= j < |left| :: left[j].fills == old(left[j].fills) && right[j].cells == old(right[j].cells)
      invariant forall j | i <= j < |left| :: unchanged(left[j], right[j])
      invariant count == Counted(ts[..i])
    {
      assert ts[..i + 1][..i] == ts[..i];
      var c := CompareStep(rules, left[i], right[i], ts[i]);
      count := count + c;
    }
    assert ts[..|ts|] == ts;
  }

  /** One pass of the loop: the pair `s1`, `s2` compared, `w` being its walk. */
  method CompareStep(rules: Rules, s1: Sheet, s2: Sheet, ghost w: Walk) returns (count: nat)
    requires s1 != s2
    requires w == SheetWalk(rules, SheetState(s1.cells, s1.maxRow, s1.maxCol), SheetState(s2.cells, s2.maxRow, s2.maxCol))
    modifies s1, s2
    ensures count == w.count
    ensures s1.cells == w.g1 && s1.maxRow == w.max1 && s1.fills == old(s1.fills)
    ensures s2.cells == old(s2.cells) && s2.maxRow == w.max2 && s2.fills == old(s2.fills) + w.fills
  {
    count := ComparePair(rules, s1, s2);
  }

  /**
   * `compare_excel_files`: the workbooks compared with version 3.2's
   * judgement for the first file's name.
   */
  method CompareExcelFiles(wb1: seq<Sheet>, wb2: seq<Sheet>, path1: string) returns (result: char, count: nat)
    requires forall s | s in wb1 :: s !in wb2
    modifies MatchedLeft(wb1, wb2), MatchedRight(wb1, wb2)
    ensures result == 'O' || result == 'X'
    ensures result == 'O' <==> CommonNames(wb1, wb2) != {} && AllPairsPass(Rules32(BaseName(path1)), wb1, wb2, old(States(wb1)), old(States(wb2)))
    ensures forall k | k in CommonNames(wb1, wb2) ::
      var w := TitleWalk(Rules32(BaseName(path1)), wb1, wb2, old(States(wb1)), old(States(wb2)), k);
      Left(wb1, wb2, k).cells == w.g1 && Left(wb1, wb2, k).maxRow == w.max1 && Left(wb1, wb2, k).fills == old(Left(wb1, wb2, k).fills) &&
      Right(wb1, wb2, k).cells == old(Right(wb1, wb2, k).cells) && Right(wb1, wb2, k).maxRow == w.max2 &&
      Right(wb1, wb2, k).fills == old(Right(wb1, wb2, k).fills) + w.fills
  {
    AllSilentPass(Rules32(BaseName(path1)), wb1, wb2, States(wb1), States(wb2));
    result, count := CompareWorkbooks(Rules32(BaseName(path1)), wb1, wb2);
  }
}
