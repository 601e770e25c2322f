/**
 * `get_comparison_columns`: which column of V1 is compared with which column of
 * V2.  The attendance scripts and the report use the "勤務表" band table, which
 * leaves out V2 column 13 and realigns the columns after it; version 3.2
 * layers the "申請書" displacement on top; the shift script compares the
 * columns before 39 of "シフト" sheets one to one.
 */
module Columns {
  import opened Wrappers
  import opened Text
  import opened Values

  /**
   * The "勤務表" band table of `kinmu_compare` (both versions), keyed on the name
   * it is given.  Columns 27 to 29 map to themselves although the comment above
   * the branch speaks of subtracting one.
   */
  function KinmuColumns(col: int, name: string): (r: Option<(int, int)>)
    ensures !Contains(name, "勤務表") ==> r == Some((col, col))
    ensures Contains(name, "勤務表") ==>
      (col <= 12 ==> r == Some((col, col)))
      && (col == 13 ==> r == None)
      && (14 <= col <= 26 ==> r == Some((col - 1, col)))
      && (27 <= col <= 29 ==> r == Some((col, col)))
      && (col == 30 ==> r == Some((26, 30)))
      && (31 <= col <= 33 ==> r == Some((col - 1, col)))
      && (col >= 34 ==> r == None)
  {
    if Contains(name, "勤務表") then
      if col < 13 then Some((col, col))
      else if col == 13 then None
      else if 14 <= col <= 33 then
        if col > 26 then
          if col == 30 then Some((col - 4, col))
          else if col > 30 then Some((col - 1, col))
          else Some((col, col))
        else Some((col - 1, col))
      else None
    else Some((col, col))
  }

  /** The V2 column is always the column being walked, and the V1 column never lies after it. */
  lemma KinmuColumnsV2(col: int, name: string)
    requires KinmuColumns(col, name).Some?
    ensures KinmuColumns(col, name).value.1 == col
    ensures KinmuColumns(col, name).value.0 <= col
  {
  }

  /**
   * The "申請書" displacement of version 3.2: once V2 cell (8, 21) holds
   * "申請書", from row 8 on, a V2 column from 21 moves its V1 column.
   */
  function ApplicationShift(col1: int, col2: int, row: int, marker: Cell): (c: int)
    ensures !(col2 >= 21 && row >= 8 && marker == TextCell("申請書")) ==> c == col1
    ensures col2 >= 21 && row >= 8 && marker == TextCell("申請書") ==>
      (22 <= col2 <= 24 ==> c == col1 + 6)
      && (col2 == 25 ==> c == 26)
      && (col2 >= 27 ==> c == col1 + 4)
      && (col2 == 21 || col2 == 26 ==> c == col1 + 5)
  {
    if col2 >= 21 && row >= 8 then
      if marker == TextCell("申請書") then
        if col2 > 21 && col2 < 25 then col1 + 6
        else if col2 == 25 then 26
        else if col2 >= 27 then col1 + 4
        else col1 + 5
      else col1
    else col1
  }

  /** The columns version 3.2 compares on a "勤務表" file once the "申請書" marker is present. */
  lemma MarkedColumns(col: int, row: int, name: string)
    requires Contains(name, "勤務表") && row >= 8 && 21 <= col <= 33
    ensures var p := KinmuColumns(col, name);
      p.Some? && ApplicationShift(p.value.0, p.value.1, row, TextCell("申請書")) ==
        if col == 21 then 25
        else if col <= 24 then col + 5
        else if col == 25 then 26
        else if col == 26 then 30
        else if col <= 29 then col + 4
        else if col == 30 then 30
        else col + 3
  {
  }

  /**
   * The "シフト" map of the shift script: the columns before 39 of a file whose
   * name holds "シフト", one to one.  Any other name gives nothing at all.
   */
  function ShiftColumns(col: int, name: string): (r: Option<(int, int)>)
    ensures r.Some? <==> Contains(name, "シフト") && col < 39
    ensures r.Some? ==> r.value == (col, col)
  {
    if Contains(name, "シフト") then
      if col < 39 then Some((col, col)) else None
    else None
  }

  /** The report's compact map, keyed on the V1 title. */
  function ReportColumns(col: int, name: string): (r: Option<(int, int)>)
  {
    if Contains(name, "勤務表") then
      if col < 13 then Some((col, col))
      else if col == 13 then None
      else if 14 <= col <= 33 then
        if col > 26 then
          if col == 30 then Some((26, 30))
          else if col > 30 then Some((col - 1, col))
          else Some((col, col))
        else Some((col - 1, col))
      else None
    else Some((col, col))
  }

  /** The report's map is the attendance band table, column for column. */
  lemma ReportColumnsAgree(col: int, name: string)
    ensures ReportColumns(col, name) == KinmuColumns(col, name)
  {
  }

  /** The 0-based pairs of the columns 1 to `n` that the map does not skip, in order. */
  function ColumnPairs(name: string, n: int): seq<(int, int)>
    decreases n
  {
    if n <= 0 then []
    else
      var p := ReportColumns(n, name);
      ColumnPairs(name, n - 1) + (if p.Some? then [(p.value.0 - 1, p.value.1 - 1)] else [])
  }

  /** The report's loop that precomputes the columns to compare. */
  method ColumnList(name: string, maxCol: int) returns (columns: seq<(int, int)>)
    ensures columns == ColumnPairs(name, maxCol)
  {
    columns := [];
    var col := 1;
    while col <= maxCol
      invariant 1 <= col && (col <= maxCol + 1 || col == 1)
      invariant columns == ColumnPairs(name, col - 1)
    {
      var cols := ReportColumns(col, name);
      if cols.Some? {
        columns := columns + [(cols.value.0 - 1, cols.value.1 - 1)];
      }
      col := col + 1;
    }
    assert maxCol < 1 ==> ColumnPairs(name, maxCol) == [] && col == 1;
  }

  /** A pair is listed exactly when some column up to `n` maps to it. */
  lemma {:induction false} ColumnPairsMembers(name: string, n: int, q: (int, int))
    ensures q in ColumnPairs(name, n)
      <==> exists c :: 1 <= c <= n && ReportColumns(c, name) == Some((q.0 + 1, q.1 + 1))
    decreases n
  {
    if n > 0 {
      ColumnPairsMembers(name, n - 1, q);
      ColumnPairsStep(name, n, q);
      if ReportColumns(n, name) == Some((q.0 + 1, q.1 + 1)) {
        assert exists c :: 1 <= c <= n && ReportColumns(c, name) == Some((q.0 + 1, q.1 + 1));
      }
      if exists c :: 1 <= c <= n && ReportColumns(c, name) == Some((q.0 + 1, q.1 + 1)) {
        var c :| 1 <= c <= n && ReportColumns(c, name) == Some((q.0 + 1, q.1 + 1));
        assert c < n ==> exists c' :: 1 <= c' <= n - 1 && ReportColumns(c', name) == Some((q.0 + 1, q.1 + 1));
      }
    }
  }

  /** Column `n` adds its pair, if it has one, to those of the columns before it. */
  lemma ColumnPairsStep(name: string, n: int, q: (int, int))
    requires n > 0
    ensures q in ColumnPairs(name, n)
      <==> q in ColumnPairs(name, n - 1) || ReportColumns(n, name) == Some((q.0 + 1, q.1 + 1))
  {
    var p := ReportColumns(n, name);
    if p.Some? && q == (p.value.0 - 1, p.value.1 - 1) {
      assert ReportColumns(n, name) == Some((q.0 + 1, q.1 + 1));
    }
  }

  /** The V2 columns of the list strictly increase, one entry per column kept, and stay below `n`. */
  lemma {:induction false} ColumnPairsIncreasing(name: string, n: int)
    ensures forall i, j :: 0 <= i < j < |ColumnPairs(name, n)| ==>
      ColumnPairs(name, n)[i].1 < ColumnPairs(name, n)[j].1
    ensures forall i :: 0 <= i < |ColumnPairs(name, n)| ==> 0 <= ColumnPairs(name, n)[i].1 < n
    decreases n
  {
    if n > 0 {
      ColumnPairsIncreasing(name, n - 1);
      ReportColumnsAgree(n, name);
    }
  }
}
