/**
 * Version 1 of `compare_excel_files` in `kinmu_compare`: every matched sheet
 * pair is walked cell by cell over the larger of the two sheets, row `r` of V1
 * against row `r` of V2, and each pair of cells goes through the shorter
 * chain.  Nothing is written to V1; V2 is only painted.
 *
 * The walk is stated for any judgement of a cell pair, and instantiated with
 * version 1's chain (`Chain.Cell1`) only in `CompareExcelFiles`.
 */
module Kinmu1 {
  import opened Sheets
  import opened Columns
  import opened Chain
  import Kinmu32

  /** The judgement of one cell pair: V1's grid, V2's grid, the row and the loop's column. */
  type Judge = (Grid, Grid, int, int) -> Step

  /** Version 1's judgement, for the first file's name. */
  function Judge1(name: string): Judge {
    (g1, g2, row, col) => Cell1(g1, g2, name, row, col)
  }

  /** Every judgement version 1 makes is a verdict: its chain never copies or stops a row. */
  ghost predicate VerdictsOnly(judge: Judge) {
    forall g1, g2, row, col :: Verdict(judge(g1, g2, row, col))
  }

  lemma Judge1Verdicts(name: string)
    ensures VerdictsOnly(Judge1(name))
  {
    forall g1, g2, row, col ensures Verdict(Judge1(name)(g1, g2, row, col)) {
      var r := Cell1(g1, g2, name, row, col);
    }
  }

  /**
   * A cell the chain does not pass is read from the loop's column of V2, so
   * painting `(row, col2)` paints the loop's own cell.
   */
  lemma Judge1Column(g1: Grid, g2: Grid, name: string, row: int, col: int)
    requires Cell1(g1, g2, name, row, col) != Pass
    ensures KinmuColumns(col, name).Some? && KinmuColumns(col, name).value.1 == col
  {
    KinmuColumnsV2(col, name);
  }

  /** The cells of rows `r0..r1` and columns `c0..c1` that `judge` sends to step `s`. */
  function Marked(judge: Judge, g1: Grid, g2: Grid, r0: int, r1: int, c0: int, c1: int, s: Step): set<(int, int)> {
    set r, c | r0 <= r <= r1 && c0 <= c <= c1 && judge(g1, g2, r, c) == s :: (r, c)
  }

  /** What the walk leaves behind: the cells painted and the mismatches counted. */
  datatype Tally = Tally(fills: set<(int, int)>, count: nat)

  /** The column loop of `row` from column `col` on. */
  function ColumnsFrom(judge: Judge, g1: Grid, g2: Grid, row: int, col: int, colMax: int): Tally
    decreases colMax - col
  {
    if col > colMax then Tally({}, 0)
    else
      var t := ColumnsFrom(judge, g1, g2, row, col + 1, colMax);
      match judge(g1, g2, row, col)
      case Flag => Tally({(row, col)} + t.fills, t.count + 1)
      case Fail => Tally(t.fills, t.count + 1)
      case _ => t
  }

  /** The row loop from row `row` on. */
  function RowsFrom(judge: Judge, g1: Grid, g2: Grid, row: int, rowMax: int, colMax: int): Tally
    decreases rowMax - row
  {
    if row > rowMax then Tally({}, 0)
    else
      var t := ColumnsFrom(judge, g1, g2, row, 1, colMax);
      var u := RowsFrom(judge, g1, g2, row + 1, rowMax, colMax);
      Tally(t.fills + u.fills, t.count + u.count)
  }

  /** Column `c0` split off the front of a row's marked cells. */
  lemma MarkedFirstColumn(judge: Judge, g1: Grid, g2: Grid, row: int, c0: int, c1: int, s: Step)
    requires c0 <= c1
    ensures Marked(judge, g1, g2, row, row, c0, c1, s) ==
      (if judge(g1, g2, row, c0) == s then {(row, c0)} else {}) + Marked(judge, g1, g2, row, row, c0 + 1, c1, s)
    ensures (row, c0) !in Marked(judge, g1, g2, row, row, c0 + 1, c1, s)
  {
  }

  /** Row `r0` split off the front of a block's marked cells. */
  lemma MarkedFirstRow(judge: Judge, g1: Grid, g2: Grid, r0: int, r1: int, c0: int, c1: int, s: Step)
    requires r0 <= r1
    ensures Marked(judge, g1, g2, r0, r1, c0, c1, s) ==
      Marked(judge, g1, g2, r0, r0, c0, c1, s) + Marked(judge, g1, g2, r0 + 1, r1, c0, c1, s)
    ensures Marked(judge, g1, g2, r0, r0, c0, c1, s) * Marked(judge, g1, g2, r0 + 1, r1, c0, c1, s) == {}
  {
  }

  /**
   * One row paints exactly the cells judged `Flag` and counts one mismatch
   * for each cell judged `Flag` or `Fail`.
   */
  lemma {:induction false} ColumnsFromMeaning(judge: Judge, g1: Grid, g2: Grid, row: int, col: int, colMax: int)
    ensures ColumnsFrom(judge, g1, g2, row, col, colMax).fills == Marked(judge, g1, g2, row, row, col, colMax, Flag)
    ensures ColumnsFrom(judge, g1, g2, row, col, colMax).count ==
      |Marked(judge, g1, g2, row, row, col, colMax, Flag)| + |Marked(judge, g1, g2, row, row, col, colMax, Fail)|
    decreases colMax - col
  {
    if col > colMax {
      assert Marked(judge, g1, g2, row, row, col, colMax, Flag) == {};
      assert Marked(judge, g1, g2, row, row, col, colMax, Fail) == {};
    } else {
      ColumnsFromMeaning(judge, g1, g2, row, col + 1, colMax);
      MarkedFirstColumn(judge, g1, g2, row, col, colMax, Flag);
      MarkedFirstColumn(judge, g1, g2, row, col, colMax, Fail);
    }
  }

  /**
   * The whole walk paints exactly the cells judged `Flag` and counts one
   * mismatch for each cell judged `Flag` or `Fail`.
   */
  lemma {:induction false} RowsFromMeaning(judge: Judge, g1: Grid, g2: Grid, row: int, rowMax: int, colMax: int)
    ensures RowsFrom(judge, g1, g2, row, rowMax, colMax).fills == Marked(judge, g1, g2, row, rowMax, 1, colMax, Flag)
    ensures RowsFrom(judge, g1, g2, row, rowMax, colMax).count ==
      |Marked(judge, g1, g2, row, rowMax, 1, colMax, Flag)| + |Marked(judge, g1, g2, row, rowMax, 1, colMax, Fail)|
    decreases rowMax - row
  {
    if row > rowMax {
      assert Marked(judge, g1, g2, row, rowMax, 1, colMax, Flag) == {};
      assert Marked(judge, g1, g2, row, rowMax, 1, colMax, Fail) == {};
    } else {
      ColumnsFromMeaning(judge, g1, g2, row, 1, colMax);
      RowsFromMeaning(judge, g1, g2, row + 1, rowMax, colMax);
      MarkedFirstRow(judge, g1, g2, row, rowMax, 1, colMax, Flag);
      MarkedFirstRow(judge, g1, g2, row, rowMax, 1, colMax, Fail);
    }
  }

  /** The walk counts nothing exactly when every cell pair it reaches passes. */
  lemma RowsFromSilent(judge: Judge, g1: Grid, g2: Grid, rowMax: int, colMax: int)
    requires VerdictsOnly(judge)
    ensures RowsFrom(judge, g1, g2, 1, rowMax, colMax).count == 0 <==>
      forall r, c :: 1 <= r <= rowMax && 1 <= c <= colMax ==> judge(g1, g2, r, c) == Pass
  {
    RowsFromMeaning(judge, g1, g2, 1, rowMax, colMax);
    if RowsFrom(judge, g1, g2, 1, rowMax, colMax).count == 0 {
      forall r, c | 1 <= r <= rowMax && 1 <= c <= colMax ensures judge(g1, g2, r, c) == Pass {
        assert (r, c) !in Marked(judge, g1, g2, 1, rowMax, 1, colMax, Flag);
        assert (r, c) !in Marked(judge, g1, g2, 1, rowMax, 1, colMax, Fail);
      }
    } else {
      var m := Marked(judge, g1, g2, 1, rowMax, 1, colMax, Flag) + Marked(judge, g1, g2, 1, rowMax, 1, colMax, Fail);
      assert m != {};
      var p :| p in m;
      assert judge(g1, g2, p.0, p.1) != Pass;
    }
  }

  /** The column loop of one row; `sheet2.cell(row, col2)` is the loop's cell. */
  method CompareRow(judge: Judge, s1: Sheet, s2: Sheet, row: int, colMax: int) returns (count: nat)
    requires s1 != s2 && row >= 1
    modifies s2
    ensures var t := ColumnsFrom(judge, s1.cells, old(s2.cells), row, 1, colMax);
      s2.fills == old(s2.fills) + t.fills && count == t.count
    ensures s2.cells == old(s2.cells)
  {
    ghost var added: set<(int, int)> := {};
    count := 0;
    var col := 1;
    while col <= colMax
      invariant 1 <= col
      invariant s2.cells == old(s2.cells)
      invariant s2.fills == old(s2.fills) + added
      invariant var t := ColumnsFrom(judge, s1.cells, s2.cells, row, 1, colMax);
        var u := ColumnsFrom(judge, s1.cells, s2.cells, row, col, colMax);
        t.fills == added + u.fills && t.count == count + u.count
      decreases colMax - col
    {
      var step := judge(s1.cells, s2.cells, row, col);
      if step == Flag {
        s2.Highlight(row, col);
        added := added + {(row, col)};
        count := count + 1;
      } else if step == Fail {
        count := count + 1;
      }
      col := col + 1;
    }
  }

  /** One pair of matched sheets, walked over the larger `max_row` and `max_column`. */
  method ComparePair(judge: Judge, s1: Sheet, s2: Sheet) returns (count: nat)
    requires s1 != s2
    modifies s2
    ensures var t := RowsFrom(judge, s1.cells, old(s2.cells), 1, Max(s1.maxRow, old(s2.maxRow)), Max(s1.maxCol, old(s2.maxCol)));
      s2.fills == old(s2.fills) + t.fills && count == t.count
    ensures s2.cells == old(s2.cells)
  {
    var rowMax := Max(s1.maxRow, s2.maxRow);
    var colMax := Max(s1.maxCol, s2.maxCol);
    ghost var added: set<(int, int)> := {};
    count := 0;
    var row := 1;
    while row <= rowMax
      invariant 1 <= row
      invariant s2.cells == old(s2.cells)
      invariant s2.fills == old(s2.fills) + added
      invariant var t := RowsFrom(judge, s1.cells, s2.cells, 1, rowMax, colMax);
        var u := RowsFrom(judge, s1.cells, s2.cells, row, rowMax, colMax);
        t.fills == added + u.fills && t.count == count + u.count
      decreases rowMax - row
    {
      var c := CompareRow(judge, s1, s2, row, colMax);
      added := added + ColumnsFrom(judge, s1.cells, s2.cells, row, 1, colMax).fills;
      count := count + c;
      row := row + 1;
    }
  }

  /** Every cell pair of rows `1..rowMax` and columns `1..colMax` passes. */
  ghost predicate EveryCellPasses(judge: Judge, g1: Grid, g2: Grid, rowMax: int, colMax: int) {
    forall r, c :: 1 <= r <= rowMax && 1 <= c <= colMax ==> judge(g1, g2, r, c) == Pass
  }

  /** The walk of one sheet pair over the larger `max_row` and `max_column`. */
  function SheetWalk(judge: Judge, a: SheetState, b: SheetState): Tally {
    RowsFrom(judge, a.cells, b.cells, 1, Max(a.maxRow, b.maxRow), Max(a.maxCol, b.maxCol))
  }

  /** The walk of the sheet pair matched under the common cleaned title `k`, over the sheet states `st1` and `st2`. */
  function TitleWalk(judge: Judge, wb1: seq<Sheet>, wb2: seq<Sheet>, st1: seq<SheetState>, st2: seq<SheetState>, k: string): Tally
    requires |st1| == |wb1| && |st2| == |wb2| && k in CommonNames(wb1, wb2)
  {
    SheetWalk(judge, st1[LeftAt(wb1, wb2, k)], st2[RightAt(wb1, wb2, k)])
  }

  /** No walk of a matched sheet pair counts a mismatch. */
  predicate AllSilent(judge: Judge, wb1: seq<Sheet>, wb2: seq<Sheet>, st1: seq<SheetState>, st2: seq<SheetState>)
    requires |st1| == |wb1| && |st2| == |wb2|
  {
    forall k | k in CommonNames(wb1, wb2) :: TitleWalk(judge, wb1, wb2, st1, st2, k).count == 0
  }

  /** Every matched sheet pair has every cell pair of its walk passing. */
  ghost predicate AllPairsPass(judge: Judge, wb1: seq<Sheet>, wb2: seq<Sheet>, st1: seq<SheetState>, st2: seq<SheetState>)
    requires |st1| == |wb1| && |st2| == |wb2|
  {
    forall k | k in CommonNames(wb1, wb2) ::
      var a := st1[LeftAt(wb1, wb2, k)];
      var b := st2[RightAt(wb1, wb2, k)];
      EveryCellPasses(judge, a.cells, b.cells, Max(a.maxRow, b.maxRow), Max(a.maxCol, b.maxCol))
  }

  /** With a judgement that only gives verdicts, no walk counts exactly when every cell pair passes. */
  lemma AllSilentPass(judge: Judge, wb1: seq<Sheet>, wb2: seq<Sheet>, st1: seq<SheetState>, st2: seq<SheetState>)
    requires VerdictsOnly(judge)
    requires |st1| == |wb1| && |st2| == |wb2|
    ensures AllSilent(judge, wb1, wb2, st1, st2) <==> AllPairsPass(judge, wb1, wb2, st1, st2)
  {
    forall k | k in CommonNames(wb1, wb2)
      ensures var a := st1[LeftAt(wb1, wb2, k)];
        var b := st2[RightAt(wb1, wb2, k)];
        TitleWalk(judge, wb1, wb2, st1, st2, k).count == 0 <==>
        EveryCellPasses(judge, a.cells, b.cells, Max(a.maxRow, b.maxRow), Max(a.maxCol, b.maxCol))
    {
      var a := st1[LeftAt(wb1, wb2, k)];
      var b := st2[RightAt(wb1, wb2, k)];
      RowsFromSilent(judge, a.cells, b.cells, Max(a.maxRow, b.maxRow), Max(a.maxCol, b.maxCol));
    }
  }

  /** The walks of the titles of `order`, in that order. */
  function WalksOf(judge: Judge, wb1: seq<Sheet>, wb2: seq<Sheet>, st1: seq<SheetState>, st2: seq<SheetState>,
                   order: seq<string>): (ts: seq<Tally>)
    requires |st1| == |wb1| && |st2| == |wb2|
    requires forall i | 0 <= i < |order| :: order[i] in CommonNames(wb1, wb2)
    ensures |ts| == |order|
    ensures forall i | 0 <= i < |order| :: ts[i] == TitleWalk(judge, wb1, wb2, st1, st2, order[i])
  {
    seq(|order|, i requires 0 <= i < |order| => TitleWalk(judge, wb1, wb2, st1, st2, order[i]))
  }

  /** The mismatches the walks `ts` count, one after another. */
  function Counted(ts: seq<Tally>): nat {
    if |ts| == 0 then 0 else Counted(ts[..|ts| - 1]) + ts[|ts| - 1].count
  }

  /** Walks counted one after another count nothing exactly when each counts nothing. */
  lemma {:induction false} CountedSilent(ts: seq<Tally>)
    ensures Counted(ts) == 0 <==> forall i | 0 <= i < |ts| :: ts[i].count == 0
  {
    if |ts| > 0 {
      CountedSilent(ts[..|ts| - 1]);
    }
  }

  /** The walks of the titles of `order` are the walks of the sheets `left[i]` and `right[i]` as they stand. */
  lemma Ready(judge: Judge, wb1: seq<Sheet>, wb2: seq<Sheet>, order: seq<string>, left: seq<Sheet>, right: seq<Sheet>, ts: seq<Tally>)
    requires |left| == |order| && |right| == |order|
    requires forall i | 0 <= i < |order| ::
      order[i] in CommonNames(wb1, wb2) && left[i] == Left(wb1, wb2, order[i]) && right[i] == Right(wb1, wb2, order[i])
    requires ts == WalksOf(judge, wb1, wb2, States(wb1), States(wb2), order)
    ensures forall i | 0 <= i < |ts| ::
      ts[i] == SheetWalk(judge, SheetState(left[i].cells, left[i].maxRow, left[i].maxCol), SheetState(right[i].cells, right[i].maxRow, right[i].maxCol))
  {
  }

  /**
   * After the loop: each common title `k` was compared at `Position(order, k)`,
   * and the count is nil exactly when no title's walk counted.
   */
  lemma Done(judge: Judge, wb1: seq<Sheet>, wb2: seq<Sheet>, st1: seq<SheetState>, st2: seq<SheetState>,
             order: seq<string>, right: seq<Sheet>, ts: seq<Tally>)
    requires |st1| == |wb1| && |st2| == |wb2|
    requires forall k :: k in order <==> k in CommonNames(wb1, wb2)
    requires |right| == |order|
    requires forall i | 0 <= i < |order| :: order[i] in CommonNames(wb1, wb2) && right[i] == Right(wb1, wb2, order[i])
    requires ts == WalksOf(judge, wb1, wb2, st1, st2, order)
    ensures Counted(ts) == 0 <==> AllSilent(judge, wb1, wb2, st1, st2)
    ensures forall k | k in CommonNames(wb1, wb2) ::
      Position(order, k) < |right| && Right(wb1, wb2, k) == right[Position(order, k)] &&
      TitleWalk(judge, wb1, wb2, st1, st2, k) == ts[Position(order, k)]
  {
    CountedSilent(ts);
  }

  /**
   * The pairs the comparison loop visits: the V1 and V2 sheets of each common
   * title, distinct sheets, with `ts` their walks over the sheet states `st1`
   * and `st2`; the title `k` sits at `Position(order, k)`.
   */
  method PairSheets(judge: Judge, wb1: seq<Sheet>, wb2: seq<Sheet>, ghost st1: seq<SheetState>, ghost st2: seq<SheetState>)
    returns (left: seq<Sheet>, right: seq<Sheet>, ghost order: seq<string>, ghost ts: seq<Tally>)
    requires forall s | s in wb1 :: s !in wb2
    requires st1 == States(wb1) && st2 == States(wb2)
    ensures |left| == |ts| && |right| == |ts| && |order| == |ts|
    ensures forall k :: k in order <==> k in CommonNames(wb1, wb2)
    ensures |ts| == 0 ==> CommonNames(wb1, wb2) == {}
    ensures forall i, j | 0 <= i < |left| && 0 <= j < |right| :: left[i] != right[j]
    ensures forall i, j | 0 <= i < j < |right| :: right[i] != right[j]
    ensures forall i | 0 <= i < |right| :: right[i] in MatchedRight(wb1, wb2)
    ensures forall i | 0 <= i < |ts| ::
      ts[i] == SheetWalk(judge, SheetState(left[i].cells, left[i].maxRow, left[i].maxCol), SheetState(right[i].cells, right[i].maxRow, right[i].maxCol))
    ensures Counted(ts) == 0 <==> AllSilent(judge, wb1, wb2, st1, st2)
    ensures forall k | k in CommonNames(wb1, wb2) ::
      Position(order, k) < |right| && Right(wb1, wb2, k) == right[Position(order, k)] &&
      TitleWalk(judge, wb1, wb2, st1, st2, k) == ts[Position(order, k)]
  {
    order, left, right := MatchSheets(wb1, wb2);
    ts := WalksOf(judge, wb1, wb2, st1, st2, order);
    Apart(wb1, wb2, order, left, right);
    Ready(judge, wb1, wb2, order, left, right, ts);
    Done(judge, wb1, wb2, st1, st2, order, right, ts);
  }

  /**
   * Every cleaned sheet title both workbooks show is compared; 'X' when there
   * is none or when the walk of any pair counts a mismatch, 'O' otherwise.
   * The V2 sheet of each common title gains the fills of its pair's walk over
   * the workbooks as they were; no other sheet changes.
   */
  method CompareWorkbooks(judge: Judge, wb1: seq<Sheet>, wb2: seq<Sheet>) returns (result: char, count: nat)
    requires forall s | s in wb1 :: s !in wb2
    modifies MatchedRight(wb1, wb2)
    ensures result == 'O' || result == 'X'
    ensures result == 'O' <==> CommonNames(wb1, wb2) != {} && AllSilent(judge, wb1, wb2, old(States(wb1)), old(States(wb2)))
    ensures CommonNames(wb1, wb2) != {} ==> (result == 'X' <==> count > 0)
    ensures forall k | k in CommonNames(wb1, wb2) ::
      Right(wb1, wb2, k).cells == old(Right(wb1, wb2, k).cells) &&
      Right(wb1, wb2, k).fills == old(Right(wb1, wb2, k).fills) + TitleWalk(judge, wb1, wb2, old(States(wb1)), old(States(wb2)), k).fills
  {
    ghost var st1, st2 := States(wb1), States(wb2);
    var left, right, order, ts := PairSheets(judge, wb1, wb2, st1, st2);
    if |left| == 0 {
      return 'X', 0;
    }
    count := CompareEach(judge, left, right, ts);
    result := if count > 0 then 'X' else 'O';
  }

  /**
   * The loop over the common titles: the V1 sheet `left[i]` against the V2
   * sheet `right[i]`, whose walk is `ts[i]`, one pair after another.
   */
  method CompareEach(judge: Judge, left: seq<Sheet>, right: seq<Sheet>, ghost ts: seq<Tally>) returns (count: nat)
    requires |left| == |right| == |ts|
    requires forall i, j | 0 <= i < |left| && 0 <= j < |right| :: left[i] != right[j]
    requires forall i, j | 0 <= i < j < |right| :: right[i] != right[j]
    requires forall i | 0 <= i < |ts| ::
      ts[i] == SheetWalk(judge, SheetState(left[i].cells, left[i].maxRow, left[i].maxCol), SheetState(right[i].cells, right[i].maxRow, right[i].maxCol))
    modifies right
    ensures count == Counted(ts)
    ensures forall i | 0 <= i < |right| :: right[i].cells == old(right[i].cells) && right[i].fills == old(right[i].fills) + ts[i].fills
  {
    count := 0;
    for i := 0 to |right|
      invariant forall j | 0 <= j < |right| :: right[j].cells == old(right[j].cells)
      invariant forall j | i <= j < |right| :: right[j].maxRow == old(right[j].maxRow) && right[j].maxCol == old(right[j].maxCol)
      invariant forall j | 0 <= j < |right| :: right[j].fills == old(right[j].fills) + (if j < i then ts[j].fills else {})
      invariant count == Counted(ts[..i])
    {
      assert ts[..i + 1][..i] == ts[..i];
      var c := ComparePair(judge, left[i], right[i]);
      count := count + c;
    }
    assert ts[..|ts|] == ts;
  }

  /**
   * `compare_excel_files`: the workbooks compared with version 1's chain for
   * the first file's name.  'O' exactly when some title is shared and every
   * cell pair of every matched sheet pair passes that chain.
   */
  method CompareExcelFiles(wb1: seq<Sheet>, wb2: seq<Sheet>, path1: string) returns (result: char, count: nat)
    requires forall s | s in wb1 :: s !in wb2
    modifies MatchedRight(wb1, wb2)
    ensures result == 'O' || result == 'X'
    ensures result == 'O' <==>
      CommonNames(wb1, wb2) != {} && AllPairsPass(Judge1(Kinmu32.BaseName(path1)), wb1, wb2, old(States(wb1)), old(States(wb2)))
    ensures forall k | k in CommonNames(wb1, wb2) ::
      Right(wb1, wb2, k).cells == old(Right(wb1, wb2, k).cells) &&
      Right(wb1, wb2, k).fills ==
        old(Right(wb1, wb2, k).fills) + TitleWalk(Judge1(Kinmu32.BaseName(path1)), wb1, wb2, old(States(wb1)), old(States(wb2)), k).fills
  {
    var judge := Judge1(Kinmu32.BaseName(path1));
    Judge1Verdicts(Kinmu32.BaseName(path1));
    AllSilentPass(judge, wb1, wb2, States(wb1), States(wb2));
    result, count := CompareWorkbooks(judge, wb1, wb2);
  }
}
