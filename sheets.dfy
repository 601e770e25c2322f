/**
 * Worksheets as the comparison scripts see them through openpyxl, and the sheet
 * matcher: `extract_sheet_name_string` and the pairing of visible sheets by
 * their cleaned titles.
 */
module Sheets {
  import opened Text
  import opened Values

  /** The cells that exist, keyed by 1-based (row, column); openpyxl keeps a dictionary too. */
  type Grid = map<(int, int), Cell>

  /** A cell that does not exist reads as `None`. */
  function At(g: Grid, r: int, c: int): Cell {
    if (r, c) in g then g[(r, c)] else Blank
  }

  function Max(a: int, b: int): int { if a < b then b else a }

  /**
   * One worksheet.  `maxRow` and `maxCol` are openpyxl's `max_row` and
   * `max_column`, which grow whenever `cell()` is called further out, even to
   * read; `fills` holds the cells painted yellow.
   */
  class Sheet {
    const title: string
    const visible: bool
    var cells: Grid
    var maxRow: nat
    var maxCol: nat
    var fills: set<(int, int)>

    constructor (title: string, visible: bool, cells: Grid, maxRow: nat, maxCol: nat)
      ensures this.title == title && this.visible == visible
      ensures this.cells == cells && this.maxRow == maxRow && this.maxCol == maxCol
      ensures fills == {}
    {
      this.title := title;
      this.visible := visible;
      this.cells := cells;
      this.maxRow := maxRow;
      this.maxCol := maxCol;
      fills := {};
    }

    function Get(r: int, c: int): Cell
      reads this
    {
      At(cells, r, c)
    }

    /** `sheet.cell(r, c)`: the value is unchanged, but the cell now exists. */
    method Touch(r: int, c: int)
      requires r >= 1 && c >= 1
      modifies this
      ensures cells == old(cells) && fills == old(fills)
      ensures maxRow == Max(old(maxRow), r) && maxCol == Max(old(maxCol), c)
    {
      if maxRow < r {
        maxRow := r;
      }
      if maxCol < c {
        maxCol := c;
      }
    }

    /** `sheet.cell(r, c).value = v`. */
    method Put(r: int, c: int, v: Cell)
      requires r >= 1 && c >= 1
      modifies this
      ensures cells == old(cells)[(r, c) := v] && fills == old(fills)
      ensures maxRow == Max(old(maxRow), r) && maxCol == Max(old(maxCol), c)
    {
      cells := cells[(r, c) := v];
      Touch(r, c);
    }

    /** `sheet.cell(r, c).fill = yellow`. */
    method Highlight(r: int, c: int)
      requires r >= 1 && c >= 1
      modifies this
      ensures fills == old(fills) + {(r, c)} && cells == old(cells)
      ensures maxRow == Max(old(maxRow), r) && maxCol == Max(old(maxCol), c)
    {
      fills := fills + {(r, c)};
      Touch(r, c);
    }
  }

  /** What a walk reads of a sheet: its cells and its dimensions. */
  datatype SheetState = SheetState(cells: Grid, maxRow: nat, maxCol: nat)

  function StateOf(s: Sheet): (st: SheetState)
    reads s
    ensures st.cells == s.cells && st.maxRow == s.maxRow && st.maxCol == s.maxCol
  {
    SheetState(s.cells, s.maxRow, s.maxCol)
  }

  /** The state of every sheet of a workbook, in order. */
  function States(wb: seq<Sheet>): (sts: seq<SheetState>)
    reads wb
    ensures |sts| == |wb|
    ensures forall i :: 0 <= i < |wb| ==> sts[i] == SheetState(wb[i].cells, wb[i].maxRow, wb[i].maxCol)
  {
    if |wb| == 0 then [] else States(wb[..|wb| - 1]) + [SheetState(wb[|wb| - 1].cells, wb[|wb| - 1].maxRow, wb[|wb| - 1].maxCol)]
  }

  // ---------------------------------------------------------------------
  // extract_sheet_name_string

  /** The characters of `[\d._\-]`. */
  predicate TitleMark(c: char) {
    IsDigit(c) || c == '.' || c == '_' || c == '-'
  }

  /** The title without its leading run of digits, dots, underscores and hyphens. */
  function CleanTitle(s: string): (r: string)
    ensures |r| <= |s| && r == s[|s| - |r|..]
    ensures forall i :: 0 <= i < |s| - |r| ==> TitleMark(s[i])
    ensures |r| > 0 ==> !TitleMark(r[0])
  {
    if |s| > 0 && TitleMark(s[0]) then CleanTitle(s[1..]) else s
  }

  /** Any numbering in front of a title is disregarded: "1.勤務表" and "02_勤務表" match. */
  lemma {:induction false} CleanTitleNumbered(p: string, s: string)
    requires forall i :: 0 <= i < |p| ==> TitleMark(p[i])
    ensures CleanTitle(p + s) == CleanTitle(s)
  {
    if |p| > 0 {
      assert (p + s)[0] == p[0];
      assert (p + s)[1..] == p[1..] + s;
      CleanTitleNumbered(p[1..], s);
    } else {
      assert p + s == s;
    }
  }

  /** A cleaned title is its own cleaning. */
  lemma CleanTitleIdempotent(s: string)
    ensures CleanTitle(CleanTitle(s)) == CleanTitle(s)
  {
    var r := CleanTitle(s);
    if |r| > 0 {
      assert !TitleMark(r[0]);
    }
  }

  // ---------------------------------------------------------------------
  // Pairing sheets

  /** The name a sheet is matched by. */
  function Key(s: Sheet): string {
    CleanTitle(s.title)
  }

  /**
   * `{string: orig for orig, string in visible_sheets}` as the position of the
   * sheet: each cleaned title of a visible sheet, with the last such sheet.
   */
  function TitleIndex(wb: seq<Sheet>): map<string, nat> {
    if |wb| == 0 then map[]
    else
      var m := TitleIndex(wb[..|wb| - 1]);
      var s := wb[|wb| - 1];
      if s.visible then m[Key(s) := |wb| - 1] else m
  }

  /** Every entry of the index names a visible sheet with that cleaned title. */
  lemma {:induction false} TitleIndexSound(wb: seq<Sheet>)
    ensures forall k :: k in TitleIndex(wb) ==>
      TitleIndex(wb)[k] < |wb| && wb[TitleIndex(wb)[k]].visible && Key(wb[TitleIndex(wb)[k]]) == k
  {
    if |wb| > 0 {
      var front := wb[..|wb| - 1];
      var last := wb[|wb| - 1];
      TitleIndexSound(front);
      var m := TitleIndex(front);
      forall k | k in TitleIndex(wb)
        ensures TitleIndex(wb)[k] < |wb| && wb[TitleIndex(wb)[k]].visible && Key(wb[TitleIndex(wb)[k]]) == k
      {
        if !(last.visible && k == Key(last)) {
          assert TitleIndex(wb)[k] == m[k];
          assert wb[m[k]] == front[m[k]];
        }
      }
    }
  }

  /** Every visible sheet's cleaned title is in the index, with that sheet or a later one. */
  lemma {:induction false} TitleIndexComplete(wb: seq<Sheet>)
    ensures forall i :: 0 <= i < |wb| && wb[i].visible ==>
      Key(wb[i]) in TitleIndex(wb) && i <= TitleIndex(wb)[Key(wb[i])]
  {
    if |wb| > 0 {
      var front := wb[..|wb| - 1];
      var last := wb[|wb| - 1];
      TitleIndexComplete(front);
      var m := TitleIndex(front);
      forall i | 0 <= i < |wb| && wb[i].visible
        ensures Key(wb[i]) in TitleIndex(wb) && i <= TitleIndex(wb)[Key(wb[i])]
      {
        if i < |wb| - 1 && !(last.visible && Key(wb[i]) == Key(last)) {
          assert front[i] == wb[i];
          assert TitleIndex(wb)[Key(wb[i])] == m[Key(wb[i])];
        }
      }
    }
  }

  /** The index holds the cleaned title of every visible sheet, with the last sheet of that title. */
  lemma TitleIndexMeaning(wb: seq<Sheet>)
    ensures forall k :: k in TitleIndex(wb) ==>
      TitleIndex(wb)[k] < |wb| && wb[TitleIndex(wb)[k]].visible && Key(wb[TitleIndex(wb)[k]]) == k
    ensures forall i :: 0 <= i < |wb| && wb[i].visible ==>
      Key(wb[i]) in TitleIndex(wb) && i <= TitleIndex(wb)[Key(wb[i])]
  {
    TitleIndexSound(wb);
    TitleIndexComplete(wb);
  }

  /** The cleaned titles both workbooks show. */
  function CommonNames(wb1: seq<Sheet>, wb2: seq<Sheet>): set<string> {
    TitleIndex(wb1).Keys * TitleIndex(wb2).Keys
  }

  /**
   * `{extract_sheet_name_string(s.title): s for s in visible_sheets}`: each
   * cleaned title of a visible sheet with the last visible sheet of that title.
   */
  function Dict(wb: seq<Sheet>): (d: map<string, Sheet>)
    ensures d.Keys == TitleIndex(wb).Keys
    ensures forall k | k in d :: d[k] in wb && d[k].visible && Key(d[k]) == k
  {
    TitleIndexSound(wb);
    map k | k in TitleIndex(wb) :: wb[TitleIndex(wb)[k]]
  }

  /** The titles of `names` in the order `for sheet_name in common_sheets` visits them: each once. */
  method Enumerate(names: set<string>) returns (order: seq<string>)
    ensures forall k :: k in order <==> k in names
    ensures forall i, j | 0 <= i < j < |order| :: order[i] != order[j]
    ensures |order| == 0 ==> names == {}
  {
    order := [];
    var todo := names;
    while todo != {}
      invariant todo <= names
      invariant forall k :: k in order <==> k in names && k !in todo
      invariant forall i, j | 0 <= i < j < |order| :: order[i] != order[j]
      decreases |todo|
    {
      var k :| k in todo;
      order := order + [k];
      todo := todo - {k};
    }
  }

  /** Where the comparison loop visits title `k`. */
  function Position(order: seq<string>, k: string): (i: nat)
    requires k in order
    ensures i < |order| && order[i] == k
  {
    if order[0] == k then 0 else 1 + Position(order[1..], k)
  }

  /** The position of the V1 sheet of a cleaned title both workbooks show. */
  function LeftAt(wb1: seq<Sheet>, wb2: seq<Sheet>, k: string): (i: nat)
    requires k in CommonNames(wb1, wb2)
    ensures i < |wb1| && wb1[i].visible && Key(wb1[i]) == k
  {
    TitleIndexSound(wb1);
    TitleIndex(wb1)[k]
  }

  /** The V1 sheet of a cleaned title both workbooks show: the one `sheets1_dict` names. */
  function Left(wb1: seq<Sheet>, wb2: seq<Sheet>, k: string): (s: Sheet)
    requires k in CommonNames(wb1, wb2)
    ensures s in wb1 && s.visible && Key(s) == k
  {
    wb1[LeftAt(wb1, wb2, k)]
  }

  /** The V2 sheet of a cleaned title both workbooks show: the one `sheets2_dict` names. */
  function Right(wb1: seq<Sheet>, wb2: seq<Sheet>, k: string): (s: Sheet)
    requires k in CommonNames(wb1, wb2)
    ensures s in wb2 && s.visible && Key(s) == k
  {
    TitleIndexSound(wb2);
    wb2[RightAt(wb1, wb2, k)]
  }

  /** The position of that V2 sheet. */
  function RightAt(wb1: seq<Sheet>, wb2: seq<Sheet>, k: string): (i: nat)
    requires k in CommonNames(wb1, wb2)
    ensures i < |wb2| && wb2[i].visible && Key(wb2[i]) == k
  {
    TitleIndexSound(wb2);
    TitleIndex(wb2)[k]
  }

  /** The V1 sheets matched with a V2 sheet. */
  function MatchedLeft(wb1: seq<Sheet>, wb2: seq<Sheet>): (m: set<Sheet>)
    ensures forall s | s in m :: s in wb1
  {
    set k | k in CommonNames(wb1, wb2) :: Left(wb1, wb2, k)
  }

  /** The V2 sheets matched with a V1 sheet. */
  function MatchedRight(wb1: seq<Sheet>, wb2: seq<Sheet>): (m: set<Sheet>)
    ensures forall s | s in m :: s in wb2
  {
    set k | k in CommonNames(wb1, wb2) :: Right(wb1, wb2, k)
  }

  /**
   * `sheets1_dict`, `sheets2_dict` and `common_sheets`: the common titles in
   * the order the comparison loop visits them, each with its two sheets.
   */
  method MatchSheets(wb1: seq<Sheet>, wb2: seq<Sheet>) returns (order: seq<string>, left: seq<Sheet>, right: seq<Sheet>)
    ensures forall k :: k in order <==> k in CommonNames(wb1, wb2)
    ensures |order| == 0 ==> CommonNames(wb1, wb2) == {}
    ensures forall i, j | 0 <= i < j < |order| :: order[i] != order[j]
    ensures |left| == |order| && |right| == |order|
    ensures forall i | 0 <= i < |order| ::
      order[i] in CommonNames(wb1, wb2) && left[i] == Left(wb1, wb2, order[i]) && right[i] == Right(wb1, wb2, order[i])
  {
    var d1 := Dict(wb1);
    var d2 := Dict(wb2);
    order := Enumerate(CommonNames(wb1, wb2));
    forall i | 0 <= i < |order| ensures order[i] in d1 && order[i] in d2 && order[i] in CommonNames(wb1, wb2) {
      assert order[i] in order;
    }
    left := seq(|order|, i requires 0 <= i < |order| => d1[order[i]]);
    right := seq(|order|, i requires 0 <= i < |order| => d2[order[i]]);
  }

  /**
   * With no sheet in both workbooks, the matched pairs are distinct sheets:
   * no V1 sheet is a V2 sheet, and no V2 sheet serves two titles.
   */
  lemma Apart(wb1: seq<Sheet>, wb2: seq<Sheet>, order: seq<string>, left: seq<Sheet>, right: seq<Sheet>)
    requires forall s | s in wb1 :: s !in wb2
    requires forall i, j | 0 <= i < j < |order| :: order[i] != order[j]
    requires |left| == |order| && |right| == |order|
    requires forall i | 0 <= i < |order| ::
      order[i] in CommonNames(wb1, wb2) && left[i] == Left(wb1, wb2, order[i]) && right[i] == Right(wb1, wb2, order[i])
    ensures forall i, j | 0 <= i < |left| && 0 <= j < |right| :: left[i] != right[j]
    ensures forall i, j | 0 <= i < j < |left| :: left[i] != left[j]
    ensures forall i, j | 0 <= i < j < |right| :: right[i] != right[j]
    ensures forall i | 0 <= i < |left| :: left[i] in MatchedLeft(wb1, wb2)
    ensures forall i | 0 <= i < |right| :: right[i] in MatchedRight(wb1, wb2)
  {
    forall i, j | 0 <= i < |left| && 0 <= j < |right| ensures left[i] != right[j] {
      assert left[i] in wb1 && right[j] in wb2;
    }
    forall i, j | 0 <= i < j < |left| ensures left[i] != left[j] {
      assert Key(left[i]) == order[i] && Key(left[j]) == order[j];
    }
    forall i, j | 0 <= i < j < |right| ensures right[i] != right[j] {
      assert Key(right[i]) == order[i] && Key(right[j]) == order[j];
    }
  }

  /** A name is common exactly when each workbook has a visible sheet with that cleaned title. */
  lemma CommonNamesMeaning(wb1: seq<Sheet>, wb2: seq<Sheet>, k: string)
    ensures k in CommonNames(wb1, wb2) <==>
      (exists i :: 0 <= i < |wb1| && wb1[i].visible && Key(wb1[i]) == k) &&
      (exists j :: 0 <= j < |wb2| && wb2[j].visible && Key(wb2[j]) == k)
  {
    TitleIndexMeaning(wb1);
    TitleIndexMeaning(wb2);
    var m1 := TitleIndex(wb1);
    var m2 := TitleIndex(wb2);
    if k in m1 && k in m2 {
      assert wb1[m1[k]].visible && Key(wb1[m1[k]]) == k;
      assert wb2[m2[k]].visible && Key(wb2[m2[k]]) == k;
    }
  }
}
