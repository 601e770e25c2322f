/**
 * `compare_excel_files` of the shift script: the rows of a matched sheet pair
 * are paired by the normalized value of column E, each V1 row at most once,
 * and the columns from 3 on of every pair go through the shorter chain with
 * the shift script's ignore table.  Nothing is written to V1; V2 is only
 * painted.
 *
 * The walk is stated for any key normalizer and any judgement of a cell pair,
 * and instantiated with the shift script's own only in `CompareExcelFiles`.
 */
module Shift {
  import opened Wrappers
  import opened Text
  import opened Values
  import opened Normalize
  import opened Sheets
  import opened Columns
  import opened Chain
  import Kinmu32

  /** The judgement of one cell pair: V1's grid, V2's grid, the V1 row, the V2 row and the loop's column. */
  type Judge = (Grid, Grid, int, int, int) -> Step

  /** The normalizer of the key column and the judgement of a cell pair. */
  datatype Rules = Rules(key: Cell -> Option<Canon>, judge: Judge)

  /** The shift script's judgement, for the first file's name. */
  function JudgeShift(name: string): Judge {
    (g1, g2, row1, row2, col) => CellShift(g1, g2, name, row1, row2, col)
  }

  function RulesShift(name: string): Rules {
    Rules(NormalizeShift, JudgeShift(name))
  }

  /** The judgement never counts a mismatch. */
  ghost predicate Silent(judge: Judge) {
    forall g1, g2, row1, row2, col :: judge(g1, g2, row1, row2, col) == Pass
  }

  /** Every judgement is a verdict: the chain never copies or stops a row. */
  ghost predicate VerdictsOnly(judge: Judge) {
    forall g1, g2, row1, row2, col :: Verdict(judge(g1, g2, row1, row2, col))
  }

  lemma VerdictAt(judge: Judge, g1: Grid, g2: Grid, row1: int, row2: int, col: int)
    requires VerdictsOnly(judge)
    ensures Verdict(judge(g1, g2, row1, row2, col))
  {
  }

  lemma JudgeShiftVerdicts(name: string)
    ensures VerdictsOnly(JudgeShift(name))
  {
    forall g1, g2, row1, row2, col ensures Verdict(JudgeShift(name)(g1, g2, row1, row2, col)) {
      var r := CellShift(g1, g2, name, row1, row2, col);
    }
  }

  /** A file whose name lacks "シフト" has no column to compare, so every pair passes. */
  lemma ShiftNameSilent(name: string)
    requires !Contains(name, "シフト")
    ensures Silent(JudgeShift(name))
  {
    forall g1, g2, row1, row2, col ensures JudgeShift(name)(g1, g2, row1, row2, col) == Pass {
      assert ShiftColumns(col, name).None?;
    }
  }

  /** A cell the chain does not pass lies in a column before 39 and is painted in the loop's column. */
  lemma JudgeShiftColumn(g1: Grid, g2: Grid, name: string, row1: int, row2: int, col: int)
    requires CellShift(g1, g2, name, row1, row2, col) != Pass
    ensures Contains(name, "シフト") && col < 39 && ShiftColumns(col, name) == Some((col, col))
  {
  }

  // ---------------------------------------------------------------------
  // The key index of V1

  /** The key of row `r`: the normalized value of column E. */
  function KeyOf(key: Cell -> Option<Canon>, g: Grid, r: int): Option<Canon> {
    key(At(g, r, 5))
  }

  /** `wb1_col_e` after the rows 6 to `hi`: each key with the row it was last seen on. */
  function KeyIndex(key: Cell -> Option<Canon>, g: Grid, hi: int): map<Canon, int>
    decreases hi
  {
    if hi < 6 then map[]
    else
      var m := KeyIndex(key, g, hi - 1);
      match KeyOf(key, g, hi)
      case None => m
      case Some(v) => m[v := hi]
  }

  /** Every entry names a row from 6 to `hi` that carries that key. */
  lemma {:induction false} KeyIndexSound(key: Cell -> Option<Canon>, g: Grid, hi: int)
    ensures forall v :: v in KeyIndex(key, g, hi) ==>
      6 <= KeyIndex(key, g, hi)[v] <= hi && KeyOf(key, g, KeyIndex(key, g, hi)[v]) == Some(v)
    decreases hi
  {
    if hi >= 6 {
      KeyIndexSound(key, g, hi - 1);
    }
  }

  /** Every key of the rows 6 to `hi` is in the index, with the last row that carries it. */
  lemma {:induction false} KeyIndexLast(key: Cell -> Option<Canon>, g: Grid, hi: int)
    ensures forall r :: 6 <= r <= hi && KeyOf(key, g, r).Some? ==>
      KeyOf(key, g, r).value in KeyIndex(key, g, hi) && r <= KeyIndex(key, g, hi)[KeyOf(key, g, r).value]
    decreases hi
  {
    if hi >= 6 {
      KeyIndexLast(key, g, hi - 1);
    }
  }

  /** Different keys never share a row. */
  lemma KeyIndexInjective(key: Cell -> Option<Canon>, g: Grid, hi: int)
    ensures Injective(KeyIndex(key, g, hi))
  {
    KeyIndexSound(key, g, hi);
  }

  predicate Injective(keys: map<Canon, int>) {
    forall a, b :: a in keys && b in keys && keys[a] == keys[b] ==> a == b
  }

  /** The loop that builds `wb1_col_e` over V1's rows from 6 to `max_row`. */
  method IndexKeys(key: Cell -> Option<Canon>, s1: Sheet) returns (keys: map<Canon, int>)
    ensures keys == KeyIndex(key, s1.cells, s1.maxRow)
  {
    keys := map[];
    var row := 6;
    while row <= s1.maxRow
      invariant 6 <= row && (row <= s1.maxRow + 1 || row == 6)
      invariant keys == KeyIndex(key, s1.cells, row - 1)
      decreases s1.maxRow - row
    {
      var value := key(s1.Get(row, 5));
      if value.Some? {
        keys := keys[value.value := row];
      }
      row := row + 1;
    }
  }

  // ---------------------------------------------------------------------
  // Pairing the rows

  /**
   * The pairs (V1 row, V2 row) the loop over V2's rows `row2` to `rowMax`
   * compares, starting with the dictionary `keys`: a V2 row whose key is in
   * the dictionary takes that row, and the key is deleted.
   */
  function Matches(key: Cell -> Option<Canon>, g2: Grid, keys: map<Canon, int>, row2: int, rowMax: int): seq<(int, int)>
    decreases rowMax - row2
  {
    if row2 > rowMax then []
    else
      match KeyOf(key, g2, row2)
      case Some(v) =>
        if v in keys then [(keys[v], row2)] + Matches(key, g2, keys - {v}, row2 + 1, rowMax)
        else Matches(key, g2, keys, row2 + 1, rowMax)
      case None => Matches(key, g2, keys, row2 + 1, rowMax)
  }

  /**
   * Each pair joins a V2 row from `lo` to `hi` to the row the dictionary
   * `keys` gives that V2 row's key.
   */
  predicate Joined(key: Cell -> Option<Canon>, g2: Grid, keys: map<Canon, int>, lo: int, hi: int, ps: seq<(int, int)>) {
    forall i :: 0 <= i < |ps| ==>
      lo <= ps[i].1 <= hi && KeyOf(key, g2, ps[i].1).Some?
      && KeyOf(key, g2, ps[i].1).value in keys && ps[i].0 == keys[KeyOf(key, g2, ps[i].1).value]
  }

  /** The V2 rows of the pairs strictly increase. */
  predicate Ascending(ps: seq<(int, int)>) {
    forall i, j :: 0 <= i < j < |ps| ==> ps[i].1 < ps[j].1
  }

  /** No two pairs share a V1 row or a key. */
  predicate Consumed(key: Cell -> Option<Canon>, g2: Grid, ps: seq<(int, int)>) {
    forall i, j :: 0 <= i < j < |ps| ==> ps[i].0 != ps[j].0 && KeyOf(key, g2, ps[i].1) != KeyOf(key, g2, ps[j].1)
  }

  /** Each pair joins a V2 row to the row the dictionary gave its key, in ascending V2 order. */
  lemma {:induction false} MatchesSound(key: Cell -> Option<Canon>, g2: Grid, keys: map<Canon, int>, row2: int, rowMax: int)
    ensures Joined(key, g2, keys, row2, rowMax, Matches(key, g2, keys, row2, rowMax))
    ensures Ascending(Matches(key, g2, keys, row2, rowMax))
    decreases rowMax - row2
  {
    if row2 <= rowMax {
      var v := KeyOf(key, g2, row2);
      if v.Some? && v.value in keys {
        var rest := keys - {v.value};
        MatchesSound(key, g2, rest, row2 + 1, rowMax);
        var ps := Matches(key, g2, keys, row2, rowMax);
        var tail := Matches(key, g2, rest, row2 + 1, rowMax);
        assert ps == [(keys[v.value], row2)] + tail;
        forall i | 0 < i < |ps| ensures ps[i] == tail[i - 1] { }
      } else {
        MatchesSound(key, g2, keys, row2 + 1, rowMax);
        assert Matches(key, g2, keys, row2, rowMax) == Matches(key, g2, keys, row2 + 1, rowMax);
      }
    }
  }

  /** No two pairs have the same key, so with an injective dictionary no V1 row is paired twice. */
  lemma {:induction false} MatchesConsume(key: Cell -> Option<Canon>, g2: Grid, keys: map<Canon, int>, row2: int, rowMax: int)
    requires Injective(keys)
    ensures Consumed(key, g2, Matches(key, g2, keys, row2, rowMax))
    decreases rowMax - row2
  {
    if row2 <= rowMax {
      var v := KeyOf(key, g2, row2);
      if v.Some? && v.value in keys {
        var rest := keys - {v.value};
        assert Injective(rest);
        MatchesConsume(key, g2, rest, row2 + 1, rowMax);
        MatchesSound(key, g2, rest, row2 + 1, rowMax);
        var ps := Matches(key, g2, keys, row2, rowMax);
        var tail := Matches(key, g2, rest, row2 + 1, rowMax);
        assert ps == [(keys[v.value], row2)] + tail;
        forall i | 0 < i < |ps| ensures ps[i] == tail[i - 1] { }
        forall j | 0 < j < |ps| ensures ps[0].0 != ps[j].0 && KeyOf(key, g2, ps[0].1) != KeyOf(key, g2, ps[j].1) {
          var u := KeyOf(key, g2, tail[j - 1].1).value;
          assert tail[j - 1].0 == rest[u] == keys[u];
        }
      } else {
        MatchesConsume(key, g2, keys, row2 + 1, rowMax);
        assert Matches(key, g2, keys, row2, rowMax) == Matches(key, g2, keys, row2 + 1, rowMax);
      }
    }
  }

  /**
   * The first V2 row from `row2` on that carries a key of the dictionary is
   * paired with the dictionary's row for that key.
   */
  lemma {:induction false} MatchesFirst(key: Cell -> Option<Canon>, g2: Grid, keys: map<Canon, int>,
                                        row2: int, rowMax: int, r: int)
    requires row2 <= r <= rowMax && KeyOf(key, g2, r).Some? && KeyOf(key, g2, r).value in keys
    requires forall q :: row2 <= q < r ==> KeyOf(key, g2, q) != KeyOf(key, g2, r)
    ensures (keys[KeyOf(key, g2, r).value], r) in Matches(key, g2, keys, row2, rowMax)
    decreases r - row2
  {
    if row2 < r {
      var v := KeyOf(key, g2, row2);
      var keys' := if v.Some? && v.value in keys then keys - {v.value} else keys;
      assert keys'[KeyOf(key, g2, r).value] == keys[KeyOf(key, g2, r).value];
      MatchesFirst(key, g2, keys', row2 + 1, rowMax, r);
    }
  }

  /**
   * Both rows of each pair carry the same key, and the V1 row is the last of
   * V1's rows 6 to `max1` that carries it.
   */
  predicate KeyedPairs(key: Cell -> Option<Canon>, g1: Grid, max1: int, g2: Grid, rowMax: int, ps: seq<(int, int)>) {
    forall i :: 0 <= i < |ps| ==>
      6 <= ps[i].0 <= max1 && 6 <= ps[i].1 <= rowMax
      && KeyOf(key, g1, ps[i].0) == KeyOf(key, g2, ps[i].1) != None
      && forall q :: ps[i].0 < q <= max1 ==> KeyOf(key, g1, q) != KeyOf(key, g1, ps[i].0)
  }

  /**
   * The pairing over the whole of V2 with V1's index: both rows of a pair
   * carry the same key, the V1 row is the last V1 row with it, no V1 row is
   * paired twice, and the first V2 row with a key V1 has is always paired.
   */
  lemma RowPairing(key: Cell -> Option<Canon>, g1: Grid, max1: int, g2: Grid, rowMax: int)
    ensures KeyedPairs(key, g1, max1, g2, rowMax, Matches(key, g2, KeyIndex(key, g1, max1), 6, rowMax))
    ensures Ascending(Matches(key, g2, KeyIndex(key, g1, max1), 6, rowMax))
    ensures Consumed(key, g2, Matches(key, g2, KeyIndex(key, g1, max1), 6, rowMax))
    ensures forall r ::
      (6 <= r <= rowMax && KeyOf(key, g2, r).Some? && KeyOf(key, g2, r).value in KeyIndex(key, g1, max1)
       && (forall q :: 6 <= q < r ==> KeyOf(key, g2, q) != KeyOf(key, g2, r))) ==>
      (KeyIndex(key, g1, max1)[KeyOf(key, g2, r).value], r) in Matches(key, g2, KeyIndex(key, g1, max1), 6, rowMax)
  {
    var keys := KeyIndex(key, g1, max1);
    KeyIndexSound(key, g1, max1);
    KeyIndexLast(key, g1, max1);
    KeyIndexInjective(key, g1, max1);
    MatchesSound(key, g2, keys, 6, rowMax);
    MatchesConsume(key, g2, keys, 6, rowMax);
    forall r | 6 <= r <= rowMax && KeyOf(key, g2, r).Some? && KeyOf(key, g2, r).value in keys
      && (forall q :: 6 <= q < r ==> KeyOf(key, g2, q) != KeyOf(key, g2, r))
      ensures (keys[KeyOf(key, g2, r).value], r) in Matches(key, g2, keys, 6, rowMax)
    {
      MatchesFirst(key, g2, keys, 6, rowMax, r);
    }
  }

  // ---------------------------------------------------------------------
  // Comparing the pairs

  /** What the walk leaves behind: the cells painted and the mismatches counted. */
  datatype Tally = Tally(fills: set<(int, int)>, count: nat)

  /** The column loop of one pair from column `col` on; a mismatch paints V2's cell. */
  function ColumnsFrom(judge: Judge, g1: Grid, g2: Grid, row1: int, row2: int, col: int, colMax: int): Tally
    decreases colMax - col
  {
    if col > colMax then Tally({}, 0)
    else
      var t := ColumnsFrom(judge, g1, g2, row1, row2, col + 1, colMax);
      match judge(g1, g2, row1, row2, col)
      case Flag => Tally({(row2, col)} + t.fills, t.count + 1)
      case Fail => Tally(t.fills, t.count + 1)
      case _ => t
  }

  /** Every pair of `ps`, columns 3 to `colMax`. */
  function PairsFrom(judge: Judge, g1: Grid, g2: Grid, ps: seq<(int, int)>, colMax: int): Tally {
    if |ps| == 0 then Tally({}, 0)
    else
      var t := ColumnsFrom(judge, g1, g2, ps[0].0, ps[0].1, 3, colMax);
      var u := PairsFrom(judge, g1, g2, ps[1..], colMax);
      Tally(t.fills + u.fills, t.count + u.count)
  }

  /** The V2 cells, columns `c0` to `colMax` of the pairs of `ps`, that `judge` sends to step `s`. */
  function Marked(judge: Judge, g1: Grid, g2: Grid, ps: seq<(int, int)>, c0: int, colMax: int, s: Step): set<(int, int)> {
    set i, c | 0 <= i < |ps| && c0 <= c <= colMax && judge(g1, g2, ps[i].0, ps[i].1, c) == s :: (ps[i].1, c)
  }

  /** The V2 cells, columns `c0` to `colMax` of the one pair `p`, that `judge` sends to step `s`. */
  function MarkedRow(judge: Judge, g1: Grid, g2: Grid, p: (int, int), c0: int, colMax: int, s: Step): set<(int, int)> {
    set c | c0 <= c <= colMax && judge(g1, g2, p.0, p.1, c) == s :: (p.1, c)
  }

  /** Column `c0` split off the front of one pair's marked cells. */
  lemma MarkedFirstColumn(judge: Judge, g1: Grid, g2: Grid, p: (int, int), c0: int, colMax: int, s: Step)
    requires c0 <= colMax
    ensures MarkedRow(judge, g1, g2, p, c0, colMax, s) ==
      (if judge(g1, g2, p.0, p.1, c0) == s then {(p.1, c0)} else {}) + MarkedRow(judge, g1, g2, p, c0 + 1, colMax, s)
    ensures (p.1, c0) !in MarkedRow(judge, g1, g2, p, c0 + 1, colMax, s)
  {
  }

  /** One pair paints exactly its V2 cells judged `Flag` and counts those judged `Flag` or `Fail`. */
  lemma {:induction false} ColumnsFromMeaning(judge: Judge, g1: Grid, g2: Grid, p: (int, int), col: int, colMax: int)
    ensures ColumnsFrom(judge, g1, g2, p.0, p.1, col, colMax).fills == MarkedRow(judge, g1, g2, p, col, colMax, Flag)
    ensures ColumnsFrom(judge, g1, g2, p.0, p.1, col, colMax).count ==
      |MarkedRow(judge, g1, g2, p, col, colMax, Flag)| + |MarkedRow(judge, g1, g2, p, col, colMax, Fail)|
    decreases colMax - col
  {
    if col > colMax {
      assert MarkedRow(judge, g1, g2, p, col, colMax, Flag) == {};
      assert MarkedRow(judge, g1, g2, p, col, colMax, Fail) == {};
    } else {
      ColumnsFromMeaning(judge, g1, g2, p, col + 1, colMax);
      MarkedFirstColumn(judge, g1, g2, p, col, colMax, Flag);
      MarkedFirstColumn(judge, g1, g2, p, col, colMax, Fail);
    }
  }

  /** The first pair split off the marked cells. */
  lemma MarkedFirstPair(judge: Judge, g1: Grid, g2: Grid, ps: seq<(int, int)>, colMax: int, s: Step)
    requires |ps| > 0
    ensures Marked(judge, g1, g2, ps, 3, colMax, s) ==
      MarkedRow(judge, g1, g2, ps[0], 3, colMax, s) + Marked(judge, g1, g2, ps[1..], 3, colMax, s)
  {
    var all := Marked(judge, g1, g2, ps, 3, colMax, s);
    var head := MarkedRow(judge, g1, g2, ps[0], 3, colMax, s);
    var tail := Marked(judge, g1, g2, ps[1..], 3, colMax, s);
    forall x | x in all ensures x in head + tail {
      var i, c :| 0 <= i < |ps| && 3 <= c <= colMax && judge(g1, g2, ps[i].0, ps[i].1, c) == s && x == (ps[i].1, c);
      if i > 0 {
        assert ps[1..][i - 1] == ps[i];
      }
    }
    forall x | x in tail ensures x in all {
      var i, c :| 0 <= i < |ps[1..]| && 3 <= c <= colMax && judge(g1, g2, ps[1..][i].0, ps[1..][i].1, c) == s
        && x == (ps[1..][i].1, c);
      assert ps[1..][i] == ps[i + 1];
    }
    forall x | x in head ensures x in all {
      var c :| 3 <= c <= colMax && judge(g1, g2, ps[0].0, ps[0].1, c) == s && x == (ps[0].1, c);
    }
  }

  /** With distinct V2 rows, the first pair's marked cells are not among the others'. */
  lemma MarkedFirstPairApart(judge: Judge, g1: Grid, g2: Grid, ps: seq<(int, int)>, colMax: int, s: Step)
    requires |ps| > 0
    requires forall j :: 0 < j < |ps| ==> ps[j].1 != ps[0].1
    ensures MarkedRow(judge, g1, g2, ps[0], 3, colMax, s) * Marked(judge, g1, g2, ps[1..], 3, colMax, s) == {}
  {
    var head := MarkedRow(judge, g1, g2, ps[0], 3, colMax, s);
    var tail := Marked(judge, g1, g2, ps[1..], 3, colMax, s);
    forall x | x in tail ensures x !in head {
      var i, c :| 0 <= i < |ps[1..]| && 3 <= c <= colMax && judge(g1, g2, ps[1..][i].0, ps[1..][i].1, c) == s
        && x == (ps[1..][i].1, c);
      assert ps[1..][i] == ps[i + 1];
    }
  }

  /**
   * The walk over the pairs paints exactly their V2 cells judged `Flag` and
   * counts one mismatch for each cell judged `Flag` or `Fail`.
   */
  lemma {:induction false} PairsFromMeaning(judge: Judge, g1: Grid, g2: Grid, ps: seq<(int, int)>, colMax: int)
    requires Ascending(ps)
    ensures PairsFrom(judge, g1, g2, ps, colMax).fills == Marked(judge, g1, g2, ps, 3, colMax, Flag)
    ensures PairsFrom(judge, g1, g2, ps, colMax).count ==
      |Marked(judge, g1, g2, ps, 3, colMax, Flag)| + |Marked(judge, g1, g2, ps, 3, colMax, Fail)|
  {
    if |ps| == 0 {
      assert Marked(judge, g1, g2, ps, 3, colMax, Flag) == {};
      assert Marked(judge, g1, g2, ps, 3, colMax, Fail) == {};
    } else {
      ColumnsFromMeaning(judge, g1, g2, ps[0], 3, colMax);
      PairsFromMeaning(judge, g1, g2, ps[1..], colMax);
      assert PairsFrom(judge, g1, g2, ps, colMax).fills ==
        ColumnsFrom(judge, g1, g2, ps[0].0, ps[0].1, 3, colMax).fills + PairsFrom(judge, g1, g2, ps[1..], colMax).fills;
      MarkedFirstPair(judge, g1, g2, ps, colMax, Flag);
      MarkedFirstPair(judge, g1, g2, ps, colMax, Fail);
      MarkedFirstPairApart(judge, g1, g2, ps, colMax, Flag);
      MarkedFirstPairApart(judge, g1, g2, ps, colMax, Fail);
    }
  }

  /** When every compared cell pair passes, nothing is counted. */
  lemma PairsFromAllPass(judge: Judge, g1: Grid, g2: Grid, ps: seq<(int, int)>, colMax: int)
    requires Ascending(ps)
    requires forall i, c :: 0 <= i < |ps| && 3 <= c <= colMax ==> judge(g1, g2, ps[i].0, ps[i].1, c) == Pass
    ensures PairsFrom(judge, g1, g2, ps, colMax).count == 0
  {
    PairsFromMeaning(judge, g1, g2, ps, colMax);
    assert Marked(judge, g1, g2, ps, 3, colMax, Flag) == {};
    assert Marked(judge, g1, g2, ps, 3, colMax, Fail) == {};
  }

  /** A compared cell pair judged `Flag` or `Fail` is counted. */
  lemma PairsFromOneCounts(judge: Judge, g1: Grid, g2: Grid, ps: seq<(int, int)>, colMax: int, i: int, c: int)
    requires Ascending(ps)
    requires 0 <= i < |ps| && 3 <= c <= colMax
    requires judge(g1, g2, ps[i].0, ps[i].1, c) == Flag || judge(g1, g2, ps[i].0, ps[i].1, c) == Fail
    ensures PairsFrom(judge, g1, g2, ps, colMax).count > 0
  {
    PairsFromMeaning(judge, g1, g2, ps, colMax);
    var s := judge(g1, g2, ps[i].0, ps[i].1, c);
    assert (ps[i].1, c) in Marked(judge, g1, g2, ps, 3, colMax, s);
  }

  /** The walk counts nothing exactly when every compared cell pair passes. */
  lemma PairsFromSilent(judge: Judge, g1: Grid, g2: Grid, ps: seq<(int, int)>, colMax: int)
    requires VerdictsOnly(judge)
    requires Ascending(ps)
    ensures PairsFrom(judge, g1, g2, ps, colMax).count == 0 <==>
      forall i, c :: 0 <= i < |ps| && 3 <= c <= colMax ==> judge(g1, g2, ps[i].0, ps[i].1, c) == Pass
  {
    if forall i, c :: 0 <= i < |ps| && 3 <= c <= colMax ==> judge(g1, g2, ps[i].0, ps[i].1, c) == Pass {
      PairsFromAllPass(judge, g1, g2, ps, colMax);
    } else {
      var i, c :| 0 <= i < |ps| && 3 <= c <= colMax && judge(g1, g2, ps[i].0, ps[i].1, c) != Pass;
      VerdictAt(judge, g1, g2, ps[i].0, ps[i].1, c);
      PairsFromOneCounts(judge, g1, g2, ps, colMax, i, c);
    }
  }

  /** The walk of a sheet pair: V1's index, the pairing, and the pairs compared. */
  function PairWalk(rules: Rules, g1: Grid, max1: int, col1: int, g2: Grid, max2: int, col2: int): Tally {
    var ps := Matches(rules.key, g2, KeyIndex(rules.key, g1, max1), 6, Max(max1, max2));
    PairsFrom(rules.judge, g1, g2, ps, Max(col1, col2))
  }

  /** A silent judgement counts and paints nothing, whatever the sheets hold. */
  lemma PairWalkSilent(rules: Rules, g1: Grid, max1: int, col1: int, g2: Grid, max2: int, col2: int)
    ensures var t := PairWalk(rules, g1, max1, col1, g2, max2, col2);
      t.count == 0 ==> t.fills == {}
    ensures Silent(rules.judge) ==> PairWalk(rules, g1, max1, col1, g2, max2, col2).count == 0
  {
    var ps := Matches(rules.key, g2, KeyIndex(rules.key, g1, max1), 6, Max(max1, max2));
    MatchesSound(rules.key, g2, KeyIndex(rules.key, g1, max1), 6, Max(max1, max2));
    PairsFromMeaning(rules.judge, g1, g2, ps, Max(col1, col2));
  }

  // ---------------------------------------------------------------------
  // The loops

  /** The column loop of one pair, from column 3. */
  method CompareRow(judge: Judge, s1: Sheet, s2: Sheet, row1: int, row2: int, colMax: int) returns (count: nat)
    requires s1 != s2 && row2 >= 1
    modifies s2
    ensures var t := ColumnsFrom(judge, s1.cells, old(s2.cells), row1, row2, 3, colMax);
      s2.fills == old(s2.fills) + t.fills && count == t.count
    ensures s2.cells == old(s2.cells)
  {
    ghost var added: set<(int, int)> := {};
    count := 0;
    var col := 3;
    while col <= colMax
      invariant 3 <= col
      invariant s2.cells == old(s2.cells)
      invariant s2.fills == old(s2.fills) + added
      invariant var t := ColumnsFrom(judge, s1.cells, s2.cells, row1, row2, 3, colMax);
        var u := ColumnsFrom(judge, s1.cells, s2.cells, row1, row2, col, colMax);
        t.fills == added + u.fills && t.count == count + u.count
      decreases colMax - col
    {
      var step := judge(s1.cells, s2.cells, row1, row2, col);
      if step == Flag {
        s2.Highlight(row2, col);
        added := added + {(row2, col)};
        count := count + 1;
      } else if step == Fail {
        count := count + 1;
      }
      col := col + 1;
    }
  }

  /** One pair of matched sheets: index V1's keys, then walk V2's rows from 6. */
  method ComparePair(rules: Rules, s1: Sheet, s2: Sheet) returns (count: nat)
    requires s1 != s2
    modifies s2
    ensures var t := PairWalk(rules, s1.cells, s1.maxRow, s1.maxCol, old(s2.cells), old(s2.maxRow), old(s2.maxCol));
      s2.fills == old(s2.fills) + t.fills && count == t.count
    ensures s2.cells == old(s2.cells)
  {
    var rowMax := Max(s1.maxRow, s2.maxRow);
    var colMax := Max(s1.maxCol, s2.maxCol);
    var keys := IndexKeys(rules.key, s1);
    ghost var g2 := s2.cells;
    ghost var ps0 := Matches(rules.key, g2, keys, 6, rowMax);
    ghost var added: set<(int, int)> := {};
    count := 0;
    var row2 := 6;
    while row2 <= rowMax
      invariant 6 <= row2
      invariant s2.cells == g2
      invariant s2.fills == old(s2.fills) + added
      invariant var t := PairsFrom(rules.judge, s1.cells, g2, ps0, colMax);
        var u := PairsFrom(rules.judge, s1.cells, g2, Matches(rules.key, g2, keys, row2, rowMax), colMax);
        t.fills == added + u.fills && t.count == count + u.count
      decreases rowMax - row2
    {
      var value := rules.key(s2.Get(row2, 5));
      if value.Some? && value.value in keys {
        var row1 := keys[value.value];
        ghost var rest := Matches(rules.key, g2, keys - {value.value}, row2 + 1, rowMax);
        assert Matches(rules.key, g2, keys, row2, rowMax) == [(row1, row2)] + rest;
        assert ([(row1, row2)] + rest)[1..] == rest;
        keys := keys - {value.value};
        var c := CompareRow(rules.judge, s1, s2, row1, row2, colMax);
        added := added + ColumnsFrom(rules.judge, s1.cells, g2, row1, row2, 3, colMax).fills;
        count := count + c;
      }
      row2 := row2 + 1;
    }
  }

  // ---------------------------------------------------------------------
  // The workbooks

  /** Every cell pair of the pairs `ps`, from column 3 to `colMax`, passes. */
  ghost predicate PairsPass(judge: Judge, g1: Grid, g2: Grid, ps: seq<(int, int)>, colMax: int) {
    forall i, c :: 0 <= i < |ps| && 3 <= c <= colMax ==> judge(g1, g2, ps[i].0, ps[i].1, c) == Pass
  }

  /** The walk of one sheet pair, over the sheets' states. */
  function SheetWalk(rules: Rules, a: SheetState, b: SheetState): Tally {
    PairWalk(rules, a.cells, a.maxRow, a.maxCol, b.cells, b.maxRow, b.maxCol)
  }

  /** The walk of the sheet pair matched under the common cleaned title `k`, over the sheet states `st1` and `st2`. */
  function TitleWalk(rules: Rules, wb1: seq<Sheet>, wb2: seq<Sheet>, st1: seq<SheetState>, st2: seq<SheetState>, k: string): Tally
    requires |st1| == |wb1| && |st2| == |wb2| && k in CommonNames(wb1, wb2)
  {
    SheetWalk(rules, st1[LeftAt(wb1, wb2, k)], st2[RightAt(wb1, wb2, k)])
  }

  /** No walk of a matched sheet pair counts a mismatch. */
  predicate AllSilent(rules: Rules, wb1: seq<Sheet>, wb2: seq<Sheet>, st1: seq<SheetState>, st2: seq<SheetState>)
    requires |st1| == |wb1| && |st2| == |wb2|
  {
    forall k | k in CommonNames(wb1, wb2) :: TitleWalk(rules, wb1, wb2, st1, st2, k).count == 0
  }

  /** Every matched sheet pair has every cell pair of its keyed rows passing. */
  ghost predicate AllPairsPass(rules: Rules, wb1: seq<Sheet>, wb2: seq<Sheet>, st1: seq<SheetState>, st2: seq<SheetState>)
    requires |st1| == |wb1| && |st2| == |wb2|
  {
    forall k | k in CommonNames(wb1, wb2) ::
      var a := st1[LeftAt(wb1, wb2, k)];
      var b := st2[RightAt(wb1, wb2, k)];
      PairsPass(rules.judge, a.cells, b.cells,
                Matches(rules.key, b.cells, KeyIndex(rules.key, a.cells, a.maxRow), 6, Max(a.maxRow, b.maxRow)), Max(a.maxCol, b.maxCol))
  }

  /** With a judgement that only gives verdicts, no walk counts exactly when every compared cell pair passes. */
  lemma AllSilentPass(rules: Rules, wb1: seq<Sheet>, wb2: seq<Sheet>, st1: seq<SheetState>, st2: seq<SheetState>)
    requires VerdictsOnly(rules.judge)
    requires |st1| == |wb1| && |st2| == |wb2|
    ensures AllSilent(rules, wb1, wb2, st1, st2) <==> AllPairsPass(rules, wb1, wb2, st1, st2)
  {
    forall k | k in CommonNames(wb1, wb2)
      ensures var a := st1[LeftAt(wb1, wb2, k)];
        var b := st2[RightAt(wb1, wb2, k)];
        TitleWalk(rules, wb1, wb2, st1, st2, k).count == 0 <==>
        PairsPass(rules.judge, a.cells, b.cells,
                  Matches(rules.key, b.cells, KeyIndex(rules.key, a.cells, a.maxRow), 6, Max(a.maxRow, b.maxRow)), Max(a.maxCol, b.maxCol))
    {
      var a := st1[LeftAt(wb1, wb2, k)];
      var b := st2[RightAt(wb1, wb2, k)];
      var keys := KeyIndex(rules.key, a.cells, a.maxRow);
      MatchesSound(rules.key, b.cells, keys, 6, Max(a.maxRow, b.maxRow));
      PairsFromSilent(rules.judge, a.cells, b.cells, Matches(rules.key, b.cells, keys, 6, Max(a.maxRow, b.maxRow)), Max(a.maxCol, b.maxCol));
    }
  }

  /** The walks of the titles of `order`, in that order. */
  function WalksOf(rules: Rules, wb1: seq<Sheet>, wb2: seq<Sheet>, st1: seq<SheetState>, st2: seq<SheetState>,
                   order: seq<string>): (ts: seq<Tally>)
    requires |st1| == |wb1| && |st2| == |wb2|
    requires forall i | 0 <= i < |order| :: order[i] in CommonNames(wb1, wb2)
    ensures |ts| == |order|
    ensures forall i | 0 <= i < |order| :: ts[i] == TitleWalk(rules, wb1, wb2, st1, st2, order[i])
  {
    seq(|order|, i requires 0 <= i < |order| => TitleWalk(rules, wb1, wb2, st1, st2, order[i]))
  }

  /** The mismatches the walks `ts` count, one after another. */
  function Counted(ts: seq<Tally>): nat {
    if |ts| == 0 then 0 else Counted(ts[..|ts| - 1]) + ts[|ts| - 1].count
  }

  /** Walks counted one after another count nothing exactly when each counts nothing. */
  lemma {:induction false} CountedSilent(ts: seq<Tally>)
    ensures Counted(ts) == 0 <==> forall i | 0 <= i < |ts| :: ts[i].count == 0
  {
    if |ts| > 0 {
      CountedSilent(ts[..|ts| - 1]);
    }
  }

  /** The walks of the titles of `order` are the walks of the sheets `left[i]` and `right[i]` as they stand. */
  lemma Ready(rules: Rules, wb1: seq<Sheet>, wb2: seq<Sheet>, order: seq<string>, left: seq<Sheet>, right: seq<Sheet>, ts: seq<Tally>)
    requires |left| == |order| && |right| == |order|
    requires forall i | 0 <= i < |order| ::
      order[i] in CommonNames(wb1, wb2) && left[i] == Left(wb1, wb2, order[i]) && right[i] == Right(wb1, wb2, order[i])
    requires ts == WalksOf(rules, wb1, wb2, States(wb1), States(wb2), order)
    ensures forall i | 0 <= i < |ts| ::
      ts[i] == SheetWalk(rules, SheetState(left[i].cells, left[i].maxRow, left[i].maxCol), SheetState(right[i].cells, right[i].maxRow, right[i].maxCol))
  {
  }

  /**
   * After the loop: each common title `k` was compared at `Position(order, k)`,
   * and the count is nil exactly when no title's walk counted.
   */
  lemma Done(rules: Rules, wb1: seq<Sheet>, wb2: seq<Sheet>, st1: seq<SheetState>, st2: seq<SheetState>,
             order: seq<string>, right: seq<Sheet>, ts: seq<Tally>)
    requires |st1| == |wb1| && |st2| == |wb2|
    requires forall k :: k in order <==> k in CommonNames(wb1, wb2)
    requires |right| == |order|
    requires forall i | 0 <= i < |order| :: order[i] in CommonNames(wb1, wb2) && right[i] == Right(wb1, wb2, order[i])
    requires ts == WalksOf(rules, wb1, wb2, st1, st2, order)
    ensures Counted(ts) == 0 <==> AllSilent(rules, wb1, wb2, st1, st2)
    ensures forall k | k in CommonNames(wb1, wb2) ::
      Position(order, k) < |right| && Right(wb1, wb2, k) == right[Position(order, k)] &&
      TitleWalk(rules, wb1, wb2, st1, st2, k) == ts[Position(order, k)]
  {
    CountedSilent(ts);
  }

  /**
   * The pairs the comparison loop visits: the V1 and V2 sheets of each common
   * title, distinct sheets, with `ts` their walks over the sheet states `st1`
   * and `st2`; the title `k` sits at `Position(order, k)`.
   */
  method PairSheets(rules: Rules, wb1: seq<Sheet>, wb2: seq<Sheet>, ghost st1: seq<SheetState>, ghost st2: seq<SheetState>)
    returns (left: seq<Sheet>, right: seq<Sheet>, ghost order: seq<string>, ghost ts: seq<Tally>)
    requires forall s | s in wb1 :: s !in wb2
    requires st1 == States(wb1) && st2 == States(wb2)
    ensures |left| == |ts| && |right| == |ts| && |order| == |ts|
    ensures forall k :: k in order <==> k in CommonNames(wb1, wb2)
    ensures |ts| == 0 ==> CommonNames(wb1, wb2) == {}
    ensures forall i, j | 0 <= i < |left| && 0 <= j < |right| :: left[i] != right[j]
    ensures forall i, j | 0 <= i < j < |right| :: right[i] != right[j]
    ensures forall i | 0 <= i < |right| :: right[i] in MatchedRight(wb1, wb2)
    ensures forall i | 0 <= i < |ts| ::
      ts[i] == SheetWalk(rules, SheetState(left[i].cells, left[i].maxRow, left[i].maxCol), SheetState(right[i].cells, right[i].maxRow, right[i].maxCol))
    ensures Counted(ts) == 0 <==> AllSilent(rules, wb1, wb2, st1, st2)
    ensures forall k | k in CommonNames(wb1, wb2) ::
      Position(order, k) < |right| && Right(wb1, wb2, k) == right[Position(order, k)] &&
      TitleWalk(rules, wb1, wb2, st1, st2, k) == ts[Position(order, k)]
  {
    order, left, right := MatchSheets(wb1, wb2);
    ts := WalksOf(rules, wb1, wb2, st1, st2, order);
    Apart(wb1, wb2, order, left, right);
    Ready(rules, wb1, wb2, order, left, right, ts);
    Done(rules, wb1, wb2, st1, st2, order, right, ts);
  }

  /**
   * Every cleaned sheet title both workbooks show is compared; 'X' when there
   * is none or when the walk of any pair counts a mismatch, 'O' otherwise.
   * The V2 sheet of each common title gains the fills of its pair's walk over
   * the workbooks as they were; no other sheet changes.
   */
  method CompareWorkbooks(rules: Rules, wb1: seq<Sheet>, wb2: seq<Sheet>) returns (result: char, count: nat)
    requires forall s | s in wb1 :: s !in wb2
    modifies MatchedRight(wb1, wb2)
    ensures result == 'O' || result == 'X'
    ensures result == 'O' <==> CommonNames(wb1, wb2) != {} && AllSilent(rules, wb1, wb2, old(States(wb1)), old(States(wb2)))
    ensures CommonNames(wb1, wb2) != {} ==> (result == 'X' <==> count > 0)
    ensures forall k | k in CommonNames(wb1, wb2) ::
      Right(wb1, wb2, k).cells == old(Right(wb1, wb2, k).cells) &&
      Right(wb1, wb2, k).fills == old(Right(wb1, wb2, k).fills) + TitleWalk(rules, wb1, wb2, old(States(wb1)), old(States(wb2)), k).fills
  {
    ghost var st1, st2 := States(wb1), States(wb2);
    var left, right, order, ts := PairSheets(rules, wb1, wb2, st1, st2);
    if |left| == 0 {
      return 'X', 0;
    }
    count := CompareEach(rules, left, right, ts);
    result := if count > 0 then 'X' else 'O';
  }

  /**
   * The loop over the common titles: the V1 sheet `left[i]` against the V2
   * sheet `right[i]`, whose walk is `ts[i]`, one pair after another.
   */
  method CompareEach(rules: Rules, left: seq<Sheet>, right: seq<Sheet>, ghost ts: seq<Tally>) returns (count: nat)
    requires |left| == |right| == |ts|
    requires forall i, j | 0 <= i < |left| && 0 <= j < |right| :: left[i] != right[j]
    requires forall i, j | 0 <= i < j < |right| :: right[i] != right[j]
    requires forall i | 0 <= i < |ts| ::
      ts[i] == SheetWalk(rules, SheetState(left[i].cells, left[i].maxRow, left[i].maxCol), SheetState(right[i].cells, right[i].maxRow, right[i].maxCol))
    modifies right
    ensures count == Counted(ts)
    ensures forall i | 0 <= i < |right| :: right[i].cells == old(right[i].cells) && right[i].fills == old(right[i].fills) + ts[i].fills
  {
    count := 0;
    for i := 0 to |right|
      invariant forall j | 0 <= j < |right| :: right[j].cells == old(right[j].cells)
      invariant forall j | i <= j < |right| :: right[j].maxRow == old(right[j].maxRow) && right[j].maxCol == old(right[j].maxCol)
      invariant forall j | 0 <= j < |right| :: right[j].fills == old(right[j].fills) + (if j < i then ts[j].fills else {})
      invariant count == Counted(ts[..i])
    {
      assert ts[..i + 1][..i] == ts[..i];
      var c := ComparePair(rules, left[i], right[i]);
      count := count + c;
    }
    assert ts[..|ts|] == ts;
  }

  /**
   * `compare_excel_files` of the shift script, for the first file's path:
   * 'O' exactly when some title is shared and every cell pair of the keyed
   * rows of every matched sheet pair passes; a file whose name lacks "シフト"
   * compares nothing and gives 'O' whenever a title is shared.
   */
  method CompareExcelFiles(wb1: seq<Sheet>, wb2: seq<Sheet>, path1: string) returns (result: char, count: nat)
    requires forall s | s in wb1 :: s !in wb2
    modifies MatchedRight(wb1, wb2)
    ensures result == 'O' || result == 'X'
    ensures result == 'O' <==>
      CommonNames(wb1, wb2) != {} && AllPairsPass(RulesShift(Kinmu32.BaseName(path1)), wb1, wb2, old(States(wb1)), old(States(wb2)))
    ensures CommonNames(wb1, wb2) != {} && !Contains(Kinmu32.BaseName(path1), "シフト") ==> result == 'O'
    ensures forall k | k in CommonNames(wb1, wb2) ::
      Right(wb1, wb2, k).cells == old(Right(wb1, wb2, k).cells) &&
      Right(wb1, wb2, k).fills ==
        old(Right(wb1, wb2, k).fills) + TitleWalk(RulesShift(Kinmu32.BaseName(path1)), wb1, wb2, old(States(wb1)), old(States(wb2)), k).fills
  {
    var name := Kinmu32.BaseName(path1);
    var rules := RulesShift(name);
    JudgeShiftVerdicts(name);
    AllSilentPass(rules, wb1, wb2, States(wb1), States(wb2));
    if !Contains(name, "シフト") {
      ShiftNameSilent(name);
    }
    result, count := CompareWorkbooks(rules, wb1, wb2);
  }
}
