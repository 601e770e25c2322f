/**
 * The priority chain each comparison script runs on one pair of cells, as a
 * function of the sheets' contents: what the column loop does with the pair.
 * Version 3.2 of `kinmu_compare` runs the longest chain; version 1 and the
 * shift script share a shorter one that differs only in its ignore table.
 */
module Chain {
  import opened Wrappers
  import opened Text
  import opened Values
  import opened Normalize
  import opened Times
  import opened Dates
  import opened Equivalence
  import opened Columns
  import opened Sheets

  /** What the column loop does with one pair of cells. */
  datatype Step =
    | Pass     // `continue`, or the end of the chain with no difference
    | Flag     // the V2 cell is painted and one mismatch counted
    | Fail     // an exception: one mismatch counted, nothing painted
    | CopyRow  // column D of version 3.2: V2's row copied into V1, then `break`
    | EndRow   // column D of version 3.2: `break`

  /** A step that does not stop the column loop. */
  predicate Verdict(s: Step) {
    s == Pass || s == Flag || s == Fail
  }

  /** `str(v).strip()` unless `v` is a datetime; `None` prints as "None". */
  function Operand(n: Option<Canon>): Val {
    match n
    case None => Text("None")
    case Some(Str(s)) => Text(Trim(s))
    case Some(Dt(t)) => When(t)
    case Some(Float(d)) => Text(Trim(FloatRepr(d)))
  }

  /** `isinstance(v, datetime) or is_datetime_string(v)`. */
  predicate DateLike(v: Val) {
    v.When? || IsDatetimeString(v.s)
  }

  /** The date rule: when either side is a date, only the `YYYY/MM/DD` parts are compared. */
  function DateRule(v1: Val, v2: Val): (r: Option<Step>)
    ensures r.Some? ==> Verdict(r.value)
    ensures r.None? ==> v1.Text? && v2.Text?
  {
    if DateLike(v1) || DateLike(v2) then Some(if DatePart(v1) != DatePart(v2) then Flag else Pass)
    else None
  }

  /** A boolean test that may raise, turned into the step it leads to. */
  function Outcome(same: Result<bool>): (r: Step)
    ensures Verdict(r)
  {
    match same
    case Raised => Fail
    case Ok(b) => if b then Pass else Flag
  }

  /**
   * The time rule: `is_time_string` on both sides (either may raise); when one
   * side is a time, `compare_time_values` decides.  `strict` selects the copy
   * of version 1 and of the shift script.
   */
  function TimeRule(a: string, b: string, strict: bool): (r: Option<Step>)
    ensures r.Some? ==> Verdict(r.value)
  {
    var t1 := IsTimeString(a);
    var t2 := IsTimeString(b);
    if t1.Raised? || t2.Raised? then Some(Fail)
    else if t1.value || t2.value then
      Some(Outcome(if strict then CompareTimeValuesStrict(a, b) else CompareTimeValues(a, b)))
    else None
  }

  /** One of the three range separators occurs. */
  predicate HasDash(s: string) {
    '〜' in s || '～' in s || '~' in s
  }

  /** `format_time_range(str(v)).split('~')`; the `None` of version 3.2 has no `split`. */
  function RangeParts(s: string, strict: bool): Result<seq<string>> {
    if strict then
      match FormatTimeRangeStrict(s)
      case Raised => Raised
      case Ok(r) => Ok(SplitOn(r, '~'))
    else
      match FormatTimeRange(s)
      case None => Raised
      case Some(r) => Ok(SplitOn(r, '~'))
  }

  /**
   * The range rule: with a separator on either side, two two-part ranges are
   * compared end by end; anything else falls through.
   */
  function RangeRule(a: string, b: string, strict: bool): (r: Option<Step>)
    ensures r.Some? ==> Verdict(r.value)
  {
    if !(HasDash(a) || HasDash(b)) then None
    else
      var p := RangeParts(a, strict);
      var q := RangeParts(b, strict);
      if p.Raised? || q.Raised? then Some(Fail)
      else RangeEnds(p.value, q.value)
  }

  /** Start against start and end against end with `compare_time_parts`, when both sides have two parts. */
  function RangeEnds(p: seq<string>, q: seq<string>): (r: Option<Step>)
    ensures r.Some? ==> Verdict(r.value)
  {
    if |p| == 2 && |q| == 2 then
      var s := CompareTimeParts(p[0], q[0]);
      var e := CompareTimeParts(p[1], q[1]);
      if s.Raised? || e.Raised? then Some(Fail)
      else Some(if s.value && e.value then Pass else Flag)
    else None
  }

  // ---------------------------------------------------------------------
  // The rules only version 3.2 has

  /**
   * A blank V1 cell against "その他(一日)" passes when both cells to the left
   * hold "休み"; reading column 0 to the left of column 1 raises.
   */
  function OtherDayRule(g1: Grid, g2: Grid, row1: int, row2: int, col1: int, col2: int,
                        n1: Option<Canon>, n2: Option<Canon>): (r: Option<Step>)
    ensures r.Some? ==> Verdict(r.value)
  {
    if (n1.None? || n1 == Some(Str("None"))) && n2 == Some(Str("その他(一日)")) then
      if col1 - 1 < 1 then Some(Fail)
      else if At(g1, row1, col1 - 1) != TextCell("休み") then None
      else if col2 - 1 < 1 then Some(Fail)
      else if At(g2, row2, col2 - 1) == TextCell("休み") then Some(Pass)
      else None
    else None
  }

  /** In column 5, V1's leave (column 5) and outing (column 6) ranges overlap. */
  function LeaveRule(g1: Grid, row1: int, col: int): (r: Option<Step>)
    ensures r.Some? ==> Verdict(r.value)
  {
    var leave := At(g1, row1, 5);
    var outing := At(g1, row1, 6);
    if col == 5 && Truthy(leave) && Truthy(outing)
       && TimesOverlap(FormatTimeRangeCell(leave), FormatTimeRangeCell(outing))
    then Some(Flag)
    else None
  }

  /**
   * V2's off-duty time (column 17) is not "00:00" while V1's is, and V2's
   * overtime (column 19) is a positive number; it drives both the row skip and
   * the column-17 rule.
   */
  predicate OutTimeClash(g1: Grid, g2: Grid, row1: int, row2: int) {
    NormalizeTimeCell(At(g2, row2, 17)) != Some("00:00")
    && NormalizeTimeCell(At(g1, row1, 17)) == Some("00:00")
    && PositiveNumber(At(g2, row2, 19))
  }

  function OutTimeRule(g1: Grid, g2: Grid, row1: int, row2: int, col: int): (r: Option<Step>)
    ensures r.Some? ==> Verdict(r.value)
  {
    if col == 17 && OutTimeClash(g1, g2, row1, row2) then Some(Flag) else None
  }

  /** In column 4, an empty V1 cell ends the row, after copying V2's row when V2's cell is not empty. */
  function BlankDayRule(g1: Grid, g2: Grid, row1: int, row2: int, col: int): Option<Step> {
    if col == 4 && Empty(At(g1, row1, 4)) then
      Some(if !Empty(At(g2, row2, 4)) then CopyRow else EndRow)
    else None
  }

  /** The last rule of version 3.2: text that differs, is not excused and still differs without ：【】()（）. */
  function Literal32(a: string, b: string): (r: Step)
    ensures Verdict(r)
  {
    if a != b && !IgnoredMismatch32(a, b) && StripMarks(a) != StripMarks(b) then Flag else Pass
  }

  /**
   * Only column D stops the row: a copy when V1's cell there is empty and
   * V2's is not, a bare `break` when both are empty.
   */
  predicate StopAllowed(g1: Grid, g2: Grid, row1: int, row2: int, col: int, s: Step) {
    (s == CopyRow ==> col == 4 && Empty(At(g1, row1, 4)) && !Empty(At(g2, row2, 4)))
    && (s == EndRow ==> col == 4 && Empty(At(g1, row1, 4)) && Empty(At(g2, row2, 4)))
  }

  /** The chain of version 3.2 on the normalised values of V1 (row1, col1) and V2 (row2, col2). */
  function Rules32(g1: Grid, g2: Grid, row1: int, row2: int, col: int, col1: int, col2: int,
                   n1: Option<Canon>, n2: Option<Canon>): (r: Step)
    ensures StopAllowed(g1, g2, row1, row2, col, r)
  {
    if n1.None? && n2.None? then Pass
    else match OtherDayRule(g1, g2, row1, row2, col1, col2, n1, n2)
      case Some(s) => s
      case None => ValueRules32(g1, g2, row1, row2, col, Operand(n1), Operand(n2))
  }

  /** From the date rule on, once both sides are strings or datetimes. */
  function ValueRules32(g1: Grid, g2: Grid, row1: int, row2: int, col: int, v1: Val, v2: Val): (r: Step)
    ensures StopAllowed(g1, g2, row1, row2, col, r)
  {
    match DateRule(v1, v2)
    case Some(s) => s
    case None => TextRules32(g1, g2, row1, row2, col, v1.s, v2.s)
  }

  /** From the time rule on, once neither side is date-like. */
  function TextRules32(g1: Grid, g2: Grid, row1: int, row2: int, col: int, a: string, b: string): (r: Step)
    ensures StopAllowed(g1, g2, row1, row2, col, r)
  {
    match TimeRule(a, b, false)
    case Some(s) => s
    case None =>
      if VacationEquivalent(a, b) then Pass
      else match RangeRule(a, b, false)
        case Some(s) => s
        case None => LateRules32(g1, g2, row1, row2, col, a, b)
  }

  /** The rules after the range rule: columns 5, 17 and 4, then the literal comparison. */
  function LateRules32(g1: Grid, g2: Grid, row1: int, row2: int, col: int, a: string, b: string): (r: Step)
    ensures StopAllowed(g1, g2, row1, row2, col, r)
  {
    match LeaveRule(g1, row1, col)
    case Some(s) => s
    case None =>
      match OutTimeRule(g1, g2, row1, row2, col)
      case Some(s) => s
      case None =>
        match BlankDayRule(g1, g2, row1, row2, col)
        case Some(s) => s
        case None => Literal32(a, b)
  }

  /** The V1 column version 3.2 reads for `col`, after the "申請書" displacement. */
  function Column32(g2: Grid, name: string, row: int, col: int): Option<(int, int)> {
    match KinmuColumns(col, name)
    case None => None
    case Some(p) => Some((ApplicationShift(p.0, p.1, row, At(g2, 8, 21)), p.1))
  }

  /** Version 3.2 on column `col` of the row pair (row1, row2), `row` being the loop's row. */
  function Cell32(g1: Grid, g2: Grid, name: string, row: int, row1: int, row2: int, col: int): (r: Step)
    ensures StopAllowed(g1, g2, row1, row2, col, r)
  {
    match Column32(g2, name, row, col)
    case None => Pass
    case Some(p) =>
      Rules32(g1, g2, row1, row2, col, p.0, p.1,
              NormalizeKinmu(At(g1, row1, p.0)), NormalizeKinmu(At(g2, row2, p.1)))
  }

  // ---------------------------------------------------------------------
  // Version 1 and the shift script

  /** The ignore table of version 1 (`shift` false) or of the shift script. */
  predicate Ignored(shift: bool, a: string, b: string) {
    if shift then IgnoredMismatchShift(a, b) else IgnoredMismatch1(a, b)
  }

  /** The shorter chain: one blank side is a mismatch, then dates, times, ranges and text. */
  function RulesStrict(n1: Option<Canon>, n2: Option<Canon>, shift: bool): (r: Step)
    ensures Verdict(r)
  {
    if n1.None? && n2.None? then Pass
    else if n1.None? || n2.None? then Flag
    else ValueRulesStrict(Operand(n1), Operand(n2), shift)
  }

  /** From the date rule on. */
  function ValueRulesStrict(v1: Val, v2: Val, shift: bool): (r: Step)
    ensures Verdict(r)
  {
    match DateRule(v1, v2)
    case Some(s) => s
    case None => TextRulesStrict(v1.s, v2.s, shift)
  }

  /** From the time rule on, once neither side is date-like. */
  function TextRulesStrict(a: string, b: string, shift: bool): (r: Step)
    ensures Verdict(r)
  {
    match TimeRule(a, b, true)
    case Some(s) => s
    case None =>
      match RangeRule(a, b, true)
      case Some(s) => s
      case None => if a != b && !Ignored(shift, a, b) then Flag else Pass
  }

  /** Version 1 on column `col` of row `row`. */
  function Cell1(g1: Grid, g2: Grid, name: string, row: int, col: int): (r: Step)
    ensures Verdict(r)
  {
    match KinmuColumns(col, name)
    case None => Pass
    case Some(p) => RulesStrict(NormalizeKinmu(At(g1, row, p.0)), NormalizeKinmu(At(g2, row, p.1)), false)
  }

  /** The shift script on column `col` of the matched rows. */
  function CellShift(g1: Grid, g2: Grid, name: string, row1: int, row2: int, col: int): (r: Step)
    ensures Verdict(r)
  {
    match ShiftColumns(col, name)
    case None => Pass
    case Some(p) => RulesStrict(NormalizeShift(At(g1, row1, p.0)), NormalizeShift(At(g2, row2, p.1)), true)
  }
}
