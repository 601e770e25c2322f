/**
 * What the cell chains decide on the inputs the scripts are written for: the
 * tolerated differences pass, the intended mismatches are flagged, and some
 * identical cells still count as a mismatch.
 */
module ChainFacts {
  import opened Wrappers
  import opened Text
  import opened Values
  import opened Strptime
  import opened Normalize
  import opened Times
  import opened Dates
  import opened Equivalence
  import opened Columns
  import opened Sheets
  import opened Chain

  // ---------------------------------------------------------------------
  // Helpers

  /** Text that does not open with four digits is not a datetime text. */
  lemma NoYearNoDate(s: string)
    requires !(|s| > 4 && AllDigits(s[..4]))
    ensures !IsDatetimeString(s)
  {
    forall i | 0 <= i < |DatetimePatterns| ensures Parse(DatetimePatterns[i], s).None? {
      var fmt := DatetimePatterns[i];
      assert |fmt| >= 2 && fmt[0] == Year && fmt[1].Lit?;
      ParseNeedsSeparator(fmt, s);
    }
  }

  /** Text that opens with something other than a digit is neither a date nor a time, and does not raise. */
  lemma PlainText(s: string)
    requires |s| > 0 && !IsDigit(s[0]) && !IsSpace(s[0]) && s[0] != '：' && ':' !in s
    ensures !IsDatetimeString(s) && IsTimeString(s) == Ok(false)
  {
    NoYearNoDate(s);
    PlainTextNotTime(s, s[0]);
  }

  // ---------------------------------------------------------------------
  // Walking down the chains one rule at a time

  /** Past the pair of blanks and the "その他(一日)" rule, version 3.2 decides on the two values. */
  lemma Rules32Values(g1: Grid, g2: Grid, row1: int, row2: int, col: int, col1: int, col2: int,
                      n1: Option<Canon>, n2: Option<Canon>)
    requires n1.Some? || n2.Some?
    requires OtherDayRule(g1, g2, row1, row2, col1, col2, n1, n2).None?
    ensures Rules32(g1, g2, row1, row2, col, col1, col2, n1, n2)
      == ValueRules32(g1, g2, row1, row2, col, Operand(n1), Operand(n2))
  {
  }

  /** The date rule answers when it applies, and hands the texts on otherwise. */
  lemma ValueRules32Date(g1: Grid, g2: Grid, row1: int, row2: int, col: int, v1: Val, v2: Val)
    ensures DateRule(v1, v2).Some? ==> ValueRules32(g1, g2, row1, row2, col, v1, v2) == DateRule(v1, v2).value
    ensures DateRule(v1, v2).None? ==>
      ValueRules32(g1, g2, row1, row2, col, v1, v2) == TextRules32(g1, g2, row1, row2, col, v1.s, v2.s)
  {
  }

  /** The time rule answers when it applies. */
  lemma TextRules32Time(g1: Grid, g2: Grid, row1: int, row2: int, col: int, a: string, b: string)
    requires TimeRule(a, b, false).Some?
    ensures TextRules32(g1, g2, row1, row2, col, a, b) == TimeRule(a, b, false).value
  {
  }

  /** After the time rule: vacation texts pass, then the range rule, then the late rules. */
  lemma TextRules32Rest(g1: Grid, g2: Grid, row1: int, row2: int, col: int, a: string, b: string)
    requires TimeRule(a, b, false).None?
    ensures VacationEquivalent(a, b) ==> TextRules32(g1, g2, row1, row2, col, a, b) == Pass
    ensures !VacationEquivalent(a, b) && RangeRule(a, b, false).Some? ==>
      TextRules32(g1, g2, row1, row2, col, a, b) == RangeRule(a, b, false).value
    ensures !VacationEquivalent(a, b) && RangeRule(a, b, false).None? ==>
      TextRules32(g1, g2, row1, row2, col, a, b) == LateRules32(g1, g2, row1, row2, col, a, b)
  {
  }

  /** Outside columns 4 and 5 the late rules come down to the literal comparison. */
  lemma LateRules32Literal(g1: Grid, g2: Grid, row1: int, row2: int, col: int, a: string, b: string)
    requires col != 4 && col != 5
    ensures LateRules32(g1, g2, row1, row2, col, a, b) == Literal32(a, b)
  {
    OutTimeDormant(g1, g2, row1, row2);
  }

  /** Version 1 and the shift script decide on the two values once neither side is blank. */
  lemma RulesStrictValues(n1: Option<Canon>, n2: Option<Canon>, shift: bool)
    requires n1.Some? && n2.Some?
    ensures RulesStrict(n1, n2, shift) == ValueRulesStrict(Operand(n1), Operand(n2), shift)
  {
  }

  /** The date rule of the shorter chain answers when it applies, and hands the texts on otherwise. */
  lemma ValueRulesStrictDate(v1: Val, v2: Val, shift: bool)
    ensures DateRule(v1, v2).Some? ==> ValueRulesStrict(v1, v2, shift) == DateRule(v1, v2).value
    ensures DateRule(v1, v2).None? ==> ValueRulesStrict(v1, v2, shift) == TextRulesStrict(v1.s, v2.s, shift)
  {
  }

  /** The time rule of the shorter chain answers when it applies. */
  lemma TextRulesStrictTime(a: string, b: string, shift: bool)
    requires TimeRule(a, b, true).Some?
    ensures TextRulesStrict(a, b, shift) == TimeRule(a, b, true).value
  {
  }

  /** The range rule of the shorter chain answers when the time rule does not. */
  lemma TextRulesStrictRange(a: string, b: string, shift: bool)
    requires TimeRule(a, b, true).None? && RangeRule(a, b, true).Some?
    ensures TextRulesStrict(a, b, shift) == RangeRule(a, b, true).value
  {
  }

  /** Two texts that are not times keep the time rule of either copy out. */
  lemma TimesStayOut(a: string, b: string)
    requires IsTimeString(a) == Ok(false) && IsTimeString(b) == Ok(false)
    ensures TimeRule(a, b, false).None? && TimeRule(a, b, true).None?
  {
  }

  // ---------------------------------------------------------------------
  // Blank cells

  /** Version 1 and the shift script flag a pair with exactly one blank side. */
  lemma OneBlankFlags(n: Canon, shift: bool)
    ensures RulesStrict(None, Some(n), shift) == Flag
    ensures RulesStrict(Some(n), None, shift) == Flag
  {
  }

  /** The text a blank side becomes in version 3.2 is not a date. */
  lemma NoneNotDate()
    ensures !IsDatetimeString("None")
  {
    NoYearNoDate("None");
  }

  /** Nor is it a time, and the time test does not raise on it. */
  lemma NoneNotTime()
    ensures IsTimeString("None") == Ok(false)
  {
    PlainTextNotTime("None", 'N');
  }

  /** Nor does it hold a range separator. */
  lemma NoneNotRange()
    ensures !HasDash("None")
  {
  }

  /** Plain text against the blank side's "None" is not a date pair ... */
  lemma NoneDateFalls(u: string)
    requires |u| > 0 && !IsDigit(u[0]) && !IsSpace(u[0]) && u[0] != '：' && ':' !in u
    ensures DateRule(Text("None"), Text(u)).None?
  {
    PlainText(u);
    NoneNotDate();
  }

  /** ... nor a time pair ... */
  lemma NoneTimeFalls(u: string)
    requires |u| > 0 && !IsDigit(u[0]) && !IsSpace(u[0]) && u[0] != '：' && ':' !in u
    ensures TimeRule("None", u, false).None?
  {
    PlainText(u);
    NoneNotTime();
  }

  /** ... nor, without a separator, a range pair. */
  lemma NoneRangeFalls(u: string)
    requires !HasDash(u)
    ensures RangeRule("None", u, false).None?
  {
    NoneNotRange();
  }

  /** "None" opens neither vacation class, so it is never vacation-equivalent to text opening otherwise. */
  lemma NoneNotVacation(u: string)
    requires |u| > 0 && u[0] != '【' && u[0] != '休'
    ensures !VacationEquivalent("None", u)
  {
  }

  /** The last rule of version 3.2 passes a pair its table excuses. */
  lemma ExcusedLiteral(a: string, b: string)
    requires IgnoredMismatch32(a, b)
    ensures Literal32(a, b) == Pass
  {
  }

  /** The "その他(一日)" rule is only about that text. */
  lemma OtherDayOnly(g1: Grid, g2: Grid, row1: int, row2: int, col1: int, col2: int,
                     n1: Option<Canon>, u: string)
    requires u != "その他(一日)"
    ensures OtherDayRule(g1, g2, row1, row2, col1, col2, n1, Some(Str(u))).None?
  {
  }

  /** A blank V1 cell against "その他(一日)" passes exactly when both cells to the left hold "休み". */
  lemma OtherDayPasses(g1: Grid, g2: Grid, row1: int, row2: int, col1: int, col2: int, n1: Option<Canon>)
    requires n1.None? || n1 == Some(Str("None"))
    requires col1 > 1 && col2 > 1
    ensures OtherDayRule(g1, g2, row1, row2, col1, col2, n1, Some(Str("その他(一日)"))) == Some(Pass) <==>
      At(g1, row1, col1 - 1) == TextCell("休み") && At(g2, row2, col2 - 1) == TextCell("休み")
  {
  }

  /** Against "None", such a text falls through the date, time, vacation and range rules. */
  lemma NoneAgainstPlain(u: string)
    requires |u| > 0 && !IsDigit(u[0]) && !IsSpace(u[0]) && u[0] != '：' && u[0] != '【' && u[0] != '休'
    requires ':' !in u && !HasDash(u)
    ensures DateRule(Text("None"), Text(u)).None? && TimeRule("None", u, false).None?
    ensures !VacationEquivalent("None", u) && RangeRule("None", u, false).None?
  {
    NoneDateFalls(u);
    NoneTimeFalls(u);
    NoneNotVacation(u);
    NoneRangeFalls(u);
  }

  /**
   * Version 3.2 reads a blank side as the text "None", so a blank V1 cell
   * against text the ignore table pairs with "None" (such as
   * "システム未使用期間") is excused, outside columns 4 and 5, whose own rules
   * come first.
   */
  lemma BlankAgainstExcused(g1: Grid, g2: Grid, row1: int, row2: int, col: int, col1: int, col2: int, u: string)
    requires col != 4 && col != 5
    requires |u| > 0 && !IsDigit(u[0]) && !IsSpace(u[0]) && u[0] != '：' && u[0] != '【' && u[0] != '休'
    requires Trimmed(u) && ':' !in u && !HasDash(u)
    requires IgnoredMismatch32("None", u)
    ensures Rules32(g1, g2, row1, row2, col, col1, col2, None, Some(Str(u))) == Pass
  {
    TrimOfTrimmed(u);
    assert u != "その他(一日)";
    OtherDayOnly(g1, g2, row1, row2, col1, col2, None, u);
    NoneAgainstPlain(u);
    Rules32Values(g1, g2, row1, row2, col, col1, col2, None, Some(Str(u)));
    ValueRules32Date(g1, g2, row1, row2, col, Text("None"), Text(u));
    NoneTextExcused(g1, g2, row1, row2, col, u);
  }

  /** From the time rule on, "None" against such a text reaches the last rule, which excuses it. */
  lemma NoneTextExcused(g1: Grid, g2: Grid, row1: int, row2: int, col: int, u: string)
    requires col != 4 && col != 5
    requires |u| > 0 && !IsDigit(u[0]) && !IsSpace(u[0]) && u[0] != '：' && u[0] != '【' && u[0] != '休'
    requires ':' !in u && !HasDash(u)
    requires IgnoredMismatch32("None", u)
    ensures TextRules32(g1, g2, row1, row2, col, "None", u) == Pass
  {
    NoneAgainstPlain(u);
    TextRules32Rest(g1, g2, row1, row2, col, "None", u);
    LateRules32Literal(g1, g2, row1, row2, col, "None", u);
    ExcusedLiteral("None", u);
  }

  /** "システム未使用期間" is such a text. */
  lemma UnusedExcused()
    ensures var u := "システム未使用期間";
      |u| > 0 && !IsDigit(u[0]) && !IsSpace(u[0]) && u[0] != '：' && u[0] != '【' && u[0] != '休'
      && Trimmed(u) && ':' !in u && !HasDash(u) && IgnoredMismatch32("None", u)
  {
    Equivalence.BlankAgainstUnused("");
  }

  // ---------------------------------------------------------------------
  // Dormant rules

  /**
   * `normalize_time_format` never gives "00:00", so neither the row skip on
   * column 17 nor the column-17 rule of version 3.2 can fire.
   */
  lemma OutTimeDormant(g1: Grid, g2: Grid, row1: int, row2: int)
    ensures !OutTimeClash(g1, g2, row1, row2)
    ensures forall col :: OutTimeRule(g1, g2, row1, row2, col).None?
  {
    var c := At(g1, row1, 17);
    if c.TextCell? {
      NormalizeTimeNotDoubleZero(c.s);
    }
  }

  // ---------------------------------------------------------------------
  // Column D of version 3.2

  /**
   * The `break` without a copy never happens: an empty V1 cell in column D
   * normalises to `None`, and so does an empty V2 cell, and two `None`s pass
   * before the column-D rule is reached.
   */
  lemma BlankDayNeverEnds(g1: Grid, g2: Grid, name: string, row: int, row1: int, row2: int)
    ensures Cell32(g1, g2, name, row, row1, row2, 4) != EndRow
  {
    var c1 := At(g1, row1, 4);
    var c2 := At(g2, row2, 4);
    EmptyMeansBlankLike(c1);
    EmptyMeansBlankLike(c2);
    assert Column32(g2, name, row, 4) == Some((4, 4));
  }

  // ---------------------------------------------------------------------
  // Dates

  /** Two datetimes fall on the same calendar day. */
  predicate SameDay(t: Stamp, u: Stamp) {
    t.year == u.year && t.month == u.month && t.day == u.day
  }

  /** `%Y/%m/%d` tells days apart and nothing finer. */
  lemma SlashDateTextSameDay(t: Stamp, u: Stamp)
    ensures SlashDateText(t) == SlashDateText(u) <==> SameDay(t, u)
  {
    StrftimeSlashDate(t);
    StrftimeSlashDate(u);
    if SlashDateText(t) == SlashDateText(u) {
      ParseSlashDateText(t);
      ParseSlashDateText(u);
    }
  }

  /** Between two datetimes every chain compares the day only: the same day passes, another is flagged. */
  lemma DatesByDay(g1: Grid, g2: Grid, row1: int, row2: int, col: int, col1: int, col2: int,
                   t: Stamp, u: Stamp, shift: bool)
    ensures var want := if SameDay(t, u) then Pass else Flag;
      Rules32(g1, g2, row1, row2, col, col1, col2, Some(Dt(t)), Some(Dt(u))) == want
      && RulesStrict(Some(Dt(t)), Some(Dt(u)), shift) == want
  {
    SlashDateTextSameDay(t, u);
  }

  /** A day followed by a note is trimmed text that opens with a digit. */
  lemma NotedDateShape(t: Stamp, q: string)
    requires |q| > 0 && !IsSpace(q[|q| - 1])
    ensures var s := SlashDateText(t) + q;
      IsDigit(s[0]) && Trim(s) == s
  {
    var s := SlashDateText(t) + q;
    SlashDateShape(t);
    assert s[0] == SlashDateText(t)[..4][0];
    TrimOfTrimmed(s);
  }

  /**
   * A datetime against text holding its day followed by a note, as in
   * "2024/01/05(金)", passes in every chain, either way round.
   */
  lemma NotedDatePasses(g1: Grid, g2: Grid, row1: int, row2: int, col: int, col1: int, col2: int,
                        t: Stamp, q: string, shift: bool)
    requires |q| > 0 && !IsDigit(q[0]) && !IsSpace(q[0]) && !IsSpace(q[|q| - 1])
    ensures var d := Some(Dt(t));
      var n := Some(Str(SlashDateText(t) + q));
      Rules32(g1, g2, row1, row2, col, col1, col2, d, n) == Pass
      && Rules32(g1, g2, row1, row2, col, col1, col2, n, d) == Pass
      && RulesStrict(d, n, shift) == Pass && RulesStrict(n, d, shift) == Pass
  {
    NotedDatePasses32(g1, g2, row1, row2, col, col1, col2, t, q);
    NotedDatePassesStrict(t, q, shift);
  }

  /** The facts about a noted day that both chains use. */
  lemma NotedDateFacts(t: Stamp, q: string)
    requires |q| > 0 && !IsDigit(q[0]) && !IsSpace(q[0]) && !IsSpace(q[|q| - 1])
    ensures var s := SlashDateText(t) + q;
      IsDigit(s[0]) && Trim(s) == s && s != "その他(一日)" && s != "None"
      && !IsDatetimeString(s) && DatePart(Text(s)) == SlashDateText(t)
  {
    var s := SlashDateText(t) + q;
    NotedDateShape(t, q);
    assert s != "その他(一日)" && s != "None";
    DatePartOfNotedDate(t, q);
  }

  /** Version 3.2 passes a datetime against its noted day, either way round. */
  lemma NotedDatePasses32(g1: Grid, g2: Grid, row1: int, row2: int, col: int, col1: int, col2: int,
                          t: Stamp, q: string)
    requires |q| > 0 && !IsDigit(q[0]) && !IsSpace(q[0]) && !IsSpace(q[|q| - 1])
    ensures var d := Some(Dt(t));
      var n := Some(Str(SlashDateText(t) + q));
      Rules32(g1, g2, row1, row2, col, col1, col2, d, n) == Pass
      && Rules32(g1, g2, row1, row2, col, col1, col2, n, d) == Pass
  {
    var s := SlashDateText(t) + q;
    var d := Some(Dt(t));
    var n := Some(Str(s));
    NotedDateFacts(t, q);
    assert Operand(n) == Text(s) && Operand(d) == When(t);
    assert DateRule(When(t), Text(s)) == Some(Pass);
    assert DateRule(Text(s), When(t)) == Some(Pass);
    Rules32Values(g1, g2, row1, row2, col, col1, col2, d, n);
    Rules32Values(g1, g2, row1, row2, col, col1, col2, n, d);
    ValueRules32Date(g1, g2, row1, row2, col, When(t), Text(s));
    ValueRules32Date(g1, g2, row1, row2, col, Text(s), When(t));
  }

  /** Version 1 and the shift script pass a datetime against its noted day, either way round. */
  lemma NotedDatePassesStrict(t: Stamp, q: string, shift: bool)
    requires |q| > 0 && !IsDigit(q[0]) && !IsSpace(q[0]) && !IsSpace(q[|q| - 1])
    ensures var d := Some(Dt(t));
      var n := Some(Str(SlashDateText(t) + q));
      RulesStrict(d, n, shift) == Pass && RulesStrict(n, d, shift) == Pass
  {
    var s := SlashDateText(t) + q;
    var d := Some(Dt(t));
    var n := Some(Str(s));
    NotedDateFacts(t, q);
    assert Operand(n) == Text(s) && Operand(d) == When(t);
    assert DateRule(When(t), Text(s)) == Some(Pass) && DateRule(Text(s), When(t)) == Some(Pass);
    RulesStrictValues(d, n, shift);
    RulesStrictValues(n, d, shift);
    ValueRulesStrictDate(When(t), Text(s), shift);
    ValueRulesStrictDate(Text(s), When(t), shift);
  }

  // ---------------------------------------------------------------------
  // Clock times

  /** Clock text is no datetime text, and none of the texts the chain singles out. */
  lemma ClockTextPlain(h: nat, m: nat)
    requires h < 24 && m < 60
    ensures var s := ClockText(h, m);
      !IsDatetimeString(s) && Trim(s) == s && s != "その他(一日)" && s != "None"
  {
    ClockTextParts(h, m);
    var s := ClockText(h, m);
    var x := IntToString(h);
    assert s[|x|] == ':' && |x| <= 2;
    NoYearNoDate(s);
    assert IsDigit(s[0]) && IsDigit(s[|s| - 1]);
    TrimOfTrimmed(s);
  }

  /** Two clock texts show the same time exactly when hours and minutes agree. */
  lemma SameClockText(h1: nat, m1: nat, h2: nat, m2: nat)
    requires h1 < 24 && m1 < 60 && h2 < 24 && m2 < 60
    ensures SameClock(ClockText(h1, m1), ClockText(h2, m2)) <==> h1 == h2 && m1 == m2
  {
    ClockTextPlain(h1, m1);
    ClockTextPlain(h2, m2);
    NormalizeClock(h1, m1);
    NormalizeClock(h2, m2);
    IsTimeStringOfClock(h1, m1);
    ClockMinutesOfClock(h1, m1);
    ClockMinutesOfClock(h2, m2);
  }

  /** The time comparison of both copies on two clock texts. */
  lemma ClockTextsCompare(h1: nat, m1: nat, h2: nat, m2: nat)
    requires h1 < 24 && m1 < 60 && h2 < 24 && m2 < 60
    ensures var a := ClockText(h1, m1);
      var b := ClockText(h2, m2);
      CompareTimeValues(a, b) == Ok(h1 == h2 && m1 == m2)
      && CompareTimeValuesStrict(a, b) == Ok(h1 == h2 && m1 == m2)
  {
    var a := ClockText(h1, m1);
    var b := ClockText(h2, m2);
    SameClockText(h1, m1, h2, m2);
    CompareTimeValuesMeaning(a, b);
    CompareTimeValuesStrictMeaning(a, b);
    ClockTextPlain(h1, m1);
    ClockTextPlain(h2, m2);
    NormalizeClock(h1, m1);
    NormalizeClock(h2, m2);
  }

  /** The date rule stays out between two texts that are not datetime texts. */
  lemma DatesStayOut(a: string, b: string)
    requires !IsDatetimeString(a) && !IsDatetimeString(b)
    ensures DateRule(Text(a), Text(b)).None?
  {
  }

  /** On two clock texts the time rule of either copy decides by hour and minute. */
  lemma ClockTextRules(h1: nat, m1: nat, h2: nat, m2: nat)
    requires h1 < 24 && m1 < 60 && h2 < 24 && m2 < 60
    ensures var a := ClockText(h1, m1);
      var b := ClockText(h2, m2);
      var want := if h1 == h2 && m1 == m2 then Pass else Flag;
      TimeRule(a, b, false) == Some(want) && TimeRule(a, b, true) == Some(want)
  {
    IsTimeStringOfClock(h1, m1);
    IsTimeStringOfClock(h2, m2);
    ClockTextsCompare(h1, m1, h2, m2);
  }

  /** Between two clock texts every chain passes the same hour and minute and flags any other. */
  lemma ClocksByMinute(g1: Grid, g2: Grid, row1: int, row2: int, col: int, col1: int, col2: int,
                       h1: nat, m1: nat, h2: nat, m2: nat, shift: bool)
    requires h1 < 24 && m1 < 60 && h2 < 24 && m2 < 60
    ensures var a := Some(Str(ClockText(h1, m1)));
      var b := Some(Str(ClockText(h2, m2)));
      var want := if h1 == h2 && m1 == m2 then Pass else Flag;
      Rules32(g1, g2, row1, row2, col, col1, col2, a, b) == want && RulesStrict(a, b, shift) == want
  {
    var a := ClockText(h1, m1);
    var b := ClockText(h2, m2);
    ClockTextPlain(h1, m1);
    ClockTextPlain(h2, m2);
    ClockTextRules(h1, m1, h2, m2);
    DatesStayOut(a, b);
    OtherDayOnly(g1, g2, row1, row2, col1, col2, Some(Str(a)), b);
    Rules32Values(g1, g2, row1, row2, col, col1, col2, Some(Str(a)), Some(Str(b)));
    ValueRules32Date(g1, g2, row1, row2, col, Text(a), Text(b));
    TextRules32Time(g1, g2, row1, row2, col, a, b);
    RulesStrictValues(Some(Str(a)), Some(Str(b)), shift);
    ValueRulesStrictDate(Text(a), Text(b), shift);
    TextRulesStrictTime(a, b, shift);
  }

  /** The text of a `time` cell is trimmed, no datetime text, and a time. */
  lemma ClockCellPlain(k: TimeOfDay)
    ensures var s := Render(TimeCell(k));
      !IsDatetimeString(s) && Trim(s) == s && IsTimeString(s) == Ok(true) && s != "その他(一日)" && s != "None"
  {
    var s := Render(TimeCell(k));
    assert s == Pad2(k.hour) + ":" + Pad2(k.minute) + ":" + Pad2(k.second);
    assert s[2] == ':';
    NoYearNoDate(s);
    ClockTrimmed(k);
    NormalizeClockText(k);
    IsTimeStringOfClock(k.hour, k.minute);
    NormalizeClock(k.hour, k.minute);
  }

  /** Two time strings that compare equal and both normalise pass the time rule of every copy. */
  lemma TimeRulePasses(a: string, b: string, strict: bool)
    requires IsTimeString(a) == Ok(true) && IsTimeString(b) == Ok(true) && CompareTimeValues(a, b) == Ok(true)
    requires NormalizeTime(Trim(a)).Some? && NormalizeTime(Trim(b)).Some?
    ensures TimeRule(a, b, strict) == Some(Pass)
  {
    CompareTimeValuesStrictMeaning(a, b);
  }

  /** Both renderings of a `time` cell normalise. */
  lemma ClockCellNormalizes(k: TimeOfDay)
    ensures NormalizeTime(Trim(Render(TimeCell(k)))).Some?
    ensures NormalizeTime(Trim(ClockText(k.hour, k.minute))).Some?
  {
    ClockTrimmed(k);
    NormalizeClockText(k);
    NormalizeClock(k.hour, k.minute);
  }

  /** A `time` cell's text against its hour and minute written as "H:MM": both time rules pass. */
  lemma ClockCellRules(k: TimeOfDay)
    ensures var a := Render(TimeCell(k));
      var b := ClockText(k.hour, k.minute);
      DateRule(Text(a), Text(b)).None? && TimeRule(a, b, false) == Some(Pass) && TimeRule(a, b, true) == Some(Pass)
  {
    var a := Render(TimeCell(k));
    var b := ClockText(k.hour, k.minute);
    ClockCellPlain(k);
    ClockTextPlain(k.hour, k.minute);
    IsTimeStringOfClock(k.hour, k.minute);
    TimeMatchesClockText(k);
    ClockCellNormalizes(k);
    TimeRulePasses(a, b, false);
    TimeRulePasses(a, b, true);
  }

  /**
   * A `time` cell (which normalises to its `HH:MM:SS` text) against its
   * hour and minute written as "H:MM" passes in every chain.
   */
  lemma ClockCellAgainstText(g1: Grid, g2: Grid, row1: int, row2: int, col: int, col1: int, col2: int,
                             k: TimeOfDay, shift: bool)
    ensures var a := Some(Str(Render(TimeCell(k))));
      var b := Some(Str(ClockText(k.hour, k.minute)));
      Rules32(g1, g2, row1, row2, col, col1, col2, a, b) == Pass && RulesStrict(a, b, shift) == Pass
  {
    var a := Render(TimeCell(k));
    var b := ClockText(k.hour, k.minute);
    ClockCellPlain(k);
    ClockTextPlain(k.hour, k.minute);
    ClockCellRules(k);
    OtherDayOnly(g1, g2, row1, row2, col1, col2, Some(Str(a)), b);
    Rules32Values(g1, g2, row1, row2, col, col1, col2, Some(Str(a)), Some(Str(b)));
    ValueRules32Date(g1, g2, row1, row2, col, Text(a), Text(b));
    TextRules32Time(g1, g2, row1, row2, col, a, b);
    RulesStrictValues(Some(Str(a)), Some(Str(b)), shift);
    ValueRulesStrictDate(Text(a), Text(b), shift);
    TextRulesStrictTime(a, b, shift);
  }

  // ---------------------------------------------------------------------
  // Time ranges

  predicate RangeDash(c: char) {
    c == '~' || c == '〜' || c == '～'
  }

  /** A padded range splits, after `format_time_range`, into its two ends as "H:MM", in either copy. */
  lemma PaddedRangeParts(h1: nat, m1: nat, dash: char, h2: nat, m2: nat, strict: bool)
    requires h1 < 24 && m1 < 60 && h2 < 24 && m2 < 60 && RangeDash(dash)
    ensures RangeParts(PaddedRange(h1, m1, dash, h2, m2), strict) == Ok([ClockText(h1, m1), ClockText(h2, m2)])
  {
    FormatPaddedRange(h1, m1, dash, h2, m2);
    ClockTextNoTilde(h1, m1);
    ClockTextNoTilde(h2, m2);
    SplitOnPair(ClockText(h1, m1), ClockText(h2, m2), '~');
  }

  /** A padded range is trimmed text opening with a digit and holding its dash. */
  lemma PaddedRangeText(h1: nat, m1: nat, dash: char, h2: nat, m2: nat)
    requires h1 < 24 && m1 < 60 && h2 < 24 && m2 < 60 && RangeDash(dash)
    ensures var s := PaddedRange(h1, m1, dash, h2, m2);
      Trim(s) == s && |s| == 11 && IsDigit(s[0]) && s[2] == ':' && HasDash(s)
  {
    var s := PaddedRange(h1, m1, dash, h2, m2);
    var a := Pad2(h1) + ":" + Pad2(m1);
    var b := Pad2(h2) + ":" + Pad2(m2);
    PaddedClockShape(h1, m1);
    PaddedClockShape(h2, m2);
    assert s == a + [dash] + b;
    assert s[0] == a[0] && s[2] == a[2] && s[5] == dash && s[10] == b[4];
    TrimOfTrimmed(s);
  }

  /** A padded range is no datetime text: its third character is a colon. */
  lemma PaddedRangeNoDate(h1: nat, m1: nat, dash: char, h2: nat, m2: nat)
    requires h1 < 24 && m1 < 60 && h2 < 24 && m2 < 60 && RangeDash(dash)
    ensures !IsDatetimeString(PaddedRange(h1, m1, dash, h2, m2))
  {
    var s := PaddedRange(h1, m1, dash, h2, m2);
    PaddedRangeText(h1, m1, dash, h2, m2);
    assert s[..4][2] == ':';
    NoYearNoDate(s);
  }

  /** The range rule on two texts whose parts are known is the comparison of those parts. */
  lemma RangeRuleOfParts(a: string, b: string, strict: bool, p: seq<string>, q: seq<string>)
    requires HasDash(a) && RangeParts(a, strict) == Ok(p) && RangeParts(b, strict) == Ok(q)
    ensures RangeRule(a, b, strict) == RangeEnds(p, q)
  {
  }

  /**
   * The range rule of either copy on two padded ranges, whatever dash each
   * uses: the same clocks pass and any other is flagged.
   */
  lemma PaddedRangesCompare(h1: nat, m1: nat, d1: char, h2: nat, m2: nat,
                            h3: nat, m3: nat, d2: char, h4: nat, m4: nat, strict: bool)
    requires h1 < 24 && m1 < 60 && h2 < 24 && m2 < 60 && RangeDash(d1)
    requires h3 < 24 && m3 < 60 && h4 < 24 && m4 < 60 && RangeDash(d2)
    ensures RangeRule(PaddedRange(h1, m1, d1, h2, m2), PaddedRange(h3, m3, d2, h4, m4), strict)
      == Some(if h1 == h3 && m1 == m3 && h2 == h4 && m2 == m4 then Pass else Flag)
  {
    var p := [ClockText(h1, m1), ClockText(h2, m2)];
    var q := [ClockText(h3, m3), ClockText(h4, m4)];
    PaddedRangeText(h1, m1, d1, h2, m2);
    PaddedRangeParts(h1, m1, d1, h2, m2, strict);
    PaddedRangeParts(h3, m3, d2, h4, m4, strict);
    RangeRuleOfParts(PaddedRange(h1, m1, d1, h2, m2), PaddedRange(h3, m3, d2, h4, m4), strict, p, q);
    ClockPartsCompare(h1, m1, h3, m3);
    ClockPartsCompare(h2, m2, h4, m4);
  }

  /**
   * Between two trimmed texts that are neither datetimes nor times nor
   * vacation notes, an answering range rule decides the version 3.2 chain.
   */
  lemma RangeDecides32(g1: Grid, g2: Grid, row1: int, row2: int, col: int, col1: int, col2: int,
                       a: string, b: string, want: Step)
    requires Trim(a) == a && Trim(b) == b && !IsDatetimeString(a) && !IsDatetimeString(b)
    requires TimeRule(a, b, false).None? && !VacationEquivalent(a, b) && b != "その他(一日)"
    requires RangeRule(a, b, false) == Some(want)
    ensures Rules32(g1, g2, row1, row2, col, col1, col2, Some(Str(a)), Some(Str(b))) == want
  {
    DatesStayOut(a, b);
    OtherDayOnly(g1, g2, row1, row2, col1, col2, Some(Str(a)), b);
    Rules32Values(g1, g2, row1, row2, col, col1, col2, Some(Str(a)), Some(Str(b)));
    ValueRules32Date(g1, g2, row1, row2, col, Text(a), Text(b));
    TextRules32Rest(g1, g2, row1, row2, col, a, b);
  }

  /** The same for the shorter chains of version 1 and the shift comparison. */
  lemma RangeDecidesStrict(a: string, b: string, want: Step, shift: bool)
    requires Trim(a) == a && Trim(b) == b && !IsDatetimeString(a) && !IsDatetimeString(b)
    requires TimeRule(a, b, true).None? && RangeRule(a, b, true) == Some(want)
    ensures RulesStrict(Some(Str(a)), Some(Str(b)), shift) == want
  {
    DatesStayOut(a, b);
    RulesStrictValues(Some(Str(a)), Some(Str(b)), shift);
    ValueRulesStrictDate(Text(a), Text(b), shift);
    TextRulesStrictRange(a, b, shift);
  }

  /** A text opening with a digit is no vacation note and not the whole-day "other" note. */
  lemma DigitNoNote(a: string, b: string)
    requires |a| > 0 && |b| > 0 && IsDigit(a[0]) && IsDigit(b[0])
    ensures b != "その他(一日)" && !VacationEquivalent(a, b)
  {
    assert "その他(一日)"[0] == 'そ';
  }

  /**
   * Between two padded ranges every chain compares the clocks only:
   * "09:00〜18:00" against "09:00~18:00" passes, a different end is flagged.
   */
  lemma RangesByClock(g1: Grid, g2: Grid, row1: int, row2: int, col: int, col1: int, col2: int,
                      h1: nat, m1: nat, d1: char, h2: nat, m2: nat,
                      h3: nat, m3: nat, d2: char, h4: nat, m4: nat, shift: bool)
    requires h1 < 24 && m1 < 60 && h2 < 24 && m2 < 60 && RangeDash(d1)
    requires h3 < 24 && m3 < 60 && h4 < 24 && m4 < 60 && RangeDash(d2)
    ensures var a := Some(Str(PaddedRange(h1, m1, d1, h2, m2)));
      var b := Some(Str(PaddedRange(h3, m3, d2, h4, m4)));
      var want := if h1 == h3 && m1 == m3 && h2 == h4 && m2 == m4 then Pass else Flag;
      Rules32(g1, g2, row1, row2, col, col1, col2, a, b) == want && RulesStrict(a, b, shift) == want
  {
    var a := PaddedRange(h1, m1, d1, h2, m2);
    var b := PaddedRange(h3, m3, d2, h4, m4);
    var want := if h1 == h3 && m1 == m3 && h2 == h4 && m2 == m4 then Pass else Flag;
    PaddedRangeText(h1, m1, d1, h2, m2);
    PaddedRangeText(h3, m3, d2, h4, m4);
    PaddedRangeNoDate(h1, m1, d1, h2, m2);
    PaddedRangeNoDate(h3, m3, d2, h4, m4);
    PaddedRangeNotTime(h1, m1, d1, h2, m2);
    PaddedRangeNotTime(h3, m3, d2, h4, m4);
    PaddedRangesCompare(h1, m1, d1, h2, m2, h3, m3, d2, h4, m4, false);
    PaddedRangesCompare(h1, m1, d1, h2, m2, h3, m3, d2, h4, m4, true);
    TimesStayOut(a, b);
    DigitNoNote(a, b);
    RangeDecides32(g1, g2, row1, row2, col, col1, col2, a, b, want);
    RangeDecidesStrict(a, b, want, shift);
  }

  // ---------------------------------------------------------------------
  // Text

  /** Two texts opening with something other than a digit, and without a colon, are neither dates nor times. */
  lemma PlainPair(a: string, b: string)
    requires |a| > 0 && !IsDigit(a[0]) && !IsSpace(a[0]) && a[0] != '：' && ':' !in a
    requires |b| > 0 && !IsDigit(b[0]) && !IsSpace(b[0]) && b[0] != '：' && ':' !in b
    ensures DateRule(Text(a), Text(b)).None? && TimeRule(a, b, false).None? && TimeRule(a, b, true).None?
  {
    PlainText(a);
    PlainText(b);
  }

  /** Version 3.2 passes two vacation texts of the same class, however the rest of them reads. */
  lemma VacationPasses(g1: Grid, g2: Grid, row1: int, row2: int, col: int, col1: int, col2: int,
                       a: string, b: string)
    requires VacationEquivalent(a, b) && Trimmed(a) && Trimmed(b) && ':' !in a && ':' !in b
    ensures Rules32(g1, g2, row1, row2, col, col1, col2, Some(Str(a)), Some(Str(b))) == Pass
  {
    assert a[0] == '【' || a[0] == '休';
    assert b[0] == '【' || b[0] == '休';
    TrimOfTrimmed(a);
    TrimOfTrimmed(b);
    PlainPair(a, b);
    assert b != "その他(一日)";
    OtherDayOnly(g1, g2, row1, row2, col1, col2, Some(Str(a)), b);
    Rules32Values(g1, g2, row1, row2, col, col1, col2, Some(Str(a)), Some(Str(b)));
    ValueRules32Date(g1, g2, row1, row2, col, Text(a), Text(b));
    TextRules32Rest(g1, g2, row1, row2, col, a, b);
  }

  /**
   * Identical text with a colon whose left part is not a number, such as
   * "備考:早退" in both files, makes `is_time_string` raise, so every chain
   * counts the pair as a mismatch.
   */
  lemma IdenticalNotesFail(g1: Grid, g2: Grid, row1: int, row2: int, col: int, col1: int, col2: int,
                           x: string, y: string, shift: bool)
    requires |x| > 0 && !IsDigit(x[0]) && ':' !in x && ':' !in y && ParseInt(x).None?
    requires Trimmed(x + ":" + y)
    ensures var n := Some(Str(x + ":" + y));
      Rules32(g1, g2, row1, row2, col, col1, col2, n, n) == Fail && RulesStrict(n, n, shift) == Fail
  {
    IdenticalNoteFacts(x, y);
  }

  /** Such a note is trimmed, no date, singled out by no rule, and raises in `is_time_string`. */
  lemma IdenticalNoteFacts(x: string, y: string)
    requires |x| > 0 && !IsDigit(x[0]) && ':' !in x && ':' !in y && ParseInt(x).None?
    requires Trimmed(x + ":" + y)
    ensures var s := x + ":" + y;
      Trim(s) == s && !IsDigit(s[0]) && ':' in s && !DateLike(Text(s))
      && s != "その他(一日)" && s != "None" && IsTimeString(s) == Raised
  {
    var s := x + ":" + y;
    assert s[0] == x[0] && s[|x|] == ':';
    TrimOfTrimmed(s);
    NoYearNoDate(s);
    IsTimeStringRaises(x, y);
    assert ':' !in "その他(一日)" && ':' !in "None";
  }

  /** Version 3.2's last rule does not depend on the order of the two texts. */
  lemma Literal32Symmetric(a: string, b: string)
    ensures Literal32(a, b) == Literal32(b, a)
  {
    IgnoredSymmetric(a, b);
  }

  /** Version 3.2's last rule passes text that differs only by one of ：【】()（）. */
  lemma MarksDisregarded(a: string, m: char, b: string)
    requires Mark(m)
    ensures Literal32(a + [m] + b, a + b) == Pass
  {
    StripMarksInsert(a, m, b);
  }

  /** The date rule does not depend on the order of the two values. */
  lemma DateRuleSymmetric(v1: Val, v2: Val)
    ensures DateRule(v1, v2) == DateRule(v2, v1)
  {
  }

  /** Nor does the time rule. */
  lemma TimeRuleSymmetric(a: string, b: string, strict: bool)
    ensures TimeRule(a, b, strict) == TimeRule(b, a, strict)
  {
    CompareTimeValuesStrictMeaning(a, b);
    CompareTimeValuesStrictMeaning(b, a);
    CompareTimeValuesMeaning(a, b);
    CompareTimeValuesMeaning(b, a);
  }

  /** Nor does the range rule. */
  lemma RangeRuleSymmetric(a: string, b: string, strict: bool)
    ensures RangeRule(a, b, strict) == RangeRule(b, a, strict)
  {
    var p := RangeParts(a, strict);
    var q := RangeParts(b, strict);
    if !p.Raised? && !q.Raised? {
      RangeEndsSymmetric(p.value, q.value);
    }
  }

  lemma RangeEndsSymmetric(p: seq<string>, q: seq<string>)
    ensures RangeEnds(p, q) == RangeEnds(q, p)
  {
    if |p| == 2 && |q| == 2 {
      CompareTimePartsSymmetric(p[0], q[0]);
      CompareTimePartsSymmetric(p[1], q[1]);
    }
  }

  lemma CompareTimePartsSymmetric(a: string, b: string)
    ensures CompareTimeParts(a, b).Raised? == CompareTimeParts(b, a).Raised?
    ensures CompareTimeParts(a, b) == Ok(true) <==> CompareTimeParts(b, a) == Ok(true)
  {
  }

  /** The text rules of the shorter chain do not depend on the order of the two texts. */
  lemma TextRulesStrictSymmetric(a: string, b: string, shift: bool)
    ensures TextRulesStrict(a, b, shift) == TextRulesStrict(b, a, shift)
  {
    TimeRuleSymmetric(a, b, true);
    RangeRuleSymmetric(a, b, true);
    IgnoredSymmetric(a, b);
  }

  /** The shorter chain gives the same step whichever file is V1. */
  lemma RulesStrictSymmetric(n1: Option<Canon>, n2: Option<Canon>, shift: bool)
    ensures RulesStrict(n1, n2, shift) == RulesStrict(n2, n1, shift)
  {
    if n1.Some? && n2.Some? {
      var v1 := Operand(n1);
      var v2 := Operand(n2);
      RulesStrictValues(n1, n2, shift);
      RulesStrictValues(n2, n1, shift);
      ValueRulesStrictDate(v1, v2, shift);
      ValueRulesStrictDate(v2, v1, shift);
      DateRuleSymmetric(v1, v2);
      if DateRule(v1, v2).None? {
        TextRulesStrictSymmetric(v1.s, v2.s, shift);
      }
    }
  }
}
