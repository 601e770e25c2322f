/**
 * The date helpers of the comparison scripts: `is_datetime_string`, which
 * tries the slash formats, and `extract_date_part`, which reduces a value to
 * `YYYY/MM/DD` by the first format that parses it or, failing that, by the
 * first date-like run of digits in it.
 */
module Dates {
  import opened Wrappers
  import opened Text
  import opened Values
  import opened Strptime

  /** A compared value after `str(v).strip()`: text, or a `datetime` kept as it is. */
  datatype Val = Text(s: string) | When(at: Stamp)

  /** The formats `is_datetime_string` tries, in order. */
  const DatetimePatterns: seq<Format> := [
    SlashDateTime, SlashDateTimeAm, SlashDateTimePm,
    SlashDateMinute, SlashDateMinuteAm, SlashDateMinutePm, SlashDate]

  /** The formats `extract_date_part` tries, in order. */
  const DatePatterns: seq<Format> := [
    DashDateTime, SlashDateTime, SlashDateTimeAm, SlashDateTimePm,
    SlashDateMinute, SlashDateMinuteAm, SlashDateMinutePm, SlashDate, DashDate]

  /** What the first format that parses the text gives. */
  function FirstParse(pats: seq<Format>, s: string): (r: Option<Stamp>)
    ensures r.None? <==> forall i :: 0 <= i < |pats| ==> Parse(pats[i], s).None?
    ensures r.Some? ==> exists i :: (0 <= i < |pats| && Parse(pats[i], s) == r
      && forall j :: 0 <= j < i ==> Parse(pats[j], s).None?)
  {
    if |pats| == 0 then None
    else match Parse(pats[0], s)
      case Some(t) => Some(t)
      case None =>
        var r := FirstParse(pats[1..], s);
        assert r.Some? ==> exists i :: (0 < i < |pats| && Parse(pats[i], s) == r
          && forall j :: 0 <= j < i ==> Parse(pats[j], s).None?) by {
          if r.Some? {
            var i :| 0 <= i < |pats[1..]| && Parse(pats[1..][i], s) == r
              && forall j :: 0 <= j < i ==> Parse(pats[1..][j], s).None?;
            assert Parse(pats[i + 1], s) == r;
            assert forall j :: 0 < j < i + 1 ==> pats[j] == pats[1..][j - 1];
          }
        }
        r
  }

  /** `is_datetime_string` on text: one of the slash formats parses it. */
  predicate IsDatetimeString(s: string) {
    FirstParse(DatetimePatterns, s).Some?
  }

  /** `t.strftime('%Y/%m/%d')`. */
  function SlashDateText(t: Stamp): string {
    Strftime(SlashDate, t)
  }

  predicate IsSep(c: char) { c == '-' || c == '/' }

  /**
   * `(\d{4})[-/](\d{1,2})[-/](\d{1,2})` matched at position `i`: the year as
   * written and the month and day values.  A month of two digits is tried
   * first; the one-digit month it falls back to needs a separator right after.
   */
  function MatchAt(s: string, i: nat): (r: Option<(string, nat, nat)>)
    ensures r.Some? ==> |r.value.0| == 4 && AllDigits(r.value.0) && r.value.1 < 100 && r.value.2 < 100
  {
    if !(i + 5 < |s| && AllDigits(s[i..i + 4]) && IsSep(s[i + 4])) then None
    else
      var j := i + 5;
      var w := if j + 2 < |s| && IsDigit(s[j]) && IsDigit(s[j + 1]) && IsSep(s[j + 2]) then 2
        else if j + 1 < |s| && IsDigit(s[j]) && IsSep(s[j + 1]) then 1
        else 0;
      var k := j + w + 1;
      if w == 0 || !(k < |s| && IsDigit(s[k])) then None
      else
        var e := if k + 1 < |s| && IsDigit(s[k + 1]) then 2 else 1;
        assert AllDigits(s[j..j + w]) && AllDigits(s[k..k + e]) by {
          assert s[j..j + w] == if w == 2 then [s[j], s[j + 1]] else [s[j]];
          assert s[k..k + e] == if e == 2 then [s[k], s[k + 1]] else [s[k]];
        }
        TwoDigitsBound(s[j..j + w]);
        TwoDigitsBound(s[k..k + e]);
        Some((s[i..i + 4], DigitsValue(s[j..j + w]), DigitsValue(s[k..k + e])))
  }

  /** `re.search` with that expression: the leftmost position where it matches. */
  function SearchDate(s: string, i: nat): (r: Option<(string, nat, nat)>)
    ensures r.Some? ==> |r.value.0| == 4 && AllDigits(r.value.0) && r.value.1 < 100 && r.value.2 < 100
    decreases |s| - i
  {
    if i >= |s| then None
    else match MatchAt(s, i)
      case Some(m) => Some(m)
      case None => SearchDate(s, i + 1)
  }

  /** Ten characters `DDDD/DD/DD`. */
  predicate DateShape(r: string) {
    |r| == 10 && r[4] == '/' && r[7] == '/'
    && AllDigits(r[..4]) && AllDigits(r[5..7]) && AllDigits(r[8..])
  }

  /**
   * `extract_date_part` on a value the column chain holds: a `datetime` is
   * written as `YYYY/MM/DD`, text by the first format that parses it, then by
   * the first date-like run in it, and otherwise left as it is.
   */
  function DatePart(v: Val): (r: string)
    ensures v.When? ==> DateShape(r)
    ensures v.Text? ==> r == v.s || DateShape(r)
  {
    match v
    case When(t) =>
      SlashDateShape(t);
      SlashDateText(t)
    case Text(s) =>
      match FirstParse(DatePatterns, s)
      case Some(t) =>
        SlashDateShape(t);
        SlashDateText(t)
      case None =>
        match SearchDate(s, 0)
        case Some(m) =>
          var r := m.0 + "/" + Pad2(m.1) + "/" + Pad2(m.2);
          assert r[..4] == m.0 && r[5..7] == Pad2(m.1) && r[8..] == Pad2(m.2);
          r
        case None => s
  }

  lemma TwoDigitsBound(x: string)
    requires AllDigits(x) && |x| <= 2
    ensures DigitsValue(x) < 100
  {
    if |x| == 2 {
      assert x[..1][..0] == [];
    } else if |x| == 1 {
      assert x[..0] == [];
    }
  }

  /** `strftime('%Y/%m/%d')` has the date shape. */
  lemma SlashDateShape(t: Stamp)
    ensures DateShape(SlashDateText(t))
  {
    var r := SlashDateText(t);
    StrftimeSlashDate(t);
    assert r[..4] == Pad4(t.year) && r[5..7] == Pad2(t.month) && r[8..] == Pad2(t.day);
  }

  lemma StrftimeSlashDate(t: Stamp)
    ensures SlashDateText(t) == Pad4(t.year) + ("/" + (Pad2(t.month) + ("/" + Pad2(t.day))))
  {
    assert SlashDate[5..] == [];
    assert SlashDate[4..][1..] == SlashDate[5..];
    assert Strftime(SlashDate[4..], t) == Pad2(t.day);
    assert SlashDate[3..][1..] == SlashDate[4..];
    assert Strftime(SlashDate[3..], t) == "/" + Pad2(t.day);
    assert SlashDate[2..][1..] == SlashDate[3..];
    assert Strftime(SlashDate[2..], t) == Pad2(t.month) + ("/" + Pad2(t.day));
    assert SlashDate[1..][1..] == SlashDate[2..];
    assert Strftime(SlashDate[1..], t) == "/" + (Pad2(t.month) + ("/" + Pad2(t.day)));
    assert SlashDate[0..][1..] == SlashDate[1..];
    assert SlashDate[0..] == SlashDate;
  }

  // ---------------------------------------------------------------------
  // How the three ways of holding a date agree

  /** `str()` of a `datetime` reduces to the same date part as the `datetime` itself. */
  lemma DatePartOfRender(t: Stamp)
    ensures DatePart(Text(Render(DateCell(t)))) == DatePart(When(t))
  {
    StrftimeDashDateTime(t);
    DashDateTimeDelimited();
    ParseStrftime(DashDateTime, t);
    assert Parse(DatePatterns[0], Render(DateCell(t))) == Some(t);
  }

  /**
   * `is_datetime_string` knows only slash formats: `str()` of a `datetime`,
   * written with dashes, is not a datetime string.
   */
  lemma RenderNotDatetimeString(t: Stamp)
    ensures !IsDatetimeString(Render(DateCell(t)))
  {
    var s := Render(DateCell(t));
    assert s == Pad4(t.year) + ("-" + (Pad2(t.month) + ("-" + (Pad2(t.day) + (" "
      + (Pad2(t.hour) + (":" + (Pad2(t.minute) + (":" + Pad2(t.second))))))))));
    assert s[4] == '-';
    forall i | 0 <= i < |DatetimePatterns|
      ensures Parse(DatetimePatterns[i], s).None?
    {
      ParseNeedsSeparator(DatetimePatterns[i], s);
    }
  }

  /** The same calendar day with the time of day set to midnight. */
  function Midnight(t: Stamp): (m: Stamp)
    ensures SlashDateText(m) == SlashDateText(t)
  {
    var m: Stamp := Moment(t.year, t.month, t.day, 0, 0, 0);
    StrftimeSlashDate(m);
    StrftimeSlashDate(t);
    m
  }

  /** A format that opens with `%Y/%m/%d`. */
  predicate SlashHead(fmt: Format) {
    |fmt| >= 5 && fmt[0] == Year && fmt[1] == Lit('/') && fmt[2] == Month && fmt[3] == Lit('/') && fmt[4] == Day
  }

  lemma SlashHeadSplit(fmt: Format)
    requires SlashHead(fmt)
    ensures fmt == SlashDate + fmt[5..]
  {
    assert fmt[..5] == SlashDate;
    assert fmt == fmt[..5] + fmt[5..];
  }

  /** A slash format with a time after the date finds nothing in a bare date. */
  lemma SlashDateThenNothing(fmt: Format, t: Stamp)
    requires SlashHead(fmt) && |fmt| > 5 && fmt[5] == Gap
    ensures Parse(fmt, SlashDateText(t)) == None
  {
    SlashDateDelimited();
    var more := fmt[5..];
    SlashHeadSplit(fmt);
    ScanStrftimeThen(SlashDate, more, t, Defaults, "");
    assert SlashDateText(t) + "" == SlashDateText(t);
  }

  /** Every format before the bare slash date fails on a bare slash date. */
  lemma EarlierPatternsMiss(t: Stamp)
    ensures forall i :: 0 <= i < 7 ==> Parse(DatePatterns[i], SlashDateText(t)).None?
  {
    var s := SlashDateText(t);
    SlashDateShape(t);
    forall i | 0 <= i < 7
      ensures Parse(DatePatterns[i], s).None?
    {
      if i == 0 {
        ParseNeedsSeparator(DashDateTime, s);
      } else {
        SlashDateThenNothing(DatePatterns[i], t);
      }
    }
  }

  /** A bare slash date parses as midnight of its day. */
  lemma ParseSlashDateText(t: Stamp)
    ensures Parse(SlashDate, SlashDateText(t)) == Some(Midnight(t))
  {
    var m := Midnight(t);
    SlashDateDelimited();
    ParseStrftime(SlashDate, m);
  }

  /**
   * `t.strftime('%Y/%m/%d')` is a datetime string, and its date part is
   * itself: the part `extract_date_part` writes reads back unchanged.
   */
  lemma SlashDateTextSettled(t: Stamp)
    ensures IsDatetimeString(SlashDateText(t))
    ensures DatePart(Text(SlashDateText(t))) == SlashDateText(t)
  {
    var s := SlashDateText(t);
    ParseSlashDateText(t);
    EarlierPatternsMiss(t);
    assert DatetimePatterns[6] == SlashDate;
    assert DatePatterns[7] == SlashDate;
    assert FirstParse(DatePatterns, s) == Some(Midnight(t));
  }

  /** No slash format reads a date followed by a note as a whole. */
  lemma SlashDateThenNote(fmt: Format, t: Stamp, q: string)
    requires SlashHead(fmt) && (|fmt| == 5 || fmt[5] == Gap)
    requires |q| > 0 && !IsDigit(q[0]) && !IsSpace(q[0])
    ensures Parse(fmt, SlashDateText(t) + q) == None
  {
    SlashDateDelimited();
    var more := fmt[5..];
    SlashHeadSplit(fmt);
    ScanStrftimeThen(SlashDate, more, t, Defaults, q);
    if |more| > 0 {
      assert LeadingSpaces(q) == 0;
    }
  }

  /** The search finds the date a note follows, at the very start. */
  lemma MatchSlashDateText(t: Stamp, q: string)
    requires |q| > 0 && !IsDigit(q[0])
    ensures SearchDate(SlashDateText(t) + q, 0) == Some((Pad4(t.year), t.month as nat, t.day as nat))
  {
    var d := SlashDateText(t);
    var s := d + q;
    StrftimeSlashDate(t);
    assert d[..4] == Pad4(t.year) && d[5..7] == Pad2(t.month) && d[8..] == Pad2(t.day);
    assert s[..4] == Pad4(t.year) && s[4] == '/' && s[5..7] == Pad2(t.month) && s[7] == '/';
    assert s[8..10] == Pad2(t.day) && s[10] == q[0];
    assert IsDigit(s[5]) && IsDigit(s[6]) && IsDigit(s[8]) && IsDigit(s[9]);
    assert MatchAt(s, 0) == Some((Pad4(t.year), t.month as nat, t.day as nat));
  }

  /** No format `extract_date_part` tries reads a date followed by a note. */
  lemma NotedDateMisses(t: Stamp, q: string)
    requires |q| > 0 && !IsDigit(q[0]) && !IsSpace(q[0])
    ensures forall i :: 0 <= i < |DatePatterns| ==> Parse(DatePatterns[i], SlashDateText(t) + q).None?
  {
    var s := SlashDateText(t) + q;
    SlashDateShape(t);
    assert s[..4] == SlashDateText(t)[..4] && s[4] == '/';
    forall i | 0 <= i < |DatePatterns|
      ensures Parse(DatePatterns[i], s).None?
    {
      if i == 0 || i == 8 {
        ParseNeedsSeparator(DatePatterns[i], s);
      } else {
        SlashDateThenNote(DatePatterns[i], t, q);
      }
    }
  }

  /** A date followed by a note is no datetime string. */
  lemma NotedDateNotDatetime(t: Stamp, q: string)
    requires |q| > 0 && !IsDigit(q[0]) && !IsSpace(q[0])
    ensures !IsDatetimeString(SlashDateText(t) + q)
  {
    var s := SlashDateText(t) + q;
    NotedDateMisses(t, q);
    forall i | 0 <= i < |DatetimePatterns|
      ensures Parse(DatetimePatterns[i], s).None?
    {
      assert DatetimePatterns[i] == DatePatterns[i + 1];
    }
  }

  /** The date the search finds, written back as `YYYY/MM/DD`, is the date itself. */
  lemma SlashDateRebuilt(t: Stamp)
    ensures Pad4(t.year) + "/" + Pad2(t.month) + "/" + Pad2(t.day) == SlashDateText(t)
  {
    StrftimeSlashDate(t);
  }

  /** `extract_date_part` still reduces a date followed by a note to the date, by its search. */
  lemma NotedDatePart(t: Stamp, q: string)
    requires |q| > 0 && !IsDigit(q[0]) && !IsSpace(q[0])
    ensures DatePart(Text(SlashDateText(t) + q)) == SlashDateText(t)
  {
    var s := SlashDateText(t) + q;
    NotedDateMisses(t, q);
    assert FirstParse(DatePatterns, s).None?;
    MatchSlashDateText(t, q);
    SlashDateRebuilt(t);
  }

  /**
   * A date followed by a note, as in `2024/01/05(金)`, is no datetime string,
   * but `extract_date_part` still reduces it to the date.
   */
  lemma DatePartOfNotedDate(t: Stamp, q: string)
    requires |q| > 0 && !IsDigit(q[0]) && !IsSpace(q[0])
    ensures !IsDatetimeString(SlashDateText(t) + q)
    ensures DatePart(Text(SlashDateText(t) + q)) == SlashDateText(t)
  {
    NotedDateNotDatetime(t, q);
    NotedDatePart(t, q);
  }

  /** Whether a value is held as a `datetime`, as its `str()` or as `YYYY/MM/DD`, its date part is the same. */
  lemma DatePartAgrees(t: Stamp)
    ensures DatePart(Text(Render(DateCell(t)))) == DatePart(When(t))
    ensures DatePart(Text(SlashDateText(t))) == DatePart(When(t))
    ensures DatePart(When(Midnight(t))) == DatePart(When(t))
  {
    DatePartOfRender(t);
    SlashDateTextSettled(t);
  }
}
