/**
 * `datetime.strptime` for the formats the scripts use.  A format is a sequence of
 * directives; Python turns it into a regular expression in which `%Y` is four
 * digits, the other numeric directives one or two digits in their range, and a
 * space one or more whitespace characters, and the match must cover the text.
 * Every numeric directive of these formats is followed by a literal that is not
 * a digit, by whitespace or by the end, so taking the longest digit run is what
 * the backtracking regular expression does.
 */
module Strptime {
  import opened Wrappers
  import opened Text
  import opened Values

  datatype Directive = Year | Month | Day | Hour | Minute | Second | Lit(c: char) | Gap

  type Format = seq<Directive>

  /** The fields read so far; unset ones keep strptime's defaults. */
  datatype Fields = Fields(year: int, month: int, day: int, hour: int, minute: int, second: int)

  const Defaults := Fields(1900, 1, 1, 0, 0, 0)

  predicate Numeric(d: Directive) {
    d.Year? || d.Month? || d.Day? || d.Hour? || d.Minute? || d.Second?
  }

  /** The range the regular expression of a one- or two-digit directive admits. */
  function Low(d: Directive): int {
    if d.Month? || d.Day? then 1 else 0
  }

  function High(d: Directive): int {
    match d
    case Month => 12
    case Day => 31
    case Hour => 23
    case Minute => 59
    case Second => 61
    case _ => 0
  }

  function Set(d: Directive, f: Fields, v: int): Fields {
    match d
    case Year => f.(year := v)
    case Month => f.(month := v)
    case Day => f.(day := v)
    case Hour => f.(hour := v)
    case Minute => f.(minute := v)
    case Second => f.(second := v)
    case _ => f
  }

  /** Number of leading digits, at most two. */
  function DigitRun(s: string): (n: nat)
    ensures n <= 2 && n <= |s|
    ensures forall i :: 0 <= i < n ==> IsDigit(s[i])
    ensures n == 2 || n == |s| || !IsDigit(s[n])
  {
    if |s| > 0 && IsDigit(s[0]) then (if |s| > 1 && IsDigit(s[1]) then 2 else 1) else 0
  }

  /** One directive at the front of `s`: the updated fields and how many characters it took. */
  function Take(d: Directive, s: string, f: Fields): (r: Option<(Fields, nat)>)
    ensures r.Some? ==> 0 < r.value.1 <= |s|
  {
    match d
    case Year =>
      if |s| >= 4 && AllDigits(s[..4]) then Some((f.(year := DigitsValue(s[..4])), 4)) else None
    case Lit(c) =>
      if |s| > 0 && s[0] == c then Some((f, 1)) else None
    case Gap =>
      var k := LeadingSpaces(s);
      if k > 0 then Some((f, k)) else None
    case _ => TakeNumber(d, s, f)
  }

  function TakeNumber(d: Directive, s: string, f: Fields): (r: Option<(Fields, nat)>)
    ensures r.Some? ==> 0 < r.value.1 <= |s|
  {
    var n := DigitRun(s);
    if n == 0 then
      // `%d` also admits a space followed by one non-zero digit
      if d.Day? && |s| >= 2 && s[0] == ' ' && '1' <= s[1] <= '9' then
        Some((f.(day := DigitValue(s[1])), 2))
      else None
    else
      var v := DigitsValue(s[..n]);
      if Low(d) <= v <= High(d) then Some((Set(d, f, v), n)) else None
  }

  /** The whole format against the whole text. */
  function Scan(fmt: Format, s: string, f: Fields): Option<Fields>
    decreases |fmt|
  {
    if |fmt| == 0 then (if |s| == 0 then Some(f) else None)
    else match Take(fmt[0], s, f)
      case None => None
      case Some(p) => Scan(fmt[1..], s[p.1..], p.0)
  }

  function ToMoment(f: Fields): Moment {
    Moment(f.year, f.month, f.day, f.hour, f.minute, f.second)
  }

  /** `datetime.strptime(s, fmt)`, or `None` where it raises `ValueError`. */
  function Parse(fmt: Format, s: string): (r: Option<Stamp>)
    ensures r.Some? ==> ValidMoment(r.value)
  {
    match Scan(fmt, s, Defaults)
    case None => None
    case Some(f) => if ValidMoment(ToMoment(f)) then Some(ToMoment(f)) else None
  }

  // ---------------------------------------------------------------------
  // The formats

  const DashDateTime: Format :=
    [Year, Lit('-'), Month, Lit('-'), Day, Gap, Hour, Lit(':'), Minute, Lit(':'), Second]
  const SlashDateTime: Format :=
    [Year, Lit('/'), Month, Lit('/'), Day, Gap, Hour, Lit(':'), Minute, Lit(':'), Second]
  const DashDate: Format := [Year, Lit('-'), Month, Lit('-'), Day]
  const SlashDate: Format := [Year, Lit('/'), Month, Lit('/'), Day]
  const SlashDateTimeAm: Format :=
    [Year, Lit('/'), Month, Lit('/'), Day, Gap, Hour, Lit(':'), Minute, Lit(':'), Second, Gap, Lit('午'), Lit('前')]
  const SlashDateTimePm: Format :=
    [Year, Lit('/'), Month, Lit('/'), Day, Gap, Hour, Lit(':'), Minute, Lit(':'), Second, Gap, Lit('午'), Lit('後')]
  const SlashDateMinute: Format := [Year, Lit('/'), Month, Lit('/'), Day, Gap, Hour, Lit(':'), Minute]
  const SlashDateMinuteAm: Format :=
    [Year, Lit('/'), Month, Lit('/'), Day, Gap, Hour, Lit(':'), Minute, Gap, Lit('午'), Lit('前')]
  const SlashDateMinutePm: Format :=
    [Year, Lit('/'), Month, Lit('/'), Day, Gap, Hour, Lit(':'), Minute, Gap, Lit('午'), Lit('後')]
  const HourMinute: Format := [Hour, Lit(':'), Minute]

  // ---------------------------------------------------------------------
  // strftime, and the round trip

  /** What `strftime` writes for a directive (a space for whitespace). */
  function Emit(d: Directive, t: Stamp): string {
    match d
    case Year => Pad4(t.year)
    case Month => Pad2(t.month)
    case Day => Pad2(t.day)
    case Hour => Pad2(t.hour)
    case Minute => Pad2(t.minute)
    case Second => Pad2(t.second)
    case Lit(c) => [c]
    case Gap => " "
  }

  /** `t.strftime(fmt)`. */
  function Strftime(fmt: Format, t: Stamp): string {
    if |fmt| == 0 then "" else Emit(fmt[0], t) + Strftime(fmt[1..], t)
  }

  /** The field of `t` that one directive names, the rest as in `f`. */
  function AssignOne(d: Directive, t: Stamp, f: Fields): Fields {
    match d
    case Year => f.(year := t.year)
    case Month => f.(month := t.month)
    case Day => f.(day := t.day)
    case Hour => f.(hour := t.hour)
    case Minute => f.(minute := t.minute)
    case Second => f.(second := t.second)
    case _ => f
  }

  /** The fields of `t` that `fmt` names, the rest as in `f`. */
  function Assign(fmt: Format, t: Stamp, f: Fields): Fields {
    if |fmt| == 0 then f else Assign(fmt[1..], t, AssignOne(fmt[0], t, f))
  }

  /**
   * A format whose digit runs are delimited: each numeric directive is followed by
   * the end, a gap or a literal that is neither digit nor whitespace, and each gap
   * by a numeric directive or such a literal.
   */
  predicate Delimited(fmt: Format) {
    (forall i :: 0 <= i < |fmt| && fmt[i].Lit? ==> !IsDigit(fmt[i].c) && !IsSpace(fmt[i].c))
    && (forall i :: 0 <= i < |fmt| - 1 && Numeric(fmt[i]) ==> !Numeric(fmt[i + 1]))
    && (forall i :: 0 <= i < |fmt| && fmt[i].Gap? ==> i + 1 < |fmt| && !fmt[i + 1].Gap?)
  }

  lemma FormatStart(fmt: Format, t: Stamp)
    requires Delimited(fmt) && |fmt| > 0
    ensures |Strftime(fmt, t)| > 0
    ensures !Numeric(fmt[0]) ==> !IsDigit(Strftime(fmt, t)[0])
    ensures !fmt[0].Gap? ==> !IsSpace(Strftime(fmt, t)[0])
  {
    var e := Emit(fmt[0], t);
    assert Strftime(fmt, t)[0] == e[0];
  }

  /** Scanning what `strftime` wrote gives back the written fields. */
  lemma {:induction false} ScanStrftime(fmt: Format, t: Stamp, f: Fields)
    requires Delimited(fmt)
    ensures Scan(fmt, Strftime(fmt, t), f) == Some(Assign(fmt, t, f))
    decreases |fmt|
  {
    if |fmt| > 0 {
      var d := fmt[0];
      var e := Emit(d, t);
      var rest := Strftime(fmt[1..], t);
      var s := e + rest;
      assert s == Strftime(fmt, t);
      assert Delimited(fmt[1..]) by {
        forall i | 0 <= i < |fmt[1..]| - 1 && Numeric(fmt[1..][i])
          ensures !Numeric(fmt[1..][i + 1])
        {
          assert fmt[1..][i] == fmt[i + 1] && fmt[1..][i + 1] == fmt[i + 2];
        }
        forall i | 0 <= i < |fmt[1..]| && fmt[1..][i].Gap?
          ensures i + 1 < |fmt[1..]| && !fmt[1..][i + 1].Gap?
        {
          assert fmt[1..][i] == fmt[i + 1];
        }
      }
      ScanStrftime(fmt[1..], t, AssignOne(d, t, f));
      if |fmt| > 1 {
        FormatStart(fmt[1..], t);
      }
      TakeEmit(d, t, f, rest);
      assert s[|e|..] == rest;
    }
  }

  lemma DelimitedTail(fmt: Format)
    requires Delimited(fmt) && |fmt| > 0
    ensures Delimited(fmt[1..])
  {
    forall i | 0 <= i < |fmt[1..]| - 1 && Numeric(fmt[1..][i])
      ensures !Numeric(fmt[1..][i + 1])
    {
      assert fmt[1..][i] == fmt[i + 1] && fmt[1..][i + 1] == fmt[i + 2];
    }
    forall i | 0 <= i < |fmt[1..]| && fmt[1..][i].Gap?
      ensures i + 1 < |fmt[1..]| && !fmt[1..][i + 1].Gap?
    {
      assert fmt[1..][i] == fmt[i + 1];
    }
  }

  /** `Scan` after its first directive took `k` characters. */
  lemma ScanStep(fmt: Format, s: string, f: Fields, g: Fields, k: nat)
    requires |fmt| > 0 && Take(fmt[0], s, f) == Some((g, k))
    ensures Scan(fmt, s, f) == Scan(fmt[1..], s[k..], g)
  {
  }

  /**
   * A format that `strftime` wrote, followed by more text, is read off exactly
   * and leaves the rest of the format to the rest of the text.
   */
  lemma {:induction false} ScanStrftimeThen(fmt: Format, more: Format, t: Stamp, f: Fields, x: string)
    requires Delimited(fmt) && |fmt| > 0
    requires Numeric(fmt[|fmt| - 1]) ==> |x| == 0 || !IsDigit(x[0])
    ensures Scan(fmt + more, Strftime(fmt, t) + x, f) == Scan(more, x, Assign(fmt, t, f))
    decreases |fmt|
  {
    var d := fmt[0];
    var e := Emit(d, t);
    var g := AssignOne(d, t, f);
    var rest := Strftime(fmt[1..], t) + x;
    var s := Strftime(fmt, t) + x;
    assert s == e + rest;
    assert (fmt + more)[0] == d && (fmt + more)[1..] == fmt[1..] + more;
    DelimitedTail(fmt);
    if |fmt| > 1 {
      FormatStart(fmt[1..], t);
      assert rest[0] == Strftime(fmt[1..], t)[0];
      ScanStrftimeThen(fmt[1..], more, t, g, x);
    } else {
      assert rest == x && fmt[1..] + more == more;
    }
    TakeEmit(d, t, f, rest);
    assert s[|e|..] == rest;
    ScanStep(fmt + more, s, f, g, |e|);
  }

  /** One directive takes exactly what it emitted when the text after it is delimited. */
  lemma TakeEmit(d: Directive, t: Stamp, f: Fields, rest: string)
    requires d.Lit? ==> !IsDigit(d.c) && !IsSpace(d.c)
    requires Numeric(d) ==> |rest| == 0 || !IsDigit(rest[0])
    requires d.Gap? ==> |rest| > 0 && !IsSpace(rest[0])
    ensures Take(d, Emit(d, t) + rest, f) == Some((AssignOne(d, t, f), |Emit(d, t)|))
  {
    var e := Emit(d, t);
    var s := e + rest;
    assert s[..|e|] == e;
    match d
    case Year =>
      assert s[..4] == e;
    case Gap =>
      assert s[1..] == rest;
      assert LeadingSpaces(s) == 1 + LeadingSpaces(rest);
    case Lit(c) =>
    case _ =>
      assert DigitRun(s) == 2;
      assert s[..2] == e;
  }

  /** Every `datetime` survives `strftime` followed by `strptime` with the same full format. */
  lemma ParseStrftime(fmt: Format, t: Stamp)
    requires Delimited(fmt)
    requires Year in fmt && Month in fmt && Day in fmt
    requires Hour !in fmt ==> t.hour == 0
    requires Minute !in fmt ==> t.minute == 0
    requires Second !in fmt ==> t.second == 0
    ensures Parse(fmt, Strftime(fmt, t)) == Some(t)
  {
    ScanStrftime(fmt, t, Defaults);
    AssignFields(fmt, t, Defaults);
  }

  lemma {:induction false} AssignFields(fmt: Format, t: Stamp, f: Fields)
    ensures var g := Assign(fmt, t, f);
      g.year == (if Year in fmt then t.year else f.year)
      && g.month == (if Month in fmt then t.month else f.month)
      && g.day == (if Day in fmt then t.day else f.day)
      && g.hour == (if Hour in fmt then t.hour else f.hour)
      && g.minute == (if Minute in fmt then t.minute else f.minute)
      && g.second == (if Second in fmt then t.second else f.second)
    decreases |fmt|
  {
    if |fmt| > 0 {
      var d := fmt[0];
      var g := AssignOne(d, t, f);
      AssignFields(fmt[1..], t, g);
      assert forall x :: x in fmt <==> x == d || x in fmt[1..];
    }
  }

  /**
   * A format that opens with a year and a separator rejects any text whose fifth
   * character is not that separator after four digits.
   */
  lemma ParseNeedsSeparator(fmt: Format, s: string)
    requires |fmt| >= 2 && fmt[0] == Year && fmt[1].Lit?
    requires !(|s| > 4 && AllDigits(s[..4]) && s[4] == fmt[1].c)
    ensures Parse(fmt, s) == None
  {
    var y := Take(Year, s, Defaults);
    if y.Some? {
      assert y.value.1 == 4;
      assert s[4..] == [] || s[4..][0] != fmt[1].c;
      assert Take(fmt[1], s[4..], y.value.0) == None;
      assert fmt[1..][0] == fmt[1];
      assert Scan(fmt[1..], s[4..], y.value.0) == None;
    }
    assert Scan(fmt, s, Defaults) == None;
  }

  /** `strftime` of two formats one after the other writes one text after the other. */
  lemma {:induction false} StrftimeAppend(a: Format, b: Format, t: Stamp)
    ensures Strftime(a + b, t) == Strftime(a, t) + Strftime(b, t)
    decreases |a|
  {
    if |a| > 0 {
      assert (a + b)[0] == a[0] && (a + b)[1..] == a[1..] + b;
      StrftimeAppend(a[1..], b, t);
    } else {
      assert a + b == b;
    }
  }

  lemma StrftimeDashDate(t: Stamp)
    ensures Strftime(DashDate, t) == Pad4(t.year) + ("-" + (Pad2(t.month) + ("-" + Pad2(t.day))))
  {
    assert DashDate[4..][1..] == [];
    assert Strftime(DashDate[4..], t) == Pad2(t.day);
    assert DashDate[3..][1..] == DashDate[4..];
    assert DashDate[2..][1..] == DashDate[3..];
    assert DashDate[1..][1..] == DashDate[2..];
    assert Strftime(DashDate[2..], t) == Pad2(t.month) + ("-" + Pad2(t.day));
    assert DashDate[1..] == DashDate[0..][1..] && DashDate[0..] == DashDate;
  }

  lemma StrftimeClockPiece(t: Stamp)
    ensures Strftime(ClockPiece, t) == " " + (Pad2(t.hour) + (":" + Pad2(t.minute)))
  {
    assert ClockPiece[3..][1..] == [];
    assert Strftime(ClockPiece[3..], t) == Pad2(t.minute);
    assert ClockPiece[2..][1..] == ClockPiece[3..];
    assert Strftime(ClockPiece[2..], t) == ":" + Pad2(t.minute);
    assert ClockPiece[1..][1..] == ClockPiece[2..];
    assert Strftime(ClockPiece[1..], t) == Pad2(t.hour) + (":" + Pad2(t.minute));
    assert ClockPiece[0..][1..] == ClockPiece[1..] && ClockPiece[0..] == ClockPiece;
  }

  lemma StrftimeSecondsPiece(t: Stamp)
    ensures Strftime(SecondsPiece, t) == ":" + Pad2(t.second)
  {
    assert SecondsPiece[1..][1..] == [];
    assert Strftime(SecondsPiece[1..], t) == Pad2(t.second);
    assert SecondsPiece[0..][1..] == SecondsPiece[1..] && SecondsPiece[0..] == SecondsPiece;
  }

  lemma DashDateTimePieces()
    ensures DashDateTime == (DashDate + ClockPiece) + SecondsPiece
  {
  }

  /** `str()` of a datetime, read as a date, a clock and its seconds. */
  lemma RenderDatePieces(t: Stamp)
    ensures Render(DateCell(t))
      == (Pad4(t.year) + ("-" + (Pad2(t.month) + ("-" + Pad2(t.day)))))
        + (" " + (Pad2(t.hour) + (":" + Pad2(t.minute)))) + (":" + Pad2(t.second))
  {
    var a := "-" + Pad2(t.day);
    var b := Pad2(t.month) + ("-" + Pad2(t.day));
    var c := ":" + Pad2(t.second);
    var h := Pad2(t.hour) + (":" + Pad2(t.minute));
    calc {
      Render(DateCell(t));
      Pad4(t.year) + ("-" + (Pad2(t.month) + ("-" + (Pad2(t.day) + (" " + (Pad2(t.hour) + (":" + (Pad2(t.minute) + c))))))));
      { assert Pad2(t.hour) + (":" + (Pad2(t.minute) + c)) == h + c; }
      Pad4(t.year) + ("-" + (Pad2(t.month) + ("-" + (Pad2(t.day) + (" " + (h + c))))));
      { assert Pad2(t.month) + ("-" + (Pad2(t.day) + (" " + (h + c)))) == b + (" " + h) + c; }
      Pad4(t.year) + ("-" + (b + (" " + h) + c));
    }
  }

  /** `str()` of a datetime is `strftime` with the dashed date and time format. */
  lemma StrftimeDashDateTime(t: Stamp)
    ensures Strftime(DashDateTime, t) == Render(DateCell(t))
  {
    DashDateTimePieces();
    StrftimeAppend(DashDate + ClockPiece, SecondsPiece, t);
    StrftimeAppend(DashDate, ClockPiece, t);
    StrftimeDashDate(t);
    StrftimeClockPiece(t);
    StrftimeSecondsPiece(t);
    RenderDatePieces(t);
  }

  /** Literals other than the underscore, the parenthesis and the double quote. */
  predicate PlainLits(fmt: Format) {
    forall i :: 0 <= i < |fmt| && fmt[i].Lit? ==> fmt[i].c != '_' && fmt[i].c != '(' && fmt[i].c != '"'
  }

  lemma EmitShape(d: Directive, t: Stamp)
    requires d.Lit? ==> !IsDigit(d.c) && !IsSpace(d.c) && d.c != '_' && d.c != '(' && d.c != '"'
    ensures var e := Emit(d, t);
      |e| > 0 && (d.Gap? ==> e == " ") && (!d.Gap? ==> NoSpace(e))
      && '_' !in e && '(' !in e && '"' !in e
  {
    var e := Emit(d, t);
    if Numeric(d) {
      assert AllDigits(e);
      assert forall i :: 0 <= i < |e| ==> IsDigit(e[i]);
    }
  }

  lemma PlainLitsTail(fmt: Format)
    requires PlainLits(fmt) && |fmt| > 0
    ensures PlainLits(fmt[1..])
  {
    assert forall i :: 0 <= i < |fmt[1..]| ==> fmt[1..][i] == fmt[i + 1];
  }

  /**
   * Putting a word, or one space before text that starts with no whitespace,
   * in front of clean text leaves clean text.
   */
  lemma CleanJoin(e: string, r: string)
    requires |e| > 0 && (e == " " || NoSpace(e))
    requires e == " " ==> |r| > 0 && !IsSpace(r[0])
    requires NoDoubleSpace(r) && PlainSpacesOnly(r)
    ensures NoDoubleSpace(e + r) && PlainSpacesOnly(e + r)
  {
    var s := e + r;
    forall i | 0 <= i < |s| - 1 ensures !(IsSpace(s[i]) && IsSpace(s[i + 1])) {
      if i + 1 < |e| {
        assert s[i] == e[i];
      } else if i + 1 == |e| {
        assert s[i] == e[i] && s[i + 1] == r[0];
      } else {
        assert s[i] == r[i - |e|] && s[i + 1] == r[i + 1 - |e|];
      }
    }
    forall i | 0 <= i < |s| && IsSpace(s[i]) ensures s[i] == ' ' {
      if i >= |e| {
        assert s[i] == r[i - |e|];
      }
    }
  }

  /**
   * What `strftime` writes for a delimited format is clean text: single plain
   * spaces, and no whitespace at either end when the format neither starts nor
   * ends with a gap.
   */
  lemma {:induction false} StrftimeShape(fmt: Format, t: Stamp)
    requires Delimited(fmt) && PlainLits(fmt)
    ensures var s := Strftime(fmt, t);
      NoDoubleSpace(s) && PlainSpacesOnly(s) && '_' !in s && '(' !in s && '"' !in s
      && (|fmt| > 0 ==> |s| > 0)
      && (|fmt| > 0 && !fmt[0].Gap? ==> !IsSpace(s[0]))
      && (|fmt| > 0 && !fmt[|fmt| - 1].Gap? ==> !IsSpace(s[|s| - 1]))
    decreases |fmt|
  {
    if |fmt| > 0 {
      var d := fmt[0];
      var e := Emit(d, t);
      var r := Strftime(fmt[1..], t);
      var s := e + r;
      assert s == Strftime(fmt, t);
      EmitShape(d, t);
      DelimitedTail(fmt);
      PlainLitsTail(fmt);
      StrftimeShape(fmt[1..], t);
      if |fmt| > 1 {
        assert fmt[1..][0] == fmt[1];
        assert d.Gap? ==> !IsSpace(r[0]);
        assert fmt[1..][|fmt[1..]| - 1] == fmt[|fmt| - 1];
        assert s[|s| - 1] == r[|r| - 1];
      }
      CleanJoin(e, r);
    }
  }

  /** Two delimited formats joined where the joint is delimited too. */
  lemma DelimitedAppend(a: Format, b: Format)
    requires Delimited(a) && Delimited(b) && |a| > 0 && |b| > 0
    requires Numeric(a[|a| - 1]) ==> !Numeric(b[0])
    ensures Delimited(a + b)
  {
    var s := a + b;
    assert forall i :: |a| <= i < |s| ==> s[i] == b[i - |a|];
    assert forall i :: 0 <= i < |a| ==> s[i] == a[i];
  }

  /** The pieces the formats are built of: a date, a clock, its seconds and a morning or afternoon note. */
  const ClockPiece: Format := [Gap, Hour, Lit(':'), Minute]
  const SecondsPiece: Format := [Lit(':'), Second]
  const AmPiece: Format := [Gap, Lit('午'), Lit('前')]
  const PmPiece: Format := [Gap, Lit('午'), Lit('後')]

  lemma DashDateDelimited()
    ensures Delimited(DashDate)
  {
    assert DashDate == [Year, Lit('-'), Month] + [Lit('-'), Day];
    DelimitedAppend([Year, Lit('-'), Month], [Lit('-'), Day]);
  }

  lemma SlashDateDelimited()
    ensures Delimited(SlashDate)
  {
    assert SlashDate == [Year, Lit('/'), Month] + [Lit('/'), Day];
    DelimitedAppend([Year, Lit('/'), Month], [Lit('/'), Day]);
  }

  lemma SlashDateMinuteDelimited()
    ensures Delimited(SlashDateMinute)
  {
    SlashDateDelimited();
    assert SlashDateMinute == SlashDate + ClockPiece;
    DelimitedAppend(SlashDate, ClockPiece);
  }

  lemma SlashDateTimeDelimited()
    ensures Delimited(SlashDateTime)
  {
    SlashDateMinuteDelimited();
    assert SlashDateTime == SlashDateMinute + SecondsPiece;
    DelimitedAppend(SlashDateMinute, SecondsPiece);
  }

  lemma DashDateClockDelimited()
    ensures Delimited(DashDate + ClockPiece)
  {
    DashDateDelimited();
    DelimitedAppend(DashDate, ClockPiece);
  }

  lemma DashDateTimeDelimited()
    ensures Delimited(DashDateTime)
  {
    DashDateClockDelimited();
    assert DashDateTime == (DashDate + ClockPiece) + SecondsPiece;
    DelimitedAppend(DashDate + ClockPiece, SecondsPiece);
  }

  lemma SlashDateTimeAmDelimited()
    ensures Delimited(SlashDateTimeAm)
  {
    SlashDateTimeDelimited();
    assert SlashDateTimeAm == SlashDateTime + AmPiece;
    DelimitedAppend(SlashDateTime, AmPiece);
  }

  lemma SlashDateTimePmDelimited()
    ensures Delimited(SlashDateTimePm)
  {
    SlashDateTimeDelimited();
    assert SlashDateTimePm == SlashDateTime + PmPiece;
    DelimitedAppend(SlashDateTime, PmPiece);
  }

  lemma SlashDateMinuteAmDelimited()
    ensures Delimited(SlashDateMinuteAm)
  {
    SlashDateMinuteDelimited();
    assert SlashDateMinuteAm == SlashDateMinute + AmPiece;
    DelimitedAppend(SlashDateMinute, AmPiece);
  }

  lemma SlashDateMinutePmDelimited()
    ensures Delimited(SlashDateMinutePm)
  {
    SlashDateMinuteDelimited();
    assert SlashDateMinutePm == SlashDateMinute + PmPiece;
    DelimitedAppend(SlashDateMinute, PmPiece);
  }

  lemma HourMinuteDelimited()
    ensures Delimited(HourMinute)
  {
  }

}
