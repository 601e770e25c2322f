/**
 * The time helpers of the comparison scripts: `normalize_time_format`,
 * `is_time_string`, `compare_time_values`, `format_time_range`,
 * `compare_time_parts` and `times_overlap`.  The scripts carry two copies of
 * the first four; they differ in what they do with a value that is not text and
 * in whether a failure raises.
 */
module Times {
  import opened Wrappers
  import opened Text
  import opened Values
  import opened Strptime

  // ---------------------------------------------------------------------
  // normalize_time_format

  /**
   * `normalize_time_format` on text: seconds dropped from `H:M:S`, and the hour
   * of `H:M` rewritten as `str(int(H))`.  `None` stands for the `ValueError` of a
   * text with three or more colons or an hour that is not an integer.
   */
  function NormalizeTime(s: string): (r: Option<string>)
    ensures r.Some? && ':' in r.value ==> CountChar(r.value, ':') == 1
  {
    var t := if CountChar(s, ':') == 2 then JoinWith(SplitOn(s, ':')[..2], ':') else s;
    if ':' in t then
      var parts := SplitOn(t, ':');
      if |parts| != 2 then None
      else match ParseInt(parts[0])
        case None => None
        case Some(h) =>
          assert ':' !in parts[1] by {
            assert forall j :: 0 <= j < |parts[1]| ==> parts[1][j] != ':';
          }
          HourMinuteOne(h, parts[1]);
          Some(IntToString(h) + ":" + parts[1])
    else Some(t)
  }

  /** The `kinmu_compare` 3.2 copy: anything but text, and any failure, gives `None`. */
  function NormalizeTimeCell(c: Cell): Option<string> {
    if c.TextCell? then NormalizeTime(c.s) else None
  }

  /** The `kinmu_compare` 1 and shift copy: `ValueError` escapes. */
  function NormalizeTimeStrict(s: string): Result<string> {
    match NormalizeTime(s)
    case None => Raised
    case Some(r) => Ok(r)
  }

  lemma IntToStringNoColon(h: int)
    ensures ':' !in IntToString(h)
  {
    var s := IntToString(h);
    if h < 0 {
      assert s == "-" + DigitsOf(-h);
      assert forall j :: 1 <= j < |s| ==> s[j] == DigitsOf(-h)[j - 1];
    }
    assert forall j :: 0 <= j < |s| ==> s[j] != ':';
  }

  /** A written hour, a colon and colon-free minutes hold exactly one colon. */
  lemma HourMinuteOne(h: int, y: string)
    requires ':' !in y
    ensures CountChar(IntToString(h) + ":" + y, ':') == 1
  {
    IntToStringNoColon(h);
    HourMinuteCount(IntToString(h), y);
  }

  lemma HourMinuteCount(x: string, y: string)
    requires ':' !in y
    ensures ':' !in x ==> CountChar(x + ":" + y, ':') == 1
  {
    if ':' !in x {
      CountCharAppend(x + ":", y, ':');
      CountCharAppend(x, ":", ':');
      CountCharAbsent(x, ':');
      CountCharAbsent(y, ':');
    }
  }

  /** `x:y` with no colon in `x` or `y` splits back into `x` and `y`. */
  lemma SplitHourMinute(x: string, y: string)
    requires ':' !in x && ':' !in y
    ensures SplitOn(x + ":" + y, ':') == [x, y]
  {
    assert x + ":" + y == x + [':'] + y;
    SplitOnPair(x, y, ':');
  }

  /** A written hour never has the two characters the `"00:00"` text opens with. */
  lemma HourTextNotDoubleZero(h: int, y: string)
    ensures IntToString(h) + ":" + y != "00:00"
  {
    var x := IntToString(h);
    var w := x + ":" + y;
    IntToStringNoColon(h);
    IntToStringNotDoubleZero(h);
    if |x| < 2 {
      assert w[|x|] == ':';
    } else if |x| == 2 {
      assert w[..2] == x;
    } else {
      assert w[2] == x[2];
    }
  }

  /** The rule never yields `"00:00"`: the hour it writes has no leading zero. */
  lemma NormalizeTimeNotDoubleZero(s: string)
    ensures NormalizeTime(s) != Some("00:00")
  {
    var r := NormalizeTime(s);
    assert "00:00"[2] == ':';
    if r.Some? && ':' in r.value {
      var t := if CountChar(s, ':') == 2 then JoinWith(SplitOn(s, ':')[..2], ':') else s;
      var parts := SplitOn(t, ':');
      HourTextNotDoubleZero(ParseInt(parts[0]).value, parts[1]);
    }
  }

  /** A second pass of the rule changes nothing. */
  lemma NormalizeTimeIdempotent(s: string)
    requires NormalizeTime(s).Some?
    ensures NormalizeTime(NormalizeTime(s).value) == NormalizeTime(s)
  {
    var r := NormalizeTime(s).value;
    var t := if CountChar(s, ':') == 2 then JoinWith(SplitOn(s, ':')[..2], ':') else s;
    if ':' in t {
      var parts := SplitOn(t, ':');
      var h := ParseInt(parts[0]).value;
      var x := IntToString(h);
      IntToStringNoColon(h);
      assert ':' !in parts[1];
      SplitHourMinute(x, parts[1]);
      HourMinuteCount(x, parts[1]);
      ParseIntToString(h);
      assert ':' in r by { assert r[|x|] == ':'; }
    } else {
      CountCharAbsent(r, ':');
    }
  }

  /** `H:M:S` with colon-free fields loses its seconds. */
  lemma DropSeconds(x: string, y: string, z: string)
    requires ':' !in x && ':' !in y && ':' !in z
    ensures var s := x + ":" + y + ":" + z;
      CountChar(s, ':') == 2 && JoinWith(SplitOn(s, ':')[..2], ':') == x + ":" + y
  {
    var s := x + ":" + y + ":" + z;
    assert s == x + [':'] + (y + [':'] + z);
    SplitOnPair(y, z, ':');
    SplitPrefix(x, y + [':'] + z);
    assert SplitOn(s, ':') == [x, y, z];
    CountCharAppend(x + [':'], y + [':'] + z, ':');
    CountCharAppend(x, [':'], ':');
    CountCharAppend(y + [':'], z, ':');
    CountCharAppend(y, [':'], ':');
    CountCharAbsent(x, ':');
    CountCharAbsent(y, ':');
    CountCharAbsent(z, ':');
    assert [x, y, z][..2] == [x, y];
    assert [x, y][1..] == [y];
    assert JoinWith([y], ':') == y;
    assert JoinWith([x, y], ':') == x + [':'] + JoinWith([y], ':');
  }

  /** `str()` of an Excel time, `HH:MM:SS`, becomes `H:MM`. */
  lemma NormalizeClockText(c: TimeOfDay)
    ensures NormalizeTime(Render(TimeCell(c))) == Some(IntToString(c.hour) + ":" + Pad2(c.minute))
  {
    var hh := Pad2(c.hour);
    var mm := Pad2(c.minute);
    var ss := Pad2(c.second);
    assert forall j :: 0 <= j < 2 ==> IsDigit(hh[j]) && IsDigit(mm[j]) && IsDigit(ss[j]);
    var s := Render(TimeCell(c));
    assert s == hh + ":" + mm + ":" + ss;
    DropSeconds(hh, mm, ss);
    var t := hh + ":" + mm;
    assert ':' in t by { assert t[2] == ':'; }
    SplitHourMinute(hh, mm);
    ParseIntPad2(c.hour);
    assert NormalizeTime(s) == NormalizeTime(t);
  }

  /** A colon-free prefix and a colon split off as the first part. */
  lemma {:induction false} SplitPrefix(x: string, y: string)
    requires ':' !in x
    ensures SplitOn(x + [':'] + y, ':') == [x] + SplitOn(y, ':')
  {
    var s := x + [':'] + y;
    if |x| == 0 {
      assert s[1..] == y;
    } else {
      assert s[1..] == x[1..] + [':'] + y;
      SplitPrefix(x[1..], y);
      assert [x[0]] + x[1..] == x;
    }
  }

  lemma ParseIntPad2(n: nat)
    requires n < 100
    ensures ParseInt(Pad2(n)) == Some(n)
  {
    var s := Pad2(n);
    DigitsNoSpace(s);
    assert Trim(s) == s;
    assert IsDigit(s[0]);
  }

  /** `H:MM`, the form the rule gives a clock reading. */
  function ClockText(h: nat, m: nat): string
    requires m < 60
  {
    IntToString(h) + ":" + Pad2(m)
  }

  lemma ClockTextParts(h: nat, m: nat)
    requires h < 100 && m < 60
    ensures var x := IntToString(h);
      AllDigits(x) && (h < 10 ==> |x| == 1) && (h >= 10 ==> |x| == 2) && DigitsValue(x) == h
      && ':' !in x && ':' !in Pad2(m)
  {
    var x := IntToString(h);
    DigitsRoundTrip(h);
    IntToStringNoColon(h);
    if h >= 10 {
      assert x == DigitsOf(h / 10) + [DigitChar(h % 10)];
    }
    assert forall j :: 0 <= j < 2 ==> IsDigit(Pad2(m)[j]);
  }

  /** `H:MM` holds only digits and its one colon. */
  lemma ClockTextChars(h: nat, m: nat)
    requires h < 24 && m < 60
    ensures var s := ClockText(h, m);
      (forall j :: 0 <= j < |s| ==> IsDigit(s[j]) || s[j] == ':') && CountChar(s, ':') == 1
  {
    ClockTextParts(h, m);
    var x := IntToString(h);
    var s := ClockText(h, m);
    forall j | 0 <= j < |s| ensures IsDigit(s[j]) || s[j] == ':' {
      if j < |x| {
        assert s[j] == x[j];
      } else if j > |x| {
        assert s[j] == Pad2(m)[j - |x| - 1];
      }
    }
    HourMinuteCount(x, Pad2(m));
  }

  /** `H:MM` holds no `~`. */
  lemma ClockTextNoTilde(h: nat, m: nat)
    requires h < 24 && m < 60
    ensures '~' !in ClockText(h, m)
  {
    ClockTextChars(h, m);
  }

  /** `normalize_time_format` on `x:y` with an integer hour rewrites only the hour. */
  lemma NormalizeHourMinute(x: string, y: string, h: int)
    requires ':' !in x && ':' !in y && ParseInt(x) == Some(h)
    ensures NormalizeTime(x + ":" + y) == Some(IntToString(h) + ":" + y)
  {
    HourMinuteCount(x, y);
    SplitHourMinute(x, y);
    assert ':' in x + ":" + y by { assert (x + ":" + y)[|x|] == ':'; }
  }

  /** Zero-padded `HH:MM` and `H:MM` both normalise to `H:MM`. */
  lemma NormalizeClock(h: nat, m: nat)
    requires h < 24 && m < 60
    ensures NormalizeTime(Pad2(h) + ":" + Pad2(m)) == Some(ClockText(h, m))
    ensures NormalizeTime(ClockText(h, m)) == Some(ClockText(h, m))
  {
    ClockTextParts(h, m);
    assert ':' !in Pad2(h) by {
      assert forall j :: 0 <= j < 2 ==> IsDigit(Pad2(h)[j]);
    }
    ParseIntPad2(h);
    ParseIntToString(h);
    NormalizeHourMinute(Pad2(h), Pad2(m), h);
    NormalizeHourMinute(IntToString(h), Pad2(m), h);
  }

  // ---------------------------------------------------------------------
  // is_time_string

  /** What the rule looks at: the text without colons, full-width colons or surrounding whitespace. */
  function ClockDigitsOf(v: string): string {
    Trim(RemoveChar(RemoveChar(v, ':'), '：'))
  }

  /** Three or four ASCII digits reading as `H MM` or `HH MM`, hour at most 23 and minute at most 59. */
  predicate ClockDigits(d: string) {
    AllDigits(d) && (|d| == 3 || |d| == 4)
    && DigitsValue(d[..|d| - 2]) <= 23 && DigitsValue(d[|d| - 2..]) <= 59
  }

  /** A normalised text that passes the check of `is_time_string`. */
  predicate IsClock(v: string) {
    ClockDigits(ClockDigitsOf(v))
  }

  /**
   * `is_time_string` on text.  `Raised` where `normalize_time_format` fails:
   * the 3.2 copy hands its `None` on to `.replace`, the other copies raise
   * `ValueError` themselves.  A value that is not text gives `False`; callers
   * pass text, or the `None` of a failed normalisation, which is `Ok(false)`.
   */
  function IsTimeString(s: string): Result<bool> {
    match NormalizeTime(s)
    case None => Raised
    case Some(v) => Ok(IsClock(v))
  }

  /** Removing the colons of `x:y` joins the two colon-free sides. */
  lemma {:induction false} RemoveColonOfParts(x: string, y: string)
    requires ':' !in x && ':' !in y
    ensures RemoveChar(x + ":" + y, ':') == x + y
  {
    var rx := RemoveChar(x, ':');
    var ry := RemoveChar(y, ':');
    assert rx == x by { assert forall i :: 0 <= i < |x| ==> x[i] != ':'; }
    assert ry == y by { assert forall i :: 0 <= i < |y| ==> y[i] != ':'; }
    assert RemoveChar(x + ":", ':') == rx by {
      RemoveCharAppend(x, ":", ':');
      assert RemoveChar(":", ':') == "";
    }
    RemoveCharAppend(x + ":", y, ':');
  }

  /** The digits the rule sees in `x:y` when both sides are digits. */
  lemma ClockDigitsOfParts(x: string, y: string)
    requires AllDigits(x) && AllDigits(y)
    ensures ClockDigitsOf(x + ":" + y) == x + y
  {
    var d := x + y;
    assert AllDigits(d) by {
      assert forall j :: 0 <= j < |d| ==> IsDigit(d[j]);
    }
    assert ':' !in x && ':' !in y;
    RemoveColonOfParts(x, y);
    assert '：' !in d;
    assert RemoveChar(d, '：') == d;
    DigitsNoSpace(d);
  }

  /** The digits the rule sees in `H:MM`. */
  lemma ClockDigitsOfClock(h: nat, m: nat)
    requires h < 24 && m < 60
    ensures ClockDigitsOf(ClockText(h, m)) == IntToString(h) + Pad2(m)
  {
    ClockTextParts(h, m);
    ClockDigitsOfParts(IntToString(h), Pad2(m));
  }

  /** `H:MM` passes the check of `is_time_string`. */
  lemma ClockTextIsClock(h: nat, m: nat)
    requires h < 24 && m < 60
    ensures IsClock(ClockText(h, m))
  {
    ClockTextParts(h, m);
    ClockDigitsOfClock(h, m);
    var x := IntToString(h);
    var d := x + Pad2(m);
    assert AllDigits(d) by {
      assert forall j :: 0 <= j < |d| ==> IsDigit(d[j]);
    }
    assert d[..|d| - 2] == x && d[|d| - 2..] == Pad2(m);
  }

  /** Every clock reading, written `H:MM` or `HH:MM`, is a time string. */
  lemma IsTimeStringOfClock(h: nat, m: nat)
    requires h < 24 && m < 60
    ensures IsTimeString(ClockText(h, m)) == Ok(true)
    ensures IsTimeString(Pad2(h) + ":" + Pad2(m)) == Ok(true)
  {
    NormalizeClock(h, m);
    ClockTextIsClock(h, m);
  }

  /** `normalize_time_format` leaves text without a colon as it is. */
  lemma ColonFreeTime(s: string)
    requires ':' !in s
    ensures NormalizeTime(s) == Some(s)
  {
    CountCharAbsent(s, ':');
  }

  /** Three or four digits are a time when hour and minute are in range: "830" and "1430" are, "2400" is not. */
  lemma IsTimeStringExamples()
    ensures IsTimeString("830") == Ok(true)
    ensures IsTimeString("1430") == Ok(true)
    ensures IsTimeString("2400") == Ok(false)
  {
    var a, b, c := "830", "1430", "2400";
    assert AllDigits(a) && a[..1] == "8" && a[1..] == "30";
    assert AllDigits(b) && b[..2] == "14" && b[2..] == "30";
    assert AllDigits(c) && c[..2] == "24" && c[2..] == "00";
    assert DigitsValue("8") == 8 && DigitsValue("30") == 30;
    assert DigitsValue("14") == 14 && DigitsValue("24") == 24 && DigitsValue("00") == 0;
    DigitTime(a, 8, 30);
    DigitTime(b, 14, 30);
    DigitTime(c, 24, 0);
  }

  /** Three or four digits spelling hour `h` and minute `m`: a time exactly when both are in range. */
  lemma DigitTime(s: string, h: nat, m: nat)
    requires AllDigits(s) && (|s| == 3 || |s| == 4)
    requires DigitsValue(s[..|s| - 2]) == h && DigitsValue(s[|s| - 2..]) == m
    ensures IsTimeString(s) == Ok(h <= 23 && m <= 59)
  {
    assert forall i :: 0 <= i < |s| ==> s[i] != ':';
    ColonFreeTime(s);
    DigitsClockView(s);
  }

  /** Digit text is its own view for the rule. */
  lemma DigitsClockView(s: string)
    requires AllDigits(s) && |s| > 0
    ensures ClockDigitsOf(s) == s
  {
    assert forall i :: 0 <= i < |s| ==> s[i] != ':' && s[i] != '：' by {
      forall i | 0 <= i < |s| ensures s[i] != ':' && s[i] != '：' { assert IsDigit(s[i]); }
    }
    assert RemoveChar(RemoveChar(s, ':'), '：') == s;
    assert !IsSpace(s[0]) && !IsSpace(s[|s| - 1]) by { assert IsDigit(s[0]) && IsDigit(s[|s| - 1]); }
    TrimOfTrimmed(s);
  }

  /** A character other than a digit, a colon or whitespace rules out a clock reading. */
  lemma NotClock(v: string, x: char)
    requires x in v && !IsDigit(x) && x != ':' && x != '：' && !IsSpace(x)
    ensures !IsClock(v)
  {
    RemoveCharKeeps(v, ':', x);
    RemoveCharKeeps(RemoveChar(v, ':'), '：', x);
    TrimKeeps(RemoveChar(RemoveChar(v, ':'), '：'), x);
  }

  /** Colon-free text holding such a character is not a time string, and the rule does not raise. */
  lemma PlainTextNotTime(v: string, x: char)
    requires ':' !in v
    requires x in v && !IsDigit(x) && x != '：' && !IsSpace(x)
    ensures IsTimeString(v) == Ok(false)
  {
    ColonFreeTime(v);
    NotClock(v, x);
  }

  /**
   * A text with one colon whose left side is not an integer makes the rule
   * raise, so two equal notes such as `備考:あり` that reach the time rule
   * are counted as a mismatch by the handler around it.
   */
  lemma IsTimeStringRaises(x: string, y: string)
    requires ':' !in x && ':' !in y && ParseInt(x).None?
    ensures IsTimeString(x + ":" + y) == Raised
  {
    HourMinuteCount(x, y);
    SplitHourMinute(x, y);
    assert ':' in x + ":" + y by { assert (x + ":" + y)[|x|] == ':'; }
  }

  // ---------------------------------------------------------------------
  // compare_time_values

  /** Both readings normalise to the same text, and that text is a clock reading. */
  predicate SameClock(a: string, b: string) {
    var t := NormalizeTime(Trim(a));
    t.Some? && t == NormalizeTime(Trim(b)) && IsClock(t.value)
  }

  /**
   * `compare_time_values` of `kinmu_compare` 3.2 on the `str()` of two values.
   * A failed normalisation gives `None`, which `is_time_string` rejects before
   * anything raises.
   */
  function CompareTimeValues(a: string, b: string): Result<bool> {
    var t1 := NormalizeTime(Trim(a));
    var t2 := NormalizeTime(Trim(b));
    if t1.None? then Ok(false)
    else match IsTimeString(t1.value)
      case Raised => Raised
      case Ok(false) => Ok(false)
      case Ok(true) =>
        if t2.None? then Ok(false)
        else match IsTimeString(t2.value)
          case Raised => Raised
          case Ok(ok) => Ok(ok && t1 == t2)
  }

  /** The 3.2 comparison never raises, and it holds exactly for two equal clock readings. */
  lemma CompareTimeValuesMeaning(a: string, b: string)
    ensures CompareTimeValues(a, b) == Ok(SameClock(a, b))
  {
    var t1 := NormalizeTime(Trim(a));
    var t2 := NormalizeTime(Trim(b));
    if t1.Some? {
      NormalizeTimeIdempotent(Trim(a));
    }
    if t2.Some? {
      NormalizeTimeIdempotent(Trim(b));
    }
  }

  /**
   * `compare_time_values` of `kinmu_compare` 1 and of the shift script: the two
   * normalisations run first and either may raise.
   */
  function CompareTimeValuesStrict(a: string, b: string): Result<bool> {
    match NormalizeTimeStrict(Trim(a))
    case Raised => Raised
    case Ok(t1) =>
      match NormalizeTimeStrict(Trim(b))
      case Raised => Raised
      case Ok(t2) =>
        match IsTimeString(t1)
        case Raised => Raised
        case Ok(false) => Ok(false)
        case Ok(true) =>
          match IsTimeString(t2)
          case Raised => Raised
          case Ok(ok) => Ok(ok && t1 == t2)
  }

  /** A normalised reading is checked by `is_time_string` without raising. */
  lemma IsTimeStringOfNormalized(s: string)
    requires NormalizeTime(s).Some?
    ensures IsTimeString(NormalizeTime(s).value) == Ok(IsClock(NormalizeTime(s).value))
  {
    NormalizeTimeIdempotent(s);
  }

  /** The older comparison raises exactly where a reading fails to normalise. */
  lemma CompareTimeValuesStrictRaises(a: string, b: string)
    ensures CompareTimeValuesStrict(a, b).Raised?
      <==> NormalizeTime(Trim(a)).None? || NormalizeTime(Trim(b)).None?
  {
    if NormalizeTime(Trim(a)).Some? && NormalizeTime(Trim(b)).Some? {
      IsTimeStringOfNormalized(Trim(a));
      IsTimeStringOfNormalized(Trim(b));
    }
  }

  /** With both readings normalised, the older comparison asks for two equal clock readings. */
  lemma StrictOfNormalized(a: string, b: string)
    requires NormalizeTime(Trim(a)).Some? && NormalizeTime(Trim(b)).Some?
    ensures var t1 := NormalizeTime(Trim(a)).value;
      var t2 := NormalizeTime(Trim(b)).value;
      CompareTimeValuesStrict(a, b) == Ok(IsClock(t1) && IsClock(t2) && t1 == t2)
  {
    IsTimeStringOfNormalized(Trim(a));
    IsTimeStringOfNormalized(Trim(b));
  }

  /** Where the older comparison does not raise, it agrees with 3.2. */
  lemma CompareTimeValuesStrictAgrees(a: string, b: string)
    ensures CompareTimeValuesStrict(a, b).Ok? ==> CompareTimeValuesStrict(a, b) == CompareTimeValues(a, b)
  {
    CompareTimeValuesStrictRaises(a, b);
    if NormalizeTime(Trim(a)).Some? && NormalizeTime(Trim(b)).Some? {
      StrictOfNormalized(a, b);
      CompareTimeValuesMeaning(a, b);
    }
  }

  /** The older comparison raises exactly where a reading fails to normalise, and otherwise agrees with 3.2. */
  lemma CompareTimeValuesStrictMeaning(a: string, b: string)
    ensures CompareTimeValuesStrict(a, b).Raised?
      <==> NormalizeTime(Trim(a)).None? || NormalizeTime(Trim(b)).None?
    ensures CompareTimeValuesStrict(a, b).Ok? ==> CompareTimeValuesStrict(a, b) == CompareTimeValues(a, b)
  {
    CompareTimeValuesStrictRaises(a, b);
    CompareTimeValuesStrictAgrees(a, b);
  }

  /** `str()` of an Excel time and the two ways of writing a clock have no surrounding space. */
  lemma ClockTrimmed(c: TimeOfDay)
    ensures Trim(Render(TimeCell(c))) == Render(TimeCell(c))
    ensures Trim(ClockText(c.hour, c.minute)) == ClockText(c.hour, c.minute)
    ensures Trim(Pad2(c.hour) + ":" + Pad2(c.minute)) == Pad2(c.hour) + ":" + Pad2(c.minute)
  {
    assert IsDigit(Pad2(c.hour)[0]) && IsDigit(Pad2(c.second)[1]) && IsDigit(Pad2(c.minute)[1]);
    assert IsDigit(IntToString(c.hour)[0]);
    TrimOfTrimmed(Render(TimeCell(c)));
    TrimOfTrimmed(ClockText(c.hour, c.minute));
    TrimOfTrimmed(Pad2(c.hour) + ":" + Pad2(c.minute));
  }

  /** An Excel time and its `H:MM` or `HH:MM` text are the same clock reading. */
  lemma TimeSameClock(c: TimeOfDay)
    ensures SameClock(Render(TimeCell(c)), ClockText(c.hour, c.minute))
    ensures SameClock(Render(TimeCell(c)), Pad2(c.hour) + ":" + Pad2(c.minute))
  {
    ClockTrimmed(c);
    NormalizeClockText(c);
    NormalizeClock(c.hour, c.minute);
    IsTimeStringOfClock(c.hour, c.minute);
  }

  /** An Excel time and its `H:MM` or `HH:MM` text compare equal, as `08:00:00` and `8:00` do. */
  lemma TimeMatchesClockText(c: TimeOfDay)
    ensures CompareTimeValues(Render(TimeCell(c)), ClockText(c.hour, c.minute)) == Ok(true)
    ensures CompareTimeValues(Render(TimeCell(c)), Pad2(c.hour) + ":" + Pad2(c.minute)) == Ok(true)
  {
    TimeSameClock(c);
    CompareTimeValuesMeaning(Render(TimeCell(c)), ClockText(c.hour, c.minute));
    CompareTimeValuesMeaning(Render(TimeCell(c)), Pad2(c.hour) + ":" + Pad2(c.minute));
  }

  // ---------------------------------------------------------------------
  // format_time_range and compare_time_parts

  /** `normalize_time_range_symbols`: both wave dashes become `~`, then `strip()`. */
  function UnifyDashes(s: string): (r: string)
    ensures '〜' !in r && '～' !in r
  {
    var u := ReplaceChar(ReplaceChar(s, '〜', '~'), '～', '~');
    TrimKeepsOut(u, '〜');
    TrimKeepsOut(u, '～');
    Trim(u)
  }

  /** An f-string hole: `None` prints as `None`. */
  function Show(o: Option<string>): string {
    match o
    case None => "None"
    case Some(v) => v
  }

  /**
   * `format_time_range` of `kinmu_compare` 3.2 on text: `None` when nothing is
   * left; a two-part range has each end normalised, a failed end printed as
   * `None`; anything else is the unified text.
   */
  function FormatTimeRange(s: string): Option<string> {
    var u := UnifyDashes(s);
    var parts := SplitOn(u, '~');
    if u == "" then None
    else if |parts| == 2 then
      Some(Show(NormalizeTime(Trim(parts[0]))) + "~" + Show(NormalizeTime(Trim(parts[1]))))
    else Some(u)
  }

  /** The 3.2 copy on a cell value: anything but text gives `None`. */
  function FormatTimeRangeCell(c: Cell): Option<string> {
    if c.TextCell? then FormatTimeRange(c.s) else None
  }

  /** `format_time_range` of `kinmu_compare` 1 and of the shift script: an end that fails raises. */
  function FormatTimeRangeStrict(s: string): Result<string> {
    var u := UnifyDashes(s);
    var parts := SplitOn(u, '~');
    if |parts| == 2 then
      match NormalizeTimeStrict(Trim(parts[0]))
      case Raised => Raised
      case Ok(a) =>
        match NormalizeTimeStrict(Trim(parts[1]))
        case Raised => Raised
        case Ok(b) => Ok(a + "~" + b)
    else Ok(u)
  }

  /** A range of two zero-padded clocks, joined by `~`, `〜` or `～`. */
  function PaddedRange(h1: nat, m1: nat, dash: char, h2: nat, m2: nat): string
    requires h1 < 24 && m1 < 60 && h2 < 24 && m2 < 60
  {
    Pad2(h1) + ":" + Pad2(m1) + [dash] + Pad2(h2) + ":" + Pad2(m2)
  }

  /** A zero-padded clock holds only digits and a colon, with a digit at each end. */
  lemma PaddedClockShape(h: nat, m: nat)
    requires h < 24 && m < 60
    ensures var a := Pad2(h) + ":" + Pad2(m);
      |a| == 5 && (forall j :: 0 <= j < |a| ==> IsDigit(a[j]) || a[j] == ':') && Trim(a) == a
  {
    var a := Pad2(h) + ":" + Pad2(m);
    assert forall j :: 0 <= j < 2 ==> IsDigit(Pad2(h)[j]) && IsDigit(Pad2(m)[j]);
    assert forall j :: 0 <= j < |a| ==> IsDigit(a[j]) || a[j] == ':';
    TrimOfTrimmed(a);
  }

  /** Text of digits and colons holds no dash of either kind. */
  lemma DigitColonNoDash(a: string)
    requires forall j :: 0 <= j < |a| ==> IsDigit(a[j]) || a[j] == ':'
    ensures '~' !in a && '〜' !in a && '～' !in a
  {
  }

  /** Two dash-free ends joined by any wave dash unify to a `~` range that splits back into them. */
  lemma {:induction false} UnifyRange(a: string, b: string, dash: char)
    requires '~' !in a && '〜' !in a && '～' !in a && '~' !in b && '〜' !in b && '～' !in b
    requires dash == '~' || dash == '〜' || dash == '～'
    requires |a| > 0 && |b| > 0 && !IsSpace(a[0]) && !IsSpace(b[|b| - 1])
    ensures UnifyDashes(a + [dash] + b) == a + ['~'] + b && SplitOn(a + ['~'] + b, '~') == [a, b]
  {
    var s := a + [dash] + b;
    var w := a + ['~'] + b;
    var u := ReplaceChar(ReplaceChar(s, '〜', '~'), '～', '~');
    forall j | 0 <= j < |w|
      ensures u[j] == w[j]
    {
      if j < |a| {
        assert s[j] == a[j] && w[j] == a[j];
      } else if j > |a| {
        assert s[j] == b[j - |a| - 1] && w[j] == b[j - |a| - 1];
      }
    }
    assert u == w;
    assert w[0] == a[0] && w[|w| - 1] == b[|b| - 1];
    TrimOfTrimmed(w);
    SplitOnPair(a, b, '~');
  }

  /** A range with a wave dash splits into its two clocks once unified. */
  lemma UnifyPaddedRange(h1: nat, m1: nat, dash: char, h2: nat, m2: nat)
    requires h1 < 24 && m1 < 60 && h2 < 24 && m2 < 60
    requires dash == '~' || dash == '〜' || dash == '～'
    ensures var a := Pad2(h1) + ":" + Pad2(m1);
      var b := Pad2(h2) + ":" + Pad2(m2);
      UnifyDashes(PaddedRange(h1, m1, dash, h2, m2)) == a + ['~'] + b
      && SplitOn(a + ['~'] + b, '~') == [a, b] && Trim(a) == a && Trim(b) == b
  {
    var a := Pad2(h1) + ":" + Pad2(m1);
    var b := Pad2(h2) + ":" + Pad2(m2);
    PaddedClockShape(h1, m1);
    PaddedClockShape(h2, m2);
    DigitColonNoDash(a);
    DigitColonNoDash(b);
    assert IsDigit(a[0]) && IsDigit(b[4]);
    assert PaddedRange(h1, m1, dash, h2, m2) == a + [dash] + b;
    UnifyRange(a, b, dash);
  }

  /** A padded clock range formats to `H:MM~H:MM` in every copy. */
  lemma FormatPaddedRange(h1: nat, m1: nat, dash: char, h2: nat, m2: nat)
    requires h1 < 24 && m1 < 60 && h2 < 24 && m2 < 60
    requires dash == '~' || dash == '〜' || dash == '～'
    ensures var want := ClockText(h1, m1) + "~" + ClockText(h2, m2);
      FormatTimeRange(PaddedRange(h1, m1, dash, h2, m2)) == Some(want)
      && FormatTimeRangeStrict(PaddedRange(h1, m1, dash, h2, m2)) == Ok(want)
  {
    var a := Pad2(h1) + ":" + Pad2(m1);
    var b := Pad2(h2) + ":" + Pad2(m2);
    UnifyPaddedRange(h1, m1, dash, h2, m2);
    NormalizeClock(h1, m1);
    NormalizeClock(h2, m2);
    var parts := SplitOn(UnifyDashes(PaddedRange(h1, m1, dash, h2, m2)), '~');
    assert parts == [a, b] && Trim(parts[0]) == a && Trim(parts[1]) == b;
    assert UnifyDashes(PaddedRange(h1, m1, dash, h2, m2)) != "" by {
      assert |a + ['~'] + b| > 0;
    }
  }

  /** The three colon-free pieces a padded range splits into at its colons. */
  lemma PaddedRangePieces(h1: nat, m1: nat, dash: char, h2: nat, m2: nat)
    requires h1 < 24 && m1 < 60 && h2 < 24 && m2 < 60
    requires dash == '~' || dash == '〜' || dash == '～'
    ensures var x := Pad2(h1);
      var y := Pad2(m1) + [dash] + Pad2(h2);
      PaddedRange(h1, m1, dash, h2, m2) == x + ":" + y + ":" + Pad2(m2)
      && ':' !in x && ':' !in y && ':' !in Pad2(m2)
  {
    var y := Pad2(m1) + [dash] + Pad2(h2);
    assert forall j :: 0 <= j < |y| ==> IsDigit(y[j]) || y[j] == dash;
  }

  /** `normalize_time_format` on `H:M:S`: the seconds go and the hour is rewritten. */
  lemma NormalizeHourMinuteSecond(x: string, y: string, z: string, h: int)
    requires ':' !in x && ':' !in y && ':' !in z && ParseInt(x) == Some(h)
    ensures NormalizeTime(x + ":" + y + ":" + z) == Some(IntToString(h) + ":" + y)
  {
    DropSeconds(x, y, z);
    SplitHourMinute(x, y);
  }

  /** `normalize_time_format` drops the last minutes of a padded range and unpads its first hour. */
  lemma NormalizePaddedRange(h1: nat, m1: nat, dash: char, h2: nat, m2: nat)
    requires h1 < 24 && m1 < 60 && h2 < 24 && m2 < 60
    requires dash == '~' || dash == '〜' || dash == '～'
    ensures NormalizeTime(PaddedRange(h1, m1, dash, h2, m2))
      == Some(IntToString(h1) + ":" + (Pad2(m1) + [dash] + Pad2(h2)))
  {
    PaddedRangePieces(h1, m1, dash, h2, m2);
    ParseIntPad2(h1);
    NormalizeHourMinuteSecond(Pad2(h1), Pad2(m1) + [dash] + Pad2(h2), Pad2(m2), h1);
  }

  /** Text that normalises to something with a stray character is no time, and does not raise. */
  lemma NormalizedNotTime(s: string, v: string, x: char)
    requires NormalizeTime(s) == Some(v)
    requires x in v && !IsDigit(x) && x != ':' && x != '：' && !IsSpace(x)
    ensures IsTimeString(s) == Ok(false)
  {
    NotClock(v, x);
  }

  lemma DashKept(x: string, y: string, dash: char, z: string)
    ensures dash in x + ":" + (y + [dash] + z)
  {
    assert (x + ":" + (y + [dash] + z))[|x| + 1 + |y|] == dash;
  }

  /**
   * A padded range is not a time: `normalize_time_format` reads it as hour,
   * minute and second, keeps the dash inside the minutes, and `is_time_string`
   * then finds a character that is not a digit.
   */
  lemma PaddedRangeNotTime(h1: nat, m1: nat, dash: char, h2: nat, m2: nat)
    requires h1 < 24 && m1 < 60 && h2 < 24 && m2 < 60
    requires dash == '~' || dash == '〜' || dash == '～'
    ensures IsTimeString(PaddedRange(h1, m1, dash, h2, m2)) == Ok(false)
  {
    NormalizePaddedRange(h1, m1, dash, h2, m2);
    var v := IntToString(h1) + ":" + (Pad2(m1) + [dash] + Pad2(h2));
    DashKept(IntToString(h1), Pad2(m1), dash, Pad2(h2));
    NormalizedNotTime(PaddedRange(h1, m1, dash, h2, m2), v, dash);
  }

  /** Two clock readings with the same `H:MM` text are the same reading. */
  lemma ClockTextInjective(h1: nat, m1: nat, h2: nat, m2: nat)
    requires h1 < 24 && m1 < 60 && h2 < 24 && m2 < 60
    ensures ClockText(h1, m1) == ClockText(h2, m2) ==> h1 == h2 && m1 == m2
  {
    if ClockText(h1, m1) == ClockText(h2, m2) {
      ClockMinutesOfClock(h1, m1);
      ClockMinutesOfClock(h2, m2);
    }
  }

  /** `compare_time_parts` on two clock texts: equal exactly when hour and minute agree, and it never raises. */
  lemma {:induction false} ClockPartsCompare(h1: nat, m1: nat, h2: nat, m2: nat)
    requires h1 < 24 && m1 < 60 && h2 < 24 && m2 < 60
    ensures CompareTimeParts(ClockText(h1, m1), ClockText(h2, m2)) == Ok(h1 == h2 && m1 == m2)
  {
    ClockTextChars(h1, m1);
    ClockTextChars(h2, m2);
    NormalizeClock(h1, m1);
    NormalizeClock(h2, m2);
    CompareTimePartsFixed(ClockText(h1, m1), ClockText(h2, m2));
    ClockTextInjective(h1, m1, h2, m2);
  }

  /** On two `H:M` texts that normalisation leaves alone, the part comparison is text equality. */
  lemma CompareTimePartsFixed(a: string, b: string)
    requires CountChar(a, ':') == 1 && CountChar(b, ':') == 1
    requires NormalizeTime(a) == Some(a) && NormalizeTime(b) == Some(b)
    ensures CompareTimeParts(a, b) == Ok(a == b)
  {
    CompareTimePartsNormalized(a, b);
  }

  /**
   * `compare_time_parts`: text without a colon on either side compares as
   * text; otherwise each side must split into exactly hour and minute, and the
   * hours must read as integers, or it raises.
   */
  function CompareTimeParts(a: string, b: string): Result<bool> {
    if ':' !in a || ':' !in b then Ok(a == b)
    else
      var p := SplitOn(a, ':');
      var q := SplitOn(b, ':');
      if |p| != 2 || |q| != 2 then Raised
      else match ParseInt(p[0])
        case None => Raised
        case Some(h1) =>
          match ParseInt(q[0])
          case None => Raised
          case Some(h2) => Ok(IntToString(h1) == IntToString(h2) && p[1] == q[1])
  }

  /**
   * On two `H:M` texts the part comparison is equality after
   * `normalize_time_format`, and it raises exactly where that does.
   */
  lemma CompareTimePartsNormalized(a: string, b: string)
    requires CountChar(a, ':') == 1 && CountChar(b, ':') == 1
    ensures CompareTimeParts(a, b).Raised? <==> NormalizeTime(a).None? || NormalizeTime(b).None?
    ensures CompareTimeParts(a, b) == Ok(true) <==> NormalizeTime(a).Some? && NormalizeTime(a) == NormalizeTime(b)
  {
    CountCharPositive(a, ':');
    CountCharPositive(b, ':');
    var p := SplitOn(a, ':');
    var q := SplitOn(b, ':');
    assert ':' !in p[0] && ':' !in p[1] && ':' !in q[0] && ':' !in q[1];
    if ParseInt(p[0]).Some? && ParseInt(q[0]).Some? {
      var x := IntToString(ParseInt(p[0]).value);
      var y := IntToString(ParseInt(q[0]).value);
      IntToStringNoColon(ParseInt(p[0]).value);
      IntToStringNoColon(ParseInt(q[0]).value);
      SplitHourMinute(x, p[1]);
      SplitHourMinute(y, q[1]);
    }
  }

  // ---------------------------------------------------------------------
  // times_overlap

  /** A span of the day in minutes since midnight: from `start` up to, not including, `end`. */
  datatype Span = Span(start: int, end: int)

  /** `datetime.strptime(t, "%H:%M")`, as minutes since midnight. */
  function ClockMinutes(t: string): (r: Option<int>)
    ensures r.Some? ==> 0 <= r.value < 24 * 60
  {
    match Parse(HourMinute, t)
    case None => None
    case Some(at) => Some(at.hour * 60 + at.minute)
  }

  /** `H:M~H:M` as a span; `None` where the unpacking or `strptime` raises. */
  function ParseSpan(r: string): Option<Span> {
    var parts := SplitOn(r, '~');
    if |parts| != 2 then None
    else match ClockMinutes(parts[0])
      case None => None
      case Some(a) =>
        match ClockMinutes(parts[1])
        case None => None
        case Some(b) => Some(Span(a, b))
  }

  /** Minute `k` lies in both spans. */
  predicate Shares(p: Span, q: Span, k: int) {
    p.start <= k < p.end && q.start <= k < q.end
  }

  /**
   * `times_overlap`: the later start is before the earlier end.  A missing
   * range or one that does not parse makes it `False`, as the handler does.
   */
  function TimesOverlap(r1: Option<string>, r2: Option<string>): (b: bool)
    ensures b ==> r1.Some? && r2.Some?
  {
    if r1.None? || r2.None? then false
    else match ParseSpan(r1.value)
      case None => false
      case Some(p) =>
        match ParseSpan(r2.value)
        case None => false
        case Some(q) =>
          (if p.start < q.start then q.start else p.start) < (if p.end < q.end then p.end else q.end)
  }

  /** Two ranges overlap exactly when both parse and some minute lies in both. */
  lemma TimesOverlapShares(a: string, b: string)
    ensures TimesOverlap(Some(a), Some(b)) <==>
      (ParseSpan(a).Some? && ParseSpan(b).Some?
       && exists k :: Shares(ParseSpan(a).value, ParseSpan(b).value, k))
  {
    if ParseSpan(a).Some? && ParseSpan(b).Some? {
      var p := ParseSpan(a).value;
      var q := ParseSpan(b).value;
      var k := if p.start < q.start then q.start else p.start;
      if TimesOverlap(Some(a), Some(b)) {
        assert Shares(p, q, k);
      }
    }
  }

  /** Ranges that only touch, one ending where the other starts, do not overlap. */
  lemma TouchingRangesApart(a: string, b: string)
    requires ParseSpan(a).Some? && ParseSpan(b).Some?
    requires ParseSpan(a).value.end == ParseSpan(b).value.start
    ensures !TimesOverlap(Some(a), Some(b)) && !TimesOverlap(Some(b), Some(a))
  {
    TimesOverlapShares(a, b);
    TimesOverlapShares(b, a);
  }

  /** The test does not depend on which range comes first. */
  lemma TimesOverlapSymmetric(r1: Option<string>, r2: Option<string>)
    ensures TimesOverlap(r1, r2) == TimesOverlap(r2, r1)
  {
  }

  /** `strptime` reads `H:MM` back as the clock it came from. */
  lemma ClockMinutesOfClock(h: nat, m: nat)
    requires h < 24 && m < 60
    ensures ClockMinutes(ClockText(h, m)) == Some(h * 60 + m)
  {
    var x := IntToString(h);
    var mm := Pad2(m);
    ClockTextParts(h, m);
    var s := ClockText(h, m);
    assert s[..|x|] == x && s[|x|] == ':';
    var f := Defaults.(hour := h);
    assert DigitRun(s) == |x|;
    assert Take(Hour, s, Defaults) == Some((f, |x|));
    assert s[|x|..] == [':'] + mm;
    assert HourMinute[1..] == [Lit(':'), Minute];
    assert ([':'] + mm)[1..] == mm;
    assert [Lit(':'), Minute][1..] == [Minute];
    assert DigitRun(mm) == 2 && mm[..2] == mm;
    assert Take(Minute, mm, f) == Some((f.(minute := m), 2));
    assert Scan([Minute], mm, f) == Scan([], mm[2..], f.(minute := m));
    assert mm[2..] == [];
    assert Scan(HourMinute, s, Defaults) == Some(f.(minute := m));
  }

  /** Two formatted clock ranges overlap exactly when their minute spans do. */
  lemma ClockRangesOverlap(h1: nat, m1: nat, h2: nat, m2: nat, h3: nat, m3: nat, h4: nat, m4: nat)
    requires h1 < 24 && m1 < 60 && h2 < 24 && m2 < 60
    requires h3 < 24 && m3 < 60 && h4 < 24 && m4 < 60
    ensures var p := Span(h1 * 60 + m1, h2 * 60 + m2);
      var q := Span(h3 * 60 + m3, h4 * 60 + m4);
      TimesOverlap(Some(ClockText(h1, m1) + "~" + ClockText(h2, m2)),
                   Some(ClockText(h3, m3) + "~" + ClockText(h4, m4)))
      <==> exists k :: Shares(p, q, k)
  {
    var a := ClockText(h1, m1) + "~" + ClockText(h2, m2);
    var b := ClockText(h3, m3) + "~" + ClockText(h4, m4);
    ClockSpan(h1, m1, h2, m2);
    ClockSpan(h3, m3, h4, m4);
    TimesOverlapShares(a, b);
  }

  /** Two readings joined by `~` parse as the span between them. */
  lemma {:induction false} SpanOfParts(x: string, y: string)
    requires '~' !in x && '~' !in y && ClockMinutes(x).Some? && ClockMinutes(y).Some?
    ensures ParseSpan(x + "~" + y) == Some(Span(ClockMinutes(x).value, ClockMinutes(y).value))
  {
    assert x + "~" + y == x + ['~'] + y;
    SplitOnPair(x, y, '~');
  }

  /** `H:MM~H:MM` parses as the span between the two clocks. */
  lemma {:induction false} ClockSpan(h1: nat, m1: nat, h2: nat, m2: nat)
    requires h1 < 24 && m1 < 60 && h2 < 24 && m2 < 60
    ensures ParseSpan(ClockText(h1, m1) + "~" + ClockText(h2, m2)) == Some(Span(h1 * 60 + m1, h2 * 60 + m2))
  {
    var x := ClockText(h1, m1);
    var y := ClockText(h2, m2);
    ClockTextNoTilde(h1, m1);
    ClockTextNoTilde(h2, m2);
    ClockMinutesOfClock(h1, m1);
    ClockMinutesOfClock(h2, m2);
    SpanOfParts(x, y);
    assert Span(ClockMinutes(x).value, ClockMinutes(y).value) == Span(h1 * 60 + m1, h2 * 60 + m2);
  }
}
