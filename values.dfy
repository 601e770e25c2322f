/**
 * Cell values as openpyxl hands them to the comparison scripts, Python's `str()` of
 * them, and the decimal reading of numeric text that `float()` performs.
 */
module Values {
  import opened Wrappers
  import opened Text

  // ---------------------------------------------------------------------
  // Calendar

  /** A `datetime` with zero microseconds. */
  datatype Moment = Moment(year: int, month: int, day: int, hour: int, minute: int, second: int)

  /** Gregorian leap years, as `calendar.isleap`. */
  predicate LeapYear(y: int) {
    y % 4 == 0 && (y % 100 != 0 || y % 400 == 0)
  }

  function DaysInMonth(y: int, m: int): (n: int)
    requires 1 <= m <= 12
    ensures 28 <= n <= 31
    ensures n == 29 <==> m == 2 && LeapYear(y)
  {
    if m == 2 then (if LeapYear(y) then 29 else 28)
    else if m == 4 || m == 6 || m == 9 || m == 11 then 30
    else 31
  }

  /** What the `datetime` constructor accepts. */
  predicate ValidMoment(t: Moment) {
    1 <= t.year <= 9999 && 1 <= t.month <= 12 && 1 <= t.day <= DaysInMonth(t.year, t.month)
    && 0 <= t.hour <= 23 && 0 <= t.minute <= 59 && 0 <= t.second <= 59
  }

  /** The moments a `datetime` object can hold. */
  type Stamp = t: Moment | ValidMoment(t) witness Moment(1900, 1, 1, 0, 0, 0)

  /** A `datetime.time` with zero microseconds. */
  datatype Clock = Clock(hour: int, minute: int, second: int)

  type TimeOfDay = c: Clock | 0 <= c.hour <= 23 && 0 <= c.minute <= 59 && 0 <= c.second <= 59
    witness Clock(0, 0, 0)

  // ---------------------------------------------------------------------
  // Numbers

  /**
   * A decimal number as written: sign, integer digits and fractional digits.
   * It stands for the Python `float` whose shortest repr it is.
   */
  datatype Decimal = Decimal(negative: bool, whole: nat, fraction: string)

  predicate Integral(d: Decimal) {
    forall i :: 0 <= i < |d.fraction| ==> d.fraction[i] == '0'
  }

  /** `int(x)` of a float: truncation toward zero. */
  function Truncate(d: Decimal): int {
    if d.negative then -(d.whole as int) else d.whole
  }

  /** The fractional digits without trailing zeros. */
  function DropTrailingZeros(f: string): (r: string)
    ensures |r| <= |f| && r == f[..|r|]
    ensures |r| == 0 || r[|r| - 1] != '0'
    ensures forall i :: |r| <= i < |f| ==> f[i] == '0'
  {
    if |f| > 0 && f[|f| - 1] == '0' then DropTrailingZeros(f[..|f| - 1]) else f
  }

  /** Two decimals that denote the same number compare equal as floats. */
  function Canonical(d: Decimal): Decimal {
    var f := DropTrailingZeros(d.fraction);
    Decimal(d.negative && (d.whole != 0 || f != ""), d.whole, f)
  }

  /** Python's `repr` of a float, in positional notation. */
  function FloatRepr(d: Decimal): string {
    var c := Canonical(d);
    (if c.negative then "-" else "") + DigitsOf(c.whole) + "."
    + (if c.fraction == "" then "0" else c.fraction)
  }

  /**
   * `float(s)` on text that `strip()` has already trimmed: an optional sign and
   * digits with at most one decimal point, with at least one digit.
   */
  function ParseDecimal(s: string): (r: Option<Decimal>)
    ensures r.Some? ==> AllDigits(r.value.fraction)
  {
    var neg := |s| > 0 && s[0] == '-';
    var body := if |s| > 0 && (s[0] == '-' || s[0] == '+') then s[1..] else s;
    var dot := CountChar(body, '.');
    if dot == 0 && |body| > 0 && AllDigits(body) then
      Some(Decimal(neg, DigitsValue(body), ""))
    else if dot == 1 then
      var parts := SplitOn(body, '.');
      var w := parts[0];
      var f := parts[1];
      if |w| + |f| > 0 && AllDigits(w) && AllDigits(f) then
        Some(Decimal(neg, DigitsValue(w), f))
      else None
    else None
  }

  // ---------------------------------------------------------------------
  // Cells

  /** A cell value as openpyxl reads it: `None`, `str`, `int`, `float`, `datetime`, `time` or `bool`. */
  datatype Cell =
    | Blank
    | TextCell(s: string)
    | IntCell(i: int)
    | FloatCell(d: Decimal)
    | DateCell(at: Stamp)
    | TimeCell(clock: TimeOfDay)
    | BoolCell(b: bool)

  /** Two digits with a leading zero (`%02d`). */
  function Pad2(n: nat): (s: string)
    requires n < 100
    ensures |s| == 2 && AllDigits(s) && DigitsValue(s) == n
  {
    var s := [DigitChar(n / 10), DigitChar(n % 10)];
    assert s[..1] == [s[0]] && [s[0]][..0] == [];
    assert DigitsValue(s[..1]) == n / 10;
    s
  }

  /** Four digits with leading zeros (`%04d`). */
  function Pad4(n: nat): (s: string)
    requires n < 10000
    ensures |s| == 4 && AllDigits(s) && DigitsValue(s) == n
  {
    var s := Pad2(n / 100) + Pad2(n % 100);
    assert s[..3] == Pad2(n / 100) + [s[2]];
    assert s[..2] == Pad2(n / 100);
    assert Pad2(n / 100)[..1] == [s[0]];
    s
  }

  /** Python's `str()` of a cell value. */
  function Render(c: Cell): string {
    match c
    case Blank => "None"
    case TextCell(s) => s
    case IntCell(i) => IntToString(i)
    case FloatCell(d) => FloatRepr(d)
    case DateCell(t) =>
      Pad4(t.year) + ("-" + (Pad2(t.month) + ("-" + (Pad2(t.day) + (" "
      + (Pad2(t.hour) + (":" + (Pad2(t.minute) + (":" + Pad2(t.second))))))))))
    case TimeCell(c) => Pad2(c.hour) + ":" + Pad2(c.minute) + ":" + Pad2(c.second)
    case BoolCell(b) => if b then "True" else "False"
  }

  /** `str()` of a datetime is nineteen characters long. */
  lemma RenderDateLength(t: Stamp)
    ensures |Render(DateCell(t))| == 19
  {
    var r := Render(DateCell(t));
    assert r == Pad4(t.year) + ("-" + (Pad2(t.month) + ("-" + (Pad2(t.day) + (" "
      + (Pad2(t.hour) + (":" + (Pad2(t.minute) + (":" + Pad2(t.second))))))))));
  }

  /** Python truthiness of a cell value. */
  predicate Truthy(c: Cell) {
    match c
    case Blank => false
    case TextCell(s) => s != ""
    case IntCell(i) => i != 0
    case FloatCell(d) => !(d.whole == 0 && Integral(d))
    case DateCell(_) => true
    case TimeCell(c) => !(c.hour == 0 && c.minute == 0 && c.second == 0)
    case BoolCell(b) => b
  }

  /** `isinstance(v, (int, float)) and v > 0`; a `bool` is an `int` in Python. */
  predicate PositiveNumber(c: Cell) {
    match c
    case IntCell(i) => i > 0
    case FloatCell(d) => !d.negative && !(d.whole == 0 && Integral(d))
    case BoolCell(b) => b
    case _ => false
  }

  /** `v is None or str(v).strip() == ""`. */
  predicate Empty(c: Cell) {
    c.Blank? || Trim(Render(c)) == ""
  }

  // ---------------------------------------------------------------------
  // Lemmas

  /** Each decimal reads back from its own digits. */
  lemma ParseDecimalOfDigits(n: nat)
    ensures ParseDecimal(DigitsOf(n)) == Some(Decimal(false, n, ""))
  {
    var s := DigitsOf(n);
    DigitsRoundTrip(n);
    CountCharAbsent(s, '.');
  }

  /** A negative integer's text reads as a negative decimal with no fraction. */
  lemma ParseDecimalOfIntToString(i: int)
    ensures ParseDecimal(IntToString(i)) == Some(Decimal(i < 0, if i < 0 then -i else i, ""))
  {
    if i < 0 {
      var d := DigitsOf(-i);
      assert IntToString(i)[1..] == d;
      ParseDecimalOfDigits(-i);
    } else {
      ParseDecimalOfDigits(i);
    }
  }

  /** A float and its canonical form denote the same integer when integral. */
  lemma CanonicalIntegral(d: Decimal)
    ensures Integral(d) <==> Canonical(d).fraction == ""
  {
    var f := DropTrailingZeros(d.fraction);
    if f != "" {
      assert f[|f| - 1] == d.fraction[|f| - 1];
    }
  }
}
