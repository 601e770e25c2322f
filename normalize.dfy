/**
 * `normalize_value`, which all four scripts apply to a cell before comparing it.
 * It exists in three copies: the two kinmu_compare copies (identical), the shift
 * copy (no parenthesis rule) and the report copy (no whitespace collapsing, and a
 * float for non-integral numbers).
 */
module Normalize {
  import opened Wrappers
  import opened Text
  import opened Values
  import opened Strptime

  /** What `normalize_value` returns when it does not return `None`. */
  datatype Canon = Str(s: string) | Dt(at: Stamp) | Float(d: Decimal)

  // ---------------------------------------------------------------------
  // re.sub(r'(\d{1,3}:\d{2})\s+\(', r'\1(', value)

  /**
   * The text starts with a digit, a colon, two digits, whitespace and `(`.  The
   * regular expression admits up to three digits before the colon, but its
   * left-to-right scan meets the last of them as well, and the replacement only
   * removes the whitespace, so testing one digit gives the same result.
   */
  predicate SpacedParen(s: string) {
    |s| > 4 && IsDigit(s[0]) && s[1] == ':' && IsDigit(s[2]) && IsDigit(s[3])
    && 0 < LeadingSpaces(s[4..]) < |s| - 4 && s[4 + LeadingSpaces(s[4..])] == '('
  }

  /** The whitespace between a `H:MM` time and a following `(` removed, left to right. */
  function ParenRule(s: string): (r: string)
    ensures |r| <= |s|
    ensures |s| > 0 ==> |r| > 0 && r[0] == s[0] && r[|r| - 1] == s[|s| - 1]
    decreases |s|
  {
    if |s| == 0 then ""
    else if SpacedParen(s) then
      var t := s[4 + LeadingSpaces(s[4..])..];
      s[..4] + ParenRule(t)
    else
      [s[0]] + ParenRule(s[1..])
  }

  /** No position of the text is left where the rule would apply. */
  predicate NoSpacedParen(s: string) {
    forall i :: 0 <= i < |s| ==> !SpacedParen(s[i..])
  }

  /** The rule never touches the first four characters of its input. */
  lemma {:induction false} ParenRuleHead(u: string, j: nat)
    requires j < 4 && j < |u|
    ensures j < |ParenRule(u)| && ParenRule(u)[j] == u[j]
    decreases j
  {
    if j > 0 && !SpacedParen(u) {
      ParenRuleHead(u[1..], j - 1);
    }
  }

  /** Text led by whitespace keeps its whitespace until the rule next applies. */
  lemma {:induction false} SpaceRun(u: string, k: nat)
    requires k < |ParenRule(u)| && ParenRule(u)[k] == '('
    requires forall j :: 0 <= j < k ==> IsSpace(ParenRule(u)[j])
    ensures k < |u| && u[k] == '(' && forall j :: 0 <= j < k ==> IsSpace(u[j])
    decreases k
  {
    if k > 0 {
      assert IsSpace(u[0]);
      var p := ParenRule(u[1..]);
      assert ParenRule(u) == [u[0]] + p;
      assert forall j :: 0 <= j < k - 1 ==> p[j] == ParenRule(u)[j + 1];
      SpaceRun(u[1..], k - 1);
    }
  }

  /** Where no digit and colon open the text, the first character is kept. */
  lemma ParenRuleKeep(u: string)
    requires |u| > 0 && (!IsDigit(u[0]) || |u| < 2 || u[1] != ':')
    ensures ParenRule(u) == [u[0]] + ParenRule(u[1..])
  {
  }

  /** Position `j` holds no digit followed by a colon. */
  predicate NoClockAt(u: string, j: nat)
    requires j < |u|
  {
    !IsDigit(u[j]) || j + 1 == |u| || u[j + 1] != ':'
  }

  /** The rule keeps the character at a position where no digit meets a colon. */
  lemma ParenRuleKeepAt(u: string, k: nat)
    requires k < |u| && NoClockAt(u, k)
    ensures ParenRule(u[k..]) == [u[k]] + ParenRule(u[k + 1..])
  {
    var w := u[k..];
    assert w[0] == u[k] && w[1..] == u[k + 1..];
    assert |w| < 2 || w[1] == u[k + 1];
    ParenRuleKeep(w);
  }

  /** The rule keeps the first three characters when none of them is a digit before a colon. */
  lemma ParenRuleKeepThree(u: string)
    requires |u| >= 3 && NoClockAt(u, 0) && NoClockAt(u, 1) && NoClockAt(u, 2)
    ensures ParenRule(u) == [u[0], u[1], u[2]] + ParenRule(u[3..])
  {
    ParenRuleKeepAt(u, 2);
    ParenRuleKeepAt(u, 1);
    ParenRuleKeepAt(u, 0);
    assert u[0..] == u;
    ConsThree(ParenRule(u), ParenRule(u[1..]), ParenRule(u[2..]), ParenRule(u[3..]), u[0], u[1], u[2]);
  }

  /** If keeping `s[0]` made a place where the rule applies, `s` had the time in front unchanged. */
  lemma SpacedFromHead(s: string)
    requires |s| > 0
    requires var r := [s[0]] + ParenRule(s[1..]);
      |r| > 4 && r[1] == ':' && IsDigit(r[2]) && IsDigit(r[3]) && IsSpace(r[4])
    ensures |s| > 4 && s[1] == ':' && IsDigit(s[2]) && IsDigit(s[3]) && IsSpace(s[4])
    ensures ([s[0]] + ParenRule(s[1..]))[4..] == ParenRule(s[4..])
  {
    var u := s[1..];
    var p := ParenRule(u);
    assert |u| > 3 by { assert |p| <= |u|; }
    ParenRuleHead(u, 0);
    ParenRuleHead(u, 1);
    ParenRuleHead(u, 2);
    ParenRuleHead(u, 3);
    assert NoClockAt(u, 0) && NoClockAt(u, 1) && NoClockAt(u, 2);
    ParenRuleKeepThree(u);
    assert u[3..] == s[4..];
    assert u[..3] == [u[0], u[1], u[2]];
  }

  /** A character that is kept cannot create a new place where the rule applies. */
  lemma SpacedFrom(s: string)
    requires |s| > 0
    ensures SpacedParen([s[0]] + ParenRule(s[1..])) ==> SpacedParen(s)
  {
    var r := [s[0]] + ParenRule(s[1..]);
    if SpacedParen(r) {
      assert IsSpace(r[4..][0]);
      SpacedFromHead(s);
      var u := s[4..];
      var k := LeadingSpaces(r[4..]);
      SpaceRun(u, k);
      assert LeadingSpaces(u) == k;
    }
  }

  /** No place is left where the rule would apply again. */
  lemma {:induction false} ParenRuleDone(s: string)
    ensures NoSpacedParen(ParenRule(s))
    decreases |s|
  {
    var r := ParenRule(s);
    if |s| > 0 {
      if SpacedParen(s) {
        var t := s[4 + LeadingSpaces(s[4..])..];
        var p := ParenRule(t);
        ParenRuleDone(t);
        assert r[4] == '(';
        assert r[..5] == s[..4] + ['('];
        forall i | 0 <= i < |r| ensures !SpacedParen(r[i..]) {
          if i >= 4 {
            assert r[i..] == p[i - 4..];
          } else {
            assert r[i..][4 - i] == '(';
          }
        }
      } else {
        var p := ParenRule(s[1..]);
        ParenRuleDone(s[1..]);
        SpacedFrom(s);
        forall i | 0 <= i < |r| ensures !SpacedParen(r[i..]) {
          if i >= 1 {
            assert r[i..] == p[i - 1..];
          }
        }
      }
    }
  }

  /** Where the rule applies nowhere, it changes nothing. */
  lemma {:induction false} ParenRuleFixed(s: string)
    requires NoSpacedParen(s)
    ensures ParenRule(s) == s
    decreases |s|
  {
    if |s| > 0 {
      assert !SpacedParen(s[0..]) && s[0..] == s;
      assert NoSpacedParen(s[1..]) by {
        forall i | 0 <= i < |s[1..]| ensures !SpacedParen(s[1..][i..]) {
          assert s[1..][i..] == s[i + 1..];
        }
      }
      ParenRuleFixed(s[1..]);
    }
  }

  /** Applying the rule twice is applying it once. */
  lemma ParenRuleIdempotent(s: string)
    ensures ParenRule(ParenRule(s)) == ParenRule(s)
  {
    ParenRuleDone(s);
    ParenRuleFixed(ParenRule(s));
  }

  /** Text without `(` is left alone. */
  lemma ParenRuleNoParen(s: string)
    requires '(' !in s
    ensures NoSpacedParen(s) && ParenRule(s) == s
  {
    forall i | 0 <= i < |s| ensures !SpacedParen(s[i..]) {
      SpacedParenHasParen(s, i);
    }
    ParenRuleFixed(s);
  }

  lemma SpacedParenHasParen(s: string, i: nat)
    requires i < |s|
    ensures SpacedParen(s[i..]) ==> '(' in s
  {
    if SpacedParen(s[i..]) {
      var k := LeadingSpaces(s[i..][4..]);
      assert s[i..][4 + k] == s[i + 4 + k];
    }
  }

  // ---------------------------------------------------------------------
  // The three cleaning pipelines

  /** `_x000D_`, carriage returns, line feeds and double quotes removed. */
  function Clean(raw: string): string {
    RemoveChar(RemoveChar(RemoveChar(RemoveAll(raw, "_x000D_"), '\r'), '\n'), '"')
  }

  function CleanKinmu(raw: string): string {
    ParenRule(Trim(Collapse(Clean(raw))))
  }

  function CleanShift(raw: string): string {
    Trim(Collapse(Clean(raw)))
  }

  function CleanReport(raw: string): string {
    ParenRule(Trim(Clean(raw)))
  }

  /** The cleaned texts that mean "not set". */
  const NullLiterals: set<string> := {"0", "0:00", "00:00:00", "12:00:00午前"}

  /** The first of the four datetime formats that parses the text. */
  function ParseDate(v: string): Option<Stamp> {
    var a := Parse(DashDateTime, v);
    if a.Some? then a else
    var b := Parse(SlashDateTime, v);
    if b.Some? then b else
    var c := Parse(DashDate, v);
    if c.Some? then c else
    Parse(SlashDate, v)
  }

  /**
   * After cleaning: blank and "not set" texts give `None`, a datetime text its
   * datetime, an integral number its integer text, and a non-integral number
   * either the text itself or (with `floats`) the float.
   */
  function Settle(v: string, floats: bool): Option<Canon> {
    if v == "" || v in NullLiterals then None
    else match ParseDate(v)
      case Some(t) => Some(Dt(t))
      case None =>
        match ParseDecimal(v)
        case Some(d) =>
          if Integral(d) then Some(Str(IntToString(Truncate(d))))
          else if floats then Some(Float(Canonical(d)))
          else Some(Str(v))
        case None => Some(Str(v))
  }

  /** `value is None or (isinstance(value, str) and value.strip() == "")`. */
  predicate BlankLike(c: Cell) {
    c.Blank? || (c.TextCell? && AllSpace(c.s))
  }

  /** `str(value)` after an integral float has become an `int`. */
  function Source(c: Cell): string {
    match c
    case FloatCell(d) => if Integral(d) then IntToString(Truncate(d)) else Render(c)
    case _ => Render(c)
  }

  /** The shape every text result of the collapsing copies has. */
  predicate Tidy(v: string) {
    v != "" && Trimmed(v) && NoDoubleSpace(v) && PlainSpacesOnly(v)
    && '\r' !in v && '\n' !in v && '"' !in v
  }

  /** `normalize_value` of kinmu_compare (both versions). */
  function NormalizeKinmu(c: Cell): (r: Option<Canon>)
    ensures BlankLike(c) ==> r == None
    ensures c.DateCell? ==> r == Some(Dt(c.at))
    ensures r.Some? && r.value.Str? ==> Tidy(r.value.s)
    ensures r.Some? ==> !r.value.Float?
  {
    if BlankLike(c) then None
    else if c.DateCell? then Some(Dt(c.at))
    else
      var v := CleanKinmu(Source(c));
      CleanKinmuTidy(Source(c));
      SettleTidy(v, false);
      Settle(v, false)
  }

  /** `normalize_value` of the shift script. */
  function NormalizeShift(c: Cell): (r: Option<Canon>)
    ensures BlankLike(c) ==> r == None
    ensures c.DateCell? ==> r == Some(Dt(c.at))
    ensures r.Some? && r.value.Str? ==> Tidy(r.value.s)
    ensures r.Some? ==> !r.value.Float?
  {
    if BlankLike(c) then None
    else if c.DateCell? then Some(Dt(c.at))
    else
      var v := CleanShift(Source(c));
      CleanShiftTidy(Source(c));
      SettleTidy(v, false);
      Settle(v, false)
  }

  /** `normalize_value` of the report script. */
  function NormalizeReport(c: Cell): (r: Option<Canon>)
    ensures BlankLike(c) ==> r == None
    ensures c.DateCell? ==> r == Some(Dt(c.at))
    ensures r.Some? && r.value.Str? ==> r.value.s != "" && Trimmed(r.value.s)
    ensures r.Some? && r.value.Str? ==> '\r' !in r.value.s && '\n' !in r.value.s && '"' !in r.value.s
    ensures r.Some? && r.value.Float? ==> !Integral(r.value.d)
  {
    if BlankLike(c) then None
    else if c.DateCell? then Some(Dt(c.at))
    else
      var v := CleanReport(Source(c));
      CleanReportShape(Source(c));
      SettleShape(v);
      Settle(v, true)
  }

  // ---------------------------------------------------------------------
  // Shape lemmas

  lemma {:induction false} ParenRuleNoDoubleSpace(s: string)
    requires NoDoubleSpace(s)
    ensures NoDoubleSpace(ParenRule(s))
    decreases |s|
  {
    if |s| > 0 {
      if SpacedParen(s) {
        var k := LeadingSpaces(s[4..]);
        var t := s[4 + k..];
        assert NoDoubleSpace(t) by {
          forall i | 0 <= i < |t| - 1 ensures !(IsSpace(t[i]) && IsSpace(t[i + 1])) {
            assert t[i] == s[4 + k + i] && t[i + 1] == s[4 + k + i + 1];
          }
        }
        ParenRuleNoDoubleSpace(t);
        var p := ParenRule(t);
        var r := s[..4] + p;
        assert t[0] == '(';
        forall i | 0 <= i < |r| - 1 ensures !(IsSpace(r[i]) && IsSpace(r[i + 1])) {
          if i < 3 {
            assert r[i + 1] == s[i + 1];
          } else if i == 3 {
            assert r[4] == '(';
          } else {
            assert r[i] == p[i - 4] && r[i + 1] == p[i - 3];
          }
        }
      } else {
        assert NoDoubleSpace(s[1..]) by {
          forall i | 0 <= i < |s[1..]| - 1 ensures !(IsSpace(s[1..][i]) && IsSpace(s[1..][i + 1])) {
            assert s[1..][i] == s[i + 1] && s[1..][i + 1] == s[i + 2];
          }
        }
        ParenRuleNoDoubleSpace(s[1..]);
        var p := ParenRule(s[1..]);
        var r := [s[0]] + p;
        forall i | 0 <= i < |r| - 1 ensures !(IsSpace(r[i]) && IsSpace(r[i + 1])) {
          if i == 0 {
            assert r[1] == s[1];
          } else {
            assert r[i] == p[i - 1] && r[i + 1] == p[i];
          }
        }
      }
    }
  }

  /** Every character the rule leaves was in its input. */
  lemma {:induction false} ParenRuleChars(s: string)
    ensures forall i :: 0 <= i < |ParenRule(s)| ==> ParenRule(s)[i] in s
    decreases |s|
  {
    var r := ParenRule(s);
    if |s| > 0 {
      if SpacedParen(s) {
        var t := s[4 + LeadingSpaces(s[4..])..];
        ParenRuleChars(t);
        assert forall i :: 0 <= i < |t| ==> t[i] in s;
        assert r == s[..4] + ParenRule(t);
        forall i | 0 <= i < |r| ensures r[i] in s {
          if i >= 4 {
            assert r[i] == ParenRule(t)[i - 4];
          }
        }
      } else {
        ParenRuleChars(s[1..]);
        assert r == [s[0]] + ParenRule(s[1..]);
        forall i | 0 <= i < |r| ensures r[i] in s {
          if i >= 1 {
            assert r[i] == ParenRule(s[1..])[i - 1];
            assert r[i] in s[1..];
          }
        }
      }
    }
  }

  /** The chosen characters are absent from `ParenRule(s)` when absent from `s`. */
  lemma ParenRuleKeepsOut(s: string, ch: char)
    requires ch !in s
    ensures ch !in ParenRule(s)
  {
    var r := ParenRule(s);
    ParenRuleChars(s);
    forall i | 0 <= i < |r| ensures r[i] != ch {
      assert r[i] == ParenRule(s)[i];
      assert r[i] in s;
    }
  }

  lemma ParenRulePlain(s: string)
    requires PlainSpacesOnly(s)
    ensures PlainSpacesOnly(ParenRule(s))
  {
    var r := ParenRule(s);
    ParenRuleChars(s);
    forall i | 0 <= i < |r| && IsSpace(r[i]) ensures r[i] == ' ' {
      assert r[i] == ParenRule(s)[i];
      assert r[i] in s;
      var j :| 0 <= j < |s| && s[j] == r[i];
    }
  }

  lemma CleanQuoteFree(raw: string)
    ensures '"' !in Clean(raw)
  {
    var c := Clean(raw);
    forall i | 0 <= i < |c| ensures c[i] != '"' { }
  }

  /** Collapsing and trimming quote-free text leaves it tidy, or empty exactly when it was all whitespace. */
  lemma CollapseTidy(a: string)
    requires '"' !in a
    ensures var v := Trim(Collapse(a));
      (v == "" || Tidy(v)) && (v == "" <==> AllSpace(a))
  {
    var c := Collapse(a);
    CollapseShape(a);
    SqueezeChars(c, '"');
    SqueezeChars(a, '"');
    TrimOfTrimmed(c);
    forall i | 0 <= i < |c| ensures c[i] != '\r' && c[i] != '\n' {
      assert IsSpace(c[i]) ==> c[i] == ' ';
    }
  }

  lemma CleanShiftTidy(raw: string)
    ensures var v := CleanShift(raw);
      (v == "" || Tidy(v)) && (v == "" <==> AllSpace(Clean(raw)))
  {
    CleanQuoteFree(raw);
    CollapseTidy(Clean(raw));
  }

  lemma CleanKinmuTidy(raw: string)
    ensures var v := CleanKinmu(raw);
      (v == "" || Tidy(v)) && (v == "" <==> AllSpace(Clean(raw)))
  {
    var c := CleanShift(raw);
    CleanShiftTidy(raw);
    ParenRuleNoDoubleSpace(c);
    ParenRulePlain(c);
    ParenRuleKeepsOut(c, '\r');
    ParenRuleKeepsOut(c, '\n');
    ParenRuleKeepsOut(c, '"');
  }

  lemma CleanReportShape(raw: string)
    ensures var v := CleanReport(raw);
      Trimmed(v) && '\r' !in v && '\n' !in v && '"' !in v
  {
    var a := Clean(raw);
    CleanQuoteFree(raw);
    var t := Trim(a);
    TrimKeepsOut(a, '\r');
    TrimKeepsOut(a, '\n');
    TrimKeepsOut(a, '"');
    ParenRuleKeepsOut(t, '\r');
    ParenRuleKeepsOut(t, '\n');
    ParenRuleKeepsOut(t, '"');
  }

  /** `str(i)` is digits after an optional minus sign. */
  lemma IntToStringChars(i: int)
    ensures var s := IntToString(i);
      (forall j :: 0 <= j < |s| ==> IsDigit(s[j]) || (j == 0 && s[j] == '-'))
      && (s[0] == '-' <==> i < 0)
  {
    var s := IntToString(i);
    if i < 0 {
      var d := DigitsOf(-i);
      assert s == "-" + d;
      assert forall j :: 1 <= j < |s| ==> s[j] == d[j - 1];
    }
  }

  /** A single word free of quotes, underscores and parentheses. */
  predicate Token(s: string) {
    s != "" && forall j :: 0 <= j < |s| ==> !IsSpace(s[j]) && s[j] != '"' && s[j] != '_' && s[j] != '('
  }

  lemma IntToStringToken(i: int)
    ensures Token(IntToString(i))
  {
    IntToStringChars(i);
  }

  lemma IntToStringTidy(i: int)
    ensures Tidy(IntToString(i))
  {
    IntToStringToken(i);
    TokenTidy(IntToString(i));
  }

  lemma TokenTidy(s: string)
    requires Token(s)
    ensures Tidy(s) && !Contains(s, "_x000D_") && NoSpacedParen(s)
  {
    assert '\r' !in s && '\n' !in s && '_' !in s && '(' !in s;
    NotContains(s, "_x000D_");
    ParenRuleNoParen(s);
  }

  /** Text without `_x000D_`, line breaks or quotes is not changed by `Clean`. */
  lemma CleanIdentity(s: string)
    requires !Contains(s, "_x000D_") && '\r' !in s && '\n' !in s && '"' !in s
    ensures Clean(s) == s
  {
    RemoveAllAbsent(s, "_x000D_");
  }

  /** Already tidy text passes the shift cleaning unchanged. */
  lemma CleanShiftFixed(s: string)
    requires Tidy(s) && !Contains(s, "_x000D_")
    ensures CleanShift(s) == s && !BlankLike(TextCell(s))
  {
    CleanIdentity(s);
    CollapseOfCollapsed(s);
    TrimOfTrimmed(s);
  }

  /** Tidy text where the parenthesis rule has nothing left to do passes every cleaning unchanged. */
  lemma CleanFixed(s: string)
    requires Tidy(s) && !Contains(s, "_x000D_") && NoSpacedParen(s)
    ensures CleanKinmu(s) == s && CleanShift(s) == s && CleanReport(s) == s
  {
    CleanIdentity(s);
    CollapseOfCollapsed(s);
    TrimOfTrimmed(s);
    ParenRuleFixed(s);
    assert CleanShift(s) == Trim(Collapse(s)) == s;
    assert CleanReport(s) == ParenRule(Trim(s)) == s;
  }

  lemma SettleTidy(v: string, floats: bool)
    requires v == "" || Tidy(v)
    ensures var r := Settle(v, floats);
      (r.Some? && r.value.Str? ==> Tidy(r.value.s)) && (r.Some? && r.value.Float? ==> floats)
  {
    if v != "" && v !in NullLiterals && ParseDate(v).None? {
      var d := ParseDecimal(v);
      if d.Some? && Integral(d.value) {
        IntToStringTidy(Truncate(d.value));
      }
    }
  }

  lemma SettleShape(v: string)
    requires Trimmed(v) && '\r' !in v && '\n' !in v && '"' !in v
    ensures var r := Settle(v, true);
      (r.Some? && r.value.Str? ==>
        r.value.s != "" && Trimmed(r.value.s) && '\r' !in r.value.s && '\n' !in r.value.s && '"' !in r.value.s)
      && (r.Some? && r.value.Float? ==> !Integral(r.value.d))
  {
    if v != "" && v !in NullLiterals && ParseDate(v).None? {
      var d := ParseDecimal(v);
      if d.Some? {
        if Integral(d.value) {
          IntToStringTidy(Truncate(d.value));
        } else {
          CanonicalIntegral(d.value);
          CanonicalIntegral(Canonical(d.value));
        }
      }
    }
  }

  // ---------------------------------------------------------------------
  // What normalising makes equal

  /** The four datetime formats all want a separator after a four-digit year. */
  lemma ParseDateNeedsSeparator(v: string)
    requires !(|v| > 4 && AllDigits(v[..4]) && (v[4] == '-' || v[4] == '/'))
    ensures ParseDate(v) == None
  {
    ParseNeedsSeparator(DashDateTime, v);
    ParseNeedsSeparator(SlashDateTime, v);
    ParseNeedsSeparator(DashDate, v);
    ParseNeedsSeparator(SlashDate, v);
  }

  /** The text of a non-zero integer is none of the "not set" literals. */
  lemma IntTextNotNull(i: int)
    requires i != 0
    ensures IntToString(i) !in NullLiterals
  {
    var s := IntToString(i);
    IntToStringChars(i);
    assert IntToString(0) == "0";
    IntToStringInjective(i, 0);
    assert |s| >= 2 ==> IsDigit(s[1]);
    assert |s| >= 3 ==> IsDigit(s[2]);
    assert "0:00"[1] == ':' && "00:00:00"[2] == ':' && "12:00:00午前"[2] == ':';
  }

  /** The text of an integer is no datetime. */
  lemma IntTextNoDate(i: int)
    ensures ParseDate(IntToString(i)) == None
  {
    var s := IntToString(i);
    IntToStringChars(i);
    assert |s| > 4 ==> (s[0] == '-' && !IsDigit(s[..4][0])) || (s[4] != '-' && s[4] != '/');
    ParseDateNeedsSeparator(s);
  }

  /** `str(i)` settles to itself, except that zero is a "not set" literal. */
  lemma SettleInt(i: int, floats: bool)
    ensures Settle(IntToString(i), floats) == if i == 0 then None else Some(Str(IntToString(i)))
  {
    if i == 0 {
      assert IntToString(0) == "0";
    } else {
      IntTextNotNull(i);
      IntTextNoDate(i);
      ParseDecimalOfIntToString(i);
    }
  }

  /**
   * An integer cell, a float cell holding an integer and a text cell holding the
   * integer's text normalise alike, to the integer's text, and zero to `None`,
   * in every copy.
   */
  lemma NormalizeInteger(c: Cell, i: int)
    requires c == IntCell(i) || c == TextCell(IntToString(i)) || (c.FloatCell? && Integral(c.d) && Truncate(c.d) == i)
    ensures var want := if i == 0 then None else Some(Str(IntToString(i)));
      NormalizeKinmu(c) == want && NormalizeShift(c) == want && NormalizeReport(c) == want
  {
    var s := IntToString(i);
    assert Source(c) == s;
    IntToStringToken(i);
    TokenTidy(s);
    TokenNotBlank(s);
    CleanFixed(s);
    SettleInt(i, false);
    SettleInt(i, true);
    NormalizeUnfold(c);
  }

  /** Digits, a point and digits: one point, and splitting at it gives the two runs back. */
  lemma PointedBody(digits: string, z: string)
    requires AllDigits(digits) && AllDigits(z)
    ensures CountChar(digits + "." + z, '.') == 1 && SplitOn(digits + "." + z, '.') == [digits, z]
  {
    assert '.' !in digits && '.' !in z by {
      assert forall j :: 0 <= j < |digits| ==> IsDigit(digits[j]);
      assert forall j :: 0 <= j < |z| ==> IsDigit(z[j]);
    }
    SplitOnPair(digits, z, '.');
    CountCharAppend(digits + ['.'], z, '.');
    CountCharAppend(digits, ['.'], '.');
    CountCharAbsent(digits, '.');
    CountCharAbsent(z, '.');
  }

  /** `float()`-style reading of unsigned pointed digits. */
  lemma ParsePointedUnsigned(digits: string, z: string)
    requires |digits| > 0 && AllDigits(digits) && AllDigits(z)
    ensures ParseDecimal(digits + "." + z) == Some(Decimal(false, DigitsValue(digits), z))
  {
    var s := digits + "." + z;
    PointedBody(digits, z);
    assert s[0] == digits[0] && IsDigit(digits[0]);
  }

  /** The same after a minus sign. */
  lemma ParsePointedNegative(digits: string, z: string)
    requires |digits| > 0 && AllDigits(digits) && AllDigits(z)
    ensures ParseDecimal("-" + (digits + "." + z)) == Some(Decimal(true, DigitsValue(digits), z))
  {
    var s := "-" + (digits + "." + z);
    PointedBody(digits, z);
    assert s[0] == '-' && s[1..] == digits + "." + z;
  }

  /** `str(i)` followed by a point and digits reads back as the decimal it spells. */
  lemma ParseDecimalPointed(i: int, z: string)
    requires AllDigits(z)
    ensures ParseDecimal(IntToString(i) + "." + z) == Some(Decimal(i < 0, if i < 0 then -i else i, z))
  {
    if i < 0 {
      var m: nat := -i;
      var d := DigitsOf(m);
      DigitsRoundTrip(m);
      ParsePointedNegative(d, z);
      assert IntToString(i) == "-" + d;
      assert ("-" + d) + "." + z == "-" + (d + "." + z);
    } else {
      var d := DigitsOf(i);
      DigitsRoundTrip(i);
      ParsePointedUnsigned(d, z);
      assert IntToString(i) == d;
    }
  }

  /** `str(i)` followed by a point and digits holds digits, the point and at most a leading minus. */
  lemma PointedChars(i: int, z: string)
    requires AllDigits(z)
    ensures var s := IntToString(i) + "." + z;
      forall j :: 0 <= j < |s| ==> IsDigit(s[j]) || s[j] == '.' || (j == 0 && s[j] == '-')
  {
    var n := IntToString(i);
    var s := n + "." + z;
    IntToStringChars(i);
    forall j | 0 <= j < |s| ensures IsDigit(s[j]) || s[j] == '.' || (j == 0 && s[j] == '-') {
      if j < |n| {
        assert s[j] == n[j];
      } else if j > |n| {
        assert s[j] == z[j - |n| - 1];
      }
    }
  }

  /** Text of digits, points and a leading minus is no datetime. */
  lemma NumeralNoDate(s: string)
    requires forall j :: 0 <= j < |s| ==> IsDigit(s[j]) || s[j] == '.' || (j == 0 && s[j] == '-')
    ensures ParseDate(s) == None
  {
    assert |s| > 4 ==> s[4] != '-' && s[4] != '/';
    ParseDateNeedsSeparator(s);
  }

  /** Text holding a point is none of the "not set" literals. */
  lemma PointNotNull(s: string)
    requires '.' in s
    ensures s !in NullLiterals
  {
    assert '.' !in "0" && '.' !in "0:00" && '.' !in "00:00:00" && '.' !in "12:00:00午前";
  }

  /** `str(i)` followed by a point and digits is a single word that is no datetime and no null literal. */
  lemma PointedShape(i: int, z: string)
    requires AllDigits(z)
    ensures var s := IntToString(i) + "." + z;
      Token(s) && ParseDate(s) == None && s !in NullLiterals
  {
    var n := IntToString(i);
    var s := n + "." + z;
    PointedChars(i, z);
    NumeralNoDate(s);
    assert s[|n|] == '.';
    PointNotNull(s);
  }

  lemma SettlePointed(i: int, z: string, floats: bool)
    requires AllDigits(z) && forall j :: 0 <= j < |z| ==> z[j] == '0'
    ensures Settle(IntToString(i) + "." + z, floats) == Some(Str(IntToString(i)))
  {
    var s := IntToString(i) + "." + z;
    PointedShape(i, z);
    ParseDecimalPointed(i, z);
    var d := Decimal(i < 0, if i < 0 then -i else i, z);
    assert Integral(d) && Truncate(d) == i;
  }

  /**
   * Numeric text with a zero fraction (`"12.0"`, `"-3.00"`, `"7."`) normalises to
   * the integer's text.  For zero this gives `"0"`, although the integer 0 and
   * the text `"0"` normalise to `None`.
   */
  lemma NormalizeIntegralText(i: int, z: string)
    requires forall j :: 0 <= j < |z| ==> z[j] == '0'
    ensures var c := TextCell(IntToString(i) + "." + z);
      var want := Some(Str(IntToString(i)));
      NormalizeKinmu(c) == want && NormalizeShift(c) == want && NormalizeReport(c) == want
  {
    var s := IntToString(i) + "." + z;
    var c := TextCell(s);
    assert AllDigits(z);
    PointedShape(i, z);
    TokenTidy(s);
    CleanFixed(s);
    CleanShiftFixed(s);
    SettlePointed(i, z, false);
    SettlePointed(i, z, true);
    assert Source(c) == s;
    assert NormalizeKinmu(c) == Settle(s, false);
    assert NormalizeShift(c) == Settle(s, false);
    assert NormalizeReport(c) == Settle(s, true);
  }

  // ---------------------------------------------------------------------
  // Datetime text

  lemma DashDateTimePlainLits()
    ensures PlainLits(DashDateTime)
  {
  }

  /** `str()` of a datetime cell is what `strftime` writes with the dashed format. */
  lemma RenderDateCell(t: Stamp)
    ensures var s := Render(DateCell(t));
      s == Strftime(DashDateTime, t) && |s| == 19 && Tidy(s) && !Contains(s, "_x000D_") && NoSpacedParen(s)
  {
    var s := Render(DateCell(t));
    StrftimeDashDateTime(t);
    RenderDateLength(t);
    DashDateTimeDelimited();
    DashDateTimePlainLits();
    StrftimeShape(DashDateTime, t);
    assert '\r' !in s && '\n' !in s by {
      assert forall i :: 0 <= i < |s| && IsSpace(s[i]) ==> s[i] == ' ';
    }
    NotContains(s, "_x000D_");
    ParenRuleNoParen(s);
  }

  lemma LongNotNull(v: string)
    requires |v| > 10
    ensures v !in NullLiterals
  {
    assert |"12:00:00午前"| == 10;
  }

  lemma SettleDateText(t: Stamp, floats: bool)
    ensures Settle(Render(DateCell(t)), floats) == Some(Dt(t))
  {
    var s := Render(DateCell(t));
    RenderDateCell(t);
    DashDateTimeDelimited();
    ParseStrftime(DashDateTime, t);
    LongNotNull(s);
    assert ParseDate(s) == Some(t);
  }

  /**
   * The text of a datetime cell normalises to the datetime itself, so a cell
   * holding a datetime and a cell holding its text compare equal.
   */
  lemma NormalizeDateText(t: Stamp)
    ensures var c := TextCell(Render(DateCell(t)));
      NormalizeKinmu(c) == Some(Dt(t)) && NormalizeShift(c) == Some(Dt(t)) && NormalizeReport(c) == Some(Dt(t))
  {
    var s := Render(DateCell(t));
    var c := TextCell(s);
    RenderDateCell(t);
    CleanFixed(s);
    CleanShiftFixed(s);
    SettleDateText(t, false);
    SettleDateText(t, true);
    assert Source(c) == s;
    assert NormalizeKinmu(c) == Settle(s, false);
    assert NormalizeShift(c) == Settle(s, false);
    assert NormalizeReport(c) == Settle(s, true);
  }

  /**
   * The emptiness test of column D (`v is None or str(v).strip() == ""`) and
   * `normalize_value`'s blank test agree on every cell: only text can print as
   * whitespace.
   */
  lemma EmptyMeansBlankLike(c: Cell)
    ensures Empty(c) <==> BlankLike(c)
  {
    if !c.Blank? && !c.TextCell? {
      var s := Render(c);
      match c {
        case IntCell(i) =>
          assert s[0] == '-' || IsDigit(s[0]);
        case FloatCell(d) =>
          assert s[0] == '-' || IsDigit(s[0]);
        case DateCell(t) =>
          assert IsDigit(s[0]);
        case TimeCell(k) =>
          assert IsDigit(s[0]);
        case BoolCell(b) =>
          assert s[0] == 'T' || s[0] == 'F';
      }
      assert !IsSpace(s[0]);
    }
  }

  /** `str()` of a `time` is a single word that is neither a datetime nor a number. */
  lemma ClockRenderShape(k: TimeOfDay)
    ensures var s := Render(TimeCell(k));
      Token(s) && ParseDate(s) == None && ParseDecimal(s).None?
  {
    var s := Render(TimeCell(k));
    assert s == Pad2(k.hour) + ":" + Pad2(k.minute) + ":" + Pad2(k.second);
    assert |s| == 8 && s[2] == ':';
    assert forall j :: 0 <= j < |s| ==> IsDigit(s[j]) || s[j] == ':';
    ParseDateNeedsSeparator(s);
    CountCharAbsent(s, '.');
    assert !AllDigits(s);
  }

  /** Of the `time` texts, only midnight's is a "not set" literal. */
  lemma ClockRenderNull(k: TimeOfDay)
    ensures Render(TimeCell(k)) in NullLiterals <==> k.hour == 0 && k.minute == 0 && k.second == 0
  {
    var s := Render(TimeCell(k));
    assert s == Pad2(k.hour) + ":" + Pad2(k.minute) + ":" + Pad2(k.second);
    assert |s| == 8;
    if s == "00:00:00" {
      assert Pad2(k.hour) == s[..2] == "00";
      assert Pad2(k.minute) == s[3..5] == "00";
      assert Pad2(k.second) == s[6..] == "00";
    }
  }

  /** What `time` text settles to. */
  lemma SettleClock(k: TimeOfDay)
    ensures var s := Render(TimeCell(k));
      Settle(s, false) == if k.hour == 0 && k.minute == 0 && k.second == 0 then None else Some(Str(s))
  {
    ClockRenderShape(k);
    ClockRenderNull(k);
  }

  /** The cleaning pipelines leave `time` text alone. */
  lemma CleanClock(k: TimeOfDay)
    ensures var s := Render(TimeCell(k));
      CleanKinmu(s) == s && CleanShift(s) == s
  {
    var s := Render(TimeCell(k));
    ClockRenderShape(k);
    TokenTidy(s);
    CleanFixed(s);
  }

  /**
   * A `time` cell normalises to its `HH:MM:SS` text, except midnight, whose
   * text is one of the "not set" literals.
   */
  lemma NormalizeClockCell(k: TimeOfDay)
    ensures var c := TimeCell(k);
      var want := if k.hour == 0 && k.minute == 0 && k.second == 0 then None else Some(Str(Render(c)));
      NormalizeKinmu(c) == want && NormalizeShift(c) == want
  {
    var c := TimeCell(k);
    var s := Render(c);
    CleanClock(k);
    assert Source(c) == s;
    SettleClock(k);
    assert NormalizeKinmu(c) == Settle(CleanKinmu(s), false);
    assert NormalizeShift(c) == Settle(CleanShift(s), false);
  }

  // ---------------------------------------------------------------------
  // Normalising twice

  /** The three copies on a cell that is neither blank nor a datetime. */
  lemma NormalizeUnfold(c: Cell)
    requires !BlankLike(c) && !c.DateCell?
    ensures NormalizeKinmu(c) == Settle(CleanKinmu(Source(c)), false)
    ensures NormalizeShift(c) == Settle(CleanShift(Source(c)), false)
    ensures NormalizeReport(c) == Settle(CleanReport(Source(c)), true)
  {
  }

  /**
   * Each copy gives `None` exactly for a blank or whitespace-only cell and for a
   * cell whose cleaned text is empty or one of the "not set" literals.
   */
  lemma NormalizeNone(c: Cell)
    ensures NormalizeKinmu(c).None? <==>
      BlankLike(c) || (!c.DateCell? && (CleanKinmu(Source(c)) == "" || CleanKinmu(Source(c)) in NullLiterals))
    ensures NormalizeShift(c).None? <==>
      BlankLike(c) || (!c.DateCell? && (CleanShift(Source(c)) == "" || CleanShift(Source(c)) in NullLiterals))
    ensures NormalizeReport(c).None? <==>
      BlankLike(c) || (!c.DateCell? && (CleanReport(Source(c)) == "" || CleanReport(Source(c)) in NullLiterals))
  {
    if !BlankLike(c) && !c.DateCell? {
      NormalizeUnfold(c);
      SettleNone(CleanKinmu(Source(c)), false);
      SettleNone(CleanShift(Source(c)), false);
      SettleNone(CleanReport(Source(c)), true);
    }
  }

  /** `Settle` gives `None` only for empty text and the "not set" literals. */
  lemma SettleNone(v: string, floats: bool)
    ensures Settle(v, floats).None? <==> v == "" || v in NullLiterals
  {
  }

  lemma TokenNotBlank(v: string)
    requires Token(v)
    ensures !BlankLike(TextCell(v))
  {
    assert !IsSpace(v[0]);
  }

  /** A text result that came from `str(int)` normalises to itself again unless it is "0". */
  lemma RenormalizeInt(k: int)
    requires k != 0
    ensures var v := IntToString(k);
      NormalizeKinmu(TextCell(v)) == Some(Str(v)) && NormalizeShift(TextCell(v)) == Some(Str(v))
      && NormalizeReport(TextCell(v)) == Some(Str(v))
  {
    var v := IntToString(k);
    IntToStringToken(k);
    TokenTidy(v);
    TokenNotBlank(v);
    CleanFixed(v);
    SettleInt(k, false);
    SettleInt(k, true);
    NormalizeUnfold(TextCell(v));
  }

  /** A text result of `Settle` is its input, or the text of a non-zero integer the input spelt. */
  lemma SettleStr(w: string, floats: bool, v: string)
    requires Settle(w, floats) == Some(Str(v)) && v != "0"
    ensures w != "" && w !in NullLiterals && ParseDate(w).None?
    ensures v == w || exists k :: k != 0 && v == IntToString(k)
    ensures v == w ==> Settle(w, floats) == Some(Str(w))
  {
    var dec := ParseDecimal(w);
    if dec.Some? && Integral(dec.value) {
      var k := Truncate(dec.value);
      assert v == IntToString(k);
      assert IntToString(0) == "0";
    }
  }

  /** A text result of the kinmu copy comes from the settling of the cleaned source. */
  lemma NormalizedKinmuStr(c: Cell, v: string)
    requires NormalizeKinmu(c) == Some(Str(v))
    ensures !BlankLike(c) && !c.DateCell? && Settle(CleanKinmu(Source(c)), false) == Some(Str(v))
  {
  }

  lemma NormalizedShiftStr(c: Cell, v: string)
    requires NormalizeShift(c) == Some(Str(v))
    ensures !BlankLike(c) && !c.DateCell? && Settle(CleanShift(Source(c)), false) == Some(Str(v))
  {
  }

  lemma NormalizedReportStr(c: Cell, v: string)
    requires NormalizeReport(c) == Some(Str(v))
    ensures !BlankLike(c) && !c.DateCell? && Settle(CleanReport(Source(c)), true) == Some(Str(v))
  {
  }

  /**
   * Normalising the text of a normalised value gives the value back, unless the
   * text is "0" or holds `_x000D_`.
   */
  lemma NormalizeKinmuIdempotent(c: Cell, v: string)
    requires NormalizeKinmu(c) == Some(Str(v))
    requires v != "0" && !Contains(v, "_x000D_")
    ensures NormalizeKinmu(TextCell(v)) == Some(Str(v))
  {
    var pre := Trim(Collapse(Clean(Source(c))));
    var w := ParenRule(pre);
    NormalizedKinmuStr(c, v);
    assert w == CleanKinmu(Source(c));
    CleanKinmuTidy(Source(c));
    SettleStr(w, false, v);
    if v == w {
      ParenRuleDone(pre);
      CleanFixed(w);
      TokenlessNotBlank(w);
      NormalizeUnfold(TextCell(w));
    } else {
      var k :| k != 0 && v == IntToString(k);
      RenormalizeInt(k);
    }
  }

  /** The same for the shift copy. */
  lemma NormalizeShiftIdempotent(c: Cell, v: string)
    requires NormalizeShift(c) == Some(Str(v))
    requires v != "0" && !Contains(v, "_x000D_")
    ensures NormalizeShift(TextCell(v)) == Some(Str(v))
  {
    var w := CleanShift(Source(c));
    NormalizedShiftStr(c, v);
    CleanShiftTidy(Source(c));
    SettleStr(w, false, v);
    if v == w {
      CleanShiftFixed(w);
      NormalizeUnfold(TextCell(w));
    } else {
      var k :| k != 0 && v == IntToString(k);
      RenormalizeInt(k);
    }
  }

  /** The same for the report copy. */
  lemma NormalizeReportIdempotent(c: Cell, v: string)
    requires NormalizeReport(c) == Some(Str(v))
    requires v != "0" && !Contains(v, "_x000D_")
    ensures NormalizeReport(TextCell(v)) == Some(Str(v))
  {
    var pre := Trim(Clean(Source(c)));
    var w := ParenRule(pre);
    NormalizedReportStr(c, v);
    assert w == CleanReport(Source(c));
    CleanReportShape(Source(c));
    SettleStr(w, true, v);
    if v == w {
      ParenRuleDone(pre);
      ReportFixed(w);
      TokenlessNotBlank(w);
      NormalizeUnfold(TextCell(w));
    } else {
      var k :| k != 0 && v == IntToString(k);
      RenormalizeInt(k);
    }
  }

  /** Non-empty trimmed text is not blank. */
  lemma TokenlessNotBlank(w: string)
    requires w != "" && Trimmed(w)
    ensures !BlankLike(TextCell(w))
  {
    assert !IsSpace(w[0]);
  }

  /** Trimmed text without `_x000D_`, line breaks, quotes or a place for the parenthesis rule passes the report cleaning unchanged. */
  lemma ReportFixed(w: string)
    requires Trimmed(w) && '\r' !in w && '\n' !in w && '"' !in w
    requires !Contains(w, "_x000D_") && NoSpacedParen(w)
    ensures CleanReport(w) == w
  {
    CleanIdentity(w);
    TrimOfTrimmed(w);
    ParenRuleFixed(w);
  }
}
