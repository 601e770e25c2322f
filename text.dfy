/**
 * Python string operations that the comparison scripts rely on: `str.isspace`,
 * `strip`, `' '.join(s.split())`, `replace`, `split(c)`, `count`, `startswith`,
 * `int()` and `str(int)`.  Only ASCII decimal digits are digits here.
 */
module Text {
  import opened Wrappers

  // ---------------------------------------------------------------------
  // Character classes

  /** Python's `str.isspace()` for one character. */
  predicate IsSpace(c: char) {
    c == ' ' || ('\t' <= c <= '\r') || ('\U{001C}' <= c <= '\U{001F}')
    || c == '\U{0085}' || c == '\U{00A0}' || c == '\U{1680}' || ('\U{2000}' <= c <= '\U{200A}')
    || c == '\U{2028}' || c == '\U{2029}' || c == '\U{202F}' || c == '\U{205F}' || c == '\U{3000}'
  }

  predicate IsDigit(c: char) { '0' <= c <= '9' }

  function DigitValue(c: char): (d: nat)
    requires IsDigit(c)
    ensures d < 10
  {
    (c as int) - ('0' as int)
  }

  function DigitChar(d: nat): (c: char)
    requires d < 10
    ensures IsDigit(c) && DigitValue(c) == d
  {
    (('0' as int) + d) as char
  }

  predicate AllDigits(s: string) { forall i :: 0 <= i < |s| ==> IsDigit(s[i]) }

  predicate NoSpace(s: string) { forall i :: 0 <= i < |s| ==> !IsSpace(s[i]) }

  predicate AllSpace(s: string) { forall i :: 0 <= i < |s| ==> IsSpace(s[i]) }

  // ---------------------------------------------------------------------
  // The shape of a cleaned string

  /** No whitespace at either end (what `strip()` guarantees). */
  predicate Trimmed(s: string) {
    |s| == 0 || (!IsSpace(s[0]) && !IsSpace(s[|s| - 1]))
  }

  predicate NoDoubleSpace(s: string) {
    forall i :: 0 <= i < |s| - 1 ==> !(IsSpace(s[i]) && IsSpace(s[i + 1]))
  }

  /** The only whitespace left is the plain space. */
  predicate PlainSpacesOnly(s: string) {
    forall i :: 0 <= i < |s| ==> IsSpace(s[i]) ==> s[i] == ' '
  }

  // ---------------------------------------------------------------------
  // strip()

  /** Length of the leading whitespace run. */
  function LeadingSpaces(s: string): (k: nat)
    ensures k <= |s|
    ensures forall i :: 0 <= i < k ==> IsSpace(s[i])
    ensures k == |s| || !IsSpace(s[k])
  {
    if |s| > 0 && IsSpace(s[0]) then 1 + LeadingSpaces(s[1..]) else 0
  }

  /** Length of the trailing whitespace run. */
  function TrailingSpaces(s: string): (k: nat)
    ensures k <= |s|
    ensures forall i :: |s| - k <= i < |s| ==> IsSpace(s[i])
    ensures k == |s| || !IsSpace(s[|s| - k - 1])
  {
    if |s| > 0 && IsSpace(s[|s| - 1]) then 1 + TrailingSpaces(s[..|s| - 1]) else 0
  }

  /** Python's `str.lstrip()`. */
  function TrimLeft(s: string): (r: string)
    ensures |r| == 0 || !IsSpace(r[0])
    ensures r == [] <==> AllSpace(s)
    ensures NoSpace(s) ==> r == s
  {
    var k := LeadingSpaces(s);
    assert NoSpace(s) ==> k == 0;
    s[k..]
  }

  /** Python's `str.rstrip()`. */
  function TrimRight(s: string): (r: string)
    ensures |r| == 0 || !IsSpace(r[|r| - 1])
    ensures r == [] <==> AllSpace(s)
    ensures NoSpace(s) ==> r == s
  {
    var k := TrailingSpaces(s);
    assert NoSpace(s) ==> k == 0;
    s[..|s| - k]
  }

  /** Python's `str.strip()`: the string without its leading and trailing whitespace. */
  function Trim(s: string): (r: string)
    ensures Trimmed(r)
    ensures r == "" <==> AllSpace(s)
    ensures NoSpace(s) ==> r == s
  {
    var l := TrimLeft(s);
    assert AllSpace(l) <==> l == [];
    TrimRight(l)
  }

  /** `strip()` keeps every character that is not whitespace. */
  lemma TrimKeeps(s: string, x: char)
    requires x in s && !IsSpace(x)
    ensures x in Trim(s)
  {
    var i :| 0 <= i < |s| && s[i] == x;
    var k := LeadingSpaces(s);
    var l := TrimLeft(s);
    assert l == s[k..];
    assert k <= i;
    assert l[i - k] == x;
    var k2 := TrailingSpaces(l);
    assert Trim(s) == l[..|l| - k2];
    assert i - k < |l| - k2;
    assert Trim(s)[i - k] == x;
  }

  /** `strip()` removes characters and never adds any. */
  lemma TrimKeepsOut(s: string, ch: char)
    requires ch !in s
    ensures ch !in Trim(s)
  {
    var l := TrimLeft(s);
    assert l == s[LeadingSpaces(s)..];
    assert ch !in l;
    var r := Trim(s);
    assert r == l[..|l| - TrailingSpaces(l)];
  }

  // ---------------------------------------------------------------------
  // ' '.join(s.split())

  /** Length of the leading run of non-whitespace characters. */
  function WordLength(s: string): (k: nat)
    ensures k <= |s|
    ensures forall i :: 0 <= i < k ==> !IsSpace(s[i])
    ensures k == |s| || IsSpace(s[k])
  {
    if |s| > 0 && !IsSpace(s[0]) then 1 + WordLength(s[1..]) else 0
  }

  /** Python's `s.split()`: the maximal runs of non-whitespace characters. */
  function Words(s: string): (ws: seq<string>)
    ensures forall i :: 0 <= i < |ws| ==> |ws[i]| > 0 && NoSpace(ws[i])
    ensures ws == [] <==> AllSpace(s)
    decreases |s|
  {
    var t := TrimLeft(s);
    if t == [] then [] else
      var k := WordLength(t);
      var w := t[..k];
      assert |w| > 0 && NoSpace(w);
      var rest := Words(t[k..]);
      assert forall i :: 0 < i < |rest| + 1 ==> ([w] + rest)[i] == rest[i - 1];
      [w] + rest
  }

  /** Python's `' '.join(ws)`. */
  function JoinWords(ws: seq<string>): string {
    if |ws| == 0 then "" else if |ws| == 1 then ws[0] else ws[0] + " " + JoinWords(ws[1..])
  }

  /** `' '.join(s.split())`: every whitespace run becomes one space, none at the ends. */
  function Collapse(s: string): string {
    JoinWords(Words(s))
  }

  /** All whitespace removed: what `Collapse` must keep. */
  function Squeeze(s: string): string {
    if |s| == 0 then "" else (if IsSpace(s[0]) then "" else [s[0]]) + Squeeze(s[1..])
  }

  lemma {:induction false} SqueezeAppend(a: string, b: string)
    ensures Squeeze(a + b) == Squeeze(a) + Squeeze(b)
    decreases |a|
  {
    if |a| > 0 {
      assert (a + b)[1..] == a[1..] + b;
      SqueezeAppend(a[1..], b);
    } else {
      assert a + b == b;
    }
  }

  lemma {:induction false} SqueezeOfNoSpace(s: string)
    requires NoSpace(s)
    ensures Squeeze(s) == s
    decreases |s|
  {
    if |s| > 0 { SqueezeOfNoSpace(s[1..]); }
  }

  lemma {:induction false} SqueezeOfAllSpace(s: string)
    requires AllSpace(s)
    ensures Squeeze(s) == ""
    decreases |s|
  {
    if |s| > 0 { SqueezeOfAllSpace(s[1..]); }
  }

  lemma {:induction false} JoinWordsShape(ws: seq<string>)
    requires forall i :: 0 <= i < |ws| ==> |ws[i]| > 0 && NoSpace(ws[i])
    ensures var j := JoinWords(ws);
      Trimmed(j) && NoDoubleSpace(j) && PlainSpacesOnly(j)
      && (|ws| > 0 ==> |j| > 0 && j[0] == ws[0][0])
      && (|ws| == 0 <==> j == "")
  {
    if |ws| > 1 {
      JoinWordsShape(ws[1..]);
      var rest := JoinWords(ws[1..]);
      var j := ws[0] + " " + rest;
      assert j == JoinWords(ws);
      assert rest[0] == ws[1][0];
      forall i | 0 <= i < |j| - 1 ensures !(IsSpace(j[i]) && IsSpace(j[i + 1])) {
        if i + 1 < |ws[0]| {
        } else if i + 1 == |ws[0]| {
          assert j[i] == ws[0][i];
        } else if i == |ws[0]| {
          assert j[i + 1] == rest[0];
        } else {
          assert j[i] == rest[i - |ws[0]| - 1] && j[i + 1] == rest[i + 1 - |ws[0]| - 1];
        }
      }
      forall i | 0 <= i < |j| && IsSpace(j[i]) ensures j[i] == ' ' {
        if i < |ws[0]| {
        } else if i > |ws[0]| {
          assert j[i] == rest[i - |ws[0]| - 1];
        }
      }
      assert j[|j| - 1] == rest[|rest| - 1];
    }
  }

  lemma {:induction false} SqueezeJoinWords(ws: seq<string>)
    requires forall i :: 0 <= i < |ws| ==> NoSpace(ws[i])
    ensures Squeeze(JoinWords(ws)) == Concat(ws)
  {
    if |ws| == 1 {
      SqueezeOfNoSpace(ws[0]);
    } else if |ws| > 1 {
      SqueezeJoinWords(ws[1..]);
      SqueezeAppend(ws[0] + " ", JoinWords(ws[1..]));
      SqueezeAppend(ws[0], " ");
      SqueezeOfNoSpace(ws[0]);
    }
  }

  function Concat(ws: seq<string>): string {
    if |ws| == 0 then "" else ws[0] + Concat(ws[1..])
  }

  /** Three characters put in front one at a time. */
  lemma ConsThree(a: string, b: string, c: string, d: string, x: char, y: char, z: char)
    requires a == [x] + b && b == [y] + c && c == [z] + d
    ensures a == [x, y, z] + d
  {
  }

  /** Splitting a string at `j` splits its `Squeeze`. */
  lemma SqueezeSplit(s: string, j: nat)
    requires j <= |s|
    ensures Squeeze(s) == Squeeze(s[..j]) + Squeeze(s[j..])
  {
    assert s == s[..j] + s[j..];
    SqueezeAppend(s[..j], s[j..]);
  }

  lemma ConcatCons(w: string, ws: seq<string>)
    ensures Concat([w] + ws) == w + Concat(ws)
  {
    assert ([w] + ws)[1..] == ws;
  }

  lemma {:induction false} SqueezeWords(s: string)
    ensures Concat(Words(s)) == Squeeze(s)
    decreases |s|
  {
    var j := LeadingSpaces(s);
    var t := s[j..];
    SqueezeSplit(s, j);
    SqueezeOfAllSpace(s[..j]);
    assert TrimLeft(s) == t;
    if t != [] {
      var k := WordLength(t);
      SqueezeSplit(t, k);
      SqueezeOfNoSpace(t[..k]);
      SqueezeWords(t[k..]);
      assert Words(s) == [t[..k]] + Words(t[k..]);
      ConcatCons(t[..k], Words(t[k..]));
    }
  }

  /**
   * `' '.join(s.split())` leaves a trimmed string whose only whitespace is single
   * plain spaces, and it keeps every non-whitespace character in order.
   */
  lemma CollapseShape(s: string)
    ensures var c := Collapse(s);
      Trimmed(c) && NoDoubleSpace(c) && PlainSpacesOnly(c)
      && Squeeze(c) == Squeeze(s)
      && (c == "" <==> AllSpace(s))
  {
    var ws := Words(s);
    JoinWordsShape(ws);
    SqueezeJoinWords(ws);
    SqueezeWords(s);
  }

  /** `strip()` leaves an already trimmed string alone. */
  lemma TrimOfTrimmed(s: string)
    requires Trimmed(s)
    ensures Trim(s) == s
  {
    assert LeadingSpaces(s) == 0;
    assert TrailingSpaces(s) == 0;
  }

  /** `split()` of a word, one space and more text. */
  lemma WordsAfterSpace(s: string, k: nat)
    requires k + 1 < |s| && k == WordLength(s) && k > 0
    requires IsSpace(s[k]) && !IsSpace(s[k + 1])
    ensures Words(s) == [s[..k]] + Words(s[k + 1..])
  {
    assert LeadingSpaces(s) == 0;
    var t := s[k..];
    assert t[1..] == s[k + 1..];
    assert LeadingSpaces(t) == 1;
  }

  lemma WordsOfWord(s: string)
    requires |s| > 0 && WordLength(s) == |s|
    ensures Words(s) == [s]
  {
    assert LeadingSpaces(s) == 0 && TrimLeft(s) == s;
    assert s[|s|..] == [] && s[..|s|] == s;
    assert Words(s[|s|..]) == [];
  }

  /** Joining a word in front of a non-empty list puts one space after it. */
  lemma JoinWordsCons(w: string, ws: seq<string>)
    requires |ws| > 0
    ensures JoinWords([w] + ws) == w + " " + JoinWords(ws)
  {
    assert ([w] + ws)[1..] == ws;
  }

  /** In a collapsed string, the text after the first word and its space is collapsed too. */
  lemma CollapsedTail(s: string, k: nat)
    requires Trimmed(s) && NoDoubleSpace(s) && PlainSpacesOnly(s)
    requires 0 < |s| && k == WordLength(s) && k < |s|
    ensures k + 1 < |s| && s[k] == ' ' && !IsSpace(s[k + 1])
    ensures var t := s[k + 1..]; Trimmed(t) && NoDoubleSpace(t) && PlainSpacesOnly(t)
    ensures s == s[..k] + " " + s[k + 1..]
  {
    assert k + 1 < |s| by { assert !IsSpace(s[|s| - 1]); }
    assert !(IsSpace(s[k]) && IsSpace(s[k + 1]));
    var t := s[k + 1..];
    assert forall i :: 0 <= i < |t| ==> t[i] == s[k + 1 + i];
  }

  /** A string already in `' '.join(s.split())` form is left alone by it. */
  lemma {:induction false} CollapseOfCollapsed(s: string)
    requires Trimmed(s) && NoDoubleSpace(s) && PlainSpacesOnly(s)
    ensures Collapse(s) == s
    decreases |s|
  {
    if |s| > 0 {
      var k := WordLength(s);
      if k < |s| {
        CollapsedTail(s, k);
        var t := s[k + 1..];
        CollapseOfCollapsed(t);
        WordsAfterSpace(s, k);
        assert !AllSpace(t);
        JoinWordsCons(s[..k], Words(t));
      } else {
        WordsOfWord(s);
      }
    }
  }

  /** The non-whitespace characters of a string are those of its `Squeeze`. */
  lemma {:induction false} SqueezeChars(s: string, ch: char)
    requires !IsSpace(ch)
    ensures ch in s <==> ch in Squeeze(s)
    decreases |s|
  {
    if |s| > 0 {
      SqueezeChars(s[1..], ch);
      assert ch in s <==> s[0] == ch || ch in s[1..];
    }
  }

  // ---------------------------------------------------------------------
  // replace(), count(), split(), `in`, startswith()

  predicate StartsWith(s: string, p: string) { |p| <= |s| && s[..|p|] == p }

  /** Python's `sub in s`. */
  predicate Contains(s: string, sub: string) {
    exists i :: 0 <= i <= |s| - |sub| && StartsWith(s[i..], sub)
  }

  /** A text lacking the first character of a pattern does not contain it. */
  lemma NotContains(s: string, sub: string)
    requires |sub| > 0 && sub[0] !in s
    ensures !Contains(s, sub)
  {
    forall i | 0 <= i <= |s| - |sub| ensures !StartsWith(s[i..], sub) {
      assert s[i..][0] == s[i];
    }
  }

  /** Python's `s.replace(pat, "")`: occurrences removed left to right, without overlap. */
  function RemoveAll(s: string, pat: string): (r: string)
    requires |pat| > 0
    ensures |r| <= |s|
    decreases |s|
  {
    if |s| == 0 then ""
    else if StartsWith(s, pat) then RemoveAll(s[|pat|..], pat)
    else [s[0]] + RemoveAll(s[1..], pat)
  }

  /** Removing a pattern that does not occur changes nothing. */
  lemma {:induction false} RemoveAllAbsent(s: string, pat: string)
    requires |pat| > 0 && !Contains(s, pat)
    ensures RemoveAll(s, pat) == s
    decreases |s|
  {
    if |s| > 0 {
      assert !StartsWith(s[0..], pat);
      assert s[0..] == s;
      assert !Contains(s[1..], pat) by {
        forall i | 0 <= i <= |s[1..]| - |pat| ensures !StartsWith(s[1..][i..], pat) {
          assert s[1..][i..] == s[i + 1..];
        }
      }
      RemoveAllAbsent(s[1..], pat);
    }
  }

  /** Python's `s.replace(c, "")` for a single character. */
  function RemoveChar(s: string, c: char): (r: string)
    ensures forall i :: 0 <= i < |r| ==> r[i] != c
    ensures forall i :: 0 <= i < |r| ==> r[i] in s
    ensures (forall i :: 0 <= i < |s| ==> s[i] != c) ==> r == s
  {
    if |s| == 0 then "" else (if s[0] == c then "" else [s[0]]) + RemoveChar(s[1..], c)
  }

  /** Removing a character distributes over concatenation. */
  lemma {:induction false} RemoveCharAppend(a: string, b: string, c: char)
    ensures RemoveChar(a + b, c) == RemoveChar(a, c) + RemoveChar(b, c)
  {
    if |a| == 0 {
      assert a + b == b;
    } else {
      assert (a + b)[1..] == a[1..] + b;
      RemoveCharAppend(a[1..], b, c);
    }
  }

  /** Removing one character keeps every other character. */
  lemma {:induction false} RemoveCharKeeps(s: string, c: char, x: char)
    requires x in s && x != c
    ensures x in RemoveChar(s, c)
  {
    if s[0] == x {
      assert RemoveChar(s, c)[0] == x;
    } else {
      assert x in s[1..];
      RemoveCharKeeps(s[1..], c, x);
    }
  }

  /** Python's `s.replace(a, b)` for single characters. */
  function ReplaceChar(s: string, a: char, b: char): (r: string)
    ensures |r| == |s|
    ensures forall i :: 0 <= i < |s| ==> r[i] == if s[i] == a then b else s[i]
  {
    if |s| == 0 then "" else [if s[0] == a then b else s[0]] + ReplaceChar(s[1..], a, b)
  }

  /** Python's `s.count(sub)`: non-overlapping occurrences, scanning left to right. */
  function CountOf(s: string, sub: string): nat
    requires |sub| > 0
    decreases |s|
  {
    if |s| < |sub| then 0
    else if s[..|sub|] == sub then 1 + CountOf(s[|sub|..], sub)
    else CountOf(s[1..], sub)
  }

  function CountChar(s: string, c: char): nat {
    if |s| == 0 then 0 else (if s[0] == c then 1 else 0) + CountChar(s[1..], c)
  }

  /** Python's `s.split(c)` for a one-character separator. */
  function SplitOn(s: string, c: char): (parts: seq<string>)
    ensures |parts| == CountChar(s, c) + 1
    ensures forall i, j :: 0 <= i < |parts| && 0 <= j < |parts[i]| ==> parts[i][j] != c
  {
    if |s| == 0 then [""]
    else
      var rest := SplitOn(s[1..], c);
      if s[0] == c then [""] + rest else [[s[0]] + rest[0]] + rest[1..]
  }

  /** A text without the separator splits into itself alone. */
  lemma {:induction false} SplitOnAbsent(s: string, c: char)
    requires c !in s
    ensures SplitOn(s, c) == [s]
  {
    if |s| > 0 {
      SplitOnAbsent(s[1..], c);
      assert [s[0]] + s[1..] == s;
    }
  }

  /** A text with one separator splits into the two sides of it. */
  lemma {:induction false} SplitOnPair(a: string, b: string, c: char)
    requires c !in a && c !in b
    ensures SplitOn(a + [c] + b, c) == [a, b]
  {
    var s := a + [c] + b;
    if |a| == 0 {
      assert s[1..] == b;
      SplitOnAbsent(b, c);
    } else {
      assert s[1..] == a[1..] + [c] + b;
      SplitOnPair(a[1..], b, c);
      assert [a[0]] + a[1..] == a;
    }
  }

  /** The inverse of `SplitOn`: `c.join(parts)`. */
  function JoinWith(parts: seq<string>, c: char): string
    requires |parts| > 0
  {
    if |parts| == 1 then parts[0] else parts[0] + [c] + JoinWith(parts[1..], c)
  }

  /** Splitting on a character and joining again gives back the string. */
  lemma {:induction false} SplitJoin(s: string, c: char)
    ensures JoinWith(SplitOn(s, c), c) == s
  {
    if |s| > 0 {
      SplitJoin(s[1..], c);
      var rest := SplitOn(s[1..], c);
      if s[0] == c {
        assert SplitOn(s, c) == [""] + rest;
        assert ([""] + rest)[1..] == rest;
      } else {
        var parts := SplitOn(s, c);
        assert parts == [[s[0]] + rest[0]] + rest[1..];
        if |rest| == 1 {
        } else {
          assert parts[1..] == rest[1..];
          assert JoinWith(rest, c) == rest[0] + [c] + JoinWith(rest[1..], c);
        }
      }
    }
  }

  lemma {:induction false} CountCharAppend(a: string, b: string, c: char)
    ensures CountChar(a + b, c) == CountChar(a, c) + CountChar(b, c)
    decreases |a|
  {
    if |a| > 0 {
      assert (a + b)[1..] == a[1..] + b;
      CountCharAppend(a[1..], b, c);
    } else {
      assert a + b == b;
    }
  }

  lemma {:induction false} CountCharAbsent(s: string, c: char)
    requires forall i :: 0 <= i < |s| ==> s[i] != c
    ensures CountChar(s, c) == 0
    decreases |s|
  {
    if |s| > 0 { CountCharAbsent(s[1..], c); }
  }

  lemma {:induction false} CountCharPositive(s: string, c: char)
    ensures CountChar(s, c) > 0 <==> c in s
    decreases |s|
  {
    if |s| > 0 {
      CountCharPositive(s[1..], c);
      assert c in s <==> s[0] == c || c in s[1..];
    }
  }

  // ---------------------------------------------------------------------
  // Integers: str(int) and int(str)

  /** Decimal digits of `n`, without leading zeros. */
  function DigitsOf(n: nat): (s: string)
    ensures |s| >= 1 && AllDigits(s)
    ensures s[0] == '0' ==> n == 0
    ensures n < 10 <==> |s| == 1
  {
    if n < 10 then [DigitChar(n)] else DigitsOf(n / 10) + [DigitChar(n % 10)]
  }

  function DigitsValue(s: string): nat
    requires AllDigits(s)
  {
    if |s| == 0 then 0 else DigitsValue(s[..|s| - 1]) * 10 + DigitValue(s[|s| - 1])
  }

  lemma {:induction false} DigitsRoundTrip(n: nat)
    ensures DigitsValue(DigitsOf(n)) == n
  {
    if n >= 10 {
      DigitsRoundTrip(n / 10);
      var s := DigitsOf(n);
      assert s[..|s| - 1] == DigitsOf(n / 10);
    }
  }

  /** Python's `str(n)`. */
  function IntToString(n: int): (s: string)
    ensures |s| >= 1
  {
    if n < 0 then "-" + DigitsOf(-n) else DigitsOf(n)
  }

  /** Python's `int(s)` on text: surrounding whitespace, an optional sign, then ASCII digits. */
  function ParseInt(s: string): Option<int> {
    var t := Trim(s);
    if |t| > 0 && (t[0] == '+' || t[0] == '-') then
      (if |t| > 1 && AllDigits(t[1..]) then
         var v: int := DigitsValue(t[1..]);
         Some(if t[0] == '-' then -v else v)
       else None)
    else if |t| > 0 && AllDigits(t) then Some(DigitsValue(t))
    else None
  }

  lemma DigitsNoSpace(s: string)
    requires AllDigits(s)
    ensures NoSpace(s)
  {
    forall i | 0 <= i < |s| ensures !IsSpace(s[i]) {
      assert IsDigit(s[i]);
    }
  }

  /** `int()` of a run of digits. */
  lemma ParseIntOfDigits(d: string)
    requires |d| > 0 && AllDigits(d)
    ensures ParseInt(d) == Some(DigitsValue(d))
  {
    assert IsDigit(d[0]) && IsDigit(d[|d| - 1]);
    TrimOfTrimmed(d);
  }

  /** `int()` of a run of digits after a minus sign. */
  lemma ParseIntOfNegative(d: string)
    requires |d| > 0 && AllDigits(d)
    ensures ParseInt("-" + d) == Some(-(DigitsValue(d) as int))
  {
    var s := "-" + d;
    assert s[1..] == d && s[|s| - 1] == d[|d| - 1];
    assert IsDigit(d[|d| - 1]);
    TrimOfTrimmed(s);
  }

  /** `int("-" + str(m)) == -m`. */
  lemma ParseNegativeDigits(m: nat)
    ensures ParseInt("-" + DigitsOf(m)) == Some(-(m as int))
  {
    DigitsRoundTrip(m);
    ParseIntOfNegative(DigitsOf(m));
  }

  /** `int(str(n)) == n`: the rendering of an integer parses back to it. */
  lemma ParseIntToString(n: int)
    ensures ParseInt(IntToString(n)) == Some(n)
  {
    if n < 0 {
      var m: nat := -n;
      ParseNegativeDigits(m);
      assert IntToString(n) == "-" + DigitsOf(m);
      assert ParseInt("-" + DigitsOf(m)) == Some(n);
    } else {
      var d := DigitsOf(n);
      DigitsRoundTrip(n);
      ParseIntOfDigits(d);
      assert IntToString(n) == d;
    }
  }

  /** `str(n)` never has a leading zero on a longer number, so it is never "00". */
  lemma IntToStringNotDoubleZero(n: int)
    ensures IntToString(n) != "00"
  {
    var s := IntToString(n);
    if n < 0 {
      assert s[0] == '-';
    } else if n < 10 {
      assert |s| == 1;
    } else {
      assert s[0] != '0';
    }
  }

  lemma IntToStringInjective(a: int, b: int)
    ensures IntToString(a) == IntToString(b) <==> a == b
  {
    ParseIntToString(a);
    ParseIntToString(b);
  }
}
