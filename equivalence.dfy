/**
 * The differences the comparison tolerates: `is_ignored_mismatch` with the
 * table of each script, `is_vacation_equivalent`, and the punctuation-blind
 * retest of version 3.2.
 */
module Equivalence {
  import opened Wrappers
  import opened Text

  /**
   * The pairs of `kinmu_compare` 3.2, as written (including the duplicate and
   * the misspelt "ステム未使用期間").  The last entry pairs a text with `None`.
   */
  const Ignored32: seq<(Option<string>, Option<string>)> := [
    (Some("休み"), Some("シフト時間コード-1")),
    (Some("None"), Some("シフト時間コード-1")),
    (Some("フリー"), Some("シフト時間コード2147483647")),
    (Some("退職"), Some("【退職後】")),
    (Some("退職"), Some("退職後")),
    (Some("フリー"), Some("シフト時間コード2147483647")),
    (Some("ステム未使用期間"), Some("【採用前】")),
    (Some("ステム未使用期間"), Some("採用前")),
    (Some("システム未使用期間"), Some("【採用前】")),
    (Some("システム未使用期間"), Some("採用前")),
    (Some("長期休暇：傷病"), Some("【長期休暇】傷病")),
    (Some("長期休暇："), Some("【長期休暇】")),
    (Some("【長期休暇】育児"), Some("長期休暇：育児")),
    (Some("採用前"), Some("【採用前】")),
    (Some("【長期休暇】産後"), Some("長期休暇：産後")),
    (Some("【長期休暇】産前"), Some("長期休暇：産前")),
    (Some("システム未使用期間"), Some("")),
    (Some("システム未使用期間"), Some("None")),
    (Some("システム未使用期間"), None)]

  /** The pairs of `kinmu_compare` 1. */
  const Ignored1: seq<(string, string)> := [
    ("休み", "シフト時間コード-1"),
    ("", "シフト時間コード-1"),
    ("フリー", "シフト時間コード2147483647"),
    ("退職", "【退職後】"),
    ("フリー", "シフト時間コード2147483647"),
    ("【長期休暇】育児", "長期休暇：育児"),
    ("システム未使用期間", "【退職後】"),
    ("【休暇２】6/＊＊＊＊＊＊＊＊＊＊＊＊", "【休暇】6/＊＊＊＊＊＊＊＊＊＊＊＊"),
    ("【休暇２】7/＊＊＊＊＊＊＊＊", "【休暇】7/＊＊＊＊＊＊＊＊")]

  /** The leave terms of the shift script that excuse any difference. */
  const ShiftTerms: seq<string> := ["有給", "振替", "特別", "欠勤", "病気", "介護", "育児", "看護", "公休", "その他"]

  /** The pairs of the shift script. */
  const ShiftPairs: seq<(string, string)> := [
    ("休み", "シフト時間コード-1"),
    ("長期休", "シフト時間コード-1"),
    ("フリー", "シフト時間コード2147483647")]

  /** `is_ignored_mismatch` of version 3.2 on the two texts the chain holds. */
  predicate IgnoredMismatch32(a: string, b: string) {
    (Some(a), Some(b)) in Ignored32 || (Some(b), Some(a)) in Ignored32
  }

  /** `is_ignored_mismatch` of version 1. */
  predicate IgnoredMismatch1(a: string, b: string) {
    (a, b) in Ignored1 || (b, a) in Ignored1
  }

  /** `is_ignored_mismatch` of the shift script: a leave term on either side, or a listed pair. */
  predicate IgnoredMismatchShift(a: string, b: string) {
    a in ShiftTerms || b in ShiftTerms || (a, b) in ShiftPairs || (b, a) in ShiftPairs
  }

  /** A table holding a pair also excuses it the other way round. */
  lemma IgnoredSymmetric(a: string, b: string)
    ensures IgnoredMismatch32(a, b) == IgnoredMismatch32(b, a)
    ensures IgnoredMismatch1(a, b) == IgnoredMismatch1(b, a)
    ensures IgnoredMismatchShift(a, b) == IgnoredMismatchShift(b, a)
  {
  }

  /**
   * A blank V1 cell reaches the 3.2 table as the text "None", so against
   * "システム未使用期間" it is excused; the entry with `None` itself never matches text.
   */
  lemma BlankAgainstUnused(v: string)
    ensures IgnoredMismatch32("None", "システム未使用期間")
    ensures IgnoredMismatch32("システム未使用期間", "None")
    ensures (Some("システム未使用期間"), Some(v)) in Ignored32 <==> v in {"【採用前】", "採用前", "", "None"}
  {
    assert Ignored32[17] == (Some("システム未使用期間"), Some("None"));
  }

  /** A leave term of the shift script excuses a difference with anything. */
  lemma ShiftTermExcuses(a: string, b: string)
    requires a in ShiftTerms
    ensures IgnoredMismatchShift(a, b) && IgnoredMismatchShift(b, a)
  {
  }

  /** `is_vacation_equivalent`: both texts open with "【休暇", or both with "休暇". */
  predicate VacationEquivalent(a: string, b: string) {
    (StartsWith(a, "【休暇") && StartsWith(b, "【休暇")) || (StartsWith(a, "休暇") && StartsWith(b, "休暇"))
  }

  /** Vacation equivalence is symmetric and transitive on its two prefix classes. */
  lemma VacationClasses(a: string, b: string, c: string)
    ensures VacationEquivalent(a, b) == VacationEquivalent(b, a)
    ensures VacationEquivalent(a, b) && VacationEquivalent(b, c) ==> VacationEquivalent(a, c)
  {
    if VacationEquivalent(a, b) && VacationEquivalent(b, c) {
      assert b[..1] == "【" || b[..1] == "休";
      if StartsWith(a, "【休暇") && StartsWith(b, "【休暇") {
        assert b[0] == '【';
        assert !StartsWith(b, "休暇");
      } else {
        assert b[0] == '休';
        assert !StartsWith(b, "【休暇");
      }
    }
  }

  // ---------------------------------------------------------------------
  // re.sub(r'[：【】()（）]', '', v)

  /** The characters the 3.2 retest disregards. */
  predicate Mark(c: char) {
    c == '：' || c == '【' || c == '】' || c == '(' || c == ')' || c == '（' || c == '）'
  }

  /** The text without those characters. */
  function StripMarks(s: string): (r: string)
    ensures |r| <= |s|
    ensures forall i :: 0 <= i < |r| ==> !Mark(r[i])
  {
    if |s| == 0 then "" else (if Mark(s[0]) then "" else [s[0]]) + StripMarks(s[1..])
  }

  lemma {:induction false} StripMarksAppend(a: string, b: string)
    ensures StripMarks(a + b) == StripMarks(a) + StripMarks(b)
  {
    if |a| == 0 {
      assert a + b == b;
    } else {
      assert (a + b)[1..] == a[1..] + b;
      StripMarksAppend(a[1..], b);
    }
  }

  /** Inserting a disregarded character anywhere leaves the retest's view unchanged. */
  lemma StripMarksInsert(a: string, m: char, b: string)
    requires Mark(m)
    ensures StripMarks(a + [m] + b) == StripMarks(a + b)
  {
    StripMarksAppend(a + [m], b);
    StripMarksAppend(a, [m]);
    StripMarksAppend(a, b);
    assert StripMarks([m]) == "";
  }

  /** Stripping twice is stripping once. */
  lemma {:induction false} StripMarksIdempotent(s: string)
    ensures StripMarks(StripMarks(s)) == StripMarks(s)
  {
    if |s| > 0 {
      StripMarksIdempotent(s[1..]);
      StripMarksAppend(if Mark(s[0]) then "" else [s[0]], StripMarks(s[1..]));
    }
  }
}
