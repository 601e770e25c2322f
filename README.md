# Workbook comparison engine

A model of the cell-by-cell comparison at the heart of four Python scripts that
check a converted attendance or shift workbook (V2) against the original (V1):

- `kinmu_compare` version 3.2 (`kinmu.py`);
- `kinmu_compare` version 1 (`kinmu.py`);
- `shift_compare` version 3.1 (`shifuto.py`);
- `kinmu_report` version 1 (`report.py`).

Each script pairs the visible sheets of the two workbooks by their cleaned
titles, that is, the title without its leading numbering. It then walks the
cells of each pair.

The three comparison scripts work the same way.

- Both values go through `normalize_value`: blanks and "not set" literals become
  `None`, dates are parsed and integral numbers are written as integers.
- A fixed chain of rules then decides on each pair. The rules cover blanks,
  dates, times, vacation notes, time ranges and finally the literal text, with
  a table of tolerated differences.
- Each mismatch paints the V2 cell yellow and adds one to a counter. An
  exception raised inside the cell loop also adds one.
- The answer is 'X' when anything was counted, or when no title is shared, and
  'O' otherwise.

The scripts differ as follows.

- **Version 3.2** adds several steps of its own:
  - It offsets V1's rows once V1 shows more data rows than V2 (the rows before
    the "計" totals row). The offset can switch on only in rows 38 to 40.
  - It skips rows that name "時間休" twice.
  - It writes overlapping leave and outing ranges into V1's columns N and O.
  - It copies V2's row into V1 when V1's column D is empty.
  - It moves V1's column when V2's cell (8, 21) holds "申請書".
- **The shift script** pairs rows by the key in column E instead of by row number.
- **The report** paints nothing. It lists a record for every compared cell pair
  whose normalised values differ.

## How the model is built

Pure helpers are Dafny functions, each with lemmas about what it means.

- `Text` and `Values` model the Python string and number operations the
  scripts use.
- `Strptime` models `strptime`/`strftime` for the formats involved.
- `Times`, `Dates` and `Equivalence` model the time, date and
  tolerated-difference helpers.
- `Columns` holds the column maps.
- `Sheets` holds the sheet class and the title matching.
- `Normalize` holds the three copies of `normalize_value`.

The rule chains are functions in `Chain`. The lemmas about them are in
`ChainFacts`.

Each walk is a method over `Sheets.Sheet` objects:

- `Kinmu32` and `Kinmu1` for the two `kinmu_compare` versions;
- `Shift` for the shift script;
- `Report` for the report.

A `Sheet` holds its cells, its fills (the painted cells) and the
`max_row`/`max_column` dimensions. Reads through `cell()` grow the dimensions,
as openpyxl's do.

Each walk is proved equal to a specification function of the old state, such as
the fills painted, the mismatches counted and V1's grid after the writes. Lemmas
then state what that function means: which cells are painted, that every count
is a cell the chain did not pass, that V2's values never change, and that a
silent walk paints nothing.

The loop over the common titles is a method as well. `Sheets.MatchSheets`
lists each common title once, with its two sheets. Each script's `CompareEach`
runs the pair walk on them one after another. Its `CompareWorkbooks` states,
for every common title, the state both sheets end in and the verdict that
results. `AllSilentPass` turns "no walk counts" into a statement about the
cells the chain judges.

The walks take the cell judgement as a parameter. Only the top-level
`CompareExcelFiles` of each script plugs in that script's chain.

Where the comments or the design disagree with the code, the model follows the
code:

- Columns 27 to 29 of the "勤務表" table map to themselves.
- The "smart quote" replacements of `normalize_value` all remove the plain
  double quote.
- A blank side in version 3.2 reaches the later rules as the text "None".
- The data-row count counts every row before "計".
- The off-duty-time skip and the column-17 rule of version 3.2 can never fire,
  because `normalize_time_format` never yields "00:00" (`ChainFacts.OutTimeDormant`).
- The bare `break` for column D never happens (`ChainFacts.BlankDayNeverEnds`).
- The numeric text "0.0" normalises to "0", while the number 0 and the text "0"
  normalise to `None`.
- A shift file whose name lacks "シフト" compares no column, so it always
  answers 'O' when a title is shared.
- In the shift script a matched key is removed from the index, so only the
  first V2 row carrying a key is compared.

## Model

| member | source | states |
|---|---|---|
| Text.Trim | kinmu_compare/version-3.2/kinmu.py:685 | `strip()`: the result has no whitespace at either end, is empty exactly when the input is all whitespace, and leaves whitespace-free text alone |
| Text.Words | kinmu_compare/version-3.2/kinmu.py:684 | `split()`: non-empty whitespace-free words, none at all exactly for all-whitespace text |
| Text.CollapseShape | kinmu_compare/version-3.2/kinmu.py:684-685 | `' '.join(v.split())` is trimmed, holds only single plain spaces, keeps every non-whitespace character in order, and is empty exactly for all-whitespace text |
| Text.CollapseOfCollapsed | kinmu_compare/version-3.2/kinmu.py:684 | text already in that form is left alone |
| Text.RemoveChar | kinmu_compare/version-3.2/kinmu.py:678-682 | `replace(c, "")` leaves no `c`, adds no character, and changes nothing when `c` is absent |
| Text.RemoveAllAbsent | kinmu_compare/version-3.2/kinmu.py:677 | removing `_x000D_` from text that lacks it changes nothing |
| Text.SplitOnPair | kinmu_compare/version-3.2/kinmu.py:124 | `split('~')` of a text with one separator gives its two sides |
| Text.SplitJoin | kinmu_compare/version-3.2/kinmu.py:89-92 | splitting on a character and joining again gives the text back |
| Text.ParseIntToString | kinmu_compare/version-3.2/kinmu.py:91 | `int(str(n)) == n` |
| Text.IntToStringInjective | kinmu_compare/version-3.2/kinmu.py:717 | `str()` of integers is injective |
| Text.IntToStringNotDoubleZero | kinmu_compare/version-3.2/kinmu.py:91 | `str(int(h))` is never "00" |
| Values.ParseDecimal | kinmu_compare/version-3.2/kinmu.py:714-719 | `float()` reads only sign, digits and at most one point; the fraction it returns is digits |
| Values.ParseDecimalOfIntToString | kinmu_compare/version-3.2/kinmu.py:714-717 | the text of an integer reads back as that integer with no fraction |
| Values.CanonicalIntegral | kinmu_compare/version-3.2/kinmu.py:670-671 | a float is integral exactly when its canonical form has no fraction |
| Values.DaysInMonth | kinmu_compare/version-3.2/kinmu.py:709 | the day bound `strptime` checks: 28 to 31, and 29 exactly for February of a leap year |
| Values.RenderDateLength | kinmu_compare/version-3.2/kinmu.py:674 | `str()` of a datetime is nineteen characters |
| Strptime.ParseStrftime | kinmu_compare/version-3.2/kinmu.py:699-711 | `strptime` with a full date format reads back every datetime `strftime` wrote with it |
| Strptime.ParseNeedsSeparator | kinmu_compare/version-3.2/kinmu.py:700-705 | a format opening with a year and a separator rejects text without that separator after four digits |
| Strptime.StrftimeDashDateTime | kinmu_compare/version-3.2/kinmu.py:674 | `str()` of a datetime is `strftime('%Y-%m-%d %H:%M:%S')` |
| Strptime.StrftimeShape | kinmu_compare/version-3.2/kinmu.py:684-687 | what `strftime` writes for the formats used is already clean: single plain spaces, no quotes, underscores or parentheses |
| Times.NormalizeTime | kinmu_compare/version-3.2/kinmu.py:75-102 | `normalize_time_format`: colon-free text is kept; `None` where the hour is not an integer or there are three or more colons |
| Times.NormalizeTimeNotDoubleZero | kinmu_compare/version-3.2/kinmu.py:75-102 | the rule never yields "00:00" |
| Times.NormalizeTimeIdempotent | kinmu_compare/version-3.2/kinmu.py:75-102 | a second pass of the rule changes nothing |
| Times.DropSeconds | kinmu_compare/version-3.2/kinmu.py:89-90 | `H:M:S` loses its seconds |
| Times.NormalizeClockText | kinmu_compare/version-3.2/kinmu.py:75-102 | `str()` of an Excel time, `HH:MM:SS`, becomes `H:MM` |
| Times.NormalizeClock | kinmu_compare/version-3.2/kinmu.py:75-102 | zero-padded `HH:MM` and `H:MM` both normalise to `H:MM` |
| Times.ColonFreeTime | kinmu_compare/version-3.2/kinmu.py:97-102 | text without a colon is returned unchanged |
| Times.IsTimeStringOfClock | kinmu_compare/version-3.2/kinmu.py:205-229 | every clock reading written `H:MM` or `HH:MM` is a time string |
| Times.IsTimeStringExamples | shift_compare/version-3.1-latest/shifuto.py:190-214 | "830" and "1430" are time strings, "2400" is not |
| Times.DigitTime | shift_compare/version-3.1-latest/shifuto.py:190-214 | three or four digits are a time string exactly when hour is at most 23 and minute at most 59 |
| Times.PlainTextNotTime | kinmu_compare/version-3.2/kinmu.py:205-229 | colon-free text with a character other than a digit, colon or whitespace is not a time and does not raise |
| Times.IsTimeStringRaises | kinmu_compare/version-3.2/kinmu.py:205-214 | text with one colon whose left side is not an integer makes `is_time_string` raise |
| Times.CompareTimeValuesMeaning | kinmu_compare/version-3.2/kinmu.py:313-328 | version 3.2's `compare_time_values` never raises and holds exactly for two equal clock readings |
| Times.CompareTimeValuesStrictMeaning | kinmu_compare/version-1/kinmu.py:321-335 | version 1's comparison raises exactly where a reading fails to normalise, and otherwise agrees with version 3.2 |
| Times.TimeMatchesClockText | kinmu_compare/version-1/kinmu.py:321-335 | an Excel time and its `H:MM` or `HH:MM` text compare equal |
| Times.UnifyDashes | kinmu_compare/version-3.2/kinmu.py:104-109 | both wave dashes become `~`, and the result is trimmed |
| Times.UnifyRange | kinmu_compare/version-3.2/kinmu.py:104-109 | two dash-free ends joined by any wave dash unify to a `~` range that splits back into them |
| Times.FormatPaddedRange | kinmu_compare/version-3.2/kinmu.py:111-125 | a padded clock range formats to `H:MM~H:MM` in every copy |
| Times.PaddedRangeNotTime | kinmu_compare/version-3.2/kinmu.py:205-229 | a padded range is never a time string |
| Times.ClockPartsCompare | kinmu_compare/version-3.2/kinmu.py:127-139 | `compare_time_parts` on two clock texts holds exactly when hour and minute agree, and never raises |
| Times.CompareTimePartsNormalized | kinmu_compare/version-3.2/kinmu.py:127-139 | the part comparison is equality after `normalize_time_format`, and raises exactly where that does |
| Times.ClockMinutes | kinmu_compare/version-3.2/kinmu.py:748-751 | `strptime(t, "%H:%M")` gives a minute of the day |
| Times.TimesOverlap | kinmu_compare/version-3.2/kinmu.py:743-758 | an overlap needs both ranges present |
| Times.TimesOverlapShares | kinmu_compare/version-3.2/kinmu.py:743-758 | two ranges overlap exactly when both parse and some minute lies in both, so the later start is before the earlier end |
| Times.TouchingRangesApart | kinmu_compare/version-3.2/kinmu.py:743-758 | ranges that only touch do not overlap, either way round |
| Times.TimesOverlapSymmetric | kinmu_compare/version-3.2/kinmu.py:743-758 | the test does not depend on the order of the ranges |
| Times.ClockRangesOverlap | kinmu_compare/version-3.2/kinmu.py:743-758 | two formatted clock ranges overlap exactly when their minute spans do |
| Dates.FirstParse | kinmu_compare/version-3.2/kinmu.py:176-185 | the first format in the list that parses the text, and `None` exactly when none does |
| Dates.SearchDate | kinmu_compare/version-3.2/kinmu.py:188-197 | `re.search` for a `YYYY[-/]M[-/]D` date finds a four-digit year and month and day below 100 |
| Dates.DatePart | kinmu_compare/version-3.2/kinmu.py:165-203 | a datetime gives its `YYYY/MM/DD`; text gives that shape or is left as it is |
| Dates.DatePartAgrees | kinmu_compare/version-1/kinmu.py:151-189 | a datetime, its `str()` and its `YYYY/MM/DD` text have the same date part, and the time of day is ignored |
| Dates.RenderNotDatetimeString | kinmu_compare/version-3.2/kinmu.py:141-163 | `str()` of a datetime, written with dashes, is not a datetime string |
| Dates.SlashDateTextSettled | kinmu_compare/version-3.2/kinmu.py:141-203 | `YYYY/MM/DD` text is a datetime string and is its own date part |
| Dates.DatePartOfNotedDate | kinmu_compare/version-3.2/kinmu.py:165-203 | a date followed by a note, as in `2024/01/05(金)`, is no datetime string but still reduces to the date |
| Equivalence.IgnoredSymmetric | kinmu_compare/version-3.2/kinmu.py:760-787 | each script's `is_ignored_mismatch` is symmetric |
| Equivalence.BlankAgainstUnused | kinmu_compare/version-3.2/kinmu.py:764-787 | "None" against "システム未使用期間" is excused, and the table's entries for that term are exactly the ones listed |
| Equivalence.ShiftTermExcuses | shift_compare/version-3.1-latest/shifuto.py:578-597 | a leave term of the shift script on either side excuses the pair |
| Equivalence.VacationClasses | kinmu_compare/version-3.2/kinmu.py:789-795 | `is_vacation_equivalent` is symmetric and transitive on its two prefix classes |
| Equivalence.StripMarksInsert | kinmu_compare/version-3.2/kinmu.py:638 | inserting one of `：【】()（）` anywhere leaves the retest's view unchanged |
| Equivalence.StripMarksIdempotent | kinmu_compare/version-3.2/kinmu.py:638 | stripping those characters twice is stripping them once |
| Columns.KinmuColumns | kinmu_compare/version-3.2/kinmu.py:231-277 | the "勤務表" band table column by column (1–12 kept, 13 skipped, 14–26 shifted by one, 27–29 kept, 30 from 26, 31–33 shifted, 34 on skipped), and `(c, c)` for any other name |
| Columns.KinmuColumnsV2 | kinmu_compare/version-1/kinmu.py:241-286 | the V2 column is always the walked column, and the V1 column never lies after it |
| Columns.ApplicationShift | kinmu_compare/version-3.2/kinmu.py:493-504 | the "申請書" displacement: +6 for V2 columns 22–24, 26 for 25, +4 from 27, +5 for 21 and 26, only from row 8 with the marker in V2 cell (8, 21) |
| Columns.MarkedColumns | kinmu_compare/version-3.2/kinmu.py:487-504 | the V1 column compared with each V2 column 21–33 of a marked "勤務表" sheet |
| Columns.ShiftColumns | shift_compare/version-3.1-latest/shifuto.py:240-257 | a column is compared exactly when the name holds "シフト" and the column is before 39, one to one |
| Columns.ReportColumnsAgree | kinmu_report/version-1/report.py:22-35 | the report's map equals the band table on every column, including 30 from 26 |
| Columns.ColumnList | kinmu_report/version-1/report.py:97-102 | the precomputing loop yields the 0-based pairs of the kept columns |
| Columns.ColumnPairsMembers | kinmu_report/version-1/report.py:97-102 | a pair is listed exactly when some column up to `max_col` maps to it |
| Columns.ColumnPairsIncreasing | kinmu_report/version-1/report.py:97-102 | the listed V2 columns strictly increase and stay below `max_col` |
| Sheets.Sheet.constructor | kinmu_compare/version-3.2/kinmu.py:339-340 | a loaded sheet starts with no fills |
| Sheets.Sheet.Put | kinmu_compare/version-3.2/kinmu.py:477-478 | writing a value changes that cell only and grows the dimensions to cover it |
| Sheets.Sheet.Highlight | kinmu_compare/version-3.2/kinmu.py:543 | painting a V2 cell adds it to the fills and keeps every value |
| Sheets.Sheet.Touch | kinmu_compare/version-3.2/kinmu.py:423-425 | reading a cell leaves values and fills but grows the dimensions to cover it |
| Sheets.CleanTitle | kinmu_compare/version-3.2/kinmu.py:303-311 | the title without its leading run of digits, dots, underscores and hyphens |
| Sheets.CleanTitleNumbered | kinmu_compare/version-3.2/kinmu.py:303-311 | any numbering in front of a title is disregarded |
| Sheets.CleanTitleIdempotent | kinmu_compare/version-3.2/kinmu.py:303-311 | cleaning a cleaned title changes nothing |
| Sheets.TitleIndexMeaning | kinmu_compare/version-3.2/kinmu.py:365-366 | the dictionary of cleaned titles names visible sheets only, and holds every visible sheet's cleaned title with that sheet or a later one |
| Sheets.CommonNamesMeaning | kinmu_compare/version-3.2/kinmu.py:369 | a name is common exactly when each workbook has a visible sheet with that cleaned title |
| Sheets.Dict | kinmu_compare/version-3.2/kinmu.py:365-366 | each key is the cleaned title of a visible sheet, mapped to a visible sheet of the workbook with that title; the keys are exactly the cleaned titles of the visible sheets |
| Sheets.Enumerate | kinmu_compare/version-3.2/kinmu.py:369-377 | the loop visits every common title exactly once, and visits none only when there is none |
| Sheets.MatchSheets | kinmu_compare/version-3.2/kinmu.py:365-382 | the common titles in the order the loop visits them, each with the V1 and the V2 sheet the two dictionaries name for it |
| Sheets.Apart | kinmu_compare/version-3.2/kinmu.py:377-382 | when no sheet is in both workbooks, no V1 sheet of a pair is a V2 sheet and no sheet is matched under two titles |
| Normalize.NormalizeKinmu | kinmu_compare/version-3.2/kinmu.py:657-721 | `normalize_value` of kinmu_compare: blank and whitespace-only cells give `None`, a datetime is returned as it is, and any text result is non-empty, trimmed, free of CR, LF and quotes, and has no two whitespace characters in a row |
| Normalize.NormalizeShift | shift_compare/version-3.1-latest/shifuto.py:495-557 | the same for the shift script's copy |
| Normalize.NormalizeReport | kinmu_report/version-1/report.py:40-71 | the report's copy: the same, except whitespace is not collapsed and a non-integral number stays a float |
| Normalize.NormalizeNone | kinmu_compare/version-3.2/kinmu.py:690-697 | each copy gives `None` exactly for a blank cell and for text that cleans to "" or to "0", "0:00", "00:00:00" or "12:00:00午前" |
| Normalize.NormalizeInteger | kinmu_compare/version-3.2/kinmu.py:668-671 | an integer cell, an integral float and the integer's text normalise alike to the integer's text, and zero to `None`, in every copy |
| Normalize.NormalizeIntegralText | kinmu_compare/version-3.2/kinmu.py:713-717 | numeric text with a zero fraction ("12.0") gives the integer's text, so "0.0" gives "0" although 0 gives `None` |
| Normalize.NormalizeDateText | kinmu_compare/version-3.2/kinmu.py:699-711 | the text of a datetime normalises to the datetime itself |
| Normalize.NormalizeClockCell | kinmu_compare/version-3.2/kinmu.py:694-697 | a time cell gives its `HH:MM:SS` text, except midnight, which is "not set" |
| Normalize.EmptyMeansBlankLike | kinmu_compare/version-3.2/kinmu.py:622-623 | column D's emptiness test agrees with the normaliser's blank test on every cell |
| Normalize.ParenRuleIdempotent | kinmu_compare/version-3.2/kinmu.py:687 | the removal of whitespace between `H:MM` and `(` is idempotent |
| Normalize.ParenRuleNoParen | kinmu_compare/version-3.2/kinmu.py:687 | text without `(` is left alone by that rule |
| Normalize.ParenRuleChars | kinmu_compare/version-3.2/kinmu.py:687 | every character the rule leaves was in its input |
| Normalize.CollapseTidy | kinmu_compare/version-3.2/kinmu.py:684-685 | collapsing and trimming quote-free text leaves it tidy, or empty exactly when it was all whitespace |
| Normalize.NormalizeKinmuIdempotent | kinmu_compare/version-3.2/kinmu.py:657-721 | normalising the text of a normalised value gives the value back, unless the text is "0" or holds `_x000D_` |
| Normalize.NormalizeShiftIdempotent | shift_compare/version-3.1-latest/shifuto.py:495-557 | the same for the shift copy |
| Normalize.NormalizeReportIdempotent | kinmu_report/version-1/report.py:40-71 | the same for the report copy |
| Normalize.RenormalizeInt | kinmu_compare/version-3.2/kinmu.py:713-717 | the text of a non-zero integer normalises to itself in every copy |
| Chain.DateRule | kinmu_compare/version-3.2/kinmu.py:534-546 | when either side is date-like the rule decides, by comparing date parts; otherwise both sides are text |
| Chain.TimeRule | kinmu_compare/version-3.2/kinmu.py:548-557 | when the time rule answers, it passes, flags or fails and never stops the row; what it answers is stated by ChainFacts.ClocksByMinute and ChainFacts.IdenticalNotesFail |
| Chain.RangeRule | kinmu_compare/version-3.2/kinmu.py:564-578 | when the range rule answers, it passes, flags or fails; what it answers is stated by ChainFacts.PaddedRangesCompare |
| Chain.OtherDayRule | kinmu_compare/version-3.2/kinmu.py:521-526 | the "その他(一日)" rule answers only with a verdict; ChainFacts.OtherDayOnly states it concerns only that text |
| Chain.LeaveRule | kinmu_compare/version-3.2/kinmu.py:580-596 | the column-5 overlap rule answers only with a verdict, never a row stop |
| Chain.Literal32 | kinmu_compare/version-3.2/kinmu.py:633-640 | the last rule of version 3.2 always gives a verdict; ChainFacts.MarksDisregarded, ChainFacts.ExcusedLiteral and ChainFacts.Literal32Symmetric state what it is |
| Chain.Rules32 | kinmu_compare/version-3.2/kinmu.py:514-646 | only column D may end the row: a copy when V1's D is empty and V2's is not, a bare stop when both are empty |
| Chain.Cell32 | kinmu_compare/version-3.2/kinmu.py:484-646 | one cell of version 3.2, with the same guarantee about column D |
| Chain.RulesStrict | kinmu_compare/version-1/kinmu.py:417-482 | version 1's chain always passes, flags or fails |
| Chain.Cell1 | kinmu_compare/version-1/kinmu.py:404-487 | one cell of version 1 always passes, flags or fails |
| Chain.CellShift | shift_compare/version-3.1-latest/shifuto.py:396-481 | one cell of the shift script always passes, flags or fails |
| ChainFacts.OneBlankFlags | kinmu_compare/version-1/kinmu.py:424-428 | version 1 and the shift script flag a pair with exactly one blank side |
| ChainFacts.BlankAgainstExcused | kinmu_compare/version-3.2/kinmu.py:522-640 | version 3.2 excuses a blank V1 cell against "システム未使用期間" outside columns 4 and 5 |
| ChainFacts.OutTimeDormant | kinmu_compare/version-3.2/kinmu.py:452-465 | neither the row skip nor the column-17 rule of version 3.2 can fire |
| ChainFacts.BlankDayNeverEnds | kinmu_compare/version-3.2/kinmu.py:617-630 | the bare `break` of column D never happens |
| ChainFacts.DatesByDay | kinmu_compare/version-1/kinmu.py:437-448 | between two datetimes every chain passes the same day and flags another |
| ChainFacts.NotedDatePasses | kinmu_compare/version-3.2/kinmu.py:534-546 | a datetime against its day followed by a note passes in every chain, either way round |
| ChainFacts.ClocksByMinute | kinmu_compare/version-1/kinmu.py:451-459 | between two clock texts every chain passes the same hour and minute and flags any other |
| ChainFacts.ClockCellAgainstText | kinmu_compare/version-1/kinmu.py:451-459 | a time cell against its `H:MM` text passes in every chain |
| ChainFacts.RangesByClock | kinmu_compare/version-1/kinmu.py:462-475 | between two padded ranges every chain compares the clocks only, whatever dash each uses |
| ChainFacts.PaddedRangesCompare | kinmu_compare/version-3.2/kinmu.py:564-578 | the range rule on two padded ranges passes the same clocks and flags any other |
| ChainFacts.VacationPasses | kinmu_compare/version-3.2/kinmu.py:559-562 | version 3.2 passes two vacation texts of the same class |
| ChainFacts.IdenticalNotesFail | kinmu_compare/version-3.2/kinmu.py:643-646 | identical text such as "備考:早退" on both sides makes `is_time_string` raise, so every chain counts a mismatch |
| ChainFacts.MarksDisregarded | kinmu_compare/version-3.2/kinmu.py:638 | version 3.2's last rule passes text that differs only by one of `：【】()（）` |
| ChainFacts.Literal32Symmetric | kinmu_compare/version-3.2/kinmu.py:633-640 | version 3.2's last rule does not depend on the order of the texts |
| ChainFacts.RulesStrictSymmetric | kinmu_compare/version-1/kinmu.py:417-482 | the chain of version 1 and the shift script gives the same step whichever file is V1 |
| ChainFacts.OtherDayOnly | kinmu_compare/version-3.2/kinmu.py:521-526 | the "その他(一日)" rule is only about that text |
| ChainFacts.OtherDayPasses | kinmu_compare/version-3.2/kinmu.py:521-526 | a blank V1 cell against "その他(一日)" passes exactly when both cells to the left hold "休み" |
| ChainFacts.ExcusedLiteral | kinmu_compare/version-3.2/kinmu.py:633-640 | version 3.2's last rule passes a pair its ignore table excuses |
| ChainFacts.TimesStayOut | kinmu_compare/version-3.2/kinmu.py:548-557 | two texts that are not times keep the time rule out |
| Kinmu32.BaseName | kinmu_compare/version-3.2/kinmu.py:334 | the file name is the last path component and holds no `/` |
| Kinmu32.RowsBeforeMeaning | kinmu_compare/version-3.2/kinmu.py:395-400 | the counting loop's result is the length of the run of rows without a stop |
| Kinmu32.DataRowsMeaning | kinmu_compare/version-3.2/kinmu.py:394-407 | rows 10 to 9 + n hold no "計" in column C, and row 10 + n does or lies past `max_row` |
| Kinmu32.CountDataRows | kinmu_compare/version-3.2/kinmu.py:394-407 | the loop computes that count |
| Kinmu32.SkipOffset | kinmu_compare/version-3.2/kinmu.py:410 | `skipped_row` is positive exactly when V1 has more data rows, and brings V2's count up to the larger one |
| Kinmu32.RowPair | kinmu_compare/version-3.2/kinmu.py:416-436 | the offset is on after row `row` exactly when it was on, or `row` is 38 to 40 with V1's column C blank and V2's not; V1's row is then `row + skipped_row`, otherwise `row` |
| Kinmu32.PairRows | kinmu_compare/version-3.2/kinmu.py:419-436 | the window reads give that pairing and only grow the dimensions |
| Kinmu32.OverlapCopyFrame | kinmu_compare/version-3.2/kinmu.py:467-482 | the overlap copy writes nothing but columns N and O of V1's row |
| Kinmu32.OverlapCopyShares | kinmu_compare/version-3.2/kinmu.py:467-482 | after a copy, columns N and O hold two ranges that parse and share a minute |
| Kinmu32.CopyRowIntoMeaning | kinmu_compare/version-3.2/kinmu.py:624-626 | after the column-D copy, V1's row reads as V2's row in columns 1 to `col_max`, and nothing else changes |
| Kinmu32.CopyRow | kinmu_compare/version-3.2/kinmu.py:625-626 | the copy loop computes that grid |
| Kinmu32.PaintsLoopColumn | kinmu_compare/version-3.2/kinmu.py:543 | a cell version 3.2 does not pass lies in the loop's own V2 column |
| Kinmu32.ColumnsFromCopy | kinmu_compare/version-3.2/kinmu.py:617-630 | the row is copied only when V1's column D is empty and V2's is not |
| Kinmu32.Row32Facts | kinmu_compare/version-3.2/kinmu.py:443-646 | a row paints only compared cells of V2's row, each one counted, and changes only V1's paired row |
| Kinmu32.RowsFromFacts | kinmu_compare/version-3.2/kinmu.py:416-646 | the walk only adds to the count, paints only compared cells, and once the offset is on it stays on |
| Kinmu32.PairWalkSilent | kinmu_compare/version-3.2/kinmu.py:416-646 | a sheet pair that counts no mismatch paints no cell |
| Kinmu32.RowsFromFills | kinmu_compare/version-3.2/kinmu.py:416-646 | what the walk paints does not depend on the cells V2 had painted before; it only adds to them |
| Kinmu32.StopColumn | kinmu_compare/version-3.2/kinmu.py:617-630 | the column where the column loop breaks: the first one judged to copy or stop the row (or past `col_max`), every column before it a verdict |
| Kinmu32.ColumnsFromSilent | kinmu_compare/version-3.2/kinmu.py:484-646 | the column loop paints exactly the cells judged `Flag` before it breaks, and counts nothing exactly when every column before the break passes |
| Kinmu32.Row32Silent | kinmu_compare/version-3.2/kinmu.py:443-646 | a row counts nothing exactly when it is skipped or every column before the break passes, on V1's row after the overlap copy; it paints exactly those `Flag` cells |
| Kinmu32.AdvanceSilent | kinmu_compare/version-3.2/kinmu.py:416-646 | one pass of the row loop counts nothing exactly when the row fails the bounds test or its pair of rows passes |
| Kinmu32.RowsFromSilent | kinmu_compare/version-3.2/kinmu.py:416-646 | the walk counts nothing exactly when every row passes in the state the walk has when it reaches that row |
| Kinmu32.CompareColumns | kinmu_compare/version-3.2/kinmu.py:484-646 | the column loop's fills, count and V1 row are those of the column walk |
| Kinmu32.CompareRow | kinmu_compare/version-3.2/kinmu.py:443-646 | the two skip tests, the overlap copy and the columns give the row's grid, fills and count |
| Kinmu32.WalkRow | kinmu_compare/version-3.2/kinmu.py:416-646 | one pass of the row loop is one step of the walk |
| Kinmu32.ComparePair | kinmu_compare/version-3.2/kinmu.py:387-646 | one sheet pair gives the walk's count, fills and V1 grid; V2's values never change |
| Kinmu32.CompareWorkbooks | kinmu_compare/version-3.2/kinmu.py:347-651 | 'X' with no common title; otherwise 'O' exactly when no matched pair's walk counts a mismatch, and 'X' exactly when the count is positive. For each common title, V1's sheet ends with its walk's cells and `max_row` and keeps its fills; V2's sheet keeps its values, takes the walk's `max_row` and gains exactly the walk's fills |
| Kinmu32.CompareExcelFiles | kinmu_compare/version-3.2/kinmu.py:330-651 | under version 3.2's rules for the first file's name: 'O' exactly when a title is shared and every matched pair passes, that is every row compared has each column judged before the loop breaks passing; each pair's sheets end as its walk leaves them |
| Kinmu32.CountedSilent | kinmu_compare/version-3.2/kinmu.py:377-649 | `mismatch_found`, summed over the pairs, is 0 exactly when each pair counts 0 |
| Kinmu32.PairSheets | kinmu_compare/version-3.2/kinmu.py:365-382 | the pairs the loop visits: each common title once, with its V1 and V2 sheets, all of them distinct sheets; their counts sum to 0 exactly when no title's walk counts |
| Kinmu32.AllSilentPass | kinmu_compare/version-3.2/kinmu.py:377-649 | no matched pair's walk counts a mismatch exactly when every matched pair passes row by row |
| Kinmu32.CompareEach | kinmu_compare/version-3.2/kinmu.py:377-647 | the loop over the pairs: the count is the sum of the walks' counts; each V1 sheet ends with its walk's cells and `max_row`, and each V2 sheet keeps its values, takes its walk's `max_row` and gains its walk's fills |
| Kinmu1.Judge1Column | kinmu_compare/version-1/kinmu.py:404-412 | a cell the chain does not pass is read from the loop's V2 column |
| Kinmu1.ColumnsFromMeaning | kinmu_compare/version-1/kinmu.py:403-487 | one row paints exactly the cells judged `Flag` and counts one mismatch for each `Flag` or `Fail` |
| Kinmu1.RowsFromMeaning | kinmu_compare/version-1/kinmu.py:402-487 | the whole walk paints exactly the `Flag` cells and counts each `Flag` or `Fail` |
| Kinmu1.RowsFromSilent | kinmu_compare/version-1/kinmu.py:402-490 | the walk counts nothing exactly when every compared cell pair passes |
| Kinmu1.CompareRow | kinmu_compare/version-1/kinmu.py:403-487 | the column loop of one row computes that row's fills and count |
| Kinmu1.ComparePair | kinmu_compare/version-1/kinmu.py:394-487 | one sheet pair walked over the larger `max_row` and `max_column` computes the walk's fills and count |
| Kinmu1.CompareWorkbooks | kinmu_compare/version-1/kinmu.py:372-492 | 'X' with no common title; otherwise 'O' exactly when no matched pair's walk counts a mismatch, and 'X' exactly when the count is positive. V1 is untouched; for each common title, V2's sheet keeps its values and gains exactly its walk's fills |
| Kinmu1.CompareExcelFiles | kinmu_compare/version-1/kinmu.py:337-492 | under version 1's chain for the first file's name: 'O' exactly when a title is shared and every cell pair of every matched sheet pair, up to the larger `max_row` and `max_column`, passes the chain; V2's sheets gain exactly their walks' fills |
| Kinmu1.AllSilentPass | kinmu_compare/version-1/kinmu.py:384-490 | with a judgement that only gives verdicts, no matched pair's walk counts exactly when every cell pair of every matched pair passes |
| Kinmu1.CountedSilent | kinmu_compare/version-1/kinmu.py:384-490 | `mismatch_found`, summed over the pairs, is 0 exactly when each pair counts 0 |
| Kinmu1.PairSheets | kinmu_compare/version-1/kinmu.py:372-389 | the pairs the loop visits: each common title once, with its V1 and V2 sheets, all distinct; their counts sum to 0 exactly when no title's walk counts |
| Kinmu1.CompareEach | kinmu_compare/version-1/kinmu.py:384-488 | the loop over the pairs: the count is the sum of the walks' counts, and each V2 sheet keeps its values and gains its walk's fills |
| Shift.ShiftNameSilent | shift_compare/version-3.1-latest/shifuto.py:399-402 | a file name without "シフト" compares no column, so every pair passes |
| Shift.JudgeShiftColumn | shift_compare/version-3.1-latest/shifuto.py:396-406 | a cell the chain does not pass lies before column 39 in the loop's column |
| Shift.KeyIndexSound | shift_compare/version-3.1-latest/shifuto.py:377-380 | every entry of `wb1_col_e` names a row from 6 to `max_row` carrying that key |
| Shift.KeyIndexLast | shift_compare/version-3.1-latest/shifuto.py:377-380 | every key of those rows is in the index, with that row or a later one, so a later duplicate overwrites an earlier one |
| Shift.IndexKeys | shift_compare/version-3.1-latest/shifuto.py:373-380 | the loop builds that index |
| Shift.MatchesSound | shift_compare/version-3.1-latest/shifuto.py:383-394 | each pair joins a V2 row to the row the dictionary gave its key, in ascending V2 order |
| Shift.MatchesConsume | shift_compare/version-3.1-latest/shifuto.py:389-394 | no two pairs share a key, so no V1 row is paired twice |
| Shift.MatchesFirst | shift_compare/version-3.1-latest/shifuto.py:383-394 | the first V2 row with a key V1 has is paired with the dictionary's row for it |
| Shift.RowPairing | shift_compare/version-3.1-latest/shifuto.py:377-394 | both rows of a pair carry the same key, V1's row is the last with it, no V1 row is paired twice, and the first V2 row with a key V1 has is always paired |
| Shift.ColumnsFromMeaning | shift_compare/version-3.1-latest/shifuto.py:396-481 | one pair paints exactly its V2 cells judged `Flag` and counts each `Flag` or `Fail` |
| Shift.PairsFromMeaning | shift_compare/version-3.1-latest/shifuto.py:383-484 | the walk over the pairs paints exactly the `Flag` cells and counts each `Flag` or `Fail` |
| Shift.PairsFromSilent | shift_compare/version-3.1-latest/shifuto.py:383-484 | the walk counts nothing exactly when every compared cell pair passes |
| Shift.CompareRow | shift_compare/version-3.1-latest/shifuto.py:396-481 | the column loop from column 3 computes one pair's fills and count |
| Shift.ComparePair | shift_compare/version-3.1-latest/shifuto.py:365-484 | one sheet pair: the index, then the walk over V2's rows from 6 |
| Shift.CompareWorkbooks | shift_compare/version-3.1-latest/shifuto.py:343-489 | 'X' with no common title; otherwise 'O' exactly when no matched pair's walk counts a mismatch, and 'X' exactly when the count is positive. V1 is untouched; for each common title, V2's sheet keeps its values and gains exactly its walk's fills |
| Shift.CompareExcelFiles | shift_compare/version-3.1-latest/shifuto.py:308-489 | under the shift chain for the first file's name: 'O' exactly when a title is shared and, for every matched pair, every column from 3 of every row pair joined by the key passes; for a file name without "シフト", 'O' whenever a title is shared |
| Shift.AllSilentPass | shift_compare/version-3.1-latest/shifuto.py:355-487 | with a judgement that only gives verdicts, no matched pair's walk counts exactly when every column of every row pair joined by the key passes |
| Shift.CountedSilent | shift_compare/version-3.1-latest/shifuto.py:355-487 | `mismatch_found`, summed over the pairs, is 0 exactly when each pair counts 0 |
| Shift.PairSheets | shift_compare/version-3.1-latest/shifuto.py:343-360 | the pairs the loop visits: each common title once, with its V1 and V2 sheets, all distinct; their counts sum to 0 exactly when no title's walk counts |
| Shift.CompareEach | shift_compare/version-3.1-latest/shifuto.py:355-485 | the loop over the pairs: the count is the sum of the walks' counts, and each V2 sheet keeps its values and gains its walk's fills |
| Report.Data | kinmu_report/version-1/report.py:105-106 | the in-memory rows have the sheet's width and hold its cells |
| Report.RowMismatchesMembers | kinmu_report/version-1/report.py:114-128 | a record is in a row's list exactly when its columns are a listed pair whose normalised values differ, with the cells read and 1-based numbers |
| Report.RowMismatchesOrdered | kinmu_report/version-1/report.py:114-128 | a row's records are in increasing V2 column order |
| Report.MismatchesMembers | kinmu_report/version-1/report.py:110-128 | a record is listed exactly when its row is 11 to `max_rows`, equal on both sides, and the row's list holds it |
| Report.MismatchesOrdered | kinmu_report/version-1/report.py:110-128 | the records are in row-major order |
| Report.DiffRow | kinmu_report/version-1/report.py:114-128 | the column loop builds the row's list |
| Report.Diff | kinmu_report/version-1/report.py:109-128 | the row loop builds the sheet's list |
| Report.SheetEntryOrdered | kinmu_report/version-1/report.py:130-133 | `yellow_count` is 0 and the records are in row-major order |
| Report.SheetEntryMembers | kinmu_report/version-1/report.py:105-133 | a record is listed exactly when its row is 11 to the larger row count, equal on both sides, its columns come from the report's map of the V1 title, its cells are the ones read (missing ones `None`), and their normalised values differ |
| Report.CompareSheetPair | kinmu_report/version-1/report.py:96-133 | one sheet pair computes that entry |
| Report.Tables | kinmu_report/version-1/report.py:105-106 | the snapshot of a workbook has one table per sheet |
| Report.RightTitlesInjective | kinmu_report/version-1/report.py:84 | distinct cleaned titles name distinct V2 sheets, so the result keys never clash |
| Report.ExpectedFiled | kinmu_report/version-1/report.py:91-133 | the expected result is keyed by the V2 titles of the common names, each with its sheet pair's entry |
| Report.FileAll | kinmu_report/version-1/report.py:92-133 | the loop over the common names builds that map |
| Report.CompareWorkbooks | kinmu_report/version-1/report.py:78-137 | `{"ERROR": -1}` when no cleaned title is common, otherwise the map of entries for every common title |
| Report.CompareExcelFiles | kinmu_report/version-1/report.py:73-137 | the same on the snapshots of both workbooks under the report's normaliser |

## Left out

- Dialogs, message boxes and logging are left out: they do not affect the comparison.
- `process_folder`, `main` and `generate_markdown_report` are left out: they walk folders, name files and write Markdown.
- Loading and saving workbooks with openpyxl, and the fill objects, are left out. A workbook is a sequence of `Sheet` objects, and a fill is a cell in the sheet's `fills` set.
- The `{"ERROR": str(e)}` answer of the report is left out. In the modelled code only loading can raise there.
- The exception around the whole of `compare_excel_files` is left out for the same reason.
- `find_timeslot_column` is left out: its result is never used.
- `get_mapped_column` and `compare_datetime_values` are left out: nothing calls them.
- The order in which Python iterates the set of common titles is left out. The walks take the titles in any order. Every result stated is independent of it.
- `float()` is modelled as a decimal reading of sign, digits and one point. Exponents, "inf", "nan", underscores and non-ASCII digits are not modelled.
- Binary floating point is not modelled. A non-integral number is an exact decimal, and two floats are equal when their decimals are.
- `str()` of a non-integral float is modelled as its exact decimal with trailing zeros dropped. The exponent form Python uses for very large or very small values is not modelled.
- `strptime` is modelled for the fixed formats the scripts use, with ASCII digits only.
- The Unicode whitespace set of `str.split`/`str.strip` is modelled as a fixed list of characters.
- The report reads its workbooks in read-only mode. Its rows are modelled as the cells up to the sheet's stored dimensions, and rows shorter than the longest row are padded with blanks.
- The report files each entry under the V2 sheet's title, as the code does. Only its column mapping is chosen by the V1 sheet's title.
- The attendance scripts choose their judging rules by the first file's name.
- ParseInt: only ASCII digits are read. Python's `int()` also reads other Unicode decimal digits, such as "８", and single underscores between digits, such as "1_0". The model gives `None` for those.
- NormalizeTime: the hour is read by `ParseInt`, so it inherits that gap. `normalize_time_format("８:30")` gives "8:30" in the code and `None` in the model.
- IsTimeString: it normalises with `NormalizeTime`, and its `isdigit()` test is read as ASCII digits only. Python's `isdigit()` also accepts other Unicode digits, so a time written in full-width digits is not recognised by the model.
- CleanTitle: `\d` in `[\d._\-]` is read as an ASCII digit. Python's `\d` matches every Unicode decimal digit, so "１_勤務表" cleans to "勤務表" in the code and stays unchanged in the model.
- SearchDate: `\d` is read as an ASCII digit, so a date written in full-width digits is not found.
- ParenRule: `\d` is read as an ASCII digit, so the rule does not fire after a time written in full-width digits.
- Reads of V1 and V2 cells inside the column loops do not grow `max_row` or `max_column` in the model. Only the window reads of version 3.2's row pairing do. The walks fix their bounds before the loops, so the later reads cannot change what is compared.
