# xlsx-web formula engine and workbook helpers in Dafny

This project models the part of the xlsx-web spreadsheet viewer that computes rather than draws.

- **The formula engine** (`src/js/formula/engine/`):
  - the error sentinels and `isError`;
  - A1 references and ranges;
  - the 1900-epoch date serials, including the fictitious 1900-02-29;
  - the tokenizer;
  - the function table of built-ins;
  - the recursive-descent evaluator, which computes while it parses;
  - the engine facade, with its FIFO token cache, custom functions, locale names and the per-evaluation resolve cache.
- **The helpers around the engine**:
  - column and cell references, ranges, merged-cell maps and part paths (`src/js/parser.js`);
  - shared-formula reference shifting, conditional-format truthiness and rule order (`src/js/renderer.js`);
  - colour resolution, border widths and the style of a cell (`src/js/styles.js`).

Functional parts are datatypes, functions and lemmas. Parts that work step by step are methods with loops, each proved equal to a specification function, and the properties are proved about that function:

- the evaluator's mutable cursor is the `FormulaParser.Parser` class;
- the per-evaluation caches are the `Resolution.EvalContext` class;
- the token cache is the `Engine.FormulaEngine` class;
- MEDIAN's sort and the conditional-format rule sort are in-place sorts over arrays.

Values are `Num(real) | NaN | Str | Bool | Undef | Arr`, where an error is a string that starts with `#`, as in `isError`. The cell resolver, the batch resolver, `Math.pow` and the floating-point built-ins are function parameters. The `async` resolvers are treated as sequential.

## Model

| member | source | states |
|---|---|---|
| Errors.SentinelsAreErrors | src/js/formula/engine/errors.js:2-15 | every one of the eight `ERRORS` sentinels satisfies `isError` |
| Errors.SentinelsDistinct | src/js/formula/engine/errors.js:2-11 | the eight sentinel literals `#VALUE!`, `#REF!`, `#NAME?`, `#DIV/0!`, `#NULL!`, `#NUM!`, `#N/A`, `#CYCLE!` are pairwise distinct |
| Errors.NonStringsAreNotErrors | src/js/formula/engine/errors.js:13-15 | numbers, NaN, booleans, `undefined`, ranges and the empty string are never errors (`isError` needs a string starting with `#`) |
| Errors.IsError | src/js/formula/engine/errors.js:13-15 | `isError`: a string whose first character is `#`; no contract of its own; Errors.SentinelsAreErrors and NonStringsAreNotErrors state which values it accepts |
| A1.LettersThenNumber | src/js/formula/engine/range-utils.js:7-8 | decoding the letters spelled for column n (the `expandRange` inner loop, range-utils.js:27) gives n back for n ≥ 1, and 0 for n ≤ 0 |
| A1.NumberThenLetters | src/js/formula/engine/range-utils.js:7-8 | spelling the decoded number of any upper-case letter string gives the same letters back: bijective base 26 |
| A1.ColumnNumberNonNegative | src/js/formula/engine/range-utils.js:7-8 | letters decode to a column ≥ 1 (0 for no letters) |
| A1.ColumnExamples | src/js/formula/engine/range-utils.js:7-8 | A=1, Z=26, AA=27 both ways |
| A1.ColumnLetters | src/js/formula/engine/range-utils.js:25-27 | the spelling of column n is upper-case letters, empty exactly when n ≤ 0 |
| RangeUtils.ParseRef | src/js/formula/engine/range-utils.js:2-11 | the regular-expression split and the `colNum` loop compute `ParseRefSpec` (column of the upper-cased letters, row of the digits, `null` otherwise) |
| RangeUtils.ParseRefAcceptsExactly | src/js/formula/engine/range-utils.js:3-5 | `parseRef` accepts a text exactly when the whole text is one or more letters followed by one or more digits; empty text and anything else give `null` |
| RangeUtils.LettersThenDigitsIsA1 | src/js/formula/engine/range-utils.js:4 | scanning the letter run decides `/^[A-Z]+\d+$/i` |
| RangeUtils.ParseRefColumnPositive | src/js/formula/engine/range-utils.js:6-10 | an accepted reference has column ≥ 1 |
| RangeUtils.ParseCellName | src/js/formula/engine/range-utils.js:2-11 | the A1 name of any cell with column ≥ 1 parses back to that cell |
| RangeUtils.GetRangeDimensions | src/js/formula/engine/range-utils.js:34-44 | 1×1 for a text without `:` or with an unreadable endpoint, otherwise end − start + 1 per axis |
| RangeUtils.SpellColumn | src/js/formula/engine/range-utils.js:25-27 | the inner `while` loop builds exactly the bijective base-26 letters of column c |
| RangeUtils.ExpandRange | src/js/formula/engine/range-utils.js:13-32 | `expandRange` returns `ExpandRangeSpec(range)`: `[]` for empty text, the text itself without `:`, `[start]` for an unreadable endpoint, the rectangle row by row otherwise |
| RangeUtils.ExpandRect | src/js/formula/engine/range-utils.js:22-31 | the nested row/column loops push the names of the rectangle row by row, left to right |
| RangeUtils.ExpandSingle | src/js/formula/engine/range-utils.js:15-16 | a non-empty text without `:` expands to the one-element list holding it unchanged |
| RangeUtils.ExpandUnreadable | src/js/formula/engine/range-utils.js:19-21 | an unparsable endpoint yields `[start]` |
| RangeUtils.ExpandReversed | src/js/formula/engine/range-utils.js:23-24 | a range whose start row or column is after its end expands to the empty list |
| RangeUtils.ExpandLength | src/js/formula/engine/range-utils.js:23-31 | for start ≤ end on both axes the expansion has rows × cols entries, the product of `getRangeDimensions` |
| RangeUtils.RectNamesRowMajor | src/js/formula/engine/range-utils.js:23-29 | for a rectangle from (r0, c0) to (r1, c1), entry i·(c1 − c0 + 1) + j of the loops' output exists and names row r0 + i, column c0 + j (row-major order) |
| RangeUtils.ExpandInside | src/js/formula/engine/range-utils.js:23-29 | every emitted name parses back to a cell inside the rectangle |
| RangeUtils.RectNamesLength | src/js/formula/engine/range-utils.js:23-29 | the loops emit (rows) × (cols) names |
| RangeUtils.RectNamesAt | src/js/formula/engine/range-utils.js:23-29 | position i·w + j of the loops' output is the cell (row r0 + i, column c0 + j) |
| RangeUtils.RectNamesInside | src/js/formula/engine/range-utils.js:27-28 | each emitted name reads back as a cell of the rectangle |
| DateUtils.NormalizeExcelYear | src/js/formula/engine/date-utils.js:5-8 | years 0..1899 get 1900 added; its ensures only spell out the body; DateUtils.NormalizedYearRange states what it means: a normalised year is never in 0..1899 and is negative exactly when the input is |
| DateUtils.NormalizedYearRange | src/js/formula/engine/date-utils.js:5-8 | a normalised year is never in 0..1899 and is negative exactly when the input is |
| DateUtils.YearStartStep | src/js/formula/engine/date-utils.js:20 | the civil-day count that replaces `Date.UTC` advances by the length of each year |
| DateUtils.DaysBeforeNextMonth | src/js/formula/engine/date-utils.js:20 | the month offsets of the civil-day count add up month by month to the year length |
| DateUtils.CivilOfDayNumber | src/js/formula/engine/date-utils.js:37-42 | the calendar date read back from the day number of a valid date from 1899 on is that date (what `getUTCFullYear`/`getUTCMonth`/`getUTCDate` give) |
| DateUtils.SerialRoundTrip | src/js/formula/engine/date-utils.js:10-43 | `excelSerialToParts(ymdToExcelSerial(y, m, d)) = (y, m, d)` for every valid date with 1900 ≤ y ≤ 200000, 1900-02-29 included (JavaScript dates reach 275760; see "Left out") |
| DateUtils.SerialOfIntegers | src/js/formula/engine/date-utils.js:11-25 | integer arguments other than 1900-02-29 reach the day arithmetic unchanged |
| DateUtils.SerialBeforeMarch1900 | src/js/formula/engine/date-utils.js:20-23 | in January and February 1900 the serial is the whole-day count since 1899-12-31 |
| DateUtils.SerialFromMarch1900 | src/js/formula/engine/date-utils.js:20-25 | from 1900-03-01 on the serial is the day count since 1899-12-31 plus 1 |
| DateUtils.SerialFirstDay | src/js/formula/engine/date-utils.js:20-25 | 1900-01-01 is serial 1 |
| DateUtils.SerialLastFebruaryDay | src/js/formula/engine/date-utils.js:20-25 | 1900-02-28 is serial 59 |
| DateUtils.SerialFictitiousLeapDay | src/js/formula/engine/date-utils.js:18 | 1900-02-29 is exactly serial 60 |
| DateUtils.SerialFirstMarchDay | src/js/formula/engine/date-utils.js:20-25 | 1900-03-01 is serial 61 |
| DateUtils.SerialNaN | src/js/formula/engine/date-utils.js:11-15 | a non-finite argument or a negative normalised year gives NaN |
| DateUtils.PartsOfSerial | src/js/formula/engine/date-utils.js:28-43 | a serial other than 60 reads as the date that many days after 1899-12-31, one day fewer above 60 |
| DateUtils.FindYearOf | src/js/formula/engine/date-utils.js:38-40 | the year search of the civil-date conversion finds the year and day of year of a day count |
| DateUtils.FindMonthOf | src/js/formula/engine/date-utils.js:38-42 | the month search finds the month and day of a day of year |
| DateUtils.YmdToExcelSerial | src/js/formula/engine/date-utils.js:10-26 | `ymdToExcelSerial`; no contract of its own; DateUtils.SerialNaN, SerialOfIntegers, SerialFictitiousLeapDay, SerialBeforeMarch1900, SerialFromMarch1900 and SerialRoundTrip state what it computes |
| DateUtils.ExcelSerialToParts | src/js/formula/engine/date-utils.js:28-44 | `excelSerialToParts`; no contract of its own; DateUtils.PartsOfSerial and SerialRoundTrip state what it computes |
| DateFunctions.Date | src/js/formula/engine/builtins.js:459-467 | DATE: `#VALUE!` for fewer than three arguments, a non-numeric argument or no serial; otherwise the serial of `ymdToExcelSerial` |
| DateFunctions.DatePart | src/js/formula/engine/builtins.js:468-491 | YEAR/MONTH/DAY; its ensures only spell out the body's three cases; DateFunctions.DateRoundTrip states that they give back the parts of DATE(y, m, d) for 1900 ≤ y ≤ 200000, and NegativeSerial the error case |
| DateFunctions.DateRoundTrip | src/js/formula/engine/builtins.js:459-491 | YEAR, MONTH and DAY of DATE(y, m, d) give back y, m and d for every valid date with 1900 ≤ y ≤ 200000, 1900-02-29 included (see "Left out") |
| DateFunctions.LeapBugSerials | src/js/formula/engine/builtins.js:459-467 | DATE(1900,2,28) = 59, DATE(1900,2,29) = 60, DATE(1900,3,1) = 61 |
| DateFunctions.DateCoercesText | src/js/formula/engine/builtins.js:460-463 | text arguments of DATE are read with `Number` |
| DateFunctions.NegativeSerial | src/js/formula/engine/builtins.js:468-475 | YEAR of a negative serial is `#VALUE!` |
| DateFunctions.Year | src/js/formula/engine/builtins.js:468-475 | YEAR; no contract of its own; DateFunctions.DatePart (with the year field), DateRoundTrip and NegativeSerial state what it computes |
| DateFunctions.Month | src/js/formula/engine/builtins.js:476-483 | MONTH; no contract of its own; DateFunctions.DatePart (with the month field) and DateRoundTrip state what it computes |
| DateFunctions.Day | src/js/formula/engine/builtins.js:484-491 | DAY; no contract of its own; DateFunctions.DatePart (with the day field) and DateRoundTrip state what it computes |
| Logical.TruthyExamples | src/js/formula/engine/builtins.js:433-449 | example values of the condition test: 0, `''`, `false`, `"FALSE"`, NaN and `undefined` are falsy; −2, `"false"`, `"0"` and `true` are truthy |
| Logical.If | src/js/formula/engine/builtins.js:433-437 | IF; its ensures only spell out the body's two branches; Logical.IfNotSwaps states what it means: IF(NOT(c), a, b) = IF(c, b, a) |
| Logical.And | src/js/formula/engine/builtins.js:438-441 | AND is true exactly when every argument is truthy (true with none) |
| Logical.Or | src/js/formula/engine/builtins.js:442-445 | OR is true exactly when some argument is truthy (false with none) |
| Logical.Not | src/js/formula/engine/builtins.js:446-449 | NOT; its ensures only spells out the body; Logical.NotAndIsOrOfNots (De Morgan) and IfNotSwaps state how it relates to AND, OR and IF |
| Logical.IfError | src/js/formula/engine/builtins.js:452 | IFERROR; its ensures only spell out the body's two branches; Logical.IfErrorRecovers states what it means: with a non-error fallback the result is never an error |
| Logical.IsErrorFn | src/js/formula/engine/builtins.js:453 | ISERROR; its ensures only spells out the body; Logical.TypeTests and ErrorsAreText state how it relates to the other type tests |
| Logical.IsBlankFn | src/js/formula/engine/builtins.js:454 | ISBLANK; its ensures only spells out the body; Logical.TypeTests states that a blank is neither a number nor an error, and is text exactly for `''` |
| Logical.IsNumberFn | src/js/formula/engine/builtins.js:455 | ISNUMBER; its ensures only spells out the body; Logical.TypeTests states that no value is both a number and text, and a blank is no number |
| Logical.IsTextFn | src/js/formula/engine/builtins.js:456 | ISTEXT; its ensures only spells out the body; Logical.TypeTests and ErrorsAreText state that errors are text and numbers are not |
| Logical.TypeTests | src/js/formula/engine/builtins.js:453-456 | a blank is neither a number nor an error; nothing is both a number and text; an error is never blank; only `''` is both blank and text |
| Logical.IfNotSwaps | src/js/formula/engine/builtins.js:433-449 | IF(NOT(c), a, b) = IF(c, b, a) |
| Logical.NotAndIsOrOfNots | src/js/formula/engine/builtins.js:438-449 | NOT(AND(args)) = OR of the NOTs of the args (De Morgan) |
| Logical.IfErrorRecovers | src/js/formula/engine/builtins.js:452 | IFERROR with a non-error fallback never returns an error |
| Logical.ErrorsAreText | src/js/formula/engine/builtins.js:453-456 | wherever ISERROR holds, ISTEXT holds too |
| Aggregates.NumericsSnoc | src/js/formula/engine/builtins.js:10 | each argument adds its `Number` value to the numbers considered, or nothing when it is NaN |
| Aggregates.SumOfConcatenation | src/js/formula/engine/builtins.js:8-12 | SUM over a concatenation of argument lists is the sum of the two SUMs |
| Aggregates.NonNumericIgnored | src/js/formula/engine/builtins.js:10 | an argument that does not coerce to a number changes neither SUM nor COUNT (the same rule also at lines 30 of that file) |
| Aggregates.Sum | src/js/formula/engine/builtins.js:8-12 | SUM's loop returns the total of the arguments that coerce to numbers |
| Aggregates.Count | src/js/formula/engine/builtins.js:28-32 | COUNT's loop returns how many arguments coerce to numbers |
| Aggregates.AverageOf | src/js/formula/engine/builtins.js:13-17 | the mean of the numbers, `#DIV/0!` for none; its ensures only spell out the body; Aggregates.AverageBetweenMinAndMax states that it lies between MIN and MAX |
| Aggregates.Average | src/js/formula/engine/builtins.js:13-17 | AVERAGE's loop returns `AverageOf` of the numeric arguments: `#DIV/0!` when none coerces |
| Aggregates.LeastOf | src/js/formula/engine/builtins.js:18-22 | the least element of a non-empty list is in it and no element is below it |
| Aggregates.GreatestOf | src/js/formula/engine/builtins.js:23-27 | the greatest element of a non-empty list is in it and no element is above it |
| Aggregates.ExtremesUnique | src/js/formula/engine/builtins.js:18-27 | a list has only one least and one greatest element |
| Aggregates.Min | src/js/formula/engine/builtins.js:18-22 | MIN's loop returns 0 when no argument coerces to a number, otherwise the least numeric argument |
| Aggregates.Max | src/js/formula/engine/builtins.js:23-27 | MAX's loop returns 0 when no argument coerces to a number, otherwise the greatest numeric argument |
| Aggregates.SumBounds | src/js/formula/engine/builtins.js:8-17 | a sum of n values in [lo, hi] lies in [n·lo, n·hi] |
| Aggregates.AverageBetweenMinAndMax | src/js/formula/engine/builtins.js:13-27 | AVERAGE of a non-empty list lies between its MIN and its MAX |
| Aggregates.Insert | src/js/formula/engine/builtins.js:548 | inserting into a sorted list keeps it sorted and adds exactly the one element |
| Aggregates.SortedOf | src/js/formula/engine/builtins.js:548 | the reference sort is sorted and a permutation of its input |
| Aggregates.SortedUnique | src/js/formula/engine/builtins.js:548 | two sorted permutations of the same numbers are equal, so any correct sort gives `SortedOf` |
| Aggregates.MedianIgnoresOrder | src/js/formula/engine/builtins.js:544-552 | MEDIAN does not depend on the order of its arguments |
| Aggregates.MedianBounds | src/js/formula/engine/builtins.js:544-552 | MEDIAN lies between MIN and MAX |
| Aggregates.Swap | src/js/formula/engine/builtins.js:548 | exchanging two array slots changes only those two and keeps the multiset |
| Aggregates.InsertAt | src/js/formula/engine/builtins.js:548 | one insertion step extends the sorted prefix by one and keeps the multiset |
| Aggregates.SortInPlace | src/js/formula/engine/builtins.js:548 | `nums.sort((a, b) => a - b)` in place: the array ends sorted and a permutation of what it held |
| Aggregates.CollectNumbers | src/js/formula/engine/builtins.js:546-547 | the collecting loop pushes exactly the numeric arguments, in order |
| Aggregates.SortNumbers | src/js/formula/engine/builtins.js:548 | sorting the collected numbers in an array gives the reference sort `SortedOf` |
| Aggregates.Median | src/js/formula/engine/builtins.js:544-552 | MEDIAN is `#NUM!` when no argument coerces to a number, otherwise the middle of the sorted numbers (the mean of the two middle ones for an even count) |
| ConditionalAggregates.Pairs | src/js/formula/engine/builtins.js:38-44 | a successful split into (range, criterion) pairs has one pair per two arguments (the same rule also at lines 189-195 of that file) |
| ConditionalAggregates.Selected | src/js/formula/engine/builtins.js:244-254 | no more numbers are selected than there are rows |
| ConditionalAggregates.CountRows | src/js/formula/engine/builtins.js:97-105 | no more rows are counted than examined |
| ConditionalAggregates.PrependAssoc | src/js/formula/engine/builtins.js:38-44 | collecting pairs in two stretches equals collecting them in one |
| ConditionalAggregates.CollectPairs | src/js/formula/engine/builtins.js:38-44 | the pair-collecting loop returns the pairs of the arguments, or fails exactly when a range is not an array (the same rule also at lines 189-195 of that file) |
| ConditionalAggregates.CheckLengths | src/js/formula/engine/builtins.js:45-46 | the length-check loop accepts exactly when every range has the common length (the same rule also at lines 197-198 of that file) |
| ConditionalAggregates.RowOk | src/js/formula/engine/builtins.js:99-102 | the inner loop with its early `break` accepts a row exactly when every pair's cell meets its criterion (the same rule also at lines 246-249 of that file) |
| ConditionalAggregates.SumSelected | src/js/formula/engine/builtins.js:244-254 | the outer loop's total and count are the sum and number of the numbers on matching rows (the same rule also at lines 392-403 of that file) |
| ConditionalAggregates.CountMatching | src/js/formula/engine/builtins.js:97-106 | COUNTIFS's outer loop counts exactly the matching rows |
| ConditionalAggregates.SingleTotals | src/js/formula/engine/builtins.js:112-179 | SUMIF/AVERAGEIF argument checks fail exactly when the selection is `#VALUE!`; otherwise the selection's total and count (the same rule also at lines 261-327 of that file) |
| ConditionalAggregates.MultiTotals | src/js/formula/engine/builtins.js:181-259 | SUMIFS/AVERAGEIFS argument checks fail exactly when the selection is `#VALUE!`; otherwise the selection's total and count (the same rule also at lines 329-408 of that file) |
| ConditionalAggregates.SumIf | src/js/formula/engine/builtins.js:112-179 | SUMIF: `#VALUE!` for a non-array range, otherwise the sum of the sum-range numbers on rows whose criteria cell matches, over the shorter range |
| ConditionalAggregates.AverageIf | src/js/formula/engine/builtins.js:261-327 | AVERAGEIF: as SUMIF, divided by the count, `#DIV/0!` when nothing numeric is selected |
| ConditionalAggregates.SumIfs | src/js/formula/engine/builtins.js:181-259 | SUMIFS: arity, array and equal-length checks, then the sum over rows meeting every criterion |
| ConditionalAggregates.AverageIfs | src/js/formula/engine/builtins.js:329-408 | AVERAGEIFS: as SUMIFS, divided by the count, `#DIV/0!` when nothing numeric is selected |
| ConditionalAggregates.CountIfs | src/js/formula/engine/builtins.js:33-110 | COUNTIFS: 0 for no arguments, `#VALUE!` for odd arity, non-array or unequal ranges, otherwise the number of rows meeting every criterion |
| ConditionalAggregates.SumRangeDefaults | src/js/formula/engine/builtins.js:116 | leaving out the sum range is the same as passing the criteria range (the same rule also at lines 265 of that file) |
| ConditionalAggregates.SelectedAllRows | src/js/formula/engine/builtins.js:244-254 | when every row matches, the numbers selected are all the numbers of the value range |
| ConditionalAggregates.SumIfAllMatch | src/js/formula/engine/builtins.js:166-175 | SUMIF whose criterion every cell meets is SUM of the sum range |
| ConditionalAggregates.SelectedNoRows | src/js/formula/engine/builtins.js:244-254 | when no row matches, nothing is selected |
| ConditionalAggregates.AverageDivZero | src/js/formula/engine/builtins.js:323 | AVERAGEIF(S) is `#DIV/0!` exactly when the checks pass and no number is selected (the same rule also at lines 404 of that file) |
| ConditionalAggregates.ArityRules | src/js/formula/engine/builtins.js:37 | SUMIFS/AVERAGEIFS reject fewer than three or an even number of arguments; COUNTIFS rejects an odd number (the same rule also at lines 183-184, 331-332 of that file) |
| ConditionalAggregates.NonArrayRange | src/js/formula/engine/builtins.js:120 | a criteria range that is not an array gives `#VALUE!` (the same rule also at lines 193 of that file) |
| ConditionalAggregates.LengthMismatch | src/js/formula/engine/builtins.js:197-198 | SUMIFS with a criteria range of another length than the sum range gives `#VALUE!` |
| ConditionalAggregates.CountIfsLengthMismatch | src/js/formula/engine/builtins.js:45-46 | COUNTIFS ranges of different lengths give `#VALUE!` |
| ConditionalAggregates.SumIfsOfOnePair | src/js/formula/engine/builtins.js:112-259 | SUMIFS with one pair of equal-length ranges equals SUMIF with the arguments reordered |
| ConditionalAggregates.MorePairsCountLess | src/js/formula/engine/builtins.js:97-105 | adding a criteria pair can only lower the COUNTIFS count |
| ConditionalAggregates.CountIfsBounded | src/js/formula/engine/builtins.js:97-106 | COUNTIFS never counts more rows than its first range has |
| Criteria.SplitOperator | src/js/formula/engine/builtins.js:53-57 | an operator prefix is found exactly when the criterion starts with `<`, `>` or `=`; the right-hand side has no leading space; COUNTIFS never yields `<>` (the same rule also at lines 124-127 of that file) |
| Criteria.Pattern | src/js/formula/engine/builtins.js:81 | the compiled pattern has one atom per criterion character: `*` any run, `?` the given atom, everything else a literal (the same rule also at lines 156 of that file) |
| Criteria.LowerEqIffFolded | src/js/formula/engine/builtins.js:151-152 | comparing after `toLowerCase` is case-insensitive equality (the same rule also at lines 162 of that file) |
| Criteria.Literals | src/js/formula/engine/builtins.js:156 | the pattern of a text with no wildcard is its characters as literals |
| Criteria.LiteralMatch | src/js/formula/engine/builtins.js:158-159 | a pattern of literals matches exactly the texts equal to it up to case |
| Criteria.PatternOfPlain | src/js/formula/engine/builtins.js:156 | escaping and substitution leave a wildcard-free criterion literal |
| Criteria.StarMatches | src/js/formula/engine/builtins.js:156-159 | a lone `*` matches exactly the texts without a line terminator (`.` without the `s` flag) |
| Criteria.QuestionMarksMatch | src/js/formula/engine/builtins.js:156-159 | n `?` match exactly the n-character texts without a line terminator |
| Criteria.BlankCriterion | src/js/formula/engine/builtins.js:50 | an empty or absent criterion matches exactly the blank values, in COUNTIFS and in the SUMIF family (the same rule also at lines 122 of that file) |
| Criteria.OpText | src/js/formula/engine/builtins.js:124 | an operator is written with one or two characters |
| Criteria.SplitOfOperator | src/js/formula/engine/builtins.js:124-127 | an operator followed by a plain right-hand side is read back as that operator and right-hand side |
| Criteria.OperatorCriterion | src/js/formula/engine/builtins.js:125-154 | a criterion with an operator prefix is decided by the operator branch alone |
| Criteria.NumericCriterionNeedsNumber | src/js/formula/engine/builtins.js:129-134 | a numeric operator criterion never matches text that is not a number, nor a blank cell |
| Criteria.NumericCriterionCompares | src/js/formula/engine/builtins.js:133-142 | a numeric operator criterion compares a number cell numerically with the operator |
| Criteria.TextOperatorBranch | src/js/formula/engine/builtins.js:144-153 | a non-numeric right-hand side compares text: order by code units, equality ignoring case |
| Criteria.FoldedEquality | src/js/formula/engine/builtins.js:151-152 | text `=` is case-insensitive equality and `<>` its negation |
| Criteria.TextEqualityFoldsCase | src/js/formula/engine/builtins.js:124-153 | `=text` and `<>text` criteria compare case-insensitively, and are each other's negation |
| Criteria.PlainTextFoldsCase | src/js/formula/engine/builtins.js:162 | a criterion with no operator and no wildcard matches exactly the texts equal to it up to case |
| Criteria.WildcardCriterion | src/js/formula/engine/builtins.js:155-161 | a wildcard criterion matches exactly when its pattern matches the whole cell text |
| Criteria.SumifQuestionMark | src/js/formula/engine/builtins.js:155-159 | example: `a?c` matches `abc` and `ABC` but not `ac` |
| Criteria.CountifsAsWrittenMissesQuestionMark | src/js/formula/engine/builtins.js:79-87 | COUNTIFS as written: `a?c` does not match `abc` but matches `a.c` |
| Criteria.CountifsQuestionMatchesAnyChar | src/js/formula/engine/builtins.js:79-87 | with `?` left unescaped, COUNTIFS's wildcard match agrees with the SUMIF family's on every wildcard criterion |
| Criteria.CountifsHasNoNotEqual | src/js/formula/engine/builtins.js:53 | COUNTIFS's operator pattern has no `<>`: `<>x` is `<` with right-hand side `>x` |
| Criteria.CountifsEqualityIsExact | src/js/formula/engine/builtins.js:90 | COUNTIFS's plain-text criterion is case-sensitive equality |
| Criteria.BareEqualsCriterion | src/js/formula/engine/builtins.js:55-67 | `=` alone matches the number 0 in COUNTIFS (the empty right-hand side reads as 0) but only blank text in the SUMIF family (the same rule also at lines 129-153 of that file) |
| Criteria.SumifMatch | src/js/formula/engine/builtins.js:121-165 | the SUMIF family's criterion test; no contract of its own; Criteria.BlankCriterion, OperatorCriterion, NumericCriterionCompares and TextEqualityFoldsCase state what it accepts |
| Criteria.CountifsMatchAsWritten | src/js/formula/engine/builtins.js:48-95 | COUNTIFS's criterion test as written; no contract of its own; Criteria.BlankCriterion, CountifsEqualityIsExact, CountifsHasNoNotEqual and CountifsAsWrittenMissesQuestionMark state what it accepts |
| Text.UpperChar | src/js/formula/engine/tokenizer.js:95 | upper-casing maps a lower-case letter to an upper-case one and leaves every other character alone |
| Text.LowerChar | src/js/formula/engine/builtins.js:501 | lower-casing maps an upper-case letter to a lower-case one and leaves every other character alone |
| Text.Upper | src/js/formula/engine/builtins.js:502 | `toUpperCase` (ASCII); its ensures only spell out the body; Text.UpperHasNoLower and UpperIdempotent state what it means |
| Text.Lower | src/js/formula/engine/builtins.js:501 | `toLowerCase` (ASCII); its ensures only spell out the body; Text.LowerOfUpper, LowerIdempotent and TextFunctions.CaseFunctions state what it means |
| Text.UpperHasNoLower | src/js/formula/engine/builtins.js:502 | an upper-cased text has no lower-case letter |
| Text.UpperIdempotent | src/js/formula/engine/tokenizer.js:95 | upper-casing twice is upper-casing once |
| Text.LowerOfUpper | src/js/formula/engine/builtins.js:501 | lower-casing after upper-casing is lower-casing alone |
| Text.LowerIdempotent | src/js/formula/engine/builtins.js:501 | lower-casing twice is lower-casing once |
| Text.TrimStart | src/js/formula/engine/tokenizer.js:3 | the result is never longer and does not start with white space; that it is a suffix and only white space was dropped is Text.TrimStartKeeps |
| Text.TrimEnd | src/js/formula/engine/builtins.js:503 | the result is never longer and does not end with white space; that it is a prefix and only white space was dropped is Text.TrimEndKeeps |
| Text.TrimStartFixes | src/js/formula/engine/tokenizer.js:3 | a text not starting with white space is left alone |
| Text.TrimStartKeeps | src/js/formula/engine/tokenizer.js:3 | what `trimStart` keeps is a suffix of the text, and every character it drops is white space |
| Text.TrimEndKeeps | src/js/formula/engine/builtins.js:503 | what `trimEnd` keeps is a prefix of the text, and every character it drops is white space |
| Text.TrimFixes | src/js/formula/engine/builtins.js:503 | a text with no white space at either end is its own trim |
| Text.TrimEmptyIffAllSpace | src/js/formula/engine/builtins.js:503 | trimming gives the empty text exactly for texts made of white space |
| Text.IndexFrom | src/js/formula/engine/builtins.js:521 | `indexOf` from a position: -1 when no occurrence at or after it, otherwise the first one (the same rule also at lines 539 of that file) |
| Text.StrCompare | src/js/formula/engine/parser.js:178 | the three-way comparison is 0 exactly for equal texts and -1 / 1 exactly for the two strict orders |
| Text.StrCompareIsThreeWay | src/js/formula/engine/parser.js:178 | the comparison takes only the values -1, 0 and 1 |
| Text.ReplaceAllIdentity | src/js/formula/engine/builtins.js:516 | `split(x).join(x)` gives the text back |
| Text.RemoveDollars | src/js/formula/engine/tokenizer.js:44 | removing `$` never lengthens the text; Text.RemoveDollarsRemoves, RemoveDollarsFixes and RemoveDollarsSplice say what it keeps |
| Text.RemoveDollarsFixes | src/js/formula/engine/tokenizer.js:44 | a reference with no `$` is left alone |
| Text.RemoveDollarsRemoves | src/js/formula/engine/tokenizer.js:44 | the result holds no `$` |
| Text.RemoveDollarsSplice | src/js/formula/engine/tokenizer.js:44 | the text before the first `$` is kept whole and the rest is treated the same way, so every other character is kept, in order |
| Text.CharIndex | src/js/formula/engine/tokenizer.js:45 | the index found holds the character and no earlier one does |
| Text.Split | src/js/formula/engine/tokenizer.js:45 | `split` gives at least one part, exactly one when the separator is absent |
| Text.JoinCons | src/js/formula/engine/tokenizer.js:45 | joining a list whose head is split off is the head, the separator and the joined rest |
| Text.SplitJoin | src/js/formula/engine/tokenizer.js:45 | joining the parts of a split with the separator gives the text back |
| Text.SplitAtFirst | src/js/formula/engine/tokenizer.js:45 | splitting at the first separator gives the text before it, then the split of the text after it |
| Text.SplitParts | src/js/formula/engine/tokenizer.js:45 | no part of a split holds the separator |
| Text.SplitAvoids | src/js/formula/engine/tokenizer.js:45 | a character absent from the text is absent from every part |
| Numbers.DigitChar | src/js/formula/engine/range-utils.js:28 | a digit printed and read back is the same digit |
| Numbers.NatToStr | src/js/formula/engine/range-utils.js:28 | a natural number prints as a non-empty run of digits |
| Numbers.NatToStrRoundTrip | src/js/formula/engine/range-utils.js:9 | reading the digits of a printed natural number gives it back (the same rule also at lines 28 of that file) |
| Numbers.DigitRunEnd | src/js/renderer.js:13-19 | the run of digits from a position ends at a non-digit or the end |
| Numbers.Trunc | src/js/formula/engine/date-utils.js:12-14 | `Math.trunc` rounds toward zero: within one of the value, on the side of zero |
| Numbers.ParseIntPrefixOfIntToStr | src/js/styles.js:43 | `parseInt(String(i), 10)` is `i` |
| Numbers.IntToStrInjective | src/js/renderer.js:92-100 | distinct integers print differently |
| Numbers.NumToStrOfInt | src/js/formula/engine/builtins.js:495 | `String` of a whole number is its integer spelling |
| Numbers.IntRoundTrip | src/js/formula/engine/builtins.js:505-508 | `Number(String(i))` is `i` for every integer |
| Numbers.UnsignedOfDigits | src/js/formula/engine/builtins.js:505-508 | a run of digits reads as the number it spells |
| Numbers.StrToNumber | src/js/formula/engine/builtins.js:505-508 | `Number(text)`; no contract of its own; Numbers.IntRoundTrip and DigitsRead state what it reads (see "Left out") |
| Numbers.DigitsRead | src/js/formula/engine/builtins.js:505-508 | a run of digits reads as its value, and with a `-` in front as the negated value |
| Numbers.NegatedSigned | src/js/formula/engine/builtins.js:505-508 | a `-` followed by digits reads as the negated value of the digits |
| Numbers.NumToStr | src/js/formula/engine/builtins.js:495 | `String(number)` is never empty; Numbers.NumToStrOfInt and IntRoundTrip state what it prints (see "Left out") |
| Numbers.ParseIntPrefix | src/js/styles.js:43 | `parseInt(s, 10)`; no contract of its own; Numbers.ParseIntPrefixOfIntToStr states what it reads |
| Values.AsNumber | src/js/formula/engine/builtins.js:10 | `Number(v)` is a number exactly when `v` is numeric, NaN otherwise |
| Values.NumberOrOne | src/js/formula/engine/builtins.js:497 | `Number(v) \|\| 1` is never 0 and keeps every non-zero number |
| Values.Arg | src/js/formula/engine/builtins.js:497 | `args[i]`, `undefined` when missing; a helper whose ensures spell out the body; the lemmas of the functions that read arguments (Logical.IfNotSwaps, TextFunctions.LenLaws) state its effect |
| Values.At | src/js/formula/engine/builtins.js:101 | `arr[i]`, `undefined` outside the array; a helper whose ensures spell out the body; Lookup.AscendingFindsLargestBelow and DescendingFindsSmallestAbove state the searches that read with it |
| Values.LooseEqSymmetric | src/js/formula/engine/builtins.js:93 | `a == b` is symmetric |
| Values.NaNNeverLooseEq | src/js/formula/engine/builtins.js:93 | NaN is loosely equal to nothing, itself included |
| Values.ToNumber | src/js/formula/engine/builtins.js:10 | `Number(v)`; no contract of its own; Values.AsNumber, Numbers.IntRoundTrip and DigitsRead state what it gives |
| Values.LooseEq | src/js/formula/engine/builtins.js:93 | `a == b`; no contract of its own; Values.LooseEqSymmetric and NaNNeverLooseEq state its laws |
| Values.JsTruthy | src/js/formula/engine/builtins.js:435 | JavaScript truthiness; no contract of its own; Logical.TruthyExamples and CfRules.IsTruthyCfValue state its values |
| Values.RelativeIndex | src/js/formula/engine/builtins.js:498 | a `slice` position is clamped into the text |
| Values.Slice | src/js/formula/engine/builtins.js:497-499 | `slice` never lengthens the text |
| Values.SliceOfNaturals | src/js/formula/engine/builtins.js:497-499 | `slice` between two in-range positions is the sub-sequence between them |
| TextFunctions.ConcatTexts | src/js/formula/engine/builtins.js:495-496 | CONCAT; its ensures only spell out the body; TextFunctions.ConcatAppend and ConcatLength state that it distributes over concatenation and adds the lengths |
| TextFunctions.ConcatAppend | src/js/formula/engine/builtins.js:495-496 | CONCAT of a concatenation of argument lists is the concatenation of the two CONCATs |
| TextFunctions.ConcatLength | src/js/formula/engine/builtins.js:495-496 | CONCAT's length is the sum of the lengths of the arguments' texts |
| TextFunctions.Left | src/js/formula/engine/builtins.js:497 | LEFT gives a prefix of the text |
| TextFunctions.Right | src/js/formula/engine/builtins.js:498 | RIGHT gives a suffix of the text |
| TextFunctions.Mid | src/js/formula/engine/builtins.js:499 | MID is never longer than the text |
| TextFunctions.Len | src/js/formula/engine/builtins.js:500 | LEN; its ensures only spells out the body; TextFunctions.LenLaws states that UPPER and LOWER keep it, CONCAT adds it, and LEFT(t, LEN(t)) = t for non-empty t |
| TextFunctions.TrimFn | src/js/formula/engine/builtins.js:503 | TRIM's result has no white space at either end |
| TextFunctions.ValueFn | src/js/formula/engine/builtins.js:505-509 | VALUE is a number exactly when the trimmed text is a number, otherwise `#VALUE!` |
| TextFunctions.LowerFn | src/js/formula/engine/builtins.js:501 | LOWER; no contract of its own; TextFunctions.CaseFunctions and Text.Lower state what it computes |
| TextFunctions.UpperFn | src/js/formula/engine/builtins.js:502 | UPPER; no contract of its own; TextFunctions.CaseFunctions, Text.UpperHasNoLower and Text.UpperIdempotent state what it computes |
| TextFunctions.TextFn | src/js/formula/engine/builtins.js:504 | TEXT; no contract of its own; TextFunctions.CaseFunctions states what it computes |
| TextFunctions.CaseFunctions | src/js/formula/engine/builtins.js:501-504 | UPPER leaves no lower-case letter and is idempotent, LOWER(UPPER(x)) = LOWER(x), all three keep the length of the text, and TEXT of a TEXT result is that result |
| TextFunctions.LenLaws | src/js/formula/engine/builtins.js:500 | LEN(UPPER(x)) = LEN(LOWER(x)) = LEN(x); LEN of CONCAT(a, b) is the sum of the LENs; LEFT(t, LEN(t)) = t for non-empty t |
| TextFunctions.LeftOfCount | src/js/formula/engine/builtins.js:497 | LEFT(t, n) for n >= 1 is the first min(n, length) characters |
| TextFunctions.RightOfCount | src/js/formula/engine/builtins.js:498 | RIGHT(t, n) for n >= 1 is the last min(n, length) characters |
| TextFunctions.MidOfCounts | src/js/formula/engine/builtins.js:499 | MID(t, s, n) is the n characters from 1-based position s, cut at the end, empty past it |
| TextFunctions.LeftZeroIsOne | src/js/formula/engine/builtins.js:497 | a count of 0 reads as 1 |
| TextFunctions.NthOccurrence | src/js/formula/engine/builtins.js:517-531 | the n-th occurrence found lies inside the text, after the start |
| TextFunctions.NthOccurs | src/js/formula/engine/builtins.js:517-531 | the position found does hold an occurrence |
| TextFunctions.NthAtEnd | src/js/formula/engine/builtins.js:520 | nothing occurs from the end of the text on |
| TextFunctions.PassOccurrence | src/js/formula/engine/builtins.js:529-530 | passing an occurrence that is not the wanted one looks for one fewer after it |
| TextFunctions.HitOccurrence | src/js/formula/engine/builtins.js:524-527 | the wanted occurrence is replaced and the rest appended, completing the n-th replacement |
| TextFunctions.ReplaceNthMissing | src/js/formula/engine/builtins.js:520-522 | without an n-th occurrence the text is returned unchanged |
| TextFunctions.OccurrencesBound | src/js/formula/engine/builtins.js:517-531 | there are no more occurrences than characters |
| TextFunctions.ReplaceBeyondLength | src/js/formula/engine/builtins.js:517-531 | an instance beyond the text's length replaces nothing |
| TextFunctions.ReplaceCounting | src/js/formula/engine/builtins.js:517-532 | the counting loop replaces exactly the n-th occurrence, or nothing |
| TextFunctions.Substitute | src/js/formula/engine/builtins.js:510-533 | SUBSTITUTE: the text for an empty search, all occurrences replaced for no or a non-positive instance, otherwise only the n-th |
| TextFunctions.NthExistsIffEnough | src/js/formula/engine/builtins.js:517-531 | the n-th occurrence exists exactly when there are at least n |
| TextFunctions.SubstituteOfInstance | src/js/formula/engine/builtins.js:514-531 | a whole positive instance replaces the n-th occurrence |
| TextFunctions.SubstituteFewerInstances | src/js/formula/engine/builtins.js:520-522 | with fewer than n occurrences SUBSTITUTE changes nothing |
| TextFunctions.SubstituteReplacesOne | src/js/formula/engine/builtins.js:524-527 | with at least n occurrences, the text before and after the n-th occurrence is kept and only it is replaced |
| TextFunctions.SubstituteDefaults | src/js/formula/engine/builtins.js:514-516 | an empty search gives the text; no instance or instance 0 replaces every occurrence |
| TextFunctions.SubstituteSelf | src/js/formula/engine/builtins.js:516 | replacing every occurrence by itself changes nothing |
| TextFunctions.Find | src/js/formula/engine/builtins.js:534-541 | FIND is `#VALUE!` or a whole 1-based position where the search text occurs |
| TextFunctions.FindFirstFrom | src/js/formula/engine/builtins.js:537-540 | with a start inside the text, FIND succeeds exactly when an occurrence lies at or after it, and returns the first |
| TextFunctions.FindCaseSensitive | src/js/formula/engine/builtins.js:539 | example: FIND is case-sensitive |
| TextFunctions.FindRejectsSmallStart | src/js/formula/engine/builtins.js:538 | a start below 1 is `#VALUE!` |
| Lookup.Dims | src/js/formula/engine/builtins.js:579-583 | the rows read from the shape are never 0 (`rows \|\| 1`), and neither are the columns of a non-empty array |
| Lookup.Sign | src/js/formula/engine/builtins.js:601-602 | the sign of a difference of numbers follows their order |
| Lookup.FirstTrue | src/js/formula/engine/builtins.js:612-626 | the first position passing the test, with none before it, or -1 when none passes |
| Lookup.Compare | src/js/formula/engine/builtins.js:595-608 | `compareValues` as a sign: by value when both are numbers other than `''`, otherwise the order of the lower-cased texts; no contract of its own; Lookup.ImprovesOnNumbers, AscendingFindsLargestBelow and DescendingFindsSmallestAbove state what the searches built on it find |
| Lookup.FirstExact | src/js/formula/engine/builtins.js:612-626 | the first exact hit, with no hit before it, or -1 when there is none |
| Lookup.FindExact | src/js/formula/engine/builtins.js:612-626 | the exact-match loop returns the first exact hit or -1 (the same rule also at lines 754-768 of that file) |
| Lookup.ApproxBest | src/js/formula/engine/builtins.js:632-658 | the approximate search's candidate is -1 or a non-blank cell before the bound |
| Lookup.ApproxSearch | src/js/formula/engine/builtins.js:632-658 | the approximate-match loop, skipping blanks, returns the reference candidate (the same rule also at lines 771-784 of that file) |
| Lookup.ApproxStep | src/js/formula/engine/builtins.js:635-658 | one more cell either beats the candidate so far and takes its place or leaves it |
| Lookup.FirstLargestBelowKeeps | src/js/formula/engine/builtins.js:643-648 | a candidate that the next cell does not beat stays the first largest value not above the lookup |
| Lookup.FirstSmallestAboveKeeps | src/js/formula/engine/builtins.js:651-656 | a candidate that the next cell does not beat stays the first smallest value not below the lookup |
| Lookup.ImprovesOnNumbers | src/js/formula/engine/builtins.js:595-608 | among numbers, `compareValues` decides as the numeric order does (the same rule also at lines 643-656 of that file) |
| Lookup.AscendingFindsLargestBelow | src/js/formula/engine/builtins.js:641-648 | among numbers, type 1 finds the first of the largest values not above the lookup, and -1 exactly when every value is above it |
| Lookup.LargestBelowStep | src/js/formula/engine/builtins.js:643-648 | the ascending step keeps the first-largest-below property |
| Lookup.LargestBelowTakesNew | src/js/formula/engine/builtins.js:644-647 | a cell that beats the candidate is the new first largest value not above the lookup |
| Lookup.DescendingFindsSmallestAbove | src/js/formula/engine/builtins.js:649-656 | among numbers, type -1 finds the first of the smallest values not below the lookup, and -1 exactly when every value is below it |
| Lookup.SmallestAboveStep | src/js/formula/engine/builtins.js:651-656 | the descending step keeps the first-smallest-above property |
| Lookup.SmallestAboveTakesNew | src/js/formula/engine/builtins.js:652-655 | a cell that beats the candidate is the new first smallest value not below the lookup |
| Lookup.Match | src/js/formula/engine/builtins.js:569-662 | MATCH: `#N/A` for a non-array, an empty or a 2-D array, or no hit; otherwise the 1-based position that the exact or approximate search finds |
| Lookup.MatchExact | src/js/formula/engine/builtins.js:611-627 | type 0 is `#N/A` exactly when no cell is an exact hit, otherwise the 1-based position of the first hit |
| Lookup.MatchIgnoresCase | src/js/formula/engine/builtins.js:620-623 | a text lookup matches without regard to case |
| Lookup.MatchTwoDimensional | src/js/formula/engine/builtins.js:586-588 | a 2-D lookup array gives `#N/A` |
| Lookup.Element | src/js/formula/engine/builtins.js:696-699 | an element inside the array is returned with `undefined` read as `''`; a position outside it is `#REF!` (the same rule also at lines 791-794 of that file) |
| Lookup.ProductIsNatural | src/js/formula/engine/builtins.js:695 | a product of naturals is a natural |
| Lookup.CellInTable | src/js/formula/engine/builtins.js:695 | the row-major position of a cell inside a table lies inside it |
| Lookup.IndexElement | src/js/formula/engine/builtins.js:665-700 | INDEX of a proper table at whole (r, c) inside it is the row-major element (r-1)·cols + (c-1) |
| Lookup.FloorOfInt | src/js/formula/engine/builtins.js:695 | a whole number is its own floor |
| Lookup.RealOfProduct | src/js/formula/engine/builtins.js:695 | an integer product read as a real is the product of the reals |
| Lookup.IndexBounds | src/js/formula/engine/builtins.js:684-685 | a negative index gives `#VALUE!`, one beyond the shape `#REF!` |
| Lookup.IndexOfSingleValue | src/js/formula/engine/builtins.js:670-673 | INDEX of a single value at (1, 1) is that value |
| Lookup.Index | src/js/formula/engine/builtins.js:665-700 | INDEX; no contract of its own; Lookup.IndexElement, IndexReduces, IndexBounds and IndexOfSingleValue state what it computes |
| Lookup.IndexReduces | src/js/formula/engine/builtins.js:688-699 | INDEX of a non-empty table at positions inside its shape reads the element at (r − 1)·cols + (c − 1) |
| Lookup.ExactFlags | src/js/formula/engine/builtins.js:708-709 | `FALSE`, `0`, "FALSE" and "false" ask for an exact match |
| Lookup.ApproximateFlags | src/js/formula/engine/builtins.js:708-709 | a missing flag, `TRUE` and `1` ask for an approximate match |
| Lookup.FirstColumn | src/js/formula/engine/builtins.js:727-730 | the first column has one cell per row |
| Lookup.FirstRow | src/js/formula/engine/builtins.js:821-824 | the first row has one cell per column |
| Lookup.CollectFirstColumn | src/js/formula/engine/builtins.js:727-730 | the collecting loop gathers `table[r * cols]` for every row |
| Lookup.CollectFirstRow | src/js/formula/engine/builtins.js:821-824 | the collecting loop gathers `table[c]` for every column |
| Lookup.Search | src/js/formula/engine/builtins.js:750-785 | the search of VLOOKUP/HLOOKUP: the first exact hit, or the approximate candidate (the same rule also at lines 844-879 of that file) |
| Lookup.Vlookup | src/js/formula/engine/builtins.js:703-795 | VLOOKUP: `#N/A` for a non-array or empty table or no hit, `#VALUE!`/`#REF!` for a bad column, otherwise the cell of the found row |
| Lookup.Hlookup | src/js/formula/engine/builtins.js:798-889 | HLOOKUP: `#N/A` for a non-array or empty table or no hit, `#VALUE!`/`#REF!` for a bad row, otherwise the cell of the found column |
| Lookup.VlookupColumnBounds | src/js/formula/engine/builtins.js:723-724 | a column index below 1 is `#VALUE!`, one beyond the width `#REF!` |
| Lookup.HlookupRowBounds | src/js/formula/engine/builtins.js:817-818 | a row index below 1 is `#VALUE!`, one beyond the height `#REF!` |
| Lookup.VlookupExact | src/js/formula/engine/builtins.js:752-768 | exact VLOOKUP in a proper table returns column c of the first row whose key is an exact hit (the same rule also at lines 787-794 of that file) |
| Lookup.VlookupExactMiss | src/js/formula/engine/builtins.js:752-768 | exact VLOOKUP gives `#N/A` when no row's first cell is an exact hit (the same rule also at lines 787-794 of that file) |
| Lookup.FirstColumnCells | src/js/formula/engine/builtins.js:729 | the first column's r-th cell is the table's element r·cols |
| Builtins.FindEntry | src/js/formula/engine/builtins.js:5-891 | an entry found by the table scan is registered under the name looked up |
| Builtins.Named | src/js/formula/engine/builtins.js:5-891 | `builtins[name]` returns only an entry registered under that name |
| Builtins.Abs | src/js/formula/engine/builtins.js:409 | ABS is never negative, is 0 for a non-numeric argument and is the number or its negation otherwise |
| Builtins.Call | src/js/formula/engine/builtins.js:5-891 | calling an entry gives its result, running the loops of the entries that have them |
| Builtins.Apply | src/js/formula/engine/builtins.js:5-891 | the entry of the built-in table for a name applied to its arguments; no contract of its own; Builtins.Call and CallLooping state what it gives |
| Builtins.CallLooping | src/js/formula/engine/builtins.js:8-408 | the looping entries (aggregates, conditional aggregates, SUBSTITUTE, MEDIAN, the lookups) give their reference results (the same rule also at lines 510-552, 569-889 of that file) |
| Builtins.NamesAreUpperCase | src/js/formula/engine/builtins.js:5-891 | a name holding a lower-case letter resolves to no entry |
| Builtins.NamesHaveNoLower | src/js/formula/engine/builtins.js:5-891 | no registered name holds a lower-case letter |
| Builtins.LowerIsNoName | src/js/formula/engine/builtins.js:5-891 | a name holding a lower-case letter is the name of no entry |
| Tokenizer.RunEnd | src/js/formula/engine/tokenizer.js:21 | a scanning run ends at the first character outside its class, or at the end (the same rule also at lines 42, 63 of that file) |
| Tokenizer.QuotedName | src/js/formula/engine/tokenizer.js:28-35 | a quoted sheet name stops at the closing quote or the end of the text |
| Tokenizer.SheetRef | src/js/formula/engine/tokenizer.js:40-51 | reading the reference after `sheet!` keeps the scan index within the text and never moves it back; that the token is clean is Tokenizer.SheetRefClean (the same rule also at lines 68-79 of that file) |
| Tokenizer.RangeToken | src/js/formula/engine/tokenizer.js:45-46 | a RANGE token of two endpoints, carrying its sheet and the upper-cased, `$`-free reference; no contract of its own; Tokenizer.RangeTokenClean states it (the same rule also at lines 87-89 of that file) |
| Tokenizer.CellToken | src/js/formula/engine/tokenizer.js:48 | a CELL token, carrying its sheet and the upper-cased, `$`-free reference; no contract of its own; Tokenizer.CellTokenClean states it (the same rule also at line 99 of that file) |
| Tokenizer.QuotedStep | src/js/formula/engine/tokenizer.js:27-58 | a token starting with `'` advances the scan and stays within the text; that the token is clean is Tokenizer.QuotedStepClean |
| Tokenizer.WordToken | src/js/formula/engine/tokenizer.js:93-107 | the token of an identifier not followed by `!` or `:`; no contract of its own; Tokenizer.WordTokenClean and FunctionNames state it |
| Tokenizer.IdentStep | src/js/formula/engine/tokenizer.js:61-109 | a token starting with an identifier character advances the scan and stays within the text; that the token is clean is Tokenizer.IdentTokenClean |
| Tokenizer.LocalRange | src/js/formula/engine/tokenizer.js:83-90 | `id:id2` advances past the second identifier and stays within the text; that the RANGE token is clean is Tokenizer.LocalRangeClean |
| Tokenizer.OpStep | src/js/formula/engine/tokenizer.js:111-120 | an operator token has one or two characters, and the scan advances by as many |
| Tokenizer.Step | src/js/formula/engine/tokenizer.js:6-123 | one turn of the loop pushes at most one token and always advances; that the token is clean is Tokenizer.StepClean |
| Tokenizer.ReadRun | src/js/formula/engine/tokenizer.js:21 | the collecting loop returns the run and the index after it (the same rule also at lines 42, 63, 86 of that file) |
| Tokenizer.ReadQuotedName | src/js/formula/engine/tokenizer.js:28-35 | the quoted-name loop decodes `''` to `'` and returns the name and the closing quote's index |
| Tokenizer.ReadSheetRef | src/js/formula/engine/tokenizer.js:40-51 | reading the reference after `sheet!` gives the reference token (the same rule also at lines 68-79 of that file) |
| Tokenizer.ReadQuoted | src/js/formula/engine/tokenizer.js:27-58 | the `'` branch gives the quoted step's token and index |
| Tokenizer.ReadIdent | src/js/formula/engine/tokenizer.js:61-109 | the identifier branch gives the identifier step's token and index |
| Tokenizer.ScanStep | src/js/formula/engine/tokenizer.js:6-123 | one turn of the scanning loop gives the reference step |
| Tokenizer.ScanUnfold | src/js/formula/engine/tokenizer.js:6-123 | the scan is the first step's tokens followed by the scan from its next index |
| Tokenizer.Tokenize | src/js/formula/engine/tokenizer.js:2-126 | `tokenize` returns the tokens of the whole scanned text followed by EOF |
| Tokenizer.ScanHasNoEof | src/js/formula/engine/tokenizer.js:6-123 | the loop itself never pushes EOF |
| Tokenizer.TokenizeEndsWithEof | src/js/formula/engine/tokenizer.js:124-125 | the token list ends with exactly one EOF token |
| Tokenizer.TrimEndCons | src/js/formula/engine/tokenizer.js:3 | trimming the end of a text with a character in front keeps that character |
| Tokenizer.LeadingEqualsIgnored | src/js/formula/engine/tokenizer.js:3 | a formula and its text without the leading `=` give the same tokens |
| Tokenizer.SurroundingSpaceIgnored | src/js/formula/engine/tokenizer.js:3 | leading and trailing white space does not change the tokens |
| Tokenizer.TrimAround | src/js/formula/engine/tokenizer.js:3 | trimming removes exactly the white space around a text with no white space at its ends |
| Tokenizer.TrimEndOfSpaces | src/js/formula/engine/tokenizer.js:3 | trailing white space is removed up to the text before it |
| Tokenizer.TrimStartOfSpaces | src/js/formula/engine/tokenizer.js:3 | leading white space is removed up to the text after it |
| Tokenizer.StringLiteral | src/js/formula/engine/tokenizer.js:11-17 | a double-quoted literal is the text up to the next `"` or the end, with no escapes, and scanning resumes after the quote |
| Tokenizer.NumberLiteral | src/js/formula/engine/tokenizer.js:19-24 | a number token covers the longest run of digits and dots, and its value is `Number` of that run |
| Tokenizer.QuotedNameRoundTrip | src/js/formula/engine/tokenizer.js:28-36 | a name written with each `'` doubled and closed by `'` reads back as the name |
| Tokenizer.QuotedSheetCell | src/js/formula/engine/tokenizer.js:27-48 | `'name'!ref` gives a CELL token carrying the sheet name |
| Tokenizer.SheetRefOfCell | src/js/formula/engine/tokenizer.js:47-48 | a `$`-free cell reference after `sheet!` gives a CELL token carrying the sheet |
| Tokenizer.StepOfQuote | src/js/formula/engine/tokenizer.js:27 | a `'` starts the quoted-name branch |
| Tokenizer.StepOfIdent | src/js/formula/engine/tokenizer.js:61 | an identifier character starts the identifier branch |
| Tokenizer.QuotedString | src/js/formula/engine/tokenizer.js:54-57 | a quoted name not followed by `!` is a STRING token |
| Tokenizer.RefRunIsAll | src/js/formula/engine/tokenizer.js:42 | a reference of reference characters is read to its end |
| Tokenizer.RunEndOver | src/js/formula/engine/tokenizer.js:42 | a run over a tail of class characters reaches the end (the same rule also at lines 63 of that file) |
| Tokenizer.A1TextHasNoColon | src/js/formula/engine/tokenizer.js:44-48 | an A1 reference holds no `:`, so it is a cell, not a range |
| Tokenizer.UpperKeepsDollarFree | src/js/formula/engine/tokenizer.js:43-48 | upper-casing never introduces a `$` |
| Tokenizer.CleanUpper | src/js/formula/engine/tokenizer.js:48 | an upper-cased `$`-free reference is clean |
| Tokenizer.CleanRange | src/js/formula/engine/tokenizer.js:46 | two upper-cased `$`-free endpoints joined by `:` are clean (the same rule also at lines 89 of that file) |
| Tokenizer.ScanRefsClean | src/js/formula/engine/tokenizer.js:43-99 | every CELL and RANGE value is free of `$` and of lower-case letters |
| Tokenizer.CellTokenClean | src/js/formula/engine/tokenizer.js:48 | a CELL token made from a `$`-free reference carries its sheet and a reference with no `$` and no lower-case letter |
| Tokenizer.RangeTokenClean | src/js/formula/engine/tokenizer.js:45-46 | a RANGE token made from two `$`-free endpoints carries its sheet and a reference with no `$` and no lower-case letter |
| Tokenizer.SheetRefClean | src/js/formula/engine/tokenizer.js:40-51 | the token read after `sheet!` is clean |
| Tokenizer.QuotedStepClean | src/js/formula/engine/tokenizer.js:27-58 | the token of the `'` branch is clean |
| Tokenizer.WordTokenClean | src/js/formula/engine/tokenizer.js:93-107 | the token of an identifier not followed by `!` or `:` is clean |
| Tokenizer.LocalRangeClean | src/js/formula/engine/tokenizer.js:83-90 | the RANGE token of `id:id2` is clean |
| Tokenizer.IdentTokenClean | src/js/formula/engine/tokenizer.js:61-109 | the token of an identifier and what follows it is clean |
| Tokenizer.StepClean | src/js/formula/engine/tokenizer.js:6-123 | one turn of the loop pushes only clean tokens |
| Tokenizer.IdentToken | src/js/formula/engine/tokenizer.js:63-107 | what follows an identifier never moves the scan back and stays within the text |
| Tokenizer.RunEndAll | src/js/formula/engine/tokenizer.js:21 | every character of a scanned run belongs to the run's class |
| Tokenizer.QuotedSheetParts | src/js/formula/engine/tokenizer.js:27-48 | in `'name'!ref` the quoted name reads back as the name, `!` follows it, and the reference gives a CELL token with that sheet |
| Tokenizer.QuotedSheetStep | src/js/formula/engine/tokenizer.js:27-51 | a quoted name followed by `!` and a reference running to the end gives the reference's token and ends the scan |
| Tokenizer.FunctionNames | src/js/formula/engine/tokenizer.js:93-107 | an identifier is a FUNC token exactly when `(` follows after optional white space, named by the upper-cased identifier; otherwise a cell, a boolean or an identifier |
| Tokenizer.BooleanWordShape | src/js/formula/engine/tokenizer.js:98-103 | `TRUE` and `FALSE` are not cell references |
| Tokenizer.BooleanWords | src/js/formula/engine/tokenizer.js:100-103 | `TRUE` and `FALSE`, in any case and not followed by `(`, are booleans |
| Tokenizer.TwoCharacterOperators | src/js/formula/engine/tokenizer.js:113-116 | `<=`, `>=`, `<>` and `==` are single operator tokens |
| Tokenizer.UnknownSkipped | src/js/formula/engine/tokenizer.js:121-122 | characters that start no token are skipped |
| Evaluator.QualifiedAll | src/js/formula/engine/parser.js:50 | qualifies each ref of a range with its sheet; its ensures only spell out the body; EvaluatorProperties.SheetRefs states what the range asks the resolver for |
| Evaluator.FlattenPlain | src/js/formula/engine/parser.js:69-70 | arguments with no range among them are passed as they are |
| Evaluator.Lookup | src/js/formula/engine/parser.js:71 | the function a name finds; its ensures only spell out the body; Engine.RegisteredOverridesBuiltin states that a registered function wins over the built-in, under any casing |
| Evaluator.Signed | src/js/formula/engine/parser.js:94 | unary `+`/`-`; its ensures only spell out the body; EvaluatorProperties.UnaryMinus states what `-` does to a value and to an error |
| Evaluator.PowValue | src/js/formula/engine/parser.js:112 | `^` gives a number or NaN |
| Evaluator.Arith | src/js/formula/engine/parser.js:126-127 | `*`, `/`, `+`, `-` give NaN when a side does not coerce, a number or NaN otherwise (the same rule also at lines 142 of that file) |
| Evaluator.Compare | src/js/formula/engine/parser.js:162-180 | a comparison always gives a boolean |
| Evaluator.StringOrder | src/js/formula/engine/parser.js:178 | corrected string order; its ensures only spell out the body; EvaluatorProperties.IntendedTextOrder states that `<`, `>` are strict and `<=`, `>=` admit equal text |
| Evaluator.StringOrderAsWritten | src/js/formula/engine/parser.js:178 | string order as written; its ensures only spell out the body; EvaluatorProperties.TextOrder and EqualTextAsWritten state what it answers, equal text on the `>` side |
| Evaluator.Primary | src/js/formula/engine/parser.js:32-98 | `parsePrimaryWithMeta` never moves the cursor back or past the end |
| Evaluator.FuncCall | src/js/formula/engine/parser.js:61-82 | a call never moves the cursor back or past the end |
| Evaluator.ArgList | src/js/formula/engine/parser.js:11-25 | the argument list has one shape per value, and the cursor moves forward |
| Evaluator.MoreArgs | src/js/formula/engine/parser.js:18-23 | the argument loop keeps one shape per value, and the cursor moves forward |
| Evaluator.ExprWithMeta | src/js/formula/engine/parser.js:191-200 | the cursor moves forward |
| Evaluator.Power | src/js/formula/engine/parser.js:105-115 | the cursor moves forward |
| Evaluator.PowerLoop | src/js/formula/engine/parser.js:107-113 | the cursor moves forward |
| Evaluator.Term | src/js/formula/engine/parser.js:117-131 | the cursor moves forward |
| Evaluator.TermLoop | src/js/formula/engine/parser.js:119-129 | the cursor moves forward |
| Evaluator.AddSub | src/js/formula/engine/parser.js:133-152 | the cursor moves forward |
| Evaluator.AddSubLoop | src/js/formula/engine/parser.js:135-150 | the cursor moves forward |
| Evaluator.Comparison | src/js/formula/engine/parser.js:154-183 | the cursor moves forward |
| Evaluator.Evaluate | src/js/formula/engine/index.js:107-113 | the value of `parseExpression` over the tokens, `#VALUE!` when it throws; no contract of its own; the lemmas of EvaluatorProperties state what it computes |
| Evaluator.Invoke | src/js/formula/engine/parser.js:69-81 | calling the function a name resolves to; no contract of its own; EvaluatorProperties.InvokeDispatch and OrdinaryCallFlattens state how it dispatches |
| EvaluatorProperties.PrimaryIsPower | src/js/formula/engine/parser.js:105-115 | a primary not followed by `^` is a whole power operand |
| EvaluatorProperties.PowerIsTerm | src/js/formula/engine/parser.js:117-131 | a power not followed by `*` or `/` is a whole term |
| EvaluatorProperties.TermIsSum | src/js/formula/engine/parser.js:133-152 | a term not followed by `+`, `-` or `&` is a whole sum |
| EvaluatorProperties.SumIsExpression | src/js/formula/engine/parser.js:154-183 | a sum not followed by a comparison operator is the whole expression |
| EvaluatorProperties.PrimaryIsExpression | src/js/formula/engine/parser.js:105-183 | a primary followed by the end is the whole expression |
| EvaluatorProperties.ThrownPrimary | src/js/formula/engine/parser.js:97 | a primary that throws makes the expression throw |
| EvaluatorProperties.LiteralPower | src/js/formula/engine/parser.js:34-36 | a value token not followed by `^` is a power operand (the same rule also at lines 105-115 of that file) |
| EvaluatorProperties.LiteralTerm | src/js/formula/engine/parser.js:117-131 | a value token not followed by an operator of its level is a term |
| EvaluatorProperties.LiteralSum | src/js/formula/engine/parser.js:133-152 | a value token not followed by an operator of its level is a sum |
| EvaluatorProperties.MulBindsTighterThanAdd | src/js/formula/engine/parser.js:117-152 | `a+b*c` is `a+(b*c)` |
| EvaluatorProperties.PowBindsTighterThanMul | src/js/formula/engine/parser.js:105-131 | `a*b^c` is `a*(b^c)` |
| EvaluatorProperties.SubtractionAssociatesLeft | src/js/formula/engine/parser.js:133-152 | `a-b-c` is `(a-b)-c` |
| EvaluatorProperties.ComparisonBindsLoosest | src/js/formula/engine/parser.js:154-183 | `a+b=c` compares the sum |
| EvaluatorProperties.OneComparisonOnly | src/js/formula/engine/parser.js:154-183 | only one comparison is read: `a=b=c` is `a=b` |
| EvaluatorProperties.TrailingTokensIgnored | src/js/formula/engine/index.js:108-110 | tokens after a complete expression are ignored |
| EvaluatorProperties.LeftErrorWins | src/js/formula/engine/parser.js:110 | an error on the left of any binary operator is the result (the same rule also at lines 124, 140, 146, 160 of that file) |
| EvaluatorProperties.RightErrorWins | src/js/formula/engine/parser.js:111 | an error on the right of a binary operator with a non-error left is the result (the same rule also at lines 125, 141, 147, 161 of that file) |
| EvaluatorProperties.PowerStep | src/js/formula/engine/parser.js:107-113 | `^` takes a primary on its right; an error on either side, the left first, ends the loop; otherwise the power becomes the new left |
| EvaluatorProperties.TermStep | src/js/formula/engine/parser.js:121-127 | `*`/`/`: errors first, then a zero divisor is `#DIV/0!`, otherwise the product or quotient becomes the new left |
| EvaluatorProperties.AddSubStep | src/js/formula/engine/parser.js:137-148 | `+`/`-`/`&`: errors first, otherwise the sum, difference or concatenation becomes the new left |
| EvaluatorProperties.ComparisonStep | src/js/formula/engine/parser.js:157-180 | a comparison reads a sum on each side: errors first, then the comparison rules |
| EvaluatorProperties.ComparisonReads | src/js/formula/engine/parser.js:154-183 | a comparison after a sum reads the next sum and gives the left error, else the right error, else the compared value, with the cursor after the right operand |
| EvaluatorProperties.ErrorTermPropagates | src/js/formula/engine/parser.js:139-140 | an error term before `+`, `-` or `&` is the formula's value |
| EvaluatorProperties.RightErrorTermPropagates | src/js/formula/engine/parser.js:139-141 | an error term after a non-error one is the formula's value |
| EvaluatorProperties.ErrorComparedPropagates | src/js/formula/engine/parser.js:159-161 | an error on either side of a comparison is the formula's value, the left one first |
| EvaluatorProperties.DivisionByZero | src/js/formula/engine/parser.js:127 | dividing by anything that reads as 0, `''` included, is `#DIV/0!` |
| EvaluatorProperties.EmptyIsZero | src/js/formula/engine/parser.js:96 | an empty expression is 0 |
| EvaluatorProperties.UnaryMinus | src/js/formula/engine/parser.js:90-95 | unary `-` negates `Number(v)` and passes an error through |
| EvaluatorProperties.UnclosedParenthesis | src/js/formula/engine/parser.js:83-88 | a `(` with no `)` makes the formula `#VALUE!` |
| EvaluatorProperties.FunctionWithoutParenthesis | src/js/formula/engine/parser.js:63-64 | a function name not followed by `(` is `#VALUE!` |
| EvaluatorProperties.FunctionWithoutClose | src/js/formula/engine/parser.js:66-67 | a call missing its `)` is `#VALUE!` |
| EvaluatorProperties.UnknownFunction | src/js/formula/engine/parser.js:71-72 | a name neither registered nor built in gives `#NAME?` |
| EvaluatorProperties.ArgumentsBeforeName | src/js/formula/engine/parser.js:65-72 | the arguments are read before the name is looked up: one that throws makes even an unknown call `#VALUE!` |
| EvaluatorProperties.InvokeDispatch | src/js/formula/engine/parser.js:69-81 | `#NAME?` exactly when no function is found; the registered function first, then the built-in, given unflattened arguments (criteria functions), arguments with shapes (lookups) or flattened ones (the rest) |
| EvaluatorProperties.FlattenAppend | src/js/formula/engine/parser.js:69-70 | flattening a concatenation of argument lists is the concatenation of the flattenings |
| EvaluatorProperties.OrdinaryCallFlattens | src/js/formula/engine/parser.js:69-70 | an ordinary function sees `F(range, x)` as `F(cell1, ..., cellN, x)` (the same rule also at lines 81 of that file) |
| EvaluatorProperties.RangeArgumentShape | src/js/formula/engine/parser.js:191-196 | a range token read as an argument is the array of the batch-resolved values of its qualified cells (one per cell, by Resolution.ResolveBatch), with the range's dimensions as its shape and the cursor one past the token (parser.js:43-59 is the range branch it reaches) |
| EvaluatorProperties.SheetRefs | src/js/formula/engine/parser.js:50 | a range on a named sheet asks for `Sheet!A1`-style refs (the same rule also at lines 55 of that file) |
| EvaluatorProperties.CellValue | src/js/formula/engine/index.js:54-70 | a single cell is what the resolver gives (`''` for null, `#REF!` when it throws), and 0 without a resolver |
| EvaluatorProperties.NumericComparison | src/js/formula/engine/parser.js:164-172 | numbers compare numerically |
| EvaluatorProperties.TextEquality | src/js/formula/engine/parser.js:176-177 | text `=` and `<>` are exact, case-sensitive equality and its negation |
| EvaluatorProperties.TextOrder | src/js/formula/engine/parser.js:178 | as written, `<=` answers as `<` and `>=` as `>` on text |
| EvaluatorProperties.OrderedTextComparison | src/js/formula/engine/parser.js:178 | an ordered text comparison answers `<`/`<=` when the left text is smaller, `>`/`>=` otherwise |
| EvaluatorProperties.NegativeIsLess | src/js/formula/engine/parser.js:178 | the comparison is negative exactly when the left text is smaller |
| EvaluatorProperties.EqualTextAsWritten | src/js/formula/engine/parser.js:178 | as written, equal text is `>` and not `<=` |
| EvaluatorProperties.StrLessIrreflexive | src/js/formula/engine/parser.js:178 | no text is smaller than itself |
| EvaluatorProperties.IntendedTextOrder | src/js/formula/engine/parser.js:178 | corrected: `<` and `>` are strict, `<=` and `>=` admit equal text |
| FormulaParser.FlattenArgs | src/js/formula/engine/parser.js:69-70 | the flattening loop splices each range's values in place of the range |
| FormulaParser.CallFunction | src/js/formula/engine/parser.js:71-81 | the call at the end of a FUNC primary dispatches as `Invoke` says |
| FormulaParser.Parser.constructor | src/js/formula/engine/parser.js:4-8 | a parser starts at the first token with the given environment and context |
| FormulaParser.Parser.ParsePrimary | src/js/formula/engine/parser.js:32-98 | `parsePrimaryWithMeta` gives `Primary`'s value, cursor and cache, or throws where it throws |
| FormulaParser.Parser.ParseCall | src/js/formula/engine/parser.js:61-82 | the FUNC branch agrees with `FuncCall` |
| FormulaParser.Parser.ParseArgList | src/js/formula/engine/parser.js:11-25 | `parseArgListWithMeta` agrees with `ArgList` |
| FormulaParser.Parser.ParseExprWithMeta | src/js/formula/engine/parser.js:191-200 | `parseExpressionWithMeta` agrees with `ExprWithMeta` |
| FormulaParser.Parser.ParsePower | src/js/formula/engine/parser.js:105-115 | `parsePower` agrees with `Power` |
| FormulaParser.Parser.ParseTerm | src/js/formula/engine/parser.js:117-131 | `parseTerm` agrees with `Term` |
| FormulaParser.Parser.ParseAddSub | src/js/formula/engine/parser.js:133-152 | `parseAddSub` agrees with `AddSub` |
| FormulaParser.Parser.ParseComparison | src/js/formula/engine/parser.js:154-187 | `parseComparison` (and `parseExpression`) agrees with `Comparison` |
| Resolution.ResolveOne | src/js/formula/engine/index.js:54-70 | 0 without a resolver; `#CYCLE!` for a ref in flight; a cached ref from the cache; otherwise the resolver's value (`?? ''`, `#REF!` when it throws), stored in the cache |
| Resolution.Uncached | src/js/formula/engine/index.js:78-85 | the refs to fetch are refs of the request that are not cached |
| Resolution.Fill | src/js/formula/engine/index.js:75-104 | the results have one entry per ref |
| Resolution.ResolveBatch | src/js/formula/engine/index.js:73-105 | `resolveCellsBatch` gives one value per requested ref; Resolution.BatchServesCache, BatchKeepsOrder and BatchCachesFetched state the values and the cache |
| Resolution.Store | src/js/formula/engine/index.js:90-94 | storing keeps every cached ref and adds every fetched one |
| Resolution.FetchEach | src/js/formula/engine/index.js:97-98 | one value per fetched ref |
| Resolution.BatchValues | src/js/formula/engine/index.js:91 | the batch resolver's values `?? ''`; its ensures only spell out the body; Resolution.BatchKeepsOrder states that each uncached result is the resolver's value at that ref's place in the request |
| Resolution.UncachedStep | src/js/formula/engine/index.js:78-85 | one more ref adds itself to the refs to fetch exactly when it is not cached |
| Resolution.StoreStep | src/js/formula/engine/index.js:90-94 | storing one more value is a map update |
| Resolution.RankMonotone | src/js/formula/engine/index.js:83 | later positions have no smaller fetch rank, and an uncached position has a smaller rank than any later one |
| Resolution.RankInjective | src/js/formula/engine/index.js:83 | two uncached positions with the same rank are the same |
| Resolution.RankInRange | src/js/formula/engine/index.js:82-83 | an uncached position's rank indexes the refs to fetch, at its own ref |
| Resolution.UncachedPrefix | src/js/formula/engine/index.js:78-85 | the refs to fetch of a prefix are a prefix of those of the whole |
| Resolution.FillAt | src/js/formula/engine/index.js:80 | a result is the cached value or the fetched value of its rank (the same rule also at lines 93, 100 of that file) |
| Resolution.BatchServesCache | src/js/formula/engine/index.js:79-80 | cached refs are served from the cache |
| Resolution.BatchKeepsOrder | src/js/formula/engine/index.js:88-94 | with a batch resolver, each uncached result is what the resolver returned at that ref's place in the request |
| Resolution.StoreKeeps | src/js/formula/engine/index.js:90-94 | storing leaves every entry not fetched unchanged |
| Resolution.StoreDistinct | src/js/formula/engine/index.js:90-94 | a fetched ref that occurs once is cached with its value |
| Resolution.BatchCachesFetched | src/js/formula/engine/index.js:88-94 | with a batch resolver, each distinct fetched ref is cached with its value and every earlier entry is kept |
| Resolution.UncachedDistinct | src/js/formula/engine/index.js:78-85 | distinct refs give distinct refs to fetch |
| Resolution.EvalContext.constructor | src/js/formula/engine/index.js:48-52 | each evaluation starts with an empty resolve cache and no ref in flight |
| Resolution.EvalContext.ResolveCell | src/js/formula/engine/index.js:54-70 | `resolveCell` gives `ResolveOne`'s value and cache, and the in-flight set is restored on every path |
| Resolution.EvalContext.ResolveCellsBatch | src/js/formula/engine/index.js:73-105 | `resolveCellsBatch` gives `ResolveBatch`'s results and cache, or throws exactly when it does |
| Resolution.EvalContext.StoreFetched | src/js/formula/engine/index.js:89-94 | the batch loop stores each fetched value, `?? ''` applied, in the cache and at its position |
| Resolution.EvalContext.FetchAll | src/js/formula/engine/index.js:97-98 | resolving the refs to fetch one by one agrees with `FetchEach` |
| Resolution.Partition | src/js/formula/engine/index.js:78-85 | the first loop copies cached values and collects the other refs with their positions |
| Resolution.PlaceFetched | src/js/formula/engine/index.js:99-101 | the placing loop puts each fetched value at its position |
| Resolution.Place | src/js/formula/engine/index.js:100 | writing one more value keeps the placed results right |
| Resolution.Fulfilled | src/js/formula/engine/index.js:75-104 | once all fetched values are placed, the results are the cached values and fetched values in request order |
| Engine.ResolveFunction | src/js/formula/engine/index.js:36-42 | the locale mapping of the upper-cased name, else of the name as written, upper-cased; else the name upper-cased; never a lower-case letter |
| Engine.EvictOldest | src/js/formula/engine/index.js:21-25 | dropping the oldest formula keeps every other one listed once |
| Engine.AppendNewest | src/js/formula/engine/index.js:26 | appending a new formula lists it once |
| Engine.TokenizedAdd | src/js/formula/engine/index.js:20 | caching a formula's own tokens keeps every cache entry right (the same rule also at lines 26 of that file) |
| Engine.MissKeepsCache | src/js/formula/engine/index.js:18-28 | a miss keeps the cache within 2048 formulas, listed once each and right |
| Engine.FormulaEngine.constructor | src/js/formula/engine/index.js:9-16 | an engine starts with no custom function and an empty token cache |
| Engine.FormulaEngine.GetCachedTokens | src/js/formula/engine/index.js:18-28 | a hit returns the stored tokens and changes nothing; a miss tokenizes, evicts the oldest formula when 2048 are cached, and appends the new one |
| Engine.FormulaEngine.StoreMiss | src/js/formula/engine/index.js:21-26 | a miss evicts the first-inserted formula when full, then appends |
| Engine.FormulaEngine.RegisterFunction | src/js/formula/engine/index.js:31-33 | a function is stored under the upper-cased name, replacing any earlier one |
| Engine.FormulaEngine.ClearCache | src/js/formula/engine/index.js:117-119 | the token cache is emptied and the custom functions kept |
| Engine.FormulaEngine.EvaluateFormula | src/js/formula/engine/index.js:44-114 | `''` for blank text; otherwise the expression's value over a fresh resolve cache, `#VALUE!` for a throw |
| Engine.BlankText | src/js/formula/engine/index.js:45 | blank or whitespace-only text evaluates to `''` |
| Engine.EvaluateFormulaSpec | src/js/formula/engine/index.js:44-114 | `evaluateFormula`; no contract of its own; Engine.BlankText and Engine.FormulaEngine.EvaluateFormula state what it computes |
| Engine.BuiltinTableFinds | src/js/formula/engine/index.js:11 | the parser's built-in table finds exactly the names the table has |
| Engine.RegisteredOverridesBuiltin | src/js/formula/engine/index.js:31-41 | a registered function overrides the built-in of the same name, under any casing |
| Engine.LocaleNameResolves | src/js/formula/engine/index.js:36-39 | the locale mapping applies to the name in any casing, upper-cased |
| Workbook.MatchStart | src/js/parser.js:51 | the leftmost position from which `/([A-Z]+)(\d+)/i` matches, or none when it matches nowhere |
| Workbook.ParseCellRef | src/js/parser.js:50-56 | the row read is never negative |
| Workbook.ColumnNameToIndex | src/js/parser.js:58-62 | the loop computes the base-26 column number of the letters |
| Workbook.ColumnIndexToName | src/js/parser.js:64-73 | the loop computes the column letters of the index |
| Workbook.WholeReference | src/js/parser.js:50-56 | a whole `letters digits` reference is read as its column and row |
| Workbook.CellNameReadsBack | src/js/parser.js:50-73 | a column name and row number read back as that cell |
| Workbook.UnreadableIsZero | src/js/parser.js:51-52 | column 0 comes back exactly when no letters-then-digits run occurs |
| Workbook.RowCells | src/js/parser.js:97 | one row of a rectangle has one cell per column |
| Workbook.ParseRangeRef | src/js/parser.js:108-113 | without `:` the end is the start |
| Workbook.RangeRefOfColon | src/js/parser.js:108-113 | `parseRangeRef("a:b")` reads `a` as the start and `b` as the end, or the start again when `b` is empty |
| Workbook.ExpandRange | src/js/parser.js:92-99 | `expandRange` lists the cells from start to end, row by row |
| Workbook.ExpandRect | src/js/parser.js:97 | the nested loops push every cell of the rectangle, row by row |
| Workbook.SpaceAt | src/js/parser.js:102 | the first white-space character from a position, or the end |
| Workbook.SpaceRunEnd | src/js/parser.js:102 | the end of a run of white space |
| Workbook.SplitSpaces | src/js/parser.js:102 | `split(/\s+/)` gives at least one piece |
| Workbook.ParseSqref | src/js/parser.js:101-106 | `parseSqref` concatenates the cells of each space-separated part, in order |
| Workbook.ConcatStep | src/js/parser.js:104 | one more part appends its cells |
| Workbook.RowCellsAt | src/js/parser.js:97 | the j-th cell of a row is column c0 + j |
| Workbook.RectCellsLength | src/js/parser.js:97 | a rectangle lists rows × columns cells |
| Workbook.RectCellsAt | src/js/parser.js:97 | position i·w + j holds row r0 + i, column c0 + j (row-major) |
| Workbook.RowCellsHas | src/js/parser.js:97 | a cell is in a row exactly when it lies in it |
| Workbook.RectCellsHas | src/js/parser.js:97 | a cell is listed exactly when it lies in the rectangle |
| Workbook.ExpandSingleCell | src/js/parser.js:92-98 | a single address expands to that one cell |
| Workbook.RectShape | src/js/parser.js:92-98 | for start ≤ end on both axes the rectangle has (rows) × (cols) cells |
| Workbook.RectRowMajor | src/js/parser.js:97 | entry i·cols + j of the rectangle exists and is the cell at row start.row + i, column start.col + j: the nested loops list the cells row by row |
| Workbook.SplitAtSpace | src/js/parser.js:102 | a single space between two words splits them |
| Workbook.SpaceAtIs | src/js/parser.js:102 | the first space is found where it is |
| Workbook.SqrefOfTwo | src/js/parser.js:101-106 | `A B` lists the cells of `A` and then those of `B` |
| Workbook.BuildMergedMaps | src/js/parser.js:148-164 | `buildMergedMaps` gives each anchor its span and maps every other cell of each range to its anchor, a later range winning |
| Workbook.CoverRect | src/js/parser.js:156-161 | the nested loops over one range cover every cell but the anchor, row by row |
| Workbook.CoverRow | src/js/parser.js:157-160 | the inner loop covers one row of the range |
| Workbook.CoverStep | src/js/parser.js:158-159 | one more cell is mapped to the anchor unless it is the anchor |
| Workbook.CoverHas | src/js/parser.js:156-161 | the listed cells other than the anchor point to it, and the rest of the table is unchanged |
| Workbook.LastRangeWins | src/js/parser.js:151-162 | the last range's anchor records its span, and its other cells point to it |
| Workbook.CoveredIff | src/js/parser.js:148-164 | a cell is covered exactly when some range contains it and it is not that range's anchor |
| Workbook.AnchorsOf | src/js/parser.js:148-164 | the anchor map of `buildMergedMaps`; no contract of its own; Workbook.BuildMergedMaps and LastRangeWins state what it holds |
| Workbook.CoveredOf | src/js/parser.js:148-164 | the covered-cell map of `buildMergedMaps`; no contract of its own; Workbook.BuildMergedMaps, CoveredIff and AnchorNotCovered state what it holds |
| Workbook.AnchorNotCovered | src/js/parser.js:158 | a merge's anchor is not covered by that merge |
| Workbook.MapMergedRef | src/js/parser.js:166-174 | without a table, or for a cell that is not covered, the ref is returned unchanged |
| Workbook.CoveredReadsBack | src/js/parser.js:168-173 | a covered cell's new ref reads back as its anchor |
| Workbook.MappedToAnchor | src/js/parser.js:166-174 | a cell inside the last merge, other than its anchor, maps to that anchor |
| Workbook.NormalizeTargetPath | src/js/parser.js:31-35 | the part path of a relationship target; its ensures only spell out the body; Workbook.RelativeTargetUnderXl states that a relative target ends under `xl/` and that normalising is idempotent |
| Workbook.RelativeTargetUnderXl | src/js/parser.js:31-35 | a relative target ends up under `xl/`, and normalising again changes nothing |
| Renderer.UpperRunEnd | src/js/renderer.js:14 | a run of capitals ends at a non-capital or the end |
| Renderer.MatchA1 | src/js/renderer.js:14-19 | an anchored match yields groups that spell the reference back |
| Renderer.SplitFour | src/js/renderer.js:14 | the four groups of a match make up the text |
| Renderer.ShiftA1Ref | src/js/renderer.js:13-27 | a reference that does not match is returned unchanged |
| Renderer.UpperOfUpper | src/js/renderer.js:20 | capitals are their own upper case |
| Renderer.RelativeCell | src/js/renderer.js:20 | `letters digits` reads as its column number and row |
| Renderer.ColumnOfLetters | src/js/renderer.js:20 | `parseCellRef(letters + '1').col` is the column number of the letters |
| Renderer.ThreeLetters | src/js/renderer.js:25 | columns 1 to 18278 (`ZZZ`) are named with one to three letters |
| Renderer.MatchSpell | src/js/renderer.js:14 | spelling well-formed groups and matching them again gives the same groups (the same rule also at lines 26 of that file) |
| Renderer.UpperRunEndAt | src/js/renderer.js:14 | the capitals' run ends where the letters end |
| Renderer.ShiftedReadsBack | src/js/renderer.js:16-26 | a shift that stays on the sheet keeps the `$` markers, and its column and row read back as the moved ones, `$` parts unmoved |
| Renderer.ShiftOffSheet | src/js/renderer.js:24 | a column or row moved below 1 gives `#REF!` |
| Renderer.ShiftComposes | src/js/renderer.js:13-27 | two shifts that stay on the sheet are one shift by the summed offsets |
| Renderer.CharFrom | src/js/renderer.js:31 | the first occurrence of a character from a position, or the end |
| Renderer.WordRunEnd | src/js/renderer.js:31 | a run of `[A-Za-z0-9_]` ends at another character or the end |
| Renderer.SheetPrefixEnd | src/js/renderer.js:31 | a sheet prefix ends just past its `!` |
| Renderer.RefEndAt | src/js/renderer.js:31 | a reference match takes at least a letter and a digit |
| Renderer.MatchChunkAt | src/js/renderer.js:31 | a match has its prefix, a reference of at least two characters, and an optional `:` and end reference, inside the text (the same rule also at lines 33 of that file) |
| Renderer.NoMatchWithoutCapitals | src/js/renderer.js:31 | every reference starts with a capital, so text without one has no match |
| Renderer.NoCapitalsKept | src/js/renderer.js:33-37 | text with no capital letters is kept as it is |
| Renderer.WholeReferenceChunk | src/js/renderer.js:33-37 | a chunk that is one whole reference becomes that reference shifted |
| Renderer.WholeReferenceRewritten | src/js/renderer.js:33-37 | a chunk that is one reference is replaced by the rewritten reference |
| Renderer.RangeChunk | src/js/renderer.js:33-37 | a chunk `start:end` becomes both ends shifted |
| Renderer.RangeRewritten | src/js/renderer.js:33-37 | a range chunk has both ends rewritten |
| Renderer.RangeReplaced | src/js/renderer.js:33-37 | the replacement of a range match from the start has both ends rewritten and joined by a colon |
| Renderer.JoinedReplaced | src/js/renderer.js:33-37 | the replacement of a match covering `a:b` is the two shifted ends joined by a colon |
| Renderer.OneMatch | src/js/renderer.js:33-37 | a text that one match covers becomes that match's replacement |
| Renderer.JoinSlices | src/js/renderer.js:31 | `a:b` splits back into `a`, `:` and `b` |
| Renderer.RangeMatch | src/js/renderer.js:31 | two spelled references joined by `:` match as one range |
| Renderer.SpelledRefEnd | src/js/renderer.js:31 | a spelled reference not followed by a digit matches up to its end |
| Renderer.RefEndFrom | src/js/renderer.js:31 | a reference match ends where its digits end |
| Renderer.SubSlice | src/js/renderer.js:31 | a slice of a slice is a slice |
| Renderer.SpellSlices | src/js/renderer.js:26 | the groups sit at their places in the spelling |
| Renderer.DigitRunEndAt | src/js/renderer.js:31 | the digits' run ends where the digits end |
| Renderer.NoSheetPrefixAt | src/js/renderer.js:31 | a reference alone or before `:` never starts a sheet prefix |
| Renderer.WordRunEndAt | src/js/renderer.js:31 | the word run ends where the word characters end |
| Renderer.ShiftFormulaRefs | src/js/renderer.js:29-67 | `shiftFormulaRefs` returns the formula for zero offsets, otherwise the loop's output |
| Renderer.ShiftFormula | src/js/renderer.js:29-67 | `shiftFormulaRefs` as a function; no contract of its own; Renderer.ShiftFormulaRefs, LiteralsKept, RelativeMovesBy and ReferenceFormula state what it computes |
| Renderer.ShiftLoop | src/js/renderer.js:39-66 | the character loop copies literals (`""` included) and adjusts each chunk gathered outside them |
| Renderer.GatherChunk | src/js/renderer.js:62 | text outside literals gathers into one chunk |
| Renderer.LiteralCopied | src/js/renderer.js:45-62 | a literal body and its closing quote are copied as they are |
| Renderer.NoLiterals | src/js/renderer.js:43-65 | without literals the whole formula is one adjusted chunk |
| Renderer.LiteralsKept | src/js/renderer.js:39-66 | a string literal is copied verbatim; only the text outside it is adjusted |
| Renderer.LiteralSplits | src/js/renderer.js:39-66 | the same for any chunk rewriter |
| Renderer.DeriveSharedFormula | src/js/renderer.js:69-77 | a missing formula or address gives the base formula |
| Renderer.DeriveAtAnchor | src/js/renderer.js:69-77 | at the anchor the derived formula is the base formula |
| Renderer.DeriveAt | src/js/renderer.js:69-77 | the shared formula once both addresses are read; no contract of its own; Renderer.DeriveAtAnchor and DeriveIsShift state what it computes |
| Renderer.DeriveMovesReference | src/js/renderer.js:69-77 | a shared formula that is one relative reference moves with the target by its offset from the anchor |
| Renderer.MovedReadsBack | src/js/renderer.js:69-77 | for read anchor and target cells, a relative reference shifted by their offset reads back as the moved cell |
| Renderer.RelativeShifted | src/js/renderer.js:29-67 | a relative reference shifted as a formula moves by the offsets |
| Renderer.RelativeMovesBy | src/js/renderer.js:13-67 | a relative reference shifted as a formula reads back as the moved cell |
| Renderer.DeriveIsShift | src/js/renderer.js:69-77 | with readable addresses, the derived formula is the base formula shifted by target − anchor |
| Renderer.RelativeReadsAsParts | src/js/renderer.js:14-20 | a matching reference reads as its letters' column and its digits' row |
| Renderer.MovedRelativeReadsBack | src/js/renderer.js:20-26 | the shifted reference reads back as the moved column and row |
| Renderer.ReferenceFormula | src/js/renderer.js:29-67 | a formula that is one reference is shifted as that reference |
| Renderer.SpellHasNoQuote | src/js/renderer.js:26 | a reference is not empty and holds no `"` |
| Renderer.GetSharedCacheKey | src/js/renderer.js:92-100 | no record or no anchor gives null |
| Renderer.KeyFor | src/js/renderer.js:96-99 | the key is null exactly when an address is unreadable |
| Renderer.KeyIffOffset | src/js/renderer.js:92-100 | two readable targets get the same key exactly when they sit at the same offset from their anchors |
| Renderer.KeyIffSameTarget | src/js/renderer.js:92-100 | for one record, two targets get the same key exactly when they read as the same cell |
| Renderer.NoCommaInInt | src/js/renderer.js:99 | an integer's spelling holds no comma |
| Renderer.CommaAt | src/js/renderer.js:99 | the comma after the first offset sits right after it |
| Renderer.CommaSplit | src/js/renderer.js:99 | a key splits back into its two offsets at the comma |
| CfRules.ParsePriority | src/js/renderer.js:176-178 | the priority of a rule; its ensures only spell out the body's three cases; CfRules.PriorityOfIntText states that a priority written as an integer reads back as that integer, and MissingPrioritySortsLast what a missing one means |
| CfRules.PriorityOfIntText | src/js/renderer.js:177 | a priority written as an integer reads back as that integer |
| CfRules.SwapEntries | src/js/renderer.js:250-253 | exchanging two entries changes only those two and keeps the multiset |
| CfRules.InsertEntry | src/js/renderer.js:250-253 | one insertion step extends the sorted prefix by one and keeps the multiset |
| CfRules.SortEntries | src/js/renderer.js:249-254 | a cell's rule list ends sorted by priority, then document order, and is a permutation of what it held |
| CfRules.MissingPrioritySortsLast | src/js/renderer.js:177-178 | in a sorted list a rule with a real priority comes before every rule with a missing or unreadable one (the same rule also at lines 250-253 of that file) |
| CfRules.EqualPriorityKeepsDocumentOrder | src/js/renderer.js:252 | of two rules with the same priority, the earlier one in the document comes first |
| CfRules.IsTruthyCfValue | src/js/renderer.js:421-433 | `null` is false, a boolean is itself, a number is true unless zero, NaN is true |
| CfRules.BlankTextIsFalse | src/js/renderer.js:425-426 | blank or white-space text is false |
| CfRules.BooleanWordsRead | src/js/renderer.js:427-429 | `TRUE` and `FALSE`, in any case and with surrounding white space, read as the booleans |
| CfRules.PrintedBooleanRead | src/js/renderer.js:423-429 | a boolean printed as text reads back as itself |
| CfRules.IntegerTextRead | src/js/renderer.js:424 | an integer printed as text reads as the integer does (the same rule also at lines 430-431 of that file) |
| CfRules.AgreesWithTruthiness | src/js/renderer.js:421-433 | on `null`, booleans and numbers other than NaN the reading is JavaScript truthiness; NaN reads true though it is falsy |
| Styles.StripPrefixes | src/js/styles.js:219 | what is left after the prefixes is a suffix of the raw value, no longer than it |
| Styles.NormalizeRgb | src/js/styles.js:217-223 | a result exactly when the value is non-empty and strips to eight or six characters; a result is `#` and the last six characters |
| Styles.SixDigitsKept | src/js/styles.js:221 | six hex digits are kept behind a `#` |
| Styles.AlphaDropped | src/js/styles.js:220 | an eight-digit ARGB value loses its first two digits |
| Styles.SameStripSameColor | src/js/styles.js:219-222 | values that strip to the same text normalize alike |
| Styles.PrefixesIgnored | src/js/styles.js:219 | a leading `0x` or `0X`, a leading `#`, or both in that order, change nothing |
| Styles.NormalizeIdempotent | src/js/styles.js:217-223 | normalizing a normalized colour gives it back |
| Styles.RemoveFirstHash | src/js/styles.js:45 | text without `#` is unchanged; otherwise one character shorter |
| Styles.RemoveFirstHashSplits | src/js/styles.js:45 | only the first `#` is removed; the text before and after it is kept |
| Styles.ThemeColor | src/js/styles.js:42-48 | a theme colour found is `#` and a non-empty body |
| Styles.IndexedColor | src/js/styles.js:49-54 | a palette colour found starts with `#` |
| Styles.ResolveColor | src/js/styles.js:36-56 | no colour object gives nothing; a present rgb decides alone, through `normalizeRgb`; every colour given starts with `#` |
| Styles.ThemeBeforeIndexed | src/js/styles.js:42-47 | without an rgb, a usable theme slot wins and is that slot's colour without its `#`, behind a `#` |
| Styles.IndexedIffInPalette | src/js/styles.js:49-55 | without an rgb or usable theme, a readable index resolves exactly when it is in 0..63, to that palette entry |
| Styles.PaletteEntryRead | src/js/styles.js:5-14 | palette index `i` written as text resolves to entry `i` (the same rule also at lines 49-53 of that file) |
| Styles.BorderStyleToPx | src/js/styles.js:264-271 | the width is 1, 2 or 3 px; 2 exactly for `medium` and 3 exactly for `thick`, in any case; everything else, missing included, is 1 |
| Styles.BorderWidthIgnoresCase | src/js/styles.js:266 | the width does not change when the style name is upper- or lower-cased |
| Styles.ThinIsOnePx | src/js/styles.js:267 | `thin` is 1px |
| Styles.MediumIsTwoPx | src/js/styles.js:268 | `medium` is 2px |
| Styles.ShouldApply | src/js/styles.js:308-313 | whether a part of a format applies; its ensures only spells out the body; Styles.FlagOffSkipsPart states that a flag other than `'1'` keeps the part out of the style |
| Styles.PropNamesDistinct | src/js/styles.js:228-237 | distinct CSS properties have distinct names, so a property map is a CSS object (the same rule also at lines 302 of that file) |
| Styles.DecorationsJoined | src/js/styles.js:232-235 | the collected decorations are non-empty exactly when there is a decoration, and join with a space to it |
| Styles.FontStep | src/js/styles.js:228-237 | writing the next font property when it has a value extends the written part by one |
| Styles.FontToCss | src/js/styles.js:225-239 | the object written is the font's CSS: family, weight, style, decoration and colour, each only when the font has it |
| Styles.FontDoneIsFontCss | src/js/styles.js:238 | once every property is considered, the object is the font's CSS |
| Styles.DecorationOrder | src/js/styles.js:232-235 | a decoration exactly when underlined or struck; `underline`, `line-through`, or `underline line-through` in that order |
| Styles.FontCssKeys | src/js/styles.js:225-239 | a font writes only font properties |
| Styles.FontCss | src/js/styles.js:225-239 | `fontToCss`; no contract of its own; Styles.FontToCss and FontCssKeys state what it writes |
| Styles.SideProp | src/js/styles.js:302 | a side is written under `border` and its capitalized name |
| Styles.BorderStep | src/js/styles.js:295-304 | writing the next side when present extends the written part by one |
| Styles.BorderDoneIsBorderCss | src/js/styles.js:305 | once all four sides are considered, the object is the border's CSS |
| Styles.BorderDefToCss | src/js/styles.js:291-306 | the object written holds one property per present side, top, right, bottom, left |
| Styles.BorderSideWritten | src/js/styles.js:295-304 | a side's property is present exactly when the side is, with that side's `<px> solid <colour>`; nothing but border properties is written |
| Styles.BorderCss | src/js/styles.js:291-306 | `borderDefToCss`; no contract of its own; Styles.BorderDefToCss and BorderSideWritten state what it writes |
| Styles.UnresolvedSideIsBlack | src/js/styles.js:299-301 | a side whose colour does not resolve is drawn in `#000` |
| Styles.DxfToCss | src/js/styles.js:241-250 | the object written is the font's CSS, the fill colour as background and the border's CSS, joined in that order |
| Styles.DxfPartsDisjoint | src/js/styles.js:241-250 | each property of a differential format's CSS is exactly what its own part gives; a background exactly when the fill resolves |
| Styles.DxfCss | src/js/styles.js:241-250 | `dxfToCss`; no contract of its own; Styles.DxfToCss and DxfPartsDisjoint state what it writes |
| Styles.OpaqueArgbRead | src/js/styles.js:38-40 | an rgb-only colour of eight digits resolves to its last six behind a `#` (the same rule also at lines 220 of that file) |
| Styles.ArgbColorsExample | src/js/styles.js:36-40 | `FFFF0000` resolves to `#FF0000` and `FF00FF00` to `#00FF00` |
| Styles.ArgbSideExample | src/js/styles.js:298-303 | a thin side in `FF0000FF` is `1px solid #0000FF` |
| Styles.ThemeColorsExample | src/js/styles.js:42-47 | with theme slots 2 and 5 set, theme `2` and `5` resolve to those slots |
| Styles.ThemeSideExample | src/js/styles.js:298-303 | a medium side in theme slot 2 is `2px solid` and that colour |
| Styles.At | src/js/styles.js:319-320 | the element an index attribute selects; a helper whose ensures spell out the body; Styles.ApplyFontOf, ApplyFillOf and ApplyBorderOf state what is written for the element it finds |
| Styles.ApplyFontOf | src/js/styles.js:318-323 | the target with the font's CSS written over it when the font applies and its index is usable, else unchanged |
| Styles.ApplyFillOf | src/js/styles.js:325-334 | the target with the fill's foreground as background when the fill applies, is in range, has a pattern other than `none` and a foreground that resolves |
| Styles.ApplyBorderOf | src/js/styles.js:336-352 | the target with the border's sides written over it when the border applies and its index is usable |
| Styles.ApplyXfStyle | src/js/styles.js:315-353 | no format leaves the target as it was; otherwise the format's font, fill and border are written over it in turn |
| Styles.GetCellStyle | src/js/styles.js:355-383 | the style is the base format's CSS with the cell format's written over it, for the index from `s` or else the fallback |
| Styles.CellStyle | src/js/styles.js:355-383 | the base style of a cell; no contract of its own; Styles.GetCellStyle states what it gives |
| Styles.CellIndexWins | src/js/styles.js:359-365 | a readable `s` attribute decides the index |
| Styles.FallbackIndexUsed | src/js/styles.js:367-370 | the fallback is used when `s` is missing or unreadable |
| Styles.CellFormatWins | src/js/styles.js:372-382 | each property the cell format writes has its value; every other property is the base format's |
| Styles.FlagOffSkipsPart | src/js/styles.js:308-313 | a font flag other than `'1'` keeps the font out of the style (the same rule also at lines 318 of that file) |

## Left out

- ZIP, XML and DOM input are not modelled, because they need JSZip and DOMParser nodes. This covers `readZipText`, `parseXml`, `loadSharedStrings`, `extractCellValue`, `parseMergeCells`, `parseColumnStyles`, `parseSharedFormulas`, `loadSheetRelationships`, `loadDrawing`/`parseDrawing`, `loadMedia`, and every `load*` and `parseStyles` function of `src/js/styles.js`. The model starts from the values these produce.
- Drawing the sheet is not modelled: DOM building, `applyCssToElement`, `main.js` and `resize.js` are left out.
- `async`/`await` and `Promise.all` are treated as sequential. The batch resolver is one call that returns the values in order, or fails as a whole.
- ROUND, SQRT, LN, POWER, MOD, STDEV, TODAY (through `todayToExcelSerial`) and `^` are not modelled, because they need IEEE floating point or the clock. They are function parameters (`Builtins.HostMath`, `Evaluator.Env.pow`), and the model proves nothing about their results.
- The `instanceof Date` branches of YEAR, MONTH and DAY are left out, because no value of the model is a `Date` object.
- `applyTint` and colour tints are left out, because they need floating-point rounding. Styles.ResolveColor models only the tint-free paths.
- The font size (`fontSize` from `pt`) is left out, because it is floating-point arithmetic.
- The inline-run branch of `getCellStyle` (`src/js/styles.js:385-401`) is left out. Styles.GetCellStyle returns only the base style.
- CSS objects are maps from properties to values, so the insertion order of keys is not modelled.
- The evaluation of conditional formats is left out: color scales, data bars, icon sets, top/bottom, above average and `normalizeCfFormula`. Only the truthiness of a rule's result and the order of the rules are modelled.
- Numbers.StrToNumber: reads only optionally signed decimals, with one optional point and an optional exponent, trimmed of JavaScript white space. `Number()` also reads hexadecimal, binary and octal literals and `Infinity`. So `VALUE("0x1F")` is `#VALUE!` in the model and 31 in JavaScript, and `"0x10"+1` is NaN in the model and 17 in JavaScript.
- Numbers.NumToStr: prints integers exactly and fractions with up to 20 digits. `String()` prints the shortest text that reads back as the same double, and uses exponent notation. So `1/3&""` gives twenty 3s in the model and sixteen in JavaScript, `1e21` prints without an exponent, and `1e-7` prints as `0.0000001` instead of `1e-7`. This reaches `&`, CONCAT, LEN and the text comparison of numbers.
- Numbers are exact reals, not doubles. So `0.1+0.2=0.3` is TRUE in the model and FALSE in JavaScript, and there is no overflow to `Infinity`.
- Text.StrCompare: is code-unit (character) order, standing in for `localeCompare`. So `"a"<"B"` is FALSE in the model and TRUE under the usual locales. The approximate modes of MATCH, VLOOKUP and HLOOKUP, and the string branch of comparisons, inherit this order.
- Text.Upper and Text.Lower: map only ASCII letters, standing in for `toUpperCase`, `toLowerCase` and the regular-expression `i` flag. So `UPPER("é")` is `"é"` in the model and `"É"` in JavaScript. Function names passed to `registerFunction` and `resolveFunction` are upper-cased the same way.
- TextFunctions.Len: strings are sequences of Unicode characters, not UTF-16 code units. So `LEN("😀")` is 1 in the model and 2 in JavaScript, and the positions of LEFT, RIGHT, MID and FIND shift after any character outside the Basic Multilingual Plane.
- DateUtils.SerialRoundTrip: proved only for years 1900 to 200000. JavaScript dates reach the year 275760, so the years 200001 to 275760 are not covered.
- DateFunctions.DateRoundTrip: proved only for years 1900 to 200000, for the same reason as DateUtils.SerialRoundTrip.
- CfRules.SortEntries: states that a cell's rule list ends sorted by priority, then document order, and is a permutation of what it held, but not that the sort is stable. When the parts of a rule's sqref overlap, one cell gets the same rule twice, with equal priority and order and different anchors (src/js/renderer.js:234-243). JavaScript's stable sort keeps those two in sqref order, and the contract leaves their order open.
- TextFunctions.NthOccurrence: its own contract states only where the occurrence lies. That it is an occurrence is the separate lemma TextFunctions.NthOccurs.
- Evaluator.Primary, Evaluator.FuncCall, Evaluator.ArgList, Evaluator.MoreArgs, Evaluator.ExprWithMeta, Evaluator.Power, Evaluator.PowerLoop, Evaluator.Term, Evaluator.TermLoop, Evaluator.AddSub, Evaluator.AddSubLoop and Evaluator.Comparison: each of these states only that the cursor advances. What they compute is stated by the lemmas of EvaluatorProperties and by FormulaParser.Parser, which is proved equal to them.
- Resolution.EvalContext.ResolveCell: the `#CYCLE!` branch is modelled, but no evaluation of the model reaches it. `evaluateFormula` makes a new in-flight set for every call (src/js/formula/engine/index.js:48), and `resolveCell` removes the ref again in its `finally` (lines 67-69 of that file). So a resolver that re-enters the engine starts from an empty set and never sees `#CYCLE!`: the cycle check cannot catch a cycle that runs through the host's resolver, in JavaScript or in the model. In JavaScript the same ref is in flight twice only when the concurrent `Promise.all` of `resolveCellsBatch` (lines 97-98) resolves a ref that occurs twice in one batch. The model resolves those one after another, so it does not reproduce that case.

## Findings

| source | as written | input that shows it | evidently intended | confidence | as-written member | corrected member |
|---|---|---|---|---|---|---|
| src/js/formula/engine/builtins.js:82 | COUNTIFS escapes `?` together with the other regular-expression characters, before it replaces `?` by `.`, so a `?` in a criterion matches only a literal full stop | `COUNTIFS` of a cell holding `abc` with the criterion `a?c` is 0 | a `?` matches any single character, as the comment at builtins.js:79 says and as SUMIF does | not executed | Criteria.CountifsAsWrittenMissesQuestionMark | Criteria.CountifsQuestionMatchesAnyChar |
| src/js/formula/engine/parser.js:178 | `localeCompare(rs) < 0` picks `<`/`<=`, and otherwise `>`/`>=`, so equal texts fall on the `>` side | `"a"<="a"` is FALSE and `"a">"a"` is TRUE | equal texts satisfy `<=` and `>=` but not `<` or `>` | not executed | EvaluatorProperties.EqualTextAsWritten | EvaluatorProperties.IntendedTextOrder |

The engine computes the behaviour as written: `Evaluator.Compare` uses `Evaluator.StringOrderAsWritten` and COUNTIFS uses `Criteria.CountifsMatchAsWritten`. The corrected definitions are `Evaluator.StringOrder` and `Criteria.CountifsMatch`, and the corrected members prove the intended property about them.
