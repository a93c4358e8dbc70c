/** The address helpers of the workbook reader: `parseCellRef`, the column-name conversions,
  * `expandRange`, `parseSqref` and `parseRangeRef`, the merged-cell tables built by
  * `buildMergedMaps` and read by `mapMergedRef`, and `normalizeTargetPath`. */
module Workbook {
  import opened Wrappers
  import opened Text
  import opened Numbers
  import opened A1
  import opened RangeUtils

  /** `{ col, row }`. `Cell(0, 0)` is what an unreadable address gives. The merged-cell tables
    * are keyed by `"row-col"` strings in `buildMergedMaps`; here a cell is its own key. */
  datatype Cell = Cell(col: int, row: int)

  /** `{ start, end }` of a range. */
  datatype Range = Range(start: Cell, end: Cell)

  /** `{ rowSpan, colSpan }` of a merge anchor. */
  datatype Span = Span(rowSpan: int, colSpan: int)

  // ---- parseCellRef ----

  /** `/([A-Z]+)(\d+)/i` can match at `i`: a letter starts there and its run of letters is
    * followed by a digit. */
  predicate MatchesAt(s: string, i: nat)
  {
    i < |s| && IsLetter(s[i]) && LetterRunEnd(s, i) < |s| && IsDigit(s[LetterRunEnd(s, i)])
  }

  /** The leftmost position from `i` on where the pattern matches. */
  function MatchStart(s: string, i: nat): (m: Option<nat>)
    requires i <= |s|
    ensures m.Some? ==> i <= m.value && MatchesAt(s, m.value)
    ensures m.Some? ==> forall j :: i <= j < m.value ==> !MatchesAt(s, j)
    ensures m.None? ==> forall j :: i <= j ==> !MatchesAt(s, j)
    decreases |s| - i
  {
    if i == |s| then None
    else if MatchesAt(s, i) then Some(i)
    else MatchStart(s, i + 1)
  }

  /** `parseCellRef`: the first run of letters followed by digits anywhere in the text, the
    * letters read case-insensitively as a column and the digits as the row. */
  function ParseCellRef(ref: string): (c: Cell)
    ensures c.row >= 0
  {
    match MatchStart(ref, 0)
    case None => Cell(0, 0)
    case Some(i) =>
      var k := LetterRunEnd(ref, i);
      assert LetterRunEnd(ref, i) < |ref|;
      var e := DigitRunEnd(ref, k);
      Cell(ColumnNumber(Upper(ref[i..k])), DigitsValue(ref[k..e]))
  }

  /** `columnNameToIndex`: `index = index * 26 + (code - 64)` over the characters. */
  method ColumnNameToIndex(name: string) returns (index: int)
    ensures index == ColumnNumber(name)
  {
    index := 0;
    var i := 0;
    while i < |name|
      invariant 0 <= i <= |name|
      invariant index == ColumnNumber(name[..i])
    {
      assert name[..i + 1][..i] == name[..i];
      index := index * 26 + (name[i] as int - 64);
      i := i + 1;
    }
    assert name[..|name|] == name;
  }

  /** `columnIndexToName`: letters are prepended, last letter first, while the index is
    * positive. */
  method ColumnIndexToName(index: int) returns (result: string)
    ensures result == ColumnLetters(index)
  {
    result := "";
    var current := index;
    while current > 0
      invariant ColumnLetters(current) + result == ColumnLetters(index)
      decreases current
    {
      var remainder := (current - 1) % 26;
      assert ColumnLetters(current) == ColumnLetters((current - 1) / 26) + [(65 + remainder) as char];
      result := [(65 + remainder) as char] + result;
      current := (current - 1) / 26;
    }
  }

  /** The text of an accepted whole reference is read the same way by `parseCellRef`. */
  lemma WholeReference(s: string)
    requires ParseRefSpec(s).Some?
    ensures ParseCellRef(s) == Cell(ParseRefSpec(s).value.col, ParseRefSpec(s).value.row)
  {
    var k := LetterRunEnd(s, 0);
    assert IsLetter(s[0..k][0]);
    assert IsDigit(s[k..][0]);
    assert MatchesAt(s, 0);
    DigitRunEndOfDigits(s, k);
    assert s[0..k] == s[..k];
    assert s[k..|s|] == s[k..];
  }

  /** A column name and a row number read back as that cell. */
  lemma CellNameReadsBack(col: int, row: nat)
    requires col >= 1
    ensures ParseCellRef(CellName(col, row)) == Cell(col, row)
  {
    ParseCellName(col, row);
    WholeReference(CellName(col, row));
  }

  /** Text with no letters-then-digits anywhere reads as `Cell(0, 0)`; a readable address has a
    * column of at least 1, so column 0 says exactly that nothing was found. */
  lemma UnreadableIsZero(s: string)
    ensures ParseCellRef(s).col == 0 <==> forall j :: 0 <= j < |s| ==> !MatchesAt(s, j)
  {
    var m := MatchStart(s, 0);
    if m.Some? {
      var i := m.value;
      var k := LetterRunEnd(s, i);
      var l := s[i..k];
      assert AllLetters(l);
      assert l != [] by { assert IsLetter(s[i]); assert LetterRunEnd(s, i) > i; }
      UpperOfLetters(l);
      ColumnNumberNonNegative(Upper(l));
    }
  }

  // ---- expandRange, parseSqref, parseRangeRef ----

  /** Row `r`, columns `c0 .. c1 - 1`, left to right. */
  function RowCells(r: int, c0: int, c1: int): (cells: seq<Cell>)
    ensures |cells| == if c1 > c0 then c1 - c0 else 0
    decreases c1 - c0
  {
    if c1 <= c0 then [] else RowCells(r, c0, c1 - 1) + [Cell(c1 - 1, r)]
  }

  /** Rows `r0 .. r1 - 1`, each row left to right. */
  function RectCells(r0: int, r1: int, c0: int, c1: int): seq<Cell>
    decreases r1 - r0
  {
    if r1 <= r0 then [] else RectCells(r0, r1 - 1, c0, c1) + RowCells(r1 - 1, c0, c1)
  }

  /** `parseRangeRef`: the two ends of `start:end`; the start again when there is no end. */
  function ParseRangeRef(range: string): (r: Range)
    ensures ':' !in range ==> r.end == r.start
  {
    var parts := Split(range, ':');
    var start := ParseCellRef(parts[0]);
    var end := if |parts| > 1 && parts[1] != "" then ParseCellRef(parts[1]) else start;
    Range(start, end)
  }

  /** `start:end` reads both ends; an empty end falls back to the start. */
  lemma RangeRefOfColon(a: string, b: string)
    requires ':' !in a && ':' !in b
    ensures ParseRangeRef(a + ":" + b) == Range(ParseCellRef(a), if b == "" then ParseCellRef(a) else ParseCellRef(b))
  {
    SplitAtFirst(a, ':', b);
    assert a + [':'] + b == a + ":" + b;
    assert Split(a + ":" + b, ':') == [a, b];
  }

  /** What `expandRange` returns: every cell from start to end, row by row. */
  function ExpandRangeCells(range: string): seq<Cell>
  {
    var r := ParseRangeRef(range);
    RectCells(r.start.row, r.end.row + 1, r.start.col, r.end.col + 1)
  }

  /** `expandRange`: the two ends, then the nested loops. */
  method ExpandRange(range: string) returns (cells: seq<Cell>)
    ensures cells == ExpandRangeCells(range)
  {
    var rr := ParseRangeRef(range);
    cells := ExpandRect(rr.start, rr.end);
  }

  /** The nested loops of `expandRange`, pushing `{ row, col }` row by row. */
  method ExpandRect(s: Cell, e: Cell) returns (cells: seq<Cell>)
    ensures cells == RectCells(s.row, e.row + 1, s.col, e.col + 1)
  {
    cells := [];
    var r := s.row;
    while r <= e.row
      invariant s.row <= r
      invariant r <= e.row + 1 || r == s.row
      invariant cells == RectCells(s.row, r, s.col, e.col + 1)
      decreases e.row + 1 - r
    {
      var c := s.col;
      while c <= e.col
        invariant s.col <= c
        invariant c <= e.col + 1 || c == s.col
        invariant cells == RectCells(s.row, r, s.col, e.col + 1) + RowCells(r, s.col, c)
        decreases e.col + 1 - c
      {
        cells := cells + [Cell(c, r)];
        c := c + 1;
      }
      r := r + 1;
    }
  }

  /** Index of the first white-space character at or after `i`, or `|s|`. */
  function SpaceAt(s: string, i: nat): (k: nat)
    requires i <= |s|
    ensures i <= k <= |s| && (k == |s| || IsSpace(s[k]))
    ensures forall j :: i <= j < k ==> !IsSpace(s[j])
    decreases |s| - i
  {
    if i == |s| || IsSpace(s[i]) then i else SpaceAt(s, i + 1)
  }

  /** Index just past the run of white space that starts at `i`. */
  function SpaceRunEnd(s: string, i: nat): (k: nat)
    requires i <= |s|
    ensures i <= k <= |s| && (k == |s| || !IsSpace(s[k]))
    decreases |s| - i
  {
    if i < |s| && IsSpace(s[i]) then SpaceRunEnd(s, i + 1) else i
  }

  /** `s.split(/\s+/)`: the pieces between runs of white space. */
  function SplitSpaces(s: string): (parts: seq<string>)
    ensures |parts| >= 1
    decreases |s|
  {
    var k := SpaceAt(s, 0);
    if k == |s| then [s] else [s[..k]] + SplitSpaces(s[SpaceRunEnd(s, k)..])
  }

  /** The cells of several ranges one after another. */
  function ConcatRanges(parts: seq<string>): seq<Cell>
  {
    if parts == [] then [] else ConcatRanges(parts[..|parts| - 1]) + ExpandRangeCells(parts[|parts| - 1])
  }

  /** What `parseSqref` returns: the cells of each space-separated range, in order. */
  function ParseSqrefSpec(sqref: string): seq<Cell>
  {
    ConcatRanges(SplitSpaces(Trim(sqref)))
  }

  /** `parseSqref`: a loop over the parts, appending each part's cells. */
  method ParseSqref(sqref: string) returns (cells: seq<Cell>)
    ensures cells == ParseSqrefSpec(sqref)
  {
    var parts := SplitSpaces(Trim(sqref));
    cells := [];
    var i := 0;
    while i < |parts|
      invariant 0 <= i <= |parts|
      invariant cells == ConcatRanges(parts[..i])
    {
      ConcatStep(parts, i);
      var more := ExpandRange(parts[i]);
      cells := cells + more;
      i := i + 1;
    }
    assert parts[..|parts|] == parts;
  }

  lemma ConcatStep(parts: seq<string>, i: nat)
    requires i < |parts|
    ensures ConcatRanges(parts[..i + 1]) == ConcatRanges(parts[..i]) + ExpandRangeCells(parts[i])
  {
    assert parts[..i + 1][..i] == parts[..i];
  }

  // ---- properties of the expansion ----

  lemma {:induction false} RowCellsAt(r: int, c0: int, c1: int, j: nat)
    requires c0 + j < c1
    ensures RowCells(r, c0, c1)[j] == Cell(c0 + j, r)
    decreases c1 - c0
  {
    if c0 + j < c1 - 1 {
      RowCellsAt(r, c0, c1 - 1, j);
    }
  }

  lemma {:induction false} RectCellsLength(r0: int, r1: int, c0: int, c1: int)
    requires r1 >= r0 && c1 >= c0
    ensures |RectCells(r0, r1, c0, c1)| == (r1 - r0) * (c1 - c0)
    decreases r1 - r0
  {
    if r1 > r0 {
      RectCellsLength(r0, r1 - 1, c0, c1);
      assert (r1 - r0) * (c1 - c0) == (r1 - 1 - r0) * (c1 - c0) + (c1 - c0);
    }
  }

  /** Row-major order: position `i * w + j` holds row `r0 + i`, column `c0 + j`. */
  lemma {:induction false} RectCellsAt(r0: int, r1: int, c0: int, c1: int, i: nat, j: nat, k: nat)
    requires r0 + i < r1 && c0 + j < c1
    requires k == i * (c1 - c0) + j
    ensures k < |RectCells(r0, r1, c0, c1)| && RectCells(r0, r1, c0, c1)[k] == Cell(c0 + j, r0 + i)
    decreases r1 - r0
  {
    var w := c1 - c0;
    var prefix := RectCells(r0, r1 - 1, c0, c1);
    var row := RowCells(r1 - 1, c0, c1);
    assert RectCells(r0, r1, c0, c1) == prefix + row;
    RectCellsLength(r0, r1 - 1, c0, c1);
    var h := r1 - 1 - r0;
    assert |prefix| == h * w;
    MulSucc(i, w);
    if i < h {
      RectCellsAt(r0, r1 - 1, c0, c1, i, j, k);
      MulLeq(i + 1, h, w);
    } else {
      RowCellsAt(r1 - 1, c0, c1, j);
    }
  }


  lemma {:induction false} RowCellsHas(r: int, c0: int, c1: int, k: Cell)
    ensures k in RowCells(r, c0, c1) <==> k.row == r && c0 <= k.col < c1
    decreases c1 - c0
  {
    if c1 > c0 {
      RowCellsHas(r, c0, c1 - 1, k);
    }
  }

  /** A cell is listed exactly when it lies in the rectangle. */
  lemma {:induction false} RectCellsHas(r0: int, r1: int, c0: int, c1: int, k: Cell)
    ensures k in RectCells(r0, r1, c0, c1) <==> r0 <= k.row < r1 && c0 <= k.col < c1
    decreases r1 - r0
  {
    if r1 > r0 {
      RectCellsHas(r0, r1 - 1, c0, c1, k);
      RowCellsHas(r1 - 1, c0, c1, k);
    }
  }

  /** A single address expands to that one cell. */
  lemma ExpandSingleCell(range: string)
    requires ':' !in range
    ensures ExpandRangeCells(range) == [ParseCellRef(range)]
  {
    var c := ParseCellRef(range);
    assert RectCells(c.row, c.row + 1, c.col, c.col + 1) == RectCells(c.row, c.row, c.col, c.col + 1) + RowCells(c.row, c.col, c.col + 1);
  }

  /** The rectangle of `expandRange` lists its cells row by row: entry `k = i * cols + j`
    * is row `s.row + i`, column `s.col + j`. */
  lemma RectRowMajor(s: Cell, e: Cell, i: nat, j: nat, k: nat)
    requires s.row + i <= e.row && s.col + j <= e.col
    requires k == i * (e.col - s.col + 1) + j
    ensures k < |RectCells(s.row, e.row + 1, s.col, e.col + 1)| &&
      RectCells(s.row, e.row + 1, s.col, e.col + 1)[k] == Cell(s.col + j, s.row + i)
  {
    assert e.col + 1 - s.col == e.col - s.col + 1;
    RectCellsAt(s.row, e.row + 1, s.col, e.col + 1, i, j, k);
  }

  /** The rectangle of `expandRange` has `rows * cols` cells. */
  lemma RectShape(s: Cell, e: Cell)
    requires s.row <= e.row && s.col <= e.col
    ensures |RectCells(s.row, e.row + 1, s.col, e.col + 1)| == (e.row - s.row + 1) * (e.col - s.col + 1)
  {
    RectCellsLength(s.row, e.row + 1, s.col, e.col + 1);
    assert e.row + 1 - s.row == e.row - s.row + 1 && e.col + 1 - s.col == e.col - s.col + 1;
  }

  /** Splitting text with a single space between two words gives the first word and then the
    * split of the rest. */
  lemma SplitAtSpace(a: string, b: string)
    requires forall j :: 0 <= j < |a| ==> !IsSpace(a[j])
    requires b == [] || !IsSpace(b[0])
    ensures SplitSpaces(a + " " + b) == [a] + SplitSpaces(b)
  {
    var s := a + " " + b;
    assert forall j :: 0 <= j < |a| ==> s[j] == a[j];
    SpaceAtIs(s, 0, |a|);
    assert SpaceRunEnd(s, |a| + 1) == |a| + 1;
    assert s[..|a|] == a && s[|a| + 1..] == b;
  }

  lemma {:induction false} SpaceAtIs(s: string, i: nat, k: nat)
    requires i <= k < |s| && IsSpace(s[k])
    requires forall j :: i <= j < k ==> !IsSpace(s[j])
    ensures SpaceAt(s, i) == k
    decreases k - i
  {
    if i < k {
      SpaceAtIs(s, i + 1, k);
    }
  }

  /** `parseSqref("A1:B2 D4")` lists the cells of `A1:B2` and then those of `D4`. */
  lemma SqrefOfTwo(a: string, b: string)
    requires a != [] && b != []
    requires forall j :: 0 <= j < |a| ==> !IsSpace(a[j])
    requires forall j :: 0 <= j < |b| ==> !IsSpace(b[j])
    ensures ParseSqrefSpec(a + " " + b) == ExpandRangeCells(a) + ExpandRangeCells(b)
  {
    var s := a + " " + b;
    assert s[0] == a[0] && s[|s| - 1] == b[|b| - 1];
    TrimFixes(s);
    SplitAtSpace(a, b);
    assert SpaceAt(b, 0) == |b|;
    assert SplitSpaces(b) == [b];
    assert Trim(s) == s;
    assert SplitSpaces(s) == [a, b];
    assert [a, b][..1] == [a];
    assert ConcatRanges([a]) == ExpandRangeCells(a) by { assert [a][..0] == []; }
  }

  // ---- the merged-cell tables ----

  function SpanOf(r: Range): Span
  {
    Span(r.end.row - r.start.row + 1, r.end.col - r.start.col + 1)
  }

  /** The cells of a merged range, row by row. */
  function RangeCells(r: Range): seq<Cell>
  {
    RectCells(r.start.row, r.end.row + 1, r.start.col, r.end.col + 1)
  }

  /** Sets every cell of `cells` except the anchor to the anchor, in order. */
  function Cover(m: map<Cell, Cell>, cells: seq<Cell>, anchor: Cell): map<Cell, Cell>
  {
    if cells == [] then m
    else
      var last := cells[|cells| - 1];
      var prior := Cover(m, cells[..|cells| - 1], anchor);
      if last == anchor then prior else prior[last := anchor]
  }

  /** `anchorMap` after the ranges: each start cell with its span, a later range winning. */
  function AnchorsOf(ranges: seq<Range>): map<Cell, Span>
  {
    if ranges == [] then map[]
    else
      var last := ranges[|ranges| - 1];
      AnchorsOf(ranges[..|ranges| - 1])[last.start := SpanOf(last)]
  }

  /** `coveredMap` after the ranges. */
  function CoveredOf(ranges: seq<Range>): map<Cell, Cell>
  {
    if ranges == [] then map[]
    else
      var last := ranges[|ranges| - 1];
      Cover(CoveredOf(ranges[..|ranges| - 1]), RangeCells(last), last.start)
  }

  /** `buildMergedMaps`: for each range, the anchor entry and then a nested loop over its
    * cells that skips the anchor. */
  method BuildMergedMaps(ranges: seq<Range>) returns (anchors: map<Cell, Span>, covered: map<Cell, Cell>)
    ensures anchors == AnchorsOf(ranges)
    ensures covered == CoveredOf(ranges)
  {
    anchors, covered := map[], map[];
    var i := 0;
    while i < |ranges|
      invariant 0 <= i <= |ranges|
      invariant anchors == AnchorsOf(ranges[..i]) && covered == CoveredOf(ranges[..i])
    {
      assert ranges[..i + 1][..i] == ranges[..i];
      var s, e := ranges[i].start, ranges[i].end;
      anchors := anchors[s := SpanOf(ranges[i])];
      covered := CoverRect(covered, s, e);
      i := i + 1;
    }
    assert ranges[..|ranges|] == ranges;
  }

  /** The nested loops of `buildMergedMaps` over one range: every cell but the anchor set to
    * the anchor, row by row. */
  method CoverRect(base: map<Cell, Cell>, s: Cell, e: Cell) returns (covered: map<Cell, Cell>)
    ensures covered == Cover(base, RectCells(s.row, e.row + 1, s.col, e.col + 1), s)
  {
    covered := base;
    var r := s.row;
    while r <= e.row
      invariant s.row <= r
      invariant r <= e.row + 1 || r == s.row
      invariant covered == Cover(base, RectCells(s.row, r, s.col, e.col + 1), s)
      decreases e.row + 1 - r
    {
      covered := CoverRow(covered, base, s, e, r);
      r := r + 1;
    }
  }

  /** The inner loop of `buildMergedMaps`: one row of a range. */
  method CoverRow(prior: map<Cell, Cell>, ghost base: map<Cell, Cell>, s: Cell, e: Cell, r: int)
    returns (covered: map<Cell, Cell>)
    requires s.row <= r && prior == Cover(base, RectCells(s.row, r, s.col, e.col + 1), s)
    ensures covered == Cover(base, RectCells(s.row, r + 1, s.col, e.col + 1), s)
  {
    covered := prior;
    ghost var above := RectCells(s.row, r, s.col, e.col + 1);
    assert above + RowCells(r, s.col, s.col) == above;
    var c := s.col;
    while c <= e.col
      invariant s.col <= c
      invariant c <= e.col + 1 || c == s.col
      invariant covered == Cover(base, above + RowCells(r, s.col, c), s)
      decreases e.col + 1 - c
    {
      CoverStep(base, above + RowCells(r, s.col, c), Cell(c, r), s);
      assert (above + RowCells(r, s.col, c)) + [Cell(c, r)] == above + RowCells(r, s.col, c + 1);
      if !(r == s.row && c == s.col) {
        covered := covered[Cell(c, r) := s];
      }
      c := c + 1;
    }
  }

  lemma CoverStep(m: map<Cell, Cell>, done: seq<Cell>, k: Cell, anchor: Cell)
    ensures Cover(m, done + [k], anchor) ==
      if k == anchor then Cover(m, done, anchor) else Cover(m, done, anchor)[k := anchor]
  {
    assert (done + [k])[..|done|] == done;
  }

  /** What `Cover` leaves: the listed cells other than the anchor point to the anchor, and the
    * rest of the table is as it was. */
  lemma {:induction false} CoverHas(m: map<Cell, Cell>, cells: seq<Cell>, anchor: Cell, k: Cell)
    ensures k in Cover(m, cells, anchor) <==> k in m || (k in cells && k != anchor)
    ensures k in cells && k != anchor ==> Cover(m, cells, anchor)[k] == anchor
    ensures !(k in cells && k != anchor) && k in m ==> Cover(m, cells, anchor)[k] == m[k]
    decreases |cells|
  {
    if cells != [] {
      var init := cells[..|cells| - 1];
      assert cells == init + [cells[|cells| - 1]];
      CoverHas(m, init, anchor, k);
    }
  }

  /** Inside a merge, every cell but the anchor is covered by that range's anchor (a later range
    * overriding an earlier one), and the anchor records the span. */
  lemma LastRangeWins(ranges: seq<Range>, k: Cell)
    requires ranges != []
    ensures var last := ranges[|ranges| - 1];
      AnchorsOf(ranges)[last.start] == SpanOf(last) &&
      (last.start.row <= k.row <= last.end.row && last.start.col <= k.col <= last.end.col && k != last.start ==>
        k in CoveredOf(ranges) && CoveredOf(ranges)[k] == last.start)
  {
    var last := ranges[|ranges| - 1];
    RectCellsHas(last.start.row, last.end.row + 1, last.start.col, last.end.col + 1, k);
    CoverHas(CoveredOf(ranges[..|ranges| - 1]), RangeCells(last), last.start, k);
  }

  /** A cell is covered exactly when some range contains it and it is not that range's anchor. */
  lemma {:induction false} CoveredIff(ranges: seq<Range>, k: Cell)
    ensures k in CoveredOf(ranges) <==>
      exists i :: 0 <= i < |ranges| && k in RangeCells(ranges[i]) && k != ranges[i].start
    decreases |ranges|
  {
    if ranges != [] {
      var init := ranges[..|ranges| - 1];
      var last := ranges[|ranges| - 1];
      CoveredIff(init, k);
      CoverHas(CoveredOf(init), RangeCells(last), last.start, k);
      if k in CoveredOf(ranges) {
        if k in CoveredOf(init) {
          var i :| 0 <= i < |init| && k in RangeCells(init[i]) && k != init[i].start;
          assert ranges[i] == init[i];
        } else {
          assert k in RangeCells(ranges[|ranges| - 1]) && k != ranges[|ranges| - 1].start;
        }
      } else {
        forall i | 0 <= i < |ranges|
          ensures !(k in RangeCells(ranges[i]) && k != ranges[i].start)
        {
          if i < |init| {
            assert ranges[i] == init[i];
          }
        }
      }
    }
  }

  /** A merge's anchor is never covered by that same merge. */
  lemma AnchorNotCovered(r: Range)
    ensures r.start !in CoveredOf([r])
  {
    assert [r][..0] == [];
    CoverHas(map[], RangeCells(r), r.start, r.start);
  }

  /** `mapMergedRef`: a covered cell is replaced by its anchor's A1 name; anything else,
    * including an unreadable address or a missing table, is returned unchanged. */
  function MapMergedRef(refA1: string, covered: Option<map<Cell, Cell>>): (r: string)
    ensures covered.None? ==> r == refA1
    ensures covered.Some? && ParseCellRef(refA1) !in covered.value ==> r == refA1
  {
    if covered.None? then refA1
    else
      var p := ParseCellRef(refA1);
      if p.row == 0 || p.col == 0 then refA1
      else if p !in covered.value then refA1
      else
        var anchor := covered.value[p];
        ColumnLetters(anchor.col) + IntToStr(anchor.row)
  }

  /** A covered cell maps to a name that reads back as its anchor. */
  lemma CoveredReadsBack(refA1: string, m: map<Cell, Cell>)
    requires var p := ParseCellRef(refA1);
      p.col >= 1 && p.row >= 1 && p in m && m[p].col >= 1 && m[p].row >= 0
    ensures ParseCellRef(MapMergedRef(refA1, Some(m))) == m[ParseCellRef(refA1)]
  {
    var a := m[ParseCellRef(refA1)];
    CellNameReadsBack(a.col, a.row);
  }

  /** A cell inside the last merge, other than its anchor, maps to a name that reads back as
    * that merge's anchor. */
  lemma MappedToAnchor(refA1: string, earlier: seq<Range>, last: Range)
    requires last.start.col >= 1 && last.start.row >= 1
    requires ParseCellRef(refA1).col >= 1 && ParseCellRef(refA1).row >= 1
    requires ParseCellRef(refA1) in RangeCells(last) && ParseCellRef(refA1) != last.start
    ensures ParseCellRef(MapMergedRef(refA1, Some(CoveredOf(earlier + [last])))) == last.start
  {
    var ranges := earlier + [last];
    var p := ParseCellRef(refA1);
    RectCellsHas(last.start.row, last.end.row + 1, last.start.col, last.end.col + 1, p);
    LastRangeWins(ranges, p);
    CoveredReadsBack(refA1, CoveredOf(ranges));
  }

  // ---- normalizeTargetPath ----

  function NormalizeTargetPath(target: string): (r: string)
    ensures |target| > 0 && target[0] == '/' ==> r == target[1..]
    ensures !(|target| > 0 && target[0] == '/') && |target| >= 3 && target[..3] == "xl/" ==> r == target
    ensures !(|target| > 0 && target[0] == '/') && !(|target| >= 3 && target[..3] == "xl/") ==> r == "xl/" + target
  {
    if |target| > 0 && target[0] == '/' then target[1..]
    else if |target| >= 3 && target[..3] == "xl/" then target
    else "xl/" + target
  }

  /** A relative target always ends up under `xl/`, and normalising it again changes nothing. */
  lemma RelativeTargetUnderXl(target: string)
    requires !(|target| > 0 && target[0] == '/')
    ensures var r := NormalizeTargetPath(target);
      |r| >= 3 && r[..3] == "xl/" && NormalizeTargetPath(r) == r
  {
    var r := NormalizeTargetPath(target);
    assert ("xl/" + target)[..3] == "xl/";
    assert r[0] == 'x';
  }
}
