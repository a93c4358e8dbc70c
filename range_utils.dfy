/** A1 references and ranges as the formula engine reads them: `parseRef`, `expandRange`
  * and `getRangeDimensions`. */
module RangeUtils {
  import opened Wrappers
  import opened Text
  import opened Numbers
  import opened A1

  /** A parsed reference: column number and row number. */
  datatype Ref = Ref(col: int, row: nat)

  /** The shape `{ rows, cols }` of a range. */
  datatype Shape = Shape(rows: int, cols: int)

  predicate AllLetters(s: string) { forall i :: 0 <= i < |s| ==> IsLetter(s[i]) }

  /** Index just past the run of ASCII letters that starts at `i`. */
  function LetterRunEnd(s: string, i: nat): (j: nat)
    requires i <= |s|
    ensures i <= j <= |s| && AllLetters(s[i..j])
    ensures j == |s| || !IsLetter(s[j])
    decreases |s| - i
  {
    if i < |s| && IsLetter(s[i]) then LetterRunEnd(s, i + 1) else i
  }

  /** What `parseRef` computes: the whole text must be letters then digits
    * (`/^([A-Z]+)(\d+)$/i`); the letters are read case-insensitively. */
  function ParseRefSpec(ref: string): Option<Ref>
  {
    var k := LetterRunEnd(ref, 0);
    if k == 0 || k == |ref| || !AllDigits(ref[k..]) then None
    else Some(Ref(ColumnNumber(Upper(ref[..k])), DigitsValue(ref[k..])))
  }

  /** `parseRef`: the regular expression selects the parts, then a loop folds the
    * upper-cased letters into a column number. */
  method ParseRef(ref: string) returns (r: Option<Ref>)
    ensures r == ParseRefSpec(ref)
  {
    var k := LetterRunEnd(ref, 0);
    if k == 0 || k == |ref| || !AllDigits(ref[k..]) {
      return None;
    }
    var col := Upper(ref[..k]);
    var colNum := 0;
    var i := 0;
    while i < |col|
      invariant 0 <= i <= |col|
      invariant colNum == ColumnNumber(col[..i])
    {
      assert col[..i + 1][..i] == col[..i];
      colNum := colNum * 26 + (col[i] as int - 64);
      i := i + 1;
    }
    assert col[..|col|] == col;
    r := Some(Ref(colNum, DigitsValue(ref[k..])));
  }

  /** The references `parseRef` accepts: one or more letters followed by one or more digits. */
  predicate IsA1Text(s: string)
  {
    exists k :: 0 < k < |s| && AllLetters(s[..k]) && AllDigits(s[k..])
  }

  lemma ParseRefAcceptsExactly(s: string)
    ensures ParseRefSpec(s).Some? <==> IsA1Text(s)
  {
    var k := LetterRunEnd(s, 0);
    if ParseRefSpec(s).Some? {
      assert s[..k] == s[0..k];
      assert 0 < k < |s| && AllLetters(s[..k]) && AllDigits(s[k..]);
    }
    if IsA1Text(s) {
      var j :| 0 < j < |s| && AllLetters(s[..j]) && AllDigits(s[j..]);
      assert IsDigit(s[j..][0]);
      LetterRunEndAt(s, j);
    }
  }

  /** `/^[A-Za-z]+\d+$/`, decided by scanning the letter run. */
  predicate LettersThenDigits(s: string)
  {
    var k := LetterRunEnd(s, 0);
    0 < k < |s| && AllDigits(s[k..])
  }

  lemma LettersThenDigitsIsA1(s: string)
    ensures LettersThenDigits(s) <==> IsA1Text(s)
  {
    ParseRefAcceptsExactly(s);
  }

  lemma UpperOfLetters(s: string)
    requires AllLetters(s)
    ensures AllUpper(Upper(s))
  {
  }

  /** The column of an accepted reference is at least 1. */
  lemma ParseRefColumnPositive(s: string)
    requires ParseRefSpec(s).Some?
    ensures ParseRefSpec(s).value.col >= 1
  {
    var k := LetterRunEnd(s, 0);
    assert s[..k] == s[0..k];
    UpperOfLetters(s[..k]);
    ColumnNumberNonNegative(Upper(s[..k]));
  }

  /** The name of a cell parses back to that cell. */
  lemma ParseCellName(col: int, row: nat)
    requires col >= 1
    ensures ParseRefSpec(CellName(col, row)) == Some(Ref(col, row))
  {
    var l := ColumnLetters(col);
    var d := NatToStr(row);
    var s := l + d;
    LetterRunEndAt(s, |l|);
    assert s[..|l|] == l && s[|l|..] == d;
    assert Upper(l) == l;
    LettersThenNumber(col);
    NatToStrRoundTrip(row);
  }

  lemma LetterRunEndAt(s: string, k: nat)
    requires k < |s| && AllLetters(s[..k]) && !IsLetter(s[k])
    ensures LetterRunEnd(s, 0) == k
  {
    LetterRunEndFrom(s, 0, k);
  }

  lemma {:induction false} LetterRunEndFrom(s: string, i: nat, k: nat)
    requires i <= k < |s| && AllLetters(s[..k]) && !IsLetter(s[k])
    ensures LetterRunEnd(s, i) == k
    decreases k - i
  {
    if i < k {
      assert IsLetter(s[..k][i]);
      LetterRunEndFrom(s, i + 1, k);
    }
  }

  /** The two endpoints of `start:end`, when the text has a `:` and both parse. */
  function RangeEnds(range: string): Option<(Ref, Ref)>
  {
    var parts := Split(range, ':');
    if |parts| == 1 then None
    else
      var s := ParseRefSpec(parts[0]);
      var e := ParseRefSpec(parts[1]);
      if s.Some? && e.Some? then Some((s.value, e.value)) else None
  }

  /** `getRangeDimensions`: 1x1 for a single or unreadable reference, otherwise
    * `end - start + 1` along each axis (which is not positive for a reversed range). */
  function GetRangeDimensions(rangeStr: string): (d: Shape)
    ensures ':' !in rangeStr ==> d == Shape(1, 1)
    ensures RangeEnds(rangeStr).None? ==> d == Shape(1, 1)
    ensures RangeEnds(rangeStr).Some? ==>
      var (s, e) := RangeEnds(rangeStr).value;
      d == Shape(e.row - s.row + 1, e.col - s.col + 1)
  {
    var ends := RangeEnds(rangeStr);
    if ends.Some? then Shape(ends.value.1.row - ends.value.0.row + 1, ends.value.1.col - ends.value.0.col + 1)
    else Shape(1, 1)
  }

  /** Names of row `r`, columns `c0 .. c1 - 1`, left to right. */
  function RowNames(r: nat, c0: int, c1: int): (names: seq<string>)
    ensures |names| == if c1 > c0 then c1 - c0 else 0
    decreases c1 - c0
  {
    if c1 <= c0 then [] else RowNames(r, c0, c1 - 1) + [CellName(c1 - 1, r)]
  }

  /** Names of rows `r0 .. r1 - 1`, each row left to right. */
  function RectNames(r0: nat, r1: int, c0: int, c1: int): seq<string>
    decreases r1 - r0
  {
    if r1 <= r0 then [] else RectNames(r0, r1 - 1, c0, c1) + RowNames(r1 - 1, c0, c1)
  }

  /** What `expandRange` returns. */
  function ExpandRangeSpec(range: string): seq<string>
  {
    var parts := Split(range, ':');
    var ends := RangeEnds(range);
    if range == [] then []
    else if |parts| == 1 then [range]
    else if ends.Some? then
      RectNames(ends.value.0.row, ends.value.1.row + 1, ends.value.0.col, ends.value.1.col + 1)
    else [parts[0]]
  }

  /** The inner loop of `expandRange`: spell column `c`, last letter first. */
  method SpellColumn(c: int) returns (colStr: string)
    ensures colStr == ColumnLetters(c)
  {
    colStr := "";
    var cc := c;
    while cc > 0
      invariant ColumnLetters(c) == ColumnLetters(cc) + colStr
    {
      var rem := (cc - 1) % 26;
      colStr := [(65 + rem) as char] + colStr;
      cc := (cc - 1) / 26;
    }
  }

  /** `expandRange`: a text without `:` is returned as it is, an unreadable endpoint
    * gives the start text, and otherwise the rectangle is listed row by row. */
  method ExpandRange(range: string) returns (refs: seq<string>)
    ensures refs == ExpandRangeSpec(range)
  {
    if range == [] {
      return [];
    }
    var parts := Split(range, ':');
    if |parts| == 1 {
      return [parts[0]];
    }
    var s := ParseRef(parts[0]);
    var e := ParseRef(parts[1]);
    if s.None? || e.None? {
      return [parts[0]];
    }
    assert RangeEnds(range) == Some((s.value, e.value));
    ExpandOfEnds(range, s.value, e.value);
    refs := ExpandRect(s.value.row, s.value.col, e.value.row, e.value.col);
  }

  /** The nested loops of `expandRange`: rows `sr..er`, each from column `sc` to `ec`. */
  method ExpandRect(sr: nat, sc: int, er: nat, ec: int) returns (refs: seq<string>)
    ensures refs == RectNames(sr, er + 1, sc, ec + 1)
  {
    refs := [];
    var r: nat := sr;
    while r <= er
      invariant sr <= r
      invariant r <= er + 1 || r == sr
      invariant refs == RectNames(sr, r, sc, ec + 1)
      decreases er + 1 - r
    {
      var c := sc;
      while c <= ec
        invariant sc <= c
        invariant c <= ec + 1 || c == sc
        invariant refs == RectNames(sr, r, sc, ec + 1) + RowNames(r, sc, c)
        decreases ec + 1 - c
      {
        var colStr := SpellColumn(c);
        refs := refs + [colStr + NatToStr(r)];
        c := c + 1;
      }
      r := r + 1;
    }
  }

  /** A string without `:` expands to itself. */
  lemma ExpandSingle(range: string)
    requires range != [] && ':' !in range
    ensures ExpandRangeSpec(range) == [range]
  {
  }

  /** An unreadable endpoint yields just the start text. */
  lemma ExpandUnreadable(range: string)
    requires ':' in range && RangeEnds(range).None?
    ensures ExpandRangeSpec(range) == [Split(range, ':')[0]]
  {
  }

  lemma {:induction false} RectNamesEmpty(r0: nat, r1: int, c0: int, c1: int)
    requires r1 <= r0 || c1 <= c0
    ensures RectNames(r0, r1, c0, c1) == []
    decreases r1 - r0
  {
    if r1 > r0 {
      RectNamesEmpty(r0, r1 - 1, c0, c1);
    }
  }

  /** A reversed range expands to nothing. */
  lemma ExpandReversed(range: string, s: Ref, e: Ref)
    requires RangeEnds(range) == Some((s, e))
    requires s.row > e.row || s.col > e.col
    ensures ExpandRangeSpec(range) == []
  {
    ExpandOfEnds(range, s, e);
    RectNamesEmpty(s.row, e.row + 1, s.col, e.col + 1);
  }

  lemma {:induction false} RectNamesLength(r0: nat, r1: int, c0: int, c1: int)
    requires r1 >= r0 && c1 >= c0
    ensures |RectNames(r0, r1, c0, c1)| == (r1 - r0) * (c1 - c0)
    decreases r1 - r0
  {
    if r1 > r0 {
      RectNamesLength(r0, r1 - 1, c0, c1);
      assert (r1 - r0) * (c1 - c0) == (r1 - 1 - r0) * (c1 - c0) + (c1 - c0);
    }
  }

  lemma {:induction false} RowNamesAt(r: nat, c0: int, c1: int, j: nat)
    requires c0 + j < c1
    ensures RowNames(r, c0, c1)[j] == CellName(c0 + j, r)
    decreases c1 - c0
  {
    if c0 + j < c1 - 1 {
      RowNamesAt(r, c0, c1 - 1, j);
    }
  }

  lemma MulLeq(a: int, b: int, w: int)
    requires 0 <= a <= b && w >= 0
    ensures a * w <= b * w
  {
  }

  lemma MulSucc(i: int, w: int)
    ensures (i + 1) * w == i * w + w
  {
  }

  /** Row-major order: position `i * w + j` holds row `r0 + i`, column `c0 + j`. */
  lemma {:induction false} RectNamesAt(r0: nat, r1: int, c0: int, c1: int, i: nat, j: nat, k: nat)
    requires r0 + i < r1 && c0 + j < c1
    requires k == i * (c1 - c0) + j
    ensures k < |RectNames(r0, r1, c0, c1)| && RectNames(r0, r1, c0, c1)[k] == CellName(c0 + j, r0 + i)
    decreases r1 - r0
  {
    var w := c1 - c0;
    var prefix := RectNames(r0, r1 - 1, c0, c1);
    var row := RowNames(r1 - 1, c0, c1);
    assert RectNames(r0, r1, c0, c1) == prefix + row;
    RectNamesLength(r0, r1 - 1, c0, c1);
    var h := r1 - 1 - r0;
    assert |prefix| == h * w;
    MulSucc(i, w);
    if i < h {
      RectNamesAt(r0, r1 - 1, c0, c1, i, j, k);
      MulLeq(i + 1, h, w);
    } else {
      RowNamesAt(r1 - 1, c0, c1, j);
    }
  }


  lemma ExpandOfEnds(range: string, s: Ref, e: Ref)
    requires RangeEnds(range) == Some((s, e))
    ensures ExpandRangeSpec(range) == RectNames(s.row, e.row + 1, s.col, e.col + 1)
    ensures GetRangeDimensions(range) == Shape(e.row - s.row + 1, e.col - s.col + 1)
  {
    assert |Split(range, ':')| != 1;
    assert range != [];
  }

  /** For start <= end on both axes the expansion is rows x cols long. */
  lemma ExpandLength(range: string, s: Ref, e: Ref)
    requires RangeEnds(range) == Some((s, e))
    requires s.row <= e.row && s.col <= e.col
    ensures |ExpandRangeSpec(range)| == GetRangeDimensions(range).rows * GetRangeDimensions(range).cols
  {
    ExpandOfEnds(range, s, e);
    RectNamesLength(s.row, e.row + 1, s.col, e.col + 1);
  }

  /** Row-major order over the rectangle of a range: entry `k = i * cols + j` is row
    * `r0 + i`, column `c0 + j` (see `ExpandOfEnds` for the range it belongs to). */
  lemma RectNamesRowMajor(r0: nat, r1: int, c0: int, c1: int, i: nat, j: nat, k: nat)
    requires r0 + i <= r1 && c0 + j <= c1
    requires k == i * (c1 - c0 + 1) + j
    ensures k < |RectNames(r0, r1 + 1, c0, c1 + 1)| && RectNames(r0, r1 + 1, c0, c1 + 1)[k] == CellName(c0 + j, r0 + i)
  {
    assert c1 + 1 - c0 == c1 - c0 + 1;
    RectNamesAt(r0, r1 + 1, c0, c1 + 1, i, j, k);
  }

  /** Every expanded name reads back as a cell inside the rectangle. */
  lemma ExpandInside(range: string, s: Ref, e: Ref, k: nat)
    requires RangeEnds(range) == Some((s, e))
    requires k < |ExpandRangeSpec(range)|
    ensures var p := ParseRefSpec(ExpandRangeSpec(range)[k]);
      p.Some? && s.row <= p.value.row <= e.row && s.col <= p.value.col <= e.col
  {
    ParseRefColumnPositive(Split(range, ':')[0]);
    ExpandOfEnds(range, s, e);
    RectNamesInside(s.row, e.row + 1, s.col, e.col + 1, k);
  }

  /** Every emitted name reads back as a cell inside the rectangle. */
  lemma {:induction false} RectNamesInside(r0: nat, r1: int, c0: int, c1: int, k: nat)
    requires c0 >= 1 && k < |RectNames(r0, r1, c0, c1)|
    ensures var p := ParseRefSpec(RectNames(r0, r1, c0, c1)[k]);
      p.Some? && r0 <= p.value.row < r1 && c0 <= p.value.col < c1
    decreases r1 - r0
  {
    var whole := RectNames(r0, r1, c0, c1);
    assert r1 > r0;
    var prefix := RectNames(r0, r1 - 1, c0, c1);
    var row := RowNames(r1 - 1, c0, c1);
    assert whole == prefix + row;
    if k < |prefix| {
      assert whole[k] == prefix[k];
      RectNamesInside(r0, r1 - 1, c0, c1, k);
    } else {
      var j := k - |prefix|;
      assert whole[k] == row[j];
      RowNamesAt(r1 - 1, c0, c1, j);
      ParseCellName(c0 + j, r1 - 1);
    }
  }
}
