/** MATCH, INDEX, VLOOKUP and HLOOKUP. These receive their range arguments unflattened,
  * as `Arr` values, with the shape `{ rows, cols }` of each range argument beside them. */
module Lookup {
  import opened Wrappers
  import opened Text
  import opened Numbers
  import opened Values
  import opened Errors
  import opened RangeUtils

  /** The shape given for argument `i`, if that argument was a range. */
  function ShapeAt(meta: seq<Option<Shape>>, i: nat): Option<Shape>
  {
    if i < |meta| then meta[i] else None
  }

  /** `rows || 1` and `cols || length`, or `1 × length` without a shape. */
  function Dims(len: nat, shape: Option<Shape>): (d: (int, int))
    ensures d.0 != 0 && (len > 0 ==> d.1 != 0)
  {
    if shape.None? then (1, len)
    else (if shape.value.rows == 0 then 1 else shape.value.rows,
          if shape.value.cols == 0 then len else shape.value.cols)
  }

  // ---- comparing a cell with the lookup value ----

  /** `typeof v === 'number' || !isNaN(Number(v))`: NaN itself counts as a number here. */
  predicate IsNumLookup(v: Value) { v.NaN? || ToNumber(v).Some? }

  /** The exact-match test: numerically equal for a numeric lookup (so a NaN lookup matches
    * nothing), otherwise equal texts after lower-casing. */
  predicate ExactHit(val: Value, lookup: Value)
  {
    if IsNumLookup(lookup) then ToNumber(val).Some? && ToNumber(val) == ToNumber(lookup)
    else Lower(CellText(val)) == Lower(CellText(lookup))
  }

  /** `compareValues`' numeric test: a number that is not the empty string. */
  predicate IsNumber(v: Value) { ToNumber(v).Some? && v != Str("") }

  function Sign(x: real): (s: int)
    ensures -1 <= s <= 1 && (s < 0 <==> x < 0.0) && (s > 0 <==> x > 0.0)
  {
    if x < 0.0 then -1 else if x > 0.0 then 1 else 0
  }

  /** The sign of `compareValues(a, b)`: by value for two numbers, otherwise the order of
    * the lower-cased texts (code-unit order standing in for `localeCompare`). */
  function Compare(a: Value, b: Value): int
  {
    if IsNumber(a) && IsNumber(b) then Sign(ToNumber(a).value - ToNumber(b).value)
    else StrCompare(Lower(CellText(a)), Lower(CellText(b)))
  }

  // ---- the two searches ----

  /** The exact-hit test applied to every cell. */
  function Hits(arr: seq<Value>, lookup: Value): (h: seq<bool>)
    ensures |h| == |arr|
    ensures forall i :: 0 <= i < |arr| ==> h[i] == ExactHit(arr[i], lookup)
  {
    seq(|arr|, i requires 0 <= i < |arr| => ExactHit(arr[i], lookup))
  }

  /** The first position holding `true`, or -1. */
  function FirstTrue(h: seq<bool>): (r: int)
    ensures -1 <= r < |h|
    ensures r >= 0 ==> h[r] && forall i :: 0 <= i < r ==> !h[i]
    ensures r == -1 ==> forall i :: 0 <= i < |h| ==> !h[i]
  {
    if h == [] then -1
    else if h[0] then 0
    else
      var r := FirstTrue(h[1..]);
      if r < 0 then -1 else r + 1
  }

  /** The first true position is the one with no true position before it. */
  lemma FirstTrueIs(h: seq<bool>, k: int)
    requires -1 <= k < |h|
    requires k >= 0 ==> h[k]
    requires forall j :: 0 <= j < (if k >= 0 then k else |h|) ==> !h[j]
    ensures FirstTrue(h) == k
  {
    var r := FirstTrue(h);
    if r >= 0 && k >= 0 {
      assert h[r] && h[k];
    }
  }

  /** The first position whose cell is an exact hit, or -1. */
  function FirstExact(arr: seq<Value>, lookup: Value): (r: int)
    ensures -1 <= r < |arr|
    ensures r >= 0 ==> ExactHit(arr[r], lookup)
    ensures r >= 0 ==> forall i {:trigger ExactHit(arr[i], lookup)} :: 0 <= i < r ==> !ExactHit(arr[i], lookup)
    ensures r == -1 ==> forall i {:trigger ExactHit(arr[i], lookup)} :: 0 <= i < |arr| ==> !ExactHit(arr[i], lookup)
  {
    var h := Hits(arr, lookup);
    var r := FirstTrue(h);
    assert r >= 0 ==> h[r];
    r
  }

  method FindExact(arr: seq<Value>, lookup: Value) returns (idx: int)
    ensures idx == FirstExact(arr, lookup)
  {
    ghost var h := Hits(arr, lookup);
    var i := 0;
    while i < |arr|
      invariant i <= |arr|
      invariant forall j :: 0 <= j < i ==> !h[j]
    {
      if ExactHit(arr[i], lookup) {
        assert h[i];
        FirstTrueIs(h, i);
        return i;
      }
      assert !h[i];
      i := i + 1;
    }
    FirstTrueIs(h, -1);
    return -1;
  }

  /** Does cell `v` replace the best candidate so far? Ascending: the largest value not above
    * the lookup, keeping the first of equals; descending: the smallest not below it. */
  predicate Improves(v: Value, lookup: Value, asc: bool, best: int, bestVal: Value)
  {
    !IsBlank(v) &&
    (if asc then Compare(v, lookup) <= 0 && (best == -1 || Compare(v, bestVal) > 0)
     else Compare(v, lookup) >= 0 && (best == -1 || Compare(v, bestVal) < 0))
  }

  /** The best candidate among the first `n` cells, or -1; blanks are skipped. */
  function ApproxBest(arr: seq<Value>, lookup: Value, asc: bool, n: nat): (r: int)
    requires n <= |arr|
    ensures -1 <= r < n
    ensures r >= 0 ==> !IsBlank(arr[r])
  {
    if n == 0 then -1
    else
      var best := ApproxBest(arr, lookup, asc, n - 1);
      if Improves(arr[n - 1], lookup, asc, best, At(arr, best)) then n - 1 else best
  }

  method ApproxSearch(arr: seq<Value>, lookup: Value, asc: bool) returns (best: int)
    ensures best == ApproxBest(arr, lookup, asc, |arr|)
  {
    best := -1;
    var bestVal := Undef;
    var i := 0;
    while i < |arr|
      invariant i <= |arr|
      invariant best == ApproxBest(arr, lookup, asc, i)
      invariant bestVal == At(arr, best)
    {
      var val := arr[i];
      ApproxStep(arr, lookup, asc, i);
      if Improves(val, lookup, asc, best, bestVal) {
        best, bestVal := i, val;
      }
      i := i + 1;
    }
  }

  /** One more cell either beats the best so far or leaves it. */
  lemma ApproxStep(arr: seq<Value>, lookup: Value, asc: bool, i: nat)
    requires i < |arr|
    ensures var best := ApproxBest(arr, lookup, asc, i);
      ApproxBest(arr, lookup, asc, i + 1) ==
      if Improves(arr[i], lookup, asc, best, At(arr, best)) then i else best
  {
  }

  // ---- what the approximate search finds among numbers ----

  /** A value `Number()` reads without printing an array: a number, a boolean, or non-empty
    * text that reads as a number. */
  predicate NumericCell(v: Value)
  {
    match v
    case Num(_) => true
    case Bool(_) => true
    case Str(s) => s != "" && StrToNumber(s).Some?
    case _ => false
  }

  /** The number a numeric cell coerces to. */
  function NumOf(v: Value): real
  {
    match v
    case Num(n) => n
    case Bool(b) => BoolToNum(b)
    case Str(s) => if StrToNumber(s).Some? then StrToNumber(s).value else 0.0
    case _ => 0.0
  }

  lemma NumericCellRead(v: Value)
    requires NumericCell(v)
    ensures IsNumber(v) && ToNumber(v) == Some(NumOf(v))
  {
  }

  /** The lookup value and every non-blank cell are numbers. */
  predicate NumericCandidates(arr: seq<Value>, lookup: Value)
  {
    NumericCell(lookup) && forall i :: 0 <= i < |arr| ==> IsBlank(arr[i]) || NumericCell(arr[i])
  }

  /** A non-blank cell among the first `n` that is not above the lookup. */
  predicate Below(arr: seq<Value>, lookup: Value, i: int)
    requires NumericCandidates(arr, lookup)
  {
    0 <= i < |arr| && !IsBlank(arr[i]) && NumOf(arr[i]) <= NumOf(lookup)
  }

  predicate Above(arr: seq<Value>, lookup: Value, i: int)
    requires NumericCandidates(arr, lookup)
  {
    0 <= i < |arr| && !IsBlank(arr[i]) && NumOf(arr[i]) >= NumOf(lookup)
  }

  /** `r` is the first of the largest non-blank values among the first `n` that are not
    * above the lookup. */
  predicate FirstLargestBelow(arr: seq<Value>, lookup: Value, n: nat, r: int)
    requires n <= |arr| && NumericCandidates(arr, lookup)
  {
    0 <= r < n && Below(arr, lookup, r) &&
    (forall i :: 0 <= i < n && Below(arr, lookup, i) ==> NumOf(arr[i]) <= NumOf(arr[r])) &&
    (forall i :: 0 <= i < r && Below(arr, lookup, i) ==> NumOf(arr[i]) < NumOf(arr[r]))
  }

  /** No cell among the first `n` is below the lookup. */
  predicate NoBelow(arr: seq<Value>, lookup: Value, n: nat)
    requires n <= |arr| && NumericCandidates(arr, lookup)
  {
    forall i :: 0 <= i < n ==> !Below(arr, lookup, i)
  }

  /** No cell among the first `n` is above the lookup. */
  predicate NoAbove(arr: seq<Value>, lookup: Value, n: nat)
    requires n <= |arr| && NumericCandidates(arr, lookup)
  {
    forall i :: 0 <= i < n ==> !Above(arr, lookup, i)
  }

  /** `r` is the first of the smallest non-blank values among the first `n` that are not
    * below the lookup. */
  predicate FirstSmallestAbove(arr: seq<Value>, lookup: Value, n: nat, r: int)
    requires n <= |arr| && NumericCandidates(arr, lookup)
  {
    0 <= r < n && Above(arr, lookup, r) &&
    (forall i :: 0 <= i < n && Above(arr, lookup, i) ==> NumOf(arr[i]) >= NumOf(arr[r])) &&
    (forall i :: 0 <= i < r && Above(arr, lookup, i) ==> NumOf(arr[i]) > NumOf(arr[r]))
  }

  /** A candidate stays the best when the next cell does not beat it. */
  lemma FirstLargestBelowKeeps(arr: seq<Value>, lookup: Value, n: nat, r: int)
    requires 0 < n <= |arr| && NumericCandidates(arr, lookup)
    requires FirstLargestBelow(arr, lookup, n - 1, r)
    requires !Below(arr, lookup, n - 1) || NumOf(arr[n - 1]) <= NumOf(arr[r])
    ensures FirstLargestBelow(arr, lookup, n, r)
  {
  }

  lemma FirstSmallestAboveKeeps(arr: seq<Value>, lookup: Value, n: nat, r: int)
    requires 0 < n <= |arr| && NumericCandidates(arr, lookup)
    requires FirstSmallestAbove(arr, lookup, n - 1, r)
    requires !Above(arr, lookup, n - 1) || NumOf(arr[n - 1]) >= NumOf(arr[r])
    ensures FirstSmallestAbove(arr, lookup, n, r)
  {
  }

  /** Whether the cell at `n - 1` beats the best of the cells before it, read on numbers. */
  predicate NumImproves(arr: seq<Value>, lookup: Value, asc: bool, n: nat, best: int)
    requires 0 < n <= |arr| && NumericCandidates(arr, lookup) && -1 <= best < n - 1
    requires best >= 0 ==> !IsBlank(arr[best])
  {
    var v := arr[n - 1];
    !IsBlank(v) &&
    (if asc then NumOf(v) <= NumOf(lookup) && (best == -1 || NumOf(v) > NumOf(arr[best]))
     else NumOf(v) >= NumOf(lookup) && (best == -1 || NumOf(v) < NumOf(arr[best])))
  }

  /** Among numbers, `compareValues` is the order of the values. */
  lemma ImprovesOnNumbers(arr: seq<Value>, lookup: Value, asc: bool, n: nat, best: int)
    requires 0 < n <= |arr| && NumericCandidates(arr, lookup) && -1 <= best < n - 1
    requires best >= 0 ==> !IsBlank(arr[best])
    ensures Improves(arr[n - 1], lookup, asc, best, At(arr, best)) == NumImproves(arr, lookup, asc, n, best)
  {
    var v := arr[n - 1];
    if !IsBlank(v) {
      NumericCellRead(v);
      NumericCellRead(lookup);
      assert Compare(v, lookup) == Sign(NumOf(v) - NumOf(lookup));
      if best >= 0 {
        NumericCellRead(arr[best]);
        assert Compare(v, At(arr, best)) == Sign(NumOf(v) - NumOf(arr[best]));
      }
    }
  }

  /** Among numbers, the ascending search finds the first of the largest values not above
    * the lookup, and -1 exactly when every value is above it. */
  lemma {:induction false} AscendingFindsLargestBelow(arr: seq<Value>, lookup: Value, n: nat)
    requires n <= |arr| && NumericCandidates(arr, lookup)
    ensures ApproxBest(arr, lookup, true, n) == -1 <==> NoBelow(arr, lookup, n)
    ensures ApproxBest(arr, lookup, true, n) >= 0 ==>
      FirstLargestBelow(arr, lookup, n, ApproxBest(arr, lookup, true, n))
  {
    if n > 0 {
      AscendingFindsLargestBelow(arr, lookup, n - 1);
      ApproxStep(arr, lookup, true, n - 1);
      ImprovesOnNumbers(arr, lookup, true, n, ApproxBest(arr, lookup, true, n - 1));
      LargestBelowStep(arr, lookup, n, ApproxBest(arr, lookup, true, n - 1), ApproxBest(arr, lookup, true, n));
    }
  }

  /** The ascending step: the best of `n - 1` cells and the next cell give the best of `n`. */
  lemma LargestBelowStep(arr: seq<Value>, lookup: Value, n: nat, best: int, r: int)
    requires 0 < n <= |arr| && NumericCandidates(arr, lookup) && -1 <= best < n - 1
    requires best == -1 <==> NoBelow(arr, lookup, n - 1)
    requires best >= 0 ==> FirstLargestBelow(arr, lookup, n - 1, best)
    requires best >= 0 ==> !IsBlank(arr[best])
    requires r == if NumImproves(arr, lookup, true, n, best) then n - 1 else best
    ensures r == -1 <==> NoBelow(arr, lookup, n)
    ensures r >= 0 ==> FirstLargestBelow(arr, lookup, n, r)
  {
    if NumImproves(arr, lookup, true, n, best) {
      LargestBelowTakesNew(arr, lookup, n, best);
    } else if best >= 0 {
      FirstLargestBelowKeeps(arr, lookup, n, best);
    } else {
      assert !Below(arr, lookup, n - 1);
    }
  }

  /** The next cell beats the best so far: it becomes the best. */
  lemma LargestBelowTakesNew(arr: seq<Value>, lookup: Value, n: nat, best: int)
    requires 0 < n <= |arr| && NumericCandidates(arr, lookup) && -1 <= best < n - 1
    requires best == -1 ==> NoBelow(arr, lookup, n - 1)
    requires best >= 0 ==> FirstLargestBelow(arr, lookup, n - 1, best)
    requires best >= 0 ==> !IsBlank(arr[best])
    requires NumImproves(arr, lookup, true, n, best)
    ensures !NoBelow(arr, lookup, n)
    ensures FirstLargestBelow(arr, lookup, n, n - 1)
  {
    assert Below(arr, lookup, n - 1);
    assert best >= 0 ==> NumOf(arr[best]) < NumOf(arr[n - 1]);
    NewBestBelow(arr, lookup, n - 1, best);
  }

  /** A cell below the lookup that beats the best of the cells before it is the best of them
    * all. */
  lemma NewBestBelow(arr: seq<Value>, lookup: Value, m: nat, best: int)
    requires m < |arr| && NumericCandidates(arr, lookup) && -1 <= best < m
    requires Below(arr, lookup, m)
    requires best == -1 ==> NoBelow(arr, lookup, m)
    requires best >= 0 ==> FirstLargestBelow(arr, lookup, m, best) && NumOf(arr[best]) < NumOf(arr[m])
    ensures !NoBelow(arr, lookup, m + 1)
    ensures FirstLargestBelow(arr, lookup, m + 1, m)
  {
    var v := NumOf(arr[m]);
    forall i | 0 <= i < m && Below(arr, lookup, i)
      ensures NumOf(arr[i]) < v
    {
      if best >= 0 {
        assert NumOf(arr[i]) <= NumOf(arr[best]);
      }
    }
  }

  /** Among numbers, the descending search finds the first of the smallest values not below
    * the lookup, and -1 exactly when every value is below it. */
  lemma {:induction false} DescendingFindsSmallestAbove(arr: seq<Value>, lookup: Value, n: nat)
    requires n <= |arr| && NumericCandidates(arr, lookup)
    ensures ApproxBest(arr, lookup, false, n) == -1 <==> NoAbove(arr, lookup, n)
    ensures ApproxBest(arr, lookup, false, n) >= 0 ==>
      FirstSmallestAbove(arr, lookup, n, ApproxBest(arr, lookup, false, n))
  {
    if n > 0 {
      DescendingFindsSmallestAbove(arr, lookup, n - 1);
      ApproxStep(arr, lookup, false, n - 1);
      ImprovesOnNumbers(arr, lookup, false, n, ApproxBest(arr, lookup, false, n - 1));
      SmallestAboveStep(arr, lookup, n, ApproxBest(arr, lookup, false, n - 1), ApproxBest(arr, lookup, false, n));
    }
  }

  /** The descending step. */
  lemma SmallestAboveStep(arr: seq<Value>, lookup: Value, n: nat, best: int, r: int)
    requires 0 < n <= |arr| && NumericCandidates(arr, lookup) && -1 <= best < n - 1
    requires best == -1 <==> NoAbove(arr, lookup, n - 1)
    requires best >= 0 ==> FirstSmallestAbove(arr, lookup, n - 1, best)
    requires best >= 0 ==> !IsBlank(arr[best])
    requires r == if NumImproves(arr, lookup, false, n, best) then n - 1 else best
    ensures r == -1 <==> NoAbove(arr, lookup, n)
    ensures r >= 0 ==> FirstSmallestAbove(arr, lookup, n, r)
  {
    if NumImproves(arr, lookup, false, n, best) {
      SmallestAboveTakesNew(arr, lookup, n, best);
    } else if best >= 0 {
      FirstSmallestAboveKeeps(arr, lookup, n, best);
    } else {
      assert !Above(arr, lookup, n - 1);
    }
  }

  lemma SmallestAboveTakesNew(arr: seq<Value>, lookup: Value, n: nat, best: int)
    requires 0 < n <= |arr| && NumericCandidates(arr, lookup) && -1 <= best < n - 1
    requires best == -1 ==> NoAbove(arr, lookup, n - 1)
    requires best >= 0 ==> FirstSmallestAbove(arr, lookup, n - 1, best)
    requires best >= 0 ==> !IsBlank(arr[best])
    requires NumImproves(arr, lookup, false, n, best)
    ensures !NoAbove(arr, lookup, n)
    ensures FirstSmallestAbove(arr, lookup, n, n - 1)
  {
    assert Above(arr, lookup, n - 1);
    assert best >= 0 ==> NumOf(arr[best]) > NumOf(arr[n - 1]);
    NewBestAbove(arr, lookup, n - 1, best);
  }

  lemma NewBestAbove(arr: seq<Value>, lookup: Value, m: nat, best: int)
    requires m < |arr| && NumericCandidates(arr, lookup) && -1 <= best < m
    requires Above(arr, lookup, m)
    requires best == -1 ==> NoAbove(arr, lookup, m)
    requires best >= 0 ==> FirstSmallestAbove(arr, lookup, m, best) && NumOf(arr[best]) > NumOf(arr[m])
    ensures !NoAbove(arr, lookup, m + 1)
    ensures FirstSmallestAbove(arr, lookup, m + 1, m)
  {
    var v := NumOf(arr[m]);
    forall i | 0 <= i < m && Above(arr, lookup, i)
      ensures NumOf(arr[i]) > v
    {
      if best >= 0 {
        assert NumOf(arr[i]) >= NumOf(arr[best]);
      }
    }
  }

  // ---- MATCH ----

  /** MATCH(lookup, array, [type]): the 1-based position found, `#N/A` for a non-array, an
    * empty array, a 2-D shape or no hit. Type 0 is exact; a type of at least 1 (the default)
    * searches ascending; anything else, NaN included, descending. */
  function MatchSpec(args: seq<Value>, meta: seq<Option<Shape>>): Value
  {
    var lookup := Arg(args, 0);
    var a := Arg(args, 1);
    var matchType := if Arg(args, 2).Undef? then Some(1.0) else ToNumber(args[2]);
    if !a.Arr? || a.items == [] then Error(NA)
    else
      var (rows, cols) := Dims(|a.items|, ShapeAt(meta, 1));
      if rows > 1 && cols > 1 then Error(NA)
      else
        var i := if matchType == Some(0.0) then FirstExact(a.items, lookup)
          else ApproxBest(a.items, lookup, matchType.Some? && matchType.value >= 1.0, |a.items|);
        if i < 0 then Error(NA) else Num((i + 1) as real)
  }

  method Match(args: seq<Value>, meta: seq<Option<Shape>>) returns (r: Value)
    ensures r == MatchSpec(args, meta)
  {
    var lookup := Arg(args, 0);
    var a := Arg(args, 1);
    var matchType := if Arg(args, 2).Undef? then Some(1.0) else ToNumber(args[2]);
    if !a.Arr? || a.items == [] {
      return Error(NA);
    }
    var (rows, cols) := Dims(|a.items|, ShapeAt(meta, 1));
    if rows > 1 && cols > 1 {
      return Error(NA);
    }
    var i;
    if matchType == Some(0.0) {
      i := FindExact(a.items, lookup);
    } else {
      i := ApproxSearch(a.items, lookup, matchType.Some? && matchType.value >= 1.0);
    }
    r := if i < 0 then Error(NA) else Num((i + 1) as real);
  }

  /** `k` is the 1-based position of the first exact hit. */
  predicate FirstHitAt(items: seq<Value>, lookup: Value, k: real)
  {
    1.0 <= k <= |items| as real && k.Floor as real == k &&
    ExactHit(items[k.Floor - 1], lookup) &&
    forall i {:trigger ExactHit(items[i], lookup)} :: 0 <= i < k.Floor - 1 ==> !ExactHit(items[i], lookup)
  }

  /** MATCH with type 0 returns the first exact hit, 1-based, or `#N/A` when there is none. */
  lemma MatchExact(lookup: Value, items: seq<Value>)
    requires items != []
    ensures MatchSpec([lookup, Arr(items), Num(0.0)], [None, None, None]) == Error(NA) <==>
      forall i :: 0 <= i < |items| ==> !ExactHit(items[i], lookup)
    ensures MatchSpec([lookup, Arr(items), Num(0.0)], [None, None, None]) != Error(NA) ==>
      MatchSpec([lookup, Arr(items), Num(0.0)], [None, None, None]).Num? &&
      FirstHitAt(items, lookup, MatchSpec([lookup, Arr(items), Num(0.0)], [None, None, None]).n)
  {
    var i := FirstExact(items, lookup);
    MatchTypeZero(lookup, items);
    if i >= 0 {
      FloorOfInt(i + 1);
      assert FirstHitAt(items, lookup, (i + 1) as real);
    }
  }

  /** MATCH with type 0 on a one-dimensional array is the first exact hit, 1-based. */
  lemma MatchTypeZero(lookup: Value, items: seq<Value>)
    requires items != []
    ensures var i := FirstExact(items, lookup);
      MatchSpec([lookup, Arr(items), Num(0.0)], [None, None, None]) ==
      if i < 0 then Error(NA) else Num((i + 1) as real)
  {
    var args := [lookup, Arr(items), Num(0.0)];
    assert Arg(args, 0) == lookup && Arg(args, 1) == Arr(items) && Arg(args, 2) == Num(0.0);
    assert ToNumber(args[2]) == Some(0.0);
    assert Dims(|items|, ShapeAt([None, None, None], 1)) == (1, |items|);
  }

  /** A text lookup value is matched without regard to case. */
  lemma MatchIgnoresCase(a: string, b: string)
    requires ToNumber(Str(b)).None?
    ensures ExactHit(Str(a), Str(b)) <==> Lower(a) == Lower(b)
  {
  }

  /** A 2-D lookup array gives `#N/A`. */
  lemma MatchTwoDimensional(args: seq<Value>, rows: int, cols: int)
    requires |args| >= 2 && args[1].Arr? && rows > 1 && cols > 1
    ensures MatchSpec(args, [None, Some(Shape(rows, cols))]) == Error(NA)
  {
  }

  // ---- INDEX ----

  /** `array[idx]` for a computed position: `#REF!` outside the array; `''` for a position
    * that is no whole number (NaN included) or holds `undefined`. */
  function Element(arr: seq<Value>, idx: Option<real>): (r: Value)
    ensures idx.Some? && idx.value == idx.value.Floor as real && 0.0 <= idx.value < |arr| as real ==>
      r == OrDefault(arr[idx.value.Floor], Str(""))
    ensures idx.Some? && !(0.0 <= idx.value < |arr| as real) ==> r == Error(REF)
  {
    if idx.None? then Str("")
    else if idx.value < 0.0 || idx.value >= |arr| as real then Error(REF)
    else if idx.value != idx.value.Floor as real then Str("")
    else OrDefault(arr[idx.value.Floor], Str(""))
  }

  function Mul(a: Option<real>, b: real): Option<real> { if a.None? then None else Some(a.value * b) }
  function Add(a: Option<real>, b: Option<real>): Option<real>
  {
    if a.None? || b.None? then None else Some(a.value + b.value)
  }

  /** INDEX(array, [row], [col]). */
  function Index(args: seq<Value>, meta: seq<Option<Shape>>): Value
  {
    var a := Arg(args, 0);
    var rowNum := if Arg(args, 1).Undef? then Some(1.0) else ToNumber(args[1]);
    var colNum := if Arg(args, 2).Undef? then Some(1.0) else ToNumber(args[2]);
    if !a.Arr? || a.items == [] then
      (if rowNum == Some(1.0) && colNum == Some(1.0) then a else Error(REF))
    else
      var (rows, cols) := Dims(|a.items|, ShapeAt(meta, 0));
      if (rowNum.Some? && rowNum.value < 0.0) || (colNum.Some? && colNum.value < 0.0) then Error(VALUE)
      else if (rowNum.Some? && rowNum.value > rows as real) || (colNum.Some? && colNum.value > cols as real) then
        Error(REF)
      else if rowNum == Some(0.0) && colNum == Some(0.0) then Error(REF)
      else
        var r := if rowNum == Some(0.0) then Some(1.0) else rowNum;
        var c := if colNum == Some(0.0) then Some(1.0) else colNum;
        Element(a.items, Add(Mul(Add(r, Some(-1.0)), cols as real), Add(c, Some(-1.0))))
  }

  lemma {:induction false} ProductIsNatural(a: nat, b: nat)
    ensures a * b >= 0
  {
    if a > 0 {
      ProductIsNatural(a - 1, b);
      assert a * b == (a - 1) * b + b;
    }
  }

  /** Cell (r, c) of a `rows × cols` table lies inside it. */
  lemma {:induction false} CellInTable(r: nat, c: nat, rows: nat, cols: nat)
    requires r < rows && c < cols
    ensures 0 <= r * cols + c < rows * cols
    decreases rows
  {
    ProductIsNatural(r, cols);
    if r + 1 == rows {
      assert rows * cols == r * cols + cols;
    } else {
      CellInTable(r, c, rows - 1, cols);
      assert rows * cols == (rows - 1) * cols + cols;
    }
  }

  /** INDEX of a proper `rows × cols` table at whole (r, c) inside it is element
    * (r - 1) * cols + (c - 1). */
  lemma IndexElement(items: seq<Value>, rows: nat, cols: nat, r: nat, c: nat)
    requires rows * cols == |items| && 1 <= r <= rows && 1 <= c <= cols
    ensures 0 <= (r - 1) * cols + (c - 1) < |items|
    ensures Index([Arr(items), Num(r as real), Num(c as real)], [Some(Shape(rows, cols))]) ==
      OrDefault(items[(r - 1) * cols + (c - 1)], Str(""))
  {
    var k := (r - 1) * cols + (c - 1);
    CellInTable(r - 1, c - 1, rows, cols);
    IndexReduces(items, rows, cols, r as real, c as real);
    RowMajorOffset(r, c, cols);
    FloorOfInt(k);
  }

  /** INDEX at a position inside the shape reads the row-major offset of that position. */
  lemma IndexReduces(items: seq<Value>, rows: nat, cols: nat, rv: real, cv: real)
    requires items != [] && 1.0 <= rv <= rows as real && 1.0 <= cv <= cols as real
    ensures Index([Arr(items), Num(rv), Num(cv)], [Some(Shape(rows, cols))]) ==
      Element(items, Add(Mul(Add(Some(rv), Some(-1.0)), cols as real), Add(Some(cv), Some(-1.0))))
  {
    var args := [Arr(items), Num(rv), Num(cv)];
    assert Dims(|items|, ShapeAt([Some(Shape(rows, cols))], 0)) == (rows, cols);
    assert Arg(args, 0) == Arr(items);
    assert Arg(args, 1) == Num(rv) && Arg(args, 2) == Num(cv);
  }

  /** The offset INDEX computes for whole (r, c) is `(r - 1) * cols + (c - 1)`. */
  lemma RowMajorOffset(r: nat, c: nat, cols: nat)
    requires r >= 1 && c >= 1
    ensures Add(Mul(Add(Some(r as real), Some(-1.0)), cols as real), Add(Some(c as real), Some(-1.0))) ==
      Some(((r - 1) * cols + (c - 1)) as real)
  {
    var a := r - 1;
    assert Add(Some(r as real), Some(-1.0)) == Some(a as real);
    assert Add(Some(c as real), Some(-1.0)) == Some((c - 1) as real);
    RealOfProduct(a, cols);
    assert Mul(Some(a as real), cols as real) == Some((a * cols) as real);
  }

  lemma FloorOfInt(k: int)
    ensures (k as real).Floor == k
  {
  }

  lemma RealOfProduct(a: int, b: int)
    ensures (a * b) as real == a as real * b as real
  {
  }

  /** A negative index gives `#VALUE!`; one beyond the shape gives `#REF!`. */
  lemma IndexBounds(items: seq<Value>, rows: nat, cols: nat, r: real, c: real)
    requires items != []
    ensures r < 0.0 ==> Index([Arr(items), Num(r), Num(c)], [Some(Shape(rows, cols))]) == Error(VALUE)
    ensures r >= 0.0 && c >= 0.0 && rows > 0 && r > rows as real ==>
      Index([Arr(items), Num(r), Num(c)], [Some(Shape(rows, cols))]) == Error(REF)
  {
  }

  /** INDEX of a single value at (1, 1) is that value. */
  lemma IndexOfSingleValue(v: Value)
    requires !v.Arr?
    ensures Index([v], []) == v
    ensures Index([v, Num(1.0), Num(1.0)], []) == v
  {
  }

  // ---- VLOOKUP and HLOOKUP ----

  /** `range_lookup`: approximate unless the argument is `false`, `0` or reads "FALSE" in
    * any case. */
  predicate RangeLookup(v: Value)
  {
    v.Undef? || !(v == Bool(false) || v == Num(0.0) || Upper(ToStr(v)) == "FALSE")
  }

  lemma ExactFlags()
    ensures !RangeLookup(Bool(false)) && !RangeLookup(Num(0.0))
    ensures !RangeLookup(Str("FALSE")) && !RangeLookup(Str("false"))
  {
    assert Upper("false") == "FALSE";
    assert Upper("FALSE") == "FALSE";
  }

  lemma ApproximateFlags()
    ensures RangeLookup(Undef) && RangeLookup(Bool(true)) && RangeLookup(Num(1.0))
  {
    assert Upper("true") != "FALSE";
    assert ToStr(Num(1.0)) == "1" by {
      Numbers.NumToStrOfInt(1);
    }
  }

  /** The first cell of each row: `table[r * cols]` for `r < rows`. */
  function FirstColumn(arr: seq<Value>, rows: int, cols: int): (col: seq<Value>)
    ensures |col| == if rows < 0 then 0 else rows
    ensures forall r :: 0 <= r < |col| ==> col[r] == At(arr, r * cols)
  {
    if rows <= 0 then [] else FirstColumn(arr, rows - 1, cols) + [At(arr, (rows - 1) * cols)]
  }

  /** The first row: `table[c]` for `c < cols`. */
  function FirstRow(arr: seq<Value>, cols: int): (row: seq<Value>)
    ensures |row| == if cols < 0 then 0 else cols
    ensures forall c :: 0 <= c < |row| ==> row[c] == At(arr, c)
  {
    if cols <= 0 then [] else FirstRow(arr, cols - 1) + [At(arr, cols - 1)]
  }

  /** The row (or column) VLOOKUP/HLOOKUP settle on: exact, or the ascending search. */
  function Found(keys: seq<Value>, lookup: Value, approximate: bool): int
  {
    if approximate then ApproxBest(keys, lookup, true, |keys|) else FirstExact(keys, lookup)
  }

  /** VLOOKUP(lookup, table, col, [range_lookup]). */
  function VlookupSpec(args: seq<Value>, meta: seq<Option<Shape>>): Value
  {
    var lookup, table := Arg(args, 0), Arg(args, 1);
    var colIndex := ToNumber(Arg(args, 2));
    if !table.Arr? || table.items == [] then Error(NA)
    else
      var (rows, cols) := Dims(|table.items|, ShapeAt(meta, 1));
      if colIndex.Some? && colIndex.value < 1.0 then Error(VALUE)
      else if colIndex.Some? && colIndex.value > cols as real then Error(REF)
      else
        var row := Found(FirstColumn(table.items, rows, cols), lookup, RangeLookup(Arg(args, 3)));
        if row == -1 then Error(NA)
        else Element(table.items, Add(Some((row * cols) as real), Add(colIndex, Some(-1.0))))
  }

  /** HLOOKUP(lookup, table, row, [range_lookup]). */
  function HlookupSpec(args: seq<Value>, meta: seq<Option<Shape>>): Value
  {
    var lookup, table := Arg(args, 0), Arg(args, 1);
    var rowIndex := ToNumber(Arg(args, 2));
    if !table.Arr? || table.items == [] then Error(NA)
    else
      var (rows, cols) := Dims(|table.items|, ShapeAt(meta, 1));
      if rowIndex.Some? && rowIndex.value < 1.0 then Error(VALUE)
      else if rowIndex.Some? && rowIndex.value > rows as real then Error(REF)
      else
        var col := Found(FirstRow(table.items, cols), lookup, RangeLookup(Arg(args, 3)));
        if col == -1 then Error(NA)
        else Element(table.items, Add(Mul(Add(rowIndex, Some(-1.0)), cols as real), Some(col as real)))
  }

  method CollectFirstColumn(arr: seq<Value>, rows: int, cols: int) returns (col: seq<Value>)
    ensures col == FirstColumn(arr, rows, cols)
  {
    col := [];
    var r := 0;
    while r < rows
      invariant 0 <= r && (rows >= 0 ==> r <= rows) && (rows < 0 ==> r == 0)
      invariant col == FirstColumn(arr, r, cols)
    {
      col := col + [At(arr, r * cols)];
      r := r + 1;
    }
  }

  method CollectFirstRow(arr: seq<Value>, cols: int) returns (row: seq<Value>)
    ensures row == FirstRow(arr, cols)
  {
    row := [];
    var c := 0;
    while c < cols
      invariant 0 <= c && (cols >= 0 ==> c <= cols) && (cols < 0 ==> c == 0)
      invariant row == FirstRow(arr, c)
    {
      row := row + [At(arr, c)];
      c := c + 1;
    }
  }

  method Search(keys: seq<Value>, lookup: Value, approximate: bool) returns (found: int)
    ensures found == Found(keys, lookup, approximate)
  {
    if approximate {
      found := ApproxSearch(keys, lookup, true);
    } else {
      found := FindExact(keys, lookup);
    }
  }

  method Vlookup(args: seq<Value>, meta: seq<Option<Shape>>) returns (r: Value)
    ensures r == VlookupSpec(args, meta)
  {
    var lookup, table := Arg(args, 0), Arg(args, 1);
    var colIndex := ToNumber(Arg(args, 2));
    var approximate := RangeLookup(Arg(args, 3));
    if !table.Arr? || table.items == [] {
      return Error(NA);
    }
    var (rows, cols) := Dims(|table.items|, ShapeAt(meta, 1));
    if colIndex.Some? && colIndex.value < 1.0 {
      return Error(VALUE);
    }
    if colIndex.Some? && colIndex.value > cols as real {
      return Error(REF);
    }
    var firstCol := CollectFirstColumn(table.items, rows, cols);
    var row := Search(firstCol, lookup, approximate);
    if row == -1 {
      return Error(NA);
    }
    r := Element(table.items, Add(Some((row * cols) as real), Add(colIndex, Some(-1.0))));
  }

  method Hlookup(args: seq<Value>, meta: seq<Option<Shape>>) returns (r: Value)
    ensures r == HlookupSpec(args, meta)
  {
    var lookup, table := Arg(args, 0), Arg(args, 1);
    var rowIndex := ToNumber(Arg(args, 2));
    var approximate := RangeLookup(Arg(args, 3));
    if !table.Arr? || table.items == [] {
      return Error(NA);
    }
    var (rows, cols) := Dims(|table.items|, ShapeAt(meta, 1));
    if rowIndex.Some? && rowIndex.value < 1.0 {
      return Error(VALUE);
    }
    if rowIndex.Some? && rowIndex.value > rows as real {
      return Error(REF);
    }
    var firstRow := CollectFirstRow(table.items, cols);
    var col := Search(firstRow, lookup, approximate);
    if col == -1 {
      return Error(NA);
    }
    r := Element(table.items, Add(Mul(Add(rowIndex, Some(-1.0)), cols as real), Some(col as real)));
  }

  /** VLOOKUP rejects a column index below 1 with `#VALUE!` and one beyond the table's width
    * with `#REF!`. */
  lemma VlookupColumnBounds(lookup: Value, items: seq<Value>, rows: nat, cols: nat, k: real)
    requires items != [] && rows > 0 && cols > 0
    ensures k < 1.0 ==> VlookupSpec([lookup, Arr(items), Num(k)], [None, Some(Shape(rows, cols))]) == Error(VALUE)
    ensures k > cols as real ==> VlookupSpec([lookup, Arr(items), Num(k)], [None, Some(Shape(rows, cols))]) == Error(REF)
  {
  }

  /** HLOOKUP rejects a row index below 1 with `#VALUE!` and one beyond the table's height
    * with `#REF!`. */
  lemma HlookupRowBounds(lookup: Value, items: seq<Value>, rows: nat, cols: nat, k: real)
    requires items != [] && rows > 0 && cols > 0
    ensures k < 1.0 ==> HlookupSpec([lookup, Arr(items), Num(k)], [None, Some(Shape(rows, cols))]) == Error(VALUE)
    ensures k > rows as real ==> HlookupSpec([lookup, Arr(items), Num(k)], [None, Some(Shape(rows, cols))]) == Error(REF)
  {
  }

  /** In a proper table, exact VLOOKUP returns column `c` of the first row whose first cell
    * is an exact hit. */
  lemma VlookupExact(lookup: Value, items: seq<Value>, rows: nat, cols: nat, c: nat)
    requires rows * cols == |items| && rows > 0 && 1 <= c <= cols
    ensures var row := FirstExact(FirstColumn(items, rows, cols), lookup);
      row >= 0 ==>
        0 <= row * cols + (c - 1) < |items| &&
        VlookupSpec([lookup, Arr(items), Num(c as real), Bool(false)], [None, Some(Shape(rows, cols))]) ==
        OrDefault(items[row * cols + (c - 1)], Str(""))
  {
    CellInTable(0, c - 1, rows, cols);
    VlookupReduces(lookup, items, rows, cols, c as real);
    var row := FirstExact(FirstColumn(items, rows, cols), lookup);
    if row >= 0 {
      RowCell(items, rows, cols, row, c);
    }
  }

  /** Exact VLOOKUP gives `#N/A` when no key is an exact hit. */
  lemma VlookupExactMiss(lookup: Value, items: seq<Value>, rows: nat, cols: nat, c: nat)
    requires items != [] && rows > 0 && 1 <= c <= cols
    ensures (forall i :: 0 <= i < rows ==> !ExactHit(At(items, i * cols), lookup)) ==>
      VlookupSpec([lookup, Arr(items), Num(c as real), Bool(false)], [None, Some(Shape(rows, cols))]) == Error(NA)
  {
    VlookupReduces(lookup, items, rows, cols, c as real);
    var keys := FirstColumn(items, rows, cols);
    var k := FirstExact(keys, lookup);
    if k >= 0 {
      assert ExactHit(At(items, k * cols), lookup);
    }
  }

  /** Column `c` of row `row` in a proper table, as VLOOKUP addresses it. */
  lemma RowCell(items: seq<Value>, rows: nat, cols: nat, row: nat, c: nat)
    requires rows * cols == |items| && row < rows && 1 <= c <= cols
    ensures 0 <= row * cols + (c - 1) < |items|
    ensures Element(items, Add(Some((row * cols) as real), Add(Some(c as real), Some(-1.0)))) ==
      OrDefault(items[row * cols + (c - 1)], Str(""))
  {
    var k := row * cols + (c - 1);
    CellInTable(row, c - 1, rows, cols);
    ColumnOffset(row * cols, c);
    FloorOfInt(k);
  }

  /** Exact VLOOKUP inside the table's width reads the found row at the given column. */
  lemma VlookupReduces(lookup: Value, items: seq<Value>, rows: nat, cols: nat, cv: real)
    requires items != [] && rows > 0 && 1.0 <= cv <= cols as real
    ensures var row := FirstExact(FirstColumn(items, rows, cols), lookup);
      VlookupSpec([lookup, Arr(items), Num(cv), Bool(false)], [None, Some(Shape(rows, cols))]) ==
      if row == -1 then Error(NA)
      else Element(items, Add(Some((row * cols) as real), Add(Some(cv), Some(-1.0))))
  {
    var args := [lookup, Arr(items), Num(cv), Bool(false)];
    assert !RangeLookup(Arg(args, 3)) by {
      ExactFlags();
    }
    assert Arg(args, 0) == lookup && Arg(args, 1) == Arr(items) && Arg(args, 2) == Num(cv);
    assert Dims(|items|, ShapeAt([None, Some(Shape(rows, cols))], 1)) == (rows, cols);
  }

  /** The offset VLOOKUP computes for column `c` past `p` is `p + c - 1`. */
  lemma ColumnOffset(p: int, c: int)
    ensures Add(Some(p as real), Add(Some(c as real), Some(-1.0))) == Some((p + (c - 1)) as real)
  {
  }

  /** The first cell of each row of a proper table is the row's first element. */
  lemma FirstColumnCells(items: seq<Value>, rows: nat, cols: nat, r: nat)
    requires rows * cols == |items| && r < rows && cols > 0
    ensures 0 <= r * cols < |items| && FirstColumn(items, rows, cols)[r] == items[r * cols]
  {
    CellInTable(r, 0, rows, cols);
  }
}
