/** COUNTIFS, SUMIF, SUMIFS, AVERAGEIF and AVERAGEIFS. These receive their arguments
  * unflattened, so a range argument is an `Arr` value holding the range's cells. */
module ConditionalAggregates {
  import opened Wrappers
  import opened Values
  import opened Errors
  import opened Criteria
  import opened Aggregates

  /** A criteria range with its criterion. */
  datatype Pair = Pair(range: seq<Value>, crit: Value)

  /** Which of the two `match` closures a function uses. */
  datatype Matcher = SumifFamily | Countifs

  predicate MatchBy(m: Matcher, val: Value, crit: Value)
  {
    match m
    case SumifFamily => SumifMatch(val, crit)
    case Countifs => CountifsMatchAsWritten(val, crit)
  }

  /** Append the pairs found so far to the pairs still to come, keeping a failure. */
  function Prepend(done: seq<Pair>, rest: Option<seq<Pair>>): Option<seq<Pair>>
  {
    if rest.None? then None else Some(done + rest.value)
  }

  /** The (range, criterion) pairs of `args` from position `start` on; `None` when one of the
    * ranges is not an array. */
  function Pairs(args: seq<Value>, start: nat): (r: Option<seq<Pair>>)
    requires start <= |args| && (|args| - start) % 2 == 0
    ensures r.Some? ==> |r.value| == (|args| - start) / 2
    decreases |args| - start
  {
    if start == |args| then Some([])
    else if !args[start].Arr? then None
    else Prepend([Pair(args[start].items, args[start + 1])], Pairs(args, start + 2))
  }

  /** Every range of the pairs has length `len`. */
  predicate SameLength(pairs: seq<Pair>, len: nat)
  {
    forall k :: 0 <= k < |pairs| ==> |pairs[k].range| == len
  }

  /** Row `i` counts when every pair's cell in that row meets the pair's criterion. */
  predicate RowMatches(m: Matcher, pairs: seq<Pair>, i: nat)
  {
    forall k :: 0 <= k < |pairs| ==> i < |pairs[k].range| && MatchBy(m, pairs[k].range[i], pairs[k].crit)
  }

  /** The numbers of `values[..n]` on the rows that match. */
  function Selected(m: Matcher, values: seq<Value>, pairs: seq<Pair>, n: nat): (r: seq<real>)
    requires n <= |values|
    ensures |r| <= n
  {
    if n == 0 then []
    else
      var v := ToNumber(values[n - 1]);
      Selected(m, values, pairs, n - 1)
        + (if RowMatches(m, pairs, n - 1) && v.Some? then [v.value] else [])
  }

  /** How many of the first `n` rows match. */
  function CountRows(m: Matcher, pairs: seq<Pair>, n: nat): (c: nat)
    ensures c <= n
  {
    if n == 0 then 0 else CountRows(m, pairs, n - 1) + (if RowMatches(m, pairs, n - 1) then 1 else 0)
  }

  function MinLen(a: seq<Value>, b: seq<Value>): nat { if |a| < |b| then |a| else |b| }

  // ---- the functions, as functions of their arguments ----

  /** SUMIF(criteria_range, criterion, [sum_range]) and AVERAGEIF with the same arguments
    * select the same numbers; `None` means `#VALUE!`. */
  function SingleSelection(args: seq<Value>): Option<seq<real>>
  {
    var range := Arg(args, 0);
    var values := if !Arg(args, 2).Undef? then Arg(args, 2) else range;
    if !range.Arr? || !values.Arr? then None
    else Some(Selected(SumifFamily, values.items, [Pair(range.items, Arg(args, 1))],
                       MinLen(range.items, values.items)))
  }

  /** SUMIFS(sum_range, range1, crit1, ...) and AVERAGEIFS select the same numbers. */
  function MultiSelection(args: seq<Value>): Option<seq<real>>
  {
    if |args| < 3 || (|args| - 1) % 2 != 0 || !args[0].Arr? then None
    else
      var pairs := Pairs(args, 1);
      if pairs.None? || !SameLength(pairs.value, |args[0].items|) then None
      else Some(Selected(SumifFamily, args[0].items, pairs.value, |args[0].items|))
  }

  function SumOrError(sel: Option<seq<real>>): Value
  {
    if sel.None? then Error(VALUE) else Num(SumOf(sel.value))
  }

  function AverageOrError(sel: Option<seq<real>>): Value
  {
    if sel.None? then Error(VALUE) else AverageOf(sel.value)
  }

  function SumIfSpec(args: seq<Value>): Value { SumOrError(SingleSelection(args)) }
  function AverageIfSpec(args: seq<Value>): Value { AverageOrError(SingleSelection(args)) }
  function SumIfsSpec(args: seq<Value>): Value { SumOrError(MultiSelection(args)) }
  function AverageIfsSpec(args: seq<Value>): Value { AverageOrError(MultiSelection(args)) }

  /** COUNTIFS(range1, crit1, ...): 0 with no arguments, `#VALUE!` for an odd count, a
    * non-array range or ranges of different lengths. */
  function CountIfsSpec(args: seq<Value>): Value
  {
    if args == [] then Num(0.0)
    else if |args| % 2 != 0 then Error(VALUE)
    else
      var pairs := Pairs(args, 0);
      if pairs.None? || !SameLength(pairs.value, |pairs.value[0].range|) then Error(VALUE)
      else Num(CountRows(Countifs, pairs.value, |pairs.value[0].range|) as real)
  }

  // ---- the loops ----

  lemma PrependAssoc(a: seq<Pair>, b: seq<Pair>, r: Option<seq<Pair>>)
    ensures Prepend(a, Prepend(b, r)) == Prepend(a + b, r)
  {
    if r.Some? {
      assert a + (b + r.value) == (a + b) + r.value;
    }
  }

  /** Collect the pairs from position `start`, failing at the first range that is not an array. */
  method CollectPairs(args: seq<Value>, start: nat) returns (pairs: Option<seq<Pair>>)
    requires start <= |args| && (|args| - start) % 2 == 0
    ensures pairs == Pairs(args, start)
  {
    var acc: seq<Pair> := [];
    var i := start;
    assert Pairs(args, start).Some? ==> [] + Pairs(args, start).value == Pairs(args, start).value;
    while i < |args|
      invariant start <= i <= |args| && (|args| - i) % 2 == 0
      invariant Prepend(acc, Pairs(args, i)) == Pairs(args, start)
      decreases |args| - i
    {
      if !args[i].Arr? {
        return None;
      }
      PrependAssoc(acc, [Pair(args[i].items, args[i + 1])], Pairs(args, i + 2));
      acc := acc + [Pair(args[i].items, args[i + 1])];
      i := i + 2;
    }
    assert acc + [] == acc;
    pairs := Some(acc);
  }

  method CheckLengths(pairs: seq<Pair>, len: nat) returns (ok: bool)
    ensures ok == SameLength(pairs, len)
  {
    var k := 0;
    while k < |pairs|
      invariant k <= |pairs|
      invariant forall j :: 0 <= j < k ==> |pairs[j].range| == len
    {
      if |pairs[k].range| != len {
        return false;
      }
      k := k + 1;
    }
    return true;
  }

  /** The inner loop over the pairs, stopping at the first criterion that fails. */
  method RowOk(m: Matcher, pairs: seq<Pair>, i: nat) returns (ok: bool)
    requires forall k :: 0 <= k < |pairs| ==> i < |pairs[k].range|
    ensures ok == RowMatches(m, pairs, i)
  {
    var k := 0;
    while k < |pairs|
      invariant k <= |pairs|
      invariant forall j :: 0 <= j < k ==> i < |pairs[j].range| && MatchBy(m, pairs[j].range[i], pairs[j].crit)
    {
      if i >= |pairs[k].range| || !MatchBy(m, pairs[k].range[i], pairs[k].crit) {
        return false;
      }
      k := k + 1;
    }
    return true;
  }

  /** The outer loop of the SUMIF family: total and count of the selected numbers. */
  method SumSelected(m: Matcher, values: seq<Value>, pairs: seq<Pair>, n: nat)
    returns (sum: real, count: nat)
    requires n <= |values|
    requires forall k :: 0 <= k < |pairs| ==> n <= |pairs[k].range|
    ensures sum == SumOf(Selected(m, values, pairs, n))
    ensures count == |Selected(m, values, pairs, n)|
  {
    sum, count := 0.0, 0;
    var i := 0;
    while i < n
      invariant i <= n
      invariant sum == SumOf(Selected(m, values, pairs, i))
      invariant count == |Selected(m, values, pairs, i)|
    {
      var ok := RowOk(m, pairs, i);
      var v := ToNumber(values[i]);
      SelectedStep(m, values, pairs, i);
      if ok && v.Some? {
        sum, count := sum + v.value, count + 1;
      }
      i := i + 1;
    }
  }

  /** One more row adds its number to the sum and one to the count when it is selected. */
  lemma SelectedStep(m: Matcher, values: seq<Value>, pairs: seq<Pair>, i: nat)
    requires i < |values|
    ensures var v := ToNumber(values[i]); var hit := RowMatches(m, pairs, i) && v.Some?;
      SumOf(Selected(m, values, pairs, i + 1)) == SumOf(Selected(m, values, pairs, i)) + (if hit then v.value else 0.0) &&
      |Selected(m, values, pairs, i + 1)| == |Selected(m, values, pairs, i)| + (if hit then 1 else 0)
  {
    var before := Selected(m, values, pairs, i);
    var v := ToNumber(values[i]);
    if RowMatches(m, pairs, i) && v.Some? {
      SumSnoc(before, v.value);
    } else {
      assert Selected(m, values, pairs, i + 1) == before + [];
      assert before + [] == before;
    }
  }

  /** COUNTIFS's outer loop. */
  method CountMatching(pairs: seq<Pair>, n: nat) returns (count: nat)
    requires forall k :: 0 <= k < |pairs| ==> n <= |pairs[k].range|
    ensures count == CountRows(Countifs, pairs, n)
  {
    count := 0;
    var i := 0;
    while i < n
      invariant i <= n
      invariant count == CountRows(Countifs, pairs, i)
    {
      var ok := RowOk(Countifs, pairs, i);
      if ok {
        count := count + 1;
      }
      i := i + 1;
    }
  }

  /** The argument checks of SUMIF and AVERAGEIF, then the outer loop. */
  method SingleTotals(args: seq<Value>) returns (r: Option<(real, nat)>)
    ensures SingleSelection(args).None? <==> r.None?
    ensures r.Some? ==> r.value.0 == SumOf(SingleSelection(args).value)
    ensures r.Some? ==> r.value.1 == |SingleSelection(args).value|
  {
    var range := Arg(args, 0);
    var values := if !Arg(args, 2).Undef? then Arg(args, 2) else range;
    if !range.Arr? || !values.Arr? {
      return None;
    }
    var n := MinLen(range.items, values.items);
    var sum, count := SumSelected(SumifFamily, values.items, [Pair(range.items, Arg(args, 1))], n);
    r := Some((sum, count));
  }

  /** The argument checks of SUMIFS and AVERAGEIFS, then the outer loop. */
  method MultiTotals(args: seq<Value>) returns (r: Option<(real, nat)>)
    ensures MultiSelection(args).None? <==> r.None?
    ensures r.Some? ==> r.value.0 == SumOf(MultiSelection(args).value)
    ensures r.Some? ==> r.value.1 == |MultiSelection(args).value|
  {
    if |args| < 3 || (|args| - 1) % 2 != 0 || !args[0].Arr? {
      return None;
    }
    var pairs := CollectPairs(args, 1);
    if pairs.None? {
      return None;
    }
    var len := |args[0].items|;
    var same := CheckLengths(pairs.value, len);
    if !same {
      return None;
    }
    var sum, count := SumSelected(SumifFamily, args[0].items, pairs.value, len);
    r := Some((sum, count));
  }

  method SumIf(args: seq<Value>) returns (r: Value)
    ensures r == SumIfSpec(args)
  {
    var t := SingleTotals(args);
    r := if t.None? then Error(VALUE) else Num(t.value.0);
  }

  method AverageIf(args: seq<Value>) returns (r: Value)
    ensures r == AverageIfSpec(args)
  {
    var t := SingleTotals(args);
    r := if t.None? then Error(VALUE)
      else if t.value.1 == 0 then Error(DIV0)
      else Num(t.value.0 / t.value.1 as real);
  }

  method SumIfs(args: seq<Value>) returns (r: Value)
    ensures r == SumIfsSpec(args)
  {
    var t := MultiTotals(args);
    r := if t.None? then Error(VALUE) else Num(t.value.0);
  }

  method AverageIfs(args: seq<Value>) returns (r: Value)
    ensures r == AverageIfsSpec(args)
  {
    var t := MultiTotals(args);
    r := if t.None? then Error(VALUE)
      else if t.value.1 == 0 then Error(DIV0)
      else Num(t.value.0 / t.value.1 as real);
  }

  method CountIfs(args: seq<Value>) returns (r: Value)
    ensures r == CountIfsSpec(args)
  {
    if |args| == 0 {
      return Num(0.0);
    }
    if |args| % 2 != 0 {
      return Error(VALUE);
    }
    var pairs := CollectPairs(args, 0);
    if pairs.None? {
      return Error(VALUE);
    }
    var len := |pairs.value[0].range|;
    var same := CheckLengths(pairs.value, len);
    if !same {
      return Error(VALUE);
    }
    var count := CountMatching(pairs.value, len);
    r := Num(count as real);
  }

  // ---- properties ----

  /** The sum range defaults to the criteria range. */
  lemma SumRangeDefaults(range: Value, crit: Value)
    ensures SumIfSpec([range, crit]) == SumIfSpec([range, crit, range])
    ensures AverageIfSpec([range, crit]) == AverageIfSpec([range, crit, range])
  {
  }

  /** When every row matches, the selected numbers are exactly the numbers of the value
    * range's first `n` cells, so SUMIF then agrees with SUM. */
  lemma {:induction false} SelectedAllRows(m: Matcher, values: seq<Value>, pairs: seq<Pair>, n: nat)
    requires n <= |values|
    requires forall i :: 0 <= i < n ==> RowMatches(m, pairs, i)
    ensures Selected(m, values, pairs, n) == Numerics(values[..n])
  {
    if n > 0 {
      SelectedAllRows(m, values, pairs, n - 1);
      NumericsSnoc(values, n - 1);
      assert Selected(m, values, pairs, n - 1) + [] == Selected(m, values, pairs, n - 1);
    }
  }

  /** SUMIF whose criterion every cell meets is SUM of the sum range. */
  lemma SumIfAllMatch(range: seq<Value>, crit: Value, values: seq<Value>)
    requires |range| == |values|
    requires forall i :: 0 <= i < |range| ==> SumifMatch(range[i], crit)
    ensures SumIfSpec([Arr(range), crit, Arr(values)]) == Num(SumOf(Numerics(values)))
  {
    var pairs := [Pair(range, crit)];
    forall i | 0 <= i < |values|
      ensures RowMatches(SumifFamily, pairs, i)
    {
      assert pairs[0].range[i] == range[i];
    }
    SelectedAllRows(SumifFamily, values, pairs, |values|);
    assert values[..|values|] == values;
  }

  /** When no row matches, nothing is selected: SUMIF is 0 and AVERAGEIF `#DIV/0!`. */
  lemma {:induction false} SelectedNoRows(m: Matcher, values: seq<Value>, pairs: seq<Pair>, n: nat)
    requires n <= |values|
    requires forall i :: 0 <= i < n ==> !RowMatches(m, pairs, i)
    ensures Selected(m, values, pairs, n) == []
  {
    if n > 0 {
      SelectedNoRows(m, values, pairs, n - 1);
    }
  }

  /** AVERAGEIF and AVERAGEIFS give `#DIV/0!` exactly when no number is selected. */
  lemma AverageDivZero(args: seq<Value>)
    ensures AverageIfSpec(args) == Error(DIV0) <==> SingleSelection(args) == Some([])
    ensures AverageIfsSpec(args) == Error(DIV0) <==> MultiSelection(args) == Some([])
  {
  }

  /** SUMIFS and AVERAGEIFS reject fewer than three arguments and an even argument count;
    * COUNTIFS rejects an odd one. */
  lemma ArityRules(args: seq<Value>)
    ensures |args| < 3 || |args| % 2 == 0 ==> SumIfsSpec(args) == Error(VALUE)
    ensures |args| < 3 || |args| % 2 == 0 ==> AverageIfsSpec(args) == Error(VALUE)
    ensures |args| % 2 == 1 ==> CountIfsSpec(args) == Error(VALUE)
  {
  }

  /** A range argument that is not an array gives `#VALUE!`. */
  lemma NonArrayRange(args: seq<Value>)
    requires |args| >= 3 && |args| % 2 == 1 && !args[1].Arr?
    ensures SumIfsSpec(args) == Error(VALUE)
    ensures SumIfSpec(args[1..]) == Error(VALUE)
  {
  }

  /** Criteria ranges whose length differs from the sum range give `#VALUE!`. */
  lemma LengthMismatch(sum: seq<Value>, range: seq<Value>, crit: Value)
    requires |sum| != |range|
    ensures SumIfsSpec([Arr(sum), Arr(range), crit]) == Error(VALUE)
  {
    var a := [Arr(sum), Arr(range), crit];
    assert [Pair(range, crit)] + [] == [Pair(range, crit)];
    assert Pairs(a, 1) == Some([Pair(range, crit)]);
    assert !SameLength(Pairs(a, 1).value, |sum|) by {
      assert Pairs(a, 1).value[0].range == range;
    }
  }

  /** COUNTIFS ranges of different lengths give `#VALUE!`. */
  lemma CountIfsLengthMismatch(r1: seq<Value>, c1: Value, r2: seq<Value>, c2: Value)
    requires |r1| != |r2|
    ensures CountIfsSpec([Arr(r1), c1, Arr(r2), c2]) == Error(VALUE)
  {
    var b := [Arr(r1), c1, Arr(r2), c2];
    assert Pairs(b, 4) == Some([]);
    assert [Pair(r2, c2)] + [] == [Pair(r2, c2)];
    assert Pairs(b, 2) == Some([Pair(r2, c2)]);
    assert [Pair(r1, c1)] + [Pair(r2, c2)] == [Pair(r1, c1), Pair(r2, c2)];
    assert Pairs(b, 0) == Some([Pair(r1, c1), Pair(r2, c2)]);
    assert !SameLength(Pairs(b, 0).value, |r1|) by {
      assert Pairs(b, 0).value[1].range == r2;
    }
  }

  /** SUMIFS with one pair of equal-length ranges is SUMIF with its arguments reordered. */
  lemma SumIfsOfOnePair(sum: seq<Value>, range: seq<Value>, crit: Value)
    requires |sum| == |range|
    ensures SumIfsSpec([Arr(sum), Arr(range), crit]) == SumIfSpec([Arr(range), crit, Arr(sum)])
  {
    var a := [Arr(sum), Arr(range), crit];
    assert [Pair(range, crit)] + [] == [Pair(range, crit)];
    assert Pairs(a, 1) == Some([Pair(range, crit)]);
  }

  /** A row counts only if every pair matches: adding a pair can only lower the count. */
  lemma {:induction false} MorePairsCountLess(m: Matcher, pairs: seq<Pair>, extra: Pair, n: nat)
    ensures CountRows(m, pairs + [extra], n) <= CountRows(m, pairs, n)
    decreases n
  {
    if n > 0 {
      MorePairsCountLess(m, pairs, extra, n - 1);
      if RowMatches(m, pairs + [extra], n - 1) {
        assert RowMatches(m, pairs, n - 1) by {
          forall k | 0 <= k < |pairs|
            ensures n - 1 < |pairs[k].range| && MatchBy(m, pairs[k].range[n - 1], pairs[k].crit)
          {
            assert (pairs + [extra])[k] == pairs[k];
          }
        }
      }
    }
  }

  /** COUNTIFS never counts more rows than its ranges have. */
  lemma CountIfsBounded(args: seq<Value>)
    requires CountIfsSpec(args).Num? && args != []
    ensures 0.0 <= CountIfsSpec(args).n <= |args[0].items| as real
  {
    assert Pairs(args, 0).value[0].range == args[0].items;
  }
}
