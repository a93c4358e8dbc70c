/** The numeric aggregates SUM, AVERAGE, MIN, MAX, COUNT and MEDIAN. Each takes the
  * flattened argument list and uses only the arguments that `Number()` turns into a number. */
module Aggregates {
  import opened Wrappers
  import opened Values
  import opened Errors

  /** `Number(a)` for every argument that is not NaN, in argument order. */
  function Numerics(args: seq<Value>): (r: seq<real>)
    ensures |r| <= |args|
  {
    if args == [] then []
    else
      var last := ToNumber(args[|args| - 1]);
      Numerics(args[..|args| - 1]) + (if last.Some? then [last.value] else [])
  }

  function SumOf(xs: seq<real>): real
  {
    if xs == [] then 0.0 else SumOf(xs[..|xs| - 1]) + xs[|xs| - 1]
  }

  /** One more argument extends the list of numbers by its value, if it has one. */
  lemma NumericsSnoc(args: seq<Value>, i: nat)
    requires i < |args|
    ensures ToNumber(args[i]).Some? ==>
      Numerics(args[..i + 1]) == Numerics(args[..i]) + [ToNumber(args[i]).value]
    ensures ToNumber(args[i]).None? ==> Numerics(args[..i + 1]) == Numerics(args[..i])
  {
    assert args[..i + 1][..i] == args[..i];
    assert Numerics(args[..i]) + [] == Numerics(args[..i]);
  }

  lemma SumSnoc(xs: seq<real>, x: real)
    ensures SumOf(xs + [x]) == SumOf(xs) + x
  {
    assert (xs + [x])[..|xs|] == xs;
  }

  lemma {:induction false} SumAppend(xs: seq<real>, ys: seq<real>)
    ensures SumOf(xs + ys) == SumOf(xs) + SumOf(ys)
    decreases |ys|
  {
    if ys == [] {
      assert xs + ys == xs;
    } else {
      var init := ys[..|ys| - 1];
      assert xs + ys == (xs + init) + [ys[|ys| - 1]];
      assert ys == init + [ys[|ys| - 1]];
      SumAppend(xs, init);
      SumSnoc(xs + init, ys[|ys| - 1]);
      SumSnoc(init, ys[|ys| - 1]);
    }
  }

  lemma {:induction false} NumericsAppend(a: seq<Value>, b: seq<Value>)
    ensures Numerics(a + b) == Numerics(a) + Numerics(b)
    decreases |b|
  {
    if b == [] {
      assert a + b == a && Numerics(a) + [] == Numerics(a);
    } else {
      var init := b[..|b| - 1];
      assert (a + b)[..|a + b| - 1] == a + init;
      assert b[..|b| - 1] == init;
      NumericsAppend(a, init);
    }
  }

  /** SUM over a list of arguments is the sum of its parts. */
  lemma SumOfConcatenation(a: seq<Value>, b: seq<Value>)
    ensures SumOf(Numerics(a + b)) == SumOf(Numerics(a)) + SumOf(Numerics(b))
  {
    NumericsAppend(a, b);
    SumAppend(Numerics(a), Numerics(b));
  }

  /** An argument that does not coerce to a number changes neither SUM nor COUNT. */
  lemma NonNumericIgnored(a: seq<Value>, v: Value)
    requires ToNumber(v).None?
    ensures Numerics(a + [v]) == Numerics(a)
  {
    assert (a + [v])[..|a|] == a;
  }

  /** SUM: the total of the arguments that coerce to numbers. */
  method Sum(args: seq<Value>) returns (total: real)
    ensures total == SumOf(Numerics(args))
  {
    total := 0.0;
    var i := 0;
    while i < |args|
      invariant i <= |args|
      invariant total == SumOf(Numerics(args[..i]))
    {
      NumericsSnoc(args, i);
      var n := ToNumber(args[i]);
      if n.Some? {
        SumSnoc(Numerics(args[..i]), n.value);
        total := total + n.value;
      }
      i := i + 1;
    }
    assert args[..i] == args;
  }

  /** COUNT: how many arguments coerce to numbers. */
  method Count(args: seq<Value>) returns (count: nat)
    ensures count == |Numerics(args)|
    ensures count <= |args|
  {
    count := 0;
    var i := 0;
    while i < |args|
      invariant i <= |args|
      invariant count == |Numerics(args[..i])|
    {
      NumericsSnoc(args, i);
      if ToNumber(args[i]).Some? {
        count := count + 1;
      }
      i := i + 1;
    }
    assert args[..i] == args;
  }

  /** The value AVERAGE returns for a list of numbers. */
  function AverageOf(xs: seq<real>): (r: Value)
    ensures xs == [] <==> r == Error(DIV0)
    ensures xs != [] ==> r == Num(SumOf(xs) / |xs| as real)
  {
    if xs == [] then Error(DIV0) else Num(SumOf(xs) / |xs| as real)
  }

  /** AVERAGE: total over count, `#DIV/0!` when no argument coerces to a number. */
  method Average(args: seq<Value>) returns (r: Value)
    ensures r == AverageOf(Numerics(args))
  {
    var total := 0.0;
    var count := 0;
    var i := 0;
    while i < |args|
      invariant i <= |args|
      invariant total == SumOf(Numerics(args[..i]))
      invariant count == |Numerics(args[..i])|
    {
      NumericsSnoc(args, i);
      var n := ToNumber(args[i]);
      if n.Some? {
        SumSnoc(Numerics(args[..i]), n.value);
        total := total + n.value;
        count := count + 1;
      }
      i := i + 1;
    }
    assert args[..i] == args;
    r := if count == 0 then Error(DIV0) else Num(total / count as real);
  }

  /** The least of a non-empty list. */
  predicate IsLeast(m: real, xs: seq<real>)
  {
    m in xs && forall k :: 0 <= k < |xs| ==> m <= xs[k]
  }

  predicate IsGreatest(m: real, xs: seq<real>)
  {
    m in xs && forall k :: 0 <= k < |xs| ==> m >= xs[k]
  }

  /** The least element of a non-empty list. */
  function LeastOf(xs: seq<real>): (m: real)
    requires xs != []
    ensures IsLeast(m, xs)
  {
    if |xs| == 1 then xs[0]
    else
      var m := LeastOf(xs[1..]);
      assert forall k :: 1 <= k < |xs| ==> xs[k] == xs[1..][k - 1];
      if xs[0] < m then xs[0] else m
  }

  function GreatestOf(xs: seq<real>): (m: real)
    requires xs != []
    ensures IsGreatest(m, xs)
  {
    if |xs| == 1 then xs[0]
    else
      var m := GreatestOf(xs[1..]);
      assert forall k :: 1 <= k < |xs| ==> xs[k] == xs[1..][k - 1];
      if xs[0] > m then xs[0] else m
  }

  /** A list has one least and one greatest element. */
  lemma ExtremesUnique(a: real, b: real, xs: seq<real>)
    ensures IsLeast(a, xs) && IsLeast(b, xs) ==> a == b
    ensures IsGreatest(a, xs) && IsGreatest(b, xs) ==> a == b
  {
    if IsLeast(a, xs) && IsLeast(b, xs) {
      var i :| 0 <= i < |xs| && xs[i] == a;
      var j :| 0 <= j < |xs| && xs[j] == b;
    }
    if IsGreatest(a, xs) && IsGreatest(b, xs) {
      var i :| 0 <= i < |xs| && xs[i] == a;
      var j :| 0 <= j < |xs| && xs[j] == b;
    }
  }

  /** MIN and MAX as values: 0 when no argument coerces to a number. */
  function MinOf(args: seq<Value>): real
  {
    if Numerics(args) == [] then 0.0 else LeastOf(Numerics(args))
  }

  function MaxOf(args: seq<Value>): real
  {
    if Numerics(args) == [] then 0.0 else GreatestOf(Numerics(args))
  }

  /** MIN: the least argument that coerces to a number, 0 when there is none. */
  method Min(args: seq<Value>) returns (r: real)
    ensures Numerics(args) == [] ==> r == 0.0
    ensures Numerics(args) != [] ==> IsLeast(r, Numerics(args))
    ensures r == MinOf(args)
  {
    var min := 0.0;
    var found := false;
    var i := 0;
    while i < |args|
      invariant i <= |args|
      invariant found <==> Numerics(args[..i]) != []
      invariant found ==> IsLeast(min, Numerics(args[..i]))
    {
      NumericsSnoc(args, i);
      var n := ToNumber(args[i]);
      if n.Some? {
        if !found || n.value < min {
          min := n.value;
        }
        found := true;
      }
      i := i + 1;
    }
    assert args[..i] == args;
    r := if found then min else 0.0;
    if found {
      ExtremesUnique(r, LeastOf(Numerics(args)), Numerics(args));
    }
  }

  /** MAX: the greatest argument that coerces to a number, 0 when there is none. */
  method Max(args: seq<Value>) returns (r: real)
    ensures Numerics(args) == [] ==> r == 0.0
    ensures Numerics(args) != [] ==> IsGreatest(r, Numerics(args))
    ensures r == MaxOf(args)
  {
    var max := 0.0;
    var found := false;
    var i := 0;
    while i < |args|
      invariant i <= |args|
      invariant found <==> Numerics(args[..i]) != []
      invariant found ==> IsGreatest(max, Numerics(args[..i]))
    {
      NumericsSnoc(args, i);
      var n := ToNumber(args[i]);
      if n.Some? {
        if !found || n.value > max {
          max := n.value;
        }
        found := true;
      }
      i := i + 1;
    }
    assert args[..i] == args;
    r := if found then max else 0.0;
    if found {
      ExtremesUnique(r, GreatestOf(Numerics(args)), Numerics(args));
    }
  }

  /** The average of a list lies between its least and its greatest element. */
  lemma {:induction false} SumBounds(xs: seq<real>, lo: real, hi: real)
    requires forall k :: 0 <= k < |xs| ==> lo <= xs[k] <= hi
    ensures |xs| as real * lo <= SumOf(xs) <= |xs| as real * hi
    decreases |xs|
  {
    if xs != [] {
      SumBounds(xs[..|xs| - 1], lo, hi);
    }
  }

  lemma AverageBetweenMinAndMax(xs: seq<real>, lo: real, hi: real)
    requires IsLeast(lo, xs) && IsGreatest(hi, xs)
    ensures AverageOf(xs).Num? && lo <= AverageOf(xs).n <= hi
  {
    SumBounds(xs, lo, hi);
    var n := |xs| as real;
    assert n > 0.0;
    assert SumOf(xs) / n >= lo by { assert n * lo <= SumOf(xs); }
    assert SumOf(xs) / n <= hi by { assert SumOf(xs) <= n * hi; }
  }

  // ---- MEDIAN ----

  predicate Sorted(s: seq<real>)
  {
    forall k, l :: 0 <= k < l < |s| ==> s[k] <= s[l]
  }

  /** Insert `x` into a sorted list before its first greater element. */
  function Insert(x: real, s: seq<real>): (r: seq<real>)
    requires Sorted(s)
    ensures Sorted(r) && multiset(r) == multiset(s) + multiset{x}
    ensures forall k :: 0 <= k < |r| ==> r[k] == x || r[k] in s
  {
    if s == [] then [x]
    else if x <= s[0] then
      ConsSorted(x, s);
      [x] + s
    else
      assert s == [s[0]] + s[1..];
      var r := Insert(x, s[1..]);
      ConsSorted(s[0], r);
      [s[0]] + r
  }

  /** An element no greater than the head of a sorted list extends it sorted. */
  lemma ConsSorted(a: real, r: seq<real>)
    requires Sorted(r) && (r == [] || a <= r[0])
    ensures Sorted([a] + r)
  {
    forall k, l | 0 <= k < l < |[a] + r|
      ensures ([a] + r)[k] <= ([a] + r)[l]
    {
      if k > 0 {
        assert ([a] + r)[k] == r[k - 1];
      }
    }
  }

  /** The ascending arrangement of a list, standing for `nums.sort((a, b) => a - b)`. */
  function SortedOf(xs: seq<real>): (r: seq<real>)
    ensures Sorted(r) && multiset(r) == multiset(xs)
  {
    if xs == [] then []
    else
      assert xs == xs[..|xs| - 1] + [xs[|xs| - 1]];
      Insert(xs[|xs| - 1], SortedOf(xs[..|xs| - 1]))
  }

  /** Two sorted arrangements of the same elements are equal. */
  lemma {:induction false} SortedUnique(a: seq<real>, b: seq<real>)
    requires Sorted(a) && Sorted(b) && multiset(a) == multiset(b)
    ensures a == b
    decreases |a|
  {
    assert |a| == |multiset(a)| == |multiset(b)| == |b|;
    if a != [] {
      assert a[0] <= b[0] by {
        assert b[0] in multiset(a);
        var k :| 0 <= k < |a| && a[k] == b[0];
        assert a[0] <= a[k];
      }
      assert b[0] <= a[0] by {
        assert a[0] in multiset(b);
        var k :| 0 <= k < |b| && b[k] == a[0];
        assert b[0] <= b[k];
      }
      assert a == [a[0]] + a[1..] && b == [b[0]] + b[1..];
      assert multiset(a) == multiset{a[0]} + multiset(a[1..]);
      assert multiset(b) == multiset{b[0]} + multiset(b[1..]);
      assert multiset(a[1..]) == multiset(a) - multiset{a[0]};
      assert multiset(b[1..]) == multiset(b) - multiset{b[0]};
      SortedUnique(a[1..], b[1..]);
    }
  }

  /** The MEDIAN of a non-empty list: the middle element of the sorted list, or the mean
    * of the two middle ones. */
  function MedianOf(xs: seq<real>): real
    requires xs != []
  {
    MiddleOf(SortedOf(xs))
  }

  /** MEDIAN does not depend on the order of its arguments. */
  lemma MedianIgnoresOrder(xs: seq<real>, ys: seq<real>)
    requires xs != [] && multiset(xs) == multiset(ys)
    ensures ys != [] && MedianOf(xs) == MedianOf(ys)
  {
    assert |ys| == |multiset(ys)| == |multiset(xs)| == |xs|;
    SortedUnique(SortedOf(xs), SortedOf(ys));
  }

  /** MEDIAN lies between the least and the greatest element. */
  lemma MedianBounds(xs: seq<real>, lo: real, hi: real)
    requires xs != [] && IsLeast(lo, xs) && IsGreatest(hi, xs)
    ensures lo <= MedianOf(xs) <= hi
  {
    var s := SortedOf(xs);
    assert forall k :: 0 <= k < |s| ==> lo <= s[k] <= hi by {
      forall k | 0 <= k < |s| ensures lo <= s[k] <= hi {
        assert s[k] in multiset(xs);
      }
    }
  }

  method Swap(a: array<real>, i: nat, j: nat)
    requires i < a.Length && j < a.Length
    modifies a
    ensures a[..] == old(a[..])[i := old(a[j])][j := old(a[i])]
    ensures a[i] == old(a[j]) && a[j] == old(a[i])
    ensures forall k :: 0 <= k < a.Length && k != i && k != j ==> a[k] == old(a[k])
    ensures multiset(a[..]) == multiset(old(a[..]))
  {
    a[i], a[j] := a[j], a[i];
  }

  /** Move `a[i]` left into the sorted prefix `a[..i]`. */
  method InsertAt(a: array<real>, i: nat)
    requires i < a.Length && Sorted(a[..i])
    modifies a
    ensures Sorted(a[..i + 1]) && a[i + 1..] == old(a[i + 1..])
    ensures multiset(a[..]) == multiset(old(a[..]))
  {
    var j := i;
    while j > 0 && a[j - 1] > a[j]
      invariant 0 <= j <= i
      invariant forall k, l :: 0 <= k < l <= i && k != j && l != j ==> a[k] <= a[l]
      invariant forall l :: j < l <= i ==> a[j] < a[l]
      invariant a[i + 1..] == old(a[i + 1..])
      invariant multiset(a[..]) == multiset(old(a[..]))
    {
      Swap(a, j - 1, j);
      j := j - 1;
    }
  }

  /** Sort an array of numbers in place, ascending. */
  method SortInPlace(a: array<real>)
    modifies a
    ensures Sorted(a[..]) && multiset(a[..]) == multiset(old(a[..]))
  {
    var i := 0;
    while i < a.Length
      invariant i <= a.Length
      invariant Sorted(a[..i])
      invariant multiset(a[..]) == multiset(old(a[..]))
    {
      InsertAt(a, i);
      i := i + 1;
    }
    assert a[..i] == a[..];
  }

  /** The numbers among the arguments, collected in order. */
  method CollectNumbers(args: seq<Value>) returns (nums: seq<real>)
    ensures nums == Numerics(args)
  {
    nums := [];
    var i := 0;
    while i < |args|
      invariant i <= |args|
      invariant nums == Numerics(args[..i])
    {
      NumericsSnoc(args, i);
      var n := ToNumber(args[i]);
      if n.Some? {
        nums := nums + [n.value];
      }
      i := i + 1;
    }
    assert args[..i] == args;
  }

  /** The median of a sorted list. */
  function MiddleOf(s: seq<real>): real
    requires s != []
  {
    var mid := |s| / 2;
    if |s| % 2 == 1 then s[mid] else (s[mid - 1] + s[mid]) / 2.0
  }

  /** Copy the numbers into an array and sort it in place. */
  method SortNumbers(nums: seq<real>) returns (sorted: seq<real>)
    ensures sorted == SortedOf(nums)
  {
    var a := new real[|nums|](k requires 0 <= k < |nums| => nums[k]);
    assert a[..] == nums;
    SortInPlace(a);
    SortedUnique(a[..], SortedOf(nums));
    sorted := a[..];
  }

  /** MEDIAN: `#NUM!` when no argument coerces to a number, otherwise the median. */
  method Median(args: seq<Value>) returns (r: Value)
    ensures Numerics(args) == [] ==> r == Error(NUM)
    ensures Numerics(args) != [] ==> r == Num(MedianOf(Numerics(args)))
  {
    var nums := CollectNumbers(args);
    if |nums| == 0 {
      return Error(NUM);
    }
    var sorted := SortNumbers(nums);
    assert |sorted| == |multiset(sorted)| == |multiset(nums)| == |nums|;
    var mid := |sorted| / 2;
    r := if |sorted| % 2 == 1 then Num(sorted[mid]) else Num((sorted[mid - 1] + sorted[mid]) / 2.0);
    assert r == Num(MiddleOf(sorted));
  }
}
