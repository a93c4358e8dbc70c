/** The text functions: CONCAT, LEFT, RIGHT, MID, LEN, LOWER, UPPER, TRIM, TEXT, VALUE,
  * SUBSTITUTE and FIND. Every argument is read as `String(arg ?? '')`. */
module TextFunctions {
  import opened Wrappers
  import opened Text
  import opened Numbers
  import opened Values
  import opened Errors

  /** CONCAT and CONCATENATE: the texts of all arguments, in order. */
  function ConcatTexts(args: seq<Value>): (r: string)
    ensures args == [] ==> r == []
    ensures args != [] ==> r == CellText(args[0]) + ConcatTexts(args[1..])
  {
    if args == [] then [] else CellText(args[0]) + ConcatTexts(args[1..])
  }

  function Concat(args: seq<Value>): Value { Str(ConcatTexts(args)) }

  lemma {:induction false} ConcatAppend(a: seq<Value>, b: seq<Value>)
    ensures ConcatTexts(a + b) == ConcatTexts(a) + ConcatTexts(b)
  {
    if a != [] {
      assert (a + b)[1..] == a[1..] + b;
      ConcatAppend(a[1..], b);
    } else {
      assert a + b == b;
    }
  }

  lemma ConcatLength(args: seq<Value>)
    ensures |ConcatTexts(args)| == if args == [] then 0 else |CellText(args[0])| + |ConcatTexts(args[1..])|
  {
  }

  /** LEFT(text, [count]): `Number(count) || 1` characters from the start; a negative count
    * drops that many from the end. */
  function Left(args: seq<Value>): (r: Value)
    ensures r.Str? && |r.s| <= |CellText(Arg(args, 0))| && r.s == CellText(Arg(args, 0))[..|r.s|]
  {
    var t := CellText(Arg(args, 0));
    Str(Slice(t, 0.0, NumberOrOne(Arg(args, 1))))
  }

  /** RIGHT(text, [count]): `Number(count) || 1` characters from the end. */
  function Right(args: seq<Value>): (r: Value)
    ensures r.Str? && |r.s| <= |CellText(Arg(args, 0))|
    ensures r.Str? && r.s == CellText(Arg(args, 0))[|CellText(Arg(args, 0))| - |r.s|..]
  {
    var t := CellText(Arg(args, 0));
    assert RelativeIndex(|t| as real, |t|) == |t|;
    assert Trunc(|t| as real) == |t|;
    Str(Slice(t, -NumberOrOne(Arg(args, 1)), |t| as real))
  }

  /** MID(text, [start], [count]): `Number(count) || 1` characters from the 1-based
    * position `Number(start) || 1`. */
  function Mid(args: seq<Value>): (r: Value)
    ensures r.Str? && |r.s| <= |CellText(Arg(args, 0))|
  {
    var t := CellText(Arg(args, 0));
    var start := NumberOrOne(Arg(args, 1)) - 1.0;
    Str(Slice(t, start, start + NumberOrOne(Arg(args, 2))))
  }

  function Len(args: seq<Value>): (r: Value)
    ensures r.Num? && r.n == |CellText(Arg(args, 0))| as real
  {
    Num(|CellText(Arg(args, 0))| as real)
  }

  function LowerFn(args: seq<Value>): Value { Str(Lower(CellText(Arg(args, 0)))) }
  function UpperFn(args: seq<Value>): Value { Str(Upper(CellText(Arg(args, 0)))) }

  /** TRIM: leading and trailing white space removed. */
  function TrimFn(args: seq<Value>): (r: Value)
    ensures r.Str? && (r.s == [] || (!IsSpace(r.s[0]) && !IsSpace(r.s[|r.s| - 1])))
  {
    var t := Trim(CellText(Arg(args, 0)));
    TrimEndKeeps(TrimStart(CellText(Arg(args, 0))));
    Str(t)
  }

  /** TEXT: the argument's text, with no format applied. */
  function TextFn(args: seq<Value>): Value { Str(CellText(Arg(args, 0))) }

  /** UPPER leaves no lower-case letter and is idempotent; LOWER after UPPER is LOWER; all
    * three keep the length of the argument's text, and TEXT of a text is that text. */
  lemma CaseFunctions(args: seq<Value>)
    ensures UpperFn(args).Str? && NoLower(UpperFn(args).s)
    ensures UpperFn([UpperFn(args)]) == UpperFn(args)
    ensures LowerFn([UpperFn(args)]) == LowerFn(args)
    ensures |UpperFn(args).s| == |LowerFn(args).s| == |TextFn(args).s| == |CellText(Arg(args, 0))|
    ensures TextFn([TextFn(args)]) == TextFn(args)
  {
    var t := CellText(Arg(args, 0));
    UpperHasNoLower(t);
    UpperIdempotent(t);
    LowerOfUpper(t);
    assert CellText(Str(Upper(t))) == Upper(t);
  }

  /** LEN counts the characters of the argument's text: UPPER and LOWER keep it, CONCAT adds
    * the lengths of its parts, and LEFT of a non-empty text by its own length is the text. */
  lemma LenLaws(args: seq<Value>, a: seq<Value>, b: seq<Value>)
    ensures Len([UpperFn(args)]) == Len([LowerFn(args)]) == Len(args)
    ensures Len([Concat(a + b)]).n == Len([Concat(a)]).n + Len([Concat(b)]).n
    ensures CellText(Arg(args, 0)) != "" ==>
      Left([Arg(args, 0), Len(args)]) == Str(CellText(Arg(args, 0)))
  {
    var t := CellText(Arg(args, 0));
    CaseFunctions(args);
    assert CellText(UpperFn(args)) == Upper(t) && CellText(LowerFn(args)) == Lower(t);
    ConcatAppend(a, b);
    assert CellText(Concat(a + b)) == ConcatTexts(a) + ConcatTexts(b);
    if t != "" {
      LeftOfCount(t, |t|);
      assert t[..|t|] == t;
      assert CellText(Arg([Arg(args, 0), Len(args)], 0)) == t;
      assert Left([Arg(args, 0), Len(args)]) == Left([Str(t), Num(|t| as real)]);
    }
  }

  /** VALUE: the number the trimmed text denotes, `#VALUE!` if none. */
  function ValueFn(args: seq<Value>): (r: Value)
    ensures r.Num? || r == Error(VALUE)
    ensures r.Num? <==> StrToNumber(Trim(CellText(Arg(args, 0)))).Some?
  {
    var n := StrToNumber(Trim(CellText(Arg(args, 0))));
    if n.None? then Error(VALUE) else Num(n.value)
  }

  // ---- LEFT, RIGHT and MID with whole counts ----

  function MinNat(a: nat, b: nat): nat { if a < b then a else b }

  lemma LeftOfCount(t: string, n: nat)
    requires n >= 1
    ensures Left([Str(t), Num(n as real)]) == Str(t[..MinNat(n, |t|)])
  {
    assert Trunc(n as real) == n;
  }

  lemma RightOfCount(t: string, n: nat)
    requires n >= 1
    ensures Right([Str(t), Num(n as real)]) == Str(t[|t| - MinNat(n, |t|)..])
  {
    assert Trunc(-(n as real)) == -(n as int);
  }

  lemma MidOfCounts(t: string, start: nat, n: nat)
    requires start >= 1 && n >= 1
    ensures Mid([Str(t), Num(start as real), Num(n as real)]) ==
      Str(if start - 1 < |t| then t[start - 1..MinNat(start - 1 + n, |t|)] else [])
  {
    assert Trunc((start - 1) as real) == start - 1;
    assert Trunc((start - 1 + n) as real) == start - 1 + n;
  }

  /** A count of 0 is read as 1 (`Number(0) || 1`): LEFT(t, 0) is LEFT(t). */
  lemma LeftZeroIsOne(t: string)
    ensures Left([Str(t), Num(0.0)]) == Left([Str(t)])
  {
  }

  // ---- SUBSTITUTE ----

  /** The position of the `n`-th non-overlapping occurrence of `target` at or after `from`,
    * or -1. */
  function NthOccurrence(s: string, target: string, n: nat, from: nat): (r: int)
    requires target != [] && n >= 1 && from <= |s|
    ensures r == -1 || (from <= r && r + |target| <= |s|)
    decreases |s| - from
  {
    var i := IndexFrom(s, target, from);
    if i < 0 then -1
    else if n == 1 then i
    else NthOccurrence(s, target, n - 1, i + |target|)
  }

  lemma {:induction false} NthOccurs(s: string, target: string, n: nat, from: nat)
    requires target != [] && n >= 1 && from <= |s|
    ensures NthOccurrence(s, target, n, from) != -1 ==> OccursAt(s, target, NthOccurrence(s, target, n, from))
    decreases |s| - from
  {
    var i := IndexFrom(s, target, from);
    if i >= 0 && n > 1 {
      NthOccurs(s, target, n - 1, i + |target|);
    }
  }

  /** The number of non-overlapping occurrences of `target` at or after `from`. */
  function Occurrences(s: string, target: string, from: nat): nat
    requires target != [] && from <= |s|
    decreases |s| - from
  {
    var i := IndexFrom(s, target, from);
    if i < 0 then 0 else 1 + Occurrences(s, target, i + |target|)
  }

  /** `s` with only its `n`-th occurrence of `target` replaced; unchanged if there are fewer. */
  function ReplaceNth(s: string, target: string, repl: string, n: nat): string
    requires target != [] && n >= 1
  {
    var k := NthOccurrence(s, target, n, 0);
    if k < 0 then s else s[..k] + repl + s[k + |target|..]
  }

  predicate IsWhole(x: real) { x == x.Floor as real }

  /** SUBSTITUTE(text, target, repl, [instance]). */
  function SubstituteSpec(args: seq<Value>): string
  {
    var text, target, repl := CellText(Arg(args, 0)), CellText(Arg(args, 1)), CellText(Arg(args, 2));
    var instance := if Arg(args, 3).Undef? then Some(0.0) else ToNumber(args[3]);
    if target == [] then text
    else if instance.Some? && instance.value <= 0.0 then ReplaceAll(text, target, repl)
    else if instance.Some? && IsWhole(instance.value) then ReplaceNth(text, target, repl, instance.value.Floor)
    else text
  }

  lemma NthAtEnd(s: string, target: string, n: nat)
    requires target != [] && n >= 1
    ensures NthOccurrence(s, target, n, |s|) == -1
  {
    assert !OccursAt(s, target, |s|);
  }

  lemma PrefixThen(s: string, i: nat, j: nat)
    requires i <= j <= |s|
    ensures s[..i] + s[i..j] == s[..j]
  {
  }

  /** Passing an occurrence that is not the wanted one moves the search on by one. */
  lemma PassOccurrence(text: string, target: string, m: nat, pos: nat)
    requires target != [] && m >= 2 && pos <= |text| && IndexFrom(text, target, pos) >= 0
    ensures IndexFrom(text, target, pos) + |target| <= |text|
    ensures NthOccurrence(text, target, m, pos) ==
      NthOccurrence(text, target, m - 1, IndexFrom(text, target, pos) + |target|)
  {
  }

  /** The wanted occurrence is the next one: replacing it completes `ReplaceNth`. */
  lemma HitOccurrence(text: string, target: string, repl: string, n: nat, pos: nat, idx: nat)
    requires target != [] && n >= 1 && pos <= |text| && idx == IndexFrom(text, target, pos)
    requires NthOccurrence(text, target, n, 0) == NthOccurrence(text, target, 1, pos)
    ensures idx + |target| <= |text|
    ensures text[..pos] + text[pos..idx] + repl + text[idx + |target|..] == ReplaceNth(text, target, repl, n)
  {
    PrefixThen(text, pos, idx);
  }

  /** Without an `n`-th occurrence, `ReplaceNth` leaves the text alone. */
  lemma ReplaceNthMissing(text: string, target: string, repl: string, n: nat, m: nat, pos: nat)
    requires target != [] && n >= 1 && m >= 1 && pos <= |text|
    requires IndexFrom(text, target, pos) == -1 || pos == |text|
    requires NthOccurrence(text, target, n, 0) == NthOccurrence(text, target, m, pos)
    ensures ReplaceNth(text, target, repl, n) == text
  {
    if pos == |text| {
      NthAtEnd(text, target, m);
    }
  }

  /** Each occurrence takes at least one character. */
  lemma {:induction false} OccurrencesBound(s: string, target: string, from: nat)
    requires target != [] && from <= |s|
    ensures Occurrences(s, target, from) <= |s| - from
    decreases |s| - from
  {
    var i := IndexFrom(s, target, from);
    if i >= 0 {
      OccurrencesBound(s, target, i + |target|);
    }
  }

  /** Asking for an instance beyond the text's length replaces nothing. */
  lemma ReplaceBeyondLength(text: string, target: string, repl: string)
    requires target != []
    ensures ReplaceNth(text, target, repl, |text| + 1) == text
  {
    OccurrencesBound(text, target, 0);
    NthExistsIffEnough(text, target, |text| + 1, 0);
  }

  /** The counting loop of SUBSTITUTE, looking for the `n`-th occurrence. */
  method ReplaceCounting(text: string, target: string, repl: string, n: nat) returns (result: string)
    requires target != [] && n >= 1
    ensures result == ReplaceNth(text, target, repl, n)
  {
    var count: nat := 0;
    result := [];
    var pos := 0;
    ghost var k := NthOccurrence(text, target, n, 0);
    while pos < |text|
      invariant 0 <= pos <= |text|
      invariant result == text[..pos]
      invariant count < n && k == NthOccurrence(text, target, n - count, pos)
      decreases |text| - pos
    {
      var idx := IndexFrom(text, target, pos);
      if idx == -1 {
        PrefixThen(text, pos, |text|);
        result := result + text[pos..];
        ReplaceNthMissing(text, target, repl, n, n - count, pos);
        return;
      }
      count := count + 1;
      if count == n {
        HitOccurrence(text, target, repl, n, pos, idx);
        result := result + text[pos..idx] + repl + text[idx + |target|..];
        return;
      }
      PassOccurrence(text, target, n - count + 1, pos);
      PrefixThen(text, pos, idx + |target|);
      result := result + text[pos..idx + |target|];
      pos := idx + |target|;
    }
    assert text[..pos] == text;
    ReplaceNthMissing(text, target, repl, n, n - count, pos);
  }

  /** SUBSTITUTE(text, old, new, [instance]). `count === instance` can hold only for a
    * whole positive instance; for any other (fractional or NaN) the loop runs to the end,
    * as it does when looking for an instance beyond the text's length. */
  method Substitute(args: seq<Value>) returns (r: Value)
    ensures r == Str(SubstituteSpec(args))
  {
    var text, target, repl := CellText(Arg(args, 0)), CellText(Arg(args, 1)), CellText(Arg(args, 2));
    var instance := if Arg(args, 3).Undef? then Some(0.0) else ToNumber(args[3]);
    if target == [] {
      return Str(text);
    }
    if instance.Some? && instance.value <= 0.0 {
      return Str(ReplaceAll(text, target, repl));
    }
    var whole := instance.Some? && instance.value == instance.value.Floor as real;
    var n: nat := if whole then instance.value.Floor else |text| + 1;
    var s := ReplaceCounting(text, target, repl, n);
    if !whole {
      ReplaceBeyondLength(text, target, repl);
    }
    r := Str(s);
  }

  /** The `n`-th occurrence exists exactly when there are at least `n` occurrences. */
  lemma {:induction false} NthExistsIffEnough(s: string, target: string, n: nat, from: nat)
    requires target != [] && n >= 1 && from <= |s|
    ensures NthOccurrence(s, target, n, from) == -1 <==> Occurrences(s, target, from) < n
    decreases |s| - from
  {
    var i := IndexFrom(s, target, from);
    if i >= 0 && n > 1 {
      NthExistsIffEnough(s, target, n - 1, i + |target|);
    }
  }

  /** A whole positive instance selects `ReplaceNth`. */
  lemma SubstituteOfInstance(text: string, target: string, repl: string, n: nat)
    requires target != [] && n >= 1
    ensures SubstituteSpec([Str(text), Str(target), Str(repl), Num(n as real)]) == ReplaceNth(text, target, repl, n)
  {
    assert (n as real).Floor == n;
  }

  /** With fewer than `n` occurrences, SUBSTITUTE's `n`-th-instance form changes nothing. */
  lemma SubstituteFewerInstances(text: string, target: string, repl: string, n: nat)
    requires target != [] && n >= 1 && Occurrences(text, target, 0) < n
    ensures SubstituteSpec([Str(text), Str(target), Str(repl), Num(n as real)]) == text
  {
    NthExistsIffEnough(text, target, n, 0);
    SubstituteOfInstance(text, target, repl, n);
  }

  /** With at least `n` occurrences, only the `n`-th is replaced: the text before it and
    * the text after it are kept as they are. */
  lemma SubstituteReplacesOne(text: string, target: string, repl: string, n: nat)
    requires target != [] && n >= 1 && Occurrences(text, target, 0) >= n
    ensures var k := NthOccurrence(text, target, n, 0);
      k >= 0 && OccursAt(text, target, k) &&
      SubstituteSpec([Str(text), Str(target), Str(repl), Num(n as real)]) == text[..k] + repl + text[k + |target|..]
  {
    NthExistsIffEnough(text, target, n, 0);
    NthOccurs(text, target, n, 0);
    SubstituteOfInstance(text, target, repl, n);
  }

  /** An empty search text returns the text; no instance, or one at most 0, replaces all. */
  lemma SubstituteDefaults(text: string, target: string, repl: string)
    ensures SubstituteSpec([Str(text), Str(""), Str(repl)]) == text
    ensures target != [] ==> SubstituteSpec([Str(text), Str(target), Str(repl)]) == ReplaceAll(text, target, repl)
    ensures target != [] ==> SubstituteSpec([Str(text), Str(target), Str(repl), Num(0.0)]) == ReplaceAll(text, target, repl)
  {
  }

  /** Replacing every occurrence by itself changes nothing. */
  lemma SubstituteSelf(text: string, target: string)
    requires target != []
    ensures SubstituteSpec([Str(text), Str(target), Str(target)]) == text
  {
    ReplaceAllIdentity(text, target);
  }

  // ---- FIND ----

  /** FIND(find, within, [start]): `#VALUE!` if start < 1 (a NaN start is not < 1 and
    * searches from the beginning); otherwise the 1-based position of the first
    * occurrence at or after `start`, or `#VALUE!`. */
  function Find(args: seq<Value>): (r: Value)
    ensures r.Num? || r == Error(VALUE)
    ensures r.Num? ==> (r.n.Floor as real == r.n && 1 <= r.n.Floor &&
      OccursAt(CellText(Arg(args, 1)), CellText(Arg(args, 0)), r.n.Floor - 1))
  {
    var needle, hay := CellText(Arg(args, 0)), CellText(Arg(args, 1));
    var start := if Arg(args, 2).Undef? then Some(1.0) else ToNumber(args[2]);
    if start.Some? && start.value < 1.0 then Error(VALUE)
    else
      var from := if start.None? then 0 else MinNat(Trunc(start.value - 1.0), |hay|);
      var idx := IndexFrom(hay, needle, from);
      if idx < 0 then Error(VALUE) else Num((idx + 1) as real)
  }

  /** With a whole start inside the text, FIND finds the first occurrence at or after it. */
  lemma FindFirstFrom(needle: string, hay: string, start: nat)
    requires 1 <= start <= |hay| + 1
    ensures Find([Str(needle), Str(hay), Num(start as real)]).Num? <==>
      exists k :: start - 1 <= k <= |hay| && OccursAt(hay, needle, k)
    ensures Find([Str(needle), Str(hay), Num(start as real)]).Num? ==>
      var p := Find([Str(needle), Str(hay), Num(start as real)]).n.Floor;
      start <= p && forall k :: start - 1 <= k < p - 1 ==> !OccursAt(hay, needle, k)
  {
    assert Trunc(start as real - 1.0) == start - 1;
    var idx := IndexFrom(hay, needle, start - 1);
    if idx >= 0 {
      assert ((idx + 1) as real).Floor == idx + 1;
    }
  }

  /** FIND is case-sensitive: "a" is not found in "A". */
  lemma FindCaseSensitive()
    ensures Find([Str("a"), Str("A")]) == Error(VALUE)
  {
    assert Trunc(0.0) == 0;
    assert "A"[0..1] == "A";
    assert !OccursAt("A", "a", 0);
    assert !OccursAt("A", "a", 1);
  }

  lemma FindRejectsSmallStart(needle: string, hay: string, start: real)
    requires start < 1.0
    ensures Find([Str(needle), Str(hay), Num(start)]) == Error(VALUE)
  {
  }
}
