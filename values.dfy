/** Formula values and the JavaScript coercions the engine applies to them. */
module Values {
  import opened Wrappers
  import opened Text
  import opened Numbers

  /** A JavaScript value as the engine sees it. Errors are strings that start with `#`
    * (see module Errors); `Undef` is `undefined`/`null`; `Arr` is a range's value list. */
  datatype Value =
    | Num(n: real)
    | NaN
    | Str(s: string)
    | Bool(b: bool)
    | Undef
    | Arr(items: seq<Value>)

  function BoolToNum(b: bool): real { if b then 1.0 else 0.0 }

  /** `String(v)`. Inside an array, `undefined` prints as the empty string. */
  function ToStr(v: Value): string
    decreases v
  {
    match v
    case Num(n) => NumToStr(n)
    case NaN => "NaN"
    case Str(s) => s
    case Bool(b) => if b then "true" else "false"
    case Undef => "undefined"
    case Arr(items) => ItemsText(items)
  }

  /** `items.join(',')`: each item printed, `undefined` as the empty string. */
  function ItemsText(items: seq<Value>): string
    decreases items
  {
    if items == [] then ""
    else
      var last := items[|items| - 1];
      var text := if last.Undef? then "" else ToStr(last);
      if |items| == 1 then text else ItemsText(items[..|items| - 1]) + "," + text
  }

  /** `Number(v)`; `None` is NaN. */
  function ToNumber(v: Value): Option<real>
  {
    match v
    case Num(n) => Some(n)
    case NaN => None
    case Str(s) => StrToNumber(s)
    case Bool(b) => Some(BoolToNum(b))
    case Undef => None
    case Arr(_) => StrToNumber(ToStr(v))
  }

  /** `!isNaN(Number(v))`. */
  predicate IsNumeric(v: Value) { ToNumber(v).Some? }

  /** `Number(v)` as a value: a number or NaN. */
  function AsNumber(v: Value): (r: Value)
    ensures r.Num? || r.NaN?
    ensures r.Num? <==> IsNumeric(v)
  {
    match ToNumber(v) case Some(n) => Num(n) case None => NaN
  }

  /** `Number(v) || 1`: NaN and 0 become 1. */
  function NumberOrOne(v: Value): (r: real)
    ensures r != 0.0
    ensures ToNumber(v).Some? && ToNumber(v).value != 0.0 ==> r == ToNumber(v).value
  {
    match ToNumber(v)
    case Some(n) => if n == 0.0 then 1.0 else n
    case None => 1.0
  }

  /** JavaScript truthiness. */
  predicate JsTruthy(v: Value)
  {
    match v
    case Num(n) => n != 0.0
    case NaN => false
    case Str(s) => s != []
    case Bool(b) => b
    case Undef => false
    case Arr(_) => true
  }

  /** `v ?? d`. */
  function OrDefault(v: Value, d: Value): Value { if v.Undef? then d else v }

  /** `String(v ?? '')`: the text of a value, blank for `undefined`. */
  function CellText(v: Value): string { ToStr(OrDefault(v, Str(""))) }

  /** The i-th argument, `undefined` when absent. */
  function Arg(args: seq<Value>, i: nat): (v: Value)
    ensures i < |args| ==> v == args[i]
    ensures i >= |args| ==> v.Undef?
  {
    if i < |args| then args[i] else Undef
  }

  /** `arr[i]`, `undefined` outside the array. */
  function At(arr: seq<Value>, i: int): (v: Value)
    ensures 0 <= i < |arr| ==> v == arr[i]
    ensures !(0 <= i < |arr|) ==> v.Undef?
  {
    if 0 <= i < |arr| then arr[i] else Undef
  }

  /** `v === '' || v === null || v === undefined`. */
  predicate IsBlank(v: Value) { v == Str("") || v.Undef? }

  function LooseRank(v: Value): nat { if v.Bool? || v.Arr? then 2 else 1 }

  /** `a == b` (loose equality). Distinct arrays are never equal. */
  predicate LooseEq(a: Value, b: Value)
    decreases LooseRank(a) + LooseRank(b)
  {
    if a.Undef? || b.Undef? then a.Undef? && b.Undef?
    else if a.Bool? && b.Bool? then a.b == b.b
    else if a.Bool? then LooseEq(Num(BoolToNum(a.b)), b)
    else if b.Bool? then LooseEq(a, Num(BoolToNum(b.b)))
    else if a.Arr? && b.Arr? then false
    else if a.Arr? then LooseEq(Str(ToStr(a)), b)
    else if b.Arr? then LooseEq(a, Str(ToStr(b)))
    else if a.Str? && b.Str? then a.s == b.s
    else
      var x := ToNumber(a);
      var y := ToNumber(b);
      x.Some? && y.Some? && x.value == y.value
  }

  lemma {:induction false} LooseEqSymmetric(a: Value, b: Value)
    ensures LooseEq(a, b) == LooseEq(b, a)
    decreases LooseRank(a) + LooseRank(b)
  {
    if a.Undef? || b.Undef? {
    } else if a.Bool? && b.Bool? {
    } else if a.Bool? {
      LooseEqSymmetric(Num(BoolToNum(a.b)), b);
    } else if b.Bool? {
      LooseEqSymmetric(a, Num(BoolToNum(b.b)));
    } else if a.Arr? && b.Arr? {
    } else if a.Arr? {
      LooseEqSymmetric(Str(ToStr(a)), b);
    } else if b.Arr? {
      LooseEqSymmetric(a, Str(ToStr(b)));
    }
  }

  /** NaN is loosely equal to nothing, not even itself. */
  lemma NaNNeverLooseEq(v: Value)
    ensures !LooseEq(NaN, v) && !LooseEq(v, NaN)
    decreases LooseRank(v)
  {
    if v.Bool? {
      NaNNeverLooseEq(Num(BoolToNum(v.b)));
    } else if v.Arr? {
      NaNNeverLooseEq(Str(ToStr(v)));
    }
  }

  /** `ToIntegerOrInfinity(k)` made a position of a string of length `len`, counting
    * from the end when negative, as `String.prototype.slice` does. */
  function RelativeIndex(k: real, len: nat): (i: nat)
    ensures i <= len
  {
    var t := Trunc(k);
    if t < 0 then (if len + t < 0 then 0 else len + t) else (if t > len then len else t)
  }

  /** `s.slice(start, end)`. */
  function Slice(s: string, start: real, end: real): (r: string)
    ensures |r| <= |s|
  {
    var a := RelativeIndex(start, |s|);
    var b := RelativeIndex(end, |s|);
    if a < b then s[a..b] else []
  }

  lemma SliceOfNaturals(s: string, a: nat, b: nat)
    requires a <= b <= |s|
    ensures Slice(s, a as real, b as real) == s[a..b]
  {
    assert Trunc(a as real) == a && Trunc(b as real) == b;
  }
}
