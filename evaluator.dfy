/** The formula evaluator as functions: recursive descent over the token list that computes
  * while it parses. Each parse function takes the cursor and the resolve cache and returns the
  * value, the new cursor and the new cache, or `Thrown` where `makeParser` throws. */
module Evaluator {
  import opened Wrappers
  import opened Text
  import opened Values
  import opened Errors
  import opened RangeUtils
  import opened Tokenizer
  import opened Resolution

  /** A function of the table, called with the arguments and, for the lookups, their shapes;
    * `None` when it throws. Functions that `parsePrimaryWithMeta` calls with the arguments alone get no
    * shapes. */
  type Fn = (seq<Value>, seq<Option<Shape>>) -> Option<Value>

  /** What `makeParser` is given besides the tokens: the context's resolvers, the name
    * resolution, the registered and the built-in functions, and `Math.pow` on two coerced
    * operands (`None` is NaN). */
  datatype Env = Env(
    ctx: Context,
    resolveFunction: string -> string,
    customs: map<string, Fn>,
    builtins: string -> Option<Fn>,
    pow: (Option<real>, Option<real>) -> Option<real>)

  datatype Outcome<T> = Done(result: T, pos: nat, cache: Cache) | Thrown

  /** A parsed operand and, for a range, its shape. */
  datatype Parsed = Parsed(value: Value, meta: Option<Shape>)

  /** The cursor never moves back and never passes the end. */
  predicate Advances<T>(ts: seq<Token>, pos: nat, r: Outcome<T>)
  {
    r.Done? ==> pos <= r.pos <= |ts|
  }

  /** The ref passed to the resolver: `Sheet!A1` when the token names a non-empty sheet. */
  function Qualified(sheet: Option<string>, ref: string): string
  {
    if sheet.Some? && sheet.value != "" then sheet.value + "!" + ref else ref
  }

  function QualifiedAll(sheet: Option<string>, refs: seq<string>): (r: seq<string>)
    ensures |r| == |refs|
    ensures forall i :: 0 <= i < |refs| ==> r[i] == Qualified(sheet, refs[i])
  {
    seq(|refs|, i requires 0 <= i < |refs| => Qualified(sheet, refs[i]))
  }

  /** The arguments with every range's values spliced in place. */
  function Flatten(args: seq<Value>): seq<Value>
  {
    if args == [] then []
    else
      var last := args[|args| - 1];
      Flatten(args[..|args| - 1]) + (if last.Arr? then last.items else [last])
  }

  /** Arguments with no range among them are passed as they are. */
  lemma {:induction false} FlattenPlain(args: seq<Value>)
    requires forall i :: 0 <= i < |args| ==> !args[i].Arr?
    ensures Flatten(args) == args
  {
    if args != [] {
      var n := |args| - 1;
      FlattenPlain(args[..n]);
      assert args[..n] + [args[n]] == args;
    }
  }

  /** The functions called with their arguments unflattened. */
  predicate IsCriteriaName(n: string)
  {
    n == "COUNTIFS" || n == "SUMIF" || n == "SUMIFS" || n == "AVERAGEIF" || n == "AVERAGEIFS"
  }

  /** The functions called with their arguments unflattened and their shapes. */
  predicate IsLookupName(n: string)
  {
    n == "VLOOKUP" || n == "HLOOKUP" || n == "INDEX" || n == "MATCH"
  }

  /** The function a name denotes: a registered one before a built-in one. */
  function Lookup(e: Env, name: string): (f: Option<Fn>)
    ensures name in e.customs ==> f == Some(e.customs[name])
    ensures name !in e.customs ==> f == e.builtins(name)
  {
    if name in e.customs then Some(e.customs[name]) else e.builtins(name)
  }

  /** Calls the function a name denotes with the arguments in the form it expects: unflattened
    * for the criteria functions, unflattened with shapes for the lookups, flattened for the
    * rest; `#NAME?` when the name denotes nothing. `None` when the function throws. */
  function Invoke(e: Env, name: string, args: seq<Value>, meta: seq<Option<Shape>>): Option<Value>
  {
    match Lookup(e, name)
    case None => Some(Error(NAME))
    case Some(f) =>
      if IsCriteriaName(name) then f(args, [])
      else if IsLookupName(name) then f(args, meta)
      else f(Flatten(args), [])
  }

  /** Unary `+` and `-` on a non-error operand: `Number(v)`, negated for `-`. */
  function Signed(negate: bool, v: Value): (r: Value)
    ensures ToNumber(v).None? ==> r == NaN
    ensures ToNumber(v).Some? ==> r == Num(if negate then -ToNumber(v).value else ToNumber(v).value)
  {
    match ToNumber(v)
    case None => NaN
    case Some(n) => Num(if negate then -n else n)
  }

  /** `Math.pow(Number(l), Number(r))`. */
  function PowValue(e: Env, l: Value, r: Value): (v: Value)
    ensures v.Num? || v.NaN?
  {
    match e.pow(ToNumber(l), ToNumber(r))
    case None => NaN
    case Some(x) => Num(x)
  }

  /** `Number(l) op Number(r)` for `*`, `/`, `+` and `-`; NaN when either is not a number. A
    * zero divisor never reaches here. */
  function Arith(op: string, l: Value, r: Value): (v: Value)
    requires op == "/" ==> ToNumber(r) != Some(0.0)
    ensures ToNumber(l).None? || ToNumber(r).None? ==> v == NaN
    ensures v.Num? || v.NaN?
  {
    match (ToNumber(l), ToNumber(r))
    case (Some(x), Some(y)) =>
      if op == "*" then Num(x * y)
      else if op == "/" then Num(x / y)
      else if op == "+" then Num(x + y)
      else if op == "-" then Num(x - y)
      else NaN
    case _ => NaN
  }

  predicate IsComparisonOp(op: string)
  {
    op == "<" || op == ">" || op == "<=" || op == ">=" || op == "=" || op == "==" || op == "<>"
  }

  /** A comparison: numeric when both sides are numbers, otherwise on the strings: exact for
    * `=`, `==` and `<>`, and for the others by the sign of the string comparison, read the
    * way `parseComparison` reads it (equal strings answer `>` and `>=`). */
  function Compare(op: string, l: Value, r: Value): (v: Value)
    requires IsComparisonOp(op)
    ensures v.Bool?
  {
    match (ToNumber(l), ToNumber(r))
    case (Some(x), Some(y)) =>
      Bool(if op == "<" then x < y else if op == ">" then x > y else if op == "<=" then x <= y
           else if op == ">=" then x >= y else if op == "<>" then x != y else x == y)
    case _ =>
      var ls, rs := ToStr(l), ToStr(r);
      if op == "=" || op == "==" then Bool(ls == rs)
      else if op == "<>" then Bool(ls != rs)
      else StringOrderAsWritten(op, StrCompare(ls, rs))
  }

  /** The ordered string comparisons, given the sign of the string comparison, as they are
    * evidently meant: equal strings are `<=` and `>=` but neither `<` nor `>`. */
  function StringOrder(op: string, c: int): (v: Value)
    requires op == "<" || op == ">" || op == "<=" || op == ">="
    ensures v.Bool?
    ensures op == "<" ==> v.b == (c < 0)
    ensures op == ">" ==> v.b == (c > 0)
    ensures op == "<=" ==> v.b == (c <= 0)
    ensures op == ">=" ==> v.b == (c >= 0)
  {
    Bool(if op == "<" then c < 0 else if op == ">" then c > 0 else if op == "<=" then c <= 0 else c >= 0)
  }

  /** The ordered string comparisons as `parseComparison` writes them: a negative comparison
    * answers `<`/`<=`, anything else answers `>`/`>=`, so equal strings are `>` and not `<=`. */
  function StringOrderAsWritten(op: string, c: int): (v: Value)
    requires op == "<" || op == ">" || op == "<=" || op == ">="
    ensures v.Bool?
    ensures c < 0 ==> v.b == (op == "<" || op == "<=")
    ensures c >= 0 ==> v.b == (op == ">" || op == ">=")
  {
    Bool(if c < 0 then op == "<" || op == "<=" else op == ">" || op == ">=")
  }

  // ---------------------------------------------------------------------------
  // The parse functions. Measures: the tokens left, then the level.
  // ---------------------------------------------------------------------------

  /** `parsePrimaryWithMeta`. */
  function Primary(e: Env, ts: seq<Token>, pos: nat, cache: Cache): (r: Outcome<Parsed>)
    requires pos <= |ts|
    ensures Advances(ts, pos, r)
    decreases |ts| - pos, 1
  {
    if pos == |ts| then Thrown
    else match ts[pos]
      case NumberTok(v) => Done(Parsed(v, None), pos + 1, cache)
      case StringTok(s) => Done(Parsed(Str(s), None), pos + 1, cache)
      case BoolTok(b) => Done(Parsed(Bool(b), None), pos + 1, cache)
      case CellTok(ref, sheet) =>
        var (v, c) := ResolveOne(e.ctx, cache, {}, Qualified(sheet, ref));
        Done(Parsed(v, None), pos + 1, c)
      case RangeTok(ref, sheet) =>
        (match ResolveBatch(e.ctx, cache, {}, QualifiedAll(sheet, ExpandRangeSpec(ref)))
         case None => Thrown
         case Some((vals, c)) => Done(Parsed(Arr(vals), Some(GetRangeDimensions(ref))), pos + 1, c))
      case FuncTok(name) => FuncCall(e, ts, pos, cache, e.resolveFunction(name))
      case OpTok(op) =>
        if op == "(" then
          match ExprWithMeta(e, ts, pos + 1, cache)
          case Thrown => Thrown
          case Done(res, p, c) => if p < |ts| && ts[p] == OpTok(")") then Done(res, p + 1, c) else Thrown
        else if op == "+" || op == "-" then
          match Primary(e, ts, pos + 1, cache)
          case Thrown => Thrown
          case Done(prim, p, c) =>
            Done(Parsed(if IsError(prim.value) then prim.value else Signed(op == "-", prim.value), None), p, c)
        else Thrown
      case EofTok => Done(Parsed(Num(0.0), None), pos, cache)
      case IdentTok(_) => Thrown
  }

  /** A FUNC token at `pos`: `(`, the arguments, `)`, then the call. */
  function FuncCall(e: Env, ts: seq<Token>, pos: nat, cache: Cache, name: string): (r: Outcome<Parsed>)
    requires pos < |ts|
    ensures Advances(ts, pos, r)
    decreases |ts| - pos, 0
  {
    if pos + 1 == |ts| || ts[pos + 1] != OpTok("(") then Thrown
    else match ArgList(e, ts, pos + 2, cache)
      case Thrown => Thrown
      case Done((args, meta), p, c) =>
        if p == |ts| || ts[p] != OpTok(")") then Thrown
        else match Invoke(e, name, args, meta)
          case None => Thrown
          case Some(v) => Done(Parsed(v, None), p + 1, c)
  }

  /** `parseArgListWithMeta`: the values and shapes of the arguments, up to the `)`. */
  function ArgList(e: Env, ts: seq<Token>, pos: nat, cache: Cache): (r: Outcome<(seq<Value>, seq<Option<Shape>>)>)
    requires pos <= |ts|
    ensures Advances(ts, pos, r)
    ensures r.Done? ==> |r.result.0| == |r.result.1|
    decreases |ts| - pos, 11
  {
    if pos == |ts| then Thrown
    else if ts[pos] == OpTok(")") then Done(([], []), pos, cache)
    else match ExprWithMeta(e, ts, pos, cache)
      case Thrown => Thrown
      case Done(first, p, c) => MoreArgs(e, ts, p, c, [first.value], [first.meta])
  }

  /** The loop of `parseArgListWithMeta`: further arguments after `,` or `;`. */
  function MoreArgs(e: Env, ts: seq<Token>, pos: nat, cache: Cache, args: seq<Value>, meta: seq<Option<Shape>>)
    : (r: Outcome<(seq<Value>, seq<Option<Shape>>)>)
    requires pos <= |ts| && |args| == |meta|
    ensures Advances(ts, pos, r)
    ensures r.Done? ==> |r.result.0| == |r.result.1|
    decreases |ts| - pos, 10
  {
    if pos == |ts| then Thrown
    else if ts[pos] == OpTok(",") || ts[pos] == OpTok(";") then
      match ExprWithMeta(e, ts, pos + 1, cache)
      case Thrown => Thrown
      case Done(next, p, c) => MoreArgs(e, ts, p, c, args + [next.value], meta + [next.meta])
    else Done((args, meta), pos, cache)
  }

  /** `parseExpressionWithMeta`: a range keeps its shape; anything else is a comparison. */
  function ExprWithMeta(e: Env, ts: seq<Token>, pos: nat, cache: Cache): (r: Outcome<Parsed>)
    requires pos <= |ts|
    ensures Advances(ts, pos, r)
    decreases |ts| - pos, 9
  {
    if pos == |ts| then Thrown
    else if ts[pos].RangeTok? then Primary(e, ts, pos, cache)
    else match Comparison(e, ts, pos, cache)
      case Thrown => Thrown
      case Done(v, p, c) => Done(Parsed(v, None), p, c)
  }

  /** `parsePower`. */
  function Power(e: Env, ts: seq<Token>, pos: nat, cache: Cache): (r: Outcome<Value>)
    requires pos <= |ts|
    ensures Advances(ts, pos, r)
    decreases |ts| - pos, 3
  {
    match Primary(e, ts, pos, cache)
    case Thrown => Thrown
    case Done(left, p, c) => PowerLoop(e, ts, p, c, left.value)
  }

  function PowerLoop(e: Env, ts: seq<Token>, pos: nat, cache: Cache, left: Value): (r: Outcome<Value>)
    requires pos <= |ts|
    ensures Advances(ts, pos, r)
    decreases |ts| - pos, 2
  {
    if pos == |ts| then Thrown
    else if ts[pos] != OpTok("^") then Done(left, pos, cache)
    else match Primary(e, ts, pos + 1, cache)
      case Thrown => Thrown
      case Done(right, p, c) =>
        if IsError(left) then Done(left, p, c)
        else if IsError(right.value) then Done(right.value, p, c)
        else PowerLoop(e, ts, p, c, PowValue(e, left, right.value))
  }

  /** `parseTerm`. */
  function Term(e: Env, ts: seq<Token>, pos: nat, cache: Cache): (r: Outcome<Value>)
    requires pos <= |ts|
    ensures Advances(ts, pos, r)
    decreases |ts| - pos, 5
  {
    match Power(e, ts, pos, cache)
    case Thrown => Thrown
    case Done(left, p, c) => TermLoop(e, ts, p, c, left)
  }

  function TermLoop(e: Env, ts: seq<Token>, pos: nat, cache: Cache, left: Value): (r: Outcome<Value>)
    requires pos <= |ts|
    ensures Advances(ts, pos, r)
    decreases |ts| - pos, 4
  {
    if pos == |ts| then Thrown
    else if ts[pos] == OpTok("*") || ts[pos] == OpTok("/") then
      match Power(e, ts, pos + 1, cache)
      case Thrown => Thrown
      case Done(right, p, c) =>
        if IsError(left) then Done(left, p, c)
        else if IsError(right) then Done(right, p, c)
        else if ts[pos] == OpTok("/") && ToNumber(right) == Some(0.0) then Done(Error(DIV0), p, c)
        else TermLoop(e, ts, p, c, Arith(ts[pos].op, left, right))
    else Done(left, pos, cache)
  }

  /** `parseAddSub`. */
  function AddSub(e: Env, ts: seq<Token>, pos: nat, cache: Cache): (r: Outcome<Value>)
    requires pos <= |ts|
    ensures Advances(ts, pos, r)
    decreases |ts| - pos, 7
  {
    match Term(e, ts, pos, cache)
    case Thrown => Thrown
    case Done(left, p, c) => AddSubLoop(e, ts, p, c, left)
  }

  function AddSubLoop(e: Env, ts: seq<Token>, pos: nat, cache: Cache, left: Value): (r: Outcome<Value>)
    requires pos <= |ts|
    ensures Advances(ts, pos, r)
    decreases |ts| - pos, 6
  {
    if pos == |ts| then Thrown
    else if ts[pos] == OpTok("+") || ts[pos] == OpTok("-") || ts[pos] == OpTok("&") then
      match Term(e, ts, pos + 1, cache)
      case Thrown => Thrown
      case Done(right, p, c) =>
        if IsError(left) then Done(left, p, c)
        else if IsError(right) then Done(right, p, c)
        else if ts[pos] == OpTok("&") then AddSubLoop(e, ts, p, c, Str(ToStr(left) + ToStr(right)))
        else AddSubLoop(e, ts, p, c, Arith(ts[pos].op, left, right))
    else Done(left, pos, cache)
  }

  /** `parseComparison`: at most one comparison operator. */
  function Comparison(e: Env, ts: seq<Token>, pos: nat, cache: Cache): (r: Outcome<Value>)
    requires pos <= |ts|
    ensures Advances(ts, pos, r)
    decreases |ts| - pos, 8
  {
    match AddSub(e, ts, pos, cache)
    case Thrown => Thrown
    case Done(left, p, c) =>
      if p == |ts| then Thrown
      else if ts[p].OpTok? && IsComparisonOp(ts[p].op) then
        match AddSub(e, ts, p + 1, c)
        case Thrown => Thrown
        case Done(right, q, c2) =>
          Done(if IsError(left) then left else if IsError(right) then right
               else Compare(ts[p].op, left, right), q, c2)
      else Done(left, p, c)
  }

  /** `parser.parseExpression()` from the first token with an empty resolve cache, any
    * exception read as `#VALUE!`. Tokens after the expression are ignored. */
  function Evaluate(e: Env, ts: seq<Token>): Value
  {
    match Comparison(e, ts, 0, map[])
    case Thrown => Error(VALUE)
    case Done(v, _, _) => v
  }
}
