/** The formula parser as `makeParser` builds it: a cursor over the token list that the parse
  * methods advance, `while` loops that fold the binary levels into `left`, and argument lists
  * built by appending. Cells are resolved through the evaluation's `EvalContext`. Every parse
  * method is proved to compute what the matching function of `Evaluator` computes, and to
  * leave the cursor and the resolve cache where that function leaves them. */
module FormulaParser {
  import opened Wrappers
  import opened Values
  import opened Errors
  import opened RangeUtils
  import opened Tokenizer
  import opened Resolution
  import opened Evaluator

  /** The loop of `parsePrimaryWithMeta` that builds `flatArgs`: each range's values spliced in
    * place of the range. */
  method FlattenArgs(args: seq<Value>) returns (flat: seq<Value>)
    ensures flat == Flatten(args)
  {
    flat := [];
    var i := 0;
    while i < |args|
      invariant 0 <= i <= |args|
      invariant flat == Flatten(args[..i])
    {
      assert args[..i + 1][..i] == args[..i];
      if args[i].Arr? {
        flat := flat + args[i].items;
      } else {
        flat := flat + [args[i]];
      }
      i := i + 1;
    }
    assert args[..|args|] == args;
  }

  /** The call at the end of a FUNC primary: `#NAME?` for a name with no function, otherwise the
    * function with the arguments in the form it expects. `None` when the function throws. */
  method CallFunction(e: Env, name: string, args: seq<Value>, meta: seq<Option<Shape>>)
    returns (r: Option<Value>)
    ensures r == Invoke(e, name, args, meta)
  {
    var flat := FlattenArgs(args);
    var f := Lookup(e, name);
    if f.None? {
      return Some(Error(NAME));
    }
    if IsCriteriaName(name) {
      r := f.value(args, []);
    } else if IsLookupName(name) {
      r := f.value(args, meta);
    } else {
      r := f.value(flat, []);
    }
  }

  class Parser {
    const tokens: seq<Token>
    const env: Env
    const context: EvalContext
    var pos: nat

    /** The cursor is on the list, the context is the one the resolvers belong to, and no ref
      * is in flight between calls. */
    ghost predicate Valid()
      reads this, context
    {
      pos <= |tokens| && context.ctx == env.ctx && context.evaluating == {}
    }

    /** A method's result agrees with a parse function's outcome: the same value, and the
      * cursor and the cache where the function leaves them; `None` where the function throws. */
    ghost predicate Reached<T>(o: Outcome<T>, r: Option<T>)
      reads this, context
    {
      match o
      case Thrown => r.None?
      case Done(x, p, c) => r == Some(x) && pos == p && context.cache == c
    }

    constructor (tokens: seq<Token>, env: Env, context: EvalContext)
      requires context.ctx == env.ctx && context.evaluating == {}
      ensures this.tokens == tokens && this.env == env && this.context == context && pos == 0
      ensures Valid()
    {
      this.tokens := tokens;
      this.env := env;
      this.context := context;
      pos := 0;
    }

    /** `parsePrimaryWithMeta`. */
    method ParsePrimary() returns (r: Option<Parsed>)
      requires Valid()
      modifies this, context
      ensures Valid()
      ensures Reached(Primary(env, tokens, old(pos), old(context.cache)), r)
      decreases |tokens| - pos, 1
    {
      if pos == |tokens| {
        return None;
      }
      match tokens[pos] {
        case NumberTok(v) =>
          pos := pos + 1;
          r := Some(Parsed(v, None));
        case StringTok(s) =>
          pos := pos + 1;
          r := Some(Parsed(Str(s), None));
        case BoolTok(b) =>
          pos := pos + 1;
          r := Some(Parsed(Bool(b), None));
        case CellTok(ref, sheet) =>
          pos := pos + 1;
          var v := context.ResolveCell(Qualified(sheet, ref));
          r := Some(Parsed(v, None));
        case RangeTok(ref, sheet) =>
          pos := pos + 1;
          var refs := ExpandRange(ref);
          var dims := GetRangeDimensions(ref);
          var vals := context.ResolveCellsBatch(QualifiedAll(sheet, refs));
          if vals.None? {
            return None;
          }
          r := Some(Parsed(Arr(vals.value), Some(dims)));
        case FuncTok(name) =>
          r := ParseCall(env.resolveFunction(name));
        case OpTok(op) =>
          if op == "(" {
            pos := pos + 1;
            var inner := ParseExprWithMeta();
            if inner.None? || pos == |tokens| || tokens[pos] != OpTok(")") {
              return None;
            }
            pos := pos + 1;
            r := inner;
          } else if op == "+" || op == "-" {
            pos := pos + 1;
            var prim := ParsePrimary();
            if prim.None? {
              return None;
            }
            var v := prim.value.value;
            r := Some(Parsed(if IsError(v) then v else Signed(op == "-", v), None));
          } else {
            r := None;
          }
        case EofTok =>
          r := Some(Parsed(Num(0.0), None));
        case IdentTok(_) =>
          r := None;
      }
    }

    /** The FUNC branch of `parsePrimaryWithMeta`, after the name has been resolved. */
    method ParseCall(name: string) returns (r: Option<Parsed>)
      requires Valid() && pos < |tokens|
      modifies this, context
      ensures Valid()
      ensures Reached(FuncCall(env, tokens, old(pos), old(context.cache), name), r)
      decreases |tokens| - pos, 0
    {
      if pos + 1 == |tokens| || tokens[pos + 1] != OpTok("(") {
        return None;
      }
      pos := pos + 2;
      var list := ParseArgList();
      if list.None? || pos == |tokens| || tokens[pos] != OpTok(")") {
        return None;
      }
      pos := pos + 1;
      var v := CallFunction(env, name, list.value.0, list.value.1);
      if v.None? {
        return None;
      }
      r := Some(Parsed(v.value, None));
    }

    /** `parseArgListWithMeta`. */
    method ParseArgList() returns (r: Option<(seq<Value>, seq<Option<Shape>>)>)
      requires Valid()
      modifies this, context
      ensures Valid()
      ensures Reached(ArgList(env, tokens, old(pos), old(context.cache)), r)
      decreases |tokens| - pos, 11
    {
      if pos == |tokens| {
        return None;
      }
      if tokens[pos] == OpTok(")") {
        return Some(([], []));
      }
      ghost var p0, c0 := pos, context.cache;
      var first := ParseExprWithMeta();
      if first.None? {
        return None;
      }
      var args, meta := [first.value.value], [first.value.meta];
      while pos < |tokens| && (tokens[pos] == OpTok(",") || tokens[pos] == OpTok(";"))
        invariant Valid() && p0 <= pos && |args| == |meta|
        invariant ArgList(env, tokens, p0, c0) == MoreArgs(env, tokens, pos, context.cache, args, meta)
        decreases |tokens| - pos
      {
        pos := pos + 1;
        var next := ParseExprWithMeta();
        if next.None? {
          return None;
        }
        args, meta := args + [next.value.value], meta + [next.value.meta];
      }
      if pos == |tokens| {
        return None;
      }
      r := Some((args, meta));
    }

    /** `parseExpressionWithMeta`: a range keeps its shape, anything else is a comparison. */
    method ParseExprWithMeta() returns (r: Option<Parsed>)
      requires Valid()
      modifies this, context
      ensures Valid()
      ensures Reached(ExprWithMeta(env, tokens, old(pos), old(context.cache)), r)
      decreases |tokens| - pos, 9
    {
      if pos == |tokens| {
        return None;
      }
      if tokens[pos].RangeTok? {
        r := ParsePrimary();
        return;
      }
      var v := ParseComparison();
      if v.None? {
        return None;
      }
      r := Some(Parsed(v.value, None));
    }

    /** `parsePower`. */
    method ParsePower() returns (r: Option<Value>)
      requires Valid()
      modifies this, context
      ensures Valid()
      ensures Reached(Power(env, tokens, old(pos), old(context.cache)), r)
      decreases |tokens| - pos, 3
    {
      ghost var p0, c0 := pos, context.cache;
      var first := ParsePrimary();
      if first.None? {
        return None;
      }
      var left := first.value.value;
      while pos < |tokens| && tokens[pos] == OpTok("^")
        invariant Valid() && p0 <= pos
        invariant Power(env, tokens, p0, c0) == PowerLoop(env, tokens, pos, context.cache, left)
        decreases |tokens| - pos
      {
        pos := pos + 1;
        var right := ParsePrimary();
        if right.None? {
          return None;
        }
        if IsError(left) {
          return Some(left);
        }
        if IsError(right.value.value) {
          return Some(right.value.value);
        }
        left := PowValue(env, left, right.value.value);
      }
      if pos == |tokens| {
        return None;
      }
      r := Some(left);
    }

    /** `parseTerm`. */
    method ParseTerm() returns (r: Option<Value>)
      requires Valid()
      modifies this, context
      ensures Valid()
      ensures Reached(Term(env, tokens, old(pos), old(context.cache)), r)
      decreases |tokens| - pos, 5
    {
      ghost var p0, c0 := pos, context.cache;
      var first := ParsePower();
      if first.None? {
        return None;
      }
      var left := first.value;
      while pos < |tokens| && (tokens[pos] == OpTok("*") || tokens[pos] == OpTok("/"))
        invariant Valid() && p0 <= pos
        invariant Term(env, tokens, p0, c0) == TermLoop(env, tokens, pos, context.cache, left)
        decreases |tokens| - pos
      {
        var op := tokens[pos].op;
        pos := pos + 1;
        var right := ParsePower();
        if right.None? {
          return None;
        }
        if IsError(left) {
          return Some(left);
        }
        if IsError(right.value) {
          return right;
        }
        if op == "/" && ToNumber(right.value) == Some(0.0) {
          return Some(Error(DIV0));
        }
        left := Arith(op, left, right.value);
      }
      if pos == |tokens| {
        return None;
      }
      r := Some(left);
    }

    /** `parseAddSub`. */
    method ParseAddSub() returns (r: Option<Value>)
      requires Valid()
      modifies this, context
      ensures Valid()
      ensures Reached(AddSub(env, tokens, old(pos), old(context.cache)), r)
      decreases |tokens| - pos, 7
    {
      ghost var p0, c0 := pos, context.cache;
      var first := ParseTerm();
      if first.None? {
        return None;
      }
      var left := first.value;
      while pos < |tokens| && (tokens[pos] == OpTok("+") || tokens[pos] == OpTok("-") || tokens[pos] == OpTok("&"))
        invariant Valid() && p0 <= pos
        invariant AddSub(env, tokens, p0, c0) == AddSubLoop(env, tokens, pos, context.cache, left)
        decreases |tokens| - pos
      {
        var op := tokens[pos].op;
        pos := pos + 1;
        var right := ParseTerm();
        if right.None? {
          return None;
        }
        if IsError(left) {
          return Some(left);
        }
        if IsError(right.value) {
          return right;
        }
        if op == "&" {
          left := Str(ToStr(left) + ToStr(right.value));
        } else {
          left := Arith(op, left, right.value);
        }
      }
      if pos == |tokens| {
        return None;
      }
      r := Some(left);
    }

    /** `parseComparison`, which is also `parseExpression`. */
    method ParseComparison() returns (r: Option<Value>)
      requires Valid()
      modifies this, context
      ensures Valid()
      ensures Reached(Comparison(env, tokens, old(pos), old(context.cache)), r)
      decreases |tokens| - pos, 8
    {
      var left := ParseAddSub();
      if left.None? || pos == |tokens| {
        return None;
      }
      if tokens[pos].OpTok? && IsComparisonOp(tokens[pos].op) {
        var op := tokens[pos].op;
        pos := pos + 1;
        var right := ParseAddSub();
        if right.None? {
          return None;
        }
        var l, rv := left.value, right.value;
        r := Some(if IsError(l) then l else if IsError(rv) then rv else Compare(op, l, rv));
      } else {
        r := left;
      }
    }
  }
}
