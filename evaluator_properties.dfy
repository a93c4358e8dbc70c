/** What the evaluator does with whole formulas: precedence, associativity, error
  * propagation, division by zero, the comparison rules and the error paths of the parser. */
module EvaluatorProperties {
  import opened Wrappers
  import opened Text
  import opened Values
  import opened Errors
  import opened RangeUtils
  import opened Tokenizer
  import opened Resolution
  import opened Evaluator

  function N(x: real): Token { NumberTok(Num(x)) }

  // ---- lifting an operand through the levels ----

  /** A primary not followed by `^` is a whole power operand. */
  lemma PrimaryIsPower(e: Env, ts: seq<Token>, pos: nat, c: Cache, x: Parsed, p: nat, c2: Cache)
    requires pos <= |ts| && Primary(e, ts, pos, c) == Done(x, p, c2)
    requires p < |ts| && ts[p] != OpTok("^")
    ensures Power(e, ts, pos, c) == Done(x.value, p, c2)
  {
    assert PowerLoop(e, ts, p, c2, x.value) == Done(x.value, p, c2);
  }

  /** A power not followed by `*` or `/` is a whole term. */
  lemma PowerIsTerm(e: Env, ts: seq<Token>, pos: nat, c: Cache, v: Value, p: nat, c2: Cache)
    requires pos <= |ts| && Power(e, ts, pos, c) == Done(v, p, c2)
    requires p < |ts| && ts[p] != OpTok("*") && ts[p] != OpTok("/")
    ensures Term(e, ts, pos, c) == Done(v, p, c2)
  {
    assert TermLoop(e, ts, p, c2, v) == Done(v, p, c2);
  }

  /** A term not followed by `+`, `-` or `&` is a whole sum. */
  lemma TermIsSum(e: Env, ts: seq<Token>, pos: nat, c: Cache, v: Value, p: nat, c2: Cache)
    requires pos <= |ts| && Term(e, ts, pos, c) == Done(v, p, c2)
    requires p < |ts| && ts[p] != OpTok("+") && ts[p] != OpTok("-") && ts[p] != OpTok("&")
    ensures AddSub(e, ts, pos, c) == Done(v, p, c2)
  {
    assert AddSubLoop(e, ts, p, c2, v) == Done(v, p, c2);
  }

  /** A sum not followed by a comparison operator is the whole expression. */
  lemma SumIsExpression(e: Env, ts: seq<Token>, pos: nat, c: Cache, v: Value, p: nat, c2: Cache)
    requires pos <= |ts| && AddSub(e, ts, pos, c) == Done(v, p, c2)
    requires p < |ts| && !(ts[p].OpTok? && IsComparisonOp(ts[p].op))
    ensures Comparison(e, ts, pos, c) == Done(v, p, c2)
  {
  }

  /** A primary followed by the end is the whole expression. */
  lemma PrimaryIsExpression(e: Env, ts: seq<Token>, pos: nat, c: Cache, x: Parsed, p: nat, c2: Cache)
    requires pos <= |ts| && Primary(e, ts, pos, c) == Done(x, p, c2)
    requires p < |ts| && ts[p] == EofTok
    ensures Comparison(e, ts, pos, c) == Done(x.value, p, c2)
  {
    PrimaryIsPower(e, ts, pos, c, x, p, c2);
    PowerIsTerm(e, ts, pos, c, x.value, p, c2);
    TermIsSum(e, ts, pos, c, x.value, p, c2);
    SumIsExpression(e, ts, pos, c, x.value, p, c2);
  }

  /** A primary that throws makes the expression throw. */
  lemma ThrownPrimary(e: Env, ts: seq<Token>, pos: nat, c: Cache)
    requires pos <= |ts| && Primary(e, ts, pos, c) == Thrown
    ensures Comparison(e, ts, pos, c) == Thrown
  {
    assert Power(e, ts, pos, c) == Thrown;
    assert Term(e, ts, pos, c) == Thrown;
    assert AddSub(e, ts, pos, c) == Thrown;
  }

  // ---- one literal operand ----

  /** A value token not followed by `^` is a whole power operand. */
  lemma LiteralPower(e: Env, ts: seq<Token>, pos: nat, c: Cache, v: Value)
    requires pos + 1 < |ts| && ts[pos] == NumberTok(v) && ts[pos + 1] != OpTok("^")
    ensures Power(e, ts, pos, c) == Done(v, pos + 1, c)
  {
    assert Primary(e, ts, pos, c) == Done(Parsed(v, None), pos + 1, c);
    PrimaryIsPower(e, ts, pos, c, Parsed(v, None), pos + 1, c);
  }

  /** ... and not followed by `*` or `/`, a whole term. */
  lemma LiteralTerm(e: Env, ts: seq<Token>, pos: nat, c: Cache, v: Value)
    requires pos + 1 < |ts| && ts[pos] == NumberTok(v)
    requires ts[pos + 1] != OpTok("^") && ts[pos + 1] != OpTok("*") && ts[pos + 1] != OpTok("/")
    ensures Term(e, ts, pos, c) == Done(v, pos + 1, c)
  {
    LiteralPower(e, ts, pos, c, v);
    PowerIsTerm(e, ts, pos, c, v, pos + 1, c);
  }

  /** ... and not followed by `+`, `-` or `&`, a whole sum. */
  lemma LiteralSum(e: Env, ts: seq<Token>, pos: nat, c: Cache, v: Value)
    requires pos + 1 < |ts| && ts[pos] == NumberTok(v)
    requires ts[pos + 1] != OpTok("^") && ts[pos + 1] != OpTok("*") && ts[pos + 1] != OpTok("/")
    requires ts[pos + 1] != OpTok("+") && ts[pos + 1] != OpTok("-") && ts[pos + 1] != OpTok("&")
    ensures AddSub(e, ts, pos, c) == Done(v, pos + 1, c)
  {
    LiteralTerm(e, ts, pos, c, v);
    TermIsSum(e, ts, pos, c, v, pos + 1, c);
  }

  // ---- precedence and associativity ----

  /** `a+b*c` is `a+(b*c)`. */
  lemma MulBindsTighterThanAdd(e: Env, a: real, b: real, c: real)
    ensures Evaluate(e, [N(a), OpTok("+"), N(b), OpTok("*"), N(c), EofTok]) == Num(a + b * c)
  {
    var ts := [N(a), OpTok("+"), N(b), OpTok("*"), N(c), EofTok];
    var m: Cache := map[];
    LiteralTerm(e, ts, 0, m, Num(a));
    LiteralPower(e, ts, 2, m, Num(b));
    LiteralPower(e, ts, 4, m, Num(c));
    assert Arith("*", Num(b), Num(c)) == Num(b * c);
    assert TermLoop(e, ts, 5, m, Num(b * c)) == Done(Num(b * c), 5, m);
    assert Term(e, ts, 2, m) == Done(Num(b * c), 5, m);
    assert AddSubLoop(e, ts, 5, m, Num(a + b * c)) == Done(Num(a + b * c), 5, m);
    assert AddSub(e, ts, 0, m) == Done(Num(a + b * c), 5, m);
    SumIsExpression(e, ts, 0, m, Num(a + b * c), 5, m);
  }

  /** `a*b^c` is `a*(b^c)`. */
  lemma PowBindsTighterThanMul(e: Env, a: real, b: real, c: real)
    ensures Evaluate(e, [N(a), OpTok("*"), N(b), OpTok("^"), N(c), EofTok]) ==
      match e.pow(Some(b), Some(c)) case Some(x) => Num(a * x) case None => NaN
  {
    var ts := [N(a), OpTok("*"), N(b), OpTok("^"), N(c), EofTok];
    var m: Cache := map[];
    var p := PowValue(e, Num(b), Num(c));
    var r := Arith("*", Num(a), p);
    assert r == match e.pow(Some(b), Some(c)) case Some(x) => Num(a * x) case None => NaN;
    LiteralPower(e, ts, 0, m, Num(a));
    assert Primary(e, ts, 2, m) == Done(Parsed(Num(b), None), 3, m);
    assert Primary(e, ts, 4, m) == Done(Parsed(Num(c), None), 5, m);
    assert PowerLoop(e, ts, 5, m, p) == Done(p, 5, m);
    assert PowerLoop(e, ts, 3, m, Num(b)) == Done(p, 5, m);
    assert Power(e, ts, 2, m) == Done(p, 5, m);
    assert TermLoop(e, ts, 5, m, r) == Done(r, 5, m);
    assert TermLoop(e, ts, 1, m, Num(a)) == Done(r, 5, m);
    TermIsSum(e, ts, 0, m, r, 5, m);
    SumIsExpression(e, ts, 0, m, r, 5, m);
  }

  /** `a-b-c` is `(a-b)-c`: the binary levels associate to the left. */
  lemma SubtractionAssociatesLeft(e: Env, a: real, b: real, c: real)
    ensures Evaluate(e, [N(a), OpTok("-"), N(b), OpTok("-"), N(c), EofTok]) == Num((a - b) - c)
  {
    var ts := [N(a), OpTok("-"), N(b), OpTok("-"), N(c), EofTok];
    var m: Cache := map[];
    LiteralTerm(e, ts, 0, m, Num(a));
    LiteralTerm(e, ts, 2, m, Num(b));
    LiteralTerm(e, ts, 4, m, Num(c));
    assert AddSubLoop(e, ts, 5, m, Num((a - b) - c)) == Done(Num((a - b) - c), 5, m);
    assert AddSubLoop(e, ts, 3, m, Num(a - b)) == Done(Num((a - b) - c), 5, m);
    assert AddSubLoop(e, ts, 1, m, Num(a)) == Done(Num((a - b) - c), 5, m);
    SumIsExpression(e, ts, 0, m, Num((a - b) - c), 5, m);
  }

  /** `a+b=c` compares the sum: the comparison binds loosest. */
  lemma ComparisonBindsLoosest(e: Env, a: real, b: real, c: real)
    ensures Evaluate(e, [N(a), OpTok("+"), N(b), OpTok("="), N(c), EofTok]) == Bool(a + b == c)
  {
    var ts := [N(a), OpTok("+"), N(b), OpTok("="), N(c), EofTok];
    var m: Cache := map[];
    LiteralTerm(e, ts, 0, m, Num(a));
    LiteralTerm(e, ts, 2, m, Num(b));
    LiteralSum(e, ts, 4, m, Num(c));
    assert AddSubLoop(e, ts, 3, m, Num(a + b)) == Done(Num(a + b), 3, m);
    assert AddSubLoop(e, ts, 1, m, Num(a)) == Done(Num(a + b), 3, m);
    assert AddSub(e, ts, 0, m) == Done(Num(a + b), 3, m);
    ComparisonReads(e, ts, 0, m, Num(a + b), 3, m, Num(c), 5, m);
  }

  /** Only one comparison is read: in `a=b=c` the second `=` ends the formula, since the top
    * level does not require the end of the input. */
  lemma OneComparisonOnly(e: Env, a: real, b: real, c: real)
    ensures Evaluate(e, [N(a), OpTok("="), N(b), OpTok("="), N(c), EofTok]) == Bool(a == b)
  {
    var ts := [N(a), OpTok("="), N(b), OpTok("="), N(c), EofTok];
    var m: Cache := map[];
    LiteralSum(e, ts, 0, m, Num(a));
    LiteralSum(e, ts, 2, m, Num(b));
  }

  /** Tokens after a complete expression are ignored. */
  lemma TrailingTokensIgnored(e: Env, a: Value, b: Value)
    ensures Evaluate(e, [NumberTok(a), NumberTok(b), EofTok]) == a
  {
    var ts := [NumberTok(a), NumberTok(b), EofTok];
    var m: Cache := map[];
    LiteralSum(e, ts, 0, m, a);
    SumIsExpression(e, ts, 0, m, a, 1, m);
  }

  // ---- errors ----

  predicate IsBinaryOp(op: string)
  {
    op == "^" || op == "*" || op == "/" || op == "+" || op == "-" || op == "&" || IsComparisonOp(op)
  }

  /** An error on the left of any binary operator is the result, whatever is on the right. */
  lemma LeftErrorWins(e: Env, err: string, op: string, v: Value)
    requires IsError(Str(err)) && IsBinaryOp(op)
    ensures Evaluate(e, [StringTok(err), OpTok(op), NumberTok(v), EofTok]) == Str(err)
  {
    var ts := [StringTok(err), OpTok(op), NumberTok(v), EofTok];
    var m: Cache := map[];
    var l := Str(err);
    assert Primary(e, ts, 0, m) == Done(Parsed(l, None), 1, m);
    if op == "^" {
      assert Primary(e, ts, 2, m) == Done(Parsed(v, None), 3, m);
      assert PowerLoop(e, ts, 1, m, l) == Done(l, 3, m);
      PowerIsTerm(e, ts, 0, m, l, 3, m);
      TermIsSum(e, ts, 0, m, l, 3, m);
    } else if op == "*" || op == "/" {
      LiteralPower(e, ts, 2, m, v);
      PrimaryIsPower(e, ts, 0, m, Parsed(l, None), 1, m);
      assert TermLoop(e, ts, 1, m, l) == Done(l, 3, m);
      TermIsSum(e, ts, 0, m, l, 3, m);
    } else if op == "+" || op == "-" || op == "&" {
      LiteralTerm(e, ts, 2, m, v);
      PrimaryIsPower(e, ts, 0, m, Parsed(l, None), 1, m);
      PowerIsTerm(e, ts, 0, m, l, 1, m);
      assert AddSubLoop(e, ts, 1, m, l) == Done(l, 3, m);
      SumIsExpression(e, ts, 0, m, l, 3, m);
    } else {
      LiteralSum(e, ts, 2, m, v);
      PrimaryIsPower(e, ts, 0, m, Parsed(l, None), 1, m);
      PowerIsTerm(e, ts, 0, m, l, 1, m);
      TermIsSum(e, ts, 0, m, l, 1, m);
    }
  }

  /** An error on the right of a binary operator with a non-error left operand is the result. */
  lemma RightErrorWins(e: Env, v: Value, op: string, err: string)
    requires IsError(Str(err)) && !IsError(v) && IsBinaryOp(op)
    ensures Evaluate(e, [NumberTok(v), OpTok(op), StringTok(err), EofTok]) == Str(err)
  {
    var ts := [NumberTok(v), OpTok(op), StringTok(err), EofTok];
    var m: Cache := map[];
    var r := Str(err);
    assert Primary(e, ts, 0, m) == Done(Parsed(v, None), 1, m);
    assert Primary(e, ts, 2, m) == Done(Parsed(r, None), 3, m);
    if op == "^" {
      assert PowerLoop(e, ts, 1, m, v) == Done(r, 3, m);
      PowerIsTerm(e, ts, 0, m, r, 3, m);
      TermIsSum(e, ts, 0, m, r, 3, m);
    } else if op == "*" || op == "/" {
      PrimaryIsPower(e, ts, 2, m, Parsed(r, None), 3, m);
      LiteralPower(e, ts, 0, m, v);
      assert TermLoop(e, ts, 1, m, v) == Done(r, 3, m);
      TermIsSum(e, ts, 0, m, r, 3, m);
    } else if op == "+" || op == "-" || op == "&" {
      PrimaryIsPower(e, ts, 2, m, Parsed(r, None), 3, m);
      PowerIsTerm(e, ts, 2, m, r, 3, m);
      LiteralTerm(e, ts, 0, m, v);
      assert AddSubLoop(e, ts, 1, m, v) == Done(r, 3, m);
      SumIsExpression(e, ts, 0, m, r, 3, m);
    } else {
      PrimaryIsPower(e, ts, 2, m, Parsed(r, None), 3, m);
      PowerIsTerm(e, ts, 2, m, r, 3, m);
      TermIsSum(e, ts, 2, m, r, 3, m);
      LiteralSum(e, ts, 0, m, v);
    }
  }

  // ---- one step of each binary level, over any operands ----

  /** `^` takes a primary on its right; an error on either side is the result, the left one
    * first, and the loop stops there. */
  lemma PowerStep(e: Env, ts: seq<Token>, pos: nat, c: Cache, left: Value, right: Parsed, p: nat, c2: Cache)
    requires pos < |ts| && ts[pos] == OpTok("^")
    requires Primary(e, ts, pos + 1, c) == Done(right, p, c2)
    ensures IsError(left) ==> PowerLoop(e, ts, pos, c, left) == Done(left, p, c2)
    ensures !IsError(left) && IsError(right.value) ==> PowerLoop(e, ts, pos, c, left) == Done(right.value, p, c2)
    ensures !IsError(left) && !IsError(right.value) ==>
      PowerLoop(e, ts, pos, c, left) == PowerLoop(e, ts, p, c2, PowValue(e, left, right.value))
  {
  }

  /** `*` and `/` take a power on their right: errors first, then a zero divisor, then the
    * product or quotient becomes the new left operand. */
  lemma TermStep(e: Env, ts: seq<Token>, pos: nat, c: Cache, left: Value, right: Value, p: nat, c2: Cache)
    requires pos < |ts| && (ts[pos] == OpTok("*") || ts[pos] == OpTok("/"))
    requires Power(e, ts, pos + 1, c) == Done(right, p, c2)
    ensures IsError(left) ==> TermLoop(e, ts, pos, c, left) == Done(left, p, c2)
    ensures !IsError(left) && IsError(right) ==> TermLoop(e, ts, pos, c, left) == Done(right, p, c2)
    ensures !IsError(left) && !IsError(right) && ts[pos] == OpTok("/") && ToNumber(right) == Some(0.0) ==>
      TermLoop(e, ts, pos, c, left) == Done(Error(DIV0), p, c2)
    ensures !IsError(left) && !IsError(right) && ts[pos] == OpTok("*") ==>
      TermLoop(e, ts, pos, c, left) == TermLoop(e, ts, p, c2, Arith("*", left, right))
    ensures !IsError(left) && !IsError(right) && ts[pos] == OpTok("/") && ToNumber(right) != Some(0.0) ==>
      TermLoop(e, ts, pos, c, left) == TermLoop(e, ts, p, c2, Arith("/", left, right))
  {
  }

  /** `+`, `-` and `&` take a term on their right: errors first, then the sum, difference or
    * concatenation becomes the new left operand. */
  lemma AddSubStep(e: Env, ts: seq<Token>, pos: nat, c: Cache, left: Value, right: Value, p: nat, c2: Cache)
    requires pos < |ts| && (ts[pos] == OpTok("+") || ts[pos] == OpTok("-") || ts[pos] == OpTok("&"))
    requires Term(e, ts, pos + 1, c) == Done(right, p, c2)
    ensures IsError(left) ==> AddSubLoop(e, ts, pos, c, left) == Done(left, p, c2)
    ensures !IsError(left) && IsError(right) ==> AddSubLoop(e, ts, pos, c, left) == Done(right, p, c2)
    ensures !IsError(left) && !IsError(right) && ts[pos] == OpTok("&") ==>
      AddSubLoop(e, ts, pos, c, left) == AddSubLoop(e, ts, p, c2, Str(ToStr(left) + ToStr(right)))
    ensures !IsError(left) && !IsError(right) && ts[pos] != OpTok("&") ==>
      AddSubLoop(e, ts, pos, c, left) == AddSubLoop(e, ts, p, c2, Arith(ts[pos].op, left, right))
  {
  }

  /** A comparison takes a sum on each side: errors first, then the comparison rules. */
  lemma ComparisonStep(e: Env, ts: seq<Token>, pos: nat, c: Cache, left: Value, p: nat, c1: Cache,
                       right: Value, q: nat, c2: Cache)
    requires pos <= |ts| && AddSub(e, ts, pos, c) == Done(left, p, c1)
    requires p < |ts| && ts[p].OpTok? && IsComparisonOp(ts[p].op)
    requires AddSub(e, ts, p + 1, c1) == Done(right, q, c2)
    ensures IsError(left) ==> Comparison(e, ts, pos, c) == Done(left, q, c2)
    ensures !IsError(left) && IsError(right) ==> Comparison(e, ts, pos, c) == Done(right, q, c2)
    ensures !IsError(left) && !IsError(right) ==>
      Comparison(e, ts, pos, c) == Done(Compare(ts[p].op, left, right), q, c2)
  {
    ComparisonReads(e, ts, pos, c, left, p, c1, right, q, c2);
  }

  lemma ComparisonReads(e: Env, ts: seq<Token>, pos: nat, c: Cache, left: Value, p: nat, c1: Cache,
                        right: Value, q: nat, c2: Cache)
    requires pos <= |ts| && AddSub(e, ts, pos, c) == Done(left, p, c1)
    requires p < |ts| && ts[p].OpTok? && IsComparisonOp(ts[p].op)
    requires AddSub(e, ts, p + 1, c1) == Done(right, q, c2)
    ensures Comparison(e, ts, pos, c) ==
      Done(if IsError(left) then left else if IsError(right) then right else Compare(ts[p].op, left, right), q, c2)
  {
  }

  /** Errors propagate from any sub-expression: when the first term of a formula is an error
    * (`(1/0)+1`, `VLOOKUP(...)*2+1`), whatever follows the next `+`, `-` or `&` is read and
    * the formula's value is that error. */
  lemma ErrorTermPropagates(e: Env, ts: seq<Token>, err: Value, p: nat, c1: Cache, right: Value, q: nat, c2: Cache)
    requires Term(e, ts, 0, map[]) == Done(err, p, c1) && IsError(err)
    requires p < |ts| && (ts[p] == OpTok("+") || ts[p] == OpTok("-") || ts[p] == OpTok("&"))
    requires Term(e, ts, p + 1, c1) == Done(right, q, c2)
    requires q < |ts| && !(ts[q].OpTok? && IsComparisonOp(ts[q].op))
    ensures Evaluate(e, ts) == err
  {
    AddSubStep(e, ts, p, c1, err, right, q, c2);
    assert AddSub(e, ts, 0, map[]) == Done(err, q, c2);
    SumIsExpression(e, ts, 0, map[], err, q, c2);
  }

  /** ... and an error term on the right of a non-error one is the formula's value. */
  lemma RightErrorTermPropagates(e: Env, ts: seq<Token>, left: Value, p: nat, c1: Cache, err: Value, q: nat, c2: Cache)
    requires Term(e, ts, 0, map[]) == Done(left, p, c1) && !IsError(left)
    requires p < |ts| && (ts[p] == OpTok("+") || ts[p] == OpTok("-") || ts[p] == OpTok("&"))
    requires Term(e, ts, p + 1, c1) == Done(err, q, c2) && IsError(err)
    requires q < |ts| && !(ts[q].OpTok? && IsComparisonOp(ts[q].op))
    ensures Evaluate(e, ts) == err
  {
    AddSubStep(e, ts, p, c1, left, err, q, c2);
    assert AddSub(e, ts, 0, map[]) == Done(err, q, c2);
    SumIsExpression(e, ts, 0, map[], err, q, c2);
  }

  /** Whatever a comparison's sides are, an error on either side is the formula's value. */
  lemma ErrorComparedPropagates(e: Env, ts: seq<Token>, left: Value, p: nat, c1: Cache, right: Value, q: nat, c2: Cache)
    requires AddSub(e, ts, 0, map[]) == Done(left, p, c1)
    requires p < |ts| && ts[p].OpTok? && IsComparisonOp(ts[p].op)
    requires AddSub(e, ts, p + 1, c1) == Done(right, q, c2)
    requires IsError(left) || IsError(right)
    ensures Evaluate(e, ts) == if IsError(left) then left else right
  {
    ComparisonStep(e, ts, 0, map[], left, p, c1, right, q, c2);
  }

  /** Dividing by anything that reads as 0, `''` included, is `#DIV/0!`. */
  lemma DivisionByZero(e: Env, a: Value, z: Value)
    requires !IsError(a) && !IsError(z) && ToNumber(z) == Some(0.0)
    ensures Evaluate(e, [NumberTok(a), OpTok("/"), NumberTok(z), EofTok]) == Error(DIV0)
  {
    var ts := [NumberTok(a), OpTok("/"), NumberTok(z), EofTok];
    var m: Cache := map[];
    LiteralPower(e, ts, 0, m, a);
    LiteralPower(e, ts, 2, m, z);
    assert Term(e, ts, 0, m) == Done(Error(DIV0), 3, m);
    TermIsSum(e, ts, 0, m, Error(DIV0), 3, m);
  }

  // ---- primaries ----

  /** An empty expression is 0. */
  lemma EmptyIsZero(e: Env)
    ensures Evaluate(e, [EofTok]) == Num(0.0)
  {
    var m: Cache := map[];
    assert Primary(e, [EofTok], 0, m) == Done(Parsed(Num(0.0), None), 0, m);
    PrimaryIsExpression(e, [EofTok], 0, m, Parsed(Num(0.0), None), 0, m);
  }

  /** Unary `-` negates `Number(v)` and passes an error through. */
  lemma UnaryMinus(e: Env, v: Value)
    ensures Evaluate(e, [OpTok("-"), NumberTok(v), EofTok]) ==
      if IsError(v) then v else Signed(true, v)
  {
    var ts := [OpTok("-"), NumberTok(v), EofTok];
    var m: Cache := map[];
    var r := if IsError(v) then v else Signed(true, v);
    assert Primary(e, ts, 1, m) == Done(Parsed(v, None), 2, m);
    assert Primary(e, ts, 0, m) == Done(Parsed(r, None), 2, m);
    PrimaryIsExpression(e, ts, 0, m, Parsed(r, None), 2, m);
  }

  /** A `(` with no `)` is an error of the formula: `#VALUE!`. */
  lemma UnclosedParenthesis(e: Env, v: Value)
    ensures Evaluate(e, [OpTok("("), NumberTok(v), EofTok]) == Error(VALUE)
  {
    var ts := [OpTok("("), NumberTok(v), EofTok];
    var m: Cache := map[];
    LiteralSum(e, ts, 1, m, v);
    SumIsExpression(e, ts, 1, m, v, 2, m);
    assert ExprWithMeta(e, ts, 1, m) == Done(Parsed(v, None), 2, m);
    assert Primary(e, ts, 0, m) == Thrown;
    ThrownPrimary(e, ts, 0, m);
  }

  /** A function name not followed by `(` is `#VALUE!`. */
  lemma FunctionWithoutParenthesis(e: Env, name: string)
    ensures Evaluate(e, [FuncTok(name), EofTok]) == Error(VALUE)
  {
    var m: Cache := map[];
    assert Primary(e, [FuncTok(name), EofTok], 0, m) == Thrown;
    ThrownPrimary(e, [FuncTok(name), EofTok], 0, m);
  }

  /** A function call missing its `)` is `#VALUE!`, whatever the function. */
  lemma FunctionWithoutClose(e: Env, name: string, v: Value)
    ensures Evaluate(e, [FuncTok(name), OpTok("("), NumberTok(v), EofTok]) == Error(VALUE)
  {
    var ts := [FuncTok(name), OpTok("("), NumberTok(v), EofTok];
    var m: Cache := map[];
    LiteralSum(e, ts, 2, m, v);
    SumIsExpression(e, ts, 2, m, v, 3, m);
    assert ExprWithMeta(e, ts, 2, m) == Done(Parsed(v, None), 3, m);
    assert MoreArgs(e, ts, 3, m, [v], [None]) == Done(([v], [None]), 3, m);
    assert ArgList(e, ts, 2, m) == Done(([v], [None]), 3, m);
    assert FuncCall(e, ts, 0, m, e.resolveFunction(name)) == Thrown;
    assert Primary(e, ts, 0, m) == Thrown;
    ThrownPrimary(e, ts, 0, m);
  }

  /** A name that is neither registered nor built in gives `#NAME?`. */
  lemma UnknownFunction(e: Env, name: string, v: Value)
    requires e.resolveFunction(name) !in e.customs && e.builtins(e.resolveFunction(name)).None?
    ensures Evaluate(e, [FuncTok(name), OpTok("("), NumberTok(v), OpTok(")"), EofTok]) == Error(NAME)
  {
    var ts := [FuncTok(name), OpTok("("), NumberTok(v), OpTok(")"), EofTok];
    var m: Cache := map[];
    LiteralSum(e, ts, 2, m, v);
    SumIsExpression(e, ts, 2, m, v, 3, m);
    assert ExprWithMeta(e, ts, 2, m) == Done(Parsed(v, None), 3, m);
    assert MoreArgs(e, ts, 3, m, [v], [None]) == Done(([v], [None]), 3, m);
    assert ArgList(e, ts, 2, m) == Done(([v], [None]), 3, m);
    assert FuncCall(e, ts, 0, m, e.resolveFunction(name)) == Done(Parsed(Error(NAME), None), 4, m);
    assert Primary(e, ts, 0, m) == Done(Parsed(Error(NAME), None), 4, m);
    PrimaryIsExpression(e, ts, 0, m, Parsed(Error(NAME), None), 4, m);
  }

  /** ... but only once its arguments have been read: an argument that throws makes the whole
    * formula `#VALUE!` even for an unknown name. */
  lemma ArgumentsBeforeName(e: Env, name: string, id: string)
    ensures Evaluate(e, [FuncTok(name), OpTok("("), IdentTok(id), OpTok(")"), EofTok]) == Error(VALUE)
  {
    var ts := [FuncTok(name), OpTok("("), IdentTok(id), OpTok(")"), EofTok];
    var m: Cache := map[];
    assert Primary(e, ts, 2, m) == Thrown;
    ThrownPrimary(e, ts, 2, m);
    assert ExprWithMeta(e, ts, 2, m) == Thrown;
    assert ArgList(e, ts, 2, m) == Thrown;
    assert FuncCall(e, ts, 0, m, e.resolveFunction(name)) == Thrown;
    assert Primary(e, ts, 0, m) == Thrown;
    ThrownPrimary(e, ts, 0, m);
  }

  /** How a call is dispatched: `#NAME?` when the name denotes no function, otherwise the
    * registered function before the built-in one, called with the arguments in the form it
    * expects. */
  lemma InvokeDispatch(e: Env, name: string, args: seq<Value>, meta: seq<Option<Shape>>)
    ensures name !in e.customs && e.builtins(name).None? ==> Invoke(e, name, args, meta) == Some(Error(NAME))
    ensures name in e.customs && IsCriteriaName(name) ==> Invoke(e, name, args, meta) == e.customs[name](args, [])
    ensures name in e.customs && IsLookupName(name) ==> Invoke(e, name, args, meta) == e.customs[name](args, meta)
    ensures name in e.customs && !IsCriteriaName(name) && !IsLookupName(name) ==>
      Invoke(e, name, args, meta) == e.customs[name](Flatten(args), [])
    ensures name !in e.customs && e.builtins(name).Some? && IsCriteriaName(name) ==>
      Invoke(e, name, args, meta) == e.builtins(name).value(args, [])
    ensures name !in e.customs && e.builtins(name).Some? && IsLookupName(name) ==>
      Invoke(e, name, args, meta) == e.builtins(name).value(args, meta)
    ensures name !in e.customs && e.builtins(name).Some? && !IsCriteriaName(name) && !IsLookupName(name) ==>
      Invoke(e, name, args, meta) == e.builtins(name).value(Flatten(args), [])
  {
  }

  // ---- argument shapes ----

  /** Flattening splices ranges and keeps everything else, in order. */
  lemma {:induction false} FlattenAppend(a: seq<Value>, b: seq<Value>)
    ensures Flatten(a + b) == Flatten(a) + Flatten(b)
    decreases |b|
  {
    if b == [] {
      assert a + b == a;
    } else {
      var n := |b| - 1;
      var piece := if b[n].Arr? then b[n].items else [b[n]];
      assert (a + b)[..|a + b| - 1] == a + b[..n] && (a + b)[|a + b| - 1] == b[n];
      assert Flatten(a + b) == Flatten(a + b[..n]) + piece;
      FlattenAppend(a, b[..n]);
      assert Flatten(b) == Flatten(b[..n]) + piece;
    }
  }

  /** A function that is neither a criteria nor a lookup function sees the flattened
    * arguments: `F(range, x)` and `F(cell1, ..., cellN, x)` are the same call. */
  lemma OrdinaryCallFlattens(e: Env, name: string, items: seq<Value>, rest: seq<Value>, meta: seq<Option<Shape>>)
    requires !IsCriteriaName(name) && !IsLookupName(name)
    requires forall i :: 0 <= i < |items| ==> !items[i].Arr?
    ensures Invoke(e, name, [Arr(items)] + rest, meta) == Invoke(e, name, items + rest, [])
  {
    FlattenAppend([Arr(items)], rest);
    FlattenAppend(items, rest);
    FlattenPlain(items);
    assert Flatten([Arr(items)]) == items by {
      assert [Arr(items)][..0] == [];
    }
  }

  /** The lookup functions see each argument unflattened, with the shape of a range argument. */
  lemma RangeArgumentShape(e: Env, ts: seq<Token>, pos: nat, c: Cache, vals: seq<Value>, c2: Cache)
    requires pos < |ts| && ts[pos].RangeTok?
    requires ResolveBatch(e.ctx, c, {}, QualifiedAll(ts[pos].sheet, ExpandRangeSpec(ts[pos].ref))) == Some((vals, c2))
    ensures ExprWithMeta(e, ts, pos, c) == Done(Parsed(Arr(vals), Some(GetRangeDimensions(ts[pos].ref))), pos + 1, c2)
  {
  }

  /** A range on a named sheet asks the resolver for `Sheet!A1`-style refs, in row-major
    * order. */
  lemma SheetRefs(sheet: string, refs: seq<string>, i: nat)
    requires sheet != "" && i < |refs|
    ensures QualifiedAll(Some(sheet), refs)[i] == sheet + "!" + refs[i]
  {
  }

  /** A single cell evaluates to what the resolver gives (`''` for null, `#REF!` when it
    * throws), and to 0 without a resolver. */
  lemma CellValue(e: Env, ref: string)
    ensures e.ctx.resolveCell.None? ==> Evaluate(e, [CellTok(ref, None), EofTok]) == Num(0.0)
    ensures e.ctx.resolveCell.Some? && e.ctx.resolveCell.value(ref).None? ==>
      Evaluate(e, [CellTok(ref, None), EofTok]) == Error(REF)
    ensures e.ctx.resolveCell.Some? && e.ctx.resolveCell.value(ref).Some? ==>
      Evaluate(e, [CellTok(ref, None), EofTok]) == OrDefault(e.ctx.resolveCell.value(ref).value, Str(""))
  {
    var ts := [CellTok(ref, None), EofTok];
    var m: Cache := map[];
    var v := ResolveOne(e.ctx, m, {}, ref);
    assert Primary(e, ts, 0, m) == Done(Parsed(v.0, None), 1, v.1);
    PrimaryIsExpression(e, ts, 0, m, Parsed(v.0, None), 1, v.1);
  }

  // ---- comparisons ----

  /** Numbers compare numerically. */
  lemma NumericComparison(a: real, b: real)
    ensures Compare("<", Num(a), Num(b)) == Bool(a < b) && Compare(">=", Num(a), Num(b)) == Bool(a >= b)
    ensures Compare("=", Num(a), Num(b)) == Bool(a == b) && Compare("<>", Num(a), Num(b)) == Bool(a != b)
  {
  }

  /** Text that is not a number compares as text: `=` is exact, not case-folded. */
  lemma TextEquality(a: string, b: string)
    requires ToNumber(Str(a)).None?
    ensures Compare("=", Str(a), Str(b)) == Bool(a == b)
    ensures Compare("<>", Str(a), Str(b)) == Bool(a != b)
  {
  }

  /** ... and the ordered operators read only the sign of the string comparison the way
    * `parseComparison` writes it: `<=` answers as `<` does and `>=` as `>` does. */
  lemma TextOrder(a: string, b: string)
    requires ToNumber(Str(a)).None?
    ensures Compare("<", Str(a), Str(b)) == Bool(StrLess(a, b))
    ensures Compare("<=", Str(a), Str(b)) == Bool(StrLess(a, b))
    ensures Compare(">", Str(a), Str(b)) == Bool(!StrLess(a, b))
    ensures Compare(">=", Str(a), Str(b)) == Bool(!StrLess(a, b))
  {
    OrderedTextComparison("<", a, b);
    OrderedTextComparison("<=", a, b);
    OrderedTextComparison(">", a, b);
    OrderedTextComparison(">=", a, b);
  }

  lemma OrderedTextComparison(op: string, a: string, b: string)
    requires op == "<" || op == ">" || op == "<=" || op == ">="
    requires ToNumber(Str(a)).None?
    ensures Compare(op, Str(a), Str(b)) ==
      Bool(if StrLess(a, b) then op == "<" || op == "<=" else op == ">" || op == ">=")
  {
    var c := StrCompare(a, b);
    assert Compare(op, Str(a), Str(b)) == StringOrderAsWritten(op, c);
    NegativeIsLess(a, b);
  }

  lemma NegativeIsLess(a: string, b: string)
    ensures StrCompare(a, b) < 0 <==> StrLess(a, b)
  {
    StrCompareIsThreeWay(a, b);
  }

  /** Finding: as written, equal text is `>` and not `<=`. */
  lemma EqualTextAsWritten(s: string)
    requires ToNumber(Str(s)).None?
    ensures Compare(">", Str(s), Str(s)) == Bool(true)
    ensures Compare("<=", Str(s), Str(s)) == Bool(false)
  {
    TextOrder(s, s);
    StrLessIrreflexive(s);
  }

  lemma {:induction false} StrLessIrreflexive(s: string)
    ensures !StrLess(s, s)
    decreases |s|
  {
    if s != [] {
      StrLessIrreflexive(s[1..]);
    }
  }

  /** The intended reading of the string order: `<` and `>` are strict, `<=` and `>=` admit
    * equal strings. */
  lemma IntendedTextOrder(a: string, b: string)
    ensures StringOrder("<", StrCompare(a, b)) == Bool(StrLess(a, b))
    ensures StringOrder(">", StrCompare(a, b)) == Bool(StrLess(b, a))
    ensures StringOrder("<=", StrCompare(a, b)) == Bool(StrLess(a, b) || a == b)
    ensures StringOrder(">=", StrCompare(a, b)) == Bool(StrLess(b, a) || a == b)
  {
    StrCompareIsThreeWay(a, b);
  }
}
