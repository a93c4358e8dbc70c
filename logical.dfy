/** IF, AND, OR, NOT, TRUE, FALSE, IFERROR and the IS* predicates. */
module Logical {
  import opened Values
  import opened Errors

  /** The condition test of IF, AND, OR and NOT: JavaScript truthiness, except that the
    * string "FALSE" is false too. */
  predicate Truthy(v: Value)
  {
    JsTruthy(v) && v != Str("FALSE")
  }

  /** Example values of the rule (not a general property): the falsy values and a few
    * truthy ones, among them the lower-case text "false". */
  lemma TruthyExamples()
    ensures !Truthy(Num(0.0)) && !Truthy(Str("")) && !Truthy(Bool(false)) && !Truthy(Str("FALSE"))
    ensures !Truthy(NaN) && !Truthy(Undef)
    ensures Truthy(Num(-2.0)) && Truthy(Str("false")) && Truthy(Str("0")) && Truthy(Bool(true))
  {
  }

  /** IF(cond, [then], [else]): a missing branch gives `true` or `false`. */
  function If(args: seq<Value>): (r: Value)
    ensures Truthy(Arg(args, 0)) && |args| > 1 && !args[1].Undef? ==> r == args[1]
    ensures !Truthy(Arg(args, 0)) && |args| > 2 && !args[2].Undef? ==> r == args[2]
    ensures Truthy(Arg(args, 0)) && Arg(args, 1).Undef? ==> r == Bool(true)
    ensures !Truthy(Arg(args, 0)) && Arg(args, 2).Undef? ==> r == Bool(false)
  {
    if Truthy(Arg(args, 0)) then OrDefault(Arg(args, 1), Bool(true))
    else OrDefault(Arg(args, 2), Bool(false))
  }

  /** AND: stops at the first false argument; true with no arguments. */
  function And(args: seq<Value>): (r: Value)
    ensures r == Bool(forall i :: 0 <= i < |args| ==> Truthy(args[i]))
  {
    if args == [] then Bool(true)
    else if !Truthy(args[0]) then Bool(false)
    else
      var rest := And(args[1..]);
      assert forall i :: 1 <= i < |args| ==> args[i] == args[1..][i - 1];
      rest
  }

  /** OR: stops at the first true argument; false with no arguments. */
  function Or(args: seq<Value>): (r: Value)
    ensures r == Bool(exists i :: 0 <= i < |args| && Truthy(args[i]))
  {
    if args == [] then Bool(false)
    else if Truthy(args[0]) then Bool(true)
    else
      var rest := Or(args[1..]);
      assert forall i :: 1 <= i < |args| ==> args[i] == args[1..][i - 1];
      rest
  }

  function Not(args: seq<Value>): (r: Value)
    ensures r.Bool? && (r.b <==> !Truthy(Arg(args, 0)))
  {
    Bool(!Truthy(Arg(args, 0)))
  }

  /** IFERROR(value, [fallback]): an error is replaced by the fallback, or `''`. */
  function IfError(args: seq<Value>): (r: Value)
    ensures !IsError(Arg(args, 0)) ==> r == Arg(args, 0)
    ensures IsError(Arg(args, 0)) ==> r == OrDefault(Arg(args, 1), Str(""))
  {
    if IsError(Arg(args, 0)) then OrDefault(Arg(args, 1), Str("")) else Arg(args, 0)
  }

  function IsErrorFn(args: seq<Value>): (r: Value)
    ensures r == Bool(IsError(Arg(args, 0)))
  {
    Bool(IsError(Arg(args, 0)))
  }

  function IsBlankFn(args: seq<Value>): (r: Value)
    ensures r == Bool(Arg(args, 0) == Str("") || Arg(args, 0).Undef?)
  {
    Bool(IsBlank(Arg(args, 0)))
  }

  /** ISNUMBER: a number that is not NaN. */
  function IsNumberFn(args: seq<Value>): (r: Value)
    ensures r == Bool(Arg(args, 0).Num?)
  {
    Bool(Arg(args, 0).Num?)
  }

  /** ISTEXT: any string, including an error string. */
  function IsTextFn(args: seq<Value>): (r: Value)
    ensures r == Bool(Arg(args, 0).Str?)
  {
    Bool(Arg(args, 0).Str?)
  }

  // ---- properties ----

  /** Negating the condition swaps the branches. */
  lemma IfNotSwaps(c: Value, a: Value, b: Value)
    requires !a.Undef? && !b.Undef?
    ensures If([Not([c]), a, b]) == If([c, b, a])
  {
  }

  /** NOT(AND(...)) is OR of the negations (De Morgan). */
  lemma {:induction false} NotAndIsOrOfNots(args: seq<Value>)
    ensures Not([And(args)]) == Or(seq(|args|, i requires 0 <= i < |args| => Not([args[i]])))
  {
    var nots := seq(|args|, i requires 0 <= i < |args| => Not([args[i]]));
    if forall i :: 0 <= i < |args| ==> Truthy(args[i]) {
      assert forall i :: 0 <= i < |args| ==> !Truthy(nots[i]);
    } else {
      var k :| 0 <= k < |args| && !Truthy(args[k]);
      assert Truthy(nots[k]);
    }
  }

  /** IFERROR never lets an error through when its fallback is not one. */
  lemma IfErrorRecovers(args: seq<Value>)
    requires |args| >= 2 && !args[1].Undef? && !IsError(args[1])
    ensures !IsError(IfError(args))
  {
  }

  /** An error value is text, so ISTEXT holds wherever ISERROR does. */
  /** The type tests: a blank is neither a number nor an error, nothing is both a number and
    * text, an error is never blank, and only the empty text is both blank and text. */
  lemma TypeTests(args: seq<Value>)
    ensures IsBlankFn(args) == Bool(true) ==> IsNumberFn(args) == Bool(false) && IsErrorFn(args) == Bool(false)
    ensures !(IsNumberFn(args) == Bool(true) && IsTextFn(args) == Bool(true))
    ensures IsErrorFn(args) == Bool(true) ==> IsBlankFn(args) == Bool(false)
    ensures IsBlankFn(args) == Bool(true) && IsTextFn(args) == Bool(true) <==> Arg(args, 0) == Str("")
  {
  }

  lemma ErrorsAreText(v: Value)
    requires IsError(v)
    ensures IsTextFn([v]) == Bool(true)
  {
  }
}
