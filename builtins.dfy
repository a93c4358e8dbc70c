/** The table of built-in functions and the calls into it. */
module Builtins {
  import opened Wrappers
  import opened Values
  import opened RangeUtils
  import Errors
  import Numbers
  import Aggregates
  import ConditionalAggregates
  import Logical
  import DateFunctions
  import TextFunctions
  import Lookup

  /** One entry of the built-in table. */
  datatype Builtin =
    | SUM | AVERAGE | MIN | MAX | COUNT
    | COUNTIFS | SUMIF | SUMIFS | AVERAGEIF | AVERAGEIFS
    | ABS | ROUND | SQRT | LN | POWER | MOD
    | IF | AND | OR | NOT | TRUE | FALSE | IFERROR | ISERROR | ISBLANK | ISNUMBER | ISTEXT
    | DATE | YEAR | MONTH | DAY | TODAY
    | CONCAT | CONCATENATE | LEFT | RIGHT | MID | LEN | LOWER | UPPER | TRIM | TEXT | VALUE
    | SUBSTITUTE | FIND | MEDIAN | STDEV
    | MATCH | INDEX | VLOOKUP | HLOOKUP

  /** The name each entry is registered under. */
  function Name(b: Builtin): string
  {
    match b
    case SUM => "SUM" case AVERAGE => "AVERAGE" case MIN => "MIN" case MAX => "MAX"
    case COUNT => "COUNT" case COUNTIFS => "COUNTIFS" case SUMIF => "SUMIF"
    case SUMIFS => "SUMIFS" case AVERAGEIF => "AVERAGEIF" case AVERAGEIFS => "AVERAGEIFS"
    case ABS => "ABS" case ROUND => "ROUND" case SQRT => "SQRT" case LN => "LN"
    case POWER => "POWER" case MOD => "MOD" case IF => "IF" case AND => "AND" case OR => "OR"
    case NOT => "NOT" case TRUE => "TRUE" case FALSE => "FALSE" case IFERROR => "IFERROR"
    case ISERROR => "ISERROR" case ISBLANK => "ISBLANK" case ISNUMBER => "ISNUMBER"
    case ISTEXT => "ISTEXT" case DATE => "DATE" case YEAR => "YEAR" case MONTH => "MONTH"
    case DAY => "DAY" case TODAY => "TODAY" case CONCAT => "CONCAT"
    case CONCATENATE => "CONCATENATE" case LEFT => "LEFT" case RIGHT => "RIGHT" case MID => "MID"
    case LEN => "LEN" case LOWER => "LOWER" case UPPER => "UPPER" case TRIM => "TRIM"
    case TEXT => "TEXT" case VALUE => "VALUE" case SUBSTITUTE => "SUBSTITUTE" case FIND => "FIND"
    case MEDIAN => "MEDIAN" case STDEV => "STDEV" case MATCH => "MATCH" case INDEX => "INDEX"
    case VLOOKUP => "VLOOKUP" case HLOOKUP => "HLOOKUP"
  }

  /** Every entry, in the order of the table. */
  const ENTRIES: seq<Builtin> := [
    SUM, AVERAGE, MIN, MAX, COUNT, COUNTIFS, SUMIF, SUMIFS, AVERAGEIF, AVERAGEIFS,
    ABS, ROUND, SQRT, LN, POWER, MOD,
    IF, AND, OR, NOT, TRUE, FALSE, IFERROR, ISERROR, ISBLANK, ISNUMBER, ISTEXT,
    DATE, YEAR, MONTH, DAY, TODAY,
    CONCAT, CONCATENATE, LEFT, RIGHT, MID, LEN, LOWER, UPPER, TRIM, TEXT, VALUE,
    SUBSTITUTE, FIND, MEDIAN, STDEV, MATCH, INDEX, VLOOKUP, HLOOKUP]

  function FindEntry(name: string, i: nat): (b: Option<Builtin>)
    requires i <= |ENTRIES|
    ensures b.Some? ==> Name(b.value) == name
    decreases |ENTRIES| - i
  {
    if i == |ENTRIES| then None
    else if Name(ENTRIES[i]) == name then Some(ENTRIES[i])
    else FindEntry(name, i + 1)
  }

  /** `builtins[name]`: the entry registered under an (already upper-cased) name. */
  function Named(name: string): (b: Option<Builtin>)
    ensures b.Some? ==> Name(b.value) == name
  {
    FindEntry(name, 0)
  }

  /** The floating-point and clock entries, whose results the host computes: ROUND, SQRT,
    * LN, POWER, MOD, STDEV and TODAY. */
  predicate IsHostComputed(b: Builtin)
  {
    b == ROUND || b == SQRT || b == LN || b == POWER || b == MOD || b == STDEV || b == TODAY
  }

  /** What the host returns for a host-computed entry, given its name and arguments. */
  type HostMath = (string, seq<Value>) -> Value

  /** ABS: `Math.abs(Number(x) || 0)`. */
  function Abs(args: seq<Value>): (r: Value)
    ensures r.Num? && r.n >= 0.0
    ensures ToNumber(Arg(args, 0)).None? ==> r == Num(0.0)
    ensures ToNumber(Arg(args, 0)).Some? ==>
      (r.n == ToNumber(Arg(args, 0)).value || r.n == -ToNumber(Arg(args, 0)).value)
  {
    match ToNumber(Arg(args, 0))
    case None => Num(0.0)
    case Some(n) => Num(if n < 0.0 then -n else n)
  }

  /** MEDIAN as a value. */
  function MedianValue(args: seq<Value>): Value
  {
    var nums := Aggregates.Numerics(args);
    if nums == [] then Errors.Error(Errors.NUM) else Num(Aggregates.MedianOf(nums))
  }

  /** The entries whose code runs a loop (an accumulator, a search or a sort). */
  predicate HasLoop(b: Builtin)
  {
    b == SUM || b == AVERAGE || b == MIN || b == MAX || b == COUNT || b == COUNTIFS ||
    b == SUMIF || b == SUMIFS || b == AVERAGEIF || b == AVERAGEIFS || b == SUBSTITUTE ||
    b == MEDIAN || b == MATCH || b == VLOOKUP || b == HLOOKUP
  }

  /** The result of a call, given the arguments in the form the evaluator passes them:
    * flattened for most entries, unflattened for the criteria functions, and unflattened with
    * their shapes for the lookups. */
  function Apply(b: Builtin, args: seq<Value>, meta: seq<Option<Shape>>, host: HostMath): Value
  {
    if IsHostComputed(b) then host(Name(b), args)
    else if HasLoop(b) then ApplyLooping(b, args, meta)
    else ApplyDirect(b, args, meta)
  }

  function ApplyLooping(b: Builtin, args: seq<Value>, meta: seq<Option<Shape>>): Value
    requires HasLoop(b)
  {
    match b
    case SUM => Num(Aggregates.SumOf(Aggregates.Numerics(args)))
    case AVERAGE => Aggregates.AverageOf(Aggregates.Numerics(args))
    case MIN => Num(Aggregates.MinOf(args))
    case MAX => Num(Aggregates.MaxOf(args))
    case COUNT => Num(|Aggregates.Numerics(args)| as real)
    case COUNTIFS => ConditionalAggregates.CountIfsSpec(args)
    case SUMIF => ConditionalAggregates.SumIfSpec(args)
    case SUMIFS => ConditionalAggregates.SumIfsSpec(args)
    case AVERAGEIF => ConditionalAggregates.AverageIfSpec(args)
    case AVERAGEIFS => ConditionalAggregates.AverageIfsSpec(args)
    case SUBSTITUTE => Str(TextFunctions.SubstituteSpec(args))
    case MEDIAN => MedianValue(args)
    case MATCH => Lookup.MatchSpec(args, meta)
    case VLOOKUP => Lookup.VlookupSpec(args, meta)
    case HLOOKUP => Lookup.HlookupSpec(args, meta)
  }

  function ApplyDirect(b: Builtin, args: seq<Value>, meta: seq<Option<Shape>>): Value
  {
    match b
    case ABS => Abs(args)
    case IF => Logical.If(args)
    case AND => Logical.And(args)
    case OR => Logical.Or(args)
    case NOT => Logical.Not(args)
    case TRUE => Bool(true)
    case FALSE => Bool(false)
    case IFERROR => Logical.IfError(args)
    case ISERROR => Logical.IsErrorFn(args)
    case ISBLANK => Logical.IsBlankFn(args)
    case ISNUMBER => Logical.IsNumberFn(args)
    case ISTEXT => Logical.IsTextFn(args)
    case DATE => DateFunctions.Date(args)
    case YEAR => DateFunctions.Year(args)
    case MONTH => DateFunctions.Month(args)
    case DAY => DateFunctions.Day(args)
    case CONCAT => TextFunctions.Concat(args)
    case CONCATENATE => TextFunctions.Concat(args)
    case LEFT => TextFunctions.Left(args)
    case RIGHT => TextFunctions.Right(args)
    case MID => TextFunctions.Mid(args)
    case LEN => TextFunctions.Len(args)
    case LOWER => TextFunctions.LowerFn(args)
    case UPPER => TextFunctions.UpperFn(args)
    case TRIM => TextFunctions.TrimFn(args)
    case TEXT => TextFunctions.TextFn(args)
    case VALUE => TextFunctions.ValueFn(args)
    case FIND => TextFunctions.Find(args)
    case INDEX => Lookup.Index(args, meta)
    case _ => Undef
  }

  /** Calls one entry, running the loops of the entries that have them. */
  method Call(b: Builtin, args: seq<Value>, meta: seq<Option<Shape>>, host: HostMath) returns (r: Value)
    ensures r == Apply(b, args, meta, host)
  {
    if IsHostComputed(b) {
      r := host(Name(b), args);
    } else if HasLoop(b) {
      r := CallLooping(b, args, meta);
    } else {
      r := ApplyDirect(b, args, meta);
    }
  }

  method CallLooping(b: Builtin, args: seq<Value>, meta: seq<Option<Shape>>) returns (r: Value)
    requires HasLoop(b)
    ensures r == ApplyLooping(b, args, meta)
  {
    match b {
      case SUM =>
        var total := Aggregates.Sum(args);
        r := Num(total);
      case AVERAGE =>
        r := Aggregates.Average(args);
      case MIN =>
        var m := Aggregates.Min(args);
        r := Num(m);
      case MAX =>
        var m := Aggregates.Max(args);
        r := Num(m);
      case COUNT =>
        var c := Aggregates.Count(args);
        r := Num(c as real);
      case COUNTIFS =>
        r := ConditionalAggregates.CountIfs(args);
      case SUMIF =>
        r := ConditionalAggregates.SumIf(args);
      case SUMIFS =>
        r := ConditionalAggregates.SumIfs(args);
      case AVERAGEIF =>
        r := ConditionalAggregates.AverageIf(args);
      case AVERAGEIFS =>
        r := ConditionalAggregates.AverageIfs(args);
      case SUBSTITUTE =>
        r := TextFunctions.Substitute(args);
      case MEDIAN =>
        r := Aggregates.Median(args);
      case MATCH =>
        r := Lookup.Match(args, meta);
      case VLOOKUP =>
        r := Lookup.Vlookup(args, meta);
      case HLOOKUP =>
        r := Lookup.Hlookup(args, meta);
    }
  }

  // ---- properties ----

  /** The table holds only upper-case names: a name with a lower-case letter resolves to no
    * entry. */
  lemma NamesAreUpperCase(name: string)
    requires exists i :: 0 <= i < |name| && 'a' <= name[i] <= 'z'
    ensures Named(name).None?
  {
    if Named(name).Some? {
      LowerIsNoName(name, Named(name).value);
    }
  }

  /** A string holding a lower-case letter is the name of no entry. */
  lemma LowerIsNoName(name: string, b: Builtin)
    requires exists i :: 0 <= i < |name| && 'a' <= name[i] <= 'z'
    ensures Name(b) != name
  {
    NamesHaveNoLower(b);
    var i :| 0 <= i < |name| && 'a' <= name[i] <= 'z';
    assert name[i] in name;
  }

  /** No lower-case letter occurs in `s`. */
  predicate NoLowerCase(s: string)
  {
    forall c :: c in s ==> !('a' <= c <= 'z')
  }

  lemma NamesHaveNoLower(b: Builtin)
    ensures NoLowerCase(Name(b))
  {
    if b in {SUM, AVERAGE, MIN, MAX, COUNT, COUNTIFS, SUMIF, SUMIFS, AVERAGEIF, AVERAGEIFS, MEDIAN, STDEV} {
      AggregateNames(b);
    } else if b in {ABS, ROUND, SQRT, LN, POWER, MOD} {
      MathNames(b);
    } else if b in {IF, AND, OR, NOT, TRUE, FALSE, IFERROR, ISERROR, ISBLANK, ISNUMBER, ISTEXT} {
      LogicNames(b);
    } else if b in {DATE, YEAR, MONTH, DAY, TODAY} {
      DateNames(b);
    } else if b in {CONCAT, CONCATENATE, LEFT, RIGHT, MID, LEN, LOWER, UPPER, TRIM, TEXT, VALUE, SUBSTITUTE, FIND} {
      TextNames(b);
    } else {
      LookupNames(b);
    }
  }

  /** No name among the aggregates holds a lower-case letter. */
  lemma AggregateNames(b: Builtin)
    requires b in {SUM, AVERAGE, MIN, MAX, COUNT, COUNTIFS, SUMIF, SUMIFS, AVERAGEIF, AVERAGEIFS, MEDIAN, STDEV}
    ensures NoLowerCase(Name(b))
  {
  }

  /** No name among the arithmetic entries holds a lower-case letter. */
  lemma MathNames(b: Builtin)
    requires b in {ABS, ROUND, SQRT, LN, POWER, MOD}
    ensures NoLowerCase(Name(b))
  {
  }

  /** No name among the logical and information entries holds a lower-case letter. */
  lemma LogicNames(b: Builtin)
    requires b in {IF, AND, OR, NOT, TRUE, FALSE, IFERROR, ISERROR, ISBLANK, ISNUMBER, ISTEXT}
    ensures NoLowerCase(Name(b))
  {
  }

  /** No name among the date entries holds a lower-case letter. */
  lemma DateNames(b: Builtin)
    requires b in {DATE, YEAR, MONTH, DAY, TODAY}
    ensures NoLowerCase(Name(b))
  {
  }

  /** No name among the text entries holds a lower-case letter. */
  lemma TextNames(b: Builtin)
    requires b in {CONCAT, CONCATENATE, LEFT, RIGHT, MID, LEN, LOWER, UPPER, TRIM, TEXT, VALUE, SUBSTITUTE, FIND}
    ensures NoLowerCase(Name(b))
  {
  }

  /** No name among the lookup entries holds a lower-case letter. */
  lemma LookupNames(b: Builtin)
    requires b in {MATCH, INDEX, VLOOKUP, HLOOKUP}
    ensures NoLowerCase(Name(b))
  {
  }
}
