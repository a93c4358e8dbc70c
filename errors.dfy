/** The engine's error sentinels. An error is any string value that starts with `#`. */
module Errors {
  import opened Text
  import opened Values

  /** The keys of the `ERRORS` table. */
  datatype ErrorKind = VALUE | REF | NAME | DIV0 | NULL | NUM | NA | CYCLE

  /** The literal of each sentinel. */
  function ErrorText(e: ErrorKind): string
  {
    match e
    case VALUE => "#VALUE!"
    case REF => "#REF!"
    case NAME => "#NAME?"
    case DIV0 => "#DIV/0!"
    case NULL => "#NULL!"
    case NUM => "#NUM!"
    case NA => "#N/A"
    case CYCLE => "#CYCLE!"
  }

  function Error(e: ErrorKind): Value { Str(ErrorText(e)) }

  /** `isError(v)`: a string whose first character is `#`. */
  predicate IsError(v: Value)
  {
    v.Str? && StartsWith(v.s, "#")
  }

  /** Every sentinel is recognised as an error. */
  lemma SentinelsAreErrors(e: ErrorKind)
    ensures IsError(Error(e))
  {
  }

  /** The eight sentinels are pairwise distinct. */
  lemma SentinelsDistinct(e1: ErrorKind, e2: ErrorKind)
    requires e1 != e2
    ensures ErrorText(e1) != ErrorText(e2)
  {
    assert |ErrorText(e1)| >= 4 && |ErrorText(e2)| >= 4;
    assert ErrorText(e1)[1..4] != ErrorText(e2)[1..4] || ErrorText(e1) != ErrorText(e2);
  }

  /** Numbers, NaN, booleans, `undefined`, arrays and the empty string are never errors. */
  lemma NonStringsAreNotErrors(v: Value)
    requires !v.Str? || v.s == []
    ensures !IsError(v)
  {
  }
}
