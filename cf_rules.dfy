/** The conditional-format pieces of the renderer: how a rule's priority attribute is read, the
  * order in which the rules on one cell are applied, and how the value a rule's formula
  * evaluates to is read as true or false. */
module CfRules {
  import opened Wrappers
  import opened Text
  import opened Numbers
  import opened Values
  import opened Workbook

  /** `Number.MAX_SAFE_INTEGER`, the priority of a rule without a readable one. */
  const MAX_SAFE_INTEGER: int := 9007199254740991

  /** The priority of a rule: `parseInt(priority, 10)`, or `MAX_SAFE_INTEGER` when the attribute
    * is missing or does not start with a number. */
  function ParsePriority(raw: Option<string>): (p: int)
    ensures raw.None? ==> p == MAX_SAFE_INTEGER
    ensures raw.Some? && ParseIntPrefix(raw.value).None? ==> p == MAX_SAFE_INTEGER
    ensures raw.Some? && ParseIntPrefix(raw.value).Some? ==> p == ParseIntPrefix(raw.value).value
  {
    match raw
    case None => MAX_SAFE_INTEGER
    case Some(s) =>
      match ParseIntPrefix(s)
      case None => MAX_SAFE_INTEGER
      case Some(i) => i
  }

  /** A priority written as an integer is read back as that integer. */
  lemma PriorityOfIntText(i: int)
    ensures ParsePriority(Some(IntToStr(i))) == i
  {
    ParseIntPrefixOfIntToStr(i);
  }

  /** One entry of a cell's rule list: the rule's priority and document order, and the anchor
    * (the top-left cell of the range part that put the rule on the cell). */
  datatype CfEntry = CfEntry(priority: int, order: nat, anchor: Cell)

  /** The comparator of the sort is negative: lower priority first, then earlier rule. */
  predicate Before(x: CfEntry, y: CfEntry)
  {
    x.priority < y.priority || (x.priority == y.priority && x.order < y.order)
  }

  predicate NotAfter(x: CfEntry, y: CfEntry) { !Before(y, x) }

  /** Ascending by priority, then by document order. */
  predicate CfSorted(s: seq<CfEntry>)
  {
    forall k, l :: 0 <= k < l < |s| ==> NotAfter(s[k], s[l])
  }

  method SwapEntries(a: array<CfEntry>, i: nat, j: nat)
    requires i < a.Length && j < a.Length
    modifies a
    ensures a[i] == old(a[j]) && a[j] == old(a[i])
    ensures forall k :: 0 <= k < a.Length && k != i && k != j ==> a[k] == old(a[k])
    ensures multiset(a[..]) == multiset(old(a[..]))
  {
    a[i], a[j] := a[j], a[i];
  }

  /** Move `a[i]` left past every entry that comes after it. */
  method InsertEntry(a: array<CfEntry>, i: nat)
    requires i < a.Length && CfSorted(a[..i])
    modifies a
    ensures CfSorted(a[..i + 1]) && a[i + 1..] == old(a[i + 1..])
    ensures multiset(a[..]) == multiset(old(a[..]))
  {
    var j := i;
    while j > 0 && Before(a[j], a[j - 1])
      invariant 0 <= j <= i
      invariant forall k, l :: 0 <= k < l <= i && k != j && l != j ==> NotAfter(a[k], a[l])
      invariant forall l :: j < l <= i ==> Before(a[j], a[l])
      invariant a[i + 1..] == old(a[i + 1..])
      invariant multiset(a[..]) == multiset(old(a[..]))
    {
      SwapEntries(a, j - 1, j);
      j := j - 1;
    }
  }

  /** `entries.sort(…)` on one cell's list: the entries rearranged, ascending by priority and
    * then by document order. */
  method SortEntries(a: array<CfEntry>)
    modifies a
    ensures CfSorted(a[..]) && multiset(a[..]) == multiset(old(a[..]))
  {
    var i := 0;
    while i < a.Length
      invariant i <= a.Length
      invariant CfSorted(a[..i])
      invariant multiset(a[..]) == multiset(old(a[..]))
    {
      InsertEntry(a, i);
      i := i + 1;
    }
    assert a[..i] == a[..];
  }

  /** In a sorted list, a rule with a priority below `MAX_SAFE_INTEGER` comes before every rule
    * whose priority was missing or unreadable. */
  lemma MissingPrioritySortsLast(s: seq<CfEntry>, i: nat, j: nat, raw: Option<string>)
    requires CfSorted(s) && i < |s| && j < |s|
    requires raw.None? || ParseIntPrefix(raw.value).None?
    requires s[i].priority < MAX_SAFE_INTEGER && s[j].priority == ParsePriority(raw)
    ensures i < j
  {
  }

  /** In a sorted list, of two rules with the same priority the earlier one in the document
    * comes first. */
  lemma EqualPriorityKeepsDocumentOrder(s: seq<CfEntry>, i: nat, j: nat)
    requires CfSorted(s) && i < |s| && j < |s|
    requires s[i].priority == s[j].priority && s[i].order < s[j].order
    ensures i < j
  {
  }

  // ---- isTruthyCfValue ----

  /** `isTruthyCfValue`: `null` is false, a boolean is itself, a number is true unless zero (so
    * NaN is true); anything else is read from its trimmed text: blank is false, `TRUE` and
    * `FALSE` in any case are booleans, a numeric text is true unless zero, other text is
    * true. */
  function IsTruthyCfValue(v: Value): (r: bool)
    ensures v.Undef? ==> !r
    ensures v.Bool? ==> r == v.b
    ensures v.Num? ==> r == (v.n != 0.0)
    ensures v.NaN? ==> r
  {
    match v
    case Undef => false
    case Bool(b) => b
    case Num(n) => n != 0.0
    case NaN => true
    case _ => TextIsTruthy(Trim(ToStr(v)))
  }

  /** The reading of a trimmed text. */
  function TextIsTruthy(text: string): bool
  {
    if text == "" then false
    else
      var upper := Upper(text);
      if upper == "TRUE" then true
      else if upper == "FALSE" then false
      else
        match StrToNumber(text)
        case Some(n) => n != 0.0
        case None => true
  }

  /** Blank or white-space text is false. */
  lemma BlankTextIsFalse(s: string)
    requires AllSpace(s)
    ensures !IsTruthyCfValue(Str(s))
  {
    TrimEmptyIffAllSpace(s);
  }

  /** `TRUE` and `FALSE`, in any case and with surrounding white space, read as the booleans. */
  lemma BooleanWordsRead(s: string)
    requires Upper(Trim(s)) == "TRUE" || Upper(Trim(s)) == "FALSE"
    ensures IsTruthyCfValue(Str(s)) == (Upper(Trim(s)) == "TRUE")
  {
  }

  /** A boolean printed as text reads as that boolean. */
  lemma PrintedBooleanRead(b: bool)
    ensures IsTruthyCfValue(Str(ToStr(Bool(b)))) == b
  {
    var s := ToStr(Bool(b));
    TrimFixes(s);
    if b {
      assert Upper(s) == "TRUE" by { assert Upper(s)[0] == UpperChar('t'); }
    } else {
      assert Upper(s) == "FALSE" by { assert Upper(s)[0] == UpperChar('f'); }
    }
    BooleanWordsRead(s);
  }

  /** An integer printed as text reads as the integer would: true unless zero. */
  lemma IntegerTextRead(i: int)
    ensures IsTruthyCfValue(Str(IntToStr(i))) == IsTruthyCfValue(Num(i as real))
  {
    var s := IntToStr(i);
    var body := NatToStr(if i < 0 then -i else i);
    assert s[|s| - 1] == body[|body| - 1];
    assert IsDigit(s[|s| - 1]);
    assert s[0] == '-' || IsDigit(s[0]) by {
      if i >= 0 { assert s[0] == body[0]; }
    }
    TrimFixes(s);
    assert Upper(s)[0] == UpperChar(s[0]);
    NumToStrOfInt(i);
    IntRoundTrip(i);
  }

  /** On `null`, booleans and numbers other than NaN the reading is JavaScript truthiness; NaN,
    * which JavaScript reads as false, is true here. */
  lemma AgreesWithTruthiness(v: Value)
    requires v.Undef? || v.Bool? || v.Num?
    ensures IsTruthyCfValue(v) == JsTruthy(v)
    ensures IsTruthyCfValue(NaN) && !JsTruthy(NaN)
  {
  }
}
