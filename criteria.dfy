/** The criteria matchers behind COUNTIFS, SUMIF, SUMIFS, AVERAGEIF and AVERAGEIFS.
  * A criterion is either blank, a string (an operator prefix, a wildcard pattern or plain
  * text) or another value compared with loose equality. The wildcard pattern is matched
  * directly by a glob matcher instead of being compiled into a regular expression. */
module Criteria {
  import opened Wrappers
  import opened Text
  import opened Numbers
  import opened Values

  /** The comparison operator at the head of a criterion. */
  datatype CritOp = Lt | Gt | Le | Ge | Eq | Ne

  /** The regular expression `^(<>|[<>]=?|=)\s*(.*)$` with the `s` flag; the `<>` alternative
    * exists only when `allowNe` holds (COUNTIFS leaves it out). The right-hand side is the
    * rest of the text with its leading white space removed. */
  function SplitOperator(crit: string, allowNe: bool): (r: Option<(CritOp, string)>)
    ensures r.None? <==> (crit == [] || (crit[0] != '<' && crit[0] != '>' && crit[0] != '='))
    ensures r.Some? ==> r.value.1 == [] || !IsSpace(r.value.1[0])
    ensures r.Some? && !allowNe ==> r.value.0 != Ne
  {
    if crit == [] then None
    else if allowNe && |crit| >= 2 && crit[0] == '<' && crit[1] == '>' then Some((Ne, TrimStart(crit[2..])))
    else if crit[0] == '<' || crit[0] == '>' then
      if |crit| >= 2 && crit[1] == '=' then
        Some((if crit[0] == '<' then Le else Ge, TrimStart(crit[2..])))
      else Some((if crit[0] == '<' then Lt else Gt, TrimStart(crit[1..])))
    else if crit[0] == '=' then Some((Eq, TrimStart(crit[1..])))
    else None
  }

  /** The numeric branch of the operator switch. */
  predicate NumCompare(op: CritOp, a: real, b: real)
  {
    match op
    case Lt => a < b
    case Gt => a > b
    case Le => a <= b
    case Ge => a >= b
    case Eq => a == b
    case Ne => a != b
  }

  /** The string branch of the operator switch: ordering by code units, equality either
    * exact or after `toLowerCase`. */
  predicate StrCriterion(op: CritOp, vs: string, rhs: string, foldCase: bool)
  {
    match op
    case Lt => StrLess(vs, rhs)
    case Gt => StrLess(rhs, vs)
    case Le => !StrLess(rhs, vs)
    case Ge => !StrLess(vs, rhs)
    case Eq => if foldCase then Lower(vs) == Lower(rhs) else vs == rhs
    case Ne => if foldCase then Lower(vs) != Lower(rhs) else vs != rhs
  }

  /** One element of a wildcard pattern. */
  datatype Atom = AnyRun | AnyChar | Lit(c: char)

  /** `/[\*\?]/.test(crit)`. */
  predicate HasWildcard(s: string) { '*' in s || '?' in s }

  function AtomOf(c: char, question: Atom): Atom
  {
    if c == '*' then AnyRun else if c == '?' then question else Lit(c)
  }

  /** The pattern a criterion compiles to: `*` is any run and every other metacharacter is
    * escaped to a literal. `question` is what `?` becomes. */
  function Pattern(crit: string, question: Atom): (p: seq<Atom>)
    ensures |p| == |crit|
    ensures forall i :: 0 <= i < |crit| ==>
      p[i] == AtomOf(crit[i], question)
  {
    if crit == [] then [] else [AtomOf(crit[0], question)] + Pattern(crit[1..], question)
  }

  /** The pattern of the SUMIF family, where `?` stands for one character
    * (`.replace(/\?/g, '.')` applied to an unescaped `?`). */
  function WildcardPattern(crit: string): seq<Atom> { Pattern(crit, AnyChar) }

  /** The pattern COUNTIFS builds: its escape step also escapes `?`, so the later
    * substitution turns `\?` into `\.`, a literal full stop. */
  function CountifsPatternAsWritten(crit: string): seq<Atom> { Pattern(crit, Lit('.')) }

  /** Whole-string match of a pattern with the `i` flag and without the `s` flag: `.` and
    * `.*` do not cross line terminators, literals compare after ASCII case mapping. */
  predicate Matches(p: seq<Atom>, t: string)
    decreases |p| + |t|
  {
    if p == [] then t == []
    else match p[0]
      case AnyRun =>
        Matches(p[1..], t) || (t != [] && !IsLineTerminator(t[0]) && Matches(p, t[1..]))
      case AnyChar => t != [] && !IsLineTerminator(t[0]) && Matches(p[1..], t[1..])
      case Lit(c) => t != [] && UpperChar(t[0]) == UpperChar(c) && Matches(p[1..], t[1..])
  }

  /** Case-insensitive equality in the ASCII model. */
  predicate SameFolded(a: string, b: string)
  {
    |a| == |b| && forall i :: 0 <= i < |a| ==> UpperChar(a[i]) == UpperChar(b[i])
  }

  /** Comparing after `toLowerCase` is the same as comparing after `toUpperCase`. */
  lemma LowerEqIffFolded(a: string, b: string)
    ensures Lower(a) == Lower(b) <==> SameFolded(a, b)
  {
    if Lower(a) == Lower(b) {
      forall i | 0 <= i < |a| ensures UpperChar(a[i]) == UpperChar(b[i]) {
        assert LowerChar(a[i]) == LowerChar(b[i]);
      }
    }
    if SameFolded(a, b) {
      forall i | 0 <= i < |a| ensures Lower(a)[i] == Lower(b)[i] {
        assert UpperChar(a[i]) == UpperChar(b[i]);
      }
    }
  }

  function Literals(s: string): (p: seq<Atom>)
    ensures |p| == |s| && forall i :: 0 <= i < |s| ==> p[i] == Lit(s[i])
  {
    if s == [] then [] else [Lit(s[0])] + Literals(s[1..])
  }

  /** A pattern without wildcards matches exactly the strings equal to it up to case. */
  lemma {:induction false} LiteralMatch(s: string, t: string)
    ensures Matches(Literals(s), t) <==> SameFolded(s, t)
    decreases |s|
  {
    if s != [] && t != [] {
      LiteralMatch(s[1..], t[1..]);
      assert Literals(s)[1..] == Literals(s[1..]);
      if SameFolded(s[1..], t[1..]) && UpperChar(t[0]) == UpperChar(s[0]) {
        assert SameFolded(s, t) by {
          forall i | 0 <= i < |s| ensures UpperChar(s[i]) == UpperChar(t[i]) {
            if i > 0 { assert s[i] == s[1..][i - 1] && t[i] == t[1..][i - 1]; }
          }
        }
      }
      if SameFolded(s, t) {
        assert SameFolded(s[1..], t[1..]) by {
          forall i | 0 <= i < |s| - 1 ensures UpperChar(s[1..][i]) == UpperChar(t[1..][i]) {
            assert s[1..][i] == s[i + 1] && t[1..][i] == t[i + 1];
          }
        }
      }
    }
  }

  /** `Pattern` of a criterion without wildcards is its literal pattern. */
  lemma PatternOfPlain(s: string, question: Atom)
    requires !HasWildcard(s)
    ensures Pattern(s, question) == Literals(s)
  {
    assert forall i :: 0 <= i < |s| ==> s[i] != '*' && s[i] != '?';
  }

  predicate NoLineTerminator(t: string) { forall i :: 0 <= i < |t| ==> !IsLineTerminator(t[i]) }

  /** A lone `*` matches exactly the strings without a line terminator. */
  lemma {:induction false} StarMatches(t: string)
    ensures Matches([AnyRun], t) <==> NoLineTerminator(t)
    decreases |t|
  {
    assert [AnyRun][1..] == [];
    if t != [] {
      StarMatches(t[1..]);
      if NoLineTerminator(t[1..]) && !IsLineTerminator(t[0]) {
        assert NoLineTerminator(t) by {
          forall i | 0 <= i < |t| ensures !IsLineTerminator(t[i]) {
            if i > 0 { assert t[i] == t[1..][i - 1]; }
          }
        }
      }
      if NoLineTerminator(t) {
        assert !IsLineTerminator(t[0]);
        assert NoLineTerminator(t[1..]) by {
          forall i | 0 <= i < |t| - 1 ensures !IsLineTerminator(t[1..][i]) {
            assert t[1..][i] == t[i + 1];
          }
        }
      }
    }
  }

  /** A pattern of n `?` atoms matches exactly the n-character strings without a line
    * terminator. */
  lemma {:induction false} QuestionMarksMatch(n: nat, t: string)
    ensures Matches(seq(n, _ => AnyChar), t) <==> |t| == n && NoLineTerminator(t)
    decreases n
  {
    var p := seq(n, _ => AnyChar);
    if n > 0 && t != [] {
      assert p[1..] == seq(n - 1, _ => AnyChar);
      QuestionMarksMatch(n - 1, t[1..]);
      if NoLineTerminator(t[1..]) && !IsLineTerminator(t[0]) {
        assert NoLineTerminator(t) by {
          forall i | 0 <= i < |t| ensures !IsLineTerminator(t[i]) {
            if i > 0 { assert t[i] == t[1..][i - 1]; }
          }
        }
      }
      if NoLineTerminator(t) {
        assert !IsLineTerminator(t[0]);
        assert NoLineTerminator(t[1..]) by {
          forall i | 0 <= i < |t| - 1 ensures !IsLineTerminator(t[1..][i]) {
            assert t[1..][i] == t[i + 1];
          }
        }
      }
    } else if n > 0 {
      assert p[0] == AnyChar;
    }
  }


  /** The `match` closure of SUMIF, SUMIFS, AVERAGEIF and AVERAGEIFS. */
  predicate SumifMatch(val: Value, crit: Value)
  {
    if IsBlank(crit) then IsBlank(val)
    else if crit.Str? then
      var m := SplitOperator(crit.s, true);
      if m.Some? then SumifOperatorMatch(val, m.value.0, m.value.1)
      else if HasWildcard(crit.s) then Matches(WildcardPattern(crit.s), CellText(val))
      else Lower(CellText(val)) == Lower(crit.s)
    else LooseEq(val, crit)
  }

  /** The `match` closure of COUNTIFS, with the pattern it gives wildcards as a parameter. */
  predicate CountifsMatchWith(val: Value, crit: Value, question: Atom)
  {
    if IsBlank(crit) then IsBlank(val)
    else if crit.Str? then
      var m := SplitOperator(crit.s, false);
      if m.Some? then
        var op := m.value.0;
        var rhs := m.value.1;
        var rn := StrToNumber(rhs);
        var vn := ToNumber(val);
        if rn.Some? && vn.Some? then NumCompare(op, vn.value, rn.value)
        else StrCriterion(op, ToStr(val), rhs, false)
      else if HasWildcard(crit.s) then Matches(Pattern(crit.s, question), ToStr(val))
      else ToStr(val) == crit.s
    else LooseEq(val, crit)
  }

  /** COUNTIFS's matcher as written, where `?` matches only a literal full stop. */
  predicate CountifsMatchAsWritten(val: Value, crit: Value)
  {
    CountifsMatchWith(val, crit, Lit('.'))
  }

  /** COUNTIFS's matcher with `?` standing for one character, as its comment intends. */
  predicate CountifsMatch(val: Value, crit: Value)
  {
    CountifsMatchWith(val, crit, AnyChar)
  }

  // ---- properties of the SUMIF-family matcher ----

  /** An empty or absent criterion matches only blank values. */
  lemma BlankCriterion(val: Value, crit: Value)
    requires IsBlank(crit)
    ensures SumifMatch(val, crit) <==> IsBlank(val)
    ensures CountifsMatchAsWritten(val, crit) <==> IsBlank(val)
  {
  }

  function OpText(op: CritOp): (s: string)
    ensures 1 <= |s| <= 2
  {
    match op
    case Lt => "<" case Gt => ">" case Le => "<=" case Ge => ">=" case Eq => "=" case Ne => "<>"
  }

  /** A right-hand side that the operator prefix cannot swallow or trim. */
  predicate PlainRhs(rhs: string)
  {
    rhs != [] && !IsSpace(rhs[0]) && rhs[0] != '=' && rhs[0] != '>'
  }

  /** The operator prefix is read back as written. */
  lemma SplitOfOperator(op: CritOp, rhs: string)
    requires PlainRhs(rhs)
    ensures SplitOperator(OpText(op) + rhs, true) == Some((op, rhs))
  {
    var crit := OpText(op) + rhs;
    TrimStartFixes(rhs);
    assert crit[|OpText(op)|..] == rhs;
    assert crit[0] == OpText(op)[0];
    if |OpText(op)| == 2 {
      assert crit[1] == OpText(op)[1];
      assert crit[..2] == OpText(op);
    } else {
      assert crit[1] == rhs[0];
    }
  }

  /** The operator branch of the SUMIF-family matcher. */
  predicate SumifOperatorMatch(val: Value, op: CritOp, rhs: string)
  {
    var rn := StrToNumber(rhs);
    if rn.Some? && rhs != [] then
      ToNumber(val).Some? && val != Str("") && NumCompare(op, ToNumber(val).value, rn.value)
    else StrCriterion(op, CellText(val), rhs, true)
  }

  /** An operator criterion is decided by the operator branch alone. */
  lemma OperatorCriterion(val: Value, op: CritOp, rhs: string)
    requires PlainRhs(rhs)
    ensures SumifMatch(val, Str(OpText(op) + rhs)) == SumifOperatorMatch(val, op, rhs)
  {
    SplitOfOperator(op, rhs);
  }

  /** An operator criterion with a numeric right-hand side never matches a value that is
    * not a number (text, blank, undefined). */
  lemma NumericCriterionNeedsNumber(val: Value, op: CritOp, rhs: string)
    requires PlainRhs(rhs) && StrToNumber(rhs).Some?
    requires ToNumber(val).None? || val == Str("")
    ensures !SumifMatch(val, Str(OpText(op) + rhs))
  {
    OperatorCriterion(val, op, rhs);
  }

  /** A numeric operator criterion compares numbers numerically. */
  lemma NumericCriterionCompares(x: real, op: CritOp, rhs: string)
    requires PlainRhs(rhs) && StrToNumber(rhs).Some?
    ensures SumifMatch(Num(x), Str(OpText(op) + rhs)) <==> NumCompare(op, x, StrToNumber(rhs).value)
  {
    OperatorCriterion(Num(x), op, rhs);
  }

  /** A non-numeric right-hand side is compared as text. */
  lemma TextOperatorBranch(s: string, op: CritOp, rhs: string)
    requires StrToNumber(rhs).None?
    ensures SumifOperatorMatch(Str(s), op, rhs) == StrCriterion(op, s, rhs, true)
  {
    assert SumifOperatorMatch(Str(s), op, rhs) == StrCriterion(op, CellText(Str(s)), rhs, true);
    assert CellText(Str(s)) == s;
  }

  /** Text equality after `toLowerCase` is case-insensitive equality. */
  lemma FoldedEquality(s: string, rhs: string)
    ensures StrCriterion(Eq, s, rhs, true) == SameFolded(s, rhs)
    ensures StrCriterion(Ne, s, rhs, true) == !SameFolded(s, rhs)
  {
    LowerEqIffFolded(s, rhs);
  }

  /** Text `=` and `<>` criteria compare case-insensitively. */
  lemma TextEqualityFoldsCase(s: string, rhs: string)
    requires PlainRhs(rhs) && StrToNumber(rhs).None?
    ensures SumifMatch(Str(s), Str("=" + rhs)) == SameFolded(s, rhs)
    ensures SumifMatch(Str(s), Str("<>" + rhs)) == !SameFolded(s, rhs)
  {
    assert OpText(Eq) + rhs == "=" + rhs;
    assert OpText(Ne) + rhs == "<>" + rhs;
    OperatorCriterion(Str(s), Eq, rhs);
    OperatorCriterion(Str(s), Ne, rhs);
    TextOperatorBranch(s, Eq, rhs);
    TextOperatorBranch(s, Ne, rhs);
    FoldedEquality(s, rhs);
  }

  /** A plain text criterion (no operator, no wildcard) is case-insensitive equality. */
  lemma PlainTextFoldsCase(s: string, crit: string)
    requires crit != [] && crit[0] != '<' && crit[0] != '>' && crit[0] != '='
    requires !HasWildcard(crit)
    ensures SumifMatch(Str(s), Str(crit)) <==> SameFolded(s, crit)
  {
    LowerEqIffFolded(s, crit);
  }

  /** A wildcard criterion must match the whole text and ignores case; a criterion whose
    * wildcards are all `*` or `?` behaves as the glob says. */
  lemma WildcardCriterion(val: Value, crit: string)
    requires crit != [] && crit[0] != '<' && crit[0] != '>' && crit[0] != '='
    requires HasWildcard(crit)
    ensures SumifMatch(val, Str(crit)) <==> Matches(WildcardPattern(crit), CellText(val))
  {
  }

  /** Example (not a general property; `CountifsQuestionMatchesAnyChar` is): in the SUMIF
    * family, `?` stands for exactly one character. */
  lemma SumifQuestionMark()
    ensures SumifMatch(Str("abc"), Str("a?c"))
    ensures SumifMatch(Str("ABC"), Str("a?c"))
    ensures !SumifMatch(Str("ac"), Str("a?c"))
  {
    var p := WildcardPattern("a?c");
    assert p == [Lit('a'), AnyChar, Lit('c')];
    assert p[1..] == [AnyChar, Lit('c')];
    assert p[1..][1..] == [Lit('c')];
    assert "abc"[1..] == "bc" && "bc"[1..] == "c";
    assert "ABC"[1..] == "BC" && "BC"[1..] == "C";
    assert "ac"[1..] == "c";
    assert Matches(p, "abc");
    assert Matches(p, "ABC");
  }

  /** Finding: the COUNTIFS matcher as written does not let `?` match a letter; it matches
    * only a literal full stop. */
  lemma CountifsAsWrittenMissesQuestionMark()
    ensures !CountifsMatchAsWritten(Str("abc"), Str("a?c"))
    ensures CountifsMatchAsWritten(Str("a.c"), Str("a?c"))
  {
    var p := CountifsPatternAsWritten("a?c");
    assert p == [Lit('a'), Lit('.'), Lit('c')];
    assert p[1..] == [Lit('.'), Lit('c')];
    assert p[1..][1..] == [Lit('c')];
    assert "abc"[1..] == "bc";
    assert "a.c"[1..] == ".c" && ".c"[1..] == "c";
    assert Matches(p, "a.c");
  }

  /** The corrected COUNTIFS matcher agrees with the SUMIF family on every wildcard
    * criterion: `?` stands for one character there too. */
  lemma CountifsQuestionMatchesAnyChar(s: string, crit: string)
    requires crit != [] && crit[0] != '<' && crit[0] != '>' && crit[0] != '='
    requires HasWildcard(crit)
    ensures CountifsMatch(Str(s), Str(crit)) <==> SumifMatch(Str(s), Str(crit))
  {
  }

  // ---- COUNTIFS's other divergences ----

  /** COUNTIFS has no `<>` operator: `<>x` is read as `<` followed by `>x`. */
  lemma CountifsHasNoNotEqual(rest: string)
    ensures SplitOperator("<>" + rest, false) == Some((Lt, TrimStart(">" + rest)))
  {
    assert ("<>" + rest)[1..] == ">" + rest;
  }

  /** COUNTIFS's plain equality is case-sensitive, unlike the SUMIF family's. */
  lemma CountifsEqualityIsExact(s: string, crit: string)
    requires crit != [] && crit[0] != '<' && crit[0] != '>' && crit[0] != '='
    requires !HasWildcard(crit)
    ensures CountifsMatchAsWritten(Str(s), Str(crit)) <==> s == crit
  {
  }

  /** COUNTIFS's operator criteria compare numerically whenever both sides coerce, and an
    * empty right-hand side reads as 0, so `=` matches the number 0; the SUMIF family treats
    * an empty right-hand side as text and matches only blank text. */
  lemma BareEqualsCriterion()
    ensures CountifsMatchAsWritten(Num(0.0), Str("="))
    ensures SumifMatch(Str(""), Str("="))
    ensures !SumifMatch(Num(0.0), Str("="))
  {
    assert SplitOperator("=", false) == Some((Eq, ""));
    assert SplitOperator("=", true) == Some((Eq, ""));
    assert |Lower(CellText(Num(0.0)))| == |NumToStr(0.0)| > 0;
  }
}
