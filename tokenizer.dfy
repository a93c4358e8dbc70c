/** The formula lexer `tokenize`: one left-to-right scan over the formula text. */
module Tokenizer {
  import opened Wrappers
  import opened Text
  import opened Numbers
  import opened Values
  import opened RangeUtils

  /** A token. `sheet` is the sheet name of a cross-sheet reference, absent otherwise. */
  datatype Token =
    | NumberTok(value: Value)
    | StringTok(text: string)
    | BoolTok(b: bool)
    | CellTok(ref: string, sheet: Option<string>)
    | RangeTok(ref: string, sheet: Option<string>)
    | FuncTok(name: string)
    | IdentTok(name: string)
    | OpTok(op: string)
    | EofTok

  /** `[\d.]`. */
  predicate IsNumberChar(c: char) { IsDigit(c) || c == '.' }

  /** `[A-Za-z_$]`, the first character of an identifier. */
  predicate IsIdentStart(c: char) { IsLetter(c) || c == '_' || c == '$' }

  /** `[A-Za-z0-9_$:]`, the characters of the reference after `Sheet!`. */
  predicate IsRefChar(c: char) { IsWordOrDollar(c) || c == ':' }

  predicate IsQuoteFree(c: char) { c != '"' }

  /** The one-character operators and punctuation. */
  const OPERATOR_CHARS: string := "+-*/^(),:;&<>=!"

  predicate All(s: string, p: char -> bool) { forall k :: 0 <= k < |s| ==> p(s[k]) }

  /** Index just past the run of characters satisfying `p` that starts at `i`. */
  function RunEnd(s: string, i: nat, p: char -> bool): (j: nat)
    requires i <= |s|
    ensures i <= j <= |s|
    ensures j == |s| || !p(s[j])
    decreases |s| - i
  {
    if i < |s| && p(s[i]) then RunEnd(s, i + 1, p) else i
  }

  /** Every character of the run satisfies `p`. */
  lemma {:induction false} RunEndAll(s: string, i: nat, p: char -> bool)
    requires i <= |s|
    ensures All(s[i..RunEnd(s, i, p)], p)
    decreases |s| - i
  {
    if i < |s| && p(s[i]) {
      RunEndAll(s, i + 1, p);
      assert s[i..RunEnd(s, i, p)] == [s[i]] + s[i + 1..RunEnd(s, i + 1, p)];
    }
  }

  /** The text that is scanned: trimmed, with one leading `=` removed. */
  function Source(input: string): string
  {
    var t := Trim(input);
    if t != [] && t[0] == '=' then t[1..] else t
  }

  /** The body of a single-quoted sheet name from `i` on, with `''` read as `'`:
    * the decoded name and the index of the closing quote (or the end of the text). */
  function QuotedName(src: string, i: nat): (r: (string, nat))
    requires i <= |src|
    ensures i <= r.1 <= |src|
    ensures r.1 < |src| ==> src[r.1] == '\''
    decreases |src| - i
  {
    if i == |src| then ([], i)
    else if src[i] == '\'' && i + 1 < |src| && src[i + 1] == '\'' then
      var rest := QuotedName(src, i + 2);
      (['\''] + rest.0, rest.1)
    else if src[i] == '\'' then ([], i)
    else
      var rest := QuotedName(src, i + 1);
      ([src[i]] + rest.0, rest.1)
  }

  /** The token of the reference after `sheet!`, which starts at `i`, with `$` removed:
    * a range or a cell carrying the sheet, or else an identifier. */
  function SheetRef(src: string, i: nat, sheet: string): (r: (Token, nat))
    requires i <= |src|
    ensures i <= r.1 <= |src|
  {
    var j := RunEnd(src, i, IsRefChar);
    var cleaned := RemoveDollars(src[i..j]);
    if ':' in cleaned then
      var parts := Split(cleaned, ':');
      (RangeToken(parts[0], parts[1], Some(sheet)), j)
    else if LettersThenDigits(cleaned) then (CellToken(cleaned, Some(sheet)), j)
    else (IdentTok(Upper(cleaned)), j)
  }

  /** The RANGE token `A:B`, upper-cased. */
  function RangeToken(a: string, b: string, sheet: Option<string>): Token
  {
    RangeTok(Upper(a) + ":" + Upper(b), sheet)
  }

  /** The CELL token of a reference, upper-cased. */
  function CellToken(ref: string, sheet: Option<string>): Token
  {
    CellTok(Upper(ref), sheet)
  }

  /** A token that starts with a single quote at `i`. */
  function QuotedStep(src: string, i: nat): (r: (Token, nat))
    requires i < |src| && src[i] == '\''
    ensures i < r.1 <= |src|
  {
    var q := QuotedName(src, i + 1);
    if q.1 + 1 < |src| && src[q.1 + 1] == '!' then
      var t := SheetRef(src, q.1 + 2, q.0);
      (t.0, if t.1 < |src| && src[t.1] == '\'' then t.1 + 1 else t.1)
    else (StringTok(q.0), if q.1 < |src| then q.1 + 1 else q.1)
  }

  /** An identifier that is not followed by `!` or `:`: a function name when `(` follows
    * after optional white space, else a cell, a boolean or a plain identifier. */
  function WordToken(src: string, i: nat, e: nat): Token
    requires i <= e <= |src|
  {
    var id := src[i..e];
    var w := RunEnd(src, e, IsSpace);
    if w < |src| && src[w] == '(' then FuncTok(Upper(id))
    else if LettersThenDigits(RemoveDollars(id)) then CellToken(RemoveDollars(id), None)
    else if Upper(id) == "TRUE" then BoolTok(true)
    else if Upper(id) == "FALSE" then BoolTok(false)
    else IdentTok(Upper(id))
  }

  /** A token that starts with an identifier character at `i`. */
  function IdentStep(src: string, i: nat): (r: (Token, nat))
    requires i < |src| && IsIdentStart(src[i])
    ensures i < r.1 <= |src|
  {
    IdentToken(src, i, RunEnd(src, i, IsWordOrDollar))
  }

  /** The identifier `src[i..e]` and what follows it: `!` starts a reference on the sheet it
    * names, `:` a range on the current sheet, anything else ends the word. */
  function IdentToken(src: string, i: nat, e: nat): (r: (Token, nat))
    requires i <= e <= |src|
    ensures e <= r.1 <= |src|
  {
    if e < |src| && src[e] == '!' then SheetRef(src, e + 1, src[i..e])
    else if e < |src| && src[e] == ':' then LocalRange(src, i, e)
    else (WordToken(src, i, e), e)
  }

  /** An identifier `src[i..e]` followed by `:` and a second identifier: a range on the
    * current sheet, with `$` removed. */
  function LocalRange(src: string, i: nat, e: nat): (r: (Token, nat))
    requires i <= e < |src|
    ensures e < r.1 <= |src|
  {
    var e2 := RunEnd(src, e + 1, IsWordOrDollar);
    (RangeToken(RemoveDollars(src[i..e]), RemoveDollars(src[e + 1..e2]), None), e2)
  }

  /** An operator at `i`: `<=`, `>=`, `<>` and `==` are read as one token. */
  function OpStep(src: string, i: nat): (r: (Token, nat))
    requires i < |src| && src[i] in OPERATOR_CHARS
    ensures r.1 == i + 1 || r.1 == i + 2
    ensures r.0.OpTok? && 1 <= |r.0.op| <= 2
  {
    var next := if i + 1 < |src| then src[i + 1] else ' ';
    if src[i] == '<' && next == '=' then (OpTok("<="), i + 2)
    else if src[i] == '>' && next == '=' then (OpTok(">="), i + 2)
    else if src[i] == '<' && next == '>' then (OpTok("<>"), i + 2)
    else if src[i] == '=' && next == '=' then (OpTok("=="), i + 2)
    else (OpTok([src[i]]), i + 1)
  }

  predicate StartsNumber(src: string, i: nat)
    requires i < |src|
  {
    IsDigit(src[i]) || (src[i] == '.' && i + 1 < |src| && IsDigit(src[i + 1]))
  }

  /** One turn of the scanning loop at `i`: the tokens it pushes (none or one) and the
    * next index, which may pass the end by one after an unterminated string. */
  function Step(src: string, i: nat): (r: (seq<Token>, nat))
    requires i < |src|
    ensures i < r.1 <= |src| + 1
    ensures |r.0| <= 1
  {
    var c := src[i];
    if IsSpace(c) then ([], i + 1)
    else if c == '"' then
      var e := RunEnd(src, i + 1, IsQuoteFree);
      ([StringTok(src[i + 1..e])], e + 1)
    else if StartsNumber(src, i) then
      var e := RunEnd(src, i, IsNumberChar);
      ([NumberTok(AsNumber(Str(src[i..e])))], e)
    else if c == '\'' then
      var (t, e) := QuotedStep(src, i);
      ([t], e)
    else if IsIdentStart(c) then
      var (t, e) := IdentStep(src, i);
      ([t], e)
    else if c in OPERATOR_CHARS then
      var (t, e) := OpStep(src, i);
      ([t], e)
    else ([], i + 1)
  }

  /** The tokens the loop pushes from index `i` on. */
  function Scan(src: string, i: nat): seq<Token>
    decreases |src| + 1 - i
  {
    if i >= |src| then [] else Step(src, i).0 + Scan(src, Step(src, i).1)
  }

  /** What `tokenize` returns. */
  function TokenizeSpec(input: string): seq<Token>
  {
    Scan(Source(input), 0) + [EofTok]
  }

  // ---------------------------------------------------------------------------
  // The scanner as `tokenize` writes it: a loop over `i` that pushes tokens, with
  // inner loops collecting the characters of each token.

  /** Collects the run of characters satisfying `p` from `i` on. */
  method ReadRun(src: string, i: nat, p: char -> bool) returns (run: string, j: nat)
    requires i <= |src|
    ensures j == RunEnd(src, i, p) && run == src[i..j]
  {
    run := [];
    j := i;
    while j < |src| && p(src[j])
      invariant i <= j <= |src|
      invariant run == src[i..j]
      invariant RunEnd(src, j, p) == RunEnd(src, i, p)
      decreases |src| - j
    {
      run := run + [src[j]];
      j := j + 1;
    }
  }

  /** Collects a quoted sheet name, reading `''` as `'`. */
  method ReadQuotedName(src: string, i: nat) returns (sheet: string, j: nat)
    requires i <= |src|
    ensures (sheet, j) == QuotedName(src, i)
  {
    sheet := [];
    j := i;
    while j < |src|
      invariant i <= j <= |src|
      invariant sheet + QuotedName(src, j).0 == QuotedName(src, i).0
      invariant QuotedName(src, j).1 == QuotedName(src, i).1
      decreases |src| - j
    {
      if src[j] == '\'' && j + 1 < |src| && src[j + 1] == '\'' {
        sheet := sheet + ['\''];
        j := j + 2;
      } else if src[j] == '\'' {
        assert QuotedName(src, j) == ([], j);
        break;
      } else {
        sheet := sheet + [src[j]];
        j := j + 1;
      }
    }
    assert QuotedName(src, j) == ([], j);
    assert sheet + [] == sheet;
  }

  /** Reads the reference after `sheet!`. */
  method ReadSheetRef(src: string, i: nat, sheet: string) returns (tok: Token, j: nat)
    requires i <= |src|
    ensures (tok, j) == SheetRef(src, i, sheet)
  {
    var cellOrRange;
    cellOrRange, j := ReadRun(src, i, IsRefChar);
    var cleaned := RemoveDollars(cellOrRange);
    if ':' in cleaned {
      var parts := Split(cleaned, ':');
      tok := RangeTok(Upper(parts[0]) + ":" + Upper(parts[1]), Some(sheet));
    } else if LettersThenDigits(cleaned) {
      tok := CellTok(Upper(cleaned), Some(sheet));
    } else {
      tok := IdentTok(Upper(cleaned));
    }
  }

  method ReadQuoted(src: string, i: nat) returns (tok: Token, j: nat)
    requires i < |src| && src[i] == '\''
    ensures (tok, j) == QuotedStep(src, i)
  {
    var sheet, k := ReadQuotedName(src, i + 1);
    if k < |src| {
      k := k + 1;
    }
    if k < |src| && src[k] == '!' {
      var e;
      tok, e := ReadSheetRef(src, k + 1, sheet);
      j := if e < |src| && src[e] == '\'' then e + 1 else e;
    } else {
      tok, j := StringTok(sheet), k;
    }
  }

  method ReadIdent(src: string, i: nat) returns (tok: Token, j: nat)
    requires i < |src| && IsIdentStart(src[i])
    ensures (tok, j) == IdentStep(src, i)
  {
    var id;
    id, j := ReadRun(src, i, IsWordOrDollar);
    if j < |src| && src[j] == '!' {
      tok, j := ReadSheetRef(src, j + 1, id);
    } else if j < |src| && src[j] == ':' {
      var id2, e2 := ReadRun(src, j + 1, IsWordOrDollar);
      tok := RangeTok(Upper(RemoveDollars(id)) + ":" + Upper(RemoveDollars(id2)), None);
      j := e2;
    } else {
      var w := j;
      while w < |src| && IsSpace(src[w])
        invariant j <= w <= |src|
        invariant RunEnd(src, w, IsSpace) == RunEnd(src, j, IsSpace)
        decreases |src| - w
      {
        w := w + 1;
      }
      if w < |src| && src[w] == '(' {
        tok := FuncTok(Upper(id));
      } else {
        var cleanId := RemoveDollars(id);
        if LettersThenDigits(cleanId) {
          tok := CellTok(Upper(cleanId), None);
        } else if Upper(id) == "TRUE" {
          tok := BoolTok(true);
        } else if Upper(id) == "FALSE" {
          tok := BoolTok(false);
        } else {
          tok := IdentTok(Upper(id));
        }
      }
    }
  }

  /** One turn of the scanning loop. */
  method ScanStep(src: string, i: nat) returns (toks: seq<Token>, j: nat)
    requires i < |src|
    ensures (toks, j) == Step(src, i)
  {
    var ch := src[i];
    if IsSpace(ch) {
      return [], i + 1;
    }
    if ch == '"' {
      var str;
      str, j := ReadRun(src, i + 1, IsQuoteFree);
      return [StringTok(str)], j + 1;
    }
    if StartsNumber(src, i) {
      var num;
      num, j := ReadRun(src, i, IsNumberChar);
      return [NumberTok(AsNumber(Str(num)))], j;
    }
    if ch == '\'' {
      var tok;
      tok, j := ReadQuoted(src, i);
      return [tok], j;
    }
    if IsIdentStart(ch) {
      var tok;
      tok, j := ReadIdent(src, i);
      return [tok], j;
    }
    if ch in OPERATOR_CHARS {
      var next := if i + 1 < |src| then src[i + 1] else ' ';
      if ch == '<' && next == '=' {
        return [OpTok("<=")], i + 2;
      } else if ch == '>' && next == '=' {
        return [OpTok(">=")], i + 2;
      } else if ch == '<' && next == '>' {
        return [OpTok("<>")], i + 2;
      } else if ch == '=' && next == '=' {
        return [OpTok("==")], i + 2;
      }
      return [OpTok([ch])], i + 1;
    }
    return [], i + 1;
  }

  lemma ScanUnfold(src: string, i: nat)
    requires i < |src|
    ensures Scan(src, i) == Step(src, i).0 + Scan(src, Step(src, i).1)
  {
  }

  /** `tokenize`. */
  method Tokenize(input: string) returns (tokens: seq<Token>)
    ensures tokens == TokenizeSpec(input)
  {
    var src := Source(input);
    tokens := [];
    var i: nat := 0;
    while i < |src|
      invariant tokens + Scan(src, i) == Scan(src, 0)
      decreases |src| + 1 - i
    {
      var toks, j := ScanStep(src, i);
      ScanUnfold(src, i);
      tokens := tokens + toks;
      i := j;
    }
    tokens := tokens + [EofTok];
  }

  // ---------------------------------------------------------------------------
  // Properties of the scan.

  lemma {:induction false} ScanHasNoEof(src: string, i: nat)
    ensures forall k :: 0 <= k < |Scan(src, i)| ==> !Scan(src, i)[k].EofTok?
    decreases |src| + 1 - i
  {
    if i < |src| {
      var r := Step(src, i);
      ScanHasNoEof(src, r.1);
      assert r.0 == [] || !r.0[0].EofTok?;
    }
  }

  /** The token list ends with exactly one EOF token. */
  lemma TokenizeEndsWithEof(input: string)
    ensures var t := TokenizeSpec(input);
      |t| >= 1 && t[|t| - 1] == EofTok && forall k :: 0 <= k < |t| - 1 ==> !t[k].EofTok?
  {
    ScanHasNoEof(Source(input), 0);
  }

  lemma TrimEndCons(c: char, s: string)
    requires !IsSpace(c)
    ensures TrimEnd([c] + s) == [c] + TrimEnd(s)
    decreases |s|
  {
    if s != [] && IsSpace(s[|s| - 1]) {
      assert ([c] + s)[..|s|] == [c] + s[..|s| - 1];
      TrimEndCons(c, s[..|s| - 1]);
    }
  }

  /** One leading `=` is dropped: a formula and its text without the `=` give the same tokens. */
  lemma LeadingEqualsIgnored(s: string)
    requires s == [] || (!IsSpace(s[0]) && s[0] != '=')
    ensures TokenizeSpec("=" + s) == TokenizeSpec(s)
  {
    TrimStartFixes("=" + s);
    TrimStartFixes(s);
    TrimEndCons('=', s);
    TrimEndKeeps(s);
    assert Source("=" + s) == TrimEnd(s);
  }

  /** Leading and trailing white space does not change the tokens. */
  lemma SurroundingSpaceIgnored(s: string, w1: string, w2: string)
    requires AllSpace(w1) && AllSpace(w2)
    requires s != [] && !IsSpace(s[0]) && !IsSpace(s[|s| - 1])
    ensures TokenizeSpec(w1 + s + w2) == TokenizeSpec(s)
  {
    TrimAround(w1, s, w2);
    TrimFixes(s);
  }

  lemma TrimAround(w1: string, s: string, w2: string)
    requires AllSpace(w1) && AllSpace(w2)
    requires s != [] && !IsSpace(s[0]) && !IsSpace(s[|s| - 1])
    ensures Trim(w1 + s + w2) == s
  {
    assert w1 + s + w2 == w1 + (s + w2);
    TrimStartOfSpaces(w1, s + w2);
    TrimEndOfSpaces(s, w2);
  }

  lemma {:induction false} TrimEndOfSpaces(s: string, w: string)
    requires AllSpace(w) && (s == [] || !IsSpace(s[|s| - 1]))
    ensures TrimEnd(s + w) == s
    decreases |w|
  {
    if w == [] {
      assert s + w == s;
    } else {
      assert (s + w)[..|s + w| - 1] == s + w[..|w| - 1];
      TrimEndOfSpaces(s, w[..|w| - 1]);
    }
  }

  lemma {:induction false} TrimStartOfSpaces(w: string, s: string)
    requires AllSpace(w) && (s == [] || !IsSpace(s[0]))
    ensures TrimStart(w + s) == s
    decreases |w|
  {
    if w == [] {
      assert w + s == s;
      TrimStartFixes(s);
    } else {
      assert (w + s)[1..] == w[1..] + s;
      TrimStartOfSpaces(w[1..], s);
    }
  }

  /** A double-quoted literal is the text up to the next `"` (or the end), with no
    * escapes, and scanning resumes after that quote. */
  lemma StringLiteral(src: string, i: nat)
    requires i < |src| && src[i] == '"'
    ensures var r := Step(src, i); var e := r.1 - 1;
      i < e <= |src| && r.0 == [StringTok(src[i + 1..e])] &&
      '"' !in src[i + 1..e] && (e == |src| || src[e] == '"')
  {
    var e := RunEnd(src, i + 1, IsQuoteFree);
    var lit := src[i + 1..e];
    RunEndAll(src, i + 1, IsQuoteFree);
    assert forall m :: 0 <= m < |lit| ==> lit[m] != '"';
  }

  /** A number token covers the maximal run of digits and dots, and its value is
    * `Number` of that run. */
  lemma NumberLiteral(src: string, i: nat)
    requires i < |src| && StartsNumber(src, i)
    ensures var r := Step(src, i);
      r.0 == [NumberTok(AsNumber(Str(src[i..r.1])))] &&
      All(src[i..r.1], IsNumberChar) && (r.1 == |src| || !IsNumberChar(src[r.1]))
  {
    RunEndAll(src, i, IsNumberChar);
  }

  /** A sheet name written with each `'` doubled. */
  function EscapeQuotes(name: string): string
  {
    if name == [] then [] else (if name[0] == '\'' then "''" else [name[0]]) + EscapeQuotes(name[1..])
  }

  /** `''` decodes to `'`: reading an escaped name back gives the name, and stops at the
    * closing quote. */
  lemma {:induction false} QuotedNameRoundTrip(src: string, i: nat, name: string)
    requires i + |EscapeQuotes(name)| < |src|
    requires src[i..i + |EscapeQuotes(name)|] == EscapeQuotes(name)
    requires src[i + |EscapeQuotes(name)|] == '\''
    requires i + |EscapeQuotes(name)| + 1 == |src| || src[i + |EscapeQuotes(name)| + 1] != '\''
    ensures QuotedName(src, i) == (name, i + |EscapeQuotes(name)|)
    decreases |name|
  {
    var esc := EscapeQuotes(name);
    if name != [] {
      var head := if name[0] == '\'' then "''" else [name[0]];
      var tail := EscapeQuotes(name[1..]);
      assert esc == head + tail;
      SliceParts(src, i, head, tail);
      QuotedNameRoundTrip(src, i + |head|, name[1..]);
      if name[0] == '\'' {
        assert src[i] == '\'' && src[i + 1] == '\'' by { assert src[i..i + 2] == "''"; }
      } else {
        assert src[i] == name[0] by { assert src[i..i + 1] == [name[0]]; }
      }
      assert QuotedName(src, i) == ([name[0]] + name[1..], i + |esc|);
      assert [name[0]] + name[1..] == name;
    }
  }

  /** A slice of `src` that spells `a + b` is the slice spelling `a` then the one spelling `b`. */
  lemma SliceParts(src: string, i: nat, a: string, b: string)
    requires i + |a| + |b| <= |src| && src[i..i + |a| + |b|] == a + b
    ensures src[i..i + |a|] == a && src[i + |a|..i + |a| + |b|] == b
  {
    assert src[i..i + |a|] == (a + b)[..|a|];
    assert src[i + |a|..i + |a| + |b|] == (a + b)[|a|..];
  }

  /** A quoted sheet name followed by `!` and a cell reference yields a CELL token that
    * carries the sheet. */
  lemma QuotedSheetCell(src: string, name: string, ref: string)
    requires LettersThenDigits(ref) && '$' !in ref
    requires var esc := EscapeQuotes(name); src == "'" + esc + "'!" + ref
    ensures Step(src, 0) == ([CellTok(Upper(ref), Some(name))], |src|)
  {
    QuotedSheetParts(src, name, ref);
    QuotedSheetStep(src, 0);
    StepOfQuote(src, 0);
  }

  /** In `'esc'!ref` the quoted name decodes to `name` and ends before `!`, and the reference
    * after it is a CELL token that runs to the end. */
  lemma QuotedSheetParts(src: string, name: string, ref: string)
    requires LettersThenDigits(ref) && '$' !in ref
    requires var esc := EscapeQuotes(name); src == "'" + esc + "'!" + ref
    ensures var n := 1 + |EscapeQuotes(name)|;
      n + 1 < |src| && src[n + 1] == '!' && QuotedName(src, 1) == (name, n) &&
      SheetRef(src, n + 2, name) == (CellToken(ref, Some(name)), |src|)
  {
    var esc := EscapeQuotes(name);
    var n := 1 + |esc|;
    QuotedLayout(src, esc, ref);
    QuotedNameRoundTrip(src, 1, name);
    SheetRefOfCell(src, n + 2, ref, name);
  }

  /** Where the parts of `'esc'!ref` sit. */
  lemma QuotedLayout(src: string, esc: string, ref: string)
    requires src == "'" + esc + "'!" + ref
    ensures |src| == |esc| + 3 + |ref|
    ensures src[0] == '\'' && src[1..1 + |esc|] == esc
    ensures src[|esc| + 1] == '\'' && src[|esc| + 2] == '!' && src[|esc| + 3..] == ref
  {
    assert src[1..1 + |esc|] == esc;
    assert src[|esc| + 3..] == ref;
  }

  /** A quoted name that ends at `k`, followed by `!` and a reference that runs to the end
    * of the text, reads as that reference's token. */
  lemma QuotedSheetStep(src: string, i: nat)
    requires i < |src| && src[i] == '\''
    requires var q := QuotedName(src, i + 1);
      q.1 + 1 < |src| && src[q.1 + 1] == '!' && SheetRef(src, q.1 + 2, q.0).1 == |src|
    ensures var q := QuotedName(src, i + 1); QuotedStep(src, i) == (SheetRef(src, q.1 + 2, q.0).0, |src|)
  {
  }

  /** A `$`-free cell reference running to the end of the text after `sheet!` is a CELL
    * token carrying the sheet. */
  lemma SheetRefOfCell(src: string, i: nat, ref: string, sheet: string)
    requires LettersThenDigits(ref) && '$' !in ref
    requires i + |ref| == |src| && src[i..] == ref
    ensures SheetRef(src, i, sheet) == (CellToken(ref, Some(sheet)), |src|)
  {
    RefRunIsAll(src, i, ref);
    assert src[i..|src|] == ref;
    A1TextHasNoColon(ref);
    RemoveDollarsFixes(ref);
  }

  lemma StepOfQuote(src: string, i: nat)
    requires i < |src| && src[i] == '\''
    ensures Step(src, i) == ([QuotedStep(src, i).0], QuotedStep(src, i).1)
  {
  }

  lemma StepOfIdent(src: string, i: nat)
    requires i < |src| && IsIdentStart(src[i])
    ensures Step(src, i) == ([IdentStep(src, i).0], IdentStep(src, i).1)
  {
    assert !IsSpace(src[i]) && src[i] != '"' && !StartsNumber(src, i) && src[i] != '\'';
  }

  /** A quoted name not followed by `!` is a string. */
  lemma QuotedString(src: string, name: string, rest: string)
    requires var esc := EscapeQuotes(name); src == "'" + esc + "'" + rest
    requires rest == [] || (rest[0] != '!' && rest[0] != '\'')
    ensures Step(src, 0) == ([StringTok(name)], 2 + |EscapeQuotes(name)|)
  {
    var esc := EscapeQuotes(name);
    assert src[1..1 + |esc|] == esc;
    assert src[1 + |esc|] == '\'';
    QuotedNameRoundTrip(src, 1, name);
    StepOfQuote(src, 0);
  }

  lemma RefRunIsAll(src: string, i: nat, ref: string)
    requires LettersThenDigits(ref) && i + |ref| == |src| && src[i..] == ref
    ensures RunEnd(src, i, IsRefChar) == |src|
  {
    var k := LetterRunEnd(ref, 0);
    forall m | i <= m < |src| ensures IsRefChar(src[m]) {
      assert src[m] == ref[m - i];
      if m - i < k { assert ref[0..k][m - i] == ref[m - i]; } else { assert ref[k..][m - i - k] == ref[m - i]; }
    }
    RunEndOver(src, i, IsRefChar);
  }

  lemma {:induction false} RunEndOver(src: string, i: nat, p: char -> bool)
    requires i <= |src| && forall m :: i <= m < |src| ==> p(src[m])
    ensures RunEnd(src, i, p) == |src|
    decreases |src| - i
  {
    if i < |src| {
      RunEndOver(src, i + 1, p);
    }
  }

  lemma A1TextHasNoColon(s: string)
    requires LettersThenDigits(s)
    ensures ':' !in s
  {
    var k := LetterRunEnd(s, 0);
    forall m | 0 <= m < |s| ensures s[m] != ':' {
      if m < k { assert s[0..k][m] == s[m]; } else { assert s[k..][m - k] == s[m]; }
    }
  }

  /** Upper-casing never introduces a `$`. */
  lemma UpperKeepsDollarFree(s: string)
    requires '$' !in s
    ensures '$' !in Upper(s)
  {
    forall k | 0 <= k < |s| ensures Upper(s)[k] != '$' {
      assert s[k] != '$';
    }
  }

  predicate CleanRef(ref: string) { '$' !in ref && NoLower(ref) }

  lemma CleanUpper(s: string)
    requires '$' !in s
    ensures CleanRef(Upper(s))
  {
    UpperKeepsDollarFree(s);
    UpperHasNoLower(s);
  }

  lemma CleanRange(a: string, b: string)
    requires '$' !in a && '$' !in b
    ensures CleanRef(Upper(a) + ":" + Upper(b))
  {
    CleanUpper(a);
    CleanUpper(b);
    assert NoLower(Upper(a) + ":" + Upper(b)) by {
      var u := Upper(a) + ":" + Upper(b);
      forall k | 0 <= k < |u| ensures !IsLower(u[k]) {
        if k < |Upper(a)| { assert u[k] == Upper(a)[k]; }
        else if k > |Upper(a)| { assert u[k] == Upper(b)[k - |Upper(a)| - 1]; }
      }
    }
  }

  predicate TokenClean(t: Token)
  {
    (t.CellTok? || t.RangeTok?) ==> CleanRef(t.ref)
  }

  /** Every CELL and RANGE value is free of `$` and of lower-case letters. */
  lemma {:induction false} ScanRefsClean(src: string, i: nat)
    ensures forall t :: t in Scan(src, i) ==> TokenClean(t)
    decreases |src| + 1 - i
  {
    if i < |src| {
      StepClean(src, i);
      ScanRefsClean(src, Step(src, i).1);
    }
  }

  /** A CELL token made from a `$`-free reference is clean and carries its sheet. */
  lemma CellTokenClean(ref: string, sheet: Option<string>)
    requires '$' !in ref
    ensures var t := CellToken(ref, sheet); t.CellTok? && t.sheet == sheet && CleanRef(t.ref)
  {
    CleanUpper(ref);
  }

  /** A RANGE token made from two `$`-free endpoints is clean and carries its sheet. */
  lemma RangeTokenClean(a: string, b: string, sheet: Option<string>)
    requires '$' !in a && '$' !in b
    ensures var t := RangeToken(a, b, sheet); t.RangeTok? && t.sheet == sheet && CleanRef(t.ref)
  {
    CleanRange(a, b);
  }

  /** The reference after `sheet!` gives a clean token. */
  lemma SheetRefClean(src: string, i: nat, sheet: string)
    requires i <= |src|
    ensures TokenClean(SheetRef(src, i, sheet).0)
  {
    var j := RunEnd(src, i, IsRefChar);
    var cleaned := RemoveDollars(src[i..j]);
    RemoveDollarsRemoves(src[i..j]);
    if ':' in cleaned {
      var parts := Split(cleaned, ':');
      SplitAvoids(cleaned, ':', '$');
      RangeTokenClean(parts[0], parts[1], Some(sheet));
    } else if LettersThenDigits(cleaned) {
      CellTokenClean(cleaned, Some(sheet));
    }
  }

  /** A token starting with `'` is clean. */
  lemma QuotedStepClean(src: string, i: nat)
    requires i < |src| && src[i] == '\''
    ensures TokenClean(QuotedStep(src, i).0)
  {
    var q := QuotedName(src, i + 1);
    if q.1 + 1 < |src| && src[q.1 + 1] == '!' {
      SheetRefClean(src, q.1 + 2, q.0);
      assert QuotedStep(src, i).0 == SheetRef(src, q.1 + 2, q.0).0;
    } else {
      assert QuotedStep(src, i).0 == StringTok(q.0);
    }
  }

  /** An identifier not followed by `!` or `:` gives a clean token. */
  lemma WordTokenClean(src: string, i: nat, e: nat)
    requires i <= e <= |src|
    ensures TokenClean(WordToken(src, i, e))
  {
    RemoveDollarsRemoves(src[i..e]);
    CellTokenClean(RemoveDollars(src[i..e]), None);
  }

  /** `id:id2` gives a clean RANGE token. */
  lemma LocalRangeClean(src: string, i: nat, e: nat)
    requires i <= e < |src|
    ensures TokenClean(LocalRange(src, i, e).0)
  {
    var e2 := RunEnd(src, e + 1, IsWordOrDollar);
    RemoveDollarsRemoves(src[i..e]);
    RemoveDollarsRemoves(src[e + 1..e2]);
    RangeTokenClean(RemoveDollars(src[i..e]), RemoveDollars(src[e + 1..e2]), None);
  }

  /** An identifier and what follows it give a clean token. */
  lemma IdentTokenClean(src: string, i: nat, e: nat)
    requires i <= e <= |src|
    ensures TokenClean(IdentToken(src, i, e).0)
  {
    if e < |src| && src[e] == '!' {
      SheetRefClean(src, e + 1, src[i..e]);
    } else if e < |src| && src[e] == ':' {
      LocalRangeClean(src, i, e);
    } else {
      WordTokenClean(src, i, e);
    }
  }

  /** One turn of the loop pushes only clean tokens. */
  lemma StepClean(src: string, i: nat)
    requires i < |src|
    ensures forall t :: t in Step(src, i).0 ==> TokenClean(t)
  {
    var c := src[i];
    if IsSpace(c) || c == '"' || StartsNumber(src, i) {
    } else if c == '\'' {
      QuotedStepClean(src, i);
    } else if IsIdentStart(c) {
      IdentTokenClean(src, i, RunEnd(src, i, IsWordOrDollar));
    }
  }

  /** An identifier followed, after optional white space, by `(` is a function name;
    * otherwise it is a cell, a boolean or an identifier, never a function name. */
  lemma FunctionNames(src: string, i: nat)
    requires i < |src| && IsIdentStart(src[i])
    requires var e := RunEnd(src, i, IsWordOrDollar); e == |src| || (src[e] != '!' && src[e] != ':')
    ensures var e := RunEnd(src, i, IsWordOrDollar); var w := RunEnd(src, e, IsSpace);
      var t := Step(src, i).0[0];
      (t.FuncTok? <==> (w < |src| && src[w] == '(')) &&
      (t.FuncTok? ==> t.name == Upper(src[i..e])) &&
      (!t.FuncTok? ==> t.CellTok? || t.BoolTok? || t.IdentTok?)
  {
    StepOfIdent(src, i);
    var e := RunEnd(src, i, IsWordOrDollar);
    assert IdentStep(src, i).0 == WordToken(src, i, e);
  }

  lemma BooleanWordShape(id: string)
    requires Upper(id) == "TRUE" || Upper(id) == "FALSE"
    ensures '$' !in id && !LettersThenDigits(id)
  {
    forall k | 0 <= k < |id| ensures id[k] != '$' {
      assert Upper(id)[k] != '$';
    }
    assert Upper(id)[|id| - 1] == 'E';
    var k := LetterRunEnd(id, 0);
    if 0 < k < |id| {
      assert id[k..][|id| - 1 - k] == id[|id| - 1];
    }
  }

  /** `TRUE` and `FALSE`, in any case, are booleans unless a `(` follows. */
  lemma BooleanWords(src: string, i: nat)
    requires i < |src| && IsIdentStart(src[i])
    requires var e := RunEnd(src, i, IsWordOrDollar);
      (e == |src| || (src[e] != '!' && src[e] != ':' && src[e] != '(' && !IsSpace(src[e]))) &&
      (Upper(src[i..e]) == "TRUE" || Upper(src[i..e]) == "FALSE")
    ensures var e := RunEnd(src, i, IsWordOrDollar);
      Step(src, i) == ([BoolTok(Upper(src[i..e]) == "TRUE")], e)
  {
    var e := RunEnd(src, i, IsWordOrDollar);
    var id := src[i..e];
    StepOfIdent(src, i);
    assert IdentStep(src, i) == (WordToken(src, i, e), e);
    BooleanWordShape(id);
    RemoveDollarsFixes(id);
    assert RunEnd(src, e, IsSpace) == e;
  }

  /** `<=`, `>=`, `<>` and `==` are single operator tokens. */
  lemma TwoCharacterOperators(src: string, i: nat)
    requires i + 1 < |src|
    requires src[i..i + 2] in ["<=", ">=", "<>", "=="]
    ensures Step(src, i) == ([OpTok(src[i..i + 2])], i + 2)
  {
    assert src[i..i + 2] == [src[i], src[i + 1]];
    assert src[i] in OPERATOR_CHARS;
  }

  /** Characters that start no token are skipped. */
  lemma UnknownSkipped(src: string, i: nat)
    requires i < |src|
    requires !IsSpace(src[i]) && src[i] != '"' && src[i] != '\'' && !IsDigit(src[i])
    requires src[i] != '.' && !IsIdentStart(src[i]) && src[i] !in OPERATOR_CHARS
    ensures Step(src, i) == ([], i + 1)
  {
  }
}
