/** The renderer's formula helpers: moving the references of a shared formula from its anchor
  * cell to another cell (`shiftA1Ref`, `shiftFormulaRefs`, `deriveSharedFormula`), the key
  * under which a derived formula is cached, how a conditional-format result is read as true or
  * false, and the order in which each cell's conditional-format rules are applied. */
module Renderer {
  import opened Wrappers
  import opened Text
  import opened Numbers
  import opened A1
  import opened Values
  import opened RangeUtils
  import opened Workbook

  // ---- shiftA1Ref ----

  /** Index just past the run of upper-case letters that starts at `i`. */
  function UpperRunEnd(s: string, i: nat): (j: nat)
    requires i <= |s|
    ensures i <= j <= |s| && AllUpper(s[i..j])
    ensures j == |s| || !IsUpper(s[j])
    decreases |s| - i
  {
    if i < |s| && IsUpper(s[i]) then UpperRunEnd(s, i + 1) else i
  }

  /** The groups of `^(\$?)([A-Z]{1,3})(\$?)(\d+)$`. */
  datatype A1Parts = A1Parts(colAbs: bool, letters: string, rowAbs: bool, digits: string)

  predicate WellFormed(p: A1Parts)
  {
    1 <= |p.letters| <= 3 && AllUpper(p.letters) && p.digits != [] && AllDigits(p.digits)
  }

  function Dollar(b: bool): string { if b then "$" else "" }

  /** The text the groups were matched from. */
  function Spell(p: A1Parts): string
  {
    Dollar(p.colAbs) + p.letters + Dollar(p.rowAbs) + p.digits
  }

  /** The anchored match: an optional `$`, one to three capitals, an optional `$` and digits to
    * the end. Every choice is forced, so the match is unique. */
  function MatchA1(ref: string): (m: Option<A1Parts>)
    ensures m.Some? ==> WellFormed(m.value) && Spell(m.value) == ref
  {
    var i := if |ref| > 0 && ref[0] == '$' then 1 else 0;
    var k := UpperRunEnd(ref, i);
    var j := if k < |ref| && ref[k] == '$' then k + 1 else k;
    if k - i < 1 || k - i > 3 || j == |ref| || !AllDigits(ref[j..]) then None
    else
      var p := A1Parts(i == 1, ref[i..k], j == k + 1, ref[j..]);
      assert ref[..i] == Dollar(p.colAbs) && ref[k..j] == Dollar(p.rowAbs);
      SplitFour(ref, i, k, j);
      Some(p)
  }

  lemma SplitFour(s: string, i: nat, k: nat, j: nat)
    requires i <= k <= j <= |s|
    ensures s[..i] + s[i..k] + s[k..j] + s[j..] == s
  {
    assert s[..i] + s[i..k] == s[..k];
    assert s[..k] + s[k..j] == s[..j];
  }

  /** The column and row `shiftA1Ref` moves a matched reference to. */
  function ShiftedColumn(p: A1Parts, colOffset: int): int
  {
    ColumnNumber(p.letters) + (if p.colAbs then 0 else colOffset)
  }

  function ShiftedRow(p: A1Parts, rowOffset: int): int
    requires AllDigits(p.digits)
  {
    DigitsValue(p.digits) + (if p.rowAbs then 0 else rowOffset)
  }

  /** `shiftA1Ref`: the column and the row move by the offsets unless marked with `$`; `#REF!`
    * when either falls below 1. `shiftA1Ref` reads the column as `parseCellRef` of the letters
    * followed by `1`, which is their column number (`ColumnOfLetters`). */
  function ShiftA1Ref(ref: string, rowOffset: int, colOffset: int): (r: string)
    ensures MatchA1(ref).None? ==> r == ref
  {
    match MatchA1(ref)
    case None => ref
    case Some(p) => ShiftParts(p, rowOffset, colOffset)
  }

  /** The moved reference spelled from its matched parts, or `#REF!`. */
  function ShiftParts(p: A1Parts, rowOffset: int, colOffset: int): string
    requires AllDigits(p.digits)
  {
    var colIndex := ShiftedColumn(p, colOffset);
    var rowIndex := ShiftedRow(p, rowOffset);
    if colIndex < 1 || rowIndex < 1 then "#REF!"
    else Spell(A1Parts(p.colAbs, ColumnLetters(colIndex), p.rowAbs, NatToStr(rowIndex)))
  }

  /** The capitals of a column name are already upper case. */
  lemma UpperOfUpper(s: string)
    requires AllUpper(s)
    ensures Upper(s) == s
  {
  }

  /** `parseCellRef` reads a reference without `$` as its column number and row. */
  lemma RelativeCell(letters: string, digits: string)
    requires letters != [] && AllUpper(letters) && digits != [] && AllDigits(digits)
    ensures ParseCellRef(letters + digits) == Cell(ColumnNumber(letters), DigitsValue(digits))
  {
    var s := letters + digits;
    var k := |letters|;
    assert s[..k] == letters && s[k..] == digits;
    LetterRunEndAt(s, k);
    UpperOfUpper(letters);
    WholeReference(s);
  }

  /** The column `shiftA1Ref` reads from `letters + "1"`. */
  lemma ColumnOfLetters(letters: string)
    requires letters != [] && AllUpper(letters)
    ensures ParseCellRef(letters + "1").col == ColumnNumber(letters)
  {
    RelativeCell(letters, "1");
  }

  /** Columns up to `ZZZ` (18278) have at most three letters. */
  lemma ThreeLetters(n: int)
    requires 1 <= n <= 18278
    ensures 1 <= |ColumnLetters(n)| <= 3
  {
    var a := (n - 1) / 26;
    assert a <= 702;
    assert |ColumnLetters(n)| == |ColumnLetters(a)| + 1;
    if a > 0 {
      var b := (a - 1) / 26;
      assert b <= 26;
      assert |ColumnLetters(a)| == |ColumnLetters(b)| + 1;
      if b > 0 {
        assert (b - 1) / 26 == 0;
        assert |ColumnLetters(b)| == |ColumnLetters(0)| + 1;
      }
    }
  }

  /** Spelling well-formed groups and matching them again gives the same groups. */
  lemma MatchSpell(p: A1Parts)
    requires WellFormed(p)
    ensures MatchA1(Spell(p)) == Some(p)
  {
    var s := Spell(p);
    var i := |Dollar(p.colAbs)|;
    var k := i + |p.letters|;
    assert s[i..k] == p.letters;
    assert k == |s| || !IsUpper(s[k]) by {
      if p.rowAbs { assert s[k] == '$'; } else { assert s[k] == p.digits[0]; }
    }
    UpperRunEndAt(s, i, k);
    var j := k + |Dollar(p.rowAbs)|;
    assert s[j..] == p.digits;
  }

  lemma {:induction false} UpperRunEndAt(s: string, i: nat, k: nat)
    requires i <= k <= |s| && AllUpper(s[i..k]) && (k == |s| || !IsUpper(s[k]))
    ensures UpperRunEnd(s, i) == k
    decreases k - i
  {
    if i < k {
      assert IsUpper(s[i..k][0]);
      assert s[i + 1..k] == s[i..k][1..];
      UpperRunEndAt(s, i + 1, k);
    }
  }

  /** A shift that stays on the sheet gives a reference with the same `$` markers whose column
    * and row read back as the moved ones. */
  lemma ShiftedReadsBack(ref: string, rowOffset: int, colOffset: int)
    requires MatchA1(ref).Some?
    requires var p := MatchA1(ref).value;
      1 <= ShiftedColumn(p, colOffset) <= 18278 && ShiftedRow(p, rowOffset) >= 1
    ensures var p := MatchA1(ref).value;
      var c := ShiftedColumn(p, colOffset);
      var r := ShiftedRow(p, rowOffset);
      MatchA1(ShiftA1Ref(ref, rowOffset, colOffset)) == Some(A1Parts(p.colAbs, ColumnLetters(c), p.rowAbs, NatToStr(r))) &&
      ColumnNumber(ColumnLetters(c)) == c && DigitsValue(NatToStr(r)) == r
  {
    var p := MatchA1(ref).value;
    var c := ShiftedColumn(p, colOffset);
    var r := ShiftedRow(p, rowOffset);
    ThreeLetters(c);
    MatchSpell(A1Parts(p.colAbs, ColumnLetters(c), p.rowAbs, NatToStr(r)));
    LettersThenNumber(c);
    NatToStrRoundTrip(r);
  }

  /** A column or row moved below 1 gives `#REF!`. */
  lemma ShiftOffSheet(ref: string, rowOffset: int, colOffset: int)
    requires MatchA1(ref).Some?
    requires var p := MatchA1(ref).value;
      ShiftedColumn(p, colOffset) < 1 || ShiftedRow(p, rowOffset) < 1
    ensures ShiftA1Ref(ref, rowOffset, colOffset) == "#REF!"
  {
  }

  /** Two shifts that stay on the sheet add up to one shift by the summed offsets. */
  lemma ShiftComposes(ref: string, r1: int, c1: int, r2: int, c2: int)
    requires MatchA1(ref).Some?
    requires var p := MatchA1(ref).value;
      1 <= ShiftedColumn(p, c1) <= 18278 && ShiftedRow(p, r1) >= 1
    ensures ShiftA1Ref(ShiftA1Ref(ref, r1, c1), r2, c2) == ShiftA1Ref(ref, r1 + r2, c1 + c2)
  {
    var p := MatchA1(ref).value;
    ShiftedReadsBack(ref, r1, c1);
    var q := A1Parts(p.colAbs, ColumnLetters(ShiftedColumn(p, c1)), p.rowAbs, NatToStr(ShiftedRow(p, r1)));
    PartsCompose(p, q, r1, c1, r2, c2);
  }

  /** Moving the parts a first shift spelled moves them as one shift by the summed offsets. */
  lemma PartsCompose(p: A1Parts, q: A1Parts, r1: int, c1: int, r2: int, c2: int)
    requires AllDigits(p.digits) && 1 <= ShiftedColumn(p, c1) && ShiftedRow(p, r1) >= 1
    requires q == A1Parts(p.colAbs, ColumnLetters(ShiftedColumn(p, c1)), p.rowAbs, NatToStr(ShiftedRow(p, r1)))
    requires ColumnNumber(q.letters) == ShiftedColumn(p, c1) && DigitsValue(q.digits) == ShiftedRow(p, r1)
    ensures ShiftParts(q, r2, c2) == ShiftParts(p, r1 + r2, c1 + c2)
  {
    assert ShiftedColumn(q, c2) == ShiftedColumn(p, c1 + c2);
    assert ShiftedRow(q, r2) == ShiftedRow(p, r1 + r2);
  }

  // ---- the reference scanner of shiftFormulaRefs ----

  /** Index of the first `c` at or after `i`, or `|s|`. */
  function CharFrom(s: string, i: nat, c: char): (k: nat)
    requires i <= |s|
    ensures i <= k <= |s| && (k == |s| || s[k] == c)
    ensures forall j :: i <= j < k ==> s[j] != c
    decreases |s| - i
  {
    if i == |s| || s[i] == c then i else CharFrom(s, i + 1, c)
  }

  /** Index just past the run of `[A-Za-z0-9_]` that starts at `i`. */
  function WordRunEnd(s: string, i: nat): (k: nat)
    requires i <= |s|
    ensures i <= k <= |s| && (k == |s| || !IsWord(s[k]))
    ensures forall j :: i <= j < k ==> IsWord(s[j])
    decreases |s| - i
  {
    if i < |s| && IsWord(s[i]) then WordRunEnd(s, i + 1) else i
  }

  /** A sheet prefix `'[^']+'!` or `[A-Za-z0-9_]+!` at `i`: the index just past the `!`. */
  function SheetPrefixEnd(s: string, i: nat): (e: Option<nat>)
    requires i <= |s|
    ensures e.Some? ==> i < e.value <= |s| && s[e.value - 1] == '!'
  {
    if i < |s| && s[i] == '\'' then
      var k := CharFrom(s, i + 1, '\'');
      if k > i + 1 && k + 1 < |s| && s[k + 1] == '!' then Some(k + 2) else None
    else
      var k := WordRunEnd(s, i);
      if k > i && k < |s| && s[k] == '!' then Some(k + 1) else None
  }

  /** A reference `\$?[A-Z]{1,3}\$?\d+` at `i`, unanchored: the index just past its digits. A
    * run of four or more capitals never matches from its start, since no shorter run is
    * followed by `$` or a digit. */
  function RefEndAt(s: string, i: nat): (e: Option<nat>)
    requires i <= |s|
    ensures e.Some? ==> i + 2 <= e.value <= |s|
  {
    var a := if i < |s| && s[i] == '$' then i + 1 else i;
    var k := UpperRunEnd(s, a);
    var b := if k < |s| && s[k] == '$' then k + 1 else k;
    var e := DigitRunEnd(s, b);
    if k - a < 1 || k - a > 3 || e == b then None else Some(e)
  }

  /** One match of the chunk pattern at `i`: the optional prefix `s[i..prefixEnd]`, the start
    * reference up to `startEnd`, and the end reference after `:` up to `endEnd`. */
  datatype ChunkMatch = ChunkMatch(prefixEnd: nat, startEnd: nat, endEnd: Option<nat>)

  function EndAfter(m: ChunkMatch): nat
  {
    if m.endEnd.Some? then m.endEnd.value else m.startEnd
  }

  /** The leftmost-first match at `i`: with the prefix if the reference follows it, otherwise
    * without; then the `:` and end reference if they follow. */
  function MatchChunkAt(s: string, i: nat): (m: Option<ChunkMatch>)
    requires i <= |s|
    ensures m.Some? ==> i <= m.value.prefixEnd && m.value.prefixEnd + 2 <= m.value.startEnd <= |s|
    ensures m.Some? && m.value.endEnd.Some? ==> m.value.startEnd + 3 <= m.value.endEnd.value <= |s|
  {
    var p: nat :=
      match SheetPrefixEnd(s, i)
      case Some(q) => if RefEndAt(s, q).Some? then q else i
      case None => i;
    match RefEndAt(s, p)
    case None => None
    case Some(e) =>
      var f := if e < |s| && s[e] == ':' then RefEndAt(s, e + 1) else None;
      Some(ChunkMatch(p, e, f))
  }

  /** The replacement of one match: the prefix as it was, then the references rewritten by
    * `shift`. */
  function Replacement(s: string, i: nat, m: ChunkMatch, shift: string -> string): string
    requires i <= m.prefixEnd <= m.startEnd <= |s|
    requires m.endEnd.Some? ==> m.startEnd + 1 <= m.endEnd.value <= |s|
  {
    s[i..m.prefixEnd] + shift(s[m.prefixEnd..m.startEnd]) +
    (match m.endEnd
     case None => ""
     case Some(f) => ":" + shift(s[m.startEnd + 1..f]))
  }

  /** `chunk.replace(refRegex, …)` from `i` on, with `shift` rewriting each reference: each
    * match replaced, left to right, and the search resumed after it; characters where nothing
    * matches are kept. */
  function AdjustFrom(s: string, i: nat, shift: string -> string): string
    requires i <= |s|
    decreases |s| - i
  {
    if i == |s| then ""
    else
      match MatchChunkAt(s, i)
      case None => [s[i]] + AdjustFrom(s, i + 1, shift)
      case Some(m) => Replacement(s, i, m, shift) + AdjustFrom(s, EndAfter(m), shift)
  }

  /** `shiftA1Ref` for the given offsets. */
  function RefShifter(rowOffset: int, colOffset: int): string -> string
  {
    ref => ShiftA1Ref(ref, rowOffset, colOffset)
  }

  /** `adjustChunk`. */
  function AdjustChunk(chunk: string, rowOffset: int, colOffset: int): string
  {
    AdjustFrom(chunk, 0, RefShifter(rowOffset, colOffset))
  }

  /** No capital letter at or after `i`. */
  predicate NoUpperFrom(s: string, i: nat) { forall j :: i <= j < |s| ==> !IsUpper(s[j]) }

  /** Every reference starts with a capital, so from a position with none after it nothing
    * matches. */
  lemma NoMatchWithoutCapitals(s: string, i: nat)
    requires i <= |s| && NoUpperFrom(s, i)
    ensures MatchChunkAt(s, i).None?
  {
    forall q | i <= q <= |s|
      ensures RefEndAt(s, q).None?
    {
    }
  }

  /** Text with no capital letters (lower-case addresses, numbers, operators) is kept. */
  lemma {:induction false} NoCapitalsKept(s: string, i: nat, shift: string -> string)
    requires i <= |s| && NoUpperFrom(s, i)
    ensures AdjustFrom(s, i, shift) == s[i..]
    decreases |s| - i
  {
    if i < |s| {
      NoMatchWithoutCapitals(s, i);
      KeptWhereNothingMatches(s, i, shift);
      NoUpperFromNext(s, i);
      NoCapitalsKept(s, i + 1, shift);
      SliceCons(s, i);
    }
  }

  /** Having no capital from `i` on carries over to `i + 1`. */
  lemma NoUpperFromNext(s: string, i: nat)
    requires i < |s| && NoUpperFrom(s, i)
    ensures NoUpperFrom(s, i + 1)
  {
  }

  /** A non-empty suffix is its first character followed by the rest. */
  lemma SliceCons(s: string, i: nat)
    requires i < |s|
    ensures s[i..] == [s[i]] + s[i + 1..]
  {
  }

  /** Where no reference starts, the character is kept and the search moves on by one. */
  lemma {:induction false} KeptWhereNothingMatches(s: string, i: nat, shift: string -> string)
    requires i < |s| && MatchChunkAt(s, i).None?
    ensures AdjustFrom(s, i, shift) == [s[i]] + AdjustFrom(s, i + 1, shift)
  {
  }

  /** A chunk that is one whole reference is that reference shifted. */
  lemma WholeReferenceChunk(ref: string, rowOffset: int, colOffset: int)
    requires MatchA1(ref).Some?
    ensures AdjustChunk(ref, rowOffset, colOffset) == ShiftA1Ref(ref, rowOffset, colOffset)
  {
    WholeReferenceRewritten(MatchA1(ref).value, RefShifter(rowOffset, colOffset));
  }

  /** The same for any rewriting of the references. */
  lemma WholeReferenceRewritten(p: A1Parts, shift: string -> string)
    requires WellFormed(p)
    ensures AdjustFrom(Spell(p), 0, shift) == shift(Spell(p))
  {
    var ref := Spell(p);
    NoSheetPrefixAt(ref, p);
    assert ref[0..|ref|] == ref;
    SpelledRefEnd(ref, 0, p);
    assert MatchChunkAt(ref, 0) == Some(ChunkMatch(0, |ref|, None));
    assert ref[0..0] == "";
    assert AdjustFrom(ref, |ref|, shift) == "";
  }

  /** A range `start:end` of two references is both ends shifted. */
  lemma RangeChunk(a: string, b: string, rowOffset: int, colOffset: int)
    requires MatchA1(a).Some? && MatchA1(b).Some?
    ensures AdjustChunk(a + ":" + b, rowOffset, colOffset) ==
      ShiftA1Ref(a, rowOffset, colOffset) + ":" + ShiftA1Ref(b, rowOffset, colOffset)
  {
    RangeRewritten(MatchA1(a).value, MatchA1(b).value, RefShifter(rowOffset, colOffset));
  }

  /** The same for any rewriting of the references. */
  lemma RangeRewritten(p: A1Parts, q: A1Parts, shift: string -> string)
    requires WellFormed(p) && WellFormed(q)
    ensures AdjustFrom(Spell(p) + ":" + Spell(q), 0, shift) == shift(Spell(p)) + ":" + shift(Spell(q))
  {
    var s := Spell(p) + ":" + Spell(q);
    RangeMatch(s, p, q);
    OneMatch(s, ChunkMatch(0, |Spell(p)|, Some(|s|)), shift);
    JoinedReplaced(Spell(p), Spell(q), shift);
  }

  /** The replacement of the range match over all of `a:b` is both ends rewritten. */
  lemma JoinedReplaced(a: string, b: string, shift: string -> string)
    ensures Replacement(a + ":" + b, 0, ChunkMatch(0, |a|, Some(|a + ":" + b|)), shift) == shift(a) + ":" + shift(b)
  {
    RangeReplaced(a + ":" + b, |a|, shift);
    JoinSlices(a, b);
  }

  /** The replacement of a range match from the start is both ends rewritten. */
  lemma RangeReplaced(s: string, n: nat, shift: string -> string)
    requires n + 1 <= |s|
    ensures Replacement(s, 0, ChunkMatch(0, n, Some(|s|)), shift) ==
      shift(s[0..n]) + ":" + shift(s[n + 1..|s|])
  {
    var a, b := shift(s[0..n]), shift(s[n + 1..|s|]);
    assert s[0..0] + a == a;
    assert a + (":" + b) == a + ":" + b;
  }

  /** A text one match covers is that match's replacement. */
  lemma OneMatch(s: string, m: ChunkMatch, shift: string -> string)
    requires MatchChunkAt(s, 0) == Some(m) && EndAfter(m) == |s|
    ensures AdjustFrom(s, 0, shift) == Replacement(s, 0, m, shift)
  {
    assert AdjustFrom(s, |s|, shift) == "";
  }

  /** The pieces of `a:b`. */
  lemma JoinSlices(a: string, b: string)
    ensures var s := a + ":" + b;
      s[..|a|] == s[0..|a|] == a && s[|a|] == ':' && s[|a| + 1..] == s[|a| + 1..|s|] == b && s[0..0] == ""
  {
  }

  /** Two spelled references joined by `:` match as one range from the start. */
  lemma RangeMatch(s: string, p: A1Parts, q: A1Parts)
    requires WellFormed(p) && WellFormed(q) && s == Spell(p) + ":" + Spell(q)
    ensures MatchChunkAt(s, 0) == Some(ChunkMatch(0, |Spell(p)|, Some(|s|)))
  {
    var n := |Spell(p)|;
    JoinSlices(Spell(p), Spell(q));
    SpelledRefEnd(s, 0, p);
    SpelledRefEnd(s, n + 1, q);
    NoSheetPrefixAt(s, p);
  }

  /** The spelling of well-formed groups, not followed by a digit, is matched as a reference
    * up to its end. */
  lemma SpelledRefEnd(s: string, i: nat, p: A1Parts)
    requires WellFormed(p)
    requires i + |Spell(p)| <= |s| && s[i..i + |Spell(p)|] == Spell(p)
    requires i + |Spell(p)| == |s| || !IsDigit(s[i + |Spell(p)|])
    ensures RefEndAt(s, i) == Some(i + |Spell(p)|)
  {
    var e := i + |Spell(p)|;
    var a := i + |Dollar(p.colAbs)|;
    var k := a + |p.letters|;
    var b := k + |Dollar(p.rowAbs)|;
    SpelledGroups(s, i, p);
    UpperRunEndAt(s, a, k);
    DigitRunEndAt(s, b, e);
    RefEndFrom(s, i, a, k, b, e);
  }

  /** Where the spelling of `p` sits in `s`, its letters and digits sit at their offsets. */
  lemma SpelledGroups(s: string, i: nat, p: A1Parts)
    requires WellFormed(p)
    requires i + |Spell(p)| <= |s| && s[i..i + |Spell(p)|] == Spell(p)
    ensures var a := i + |Dollar(p.colAbs)|;
      var k := a + |p.letters|;
      var b := k + |Dollar(p.rowAbs)|;
      k < i + |Spell(p)| && s[a..k] == p.letters && s[b..i + |Spell(p)|] == p.digits &&
      (s[i] == '$') == p.colAbs && !IsUpper(s[k]) && (s[k] == '$') == p.rowAbs
  {
    var d1, d2 := Dollar(p.colAbs), Dollar(p.rowAbs);
    var sp := Spell(p);
    var e := i + |sp|;
    var k := i + |d1| + |p.letters|;
    SpellSlices(p);
    SubSlice(s, i, e, |d1|, |d1| + |p.letters|);
    SubSlice(s, i, e, |d1| + |p.letters| + |d2|, |sp|);
    assert s[i..e][0] == s[i] && s[i..e][k - i] == s[k];
  }

  /** `RefEndAt` with each of its steps known. */
  lemma RefEndFrom(s: string, i: nat, a: nat, k: nat, b: nat, e: nat)
    requires i <= a <= k <= b <= e <= |s|
    requires a == (if i < |s| && s[i] == '$' then i + 1 else i) && UpperRunEnd(s, a) == k
    requires b == (if k < |s| && s[k] == '$' then k + 1 else k) && DigitRunEnd(s, b) == e
    requires 1 <= k - a <= 3 && e > b
    ensures RefEndAt(s, i) == Some(e)
  {
  }

  lemma SubSlice(s: string, i: nat, e: nat, x: nat, y: nat)
    requires i <= e <= |s| && x <= y <= e - i
    ensures s[i..e][x..y] == s[i + x..i + y]
  {
    forall j | 0 <= j < y - x
      ensures s[i..e][x..y][j] == s[i + x..i + y][j]
    {
      assert s[i..e][x..y][j] == s[i..e][x + j];
    }
  }

  /** Where the groups sit in the spelling. */
  lemma SpellSlices(p: A1Parts)
    requires WellFormed(p)
    ensures var d1, d2 := |Dollar(p.colAbs)|, |Dollar(p.rowAbs)|;
      var sp := Spell(p);
      var l := d1 + |p.letters|;
      l < |sp| && sp[d1..l] == p.letters && sp[l + d2..] == p.digits &&
      (sp[0] == '$') == p.colAbs && !IsUpper(sp[l]) && (sp[l] == '$') == p.rowAbs
  {
    var d1 := Dollar(p.colAbs);
    var sp := Spell(p);
    var l := |d1| + |p.letters|;
    assert sp == d1 + p.letters + (Dollar(p.rowAbs) + p.digits);
    if !p.colAbs { assert sp[0] == p.letters[0]; }
    if !p.rowAbs { assert sp[l] == p.digits[0]; }
  }

  lemma {:induction false} DigitRunEndAt(s: string, b: nat, e: nat)
    requires b <= e <= |s| && AllDigits(s[b..e]) && (e == |s| || !IsDigit(s[e]))
    ensures DigitRunEnd(s, b) == e
    decreases e - b
  {
    if b < e {
      assert IsDigit(s[b..e][0]);
      assert s[b + 1..e] == s[b..e][1..];
      DigitRunEndAt(s, b + 1, e);
    }
  }

  /** A reference at the start of a text, alone or followed by `:`, never starts a sheet
    * prefix: a `$` is not a word character, and otherwise its word characters run to a `$`
    * or to its end, never to a `!`. */
  lemma NoSheetPrefixAt(s: string, p: A1Parts)
    requires WellFormed(p) && |Spell(p)| <= |s| && s[..|Spell(p)|] == Spell(p)
    requires |Spell(p)| == |s| || s[|Spell(p)|] == ':'
    ensures SheetPrefixEnd(s, 0).None?
  {
    var sp := Spell(p);
    var l := |Dollar(p.colAbs)| + |p.letters|;
    assert s[0] == sp[0];
    if p.colAbs {
      assert sp[0] == '$';
    } else {
      assert sp[0] == p.letters[0];
      var stop := if p.rowAbs then l else |sp|;
      forall j | 0 <= j < stop
        ensures IsWord(s[j])
      {
        assert s[j] == sp[j];
        if j < l {
          assert sp[j] == p.letters[j];
        } else {
          assert sp[j] == p.digits[j - l];
        }
      }
      assert stop == |s| || s[stop] == '$' || s[stop] == ':' by {
        if p.rowAbs { assert s[l] == sp[l] == '$'; }
      }
      WordRunEndAt(s, 0, stop);
    }
  }

  lemma {:induction false} WordRunEndAt(s: string, i: nat, k: nat)
    requires i <= k <= |s| && (forall j :: i <= j < k ==> IsWord(s[j]))
    requires k == |s| || !IsWord(s[k])
    ensures WordRunEnd(s, i) == k
    decreases k - i
  {
    if i < k {
      WordRunEndAt(s, i + 1, k);
    }
  }

  // ---- shiftFormulaRefs ----

  /** The character loop of `shiftFormulaRefs` over the rest `s` of the formula, with the text
    * gathered outside literals in `buffer` and `adjust` rewriting each such chunk: a literal
    * is copied as it is, `""` inside one included. */
  function ShiftRest(s: string, buffer: string, inString: bool, adjust: string -> string): string
    decreases |s|
  {
    if s == [] then (if buffer != "" then adjust(buffer) else "")
    else if s[0] == '"' then
      if inString && |s| > 1 && s[1] == '"' then "\"\"" + ShiftRest(s[2..], buffer, inString, adjust)
      else if !inString then adjust(buffer) + "\"" + ShiftRest(s[1..], "", true, adjust)
      else "\"" + ShiftRest(s[1..], buffer, false, adjust)
    else if inString then [s[0]] + ShiftRest(s[1..], buffer, inString, adjust)
    else ShiftRest(s[1..], buffer + [s[0]], inString, adjust)
  }

  /** `adjustChunk` for the given offsets. */
  function Adjuster(rowOffset: int, colOffset: int): string -> string
  {
    chunk => AdjustChunk(chunk, rowOffset, colOffset)
  }

  /** What `shiftFormulaRefs` returns: the formula itself when both offsets are zero. */
  function ShiftFormula(formula: string, rowOffset: int, colOffset: int): string
  {
    if rowOffset == 0 && colOffset == 0 then formula
    else ShiftRest(formula, "", false, Adjuster(rowOffset, colOffset))
  }

  /** `shiftFormulaRefs`. */
  method ShiftFormulaRefs(formula: string, rowOffset: int, colOffset: int) returns (output: string)
    ensures output == ShiftFormula(formula, rowOffset, colOffset)
  {
    if rowOffset == 0 && colOffset == 0 {
      return formula;
    }
    output := ShiftLoop(formula, Adjuster(rowOffset, colOffset));
  }

  /** The character loop of `shiftFormulaRefs`, with `adjust` rewriting each chunk gathered
    * outside literals. */
  method ShiftLoop(formula: string, adjust: string -> string) returns (output: string)
    ensures output == ShiftRest(formula, "", false, adjust)
  {
    output := "";
    var buffer := "";
    var inString := false;
    var i := 0;
    while i < |formula|
      invariant 0 <= i <= |formula|
      invariant output + ShiftRest(formula[i..], buffer, inString, adjust) == ShiftRest(formula, "", false, adjust)
    {
      var ch := formula[i];
      assert formula[i..][1..] == formula[i + 1..];
      if ch == '"' {
        if inString && i + 1 < |formula| && formula[i + 1] == '"' {
          assert formula[i..][2..] == formula[i + 2..];
          PairKept(output, formula[i..], buffer, adjust);
          output := output + "\"\"";
          i := i + 2;
          continue;
        }
        if !inString {
          Opened(output, formula[i..], buffer, adjust);
          output := output + adjust(buffer);
          buffer := "";
          inString := true;
          output := output + "\"";
        } else {
          Closed(output, formula[i..], buffer, adjust);
          output := output + "\"";
          inString := false;
        }
        i := i + 1;
        continue;
      }
      if inString {
        Copied(output, formula[i..], buffer, adjust);
        output := output + [ch];
      } else {
        buffer := buffer + [ch];
      }
      i := i + 1;
    }
    if buffer != "" {
      output := output + adjust(buffer);
    }
  }

  /** A `""` inside a literal is copied. */
  lemma PairKept(o: string, s: string, buffer: string, adjust: string -> string)
    requires |s| > 1 && s[0] == '"' && s[1] == '"'
    ensures o + "\"\"" + ShiftRest(s[2..], buffer, true, adjust) == o + ShiftRest(s, buffer, true, adjust)
  {
  }

  /** An opening quote flushes the gathered chunk, rewritten, and is copied. */
  lemma Opened(o: string, s: string, buffer: string, adjust: string -> string)
    requires s != [] && s[0] == '"'
    ensures o + adjust(buffer) + "\"" + ShiftRest(s[1..], "", true, adjust) == o + ShiftRest(s, buffer, false, adjust)
  {
  }

  /** A closing quote is copied and ends the literal. */
  lemma Closed(o: string, s: string, buffer: string, adjust: string -> string)
    requires s != [] && s[0] == '"' && !(|s| > 1 && s[1] == '"')
    ensures o + "\"" + ShiftRest(s[1..], buffer, false, adjust) == o + ShiftRest(s, buffer, true, adjust)
  {
  }

  /** Any other character inside a literal is copied. */
  lemma Copied(o: string, s: string, buffer: string, adjust: string -> string)
    requires s != [] && s[0] != '"'
    ensures o + [s[0]] + ShiftRest(s[1..], buffer, true, adjust) == o + ShiftRest(s, buffer, true, adjust)
  {
  }

  /** Text outside literals gathers into one chunk. */
  lemma {:induction false} GatherChunk(a: string, rest: string, buffer: string, adjust: string -> string)
    requires '"' !in a
    ensures ShiftRest(a + rest, buffer, false, adjust) == ShiftRest(rest, buffer + a, false, adjust)
    decreases |a|
  {
    if a != [] {
      assert a[0] in a;
      assert (a + rest)[0] == a[0] && (a + rest)[1..] == a[1..] + rest;
      GatherChunk(a[1..], rest, buffer + [a[0]], adjust);
      assert buffer + [a[0]] + a[1..] == buffer + a;
    } else {
      assert a + rest == rest && buffer + a == buffer;
    }
  }

  /** The body of a string literal: characters other than `"`, and `""` pairs. */
  predicate LiteralBody(lit: string)
    decreases |lit|
  {
    if lit == [] then true
    else if lit[0] != '"' then LiteralBody(lit[1..])
    else |lit| >= 2 && lit[1] == '"' && LiteralBody(lit[2..])
  }

  /** A literal body and its closing quote are copied as they are. */
  lemma {:induction false} LiteralCopied(lit: string, rest: string, buffer: string, adjust: string -> string)
    requires LiteralBody(lit) && (rest == [] || rest[0] != '"')
    ensures ShiftRest(lit + "\"" + rest, buffer, true, adjust) == lit + "\"" + ShiftRest(rest, buffer, false, adjust)
    decreases |lit|
  {
    if lit == [] {
      LiteralClosed(rest, buffer, adjust);
    } else if lit[0] != '"' {
      LiteralCopied(lit[1..], rest, buffer, adjust);
      LiteralCharStep(lit, rest, buffer, adjust);
    } else {
      LiteralCopied(lit[2..], rest, buffer, adjust);
      LiteralPairStep(lit, rest, buffer, adjust);
    }
  }

  /** The closing quote ends the literal. */
  lemma LiteralClosed(rest: string, buffer: string, adjust: string -> string)
    requires rest == [] || rest[0] != '"'
    ensures ShiftRest([] + "\"" + rest, buffer, true, adjust) == [] + "\"" + ShiftRest(rest, buffer, false, adjust)
  {
    var s := [] + "\"" + rest;
    assert s[0] == '"' && s[1..] == rest;
    assert |s| > 1 ==> s[1] != '"';
  }

  /** Inside a literal an ordinary character is copied. */
  lemma LiteralCharStep(lit: string, rest: string, buffer: string, adjust: string -> string)
    requires lit != [] && lit[0] != '"'
    requires ShiftRest(lit[1..] + "\"" + rest, buffer, true, adjust) == lit[1..] + "\"" + ShiftRest(rest, buffer, false, adjust)
    ensures ShiftRest(lit + "\"" + rest, buffer, true, adjust) == lit + "\"" + ShiftRest(rest, buffer, false, adjust)
  {
    var u, x := lit[1..], ShiftRest(rest, buffer, false, adjust);
    Cons3(lit[0], u, "\"", rest);
    LiteralChar(lit[0], u + "\"" + rest, buffer, adjust);
    Cons3(lit[0], u, "\"", x);
    assert [lit[0]] + u == lit;
  }

  /** Inside a literal a doubled quote is copied. */
  lemma LiteralPairStep(lit: string, rest: string, buffer: string, adjust: string -> string)
    requires |lit| >= 2 && lit[0] == '"' && lit[1] == '"'
    requires ShiftRest(lit[2..] + "\"" + rest, buffer, true, adjust) == lit[2..] + "\"" + ShiftRest(rest, buffer, false, adjust)
    ensures ShiftRest(lit + "\"" + rest, buffer, true, adjust) == lit + "\"" + ShiftRest(rest, buffer, false, adjust)
  {
    var u, x := lit[2..], ShiftRest(rest, buffer, false, adjust);
    Prefix3("\"\"", u, "\"", rest);
    LiteralPair(u + "\"" + rest, buffer, adjust);
    Prefix3("\"\"", u, "\"", x);
    assert "\"\"" + u == lit;
  }

  lemma Cons3(c: char, u: string, v: string, w: string)
    ensures [c] + (u + v + w) == [c] + u + v + w
  {
  }

  lemma Prefix3(p: string, u: string, v: string, w: string)
    ensures p + (u + v + w) == p + u + v + w
  {
  }

  /** Inside a literal an ordinary character is copied. */
  lemma LiteralChar(c: char, s: string, buffer: string, adjust: string -> string)
    requires c != '"'
    ensures ShiftRest([c] + s, buffer, true, adjust) == [c] + ShiftRest(s, buffer, true, adjust)
  {
    assert ([c] + s)[1..] == s;
  }

  /** Inside a literal a doubled quote is copied. */
  lemma LiteralPair(s: string, buffer: string, adjust: string -> string)
    ensures ShiftRest("\"\"" + s, buffer, true, adjust) == "\"\"" + ShiftRest(s, buffer, true, adjust)
  {
    assert ("\"\"" + s)[2..] == s;
  }

  /** Without string literals the whole formula is one chunk. */
  lemma NoLiterals(formula: string, rowOffset: int, colOffset: int)
    requires '"' !in formula && formula != [] && !(rowOffset == 0 && colOffset == 0)
    ensures ShiftFormula(formula, rowOffset, colOffset) == AdjustChunk(formula, rowOffset, colOffset)
  {
    GatherChunk(formula, "", "", Adjuster(rowOffset, colOffset));
    assert formula + "" == formula && "" + formula == formula;
  }

  /** A string literal is copied verbatim; only the text before it is adjusted, and the rest
    * is shifted the same way on its own. */
  lemma LiteralsKept(a: string, lit: string, b: string, rowOffset: int, colOffset: int)
    requires '"' !in a && LiteralBody(lit) && (b == [] || b[0] != '"')
    requires !(rowOffset == 0 && colOffset == 0)
    ensures ShiftFormula(a + "\"" + lit + "\"" + b, rowOffset, colOffset) ==
      AdjustChunk(a, rowOffset, colOffset) + "\"" + lit + "\"" + ShiftFormula(b, rowOffset, colOffset)
  {
    var adjust := Adjuster(rowOffset, colOffset);
    LiteralSplits(a, lit, b, adjust);
    assert adjust(a) == AdjustChunk(a, rowOffset, colOffset);
  }

  /** The same for any chunk rewriter. */
  lemma LiteralSplits(a: string, lit: string, b: string, adjust: string -> string)
    requires '"' !in a && LiteralBody(lit) && (b == [] || b[0] != '"')
    ensures ShiftRest(a + "\"" + lit + "\"" + b, "", false, adjust) ==
      adjust(a) + "\"" + lit + "\"" + ShiftRest(b, "", false, adjust)
  {
    var tail := lit + "\"" + b;
    var rest := "\"" + tail;
    assert a + "\"" + lit + "\"" + b == a + rest;
    GatherChunk(a, rest, "", adjust);
    assert "" + a == a;
    assert rest[0] == '"' && rest[1..] == tail;
    assert ShiftRest(rest, a, false, adjust) == adjust(a) + "\"" + ShiftRest(tail, "", true, adjust);
    LiteralCopied(lit, b, "", adjust);
    assert adjust(a) + "\"" + (lit + "\"" + ShiftRest(b, "", false, adjust)) ==
      adjust(a) + "\"" + lit + "\"" + ShiftRest(b, "", false, adjust);
  }

  // ---- deriveSharedFormula and getSharedCacheKey ----

  /** `deriveSharedFormula`; the empty string stands for a missing formula or address. The
    * formula is shifted by the target's offset from the anchor. */
  function DeriveSharedFormula(baseFormula: string, anchorRef: string, targetRef: string): (r: string)
    ensures baseFormula == "" || anchorRef == "" || targetRef == "" ==> r == baseFormula
  {
    if baseFormula == "" || anchorRef == "" || targetRef == "" then baseFormula
    else DeriveAt(baseFormula, ParseCellRef(anchorRef), ParseCellRef(targetRef))
  }

  /** The same once the addresses are read: unchanged when one of them is unreadable. */
  function DeriveAt(baseFormula: string, anchor: Cell, target: Cell): string
  {
    if anchor.row == 0 || anchor.col == 0 || target.row == 0 || target.col == 0 then baseFormula
    else ShiftFormula(baseFormula, target.row - anchor.row, target.col - anchor.col)
  }

  /** At the anchor itself the shared formula is the base formula. */
  lemma DeriveAtAnchor(baseFormula: string, anchorRef: string)
    ensures DeriveSharedFormula(baseFormula, anchorRef, anchorRef) == baseFormula
  {
  }

  /** A shared formula that is one relative reference moves with the target: the derived
    * formula reads back as the cell at the same offset from the reference as the target is
    * from the anchor. */
  lemma DeriveMovesReference(ref: string, anchorRef: string, targetRef: string)
    requires MatchA1(ref).Some? && !MatchA1(ref).value.colAbs && !MatchA1(ref).value.rowAbs
    requires anchorRef != "" && targetRef != ""
    requires var a := ParseCellRef(anchorRef);
      var t := ParseCellRef(targetRef);
      var c := ParseCellRef(ref);
      a.row != 0 && a.col != 0 && t.row != 0 && t.col != 0 &&
      1 <= c.col + t.col - a.col <= 18278 && c.row + t.row - a.row >= 1
    ensures var a := ParseCellRef(anchorRef);
      var t := ParseCellRef(targetRef);
      var c := ParseCellRef(ref);
      ParseCellRef(DeriveSharedFormula(ref, anchorRef, targetRef)) == Cell(c.col + t.col - a.col, c.row + t.row - a.row)
  {
    SpelledIsLong(MatchA1(ref).value);
    MovedReadsBack(ref, ParseCellRef(anchorRef), ParseCellRef(targetRef));
  }

  /** The same for read addresses: the derived formula reads back as the moved cell. */
  lemma MovedReadsBack(ref: string, a: Cell, t: Cell)
    requires MatchA1(ref).Some? && !MatchA1(ref).value.colAbs && !MatchA1(ref).value.rowAbs
    requires var c := ParseCellRef(ref);
      a.row != 0 && a.col != 0 && t.row != 0 && t.col != 0 &&
      1 <= c.col + t.col - a.col <= 18278 && c.row + t.row - a.row >= 1
    ensures var c := ParseCellRef(ref);
      ParseCellRef(DeriveAt(ref, a, t)) == Cell(c.col + t.col - a.col, c.row + t.row - a.row)
  {
    SpellHasNoQuote(MatchA1(ref).value);
    RelativeShifted(ref, t.row - a.row, t.col - a.col);
  }

  /** A spelled reference has at least a letter and a digit. */
  lemma SpelledIsLong(p: A1Parts)
    requires WellFormed(p)
    ensures |Spell(p)| >= 2
  {
  }

  /** A relative reference shifted as a formula, by any offsets that keep it on the sheet,
    * reads back as the moved cell. */
  lemma RelativeShifted(ref: string, rowOffset: int, colOffset: int)
    requires MatchA1(ref).Some? && !MatchA1(ref).value.colAbs && !MatchA1(ref).value.rowAbs
    requires var c := ParseCellRef(ref);
      1 <= c.col + colOffset <= 18278 && c.row + rowOffset >= 1
    ensures var c := ParseCellRef(ref);
      ParseCellRef(ShiftFormula(ref, rowOffset, colOffset)) == Cell(c.col + colOffset, c.row + rowOffset)
  {
    if !(rowOffset == 0 && colOffset == 0) {
      RelativeMovesBy(ref, rowOffset, colOffset);
    }
  }

  /** A relative reference shifted as a formula reads back as the moved cell. */
  lemma RelativeMovesBy(ref: string, rowOffset: int, colOffset: int)
    requires MatchA1(ref).Some? && !MatchA1(ref).value.colAbs && !MatchA1(ref).value.rowAbs
    requires !(rowOffset == 0 && colOffset == 0)
    requires 1 <= ParseCellRef(ref).col + colOffset <= 18278 && ParseCellRef(ref).row + rowOffset >= 1
    ensures ParseCellRef(ShiftFormula(ref, rowOffset, colOffset)) ==
      Cell(ParseCellRef(ref).col + colOffset, ParseCellRef(ref).row + rowOffset)
  {
    RelativeReadsAsParts(ref);
    ReferenceFormula(ref, rowOffset, colOffset);
    MovedRelativeReadsBack(ref, rowOffset, colOffset);
  }

  /** With all three present and both addresses readable, the derived formula is the base
    * formula shifted by the offset. */
  lemma DeriveIsShift(baseFormula: string, anchorRef: string, targetRef: string)
    requires baseFormula != "" && anchorRef != "" && targetRef != ""
    requires var a := ParseCellRef(anchorRef);
      var t := ParseCellRef(targetRef);
      a.row != 0 && a.col != 0 && t.row != 0 && t.col != 0
    ensures var a := ParseCellRef(anchorRef);
      var t := ParseCellRef(targetRef);
      DeriveSharedFormula(baseFormula, anchorRef, targetRef) == ShiftFormula(baseFormula, t.row - a.row, t.col - a.col)
  {
  }

  /** A relative reference reads as the column of its letters and the row of its digits. */
  lemma RelativeReadsAsParts(ref: string)
    requires MatchA1(ref).Some? && !MatchA1(ref).value.colAbs && !MatchA1(ref).value.rowAbs
    ensures var p := MatchA1(ref).value;
      ParseCellRef(ref) == Cell(ColumnNumber(p.letters), DigitsValue(p.digits))
  {
    var p := MatchA1(ref).value;
    assert ref == p.letters + p.digits;
    RelativeCell(p.letters, p.digits);
  }

  /** A relative reference moved on the sheet reads back as the moved cell. */
  lemma MovedRelativeReadsBack(ref: string, rowOffset: int, colOffset: int)
    requires MatchA1(ref).Some? && !MatchA1(ref).value.colAbs && !MatchA1(ref).value.rowAbs
    requires var p := MatchA1(ref).value;
      1 <= ShiftedColumn(p, colOffset) <= 18278 && ShiftedRow(p, rowOffset) >= 1
    ensures var p := MatchA1(ref).value;
      ParseCellRef(ShiftA1Ref(ref, rowOffset, colOffset)) ==
        Cell(ShiftedColumn(p, colOffset), ShiftedRow(p, rowOffset))
  {
    ShiftedReadsBack(ref, rowOffset, colOffset);
    RelativeReadsAsParts(ShiftA1Ref(ref, rowOffset, colOffset));
  }

  /** A formula that is one reference is shifted as that reference. */
  lemma ReferenceFormula(ref: string, rowOffset: int, colOffset: int)
    requires MatchA1(ref).Some? && !(rowOffset == 0 && colOffset == 0)
    ensures ShiftFormula(ref, rowOffset, colOffset) == ShiftA1Ref(ref, rowOffset, colOffset)
  {
    SpellHasNoQuote(MatchA1(ref).value);
    NoLiterals(ref, rowOffset, colOffset);
    WholeReferenceChunk(ref, rowOffset, colOffset);
  }

  /** A reference is not empty and holds no `"`. */
  lemma SpellHasNoQuote(p: A1Parts)
    requires WellFormed(p)
    ensures Spell(p) != [] && '"' !in Spell(p)
  {
    var s := Spell(p);
    var d1 := Dollar(p.colAbs);
    assert s == d1 + p.letters + (Dollar(p.rowAbs) + p.digits);
    forall j | 0 <= j < |s| ensures s[j] != '"' {
      if j < |d1| {
      } else if j < |d1| + |p.letters| {
        assert s[j] == p.letters[j - |d1|];
      } else {
        assert s[j] == (Dollar(p.rowAbs) + p.digits)[j - |d1| - |p.letters|];
      }
    }
  }

  /** The parts of a shared formula's record the cache key needs; the empty address stands for
    * a missing one. */
  datatype SharedInfo = SharedInfo(si: string, anchorRef: string)

  /** `getSharedCacheKey`: sheet, shared index and the target's offset from the anchor; `None`
    * (null) without a record, an anchor, or readable addresses. */
  function GetSharedCacheKey(sheetName: string, info: Option<SharedInfo>, targetRef: string): (k: Option<string>)
    ensures info.None? || info.value.anchorRef == "" ==> k.None?
  {
    if info.None? || info.value.anchorRef == "" then None
    else KeyFor(sheetName, info.value.si, ParseCellRef(info.value.anchorRef), ParseCellRef(targetRef))
  }

  /** The key for a target cell of a shared formula whose anchor is `anchor`, once both
    * addresses are read. */
  function KeyFor(sheetName: string, si: string, anchor: Cell, target: Cell): (k: Option<string>)
    ensures k.None? <==> anchor.row == 0 || anchor.col == 0 || target.row == 0 || target.col == 0
  {
    if anchor.row == 0 || anchor.col == 0 || target.row == 0 || target.col == 0 then None
    else Some(KeyText(sheetName, si, target.row - anchor.row, target.col - anchor.col))
  }

  /** `${sheetName}::${si}::${dr},${dc}`. */
  function KeyText(sheetName: string, si: string, dr: int, dc: int): string
  {
    sheetName + "::" + si + "::" + IntToStr(dr) + "," + IntToStr(dc)
  }

  /** Two readable targets of one shared formula get the same key exactly when they sit at the
    * same offset from the anchor, whatever the anchors. */
  lemma KeyIffOffset(sheetName: string, si: string, a1: Cell, t1: Cell, a2: Cell, t2: Cell)
    requires KeyFor(sheetName, si, a1, t1).Some? && KeyFor(sheetName, si, a2, t2).Some?
    ensures KeyFor(sheetName, si, a1, t1) == KeyFor(sheetName, si, a2, t2) <==>
      t1.row - a1.row == t2.row - a2.row && t1.col - a1.col == t2.col - a2.col
  {
    if KeyFor(sheetName, si, a1, t1) == KeyFor(sheetName, si, a2, t2) {
      KeyTextInjective(sheetName, si, t1.row - a1.row, t1.col - a1.col, t2.row - a2.row, t2.col - a2.col);
    }
  }

  /** The key text determines the offsets. */
  lemma KeyTextInjective(sheetName: string, si: string, dr1: int, dc1: int, dr2: int, dc2: int)
    requires KeyText(sheetName, si, dr1, dc1) == KeyText(sheetName, si, dr2, dc2)
    ensures dr1 == dr2 && dc1 == dc2
  {
    var head := sheetName + "::" + si + "::";
    var r1, c1 := IntToStr(dr1), IntToStr(dc1);
    var r2, c2 := IntToStr(dr2), IntToStr(dc2);
    var k1, k2 := KeyText(sheetName, si, dr1, dc1), KeyText(sheetName, si, dr2, dc2);
    assert k1 == head + (r1 + "," + c1);
    assert k2 == head + (r2 + "," + c2);
    assert k1[|head|..] == r1 + "," + c1;
    assert k2[|head|..] == r2 + "," + c2;
    NoCommaInInt(dr1);
    NoCommaInInt(dr2);
    CommaSplit(r1, c1, r2, c2);
    IntToStrInjective(dr1, dr2);
    IntToStrInjective(dc1, dc2);
  }

  /** For one record, targets get the same key exactly when they read as the same cell. */
  lemma KeyIffSameTarget(sheetName: string, info: SharedInfo, t1: string, t2: string)
    requires GetSharedCacheKey(sheetName, Some(info), t1).Some? && GetSharedCacheKey(sheetName, Some(info), t2).Some?
    ensures GetSharedCacheKey(sheetName, Some(info), t1) == GetSharedCacheKey(sheetName, Some(info), t2) <==>
      ParseCellRef(t1) == ParseCellRef(t2)
  {
    var a := ParseCellRef(info.anchorRef);
    KeyIffOffset(sheetName, info.si, a, ParseCellRef(t1), a, ParseCellRef(t2));
  }

  /** An integer's decimal spelling has no comma. */
  lemma NoCommaInInt(i: int)
    ensures ',' !in IntToStr(i)
  {
    var s := IntToStr(i);
    var n: nat := if i < 0 then -i else i;
    var body := NatToStr(n);
    forall j | 0 <= j < |s| ensures s[j] != ',' {
      if i < 0 && j > 0 { assert s[j] == body[j - 1]; }
      else if i >= 0 { assert s[j] == body[j]; }
    }
  }

  /** The comma after `a` sits at `|a|`; before it stand the characters of `a`. */
  lemma CommaAt(a: string, b: string, c: string)
    ensures (a + "," + b)[|a|] == ','
    ensures |c| < |a| ==> (a + "," + b)[|c|] == a[|c|] && a[|c|] in a
  {
  }

  /** Text split at a comma neither half contains. */
  lemma CommaSplit(a: string, b: string, c: string, d: string)
    requires ',' !in a && ',' !in c && a + "," + b == c + "," + d
    ensures a == c && b == d
  {
    var s := a + "," + b;
    CommaAt(a, b, c);
    CommaAt(c, d, a);
    if |a| < |c| {
      assert false;
    } else if |c| < |a| {
      assert false;
    }
    assert s[..|a|] == a && (c + "," + d)[..|c|] == c;
    assert s[|a| + 1..] == b && (c + "," + d)[|c| + 1..] == d;
  }
}
