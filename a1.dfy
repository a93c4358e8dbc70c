/** A1 column letters: bijective base 26 over `A`..`Z` (A = 1, Z = 26, AA = 27). */
module A1 {
  import opened Text
  import opened Numbers

  /** `colNum = colNum * 26 + (code - 64)` over the characters, most significant first. */
  function ColumnNumber(letters: string): int
  {
    if letters == [] then 0
    else ColumnNumber(letters[..|letters| - 1]) * 26 + (letters[|letters| - 1] as int - 64)
  }

  predicate AllUpper(s: string) { forall i :: 0 <= i < |s| ==> IsUpper(s[i]) }

  /** The letters of column `n`; empty for `n <= 0`. */
  function ColumnLetters(n: int): (s: string)
    ensures AllUpper(s)
    ensures s == [] <==> n <= 0
    decreases if n > 0 then n else 0
  {
    if n <= 0 then [] else ColumnLetters((n - 1) / 26) + [(65 + (n - 1) % 26) as char]
  }

  /** `A1` name of column `col`, row `row`. */
  function CellName(col: int, row: nat): string
  {
    ColumnLetters(col) + NatToStr(row)
  }

  lemma {:induction false} LettersThenNumber(n: int)
    ensures ColumnNumber(ColumnLetters(n)) == (if n > 0 then n else 0)
    decreases if n > 0 then n else 0
  {
    if n > 0 {
      var s := ColumnLetters(n);
      LettersThenNumber((n - 1) / 26);
      assert s[..|s| - 1] == ColumnLetters((n - 1) / 26);
      assert s[|s| - 1] as int - 64 == (n - 1) % 26 + 1;
    }
  }

  lemma {:induction false} NumberThenLetters(s: string)
    requires AllUpper(s)
    ensures ColumnLetters(ColumnNumber(s)) == s
    decreases |s|
  {
    if s != [] {
      var p := s[..|s| - 1];
      var d := s[|s| - 1] as int - 64;
      NumberThenLetters(p);
      ColumnNumberNonNegative(p);
      var n := ColumnNumber(p) * 26 + d;
      assert 1 <= d <= 26;
      assert (n - 1) / 26 == ColumnNumber(p);
      assert (n - 1) % 26 == d - 1;
      assert s == p + [s[|s| - 1]];
    }
  }

  lemma {:induction false} ColumnNumberNonNegative(s: string)
    requires AllUpper(s)
    ensures ColumnNumber(s) >= 0
    ensures s != [] ==> ColumnNumber(s) >= 1
    decreases |s|
  {
    if s != [] {
      ColumnNumberNonNegative(s[..|s| - 1]);
    }
  }

  lemma ColumnExamples()
    ensures ColumnNumber("A") == 1 && ColumnNumber("Z") == 26 && ColumnNumber("AA") == 27
    ensures ColumnLetters(1) == "A" && ColumnLetters(26) == "Z" && ColumnLetters(27) == "AA"
  {
    assert "AA"[..1] == "A";
  }
}
