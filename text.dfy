/** Character classes and string helpers shared by the whole engine.
  * Strings are sequences of characters (`char`), not of UTF-16 code units; case mapping is
  * ASCII only. */
module Text {

  /** The characters matched by `\s` and removed by `String.prototype.trim`. */
  predicate IsSpace(c: char)
  {
    c == '\t' || c == '\n' || c == '\U{000B}' || c == '\U{000C}' || c == '\r' || c == ' ' ||
    c == '\U{00A0}' || c == '\U{1680}' || ('\U{2000}' <= c <= '\U{200A}') || c == '\U{2028}' ||
    c == '\U{2029}' || c == '\U{202F}' || c == '\U{205F}' || c == '\U{3000}' || c == '\U{FEFF}'
  }

  /** Line terminators: the characters a regular-expression `.` does not match. */
  predicate IsLineTerminator(c: char)
  {
    c == '\n' || c == '\r' || c == '\U{2028}' || c == '\U{2029}'
  }

  predicate IsDigit(c: char) { '0' <= c <= '9' }
  predicate IsUpper(c: char) { 'A' <= c <= 'Z' }
  predicate IsLower(c: char) { 'a' <= c <= 'z' }
  predicate IsLetter(c: char) { IsUpper(c) || IsLower(c) }

  /** `[A-Za-z0-9_$]`, the characters of an identifier after its first one. */
  predicate IsWordOrDollar(c: char) { IsLetter(c) || IsDigit(c) || c == '_' || c == '$' }

  /** `[A-Za-z0-9_]`. */
  predicate IsWord(c: char) { IsLetter(c) || IsDigit(c) || c == '_' }

  function UpperChar(c: char): (u: char)
    ensures IsLower(c) ==> IsUpper(u)
    ensures !IsLower(c) ==> u == c
  {
    if IsLower(c) then (c as int - 32) as char else c
  }

  function LowerChar(c: char): (l: char)
    ensures IsUpper(c) ==> IsLower(l)
    ensures !IsUpper(c) ==> l == c
  {
    if IsUpper(c) then (c as int + 32) as char else c
  }

  /** `toUpperCase` restricted to ASCII letters. */
  function Upper(s: string): (u: string)
    ensures |u| == |s|
    ensures forall i :: 0 <= i < |s| ==> u[i] == UpperChar(s[i])
  {
    seq(|s|, i requires 0 <= i < |s| => UpperChar(s[i]))
  }

  /** `toLowerCase` restricted to ASCII letters. */
  function Lower(s: string): (l: string)
    ensures |l| == |s|
    ensures forall i :: 0 <= i < |s| ==> l[i] == LowerChar(s[i])
  {
    seq(|s|, i requires 0 <= i < |s| => LowerChar(s[i]))
  }

  predicate NoLower(s: string) { forall i :: 0 <= i < |s| ==> !IsLower(s[i]) }

  lemma UpperHasNoLower(s: string)
    ensures NoLower(Upper(s))
  {
  }

  /** Upper-casing twice is upper-casing once. */
  lemma UpperIdempotent(s: string)
    ensures Upper(Upper(s)) == Upper(s)
  {
    assert forall i :: 0 <= i < |s| ==> Upper(Upper(s))[i] == Upper(s)[i];
  }

  /** Lower-casing ignores an earlier upper-casing. */
  lemma LowerOfUpper(s: string)
    ensures Lower(Upper(s)) == Lower(s)
  {
    assert forall i :: 0 <= i < |s| ==> Lower(Upper(s))[i] == Lower(s)[i];
  }

  /** Lower-casing twice is lower-casing once. */
  lemma LowerIdempotent(s: string)
    ensures Lower(Lower(s)) == Lower(s)
  {
    assert forall i :: 0 <= i < |s| ==> Lower(Lower(s))[i] == Lower(s)[i];
  }

  /** Drops the white space at the front. */
  function TrimStart(s: string): (t: string)
    ensures |t| <= |s|
    ensures t == [] || !IsSpace(t[0])
  {
    if s != [] && IsSpace(s[0]) then TrimStart(s[1..]) else s
  }

  /** Drops the white space at the end. */
  function TrimEnd(s: string): (t: string)
    ensures |t| <= |s|
    ensures t == [] || !IsSpace(t[|t| - 1])
  {
    if s != [] && IsSpace(s[|s| - 1]) then TrimEnd(s[..|s| - 1]) else s
  }

  /** What `TrimStart` keeps is a suffix, and what it drops is white space. */
  lemma {:induction false} TrimStartKeeps(s: string)
    ensures var t := TrimStart(s);
      t == s[|s| - |t|..] &&
      forall i {:trigger IsSpace(s[i])} :: 0 <= i < |s| - |t| ==> IsSpace(s[i])
  {
    if s != [] && IsSpace(s[0]) {
      TrimStartKeeps(s[1..]);
      assert forall i :: 1 <= i < |s| ==> s[1..][i - 1] == s[i];
    }
  }

  /** What `TrimEnd` keeps is a prefix, and what it drops is white space. */
  lemma {:induction false} TrimEndKeeps(s: string)
    ensures var t := TrimEnd(s);
      t == s[..|t|] &&
      forall i {:trigger IsSpace(s[i])} :: |t| <= i < |s| ==> IsSpace(s[i])
  {
    if s != [] && IsSpace(s[|s| - 1]) {
      TrimEndKeeps(s[..|s| - 1]);
      assert forall i :: 0 <= i < |s| - 1 ==> s[..|s| - 1][i] == s[i];
    }
  }

  /** `String.prototype.trim`. */
  function Trim(s: string): string
  {
    TrimEnd(TrimStart(s))
  }

  lemma TrimStartFixes(s: string)
    requires s == [] || !IsSpace(s[0])
    ensures TrimStart(s) == s
  {
  }

  lemma TrimFixes(s: string)
    requires s != [] && !IsSpace(s[0]) && !IsSpace(s[|s| - 1])
    ensures Trim(s) == s
  {
    TrimStartFixes(s);
  }

  predicate AllSpace(s: string) { forall i :: 0 <= i < |s| ==> IsSpace(s[i]) }

  lemma TrimEmptyIffAllSpace(s: string)
    ensures Trim(s) == [] <==> AllSpace(s)
  {
    var a := TrimStart(s);
    TrimStartKeeps(s);
    TrimEndKeeps(a);
    if Trim(s) == [] {
      assert a == [];
    } else {
      assert a != [] && !IsSpace(a[0]);
      assert s[|s| - |a|] == a[0];
    }
  }

  predicate StartsWith(s: string, p: string) { |p| <= |s| && s[..|p|] == p }

  /** Does `needle` occur in `hay` at position `i`? */
  predicate OccursAt(hay: string, needle: string, i: nat)
  {
    i + |needle| <= |hay| && hay[i..i + |needle|] == needle
  }

  /** The first position at or after `from` where `needle` occurs, or -1
    * (`String.prototype.indexOf` with a start position already clamped to `0..|hay|`). */
  function IndexFrom(hay: string, needle: string, from: nat): (r: int)
    requires from <= |hay|
    decreases |hay| - from
    ensures r == -1 || (from <= r <= |hay| && OccursAt(hay, needle, r))
    ensures r == -1 ==> forall k :: from <= k <= |hay| ==> !OccursAt(hay, needle, k)
    ensures r != -1 ==> forall k :: from <= k < r ==> !OccursAt(hay, needle, k)
  {
    if OccursAt(hay, needle, from) then from
    else if from == |hay| then -1
    else IndexFrom(hay, needle, from + 1)
  }

  /** Code-unit lexicographic order, as used by `<` and `>` on strings. */
  predicate StrLess(a: string, b: string)
    decreases |a|
  {
    if a == [] then b != []
    else if b == [] then false
    else if a[0] != b[0] then a[0] < b[0]
    else StrLess(a[1..], b[1..])
  }

  /** Three-way comparison in code-unit order: -1, 0 or 1. */
  function StrCompare(a: string, b: string): (r: int)
    ensures r == 0 <==> a == b
    ensures r == -1 <==> StrLess(a, b)
    ensures r == 1 <==> StrLess(b, a)
    decreases |a|
  {
    if a == [] then (if b == [] then 0 else -1)
    else if b == [] then 1
    else if a[0] != b[0] then (if a[0] < b[0] then -1 else 1)
    else
      assert a == [a[0]] + a[1..] && b == [b[0]] + b[1..];
      StrCompare(a[1..], b[1..])
  }

  /** The comparison takes only the values -1, 0 and 1. */
  lemma {:induction false} StrCompareIsThreeWay(a: string, b: string)
    ensures -1 <= StrCompare(a, b) <= 1
    decreases |a|
  {
    if a != [] && b != [] && a[0] == b[0] {
      StrCompareIsThreeWay(a[1..], b[1..]);
    }
  }

  function Join(parts: seq<string>, sep: string): string
  {
    if parts == [] then []
    else if |parts| == 1 then parts[0]
    else parts[0] + sep + Join(parts[1..], sep)
  }

  function Concat(parts: seq<string>): string
  {
    if parts == [] then [] else parts[0] + Concat(parts[1..])
  }

  /** `s.split(sep).join(rep)` for a non-empty `sep`: every non-overlapping occurrence,
    * scanned left to right, replaced. */
  function ReplaceAll(s: string, sep: string, rep: string): string
    requires sep != []
    decreases |s|
  {
    var i := IndexFrom(s, sep, 0);
    if i < 0 then s else s[..i] + rep + ReplaceAll(s[i + |sep|..], sep, rep)
  }

  lemma {:induction false} ReplaceAllIdentity(s: string, sep: string)
    requires sep != []
    ensures ReplaceAll(s, sep, sep) == s
    decreases |s|
  {
    var i := IndexFrom(s, sep, 0);
    if i >= 0 {
      ReplaceAllIdentity(s[i + |sep|..], sep);
      assert s == s[..i] + sep + s[i + |sep|..];
    }
  }

  /** Remove the first occurrence of `c`, as `s.replace(c, '')` does. */
  function RemoveFirst(s: string, c: char): (t: string)
    ensures c in s ==> |t| == |s| - 1
    ensures c !in s ==> t == s
  {
    if s == [] then []
    else if s[0] == c then s[1..]
    else [s[0]] + RemoveFirst(s[1..], c)
  }

  /** Remove every `$`. */
  function RemoveDollars(s: string): (t: string)
    ensures |t| <= |s|
  {
    if s == [] then [] else (if s[0] == '$' then [] else [s[0]]) + RemoveDollars(s[1..])
  }

  /** Removing `$` leaves no `$`. */
  lemma {:induction false} RemoveDollarsRemoves(s: string)
    ensures '$' !in RemoveDollars(s)
  {
    if s != [] {
      RemoveDollarsRemoves(s[1..]);
    }
  }

  lemma RemoveDollarsFixes(s: string)
    requires '$' !in s
    ensures RemoveDollars(s) == s
  {
  }

  /** Removing `$` keeps every other character, in order: the text up to the first `$` is
    * kept whole and the rest is treated the same way. */
  lemma {:induction false} RemoveDollarsSplice(a: string, b: string)
    requires '$' !in a
    ensures RemoveDollars(a + "$" + b) == a + RemoveDollars(b)
  {
    var s := a + "$" + b;
    if a == [] {
      assert s == ['$'] + b && s[1..] == b;
    } else {
      assert s[0] == a[0] && s[1..] == a[1..] + "$" + b;
      RemoveDollarsSplice(a[1..], b);
      assert [a[0]] + (a[1..] + RemoveDollars(b)) == a + RemoveDollars(b);
    }
  }

  /** The first index of `c` in `s`, or `|s|` when there is none. */
  function CharIndex(s: string, c: char): (i: nat)
    ensures i <= |s|
    ensures i < |s| ==> s[i] == c
    ensures forall k :: 0 <= k < i ==> s[k] != c
  {
    if s == [] || s[0] == c then 0 else 1 + CharIndex(s[1..], c)
  }

  /** `s.split(c)` for a one-character separator. */
  function Split(s: string, c: char): (parts: seq<string>)
    ensures |parts| >= 1
    ensures |parts| == 1 <==> c !in s
    ensures c !in s ==> parts == [s]
    decreases |s|
  {
    var i := CharIndex(s, c);
    if i == |s| then [s] else [s[..i]] + Split(s[i + 1..], c)
  }

  /** Splitting at the first separator: the text before it is the first part. */
  lemma SplitAtFirst(a: string, c: char, b: string)
    requires c !in a
    ensures Split(a + [c] + b, c) == [a] + Split(b, c)
  {
    var s := a + [c] + b;
    assert s[|a|] == c;
    assert forall k :: 0 <= k < |a| ==> s[k] == a[k];
    assert CharIndex(s, c) == |a|;
    assert s[..|a|] == a && s[|a| + 1..] == b;
  }

  lemma JoinCons(a: string, rest: seq<string>, sep: string)
    requires rest != []
    ensures Join([a] + rest, sep) == a + sep + Join(rest, sep)
  {
    assert ([a] + rest)[1..] == rest;
  }

  lemma {:induction false} SplitJoin(s: string, c: char)
    ensures Join(Split(s, c), [c]) == s
    decreases |s|
  {
    var i := CharIndex(s, c);
    if i < |s| {
      var tail := s[i + 1..];
      var rest := Split(tail, c);
      SplitJoin(tail, c);
      JoinCons(s[..i], rest, [c]);
      Around(s, i);
      calc {
        Join(Split(s, c), [c]);
        { assert Split(s, c) == [s[..i]] + rest; }
        Join([s[..i]] + rest, [c]);
        s[..i] + [c] + Join(rest, [c]);
        s[..i] + [s[i]] + tail;
      }
    }
  }

  /** A string is the text before position `i`, the character at `i`, and the text after. */
  lemma Around(s: string, i: nat)
    requires i < |s|
    ensures s[..i] + [s[i]] + s[i + 1..] == s
  {
  }

  lemma SplitParts(s: string, c: char)
    ensures forall k :: 0 <= k < |Split(s, c)| ==> c !in Split(s, c)[k]
    decreases |s|
  {
    var i := CharIndex(s, c);
    if i < |s| {
      SplitParts(s[i + 1..], c);
    }
  }

  /** A character absent from `s` is absent from every part of `s.split(c)`. */
  lemma SplitAvoids(s: string, c: char, d: char)
    requires d !in s
    ensures forall k :: 0 <= k < |Split(s, c)| ==> d !in Split(s, c)[k]
    decreases |s|
  {
    var i := CharIndex(s, c);
    if i < |s| {
      assert d !in s[i + 1..];
      SplitAvoids(s[i + 1..], c, d);
    }
  }
}
