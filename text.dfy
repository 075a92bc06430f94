/**
 * The JavaScript string operations the task store relies on: `trim`, `toLowerCase`
 * and `includes`, on strings as sequences of characters.
 */
module Text {

  /** The characters ECMAScript's `String.prototype.trim` strips: the WhiteSpace
      code points (tab, vertical tab, form feed, space, no-break space, the
      byte-order mark and every space separator of category Zs) and the
      LineTerminator code points (line feed, carriage return, U+2028, U+2029). */
  predicate IsWhitespace(c: char) {
    || c == '\t' || c == '\U{B}' || c == '\U{C}' || c == ' ' || c == '\U{A0}' || c == '\U{FEFF}'
    || c == '\U{1680}' || ('\U{2000}' <= c <= '\U{200A}') || c == '\U{202F}' || c == '\U{205F}' || c == '\U{3000}'
    || c == '\n' || c == '\r' || c == '\U{2028}' || c == '\U{2029}'
  }

  predicate AllWhitespace(s: string) {
    forall i :: 0 <= i < |s| ==> IsWhitespace(s[i])
  }

  /** The position of the first non-whitespace character of `s` at or after
      `i`, or `|s|` when there is none. */
  function StartOfText(s: string, i: nat): (k: nat)
    requires i <= |s|
    ensures i <= k <= |s|
    decreases |s| - i
  {
    if i < |s| && IsWhitespace(s[i]) then StartOfText(s, i + 1) else i
  }

  /** Everything `StartOfText` skips is whitespace, and it stops at a character
      that is not. */
  lemma {:induction false} StartOfTextSkipsWhitespace(s: string, i: nat)
    requires i <= |s|
    ensures forall k :: i <= k < StartOfText(s, i) ==> IsWhitespace(s[k])
    ensures StartOfText(s, i) < |s| ==> !IsWhitespace(s[StartOfText(s, i)])
    decreases |s| - i
  {
    if i < |s| && IsWhitespace(s[i]) {
      StartOfTextSkipsWhitespace(s, i + 1);
    }
  }

  /** The position just past the last non-whitespace character of `s` before
      `j`, not going below `lo`. */
  function EndOfText(s: string, lo: nat, j: nat): (k: nat)
    requires lo <= j <= |s|
    ensures lo <= k <= j
    decreases j
  {
    if lo < j && IsWhitespace(s[j - 1]) then EndOfText(s, lo, j - 1) else j
  }

  /** Everything `EndOfText` skips is whitespace, and it stops after a character
      that is not (unless it reaches `lo`). */
  lemma {:induction false} EndOfTextSkipsWhitespace(s: string, lo: nat, j: nat)
    requires lo <= j <= |s|
    ensures forall k :: EndOfText(s, lo, j) <= k < j ==> IsWhitespace(s[k])
    ensures lo < EndOfText(s, lo, j) ==> !IsWhitespace(s[EndOfText(s, lo, j) - 1])
    decreases j
  {
    if lo < j && IsWhitespace(s[j - 1]) {
      EndOfTextSkipsWhitespace(s, lo, j - 1);
    }
  }

  /** `r` is the slice `s[i..i + |r|]`, everything around it is whitespace, and it
      neither starts nor ends with whitespace: an independent description of what
      trimming `s` yields. */
  predicate IsTrimAt(s: string, r: string, i: int) {
    && 0 <= i && i + |r| <= |s|
    && r == s[i..i + |r|]
    && AllWhitespace(s[..i])
    && AllWhitespace(s[i + |r|..])
    && (r != [] ==> !IsWhitespace(r[0]) && !IsWhitespace(r[|r| - 1]))
  }

  ghost predicate IsTrimOf(s: string, r: string) {
    exists i :: IsTrimAt(s, r, i)
  }

  /** JavaScript's `s.trim()`: leading and trailing whitespace removed. What it
      yields is stated by `TrimIsTrimOf`. */
  function Trim(s: string): (r: string)
    ensures |r| <= |s|
  {
    var i := StartOfText(s, 0);
    s[i..EndOfText(s, i, |s|)]
  }

  /** `Trim(s)` is a slice of `s`, surrounded by whitespace, that neither starts
      nor ends with whitespace. */
  lemma TrimIsTrimOf(s: string)
    ensures IsTrimOf(s, Trim(s))
  {
    TrimIsTrimAt(s);
  }

  /** The position of `Trim(s)` in `s` is the length of its leading whitespace. */
  lemma TrimIsTrimAt(s: string)
    ensures IsTrimAt(s, Trim(s), StartOfText(s, 0))
  {
    var i := StartOfText(s, 0);
    var e := EndOfText(s, i, |s|);
    StartOfTextSkipsWhitespace(s, 0);
    EndOfTextSkipsWhitespace(s, i, |s|);
    TrimOfParts(s, i, e);
  }

  /** A slice `s[i..e]` is a trim of `s` when everything before `i` and from `e`
      on is whitespace, and the slice, if not empty, starts and ends with
      characters that are not. */
  lemma TrimOfParts(s: string, i: nat, e: nat)
    requires i <= e <= |s|
    requires forall k :: 0 <= k < i ==> IsWhitespace(s[k])
    requires forall k :: e <= k < |s| ==> IsWhitespace(s[k])
    requires i < e ==> !IsWhitespace(s[i]) && !IsWhitespace(s[e - 1])
    ensures IsTrimAt(s, s[i..e], i)
  {
    var r := s[i..e];
    assert AllWhitespace(s[..i]) by {
      forall k | 0 <= k < i ensures IsWhitespace(s[..i][k]) {
        assert s[..i][k] == s[k];
      }
    }
    assert AllWhitespace(s[e..]) by {
      forall k | 0 <= k < |s| - e ensures IsWhitespace(s[e..][k]) {
        assert s[e..][k] == s[e + k];
      }
    }
    assert r != [] ==> r[0] == s[i] && r[|r| - 1] == s[e - 1];
  }

  /** Trimming is determined by its description: any slice of `s` that is
      surrounded by whitespace and neither starts nor ends with whitespace is
      `Trim(s)`. */
  lemma TrimUnique(s: string, r1: string, i1: int, r2: string, i2: int)
    requires IsTrimAt(s, r1, i1) && IsTrimAt(s, r2, i2)
    ensures r1 == r2
  {
    if r1 != [] {
      TrimEdges(s, r1, i1);
      NonWhitespaceIsInside(s, r2, i2, i1);
      NonWhitespaceIsInside(s, r2, i2, i1 + |r1| - 1);
    }
    if r2 != [] {
      TrimEdges(s, r2, i2);
      NonWhitespaceIsInside(s, r1, i1, i2);
      NonWhitespaceIsInside(s, r1, i1, i2 + |r2| - 1);
    }
  }

  /** A non-empty trim starts and ends at its slice's ends in `s`. */
  lemma TrimEdges(s: string, r: string, i: int)
    requires IsTrimAt(s, r, i) && r != []
    ensures !IsWhitespace(s[i]) && !IsWhitespace(s[i + |r| - 1])
  {
    assert s[i..i + |r|][0] == s[i];
    assert s[i..i + |r|][|r| - 1] == s[i + |r| - 1];
  }

  /** Every non-whitespace character of `s` lies inside each of its trims. */
  lemma NonWhitespaceIsInside(s: string, r: string, i: int, k: int)
    requires IsTrimAt(s, r, i) && 0 <= k < |s| && !IsWhitespace(s[k])
    ensures i <= k < i + |r|
  {
    if k < i || k >= i + |r| {
      WhitespaceOutsideTrim(s, r, i, k);
    }
  }

  /** Every character of `s` outside a trim is whitespace. */
  lemma WhitespaceOutsideTrim(s: string, r: string, i: int, k: int)
    requires IsTrimAt(s, r, i) && 0 <= k < |s| && (k < i || k >= i + |r|)
    ensures IsWhitespace(s[k])
  {
    if k < i {
      assert s[..i][k] == s[k];
    } else {
      assert s[i + |r|..][k - i - |r|] == s[k];
    }
  }

  lemma TrimCharacterized(s: string, r: string, i: int)
    requires IsTrimAt(s, r, i)
    ensures Trim(s) == r
  {
    TrimIsTrimOf(s);
    var j :| IsTrimAt(s, Trim(s), j);
    TrimUnique(s, r, i, Trim(s), j);
  }

  /** Trimming twice is trimming once. */
  lemma TrimIdempotent(s: string)
    ensures Trim(Trim(s)) == Trim(s)
  {
    var r := Trim(s);
    TrimIsTrimOf(s);
    assert r[..0] == [] && r[|r|..] == [] && r[0..|r|] == r;
    TrimCharacterized(r, r, 0);
  }

  /** A string trims to "" exactly when it is all whitespace (the empty string
      included). */
  lemma TrimEmptyIff(s: string)
    ensures Trim(s) == "" <==> AllWhitespace(s)
  {
    TrimIsTrimOf(s);
    if AllWhitespace(s) {
      assert s[..0] == [] && s[0..0] == [] && s[0..] == s;
      TrimCharacterized(s, "", 0);
    }
  }

  /** The capital letters `toLowerCase` changes in this model: A-Z and the
      Latin-1 capitals À-Þ except ×. */
  predicate IsCapital(c: char) {
    'A' <= c <= 'Z' || ('\U{C0}' <= c <= '\U{DE}' && c != '\U{D7}')
  }

  /** `toLowerCase` on one character: a capital moves to its small letter, 32
      code points up, and every other character is left as it is. */
  function LowerChar(c: char): (l: char)
    ensures IsCapital(c) ==> l as int == c as int + 32
    ensures !IsCapital(c) ==> l == c
    ensures !IsCapital(l)
  {
    if IsCapital(c) then (c as int + 32) as char else c
  }

  /** `s.toLowerCase()`, character by character. */
  function Lower(s: string): (r: string)
    ensures |r| == |s|
    ensures forall i :: 0 <= i < |s| ==> r[i] == LowerChar(s[i]) && !IsCapital(r[i])
  {
    seq(|s|, i requires 0 <= i < |s| => LowerChar(s[i]))
  }

  /** Lowercasing twice is lowercasing once, so a search term that is already
      lower case is unaffected. */
  lemma LowerIdempotent(s: string)
    ensures Lower(Lower(s)) == Lower(s)
  {
  }

  /** `a` and `b` are the same letter up to case: equal, or one is a capital and
      the other its small letter. */
  predicate CaseVariant(a: char, b: char) {
    || a == b
    || (IsCapital(a) && b as int == a as int + 32)
    || (IsCapital(b) && a as int == b as int + 32)
  }

  /** Two characters lowercase to the same character exactly when they are the
      same letter up to case. */
  lemma LowerCharEqualIff(a: char, b: char)
    ensures LowerChar(a) == LowerChar(b) <==> CaseVariant(a, b)
  {
  }

  /** Two strings lowercase to the same string exactly when they have the same
      length and agree up to case at every position. */
  lemma LowerEqualIff(a: string, b: string)
    ensures Lower(a) == Lower(b) <==>
      |a| == |b| && forall i :: 0 <= i < |a| ==> CaseVariant(a[i], b[i])
  {
    if |a| == |b| {
      forall i | 0 <= i < |a| ensures Lower(a)[i] == Lower(b)[i] <==> CaseVariant(a[i], b[i]) {
        LowerCharEqualIff(a[i], b[i]);
      }
      if Lower(a) != Lower(b) {
        var i :| 0 <= i < |a| && Lower(a)[i] != Lower(b)[i];
      }
    }
  }

  predicate OccursAt(hay: string, needle: string, i: int) {
    0 <= i && i + |needle| <= |hay| && hay[i..i + |needle|] == needle
  }

  /** JavaScript's `hay.includes(needle)`: `needle` occurs as a contiguous
      substring of `hay` (the empty string occurs everywhere). */
  function Includes(hay: string, needle: string): (r: bool)
    ensures r <==> exists i :: OccursAt(hay, needle, i)
    decreases |hay|
  {
    if |needle| <= |hay| && hay[..|needle|] == needle then
      assert OccursAt(hay, needle, 0);
      true
    else if hay == [] then
      false
    else
      var r := Includes(hay[1..], needle);
      assert forall i :: OccursAt(hay[1..], needle, i) ==> OccursAt(hay, needle, i + 1) by {
        forall i | OccursAt(hay[1..], needle, i) ensures OccursAt(hay, needle, i + 1) {
          assert hay[1..][i..i + |needle|] == hay[i + 1..i + 1 + |needle|];
        }
      }
      assert forall i :: OccursAt(hay, needle, i) ==> OccursAt(hay[1..], needle, i - 1) by {
        forall i | OccursAt(hay, needle, i) ensures OccursAt(hay[1..], needle, i - 1) {
          assert i != 0;
          assert hay[1..][i - 1..i - 1 + |needle|] == hay[i..i + |needle|];
        }
      }
      r
  }

  /** A needle holding a character the haystack lacks does not occur in it. */
  lemma NotIncludedWhenCharMissing(hay: string, needle: string, k: int)
    requires 0 <= k < |needle| && needle[k] !in hay
    ensures !Includes(hay, needle)
  {
  }
}
