/**
 * String helpers the source reaches for through JavaScript built-ins:
 * `trim`, `toLowerCase`, `toUpperCase`, `includes` and number-to-text
 * conversion. Case mapping covers the ASCII letters only.
 */
module Strings {

  /** The characters `String.prototype.trim` and the regular-expression class
      `\s` treat as white space: the WhiteSpace and LineTerminator code points. */
  const SPACE_CHARS: set<char> := {
    ' ', '\t', '\n', '\r', '\U{0B}', '\U{0C}', '\U{A0}', '\U{1680}',
    '\U{2000}', '\U{2001}', '\U{2002}', '\U{2003}', '\U{2004}', '\U{2005}',
    '\U{2006}', '\U{2007}', '\U{2008}', '\U{2009}', '\U{200A}',
    '\U{2028}', '\U{2029}', '\U{202F}', '\U{205F}', '\U{3000}', '\U{FEFF}'
  }

  predicate IsSpace(c: char) {
    c in SPACE_CHARS
  }

  /** Every character of `s` is white space (vacuously true of ""). */
  predicate AllSpace(s: string) {
    forall i :: 0 <= i < |s| ==> IsSpace(s[i])
  }

  lemma AllSpaceCons(c: char, a: string)
    requires IsSpace(c) && AllSpace(a)
    ensures AllSpace([c] + a)
  {
  }

  lemma AllSpaceSnoc(a: string, c: char)
    requires AllSpace(a) && IsSpace(c)
    ensures AllSpace(a + [c])
  {
  }

  /** How many white-space characters `s` starts with. */
  function LeadingSpaces(s: string): (n: nat)
    ensures n <= |s| && AllSpace(s[..n])
    ensures n == |s| || !IsSpace(s[n])
    decreases |s|
  {
    if |s| > 0 && IsSpace(s[0]) then
      var m := LeadingSpaces(s[1..]);
      LeadingStep(s, m);
      m + 1
    else 0
  }

  lemma LeadingStep(s: string, m: nat)
    requires 0 < |s| && IsSpace(s[0]) && m <= |s| - 1
    requires AllSpace(s[1..][..m]) && (m == |s| - 1 || !IsSpace(s[1..][m]))
    ensures AllSpace(s[..m + 1]) && (m + 1 == |s| || !IsSpace(s[m + 1]))
  {
    assert s[..m + 1] == [s[0]] + s[1..][..m];
    AllSpaceCons(s[0], s[1..][..m]);
  }

  /** How many white-space characters `s` ends with. */
  function TrailingSpaces(s: string): (n: nat)
    ensures n <= |s| && AllSpace(s[|s| - n..])
    ensures n == |s| || !IsSpace(s[|s| - n - 1])
    decreases |s|
  {
    if |s| > 0 && IsSpace(s[|s| - 1]) then
      var m := TrailingSpaces(s[..|s| - 1]);
      TrailingStep(s, m);
      m + 1
    else 0
  }

  lemma TrailingStep(s: string, m: nat)
    requires 0 < |s| && IsSpace(s[|s| - 1]) && m <= |s| - 1
    requires AllSpace(s[..|s| - 1][|s| - 1 - m..])
    requires m == |s| - 1 || !IsSpace(s[..|s| - 1][|s| - 1 - m - 1])
    ensures AllSpace(s[|s| - (m + 1)..]) && (m + 1 == |s| || !IsSpace(s[|s| - (m + 1) - 1]))
  {
    assert s[|s| - (m + 1)..] == s[..|s| - 1][|s| - 1 - m..] + [s[|s| - 1]];
    AllSpaceSnoc(s[..|s| - 1][|s| - 1 - m..], s[|s| - 1]);
  }

  /** The leading white space is the longest all-space prefix: any cut with only
      space before it and no space at it is that count. */
  lemma LeadingSpacesOf(s: string, k: nat)
    requires k <= |s| && AllSpace(s[..k]) && (k == |s| || !IsSpace(s[k]))
    ensures LeadingSpaces(s) == k
  {
    var n := LeadingSpaces(s);
    assert forall i :: 0 <= i < k ==> s[..k][i] == s[i];
    assert forall i :: 0 <= i < n ==> s[..n][i] == s[i];
  }

  lemma TrailingSpacesOf(s: string, k: nat)
    requires k <= |s| && AllSpace(s[|s| - k..]) && (k == |s| || !IsSpace(s[|s| - k - 1]))
    ensures TrailingSpaces(s) == k
  {
    SuffixSpaces(s, k);
    SuffixSpaces(s, TrailingSpaces(s));
  }

  lemma SuffixSpaces(s: string, m: nat)
    requires m <= |s| && AllSpace(s[|s| - m..])
    ensures forall i :: |s| - m <= i < |s| ==> IsSpace(s[i])
  {
    forall i | |s| - m <= i < |s| ensures IsSpace(s[i]) {
      assert s[|s| - m..][i - (|s| - m)] == s[i];
    }
  }

  /** `s.trimStart()`: white space removed from the front. */
  function TrimStart(s: string): (r: string)
    ensures |r| <= |s| && r == s[|s| - |r|..]
    ensures AllSpace(s[..|s| - |r|])
    ensures r == "" || !IsSpace(r[0])
  {
    s[LeadingSpaces(s)..]
  }

  /** `s.trimEnd()`: white space removed from the back. */
  function TrimEnd(s: string): (r: string)
    ensures |r| <= |s| && r == s[..|r|]
    ensures AllSpace(s[|r|..])
    ensures r == "" || !IsSpace(r[|r| - 1])
  {
    s[..|s| - TrailingSpaces(s)]
  }

  /** `s.trim()`: white space removed from both ends. */
  function Trim(s: string): (r: string)
    ensures r == "" || (!IsSpace(r[0]) && !IsSpace(r[|r| - 1]))
  {
    TrimEnd(TrimStart(s))
  }

  /** `!s.trim()`: the string is empty once trimmed exactly when it is all white space. */
  lemma {:induction false} TrimEmptyIffAllSpace(s: string)
    ensures Trim(s) == "" <==> AllSpace(s)
  {
    var t := TrimStart(s);
    assert s == s[..|s| - |t|] + t;
    if Trim(s) == "" {
      assert t == t[|TrimEnd(t)|..];
      assert t == "";
      assert s[..|s| - |t|] == s;
    } else {
      var r := Trim(s);
      assert !IsSpace(r[0]);
      assert r[0] == t[0];
      assert t[0] == s[|s| - |t|];
    }
  }

  /** Slicing a suffix is slicing the whole. */
  lemma SuffixSlices(s: string, i: int, n: int)
    requires 0 <= i <= |s| && 0 <= n <= |s| - i
    ensures s[i..][..n] == s[i..i + n] && s[i..][n..] == s[i + n..]
  {
  }

  /** Where the trimmed text sits inside the original: only white space around it. */
  lemma TrimBounds(s: string) returns (i: int, j: int)
    ensures 0 <= i <= j <= |s| && s[i..j] == Trim(s)
    ensures AllSpace(s[..i]) && AllSpace(s[j..])
  {
    var start := TrimStart(s);
    var t := TrimEnd(start);
    i := |s| - |start|;
    j := i + |t|;
    SuffixSlices(s, i, |t|);
  }

  /** Trimming strips exactly the white-space padding around a string that
      neither starts nor ends with white space. */
  lemma {:induction false} TrimPadded(pre: string, x: string, post: string)
    requires AllSpace(pre) && AllSpace(post)
    requires x != "" && !IsSpace(x[0]) && !IsSpace(x[|x| - 1])
    ensures Trim(pre + x + post) == x
  {
    TrimStartPadded(pre, x + post);
    assert pre + x + post == pre + (x + post);
    TrimEndPadded(x, post);
  }

  lemma TrimStartPadded(pre: string, y: string)
    requires AllSpace(pre)
    requires y != "" && !IsSpace(y[0])
    ensures TrimStart(pre + y) == y
  {
    var s := pre + y;
    assert s[..|pre|] == pre && s[|pre|] == y[0];
    LeadingSpacesOf(s, |pre|);
    assert s[|pre|..] == y;
  }

  lemma TrimEndPadded(x: string, post: string)
    requires AllSpace(post)
    requires x != "" && !IsSpace(x[|x| - 1])
    ensures TrimEnd(x + post) == x
  {
    var s := x + post;
    assert s[|s| - |post|..] == post && s[|s| - |post| - 1] == x[|x| - 1];
    TrailingSpacesOf(s, |post|);
    assert s[..|x|] == x;
  }

  /** The lower-case form of one character, for the ASCII letters A-Z. */
  function LowerChar(c: char): (r: char)
    ensures 'A' <= c <= 'Z' ==> r as int == c as int + 32
    ensures !('A' <= c <= 'Z') ==> r == c
  {
    if 'A' <= c <= 'Z' then (c as int + 32) as char else c
  }

  /** The upper-case form of one character, for the ASCII letters a-z. */
  function UpperChar(c: char): (r: char)
    ensures 'a' <= c <= 'z' ==> r as int == c as int - 32
    ensures !('a' <= c <= 'z') ==> r == c
  {
    if 'a' <= c <= 'z' then (c as int - 32) as char else c
  }

  /** `s.toLowerCase()` character by character. */
  function ToLower(s: string): (r: string)
    ensures |r| == |s|
    ensures forall i :: 0 <= i < |s| ==> r[i] == LowerChar(s[i])
  {
    seq(|s|, i requires 0 <= i < |s| => LowerChar(s[i]))
  }

  /** A string without upper-case ASCII letters is its own lower-case form. */
  lemma ToLowerOfLower(s: string)
    requires forall i :: 0 <= i < |s| ==> !('A' <= s[i] <= 'Z')
    ensures ToLower(s) == s
  {
  }

  /** Lower-casing agrees with `t` character by character. */
  lemma ToLowerPointwise(s: string, t: string)
    requires |s| == |t| && forall i :: 0 <= i < |s| ==> LowerChar(s[i]) == t[i]
    ensures ToLower(s) == t
  {
  }

  lemma {:induction false} ToLowerAppend(a: string, b: string)
    ensures ToLower(a + b) == ToLower(a) + ToLower(b)
  {
    assert forall i :: 0 <= i < |a + b| ==> ToLower(a + b)[i] == (ToLower(a) + ToLower(b))[i];
  }

  /** `s` is `x` in any ASCII letter case, with white space on either side. */
  ghost predicate PaddedLower(s: string, x: string) {
    exists i, j :: 0 <= i <= j <= |s| && AllSpace(s[..i]) && AllSpace(s[j..]) && ToLower(s[i..j]) == x
  }

  /** White space under lower-casing was white space before it. */
  lemma SpaceUnderLower(s: string, a: int, b: int)
    requires 0 <= a <= b <= |s| && AllSpace(ToLower(s)[a..b])
    ensures AllSpace(s[a..b])
  {
    forall k | a <= k < b ensures IsSpace(s[k]) {
      assert ToLower(s)[a..b][k - a] == LowerChar(s[k]);
    }
  }

  /** The padding of a lower-cased string is the padding of the original. */
  lemma LowerPadding(s: string, i: int, j: int)
    requires 0 <= i <= j <= |s|
    requires AllSpace(ToLower(s)[..i]) && AllSpace(ToLower(s)[j..])
    ensures AllSpace(s[..i]) && AllSpace(s[j..])
  {
    assert ToLower(s)[..i] == ToLower(s)[0..i];
    SpaceUnderLower(s, 0, i);
    assert s[..i] == s[0..i];
    assert ToLower(s)[j..] == ToLower(s)[j..|s|];
    SpaceUnderLower(s, j, |s|);
    assert s[j..] == s[j..|s|];
  }

  /** What `s.toLowerCase().trim()` yields is `s` minus its padding, lower-cased. */
  lemma TrimLowerIsPadded(s: string)
    ensures PaddedLower(s, Trim(ToLower(s)))
  {
    var i, j := TrimBounds(ToLower(s));
    ToLowerSlice(s, i, j);
    LowerPadding(s, i, j);
  }

  /** Conversely, a padded re-cased `x` lower-cases and trims back to `x`, when `x`
      is lower case and neither starts nor ends with white space. */
  lemma PaddedIsTrimLower(s: string, x: string)
    requires PaddedLower(s, x)
    requires x != "" && !IsSpace(x[0]) && !IsSpace(x[|x| - 1])
    ensures Trim(ToLower(s)) == x
  {
    var i, j :| 0 <= i <= j <= |s| && AllSpace(s[..i]) && AllSpace(s[j..]) && ToLower(s[i..j]) == x;
    LowerInThree(s, i, j);
    ToLowerKeepsSpace(s[..i]);
    ToLowerKeepsSpace(s[j..]);
    TrimPadded(ToLower(s[..i]), x, ToLower(s[j..]));
  }

  /** Lower-casing a string cut in three pieces. */
  lemma LowerInThree(s: string, i: int, j: int)
    requires 0 <= i <= j <= |s|
    ensures ToLower(s) == ToLower(s[..i]) + ToLower(s[i..j]) + ToLower(s[j..])
  {
    assert s == s[..i] + s[i..j] + s[j..];
    ToLowerAppend(s[..i] + s[i..j], s[j..]);
    ToLowerAppend(s[..i], s[i..j]);
  }

  /** Lower-casing commutes with slicing. */
  lemma ToLowerSlice(s: string, a: int, b: int)
    requires 0 <= a <= b <= |s|
    ensures ToLower(s[a..b]) == ToLower(s)[a..b]
  {
    ToLowerPointwise(s[a..b], ToLower(s)[a..b]);
  }

  lemma ToLowerKeepsSpace(s: string)
    ensures AllSpace(ToLower(s)) <==> AllSpace(s)
  {
    assert forall i :: 0 <= i < |s| ==> (IsSpace(ToLower(s)[i]) <==> IsSpace(s[i]));
  }

  /** `s.charAt(0).toUpperCase() + s.slice(1)`; "" stays "". */
  function Capitalize(s: string): (r: string)
    ensures |r| == |s|
    ensures s != "" ==> r[0] == UpperChar(s[0]) && r[1..] == s[1..]
  {
    if s == "" then "" else [UpperChar(s[0])] + s[1..]
  }

  /** `part` occurs in `s` starting at index `i`. */
  predicate OccursAt(s: string, part: string, i: int) {
    0 <= i <= |s| - |part| && s[i..i + |part|] == part
  }

  /** `s.includes(part)`: `part` occurs somewhere in `s` as a block. */
  function Contains(s: string, part: string): (r: bool)
    ensures r <==> exists i :: OccursAt(s, part, i)
    decreases |s|
  {
    if |part| <= |s| && s[..|part|] == part then
      assert OccursAt(s, part, 0);
      true
    else if |s| <= |part| then
      assert forall i :: OccursAt(s, part, i) ==> i == 0;
      false
    else
      OccursShift(s, part);
      Contains(s[1..], part)
  }

  /** An occurrence past the first character is an occurrence in the tail. */
  lemma OccursShift(s: string, part: string)
    requires s != ""
    ensures forall i :: OccursAt(s, part, i) && i > 0 ==> OccursAt(s[1..], part, i - 1)
    ensures forall j :: OccursAt(s[1..], part, j) ==> OccursAt(s, part, j + 1)
  {
    forall i | OccursAt(s, part, i) && i > 0 ensures OccursAt(s[1..], part, i - 1) {
      assert s[1..][i - 1..i - 1 + |part|] == s[i..i + |part|];
    }
    forall j | OccursAt(s[1..], part, j) ensures OccursAt(s, part, j + 1) {
      assert s[1..][j..j + |part|] == s[j + 1..j + 1 + |part|];
    }
  }

  predicate IsDigit(c: char) {
    '0' <= c <= '9'
  }

  /** Decimal digits of a natural number, no leading zeros. */
  function NatToString(n: nat): (r: string)
    ensures r != ""
    ensures forall i :: 0 <= i < |r| ==> IsDigit(r[i])
    ensures n > 0 ==> r[0] != '0'
    decreases n
  {
    var d := ['0' + (n % 10) as char];
    if n < 10 then d else NatToString(n / 10) + d
  }

  /** `String(n)` / a template literal `${n}` for an integer. */
  function IntToString(n: int): (r: string)
    ensures r != ""
    ensures n < 0 <==> r[0] == '-'
  {
    if n < 0 then "-" + NatToString(-n) else NatToString(n)
  }
}
