/**
 * The `java.lang.String` operations the core relies on, on Dafny strings
 * (sequences of Unicode scalar values).
 */
module JavaText {

  /** `Character.isWhitespace`: Unicode space separators other than the
      non-breaking ones, plus the ASCII and information-separator controls. */
  predicate IsWhitespace(c: char) {
    || c == ' ' || c == '\t' || c == '\n' || c == '\U{B}' || c == '\U{C}' || c == '\r'
    || c == '\U{1C}' || c == '\U{1D}' || c == '\U{1E}' || c == '\U{1F}'
    || c == '\U{1680}' || ('\U{2000}' <= c <= '\U{2006}') || ('\U{2008}' <= c <= '\U{200A}')
    || c == '\U{2028}' || c == '\U{2029}' || c == '\U{205F}' || c == '\U{3000}'
  }

  /** `String.isBlank`: empty, or whitespace only. */
  predicate IsBlank(s: string) {
    forall i | 0 <= i < |s| :: IsWhitespace(s[i])
  }

  /** `null or blank`, the guard the controllers and services write as
      `x == null || x.isBlank()`. */
  predicate MissingOrBlank(s: Option<string>) {
    s.None? || IsBlank(s.value)
  }

  import opened Wrappers

  /** The positions of characters outside the basic multilingual plane,
      each of which UTF-16 writes as a surrogate pair. */
  ghost function Supplementary(s: string): set<int> {
    set i | 0 <= i < |s| && s[i] as int >= 0x1_0000
  }

  /** `String.length`: the number of UTF-16 code units, one per character
      plus one more for every supplementary character. */
  function Utf16Length(s: string): (n: nat)
    ensures n == |s| + |Supplementary(s)|
    ensures |s| <= n <= 2 * |s|
    ensures (forall i | 0 <= i < |s| :: s[i] as int < 0x1_0000) ==> n == |s|
  {
    if s == [] then 0
    else
      var init := s[..|s| - 1];
      var last := if s[|s| - 1] as int < 0x1_0000 then {} else {|s| - 1};
      assert Supplementary(s) == Supplementary(init) + last;
      assert |s| - 1 !in Supplementary(init);
      Utf16Length(init) + (if s[|s| - 1] as int < 0x1_0000 then 1 else 2)
  }

  /** The characters `String.trim` removes: every code point up to U+0020. */
  predicate IsTrimmed(c: char) {
    c <= ' '
  }

  /** How many characters `trim` removes from the front. */
  function LeadingTrimmed(s: string): (n: nat)
    ensures n <= |s|
    ensures forall k | 0 <= k < n :: IsTrimmed(s[k])
    ensures n < |s| ==> !IsTrimmed(s[n])
  {
    if s != [] && IsTrimmed(s[0]) then 1 + LeadingTrimmed(s[1..]) else 0
  }

  /** How many characters `trim` removes from the back. */
  function TrailingTrimmed(s: string): (n: nat)
    ensures n <= |s|
    ensures forall k | |s| - n <= k < |s| :: IsTrimmed(s[k])
    ensures n < |s| ==> !IsTrimmed(s[|s| - 1 - n])
  {
    if s != [] && IsTrimmed(s[|s| - 1]) then 1 + TrailingTrimmed(s[..|s| - 1]) else 0
  }

  /** `String.trim`: the longest infix whose ends are above U+0020. */
  function Trim(s: string): (r: string)
    ensures LeadingTrimmed(s) + |r| <= |s|
    ensures r == [] || (!IsTrimmed(r[0]) && !IsTrimmed(r[|r| - 1]))
    ensures r == s[LeadingTrimmed(s)..LeadingTrimmed(s) + |r|]
    ensures forall k | 0 <= k < |s| && (k < LeadingTrimmed(s) || LeadingTrimmed(s) + |r| <= k) :: IsTrimmed(s[k])
  {
    var front := s[LeadingTrimmed(s)..];
    front[..|front| - TrailingTrimmed(front)]
  }

  /** Trimming twice removes nothing more. */
  lemma TrimIdempotent(s: string)
    ensures Trim(Trim(s)) == Trim(s)
  {
    var t := Trim(s);
    if t != [] {
      assert LeadingTrimmed(t) == 0;
      assert TrailingTrimmed(t) == 0;
    }
  }

  /** `String.lastIndexOf(c)`: the last position of `c`, or -1. */
  function LastIndexOf(s: string, c: char): (i: int)
    ensures -1 <= i < |s|
    ensures i >= 0 ==> s[i] == c
    ensures forall k | i < k < |s| :: s[k] != c
    ensures i == -1 <==> c !in s
  {
    if s == [] then -1
    else if s[|s| - 1] == c then |s| - 1
    else LastIndexOf(s[..|s| - 1], c)
  }

  /** ASCII case folding, the part of `Character.toLowerCase` that the
      provider's status strings exercise. */
  function AsciiLower(c: char): (d: char)
    ensures 'A' <= c <= 'Z' ==> 'a' <= d <= 'z' && d as int == c as int + 32
    ensures !('A' <= c <= 'Z') ==> d == c
  {
    if 'A' <= c <= 'Z' then (c as int - 'A' as int + 'a' as int) as char else c
  }

  /** `a.equalsIgnoreCase(b)` for ASCII case differences. */
  predicate EqualsIgnoreCase(a: string, b: string) {
    |a| == |b| && forall i | 0 <= i < |a| :: AsciiLower(a[i]) == AsciiLower(b[i])
  }

  /** The text with every ASCII capital folded to lower case. */
  function LowerAll(s: string): (r: string)
    ensures |r| == |s|
    ensures forall i | 0 <= i < |s| :: r[i] == AsciiLower(s[i])
  {
    if s == [] then [] else [AsciiLower(s[0])] + LowerAll(s[1..])
  }

  /** A text without capitals is its own folding. */
  lemma LowerAllWithoutCapitals(s: string)
    requires forall i | 0 <= i < |s| :: !('A' <= s[i] <= 'Z')
    ensures LowerAll(s) == s
  {
  }

  /** Comparing ignoring case is comparing the folded texts. */
  lemma EqualsIgnoreCaseIffLowerEqual(a: string, b: string)
    ensures EqualsIgnoreCase(a, b) <==> LowerAll(a) == LowerAll(b)
  {
    if LowerAll(a) == LowerAll(b) {
      forall i | 0 <= i < |a| ensures AsciiLower(a[i]) == AsciiLower(b[i]) {
        assert LowerAll(a)[i] == LowerAll(b)[i];
      }
    }
  }
}
