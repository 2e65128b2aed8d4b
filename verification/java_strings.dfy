/**
 * Java's `String.trim`: it removes every leading and every trailing character
 * whose code is at most U+0020 (the space), and keeps what lies between.
 */
module JavaStrings {

  /** The characters `String.trim` removes from either end. */
  predicate IsBlank(c: char) {
    c <= ' '
  }

  /** The number of blank characters that open `s`. */
  function LeadingBlanks(s: string): (n: nat)
    ensures n <= |s|
    ensures forall i :: 0 <= i < n ==> IsBlank(s[i])
    ensures n < |s| ==> !IsBlank(s[n])
  {
    if s != [] && IsBlank(s[0]) then 1 + LeadingBlanks(s[1..]) else 0
  }

  /** The number of blank characters that close `s`. */
  function TrailingBlanks(s: string): (n: nat)
    ensures n <= |s|
    ensures forall i :: |s| - n <= i < |s| ==> IsBlank(s[i])
    ensures n < |s| ==> !IsBlank(s[|s| - 1 - n])
  {
    if s != [] && IsBlank(s[|s| - 1]) then 1 + TrailingBlanks(s[..|s| - 1]) else 0
  }

  /**
   * `s.trim()`: the part of `s` left once the blank characters at both ends
   * are gone. It is a contiguous piece of `s`, everything cut off is blank,
   * and it neither starts nor ends with a blank.
   */
  function Trim(s: string): (r: string)
    ensures LeadingBlanks(s) + |r| <= |s|
    ensures r == s[LeadingBlanks(s)..LeadingBlanks(s) + |r|]
    ensures forall i :: LeadingBlanks(s) + |r| <= i < |s| ==> IsBlank(s[i])
    ensures r == [] || (!IsBlank(r[0]) && !IsBlank(r[|r| - 1]))
    ensures r == [] <==> forall i :: 0 <= i < |s| ==> IsBlank(s[i])
  {
    var lo := LeadingBlanks(s);
    var rest := s[lo..];
    var cut := TrailingBlanks(rest);
    assert forall i :: lo + |rest| - cut <= i < |s| ==> s[i] == rest[i - lo];
    s[lo..|s| - cut]
  }

  /** A string that neither starts nor ends with a blank is its own trim. */
  lemma TrimKeepsTrimmed(s: string)
    requires s == [] || (!IsBlank(s[0]) && !IsBlank(s[|s| - 1]))
    ensures Trim(s) == s
  {
  }

  /** Trimming twice is trimming once. */
  lemma TrimIdempotent(s: string)
    ensures Trim(Trim(s)) == Trim(s)
  {
  }
}
