/** Strings as the source's `String.prototype.trim` sees them. */
module Text {

  /** The characters `trim` removes: WhiteSpace and LineTerminator of
      sections 12.2 and 12.3 of ECMA-262 (tab, vertical tab, form feed, space,
      no-break space, byte-order mark, the space separators of category Zs,
      line feed, carriage return, line and paragraph separators). */
  predicate IsSpace(c: char) {
    || c == '\t' || c == '\n' || c == '\U{000B}' || c == '\U{000C}' || c == '\r'
    || c == ' ' || c == '\U{00A0}' || c == '\U{FEFF}' || c == '\U{1680}'
    || ('\U{2000}' <= c <= '\U{200A}')
    || c == '\U{2028}' || c == '\U{2029}' || c == '\U{202F}' || c == '\U{205F}' || c == '\U{3000}'
  }

  /** Every character of `s[lo..hi]` is space. */
  ghost predicate SpaceBetween(s: string, lo: int, hi: int) {
    forall i :: lo <= i < hi && 0 <= i < |s| ==> IsSpace(s[i])
  }

  ghost predicate Blank(s: string) {
    SpaceBetween(s, 0, |s|)
  }

  /** Length of the longest all-space prefix. */
  function LeadingSpace(s: string): (n: nat)
    ensures n <= |s| && SpaceBetween(s, 0, n)
    ensures n < |s| ==> !IsSpace(s[n])
  {
    if s == [] || !IsSpace(s[0]) then 0
    else
      var n := LeadingSpace(s[1..]);
      assert forall i :: 1 <= i < n + 1 ==> s[i] == s[1..][i - 1];
      n + 1
  }

  /** Length of the longest all-space suffix. */
  function TrailingSpace(s: string): (n: nat)
    ensures n <= |s| && SpaceBetween(s, |s| - n, |s|)
    ensures n < |s| ==> !IsSpace(s[|s| - n - 1])
  {
    if s == [] || !IsSpace(s[|s| - 1]) then 0
    else
      var n := TrailingSpace(s[..|s| - 1]);
      assert forall i :: 0 <= i < |s| - 1 ==> s[i] == s[..|s| - 1][i];
      n + 1
  }

  /** `s.trim()`: the slice of `s` left once leading and trailing space is
      gone. It is empty exactly when `s` is blank; otherwise it starts and ends
      with a non-space character and everything cut off was space. */
  function Trim(s: string): (r: string)
    ensures r == [] <==> Blank(s)
    ensures r != [] ==> !IsSpace(r[0]) && !IsSpace(r[|r| - 1])
    ensures r != [] ==> exists lo :: 0 <= lo && lo + |r| <= |s| && r == s[lo..lo + |r|]
                          && SpaceBetween(s, 0, lo) && SpaceBetween(s, lo + |r|, |s|)
  {
    var lo := LeadingSpace(s);
    if lo == |s| then ""
    else
      var tr := TrailingSpace(s);
      assert !IsSpace(s[lo]);
      assert lo < |s| - tr;
      s[lo..|s| - tr]
  }
}
