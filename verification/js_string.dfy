/** `String.prototype.trim` of JavaScript, which the search guard uses to
    decide whether the city text is blank. */
module JsString {

  /** The characters `trim` removes: the WhiteSpace and LineTerminator
      productions of the ECMAScript language specification (tab, vertical
      tab, form feed, space, no-break space, byte order mark, every other
      Unicode "Zs" space separator, line feed, carriage return, line and
      paragraph separators). */
  predicate IsWhiteSpace(c: char)
  {
    || c == '\t' || c == '\U{000B}' || c == '\U{000C}' || c == ' '
    || c == '\U{00A0}' || c == '\U{FEFF}'
    || c == '\U{1680}' || ('\U{2000}' <= c <= '\U{200A}')
    || c == '\U{202F}' || c == '\U{205F}' || c == '\U{3000}'
    || c == '\n' || c == '\r' || c == '\U{2028}' || c == '\U{2029}'
  }

  /** The same set by code point, as the ECMAScript tables list it. */
  const WhiteSpaceCodePoints: set<int> :=
    {0x09, 0x0A, 0x0B, 0x0C, 0x0D, 0x20, 0xA0, 0x1680,
     0x2028, 0x2029, 0x202F, 0x205F, 0x3000, 0xFEFF}
    + (set k | 0x2000 <= k <= 0x200A)

  /** `IsWhiteSpace` is exactly the code-point table above. */
  lemma WhiteSpaceByCodePoint(c: char)
    ensures IsWhiteSpace(c) <==> c as int in WhiteSpaceCodePoints
  {
  }

  /** True when the text holds nothing but white space (the empty text included). */
  predicate AllWhiteSpace(s: string)
  {
    forall i :: 0 <= i < |s| ==> IsWhiteSpace(s[i])
  }

  /** Drops leading white space: the result is the suffix of `s` that starts
      at its first non-white-space character. */
  function TrimStart(s: string): (r: string)
    ensures |r| <= |s| && r == s[|s| - |r|..]
    ensures r == [] || !IsWhiteSpace(r[0])
    ensures forall i :: 0 <= i < |s| - |r| ==> IsWhiteSpace(s[i])
    decreases |s|
  {
    if |s| > 0 && IsWhiteSpace(s[0]) then TrimStart(s[1..]) else s
  }

  /** Drops trailing white space: the result is the prefix of `s` that ends
      at its last non-white-space character. */
  function TrimEnd(s: string): (r: string)
    ensures |r| <= |s| && r == s[..|r|]
    ensures r == [] || !IsWhiteSpace(r[|r| - 1])
    ensures forall i :: |r| <= i < |s| ==> IsWhiteSpace(s[i])
    decreases |s|
  {
    if |s| > 0 && IsWhiteSpace(s[|s| - 1]) then TrimEnd(s[..|s| - 1]) else s
  }

  /** Where the trimmed text starts inside the original. */
  function TrimOffset(s: string): nat
  {
    |s| - |TrimStart(s)|
  }

  /** `s.trim()`: the contiguous middle of `s` left once the white space at
      both ends is gone. Interior white space is kept. */
  function Trim(s: string): (r: string)
    ensures TrimOffset(s) + |r| <= |s|
    ensures r == s[TrimOffset(s)..TrimOffset(s) + |r|]
    ensures r == [] || (!IsWhiteSpace(r[0]) && !IsWhiteSpace(r[|r| - 1]))
    ensures forall i :: 0 <= i < TrimOffset(s) ==> IsWhiteSpace(s[i])
    ensures forall i :: TrimOffset(s) + |r| <= i < |s| ==> IsWhiteSpace(s[i])
  {
    TrimEnd(TrimStart(s))
  }

  /** `trim` yields the empty text exactly when the text is blank. */
  lemma TrimEmptyIffBlank(s: string)
    ensures Trim(s) == [] <==> AllWhiteSpace(s)
  {
  }
}
