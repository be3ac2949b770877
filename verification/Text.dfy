// The string operations the Python code relies on: `strip`, `startswith`, `removeprefix`.
module Text {
  // The characters `str.strip()` removes (those for which `str.isspace()` holds).
  predicate IsSpace(c: char) {
    || '\t' <= c <= '\r'
    || '\U{1c}' <= c <= ' '
    || c == '\U{85}' || c == '\U{a0}' || c == '\U{1680}'
    || c == '\U{2028}' || c == '\U{2029}' || c == '\U{202f}' || c == '\U{205f}' || c == '\U{3000}'
    || '\U{2000}' <= c <= '\U{200a}'
  }

  // The usual blanks are among them; no visible ASCII character is.
  lemma SpacesAre(c: char)
    ensures c in {' ', '\t', '\n', '\r', '\U{0b}', '\U{0c}'} ==> IsSpace(c)
    ensures '!' <= c <= '~' ==> !IsSpace(c)
  {
  }

  predicate Trimmed(s: string) {
    s == "" || (!IsSpace(s[0]) && !IsSpace(s[|s| - 1]))
  }

  function StripLeft(s: string): (r: string) {
    if s != "" && IsSpace(s[0]) then StripLeft(s[1..]) else s
  }

  function StripRight(s: string): (r: string) {
    if s != "" && IsSpace(s[|s| - 1]) then StripRight(s[..|s| - 1]) else s
  }

  function Strip(s: string): (r: string) {
    StripRight(StripLeft(s))
  }

  predicate Blank(s: string) {
    Strip(s) == ""
  }

  function RemovePrefix(s: string, prefix: string): (r: string) {
    if prefix <= s then s[|prefix|..] else s
  }

  lemma RemovePrefixMeans(s: string, prefix: string)
    ensures prefix <= s ==> s == prefix + RemovePrefix(s, prefix)
    ensures RemovePrefix(prefix + s, prefix) == s
  {
  }

  // Stripping cuts whitespace only, and only at the two ends: what is left is the longest
  // stretch of the string that neither begins nor ends with whitespace.
  lemma {:induction false} StripLeftCuts(s: string)
    ensures |StripLeft(s)| <= |s| && StripLeft(s) == s[|s| - |StripLeft(s)|..]
    ensures forall i :: 0 <= i < |s| - |StripLeft(s)| ==> IsSpace(s[i])
    ensures StripLeft(s) == "" || !IsSpace(StripLeft(s)[0])
  {
    if s != "" && IsSpace(s[0]) {
      StripLeftCuts(s[1..]);
      assert forall i :: 1 <= i < |s| ==> s[i] == s[1..][i - 1];
    }
  }

  lemma {:induction false} StripRightCuts(s: string)
    ensures |StripRight(s)| <= |s| && StripRight(s) == s[..|StripRight(s)|]
    ensures forall i :: |StripRight(s)| <= i < |s| ==> IsSpace(s[i])
    ensures StripRight(s) == "" || !IsSpace(StripRight(s)[|StripRight(s)| - 1])
  {
    if s != "" && IsSpace(s[|s| - 1]) {
      StripRightCuts(s[..|s| - 1]);
    }
  }

  // Stripping leaves no surrounding whitespace, and takes nothing from a trimmed string.
  lemma StripTrims(s: string)
    ensures Trimmed(Strip(s))
  {
    var t := StripLeft(s);
    StripLeftCuts(s);
    StripRightCuts(t);
    if Strip(s) != "" {
      assert Strip(s)[0] == t[0];
    }
  }

  lemma TrimmedIsStripped(s: string)
    requires Trimmed(s)
    ensures Strip(s) == s
  {
  }
}
