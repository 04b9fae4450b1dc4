/** Character classes and small string helpers shared by the string algorithms. */
module Text {
  /** The characters Python takes as white space. */
  predicate IsSpace(c: char)
  {
    || c in " \t\n\r" || c == '\U{0B}' || c == '\U{0C}' || '\U{1C}' <= c <= '\U{1F}' || c == '\U{85}' || c == '\U{A0}'
    || c == '\U{1680}' || '\U{2000}' <= c <= '\U{200A}' || '\U{2028}' <= c <= '\U{2029}' || c == '\U{202F}'
    || c == '\U{205F}' || c == '\U{3000}'
  }

  predicate IsDigit(c: char)
  {
    '0' <= c <= '9'
  }

  predicate IsLetter(c: char)
  {
    'a' <= c <= 'z' || 'A' <= c <= 'Z'
  }

  /** The `\w` class on ASCII: what an unquoted SQL name is made of. */
  predicate IsWordChar(c: char)
  {
    IsLetter(c) || IsDigit(c) || c == '_'
  }

  function Lower(c: char): char
  {
    if 'A' <= c <= 'Z' then (c as int + 32) as char else c
  }

  /** `word` occurs in `s` at `i`, ignoring case; `word` is given in lower case. */
  predicate MatchesIgnoringCase(s: string, i: nat, word: string)
  {
    i + |word| <= |s| && forall k :: 0 <= k < |word| ==> Lower(s[i + k]) == word[k]
  }

  /** First index at or after `i` that does not hold a space. */
  function SkipSpaces(s: string, i: nat): (j: nat)
    requires i <= |s|
    ensures i <= j <= |s|
    ensures forall k :: i <= k < j ==> IsSpace(s[k])
    ensures j < |s| ==> !IsSpace(s[j])
    decreases |s| - i
  {
    if i < |s| && IsSpace(s[i]) then SkipSpaces(s, i + 1) else i
  }

  predicate IsBlank(s: string)
  {
    forall k :: 0 <= k < |s| ==> IsSpace(s[k])
  }

  /** The classes by code point. */
  lemma Alphabet(c: char)
    ensures IsDigit(c) <==> 48 <= c as int <= 57
    ensures IsLetter(c) <==> 65 <= c as int <= 90 || 97 <= c as int <= 122
    ensures IsWordChar(c) <==> IsDigit(c) || IsLetter(c) || c as int == 95
    ensures Lower(c) as int == if 65 <= c as int <= 90 then c as int + 32 else c as int
  {
  }

  /** The white space of Python's strings: separators and spaces by code point. */
  lemma SpaceTable(c: char)
    ensures IsSpace(c) <==> c as int in {9, 10, 11, 12, 13, 28, 29, 30, 31, 32, 133, 160, 5760, 8192, 8193, 8194, 8195, 8196,
                                         8197, 8198, 8199, 8200, 8201, 8202, 8232, 8233, 8239, 8287, 12288}
  {
  }

  lemma Associate(a: string, b: string, c: string)
    ensures (a + b) + c == a + (b + c)
  {
  }
}
