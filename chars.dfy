/**
 * The character classes and case mappings .NET applies (`char.IsWhiteSpace`,
 * `char.IsLetterOrDigit`, `char.ToLowerInvariant`, `char.ToUpperInvariant`).
 * White space is the full .NET set. Letters and digits are the ASCII ones and
 * the basic Cyrillic block U+0400..U+045F, which is what the bot's documents
 * use; every other character is treated as neither a letter nor a digit and
 * has no case.
 */
module Chars {

  predicate IsWhiteSpace(c: char) {
    c == ' ' || ('\t' <= c <= '\r') || c == '\U{0085}' || c == '\U{00A0}' || c == '\U{1680}'
    || ('\U{2000}' <= c <= '\U{200A}') || c == '\U{2028}' || c == '\U{2029}'
    || c == '\U{202F}' || c == '\U{205F}' || c == '\U{3000}'
  }

  predicate IsAsciiUpper(c: char) { 'A' <= c <= 'Z' }
  predicate IsAsciiLower(c: char) { 'a' <= c <= 'z' }
  predicate IsDigit(c: char) { '0' <= c <= '9' }
  /** U+0400..U+040F (Ѐ..Џ) and U+0410..U+042F (А..Я). */
  predicate IsCyrillicUpper(c: char) { '\U{0400}' <= c <= '\U{042F}' }
  /** U+0430..U+044F (а..я) and U+0450..U+045F (ѐ..џ). */
  predicate IsCyrillicLower(c: char) { '\U{0430}' <= c <= '\U{045F}' }

  predicate IsLetterOrDigit(c: char) {
    IsAsciiUpper(c) || IsAsciiLower(c) || IsDigit(c) || IsCyrillicUpper(c) || IsCyrillicLower(c)
  }

  function ToLower(c: char): (r: char)
    ensures IsLetterOrDigit(c) <==> IsLetterOrDigit(r)
    ensures !IsAsciiUpper(r) && !IsCyrillicUpper(r)
  {
    if IsAsciiUpper(c) then (c as int + 0x20) as char
    else if '\U{0400}' <= c <= '\U{040F}' then (c as int + 0x50) as char
    else if '\U{0410}' <= c <= '\U{042F}' then (c as int + 0x20) as char
    else c
  }

  function ToUpper(c: char): (r: char)
    ensures IsLetterOrDigit(c) <==> IsLetterOrDigit(r)
    ensures !IsAsciiLower(r) && !IsCyrillicLower(r)
  {
    if IsAsciiLower(c) then (c as int - 0x20) as char
    else if '\U{0430}' <= c <= '\U{044F}' then (c as int - 0x20) as char
    else if '\U{0450}' <= c <= '\U{045F}' then (c as int - 0x50) as char
    else c
  }

  /** Lower-casing is idempotent and leaves everything but upper-case letters alone. */
  lemma ToLowerIdempotent(c: char)
    ensures ToLower(ToLower(c)) == ToLower(c)
    ensures !IsAsciiUpper(c) && !IsCyrillicUpper(c) ==> ToLower(c) == c
  {
  }

  /** Letters and digits are never white space. */
  lemma LetterOrDigitIsNotWhiteSpace(c: char)
    ensures IsLetterOrDigit(c) ==> !IsWhiteSpace(c)
  {
  }

  /** Upper-casing, the case fold of `StringComparer.OrdinalIgnoreCase`, identifies a character with its lower case. */
  lemma FoldIgnoresCase(c: char)
    ensures ToUpper(ToLower(c)) == ToUpper(c)
    ensures ToUpper(ToUpper(c)) == ToUpper(c)
  {
  }
}
