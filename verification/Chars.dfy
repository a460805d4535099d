/** Character classes of tools/wrk/src/http_parser.c, strict build. A Dafny char stands for one byte. */
module Chars {

  const CR: char := '\r'
  const LF: char := '\n'

  /** The byte `c | 0x20`. */
  function Lower(c: char): char {
    if c < 256 as char && (c as int / 32) % 2 == 0 then (c as int + 32) as char else c
  }

  predicate IsAlpha(c: char) { 'a' <= Lower(c) <= 'z' }

  predicate IsNum(c: char) { '0' <= c <= '9' }

  predicate IsAlphaNum(c: char) { IsAlpha(c) || IsNum(c) }

  predicate IsHex(c: char) { IsNum(c) || 'a' <= Lower(c) <= 'f' }

  predicate IsMark(c: char) { c == '-' || c == '_' || c == '.' || c == '!' || c == '~' || '\'' <= c <= '*' }

  predicate IsUserinfoChar(c: char) {
    IsAlphaNum(c) || IsMark(c) || '$' <= c <= '&' || c == ';' || c == ':' || c == '=' || c == '+' || c == ','
  }

  predicate IsHostChar(c: char) { IsAlphaNum(c) || c == '.' || c == '-' }

  predicate IsUrlChar(c: char) { '!' <= c <= '~' && c != '#' && c != '?' }

  predicate IsHeaderChar(c: char) { c == CR || c == LF || c == '\t' || (c > 31 as char && c != 127 as char) }

  /** The lower-cased token character, or NUL for a character that is not a token character. */
  function Token(c: char): char {
    if 'A' <= c <= 'Z' then Lower(c)
    else if 'a' <= c <= 'z' || IsNum(c) || c == '!' || '#' <= c <= '\'' || c == '*' || c == '+' || c == '-' || c == '.'
            || '^' <= c <= '`' || c == '|' || c == '~' then c
    else '\0'
  }

  predicate IsToken(c: char) { Token(c) != '\0' }

  function Digit(c: char): nat
    requires IsNum(c)
  {
    c as int - '0' as int
  }

  /** The hex table. Only its first 128 entries are written out in the source, so the others are zero. */
  function Unhex(c: char): int {
    if IsNum(c) then c as int - '0' as int
    else if 'a' <= c <= 'f' then c as int - 'a' as int + 10
    else if 'A' <= c <= 'F' then c as int - 'A' as int + 10
    else if c >= 128 as char then 0
    else -1
  }
}
