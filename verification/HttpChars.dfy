// Character classes of the HTTP parser, as compiled with HTTP_PARSER_STRICT.

module HttpChars {
  import opened Digits

  /** One octet of input; the program's `char` read through `(unsigned char)`. */
  type Byte = c: char | c as int < 256 witness '\0'

  const CR: Byte := '\r'
  const LF: Byte := '\n'
  const FORM_FEED: Byte := 12 as char

  /** LOWER: bitwise or with 0x20, which is more than lower-casing a letter. */
  function Lower(c: Byte): Byte {
    if (c as int / 32) % 2 == 1 then c else (c as int + 32) as char
  }

  predicate IsAlpha(c: Byte) { 'a' <= Lower(c) <= 'z' }

  predicate IsAlphaNum(c: Byte) { IsAlpha(c) || IsDigit(c) }

  predicate IsHex(c: Byte) { IsDigit(c) || 'a' <= Lower(c) <= 'f' }

  /** The value of a hexadecimal digit, None for -1. Only the first 128 table entries
      are initialised, so every byte from 0x80 on reads as the digit 0. */
  datatype Hex = NotHex | Hex(value: nat)

  function Unhex(c: Byte): Hex {
    if IsDigit(c) then Hex(DigitValue(c))
    else if 'a' <= c <= 'f' then Hex(c as int - 'a' as int + 10)
    else if 'A' <= c <= 'F' then Hex(c as int - 'A' as int + 10)
    else if c as int >= 128 then Hex(0)
    else NotHex
  }

  predicate IsMark(c: Byte) {
    c == '-' || c == '_' || c == '.' || c == '!' || c == '~' || c == '*' || c == '\'' || c == '(' || c == ')'
  }

  predicate IsUserinfoChar(c: Byte) {
    || IsAlphaNum(c) || IsMark(c) || c == '%' || c == ';' || c == ':' || c == '&' || c == '='
    || c == '+' || c == '$' || c == ','
  }

  /** The token table with the space removed: the lower-cased token character, or NUL. */
  function Token(c: Byte): Byte {
    if IsAlpha(c) then Lower(c)
    else if || IsDigit(c) || c == '!' || c == '#' || c == '$' || c == '%' || c == '&' || c == '\''
            || c == '*' || c == '+' || c == '-' || c == '.' || c == '^' || c == '_' || c == '`'
            || c == '|' || c == '~'
    then c
    else '\0'
  }

  predicate IsToken(c: Byte) { Token(c) != '\0' }

  /** The strict-mode URL bit table: the visible characters other than '#' and '?'. */
  predicate IsUrlChar(c: Byte) { 33 <= c as int <= 126 && c != '#' && c != '?' }

  predicate IsHostChar(c: Byte) { IsAlphaNum(c) || c == '.' || c == '-' }

  predicate IsHeaderChar(c: Byte) { c == CR || c == LF || c == '\t' || (c as int > 31 && c as int != 127) }

  // ---------------------------------------------------------------- the classes, character by character

  lemma LettersAre(c: Byte)
    ensures IsAlpha(c) <==> 'a' <= c <= 'z' || 'A' <= c <= 'Z'
    ensures IsHex(c) <==> '0' <= c <= '9' || 'a' <= c <= 'f' || 'A' <= c <= 'F'
  {
  }

  /** The tchar of section 3.2.6 of RFC 7230; a letter is read in lower case. */
  lemma TokensAre(c: Byte)
    ensures IsToken(c) <==>
            || '0' <= c <= '9' || 'a' <= c <= 'z' || 'A' <= c <= 'Z'
            || c in {'!', '#', '$', '%', '&', '\'', '*', '+', '-', '.', '^', '_', '`', '|', '~'}
    ensures IsToken(c) ==> Token(c) == if 'A' <= c <= 'Z' then (c as int + 32) as char else c
  {
    LettersAre(c);
  }

  /** The characters of URLs and their authorities. */
  lemma UrlCharsAre(c: Byte)
    ensures IsUserinfoChar(c) <==>
            || '0' <= c <= '9' || 'a' <= c <= 'z' || 'A' <= c <= 'Z'
            || c in {'-', '_', '.', '!', '~', '*', '\'', '(', ')', '%', ';', ':', '&', '=', '+', '$', ','}
    ensures IsHostChar(c) <==> '0' <= c <= '9' || 'a' <= c <= 'z' || 'A' <= c <= 'Z' || c in {'.', '-'}
    ensures IsUrlChar(c) <==>
            || '0' <= c <= '9' || 'a' <= c <= 'z' || 'A' <= c <= 'Z'
            || c in {'!', '"', '$', '%', '&', '\'', '(', ')', '*', '+', ',', '-', '.', '/', ':', ';', '<', '=', '>',
                     '@', '[', '\\', ']', '^', '_', '`', '{', '|', '}', '~'}
  {
    LettersAre(c);
  }

  /** What section 3.2 of RFC 7230 allows in a header value, and a line end. */
  lemma HeaderCharsAre(c: Byte)
    ensures IsHeaderChar(c) <==> ' ' <= c <= '~' || c as int >= 128 || c in {'\t', '\r', '\n'}
  {
  }
}
