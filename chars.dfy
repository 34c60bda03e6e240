/** The character classes used by the three patterns of the rule-based
    extractor. `\s` is the set Python's `re` module uses on `str` patterns;
    `\d` and case folding are narrowed to the ASCII digits and to the Latin
    and Russian letters. */
module Chars {

  /** `\d`: restricted to the ASCII decimal digits. */
  predicate IsDigit(c: char) {
    '0' <= c <= '9'
  }

  /** `\s`: the characters Python's `str.isspace` accepts. */
  predicate IsSpace(c: char) {
    || '\t' <= c <= '\r'
    || '\U{1C}' <= c <= '\U{1F}'
    || c == ' '
    || c == '\U{85}'
    || c == '\U{A0}'
    || c == '\U{1680}'
    || '\U{2000}' <= c <= '\U{200A}'
    || c == '\U{2028}'
    || c == '\U{2029}'
    || c == '\U{202F}'
    || c == '\U{205F}'
    || c == '\U{3000}'
  }

  /** `[\d\s]` */
  predicate IsDigitOrSpace(c: char) {
    IsDigit(c) || IsSpace(c)
  }

  /** `[./-]`, the date separator. */
  predicate IsDateSep(c: char) {
    c == '.' || c == '/' || c == '-'
  }

  /** `[,.]`, the decimal separator of an amount. */
  predicate IsDecimalSep(c: char) {
    c == ',' || c == '.'
  }

  /** `[:\-]`, the separator after the name label. */
  predicate IsLabelSep(c: char) {
    c == ':' || c == '-'
  }

  /** `\.` */
  predicate IsDot(c: char) {
    c == '.'
  }

  /** `[А-ЯЁ]` */
  predicate IsUpperCyrillic(c: char) {
    'А' <= c <= 'Я' || c == 'Ё'
  }

  /** `[а-яё]` */
  predicate IsLowerCyrillic(c: char) {
    'а' <= c <= 'я' || c == 'ё'
  }

  /** Lower-case mapping used by `re.IGNORECASE`, restricted to the Latin
      letters A-Z and the Cyrillic letters А-Я and Ё. */
  function Lower(c: char): (r: char)
    ensures 'A' <= c <= 'Z' ==> 'a' <= r <= 'z' && r as int == c as int + 32
    ensures 'А' <= c <= 'Я' ==> 'а' <= r <= 'я' && r as int == c as int + 32
    ensures c == 'Ё' ==> r == 'ё'
    ensures !('A' <= c <= 'Z' || 'А' <= c <= 'Я' || c == 'Ё') ==> r == c
  {
    if 'A' <= c <= 'Z' || 'А' <= c <= 'Я' then (c as int + 32) as char
    else if c == 'Ё' then 'ё'
    else c
  }

  /** Two characters are equal under `re.IGNORECASE`. */
  predicate FoldEq(c: char, d: char) {
    Lower(c) == Lower(d)
  }
}
