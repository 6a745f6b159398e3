/** The rune classifier of the formatter (utils.go). */
module Classify {
  import GoStrings

  /** A CJK unified ideograph in U+4E00..U+9FA5. */
  predicate IsZh(c: char) {
    '\U{4E00}' <= c <= '\U{9FA5}'
  }

  /** unicode.IsDigit */
  predicate IsDigit(c: char) {
    GoStrings.IsDigit(c)
  }

  /** An ASCII letter. */
  predicate IsAlpha(c: char) {
    ('a' <= c <= 'z') || ('A' <= c <= 'Z')
  }

  /** The 21 symbols that space like Latin letters. */
  const EnSymbols: seq<char> :=
    [':', ';', '%', '!', '?', '\U{00B0}', '_',
     '<', '=', '>', '"', '$', '&', '\'', ',', '.',
     '/', '@', '\\', '^', '|']

  predicate IsGeneralEnSymbol(c: char) {
    c in EnSymbols
  }

  /** Digits, ASCII letters and the symbols above; Markdown's * ` ( ) [ ]
      are deliberately not among them. */
  predicate IsGeneralEn(c: char) {
    IsDigit(c) || IsAlpha(c) || IsGeneralEnSymbol(c)
  }

  /** The Markdown emphasis and inline-code markers. */
  const MarkdownSymbols: seq<char> := ['*', '`']

  predicate IsMarkdownEnSymbol(c: char) {
    c in MarkdownSymbols
  }

  predicate IsEnLeftBracket(c: char) {
    c == '(' || c == '['
  }

  predicate IsEnRightBracket(c: char) {
    c == ')' || c == ']'
  }

  /** On ASCII runes the Latin class is exactly: a letter, a digit, or one of
      : ; % ! ? _ < = > " $ & ' , . / @ \ ^ | (the remaining symbol of the
      21, the degree sign, lies outside ASCII). */
  lemma AsciiGeneralEn(c: char)
    requires c as int < 0x80
    ensures IsGeneralEn(c) <==>
      ('0' <= c <= '9') || ('a' <= c <= 'z') || ('A' <= c <= 'Z') ||
      c in ":;%!?_<=>\"$&',./@\\^|"
    ensures !IsZh(c)
  {
    GoStrings.AsciiDigits(c);
    assert IsGeneralEnSymbol(c) <==> c in ":;%!?_<=>\"$&',./@\\^|";
  }

  /** No ideograph is a Latin rune, so the base rule never applies to two
      ideographs or to two Latin runes. */
  lemma ZhNotGeneralEn(c: char)
    ensures !(IsZh(c) && IsGeneralEn(c))
  {
    if IsZh(c) {
      GoStrings.NoDigitAmongIdeographs(c);
    }
  }

  /** The markers, the brackets and the space are neither Latin nor
      ideographs: they never trigger the base spacing rule themselves. */
  lemma MarkupIsNeutral(c: char)
    requires c in "*`()[] "
    ensures !IsGeneralEn(c) && !IsZh(c)
    ensures IsMarkdownEnSymbol(c) <==> c == '*' || c == '`'
    ensures IsEnLeftBracket(c) <==> c == '(' || c == '['
    ensures IsEnRightBracket(c) <==> c == ')' || c == ']'
  {
  }

  /** IsAlpha accepts ASCII letters only. */
  lemma AlphaIsAscii(c: char)
    requires IsAlpha(c)
    ensures c as int < 0x80 && IsGeneralEn(c) && !IsZh(c)
  {
  }

  /** The markdown marker set is exactly { '*', '`' }, and the bracket sets
      are disjoint from it. */
  lemma MarkerSets(c: char)
    ensures IsMarkdownEnSymbol(c) <==> c == '*' || c == '`'
    ensures IsMarkdownEnSymbol(c) ==> !IsEnLeftBracket(c) && !IsEnRightBracket(c)
    ensures IsEnLeftBracket(c) ==> !IsEnRightBracket(c)
  {
  }
}
