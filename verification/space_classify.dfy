/** The older copy of the rune classifier (space/classify.go), used by the
    older Markdown handler. */
module SpaceClassify {
  import GoStrings
  import Classify

  predicate IsZh(c: char) {
    '\U{4E00}' <= c <= '\U{9FA5}'
  }

  predicate IsDigit(c: char) {
    GoStrings.IsDigit(c)
  }

  predicate IsAlpha(c: char) {
    ('a' <= c <= 'z') || ('A' <= c <= 'Z')
  }

  const EnSymbols: seq<char> :=
    [':', ';', '%', '!', '?', '\U{00B0}', '_',
     '<', '=', '>', '"', '$', '&', '\'', ',', '.',
     '/', '@', '\\', '^', '|']

  predicate IsGeneralEnSymbol(c: char) {
    c in EnSymbols
  }

  predicate IsGeneralEn(c: char) {
    IsDigit(c) || IsAlpha(c) || IsGeneralEnSymbol(c)
  }

  const MarkdownSymbols: seq<char> := ['*', '`']

  predicate IsMarkdownEnSymbol(c: char) {
    c in MarkdownSymbols
  }

  predicate IsEnLeftBracket(c: char) {
    c == '(' || c == '['
  }

  predicate IsEnRightBracket(c: char) {
    c == ')' || c == ']'
  }

  /** Each predicate agrees with its namesake in the newer classifier. */
  lemma AgreesWithClassify(c: char)
    ensures IsZh(c) == Classify.IsZh(c)
    ensures IsDigit(c) == Classify.IsDigit(c)
    ensures IsAlpha(c) == Classify.IsAlpha(c)
    ensures IsGeneralEnSymbol(c) == Classify.IsGeneralEnSymbol(c)
    ensures IsGeneralEn(c) == Classify.IsGeneralEn(c)
    ensures IsMarkdownEnSymbol(c) == Classify.IsMarkdownEnSymbol(c)
    ensures IsEnLeftBracket(c) == Classify.IsEnLeftBracket(c)
    ensures IsEnRightBracket(c) == Classify.IsEnRightBracket(c)
  {
  }

  /** The markers and brackets are excluded from the Latin class and are
      not ideographs. */
  lemma MarkupIsNeutral(c: char)
    requires c in "*`()[]"
    ensures !IsGeneralEn(c) && !IsZh(c)
  {
  }

  /** Ideographs and Latin runes are disjoint. */
  lemma ZhNotGeneralEn(c: char)
    ensures !(IsZh(c) && IsGeneralEn(c))
  {
    if IsZh(c) {
      GoStrings.NoDigitAmongIdeographs(c);
    }
  }
}
