/** Character classes of the CTF grammar: one-character predicates the line
    parser is built from.  None of them accepts the NUL that ends a line. */
module CtfChars {

  const SPACE_CHAR: char := ' '
  const TAB_CHAR: char := '\t'
  const NAME_PREFIX: char := '|'
  const INDEX_DELIMITER: char := ':'
  const ESCAPE_SYMBOL: char := '#'

  predicate IsNamePrefix(c: char) { c == NAME_PREFIX }

  /** A comment starts with the same character as a name; only the `#` after it tells them apart. */
  predicate IsCommentPrefix(c: char) { IsNamePrefix(c) }

  predicate IsCommentSuffix(c: char) { c == ESCAPE_SYMBOL }

  predicate IsDecimalPoint(c: char) { c == '.' }

  predicate IsSparseValueDelimiter(c: char) { c == INDEX_DELIMITER }

  predicate IsDigit(c: char) { '0' <= c <= '9' }

  predicate IsAlpha(c: char) { ('a' <= c <= 'z') || ('A' <= c <= 'Z') }

  predicate IsSign(c: char) { c == '+' || c == '-' }

  /** A character that may start (or continue) a numeric value. */
  predicate IsNumber(c: char) { IsDigit(c) || IsDecimalPoint(c) || IsSign(c) }

  predicate IsPrintable(c: char) { c >= SPACE_CHAR }

  predicate IsNonPrintable(c: char) { !IsPrintable(c) }

  predicate IsValueDelimiter(c: char) { c == SPACE_CHAR || c == TAB_CHAR }

  predicate IsEOL(c: char) { c == '\r' || c == '\n' }

  predicate IsEscapeDelimiter(c: char) { c == '\'' || c == '"' }

  predicate IsColumnDelimiter(c: char) { IsValueDelimiter(c) || (IsNonPrintable(c) && !IsEOL(c)) }

  /** A number starts with exactly the eleven characters 0-9 . + - */
  lemma NumberStartIsDigitPointOrSign(c: char)
    ensures IsNumber(c) <==> c in "0123456789.+-"
  {
  }

  /** `|` is both the name prefix and the comment prefix, and nothing else is either. */
  lemma PrefixesCoincide(c: char)
    ensures IsCommentPrefix(c) <==> IsNamePrefix(c)
    ensures IsNamePrefix(c) <==> c == '|'
    ensures IsCommentSuffix(c) <==> c == '#'
  {
  }

  /** The line terminator NUL is neither a value delimiter nor an end of line,
      and no class used to continue a token accepts it. */
  lemma NulBelongsToNoTokenClass()
    ensures !IsValueDelimiter('\0') && !IsEOL('\0')
    ensures !IsNumber('\0') && !IsNamePrefix('\0') && !IsDigit('\0') && !IsAlpha('\0')
    ensures !IsSparseValueDelimiter('\0') && !IsEscapeDelimiter('\0')
  {
  }

  /** Digits and letters are disjoint ASCII ranges; a digit is a number start, a letter is not. */
  lemma DigitsAndLettersDisjoint(c: char)
    ensures !(IsDigit(c) && IsAlpha(c))
    ensures IsDigit(c) ==> IsNumber(c)
    ensures IsAlpha(c) ==> !IsNumber(c)
  {
  }

  /** A column delimiter is a space, a tab, or a control character other than CR and LF. */
  lemma ColumnDelimiterCharacterisation(c: char)
    ensures IsColumnDelimiter(c) <==> (c == ' ' || c == '\t' || (c < ' ' && c != '\r' && c != '\n'))
    ensures IsColumnDelimiter('\0') && !IsColumnDelimiter('\n')
  {
  }

  /** Only the single and the double quote escape a `|` inside a comment. */
  lemma EscapeDelimiterCharacterisation(c: char)
    ensures IsEscapeDelimiter(c) <==> c in "'\""
  {
  }

  /** The separators the parser skips (value delimiters and line ends) never start a token. */
  lemma SeparatorsAreNotTokens(c: char)
    ensures IsValueDelimiter(c) ==> !IsEOL(c) && !IsNumber(c) && !IsNamePrefix(c)
    ensures IsEOL(c) ==> !IsNumber(c) && !IsNamePrefix(c)
    ensures IsNumber(c) ==> !IsNamePrefix(c) && !IsSparseValueDelimiter(c)
  {
  }
}
