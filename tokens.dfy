/** Tokens produced by the tokenizer, and the closed set of type tags they carry. */
module Tokens {

  // The type tags of LongLexTo.go; PUNC is spelled "SPECIAL" in the source.
  const SPACE: string := "SPACE"
  const NUMBER: string := "NUMBER"
  const WESTERN: string := "WESTERN"
  const THAI: string := "THAI"
  const PUNC: string := "SPECIAL"
  const TAG: string := "TAG"

  /** The tags the scanner ever writes into a token. */
  predicate IsKnownType(textType: string) {
    textType in {SPACE, NUMBER, WESTERN, THAI, PUNC, TAG}
  }

  /** A piece of the input together with its type tag. */
  datatype Token = Token(text: string, textType: string) {

    function GetText(): string { text }

    function GetTextType(): string { textType }

    predicate IsSpace() { textType == SPACE }

    predicate IsNumber() { textType == NUMBER }

    predicate IsSymbol() { textType == PUNC }

    predicate IsHTML() { textType == TAG }

    /** How many of the four tag predicates hold. */
    function KindCount(): nat {
      (if IsSpace() then 1 else 0) + (if IsNumber() then 1 else 0) +
      (if IsSymbol() then 1 else 0) + (if IsHTML() then 1 else 0)
    }
  }

  /** The zero value `Token{}` that the cursor hands out past either end. */
  const EmptyToken: Token := Token("", "")

  /** The accessors give back exactly what the token was built from. */
  lemma AccessorsRoundTrip(text: string, textType: string)
    ensures Token(text, textType).GetText() == text
    ensures Token(text, textType).GetTextType() == textType
  {
  }

  /** The six tags are pairwise distinct strings: they differ in their first
      letters, except SPACE/SPECIAL and THAI/TAG, which differ in their third
      and second. */
  lemma TypeTagsDistinct()
    ensures |{SPACE, NUMBER, WESTERN, THAI, PUNC, TAG}| == 6
  {
  }

  /** At most one of the four tag predicates holds of any token. */
  lemma KindsExclusive(t: Token)
    ensures t.KindCount() <= 1
  {
  }

  /** Each predicate holds exactly for its own tag, so a token of a known type is
      space, number, symbol or markup precisely when its tag says so, and the
      WESTERN and THAI tags satisfy none of them. */
  lemma KindFollowsTag(t: Token)
    requires IsKnownType(t.textType)
    ensures t.KindCount() == 1 <==> t.textType in {SPACE, NUMBER, PUNC, TAG}
    ensures t.KindCount() == 0 <==> t.textType in {WESTERN, THAI}
  {
  }

  /** The zero token satisfies none of the predicates. */
  lemma EmptyTokenHasNoKind()
    ensures EmptyToken.KindCount() == 0
    ensures !IsKnownType(EmptyToken.textType)
  {
  }
}
