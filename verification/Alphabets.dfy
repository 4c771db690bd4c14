/** The letters and digits, spelled out, and that the C library's tests accept just these. */
module Alphabets {
  import opened Ctype

  const UPPER: string := "ABCDEFGHIJKLMNOPQRSTUVWXYZ"
  const LOWER: string := "abcdefghijklmnopqrstuvwxyz"
  const DIGIT: string := "0123456789"
  const HEXDIG: string := "0123456789abcdefABCDEF"

  lemma UpperIs(c: char)
    ensures 'A' <= c <= 'Z' <==> c in UPPER
  {
  }

  lemma LowerIs(c: char)
    ensures 'a' <= c <= 'z' <==> c in LOWER
  {
  }

  lemma LetterIs(c: char)
    ensures IsAlpha(c) <==> c in UPPER || c in LOWER
  {
    UpperIs(c);
    LowerIs(c);
  }

  lemma DigitIs(c: char)
    ensures IsDigit(c) <==> c in DIGIT
    ensures IsXDigit(c) <==> c in HEXDIG
  {
  }

  lemma SpaceIs(c: char)
    ensures IsSpace(c) <==> c in " \t\n\r" || c as int == 11 || c as int == 12
  {
  }

  /** Each capital letter goes to the small letter at its place in the alphabet, and nothing else changes. */
  lemma ToLowerIs(c: char, i: nat)
    requires i < 26
    ensures ToLower(UPPER[i]) == LOWER[i]
    ensures c !in UPPER ==> ToLower(c) == c
  {
    UpperIs(c);
  }
}
