/** The characters of names and identifiers, as lists. */
module Alphabets {

  /** The 26 letters from `first` on. */
  function Alphabet(first: char): (letters: seq<char>)
    requires first == 'A' || first == 'a'
    ensures |letters| == 26 && forall i :: 0 <= i < 26 ==> letters[i] as int == first as int + i
  {
    seq(26, i requires 0 <= i < 26 => (first as int + i) as char)
  }

  const DIGITS := "0123456789"

  lemma LetterIff(c: char)
    ensures c in Alphabet('A') <==> 'A' <= c <= 'Z'
    ensures c in Alphabet('a') <==> 'a' <= c <= 'z'
    ensures c in DIGITS <==> '0' <= c <= '9'
  {
    if 'A' <= c <= 'Z' { assert Alphabet('A')[c as int - 'A' as int] == c; }
    if 'a' <= c <= 'z' { assert Alphabet('a')[c as int - 'a' as int] == c; }
    if '0' <= c <= '9' { assert DIGITS[c as int - '0' as int] == c; }
  }

  lemma EveryLetter()
    ensures forall c: char :: c in Alphabet('A') <==> 'A' <= c <= 'Z'
    ensures forall c: char :: c in Alphabet('a') <==> 'a' <= c <= 'z'
    ensures forall c: char :: c in DIGITS <==> '0' <= c <= '9'
  {
    hide DIGITS;
    forall c: char ensures c in Alphabet('A') <==> 'A' <= c <= 'Z'
                   ensures c in Alphabet('a') <==> 'a' <= c <= 'z'
                   ensures c in DIGITS <==> '0' <= c <= '9' {
      LetterIff(c);
    }
  }
}
