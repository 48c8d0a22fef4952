/** The scanner's decoders letter by letter. */
module ScannerLaws {
  import opened Prelude
  import opened ScannerDecoders

  // The alphabet of section 6 of RFC 4648.
  const BASE32_ALPHABET := "ABCDEFGHIJKLMNOPQRSTUVWXYZ234567"

  lemma AlphabetRuns(v: nat)
    requires v < 32
    ensures |BASE32_ALPHABET| == 32
    ensures BASE32_ALPHABET[v] as int == if v < 26 then 65 + v else 50 + v - 26
  {
  }

  /** Letters are read and written by their place in the alphabet, and nothing else is a letter. */
  lemma AlphabetExactly(v: nat, c: char)
    requires v < |BASE32_ALPHABET|
    ensures IndexOf(BASE32_ALPHABET[v]) == Some(v) && Letter(v) == BASE32_ALPHABET[v]
    ensures IndexOf(c).Some? ==> IndexOf(c).value < |BASE32_ALPHABET| && BASE32_ALPHABET[IndexOf(c).value] == c
  {
    AlphabetRuns(v);
    if IndexOf(c).Some? { AlphabetRuns(IndexOf(c).value); }
  }

  const ALPHABET := "abcdefghijklmnopqrstuvwxyz"

  lemma AlphabetRun(k: nat)
    requires k < 26
    ensures |ALPHABET| == 26 && ALPHABET[k] as int == 97 + k
  {
  }

  /** Each letter moves thirteen places on in the alphabet, round its end, in its own case; all else
      stays. */
  lemma Rot13Exactly(text: string, i: nat, k: nat)
    requires i < |text| && k < |ALPHABET|
    ensures |Rot13(text)| == |text|
    ensures text[i] == ALPHABET[k] ==> Rot13(text)[i] == ALPHABET[(k + 13) % 26]
    ensures text[i] == Upper(ALPHABET[k]) ==> Rot13(text)[i] == Upper(ALPHABET[(k + 13) % 26])
    ensures !('a' <= text[i] <= 'z') && !('A' <= text[i] <= 'Z') ==> Rot13(text)[i] == text[i]
  {
    AlphabetRun(k);
    AlphabetRun((k + 13) % 26);
  }
}
