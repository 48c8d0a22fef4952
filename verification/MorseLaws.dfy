/** Where the Morse decoder splits, and what it reads. */
module MorseLaws {
  import opened Prelude
  import opened Texts
  import opened MorseDecoder

  lemma {:induction false} SpacesExactly(t: string, n: nat)
    ensures n <= Spaces(t) <==> n <= |t| && forall i :: 0 <= i < n ==> IsSpace(t[i])
  {
    if t != [] && IsSpace(t[0]) && n > 0 {
      SpacesExactly(t[1..], n - 1);
      assert forall i :: 0 < i < |t| ==> t[i] == t[1..][i - 1];
      if n <= |t| && forall i :: 0 <= i < n ==> IsSpace(t[i]) {
        forall i | 0 <= i < n - 1 ensures IsSpace(t[1..][i]) { assert IsSpace(t[i + 1]); }
      }
    }
  }

  /** A text starts with a separator exactly if it starts with three white-space characters, or with a
      slash after any number of them; one or two blanks alone stay inside a word. */
  lemma SeparatorExactly(t: string)
    ensures SeparatorLength(t) > 0 <==>
      (|t| >= 3 && IsSpace(t[0]) && IsSpace(t[1]) && IsSpace(t[2]))
      || exists n :: 0 <= n < |t| && t[n] == '/' && forall i :: 0 <= i < n ==> IsSpace(t[i])
  {
    SpacesExactly(t, 3);
    SpacesExactly(t, Spaces(t));
    if n :| 0 <= n < |t| && t[n] == '/' && forall i :: 0 <= i < n ==> IsSpace(t[i]) {
      SpacesExactly(t, n);
      SpacesExactly(t, n + 1);
    }
  }

  /** A token that is not the code of a letter or digit is read as nothing. */
  lemma OnlyCodesDecode(token: string)
    ensures DecodeToken(token) == "" || exists c :: IsMorseLetter(c) && Encodes(token, c)
  {
    if token in MORSE_MAP {
      var text := ReadsOneLetter(token);
      assert Encodes(token, text);
    }
  }

  lemma ReadsOneLetter(token: string) returns (c: char)
    requires token in MORSE_MAP
    ensures IsMorseLetter(c) && MORSE_MAP[token] == [c]
  {
    assert token in MORSE_MAP.Keys;
    c := MORSE_MAP[token][0];
  }
}
