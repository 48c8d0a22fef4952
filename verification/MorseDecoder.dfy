/** The scanner's Morse decoder. */
module MorseDecoder {
  import opened Prelude
  import opened Texts

  const MORSE_MAP: map<string, string> := map[
    ".-" := "a", "-..." := "b", "-.-." := "c", "-.." := "d", "." := "e", "..-." := "f",
    "--." := "g", "...." := "h", ".." := "i", ".---" := "j", "-.-" := "k", ".-.." := "l",
    "--" := "m", "-." := "n", "---" := "o", ".--." := "p", "--.-" := "q", ".-." := "r",
    "..." := "s", "-" := "t", "..-" := "u", "...-" := "v", ".--" := "w", "-..-" := "x",
    "-.--" := "y", "--.." := "z",
    "-----" := "0", ".----" := "1", "..---" := "2", "...--" := "3", "....-" := "4",
    "....." := "5", "-...." := "6", "--..." := "7", "---.." := "8", "----." := "9"
  ]

  /** Length of the word separator a text starts with: a slash with the white space around it, or
      at least three white-space characters; 0 if there is none. */
  function SeparatorLength(t: string): (n: nat)
    ensures n <= |t|
  {
    var n := Spaces(t);
    if n < |t| && t[n] == '/' then n + 1 + Spaces(t[n + 1..])
    else if n >= 3 then n
    else 0
  }

  /** Splits at the leftmost separators; `piece` is what precedes t in its piece. */
  function SplitBy(length: string -> nat, t: string, piece: string): seq<string>
    requires forall s :: length(s) <= |s|
    decreases |t|
  {
    if t == [] then [piece]
    else if length(t) > 0 then [piece] + SplitBy(length, t[length(t)..], [])
    else SplitBy(length, t[1..], piece + [t[0]])
  }

  function Concat(pieces: seq<string>): string {
    if pieces == [] then [] else pieces[0] + Concat(pieces[1..])
  }

  function NonEmpty(pieces: seq<string>): seq<string> {
    if pieces == [] then []
    else (if pieces[0] == [] then [] else [pieces[0]]) + NonEmpty(pieces[1..])
  }

  function DecodeToken(token: string): string { if token in MORSE_MAP then MORSE_MAP[token] else [] }

  function DecodeWord(word: string): string {
    Concat(Map(DecodeToken, SplitBy(Spaces, TrimEnd(TrimStart(word)), [])))
  }

  function DecodeMorse(text: string): string {
    JoinWith(NonEmpty(Map(DecodeWord, SplitBy(SeparatorLength, text, []))), " ")
  }

  // ---- encoding ----

  predicate IsMark(c: char) { c == '.' || c == '-' }

  /** Any code the table has for a letter or digit. */
  predicate Encodes(token: string, c: char) { token in MORSE_MAP && MORSE_MAP[token] == [c] }

  predicate EncodesWord(tokens: seq<string>, word: string) {
    |tokens| == |word| && forall i :: 0 <= i < |word| ==> Encodes(tokens[i], word[i])
  }

  /** A word's tokens, separated by single blanks. */
  function WordText(tokens: seq<string>): string { JoinWith(tokens, " ") }

  predicate AllSpaces(t: string) { forall i :: 0 <= i < |t| ==> IsSpace(t[i]) }

  /** What separates words: a slash in any white space, or a gap of at least three. */
  datatype Separator = Slash(before: string, after: string) | Gap(blank: string)

  predicate IsSeparator(sep: Separator) {
    match sep
    case Slash(before, after) => AllSpaces(before) && AllSpaces(after)
    case Gap(blank) => AllSpaces(blank) && |blank| >= 3
  }

  function SeparatorText(sep: Separator): string {
    match sep
    case Slash(before, after) => before + "/" + after
    case Gap(blank) => blank
  }

  predicate AllMarks(token: string) { token != [] && forall i :: 0 <= i < |token| ==> IsMark(token[i]) }

  lemma ShortTokensAreMarks(token: string)
    requires token in MORSE_MAP && |token| <= 3
    ensures AllMarks(token)
  {
    assert token in MORSE_MAP.Keys;
  }

  lemma MiddleTokensAreMarks(token: string)
    requires token in MORSE_MAP && |token| == 4
    ensures AllMarks(token)
  {
    assert token in MORSE_MAP.Keys;
  }

  lemma LongTokensAreMarks(token: string)
    requires token in MORSE_MAP && |token| >= 5
    ensures AllMarks(token)
  {
    assert token in MORSE_MAP.Keys;
  }

  lemma EncodedTokenIsMarks(token: string, c: char)
    requires Encodes(token, c)
    ensures AllMarks(token)
  {
    if |token| <= 3 {
      ShortTokensAreMarks(token);
    } else if |token| == 4 {
      MiddleTokensAreMarks(token);
    } else {
      LongTokensAreMarks(token);
    }
  }

  /** The characters Morse code has a code for. */
  predicate IsMorseLetter(c: char) { 'a' <= c <= 'z' || '0' <= c <= '9' }

  /** The international code of ITU-R M.1677-1, section 1. */
  function InternationalCode(c: char): string {
    match c
    case 'a' => ".-"
    case 'b' => "-..."
    case 'c' => "-.-."
    case 'd' => "-.."
    case 'e' => "."
    case 'f' => "..-."
    case 'g' => "--."
    case 'h' => "...."
    case 'i' => ".."
    case 'j' => ".---"
    case 'k' => "-.-"
    case 'l' => ".-.."
    case 'm' => "--"
    case 'n' => "-."
    case 'o' => "---"
    case 'p' => ".--."
    case 'q' => "--.-"
    case 'r' => ".-."
    case 's' => "..."
    case 't' => "-"
    case 'u' => "..-"
    case 'v' => "...-"
    case 'w' => ".--"
    case 'x' => "-..-"
    case 'y' => "-.--"
    case 'z' => "--.."
    case '0' => "-----"
    case '1' => ".----"
    case '2' => "..---"
    case '3' => "...--"
    case '4' => "....-"
    case '5' => "....."
    case '6' => "-...."
    case '7' => "--..."
    case '8' => "---.."
    case '9' => "----."
    case _ => ""
  }

  /** The table has the code of c. */
  predicate HasCode(c: char) { Encodes(InternationalCode(c), c) }

  lemma CodesTo4(c: char)
    requires '0' <= c <= '4'
    ensures HasCode(c)
  {
    if c == '0' {
      assert Encodes("-----", '0');
    } else if c == '1' {
      assert Encodes(".----", '1');
    } else if c == '2' {
      assert Encodes("..---", '2');
    } else if c == '3' {
      assert Encodes("...--", '3');
    } else {
      assert Encodes("....-", '4');
    }
  }

  lemma CodesTo9(c: char)
    requires '5' <= c <= '9'
    ensures HasCode(c)
  {
    if c == '5' {
      assert Encodes(".....", '5');
    } else if c == '6' {
      assert Encodes("-....", '6');
    } else if c == '7' {
      assert Encodes("--...", '7');
    } else if c == '8' {
      assert Encodes("---..", '8');
    } else {
      assert Encodes("----.", '9');
    }
  }

  lemma CodesToE(c: char)
    requires 'a' <= c <= 'e'
    ensures HasCode(c)
  {
    if c == 'a' {
      assert Encodes(".-", 'a');
    } else if c == 'b' {
      assert Encodes("-...", 'b');
    } else if c == 'c' {
      assert Encodes("-.-.", 'c');
    } else if c == 'd' {
      assert Encodes("-..", 'd');
    } else {
      assert Encodes(".", 'e');
    }
  }

  lemma CodesToJ(c: char)
    requires 'f' <= c <= 'j'
    ensures HasCode(c)
  {
    if c == 'f' {
      assert Encodes("..-.", 'f');
    } else if c == 'g' {
      assert Encodes("--.", 'g');
    } else if c == 'h' {
      assert Encodes("....", 'h');
    } else if c == 'i' {
      assert Encodes("..", 'i');
    } else {
      assert Encodes(".---", 'j');
    }
  }

  lemma CodesToO(c: char)
    requires 'k' <= c <= 'o'
    ensures HasCode(c)
  {
    if c == 'k' {
      assert Encodes("-.-", 'k');
    } else if c == 'l' {
      assert Encodes(".-..", 'l');
    } else if c == 'm' {
      assert Encodes("--", 'm');
    } else if c == 'n' {
      assert Encodes("-.", 'n');
    } else {
      assert Encodes("---", 'o');
    }
  }

  lemma CodesToT(c: char)
    requires 'p' <= c <= 't'
    ensures HasCode(c)
  {
    if c == 'p' {
      assert Encodes(".--.", 'p');
    } else if c == 'q' {
      assert Encodes("--.-", 'q');
    } else if c == 'r' {
      assert Encodes(".-.", 'r');
    } else if c == 's' {
      assert Encodes("...", 's');
    } else {
      assert Encodes("-", 't');
    }
  }

  lemma CodesToZ(c: char)
    requires 'u' <= c <= 'z'
    ensures HasCode(c)
  {
    if c == 'u' {
      assert Encodes("..-", 'u');
    } else if c == 'v' {
      assert Encodes("...-", 'v');
    } else if c == 'w' {
      assert Encodes(".--", 'w');
    } else if c == 'x' {
      assert Encodes("-..-", 'x');
    } else if c == 'y' {
      assert Encodes("-.--", 'y');
    } else {
      assert Encodes("--..", 'z');
    }
  }

  /** The table has the international code of every letter and digit. */
  lemma EveryLetterHasCode(c: char)
    requires IsMorseLetter(c)
    ensures HasCode(c)
  {
    if c <= '9' {
      if c <= '4' { CodesTo4(c); } else { CodesTo9(c); }
    } else if c <= 'j' {
      if c <= 'e' { CodesToE(c); } else { CodesToJ(c); }
    } else if c <= 'o' {
      CodesToO(c);
    } else {
      if c <= 't' { CodesToT(c); } else { CodesToZ(c); }
    }
  }

  ghost function CodeOf(c: char): (token: string)
    requires IsMorseLetter(c)
    ensures Encodes(token, c)
  {
    EveryLetterHasCode(c);
    InternationalCode(c)
  }

  predicate IsMorseWord(word: string) { word != [] && forall i :: 0 <= i < |word| ==> IsMorseLetter(word[i]) }

  ghost function EncodeWord(word: string): (tokens: seq<string>)
    requires IsMorseWord(word)
    ensures EncodesWord(tokens, word)
  {
    seq(|word|, i requires 0 <= i < |word| => CodeOf(word[i]))
  }

  predicate AreMorseWords(words: seq<string>) { forall k :: 0 <= k < |words| ==> IsMorseWord(words[k]) }

  ghost function EncodeWords(words: seq<string>): (code: seq<seq<string>>)
    requires AreMorseWords(words)
    ensures |code| == |words| && forall k :: 0 <= k < |words| ==> EncodesWord(code[k], words[k])
  {
    seq(|words|, k requires 0 <= k < |words| => EncodeWord(words[k]))
  }

  /** Words in Morse code: letters separated by blanks, words by one separator. */
  ghost function EncodeMorse(words: seq<string>, sep: Separator): string
    requires AreMorseWords(words)
  {
    JoinWith(Map(WordText, EncodeWords(words)), SeparatorText(sep))
  }

  /** Nowhere inside w does a separator start. */
  ghost predicate Quiet(length: string -> nat, w: string, tail: string) {
    forall i :: 0 <= i < |w| ==> length(w[i..] + tail) == 0
  }

  lemma {:induction false} SplitPastQuiet(length: string -> nat, w: string, tail: string, piece: string)
    requires (forall s :: length(s) <= |s|) && Quiet(length, w, tail)
    ensures SplitBy(length, w + tail, piece) == SplitBy(length, tail, piece + w)
  {
    if w == [] {
      assert w + tail == tail && piece + w == piece;
    } else {
      forall i | 0 <= i < |w[1..]| ensures length(w[1..][i..] + tail) == 0 { assert w[1..][i..] == w[i + 1..]; }
      SplitPastQuiet(length, w[1..], tail, piece + [w[0]]);
      assert w[0..] == w;
      assert (w + tail)[1..] == w[1..] + tail && piece + w == piece + [w[0]] + w[1..];
    }
  }

  lemma SplitLast(length: string -> nat, w: string)
    requires (forall s :: length(s) <= |s|) && Quiet(length, w, [])
    ensures SplitBy(length, w, []) == [w]
  {
    SplitPastQuiet(length, w, [], []);
    assert w + [] == w && [] + w == w;
  }

  lemma SplitFirst(length: string -> nat, w: string, sep: string, rest: string)
    requires (forall s :: length(s) <= |s|) && Quiet(length, w, sep + rest)
    requires sep != [] && length(sep + rest) == |sep|
    ensures SplitBy(length, w + sep + rest, []) == [w] + SplitBy(length, rest, [])
  {
    SplitPastQuiet(length, w, sep + rest, []);
    assert w + sep + rest == w + (sep + rest) && [] + w == w;
    assert (sep + rest)[|sep|..] == rest;
  }

  // ---- one word ----

  lemma MarksAreQuiet(token: string, tail: string)
    requires forall i :: 0 <= i < |token| ==> IsMark(token[i])
    ensures Quiet(Spaces, token, tail)
  {
    forall i | 0 <= i < |token| ensures Spaces(token[i..] + tail) == 0 { assert (token[i..] + tail)[0] == token[i]; }
  }

  /** Starts and ends with a mark, and has no two blanks in a row. */
  predicate WordShaped(w: string) {
    && w != [] && IsMark(w[0]) && IsMark(w[|w| - 1])
    && forall i :: 0 <= i < |w| ==> IsMark(w[i]) || (w[i] == ' ' && i + 1 < |w| && IsMark(w[i + 1]))
  }

  lemma ShapeOfLonger(first: string, rest: string)
    requires first != [] && (forall i :: 0 <= i < |first| ==> IsMark(first[i])) && WordShaped(rest)
    ensures WordShaped(first + " " + rest)
  {
    var w, n := first + " " + rest, |first|;
    assert w[n] == ' ' && w[n + 1] == rest[0];
    forall i | 0 <= i < |w| ensures IsMark(w[i]) || (w[i] == ' ' && i + 1 < |w| && IsMark(w[i + 1])) {
      if i < n {
        assert w[i] == first[i];
      } else if i > n {
        assert w[i] == rest[i - n - 1];
        if i + 1 < |w| { assert w[i + 1] == rest[i - n]; }
      }
    }
  }

  lemma {:induction false} MarkTokensShape(tokens: seq<string>)
    requires tokens != [] && forall k :: 0 <= k < |tokens| ==> AllMarks(tokens[k])
    ensures WordShaped(WordText(tokens))
  {
    assert AllMarks(tokens[0]);
    if |tokens| > 1 {
      MarkTokensShape(tokens[1..]);
      ShapeOfLonger(tokens[0], WordText(tokens[1..]));
    }
  }

  lemma FirstTokenSplits(first: string, rest: string)
    requires (forall i :: 0 <= i < |first| ==> IsMark(first[i])) && rest != [] && IsMark(rest[0])
    ensures SplitBy(Spaces, first + " " + rest, []) == [first] + SplitBy(Spaces, rest, [])
  {
    BlankThenMark(rest);
    MarksAreQuiet(first, " " + rest);
    SplitFirst(Spaces, first, " ", rest);
  }

  lemma {:induction false} MarkTokensSplit(tokens: seq<string>)
    requires tokens != [] && forall k :: 0 <= k < |tokens| ==> AllMarks(tokens[k])
    ensures SplitBy(Spaces, WordText(tokens), []) == tokens
  {
    assert AllMarks(tokens[0]);
    if |tokens| == 1 {
      MarksAreQuiet(tokens[0], []);
      SplitLast(Spaces, tokens[0]);
    } else {
      MarkTokensSplit(tokens[1..]);
      MarkTokensShape(tokens[1..]);
      FirstTokenSplits(tokens[0], WordText(tokens[1..]));
      assert tokens == [tokens[0]] + tokens[1..];
    }
  }

  lemma EncodedWord(tokens: seq<string>, word: string)
    requires EncodesWord(tokens, word) && word != []
    ensures WordShaped(WordText(tokens)) && SplitBy(Spaces, WordText(tokens), []) == tokens
  {
    forall k | 0 <= k < |tokens| ensures AllMarks(tokens[k]) { EncodedTokenIsMarks(tokens[k], word[k]); }
    MarkTokensShape(tokens);
    MarkTokensSplit(tokens);
  }

  lemma BlankThenMark(rest: string)
    requires rest != [] && IsMark(rest[0])
    ensures Spaces(" " + rest) == 1
  {
    assert (" " + rest)[1..] == rest;
  }

  lemma {:induction false} TokensSpellWord(tokens: seq<string>, word: string)
    requires EncodesWord(tokens, word)
    ensures Concat(Map(DecodeToken, tokens)) == word
  {
    if tokens != [] {
      TokensSpellWord(tokens[1..], word[1..]);
      assert Map(DecodeToken, tokens)[1..] == Map(DecodeToken, tokens[1..]);
      assert Encodes(tokens[0], word[0]);
      assert word == [word[0]] + word[1..];
    }
  }

  lemma WordDecodes(tokens: seq<string>, word: string)
    requires EncodesWord(tokens, word) && word != []
    ensures DecodeWord(WordText(tokens)) == word
  {
    EncodedWord(tokens, word);
    TokensSpellWord(tokens, word);
    assert TrimStart(WordText(tokens)) == WordText(tokens);
  }

  // ---- many words ----

  lemma {:induction false} SpacesOf(ws: string, t: string)
    requires AllSpaces(ws) && (t == [] || !IsSpace(t[0]))
    ensures Spaces(ws + t) == |ws|
  {
    if ws == [] {
      assert ws + t == t;
    } else {
      SpacesOf(ws[1..], t);
      assert (ws + t)[0] == ws[0] && (ws + t)[1..] == ws[1..] + t;
    }
  }

  lemma SpacesToSlash(before: string, after: string)
    requires AllSpaces(before)
    ensures Spaces(before + "/" + after) == |before|
  {
    SpacesOf(before, "/" + after);
    assert before + "/" + after == before + ("/" + after);
  }

  lemma SlashBeforeWord(before: string, after: string, rest: string)
    requires AllSpaces(before) && AllSpaces(after) && rest != [] && IsMark(rest[0])
    ensures SeparatorLength(before + "/" + after + rest) == |before| + 1 + |after|
  {
    var t := before + "/" + after + rest;
    assert t == before + "/" + (after + rest);
    SpacesToSlash(before, after + rest);
    assert t[|before|] == '/' && t[|before| + 1..] == after + rest;
    SpacesOf(after, rest);
  }

  lemma GapBeforeWord(blank: string, rest: string)
    requires AllSpaces(blank) && |blank| >= 3 && rest != [] && IsMark(rest[0])
    ensures SeparatorLength(blank + rest) == |blank|
  {
    SpacesOf(blank, rest);
    assert (blank + rest)[|blank|] == rest[0];
  }

  lemma SeparatorBeforeWord(sep: Separator, rest: string)
    requires IsSeparator(sep) && rest != [] && IsMark(rest[0])
    ensures SeparatorLength(SeparatorText(sep) + rest) == |SeparatorText(sep)|
  {
    match sep
    case Slash(before, after) => SlashBeforeWord(before, after, rest);
    case Gap(blank) => GapBeforeWord(blank, rest);
  }

  lemma WordIsQuiet(w: string, tail: string)
    requires WordShaped(w)
    ensures Quiet(SeparatorLength, w, tail)
  {
    forall i | 0 <= i < |w| ensures SeparatorLength(w[i..] + tail) == 0 {
      var t := w[i..] + tail;
      assert t[0] == w[i];
      if w[i] == ' ' {
        assert t[1] == w[i + 1] && t[1..][0] == t[1];
        assert Spaces(t[1..]) == 0;
      }
    }
  }

  lemma FirstWordSplits(word: string, sep: Separator, rest: string)
    requires WordShaped(word) && IsSeparator(sep) && rest != [] && IsMark(rest[0])
    ensures var t := word + SeparatorText(sep) + rest;
      && SplitBy(SeparatorLength, t, []) == [word] + SplitBy(SeparatorLength, rest, [])
      && t != [] && IsMark(t[0])
  {
    var between := SeparatorText(sep);
    WordIsQuiet(word, between + rest);
    SeparatorBeforeWord(sep, rest);
    SplitFirst(SeparatorLength, word, between, rest);
  }

  lemma {:induction false} WordsSplit(words: seq<string>, sep: Separator)
    requires words != [] && IsSeparator(sep) && forall k :: 0 <= k < |words| ==> WordShaped(words[k])
    ensures SplitBy(SeparatorLength, JoinWith(words, SeparatorText(sep)), []) == words
    ensures var t := JoinWith(words, SeparatorText(sep)); t != [] && IsMark(t[0])
  {
    if |words| == 1 {
      WordIsQuiet(words[0], []);
      SplitLast(SeparatorLength, words[0]);
    } else {
      WordsSplit(words[1..], sep);
      FirstWordSplits(words[0], sep, JoinWith(words[1..], SeparatorText(sep)));
      assert words == [words[0]] + words[1..];
    }
  }

  lemma {:induction false} NonEmptyKeepsAll(pieces: seq<string>)
    requires forall k :: 0 <= k < |pieces| ==> pieces[k] != []
    ensures NonEmpty(pieces) == pieces
  {
    if pieces != [] {
      NonEmptyKeepsAll(pieces[1..]);
      assert pieces == [pieces[0]] + pieces[1..];
    }
  }

  /** However each letter is coded, if the table reads it back, the words decode to themselves. */
  lemma AnyCodeDecodes(words: seq<string>, code: seq<seq<string>>, sep: Separator)
    requires words != [] && |code| == |words| && IsSeparator(sep)
    requires forall k :: 0 <= k < |words| ==> words[k] != [] && EncodesWord(code[k], words[k])
    ensures DecodeMorse(JoinWith(Map(WordText, code), SeparatorText(sep))) == JoinWith(words, " ")
  {
    var texts := Map(WordText, code);
    forall k | 0 <= k < |words| ensures WordShaped(texts[k]) && DecodeWord(texts[k]) == words[k] {
      EncodedWord(code[k], words[k]);
      WordDecodes(code[k], words[k]);
    }
    WordsSplit(texts, sep);
    assert Map(DecodeWord, texts) == words;
    NonEmptyKeepsAll(words);
  }

  /** Any words of letters and digits, coded with single blanks between letters and any one
      separator between words, decode to the words with single blanks between them. */
  lemma MorseRoundTrip(words: seq<string>, sep: Separator)
    requires IsSeparator(sep) && AreMorseWords(words)
    ensures DecodeMorse(EncodeMorse(words, sep)) == JoinWith(words, " ")
  {
    if words == [] {
      assert Map(WordText, EncodeWords(words)) == [];
      NothingDecodes();
    } else {
      AnyCodeDecodes(words, EncodeWords(words), sep);
    }
  }

  lemma NoTokenDecodes()
    ensures DecodeToken("") == ""
  {
    assert "" !in MORSE_MAP.Keys;
  }

  lemma OnePieceConcat(f: string -> string, p: string)
    ensures Concat(Map(f, [p])) == f(p)
  {
    assert Map(f, [p]) == [f(p)];
    assert [f(p)][1..] == [];
  }

  lemma NoTokens()
    ensures SplitBy(Spaces, TrimEnd(TrimStart("")), []) == [""]
  {
  }

  lemma NoWordDecodes()
    ensures DecodeWord("") == ""
  {
    NoTokens();
    OnePieceConcat(DecodeToken, "");
    NoTokenDecodes();
  }

  lemma NoPieceRemains(f: string -> string, p: string)
    requires f(p) == ""
    ensures NonEmpty(Map(f, [p])) == []
  {
    assert Map(f, [p]) == [""];
    assert [""][1..] == [];
  }

  lemma NothingDecodes()
    ensures DecodeMorse("") == ""
  {
    NoWordDecodes();
    assert SplitBy(SeparatorLength, "", []) == [""];
    NoPieceRemains(DecodeWord, "");
  }
}
