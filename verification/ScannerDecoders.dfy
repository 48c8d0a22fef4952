/** The decoders behind the prompt scanner. */
module ScannerDecoders {
  import opened Prelude

  // ---- base32 ----

  /** The runtime's upper-casing of a text and its UTF-8 decoding. */
  datatype TextRuntime = TextRuntime(upper: string -> string, utf8: seq<nat> -> string)

  /** Upper-casing takes ASCII letters to their capitals and leaves the rest of ASCII alone. */
  ghost predicate UppersAscii(rt: TextRuntime) {
    forall s: string :: Ascii(s) ==> rt.upper(s) == Map(Upper, s)
  }

  type Byte = b: nat | b < 256

  function Pow2(n: nat): (r: nat)
    ensures r > 0
  {
    if n == 0 then 1 else 2 * Pow2(n - 1)
  }

  /** The binary digits of v, most significant first, `width` of them. */
  function Bits(v: nat, width: nat): (bits: seq<bool>)
    ensures |bits| == width
  {
    if width == 0 then [] else Bits(v / 2, width - 1) + [v % 2 == 1]
  }

  function Value(bits: seq<bool>): nat {
    if bits == [] then 0 else 2 * Value(bits[..|bits| - 1]) + if bits[|bits| - 1] then 1 else 0
  }

  function Expand(vs: seq<nat>, width: nat): seq<bool> {
    if vs == [] then [] else Bits(vs[0], width) + Expand(vs[1..], width)
  }

  /** The values of the full groups of `width` digits; a shorter rest is dropped. */
  function Group(bits: seq<bool>, width: nat): seq<nat>
    requires width > 0
  {
    if |bits| < width then [] else [Value(bits[..width])] + Group(bits[width..], width)
  }

  /** Position in the alphabet A-Z2-7. */
  function IndexOf(c: char): Option<nat> {
    if 'A' <= c <= 'Z' then Some(c as int - 'A' as int)
    else if '2' <= c <= '7' then Some(c as int - '2' as int + 26)
    else None
  }

  function Letter(v: nat): char
    requires v < 32
  {
    if v < 26 then ('A' as int + v) as char else ('2' as int + v - 26) as char
  }

  function StripPadding(s: string): string {
    if s != [] && s[|s| - 1] == '=' then StripPadding(s[..|s| - 1]) else s
  }

  function Upper(c: char): char { if 'a' <= c <= 'z' then (c as int - 'a' as int + 'A' as int) as char else c }

  predicate ValidBase32(s: string) { forall i :: 0 <= i < |s| ==> IndexOf(s[i]).Some? }

  function Indices(s: string): (r: seq<nat>)
    requires ValidBase32(s)
  {
    if s == [] then [] else [IndexOf(s[0]).value] + Indices(s[1..])
  }

  function Base32Text(rt: TextRuntime, input: string): Result<string, string> {
    var clean := rt.upper(StripPadding(input));
    if ValidBase32(clean) then Ok(rt.utf8(Group(Expand(Indices(clean), 5), 8))) else Err("Invalid base32")
  }

  method ToBits(clean: string) returns (r: Result<seq<bool>, string>)
    ensures r.Ok? <==> ValidBase32(clean)
    ensures r.Ok? ==> r.value == Expand(Indices(clean), 5)
    ensures r.Err? ==> r.error == "Invalid base32"
  {
    var bits: seq<bool> := [];
    for i := 0 to |clean|
      invariant ValidBase32(clean[..i])
      invariant bits == Expand(Indices(clean[..i]), 5)
    {
      var idx := IndexOf(clean[i]);
      if idx.None? { return Err("Invalid base32"); }
      assert clean[..i + 1] == clean[..i] + [clean[i]];
      ExpandAppend(clean[..i], clean[i], 5);
      bits := bits + Bits(idx.value, 5);
    }
    assert clean[..|clean|] == clean;
    return Ok(bits);
  }

  method ToBytes(bits: seq<bool>) returns (bytes: seq<nat>)
    ensures bytes == Group(bits, 8)
  {
    bytes := [];
    var k := 0;
    while k + 8 <= |bits|
      invariant k <= |bits| && bytes + Group(bits[k..], 8) == Group(bits, 8)
    {
      assert bits[k..][..8] == bits[k..k + 8] && bits[k..][8..] == bits[k + 8..];
      bytes := bytes + [Value(bits[k..k + 8])];
      k := k + 8;
    }
  }

  method DecodeBase32(rt: TextRuntime, input: string) returns (r: Result<string, string>)
    ensures r == Base32Text(rt, input)
  {
    var bits := ToBits(rt.upper(StripPadding(input)));
    if bits.Err? { return Err(bits.error); }
    var bytes := ToBytes(bits.value);
    return Ok(rt.utf8(bytes));
  }

  lemma {:induction false} ExpandAppend(s: string, c: char, width: nat)
    requires ValidBase32(s) && IndexOf(c).Some?
    ensures ValidBase32(s + [c])
    ensures Expand(Indices(s + [c]), width) == Expand(Indices(s), width) + Bits(IndexOf(c).value, width)
  {
    if s == [] {
      assert s + [c] == [c];
    } else {
      ExpandAppend(s[1..], c, width);
      assert (s + [c])[1..] == s[1..] + [c];
    }
  }

  /** The encoding of section 6 of RFC 4648. */
  function EncodeBase32(data: seq<Byte>): string {
    var bits := Expand(data, 8);
    var letters := Group(bits + Zeros((5 - |bits| % 5) % 5), 5);
    Spell(letters) + Padding((8 - |letters| % 8) % 8)
  }

  function Spell(letters: seq<nat>): (r: string)
    ensures |r| == |letters| && forall i :: 0 <= i < |r| ==> r[i] == Letter(letters[i] % 32)
  {
    seq(|letters|, i requires 0 <= i < |letters| => Letter(letters[i] % 32))
  }

  function Zeros(n: nat): (z: seq<bool>)
    ensures |z| == n
  {
    seq(n, _ => false)
  }

  function Padding(n: nat): (p: string)
    ensures |p| == n && forall i :: 0 <= i < n ==> p[i] == '='
  {
    seq(n, _ => '=')
  }

  lemma {:induction false} ValueOfBits(v: nat, width: nat)
    requires v < Pow2(width)
    ensures Value(Bits(v, width)) == v
  {
    if width > 0 {
      ValueOfBits(v / 2, width - 1);
      assert Bits(v, width)[..width - 1] == Bits(v / 2, width - 1);
    }
  }

  lemma {:induction false} BitsOfValue(bits: seq<bool>)
    ensures Value(bits) < Pow2(|bits|) && Bits(Value(bits), |bits|) == bits
  {
    if bits != [] {
      var front := bits[..|bits| - 1];
      BitsOfValue(front);
      assert bits == front + [bits[|bits| - 1]];
    }
  }

  lemma GroupPeel(first: seq<bool>, tail: seq<bool>, width: nat)
    requires |first| == width > 0
    ensures Group(first + tail, width) == [Value(first)] + Group(tail, width)
  {
    assert (first + tail)[..width] == first && (first + tail)[width..] == tail;
  }

  lemma {:induction false} GroupUndoesExpand(vs: seq<nat>, width: nat, rest: seq<bool>)
    requires width > |rest| && forall i :: 0 <= i < |vs| ==> vs[i] < Pow2(width)
    ensures Group(Expand(vs, width) + rest, width) == vs
  {
    if vs == [] {
      assert Expand(vs, width) + rest == rest;
    } else {
      ValueOfBits(vs[0], width);
      GroupUndoesExpand(vs[1..], width, rest);
      GroupPeel(Bits(vs[0], width), Expand(vs[1..], width) + rest, width);
      assert Expand(vs, width) + rest == Bits(vs[0], width) + (Expand(vs[1..], width) + rest);
    }
  }

  lemma {:induction false} ExpandUndoesGroup(bits: seq<bool>)
    requires |bits| % 5 == 0
    ensures Expand(Group(bits, 5), 5) == bits
    ensures forall i :: 0 <= i < |Group(bits, 5)| ==> Group(bits, 5)[i] < 32
  {
    assert Pow2(5) == 32;
    if |bits| >= 5 {
      BitsOfValue(bits[..5]);
      ExpandUndoesGroup(bits[5..]);
      assert Group(bits, 5)[1..] == Group(bits[5..], 5);
      assert bits == bits[..5] + bits[5..];
    }
  }

  lemma {:induction false} StripRemovesPadding(s: string, n: nat)
    requires s != [] ==> s[|s| - 1] != '='
    ensures StripPadding(s + Padding(n)) == s
  {
    if n == 0 {
      assert s + Padding(0) == s;
    } else {
      assert (s + Padding(n))[..|s| + n - 1] == s + Padding(n - 1);
      StripRemovesPadding(s, n - 1);
    }
  }

  lemma {:induction false} IndicesOfLetters(vs: seq<nat>)
    requires forall i :: 0 <= i < |vs| ==> vs[i] < 32
    ensures ValidBase32(Spell(vs)) && Indices(Spell(vs)) == vs
  {
    if vs != [] {
      IndicesOfLetters(vs[1..]);
      assert Spell(vs)[1..] == Spell(vs[1..]);
    }
  }

  /** text spells the letters, in either case. */
  predicate Spells(text: string, vs: seq<nat>) {
    |text| == |vs| && forall i :: 0 <= i < |vs| ==> vs[i] < 32 && AnyCase(text[i], Letter(vs[i]))
  }

  predicate Ascii(text: string) { forall i :: 0 <= i < |text| ==> text[i] < 128 as char }

  lemma SpelledTextIsUppered(text: string, vs: seq<nat>)
    requires Spells(text, vs)
    ensures Ascii(text) && (text != [] ==> text[|text| - 1] != '=') && Map(Upper, text) == Spell(vs)
  {
    forall i | 0 <= i < |vs| ensures text[i] < 128 as char && text[i] != '=' && Upper(text[i]) == Spell(vs)[i] {
      LetterIsClean(vs[i]);
    }
  }

  lemma SpelledTextDecodes(rt: TextRuntime, vs: seq<nat>, text: string, padding: nat)
    requires UppersAscii(rt) && Spells(text, vs)
    ensures Base32Text(rt, text + Padding(padding)) == Ok(rt.utf8(Group(Expand(vs, 5), 8)))
  {
    SpelledTextIsUppered(text, vs);
    StripRemovesPadding(text, padding);
    IndicesOfLetters(vs);
  }

  /** c is the letter or its lower case. */
  predicate AnyCase(c: char, letter: char) {
    c == letter || ('A' <= letter <= 'Z' && c == (letter as int + 32) as char)
  }

  lemma LetterIsClean(v: nat)
    requires v < 32
    ensures IndexOf(Letter(v)) == Some(v)
    ensures forall c :: AnyCase(c, Letter(v)) ==> c < 128 as char && c != '=' && Upper(c) == Letter(v)
  {
  }

  lemma PaddedLength(n: nat)
    ensures (n + (5 - n % 5) % 5) % 5 == 0
  {
    assert n == n / 5 * 5 + n % 5;
    if n % 5 > 0 { assert n + (5 - n % 5) == (n / 5 + 1) * 5; }
  }

  lemma GroupsRoundTrip(data: seq<Byte>, zeros: seq<bool>)
    requires |zeros| < 5 && |Expand(data, 8) + zeros| % 5 == 0
    ensures var letters := Group(Expand(data, 8) + zeros, 5);
      && (forall i :: 0 <= i < |letters| ==> letters[i] < 32)
      && Group(Expand(letters, 5), 8) == data
  {
    ExpandUndoesGroup(Expand(data, 8) + zeros);
    assert Pow2(8) == 256;
    GroupUndoesExpand(data, 8, zeros);
  }

  lemma SplitOffPadding(text: string, letters: seq<nat>, padding: nat)
    requires forall i :: 0 <= i < |letters| ==> letters[i] < 32
    requires InAnyCase(text, Spell(letters) + Padding(padding))
    ensures text == text[..|letters|] + Padding(padding) && Spells(text[..|letters|], letters)
  {
    var code, n := Spell(letters) + Padding(padding), |letters|;
    forall i | n <= i < |text| ensures text[i] == '=' {
      assert code[i] == '=';
      assert AnyCase(text[i], code[i]);
    }
    assert text[n..] == Padding(padding);
    forall i | 0 <= i < n ensures AnyCase(text[..n][i], Letter(letters[i])) { assert AnyCase(text[i], code[i]); }
  }

  /** text is the code, its letters in either case. */
  predicate InAnyCase(text: string, code: string) {
    |text| == |code| && forall i :: 0 <= i < |text| ==> AnyCase(text[i], code[i])
  }

  /** Decoding undoes the encoding for every byte string, whatever the case of the letters. */
  lemma Base32RoundTrip(rt: TextRuntime, data: seq<Byte>, text: string)
    requires UppersAscii(rt) && InAnyCase(text, EncodeBase32(data))
    ensures Base32Text(rt, text) == Ok(rt.utf8(data))
  {
    var n := |Expand(data, 8)|;
    var zeros := Zeros((5 - n % 5) % 5);
    PaddedLength(n);
    GroupsRoundTrip(data, zeros);
    var letters := Group(Expand(data, 8) + zeros, 5);
    var padding := (8 - |letters| % 8) % 8;
    SplitOffPadding(text, letters, padding);
    SpelledTextDecodes(rt, letters, text[..|letters|], padding);
  }

  // ---- rot13 ----

  function RotateLetter(c: char): char {
    if 'a' <= c <= 'z' || 'A' <= c <= 'Z' then
      var base := if c <= 'Z' then 65 else 97;
      ((c as int - base + 13) % 26 + base) as char
    else c
  }

  function Rot13(text: string): string { Map(RotateLetter, text) }

  /** rot13 is its own inverse on every text. */
  lemma Rot13IsAnInvolution(text: string)
    ensures Rot13(Rot13(text)) == text
  {
    forall i | 0 <= i < |text| ensures Rot13(Rot13(text))[i] == text[i] { RotateTwice(text[i]); }
  }

  lemma RotateTwice(c: char)
    ensures RotateLetter(RotateLetter(c)) == c
  {
    if 'a' <= c <= 'z' {
      var k := c as int - 97;
      assert (k + 13) % 26 == if k < 13 then k + 13 else k - 13;
    } else if 'A' <= c <= 'Z' {
      var k := c as int - 65;
      assert (k + 13) % 26 == if k < 13 then k + 13 else k - 13;
    }
  }

  // ---- payloads hidden in a cover text ----

  /** Texts as code points. */
  type Text = seq<nat>

  predicate IsTag(cp: nat) { 0xE0020 <= cp <= 0xE007E }
  predicate IsSelector(cp: nat) { 0xFE00 <= cp <= 0xFE0F }
  predicate IsPrintable(cp: nat) { 0x20 <= cp <= 0x7E }

  function Filter(p: nat -> bool, s: Text): (r: Text)
    ensures forall i :: 0 <= i < |r| ==> p(r[i])
  {
    if s == [] then []
    else Filter(p, s[..|s| - 1]) + if p(s[|s| - 1]) then [s[|s| - 1]] else []
  }

  function DecodeUnicodeTags(text: Text): Text {
    var tags := Filter(IsTag, text);
    if |tags| < 3 then [] else seq(|tags|, i requires 0 <= i < |tags| => tags[i] - 0xE0000)
  }

  /** The bytes spelled by pairs of selectors; an odd one is dropped. */
  function PairUp(nibbles: Text): Text
    requires forall i :: 0 <= i < |nibbles| ==> IsSelector(nibbles[i])
  {
    if |nibbles| < 2 then []
    else
      assert IsSelector(nibbles[0]) && IsSelector(nibbles[1]);
      [(nibbles[0] - 0xFE00) * 16 + nibbles[1] - 0xFE00] + PairUp(nibbles[2..])
  }

  function Hidden(text: Text): Text {
    var selectors := Filter(IsSelector, text);
    if |selectors| < 4 then []
    else
      var printable := Filter(IsPrintable, PairUp(selectors));
      if |printable| < 3 then [] else printable
  }

  lemma PairStep(nibbles: Text, i: nat)
    requires (forall j :: 0 <= j < |nibbles| ==> IsSelector(nibbles[j])) && i + 1 < |nibbles|
    ensures PairUp(nibbles[i..]) == [(nibbles[i] - 0xFE00) * 16 + nibbles[i + 1] - 0xFE00] + PairUp(nibbles[i + 2..])
  {
    assert nibbles[i..][2..] == nibbles[i + 2..];
  }

  method ReadPairs(selectors: Text) returns (bytes: Text)
    requires forall j :: 0 <= j < |selectors| ==> IsSelector(selectors[j])
    ensures bytes == PairUp(selectors)
  {
    bytes := [];
    var i := 0;
    while i + 1 < |selectors|
      invariant i <= |selectors| && bytes + PairUp(selectors[i..]) == PairUp(selectors)
    {
      assert IsSelector(selectors[i]) && IsSelector(selectors[i + 1]);
      var hi, lo := selectors[i] - 0xFE00, selectors[i + 1] - 0xFE00;
      PairStep(selectors, i);
      bytes := bytes + [hi * 16 + lo];
      i := i + 2;
    }
    assert bytes + PairUp(selectors[i..]) == bytes;
  }

  method DecodeVariationSelectors(text: Text) returns (r: Text)
    ensures r == Hidden(text)
  {
    var selectors := Filter(IsSelector, text);
    if |selectors| < 4 { return []; }
    var bytes := ReadPairs(selectors);
    var printable := Filter(IsPrintable, bytes);
    return if |printable| < 3 then [] else printable;
  }

  /** `text` merges `a` and `b`, keeping the order of each. */
  ghost predicate Interleaves(text: Text, a: Text, b: Text) {
    if text == [] then a == [] && b == []
    else
      var front, x := text[..|text| - 1], text[|text| - 1];
      || (a != [] && a[|a| - 1] == x && Interleaves(front, a[..|a| - 1], b))
      || (b != [] && b[|b| - 1] == x && Interleaves(front, a, b[..|b| - 1]))
  }

  lemma {:induction false} FilterFindsPayload(p: nat -> bool, text: Text, payload: Text, cover: Text)
    requires Interleaves(text, payload, cover)
    requires (forall x :: x in payload ==> p(x)) && (forall x :: x in cover ==> !p(x))
    ensures Filter(p, text) == payload
  {
    if text != [] {
      var front, x := text[..|text| - 1], text[|text| - 1];
      if payload != [] && payload[|payload| - 1] == x && Interleaves(front, payload[..|payload| - 1], cover) {
        FilterFindsPayload(p, front, payload[..|payload| - 1], cover);
        assert x in payload;
      } else {
        FilterFindsPayload(p, front, payload, cover[..|cover| - 1]);
        assert x in cover;
      }
    }
  }

  function AsTags(secret: Text): Text { seq(|secret|, i requires 0 <= i < |secret| => secret[i] + 0xE0000) }

  function AsSelectors(secret: Text): Text {
    if secret == [] then [] else [secret[0] / 16 + 0xFE00, secret[0] % 16 + 0xFE00] + AsSelectors(secret[1..])
  }

  /** A printable secret of at least three characters survives hiding as tags in any cover text
      free of tags; a shorter one reads as nothing. */
  lemma TagsSurviveCover(secret: Text, cover: Text, text: Text)
    requires (forall x :: x in secret ==> IsPrintable(x)) && (forall x :: x in cover ==> !IsTag(x))
    requires Interleaves(text, AsTags(secret), cover)
    ensures DecodeUnicodeTags(text) == if |secret| >= 3 then secret else []
  {
    forall x | x in AsTags(secret) ensures IsTag(x) {
      var i :| 0 <= i < |secret| && x == secret[i] + 0xE0000;
      assert secret[i] in secret;
    }
    FilterFindsPayload(IsTag, text, AsTags(secret), cover);
  }

  lemma {:induction false} FilterKeepsAll(p: nat -> bool, s: Text)
    requires forall x :: x in s ==> p(x)
    ensures Filter(p, s) == s
  {
    if s != [] {
      FilterKeepsAll(p, s[..|s| - 1]);
      assert s[|s| - 1] in s;
      assert s == s[..|s| - 1] + [s[|s| - 1]];
    }
  }

  lemma {:induction false} PairsSpellSecret(secret: Text)
    requires forall i :: 0 <= i < |secret| ==> secret[i] < 256
    ensures forall i :: 0 <= i < |AsSelectors(secret)| ==> IsSelector(AsSelectors(secret)[i])
    ensures |AsSelectors(secret)| == 2 * |secret| && PairUp(AsSelectors(secret)) == secret
  {
    if secret != [] {
      PairsSpellSecret(secret[1..]);
      assert AsSelectors(secret)[2..] == AsSelectors(secret[1..]);
      assert secret == [secret[0]] + secret[1..];
    }
  }

  /** The same for variation selectors, two to a character. */
  lemma SelectorsSurviveCover(secret: Text, cover: Text, text: Text)
    requires (forall x :: x in secret ==> IsPrintable(x)) && (forall x :: x in cover ==> !IsSelector(x))
    requires Interleaves(text, AsSelectors(secret), cover)
    ensures Hidden(text) == if |secret| >= 3 then secret else []
  {
    forall i | 0 <= i < |secret| ensures secret[i] < 256 { assert secret[i] in secret; }
    PairsSpellSecret(secret);
    FilterFindsPayload(IsSelector, text, AsSelectors(secret), cover);
    FilterKeepsAll(IsPrintable, secret);
  }
}
