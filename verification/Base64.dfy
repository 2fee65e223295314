/**
Base64 (RFC 4648 sections 4 and 5) as the Worker uses it: btoa, the forgiving atob, and the
unpadded URL-safe form.
*/
module Base64 {
  import opened Options

  type byte = b: int | 0 <= b < 256
  type sextet = d: int | 0 <= d < 64

  // ---------------------------------------------------------------- bytes and sextets

  function Bits0(b0: byte): sextet { b0 / 4 }
  function Bits1(b0: byte, b1: byte): sextet { b0 % 4 * 16 + b1 / 16 }
  function Bits2(b1: byte, b2: byte): sextet { b1 % 16 * 4 + b2 / 64 }
  function Bits3(b2: byte): sextet { b2 % 64 }

  function Sextets(b: seq<byte>): seq<sextet> {
    if |b| == 0 then []
    else if |b| == 1 then [Bits0(b[0]), Bits1(b[0], 0)]
    else if |b| == 2 then [Bits0(b[0]), Bits1(b[0], b[1]), Bits2(b[1], 0)]
    else [Bits0(b[0]), Bits1(b[0], b[1]), Bits2(b[1], b[2]), Bits3(b[2])] + Sextets(b[3..])
  }

  function First(d0: sextet, d1: sextet): byte { (d0 as int) * 4 + d1 / 16 }
  function Second(d1: sextet, d2: sextet): byte { (d1 as int) % 16 * 16 + d2 / 4 }
  function Third(d2: sextet, d3: sextet): byte { (d2 as int) % 4 * 64 + d3 }

  /** Whole groups of four, and a last group of two or three whose spare bits are dropped. */
  function Bytes(d: seq<sextet>): Option<seq<byte>> {
    if |d| == 0 then Some([])
    else if |d| == 1 then None
    else if |d| == 2 then Some([First(d[0], d[1])])
    else if |d| == 3 then Some([First(d[0], d[1]), Second(d[1], d[2])])
    else
      match Bytes(d[4..])
      case None => None
      case Some(rest) => Some([First(d[0], d[1]), Second(d[1], d[2]), Third(d[2], d[3])] + rest)
  }

  lemma RegroupBits(b0: byte, b1: byte, b2: byte)
    ensures First(Bits0(b0), Bits1(b0, b1)) == b0
    ensures Second(Bits1(b0, b1), Bits2(b1, b2)) == b1
    ensures Third(Bits2(b1, b2), Bits3(b2)) == b2
  {
  }

  lemma RegroupFirst(b0: byte, b1: byte)
    ensures First(Bits0(b0), Bits1(b0, b1)) == b0
  {
  }

  lemma {:induction false} SextetCount(b: seq<byte>)
    ensures |Sextets(b)| == (4 * |b| + 2) / 3
  {
    if |b| >= 3 { SextetCount(b[3..]); }
  }

  lemma {:induction false} BytesOfSextets(b: seq<byte>)
    ensures Bytes(Sextets(b)) == Some(b)
  {
    if |b| == 1 {
      RegroupFirst(b[0], 0);
      assert b == [b[0]];
    } else if |b| == 2 {
      RegroupBits(b[0], b[1], 0);
      assert b == [b[0], b[1]];
    } else if |b| >= 3 {
      var d := Sextets(b);
      BytesOfSextets(b[3..]);
      assert d[4..] == Sextets(b[3..]);
      RegroupBits(b[0], b[1], b[2]);
      assert [First(d[0], d[1]), Second(d[1], d[2]), Third(d[2], d[3])] + b[3..] == b;
    }
  }

  // ---------------------------------------------------------------- characters

  function Letter(d: sextet): char {
    if d < 26 then ('A' as int + d) as char
    else if d < 52 then ('a' as int + (d - 26)) as char
    else if d < 62 then ('0' as int + (d - 52)) as char
    else if d == 62 then '+' else '/'
  }

  function Value(c: char): Option<sextet> {
    if 'A' <= c <= 'Z' then Some(c as int - 'A' as int)
    else if 'a' <= c <= 'z' then Some(c as int - 'a' as int + 26)
    else if '0' <= c <= '9' then Some(c as int - '0' as int + 52)
    else if c == '+' then Some(62)
    else if c == '/' then Some(63)
    else None
  }

  predicate InAlphabet(c: char) { Value(c).Some? }

  function Letters(d: seq<sextet>): (t: string)
    ensures |t| == |d|
    ensures forall i :: 0 <= i < |t| ==> t[i] == Letter(d[i]) && Value(t[i]) == Some(d[i])
  {
    seq(|d|, i requires 0 <= i < |d| => Letter(d[i]))
  }

  function ValueOr0(c: char): sextet { if InAlphabet(c) then Value(c).value else 0 }

  function Values(t: string): Option<seq<sextet>> {
    if exists i :: 0 <= i < |t| && !InAlphabet(t[i]) then None
    else
      var d: seq<sextet> := seq(|t|, i requires 0 <= i < |t| => ValueOr0(t[i]));
      Some(d)
  }

  lemma ValuesAreAlphabet(t: string)
    requires Values(t).Some?
    ensures forall i :: 0 <= i < |t| ==> InAlphabet(t[i])
  {
  }

  lemma ValuesOfLetters(d: seq<sextet>)
    ensures Values(Letters(d)) == Some(d)
  {
    var t := Letters(d);
    forall i | 0 <= i < |t| ensures InAlphabet(t[i]) {}
    assert Values(t).value == d;
  }

  function Padding(n: nat): string { if n % 3 == 1 then "==" else if n % 3 == 2 then "=" else "" }

  /** btoa */
  function Encode(b: seq<byte>): string { Letters(Sextets(b)) + Padding(|b|) }

  predicate IsSpace(c: char) { c == ' ' || c == '\t' || c == '\n' || c == '\r' || c == '\U{000C}' }

  function DropSpaces(t: string): string {
    if t == [] then [] else (if IsSpace(t[0]) then [] else [t[0]]) + DropSpaces(t[1..])
  }

  /** Up to two trailing '=' are dropped from a text whose length is a multiple of four. */
  function DropPadding(t: string): string {
    if |t| % 4 != 0 || t == "" || t[|t| - 1] != '=' then t
    else if t[|t| - 2] == '=' then t[..|t| - 2] else t[..|t| - 1]
  }

  lemma DropPaddingDropsEquals(t: string)
    ensures DropPadding(t) <= t && forall i :: |DropPadding(t)| <= i < |t| ==> t[i] == '='
  {
  }

  /** atob: white space ignored, padding optional; None where atob throws. */
  function Decode(t: string): Option<seq<byte>> {
    match Values(DropPadding(DropSpaces(t)))
    case None => None
    case Some(d) => Bytes(d)
  }

  lemma {:induction false} NoSpacesToDrop(t: string)
    requires forall c :: c in t ==> !IsSpace(c)
    ensures DropSpaces(t) == t
  {
    if t != [] {
      assert t[0] in t;
      NoSpacesToDrop(t[1..]);
    }
  }

  lemma LettersAreAlphabet(d: seq<sextet>)
    ensures forall c :: c in Letters(d) ==> InAlphabet(c)
  {
  }

  lemma AlphabetIsPlain(c: char)
    requires InAlphabet(c)
    ensures !IsSpace(c) && c != '=' && c != '-' && c != '_'
  {
  }

  lemma EncodeHasNoSpaces(b: seq<byte>)
    ensures DropSpaces(Encode(b)) == Encode(b)
  {
    LettersAreAlphabet(Sextets(b));
    forall c | c in Encode(b) ensures !IsSpace(c) {
      if c in Letters(Sextets(b)) { AlphabetIsPlain(c); } else { assert c in Padding(|b|); }
    }
    NoSpacesToDrop(Encode(b));
  }

  function Equals(n: nat): string { seq(n, _ => '=') }

  lemma PaddedLetters(d: seq<sextet>, n: nat)
    requires (|d| + |Padding(n)|) % 4 == 0
    ensures DropPadding(Letters(d) + Padding(n)) == Letters(d)
  {
  }

  lemma PaddingOfShorter(n: nat)
    requires n >= 3
    ensures Padding(n) == Padding(n - 3)
  {
  }

  lemma FourMore(n: nat)
    requires n % 4 == 0
    ensures (n + 4) % 4 == 0
  {
  }

  lemma {:induction false} EncodedInFours(b: seq<byte>)
    ensures (|Sextets(b)| + |Padding(|b|)|) % 4 == 0
  {
    if |b| >= 3 {
      EncodedInFours(b[3..]);
      PaddingOfShorter(|b|);
      FourMore(|Sextets(b[3..])| + |Padding(|b| - 3)|);
      assert |Sextets(b)| == 4 + |Sextets(b[3..])|;
    }
  }

  lemma EncodePadding(b: seq<byte>)
    ensures DropPadding(Encode(b)) == Letters(Sextets(b))
  {
    EncodedInFours(b);
    PaddedLetters(Sextets(b), |b|);
  }

  /** What btoa printed, atob reads back. */
  lemma DecodeEncode(b: seq<byte>)
    ensures Decode(Encode(b)) == Some(b)
  {
    EncodeHasNoSpaces(b);
    EncodePadding(b);
    ValuesOfLetters(Sextets(b));
    BytesOfSextets(b);
  }

  // ---------------------------------------------------------------- the URL-safe form

  function ToUrl(c: char): char { if c == '+' then '-' else if c == '/' then '_' else c }

  function FromUrl(c: char): char { if c == '-' then '+' else if c == '_' then '/' else c }

  function MapChars(f: char -> char, t: string): (r: string)
    ensures |r| == |t| && forall i :: 0 <= i < |t| ==> r[i] == f(t[i])
  {
    seq(|t|, i requires 0 <= i < |t| => f(t[i]))
  }

  function DropTrailingEquals(t: string): string {
    if t != "" && t[|t| - 1] == '=' then DropTrailingEquals(t[..|t| - 1]) else t
  }

  /** base64Url: '+' and '/' replaced, trailing '=' removed. */
  function EncodeUrl(b: seq<byte>): string { DropTrailingEquals(MapChars(ToUrl, Encode(b))) }

  /** base64UrlToBytes: the standard alphabet restored and padded to a multiple of four, then atob. */
  function DecodeUrl(t: string): Option<seq<byte>> {
    var standard := MapChars(FromUrl, t);
    Decode(standard + Equals((4 - |standard| % 4) % 4))
  }

  predicate UrlSafe(c: char) { 'A' <= c <= 'Z' || 'a' <= c <= 'z' || '0' <= c <= '9' || c == '-' || c == '_' }

  lemma {:induction false} EqualsAreDropped(core: string, n: nat)
    requires core == "" || core[|core| - 1] != '='
    ensures DropTrailingEquals(core + Equals(n)) == core
  {
    if n == 0 {
      assert core + Equals(0) == core;
    } else {
      assert (core + Equals(n))[..|core| + n - 1] == core + Equals(n - 1);
      EqualsAreDropped(core, n - 1);
    }
  }

  function UrlLetters(b: seq<byte>): string { MapChars(ToUrl, Letters(Sextets(b))) }

  lemma UrlLettersAreSafe(b: seq<byte>)
    ensures forall i :: 0 <= i < |UrlLetters(b)| ==> UrlSafe(UrlLetters(b)[i])
    ensures |UrlLetters(b)| == (4 * |b| + 2) / 3
    ensures MapChars(FromUrl, UrlLetters(b)) == Letters(Sextets(b))
  {
    var d := Sextets(b);
    SextetCount(b);
    forall i | 0 <= i < |d| ensures UrlSafe(UrlLetters(b)[i]) && FromUrl(UrlLetters(b)[i]) == Letters(d)[i] {
      assert Letters(d)[i] == Letter(d[i]);
      AlphabetIsPlain(Letter(d[i]));
    }
  }

  lemma EncodeUrlIsLetters(b: seq<byte>)
    ensures EncodeUrl(b) == UrlLetters(b)
  {
    UrlLettersAreSafe(b);
    assert MapChars(ToUrl, Encode(b)) == UrlLetters(b) + Equals(|Padding(|b|)|);
    EqualsAreDropped(UrlLetters(b), |Padding(|b|)|);
  }

  lemma {:induction false} LettersModFour(n: nat)
    ensures (4 * n + 2) / 3 % 4 == if n % 3 == 0 then 0 else n % 3 + 1
  {
    if n >= 3 {
      LettersModFour(n - 3);
      assert (4 * n + 2) / 3 == (4 * (n - 3) + 2) / 3 + 4;
    }
  }

  lemma UrlPadding(n: nat, letters: nat)
    requires letters % 4 == if n % 3 == 0 then 0 else n % 3 + 1
    ensures Equals((4 - letters % 4) % 4) == Padding(n)
  {
  }

  lemma DecodeUrlOf(t: string, core: string, padding: string)
    requires MapChars(FromUrl, t) == core && padding == Equals((4 - |core| % 4) % 4)
    ensures DecodeUrl(t) == Decode(core + padding)
  {
  }

  lemma DecodeUrlLetters(b: seq<byte>, t: string)
    requires MapChars(FromUrl, t) == Letters(Sextets(b))
    ensures DecodeUrl(t) == Some(b)
  {
    SextetCount(b);
    LettersModFour(|b|);
    UrlPadding(|b|, |Sextets(b)|);
    DecodeUrlOf(t, Letters(Sextets(b)), Padding(|b|));
    DecodeEncode(b);
  }

  /** The URL-safe form is undone by its decoder, uses no character outside RFC 4648 section 5, and is four thirds as long. */
  lemma DecodeUrlEncodeUrl(b: seq<byte>)
    ensures DecodeUrl(EncodeUrl(b)) == Some(b)
    ensures forall i :: 0 <= i < |EncodeUrl(b)| ==> UrlSafe(EncodeUrl(b)[i])
    ensures |EncodeUrl(b)| == (4 * |b| + 2) / 3
  {
    EncodeUrlIsLetters(b);
    UrlLettersAreSafe(b);
    DecodeUrlLetters(b, UrlLetters(b));
  }

  /** bytesToBase64 builds its binary string in chunks of 0x8000 bytes. */
  method BytesToBase64(bytes: seq<byte>) returns (t: string)
    ensures t == Encode(bytes)
  {
    var binary: seq<byte> := [];
    var chunk := 0x8000;
    var index := 0;
    while index < |bytes|
      invariant 0 <= index && binary == bytes[..if index < |bytes| then index else |bytes|]
    {
      var end := if index + chunk < |bytes| then index + chunk else |bytes|;
      binary := binary + bytes[index..end];
      assert bytes[..end] == bytes[..index] + bytes[index..end];
      index := index + chunk;
    }
    assert binary == bytes;
    t := Encode(binary);
  }
}
