/**
Strings as texts of UTF-16 code units, and encodeURIComponent with a reader for what it
prints (the extended parameter values of RFC 8187).
*/
module Percent {
  import opened Options
  import Utf8

  type Text = seq<Utf8.Unit>
  type byte = Utf8.byte

  // ---------------------------------------------------------------- strings and code units

  function UnitsOf(c: char): Text {
    var n := c as int;
    if n < 0x10000 then [n] else [0xD800 + (n - 0x10000) / 0x400, 0xDC00 + (n - 0x10000) % 0x400]
  }

  function Units(s: string): Text { if s == "" then [] else UnitsOf(s[0]) + Units(s[1..]) }

  function Joined(h: Utf8.Unit, l: Utf8.Unit): char
    requires Utf8.High(h) && Utf8.Low(l)
  {
    var top: int, bottom: int := h as int - 0xD800, l as int - 0xDC00;
    (0x10000 + top * 0x400 + bottom) as char
  }

  /** None for lone surrogates. */
  function Chars(t: Text): Option<string> {
    if t == [] then Some("")
    else if Utf8.StartsWithPair(t) then Before(Joined(t[0], t[1]), Chars(t[2..]))
    else if Utf8.Surrogate(t[0]) then None
    else Before(t[0] as char, Chars(t[1..]))
  }

  function Before(c: char, rest: Option<string>): Option<string> { if rest.None? then None else Some([c] + rest.value) }

  lemma CharsOfUnitsOf(c: char, rest: Text)
    ensures Chars(UnitsOf(c) + rest) == Before(c, Chars(rest))
    ensures Utf8.WellFormed(UnitsOf(c) + rest) <==> Utf8.WellFormed(rest)
  {
    var t := UnitsOf(c) + rest;
    if c as int < 0x10000 { assert t[1..] == rest; } else { assert t[2..] == rest; }
  }

  lemma {:induction false} CharsOfUnits(s: string)
    ensures Chars(Units(s)) == Some(s) && Utf8.WellFormed(Units(s))
  {
    if s != "" {
      CharsOfUnits(s[1..]);
      CharsOfUnitsOf(s[0], Units(s[1..]));
      assert [s[0]] + s[1..] == s;
    }
  }

  /** A message text as the bytes that are stored, and back. */
  function ToBytes(s: string): seq<byte> { Utf8.Encode(Units(s)) }

  function FromBytes(b: seq<byte>): Option<string> {
    match Utf8.Decode(b)
    case None => None
    case Some(t) => Chars(t)
  }

  lemma FromToBytes(s: string)
    ensures FromBytes(ToBytes(s)) == Some(s)
  {
    CharsOfUnits(s);
    Utf8.DecodeEncode(Units(s));
  }

  // ---------------------------------------------------------------- encodeURIComponent

  predicate Unreserved(b: byte) {
    'A' as int <= b <= 'Z' as int || 'a' as int <= b <= 'z' as int || '0' as int <= b <= '9' as int
    || b in {0x2D, 0x5F, 0x2E, 0x21, 0x7E, 0x2A, 0x27, 0x28, 0x29}
  }

  type nibble = n: int | 0 <= n < 16

  function Hex(n: nibble): char { if n < 10 then (n + '0' as int) as char else (n - 10 + 'A' as int) as char }

  function HexValue(c: char): Option<nibble> {
    if '0' <= c <= '9' then Some(c as int - '0' as int) else if 'A' <= c <= 'F' then Some(c as int - 'A' as int + 10) else None
  }

  function Escaped(b: byte): string { if Unreserved(b) then [b as char] else ['%', Hex(b / 16), Hex(b % 16)] }

  function EscapeAll(bytes: seq<byte>): string { if bytes == [] then "" else Escaped(bytes[0]) + EscapeAll(bytes[1..]) }

  /** encodeURIComponent, which throws for a text with a lone surrogate. */
  function Component(t: Text): string { EscapeAll(Utf8.Encode(t)) }

  function Unescape(s: string): Option<seq<byte>> {
    if s == "" then Some([])
    else if s[0] == '%' then
      if |s| < 3 || HexValue(s[1]).None? || HexValue(s[2]).None? then None
      else Lead(HexValue(s[1]).value * 16 + HexValue(s[2]).value, Unescape(s[3..]))
    else if s[0] as int < 256 then Lead(s[0] as int, Unescape(s[1..]))
    else None
  }

  function Lead(b: byte, rest: Option<seq<byte>>): Option<seq<byte>> { if rest.None? then None else Some([b] + rest.value) }

  /** decodeURIComponent */
  function ComponentText(s: string): Option<Text> {
    match Unescape(s)
    case None => None
    case Some(bytes) => Utf8.Decode(bytes)
  }

  lemma HexDigits(b: byte)
    ensures HexValue(Hex(b / 16)) == Some(b / 16) && HexValue(Hex(b % 16)) == Some(b % 16)
  {
  }

  lemma UnescapeEscaped(b: byte, rest: string)
    ensures Unescape(Escaped(b) + rest) == Lead(b, Unescape(rest))
  {
    var s := Escaped(b) + rest;
    HexDigits(b);
    if Unreserved(b) { assert s[1..] == rest; } else { assert s[3..] == rest; }
  }

  lemma {:induction false} UnescapeAll(bytes: seq<byte>)
    ensures Unescape(EscapeAll(bytes)) == Some(bytes)
  {
    if bytes != [] {
      UnescapeAll(bytes[1..]);
      UnescapeEscaped(bytes[0], EscapeAll(bytes[1..]));
      assert [bytes[0]] + bytes[1..] == bytes;
    }
  }

  /** What encodeURIComponent prints is read back, for every text it accepts. */
  lemma ComponentIsRead(t: Text)
    requires Utf8.WellFormed(t)
    ensures ComponentText(Component(t)) == Some(t)
  {
    UnescapeAll(Utf8.Encode(t));
    Utf8.DecodeEncode(t);
  }

  /** It prints nothing but unreserved characters and percent signs: no line break, no quote, no semicolon. */
  predicate Plain(s: string) { forall i :: 0 <= i < |s| ==> s[i] == '%' || (s[i] as int < 256 && Unreserved(s[i] as int)) }

  lemma {:induction false} EscapeAllIsPlain(bytes: seq<byte>)
    ensures Plain(EscapeAll(bytes))
  {
    if bytes != [] {
      EscapeAllIsPlain(bytes[1..]);
      assert Plain(Escaped(bytes[0]));
    }
  }
}
