/**
The characters of JSON: string escapes (RFC 8259 section 7) as JSON.stringify prints them and a
parser reads them, over UTF-16 code units, including lone surrogates.
*/
module JsonText {
  import opened Options
  import Utf8

  type Unit = Utf8.Unit
  type Text = seq<Unit>

  const QUOTE: Unit := 0x22
  const BACKSLASH: Unit := 0x5C

  // ---------------------------------------------------------------- four hexadecimal digits

  type nibble = d: int | 0 <= d < 16

  function HexDigit(d: nibble): Unit { if d < 10 then 0x30 + d else 0x61 + (d - 10) }

  function HexValue(u: Unit): Option<nibble> {
    if 0x30 <= u <= 0x39 then Some(u - 0x30)
    else if 0x61 <= u <= 0x66 then Some(u - 0x61 + 10)
    else if 0x41 <= u <= 0x46 then Some(u - 0x41 + 10)
    else None
  }

  function Nibble3(u: Unit): nibble { u / 4096 }
  function Nibble2(u: Unit): nibble { u / 256 % 16 }
  function Nibble1(u: Unit): nibble { u / 16 % 16 }
  function Nibble0(u: Unit): nibble { u % 16 }

  function FromNibbles(a: nibble, b: nibble, c: nibble, d: nibble): Unit { (a as int) * 4096 + b * 256 + c * 16 + d }

  lemma NibblesOfUnit(u: Unit)
    ensures FromNibbles(Nibble3(u), Nibble2(u), Nibble1(u), Nibble0(u)) == u
  {
    assert u / 16 / 16 == u / 256 && u / 256 / 16 == u / 4096;
  }

  function Hex4(u: Unit): Text { [HexDigit(Nibble3(u)), HexDigit(Nibble2(u)), HexDigit(Nibble1(u)), HexDigit(Nibble0(u))] }

  function ReadHex4(a: Unit, b: Unit, c: Unit, d: Unit): Option<Unit> {
    if HexValue(a).Some? && HexValue(b).Some? && HexValue(c).Some? && HexValue(d).Some?
    then Some(FromNibbles(HexValue(a).value, HexValue(b).value, HexValue(c).value, HexValue(d).value))
    else None
  }

  lemma ReadHexDigit(d: nibble)
    ensures HexValue(HexDigit(d)) == Some(d)
  {
  }

  lemma ReadHex4OfHex4(u: Unit)
    ensures var h := Hex4(u); ReadHex4(h[0], h[1], h[2], h[3]) == Some(u)
  {
    ReadHexDigit(Nibble3(u)); ReadHexDigit(Nibble2(u)); ReadHexDigit(Nibble1(u)); ReadHexDigit(Nibble0(u));
    NibblesOfUnit(u);
  }

  // ---------------------------------------------------------------- printing

  /** The letter of a two-character escape, for the units that have one. */
  function ShortEscape(u: Unit): Option<Unit> {
    if u == QUOTE || u == BACKSLASH then Some(u)
    else if u == 0x08 then Some(0x62)
    else if u == 0x0C then Some(0x66)
    else if u == 0x0A then Some(0x6E)
    else if u == 0x0D then Some(0x72)
    else if u == 0x09 then Some(0x74)
    else None
  }

  /** A unit by itself: control characters and lone surrogates are escaped. */
  function EscapeUnit(u: Unit): Text {
    if ShortEscape(u).Some? then [BACKSLASH, ShortEscape(u).value]
    else if u < 0x20 || Utf8.Surrogate(u) then [BACKSLASH, 0x75] + Hex4(u)
    else [u]
  }

  function Escape(s: Text): Text {
    if s == [] then []
    else if Utf8.StartsWithPair(s) then [s[0], s[1]] + Escape(s[2..])
    else EscapeUnit(s[0]) + Escape(s[1..])
  }

  function Quote(s: Text): Text { [QUOTE] + Escape(s) + [QUOTE] }

  // ---------------------------------------------------------------- reading

  function Unescape(letter: Unit): Option<Unit> {
    if letter == QUOTE || letter == BACKSLASH || letter == 0x2F then Some(letter)
    else if letter == 0x62 then Some(0x08)
    else if letter == 0x66 then Some(0x0C)
    else if letter == 0x6E then Some(0x0A)
    else if letter == 0x72 then Some(0x0D)
    else if letter == 0x74 then Some(0x09)
    else None
  }

  function Prepend(s: Text, r: Option<(Text, Text)>): Option<(Text, Text)> {
    if r.None? then None else Some((s + r.value.0, r.value.1))
  }

  /** After the opening quote: the string, and what follows the closing quote. */
  function ReadChars(t: Text): (r: Option<(Text, Text)>)
    ensures r.Some? ==> |r.value.1| < |t|
  {
    if t == [] then None
    else if t[0] == QUOTE then Some(([], t[1..]))
    else if t[0] == BACKSLASH then
      if |t| < 2 then None
      else if t[1] == 0x75 then
        if |t| < 6 || ReadHex4(t[2], t[3], t[4], t[5]).None? then None
        else Prepend([ReadHex4(t[2], t[3], t[4], t[5]).value], ReadChars(t[6..]))
      else if Unescape(t[1]).None? then None
      else Prepend([Unescape(t[1]).value], ReadChars(t[2..]))
    else if t[0] < 0x20 then None
    else Prepend([t[0]], ReadChars(t[1..]))
  }

  lemma ReadShortEscape(u: Unit, rest: Text)
    requires ShortEscape(u).Some?
    ensures ReadChars([BACKSLASH, ShortEscape(u).value] + rest) == Prepend([u], ReadChars(rest))
  {
  }

  lemma ReadLongEscape(h: Text, u: Unit, rest: Text)
    requires |h| == 4 && ReadHex4(h[0], h[1], h[2], h[3]) == Some(u)
    ensures ReadChars([BACKSLASH, 0x75] + h + rest) == Prepend([u], ReadChars(rest))
  {
  }

  lemma ReadPlain(u: Unit, rest: Text)
    requires u >= 0x20 && u != QUOTE && u != BACKSLASH
    ensures ReadChars([u] + rest) == Prepend([u], ReadChars(rest))
  {
  }

  lemma ReadUnit(u: Unit, rest: Text)
    ensures ReadChars(EscapeUnit(u) + rest) == Prepend([u], ReadChars(rest))
  {
    if ShortEscape(u).Some? {
      ReadShortEscape(u, rest);
    } else if u < 0x20 || Utf8.Surrogate(u) {
      ReadHex4OfHex4(u);
      ReadLongEscape(Hex4(u), u, rest);
    } else {
      ReadPlain(u, rest);
    }
  }

  lemma ReadPair(h: Unit, l: Unit, rest: Text)
    requires Utf8.High(h) && Utf8.Low(l)
    ensures ReadChars([h, l] + rest) == Prepend([h, l], ReadChars(rest))
  {
    var t := [h, l] + rest;
    assert t[1..] == [l] + rest && t[1..][1..] == rest;
    if ReadChars(rest).Some? {
      var s := ReadChars(rest).value.0;
      assert [h] + ([l] + s) == [h, l] + s;
    }
  }

  lemma EscapeOfPair(s: Text, tail: Text)
    requires Utf8.StartsWithPair(s)
    ensures Escape(s) + tail == [s[0], s[1]] + (Escape(s[2..]) + tail)
  {
  }

  lemma EscapeOfUnit(s: Text, tail: Text)
    requires s != [] && !Utf8.StartsWithPair(s)
    ensures Escape(s) + tail == EscapeUnit(s[0]) + (Escape(s[1..]) + tail)
  {
  }

  lemma ReadQuote(rest: Text)
    ensures ReadChars([QUOTE] + rest) == Some(([], rest))
  {
  }

  /** Every string is read back from its escaped text, whatever follows the closing quote. */
  lemma {:induction false} ReadCharsOfEscape(s: Text, rest: Text)
    ensures ReadChars(Escape(s) + ([QUOTE] + rest)) == Some((s, rest))
  {
    var tail := [QUOTE] + rest;
    if s == [] {
      ReadQuote(rest);
      assert Escape(s) + tail == tail;
    } else if Utf8.StartsWithPair(s) {
      ReadCharsOfEscape(s[2..], rest);
      EscapeOfPair(s, tail);
      ReadPair(s[0], s[1], Escape(s[2..]) + tail);
      assert [s[0], s[1]] + s[2..] == s;
    } else {
      ReadCharsOfEscape(s[1..], rest);
      EscapeOfUnit(s, tail);
      ReadUnit(s[0], Escape(s[1..]) + tail);
      assert [s[0]] + s[1..] == s;
    }
  }

  // ---------------------------------------------------------------- the printed text can be encoded faithfully

  lemma {:induction false} WellFormedAppend(a: Text, b: Text)
    requires Utf8.WellFormed(a) && Utf8.WellFormed(b)
    ensures Utf8.WellFormed(a + b)
  {
    if a == [] {
      assert a + b == b;
    } else if Utf8.StartsWithPair(a) {
      assert (a + b)[2..] == a[2..] + b;
      WellFormedAppend(a[2..], b);
    } else {
      assert (a + b)[1..] == a[1..] + b;
      WellFormedAppend(a[1..], b);
    }
  }

  lemma {:induction false} PlainIsWellFormed(t: Text)
    requires forall i :: 0 <= i < |t| ==> !Utf8.Surrogate(t[i])
    ensures Utf8.WellFormed(t)
  {
    if t != [] { PlainIsWellFormed(t[1..]); }
  }

  /** Escaping leaves no lone surrogate. */
  lemma {:induction false} EscapeIsWellFormed(s: Text)
    ensures Utf8.WellFormed(Escape(s))
  {
    if Utf8.StartsWithPair(s) {
      EscapeIsWellFormed(s[2..]);
      assert Escape(s)[2..] == Escape(s[2..]);
    } else if s != [] {
      EscapeIsWellFormed(s[1..]);
      PlainIsWellFormed(EscapeUnit(s[0]));
      WellFormedAppend(EscapeUnit(s[0]), Escape(s[1..]));
    }
  }

  lemma QuoteIsWellFormed(s: Text)
    ensures Utf8.WellFormed(Quote(s))
  {
    EscapeIsWellFormed(s);
    PlainIsWellFormed([QUOTE]);
    WellFormedAppend([QUOTE], Escape(s));
    WellFormedAppend([QUOTE] + Escape(s), [QUOTE]);
  }
}
