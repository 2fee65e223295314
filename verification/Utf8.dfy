/**
UTF-16 strings, their UTF-8 encoding as TextEncoder produces it (RFC 3629 section 3, with
U+FFFD for a lone surrogate), and truncation to a byte limit.
*/
module Utf8 {
  import opened Options
  import Base64

  type byte = Base64.byte
  type Unit = u: int | 0 <= u < 0x10000

  predicate High(u: Unit) { 0xD800 <= u <= 0xDBFF }
  predicate Low(u: Unit) { 0xDC00 <= u <= 0xDFFF }
  predicate Surrogate(u: Unit) { High(u) || Low(u) }

  predicate StartsWithPair(s: seq<Unit>) { |s| >= 2 && High(s[0]) && Low(s[1]) }

  // ---------------------------------------------------------------- encoding and decoding

  function One(u: Unit): seq<byte> {
    if u < 0x80 then [u]
    else if u < 0x800 then [0xC0 + u / 64, 0x80 + u % 64]
    else if Surrogate(u) then [0xEF, 0xBF, 0xBD]
    else [0xE0 + u / 4096, 0x80 + u / 64 % 64, 0x80 + u % 64]
  }

  type Ten = n: int | 0 <= n < 1024

  /** The two halves of a code point above U+FFFF: the top eleven bits as 64 + (h - 0xD800), and the low ten. */
  function Top(h: Unit): int
    requires High(h)
  {
    h - 0xD800 + 64
  }

  function Bottom(l: Unit): Ten
    requires Low(l)
  {
    l - 0xDC00
  }

  function Pair(h: Unit, l: Unit): seq<byte>
    requires High(h) && Low(l)
  {
    [0xF0 + Top(h) / 256, 0x80 + Top(h) / 4 % 64, 0x80 + Top(h) % 4 * 16 + Bottom(l) / 64, 0x80 + Bottom(l) % 64]
  }

  function Encode(s: seq<Unit>): seq<byte> {
    if s == [] then []
    else if StartsWithPair(s) then Pair(s[0], s[1]) + Encode(s[2..])
    else One(s[0]) + Encode(s[1..])
  }

  predicate WellFormed(s: seq<Unit>) {
    s == [] || if StartsWithPair(s) then WellFormed(s[2..]) else !Surrogate(s[0]) && WellFormed(s[1..])
  }

  predicate Tail(b: byte) { 0x80 <= b < 0xC0 }

  function Bits(b: byte): int { b - 0x80 }

  function JoinTop(b0: byte, b1: byte, b2: byte): int { (b0 - 0xF0) * 256 + Bits(b1) * 4 + Bits(b2) / 16 }

  function JoinBottom(b2: byte, b3: byte): Ten
    requires Tail(b2) && Tail(b3)
  {
    Bits(b2) % 16 * 64 + Bits(b3)
  }

  /** The strict decoder: None unless the bytes are the encoding of a well-formed string. */
  function Decode(b: seq<byte>): Option<seq<Unit>> {
    if b == [] then Some([])
    else if b[0] < 0x80 then Prepend([b[0]], Decode(b[1..]))
    else if 0xC2 <= b[0] < 0xE0 && |b| >= 2 && Tail(b[1]) then
      Prepend([(b[0] - 0xC0) * 64 + Bits(b[1])], Decode(b[2..]))
    else if 0xE0 <= b[0] < 0xF0 && |b| >= 3 && Tail(b[1]) && Tail(b[2]) then
      var u: Unit := (b[0] - 0xE0) * 4096 + Bits(b[1]) * 64 + Bits(b[2]);
      if u < 0x800 || Surrogate(u) then None else Prepend([u], Decode(b[3..]))
    else if 0xF0 <= b[0] < 0xF5 && |b| >= 4 && Tail(b[1]) && Tail(b[2]) && Tail(b[3]) then
      var hi, lo := JoinTop(b[0], b[1], b[2]), JoinBottom(b[2], b[3]);
      if hi < 64 || hi >= 64 + 0x400 then None else Prepend([hi - 64 + 0xD800, lo + 0xDC00], Decode(b[4..]))
    else None
  }

  function Prepend(s: seq<Unit>, rest: Option<seq<Unit>>): Option<seq<Unit>> {
    if rest.None? then None else Some(s + rest.value)
  }

  lemma DecodeShort(u: Unit, rest: seq<byte>)
    requires u < 0x800
    ensures Decode(One(u) + rest) == Prepend([u], Decode(rest))
  {
  }

  lemma DecodeLong(u: Unit, rest: seq<byte>)
    requires u >= 0x800 && !Surrogate(u)
    ensures Decode(One(u) + rest) == Prepend([u], Decode(rest))
  {
    assert (One(u) + rest)[3..] == rest;
  }

  lemma DecodeOne(u: Unit, rest: seq<byte>)
    requires !Surrogate(u)
    ensures Decode(One(u) + rest) == Prepend([u], Decode(rest))
  {
    if u < 0x800 { DecodeShort(u, rest); } else { DecodeLong(u, rest); }
  }

  lemma PairBits(h: Unit, l: Unit)
    requires High(h) && Low(l)
    ensures var p := Pair(h, l);
            && 0xF0 <= p[0] < 0xF5 && Tail(p[1]) && Tail(p[2]) && Tail(p[3])
            && JoinTop(p[0], p[1], p[2]) == Top(h) && JoinBottom(p[2], p[3]) == Bottom(l)
  {
    var t, m := Top(h), Bottom(l);
    assert (t % 4 * 16 + m / 64) / 16 == t % 4;
    assert (t % 4 * 16 + m / 64) % 16 == m / 64;
  }

  lemma DecodePair(h: Unit, l: Unit, rest: seq<byte>)
    requires High(h) && Low(l)
    ensures Decode(Pair(h, l) + rest) == Prepend([h, l], Decode(rest))
  {
    PairBits(h, l);
    DecodeFour(Pair(h, l), h, l, rest);
  }

  lemma DecodeFour(p: seq<byte>, h: Unit, l: Unit, rest: seq<byte>)
    requires High(h) && Low(l)
    requires |p| == 4 && 0xF0 <= p[0] < 0xF5 && Tail(p[1]) && Tail(p[2]) && Tail(p[3])
    requires JoinTop(p[0], p[1], p[2]) == Top(h) && JoinBottom(p[2], p[3]) == Bottom(l)
    ensures Decode(p + rest) == Prepend([h, l], Decode(rest))
  {
  }

  /** On well-formed strings the encoding is undone by decoding, hence injective. */
  lemma {:induction false} DecodeEncode(s: seq<Unit>)
    requires WellFormed(s)
    ensures Decode(Encode(s)) == Some(s)
  {
    if StartsWithPair(s) {
      DecodeEncode(s[2..]);
      DecodePair(s[0], s[1], Encode(s[2..]));
      assert s == [s[0], s[1]] + s[2..];
    } else if s != [] {
      DecodeEncode(s[1..]);
      DecodeOne(s[0], Encode(s[1..]));
      assert s == [s[0]] + s[1..];
    }
  }

  // ---------------------------------------------------------------- sizes

  function Size(s: seq<Unit>): nat { |Encode(s)| }

  function UnitSize(u: Unit): nat { if u < 0x80 then 1 else if u < 0x800 then 2 else 3 }

  /** A low surrogate completes a pair exactly when the string before it ends in a high one. */
  lemma {:induction false} SizeOfLast(s: seq<Unit>, u: Unit)
    ensures Size(s + [u]) == Size(s) + if s != [] && High(s[|s| - 1]) && Low(u) then 1 else UnitSize(u)
  {
    if s == [] {
      assert s + [u] == [u];
    } else if StartsWithPair(s) {
      assert (s + [u])[2..] == s[2..] + [u];
      SizeOfLast(s[2..], u);
    } else if |s| == 1 {
      assert s == [s[0]] && s[1..] == [] && [u][1..] == [];
      assert (s + [u])[1..] == [u] && (s + [u])[2..] == [];
      assert Encode(s) == One(s[0]) + [] && Encode([u]) == One(u) + [];
    } else {
      assert (s + [u])[1..] == s[1..] + [u];
      SizeOfLast(s[1..], u);
    }
  }

  lemma {:induction false} SizeIsMonotone(v: seq<Unit>, a: nat, b: nat)
    requires a <= b <= |v|
    ensures Size(v[..a]) + (b - a) <= Size(v[..b])
  {
    if a < b {
      SizeIsMonotone(v, a, b - 1);
      assert v[..b] == v[..b - 1] + [v[b - 1]];
      SizeOfLast(v[..b - 1], v[b - 1]);
    }
  }

  // ---------------------------------------------------------------- truncation

  /** A cut that truncateUtf8 can return: not behind a high surrogate, unless another high surrogate follows it. */
  predicate CleanCut(v: seq<Unit>, e: nat)
    requires e <= |v|
  {
    e == 0 || !High(v[e - 1]) || (e < |v| && High(v[e]))
  }

  /** The candidate cut for a search position: one less behind a high surrogate. */
  function Adjust(v: seq<Unit>, m: nat): nat
    requires m <= |v|
  {
    if m > 0 && High(v[m - 1]) then m - 1 else m
  }

  function LongestCut(v: seq<Unit>, max: nat, n: nat): nat
    requires n <= |v|
  {
    if n == 0 || (CleanCut(v, n) && Size(v[..n]) <= max) then n else LongestCut(v, max, n - 1)
  }

  function Truncated(v: seq<Unit>, max: int): seq<Unit> {
    if max <= 0 || v == [] then []
    else if Size(v) <= max then v
    else LongestCutIsBest(v, max, |v|); v[..LongestCut(v, max, |v|)]
  }

  lemma {:induction false} LongestCutIsBest(v: seq<Unit>, max: nat, n: nat)
    requires n <= |v|
    ensures LongestCut(v, max, n) <= n
    ensures CleanCut(v, LongestCut(v, max, n)) && Size(v[..LongestCut(v, max, n)]) <= max
    ensures forall e :: LongestCut(v, max, n) < e <= n && CleanCut(v, e) ==> Size(v[..e]) > max
  {
    if !(n == 0 || (CleanCut(v, n) && Size(v[..n]) <= max)) { LongestCutIsBest(v, max, n - 1); }
  }

  function AdjustedSize(v: seq<Unit>, m: nat): nat
    requires m <= |v|
  {
    Size(v[..Adjust(v, m)])
  }

  /** Monotone in the search position: what the binary search rests on. */
  lemma AdjustedSizeIsMonotone(v: seq<Unit>, a: nat, b: nat)
    requires a <= b <= |v|
    ensures AdjustedSize(v, a) <= AdjustedSize(v, b)
  {
    SizeIsMonotone(v, Adjust(v, a), Adjust(v, b));
  }

  /** The last search position that fits gives the longest clean cut that fits. */
  lemma LastPositionIsLongestCut(v: seq<Unit>, max: nat, low: nat)
    requires low <= |v| && Size(v) > max && AdjustedSize(v, low) <= max
    requires forall m :: low < m <= |v| ==> AdjustedSize(v, m) > max
    ensures Adjust(v, low) == LongestCut(v, max, |v|)
  {
    LongestCutIsBest(v, max, |v|);
    var best := LongestCut(v, max, |v|);
    assert v[..|v|] == v;
    assert best < |v|;
    AdjustIsClean(v, low);
    assert Adjust(v, low) <= best;
    var m := if best > 0 && High(v[best - 1]) then best + 1 else best;
    assert Adjust(v, m) == best;
    assert AdjustedSize(v, m) <= max;
    assert m <= low;
    assert best <= Adjust(v, low);
  }

  lemma AdjustIsClean(v: seq<Unit>, m: nat)
    requires m <= |v|
    ensures Adjust(v, m) < |v| ==> CleanCut(v, Adjust(v, m))
    ensures forall k: nat :: k <= m ==> Adjust(v, k) <= Adjust(v, m)
  {
  }

  /** The binary search: the last position whose adjusted prefix fits. */
  method LastFittingPosition(value: seq<Unit>, max: nat) returns (low: nat)
    ensures low <= |value| && AdjustedSize(value, low) <= max
    ensures forall m :: low < m <= |value| ==> AdjustedSize(value, m) > max
  {
    var high := |value|;
    low := 0;
    while low < high
      invariant 0 <= low <= high <= |value|
      invariant AdjustedSize(value, low) <= max
      invariant forall m :: high < m <= |value| ==> AdjustedSize(value, m) > max
    {
      var middle := (low + high + 1) / 2;
      var end := middle;
      if High(value[end - 1]) { end := end - 1; }
      if Size(value[..end]) <= max {
        low := middle;
      } else {
        forall m | middle <= m <= |value| ensures AdjustedSize(value, m) > max {
          AdjustedSizeIsMonotone(value, middle, m);
        }
        high := middle - 1;
      }
    }
  }

  /** The closing loop, which the search leaves nothing to do. */
  method ShrinkToFit(value: seq<Unit>, max: nat, start: nat) returns (end: nat)
    requires start <= |value|
    ensures end <= start && (end == 0 || Size(value[..end]) <= max)
    ensures forall e :: end < e <= start ==> Size(value[..e]) > max
  {
    end := start;
    while end > 0 && Size(value[..end]) > max
      invariant end <= start
      invariant forall e :: end < e <= start ==> Size(value[..e]) > max
    {
      end := end - 1;
    }
  }

  /** truncateUtf8 */
  method TruncateUtf8(value: seq<Unit>, maxBytes: int) returns (r: seq<Unit>)
    ensures r == Truncated(value, maxBytes)
  {
    if maxBytes <= 0 || value == [] { return []; }
    if Size(value) <= maxBytes { return value; }
    var low := LastFittingPosition(value, maxBytes);
    LastPositionIsLongestCut(value, maxBytes, low);
    var end := low;
    if end > 0 && High(value[end - 1]) { end := end - 1; }
    assert Size(value[..end]) <= maxBytes;
    end := ShrinkToFit(value, maxBytes, end);
    r := value[..end];
  }

  // ---------------------------------------------------------------- what the truncation means

  predicate EndsInHigh(s: seq<Unit>) { s != [] && High(s[|s| - 1]) }

  /** `r` is the longest prefix of `v` that fits and does not end in a high surrogate. */
  predicate IsLongestWhole(v: seq<Unit>, max: nat, r: seq<Unit>) {
    && r <= v && Size(r) <= max && !EndsInHigh(r)
    && forall e :: |r| < e <= |v| && !EndsInHigh(v[..e]) ==> Size(v[..e]) > max
  }

  predicate NoAdjacentHighs(v: seq<Unit>) { forall i :: 0 <= i < |v| - 1 ==> !(High(v[i]) && High(v[i + 1])) }

  /** In every case the result is a prefix within the limit, and it splits no surrogate pair; what fits is not cut. */
  lemma TruncationIsSafe(v: seq<Unit>, max: int)
    ensures var r := Truncated(v, max);
            && (Size(v) <= max ==> r == v)
            && r <= v && Size(r) <= (if max <= 0 then 0 else max)
            && (r != v && EndsInHigh(r) ==> !Low(v[|r|]))
  {
    if max > 0 { LongestCutIsBest(v, max, |v|); }
  }

  /** Without two adjacent high surrogates a string that does not fit is cut to its longest whole prefix. */
  lemma TruncationIsLongestWhole(v: seq<Unit>, max: nat)
    requires NoAdjacentHighs(v) && Size(v) > max
    ensures IsLongestWhole(v, max, Truncated(v, max))
  {
    if max == 0 {
      forall e | 0 < e <= |v| ensures Size(v[..e]) > 0 { SizeIsMonotone(v, 0, e); }
    } else {
      LongestCutIsBest(v, max, |v|);
      var r := Truncated(v, max);
      assert v[..|v|] == v;
      forall e | |r| < e <= |v| && !EndsInHigh(v[..e]) ensures Size(v[..e]) > max {
        assert CleanCut(v, e);
      }
    }
  }

  /** With them it is not: cut to just before the second, the string ends in the first. */
  lemma AdjacentHighsAreKept(v: seq<Unit>, i: nat)
    requires i + 1 < |v| && High(v[i]) && High(v[i + 1])
    ensures var max := Size(v[..i + 1]);
            Size(v) > max && Truncated(v, max) == v[..i + 1] && EndsInHigh(Truncated(v, max))
  {
    var max := Size(v[..i + 1]);
    SizeIsMonotone(v, 0, i + 1);
    SizeIsMonotone(v, i + 1, |v|);
    assert v[..|v|] == v;
    LongestCutIsBest(v, max, |v|);
    assert CleanCut(v, i + 1);
    var e := LongestCut(v, max, |v|);
    if e > i + 1 { SizeIsMonotone(v, i + 1, e); }
  }

  /** The result is the longest prefix not ending in a high surrogate, for every limit the string does not fit,
      if and only if the string has no two adjacent high surrogates. */
  lemma TruncationIsLongestWholeIff(v: seq<Unit>)
    ensures NoAdjacentHighs(v) <==> forall max: nat :: Size(v) > max ==> IsLongestWhole(v, max, Truncated(v, max))
  {
    if NoAdjacentHighs(v) {
      forall max: nat | Size(v) > max ensures IsLongestWhole(v, max, Truncated(v, max)) { TruncationIsLongestWhole(v, max); }
    } else {
      var i: nat :| i < |v| - 1 && High(v[i]) && High(v[i + 1]);
      AdjacentHighsAreKept(v, i);
    }
  }

  lemma {:induction false} WellFormedHasNoAdjacentHighs(v: seq<Unit>)
    requires WellFormed(v)
    ensures NoAdjacentHighs(v)
  {
    if StartsWithPair(v) {
      WellFormedHasNoAdjacentHighs(v[2..]);
      forall i | 0 <= i < |v| - 1 ensures !(High(v[i]) && High(v[i + 1])) { if i >= 2 { assert v[i] == v[2..][i - 2] && v[i + 1] == v[2..][i - 1]; } }
    } else if v != [] {
      WellFormedHasNoAdjacentHighs(v[1..]);
      forall i | 0 <= i < |v| - 1 ensures !(High(v[i]) && High(v[i + 1])) { if i >= 1 { assert v[i] == v[1..][i - 1] && v[i + 1] == v[1..][i]; } }
    }
  }

  lemma {:induction false} CutIsWellFormed(v: seq<Unit>, e: nat)
    requires WellFormed(v) && e <= |v| && !EndsInHigh(v[..e])
    ensures WellFormed(v[..e])
  {
    if e > 0 && StartsWithPair(v) {
      assert e >= 2 by { assert v[..1] == [v[0]]; }
      assert v[..e][2..] == v[2..][..e - 2];
      if e > 2 { assert v[..e][e - 1] == v[2..][..e - 2][e - 3]; }
      CutIsWellFormed(v[2..], e - 2);
    } else if e > 0 {
      assert v[..e][1..] == v[1..][..e - 1];
      if e > 1 { assert v[..e][e - 1] == v[1..][..e - 1][e - 2]; }
      CutIsWellFormed(v[1..], e - 1);
    }
  }

  /** So a well-formed string is always cut to its longest whole prefix, which is well-formed. */
  lemma WellFormedIsCutWhole(v: seq<Unit>, max: nat)
    requires WellFormed(v)
    ensures WellFormed(Truncated(v, max))
    ensures Size(v) > max ==> IsLongestWhole(v, max, Truncated(v, max))
  {
    WellFormedHasNoAdjacentHighs(v);
    if Size(v) > max {
      TruncationIsLongestWhole(v, max);
      var r := Truncated(v, max);
      assert r == v[..|r|];
      CutIsWellFormed(v, |r|);
    }
  }
}
