/** The opaque page cursor: a JSON object {"t":..., "i":...} in UTF-8, in unpadded URL-safe base64. */
module Cursor {
  import opened Options
  import opened JsonText
  import opened Json
  import opened JsonReader
  import Base64
  import Utf8

  /** The position of a thread in the list: its last_message_at and its thread_id. */
  datatype Key = Key(t: Text, i: Text)

  const T_NAME: Text := [0x74]
  const I_NAME: Text := [0x69]

  /** What the list endpoint keeps of a cursor parameter. */
  const MAX_CURSOR := 400

  function CursorObject(k: Key): Json { Obj(Entry(T_NAME, Str(k.t), Entry(I_NAME, Str(k.i), NoEntries))) }

  function CursorText(k: Key): Text { Print(CursorObject(k)) }

  /** encodeCursor */
  function Encode(k: Key): string { Base64.EncodeUrl(Utf8.Encode(CursorText(k))) }

  predicate Digit(u: Unit) { 0x30 <= u <= 0x39 }

  /** /^\d{4}-\d{2}-\d{2}T/ */
  predicate IsTimestamp(t: Text) {
    && |t| >= 11
    && Digit(t[0]) && Digit(t[1]) && Digit(t[2]) && Digit(t[3]) && t[4] == 0x2D
    && Digit(t[5]) && Digit(t[6]) && t[7] == 0x2D
    && Digit(t[8]) && Digit(t[9]) && t[10] == 0x54
  }

  predicate IdUnit(u: Unit) { Digit(u) || 0x41 <= u <= 0x5A || 0x61 <= u <= 0x7A || u == 0x5F || u == 0x2D }

  /** /^[A-Za-z0-9_-]{1,200}$/ */
  predicate IsThreadId(i: Text) { 1 <= |i| <= 200 && forall n :: 0 <= n < |i| ==> IdUnit(i[n]) }

  /** A property of a parsed object: of two with one name the later counts. */
  function Property(fields: Entries<Json>, name: Text): Option<Json> {
    if fields.NoEntries? then None
    else if Has(fields.rest, name) then Property(fields.rest, name)
    else if fields.key == name then Some(fields.value)
    else None
  }

  function KeyOf(v: Json): Option<Key> {
    if !v.Obj? then None
    else
      match (Property(v.fields, T_NAME), Property(v.fields, I_NAME))
      case (Some(Str(t)), Some(Str(i))) => if IsTimestamp(t) && IsThreadId(i) then Some(Key(t, i)) else None
      case _ => None
  }

  /** How bytes become a JSON value: TextDecoder and JSON.parse, None where the latter throws. */
  type Reader = seq<Base64.byte> -> Option<Json>

  /** Well-formed UTF-8 and compact JSON, nothing else. */
  function StrictRead(bytes: seq<Base64.byte>): Option<Json> {
    match Utf8.Decode(bytes)
    case None => None
    case Some(text) => Read(text)
  }

  /** All that is asked of a reader, which may well be more tolerant than the strict one: it reads what JSON.stringify
      prints for a cursor, and nothing is no value. */
  ghost predicate Agrees(read: Reader) {
    read([]) == None && forall k :: read(Utf8.Encode(CursorText(k))) == Some(CursorObject(k))
  }

  /** decodeCursor */
  function Decode(read: Reader, value: string): Option<Key> {
    match Base64.DecodeUrl(value)
    case None => None
    case Some(bytes) =>
      match read(bytes)
      case None => None
      case Some(v) => KeyOf(v)
  }

  lemma KeyOfCursorObject(k: Key)
    ensures KeyOf(CursorObject(k)) == if IsTimestamp(k.t) && IsThreadId(k.i) then Some(k) else None
  {
    var tail := Entry(I_NAME, Str(k.i), NoEntries);
    assert T_NAME[0] != I_NAME[0];
    assert Find(tail.rest, T_NAME) == None && Find(tail.rest, I_NAME) == None;
    assert Property(tail, I_NAME) == Some(Str(k.i));
    assert !Has(tail, T_NAME) && Has(tail, I_NAME);
  }

  lemma CursorTextIsRead(k: Key)
    ensures Read(CursorText(k)) == Some(CursorObject(k))
    ensures Utf8.Decode(Utf8.Encode(CursorText(k))) == Some(CursorText(k))
  {
    var v := CursorObject(k);
    assert PlainFields(Entry(I_NAME, Str(k.i), NoEntries));
    PrintIsWellFormed(v);
    Utf8.DecodeEncode(CursorText(k));
    ReadPrint(v, []);
    assert Print(v) + [] == Print(v);
  }

  /** The strict reader is one. */
  lemma StrictAgrees()
    ensures Agrees(StrictRead)
  {
    assert Utf8.Decode([]) == Some([]);
    assert Read([]) == None by { assert NumberLength([]) == 0; }
    forall k ensures StrictRead(Utf8.Encode(CursorText(k))) == Some(CursorObject(k)) { CursorTextIsRead(k); }
  }

  /** Decoding undoes encoding exactly on the keys the decoder is willing to return, whatever the reader. */
  lemma DecodeEncode(read: Reader, k: Key)
    requires Agrees(read)
    ensures Decode(read, Encode(k)) == if IsTimestamp(k.t) && IsThreadId(k.i) then Some(k) else None
  {
    Base64.DecodeUrlEncodeUrl(Utf8.Encode(CursorText(k)));
    KeyOfCursorObject(k);
  }

  /** Whatever is decoded has the two checked forms. */
  lemma DecodedIsChecked(read: Reader, value: string)
    ensures Decode(read, value).Some? ==> IsTimestamp(Decode(read, value).value.t) && IsThreadId(Decode(read, value).value.i)
  {
  }

  /** No cursor. */
  lemma DecodeEmpty(read: Reader)
    requires Agrees(read)
    ensures Decode(read, "") == None
  {
    Base64.DecodeUrlEncodeUrl([]);
    assert Base64.EncodeUrl([]) == "";
  }

  // ---------------------------------------------------------------- length

  /** Printable ASCII that JSON does not escape. */
  predicate Simple(u: Unit) { 0x20 <= u < 0x7F && u != QUOTE && u != BACKSLASH }

  predicate AllSimple(t: Text) { forall n :: 0 <= n < |t| ==> Simple(t[n]) }

  lemma {:induction false} SimpleIsNotEscaped(t: Text)
    requires AllSimple(t)
    ensures Escape(t) == t
  {
    if t != [] {
      SimpleIsNotEscaped(t[1..]);
      assert Simple(t[0]);
      assert [t[0]] + t[1..] == t;
    }
  }

  predicate Ascii(t: Text) { forall n :: 0 <= n < |t| ==> t[n] < 0x80 }

  lemma {:induction false} AsciiIsOneByte(t: Text)
    requires Ascii(t)
    ensures |Utf8.Encode(t)| == |t|
  {
    if t != [] {
      assert t[0] < 0x80;
      AsciiIsOneByte(t[1..]);
    }
  }

  function PairText(name: Text, value: Text): Text { Quote(name) + [COLON] + Quote(value) }

  lemma CursorTextIs(k: Key)
    ensures CursorText(k) == [OPEN_OBJECT] + (PairText(T_NAME, k.t) + ([COMMA] + PairText(I_NAME, k.i))) + [CLOSE_OBJECT]
  {
  }

  lemma PairTextIsAscii(name: Text, value: Text)
    requires AllSimple(name) && AllSimple(value)
    ensures |PairText(name, value)| == |name| + |value| + 5 && Ascii(PairText(name, value))
  {
    SimpleIsNotEscaped(name);
    SimpleIsNotEscaped(value);
  }

  lemma CursorTextLength(k: Key)
    requires AllSimple(k.t) && AllSimple(k.i)
    ensures |CursorText(k)| == |k.t| + |k.i| + 15 && Ascii(CursorText(k))
  {
    CursorTextIs(k);
    PairTextIsAscii(T_NAME, k.t);
    PairTextIsAscii(I_NAME, k.i);
  }

  /** The exact length of a cursor, and that an ISO timestamp (24 characters) with any accepted thread id stays within the cap. */
  lemma CursorLength(k: Key)
    requires AllSimple(k.t) && AllSimple(k.i)
    ensures |Encode(k)| == (4 * (|k.t| + |k.i| + 15) + 2) / 3
    ensures |k.t| == 24 && IsThreadId(k.i) ==> |Encode(k)| <= 319 < MAX_CURSOR
  {
    CursorTextLength(k);
    AsciiIsOneByte(CursorText(k));
    Base64.DecodeUrlEncodeUrl(Utf8.Encode(CursorText(k)));
  }

  lemma ThreadIdIsSimple(i: Text)
    requires IsThreadId(i)
    ensures AllSimple(i)
  {
  }
}
