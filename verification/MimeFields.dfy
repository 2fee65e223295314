/** What a reader finds in the header fields of the archived message and of its parts. */
module MimeFields {
  import opened Options
  import opened MimeParser
  import opened Mime
  import opened MimeReading
  import opened Percent
  import Base64
  import Utf8

  /** The field called `name` has this value, on one line and no other; None: there is no such field. */
  predicate FieldIs(headers: seq<string>, name: string, value: Option<string>) {
    && (forall l :: l in headers && name <= l ==> value.Some? && l == name + value.value)
    && (value.Some? ==> name + value.value in headers)
  }

  lemma AddressLines(d: Draft, l: string)
    ensures l in AddressHeaders(d) <==>
              l == "From: " + d.from || l == "To: " + JoinComma(d.to) || (d.cc != [] && l == "Cc: " + JoinComma(d.cc))
  {
  }

  lemma MessageLines(d: Draft, l: string)
    ensures l in MessageHeaders(d) <==>
              l == "Subject: " + MimeHeader(d.subject) || l == "Date: " + d.date || l == "Message-ID: " + d.messageId
  {
  }

  lemma ReplyLines(d: Draft, l: string)
    ensures l in ReplyHeaders(d) <==>
              (d.inReplyTo != "" && l == "In-Reply-To: " + d.inReplyTo) || (d.references != "" && l == "References: " + d.references)
  {
  }

  lemma HeaderLines(d: Draft, l: string)
    ensures l in Headers(d) <==> l in AddressHeaders(d) || l in MessageHeaders(d) || l in ReplyHeaders(d) || l == "MIME-Version: 1.0"
  {
  }

  /** The first two characters of a line tell which field it is. */
  predicate Begins(l: string, a: char, b: char) { |l| >= 2 && l[0] == a && l[1] == b }

  lemma AddressLineBegins(d: Draft, l: string)
    requires l in AddressHeaders(d)
    ensures || (Begins(l, 'F', 'r') && l == "From: " + d.from)
            || (Begins(l, 'T', 'o') && l == "To: " + JoinComma(d.to))
            || (Begins(l, 'C', 'c') && d.cc != [] && l == "Cc: " + JoinComma(d.cc))
  {
    AddressLines(d, l);
  }

  lemma MessageLineBegins(d: Draft, l: string)
    requires l in MessageHeaders(d)
    ensures || (Begins(l, 'S', 'u') && l == "Subject: " + MimeHeader(d.subject))
            || (Begins(l, 'D', 'a') && l == "Date: " + d.date)
            || (Begins(l, 'M', 'e') && l == "Message-ID: " + d.messageId)
  {
    MessageLines(d, l);
  }

  lemma ReplyLineBegins(d: Draft, l: string)
    requires l in ReplyHeaders(d)
    ensures || (Begins(l, 'I', 'n') && d.inReplyTo != "" && l == "In-Reply-To: " + d.inReplyTo)
            || (Begins(l, 'R', 'e') && d.references != "" && l == "References: " + d.references)
  {
    ReplyLines(d, l);
  }

  lemma LineBegins(d: Draft, name: string, l: string)
    requires l in Headers(d) && |name| >= 2 && name <= l
    ensures Begins(l, name[0], name[1])
    ensures l in AddressHeaders(d) || l in MessageHeaders(d) || l in ReplyHeaders(d) || Begins(l, 'M', 'I')
  {
    HeaderLines(d, l);
  }

  /** The one line of a field. */
  lemma OneField(d: Draft, name: string, value: Option<string>)
    requires |name| >= 2 && (value.Some? ==> name + value.value in Headers(d))
    requires forall l :: l in Headers(d) && Begins(l, name[0], name[1]) ==> value.Some? && l == name + value.value
    ensures FieldIs(Headers(d), name, value)
  {
    forall l | l in Headers(d) && name <= l ensures value.Some? && l == name + value.value { LineBegins(d, name, l); }
  }

  predicate WhichLineIs(d: Draft, l: string) {
    && (Begins(l, 'F', 'r') ==> l == "From: " + d.from)
    && (Begins(l, 'T', 'o') ==> l == "To: " + JoinComma(d.to))
    && (Begins(l, 'C', 'c') ==> d.cc != [] && l == "Cc: " + JoinComma(d.cc))
    && (Begins(l, 'S', 'u') ==> l == "Subject: " + MimeHeader(d.subject))
    && (Begins(l, 'D', 'a') ==> l == "Date: " + d.date)
    && (Begins(l, 'M', 'e') ==> l == "Message-ID: " + d.messageId)
    && (Begins(l, 'I', 'n') ==> d.inReplyTo != "" && l == "In-Reply-To: " + d.inReplyTo)
    && (Begins(l, 'R', 'e') ==> d.references != "" && l == "References: " + d.references)
  }

  lemma WhichLine(d: Draft, l: string)
    requires l in Headers(d)
    ensures WhichLineIs(d, l)
  {
    HeaderLines(d, l);
    if l in AddressHeaders(d) { AddressLineBegins(d, l); }
    if l in MessageHeaders(d) { MessageLineBegins(d, l); }
    if l in ReplyHeaders(d) { ReplyLineBegins(d, l); }
  }

  function Given(value: string): Option<string> { if value == "" then None else Some(value) }

  /** Which address, subject or identifier is on which line; what is empty has no line, but that From, To, Subject, Date and
      Message-ID are always there. */
  lemma FieldsAre(d: Draft)
    ensures FieldIs(Headers(d), "From: ", Some(d.from))
    ensures FieldIs(Headers(d), "To: ", Some(JoinComma(d.to)))
    ensures FieldIs(Headers(d), "Cc: ", if d.cc == [] then None else Some(JoinComma(d.cc)))
    ensures FieldIs(Headers(d), "Subject: ", Some(MimeHeader(d.subject)))
    ensures FieldIs(Headers(d), "Date: ", Some(d.date))
    ensures FieldIs(Headers(d), "Message-ID: ", Some(d.messageId))
    ensures FieldIs(Headers(d), "In-Reply-To: ", Given(d.inReplyTo))
    ensures FieldIs(Headers(d), "References: ", Given(d.references))
  {
    forall l | l in Headers(d) ensures WhichLineIs(d, l) { WhichLine(d, l); }
    AddressFieldsAre(d);
    SubjectIs(d);
    DateIs(d);
    MessageIdIs(d);
    InReplyToIs(d);
    ReferencesAre(d);
  }

  lemma AddressFieldsAre(d: Draft)
    requires forall l :: l in Headers(d) ==> WhichLineIs(d, l)
    ensures FieldIs(Headers(d), "From: ", Some(d.from))
    ensures FieldIs(Headers(d), "To: ", Some(JoinComma(d.to)))
    ensures FieldIs(Headers(d), "Cc: ", if d.cc == [] then None else Some(JoinComma(d.cc)))
  {
    AddressLines(d, "From: " + d.from);
    AddressLines(d, "To: " + JoinComma(d.to));
    AddressLines(d, "Cc: " + JoinComma(d.cc));
    HeaderLines(d, "From: " + d.from);
    HeaderLines(d, "To: " + JoinComma(d.to));
    HeaderLines(d, "Cc: " + JoinComma(d.cc));
    OneField(d, "From: ", Some(d.from));
    OneField(d, "To: ", Some(JoinComma(d.to)));
    OneField(d, "Cc: ", if d.cc == [] then None else Some(JoinComma(d.cc)));
  }

  lemma SubjectIs(d: Draft)
    requires forall l :: l in Headers(d) ==> WhichLineIs(d, l)
    ensures FieldIs(Headers(d), "Subject: ", Some(MimeHeader(d.subject)))
  {
    MessageLines(d, "Subject: " + MimeHeader(d.subject));
    MessageFieldIs(d, "Subject: ", MimeHeader(d.subject));
  }

  lemma DateIs(d: Draft)
    requires forall l :: l in Headers(d) ==> WhichLineIs(d, l)
    ensures FieldIs(Headers(d), "Date: ", Some(d.date))
  {
    MessageLines(d, "Date: " + d.date);
    MessageFieldIs(d, "Date: ", d.date);
  }

  lemma MessageIdIs(d: Draft)
    requires forall l :: l in Headers(d) ==> WhichLineIs(d, l)
    ensures FieldIs(Headers(d), "Message-ID: ", Some(d.messageId))
  {
    MessageLines(d, "Message-ID: " + d.messageId);
    MessageFieldIs(d, "Message-ID: ", d.messageId);
  }

  lemma MessageFieldIs(d: Draft, name: string, value: string)
    requires |name| >= 2 && name + value in MessageHeaders(d)
    requires forall l :: l in Headers(d) && Begins(l, name[0], name[1]) ==> l == name + value
    ensures FieldIs(Headers(d), name, Some(value))
  {
    HeaderLines(d, name + value);
    OneField(d, name, Some(value));
  }

  lemma InReplyToIs(d: Draft)
    requires forall l :: l in Headers(d) ==> WhichLineIs(d, l)
    ensures FieldIs(Headers(d), "In-Reply-To: ", Given(d.inReplyTo))
  {
    var name, value := "In-Reply-To: ", d.inReplyTo;
    assert |name| >= 2 && name[0] == 'I' && name[1] == 'n';
    ReplyLines(d, name + value);
    ReplyFieldIs(d, name, value);
  }

  lemma ReferencesAre(d: Draft)
    requires forall l :: l in Headers(d) ==> WhichLineIs(d, l)
    ensures FieldIs(Headers(d), "References: ", Given(d.references))
  {
    var name, value := "References: ", d.references;
    assert |name| >= 2 && name[0] == 'R' && name[1] == 'e';
    ReplyLines(d, name + value);
    ReplyFieldIs(d, name, value);
  }

  lemma ReplyFieldIs(d: Draft, name: string, value: string)
    requires |name| >= 2 && (value != "" ==> name + value in ReplyHeaders(d))
    requires forall l :: l in Headers(d) && Begins(l, name[0], name[1]) ==> value != "" && l == name + value
    ensures FieldIs(Headers(d), name, Given(value))
  {
    HeaderLines(d, name + value);
    OneField(d, name, Given(value));
  }

  // ---------------------------------------------------------------- lists of addresses

  predicate StartsWithComma(t: string) { |t| >= 2 && t[0] == ',' && t[1] == ' ' }

  /** A reader that splits a list of addresses at its commas. */
  function SplitCommas(t: string): (items: seq<string>)
    ensures items != []
  {
    if t == "" then [""]
    else if StartsWithComma(t) then [""] + SplitCommas(t[2..])
    else MimeParser.Lead(t[0], SplitCommas(t[1..]))
  }

  lemma {:induction false} SplitAtComma(a: string, rest: string)
    requires ',' !in a && (rest == "" || StartsWithComma(rest))
    ensures SplitCommas(a + rest) == if rest == "" then [a] else [a] + SplitCommas(rest[2..])
  {
    if a == "" {
      assert a + rest == rest;
    } else {
      var t := a + rest;
      assert t[0] == a[0] && t[1..] == a[1..] + rest;
      SplitAtComma(a[1..], rest);
      assert [a[0]] + a[1..] == a;
    }
  }

  /** Addresses without commas are read back one by one. */
  lemma {:induction false} JoinedIsRead(items: seq<string>)
    requires items != [] && forall i :: 0 <= i < |items| ==> ',' !in items[i]
    ensures SplitCommas(JoinComma(items)) == items
  {
    if |items| == 1 {
      SplitAtComma(items[0], "");
      assert items[0] + "" == items[0] && items == [items[0]];
    } else {
      JoinedIsRead(items[1..]);
      var rest := ", " + JoinComma(items[1..]);
      assert rest[2..] == JoinComma(items[1..]);
      SplitAtComma(items[0], rest);
      assert JoinComma(items) == items[0] + rest;
      assert items == [items[0]] + items[1..];
    }
  }

  // ---------------------------------------------------------------- the subject

  const WORD_START := "=?UTF-8?B?"

  predicate LooksEncoded(h: string) { |h| >= 12 && WORD_START <= h && h[|h| - 2] == '?' && h[|h| - 1] == '=' }

  function CharByte(c: char): byte { (c as int) % 256 }

  function Bytes(h: string): seq<byte> { seq(|h|, i requires 0 <= i < |h| => CharByte(h[i])) }

  /** The bytes that a reader takes a header for: a single encoded word is decoded (RFC 2047), anything else is ASCII. */
  function HeaderBytes(h: string): Option<seq<byte>> {
    if LooksEncoded(h) then Base64.Decode(h[10..|h| - 2]) else Some(Bytes(h))
  }

  predicate AllPrintable(t: Text) { forall i :: 0 <= i < |t| ==> Printable(t[i]) }

  lemma {:induction false} PrintableIsAscii(t: Text)
    requires AllPrintable(t)
    ensures Utf8.Encode(t) == t
  {
    if t != [] {
      PrintableIsAscii(t[1..]);
      assert Printable(t[0]) && !Utf8.StartsWithPair(t);
      assert t == [t[0]] + t[1..];
    }
  }

  lemma EncodedSubjectIsRead(t: Text)
    requires !AllPrintable(t)
    ensures HeaderBytes(MimeHeader(t)) == Some(Utf8.Encode(t))
  {
    var body := Base64.Encode(Utf8.Encode(t));
    var h := MimeHeader(t);
    assert h == WORD_START + body + "?=";
    assert h[10..|h| - 2] == body;
    Base64.DecodeEncode(Utf8.Encode(t));
  }

  lemma PlainSubjectIsRead(t: Text)
    requires AllPrintable(t) && !LooksEncoded(Ascii(t))
    ensures HeaderBytes(MimeHeader(t)) == Some(Utf8.Encode(t))
  {
    PrintableIsAscii(t);
    var h := Ascii(t);
    forall i | 0 <= i < |t| ensures CharByte(h[i]) == t[i] { assert Printable(t[i]); }
    assert Bytes(h) == t;
  }

  lemma {:induction false} DroppedIsShorter(t: string)
    ensures |Base64.DropSpaces(t)| <= |t|
  {
    if t != "" { DroppedIsShorter(t[1..]); }
  }

  lemma {:induction false} BytesAreFewer(d: seq<Base64.sextet>)
    ensures Base64.Bytes(d).Some? ==> |Base64.Bytes(d).value| <= |d|
  {
    if |d| > 3 { BytesAreFewer(d[4..]); }
  }

  lemma DecodedIsShorter(t: string)
    ensures Base64.Decode(t).Some? ==> |Base64.Decode(t).value| <= |t|
  {
    DroppedIsShorter(t);
    Base64.DropPaddingDropsEquals(Base64.DropSpaces(t));
    match Base64.Values(Base64.DropPadding(Base64.DropSpaces(t)))
    case None =>
    case Some(d) => BytesAreFewer(d);
  }

  lemma LookalikeIsMisread(t: Text)
    requires AllPrintable(t) && LooksEncoded(Ascii(t))
    ensures HeaderBytes(MimeHeader(t)) != Some(Utf8.Encode(t))
  {
    var h := Ascii(t);
    PrintableIsAscii(t);
    DecodedIsShorter(h[10..|h| - 2]);
    assert MimeHeader(t) == h && |Utf8.Encode(t)| == |h|;
  }

  /** A subject of visible ASCII characters and spaces is printed as it is. */
  lemma AsciiSubjectIsKept(t: Text)
    requires forall i :: 0 <= i < |t| ==> 0x20 <= t[i] <= 0x7E
    ensures |MimeHeader(t)| == |t| && forall i :: 0 <= i < |t| ==> MimeHeader(t)[i] as int == t[i]
  {
    assert AllPrintable(t);
  }

  /** The subject is read back as it was given, whatever its characters, if and only if it is not itself written like an
      encoded word: mimeHeader prints such a subject as it is. */
  lemma SubjectIsReadIff(t: Text)
    ensures HeaderBytes(MimeHeader(t)) == Some(Utf8.Encode(t)) <==> !(AllPrintable(t) && LooksEncoded(Ascii(t)))
  {
    if !AllPrintable(t) {
      EncodedSubjectIsRead(t);
    } else if LooksEncoded(Ascii(t)) {
      LookalikeIsMisread(t);
    } else {
      PlainSubjectIsRead(t);
    }
  }

  // ---------------------------------------------------------------- the types of the parts

  lemma TextTypesAre()
    ensures PLAIN_TYPE == "Content-Type: " + "text/plain" + "; charset=UTF-8"
    ensures HTML_TYPE == "Content-Type: " + "text/html" + "; charset=UTF-8"
  {
  }

  lemma UploadTypeIs(u: Upload)
    ensures UploadHeaders(u)[0] == "Content-Type: " + u.contentType + ("; name*=UTF-8''" + Component(u.name))
  {
  }

  lemma FirstIsFound(headers: seq<string>, name: string)
    requires headers != [] && name <= headers[0]
    ensures FindHeader(headers, name) == headers[0]
  {
  }

  /** Which uploads there can be: the type has no parameter and stays on its line, the content is clean base64. */
  lemma UploadsAre(u: UploadFields)
    ensures Accepted(u) <==>
              && (forall i :: 0 <= i < |u.contentType| ==> u.contentType[i] != ';' && u.contentType[i] != '\r' && u.contentType[i] != '\n')
              && Base64.Decode(u.content).Some? && (forall c :: c in u.content ==> !Base64.IsSpace(c))
  {
  }

  /** The two texts and the uploads are announced as what they are. */
  lemma TypesAre(u: Upload)
    ensures FindHeader(PLAIN_HEADERS, "Content-Type: ") == "Content-Type: " + "text/plain" + "; charset=UTF-8"
    ensures FindHeader(HTML_HEADERS, "Content-Type: ") == "Content-Type: " + "text/html" + "; charset=UTF-8"
    ensures FindHeader(UploadHeaders(u), "Content-Type: ") == "Content-Type: " + u.contentType + ("; name*=UTF-8''" + Component(u.name))
  {
    TextTypesAre();
    UploadTypeIs(u);
    TextHasNoBoundary();
    UploadHasNoBoundary(u);
    FirstIsFound(PLAIN_HEADERS, CONTENT_TYPE);
    FirstIsFound(HTML_HEADERS, CONTENT_TYPE);
    FirstIsFound(UploadHeaders(u), CONTENT_TYPE);
  }
}
