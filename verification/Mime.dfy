/**
The archived copy of an outgoing message: the multipart MIME text that rawOutgoingMessage
prints.  MimeReading proves that the reference parser reads it back.
*/
module Mime {
  import opened Options
  import opened MimeParser
  import opened Percent
  import Base64
  import Utf8

  datatype UploadFields = UploadFields(contentType: string, name: Text, content: string)

  predicate TypeChar(c: char) { c != ';' && c != '\r' && c != '\n' }

  /** safeMimeType returns a type without parameters, and parseUploads strips white space and keeps only content that
      decodes. */
  predicate Accepted(u: UploadFields) {
    && (forall i :: 0 <= i < |u.contentType| ==> TypeChar(u.contentType[i]))
    && Base64.Decode(u.content).Some? && forall c :: c in u.content ==> !Base64.IsSpace(c)
  }

  function EmptyUpload(): (u: UploadFields)
    ensures Accepted(u)
  {
    Base64.DecodeEncode([]);
    assert Base64.Encode([]) == "";
    UploadFields("", [], "")
  }

  type Upload = u: UploadFields | Accepted(u) witness EmptyUpload()

  datatype DraftFields = Draft(
    from: string, to: seq<string>, cc: seq<string>, subject: Text, date: string, messageId: string,
    inReplyTo: string, references: string, plain: Text, html: Text, uploads: seq<Upload>)

  /** Addresses, identifiers and dates are single lines; subject and bodies are arbitrary. */
  predicate SingleLines(d: DraftFields) {
    && OneLine(d.from) && OneLine(d.date) && OneLine(d.messageId) && OneLine(d.inReplyTo) && OneLine(d.references)
    && (forall i :: 0 <= i < |d.to| ==> OneLine(d.to[i])) && (forall i :: 0 <= i < |d.cc| ==> OneLine(d.cc[i]))
  }

  type Draft = d: DraftFields | SingleLines(d) witness Draft("", [], [], [], "", "", "", "", [], [], [])

  /** The boundaries are these prefixes followed by a random URL-safe token. */
  type MixedBoundary = b: string | OneLine(b) && b != "" && b[0] == 'm' witness "mixed_"
  type AltBoundary = b: string | OneLine(b) && b != "" && b[0] == 'a' witness "alt_"

  // ---------------------------------------------------------------- base64 bodies

  const LINE_LENGTH: nat := 76

  /** wrapBase64 */
  function Wrap(v: string): string {
    if |v| <= LINE_LENGTH then v else v[..LINE_LENGTH] + (CRLF + Wrap(v[LINE_LENGTH..]))
  }

  function Chunks(v: string): seq<string> {
    if |v| <= LINE_LENGTH then [v] else [v[..LINE_LENGTH]] + Chunks(v[LINE_LENGTH..])
  }

  predicate Base64Text(v: string) { forall i :: 0 <= i < |v| ==> Base64.InAlphabet(v[i]) || v[i] == '=' }

  lemma Base64TextIsOneLine(v: string)
    requires Base64Text(v)
    ensures OneLine(v) && !("--" <= v)
  {
    assert "--" <= v ==> v[0] == '-';
    forall i | 0 <= i < |v| ensures v[i] != '\r' && v[i] != '\n' && v[i] != '-' {
      if Base64.InAlphabet(v[i]) { Base64.AlphabetIsPlain(v[i]); }
    }
  }

  /** The wrapped text has lines of at most 76 characters, none of which starts like a delimiter, and which together
      are the text. */
  lemma {:induction false} WrappedLines(v: string)
    requires Base64Text(v)
    ensures Split(Wrap(v)) == Chunks(v) && Concat(Chunks(v)) == v
    ensures forall i :: 0 <= i < |Chunks(v)| ==> |Chunks(v)[i]| <= LINE_LENGTH && !("--" <= Chunks(v)[i])
  {
    if |v| <= LINE_LENGTH {
      Base64TextIsOneLine(v);
      SplitOneLine(v);
      assert Concat([v]) == v + Concat([v][1..]) && [v][1..] == [];
    } else {
      var head, rest := v[..LINE_LENGTH], v[LINE_LENGTH..];
      Base64TextIsOneLine(head);
      SplitOneLine(head);
      SplitAtBreak(head, Wrap(rest));
      WrappedLines(rest);
      assert Chunks(v)[1..] == Chunks(rest);
      assert v == head + rest;
    }
  }

  lemma EncodedIsBase64Text(b: seq<Base64.byte>)
    ensures Base64Text(Base64.Encode(b))
  {
  }

  lemma DecodableIsBase64Text(v: string)
    requires Base64.Decode(v).Some? && forall c :: c in v ==> !Base64.IsSpace(c)
    ensures Base64Text(v)
  {
    Base64.NoSpacesToDrop(v);
    var core := Base64.DropPadding(v);
    Base64.ValuesAreAlphabet(core);
    Base64.DropPaddingDropsEquals(v);
    assert v[..|core|] == core;
  }

  // ---------------------------------------------------------------- headers

  predicate Printable(u: Utf8.Unit) { 0x20 <= u <= 0x7E }

  function Ascii(t: Text): string
    requires forall i :: 0 <= i < |t| ==> Printable(t[i])
  {
    seq(|t|, i requires 0 <= i < |t| => assert Printable(t[i]); t[i] as char)
  }

  function EncodedWord(base64: string): string { "=?UTF-8?B?" + base64 + "?=" }

  /** mimeHeader: printable ASCII as it is, anything else as one encoded word (RFC 2047). */
  function MimeHeader(t: Text): string {
    if forall i :: 0 <= i < |t| ==> Printable(t[i]) then Ascii(t)
    else EncodedWord(Base64.Encode(Utf8.Encode(t)))
  }

  lemma EncodedWordIsOneLine(base64: string)
    requires OneLine(base64)
    ensures OneLine(EncodedWord(base64))
  {
  }

  /** Whatever the subject contains, it cannot break out of its header line. */
  lemma MimeHeaderIsOneLine(t: Text)
    ensures OneLine(MimeHeader(t))
  {
    if forall i :: 0 <= i < |t| ==> Printable(t[i]) {
    } else {
      EncodedIsBase64Text(Utf8.Encode(t));
      Base64TextIsOneLine(Base64.Encode(Utf8.Encode(t)));
      EncodedWordIsOneLine(Base64.Encode(Utf8.Encode(t)));
    }
  }

  function JoinComma(items: seq<string>): string {
    if items == [] then "" else if |items| == 1 then items[0] else items[0] + ", " + JoinComma(items[1..])
  }

  function AddressHeaders(d: Draft): seq<string> {
    ["From: " + d.from, "To: " + JoinComma(d.to)] + if d.cc == [] then [] else ["Cc: " + JoinComma(d.cc)]
  }

  function MessageHeaders(d: Draft): seq<string> {
    ["Subject: " + MimeHeader(d.subject), "Date: " + d.date, "Message-ID: " + d.messageId]
  }

  function ReplyHeaders(d: Draft): seq<string> {
    (if d.inReplyTo == "" then [] else ["In-Reply-To: " + d.inReplyTo])
    + if d.references == "" then [] else ["References: " + d.references]
  }

  /** Empty optional headers are left out. */
  function Headers(d: Draft): seq<string> {
    AddressHeaders(d) + MessageHeaders(d) + ReplyHeaders(d) + ["MIME-Version: 1.0"]
  }

  const PLAIN_TYPE := CONTENT_TYPE + "text/plain" + "; charset=UTF-8"
  const HTML_TYPE := CONTENT_TYPE + "text/html" + "; charset=UTF-8"
  const PLAIN_HEADERS := [PLAIN_TYPE, BASE64_ENCODING]
  const HTML_HEADERS := [HTML_TYPE, BASE64_ENCODING]

  const NAME_PARAMETER := "; name*=UTF-8''"
  const DISPOSITION := "Content-Disposition: " + "attachment; filename" + "*=UTF-8''"

  function UploadHeaders(u: Upload): seq<string> {
    [CONTENT_TYPE + u.contentType + NAME_PARAMETER + Component(u.name), BASE64_ENCODING, DISPOSITION + Component(u.name)]
  }

  // ---------------------------------------------------------------- the printer

  function Encoded(t: Text): string { Base64.Encode(Utf8.Encode(t)) }

  /** Headers, an empty line, and the body as one block of wrapped base64. */
  function LeafBlock(headers: seq<string>, content: string): seq<string> { headers + ["", Wrap(content)] }

  /** Headers, an empty line, and the parts between their delimiters. */
  function MultiBlock(headers: seq<string>, parts: seq<seq<string>>, boundary: string, epilogue: seq<string>): seq<string> {
    headers + [""] + Written(parts, boundary) + epilogue
  }

  function UploadBlock(u: Upload): seq<string> { LeafBlock(UploadHeaders(u), u.content) }

  function Map<A, B>(f: A -> B, s: seq<A>): seq<B> { seq(|s|, i requires 0 <= i < |s| => f(s[i])) }

  lemma MapMore<A, B>(f: A -> B, s: seq<A>, i: nat)
    requires i < |s|
    ensures Map(f, s[..i + 1]) == Map(f, s[..i]) + [f(s[i])]
  {
  }

  function UploadBlocks(uploads: seq<Upload>): seq<seq<string>> { Map(UploadBlock, uploads) }

  function Alternatives(d: Draft): seq<seq<string>> {
    [LeafBlock(PLAIN_HEADERS, Encoded(d.plain)), LeafBlock(HTML_HEADERS, Encoded(d.html))]
  }

  function FirstBlock(d: Draft, alternative: AltBoundary): seq<string> {
    if d.html == [] then LeafBlock(PLAIN_HEADERS, Encoded(d.plain))
    else MultiBlock([MULTIPART_ALTERNATIVE + Quoted(alternative)], Alternatives(d), alternative, [])
  }

  /** What is joined by line breaks to make the message; a block of base64 counts as one element. */
  function Elements(d: Draft, mixed: MixedBoundary, alternative: AltBoundary): seq<string> {
    if d.uploads == [] && d.html == [] then LeafBlock(Headers(d) + PLAIN_HEADERS, Encoded(d.plain))
    else
      MultiBlock(Headers(d) + [MULTIPART_MIXED + Quoted(mixed)], [FirstBlock(d, alternative)] + UploadBlocks(d.uploads), mixed, [""])
  }

  function Join(elements: seq<string>): string
    requires elements != []
  {
    if |elements| == 1 then elements[0] else elements[0] + (CRLF + Join(elements[1..]))
  }

  /** Written, without its closing delimiter. */
  function Opened(parts: seq<seq<string>>, boundary: string): seq<string> {
    if parts == [] then [] else Opened(parts[..|parts| - 1], boundary) + ["--" + boundary] + parts[|parts| - 1]
  }

  lemma {:induction false} WrittenAppend(a: seq<seq<string>>, b: seq<seq<string>>, boundary: string)
    ensures Written(a + b, boundary) == Opened(a, boundary) + Written(b, boundary)
  {
    if a == [] {
      assert a + b == b && Opened(a, boundary) == [];
    } else {
      var init, last := a[..|a| - 1], a[|a| - 1];
      assert a + b == init + ([last] + b);
      WrittenAppend(init, [last] + b, boundary);
      assert ([last] + b)[1..] == b;
      Regroup(Opened(init, boundary), ["--" + boundary], last, Written(b, boundary));
      Regroup([], ["--" + boundary], last, Written(b, boundary));
    }
  }

  lemma OpenedOne(part: seq<string>, boundary: string)
    ensures Opened([part], boundary) == ["--" + boundary] + part
  {
  }

  lemma OpenedMore(parts: seq<seq<string>>, part: seq<string>, boundary: string)
    ensures Opened(parts + [part], boundary) == Opened(parts, boundary) + ["--" + boundary] + part
  {
  }

  lemma WrittenTwo(a: seq<string>, b: seq<string>, boundary: string)
    ensures Written([a, b], boundary) == ["--" + boundary] + a + ["--" + boundary] + b + ["--" + boundary + "--"]
  {
    WrittenAppend([a, b], [], boundary);
    assert [a, b] + [] == [a, b] && [a] + [b] == [a, b];
    OpenedMore([a], b, boundary);
    OpenedOne(a, boundary);
  }

  /** The first part, line by line. */
  method FirstLines(d: Draft, alternative: AltBoundary) returns (lines: seq<string>)
    ensures lines == FirstBlock(d, alternative)
  {
    if d.html == [] { return PLAIN_HEADERS + ["", Wrap(Encoded(d.plain))]; }
    lines := ["--" + alternative] + LeafBlock(PLAIN_HEADERS, Encoded(d.plain))
      + ["--" + alternative] + LeafBlock(HTML_HEADERS, Encoded(d.html))
      + ["--" + alternative + "--"];
    WrittenTwo(Alternatives(d)[0], Alternatives(d)[1], alternative);
    lines := [MULTIPART_ALTERNATIVE + Quoted(alternative)] + [""] + lines;
    assert lines == lines + [];
  }

  lemma PushStep(first: seq<string>, uploads: seq<Upload>, i: nat, mixed: string)
    requires i < |uploads|
    ensures Opened([first] + UploadBlocks(uploads[..i + 1]), mixed)
            == Opened([first] + UploadBlocks(uploads[..i]), mixed) + ["--" + mixed] + UploadBlock(uploads[i])
  {
    var blocks, block := UploadBlocks(uploads[..i]), UploadBlock(uploads[i]);
    MapMore(UploadBlock, uploads, i);
    OpenedMore([first] + blocks, block, mixed);
    assert [first] + blocks + [block] == [first] + (blocks + [block]);
  }

  /** The loop over the uploads, each opening another part behind the first. */
  method PushParts(first: seq<string>, uploads: seq<Upload>, mixed: string) returns (lines: seq<string>)
    ensures lines == Opened([first] + UploadBlocks(uploads), mixed)
  {
    lines := ["--" + mixed] + first;
    OpenedOne(first, mixed);
    assert [first] + UploadBlocks(uploads[..0]) == [first];
    for i := 0 to |uploads|
      invariant lines == Opened([first] + UploadBlocks(uploads[..i]), mixed)
    {
      var u := uploads[i];
      PushStep(first, uploads, i, mixed);
      lines := lines + ["--" + mixed] + (UploadHeaders(u) + ["", Wrap(u.content)]);
    }
    assert uploads[..|uploads|] == uploads;
  }

  /** The message, line by line, with the two random boundaries as parameters. */
  method MessageText(d: Draft, mixed: MixedBoundary, alternative: AltBoundary) returns (message: string)
    ensures message == Join(Elements(d, mixed, alternative))
  {
    var headers := Headers(d);
    if d.uploads == [] && d.html == [] {
      return Join(LeafBlock(headers + PLAIN_HEADERS, Encoded(d.plain)));
    }
    var first := FirstLines(d, alternative);
    var lines := PushParts(first, d.uploads, mixed);
    var parts := [first] + UploadBlocks(d.uploads);
    lines := lines + ["--" + mixed + "--"];
    WrittenAppend(parts, [], mixed);
    assert parts + [] == parts;
    message := Join(headers + [MULTIPART_MIXED + Quoted(mixed)] + [""] + lines + [""]);
  }

  /** Every upload has a name that encodeURIComponent does not throw for. */
  predicate NamesAreWellFormed(d: Draft) { forall i :: 0 <= i < |d.uploads| ==> Utf8.WellFormed(d.uploads[i].name) }

  /** rawOutgoingMessage: the bytes that are archived, or None where encodeURIComponent throws. */
  method RawOutgoingMessage(d: Draft, mixed: MixedBoundary, alternative: AltBoundary) returns (r: Option<seq<byte>>)
    ensures r.Some? <==> forall u: Upload :: u in d.uploads ==> Utf8.WellFormed(u.name)
    ensures r.Some? ==> r.value == ToBytes(Join(Elements(d, mixed, alternative)))
  {
    if !NamesAreWellFormed(d) { return None; }
    assert forall u: Upload :: u in d.uploads ==> Utf8.WellFormed(u.name);
    var message := MessageText(d, mixed, alternative);
    r := Some(ToBytes(message));
  }
}
