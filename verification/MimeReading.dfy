/** Parsing the printed message gives back the plain body, the HTML body and the uploads, in order. */
module MimeReading {
  import opened Options
  import opened MimeParser
  import opened Mime
  import opened Percent
  import Base64
  import Utf8

  // ---------------------------------------------------------------- elements to lines

  function Flat(elements: seq<string>): seq<string> {
    if elements == [] then [] else Split(elements[0]) + Flat(elements[1..])
  }

  lemma {:induction false} SplitJoin(elements: seq<string>)
    requires elements != []
    ensures Split(Join(elements)) == Flat(elements)
  {
    if |elements| == 1 {
      assert Flat(elements[1..]) == [];
    } else {
      SplitAtBreak(elements[0], Join(elements[1..]));
      SplitJoin(elements[1..]);
    }
  }

  lemma {:induction false} FlatAppend(a: seq<string>, b: seq<string>)
    ensures Flat(a + b) == Flat(a) + Flat(b)
  {
    if a == [] {
      assert a + b == b;
    } else {
      assert (a + b)[1..] == a[1..] + b;
      FlatAppend(a[1..], b);
      assert Split(a[0]) + (Flat(a[1..]) + Flat(b)) == Split(a[0]) + Flat(a[1..]) + Flat(b);
    }
  }

  predicate OneLiners(lines: seq<string>) { forall i :: 0 <= i < |lines| ==> OneLine(lines[i]) }

  lemma {:induction false} FlatOneLiners(lines: seq<string>)
    requires OneLiners(lines)
    ensures Flat(lines) == lines
  {
    if lines != [] {
      SplitOneLine(lines[0]);
      FlatOneLiners(lines[1..]);
    }
  }

  function LeafLines(headers: seq<string>, content: string): seq<string> { headers + ([""] + Chunks(content)) }

  lemma FlatLeaf(headers: seq<string>, content: string)
    requires OneLiners(headers) && Base64Text(content)
    ensures Flat(LeafBlock(headers, content)) == LeafLines(headers, content)
  {
    FlatAppend(headers, ["", Wrap(content)]);
    FlatOneLiners(headers);
    WrappedLines(content);
    assert ["", Wrap(content)][1..] == [Wrap(content)] && [Wrap(content)][1..] == [];
    assert Flat([Wrap(content)]) == Chunks(content) + [];
    assert Split("") == [""];
  }

  function FlatParts(parts: seq<seq<string>>): seq<seq<string>> {
    if parts == [] then [] else [Flat(parts[0])] + FlatParts(parts[1..])
  }

  /** A non-recursive name for it. */
  function PartLines(blocks: seq<seq<string>>): seq<seq<string>> { FlatParts(blocks) }

  function MultiLines(headers: seq<string>, parts: seq<seq<string>>, boundary: string, epilogue: seq<string>): seq<string> {
    headers + ([""] + (Written(parts, boundary) + epilogue))
  }

  lemma FlatMulti(headers: seq<string>, blocks: seq<seq<string>>, parts: seq<seq<string>>, boundary: string, epilogue: seq<string>)
    requires OneLiners(headers) && OneLine(boundary) && OneLiners(epilogue) && PartLines(blocks) == parts
    ensures Flat(MultiBlock(headers, blocks, boundary, epilogue)) == MultiLines(headers, parts, boundary, epilogue)
  {
    var top, w := headers + [""], Written(blocks, boundary);
    FlatOneLiners(top);
    FlatWritten(blocks, boundary);
    FlatOneLiners(epilogue);
    FlatAppend(top, w);
    FlatAppend(top + w, epilogue);
    Regroup(headers, [""], Written(parts, boundary), epilogue);
  }

  lemma {:induction false} FlatWritten(parts: seq<seq<string>>, boundary: string)
    requires OneLine(boundary)
    ensures Flat(Written(parts, boundary)) == Written(FlatParts(parts), boundary)
  {
    if parts == [] {
      FlatOneLiners(["--" + boundary + "--"]);
    } else {
      FlatOneLiners(["--" + boundary]);
      FlatWritten(parts[1..], boundary);
      FlatAppend(["--" + boundary], parts[0]);
      FlatAppend(["--" + boundary] + parts[0], Written(parts[1..], boundary));
      assert FlatParts(parts)[1..] == FlatParts(parts[1..]);
    }
  }

  // ---------------------------------------------------------------- no line is mistaken for a delimiter

  predicate NoDashes(lines: seq<string>) { forall i :: 0 <= i < |lines| ==> !("--" <= lines[i]) }

  lemma NoDashesIsClean(lines: seq<string>, boundary: string)
    requires NoDashes(lines)
    ensures Clean(lines, boundary)
  {
  }

  predicate ContentHeaders(headers: seq<string>) {
    OneLiners(headers) && HeaderBlock(headers) && forall i :: 0 <= i < |headers| ==> headers[i] != "" && headers[i][0] == 'C'
  }

  lemma LeafHasNoDashes(headers: seq<string>, content: string)
    requires ContentHeaders(headers) && Base64Text(content)
    ensures NoDashes(LeafLines(headers, content))
  {
    WrappedLines(content);
  }

  /** A part whose lines are clean for one boundary: an inner multipart with a boundary that differs in its first letter. */
  lemma {:induction false} WrittenIsClean(parts: seq<seq<string>>, inner: string, outer: string)
    requires inner != "" && outer != "" && inner[0] != outer[0]
    requires forall i :: 0 <= i < |parts| ==> NoDashes(parts[i])
    ensures Clean(Written(parts, inner), outer)
  {
    DelimiterIsForeign(inner, outer);
    if parts != [] {
      NoDashesIsClean(parts[0], outer);
      WrittenIsClean(parts[1..], inner, outer);
    }
  }

  lemma DelimiterIsForeign(inner: string, outer: string)
    requires inner != "" && outer != "" && inner[0] != outer[0]
    ensures !IsDelimiter("--" + inner, outer) && !IsDelimiter("--" + inner + "--", outer)
  {
    assert ("--" + inner)[2] == inner[0] == ("--" + inner + "--")[2] && ("--" + outer)[2] == outer[0];
  }

  // ---------------------------------------------------------------- headers

  lemma {:induction false} FindHeaderSkips(before: seq<string>, line: string, after: seq<string>, prefix: string)
    requires prefix <= line && forall i :: 0 <= i < |before| ==> !(prefix <= before[i])
    ensures FindHeader(before + ([line] + after), prefix) == line
  {
    if before == [] {
      assert before + ([line] + after) == [line] + after;
    } else {
      assert (before + ([line] + after))[1..] == before[1..] + ([line] + after);
      FindHeaderSkips(before[1..], line, after, prefix);
    }
  }

  lemma {:induction false} JoinCommaIsOneLine(items: seq<string>)
    requires forall i :: 0 <= i < |items| ==> OneLine(items[i])
    ensures OneLine(JoinComma(items))
  {
    if |items| > 1 { JoinCommaIsOneLine(items[1..]); }
  }

  /** A header line of the message itself: not empty, one line, and not a content type. */
  predicate Ordinary(h: string) { OneLine(h) && h != "" && !(CONTENT_TYPE <= h) }

  lemma OrdinaryStart(start: string, rest: string)
    requires OneLine(start) && OneLine(rest) && |start| >= 2 && (start[0] != 'C' || start[1] != 'o')
    ensures Ordinary(start + rest)
  {
    assert (start + rest)[0] == start[0] && (start + rest)[1] == start[1];
    assert CONTENT_TYPE[0] == 'C' && CONTENT_TYPE[1] == 'o';
  }

  predicate AllOrdinary(headers: seq<string>) { forall i :: 0 <= i < |headers| ==> Ordinary(headers[i]) }

  lemma AllOrdinaryAppend(a: seq<string>, b: seq<string>)
    requires AllOrdinary(a) && AllOrdinary(b)
    ensures AllOrdinary(a + b)
  {
  }

  lemma AddressHeadersAreOrdinary(d: Draft)
    ensures AllOrdinary(AddressHeaders(d))
  {
    JoinCommaIsOneLine(d.to);
    JoinCommaIsOneLine(d.cc);
    OrdinaryStart("From: ", d.from);
    OrdinaryStart("To: ", JoinComma(d.to));
    OrdinaryStart("Cc: ", JoinComma(d.cc));
  }

  lemma MessageHeadersAreOrdinary(d: Draft)
    ensures AllOrdinary(MessageHeaders(d))
  {
    MimeHeaderIsOneLine(d.subject);
    OrdinaryStart("Subject: ", MimeHeader(d.subject));
    OrdinaryStart("Date: ", d.date);
    OrdinaryStart("Message-ID: ", d.messageId);
  }

  lemma ReplyHeadersAreOrdinary(d: Draft)
    ensures AllOrdinary(ReplyHeaders(d))
  {
    OrdinaryStart("In-Reply-To: ", d.inReplyTo);
    OrdinaryStart("References: ", d.references);
  }

  lemma VersionHeaderIsOrdinary()
    ensures AllOrdinary(["MIME-Version: 1.0"])
  {
    OrdinaryStart("MIME-Version: ", "1.0");
    assert "MIME-Version: " + "1.0" == "MIME-Version: 1.0";
  }

  lemma HeadersAreOrdinary(d: Draft)
    ensures AllOrdinary(Headers(d))
  {
    AddressHeadersAreOrdinary(d);
    MessageHeadersAreOrdinary(d);
    ReplyHeadersAreOrdinary(d);
    VersionHeaderIsOrdinary();
    AllOrdinaryAppend(AddressHeaders(d), MessageHeaders(d));
    AllOrdinaryAppend(AddressHeaders(d) + MessageHeaders(d), ReplyHeaders(d));
    AllOrdinaryAppend(AddressHeaders(d) + MessageHeaders(d) + ReplyHeaders(d), ["MIME-Version: 1.0"]);
  }

  lemma PrefixOfConcat(prefix: string, rest: string)
    ensures prefix <= prefix + rest && (prefix + rest)[|prefix|..] == rest
  {
  }

  lemma UnquoteQuoted(boundary: string)
    ensures Unquote(Quoted(boundary)) == Some(boundary)
  {
  }

  lemma MixedIsBoundary(boundary: string)
    ensures BoundaryOf(MULTIPART_MIXED + Quoted(boundary)) == Some(boundary)
    ensures CONTENT_TYPE <= MULTIPART_MIXED + Quoted(boundary)
  {
  }

  lemma PrefixesDisagree(a: string, b: string, line: string, i: nat)
    requires a <= line && i < |a| && i < |b| && a[i] != b[i]
    ensures !(b <= line)
  {
  }

  lemma AlternativeIsBoundary(boundary: string)
    ensures BoundaryOf(MULTIPART_ALTERNATIVE + Quoted(boundary)) == Some(boundary)
    ensures CONTENT_TYPE <= MULTIPART_ALTERNATIVE + Quoted(boundary)
  {
    PrefixOfConcat(MULTIPART_ALTERNATIVE, Quoted(boundary));
    PrefixesDisagree(MULTIPART_ALTERNATIVE, MULTIPART_MIXED, MULTIPART_ALTERNATIVE + Quoted(boundary), 24);
    UnquoteQuoted(boundary);
  }

  lemma TextHasNoBoundary()
    ensures BoundaryOf(PLAIN_TYPE) == None && BoundaryOf(HTML_TYPE) == None
    ensures CONTENT_TYPE <= PLAIN_TYPE && CONTENT_TYPE <= HTML_TYPE
  {
  }

  /** An upload is never taken for a multipart entity, not even one whose declared type is multipart/mixed: a type has
      no ';', so the parameter that follows it is `name`, not `boundary`. */
  lemma UploadHasNoBoundary(u: Upload)
    ensures BoundaryOf(UploadHeaders(u)[0]) == None && CONTENT_TYPE <= UploadHeaders(u)[0]
  {
    TypeIsFirst(u);
    ParameterIsName(u, "multipart/mixed");
    ParameterIsName(u, "multipart/alternative");
  }

  lemma TypeIsFirst(u: Upload)
    ensures CONTENT_TYPE <= UploadHeaders(u)[0]
  {
    var rest := u.contentType + NAME_PARAMETER + Component(u.name);
    PrefixOfConcat(CONTENT_TYPE, rest);
    assert UploadHeaders(u)[0] == CONTENT_TYPE + rest;
  }

  lemma ParameterIsName(u: Upload, multipart: string)
    requires forall i :: 0 <= i < |multipart| ==> multipart[i] != ';'
    ensures !(CONTENT_TYPE + multipart + "; boundary=" <= UploadHeaders(u)[0])
  {
    var line, wanted := UploadHeaders(u)[0], CONTENT_TYPE + multipart + "; boundary=";
    var k := |CONTENT_TYPE|;
    assert line[k + |u.contentType|] == ';' && line[k + |u.contentType| + 2] == 'n';
    assert wanted[k + |multipart|] == ';' && wanted[k + |multipart| + 2] == 'b';
    if |u.contentType| < |multipart| {
      assert wanted[k + |u.contentType|] == multipart[|u.contentType|];
    } else if |u.contentType| > |multipart| {
      assert line[k + |multipart|] == u.contentType[|multipart|];
    }
  }

  lemma MultipartLineIsOneLine(start: string, boundary: string)
    requires OneLine(start) && OneLine(boundary)
    ensures OneLine(start + Quoted(boundary))
  {
  }

  lemma MultipartTypesAreOneLine()
    ensures OneLine(MULTIPART_MIXED) && OneLine(MULTIPART_ALTERNATIVE)
  {
    TypeLiteral();
    ContentHeaderLine(CONTENT_TYPE, "multipart/mixed");
    ContentHeaderLine(CONTENT_TYPE + "multipart/mixed", "; boundary=");
    ContentHeaderLine(CONTENT_TYPE, "multipart/alternative");
    ContentHeaderLine(CONTENT_TYPE + "multipart/alternative", "; boundary=");
  }

  // ---------------------------------------------------------------- the parts

  lemma EncodedContent(t: Text)
    ensures Base64Text(Encoded(t)) && Base64.Decode(Encoded(t)) == Some(Utf8.Encode(t))
  {
    EncodedIsBase64Text(Utf8.Encode(t));
    Base64.DecodeEncode(Utf8.Encode(t));
  }

  /** One leaf of the message: its lines, how they parse, and that they hide no delimiter. */
  lemma LeafIsRead(headers: seq<string>, content: string, depth: nat)
    requires ContentHeaders(headers) && BASE64_ENCODING in headers && ContentBoundary(headers) == None
    requires Base64Text(content)
    ensures Flat(LeafBlock(headers, content)) == LeafLines(headers, content)
    ensures Parse(LeafLines(headers, content), depth) == Some(Leaf(headers, content))
    ensures NoDashes(LeafLines(headers, content))
  {
    FlatLeaf(headers, content);
    WrappedLines(content);
    ParseWrittenLeaf(headers, Chunks(content), depth);
    LeafHasNoDashes(headers, content);
  }

  /** A text part: a content type that is not multipart, the transfer encoding, and the encoded text. */
  lemma TextIsRead(contentType: string, t: Text, depth: nat)
    requires OneLine(contentType) && CONTENT_TYPE <= contentType && BoundaryOf(contentType) == None
    ensures var headers := [contentType, BASE64_ENCODING];
            && Flat(LeafBlock(headers, Encoded(t))) == LeafLines(headers, Encoded(t))
            && Parse(LeafLines(headers, Encoded(t)), depth) == Some(Leaf(headers, Encoded(t)))
            && NoDashes(LeafLines(headers, Encoded(t)))
  {
    TypeAndEncoding(contentType);
    EncodedContent(t);
    LeafIsRead([contentType, BASE64_ENCODING], Encoded(t), depth);
  }

  lemma TypeAndEncoding(contentType: string)
    requires OneLine(contentType) && CONTENT_TYPE <= contentType
    ensures var headers := [contentType, BASE64_ENCODING];
            ContentHeaders(headers) && BASE64_ENCODING in headers && FindHeader(headers, CONTENT_TYPE) == contentType
  {
  }

  function PlainLines(d: Draft): seq<string> { LeafLines(PLAIN_HEADERS, Encoded(d.plain)) }

  function HtmlLines(d: Draft): seq<string> { LeafLines(HTML_HEADERS, Encoded(d.html)) }

  lemma TextTypesAreOneLine()
    ensures OneLine(PLAIN_TYPE) && OneLine(HTML_TYPE)
  {
    TypeLiteral();
    ContentHeaderLine(CONTENT_TYPE, "text/plain");
    ContentHeaderLine(CONTENT_TYPE + "text/plain", "; charset=UTF-8");
    ContentHeaderLine(CONTENT_TYPE, "text/html");
    ContentHeaderLine(CONTENT_TYPE + "text/html", "; charset=UTF-8");
  }

  lemma PlainIsRead(d: Draft, depth: nat)
    ensures Flat(LeafBlock(PLAIN_HEADERS, Encoded(d.plain))) == PlainLines(d)
    ensures Parse(PlainLines(d), depth) == Some(Leaf(PLAIN_HEADERS, Encoded(d.plain)))
    ensures NoDashes(PlainLines(d))
  {
    TextHasNoBoundary();
    TextTypesAreOneLine();
    TextIsRead(PLAIN_TYPE, d.plain, depth);
  }

  lemma HtmlIsRead(d: Draft, depth: nat)
    ensures Flat(LeafBlock(HTML_HEADERS, Encoded(d.html))) == HtmlLines(d)
    ensures Parse(HtmlLines(d), depth) == Some(Leaf(HTML_HEADERS, Encoded(d.html)))
    ensures NoDashes(HtmlLines(d))
  {
    TextHasNoBoundary();
    TextTypesAreOneLine();
    TextIsRead(HTML_TYPE, d.html, depth);
  }

  function OneUpload(u: Upload): seq<string> { LeafLines(UploadHeaders(u), u.content) }

  function UploadEntity(u: Upload): Entity { Leaf(UploadHeaders(u), u.content) }

  lemma ComponentIsOneLine(t: Text)
    ensures OneLine(Component(t))
  {
    EscapeAllIsPlain(Utf8.Encode(t));
  }

  lemma UploadHeadersAreContentHeaders(u: Upload)
    ensures ContentHeaders(UploadHeaders(u))
  {
    TypeLiteral(); NameLiteral(); EncodingLiteral(); DispositionLiteral();
    ContentHeaderLine(CONTENT_TYPE, u.contentType);
    ContentHeaderLine(CONTENT_TYPE + u.contentType, NAME_PARAMETER);
    ComponentIsOneLine(u.name);
    ContentHeaderLine(CONTENT_TYPE + u.contentType + NAME_PARAMETER, Component(u.name));
    ContentHeaderLine(DISPOSITION, Component(u.name));
  }

  lemma TypeLiteral()
    ensures OneLine(CONTENT_TYPE) && CONTENT_TYPE[0] == 'C'
  {
  }

  lemma NameLiteral()
    ensures OneLine(NAME_PARAMETER)
  {
  }

  lemma EncodingLiteral()
    ensures OneLine(BASE64_ENCODING) && BASE64_ENCODING[0] == 'C'
  {
  }

  lemma DispositionStart()
    ensures OneLine("Content-Disposition: ") && OneLine("attachment; filename")
  {
  }

  lemma DispositionLiteral()
    ensures OneLine(DISPOSITION) && DISPOSITION[0] == 'C'
  {
    DispositionStart();
    ContentHeaderLine("Content-Disposition: ", "attachment; filename");
    ContentHeaderLine("Content-Disposition: " + "attachment; filename", "*=UTF-8''");
  }

  lemma ContentHeaderLine(start: string, rest: string)
    requires OneLine(start) && OneLine(rest) && start != "" && start[0] == 'C'
    ensures OneLine(start + rest) && start + rest != "" && (start + rest)[0] == 'C'
  {
  }

  lemma UploadIsRead(u: Upload, depth: nat)
    ensures Flat(UploadBlock(u)) == OneUpload(u)
    ensures Parse(OneUpload(u), depth) == Some(UploadEntity(u))
    ensures NoDashes(OneUpload(u))
  {
    UploadHeadersAreContentHeaders(u);
    UploadHasNoBoundary(u);
    DecodableIsBase64Text(u.content);
    LeafIsRead(UploadHeaders(u), u.content, depth);
  }

  /** The body of the message: the plain text alone, or the two alternatives. */
  function BodyEntity(d: Draft, alternative: AltBoundary): Entity {
    if d.html == [] then Leaf(PLAIN_HEADERS, Encoded(d.plain))
    else
      Multi(AlternativeHeaders(alternative),
            [Leaf(PLAIN_HEADERS, Encoded(d.plain)), Leaf(HTML_HEADERS, Encoded(d.html))])
  }

  function BodyLines(d: Draft, alternative: AltBoundary): seq<string> {
    if d.html == [] then PlainLines(d)
    else MultiLines(AlternativeHeaders(alternative), [PlainLines(d), HtmlLines(d)], alternative, [])
  }

  lemma ParseAllStep(part: seq<string>, more: seq<seq<string>>, x: Entity, rest: seq<Entity>, depth: nat)
    requires Parse(part, depth) == Some(x) && ParseAll(more, depth) == Some(rest)
    ensures ParseAll([part] + more, depth) == Some([x] + rest)
  {
  }

  lemma ParseTwo(parts: seq<seq<string>>, entities: seq<Entity>, depth: nat)
    requires |parts| == |entities| == 2
    requires Parse(parts[0], depth) == Some(entities[0]) && Parse(parts[1], depth) == Some(entities[1])
    ensures ParseAll(parts, depth) == Some(entities)
  {
    ParseAllStep(parts[1], [], entities[1], [], depth);
    ParseAllStep(parts[0], [parts[1]] + [], entities[0], [entities[1]] + [], depth);
    Two(parts);
    Two(entities);
  }

  lemma Two<T>(s: seq<T>)
    requires |s| == 2
    ensures [s[0]] + ([s[1]] + []) == s
  {
  }

  lemma ParseLines(lines: seq<string>, headers: seq<string>, boundary: string, parts: seq<seq<string>>, epilogue: seq<string>,
                   entities: seq<Entity>, depth: nat)
    requires lines == MultiLines(headers, parts, boundary, epilogue)
    requires HeaderBlock(headers) && ContentBoundary(headers) == Some(boundary)
    requires parts != [] && AllClean(parts, boundary)
    requires depth >= 1 && ParseAll(parts, depth - 1) == Some(entities)
    ensures Parse(lines, depth) == Some(Multi(headers, entities))
  {
    ParseWrittenMulti(headers, boundary, parts, epilogue, entities, depth);
  }

  lemma PairIsClean(parts: seq<seq<string>>, boundary: string)
    requires |parts| == 2 && NoDashes(parts[0]) && NoDashes(parts[1])
    ensures AllClean(parts, boundary)
  {
    NoDashesIsClean(parts[0], boundary);
    NoDashesIsClean(parts[1], boundary);
  }

  lemma PairIsRead(parts: seq<seq<string>>, entities: seq<Entity>, boundary: string, depth: nat)
    requires |parts| == |entities| == 2 && NoDashes(parts[0]) && NoDashes(parts[1])
    requires Parse(parts[0], depth) == Some(entities[0]) && Parse(parts[1], depth) == Some(entities[1])
    ensures AllClean(parts, boundary) && ParseAll(parts, depth) == Some(entities)
  {
    PairIsClean(parts, boundary);
    ParseTwo(parts, entities, depth);
  }

  lemma AlternativePartsAreRead(d: Draft, alternative: AltBoundary, depth: nat) returns (parts: seq<seq<string>>, entities: seq<Entity>)
    ensures parts == [PlainLines(d), HtmlLines(d)]
    ensures entities == [Leaf(PLAIN_HEADERS, Encoded(d.plain)), Leaf(HTML_HEADERS, Encoded(d.html))]
    ensures parts != [] && AllClean(parts, alternative) && ParseAll(parts, depth) == Some(entities)
  {
    PlainIsRead(d, depth);
    HtmlIsRead(d, depth);
    parts := [PlainLines(d), HtmlLines(d)];
    entities := [Leaf(PLAIN_HEADERS, Encoded(d.plain)), Leaf(HTML_HEADERS, Encoded(d.html))];
    PairIsRead(parts, entities, alternative, depth);
  }

  /** A header block that makes the entity below it a multipart with this boundary. */
  predicate Announces(headers: seq<string>, boundary: string) {
    OneLiners(headers) && HeaderBlock(headers) && ContentBoundary(headers) == Some(boundary) && OneLine(boundary)
  }

  function AlternativeHeaders(alternative: AltBoundary): seq<string> { [MULTIPART_ALTERNATIVE + Quoted(alternative)] }

  lemma AlternativeIsAnnounced(alternative: AltBoundary)
    ensures Announces(AlternativeHeaders(alternative), alternative)
  {
    MultipartTypesAreOneLine();
    MultipartLineIsOneLine(MULTIPART_ALTERNATIVE, alternative);
    AlternativeIsBoundary(alternative);
  }

  lemma AlternativesAreRead(headers: seq<string>, d: Draft, alternative: AltBoundary, depth: nat)
    requires Announces(headers, alternative) && depth >= 1
    ensures Parse(MultiLines(headers, [PlainLines(d), HtmlLines(d)], alternative, []), depth)
            == Some(Multi(headers, [Leaf(PLAIN_HEADERS, Encoded(d.plain)), Leaf(HTML_HEADERS, Encoded(d.html))]))
  {
    var parts, entities := AlternativePartsAreRead(d, alternative, depth - 1);
    ParseLines(MultiLines(headers, parts, alternative, []), headers, alternative, parts, [], entities, depth);
  }

  lemma BodyIsRead(d: Draft, mixed: MixedBoundary, alternative: AltBoundary, depth: nat)
    requires depth >= 1
    ensures Flat(FirstBlock(d, alternative)) == BodyLines(d, alternative)
    ensures Parse(BodyLines(d, alternative), depth) == Some(BodyEntity(d, alternative))
    ensures Clean(BodyLines(d, alternative), mixed)
  {
    PlainIsRead(d, depth);
    if d.html == [] {
      NoDashesIsClean(PlainLines(d), mixed);
    } else {
      AlternativeIsAnnounced(alternative);
      AlternativesAreRead(AlternativeHeaders(alternative), d, alternative, depth);
      AlternativesAreFlat(d, alternative);
      AlternativesAreClean(d, mixed, alternative);
    }
  }

  lemma AlternativesAreFlat(d: Draft, alternative: AltBoundary)
    requires d.html != []
    ensures Flat(FirstBlock(d, alternative)) == BodyLines(d, alternative)
  {
    var depth: nat :| true;
    PlainIsRead(d, depth);
    HtmlIsRead(d, depth);
    MultipartTypesAreOneLine();
    MultipartLineIsOneLine(MULTIPART_ALTERNATIVE, alternative);
    var a, b := LeafBlock(PLAIN_HEADERS, Encoded(d.plain)), LeafBlock(HTML_HEADERS, Encoded(d.html));
    FlatPair(MULTIPART_ALTERNATIVE + Quoted(alternative), a, b, alternative);
  }

  lemma FlatPair(line: string, a: seq<string>, b: seq<string>, boundary: string)
    requires OneLine(line) && OneLine(boundary)
    ensures Flat(MultiBlock([line], [a, b], boundary, [])) == MultiLines([line], [Flat(a), Flat(b)], boundary, [])
  {
    FlatTwo(a, b);
    FlatMulti([line], [a, b], [Flat(a), Flat(b)], boundary, []);
  }

  lemma FlatTwo(a: seq<string>, b: seq<string>)
    ensures FlatParts([a, b]) == [Flat(a), Flat(b)]
  {
    assert [a, b][1..] == [b] && [b][1..] == [];
    assert FlatParts([b]) == [Flat(b)] + [];
  }

  lemma AlternativesAreClean(d: Draft, mixed: MixedBoundary, alternative: AltBoundary)
    requires d.html != []
    ensures Clean(BodyLines(d, alternative), mixed)
  {
    var depth: nat :| true;
    PlainIsRead(d, depth);
    HtmlIsRead(d, depth);
    TwoPartsAreClean(MULTIPART_ALTERNATIVE + Quoted(alternative), PlainLines(d), HtmlLines(d), alternative, mixed);
  }

  lemma TwoPartsAreClean(contentType: string, a: seq<string>, b: seq<string>, inner: string, outer: string)
    requires inner != "" && outer != "" && inner[0] != outer[0]
    requires CONTENT_TYPE <= contentType && NoDashes(a) && NoDashes(b)
    ensures Clean(MultiLines([contentType], [a, b], inner, []), outer)
  {
    WrittenIsClean([a, b], inner, outer);
    assert contentType[0] == CONTENT_TYPE[0] == 'C';
    NoDashesIsClean([contentType], outer);
    NoDashesIsClean([""], outer);
  }

  function UploadLines(uploads: seq<Upload>): seq<seq<string>> {
    if uploads == [] then []
    else [OneUpload(uploads[0])] + UploadLines(uploads[1..])
  }

  /** The attachments, in the order of the uploads. */
  function UploadEntities(uploads: seq<Upload>): seq<Entity> {
    if uploads == [] then [] else [UploadEntity(uploads[0])] + UploadEntities(uploads[1..])
  }

  lemma MoreUploads(uploads: seq<Upload>, mixed: string, depth: nat)
    requires uploads != [] && AllClean(UploadLines(uploads[1..]), mixed)
    requires Parse(OneUpload(uploads[0]), depth) == Some(UploadEntity(uploads[0])) && NoDashes(OneUpload(uploads[0]))
    requires ParseAll(UploadLines(uploads[1..]), depth) == Some(UploadEntities(uploads[1..]))
    ensures AllClean(UploadLines(uploads), mixed) && ParseAll(UploadLines(uploads), depth) == Some(UploadEntities(uploads))
  {
    var rest, xs := UploadLines(uploads[1..]), UploadEntities(uploads[1..]);
    NoDashesIsClean(OneUpload(uploads[0]), mixed);
    ParseAllStep(OneUpload(uploads[0]), rest, UploadEntity(uploads[0]), xs, depth);
  }

  lemma UploadIsFlat(u: Upload)
    ensures Flat(UploadBlock(u)) == OneUpload(u)
  {
    UploadHeadersAreContentHeaders(u);
    DecodableIsBase64Text(u.content);
    FlatLeaf(UploadHeaders(u), u.content);
  }

  lemma UploadBlocksStep(uploads: seq<Upload>)
    requires uploads != []
    ensures UploadBlocks(uploads) == [UploadBlock(uploads[0])] + UploadBlocks(uploads[1..])
  {
  }

  lemma {:induction false} UploadsAreFlat(uploads: seq<Upload>)
    ensures FlatParts(UploadBlocks(uploads)) == UploadLines(uploads)
    decreases |uploads|
  {
    if uploads != [] {
      UploadIsFlat(uploads[0]);
      UploadsAreFlat(uploads[1..]);
      FlatPartsStep(UploadBlock(uploads[0]), UploadBlocks(uploads[1..]));
      UploadBlocksStep(uploads);
    }
  }

  lemma {:induction false} UploadsAreRead(uploads: seq<Upload>, mixed: string, depth: nat)
    ensures ParseAll(UploadLines(uploads), depth) == Some(UploadEntities(uploads))
    ensures AllClean(UploadLines(uploads), mixed)
    decreases |uploads|
  {
    if uploads != [] {
      UploadIsRead(uploads[0], depth);
      UploadsAreRead(uploads[1..], mixed, depth);
      MoreUploads(uploads, mixed, depth);
    }
  }

  /** The parts of the outer multipart: as printed, as lines, and as entities. */
  function AllBlocks(d: Draft, alternative: AltBoundary): seq<seq<string>> { [FirstBlock(d, alternative)] + UploadBlocks(d.uploads) }

  function AllLines(d: Draft, alternative: AltBoundary): seq<seq<string>> { [BodyLines(d, alternative)] + UploadLines(d.uploads) }

  function AllEntities(d: Draft, alternative: AltBoundary): seq<Entity> { [BodyEntity(d, alternative)] + UploadEntities(d.uploads) }

  lemma FlatPartsStep(block: seq<string>, more: seq<seq<string>>)
    ensures FlatParts([block] + more) == [Flat(block)] + FlatParts(more)
  {
  }

  lemma PartsAreRead(d: Draft, mixed: MixedBoundary, alternative: AltBoundary, depth: nat)
    returns (blocks: seq<seq<string>>, parts: seq<seq<string>>, entities: seq<Entity>)
    requires depth >= 1
    ensures blocks == AllBlocks(d, alternative) && entities == AllEntities(d, alternative)
    ensures parts != [] && PartLines(blocks) == parts && AllClean(parts, mixed) && ParseAll(parts, depth) == Some(entities)
  {
    blocks, parts, entities := AllBlocks(d, alternative), AllLines(d, alternative), AllEntities(d, alternative);
    BodyIsRead(d, mixed, alternative, depth);
    UploadsAreRead(d.uploads, mixed, depth);
    UploadsAreFlat(d.uploads);
    FlatPartsStep(FirstBlock(d, alternative), UploadBlocks(d.uploads));
    ParseAllStep(BodyLines(d, alternative), UploadLines(d.uploads), BodyEntity(d, alternative), UploadEntities(d.uploads), depth);
  }

  // ---------------------------------------------------------------- the theorem

  lemma MixedHeaders(d: Draft, mixed: MixedBoundary)
    ensures Announces(Headers(d) + [MULTIPART_MIXED + Quoted(mixed)], mixed)
  {
    HeadersAreOrdinary(d);
    MultipartTypesAreOneLine();
    MultipartLineIsOneLine(MULTIPART_MIXED, mixed);
    MixedIsBoundary(mixed);
    HeaderBlockOf(d, [MULTIPART_MIXED + Quoted(mixed)]);
  }

  lemma HeaderBlockOf(d: Draft, more: seq<string>)
    requires more != [] && CONTENT_TYPE <= more[0] && HeaderBlock(more)
    ensures HeaderBlock(Headers(d) + more) && FindHeader(Headers(d) + more, CONTENT_TYPE) == more[0]
  {
    HeadersAreOrdinary(d);
    FindHeaderSkips(Headers(d), more[0], more[1..], CONTENT_TYPE);
    FirstAndRest(more);
  }

  lemma WholeIsRead(headers: seq<string>, boundary: string, blocks: seq<seq<string>>, parts: seq<seq<string>>, entities: seq<Entity>, depth: nat)
    requires Announces(headers, boundary) && depth >= 1
    requires parts != [] && PartLines(blocks) == parts && AllClean(parts, boundary) && ParseAll(parts, depth - 1) == Some(entities)
    ensures Parse(Flat(MultiBlock(headers, blocks, boundary, [""])), depth) == Some(Multi(headers, entities))
  {
    FlatMulti(headers, blocks, parts, boundary, [""]);
    ParseLines(MultiLines(headers, parts, boundary, [""]), headers, boundary, parts, [""], entities, depth);
  }

  lemma MultiIsRead(headers: seq<string>, d: Draft, mixed: MixedBoundary, alternative: AltBoundary, depth: nat)
    requires Announces(headers, mixed) && depth >= 2
    ensures Parse(Flat(MultiBlock(headers, AllBlocks(d, alternative), mixed, [""])), depth)
            == Some(Multi(headers, AllEntities(d, alternative)))
  {
    var blocks, parts, entities := PartsAreRead(d, mixed, alternative, depth - 1);
    WholeIsRead(headers, mixed, blocks, parts, entities, depth);
  }

  lemma SingleIsRead(d: Draft, depth: nat)
    ensures Parse(Flat(LeafBlock(Headers(d) + PLAIN_HEADERS, Encoded(d.plain))), depth)
            == Some(Leaf(Headers(d) + PLAIN_HEADERS, Encoded(d.plain)))
  {
    var headers, content := Headers(d) + PLAIN_HEADERS, Encoded(d.plain);
    HeadersAreOrdinary(d);
    TextTypesAreOneLine();
    TextHasNoBoundary();
    EncodingLiteral();
    EncodedContent(d.plain);
    HeaderBlockOf(d, PLAIN_HEADERS);
    FlatLeaf(headers, content);
    WrappedLines(content);
    ParseWrittenLeaf(headers, Chunks(content), depth);
  }

  /** What a reader should find in the archived message. */
  function Expected(d: Draft, mixed: MixedBoundary, alternative: AltBoundary): Entity {
    if d.uploads == [] && d.html == [] then Leaf(Headers(d) + PLAIN_HEADERS, Encoded(d.plain))
    else Multi(Headers(d) + [MULTIPART_MIXED + Quoted(mixed)], AllEntities(d, alternative))
  }

  /** Reading the archived message back gives its headers, the plain text, the HTML text if there is one, and every
      upload, in order: for every subject, every body and every list of accepted uploads. */
  lemma ParsePrintedMessage(d: Draft, mixed: MixedBoundary, alternative: AltBoundary, depth: nat)
    requires depth >= 2
    ensures Parse(Split(Join(Elements(d, mixed, alternative))), depth) == Some(Expected(d, mixed, alternative))
  {
    SplitJoin(Elements(d, mixed, alternative));
    if d.uploads == [] && d.html == [] {
      SingleIsRead(d, depth);
    } else {
      MixedHeaders(d, mixed);
      MultiIsRead(Headers(d) + [MULTIPART_MIXED + Quoted(mixed)], d, mixed, alternative, depth);
    }
  }

  lemma {:induction false} UploadEntityAt(uploads: seq<Upload>, i: nat)
    requires i < |uploads|
    ensures |UploadEntities(uploads)| == |uploads| && UploadEntities(uploads)[i] == UploadEntity(uploads[i])
  {
    if i > 0 {
      UploadEntityAt(uploads[1..], i - 1);
    } else if |uploads| > 1 {
      UploadEntityAt(uploads[1..], 0);
    }
  }

  /** The texts found there decode to the bytes that were put in. */
  lemma LeavesDecode(d: Draft, i: nat)
    ensures ContentOf(Leaf(PLAIN_HEADERS, Encoded(d.plain))) == Some(Utf8.Encode(d.plain))
    ensures ContentOf(Leaf(HTML_HEADERS, Encoded(d.html))) == Some(Utf8.Encode(d.html))
    ensures i < |d.uploads| ==>
              && |UploadEntities(d.uploads)| == |d.uploads|
              && ContentOf(UploadEntities(d.uploads)[i]) == Base64.Decode(d.uploads[i].content)
              && Base64.Decode(d.uploads[i].content).Some?
  {
    EncodedContent(d.plain);
    EncodedContent(d.html);
    if i < |d.uploads| { UploadEntityAt(d.uploads, i); }
  }

  /** The same from the archived bytes. */
  lemma ParseArchivedMessage(d: Draft, mixed: MixedBoundary, alternative: AltBoundary, depth: nat)
    requires depth >= 2
    ensures var text := FromBytes(ToBytes(Join(Elements(d, mixed, alternative))));
            text.Some? && Parse(Split(text.value), depth) == Some(Expected(d, mixed, alternative))
  {
    FromToBytes(Join(Elements(d, mixed, alternative)));
    ParsePrintedMessage(d, mixed, alternative, depth);
  }

  /** The file name a reader finds in the headers of an attachment. */
  function FileNameOf(headers: seq<string>): Option<Text> {
    var line := FindHeader(headers, DISPOSITION);
    if DISPOSITION <= line then ComponentText(line[|DISPOSITION|..]) else None
  }

  /** It is the name that was given, whatever characters it has. */
  lemma FileNameIsRead(u: Upload)
    requires Utf8.WellFormed(u.name)
    ensures FileNameOf(UploadEntity(u).headers) == Some(u.name)
  {
    var headers := UploadHeaders(u);
    ComponentIsRead(u.name);
    PrefixOfConcat(DISPOSITION, Component(u.name));
    OtherHeadersAreNot(u);
    assert headers[1..] == [BASE64_ENCODING, DISPOSITION + Component(u.name)];
    assert headers[1..][1..] == [DISPOSITION + Component(u.name)];
    assert FindHeader(headers[1..][1..], DISPOSITION) == DISPOSITION + Component(u.name);
    assert FindHeader(headers[1..], DISPOSITION) == DISPOSITION + Component(u.name);
  }

  lemma OtherHeadersAreNot(u: Upload)
    ensures !(DISPOSITION <= UploadHeaders(u)[0]) && !(DISPOSITION <= BASE64_ENCODING)
  {
    TypeIsFirst(u);
    PrefixesDisagree(CONTENT_TYPE, DISPOSITION, UploadHeaders(u)[0], 8);
    assert DISPOSITION[8] == 'D' && BASE64_ENCODING[8] == 'T';
  }
}
