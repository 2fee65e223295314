/**
A reference parser for MIME entities: lines (RFC 5322), multipart bodies (RFC 2046 section
5.1.1) and base64 bodies (RFC 2045 section 6.8).
*/
module MimeParser {
  import opened Options
  import Base64

  type byte = Base64.byte

  const CRLF := "\r\n"

  // ---------------------------------------------------------------- lines

  predicate StartsWithBreak(t: string) { |t| >= 2 && t[0] == '\r' && t[1] == '\n' }

  function Split(t: string): (lines: seq<string>)
    ensures lines != []
  {
    if t == "" then [""]
    else if StartsWithBreak(t) then [""] + Split(t[2..])
    else var rest := Split(t[1..]); [[t[0]] + rest[0]] + rest[1..]
  }

  predicate OneLine(t: string) { '\r' !in t && '\n' !in t }

  lemma {:induction false} SplitOneLine(t: string)
    requires OneLine(t)
    ensures Split(t) == [t]
  {
    if t != "" {
      SplitOneLine(t[1..]);
      assert [t[0]] + t[1..] == t;
    }
  }

  lemma SplitBreak(t: string)
    ensures Split(CRLF + t) == [""] + Split(t)
  {
  }

  /** A character in front of a text goes to the front of its first line. */
  function Lead(c: char, lines: seq<string>): seq<string>
    requires lines != []
  {
    [[c] + lines[0]] + lines[1..]
  }

  lemma SplitLead(c: char, t: string)
    requires !StartsWithBreak([c] + t)
    ensures Split([c] + t) == Lead(c, Split(t))
  {
  }

  lemma LeadAppend(c: char, a: seq<string>, b: seq<string>)
    requires a != []
    ensures Lead(c, a + b) == Lead(c, a) + b
  {
  }

  lemma SplitAtBreakBreak(a: string, b: string)
    requires Split(a + (CRLF + b)) == Split(a) + Split(b)
    ensures Split(CRLF + a + (CRLF + b)) == Split(CRLF + a) + Split(b)
  {
    assert CRLF + a + (CRLF + b) == CRLF + (a + (CRLF + b));
    SplitBreak(a);
    SplitBreak(a + (CRLF + b));
  }

  lemma SplitAtBreakLead(c: char, a: string, b: string)
    requires !StartsWithBreak([c] + a) && Split(a + (CRLF + b)) == Split(a) + Split(b)
    ensures Split([c] + a + (CRLF + b)) == Split([c] + a) + Split(b)
  {
    var t := a + (CRLF + b);
    assert [c] + a + (CRLF + b) == [c] + t;
    assert t[0] == if a == "" then '\r' else a[0];
    SplitLead(c, a);
    SplitLead(c, t);
    LeadAppend(c, Split(a), Split(b));
  }

  /** Every line break separates lines, whatever stands around it. */
  lemma {:induction false} SplitAtBreak(a: string, b: string)
    ensures Split(a + (CRLF + b)) == Split(a) + Split(b)
  {
    if a == "" {
      SplitBreak(b);
      assert a + (CRLF + b) == CRLF + b;
    } else if StartsWithBreak(a) {
      SplitAtBreak(a[2..], b);
      SplitAtBreakBreak(a[2..], b);
      assert a == CRLF + a[2..];
    } else {
      SplitAtBreak(a[1..], b);
      SplitAtBreakLead(a[0], a[1..], b);
      assert a == [a[0]] + a[1..];
    }
  }

  // ---------------------------------------------------------------- multipart bodies

  predicate IsDelimiter(line: string, boundary: string) { "--" + boundary <= line }

  predicate IsClose(line: string, boundary: string) { "--" + boundary + "--" <= line }

  function UntilDelimiter(lines: seq<string>, boundary: string): (n: nat)
    ensures n <= |lines|
  {
    if lines == [] || IsDelimiter(lines[0], boundary) then 0 else 1 + UntilDelimiter(lines[1..], boundary)
  }

  /** The parts, given the lines behind the first delimiter line; None if the closing delimiter is missing. */
  function Parts(lines: seq<string>, boundary: string): Option<seq<seq<string>>> {
    var n := UntilDelimiter(lines, boundary);
    if n == |lines| then None
    else if IsClose(lines[n], boundary) then Some([lines[..n]])
    else
      match Parts(lines[n + 1..], boundary)
      case None => None
      case Some(rest) => Some([lines[..n]] + rest)
  }

  /** The lines before the first delimiter are a preamble. */
  function MultipartBody(lines: seq<string>, boundary: string): Option<seq<seq<string>>> {
    var n := UntilDelimiter(lines, boundary);
    if n == |lines| || IsClose(lines[n], boundary) then None else Parts(lines[n + 1..], boundary)
  }

  /** No line of a part can be taken for a delimiter. */
  predicate Clean(lines: seq<string>, boundary: string) {
    forall i :: 0 <= i < |lines| ==> !IsDelimiter(lines[i], boundary)
  }

  predicate AllClean(parts: seq<seq<string>>, boundary: string) {
    forall i :: 0 <= i < |parts| ==> Clean(parts[i], boundary)
  }

  /** How a multipart body is written down. */
  function Written(parts: seq<seq<string>>, boundary: string): seq<string> {
    if parts == [] then ["--" + boundary + "--"] else ["--" + boundary] + parts[0] + Written(parts[1..], boundary)
  }

  lemma {:induction false} UntilDelimiterOf(part: seq<string>, rest: seq<string>, boundary: string)
    requires Clean(part, boundary) && rest != [] && IsDelimiter(rest[0], boundary)
    ensures UntilDelimiter(part + rest, boundary) == |part|
  {
    if part == [] {
      assert part + rest == rest;
    } else {
      assert (part + rest)[1..] == part[1..] + rest;
      UntilDelimiterOf(part[1..], rest, boundary);
    }
  }

  lemma WrittenStarts(parts: seq<seq<string>>, boundary: string)
    ensures var w := Written(parts, boundary);
            w != [] && IsDelimiter(w[0], boundary) && (IsClose(w[0], boundary) <==> parts == [])
  {
  }

  lemma Regroup<T>(a: seq<T>, b: seq<T>, c: seq<T>, d: seq<T>)
    ensures a + b + c + d == a + (b + (c + d))
  {
  }

  lemma WrittenStep(parts: seq<seq<string>>, boundary: string, epilogue: seq<string>)
    requires parts != []
    ensures Written(parts, boundary) + epilogue == ["--" + boundary] + (parts[0] + (Written(parts[1..], boundary) + epilogue))
  {
  }

  /** A clean part up to its delimiter line. */
  lemma PartsStep(part: seq<string>, line: string, after: seq<string>, boundary: string)
    requires Clean(part, boundary) && IsDelimiter(line, boundary)
    ensures Parts(part + ([line] + after), boundary) ==
            if IsClose(line, boundary) then Some([part])
            else if Parts(after, boundary).None? then None
            else Some([part] + Parts(after, boundary).value)
  {
    var lines := part + ([line] + after);
    UntilDelimiterOf(part, [line] + after, boundary);
    assert lines[|part|] == line && lines[..|part|] == part && lines[|part| + 1..] == after;
  }

  lemma {:induction false} PartsOfWritten(part: seq<string>, parts: seq<seq<string>>, boundary: string, epilogue: seq<string>)
    requires Clean(part, boundary) && AllClean(parts, boundary)
    ensures Parts(part + (Written(parts, boundary) + epilogue), boundary) == Some([part] + parts)
    decreases |parts|
  {
    WrittenStarts(parts, boundary);
    if parts == [] {
      PartsStep(part, "--" + boundary + "--", epilogue, boundary);
      assert [part] + parts == [part];
    } else {
      var after := parts[0] + (Written(parts[1..], boundary) + epilogue);
      PartsOfWritten(parts[0], parts[1..], boundary, epilogue);
      PartsStep(part, "--" + boundary, after, boundary);
      WrittenStep(parts, boundary, epilogue);
      FirstAndRest(parts);
    }
  }

  lemma FirstAndRest<T>(s: seq<T>)
    requires s != []
    ensures [s[0]] + s[1..] == s
  {
  }

  lemma OpenedBody(boundary: string, body: seq<string>)
    ensures MultipartBody(["--" + boundary] + body, boundary) == Parts(body, boundary)
  {
  }

  /** What was written between delimiters is what is read, whatever follows the close. */
  lemma MultipartOfWritten(parts: seq<seq<string>>, boundary: string, epilogue: seq<string>)
    requires parts != [] && AllClean(parts, boundary)
    ensures MultipartBody(Written(parts, boundary) + epilogue, boundary) == Some(parts)
  {
    PartsOfWritten(parts[0], parts[1..], boundary, epilogue);
    WrittenStep(parts, boundary, epilogue);
    OpenedBody(boundary, parts[0] + (Written(parts[1..], boundary) + epilogue));
    FirstAndRest(parts);
  }

  // ---------------------------------------------------------------- entities

  /** A leaf has the text of its body, line breaks removed, still in its transfer encoding. */
  datatype Entity = Leaf(headers: seq<string>, text: string) | Multi(headers: seq<string>, parts: seq<Entity>)

  const CONTENT_TYPE := "Content-Type: "
  const MULTIPART_MIXED := CONTENT_TYPE + "multipart/mixed" + "; boundary="
  const MULTIPART_ALTERNATIVE := CONTENT_TYPE + "multipart/alternative" + "; boundary="
  const BASE64_ENCODING := "Content-Transfer-Encoding: base64"

  /** The header block ends at the first empty line. */
  function HeaderLength(lines: seq<string>): (n: nat)
    ensures n <= |lines|
  {
    if lines == [] || lines[0] == "" then 0 else 1 + HeaderLength(lines[1..])
  }

  /** The first header of the wanted name. */
  function FindHeader(headers: seq<string>, prefix: string): string {
    if headers == [] then "" else if prefix <= headers[0] then headers[0] else FindHeader(headers[1..], prefix)
  }

  function Quoted(boundary: string): string { "\"" + boundary + "\"" }

  function Unquote(t: string): Option<string> {
    if |t| >= 2 && t[0] == '"' && t[|t| - 1] == '"' then Some(t[1..|t| - 1]) else None
  }

  /** The boundary parameter, if the content type is one of the two multipart types. */
  function BoundaryOf(contentType: string): Option<string> {
    if MULTIPART_MIXED <= contentType then Unquote(contentType[|MULTIPART_MIXED|..])
    else if MULTIPART_ALTERNATIVE <= contentType then Unquote(contentType[|MULTIPART_ALTERNATIVE|..])
    else None
  }

  function ContentBoundary(headers: seq<string>): Option<string> { BoundaryOf(FindHeader(headers, CONTENT_TYPE)) }

  function Concat(lines: seq<string>): string { if lines == [] then "" else lines[0] + Concat(lines[1..]) }

  /** Line breaks inside a base64 body are ignored. */
  function ParseLeaf(headers: seq<string>, body: seq<string>): Option<Entity> {
    if BASE64_ENCODING in headers then Some(Leaf(headers, Concat(body))) else None
  }

  /** The bytes of a leaf. */
  function ContentOf(e: Entity): Option<seq<byte>> { if e.Leaf? then Base64.Decode(e.text) else None }

  /** `depth` bounds how deep multiparts may nest. */
  function ParseEntity(lines: seq<string>, depth: nat): Option<Entity>
    decreases depth, 0
  {
    var n := HeaderLength(lines);
    if n == |lines| then None
    else
      var headers, body := lines[..n], lines[n + 1..];
      match ContentBoundary(headers)
      case None => ParseLeaf(headers, body)
      case Some(boundary) =>
        if depth == 0 then None
        else
          match MultipartBody(body, boundary)
          case None => None
          case Some(parts) =>
            match ParseEntities(parts, depth - 1)
            case None => None
            case Some(entities) => Some(Multi(headers, entities))
  }

  function ParseEntities(parts: seq<seq<string>>, depth: nat): Option<seq<Entity>>
    decreases depth, |parts| + 1
  {
    if parts == [] then Some([])
    else
      match (ParseEntity(parts[0], depth), ParseEntities(parts[1..], depth))
      case (Some(e), Some(rest)) => Some([e] + rest)
      case _ => None
  }

  /** Non-recursive names for the two, which the lemmas speak about. */
  function Parse(lines: seq<string>, depth: nat): Option<Entity> { ParseEntity(lines, depth) }

  function ParseAll(parts: seq<seq<string>>, depth: nat): Option<seq<Entity>> { ParseEntities(parts, depth) }

  predicate HeaderBlock(headers: seq<string>) { forall i :: 0 <= i < |headers| ==> headers[i] != "" }

  lemma {:induction false} HeaderLengthOf(headers: seq<string>, body: seq<string>)
    requires HeaderBlock(headers)
    ensures HeaderLength(headers + ([""] + body)) == |headers|
  {
    if headers == [] {
      assert headers + ([""] + body) == [""] + body;
    } else {
      assert (headers + ([""] + body))[1..] == headers[1..] + ([""] + body);
      HeaderLengthOf(headers[1..], body);
    }
  }

  lemma HeadersAndBody(headers: seq<string>, body: seq<string>)
    requires HeaderBlock(headers)
    ensures var lines, n := headers + ([""] + body), |headers|;
            HeaderLength(lines) == n < |lines| && lines[..n] == headers && lines[n + 1..] == body
  {
    HeaderLengthOf(headers, body);
  }

  /** A leaf is read back from its lines. */
  lemma ParseWrittenLeaf(headers: seq<string>, body: seq<string>, depth: nat)
    requires HeaderBlock(headers) && BASE64_ENCODING in headers && ContentBoundary(headers) == None
    ensures Parse(headers + ([""] + body), depth) == Some(Leaf(headers, Concat(body)))
  {
    HeadersAndBody(headers, body);
  }

  /** So is a multipart entity, if its parts are. */
  lemma ParseWrittenMulti(headers: seq<string>, boundary: string, parts: seq<seq<string>>, epilogue: seq<string>,
                          entities: seq<Entity>, depth: nat)
    requires HeaderBlock(headers) && ContentBoundary(headers) == Some(boundary)
    requires parts != [] && AllClean(parts, boundary)
    requires depth >= 1 && ParseAll(parts, depth - 1) == Some(entities)
    ensures Parse(headers + ([""] + (Written(parts, boundary) + epilogue)), depth) == Some(Multi(headers, entities))
  {
    HeadersAndBody(headers, Written(parts, boundary) + epilogue);
    MultipartOfWritten(parts, boundary, epilogue);
  }
}
