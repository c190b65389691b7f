/**
  The head of an HTTP/1.1 request (`parse_head`, engine/src/core/request.rs).

  Bytes are not decoded: searching, splitting and comparing are with ASCII patterns, on which the
  source's lossy UTF-8 decoding has no effect.
*/
module Head {
  import opened Wrappers
  import opened Bytes

  const MAX_REQUEST_LINE_SIZE := 8192
  const MAX_HEADER_SIZE := 8192
  const MAX_HEADERS_COUNT := 100

  /** "HTTP/1.1" */
  const HTTP11: Bytes := [72, 84, 84, 80, 47, 49, 46, 49]
  /** ": " and ", " */
  const COLON_SP: Bytes := [58, 32]
  const COMMA_SP: Bytes := [44, 32]
  /** "content-length", "transfer-encoding" and "chunked" */
  const CONTENT_LENGTH: Bytes := [99, 111, 110, 116, 101, 110, 116, 45, 108, 101, 110, 103, 116, 104]
  const TRANSFER_ENCODING: Bytes := [116, 114, 97, 110, 115, 102, 101, 114, 45, 101, 110, 99, 111, 100, 105, 110, 103]
  const CHUNKED: Bytes := [99, 104, 117, 110, 107, 101, 100]

  lemma Spelling()
    ensures HTTP11 == Ascii("HTTP/1.1") && COLON_SP == Ascii(": ") && COMMA_SP == Ascii(", ")
    ensures CONTENT_LENGTH == Ascii("content-length") && TRANSFER_ENCODING == Ascii("transfer-encoding") && CHUNKED == Ascii("chunked")
    ensures CRLF == Ascii("\r\n") && CRLFCRLF == Ascii("\r\n\r\n") && [SP] == Ascii(" ") && [COLON] == Ascii(":")
  {
  }

  datatype ParseError =
    | RequestLineTooLong
    | RequestLineMalformed
    | MalformedHeaderSection
    | HeadersTooLarge
    | InvalidRequestLineSize
    | TooManyHeaders
    | LengthAndTransferEncoding
    | ContentLengthExceedsMaximum
    | ChunkSizeExceedsMaximum
    | ContentLengthOverflow

  datatype Metadata = Metadata(verb: Bytes, target: Bytes, version: Bytes, headers: map<Bytes, Bytes>)

  datatype RequestHead = RequestHead(metadata: Metadata, contentLength: nat, isChunked: bool, bodyStart: nat)

  /** What the header loop has gathered so far. */
  datatype Fields = Fields(
    headers: map<Bytes, Bytes>, count: nat,
    contentLength: nat, hasContentLength: bool, hasTransferEncoding: bool, isChunked: bool)

  const NO_FIELDS := Fields(map[], 0, 0, false, false, false)

  function AddField(f: Fields, key: Bytes, value: Bytes): Fields {
    Fields(
      f.headers[key := if key in f.headers then f.headers[key] + COMMA_SP + value else value],
      f.count + 1,
      if key == CONTENT_LENGTH then ParseUnsigned(value, 10).GetOr(0) else f.contentLength,
      f.hasContentLength || key == CONTENT_LENGTH,
      f.hasTransferEncoding || key == TRANSFER_ENCODING,
      if key == TRANSFER_ENCODING then Contains(Lower(value), CHUNKED) else f.isChunked)
  }

  /** One pass of the header loop: a line without ": " is skipped. */
  function AddLine(f: Fields, line: Bytes): Result<Fields, ParseError> {
    match Find(line, COLON_SP)
    case None => Ok(f)
    case Some(i) =>
      if f.count + 1 > MAX_HEADERS_COUNT then Err(TooManyHeaders)
      else Ok(AddField(f, Lower(line[..i]), line[i + 2..]))
  }

  function ReadLines(lines: seq<Bytes>): Result<Fields, ParseError> {
    if lines == [] then Ok(NO_FIELDS)
    else
      match ReadLines(lines[..|lines| - 1])
      case Err(e) => Err(e)
      case Ok(f) => AddLine(f, lines[|lines| - 1])
  }

  function FinishHead(parts: seq<Bytes>, fields: Fields, maxBody: nat, bodyStart: nat): Result<RequestHead, ParseError>
    requires |parts| >= 3
  {
    if fields.hasContentLength && fields.hasTransferEncoding then Err(LengthAndTransferEncoding)
    else if fields.contentLength > maxBody then Err(ContentLengthExceedsMaximum)
    else Ok(RequestHead(Metadata(parts[0], parts[1], parts[2], fields.headers), fields.contentLength, fields.isChunked, bodyStart))
  }

  function DecodeHead(requestLine: Bytes, section: Bytes, maxBody: nat, bodyStart: nat): Result<RequestHead, ParseError> {
    var parts := Split(requestLine, [SP]);
    if |parts| < 3 then Err(InvalidRequestLineSize)
    else
      match ReadLines(Split(section, CRLF))
      case Err(e) => Err(e)
      case Ok(fields) => FinishHead(parts, fields, maxBody, bodyStart)
  }

  /** `Ok(None)` asks for more bytes. */
  function ParseHead(buffer: Bytes, maxBody: nat): Result<Option<RequestHead>, ParseError> {
    match Find(buffer, CRLF)
    case None => Ok(None)
    case Some(rq) =>
      if rq < 3 then Err(RequestLineMalformed)
      else if rq > MAX_REQUEST_LINE_SIZE then Err(RequestLineTooLong)
      else if !Contains(buffer[..rq], HTTP11) then Err(RequestLineMalformed)
      else
        match Find(buffer, CRLFCRLF)
        case None => Ok(None)
        case Some(h) =>
          if h < rq + 2 then Err(MalformedHeaderSection)
          else if h - (rq + 2) > MAX_HEADER_SIZE then Err(HeadersTooLarge)
          else
            match DecodeHead(buffer[..rq], buffer[rq + 2..h], maxBody, h + 4)
            case Err(e) => Err(e)
            case Ok(head) => Ok(Some(head))
  }

  /** The loop of the source, over the lines of the header section. */
  method ReadHeaderLines(section: Bytes) returns (r: Result<Fields, ParseError>)
    ensures r == ReadLines(Split(section, CRLF))
  {
    var lines := Split(section, CRLF);
    var f := NO_FIELDS;
    for i := 0 to |lines|
      invariant ReadLines(lines[..i]) == Ok(f)
    {
      assert lines[..i + 1][..i] == lines[..i];
      var at := Find(lines[i], COLON_SP);
      if at.None? {
        continue;
      }
      var key, value := Lower(lines[i][..at.value]), lines[i][at.value + 2..];
      if f.count + 1 > MAX_HEADERS_COUNT {
        ErrorSticks(lines, i + 1);
        return Err(TooManyHeaders);
      }
      f := CountField(f, key, value);
    }
    assert lines[..|lines|] == lines;
    r := Ok(f);
  }

  /** The body of the loop once a line has been split at ": ". */
  method CountField(f: Fields, key: Bytes, value: Bytes) returns (g: Fields)
    ensures g == AddField(f, key, value)
  {
    g := f.(count := f.count + 1);
    if key == CONTENT_LENGTH {
      g := g.(contentLength := ParseUnsigned(value, 10).GetOr(0), hasContentLength := true);
    }
    if key == TRANSFER_ENCODING {
      g := g.(hasTransferEncoding := true, isChunked := Contains(Lower(value), CHUNKED));
    }
    if key in g.headers {
      g := g.(headers := g.headers[key := g.headers[key] + COMMA_SP + value]);
    } else {
      g := g.(headers := g.headers[key := value]);
    }
  }

  lemma {:induction false} ErrorSticks(lines: seq<Bytes>, n: nat)
    requires n <= |lines| && ReadLines(lines[..n]).Err?
    ensures ReadLines(lines) == ReadLines(lines[..n])
    decreases |lines|
  {
    if n == |lines| {
      assert lines[..n] == lines;
    } else {
      assert lines[..|lines| - 1][..n] == lines[..n];
      ErrorSticks(lines[..|lines| - 1], n);
    }
  }

  // ----- what the gathered fields mean -----

  datatype HeaderLine = HeaderLine(name: Bytes, value: Bytes)

  /** The values of the headers that name the key, in order of appearance. */
  function ValuesOf(headers: seq<HeaderLine>, key: Bytes): seq<Bytes> {
    if headers == [] then []
    else
      var last := headers[|headers| - 1];
      ValuesOf(headers[..|headers| - 1], key) + if Names(last.name, key) then [last.value] else []
  }

  function LineOf(h: HeaderLine): Bytes {
    h.name + COLON_SP + h.value
  }

  function LinesOf(headers: seq<HeaderLine>): (lines: seq<Bytes>)
    ensures |lines| == |headers| && forall i :: 0 <= i < |headers| ==> lines[i] == LineOf(headers[i])
  {
    seq(|headers|, i requires 0 <= i < |headers| => LineOf(headers[i]))
  }

  /** The first ": " of the line is the one behind the name. */
  predicate Named(h: HeaderLine) {
    forall i :: 0 <= i < |h.name| - 1 ==> !(h.name[i] as char == ':' && h.name[i + 1] as char == ' ')
  }

  /** The last value given for the key, if any. */
  function LastOf(headers: seq<HeaderLine>, key: Bytes): Option<Bytes> {
    var values := ValuesOf(headers, key);
    if values == [] then None else Some(values[|values| - 1])
  }

  lemma LineSplits(h: HeaderLine)
    requires Named(h)
    ensures Find(LineOf(h), COLON_SP) == Some(|h.name|)
    ensures LineOf(h)[..|h.name|] == h.name && LineOf(h)[|h.name| + 2..] == h.value
  {
    var line, n := LineOf(h), |h.name|;
    assert line[n..n + 2] == COLON_SP;
    forall j | 0 <= j < n ensures !At(line, j, COLON_SP) {
      assert line[j..j + 2] == [line[j], line[j + 1]];
    }
    FindIs(line, COLON_SP, n);
  }

  lemma {:induction false} JoinLast(pieces: seq<Bytes>, last: Bytes, separator: Bytes)
    ensures Join(pieces + [last], separator) == if pieces == [] then last else Join(pieces, separator) + separator + last
  {
    if |pieces| > 0 {
      assert (pieces + [last])[1..] == pieces[1..] + [last];
      JoinLast(pieces[1..], last, separator);
    }
  }

  ghost predicate Lists(f: Fields, headers: seq<HeaderLine>, key: Bytes) {
    var values := ValuesOf(headers, key);
    (key in f.headers <==> values != []) && (key in f.headers ==> f.headers[key] == Join(values, COMMA_SP))
  }

  /**
    The gathered fields against the list of header lines: repeated headers are joined by ", " in
    order under their lower-case name, and the last Content-Length and the last Transfer-Encoding are
    the ones that count.
  */
  ghost predicate Describes(f: Fields, headers: seq<HeaderLine>) {
    && f.count == |headers|
    && (forall key :: Lists(f, headers, key))
    && Counts(f, LastOf(headers, Ascii("content-length")), LastOf(headers, Ascii("transfer-encoding")))
  }

  ghost predicate Counts(f: Fields, length: Option<Bytes>, coding: Option<Bytes>) {
    && f.hasContentLength == length.Some?
    && LengthIs(length, f.contentLength)
    && f.hasTransferEncoding == coding.Some?
    && f.isChunked == AsksForChunks(coding)
  }

  /** The length is the number the value denotes, or 0 without such a value or one that fits. */
  ghost predicate LengthIs(value: Option<Bytes>, n: nat) {
    match value
    case Some(v) => if exists m: nat :: m < USIZE_LIMIT && Denotes(v, 10, m) then n < USIZE_LIMIT && Denotes(v, 10, n) else n == 0
    case None => n == 0
  }

  predicate AsksForChunks(value: Option<Bytes>) {
    value.Some? && Mentions(value.value, Ascii("chunked"))
  }

  lemma LengthParses(v: Bytes)
    ensures LengthIs(Some(v), ParseUnsigned(v, 10).GetOr(0))
  {
    forall m: nat ensures ParseUnsigned(v, 10) == Some(m) <==> m < USIZE_LIMIT && Denotes(v, 10, m) {
      ParsesIff(v, 10, m);
    }
  }

  lemma ValuesOfLast(init: seq<HeaderLine>, last: HeaderLine, key: Bytes)
    ensures ValuesOf(init + [last], key) == ValuesOf(init, key) + if Names(last.name, key) then [last.value] else []
  {
    assert (init + [last])[..|init|] == init;
  }

  lemma ListsLast(f: Fields, init: seq<HeaderLine>, last: HeaderLine, key: Bytes)
    requires Lists(f, init, key)
    ensures Lists(AddField(f, Lower(last.name), last.value), init + [last], key)
  {
    ValuesOfLast(init, last, key);
    LowerIsKey(last.name, key);
    if key == Lower(last.name) {
      JoinLast(ValuesOf(init, key), last.value, COMMA_SP);
      assert [] + [last.value] == [last.value];
    } else {
      assert ValuesOf(init + [last], key) == ValuesOf(init, key);
    }
  }

  lemma LastOfLast(init: seq<HeaderLine>, last: HeaderLine, key: Bytes)
    ensures LastOf(init + [last], key) == if Names(last.name, key) then Some(last.value) else LastOf(init, key)
  {
    ValuesOfLast(init, last, key);
    if !Names(last.name, key) {
      assert ValuesOf(init + [last], key) == ValuesOf(init, key);
    }
  }

  lemma CountsLast(f: Fields, key: Bytes, value: Bytes, length: Option<Bytes>, coding: Option<Bytes>)
    requires Counts(f, length, coding)
    ensures Counts(AddField(f, key, value),
                   if key == CONTENT_LENGTH then Some(value) else length, if key == TRANSFER_ENCODING then Some(value) else coding)
  {
    Spelling();
    LengthParses(value);
    LowerMentions(value, CHUNKED);
  }

  lemma DescribesLast(f: Fields, init: seq<HeaderLine>, last: HeaderLine)
    requires Describes(f, init)
    ensures Describes(AddField(f, Lower(last.name), last.value), init + [last])
  {
    var length, coding := Ascii("content-length"), Ascii("transfer-encoding");
    Spelling();
    LowerIsKey(last.name, length);
    LowerIsKey(last.name, coding);
    CountsLast(f, Lower(last.name), last.value, LastOf(init, length), LastOf(init, coding));
    LastOfLast(init, last, length);
    LastOfLast(init, last, coding);
    forall key ensures Lists(AddField(f, Lower(last.name), last.value), init + [last], key) {
      assert Lists(f, init, key);
      ListsLast(f, init, last, key);
    }
  }

  /** What the lines of a list of headers come to. */
  ghost predicate Means(r: Result<Fields, ParseError>, headers: seq<HeaderLine>) {
    match r
    case Ok(f) => |headers| <= 100 && Describes(f, headers)
    case Err(e) => |headers| > 100 && e == TooManyHeaders
  }

  lemma LineMeans(init: seq<HeaderLine>, last: HeaderLine, r: Result<Fields, ParseError>)
    requires Named(last) && Means(r, init)
    ensures Means(match r case Err(e) => Err(e) case Ok(f) => AddLine(f, LineOf(last)), init + [last])
  {
    LineSplits(last);
    if r.Ok? && |init| < 100 {
      DescribesLast(r.value, init, last);
    }
  }

  lemma {:induction false} ReadLinesMeaning(headers: seq<HeaderLine>)
    requires forall h <- headers :: Named(h)
    ensures Means(ReadLines(LinesOf(headers)), headers)
  {
    if headers != [] {
      var n := |headers| - 1;
      var init, last := headers[..n], headers[n];
      assert headers == init + [last] && last in headers && forall h <- init :: h in headers;
      ReadLinesMeaning(init);
      assert LinesOf(headers)[..n] == LinesOf(init) && LinesOf(headers)[n] == LineOf(last);
      LineMeans(init, last, ReadLines(LinesOf(init)));
    } else {
      DescribesNothing();
    }
  }

  lemma DescribesNothing()
    ensures Describes(NO_FIELDS, [])
  {
  }

  /** A line without ": " has no effect, wherever it stands. */
  lemma {:induction false} OtherLinesAreSkipped(before: seq<Bytes>, line: Bytes, behind: seq<Bytes>)
    requires forall i: nat :: !At(line, i, Ascii(": "))
    ensures ReadLines(before + [line] + behind) == ReadLines(before + behind)
  {
    Spelling();
    var n := |behind| - 1;
    if behind == [] {
      FindIsNone(line, COLON_SP);
      assert before + [line] + [] == before + [line] && before + [] == before;
      assert (before + [line])[..|before|] == before;
    } else {
      OtherLinesAreSkipped(before, line, behind[..n]);
      assert (before + [line] + behind)[..|before| + 1 + n] == before + [line] + behind[..n];
      assert (before + behind)[..|before| + n] == before + behind[..n];
    }
  }
}
