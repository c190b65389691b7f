/** One step of the HTTP/1.1 parser (`parse_http_protocol`, engine/src/core/request.rs). */
module Http {
  import opened Wrappers
  import opened Bytes
  import opened Head
  import Chunked

  /** A parsed request; without metadata it is a bare piece of a chunked body. */
  datatype Request = Request(metadata: Option<Metadata>, payload: Bytes)

  /** `Ok(None)` asks for more bytes; otherwise a request and how many bytes it took. */
  type Parsed = Result<Option<(Request, nat)>, ParseError>

  /** The line in front is a request line, is not one, or is too long to be looked at. */
  function RequestLineState(buffer: Bytes): Result<bool, ParseError> {
    match Find(buffer, CRLF)
    case None => Ok(false)
    case Some(pos) =>
      if pos < 3 then Ok(false)
      else if pos > MAX_REQUEST_LINE_SIZE then Err(RequestLineTooLong)
      else Ok(Contains(buffer[..pos], HTTP11))
  }

  function ParseBody(buffer: Bytes, head: RequestHead): Parsed {
    var bodyEnd := head.bodyStart + head.contentLength;
    if bodyEnd >= USIZE_LIMIT then Err(ContentLengthOverflow)
    else if |buffer| < bodyEnd then Ok(None)
    else Ok(Some((Request(Some(head.metadata), buffer[head.bodyStart..bodyEnd]), bodyEnd)))
  }

  function ParseHeadAndBody(buffer: Bytes, maxBody: nat): Parsed {
    match ParseHead(buffer, maxBody)
    case Err(e) => Err(e)
    case Ok(None) => Ok(None)
    case Ok(Some(head)) => ParseBody(buffer, head)
  }

  function ParseChunks(buffer: Bytes): Parsed {
    match Chunked.DecodeChunks(buffer)
    case Err(e) => Err(e)
    case Ok((payload, consumed)) => Ok(Some((Request(None, payload), consumed)))
  }

  function ParseHttp(buffer: Bytes, isChunk: bool, maxBody: nat): Parsed {
    match RequestLineState(buffer)
    case Err(e) => Err(e)
    case Ok(true) => ParseHeadAndBody(buffer, maxBody)
    case Ok(false) => if isChunk then ParseChunks(buffer) else Err(RequestLineMalformed)
  }

  // ----- stability -----

  /** A head found in a prefix is the head of the whole, and a head that fits a prefix is found in it. */
  lemma HeadInPrefix(b: Bytes, k: nat, maxBody: nat)
    requires k <= |b|
    ensures ParseHead(b[..k], maxBody).Ok? && ParseHead(b[..k], maxBody).value.Some? ==> ParseHead(b, maxBody) == ParseHead(b[..k], maxBody)
    ensures ParseHead(b, maxBody).Ok? && ParseHead(b, maxBody).value.Some? && ParseHead(b, maxBody).value.value.bodyStart <= k ==>
              ParseHead(b[..k], maxBody) == ParseHead(b, maxBody)
    ensures ParseHead(b, maxBody).Ok? && ParseHead(b, maxBody).value.Some? ==> 4 <= ParseHead(b, maxBody).value.value.bodyStart <= |b|
  {
    FindInPrefix(b, CRLF, k);
    FindInPrefix(b, CRLFCRLF, k);
    if Find(b, CRLF).Some? && Find(b, CRLFCRLF).Some? && Find(b, CRLFCRLF).value + 4 <= k {
      var rq, h := Find(b, CRLF).value, Find(b, CRLFCRLF).value;
      if rq + 2 <= k { SliceInPrefix(b, k, 0, rq); }
      if rq + 2 <= h { SliceInPrefix(b, k, rq + 2, h); }
    }
  }

  lemma SliceInPrefix(b: Bytes, k: nat, i: nat, j: nat)
    requires i <= j <= k <= |b|
    ensures b[..k][i..j] == b[i..j]
    ensures i == 0 ==> b[..k][..j] == b[..j]
  {
  }

  lemma LineInPrefix(b: Bytes, k: nat)
    requires k <= |b|
    ensures Find(b[..k], CRLF).Some? || (Find(b, CRLF).Some? && Find(b, CRLF).value + 2 <= k) ==> RequestLineState(b[..k]) == RequestLineState(b)
  {
    FindInPrefix(b, CRLF, k);
    if Find(b[..k], CRLF).Some? {
      assert b[..k][..Find(b, CRLF).value] == b[..Find(b, CRLF).value];
    }
  }

  /** A successful parse that began with a request line. */
  predicate HeadBearing(p: Parsed) {
    p.Ok? && p.value.Some? && p.value.value.0.metadata.Some?
  }

  lemma HeadBearingMeans(b: Bytes, isChunk: bool, maxBody: nat)
    ensures HeadBearing(ParseHttp(b, isChunk, maxBody)) <==>
            RequestLineState(b) == Ok(true) && HeadBearing(ParseHeadAndBody(b, maxBody))
    ensures RequestLineState(b) == Ok(true) ==> Find(b, CRLF).Some? && ParseHttp(b, isChunk, maxBody) == ParseHeadAndBody(b, maxBody)
  {
  }

  lemma BodyInPrefix(b: Bytes, k: nat, maxBody: nat)
    requires k <= |b|
    ensures HeadBearing(ParseHeadAndBody(b[..k], maxBody)) ==> ParseHeadAndBody(b, maxBody) == ParseHeadAndBody(b[..k], maxBody)
    ensures HeadBearing(ParseHeadAndBody(b, maxBody)) && ParseHeadAndBody(b, maxBody).value.value.1 <= k ==>
              ParseHeadAndBody(b[..k], maxBody) == ParseHeadAndBody(b, maxBody)
    ensures HeadBearing(ParseHeadAndBody(b, maxBody)) ==> 4 <= ParseHeadAndBody(b, maxBody).value.value.1 <= |b|
  {
    HeadInPrefix(b, k, maxBody);
    var inPrefix, inWhole := ParseHead(b[..k], maxBody), ParseHead(b, maxBody);
    if inWhole.Ok? && inWhole.value.Some? {
      var head := inWhole.value.value;
      var end := head.bodyStart + head.contentLength;
      if end <= k {
        assert b[..k][head.bodyStart..end] == b[head.bodyStart..end];
      }
    }
  }

  /**
    A parse that took a whole request is settled: appended bytes do not change it, whatever the
    chunk flag says by then; it depends on the consumed bytes only; and it consumes at least one
    byte and no more than there are.
  */
  lemma ParseIsStable(b: Bytes, more: Bytes, isChunk: bool, later: bool, maxBody: nat)
    requires HeadBearing(ParseHttp(b, isChunk, maxBody))
    ensures var consumed := ParseHttp(b, isChunk, maxBody).value.value.1;
            && 0 < consumed <= |b|
            && ParseHttp(b + more, later, maxBody) == ParseHttp(b, isChunk, maxBody)
            && ParseHttp(b[..consumed], later, maxBody) == ParseHttp(b, isChunk, maxBody)
  {
    var whole := b + more;
    assert whole[..|b|] == b;
    HeadBearingMeans(b, isChunk, maxBody);
    HeadBearingMeans(whole, later, maxBody);
    LineInPrefix(whole, |b|);
    BodyInPrefix(whole, |b|, maxBody);
    var consumed := ParseHttp(b, isChunk, maxBody).value.value.1;
    BodyInPrefix(b, |b|, maxBody);
    assert b[..|b|] == b;
    BodyInPrefix(b, consumed, maxBody);
    LineEndsInRequest(b, maxBody);
    LineInPrefix(b, consumed);
    HeadBearingMeans(b[..consumed], later, maxBody);
  }

  /** The request line ends inside what a successful parse consumes. */
  lemma LineEndsInRequest(b: Bytes, maxBody: nat)
    requires HeadBearing(ParseHeadAndBody(b, maxBody))
    ensures Find(b, CRLF).Some? && Find(b, CRLF).value + 2 <= ParseHeadAndBody(b, maxBody).value.value.1
  {
  }

  // ----- parsing inverts writing -----

  /** A request as a client writes it, with HTTP/1.1 and a body announced by Content-Length. */
  datatype Written = Written(verb: Bytes, target: Bytes, headers: seq<HeaderLine>, body: Bytes)

  function RequestLine(w: Written): Bytes {
    w.verb + [SP] + w.target + [SP] + HTTP11
  }

  function Section(w: Written): Bytes {
    Join(LinesOf(w.headers), CRLF)
  }

  function HeadOf(w: Written): Bytes {
    RequestLine(w) + CRLF + Section(w) + CRLFCRLF
  }

  function Render(w: Written): Bytes {
    HeadOf(w) + w.body
  }

  predicate PlainHeader(h: HeaderLine) {
    Named(h) && CR !in h.name && CR !in h.value
  }

  /** The headers are to be read as announcing `n` bytes of body, in a number that fits. */
  ghost predicate Announces(headers: seq<HeaderLine>, n: nat) {
    match LastOf(headers, Ascii("content-length"))
    case Some(v) => n < USIZE_LIMIT && Denotes(v, 10, n)
    case None => n == 0
  }

  /** Plain parts and at least one header. */
  predicate Shaped(w: Written) {
    && CR !in w.verb && SP !in w.verb && CR !in w.target && SP !in w.target
    && 1 <= |w.headers| && (forall h <- w.headers :: PlainHeader(h))
  }

  /** The limits kept, and a Content-Length that says how long the body is. */
  ghost predicate WellFormed(w: Written) {
    && Shaped(w)
    && |RequestLine(w)| <= 8192 && |w.headers| <= 100 && |Section(w)| <= 8192
    && LastOf(w.headers, Ascii("transfer-encoding")).None?
    && Announces(w.headers, |w.body|)
    && |Render(w)| < USIZE_LIMIT
  }

  /** What the parser is to make of it. */
  function MetadataOf(w: Written): Metadata {
    Metadata(w.verb, w.target, HTTP11,
             match ReadLines(LinesOf(w.headers)) case Ok(f) => f.headers case Err(_) => map[])
  }

  /** Its map has each key that the headers name, with their values in order, and nothing else. */
  lemma MetadataLists(w: Written, key: Bytes)
    requires WellFormed(w)
    ensures key in MetadataOf(w).headers <==> ValuesOf(w.headers, key) != []
    ensures key in MetadataOf(w).headers ==> MetadataOf(w).headers[key] == Join(ValuesOf(w.headers, key), Ascii(", "))
  {
    ReadLinesMeaning(w.headers);
    Spelling();
    assert Lists(ReadLines(LinesOf(w.headers)).value, w.headers, key);
  }

  function RequestOf(w: Written): Request {
    Request(Some(MetadataOf(w)), w.body)
  }

  /** The first blank line is not inside a line and its end. */
  lemma BlankLineBehind(line: Bytes, rest: Bytes)
    requires CR !in line && rest != [] && rest[0] != CR
    ensures Find(line + CRLF + rest, CRLFCRLF) ==
            if Find(rest, CRLFCRLF).None? then None else Some(|line| + 2 + Find(rest, CRLFCRLF).value)
  {
    assert line + CRLF + rest == line + (CRLF + rest);
    FindBehindFree(line, CRLF + rest, CRLFCRLF);
    var b := CRLF + rest;
    forall j | 0 <= j < |CRLF| ensures !At(b, j, CRLFCRLF) {
      MatchStartsWith(b, j, CRLFCRLF);
      if j == 0 && 4 <= |b| {
        assert b[0..4][2] == rest[0];
      }
    }
    FindBehind(CRLF, rest, CRLFCRLF);
  }

  lemma {:induction false} BlankLineAt(lines: seq<Bytes>, tail: Bytes)
    requires lines != [] && forall l <- lines :: l != [] && CR !in l
    ensures Find(Join(lines, CRLF) + CRLFCRLF + tail, CRLFCRLF) == Some(|Join(lines, CRLF)|)
    ensures Join(lines, CRLF) != [] && Join(lines, CRLF)[0] != CR
  {
    var line := lines[0];
    assert line in lines && line[0] in line;
    if |lines| == 1 {
      assert line + CRLFCRLF + tail == line + (CRLFCRLF + tail);
      assert (CRLFCRLF + tail)[0..4] == CRLFCRLF;
      FindIs(CRLFCRLF + tail, CRLFCRLF, 0);
      FindBehindFree(line, CRLFCRLF + tail, CRLFCRLF);
    } else {
      var rest := Join(lines[1..], CRLF);
      assert forall l <- lines[1..] :: l in lines;
      BlankLineAt(lines[1..], tail);
      var behind := rest + CRLFCRLF + tail;
      assert |behind| > 0 && behind[0] == rest[0];
      BlankLineBehind(line, behind);
      assert Join(lines, CRLF) + CRLFCRLF + tail == line + CRLF + behind;
    }
  }

  lemma LinesArePlain(w: Written)
    requires forall h <- w.headers :: PlainHeader(h)
    ensures forall l <- LinesOf(w.headers) :: l != [] && CR !in l
  {
    forall l <- LinesOf(w.headers) ensures l != [] && CR !in l {
      var i :| 0 <= i < |w.headers| && l == LineOf(w.headers[i]);
      assert w.headers[i] in w.headers;
    }
  }

  lemma ThreeParts(a: Bytes, b: Bytes, c: Bytes)
    requires SP !in a && SP !in b && SP !in c
    ensures Split(a + [SP] + b + [SP] + c, [SP]) == [a, b, c]
  {
    var parts := [a, b, c];
    assert parts[1..] == [b, c] && parts[1..][1..] == [c];
    assert Join([c], [SP]) == c && Join([b, c], [SP]) == b + [SP] + c;
    assert Join(parts, [SP]) == a + [SP] + (b + [SP] + c);
    assert a + [SP] + (b + [SP] + c) == a + [SP] + b + [SP] + c;
    SplitJoin(parts, [SP]);
  }

  /** The request line's three parts come apart again. */
  lemma RequestLineParts(w: Written)
    requires SP !in w.verb && SP !in w.target
    ensures Split(RequestLine(w), [SP]) == [w.verb, w.target, HTTP11]
  {
    assert SP !in HTTP11;
    ThreeParts(w.verb, w.target, HTTP11);
  }

  lemma EndsWithPattern(front: Bytes, pattern: Bytes)
    requires |pattern| > 0
    ensures Contains(front + pattern, pattern)
  {
    assert (front + pattern)[|front|..|front| + |pattern|] == pattern;
    assert At(front + pattern, |front|, pattern);
    FindIsFirst(front + pattern, pattern);
  }

  lemma NamesVersion(w: Written)
    ensures Contains(RequestLine(w), HTTP11) && |RequestLine(w)| >= 10
  {
    EndsWithPattern(w.verb + [SP] + w.target + [SP], HTTP11);
  }

  lemma SectionLines(w: Written)
    requires WellFormed(w)
    ensures Split(Section(w), CRLF) == LinesOf(w.headers)
    ensures ReadLines(LinesOf(w.headers)).Ok?
    ensures var f := ReadLines(LinesOf(w.headers)).value;
            f.contentLength == |w.body| && !f.hasTransferEncoding && !f.isChunked
  {
    LinesArePlain(w);
    SplitJoin(LinesOf(w.headers), CRLF);
    ReadLinesMeaning(w.headers);
    var f := ReadLines(LinesOf(w.headers)).value;
    LengthIsAnnounced(w.headers, |w.body|, f.contentLength);
  }

  lemma LengthIsAnnounced(headers: seq<HeaderLine>, n: nat, length: nat)
    requires Announces(headers, n) && LengthIs(LastOf(headers, Ascii("content-length")), length)
    ensures length == n
  {
    if LastOf(headers, Ascii("content-length")).Some? {
      var v := LastOf(headers, Ascii("content-length")).value;
      ParsesIff(v, 10, n);
      ParsesIff(v, 10, length);
    }
  }

  lemma DecodeWritten(w: Written, maxBody: nat, bodyStart: nat)
    requires WellFormed(w) && |w.body| <= maxBody
    ensures DecodeHead(RequestLine(w), Section(w), maxBody, bodyStart) ==
            Ok(RequestHead(MetadataOf(w), |w.body|, false, bodyStart))
  {
    RequestLineParts(w);
    SectionLines(w);
  }

  /** Where the request line and the head of a written request end, whatever follows them. */
  lemma WrittenEnds(w: Written, tail: Bytes)
    requires Shaped(w)
    ensures Find(HeadOf(w) + tail, CRLF) == Some(|RequestLine(w)|)
    ensures Find(HeadOf(w) + tail, CRLFCRLF) == Some(|HeadOf(w)| - 4)
  {
    var line, rest := RequestLine(w), Section(w) + CRLFCRLF + tail;
    assert HeadOf(w) + tail == line + CRLF + rest;
    assert CR !in line;
    FreeOfCr(line);
    FindLineEnd(line, rest);
    LinesArePlain(w);
    BlankLineAt(LinesOf(w.headers), tail);
    BlankLineBehind(line, rest);
  }

  /** The request line and the header section, cut out of a written request. */
  lemma WrittenSlices(w: Written, tail: Bytes)
    ensures var b, rq, h := HeadOf(w) + tail, |RequestLine(w)|, |HeadOf(w)| - 4;
            rq + 2 <= h && b[..rq] == RequestLine(w) && b[rq + 2..h] == Section(w) && h - (rq + 2) == |Section(w)|
  {
    assert HeadOf(w) == RequestLine(w) + CRLF + Section(w) + CRLFCRLF;
  }

  lemma HeadOfWritten(w: Written, tail: Bytes, maxBody: nat)
    requires WellFormed(w) && |w.body| <= maxBody
    ensures RequestLineState(HeadOf(w) + tail) == Ok(true)
    ensures ParseHead(HeadOf(w) + tail, maxBody) == Ok(Some(RequestHead(MetadataOf(w), |w.body|, false, |HeadOf(w)|)))
  {
    WrittenEnds(w, tail);
    WrittenSlices(w, tail);
    NamesVersion(w);
    DecodeWritten(w, maxBody, |HeadOf(w)|);
    HeadFrom(HeadOf(w) + tail, RequestLine(w), Section(w), |HeadOf(w)| - 4, maxBody);
  }

  /** Where the line and the section end settles how a head is parsed. */
  lemma HeadFrom(b: Bytes, line: Bytes, section: Bytes, h: nat, maxBody: nat)
    requires Find(b, CRLF) == Some(|line|) && Find(b, CRLFCRLF) == Some(h) && 3 <= |line| <= 8192 && |line| + 2 <= h <= |b|
    requires b[..|line|] == line && Contains(line, HTTP11) && b[|line| + 2..h] == section && |section| <= 8192
    ensures RequestLineState(b) == Ok(true)
    ensures ParseHead(b, maxBody) ==
            match DecodeHead(line, section, maxBody, h + 4) case Err(e) => Err(e) case Ok(head) => Ok(Some(head))
  {
  }

  /** Why a head of plain parts is refused, for each reason there is. */
  ghost predicate RefusedFor(w: Written, maxBody: nat, e: ParseError) {
    RefusedWith(w, LastOf(w.headers, Ascii("content-length")), LastOf(w.headers, Ascii("transfer-encoding")), maxBody, e)
  }

  ghost predicate RefusedWith(w: Written, length: Option<Bytes>, coding: Option<Bytes>, maxBody: nat, e: ParseError) {
    match e
    case RequestLineTooLong => |RequestLine(w)| > 8192
    case HeadersTooLarge => |RequestLine(w)| <= 8192 && |Section(w)| > 8192
    case TooManyHeaders => |RequestLine(w)| <= 8192 && |Section(w)| <= 8192 && |w.headers| > 100
    case LengthAndTransferEncoding => WithinLimits(w) && length.Some? && coding.Some?
    case ContentLengthExceedsMaximum =>
      WithinLimits(w) && !(length.Some? && coding.Some?) && exists n: nat :: LengthIs(length, n) && n > maxBody
    case _ => false
  }

  predicate WithinLimits(w: Written) {
    |RequestLine(w)| <= 8192 && |Section(w)| <= 8192 && |w.headers| <= 100
  }

  lemma OneLength(value: Option<Bytes>, n: nat, m: nat)
    requires LengthIs(value, n) && LengthIs(value, m)
    ensures n == m
  {
    if value.Some? {
      ParsesIff(value.value, 10, n);
      ParsesIff(value.value, 10, m);
      forall k: nat ensures ParseUnsigned(value.value, 10) == Some(k) <==> k < USIZE_LIMIT && Denotes(value.value, 10, k) {
        ParsesIff(value.value, 10, k);
      }
    }
  }

  lemma FinishRefused(parts: seq<Bytes>, f: Fields, length: Option<Bytes>, coding: Option<Bytes>, maxBody: nat, bodyStart: nat, e: ParseError)
    requires |parts| >= 3 && Counts(f, length, coding)
    ensures FinishHead(parts, f, maxBody, bodyStart) == Err(e) <==>
            || (e == LengthAndTransferEncoding && length.Some? && coding.Some?)
            || (e == ContentLengthExceedsMaximum && !(length.Some? && coding.Some?) && exists n: nat :: LengthIs(length, n) && n > maxBody)
  {
    forall n: nat | LengthIs(length, n) ensures n == f.contentLength {
      OneLength(length, n, f.contentLength);
    }
  }

  lemma DecodeAs(requestLine: Bytes, section: Bytes, parts: seq<Bytes>, lines: seq<Bytes>, maxBody: nat, bodyStart: nat)
    requires Split(requestLine, [SP]) == parts && |parts| >= 3 && Split(section, CRLF) == lines
    ensures DecodeHead(requestLine, section, maxBody, bodyStart) ==
            match ReadLines(lines) case Err(e) => Err(e) case Ok(f) => FinishHead(parts, f, maxBody, bodyStart)
  {
  }

  lemma ReadRefused(w: Written, r: Result<Fields, ParseError>, parts: seq<Bytes>, length: Option<Bytes>, coding: Option<Bytes>, maxBody: nat, bodyStart: nat, e: ParseError)
    requires |parts| >= 3 && |RequestLine(w)| <= 8192 && |Section(w)| <= 8192
    requires if |w.headers| <= 100 then r.Ok? && Counts(r.value, length, coding) else r == Err(TooManyHeaders)
    ensures (match r case Err(e) => Err(e) case Ok(f) => FinishHead(parts, f, maxBody, bodyStart)) == Err(e) <==>
            RefusedWith(w, length, coding, maxBody, e)
  {
    if r.Ok? {
      FinishRefused(parts, r.value, length, coding, maxBody, bodyStart, e);
    }
  }

  lemma DecodeRefused(w: Written, maxBody: nat, bodyStart: nat, e: ParseError)
    requires Shaped(w) && |RequestLine(w)| <= 8192 && |Section(w)| <= 8192
    ensures DecodeHead(RequestLine(w), Section(w), maxBody, bodyStart) == Err(e) <==> RefusedFor(w, maxBody, e)
  {
    RequestLineParts(w);
    LinesArePlain(w);
    SplitJoin(LinesOf(w.headers), CRLF);
    ReadLinesMeaning(w.headers);
    DecodeAs(RequestLine(w), Section(w), [w.verb, w.target, HTTP11], LinesOf(w.headers), maxBody, bodyStart);
    ReadRefused(w, ReadLines(LinesOf(w.headers)), [w.verb, w.target, HTTP11],
                LastOf(w.headers, Ascii("content-length")), LastOf(w.headers, Ascii("transfer-encoding")), maxBody, bodyStart, e);
  }

  /** A line or a section over its limit. */
  lemma HeadOutside(b: Bytes, line: Bytes, section: Bytes, h: nat, maxBody: nat)
    requires Find(b, CRLF) == Some(|line|) && Find(b, CRLFCRLF) == Some(h) && 3 <= |line| && |line| + 2 <= h <= |b|
    requires b[..|line|] == line && Contains(line, HTTP11) && b[|line| + 2..h] == section
    ensures |line| > 8192 ==> ParseHead(b, maxBody) == Err(RequestLineTooLong)
    ensures |line| <= 8192 < |section| ==> ParseHead(b, maxBody) == Err(HeadersTooLarge)
  {
  }

  /** A complete head is refused exactly for the reasons listed. */
  lemma RefusedIff(w: Written, tail: Bytes, maxBody: nat, e: ParseError)
    requires Shaped(w)
    ensures ParseHead(HeadOf(w) + tail, maxBody) == Err(e) <==> RefusedFor(w, maxBody, e)
  {
    WrittenEnds(w, tail);
    WrittenSlices(w, tail);
    NamesVersion(w);
    if |RequestLine(w)| <= 8192 && |Section(w)| <= 8192 {
      DecodeRefused(w, maxBody, |HeadOf(w)|, e);
      HeadFrom(HeadOf(w) + tail, RequestLine(w), Section(w), |HeadOf(w)| - 4, maxBody);
    } else {
      HeadOutside(HeadOf(w) + tail, RequestLine(w), Section(w), |HeadOf(w)| - 4, maxBody);
    }
  }

  /** A first line of 3 to 8192 bytes that names the version somewhere is taken for a request line; a longer one is an error. */
  lemma RequestLineIff(line: Bytes, rest: Bytes)
    requires CR !in line
    ensures RequestLineState(line + CRLF + rest) == Err(RequestLineTooLong) <==> |line| > 8192
    ensures RequestLineState(line + CRLF + rest) == Ok(true) <==>
            3 <= |line| <= 8192 && exists i: nat :: At(line, i, Ascii("HTTP/1.1"))
  {
    FreeOfCr(line);
    FindLineEnd(line, rest);
    FindIsFirst(line, HTTP11);
    Spelling();
    assert (line + CRLF + rest)[..|line|] == line;
  }

  /** A request without any header is refused: the blank line then begins with the request line's own CRLF. */
  lemma HeaderlessRefused(w: Written, tail: Bytes, isChunk: bool, maxBody: nat)
    requires CR !in w.verb && CR !in w.target && |RequestLine(w)| <= MAX_REQUEST_LINE_SIZE
    ensures ParseHttp(RequestLine(w) + CRLFCRLF + tail, isChunk, maxBody) == Err(MalformedHeaderSection)
  {
    var line := RequestLine(w);
    var b := line + CRLFCRLF + tail;
    assert CR !in line;
    assert b == line + (CRLFCRLF + tail) && CRLFCRLF + tail == CRLF + (CRLF + tail);
    assert (CRLFCRLF + tail)[0..4] == CRLFCRLF && (CRLFCRLF + tail)[0..2] == CRLF;
    FindIs(CRLFCRLF + tail, CRLF, 0);
    FindIs(CRLFCRLF + tail, CRLFCRLF, 0);
    FindBehindFree(line, CRLFCRLF + tail, CRLF);
    FindBehindFree(line, CRLFCRLF + tail, CRLFCRLF);
    assert b[..|line|] == line;
    NamesVersion(w);
  }

  lemma MiddleSlice(front: Bytes, middle: Bytes, rest: Bytes)
    ensures front + middle + rest == front + (middle + rest)
    ensures (front + middle + rest)[|front|..|front + middle|] == middle
  {
  }

  /** Whatever follows it and whatever the chunk flag, a written request is parsed back whole. */
  lemma ParseWritten(w: Written, rest: Bytes, isChunk: bool, maxBody: nat)
    requires WellFormed(w) && |w.body| <= maxBody
    ensures ParseHttp(Render(w) + rest, isChunk, maxBody) == Ok(Some((RequestOf(w), |Render(w)|)))
  {
    MiddleSlice(HeadOf(w), w.body, rest);
    HeadOfWritten(w, w.body + rest, maxBody);
    ParseFrom(Render(w) + rest, RequestHead(MetadataOf(w), |w.body|, false, |HeadOf(w)|), w.body, |Render(w)|, isChunk, maxBody);
  }

  /** A head and enough bytes behind it make a request. */
  lemma ParseFrom(b: Bytes, head: RequestHead, body: Bytes, end: nat, isChunk: bool, maxBody: nat)
    requires RequestLineState(b) == Ok(true) && ParseHead(b, maxBody) == Ok(Some(head))
    requires end == head.bodyStart + head.contentLength && end <= |b| && end < USIZE_LIMIT && b[head.bodyStart..end] == body
    ensures ParseHttp(b, isChunk, maxBody) == Ok(Some((Request(Some(head.metadata), body), end)))
  {
  }

  /** Cut anywhere behind its request line, a written request asks for more. */
  lemma ParsePartial(w: Written, k: nat, isChunk: bool, maxBody: nat)
    requires WellFormed(w) && |w.body| <= maxBody
    requires |RequestLine(w)| + 2 <= k < |Render(w)|
    ensures ParseHttp(Render(w)[..k], isChunk, maxBody) == Ok(None)
  {
    var b := Render(w);
    HeadOfWritten(w, w.body, maxBody);
    WrittenEnds(w, w.body);
    LineInPrefix(b, k);
    if k >= |HeadOf(w)| {
      HeadInPrefix(b, k, maxBody);
    } else {
      HeadCutShort(b, k, maxBody);
    }
  }

  /** A head whose blank line is not there yet asks for more. */
  lemma HeadCutShort(b: Bytes, k: nat, maxBody: nat)
    requires k <= |b| && RequestLineState(b) == Ok(true)
    requires Find(b, CRLF).value + 2 <= k && Find(b, CRLFCRLF).Some? && k < Find(b, CRLFCRLF).value + 4
    ensures ParseHead(b[..k], maxBody) == Ok(None)
  {
    FindInPrefix(b, CRLF, k);
    FindInPrefix(b, CRLFCRLF, k);
    assert b[..k][..Find(b, CRLF).value] == b[..Find(b, CRLF).value];
  }
}
