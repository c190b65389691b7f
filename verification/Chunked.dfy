/**
  The chunked transfer coding (`parse_chunked_body`, engine/src/core/request.rs; section 7.1 of
  RFC 9112). Lengths are assumed to stay below usize::MAX, so the source's overflow checks never fire.
*/
module Chunked {
  import opened Wrappers
  import opened Bytes
  import opened Head

  const MAX_CHUNK_SIZE := 1024 * 1024
  const SEMICOLON: byte := 59

  /** What stands at the cursor: nothing usable yet, an error, the last chunk, or a whole chunk. */
  datatype Next =
    | NoLine
    | BadSize
    | TooBig
    | Last(lineEnd: nat)
    | Short
    | Chunk(dataStart: nat, dataEnd: nat)

  /** The size text: the line up to a ';' that starts the extensions. */
  function SizeText(line: Bytes): Bytes {
    line[..Find(line, [SEMICOLON]).GetOr(|line|)]
  }

  function SizeOf(line: Bytes): Option<nat> {
    ParseUnsigned(Trim(SizeText(line)), 16)
  }

  function NextAt(b: Bytes): Next {
    match Find(b, CRLF)
    case None => NoLine
    case Some(e) =>
      match SizeOf(b[..e])
      case None => BadSize
      case Some(size) =>
        if size > MAX_CHUNK_SIZE then TooBig
        else if size == 0 then Last(e)
        else if |b| < e + 2 + size + 2 then Short
        else Chunk(e + 2, e + 2 + size)
  }

  /** Nothing can be taken off the front: no whole line, a line that is no size, or a frame not all there. */
  predicate Unusable(n: Next) {
    n.NoLine? || n.BadSize? || n.Short?
  }

  /** A recogniser of what stands at the front of some bytes, within their bounds. */
  ghost predicate Sane(next: Bytes -> Next) {
    forall b :: Bounded(b, next(b))
  }

  predicate Bounded(b: Bytes, n: Next) {
    && (n.Last? ==> n.lineEnd + 2 <= |b|)
    && (n.Chunk? ==> 2 <= n.dataStart < n.dataEnd && n.dataEnd + 2 <= |b|)
  }

  /** The data of the complete chunks and how far the cursor gets, for any recogniser of chunks. */
  function Walk(next: Bytes -> Next, b: Bytes): Result<(Bytes, nat), ParseError>
    requires Sane(next)
    decreases |b|
  {
    assert Bounded(b, next(b));
    match next(b)
    case TooBig => Err(ChunkSizeExceedsMaximum)
    case Last(e) => Ok(([], e + 4))
    case Chunk(from, to) => After(b[from..to], to + 2, Walk(next, b[to + 2..]))
    case _ => Ok(([], 0))
  }

  function DecodeChunks(b: Bytes): Result<(Bytes, nat), ParseError> {
    NextAtIsSane();
    Walk(NextAt, b)
  }

  lemma NextAtIsSane()
    ensures Sane(NextAt)
  {
    forall b ensures Bounded(b, NextAt(b)) {
      NextAtBounded(b);
    }
  }

  lemma NextAtBounded(b: Bytes)
    ensures Bounded(b, NextAt(b))
  {
  }

  /** A result continued behind `data`, which ended at `cursor`. */
  function After(data: Bytes, cursor: nat, r: Result<(Bytes, nat), ParseError>): Result<(Bytes, nat), ParseError> {
    match r
    case Err(e) => Err(e)
    case Ok((more, n)) => Ok((data + more, cursor + n))
  }

  lemma AfterAfter(a: Bytes, m: nat, b: Bytes, n: nat, r: Result<(Bytes, nat), ParseError>)
    ensures After(a, m, After(b, n, r)) == After(a + b, m + n, r)
  {
    if r.Ok? {
      assert a + (b + r.value.0) == a + b + r.value.0;
    }
  }

  lemma AfterNothing(r: Result<(Bytes, nat), ParseError>)
    ensures After([], 0, r) == r
  {
    if r.Ok? {
      assert [] + r.value.0 == r.value.0;
    }
  }

  /** The walk of the whole as seen after reading `data` up to `cursor`, one step further. */
  lemma WalkOn(next: Bytes -> Next, b: Bytes, cursor: nat, data: Bytes, whole: Result<(Bytes, nat), ParseError>)
    requires Sane(next) && cursor <= |b|
    requires whole == After(data, cursor, Walk(next, b[cursor..]))
    ensures match next(b[cursor..])
            case TooBig => whole == Err(ChunkSizeExceedsMaximum)
            case Last(e) => whole == Ok((data, cursor + e + 4))
            case Chunk(from, to) =>
              && cursor + to + 2 <= |b| && from <= to
              && whole == After(data + b[cursor + from..cursor + to], cursor + to + 2, Walk(next, b[cursor + to + 2..]))
            case _ => whole == Ok((data, cursor))
  {
    var rest := b[cursor..];
    assert data + [] == data && Bounded(rest, next(rest));
    if next(rest).Chunk? {
      var from, to := next(rest).dataStart, next(rest).dataEnd;
      assert rest[to + 2..] == b[cursor + to + 2..];
      assert rest[from..to] == b[cursor + from..cursor + to];
      AfterAfter(data, cursor, rest[from..to], to + 2, Walk(next, rest[to + 2..]));
    }
  }

  method ParseChunkedBody(buffer: Bytes) returns (r: Result<(Bytes, nat), ParseError>)
    ensures r == DecodeChunks(buffer)
  {
    NextAtIsSane();
    r := CursorLoop(buffer, NextAt);
  }

  /** `next` is the recogniser below; only its bounds matter to the loop. */
  ghost predicate Recognises(next: Bytes -> Next) {
    Sane(next) && forall b {:trigger NextAt(b)} :: next(b) == NextAt(b)
  }

  /** The cursor loop of the source. */
  method CursorLoop(buffer: Bytes, ghost next: Bytes -> Next) returns (r: Result<(Bytes, nat), ParseError>)
    requires Recognises(next)
    ensures r == Walk(next, buffer)
  {
    var cursor: nat := 0;
    var accumulator: Bytes := [];
    ghost var whole := Walk(next, buffer);
    assert buffer[0..] == buffer;
    AfterNothing(whole);
    while true
      invariant cursor <= |buffer|
      invariant whole == After(accumulator, cursor, Walk(next, buffer[cursor..]))
      decreases |buffer| - cursor
    {
      var n := ReadChunk(buffer[cursor..], next);
      WalkOn(next, buffer, cursor, accumulator, whole);
      match n {
        case TooBig => return Err(ChunkSizeExceedsMaximum);
        case Last(lineEnd) => return Ok((accumulator, cursor + lineEnd + 4));
        case Chunk(from, to) =>
          accumulator := accumulator + buffer[cursor + from..cursor + to];
          cursor := cursor + to + 2;
        case _ => return Ok((accumulator, cursor));
      }
    }
  }

  /** The loop body of the source up to its decision, on the bytes behind the cursor. */
  method ReadChunk(b: Bytes, ghost next: Bytes -> Next) returns (n: Next)
    requires Recognises(next)
    ensures n == next(b)
  {
    assert next(b) == NextAt(b);
    var lineEnd := Find(b, CRLF);
    if lineEnd.None? {
      return NoLine;
    }
    var size := SizeOf(b[..lineEnd.value]);
    if size.None? {
      return BadSize;
    }
    if size.value > MAX_CHUNK_SIZE {
      return TooBig;
    }
    if size.value == 0 {
      return Last(lineEnd.value);
    }
    var dataStart := lineEnd.value + 2;
    var dataEnd := dataStart + size.value;
    if |b| < dataEnd + 2 {
      return Short;
    }
    n := Chunk(dataStart, dataEnd);
  }

  // ----- decoding inverts encoding -----

  /** One chunk as sent: size text, extensions (empty or from ';' on), data. */
  datatype Frame = Frame(size: Bytes, extension: Bytes, data: Bytes)

  function SizeLine(f: Frame): Bytes {
    f.size + f.extension
  }

  /** The size line says in hexadecimal digits how long the data is, in any spelling, and holds no CRLF. */
  ghost predicate WellFormed(f: Frame) {
    && (forall c <- f.size :: c as char != ';')
    && (f.extension == [] || f.extension[0] as char == ';')
    && Find(SizeLine(f), CRLF).None?
    && PaddedNumber(f.size, 16, |f.data|)
    && |f.data| <= 1048576
  }

  function EncodeFrame(f: Frame): Bytes {
    SizeLine(f) + CRLF + f.data + CRLF
  }

  /** The frames, then the last chunk (of size 0), then the empty trailer section. */
  function EncodeBody(frames: seq<Frame>, last: Frame): Bytes {
    if frames == [] then EncodeFrame(last) else EncodeFrame(frames[0]) + EncodeBody(frames[1..], last)
  }

  function DataOf(frames: seq<Frame>): Bytes {
    if frames == [] then [] else frames[0].data + DataOf(frames[1..])
  }

  ghost predicate WellFormedBody(frames: seq<Frame>, last: Frame) {
    && (forall f <- frames :: WellFormed(f) && f.data != [])
    && WellFormed(last) && last.data == []
  }

  lemma SizeTextOfLine(f: Frame)
    requires WellFormed(f)
    ensures SizeOf(SizeLine(f)) == Some(|f.data|)
  {
    FindBehindFree(f.size, f.extension, [SEMICOLON]);
    if f.extension != [] {
      assert f.extension[0..1] == [SEMICOLON];
      FindIs(f.extension, [SEMICOLON], 0);
    } else {
      FindIsNone(f.extension, [SEMICOLON]);
    }
    assert SizeText(SizeLine(f)) == f.size;
    TrimmedParsesIff(f.size, 16, |f.data|);
  }

  lemma NextAtFrame(f: Frame, rest: Bytes)
    requires WellFormed(f)
    ensures NextAt(EncodeFrame(f) + rest) ==
            var e := |SizeLine(f)|; if f.data == [] then Last(e) else Chunk(e + 2, e + 2 + |f.data|)
  {
    var line := SizeLine(f);
    var b := EncodeFrame(f) + rest;
    assert b == line + CRLF + (f.data + CRLF + rest);
    FindLineEnd(line, f.data + CRLF + rest);
    assert b[..|line|] == line;
    SizeTextOfLine(f);
  }

  lemma DecodeFrame(f: Frame, rest: Bytes)
    requires WellFormed(f)
    ensures f.data == [] ==> DecodeChunks(EncodeFrame(f) + rest) == Ok(([], |EncodeFrame(f)|))
    ensures f.data != [] ==> DecodeChunks(EncodeFrame(f) + rest) == After(f.data, |EncodeFrame(f)|, DecodeChunks(rest))
    ensures f.data == [] || ReachesLast(rest) ==> ReachesLast(EncodeFrame(f) + rest)
  {
    NextAtFrame(f, rest);
    NextAtIsSane();
    var b, from := EncodeFrame(f) + rest, |SizeLine(f)| + 2;
    assert b[from..from + |f.data|] == f.data;
    assert b[from + |f.data| + 2..] == rest;
  }

  type Decoder = Bytes -> Result<(Bytes, nat), ParseError>

  /** How decoding treats one well-formed chunk in front of anything. */
  ghost predicate FrameLaw(decode: Decoder, f: Frame, rest: Bytes) {
    decode(EncodeFrame(f) + rest) ==
      if f.data == [] then Ok(([], |EncodeFrame(f)|)) else After(f.data, |EncodeFrame(f)|, decode(rest))
  }

  lemma EncodedNonEmpty(frames: seq<Frame>, last: Frame)
    ensures |EncodeBody(frames, last)| > 0
  {
  }

  lemma {:induction false} DecodeBody(decode: Decoder, frames: seq<Frame>, last: Frame, rest: Bytes)
    requires (forall f <- frames :: f.data != []) && last.data == []
    requires forall f, r | f in frames || f == last :: FrameLaw(decode, f, r)
    ensures decode(EncodeBody(frames, last) + rest) == Ok((DataOf(frames), |EncodeBody(frames, last)|))
  {
    if frames == [] {
      assert FrameLaw(decode, last, rest);
    } else {
      var f, tail := frames[0], EncodeBody(frames[1..], last);
      assert f in frames;
      assert FrameLaw(decode, f, tail + rest);
      assert forall g <- frames[1..] :: g in frames;
      DecodeBody(decode, frames[1..], last, rest);
      assert EncodeFrame(f) + tail + rest == EncodeFrame(f) + (tail + rest);
    }
  }

  /** Whatever follows the body, decoding gives back the data, and the cursor stops right behind the body. */
  lemma DecodeEncode(frames: seq<Frame>, last: Frame, rest: Bytes)
    requires WellFormedBody(frames, last)
    ensures DecodeChunks(EncodeBody(frames, last) + rest) == Ok((DataOf(frames), |EncodeBody(frames, last)|))
  {
    forall f, r | f in frames || f == last ensures FrameLaw(DecodeChunks, f, r) {
      DecodeFrame(f, r);
    }
    DecodeBody(DecodeChunks, frames, last, rest);
  }

  lemma NumeralIsPlain(b: Bytes, digits: seq<nat>)
    requires IsNumeral(b, digits, 16)
    ensures CR !in b && forall c <- b :: c as char != ';'
  {
    forall i | 0 <= i < |b| ensures b[i] != CR && b[i] != SEMICOLON {
      if Spells(b, digits, 16) {
        DigitIs(b[i], 16, digits[i]);
      } else if i > 0 {
        DigitIs(b[1..][i - 1], 16, digits[i - 1]);
      }
    }
  }

  /** Any spelling in hexadecimal digits, small and capital ones mixed, with leading zeros or a '+', is well formed. */
  lemma NumeralFrame(size: Bytes, digits: seq<nat>, data: Bytes)
    requires IsNumeral(size, digits, 16) && Positional(digits, 16) == |data| <= 1048576
    ensures WellFormed(Frame(size, [], data))
  {
    NumeralIsPlain(size, digits);
    FreeOfCr(size);
    assert size + [] == size && size[0..|size|] == size;
    assert PaddedAt(size, 0, |size|, 16, |data|);
  }

  /** The usual spelling, the shortest in small digits. */
  lemma CanonicalFrame(data: Bytes)
    requires |data| <= 1048576
    ensures WellFormed(Frame(Print(|data|, 16), [], data))
  {
    var size := Print(|data|, 16);
    ParsePrint(|data|, 16);
    ParsesIff(size, 16, |data|);
    var digits :| IsNumeral(size, digits, 16) && Positional(digits, 16) == |data|;
    NumeralFrame(size, digits, data);
  }

  /** A first line that is no number in hexadecimal digits is not taken off the front. */
  lemma BadSizeIff(b: Bytes)
    ensures NextAt(b).BadSize? <==>
            Find(b, CRLF).Some? && forall n: nat | n < USIZE_LIMIT :: !PaddedNumber(SizeText(b[..Find(b, CRLF).value]), 16, n)
  {
    if Find(b, CRLF).Some? {
      var text := SizeText(b[..Find(b, CRLF).value]);
      forall n: nat | n < USIZE_LIMIT ensures PaddedNumber(text, 16, n) <==> ParseUnsigned(Trim(text), 16) == Some(n) {
        TrimmedParsesIff(text, 16, n);
      }
    }
  }

  /** A chunk of more than 1 MiB is refused. */
  lemma TooBigIff(b: Bytes)
    ensures NextAt(b).TooBig? <==>
            Find(b, CRLF).Some? && exists n: nat :: 1048576 < n < USIZE_LIMIT && PaddedNumber(SizeText(b[..Find(b, CRLF).value]), 16, n)
  {
    if Find(b, CRLF).Some? {
      var text := SizeText(b[..Find(b, CRLF).value]);
      forall n: nat | n < USIZE_LIMIT ensures PaddedNumber(text, 16, n) <==> ParseUnsigned(Trim(text), 16) == Some(n) {
        TrimmedParsesIff(text, 16, n);
      }
    }
  }

  // ----- resuming -----

  /** The walk stops at a last chunk, not for want of bytes. */
  ghost predicate Finishes(next: Bytes -> Next, b: Bytes)
    requires Sane(next)
    decreases |b|
  {
    assert Bounded(b, next(b));
    match next(b)
    case Last(_) => true
    case Chunk(_, to) => Finishes(next, b[to + 2..])
    case _ => false
  }

  /** Where the CRLF of the last chunk's size line stands. */
  ghost function FinishLine(next: Bytes -> Next, b: Bytes): (e: nat)
    requires Sane(next) && Finishes(next, b)
    ensures e + 2 <= |b|
    decreases |b|
  {
    assert Bounded(b, next(b));
    match next(b)
    case Last(e) => e
    case Chunk(_, to) => to + 2 + FinishLine(next, b[to + 2..])
  }

  /** What is recognised in a prefix is recognised in the whole, and what fits the prefix is recognised there. */
  ghost predicate PrefixStable(next: Bytes -> Next) {
    forall b, k: nat | k <= |b| :: StableAt(next, b, k)
  }

  ghost predicate StableAt(next: Bytes -> Next, b: Bytes, k: nat)
    requires k <= |b|
  {
    && (!next(b[..k]).NoLine? && !next(b[..k]).Short? ==> next(b) == next(b[..k]))
    && (next(b).Last? && next(b).lineEnd + 2 <= k ==> next(b[..k]) == next(b))
    && (next(b).Chunk? && next(b).dataEnd + 2 <= k ==> next(b[..k]) == next(b))
  }

  lemma NextAtIsStable()
    ensures PrefixStable(NextAt)
  {
    forall b: Bytes, k: nat | k <= |b| ensures StableAt(NextAt, b, k) {
      NextAtPrefix(b, k);
    }
  }

  lemma NextAtPrefix(b: Bytes, k: nat)
    requires k <= |b|
    ensures StableAt(NextAt, b, k)
  {
    FindInPrefix(b, CRLF, k);
    if Find(b[..k], CRLF).Some? {
      var e := Find(b[..k], CRLF).value;
      assert b[..k][..e] == b[..e];
    }
  }

  /** The cursor stays inside the buffer except behind a last chunk, where it is taken four bytes on unchecked. */
  lemma {:induction false} CursorPosition(next: Bytes -> Next, b: Bytes)
    requires Sane(next) && Walk(next, b).Ok?
    ensures Finishes(next, b) ==> Walk(next, b).value.1 == FinishLine(next, b) + 4
    ensures !Finishes(next, b) ==> Walk(next, b).value.1 <= |b|
    decreases |b|
  {
    assert Bounded(b, next(b));
    if next(b).Chunk? {
      CursorPosition(next, b[next(b).dataEnd + 2..]);
    }
  }

  /** The prefix and the whole agree about the first chunk and about what is behind it. */
  lemma BehindChunk(next: Bytes -> Next, b: Bytes, k: nat)
    requires Sane(next) && PrefixStable(next)
    requires k <= |b| && next(b[..k]).Chunk?
    ensures var from, to := next(b[..k]).dataStart, next(b[..k]).dataEnd;
            && from <= to && to + 2 <= k
            && next(b) == next(b[..k])
            && b[..k][from..to] == b[from..to]
            && b[..k][to + 2..] == b[to + 2..][..k - (to + 2)]
  {
    assert Bounded(b[..k], next(b[..k])) && StableAt(next, b, k);
  }

  /**
    For any bytes and any cut: errors before the cut stay errors; if the last chunk was reached,
    later bytes change nothing; otherwise walking the prefix and then walking on from its cursor is
    walking the whole.
  */
  ghost predicate Resumes(next: Bytes -> Next, b: Bytes, k: nat)
    requires Sane(next) && k <= |b|
  {
    if Walk(next, b[..k]).Err? || Finishes(next, b[..k]) then
      Walk(next, b) == Walk(next, b[..k])
    else
      var (data, cursor) := Walk(next, b[..k]).value;
      cursor <= k && Walk(next, b) == After(data, cursor, Walk(next, b[cursor..]))
  }

  lemma ResumeBehindChunk(next: Bytes -> Next, b: Bytes, k: nat)
    requires Sane(next) && PrefixStable(next) && k <= |b|
    requires next(b[..k]).Chunk? && next(b[..k]).dataEnd + 2 <= k && Resumes(next, b[next(b[..k]).dataEnd + 2..], k - (next(b[..k]).dataEnd + 2))
    ensures Resumes(next, b, k)
  {
    BehindChunk(next, b, k);
    var p, from, to := b[..k], next(b[..k]).dataStart, next(b[..k]).dataEnd;
    var n := to + 2;
    assert p[n..] == b[n..][..k - n];
    if Walk(next, p[n..]).Ok? && !Finishes(next, p[n..]) {
      var (data, cursor) := Walk(next, p[n..]).value;
      assert b[n..][cursor..] == b[n + cursor..];
      AfterAfter(b[from..to], n, data, cursor, Walk(next, b[n + cursor..]));
    }
  }

  lemma {:induction false} Resume(next: Bytes -> Next, b: Bytes, k: nat)
    requires Sane(next) && PrefixStable(next) && k <= |b|
    ensures Resumes(next, b, k)
    decreases |b|
  {
    var p := b[..k];
    assert StableAt(next, b, k);
    if next(p).Chunk? {
      assert Bounded(p, next(p));
      var n := next(p).dataEnd + 2;
      Resume(next, b[n..], k - n);
      ResumeBehindChunk(next, b, k);
    } else if !next(p).Last? && !next(p).TooBig? {
      assert b[0..] == b;
      AfterNothing(Walk(next, b));
    }
  }

  /** A prefix that holds the whole last size line reaches the last chunk as well. */
  lemma {:induction false} FinishesInPrefix(next: Bytes -> Next, b: Bytes, k: nat)
    requires Sane(next) && PrefixStable(next)
    requires k <= |b| && Finishes(next, b) && FinishLine(next, b) + 2 <= k
    ensures Finishes(next, b[..k])
    decreases |b|
  {
    assert StableAt(next, b, k) && Bounded(b, next(b));
    if next(b).Chunk? {
      var n := next(b).dataEnd + 2;
      FinishesInPrefix(next, b[n..], k - n);
      BehindChunk(next, b, k);
    }
  }

  ghost predicate ReachesLast(b: Bytes) {
    NextAtIsSane();
    Finishes(NextAt, b)
  }

  ghost function LastLineEnd(b: Bytes): nat
    requires ReachesLast(b)
  {
    FinishLine(NextAt, b)
  }

  /**
    Exactly when the cursor overruns the buffer, which the caller then fails to drain: the last
    chunk's size line is there and fewer than two bytes follow it.
  */
  lemma OverrunIff(b: Bytes)
    requires DecodeChunks(b).Ok?
    ensures DecodeChunks(b).value.1 > |b| <==> ReachesLast(b) && |b| < LastLineEnd(b) + 4
  {
    NextAtIsSane();
    CursorPosition(NextAt, b);
  }

  /** `Resume` for the decoder itself. */
  lemma ResumeChunks(b: Bytes, k: nat)
    requires k <= |b|
    ensures DecodeChunks(b[..k]).Err? || ReachesLast(b[..k]) ==> DecodeChunks(b) == DecodeChunks(b[..k])
    ensures DecodeChunks(b[..k]).Ok? && !ReachesLast(b[..k]) ==>
              var (data, cursor) := DecodeChunks(b[..k]).value;
              cursor <= k && DecodeChunks(b) == After(data, cursor, DecodeChunks(b[cursor..]))
  {
    NextAtIsSane();
    NextAtIsStable();
    Resume(NextAt, b, k);
  }

  lemma {:induction false} BodyReachesLast(frames: seq<Frame>, last: Frame)
    requires WellFormedBody(frames, last)
    ensures ReachesLast(EncodeBody(frames, last))
  {
    if frames == [] {
      DecodeFrame(last, []);
      assert EncodeFrame(last) + [] == EncodeFrame(last);
    } else {
      assert frames[0] in frames;
      BodyReachesLast(frames[1..], last);
      DecodeFrame(frames[0], EncodeBody(frames[1..], last));
    }
  }

  /** Any walk that finishes at the very end of the bytes, cut anywhere. */
  lemma ResumeExact(next: Bytes -> Next, body: Bytes, content: Bytes, k: nat)
    requires Sane(next) && PrefixStable(next) && next([]).NoLine?
    requires Walk(next, body) == Ok((content, |body|)) && Finishes(next, body) && k <= |body|
    ensures Walk(next, body[..k]).Ok?
    ensures var (data, cursor) := Walk(next, body[..k]).value;
            && (cursor <= k <==> k == |body| || k < |body| - 2)
            && (cursor <= k ==> After(data, cursor, Walk(next, body[cursor..])) == Ok((content, |body|)))
  {
    Resume(next, body, k);
    CursorPosition(next, body);
    CursorPosition(next, body[..k]);
    if k >= |body| - 2 {
      FinishesInPrefix(next, body, k);
      if k == |body| {
        assert body[..k] == body && body[k..] == [];
        assert content + [] == content;
      }
    }
  }

  /**
    A well-formed body cut anywhere: decoding in two parts gives the data and the length exactly
    when the cut does not fall behind the last size line but before the end of the body.
  */
  lemma ResumeWellFormed(frames: seq<Frame>, last: Frame, k: nat)
    requires WellFormedBody(frames, last) && k <= |EncodeBody(frames, last)|
    ensures var body := EncodeBody(frames, last);
            && DecodeChunks(body[..k]).Ok?
            && var (data, cursor) := DecodeChunks(body[..k]).value;
            && (cursor <= k <==> k == |body| || k < |body| - 2)
            && (cursor <= k ==> After(data, cursor, DecodeChunks(body[cursor..])) == Ok((DataOf(frames), |body|)))
  {
    var body := EncodeBody(frames, last);
    assert body + [] == body;
    DecodeEncode(frames, last, []);
    BodyReachesLast(frames, last);
    NextAtIsSane();
    NextAtIsStable();
    assert NextAt([]).NoLine?;
    ResumeExact(NextAt, body, DataOf(frames), k);
  }
}
