/**
  Chunked requests on a connection: what the read loop makes of one that is cut anywhere, and when one
  comes out whole.
*/
module ChunkedFraming {
  import opened Wrappers
  import opened Bytes
  import opened Head
  import opened Http
  import opened Connection
  import opened Framing
  import opened Chunked

  // ----- cutting a body -----

  /** How many of the frames are complete in the first `k` bytes of the body. */
  function WholeFrames(frames: seq<Frame>, k: nat): (n: nat)
    ensures n <= |frames|
  {
    if frames == [] || k < |EncodeFrame(frames[0])| then 0 else 1 + WholeFrames(frames[1..], k - |EncodeFrame(frames[0])|)
  }

  /** What there is of the next frame. */
  function Begun(frames: seq<Frame>, last: Frame, k: nat): Bytes
    requires k <= |EncodeBody(frames, last)|
  {
    if frames == [] || k < |EncodeFrame(frames[0])| then EncodeBody(frames, last)[..k]
    else Begun(frames[1..], last, k - |EncodeFrame(frames[0])|)
  }

  /** The length of the complete frames. */
  function FramesLength(frames: seq<Frame>, k: nat): (n: nat)
    ensures n <= k
  {
    if frames == [] || k < |EncodeFrame(frames[0])| then 0
    else |EncodeFrame(frames[0])| + FramesLength(frames[1..], k - |EncodeFrame(frames[0])|)
  }

  function NextFrame(frames: seq<Frame>, last: Frame, n: nat): Frame
    requires n <= |frames|
  {
    if n < |frames| then frames[n] else last
  }

  /** The frame under way is cut short, or it is the last one and may be all there. */
  lemma {:induction false} BegunIsPart(frames: seq<Frame>, last: Frame, k: nat)
    requires k <= |EncodeBody(frames, last)|
    ensures var n, t := WholeFrames(frames, k), Begun(frames, last, k);
            var f := NextFrame(frames, last, n);
            && |t| <= |EncodeFrame(f)| && t == EncodeFrame(f)[..|t|]
            && (n < |frames| ==> |t| < |EncodeFrame(f)|)
            && (n == |frames| && |t| == |EncodeFrame(last)| <==> k == |EncodeBody(frames, last)|)
            && FramesLength(frames, k) + |t| == k && (FramesLength(frames, k) == 0 <==> n == 0)
    decreases frames
  {
    if frames != [] {
      var m := |EncodeFrame(frames[0])|;
      if k < m {
        assert EncodeBody(frames, last)[..k] == EncodeFrame(frames[0])[..k];
      } else {
        BegunIsPart(frames[1..], last, k - m);
      }
    }
  }

  lemma BodyFront(frames: seq<Frame>, last: Frame, k: nat)
    requires frames != [] && |EncodeFrame(frames[0])| <= k <= |EncodeBody(frames, last)|
    ensures EncodeBody(frames, last)[..k] == EncodeFrame(frames[0]) + EncodeBody(frames[1..], last)[..k - |EncodeFrame(frames[0])|]
  {
  }

  lemma DataFront(frames: seq<Frame>, n: nat)
    requires 0 < n <= |frames|
    ensures DataOf(frames[..n]) == frames[0].data + DataOf(frames[1..][..n - 1])
  {
    assert frames[..n][0] == frames[0] && frames[..n][1..] == frames[1..][..n - 1];
  }

  /** Decoding `whole` gives `data`, taking `used` bytes, and then what decoding `t` gives. */
  ghost predicate Leaves(decode: Decoder, whole: Bytes, data: Bytes, used: nat, t: Bytes) {
    decode(whole) == After(data, used, decode(t))
  }

  lemma LeavesBehindFrame(decode: Decoder, f: Frame, rest: Bytes, data: Bytes, used: nat, t: Bytes)
    requires FrameLaw(decode, f, rest) && f.data != [] && Leaves(decode, rest, data, used, t)
    ensures Leaves(decode, EncodeFrame(f) + rest, f.data + data, |EncodeFrame(f)| + used, t)
  {
    AfterAfter(f.data, |EncodeFrame(f)|, data, used, decode(t));
  }

  ghost predicate CutLaw(decode: Decoder, frames: seq<Frame>, last: Frame, k: nat)
    requires k <= |EncodeBody(frames, last)|
  {
    Leaves(decode, EncodeBody(frames, last)[..k], DataOf(frames[..WholeFrames(frames, k)]), FramesLength(frames, k), Begun(frames, last, k))
  }

  lemma CutBehindFrame(decode: Decoder, frames: seq<Frame>, last: Frame, k: nat)
    requires frames != [] && frames[0].data != [] && |EncodeFrame(frames[0])| <= k <= |EncodeBody(frames, last)|
    requires CutLaw(decode, frames[1..], last, k - |EncodeFrame(frames[0])|)
    requires FrameLaw(decode, frames[0], EncodeBody(frames[1..], last)[..k - |EncodeFrame(frames[0])|])
    ensures CutLaw(decode, frames, last, k)
  {
    var m := |EncodeFrame(frames[0])|;
    var t, n := Begun(frames[1..], last, k - m), WholeFrames(frames[1..], k - m);
    LeavesBehindFrame(decode, frames[0], EncodeBody(frames[1..], last)[..k - m], DataOf(frames[1..][..n]), FramesLength(frames[1..], k - m), t);
    BodyFront(frames, last, k);
    DataFront(frames, n + 1);
  }

  /** Decoding the first `k` bytes: the complete frames, then whatever the frame under way gives. */
  lemma {:induction false} WalkCut(decode: Decoder, frames: seq<Frame>, last: Frame, k: nat)
    requires WellFormedBody(frames, last) && k <= |EncodeBody(frames, last)|
    requires forall f, r | Chunked.WellFormed(f) :: FrameLaw(decode, f, r)
    ensures CutLaw(decode, frames, last, k)
    decreases frames
  {
    if frames == [] || k < |EncodeFrame(frames[0])| {
      assert frames[..0] == [];
      AfterNothing(decode(Begun(frames, last, k)));
    } else {
      var f, m := frames[0], |EncodeFrame(frames[0])|;
      assert f in frames && forall g <- frames[1..] :: g in frames;
      WalkCut(decode, frames[1..], last, k - m);
      assert FrameLaw(decode, f, EncodeBody(frames[1..], last)[..k - m]);
      CutBehindFrame(decode, frames, last, k);
    }
  }

  lemma DecodeCut(frames: seq<Frame>, last: Frame, k: nat)
    requires WellFormedBody(frames, last) && k <= |EncodeBody(frames, last)|
    ensures CutLaw(DecodeChunks, frames, last, k)
  {
    forall f, r | Chunked.WellFormed(f) ensures FrameLaw(DecodeChunks, f, r) {
      DecodeFrame(f, r);
    }
    WalkCut(DecodeChunks, frames, last, k);
  }

  lemma CutEnds(decode: Decoder, frames: seq<Frame>, last: Frame, k: nat, consumed: nat)
    requires k <= |EncodeBody(frames, last)| && CutLaw(decode, frames, last, k)
    requires decode(Begun(frames, last, k)) == Ok(([], consumed))
    ensures decode(EncodeBody(frames, last)[..k]) == Ok((DataOf(frames[..WholeFrames(frames, k)]), FramesLength(frames, k) + consumed))
  {
    AfterFrames(DataOf(frames[..WholeFrames(frames, k)]), FramesLength(frames, k), consumed);
  }

  lemma AfterFrames(data: Bytes, position: nat, consumed: nat)
    ensures After(data, position, Ok(([], consumed))) == Ok((data, position + consumed))
  {
    assert data + [] == data;
  }

  /** What stands at the front of a frame that is cut short. */
  lemma PartialFrame(f: Frame, i: nat)
    requires Chunked.WellFormed(f) && i < |EncodeFrame(f)|
    ensures var n := NextAt(EncodeFrame(f)[..i]);
            if i < |SizeLine(f)| + 2 then n.NoLine? else if f.data == [] then n == Last(|SizeLine(f)|) else n.Short?
  {
    var b, line := EncodeFrame(f), SizeLine(f);
    assert b == line + CRLF + (f.data + CRLF);
    FindLineEnd(line, f.data + CRLF);
    FindInPrefix(b, CRLF, i);
    if i >= |line| + 2 {
      assert b[..i][..|line|] == line;
      SizeTextOfLine(f);
    }
  }

  /** The size line cannot be taken for a request line, nor is it too long to be looked at. */
  predicate PlainLine(f: Frame) {
    |SizeLine(f)| <= MAX_REQUEST_LINE_SIZE && !Contains(SizeLine(f), HTTP11)
  }

  ghost predicate PlainBody(frames: seq<Frame>, last: Frame) {
    WellFormedBody(frames, last) && PlainLine(last) && forall f <- frames :: PlainLine(f)
  }

  lemma NoRequestLine(f: Frame, rest: Bytes, k: nat)
    requires Chunked.WellFormed(f) && PlainLine(f) && k <= |EncodeFrame(f) + rest|
    ensures RequestLineState((EncodeFrame(f) + rest)[..k]) == Ok(false)
    ensures forall maxBody :: var p := ParseHead((EncodeFrame(f) + rest)[..k], maxBody); p.Err? || p.value.None?
  {
    var b, line := EncodeFrame(f) + rest, SizeLine(f);
    assert b == line + CRLF + (f.data + CRLF + rest);
    FindLineEnd(line, f.data + CRLF + rest);
    FindInPrefix(b, CRLF, k);
    if |line| + 2 <= k { assert b[..k][..|line|] == line; }
  }

  lemma BodyHasNoRequestLine(frames: seq<Frame>, last: Frame, k: nat)
    requires PlainBody(frames, last) && k <= |EncodeBody(frames, last)|
    ensures RequestLineState(EncodeBody(frames, last)[..k]) == Ok(false)
  {
    if frames == [] {
      assert EncodeBody(frames, last) == EncodeFrame(last) + [];
      NoRequestLine(last, [], k);
    } else {
      assert frames[0] in frames;
      NoRequestLine(frames[0], EncodeBody(frames[1..], last), k);
    }
  }

  // ----- one read -----

  /** A request with more data. */
  function With(r: Request, data: Bytes): Request {
    r.(payload := r.payload + data)
  }

  /** The last size line is there, its end is not. */
  predicate LastBegun(frames: seq<Frame>, last: Frame, k: nat)
    requires k <= |EncodeBody(frames, last)|
  {
    WholeFrames(frames, k) == |frames| && |Begun(frames, last, k)| >= |SizeLine(last)| + 2
  }

  /** How the inner loop ends on the first `k` bytes of a body, behind the request `r` it belongs to. */
  ghost function CutEnding(frames: seq<Frame>, last: Frame, k: nat, acc: seq<Request>, r: Request): Outcome
    requires k <= |EncodeBody(frames, last)|
  {
    var n, t := WholeFrames(frames, k), Begun(frames, last, k);
    var got := acc + [With(r, DataOf(frames[..n]))];
    if t == [] || k == |EncodeBody(frames, last)| then Waiting([], got)
    else if LastBegun(frames, last, k) then Panicked
    else Spinning(Loop(t, true, got))
  }

  lemma CollectData(acc: seq<Request>, r: Request, data: Bytes)
    requires r.metadata.Some?
    ensures Collect(acc + [r], Request(None, data)) == acc + [With(r, data)]
    ensures With(r, []) == r
  {
    assert r.payload + [] == r.payload;
  }

  lemma SpinsOn(t: Bytes, acc: seq<Request>, maxBody: nat)
    requires t != [] && RequestLineState(t) == Ok(false) && Unusable(NextAt(t))
    ensures Drain(Loop(t, true, acc), maxBody) == Spinning(Loop(t, true, acc))
  {
    SpinsAtUnusableFront(t, acc, maxBody);
  }

  /** The frame under way: nothing there, nothing usable, or the last chunk without its end. */
  lemma BegunDecodes(frames: seq<Frame>, last: Frame, k: nat)
    requires PlainBody(frames, last) && k < |EncodeBody(frames, last)|
    ensures var n, t := WholeFrames(frames, k), Begun(frames, last, k);
            && RequestLineState(t) == Ok(false)
            && if LastBegun(frames, last, k)
               then DecodeChunks(t) == Ok(([], |SizeLine(last)| + 4)) && |t| < |SizeLine(last)| + 4
               else Unusable(NextAt(t)) && DecodeChunks(t) == Ok(([], 0))
  {
    BegunIsPart(frames, last, k);
    var n, t := WholeFrames(frames, k), Begun(frames, last, k);
    var f := NextFrame(frames, last, n);
    assert n < |frames| ==> f in frames;
    PartialFrame(f, |t|);
    assert EncodeFrame(f) == EncodeFrame(f) + [];
    NoRequestLine(f, [], |t|);
    ChunksWithoutProgress(t);
    NextAtIsSane();
  }

  /** A pass over chunks that takes some of them, or runs over. */
  lemma ChunkPass(b: Bytes, data: Bytes, consumed: nat, acc: seq<Request>, r: Request, maxBody: nat)
    requires b != [] && RequestLineState(b) == Ok(false) && DecodeChunks(b) == Ok((data, consumed)) && r.metadata.Some?
    ensures PassOf(Loop(b, true, acc + [r]), maxBody) ==
            if consumed > |b| then Overrun else Again(Loop(b[consumed..], true, acc + [With(r, data)]))
  {
    CollectData(acc, r, data);
  }

  /** How far behind the complete frames the cursor gets. */
  function Overreach(frames: seq<Frame>, last: Frame, k: nat): nat
    requires k <= |EncodeBody(frames, last)|
  {
    if LastBegun(frames, last, k) then |SizeLine(last)| + 4 else 0
  }

  lemma BegunValue(frames: seq<Frame>, last: Frame, k: nat)
    requires PlainBody(frames, last) && k < |EncodeBody(frames, last)|
    ensures DecodeChunks(Begun(frames, last, k)) == Ok(([], Overreach(frames, last, k)))
  {
    BegunDecodes(frames, last, k);
  }

  /** What decoding the first `k` bytes of a body comes to. */
  lemma CutDecodes(frames: seq<Frame>, last: Frame, k: nat)
    requires PlainBody(frames, last) && k < |EncodeBody(frames, last)|
    ensures DecodeChunks(EncodeBody(frames, last)[..k]) ==
            Ok((DataOf(frames[..WholeFrames(frames, k)]), FramesLength(frames, k) + Overreach(frames, last, k)))
  {
    CutFacts(DecodeChunks, frames, last, k);
    CutEnds(DecodeChunks, frames, last, k, Overreach(frames, last, k));
  }

  lemma CutFacts(decode: Decoder, frames: seq<Frame>, last: Frame, k: nat)
    requires PlainBody(frames, last) && k < |EncodeBody(frames, last)| && decode == DecodeChunks
    ensures CutLaw(decode, frames, last, k) && decode(Begun(frames, last, k)) == Ok(([], Overreach(frames, last, k)))
  {
    BegunValue(frames, last, k);
    DecodeCut(frames, last, k);
  }

  lemma CutConsumed(frames: seq<Frame>, last: Frame, k: nat)
    requires PlainBody(frames, last) && k < |EncodeBody(frames, last)|
    ensures FramesLength(frames, k) + Overreach(frames, last, k) > k <==> LastBegun(frames, last, k)
    ensures !LastBegun(frames, last, k) ==> Overreach(frames, last, k) == 0
  {
    BegunIsPart(frames, last, k);
    LastCutShort(frames, last, k);
  }

  /** The one pass over what there is of a body. */
  lemma CutPass(frames: seq<Frame>, last: Frame, k: nat, b: Bytes, acc: seq<Request>, r: Request, maxBody: nat)
    requires PlainBody(frames, last) && 0 < k < |EncodeBody(frames, last)| && r.metadata.Some?
    requires b == EncodeBody(frames, last)[..k]
    ensures PassOf(Loop(b, true, acc + [r]), maxBody) ==
            if LastBegun(frames, last, k) then Overrun
            else Again(Loop(b[FramesLength(frames, k)..], true, acc + [With(r, DataOf(frames[..WholeFrames(frames, k)]))]))
  {
    BodyHasNoRequestLine(frames, last, k);
    CutDecodes(frames, last, k);
    CutConsumed(frames, last, k);
    ChunkPass(b, DataOf(frames[..WholeFrames(frames, k)]), FramesLength(frames, k) + Overreach(frames, last, k), acc, r, maxBody);
  }

  lemma DrainBodyCut(frames: seq<Frame>, last: Frame, k: nat, acc: seq<Request>, r: Request, maxBody: nat)
    requires PlainBody(frames, last) && 0 < k < |EncodeBody(frames, last)| && r.metadata.Some?
    ensures Drain(Loop(EncodeBody(frames, last)[..k], true, acc + [r]), maxBody) == CutEnding(frames, last, k, acc, r)
  {
    CutPass(frames, last, k, EncodeBody(frames, last)[..k], acc, r, maxBody);
    BegunBehind(frames, last, k);
    BegunIsPart(frames, last, k);
    if !LastBegun(frames, last, k) {
      if WholeFrames(frames, k) == 0 {
        NothingTaken(frames, last, k, acc, r);
      }
      DrainBegun(frames, last, k, acc, r, maxBody);
    }
  }

  lemma NothingTaken(frames: seq<Frame>, last: Frame, k: nat, acc: seq<Request>, r: Request)
    requires k <= |EncodeBody(frames, last)| && WholeFrames(frames, k) == 0
    ensures Begun(frames, last, k) == EncodeBody(frames, last)[..k] && acc + [With(r, DataOf(frames[..0]))] == acc + [r]
  {
    assert frames[..0] == [] && r.payload + [] == r.payload;
  }

  lemma LastCutShort(frames: seq<Frame>, last: Frame, k: nat)
    requires PlainBody(frames, last) && k < |EncodeBody(frames, last)|
    ensures LastBegun(frames, last, k) ==> |Begun(frames, last, k)| < |SizeLine(last)| + 4
  {
    BegunIsPart(frames, last, k);
  }

  lemma DrainBegun(frames: seq<Frame>, last: Frame, k: nat, acc: seq<Request>, r: Request, maxBody: nat)
    requires PlainBody(frames, last) && k < |EncodeBody(frames, last)| && r.metadata.Some?
    requires !LastBegun(frames, last, k)
    ensures var got := acc + [With(r, DataOf(frames[..WholeFrames(frames, k)]))];
            Drain(Loop(Begun(frames, last, k), true, got), maxBody) == CutEnding(frames, last, k, acc, r)
  {
    var t := Begun(frames, last, k);
    BegunDecodes(frames, last, k);
    if t != [] {
      SpinsOn(t, acc + [With(r, DataOf(frames[..WholeFrames(frames, k)]))], maxBody);
    }
  }

  lemma {:induction false} BegunBehind(frames: seq<Frame>, last: Frame, k: nat)
    requires k <= |EncodeBody(frames, last)|
    ensures EncodeBody(frames, last)[..k][FramesLength(frames, k)..] == Begun(frames, last, k)
    decreases frames
  {
    if frames != [] && k >= |EncodeFrame(frames[0])| {
      var m := |EncodeFrame(frames[0])|;
      BegunBehind(frames[1..], last, k - m);
      assert EncodeBody(frames, last)[..k] == EncodeFrame(frames[0]) + EncodeBody(frames[1..], last)[..k - m];
    }
  }

  // ----- the head in front -----

  /** A head without a body that announces a chunked one in the exact letters of the marker. */
  predicate AnnouncesChunks(head: Bytes, maxBody: nat) {
    var p := ParseHttp(head, true, maxBody);
    HeadBearing(p) && p.value.value.1 == |head| && Contains(head, MARKER)
  }

  /** What is parsed of the head alone. */
  function HeadRequest(head: Bytes, maxBody: nat): (r: Request)
    requires AnnouncesChunks(head, maxBody)
    ensures r.metadata.Some?
  {
    ParseHttp(head, true, maxBody).value.value.0
  }

  /** Where the request line's CRLF ends. */
  function LineEnd(head: Bytes): nat {
    Find(head, CRLF).GetOr(|head|) + 2
  }

  lemma DrainHead(head: Bytes, rest: Bytes, chunked: bool, acc: seq<Request>, maxBody: nat)
    requires AnnouncesChunks(head, maxBody)
    ensures Drain(Loop(head + rest, chunked, acc), maxBody) == Drain(Loop(rest, true, acc + [HeadRequest(head, maxBody)]), maxBody)
  {
    var b := head + rest;
    ParseIsStable(head, rest, true, true, maxBody);
    FindInPrefix(b, MARKER, |head|);
    assert b[..|head|] == head && b[|head|..] == rest;
  }

  /** A head that is not all there. */
  lemma ParseHeadCut(head: Bytes, k: nat, maxBody: nat)
    requires AnnouncesChunks(head, maxBody) && LineEnd(head) <= k < |head|
    ensures RequestLineState(head[..k]) == Ok(true) && ParseHeadAndBody(head[..k], maxBody) == Ok(None)
  {
    HeadBearingMeans(head, true, maxBody);
    LineInPrefix(head, k);
    HeadInPrefix(head, k, maxBody);
    if ParseHead(head, maxBody).value.value.bodyStart > k {
      HeadCutShort(head, k, maxBody);
    }
  }

  lemma DrainHeadCut(head: Bytes, k: nat, chunked: bool, acc: seq<Request>, maxBody: nat)
    requires AnnouncesChunks(head, maxBody) && 0 < k < |head|
    ensures var b := head[..k];
            Drain(Loop(b, chunked, acc), maxBody) ==
            if k >= LineEnd(head) then Waiting(b, acc)
            else if chunked || Contains(b, MARKER) then Spinning(Loop(b, true, acc))
            else Failed(RequestLineMalformed, acc)
  {
    var b := head[..k];
    HeadBearingMeans(head, true, maxBody);
    if k >= LineEnd(head) {
      ParseHeadCut(head, k, maxBody);
    } else {
      FindInPrefix(head, CRLF, k);
      assert RequestLineState(b) == Ok(false) && NextAt(b).NoLine?;
      NoProgress(Loop(b, chunked, acc), maxBody);
    }
  }

  /** How the inner loop ends on the first `k` bytes of a chunked request, wherever it is cut. */
  ghost function ChunkedEnding(head: Bytes, frames: seq<Frame>, last: Frame, k: nat, chunked: bool, acc: seq<Request>, maxBody: nat): Outcome
    requires AnnouncesChunks(head, maxBody) && k <= |head| + |EncodeBody(frames, last)|
  {
    if k == 0 then Waiting([], acc)
    else if k >= |head| then CutEnding(frames, last, k - |head|, acc, HeadRequest(head, maxBody))
    else if k >= LineEnd(head) then Waiting(head[..k], acc)
    else if chunked || Contains(head[..k], MARKER) then Spinning(Loop(head[..k], true, acc))
    else Failed(RequestLineMalformed, acc)
  }

  lemma DrainWholeBody(frames: seq<Frame>, last: Frame, acc: seq<Request>, r: Request, maxBody: nat)
    requires PlainBody(frames, last) && r.metadata.Some?
    ensures Drain(Loop(EncodeBody(frames, last), true, acc + [r]), maxBody) == Waiting([], acc + [With(r, DataOf(frames))])
  {
    var body := EncodeBody(frames, last);
    assert body == body + [] == body[..|body|];
    EncodedNonEmpty(frames, last);
    DecodeEncode(frames, last, []);
    BodyHasNoRequestLine(frames, last, |body|);
    ChunkPass(body, DataOf(frames), |body|, acc, r, maxBody);
  }

  lemma {:induction false} CutEndingWhole(frames: seq<Frame>, last: Frame, acc: seq<Request>, r: Request)
    ensures CutEnding(frames, last, |EncodeBody(frames, last)|, acc, r) == Waiting([], acc + [With(r, DataOf(frames))])
  {
    BegunIsPart(frames, last, |EncodeBody(frames, last)|);
    assert frames[..|frames|] == frames;
  }

  lemma CutEndingNone(frames: seq<Frame>, last: Frame, acc: seq<Request>, r: Request)
    ensures CutEnding(frames, last, 0, acc, r) == Waiting([], acc + [r])
  {
    BegunIsPart(frames, last, 0);
    assert frames[..0] == [] && r.payload + [] == r.payload;
  }

  /** Behind the head: wherever the body is cut. */
  lemma DrainBody(frames: seq<Frame>, last: Frame, k: nat, acc: seq<Request>, r: Request, maxBody: nat)
    requires PlainBody(frames, last) && k <= |EncodeBody(frames, last)| && r.metadata.Some?
    ensures Drain(Loop(EncodeBody(frames, last)[..k], true, acc + [r]), maxBody) == CutEnding(frames, last, k, acc, r)
  {
    var body := EncodeBody(frames, last);
    if k == 0 {
      CutEndingNone(frames, last, acc, r);
    } else if k == |body| {
      assert body[..k] == body;
      DrainWholeBody(frames, last, acc, r, maxBody);
      CutEndingWhole(frames, last, acc, r);
    } else {
      DrainBodyCut(frames, last, k, acc, r, maxBody);
    }
  }

  /**
    A chunked request cut anywhere, in one read: the whole of it; the request with the data so far, at a
    frame boundary; a loop that spins, inside a frame or inside the request line with the marker in
    sight; a panic, behind the last size line; an error, inside the request line; or more bytes awaited.
  */
  lemma DrainAnyCut(head: Bytes, frames: seq<Frame>, last: Frame, k: nat, chunked: bool, acc: seq<Request>, maxBody: nat)
    requires AnnouncesChunks(head, maxBody) && PlainBody(frames, last) && k <= |head| + |EncodeBody(frames, last)|
    ensures Drain(Loop((head + EncodeBody(frames, last))[..k], chunked, acc), maxBody) ==
            ChunkedEnding(head, frames, last, k, chunked, acc, maxBody)
  {
    var b := head + EncodeBody(frames, last);
    if k >= |head| {
      assert b[..k] == head + EncodeBody(frames, last)[..k - |head|];
      DrainHead(head, EncodeBody(frames, last)[..k - |head|], chunked, acc, maxBody);
      DrainBody(frames, last, k - |head|, acc, HeadRequest(head, maxBody), maxBody);
    } else if k > 0 {
      assert b[..k] == head[..k];
      DrainHeadCut(head, k, chunked, acc, maxBody);
    }
  }

  /** The data so far is all the data only when every frame is complete. */
  lemma {:induction false} DataIsLess(frames: seq<Frame>, n: nat)
    requires n <= |frames| && forall f <- frames :: f.data != []
    ensures |DataOf(frames[..n])| <= |DataOf(frames)| && (|DataOf(frames[..n])| == |DataOf(frames)| <==> n == |frames|)
  {
    if n == 0 {
      if frames != [] { assert frames[0] in frames; }
    } else {
      assert frames[0] in frames && forall f <- frames[1..] :: f in frames;
      DataIsLess(frames[1..], n - 1);
      DataFront(frames, n);
    }
  }

  /** The cuts of the body at which nothing is missing from the data. */
  predicate DataComplete(frames: seq<Frame>, last: Frame, k: nat)
    requires k <= |EncodeBody(frames, last)|
  {
    k == |EncodeBody(frames, last)| || (WholeFrames(frames, k) == |frames| && Begun(frames, last, k) == [])
  }

  lemma LessData(r: Request, frames: seq<Frame>, n: nat)
    requires n <= |frames| && forall f <- frames :: f.data != []
    ensures [] + [With(r, DataOf(frames[..n]))] == [With(r, DataOf(frames))] <==> n == |frames|
  {
    DataIsLess(frames, n);
    assert frames[..|frames|] == frames;
    if n < |frames| {
      assert |With(r, DataOf(frames[..n])).payload| < |With(r, DataOf(frames)).payload|;
      assert ([] + [With(r, DataOf(frames[..n]))])[0] != [With(r, DataOf(frames))][0];
    }
  }

  lemma CutEndingIff(frames: seq<Frame>, last: Frame, k: nat, r: Request)
    requires PlainBody(frames, last) && k <= |EncodeBody(frames, last)|
    ensures CutEnding(frames, last, k, [], r) == Waiting([], [With(r, DataOf(frames))]) <==> DataComplete(frames, last, k)
  {
    BegunIsPart(frames, last, k);
    LessData(r, frames, WholeFrames(frames, k));
  }

  /** A read that brings in the first `k` bytes gives the whole request, and keeps nothing, exactly when they hold all the data. */
  lemma ChunkedInOneRead(head: Bytes, frames: seq<Frame>, last: Frame, k: nat, chunked: bool, maxBody: nat)
    requires AnnouncesChunks(head, maxBody) && PlainBody(frames, last) && k <= |head| + |EncodeBody(frames, last)|
    ensures Drain(Loop((head + EncodeBody(frames, last))[..k], chunked, []), maxBody) ==
            Waiting([], [With(HeadRequest(head, maxBody), DataOf(frames))]) <==>
            k >= |head| && DataComplete(frames, last, k - |head|)
  {
    DrainAnyCut(head, frames, last, k, chunked, [], maxBody);
    HeadIsSome(head, maxBody);
    if k >= |head| {
      CutEndingIff(frames, last, k - |head|, HeadRequest(head, maxBody));
    }
  }

  lemma HeadIsSome(head: Bytes, maxBody: nat)
    requires AnnouncesChunks(head, maxBody)
    ensures |head| > 0 && LineEnd(head) <= |head|
  {
    ParseIsStable(head, [], true, true, maxBody);
    HeadBearingMeans(head, true, maxBody);
  }

  lemma FrontOfBody(frames: seq<Frame>, last: Frame, rest: Bytes)
    requires PlainBody(frames, last)
    ensures RequestLineState(EncodeBody(frames, last) + rest) == Ok(false)
  {
    var f, behind := if frames == [] then last else frames[0], if frames == [] then rest else EncodeBody(frames[1..], last) + rest;
    assert frames != [] ==> frames[0] in frames;
    var b := EncodeFrame(f) + behind;
    assert EncodeBody(frames, last) + rest == b == b[..|b|];
    NoRequestLine(f, behind, |b|);
  }

  /** What follows a whole chunked request in the same buffer is parsed with the flag up. */
  lemma ChunkedThenRest(head: Bytes, frames: seq<Frame>, last: Frame, rest: Bytes, acc: seq<Request>, chunked: bool, maxBody: nat)
    requires AnnouncesChunks(head, maxBody) && PlainBody(frames, last)
    ensures Drain(Loop(head + (EncodeBody(frames, last) + rest), chunked, acc), maxBody) ==
            Drain(Loop(rest, true, acc + [With(HeadRequest(head, maxBody), DataOf(frames))]), maxBody)
  {
    var body, r := EncodeBody(frames, last), HeadRequest(head, maxBody);
    DrainHead(head, body + rest, chunked, acc, maxBody);
    EncodedNonEmpty(frames, last);
    DecodeEncode(frames, last, rest);
    FrontOfBody(frames, last, rest);
    ChunkPass(body + rest, DataOf(frames), |body|, acc, r, maxBody);
    assert (body + rest)[|body|..] == rest;
  }
}
