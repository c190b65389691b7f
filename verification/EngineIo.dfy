/**
  Engine.IO packets and long-polling payloads (engine/src/core/socketio/engine_io.rs; the client's
  copy in rpress-client/src/engine_io.rs has the same packet codec).
*/
module EngineIo {
  import opened Wrappers

  /** The record separator, U+001E. */
  const RECORD_SEPARATOR: char := '\U{1e}'

  datatype EioPacketType = Open | Close | Ping | Pong | Message | Upgrade | Noop

  datatype EioPacket = EioPacket(packetType: EioPacketType, data: Option<string>)

  /** The type's number on the wire and in cluster messages. */
  function TypeNumber(t: EioPacketType): nat {
    match t
    case Open => 0
    case Close => 1
    case Ping => 2
    case Pong => 3
    case Message => 4
    case Upgrade => 5
    case Noop => 6
  }

  function FromByte(b: int): Option<EioPacketType> {
    match b
    case 48 => Some(Open)
    case 49 => Some(Close)
    case 50 => Some(Ping)
    case 51 => Some(Pong)
    case 52 => Some(Message)
    case 53 => Some(Upgrade)
    case 54 => Some(Noop)
    case _ => None
  }

  function AsChar(t: EioPacketType): char {
    (48 + TypeNumber(t)) as char
  }

  /** A type survives the trip through its byte. */
  lemma TypeRoundTrip(t: EioPacketType)
    ensures FromByte(TypeNumber(t) + 48) == Some(t)
    ensures FromByte(AsChar(t) as int) == Some(t)
  {
  }

  /** The digits of the protocol. */
  lemma TypeDigits()
    ensures AsChar(Open) == '0' && AsChar(Close) == '1' && AsChar(Ping) == '2' && AsChar(Pong) == '3'
    ensures AsChar(Message) == '4' && AsChar(Upgrade) == '5' && AsChar(Noop) == '6'
    ensures forall b: int :: FromByte(b).Some? <==> '0' as int <= b <= '6' as int
  {
  }

  function Encode(p: EioPacket): string {
    [AsChar(p.packetType)] + if p.data.Some? then p.data.value else ""
  }

  /** A first character outside '0'..'6', ASCII or not, is no packet type. */
  function Decode(input: string): Option<EioPacket> {
    if |input| == 0 then None
    else
      match FromByte(input[0] as int)
      case None => None
      case Some(t) => Some(EioPacket(t, if |input| > 1 then Some(input[1..]) else None))
  }

  /** Exactly the packets without an empty payload survive. */
  lemma PacketRoundTrip(p: EioPacket)
    ensures Decode(Encode(p)) == Some(p) <==> p.data != Some("")
  {
    TypeRoundTrip(p.packetType);
    if p.data.Some? {
      assert Encode(p)[1..] == p.data.value;
    }
  }

  /** Whatever decodes is the encoding of what it decodes to: the wire form is canonical. */
  lemma DecodeIsCanonical(input: string)
    ensures Decode(input).Some? ==> Encode(Decode(input).value) == input && Decode(input).value.data != Some("")
  {
    if Decode(input).Some? {
      assert input == [input[0]] + input[1..];
    }
  }

  function FirstIndex(s: string, c: char): (i: nat)
    requires c in s
    ensures i < |s| && s[i] == c && forall j :: 0 <= j < i ==> s[j] != c
  {
    if s[0] == c then 0 else 1 + FirstIndex(s[1..], c)
  }

  function Split(s: string): (parts: seq<string>)
    ensures |parts| > 0 && forall p <- parts :: RECORD_SEPARATOR !in p
    decreases |s|
  {
    if RECORD_SEPARATOR !in s then [s]
    else
      var i := FirstIndex(s, RECORD_SEPARATOR);
      [s[..i]] + Split(s[i + 1..])
  }

  function Join(parts: seq<string>): string {
    if |parts| == 0 then ""
    else if |parts| == 1 then parts[0]
    else parts[0] + [RECORD_SEPARATOR] + Join(parts[1..])
  }

  function EncodeAll(ps: seq<EioPacket>): (parts: seq<string>)
    ensures |parts| == |ps| && forall i :: 0 <= i < |ps| ==> parts[i] == Encode(ps[i])
  {
    seq(|ps|, i requires 0 <= i < |ps| => Encode(ps[i]))
  }

  /** `filter_map(decode)`: parts that are no packet are skipped. */
  function DecodeAll(parts: seq<string>): seq<EioPacket> {
    if |parts| == 0 then []
    else (match Decode(parts[0]) case Some(p) => [p] case None => []) + DecodeAll(parts[1..])
  }

  function EncodePollingPayload(ps: seq<EioPacket>): string {
    Join(EncodeAll(ps))
  }

  function DecodePollingPayload(input: string): seq<EioPacket> {
    DecodeAll(Split(input))
  }

  /** Exactly an empty part and one that does not begin with a type's digit are no packet. */
  lemma NoPacketIff(input: string)
    ensures Decode(input).None? <==> input == "" || input[0] !in "0123456"
  {
  }

  /** A part that is no packet is passed over, and so loses none of the others. */
  lemma {:induction false} OtherPartsAreSkipped(before: seq<string>, part: string, behind: seq<string>)
    requires part == "" || part[0] !in "0123456"
    ensures DecodeAll(before + [part] + behind) == DecodeAll(before + behind)
  {
    if before == [] {
      assert ([part] + behind)[1..] == behind;
      assert [] + [part] + behind == [part] + behind && [] + behind == behind;
    } else {
      OtherPartsAreSkipped(before[1..], part, behind);
      assert (before + [part] + behind)[1..] == before[1..] + [part] + behind;
      assert (before + behind)[1..] == before[1..] + behind;
    }
  }

  lemma {:induction false} SplitJoin(parts: seq<string>)
    requires |parts| > 0 && forall p <- parts :: RECORD_SEPARATOR !in p
    ensures Split(Join(parts)) == parts
  {
    if |parts| > 1 {
      var head, tail := parts[0], Join(parts[1..]);
      var s := Join(parts);
      assert head in parts && s == head + [RECORD_SEPARATOR] + tail;
      assert s[|head|] == RECORD_SEPARATOR && s[..|head|] == head;
      assert FirstIndex(s, RECORD_SEPARATOR) == |head|;
      assert s[|head| + 1..] == tail;
      SplitJoin(parts[1..]);
    }
  }

  /** A packet the payload form can carry: non-empty data without a record separator, or none. */
  predicate Carriable(p: EioPacket) {
    p.data.Some? ==> p.data.value != "" && '\U{1e}' !in p.data.value
  }

  lemma {:induction false} DecodeEncodeAll(ps: seq<EioPacket>)
    requires forall p <- ps :: Carriable(p)
    ensures DecodeAll(EncodeAll(ps)) == ps
  {
    if |ps| > 0 {
      assert ps[0] in ps && ps == [ps[0]] + ps[1..];
      PacketRoundTrip(ps[0]);
      assert Carriable(ps[0]) && EncodeAll(ps)[0] == Encode(ps[0]);
      assert EncodeAll(ps)[1..] == EncodeAll(ps[1..]);
      DecodeEncodeAll(ps[1..]);
    }
  }

  lemma {:induction false} DecodedAreCarriable(parts: seq<string>)
    requires forall s <- parts :: RECORD_SEPARATOR !in s
    ensures forall p <- DecodeAll(parts) :: Carriable(p)
  {
    if |parts| > 0 {
      DecodeIsCanonical(parts[0]);
      DecodedAreCarriable(parts[1..]);
      assert parts[0] in parts;
      if |parts[0]| > 0 {
        assert parts[0] == [parts[0][0]] + parts[0][1..];
      }
    }
  }

  /** A batch, the empty one included, survives the payload form exactly when every packet in it is carriable. */
  lemma PayloadRoundTrip(ps: seq<EioPacket>)
    ensures DecodePollingPayload(EncodePollingPayload(ps)) == ps <==> forall p <- ps :: Carriable(p)
  {
    if forall p <- ps :: Carriable(p) {
      if |ps| == 0 {
        assert DecodeAll([""]) == [];
      } else {
        forall part | part in EncodeAll(ps) ensures RECORD_SEPARATOR !in part {
          var i :| 0 <= i < |ps| && part == Encode(ps[i]);
          assert Carriable(ps[i]);
        }
        SplitJoin(EncodeAll(ps));
        DecodeEncodeAll(ps);
      }
    } else {
      DecodedAreCarriable(Split(EncodePollingPayload(ps)));
    }
  }

  /** The payload on the wire: each packet's digit and data, with U+001E between two packets. */
  lemma {:induction false} PayloadOnWire(p: EioPacket, ps: seq<EioPacket>)
    ensures EncodePollingPayload([p]) == Encode(p) == [AsChar(p.packetType)] + p.data.GetOr("")
    ensures ps != [] ==> EncodePollingPayload([p] + ps) == Encode(p) + "\U{1e}" + EncodePollingPayload(ps)
  {
    assert EncodeAll([p]) == [Encode(p)];
    if ps != [] {
      assert EncodeAll([p] + ps)[1..] == EncodeAll(ps);
    }
  }
}
