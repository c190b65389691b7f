/**
  Socket.IO packets (engine/src/core/socketio/socket_io.rs). The client's copy of the codec
  (rpress-client/src/socket_io.rs) is the same code, so one model stands for both ends.

  JSON is printed and parsed by functions that are passed in. Positions are character positions: the
  source mixes them with byte positions, which agree as long as the part before the data is ASCII.
*/
module SocketIo {
  import opened Wrappers
  import opened EngineIo
  import Bytes

  datatype SioPacketType = Connect | Disconnect | Event | Ack | ConnectError | BinaryEvent | BinaryAck

  datatype SioPacket<T> = SioPacket(packetType: SioPacketType, namespace: string, data: Option<T>, id: Option<nat>, attachments: nat)

  function TypeNumber(t: SioPacketType): nat {
    match t
    case Connect => 0
    case Disconnect => 1
    case Event => 2
    case Ack => 3
    case ConnectError => 4
    case BinaryEvent => 5
    case BinaryAck => 6
  }

  function FromByte(b: int): Option<SioPacketType> {
    match b
    case 48 => Some(Connect)
    case 49 => Some(Disconnect)
    case 50 => Some(Event)
    case 51 => Some(Ack)
    case 52 => Some(ConnectError)
    case 53 => Some(BinaryEvent)
    case 54 => Some(BinaryAck)
    case _ => None
  }

  predicate Binary(t: SioPacketType) {
    t.BinaryEvent? || t.BinaryAck?
  }

  // ----- decimal numbers -----

  predicate IsDigit(c: char) {
    '0' <= c <= '9'
  }

  predicate Digits(s: string) {
    forall c <- s :: IsDigit(c)
  }

  function AsBytes(s: string): (b: Bytes.Bytes)
    requires Digits(s)
    ensures |b| == |s|
  {
    seq(|s|, i requires 0 <= i < |s| => assert s[i] in s; s[i] as Bytes.byte)
  }

  /** `to_string` of an unsigned number. */
  function Decimal(n: nat): (s: string)
    ensures s != ""
  {
    var b := Bytes.Print(n, 10);
    seq(|b|, i requires 0 <= i < |b| => b[i] as char)
  }

  /** `parse().unwrap_or(0)` on a run of digits. */
  function NumberOrZero(s: string): nat
    requires Digits(s)
  {
    Bytes.ParseUnsigned(AsBytes(s), 10).GetOr(0)
  }

  lemma DecimalRoundTrip(n: nat)
    requires n < Bytes.USIZE_LIMIT
    ensures Digits(Decimal(n)) && NumberOrZero(Decimal(n)) == n
  {
    Bytes.ParsePrint(n, 10);
    var b, s := Bytes.Print(n, 10), Decimal(n);
    forall c <- s ensures IsDigit(c) {
      var i :| 0 <= i < |s| && s[i] == c;
      assert b[i] in b && Bytes.DigitOf(b[i], 10).Some?;
    }
    assert AsBytes(s) == b;
  }

  // ----- the codec -----

  function Encode<T>(p: SioPacket<T>, show: T -> string): string {
    [(48 + TypeNumber(p.packetType)) as char]
    + (if p.attachments > 0 then Decimal(p.attachments) + "-" else "")
    + (if p.namespace != "/" then p.namespace + "," else "")
    + (if p.id.Some? then Decimal(p.id.value) else "")
    + (if p.data.Some? then show(p.data.value) else "")
  }

  /** The digits of the protocol. */
  lemma TypeDigits(t: SioPacketType)
    ensures (48 + TypeNumber(t)) as char ==
            match t
            case Connect => '0'
            case Disconnect => '1'
            case Event => '2'
            case Ack => '3'
            case ConnectError => '4'
            case BinaryEvent => '5'
            case BinaryAck => '6'
    ensures forall b: int :: FromByte(b).Some? <==> '0' as int <= b <= '6' as int
  {
  }

  /** The text of an unsigned number: its shortest decimal numeral. */
  predicate DecimalText(s: string, n: nat) {
    s != "" && (forall c <- s :: c in "0123456789") && (s[0] == '0' ==> s == "0") && NumberOfText(s) == n
  }

  function NumberOfText(s: string): nat {
    if s == "" then 0 else NumberOfText(s[..|s| - 1]) * 10 + (if s[|s| - 1] in "0123456789" then s[|s| - 1] as int - '0' as int else 0)
  }

  lemma {:induction false} PrintedText(b: Bytes.Bytes, s: string)
    requires |b| == |s| && (forall i :: 0 <= i < |b| ==> s[i] == b[i] as char) && Bytes.DigitsValue(b, 10).Some?
    ensures NumberOfText(s) == Bytes.DigitsValue(b, 10).value && forall c <- s :: c in "0123456789"
  {
    if b != [] {
      PrintedText(b[..|b| - 1], s[..|s| - 1]);
      assert s == s[..|s| - 1] + [s[|s| - 1]];
    }
  }

  lemma {:induction false} TextOfDigits(s: string)
    requires Digits(s)
    ensures Bytes.DigitsValue(AsBytes(s), 10) == Some(NumberOfText(s))
  {
    if s != "" {
      var n := |s| - 1;
      assert s[n] in s && forall c <- s[..n] :: c in s;
      assert AsBytes(s)[..n] == AsBytes(s[..n]);
      TextOfDigits(s[..n]);
      assert s[n] in "0123456789";
    }
  }

  /** A run of digits is read as its value, or as 0 if that takes more than 64 bits. */
  lemma NumberIs(s: string)
    requires Digits(s)
    ensures NumberOrZero(s) == if NumberOfText(s) < 0x1_0000_0000_0000_0000 then NumberOfText(s) else 0
  {
    TextOfDigits(s);
    if s != "" {
      assert s[0] in s && AsBytes(s)[0] as char == s[0];
    }
  }

  lemma DecimalIs(n: nat)
    ensures DecimalText(Decimal(n), n)
  {
    Bytes.DigitsOfPrint(n, 10);
    Bytes.PrintIsShortest(n, 10);
    PrintedText(Bytes.Print(n, 10), Decimal(n));
  }

  /** The packet on the wire: digit, attachments, namespace, id and data, each only where there is something to say. */
  lemma PacketOnWire<T>(p: SioPacket<T>, show: T -> string) returns (attachments: string, id: string)
    ensures DecimalText(attachments, p.attachments) && (p.id.Some? ==> DecimalText(id, p.id.value))
    ensures Encode(p, show) ==
            [(48 + TypeNumber(p.packetType)) as char]
            + (if p.attachments > 0 then attachments + "-" else "")
            + (if p.namespace == "/" then "" else p.namespace + ",")
            + (if p.id.Some? then id else "")
            + (match p.data case Some(value) => show(value) case None => "")
  {
    attachments, id := Decimal(p.attachments), Decimal(p.id.GetOr(0));
    DecimalIs(p.attachments);
    DecimalIs(p.id.GetOr(0));
  }

  /** Where a run of digits from `pos` on ends. */
  function DigitsEnd(s: string, pos: nat): (end: nat)
    requires pos <= |s|
    ensures pos <= end <= |s| && Digits(s[pos..end]) && (end < |s| ==> !IsDigit(s[end]))
    decreases |s| - pos
  {
    if pos < |s| && IsDigit(s[pos]) then
      var end := DigitsEnd(s, pos + 1);
      assert s[pos..end] == [s[pos]] + s[pos + 1..end];
      end
    else pos
  }

  function CommaFrom(s: string, pos: nat): (end: nat)
    requires pos <= |s|
    ensures pos <= end <= |s| && ',' !in s[pos..end] && (end < |s| ==> s[end] == ',')
    decreases |s| - pos
  {
    if pos < |s| && s[pos] != ',' then
      var end := CommaFrom(s, pos + 1);
      assert s[pos..end] == [s[pos]] + s[pos + 1..end];
      end
    else pos
  }

  /** The attachment count, and where the rest starts: behind the digits even if no dash follows. */
  function DecodeAttachments(s: string, t: SioPacketType): (r: (nat, nat))
    requires |s| >= 1
    ensures 1 <= r.1 <= |s|
  {
    if !Binary(t) then (0, 1)
    else
      var end := DigitsEnd(s, 1);
      if end < |s| && s[end] == '-' then (NumberOrZero(s[1..end]), end + 1) else (0, end)
  }

  function DecodeNamespace(s: string, pos: nat): (r: (string, nat))
    requires pos <= |s|
    ensures pos <= r.1 <= |s|
    ensures |r.0| >= 1 && r.0[0] == '/' && ',' !in r.0
  {
    if pos < |s| && s[pos] == '/' then
      var end := CommaFrom(s, pos);
      (s[pos..end], if end < |s| then end + 1 else end)
    else ("/", pos)
  }

  predicate StartsData(c: char) {
    c == '[' || c == '{'
  }

  function DecodeId(s: string, pos: nat): (r: (Option<nat>, nat))
    requires pos <= |s|
    ensures pos <= r.1 <= |s|
  {
    var end := DigitsEnd(s, pos);
    if end > pos && (end == |s| || StartsData(s[end])) then (Some(NumberOrZero(s[pos..end])), end) else (None, pos)
  }

  function Decode<T>(s: string, parse: string -> Option<T>): Option<SioPacket<T>> {
    if s == "" then None
    else
      match FromByte(s[0] as int)
      case None => None
      case Some(t) =>
        var (attachments, a) := DecodeAttachments(s, t);
        var (namespace, n) := DecodeNamespace(s, a);
        var (id, pos) := DecodeId(s, n);
        Some(SioPacket(t, namespace, if pos < |s| then parse(s[pos..]) else None, id, attachments))
  }

  /** The source's cursor over the input; each part moves it on. */
  method DecodePacket<T>(input: string, parse: string -> Option<T>) returns (r: Option<SioPacket<T>>)
    ensures r == Decode(input, parse)
  {
    if input == "" {
      return None;
    }
    var packetType := FromByte(input[0] as int);
    if packetType.None? {
      return None;
    }
    var attachments, namespace, id, pos;
    attachments, pos := TakeAttachments(input, packetType.value);
    namespace, pos := TakeNamespace(input, pos);
    id, pos := TakeId(input, pos);
    var data := None;
    if pos < |input| {
      data := parse(input[pos..]);
    }
    r := Some(SioPacket(packetType.value, namespace, data, id, attachments));
  }

  method TakeAttachments(input: string, t: SioPacketType) returns (attachments: nat, pos: nat)
    requires |input| >= 1
    ensures (attachments, pos) == DecodeAttachments(input, t)
  {
    attachments, pos := 0, 1;
    if Binary(t) {
      pos := SkipDigits(input, 1);
      if pos < |input| && input[pos] == '-' {
        attachments := NumberOrZero(input[1..pos]);
        pos := pos + 1;
      }
    }
  }

  method TakeNamespace(input: string, start: nat) returns (namespace: string, pos: nat)
    requires start <= |input|
    ensures (namespace, pos) == DecodeNamespace(input, start)
  {
    namespace, pos := "/", start;
    if pos < |input| && input[pos] == '/' {
      pos := SkipToComma(input, start);
      namespace := input[start..pos];
      if pos < |input| && input[pos] == ',' {
        pos := pos + 1;
      }
    }
  }

  method TakeId(input: string, start: nat) returns (id: Option<nat>, pos: nat)
    requires start <= |input|
    ensures (id, pos) == DecodeId(input, start)
  {
    id, pos := None, start;
    if pos < |input| && IsDigit(input[pos]) {
      pos := SkipDigits(input, start);
      if pos >= |input| || input[pos] == '[' || input[pos] == '{' {
        id := Some(NumberOrZero(input[start..pos]));
      } else {
        pos := start;
      }
    }
  }

  method SkipDigits(s: string, start: nat) returns (pos: nat)
    requires start <= |s|
    ensures pos == DigitsEnd(s, start)
  {
    pos := start;
    while pos < |s| && IsDigit(s[pos])
      invariant start <= pos <= |s| && DigitsEnd(s, pos) == DigitsEnd(s, start)
    {
      pos := pos + 1;
    }
  }

  method SkipToComma(s: string, start: nat) returns (pos: nat)
    requires start <= |s|
    ensures pos == CommaFrom(s, start)
  {
    pos := start;
    while pos < |s| && s[pos] != ','
      invariant start <= pos <= |s| && CommaFrom(s, pos) == CommaFrom(s, start)
    {
      pos := pos + 1;
    }
  }

  // ----- the round trip -----

  /** Field widths: a u64 id and a usize attachment count. */
  predicate Sized<T>(p: SioPacket<T>) {
    p.attachments < Bytes.USIZE_LIMIT && (p.id.Some? ==> p.id.value < Bytes.USIZE_LIMIT)
  }

  /** Data that is printed as an array or an object, and parses back; or none. */
  ghost predicate Structured<T>(p: SioPacket<T>, show: T -> string, parse: string -> Option<T>) {
    p.data.Some? ==>
      var text := show(p.data.value);
      text != "" && (text[0] == '[' || text[0] == '{') && parse(text) == Some(p.data.value)
  }

  /** What the wire form has room for. */
  predicate Exact<T>(p: SioPacket<T>) {
    && p.namespace != "" && p.namespace[0] == '/' && ',' !in p.namespace
    && (p.attachments > 0 ==> p.packetType == BinaryEvent || p.packetType == BinaryAck)
    && !((p.packetType == BinaryEvent || p.packetType == BinaryAck) && p.attachments == 0 && p.namespace == "/" && p.id.Some?)
  }

  lemma {:induction false} DigitsEndIs(s: string, pos: nat, end: nat)
    requires pos <= end <= |s| && Digits(s[pos..end]) && (end < |s| ==> !IsDigit(s[end]))
    ensures DigitsEnd(s, pos) == end
    decreases end - pos
  {
    if pos < end {
      assert s[pos..end][0] == s[pos] && s[pos] in s[pos..end];
      assert s[pos + 1..end] == s[pos..end][1..];
      DigitsEndIs(s, pos + 1, end);
    }
  }

  lemma {:induction false} CommaFromIs(s: string, pos: nat, end: nat)
    requires pos <= end < |s| && ',' !in s[pos..end] && s[end] == ','
    ensures CommaFrom(s, pos) == end
    decreases end - pos
  {
    if pos < end {
      assert s[pos..end][0] == s[pos] && s[pos] in s[pos..end];
      assert s[pos + 1..end] == s[pos..end][1..];
      CommaFromIs(s, pos + 1, end);
    }
  }

  /** What follows the id: nothing, or the data. */
  predicate DataText(d: string) {
    d == "" || StartsData(d[0])
  }

  function NumberText(n: Option<nat>): string {
    if n.Some? then Decimal(n.value) else ""
  }

  /** The id is found behind `front`, and the data behind the id. */
  lemma IdFound(s: string, front: string, id: Option<nat>, d: string)
    requires s == front + NumberText(id) + d
    requires DataText(d) && (id.Some? ==> id.value < Bytes.USIZE_LIMIT)
    ensures DecodeId(s, |front|) == (id, |s| - |d|) && s[|s| - |d|..] == d
  {
    var text := NumberText(id);
    var end := |front| + |text|;
    if id.Some? { DecimalRoundTrip(id.value); }
    assert s[|front|..end] == text;
    assert end < |s| ==> s[end] == d[0];
    DigitsEndIs(s, |front|, end);
  }

  function NamespaceText(namespace: string): string {
    if namespace != "/" then namespace + "," else ""
  }

  lemma NamespaceFound(s: string, front: string, namespace: string, rest: string)
    requires s == front + NamespaceText(namespace) + rest
    requires namespace != "" && namespace[0] == '/' && ',' !in namespace
    requires rest == "" || rest[0] != '/'
    ensures DecodeNamespace(s, |front|) == (namespace, |s| - |rest|)
  {
    if namespace == "/" {
      assert s == front + rest;
    } else {
      var end := |front| + |namespace|;
      assert s[|front|..end] == namespace && s[end] == ',' && s[|front|] == '/';
      CommaFromIs(s, |front|, end);
    }
  }

  function AttachmentsText(n: nat): string {
    if n > 0 then Decimal(n) + "-" else ""
  }

  lemma AttachmentsFound(s: string, c: char, t: SioPacketType, n: nat, rest: string)
    requires s == [c] + AttachmentsText(n) + rest
    requires n < Bytes.USIZE_LIMIT && (n > 0 ==> Binary(t))
    requires Binary(t) && n == 0 && rest != "" ==> !IsDigit(rest[0]) && rest[0] != '-'
    ensures DecodeAttachments(s, t) == (n, |s| - |rest|)
  {
    if n > 0 {
      DecimalRoundTrip(n);
      var end := 1 + |Decimal(n)|;
      assert s[1..end] == Decimal(n) && s[end] == '-';
      DigitsEndIs(s, 1, end);
    } else if Binary(t) {
      assert s == [c] + rest;
      DigitsEndIs(s, 1, 1);
    }
  }

  function DataOf<T>(p: SioPacket<T>, show: T -> string): string {
    if p.data.Some? then show(p.data.value) else ""
  }

  function TypeChar(t: SioPacketType): char {
    (48 + TypeNumber(t)) as char
  }

  lemma TypeRead(t: SioPacketType)
    ensures FromByte(TypeChar(t) as int) == Some(t)
  {
  }

  lemma EncodeParts<T>(p: SioPacket<T>, show: T -> string)
    ensures Encode(p, show) ==
            [TypeChar(p.packetType)] + AttachmentsText(p.attachments) + NamespaceText(p.namespace) + NumberText(p.id) + DataOf(p, show)
  {
  }

  lemma Regroup(s: string, c: string, a: string, n: string, i: string, d: string)
    requires s == c + a + n + i + d
    ensures s == c + a + (n + (i + d))
  {
  }

  /** What may follow the attachments: not a digit or a dash when there were none to count. */
  lemma BehindAttachments(namespace: string, id: Option<nat>, d: string)
    requires DataText(d) && namespace != "" && namespace[0] == '/' && (id.Some? ==> id.value < Bytes.USIZE_LIMIT)
    ensures var rest := NumberText(id) + d; rest != "" ==> rest[0] != '/'
    ensures var rest := NamespaceText(namespace) + (NumberText(id) + d);
            (namespace == "/" ==> id.None?) && rest != "" ==> !IsDigit(rest[0]) && rest[0] != '-'
  {
    if id.Some? {
      DecimalRoundTrip(id.value);
      var text := Decimal(id.value);
      assert text[0] in text && (text + d)[0] == text[0];
    }
  }

  lemma EncodeRoundTrip<T>(p: SioPacket<T>, show: T -> string, parse: string -> Option<T>)
    requires Sized(p) && Structured(p, show, parse) && Exact(p)
    ensures Decode(Encode(p, show), parse) == Some(p)
  {
    EncodeParts(p, show);
    var c, t, d := TypeChar(p.packetType), p.packetType, DataOf(p, show);
    PartsFound(Encode(p, show), c, t, p.attachments, p.namespace, p.id, d);
    DecodeFromParts(Encode(p, show), p, d, parse);
  }

  /** The type and the three parts are where decoding looks for them, one behind the other. */
  ghost predicate Parts(s: string, t: SioPacketType, attachments: nat, namespace: string, id: Option<nat>, d: string) {
    && s != "" && FromByte(s[0] as int) == Some(t)
    && DecodeAttachments(s, t).0 == attachments
    && DecodeNamespace(s, DecodeAttachments(s, t).1).0 == namespace
    && DecodeId(s, DecodeNamespace(s, DecodeAttachments(s, t).1).1) == (id, |s| - |d|)
    && |d| <= |s| && s[|s| - |d|..] == d
  }

  lemma AttachmentsPart(s: string, c: char, t: SioPacketType, attachments: nat, namespace: string, id: Option<nat>, d: string)
    requires s == [c] + AttachmentsText(attachments) + NamespaceText(namespace) + NumberText(id) + d
    requires attachments < Bytes.USIZE_LIMIT && (id.Some? ==> id.value < Bytes.USIZE_LIMIT) && DataText(d)
    requires namespace != "" && namespace[0] == '/'
    requires attachments > 0 ==> Binary(t)
    requires !(Binary(t) && attachments == 0 && namespace == "/" && id.Some?)
    ensures DecodeAttachments(s, t) == (attachments, |[c] + AttachmentsText(attachments)|)
  {
    var a, n, i := AttachmentsText(attachments), NamespaceText(namespace), NumberText(id);
    Regroup(s, [c], a, n, i, d);
    BehindAttachments(namespace, id, d);
    AttachmentsFound(s, c, t, attachments, n + (i + d));
  }

  lemma NamespacePart(s: string, front: string, namespace: string, id: Option<nat>, d: string)
    requires s == front + NamespaceText(namespace) + NumberText(id) + d
    requires (id.Some? ==> id.value < Bytes.USIZE_LIMIT) && DataText(d)
    requires namespace != "" && namespace[0] == '/' && ',' !in namespace
    ensures DecodeNamespace(s, |front|) == (namespace, |front + NamespaceText(namespace)|)
  {
    var n, i := NamespaceText(namespace), NumberText(id);
    assert s == front + n + (i + d);
    BehindAttachments(namespace, id, d);
    NamespaceFound(s, front, namespace, i + d);
  }

  lemma PartsFound(s: string, c: char, t: SioPacketType, attachments: nat, namespace: string, id: Option<nat>, d: string)
    requires s == [c] + AttachmentsText(attachments) + NamespaceText(namespace) + NumberText(id) + d && c == TypeChar(t)
    requires attachments < Bytes.USIZE_LIMIT && (id.Some? ==> id.value < Bytes.USIZE_LIMIT) && DataText(d)
    requires namespace != "" && namespace[0] == '/' && ',' !in namespace
    requires attachments > 0 ==> Binary(t)
    requires !(Binary(t) && attachments == 0 && namespace == "/" && id.Some?)
    ensures Parts(s, t, attachments, namespace, id, d)
  {
    var front := [c] + AttachmentsText(attachments);
    TypeRead(t);
    assert front[0] == c && s[0] == front[0];
    AttachmentsPart(s, c, t, attachments, namespace, id, d);
    NamespacePart(s, front, namespace, id, d);
    IdFound(s, front + NamespaceText(namespace), id, d);
  }

  lemma DecodeFromParts<T>(s: string, p: SioPacket<T>, d: string, parse: string -> Option<T>)
    requires Parts(s, p.packetType, p.attachments, p.namespace, p.id, d)
    requires if p.data.Some? then d != "" && parse(d) == p.data else d == ""
    ensures Decode(s, parse) == Some(p)
  {
  }

  /** What a decoded packet always looks like. */
  lemma DecodedShape<T>(s: string, parse: string -> Option<T>)
    ensures var r := Decode(s, parse);
            r.Some? ==>
              && r.value.namespace != "" && r.value.namespace[0] == '/' && ',' !in r.value.namespace
              && (r.value.attachments > 0 ==> Binary(r.value.packetType))
  {
  }

  lemma DigitsSkipped(s: string, c: char, t: SioPacketType, id: nat, d: string)
    requires s == [c] + Decimal(id) + d && c == TypeChar(t)
    requires Binary(t) && id < Bytes.USIZE_LIMIT && DataText(d)
    ensures Parts(s, t, 0, "/", None, d)
  {
    var i := Decimal(id);
    var end := 1 + |i|;
    DecimalRoundTrip(id);
    assert s[1..end] == i && (end < |s| ==> s[end] == d[0]);
    DigitsEndIs(s, 1, end);
    assert s == ([c] + i) + NumberText(None) + d;
    IdFound(s, [c] + i, None, d);
  }

  /** In the main namespace, a binary packet without attachments loses its id: the digits are skipped. */
  lemma BinaryIdIsLost<T>(p: SioPacket<T>, show: T -> string, parse: string -> Option<T>)
    requires Sized(p) && Structured(p, show, parse)
    requires Binary(p.packetType) && p.attachments == 0 && p.namespace == "/" && p.id.Some?
    ensures Decode(Encode(p, show), parse) == Some(p.(id := None))
  {
    EncodeParts(p, show);
    var c, i, d, s := TypeChar(p.packetType), Decimal(p.id.value), DataOf(p, show), Encode(p, show);
    assert s == [c] + i + d;
    DigitsSkipped(s, c, p.packetType, p.id.value, d);
    DecodeFromParts(s, p.(id := None), d, parse);
  }

  /** Exactly the packets the wire form has room for survive. */
  lemma SioRoundTrip<T>(p: SioPacket<T>, show: T -> string, parse: string -> Option<T>)
    requires Sized(p) && Structured(p, show, parse)
    ensures Decode(Encode(p, show), parse) == Some(p) <==> Exact(p)
  {
    if Exact(p) {
      EncodeRoundTrip(p, show, parse);
    } else {
      DecodedShape(Encode(p, show), parse);
      if Binary(p.packetType) && p.attachments == 0 && p.namespace == "/" && p.id.Some? {
        BinaryIdIsLost(p, show, parse);
      }
    }
  }

  // ----- events and acknowledgements -----

  /** JSON as far as events look into it. */
  datatype Value = Str(text: string) | Arr(items: seq<Value>) | Other(json: string)

  /** The arguments an event's data stands for: an array is spread, anything else is one argument. */
  function Arguments(data: Value): seq<Value> {
    if data.Arr? then data.items else [data]
  }

  function EventPacket(namespace: string, event: string, data: Value, ackId: Option<nat>): SioPacket<Value> {
    SioPacket(Event, namespace, Some(Arr([Str(event)] + Arguments(data))), ackId, 0)
  }

  function AckPacket(namespace: string, id: nat, data: Value): SioPacket<Value> {
    SioPacket(Ack, namespace, Some(if data.Arr? then data else Arr([data])), Some(id), 0)
  }

  function EventName(p: SioPacket<Value>): Option<string> {
    if p.data.Some? && p.data.value.Arr? && p.data.value.items != [] && p.data.value.items[0].Str?
    then Some(p.data.value.items[0].text) else None
  }

  function EventData(p: SioPacket<Value>): Option<seq<Value>> {
    if p.data.Some? && p.data.value.Arr? then
      Some(if |p.data.value.items| > 1 then p.data.value.items[1..] else [])
    else None
  }

  /** What the receiving end takes out of an event is what the emitting end put in. */
  lemma EventCarries(namespace: string, event: string, data: Value, ackId: Option<nat>)
    ensures var p := EventPacket(namespace, event, data, ackId);
            EventName(p) == Some(event) && EventData(p) == Some(Arguments(data))
  {
    assert ([Str(event)] + Arguments(data))[1..] == Arguments(data);
  }

  /** An argument list cannot be told from a single array argument, and that is all that is lost. */
  lemma EventConfuses(namespace: string, event: string, a: Value, b: Value, ackId: Option<nat>)
    ensures EventPacket(namespace, event, a, ackId) == EventPacket(namespace, event, b, ackId) <==>
            a == b || (a.Arr? && !b.Arr? && a.items == [b]) || (b.Arr? && !a.Arr? && b.items == [a])
  {
    EventCarries(namespace, event, a, ackId);
    EventCarries(namespace, event, b, ackId);
  }

  // ----- through the whole stack -----

  function Wrap<T>(p: SioPacket<T>, show: T -> string): EioPacket {
    EioPacket(Message, Some(Encode(p, show)))
  }

  function WrapAll<T>(ps: seq<SioPacket<T>>, show: T -> string): (es: seq<EioPacket>)
    ensures |es| == |ps| && forall i :: 0 <= i < |ps| ==> es[i] == Wrap(ps[i], show)
  {
    seq(|ps|, i requires 0 <= i < |ps| => Wrap(ps[i], show))
  }

  /** The Socket.IO packets a batch of Engine.IO packets brings in; everything else is passed over. */
  function Unwrap<T>(es: seq<EioPacket>, parse: string -> Option<T>): seq<SioPacket<T>> {
    if es == [] then []
    else
      (if es[0].packetType == Message && es[0].data.Some? then
         match Decode(es[0].data.value, parse) case Some(p) => [p] case None => []
       else [])
      + Unwrap(es[1..], parse)
  }

  /** The record separator occurs in no part of the packet; printed JSON escapes it. */
  predicate Separable<T>(p: SioPacket<T>, show: T -> string) {
    RECORD_SEPARATOR !in p.namespace && (p.data.Some? ==> RECORD_SEPARATOR !in show(p.data.value))
  }

  lemma EncodeSeparable<T>(p: SioPacket<T>, show: T -> string)
    requires Sized(p) && Separable(p, show)
    ensures Carriable(Wrap(p, show))
  {
    EncodeParts(p, show);
    if p.attachments > 0 { DecimalRoundTrip(p.attachments); }
    if p.id.Some? { DecimalRoundTrip(p.id.value); }
    TypeRead(p.packetType);
    assert !IsDigit(RECORD_SEPARATOR);
    assert RECORD_SEPARATOR !in [TypeChar(p.packetType)];
    assert RECORD_SEPARATOR !in AttachmentsText(p.attachments);
    assert RECORD_SEPARATOR !in NumberText(p.id);
    assert RECORD_SEPARATOR !in NamespaceText(p.namespace);
  }

  ghost predicate Survives<T>(p: SioPacket<T>, show: T -> string, parse: string -> Option<T>) {
    Sized(p) && Structured(p, show, parse) && Exact(p) && Separable(p, show)
  }

  lemma WrapFront<T>(ps: seq<SioPacket<T>>, show: T -> string)
    requires ps != []
    ensures WrapAll(ps, show)[0] == Wrap(ps[0], show) && WrapAll(ps, show)[1..] == WrapAll(ps[1..], show)
  {
  }

  lemma {:induction false} UnwrapWrapped<T>(ps: seq<SioPacket<T>>, show: T -> string, parse: string -> Option<T>)
    requires forall p <- ps :: Survives(p, show, parse)
    ensures Unwrap(WrapAll(ps, show), parse) == ps
  {
    if ps != [] {
      assert Survives(ps[0], show, parse);
      EncodeRoundTrip(ps[0], show, parse);
      UnwrapWrapped(ps[1..], show, parse);
      WrapFront(ps, show);
      UnwrapFront(WrapAll(ps, show), ps[0], parse);
      assert ps == [ps[0]] + ps[1..];
    }
  }

  lemma UnwrapFront<T>(es: seq<EioPacket>, p: SioPacket<T>, parse: string -> Option<T>)
    requires es != [] && es[0].packetType == Message && es[0].data.Some? && Decode(es[0].data.value, parse) == Some(p)
    ensures Unwrap(es, parse) == [p] + Unwrap(es[1..], parse)
  {
  }

  /** A batch of packets goes through Socket.IO, Engine.IO and the polling payload and back unchanged. */
  lemma BatchSurvivesStack<T>(ps: seq<SioPacket<T>>, show: T -> string, parse: string -> Option<T>)
    requires forall p <- ps :: Survives(p, show, parse)
    ensures Unwrap(DecodePollingPayload(EncodePollingPayload(WrapAll(ps, show))), parse) == ps
  {
    forall e <- WrapAll(ps, show) ensures Carriable(e) {
      var i :| 0 <= i < |ps| && e == Wrap(ps[i], show);
      assert ps[i] in ps;
      EncodeSeparable(ps[i], show);
    }
    PayloadRoundTrip(WrapAll(ps, show));
    UnwrapWrapped(ps, show, parse);
  }
}
