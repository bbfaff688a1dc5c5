// Control packets and their encoders (sections 2.1 and 3.2 to 3.11 of MQTT 5.0).
module Packets {
  import opened Wire
  import opened Properties
  import opened PropertyPrinting
  import opened PropertyWriters

  datatype Outcome<+T> = Success(value: T) | Failure(error: MqttError) | Crash {
    predicate IsFailure() {
      !Success?
    }

    function PropagateFailure<U>(): Outcome<U>
      requires IsFailure()
    {
      if Crash? then Crash else Failure(error)
    }

    function Extract(): T
      requires Success?
    {
      value
    }
  }

  type PacketId = n: nat | n < 0x1_0000

  datatype QoS = QoS0 | QoS1 | QoS2

  datatype Publish = Publish(
    dup: bool, qos: QoS, retain: bool, topic: Bytes, properties: Option<Fields>,
    packetId: Option<PacketId>, payloadLength: nat, payload: Bytes, version: Byte)

  // PUBACK, PUBREC, PUBREL and PUBCOMP have the same fields; a reason is its code.
  datatype Ack = Ack(packetId: PacketId, reason: Option<Byte>, properties: Option<Fields>, version: Byte)

  datatype RetainHandling = ReceiveAll | IgnoreRetainedInitial | IgnoreRetainedAlways

  datatype SubscribeOption = SubscribeOption(
    retainHandling: RetainHandling, retainAsPublished: bool, noLocal: bool, qos: QoS)

  datatype Subscribe = Subscribe(
    packetId: PacketId, properties: Fields, filters: seq<(Bytes, SubscribeOption)>, payloadLength: nat)

  datatype Unsubscribe = Unsubscribe(
    packetId: PacketId, properties: Fields, filters: seq<Bytes>, payloadLength: nat)

  // SUBACK and UNSUBACK.
  datatype Codes = Codes(packetId: PacketId, properties: Option<Fields>, reasons: Bytes, version: Byte)

  datatype ConnectFlags = ConnectFlags(
    userName: bool, password: bool, willRetain: bool, willQos: QoS, will: bool, cleanStart: bool)

  datatype Connect = Connect(
    protocolName: Bytes, protocolVersion: Byte, flags: ConnectFlags, keepAlive: nat, properties: Fields,
    clientId: Bytes, willProperties: Fields, willTopic: Option<Bytes>, willPayload: Option<Bytes>,
    userName: Option<Bytes>, password: Option<Bytes>)

  // The properties of a CONNACK are given as the bytes they are printed to.
  datatype Connack = Connack(sessionPresent: bool, reason: Byte, properties: Option<Bytes>, version: Byte)

  datatype Disconnect = Disconnect(reason: Byte, properties: Option<Fields>)

  datatype ControlPacket =
    | CONNECT(connect: Connect)
    | CONNACK(connack: Connack)
    | PUBLISH(publish: Publish)
    | PUBACK(ack: Ack)
    | PUBREC(ack: Ack)
    | PUBREL(ack: Ack)
    | PUBCOMP(ack: Ack)
    | SUBSCRIBE(subscribe: Subscribe)
    | SUBACK(codes: Codes)
    | UNSUBSCRIBE(unsubscribe: Unsubscribe)
    | UNSUBACK(codes: Codes)
    | PINGREQ
    | PINGRESP
    | DISCONNECT(disconnect: Disconnect)
    | NOOPERATION
    | UNDEFINED

  const DEFAULT_PUBLISH := Publish(false, QoS0, false, [], None, None, 0, [], 0)
  const DEFAULT_ACK := Ack(0, None, None, 0)

  // ---------------------------------------------------------------- what is printed

  function QoSBits(qos: QoS): (n: nat)
    ensures n <= 2
  {
    match qos
    case QoS0 => 0
    case QoS1 => 1
    case QoS2 => 2
  }

  function Bit(b: bool): nat {
    if b then 1 else 0
  }

  /** The first byte, the Remaining Length field and the bytes written after it. */
  function Framed(first: Byte, remaining: nat, body: Bytes): Bytes {
    [first] + EncodeVarInt(remaining) + body
  }

  function PublishProperties(f: Fields): Bytes
    requires TypedFields(InPublish, f)
  {
    OrdersArePrintable();
    PrintFields(InPublish, PUBLISH_ORDER, f)
  }

  ghost predicate TypedPublish(p: Publish) {
    ValidUtf8(p.topic) && (p.properties.Some? ==> TypedFields(InPublish, p.properties.value))
  }

  function PublishSection(p: Publish): Bytes
    requires TypedPublish(p)
  {
    if p.version == 5 then
      var props := if p.properties.Some? then PublishProperties(p.properties.value) else [];
      EncodeVarInt(|props|) + props
    else []
  }

  // The two bytes of a packet identifier, if the message has one.
  function IdLength(p: Publish): nat {
    if p.qos == QoS0 then 0 else 2
  }

  function PublishFirst(p: Publish): Byte {
    0x30 + 8 * Bit(p.dup) + 2 * QoSBits(p.qos) + Bit(p.retain)
  }

  function PublishBody(p: Publish): Outcome<Bytes>
    requires TypedPublish(p)
  {
    if p.qos == QoS0 then Success(Prefixed(p.topic) + PublishSection(p))
    else if p.packetId.None? then Crash
    else Success(Prefixed(p.topic) + U16Bytes(p.packetId.value) + PublishSection(p))
  }

  function PublishHeader(p: Publish): Outcome<Bytes>
    requires TypedPublish(p)
  {
    var body :- PublishBody(p);
    Success(Framed(PublishFirst(p), |body| + p.payloadLength, body))
  }

  predicate Short(v: Value) {
    match v
    case Num(_) => true
    case Str(b) => |b| < 0x1_0000
    case Pair(k, w) => |k| < 0x1_0000 && |w| < 0x1_0000
  }

  /** Reason string and user properties; a length that does not fit two bytes is an error. */
  function ReasonProperties(properties: Option<Fields>): Outcome<Bytes>
    requires properties.Some? ==> TypedFields(InPubrel, properties.value)
  {
    OrdersArePrintable();
    match properties
    case None => Success([])
    case Some(f) =>
      if forall id :: id in REASON_ORDER && id in f ==> forall v :: v in f[id] ==> Short(v)
      then Success(PrintFields(InPubrel, REASON_ORDER, f))
      else Failure(InvalidFormat)
  }

  ghost predicate TypedReason(properties: Option<Fields>) {
    properties.Some? ==> TypedFields(InPubrel, properties.value)
  }

  datatype AckKind = Puback | Pubrec | Pubrel | Pubcomp

  function AckFirst(kind: AckKind): Byte {
    match kind
    case Puback => 0x40
    case Pubrec => 0x50
    case Pubrel => 0x62
    case Pubcomp => 0x70
  }

  // Whether the length counts a reason and properties. PUBREL and PUBCOMP count them as
  // soon as one of the two is there, but write them only when the reason is.
  predicate AckCounts(kind: AckKind, a: Ack) {
    a.version >= 5 && (a.reason.Some? || ((kind == Pubrel || kind == Pubcomp) && a.properties.Some?))
  }

  function AckHeader(kind: AckKind, a: Ack): Outcome<Bytes>
    requires TypedReason(a.properties)
  {
    if AckCounts(kind, a) then
      var props :- ReasonProperties(a.properties);
      var length := EncodeVarInt(|props|);
      var tail := if a.reason.Some? then [a.reason.value] + length + props else [];
      Success(Framed(AckFirst(kind), 3 + |length| + |props|, U16Bytes(a.packetId) + tail))
    else
      Success(Framed(AckFirst(kind), 2, U16Bytes(a.packetId)))
  }

  function CodesHeader(first: Byte, c: Codes): Outcome<Bytes>
    requires TypedReason(c.properties)
  {
    if c.version >= 5 then
      var props :- ReasonProperties(c.properties);
      var length := EncodeVarInt(|props|);
      Success(Framed(first, |length| + |props| + |c.reasons| + 2, U16Bytes(c.packetId) + length + props))
    else
      Success(Framed(first, |c.reasons| + 2, U16Bytes(c.packetId)))
  }

  function ConnackHeader(c: Connack): Bytes {
    var props := if c.properties.Some? then c.properties.value else [];
    if c.version == 5 then
      Framed(0x20, 3 + |props|, [Bit(c.sessionPresent), c.reason] + EncodeVarInt(|props|) + props)
    else
      Framed(0x20, 2, [Bit(c.sessionPresent), c.reason])
  }

  ghost predicate TypedPacket(packet: ControlPacket) {
    match packet
    case PUBLISH(p) => TypedPublish(p)
    case PUBACK(a) => TypedReason(a.properties)
    case PUBREC(a) => TypedReason(a.properties)
    case PUBREL(a) => TypedReason(a.properties)
    case PUBCOMP(a) => TypedReason(a.properties)
    case SUBACK(c) => TypedReason(c.properties)
    case UNSUBACK(c) => TypedReason(c.properties)
    case _ => true
  }

  function EncodeHeader(packet: ControlPacket): Outcome<Bytes>
    requires TypedPacket(packet)
  {
    match packet
    case CONNACK(c) => Success(ConnackHeader(c))
    case PINGRESP => Success([0xD0, 0x00])
    case SUBACK(c) => CodesHeader(0x90, c)
    case UNSUBACK(c) => CodesHeader(0xB0, c)
    case PUBACK(a) => AckHeader(Puback, a)
    case PUBREC(a) => AckHeader(Pubrec, a)
    case PUBREL(a) => AckHeader(Pubrel, a)
    case PUBCOMP(a) => AckHeader(Pubcomp, a)
    case PUBLISH(p) => PublishHeader(p)
    case _ => Failure(NotImplemented)
  }

  function PayloadChunk(packet: ControlPacket): Bytes {
    match packet
    case SUBACK(c) => c.reasons
    case UNSUBACK(c) => c.reasons
    case PUBLISH(p) => p.payload
    case _ => []
  }

  /** `encode_all`: the header, then the payload chunk. */
  function Encode(packet: ControlPacket): Outcome<Bytes>
    requires TypedPacket(packet)
  {
    var header :- EncodeHeader(packet);
    Success(header + PayloadChunk(packet))
  }

  // ---------------------------------------------------------------- the encoders

  method EncodePublishHeader(p: Publish) returns (r: Outcome<Bytes>)
    requires TypedPublish(p)
    ensures r == PublishHeader(p)
  {
    hide PrintFields, ValidUtf8, EncodeVarInt, U16Bytes, TypedFields;
    var props := [];
    var encodedLength := [];
    if p.version == 5 {
      if p.properties.Some? {
        OrdersArePrintable();
        props := WritePublishProperties(p.properties.value);
      }
      encodedLength := EncodeVariableBytes(|props|);
    }
    var variableHeader := U16Bytes(|p.topic|) + p.topic;
    if p.qos != QoS0 {
      if p.packetId.None? {
        return Crash;
      }
      variableHeader := variableHeader + U16Bytes(p.packetId.value);
    }
    ghost var front := variableHeader;
    variableHeader := variableHeader + encodedLength;
    variableHeader := variableHeader + props;
    assert variableHeader == front + (encodedLength + props);
    assert encodedLength + props == PublishSection(p);
    var buf := [PublishFirst(p)];
    var encodedRemaining := EncodeVariableBytes(|variableHeader| + p.payloadLength);
    buf := buf + encodedRemaining;
    buf := buf + variableHeader;
    return Success(buf);
  }

  lemma ReasonIsShort(f: Fields)
    requires TypedFields(InPubrel, f)
    ensures (forall id :: id in REASON_ORDER && id in f ==> forall v :: v in f[id] ==> Short(v))
        <==> (First(f, 0x1F).Some? ==> Short(First(f, 0x1F).value)) && forall v :: v in Get(f, 0x26) ==> Short(v)
  {
    hide Short, Typed;
    assert IsRuled(InPubrel, 0x1F) && RepeatOf(InPubrel, 0x1F) != Many;
    if First(f, 0x1F).Some? {
      assert f[0x1F] == [f[0x1F][0]];
    }
  }

  lemma ReasonIsString(f: Fields)
    requires TypedFields(InPubrel, f) && First(f, 0x1F).Some?
    ensures First(f, 0x1F).value.Str?
  {
    assert IsRuled(InPubrel, 0x1F);
    assert Typed(KindOf(InPubrel, 0x1F), f[0x1F][0]);
  }

  lemma UsersArePairs(f: Fields, i: nat)
    requires TypedFields(InPubrel, f) && i < |Get(f, 0x26)|
    ensures Get(f, 0x26)[i].Pair?
  {
    assert IsRuled(InPubrel, 0x26);
    assert Typed(KindOf(InPubrel, 0x26), f[0x26][i]);
  }

  /** `build_bytes` of the acknowledgements: here a length that does not fit two bytes is an error. */
  method BuildReasonProperties(properties: Option<Fields>) returns (r: Outcome<Bytes>)
    requires TypedReason(properties)
    ensures r == ReasonProperties(properties)
  {
    hide TypedFields, PrintFields, UserProperties, Prefixed;
    if properties.None? {
      return Success([]);
    }
    var f := properties.value;
    ReasonBytesPrinted(f);
    ReasonIsShort(f);
    var buf := [];
    var reason := First(f, 0x1F);
    if reason.Some? {
      ReasonIsString(f);
      if |reason.value.b| >= 0x1_0000 {
        return Failure(InvalidFormat);
      }
      buf := buf + ([0x1F] + Prefixed(reason.value.b));
    }
    assert buf == StringField(f, 0x1F);
    var users := Get(f, 0x26);
    var written := [];
    UserPropertiesOfNone();
    for i := 0 to |users|
      invariant forall v :: v in users[..i] ==> Short(v)
      invariant written == UserProperties(users[..i])
    {
      UsersArePairs(f, i);
      if |users[i].key| >= 0x1_0000 || |users[i].value| >= 0x1_0000 {
        assert users[i] in users && !Short(users[i]);
        return Failure(InvalidFormat);
      }
      UserPropertiesTurn(users, i);
      assert users[..i + 1] == users[..i] + [users[i]];
      written := written + ([0x26] + Prefixed(users[i].key) + Prefixed(users[i].value));
    }
    assert users[..|users|] == users;
    return Success(buf + written);
  }

  method EncodeAckHeader(kind: AckKind, a: Ack) returns (r: Outcome<Bytes>)
    requires TypedReason(a.properties)
    ensures r == AckHeader(kind, a)
  {
    hide TypedFields, ReasonProperties, EncodeVarInt, U16Bytes;
    var props, encodedLength := [], [];
    var remaining := 2;
    if AckCounts(kind, a) {
      props :- BuildReasonProperties(a.properties);
      encodedLength := EncodeVariableBytes(|props|);
      remaining := 2 + 1 + |encodedLength| + |props|;
    }
    var encodedRemaining := EncodeVariableBytes(remaining);
    var buf := [AckFirst(kind)];
    buf := buf + encodedRemaining;
    ghost var front := buf;
    buf := buf + U16Bytes(a.packetId);
    if AckCounts(kind, a) && a.reason.Some? {
      buf := buf + [a.reason.value];
      buf := buf + encodedLength;
      buf := buf + props;
      assert buf == front + (U16Bytes(a.packetId) + ([a.reason.value] + encodedLength + props));
    } else {
      assert buf == front + (U16Bytes(a.packetId) + []);
      assert U16Bytes(a.packetId) + [] == U16Bytes(a.packetId);
    }
    return Success(buf);
  }

  method EncodeCodesHeader(first: Byte, c: Codes) returns (r: Outcome<Bytes>)
    requires TypedReason(c.properties)
    ensures r == CodesHeader(first, c)
  {
    hide TypedFields, ReasonProperties, EncodeVarInt, U16Bytes;
    var props, encodedLength := [], [];
    var remaining := |c.reasons| + 2;
    if c.version >= 5 {
      props :- BuildReasonProperties(c.properties);
      encodedLength := EncodeVariableBytes(|props|);
      remaining := |encodedLength| + |props| + |c.reasons| + 2;
    }
    var encodedRemaining := EncodeVariableBytes(remaining);
    var buf := [first];
    buf := buf + encodedRemaining;
    ghost var front := buf;
    buf := buf + U16Bytes(c.packetId);
    if c.version >= 5 {
      buf := buf + encodedLength;
      buf := buf + props;
      assert buf == front + (U16Bytes(c.packetId) + encodedLength + props);
    }
    return Success(buf);
  }

  method EncodeConnackHeader(c: Connack) returns (buf: Bytes)
    ensures buf == ConnackHeader(c)
  {
    hide EncodeVarInt;
    var props, encodedLength := [], [];
    var remaining := 2;
    if c.version == 5 {
      if c.properties.Some? {
        props := c.properties.value;
      }
      encodedLength := EncodeVariableBytes(|props|);
      remaining := 2 + (1 + |props|);
    }
    var encodedRemaining := EncodeVariableBytes(remaining);
    buf := [0x20];
    buf := buf + encodedRemaining;
    ghost var front := buf;
    buf := buf + [Bit(c.sessionPresent)];
    buf := buf + [c.reason];
    assert buf == front + [Bit(c.sessionPresent), c.reason];
    if c.version == 5 {
      buf := buf + encodedLength;
      buf := buf + props;
      assert buf == front + ([Bit(c.sessionPresent), c.reason] + encodedLength + props);
    }
  }

  method EncodePacketHeader(packet: ControlPacket) returns (r: Outcome<Bytes>)
    requires TypedPacket(packet)
    ensures r == EncodeHeader(packet)
  {
    hide PublishHeader, AckHeader, CodesHeader, ConnackHeader, TypedPublish, TypedReason;
    match packet {
      case CONNACK(c) =>
        var b := EncodeConnackHeader(c);
        r := Success(b);
      case PINGRESP => r := Success([0xD0, 0x00]);
      case SUBACK(c) => r := EncodeCodesHeader(0x90, c);
      case UNSUBACK(c) => r := EncodeCodesHeader(0xB0, c);
      case PUBACK(a) => r := EncodeAckHeader(Puback, a);
      case PUBREC(a) => r := EncodeAckHeader(Pubrec, a);
      case PUBREL(a) => r := EncodeAckHeader(Pubrel, a);
      case PUBCOMP(a) => r := EncodeAckHeader(Pubcomp, a);
      case PUBLISH(p) => r := EncodePublishHeader(p);
      case _ => r := Failure(NotImplemented);
    }
  }

  /** Appends one whole packet to `buffer`. */
  method EncodeAll(packet: ControlPacket, buffer: Bytes) returns (r: Outcome<Bytes>)
    requires TypedPacket(packet)
    ensures Encode(packet).Success? ==> r == Success(buffer + Encode(packet).value)
    ensures !Encode(packet).Success? ==> r == Encode(packet)
  {
    hide EncodeHeader, TypedPacket, PayloadChunk;
    var header :- EncodePacketHeader(packet);
    var out := buffer + header;
    out := out + PayloadChunk(packet);
    assert out == buffer + (header + PayloadChunk(packet));
    return Success(out);
  }

  // ---------------------------------------------------------------- Remaining Length

  /** Section 2.1.4 of MQTT 5.0: the field equals the number of bytes that follow it. */
  predicate Honest(frame: Bytes) {
    && |frame| > 0
    && var length := VarInt(frame[1..]);
       length.Ok? && |frame| == 1 + length.used + length.value
  }

  lemma FramedHonest(first: Byte, remaining: nat, body: Bytes)
    ensures Honest(Framed(first, remaining, body)) <==> remaining == |body| && remaining < VAR_INT_LIMIT
  {
    hide VarInt, EncodeVarInt;
    var frame := Framed(first, remaining, body);
    assert frame[1..] == EncodeVarInt(remaining) + body;
    VarIntRoundTrip(remaining, body);
  }

  /** The Remaining Length that the encoder computes. */
  function Declared(packet: ControlPacket): nat
    requires TypedPacket(packet) && EncodeHeader(packet).Success?
  {
    match packet
    case CONNACK(c) => if c.version == 5 then 3 + (if c.properties.Some? then |c.properties.value| else 0) else 2
    case PINGRESP => 0
    case SUBACK(c) => DeclaredCodes(c)
    case UNSUBACK(c) => DeclaredCodes(c)
    case PUBACK(a) => DeclaredAck(Puback, a)
    case PUBREC(a) => DeclaredAck(Pubrec, a)
    case PUBREL(a) => DeclaredAck(Pubrel, a)
    case PUBCOMP(a) => DeclaredAck(Pubcomp, a)
    case PUBLISH(p) => |PublishBody(p).value| + p.payloadLength
    case _ => 0
  }

  function DeclaredCodes(c: Codes): nat
    requires TypedReason(c.properties) && (c.version >= 5 ==> ReasonProperties(c.properties).Success?)
  {
    if c.version >= 5 then
      var props := ReasonProperties(c.properties).value;
      |EncodeVarInt(|props|)| + |props| + |c.reasons| + 2
    else |c.reasons| + 2
  }

  function DeclaredAck(kind: AckKind, a: Ack): nat
    requires TypedReason(a.properties) && (AckCounts(kind, a) ==> ReasonProperties(a.properties).Success?)
  {
    if AckCounts(kind, a) then
      var props := ReasonProperties(a.properties).value;
      3 + |EncodeVarInt(|props|)| + |props|
    else 2
  }

  /** What a caller can check beforehand to know that the length will be honest. */
  predicate LengthWillBeHonest(packet: ControlPacket) {
    match packet
    case CONNACK(c) => c.version != 5 || c.properties.None? || |c.properties.value| < 128
    case PUBREL(a) => a.version < 5 || a.reason.Some? || a.properties.None?
    case PUBCOMP(a) => a.version < 5 || a.reason.Some? || a.properties.None?
    case PUBLISH(p) => p.payloadLength == |p.payload|
    case _ => true
  }

  lemma AckHonest(kind: AckKind, a: Ack)
    requires TypedReason(a.properties) && AckHeader(kind, a).Success?
    ensures Honest(AckHeader(kind, a).value) <==>
            && DeclaredAck(kind, a) < VAR_INT_LIMIT
            && (kind == Puback || kind == Pubrec || a.version < 5 || a.reason.Some? || a.properties.None?)
  {
    hide ReasonProperties, EncodeVarInt, U16Bytes, Honest, TypedFields, Framed;
    if AckCounts(kind, a) {
      var props := ReasonProperties(a.properties).value;
      var length := EncodeVarInt(|props|);
      var tail := if a.reason.Some? then [a.reason.value] + length + props else [];
      FramedHonest(AckFirst(kind), 3 + |length| + |props|, U16Bytes(a.packetId) + tail);
    } else {
      FramedHonest(AckFirst(kind), 2, U16Bytes(a.packetId));
    }
  }

  lemma CodesHonest(first: Byte, c: Codes)
    requires TypedReason(c.properties) && CodesHeader(first, c).Success?
    ensures Honest(CodesHeader(first, c).value + c.reasons) <==> DeclaredCodes(c) < VAR_INT_LIMIT
  {
    hide ReasonProperties, EncodeVarInt, U16Bytes, Honest, TypedFields;
    var id := U16Bytes(c.packetId);
    if c.version >= 5 {
      var props := ReasonProperties(c.properties).value;
      var length := EncodeVarInt(|props|);
      var remaining := |length| + |props| + |c.reasons| + 2;
      FramedHonest(first, remaining, id + length + props + c.reasons);
      assert Framed(first, remaining, id + length + props) + c.reasons
          == Framed(first, remaining, id + length + props + c.reasons);
    } else {
      FramedHonest(first, |c.reasons| + 2, id + c.reasons);
      assert Framed(first, |c.reasons| + 2, id) + c.reasons == Framed(first, |c.reasons| + 2, id + c.reasons);
    }
  }

  lemma ConnackHonest(c: Connack)
    ensures Honest(ConnackHeader(c)) <==> c.version != 5 || c.properties.None? || |c.properties.value| < 128
  {
    hide Honest, Framed;
    var props := if c.properties.Some? then c.properties.value else [];
    var head := [Bit(c.sessionPresent), c.reason];
    if c.version == 5 {
      FramedHonest(0x20, 3 + |props|, head + EncodeVarInt(|props|) + props);
      assert |EncodeVarInt(|props|)| == 1 <==> |props| < 128;
    } else {
      FramedHonest(0x20, 2, head);
    }
  }

  lemma PublishHonest(p: Publish)
    requires TypedPublish(p) && PublishHeader(p).Success?
    ensures Honest(PublishHeader(p).value + p.payload) <==>
            p.payloadLength == |p.payload| && |PublishBody(p).value| + p.payloadLength < VAR_INT_LIMIT
  {
    hide PublishBody, EncodeVarInt, Honest, TypedPublish, PublishFirst;
    var body := PublishBody(p).value;
    var remaining := |body| + p.payloadLength;
    FramedHonest(PublishFirst(p), remaining, body + p.payload);
    assert Framed(PublishFirst(p), remaining, body) + p.payload == Framed(PublishFirst(p), remaining, body + p.payload);
  }

  /**
   * Section 2.1.4 of MQTT 5.0, for every encoder: a frame is honest exactly when its
   * length fits the field and the condition named for its packet holds.
   */
  lemma RemainingLengthHonesty(packet: ControlPacket)
    requires TypedPacket(packet) && Encode(packet).Success?
    ensures Honest(Encode(packet).value) <==> LengthWillBeHonest(packet) && Declared(packet) < VAR_INT_LIMIT
  {
    hide AckHeader, CodesHeader, ConnackHeader, PublishHeader, DeclaredAck, DeclaredCodes, Honest,
      TypedPublish, TypedReason, PublishBody;
    var frame := Encode(packet).value;
    match packet {
      case CONNACK(c) => ConnackHonest(c); assert ConnackHeader(c) + [] == ConnackHeader(c);
      case SUBACK(c) => CodesHonest(0x90, c);
      case UNSUBACK(c) => CodesHonest(0xB0, c);
      case PUBACK(a) => AckHonest(Puback, a); assert frame == AckHeader(Puback, a).value;
      case PUBREC(a) => AckHonest(Pubrec, a); assert frame == AckHeader(Pubrec, a).value;
      case PUBREL(a) => AckHonest(Pubrel, a); assert frame == AckHeader(Pubrel, a).value;
      case PUBCOMP(a) => AckHonest(Pubcomp, a); assert frame == AckHeader(Pubcomp, a).value;
      case PUBLISH(p) => PublishHonest(p);
      case PINGRESP => PingrespHonest(); assert frame == [0xD0, 0x00];
      case _ =>
    }
  }

  lemma PingrespHonest()
    ensures Honest([0xD0, 0x00])
  {
  }
}
