// The wire format in bytes and bits: what the integers, the first byte, the option byte and
// the connect flags mean, and what is written for each packet that the server sends.
module WireFormat {
  import opened Wire
  import opened Properties
  import opened Packets
  import opened PacketDecoder

  // ---------------------------------------------------------------- integers

  function Two(n: nat): (b: Bytes)
    requires n < 0x1_0000
    ensures |b| == 2
  {
    [n / 256, n % 256]
  }

  /** Section 1.5.2 and 1.5.3 of MQTT 5.0: the most significant byte comes first. */
  lemma BigEndian(a: Byte, b: Byte, c: Byte, d: Byte, n: nat, t: Bytes)
    ensures U16([a, b] + t) == Ok(256 * a as int + b, 2)
    ensures U32([a, b, c, d] + t) == Ok(16777216 * a as int + 65536 * b as int + 256 * c as int + d, 4)
    ensures n < 0x1_0000 ==> U16Bytes(n) == Two(n)
  {
    assert ([a, b] + t)[0] == a && ([a, b] + t)[1] == b;
    var s := [a, b, c, d] + t;
    assert s[0] == a && s[1] == b && s[2] == c && s[3] == d;
    assert n < 0x1_0000 ==> n % 0x1_0000 == n && n % 0x100 == n % 256;
  }

  /** Section 1.5.6: binary data behind its length. Bytes that are not there are a panic, here as above. */
  lemma BinaryMeaning(s: Bytes)
    ensures Binary(s)
         == if |s| < 2 || |s| < 2 + s[0] as int * 256 + s[1] then Panic
            else Ok(s[2..2 + s[0] as int * 256 + s[1]], 2 + s[0] as int * 256 + s[1])
    ensures (U8(s).Panic? <==> s == []) && (U16(s).Panic? <==> |s| < 2) && (U32(s).Panic? <==> |s| < 4)
    ensures U8(s).Err? || U16(s).Err? || U32(s).Err? ==> false
  {
  }

  /** Section 1.5.5: seven bits a byte, least significant first, the eighth says that more follow. */
  lemma VarIntMeaning(s: Bytes)
    ensures VarInt(s)
         == if |s| >= 1 && s[0] < 128 then Ok(s[0], 1)
            else if |s| >= 2 && s[1] < 128 then Ok(s[0] % 128 + 128 * s[1] as int, 2)
            else if |s| >= 3 && s[2] < 128 then Ok(s[0] % 128 + 128 * (s[1] % 128) as int + 16384 * s[2] as int, 3)
            else if |s| >= 4 && s[3] < 128 then
              Ok(s[0] % 128 + 128 * (s[1] % 128) as int + 16384 * (s[2] % 128) as int + 2097152 * s[3] as int, 4)
            else if |s| >= 4 then Err(InvalidRemainingLength)
            else Err(InsufficientBytes)
  {
    VarIntTurns(s, 0);
    if |s| >= 1 && s[0] >= 128 {
      VarIntTurns(s[1..], 1);
      if |s| >= 2 && s[1] >= 128 {
        VarIntTurns(s[2..], 2);
        assert s[1..][1..] == s[2..];
        if |s| >= 3 && s[2] >= 128 {
          VarIntTurns(s[3..], 3);
          assert s[2..][1..] == s[3..];
        }
      }
    }
    hide VarIntFrom;
  }

  lemma VarIntTurns(s: Bytes, inc: nat)
    requires inc < 4
    ensures s == [] ==> VarIntFrom(s, inc) == Err(InsufficientBytes)
    ensures s != [] && s[0] < 128 ==> VarIntFrom(s, inc) == Ok(s[0], 1)
    ensures s != [] && s[0] >= 128 && inc == 3 ==> VarIntFrom(s, inc) == Err(InvalidRemainingLength)
    ensures s != [] && s[0] >= 128 && inc < 3 ==>
              var rest := VarIntFrom(s[1..], inc + 1);
              VarIntFrom(s, inc) == if rest.Ok? then Ok(s[0] % 128 + 128 * rest.value, rest.used + 1) else rest
  {
  }

  // ---------------------------------------------------------------- bits

  function QoSFrom(n: nat): QoS {
    if n == 0 then QoS0 else if n == 1 then QoS1 else QoS2
  }

  /**
   * Table 2-1 and section 2.1.3: which first bytes start a packet that the decoder knows,
   * and the flags of a PUBLISH. Reserved flags are checked for PUBREL, SUBSCRIBE and
   * UNSUBSCRIBE only.
   */
  lemma FirstByteTable(b: Byte)
    ensures Blank(b).Success?
       <==> || 0x10 <= b <= 0x1F || (0x30 <= b <= 0x3F && b != 0x36 && b != 0x37 && b != 0x3E && b != 0x3F)
            || 0x40 <= b <= 0x5F || b == 0x62 || 0x70 <= b <= 0x7F || b == 0x82 || b == 0xA2 || 0xE0 <= b <= 0xEF
    ensures !Blank(b).Success? ==> Blank(b) == Failure(InvalidFormat)
    ensures Blank(b).Success? ==>
              var packet := Blank(b).value;
              && (packet.CONNECT? <==> b <= 0x1F) && (packet.PUBLISH? <==> 0x30 <= b <= 0x3F)
              && (packet.PUBACK? <==> 0x40 <= b <= 0x4F) && (packet.PUBREC? <==> 0x50 <= b <= 0x5F)
              && (packet.PUBREL? <==> b == 0x62) && (packet.PUBCOMP? <==> 0x70 <= b <= 0x7F)
              && (packet.SUBSCRIBE? <==> b == 0x82) && (packet.UNSUBSCRIBE? <==> b == 0xA2)
              && (packet.DISCONNECT? <==> b >= 0xE0)
  {
  }

  lemma PublishFlags(dup: bool, qos: QoS, retain: bool)
    ensures var b := 0x30 + (if dup then 8 else 0) + (match qos case QoS0 => 0 case QoS1 => 2 case QoS2 => 4)
                     + (if retain then 1 else 0);
            && Blank(b).Success? && Blank(b).value.PUBLISH?
            && Blank(b).value.publish.dup == dup && Blank(b).value.publish.qos == qos
            && Blank(b).value.publish.retain == retain
            && forall p: Publish :: p.dup == dup && p.qos == qos && p.retain == retain ==> PublishFirst(p) == b
  {
    match qos
    case QoS0 =>
    case QoS1 =>
    case QoS2 =>
  }

  /** Section 3.8.3.1: the bits of a subscription's option byte, and the bytes that are refused. */
  lemma OptionBits(b: Byte, t: Bytes)
    ensures var r := OptionByte([b] + t);
            if b % 4 == 3 || b >= 48 then r == Err(InvalidFormat)
            else
              && r.Ok? && r.used == 1 && r.value.qos == QoSFrom(b % 4)
              && r.value.noLocal == (b / 4 % 2 == 1) && r.value.retainAsPublished == (b / 8 % 2 == 1)
              && r.value.retainHandling
                 == if b < 16 then ReceiveAll else if b < 32 then IgnoreRetainedInitial else IgnoreRetainedAlways
  {
    assert ([b] + t)[0] == b;
  }

  /** Section 3.1.2.3: the bits of the connect flags, and the bytes that are refused. */
  lemma ConnectBits(b: Byte, t: Bytes)
    ensures var r := Flags([b] + t);
            if b % 2 == 1 || b / 8 % 4 == 3 then r == Err(InvalidFormat)
            else
              && r.Ok? && r.used == 1
              && r.value.cleanStart == (b / 2 % 2 == 1) && r.value.will == (b / 4 % 2 == 1)
              && r.value.willQos == QoSFrom(b / 8 % 4) && r.value.willRetain == (b / 32 % 2 == 1)
              && r.value.password == (b / 64 % 2 == 1) && r.value.userName == (b / 128 == 1)
  {
    assert ([b] + t)[0] == b;
  }

  /** Properties are read from version 5 on, whatever the version above; PUBLISH needs one to be known. */
  lemma PropertiesFromFive(section: Section, s: Bytes, v: Byte)
    ensures OptionalSection(section, s, v) == if v < 5 then Ok(map[], 0) else ParseSection(section, s)
    ensures PublishPropertySection(s, None).Panic?
    ensures v < 5 ==> PublishPropertySection(s, Some(v)) == Ok(None, 0)
    ensures v >= 5 ==>
              var r, f := PublishPropertySection(s, Some(v)), ParseSection(InPublish, s);
              if f.Ok? then r == Ok(Some(f.value), f.used) else r == f.PropagateFailure()
  {
    hide ParseSection;
  }

  /**
   * A Remaining Length below what the variable header takes is a panic. When the version is
   * not known, SUBSCRIBE is refused, and UNSUBSCRIBE and PUBLISH panic.
   */
  lemma ShortPublish(p: Publish, s: Bytes, remaining: nat, version: Option<Byte>)
    requires PublishFields(p, s, version).Ok?
    ensures version.Some?
    ensures PublishVariableHeader(p, s, remaining, version).Panic? <==> remaining < PublishFields(p, s, version).used
    ensures !PublishVariableHeader(p, s, remaining, version).Err?
  {
    hide Utf8;
  }

  lemma ShortSubscribe(p: Subscribe, s: Bytes, remaining: nat, version: Option<Byte>)
    ensures version.None? ==> SubscribeVariableHeader(p, s, remaining, version) == Err(Unexpected)
    ensures version.Some? && |s| < 2 ==> SubscribeVariableHeader(p, s, remaining, version).Panic?
    ensures version.Some? && |s| >= 2 ==>
              var section := OptionalSection(InSubscribe, s[2..], version.value);
              && (section.Ok? && remaining < 2 + section.used ==>
                    SubscribeVariableHeader(p, s, remaining, version).Panic?)
              && (section.Ok? && remaining >= 2 + section.used ==>
                    SubscribeVariableHeader(p, s, remaining, version).Ok?)
  {
    hide OptionalSection;
  }

  lemma ShortUnsubscribe(p: Unsubscribe, s: Bytes, remaining: nat, version: Option<Byte>)
    ensures version.None? || |s| < 2 ==> UnsubscribeVariableHeader(p, s, remaining, version).Panic?
    ensures version.Some? && |s| >= 2 ==>
              var section := OptionalSection(InUnsubscribe, s[2..], version.value);
              && (section.Ok? && remaining < 2 + section.used ==>
                    UnsubscribeVariableHeader(p, s, remaining, version).Panic?)
              && (section.Ok? && remaining >= 2 + section.used ==>
                    UnsubscribeVariableHeader(p, s, remaining, version).Ok?)
  {
    hide OptionalSection;
  }

  // ---------------------------------------------------------------- what the server writes

  // A reason string and user properties, with their length in front.
  function ReasonSection(properties: Bytes): Bytes {
    EncodeVarInt(|properties|) + properties
  }

  /** SUBACK and UNSUBACK, sections 3.9 and 3.11. */
  lemma CodesBytes(c: Codes)
    requires TypedReason(c.properties)
    ensures var section := ReasonProperties(c.properties);
            if c.version >= 5 && !section.Success? then
              Encode(SUBACK(c)) == Encode(UNSUBACK(c)) == section.PropagateFailure()
            else
              var body := Two(c.packetId) + (if c.version >= 5 then ReasonSection(section.value) else []) + c.reasons;
              && Encode(SUBACK(c)) == Success([0x90] + EncodeVarInt(|body|) + body)
              && Encode(UNSUBACK(c)) == Success([0xB0] + EncodeVarInt(|body|) + body)
  {
    hide ReasonProperties, EncodeVarInt, U16Bytes;
    BigEndian(0, 0, 0, 0, c.packetId, []);
    var section := ReasonProperties(c.properties);
    if c.version < 5 || section.Success? {
      var front := Two(c.packetId) + if c.version >= 5 then ReasonSection(section.value) else [];
      var length := EncodeVarInt(|front + c.reasons|);
      assert c.version >= 5 ==>
          Two(c.packetId) + EncodeVarInt(|section.value|) + section.value
            == Two(c.packetId) + ReasonSection(section.value);
      assert Two(c.packetId) + [] == Two(c.packetId);
      assert ([0x90] + length + front) + c.reasons == [0x90] + length + (front + c.reasons);
      assert ([0xB0] + length + front) + c.reasons == [0xB0] + length + (front + c.reasons);
    }
  }

  function AckByte(packet: ControlPacket): Byte
    requires packet.PUBACK? || packet.PUBREC? || packet.PUBREL? || packet.PUBCOMP?
  {
    match packet
    case PUBACK(_) => 0x40
    case PUBREC(_) => 0x50
    case PUBREL(_) => 0x62
    case PUBCOMP(_) => 0x70
  }

  /**
   * The acknowledgements, sections 3.4 to 3.7: two bytes below version 5 or without reason
   * and properties, otherwise identifier, reason, property length and properties in this
   * order. Properties without a reason are left out by PUBACK and PUBREC; PUBREL and
   * PUBCOMP count them and do not write them.
   */
  lemma AckBytes(packet: ControlPacket)
    requires packet.PUBACK? || packet.PUBREC? || packet.PUBREL? || packet.PUBCOMP?
    requires TypedReason(packet.ack.properties)
    ensures var a, first, section := packet.ack, AckByte(packet), ReasonProperties(packet.ack.properties);
            var counted := (packet.PUBREL? || packet.PUBCOMP?) && a.properties.Some?;
            if a.version < 5 || (a.reason.None? && !counted) then
              Encode(packet) == Success([first, 2] + Two(a.packetId))
            else if !section.Success? then Encode(packet) == section.PropagateFailure()
            else if a.reason.None? then
              Encode(packet) == Success([first] + EncodeVarInt(3 + |ReasonSection(section.value)|) + Two(a.packetId))
            else
              var body := Two(a.packetId) + [a.reason.value] + ReasonSection(section.value);
              Encode(packet) == Success([first] + EncodeVarInt(|body|) + body)
  {
    hide ReasonProperties, EncodeVarInt, AckHeader;
    var a := packet.ack;
    match packet
    case PUBACK(_) => HeaderBytes(Puback, a); HeaderIsAll(packet, Puback);
    case PUBREC(_) => HeaderBytes(Pubrec, a); HeaderIsAll(packet, Pubrec);
    case PUBREL(_) => HeaderBytes(Pubrel, a); HeaderIsAll(packet, Pubrel);
    case PUBCOMP(_) => HeaderBytes(Pubcomp, a); HeaderIsAll(packet, Pubcomp);
    hide Encode;
  }

  lemma HeaderIsAll(packet: ControlPacket, kind: AckKind)
    requires TypedPacket(packet) && PayloadChunk(packet) == []
    requires packet.PUBACK? || packet.PUBREC? || packet.PUBREL? || packet.PUBCOMP?
    requires EncodeHeader(packet) == AckHeader(kind, packet.ack)
    ensures Encode(packet) == AckHeader(kind, packet.ack)
  {
    hide AckHeader, EncodeHeader, PayloadChunk;
    if EncodeHeader(packet).Success? {
      assert EncodeHeader(packet).value + [] == EncodeHeader(packet).value;
    }
  }

  // The same of the header that the four share.
  lemma HeaderBytes(kind: AckKind, a: Ack)
    requires TypedReason(a.properties)
    ensures var section, first := ReasonProperties(a.properties), AckFirst(kind);
            var counted := (kind == Pubrel || kind == Pubcomp) && a.properties.Some?;
            if a.version < 5 || (a.reason.None? && !counted) then
              AckHeader(kind, a) == Success([first, 2] + Two(a.packetId))
            else if !section.Success? then AckHeader(kind, a) == section.PropagateFailure()
            else if a.reason.None? then
              AckHeader(kind, a)
                == Success([first] + EncodeVarInt(3 + |ReasonSection(section.value)|) + Two(a.packetId))
            else
              var body := Two(a.packetId) + [a.reason.value] + ReasonSection(section.value);
              AckHeader(kind, a) == Success([first] + EncodeVarInt(|body|) + body)
  {
    hide ReasonProperties, U16Bytes, AckFirst;
    BigEndian(0, 0, 0, 0, a.packetId, []);
    assert EncodeVarInt(2) == [2];
    hide EncodeVarInt;
    var section, first := ReasonProperties(a.properties), AckFirst(kind);
    if !AckCounts(kind, a) {
      assert [first] + [2] + Two(a.packetId) == [first, 2] + Two(a.packetId);
    } else if section.Success? {
      var length := EncodeVarInt(|section.value|);
      assert Two(a.packetId) + [] == Two(a.packetId);
      if a.reason.Some? {
        assert Two(a.packetId) + ([a.reason.value] + length + section.value)
            == Two(a.packetId) + [a.reason.value] + ReasonSection(section.value);
      }
    }
  }

  /** CONNACK, section 3.2: session flag, reason, and at version 5 a property section. */
  lemma ConnackBytes(c: Connack)
    ensures var flag := if c.sessionPresent then 1 else 0;
            var properties := if c.properties.Some? then c.properties.value else [];
            Encode(CONNACK(c))
              == Success(if c.version != 5 then [0x20, 2, flag, c.reason]
                         else [0x20] + EncodeVarInt(3 + |properties|)
                              + ([flag, c.reason] + EncodeVarInt(|properties|) + properties))
  {
    assert EncodeVarInt(2) == [2];
    hide EncodeVarInt;
    assert ConnackHeader(c) + [] == ConnackHeader(c);
    assert [0x20] + [2] + [Bit(c.sessionPresent), c.reason] == [0x20, 2, Bit(c.sessionPresent), c.reason];
  }

  /**
   * PUBLISH, section 3.3: type and flags, then topic, identifier above QoS 0, property
   * section at version 5, and payload.
   */
  lemma PublishBytes(p: Publish)
    requires TypedPublish(p) && |p.topic| < 0x1_0000
    ensures if p.qos != QoS0 && p.packetId.None? then Encode(PUBLISH(p)).Crash?
            else
              var first := 0x30 + (if p.dup then 8 else 0) + (match p.qos case QoS0 => 0 case QoS1 => 2 case QoS2 => 4)
                           + (if p.retain then 1 else 0);
              var properties := if p.properties.Some? then PublishProperties(p.properties.value) else [];
              var body := Two(|p.topic|) + p.topic + (if p.qos == QoS0 then [] else Two(p.packetId.value))
                          + if p.version == 5 then EncodeVarInt(|properties|) + properties else [];
              Encode(PUBLISH(p)) == Success([first] + EncodeVarInt(|body| + p.payloadLength) + body + p.payload)
  {
    hide TypedPublish, EncodeVarInt, U16Bytes, PublishProperties;
    PublishFlags(p.dup, p.qos, p.retain);
    BigEndian(0, 0, 0, 0, |p.topic|, []);
    hide PublishFirst;
    if p.qos == QoS0 {
      assert Prefixed(p.topic) + [] == Prefixed(p.topic);
    } else if p.packetId.Some? {
      BigEndian(0, 0, 0, 0, p.packetId.value, []);
    }
  }
}
