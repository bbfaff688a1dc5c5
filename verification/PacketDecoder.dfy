// Decoding one control packet: the fixed header, then the variable header, then the
// payload, each by its own function on the bytes that are left.
module PacketDecoder {
  import opened Wire
  import opened Properties
  import opened Packets

  // ---------------------------------------------------------------- fixed header

  const DEFAULT_CONNECT := Connect([], 0, ConnectFlags(false, false, false, QoS0, false, false), 0, map[],
                                   [], map[], None, None, None, None)

  function QoSOf(bits: nat): Option<QoS> {
    if bits == 0 then Some(QoS0)
    else if bits == 1 then Some(QoS1)
    else if bits == 2 then Some(QoS2)
    else None
  }

  /** The packet type and flags in the first byte, as a packet that is otherwise default. */
  function Blank(first: Byte): Outcome<ControlPacket> {
    match first / 16
    case 1 => Success(CONNECT(DEFAULT_CONNECT))
    case 3 =>
      (match QoSOf(first / 2 % 4)
       case None => Failure(InvalidFormat)
       case Some(qos) =>
         Success(PUBLISH(DEFAULT_PUBLISH.(dup := first / 8 % 2 == 1, qos := qos, retain := first % 2 == 1))))
    case 4 => Success(PUBACK(DEFAULT_ACK))
    case 5 => Success(PUBREC(DEFAULT_ACK))
    case 6 => if first != 0x62 then Failure(InvalidFormat) else Success(PUBREL(DEFAULT_ACK))
    case 7 => Success(PUBCOMP(DEFAULT_ACK))
    case 8 => if first != 0x82 then Failure(InvalidFormat) else Success(SUBSCRIBE(Subscribe(0, map[], [], 0)))
    case 10 => if first != 0xA2 then Failure(InvalidFormat) else Success(UNSUBSCRIBE(Unsubscribe(0, map[], [], 0)))
    case 14 => Success(DISCONNECT(Disconnect(0, None)))
    case _ => Failure(InvalidFormat)
  }

  /** The blank packet and its Remaining Length. */
  function FixedHeader(s: Bytes): (r: Parsed<(ControlPacket, nat)>)
    ensures r.Ok? ==> 2 <= r.used <= |s|
  {
    if |s| == 0 then Panic
    else
      match Blank(s[0])
      case Crash => Panic
      case Failure(e) => Err(e)
      case Success(packet) =>
        var (length, n) :- VarInt(s[1..]);
        Ok((packet, length), n + 1)
  }

  // ---------------------------------------------------------------- variable headers

  /** The identifiers and properties of PUBLISH; what follows them is payload. */
  function PublishFields(p: Publish, s: Bytes, version: Option<Byte>): (r: Parsed<Publish>)
    ensures r.Ok? ==> |r.value.topic| < 0x1_0000 && 2 + |r.value.topic| + IdLength(r.value) <= r.used <= |s|
  {
    var (topic, n) :- Utf8(s);
    var (packetId, m) :- PublishPacketId(p, s[n..]);
    var (properties, k) :- PublishPropertySection(s[n + m..], version);
    Ok(p.(topic := topic, packetId := packetId, properties := properties), n + m + k)
  }

  function PublishPacketId(p: Publish, s: Bytes): (r: Parsed<Option<PacketId>>)
    ensures r.Ok? ==> r.used == IdLength(p) <= |s|
  {
    if p.qos == QoS0 then Ok(p.packetId, 0)
    else if |s| < 1 then Err(InsufficientBytes)
    else
      var (id, n) :- U16(s);
      Ok(Some(id), n)
  }

  function PublishPropertySection(s: Bytes, version: Option<Byte>): (r: Parsed<Option<Fields>>)
    ensures r.Ok? ==> r.used <= |s|
  {
    match version
    case None => Panic
    case Some(v) =>
      if v < 5 then Ok(None, 0)
      else
        var (f, n) :- ParseSection(InPublish, s);
        Ok(Some(f), n)
  }

  function PublishVariableHeader(p: Publish, s: Bytes, remaining: nat, version: Option<Byte>)
    : (r: Parsed<Publish>)
    ensures r.Ok? ==> 2 <= r.used <= |s| && r.used + r.value.payloadLength == remaining
  {
    var (q, n) :- PublishFields(p, s, version);
    if remaining < n then Panic else Ok(q.(payloadLength := remaining - n), n)
  }

  function AckVariableHeader(a: Ack, s: Bytes, version: Option<Byte>): (r: Parsed<Ack>)
    ensures r.Ok? ==> r.used == 2 <= |s|
  {
    var (id, n) :- U16(s);
    Ok(a.(packetId := id, version := if version.Some? then version.value else 0), n)
  }

  function PubrelReason(s: Bytes): (r: Parsed<Byte>)
    ensures r.Ok? ==> r.used == 1 <= |s| && r.value == s[0] && (s[0] == 0x00 || s[0] == 0x92)
  {
    if |s| == 0 || (s[0] != 0x00 && s[0] != 0x92) then Err(InvalidFormat) else Ok(s[0], 1)
  }

  function PubrelTail(a: Ack, s: Bytes, version: Option<Byte>): (r: Parsed<Ack>)
    ensures r.Ok? ==> r.used <= |s|
  {
    var (reason, n) :- PubrelReason(s);
    var b := a.(reason := Some(reason));
    match version
    case None => Panic
    case Some(v) =>
      if v < 5 then Ok(b, n)
      else
        var (f, m) :- ParseSection(InPubrel, s[n..]);
        Ok(if f == map[] then b else b.(properties := Some(f)), n + m)
  }

  function PubrelVariableHeader(a: Ack, s: Bytes, remaining: nat, version: Option<Byte>): (r: Parsed<Ack>)
    ensures r.Ok? ==> 2 <= r.used <= |s|
  {
    var (id, n) :- U16(s);
    var b := a.(packetId := id);
    if remaining == 2 then Ok(b, n)
    else
      var (c, m) :- PubrelTail(b, s[n..], version);
      Ok(c, n + m)
  }

  function OptionalSection(section: Section, s: Bytes, version: Byte): (r: Parsed<Fields>)
    ensures r.Ok? ==> r.used <= |s|
  {
    if version < 5 then Ok(map[], 0) else ParseSection(section, s)
  }

  function SubscribeVariableHeader(p: Subscribe, s: Bytes, remaining: nat, version: Option<Byte>)
    : (r: Parsed<Subscribe>)
    ensures r.Ok? ==> 2 <= r.used <= |s| && r.used + r.value.payloadLength == remaining
  {
    if version.None? then Err(Unexpected)
    else
      var (id, n) :- U16(s);
      var (f, m) :- OptionalSection(InSubscribe, s[n..], version.value);
      if remaining < n + m then Panic
      else Ok(p.(packetId := id, properties := f, payloadLength := remaining - (n + m)), n + m)
  }

  function UnsubscribeVariableHeader(p: Unsubscribe, s: Bytes, remaining: nat, version: Option<Byte>)
    : (r: Parsed<Unsubscribe>)
    ensures r.Ok? ==> 2 <= r.used <= |s| && r.used + r.value.payloadLength == remaining
  {
    var (id, n) :- U16(s);
    if version.None? then Panic
    else
      var (f, m) :- OptionalSection(InUnsubscribe, s[n..], version.value);
      if remaining < n + m then Panic
      else Ok(p.(packetId := id, properties := f, payloadLength := remaining - (n + m)), n + m)
  }

  function ProtocolName(s: Bytes): (r: Parsed<Bytes>)
    ensures r.Ok? ==> r.used <= |s|
  {
    var (name, n) :- Binary(s);
    if ValidUtf8(name) then Ok(name, n) else Err(InvalidFormat)
  }

  function Flags(s: Bytes): (r: Parsed<ConnectFlags>)
    ensures r.Ok? ==> r.used <= |s|
  {
    var (b, n) :- U8(s);
    if b % 2 == 1 then Err(InvalidFormat)
    else
      match QoSOf(b / 8 % 4)
      case None => Err(InvalidFormat)
      case Some(qos) =>
        Ok(ConnectFlags(b / 128 % 2 == 1, b / 64 % 2 == 1, b / 32 % 2 == 1, qos, b / 4 % 2 == 1, b / 2 % 2 == 1), n)
  }

  /** Name, version, flags and keep-alive; properties follow at version 5. */
  function ConnectFields(c: Connect, s: Bytes): (r: Parsed<Connect>)
    ensures r.Ok? ==> 2 <= r.used <= |s|
  {
    var (name, n0) :- ProtocolName(s);
    var (version, n1) :- U8(s[n0..]);
    var (flags, n2) :- Flags(s[n0 + n1..]);
    var (keepAlive, n3) :- U16(s[n0 + n1 + n2..]);
    Ok(c.(protocolName := name, protocolVersion := version, flags := flags, keepAlive := keepAlive), n0 + n1 + n2 + n3)
  }

  function ConnectVariableHeader(c: Connect, s: Bytes): (r: Parsed<Connect>)
    ensures r.Ok? ==> 2 <= r.used <= |s|
  {
    var (d, n) :- ConnectFields(c, s);
    if d.protocolVersion != 5 then Ok(d, n)
    else
      var (f, m) :- ParseSection(InConnect, s[n..]);
      Ok(d.(properties := f), n + m)
  }

  predicate KnownDisconnectReason(b: Byte) {
    b in {0x00, 0x04, 0x80, 0x81, 0x82, 0x83, 0x87, 0x89, 0x8B, 0x8D, 0x8E, 0x8F, 0x90, 0x93, 0x94, 0x95,
          0x96, 0x97, 0x98, 0x99, 0x9A, 0x9B, 0x9C, 0x9D, 0x9E, 0x9F, 0xA0, 0xA1, 0xA2}
  }

  function DisconnectVariableHeader(d: Disconnect, s: Bytes, remaining: nat, version: Option<Byte>)
    : (r: Parsed<Disconnect>)
    ensures r.Ok? ==> r.used <= |s| && (r.used == 0 <==> remaining == 0)
  {
    if remaining == 0 then Ok(d.(reason := 0), 0)
    else if |s| == 0 || !KnownDisconnectReason(s[0]) then Err(InvalidFormat)
    else if version.None? then Panic
    else if version.value < 5 then Ok(d.(reason := s[0]), 1)
    else
      var (f, n) :- ParseSection(InDisconnect, s[1..]);
      Ok(Disconnect(s[0], Some(f)), n + 1)
  }

  function VariableHeader(packet: ControlPacket, s: Bytes, remaining: nat, version: Option<Byte>)
    : (r: Parsed<ControlPacket>)
    ensures r.Ok? ==> r.used <= |s|
  {
    match packet
    case CONNECT(c) =>
      var (d, n) :- ConnectVariableHeader(c, s);
      Ok(CONNECT(d), n)
    case PUBLISH(p) =>
      var (q, n) :- PublishVariableHeader(p, s, remaining, version);
      Ok(PUBLISH(q), n)
    case SUBSCRIBE(p) =>
      var (q, n) :- SubscribeVariableHeader(p, s, remaining, version);
      Ok(SUBSCRIBE(q), n)
    case UNSUBSCRIBE(p) =>
      var (q, n) :- UnsubscribeVariableHeader(p, s, remaining, version);
      Ok(UNSUBSCRIBE(q), n)
    case PINGREQ => Ok(PINGREQ, 0)
    case DISCONNECT(d) =>
      var (e, n) :- DisconnectVariableHeader(d, s, remaining, version);
      Ok(DISCONNECT(e), n)
    case PUBREL(a) =>
      var (b, n) :- PubrelVariableHeader(a, s, remaining, version);
      Ok(PUBREL(b), n)
    case PUBACK(a) =>
      var (b, n) :- AckVariableHeader(a, s, version);
      Ok(PUBACK(b), n)
    case PUBREC(a) =>
      var (b, n) :- AckVariableHeader(a, s, version);
      Ok(PUBREC(b), n)
    case PUBCOMP(a) =>
      var (b, n) :- AckVariableHeader(a, s, version);
      Ok(PUBCOMP(b), n)
    case _ => Err(NotImplemented)
  }

  // ---------------------------------------------------------------- payloads

  function OptionByte(s: Bytes): (r: Parsed<SubscribeOption>)
    ensures r.Ok? ==> r.used == 1 <= |s|
  {
    var (b, n) :- U8(s);
    match QoSOf(b % 4)
    case None => Err(InvalidFormat)
    case Some(qos) =>
      var noLocal, retainAsPublished := b / 4 % 2 == 1, b / 8 % 2 == 1;
      if b / 16 == 0 then Ok(SubscribeOption(ReceiveAll, retainAsPublished, noLocal, qos), n)
      else if b / 16 == 1 then Ok(SubscribeOption(IgnoreRetainedInitial, retainAsPublished, noLocal, qos), n)
      else if b / 16 == 2 then Ok(SubscribeOption(IgnoreRetainedAlways, retainAsPublished, noLocal, qos), n)
      else Err(InvalidFormat)
  }

  function Subscription(s: Bytes): (r: Parsed<(Bytes, SubscribeOption)>)
    ensures r.Ok? ==> 3 <= r.used <= |s|
  {
    var (filter, n) :- Utf8(s);
    var (option, m) :- OptionByte(s[n..]);
    Ok((filter, option), n + m)
  }

  /** The SUBSCRIBE payload: at least one pair, up to exactly `left` bytes. */
  function Subscriptions(s: Bytes, left: nat): (r: Parsed<seq<(Bytes, SubscribeOption)>>)
    ensures r.Ok? ==> r.used == left <= |s|
    decreases |s|
  {
    var (x, n) :- Subscription(s);
    if n == left then Ok([x], n)
    else if n > left then Err(Unexpected)
    else
      var (xs, m) :- Subscriptions(s[n..], left - n);
      Ok([x] + xs, n + m)
  }

  /** The UNSUBSCRIBE payload: filters up to exactly `left` bytes. */
  function Filters(s: Bytes, left: int): (r: Parsed<seq<Bytes>>)
    ensures r.Ok? ==> r.used == left <= |s|
    decreases |s|
  {
    if left == 0 then Ok([], 0)
    else if left < 0 then Err(InvalidFormat)
    else
      var (x, n) :- Utf8(s);
      var (xs, m) :- Filters(s[n..], left - n);
      Ok([x] + xs, n + m)
  }

  function WillPart(c: Connect, s: Bytes): (r: Parsed<Connect>)
    ensures r.Ok? ==> r.used <= |s|
  {
    if !c.flags.will then Ok(c, 0)
    else
      var (f, n) :- ParseSection(InWill, s);
      var (topic, m) :- Utf8(s[n..]);
      var (payload, k) :- Binary(s[n + m..]);
      Ok(c.(willProperties := f, willTopic := Some(topic), willPayload := Some(payload)), n + m + k)
  }

  function UserNamePart(c: Connect, s: Bytes): (r: Parsed<Connect>)
    ensures r.Ok? ==> r.used <= |s|
  {
    if !c.flags.userName then Ok(c, 0)
    else
      var (name, n) :- Utf8(s);
      Ok(c.(userName := Some(name)), n)
  }

  function PasswordPart(c: Connect, s: Bytes): (r: Parsed<Connect>)
    ensures r.Ok? ==> r.used <= |s|
  {
    if !c.flags.password then Ok(c, 0)
    else
      var (word, n) :- Binary(s);
      Ok(c.(password := Some(word)), n)
  }

  function CredentialsPart(c: Connect, s: Bytes): (r: Parsed<Connect>)
    ensures r.Ok? ==> r.used <= |s|
  {
    var (d, n) :- UserNamePart(c, s);
    var (e, m) :- PasswordPart(d, s[n..]);
    Ok(e, n + m)
  }

  function ConnectPayload(c: Connect, s: Bytes): (r: Parsed<Connect>)
    ensures r.Ok? ==> r.used <= |s|
  {
    var (id, n0) :- Utf8(s);
    var (c1, n1) :- WillPart(c.(clientId := id), s[n0..]);
    var (c2, n2) :- CredentialsPart(c1, s[n0 + n1..]);
    Ok(c2, n0 + n1 + n2)
  }

  function PublishPayload(p: Publish, s: Bytes): (r: Parsed<Publish>)
    ensures r.Ok? ==> r.used == p.payloadLength <= |s|
  {
    if |s| < p.payloadLength then Err(InsufficientBytes)
    else Ok(p.(payload := s[..p.payloadLength]), p.payloadLength)
  }

  function Payload(packet: ControlPacket, s: Bytes): (r: Parsed<ControlPacket>)
    ensures r.Ok? ==> r.used <= |s|
  {
    match packet
    case CONNECT(c) =>
      var (d, n) :- ConnectPayload(c, s);
      Ok(CONNECT(d), n)
    case PUBLISH(p) =>
      var (q, n) :- PublishPayload(p, s);
      Ok(PUBLISH(q), n)
    case SUBSCRIBE(p) =>
      if p.payloadLength == 0 then Err(Unexpected)
      else
        var (xs, n) :- Subscriptions(s, p.payloadLength);
        Ok(SUBSCRIBE(p.(filters := p.filters + xs)), n)
    case UNSUBSCRIBE(p) =>
      var (xs, n) :- Filters(s, p.payloadLength);
      Ok(UNSUBSCRIBE(p.(filters := p.filters + xs)), n)
    case PINGREQ => Ok(packet, 0)
    case PUBREL(_) => Ok(packet, 0)
    case DISCONNECT(_) => Ok(packet, 0)
    case PUBACK(_) => Ok(packet, 0)
    case PUBREC(_) => Ok(packet, 0)
    case PUBCOMP(_) => Ok(packet, 0)
    case _ => Err(NotImplemented)
  }

  // ---------------------------------------------------------------- prefix stability

  lemma FixedHeaderStable(s: Bytes, t: Bytes)
    requires FixedHeader(s).Ok?
    ensures FixedHeader(s + t) == FixedHeader(s)
  {
    hide Blank, VarInt;
    DropAppend(s, t, 1);
    VarIntStable(s[1..], t);
  }

  lemma PublishPropertySectionStable(s: Bytes, version: Option<Byte>, t: Bytes)
    requires PublishPropertySection(s, version).Ok?
    ensures PublishPropertySection(s + t, version) == PublishPropertySection(s, version)
  {
    hide ParseSection;
    if version.value >= 5 {
      SectionStable(InPublish, s, t);
    }
  }

  lemma PublishVariableHeaderStable(p: Publish, s: Bytes, remaining: nat, version: Option<Byte>, t: Bytes)
    requires PublishVariableHeader(p, s, remaining, version).Ok?
    ensures PublishVariableHeader(p, s + t, remaining, version) == PublishVariableHeader(p, s, remaining, version)
  {
    hide Utf8, PublishPropertySection;
    var n := Utf8(s).used;
    Utf8Stable(s, t);
    DropAppend(s, t, n);
    var m := PublishPacketId(p, s[n..]).used;
    DropAppend(s, t, n + m);
    PublishPropertySectionStable(s[n + m..], version, t);
  }

  lemma PubrelVariableHeaderStable(a: Ack, s: Bytes, remaining: nat, version: Option<Byte>, t: Bytes)
    requires PubrelVariableHeader(a, s, remaining, version).Ok?
    ensures PubrelVariableHeader(a, s + t, remaining, version) == PubrelVariableHeader(a, s, remaining, version)
  {
    hide ParseSection;
    if remaining != 2 {
      DropAppend(s, t, 2);
      DropAppend(s[2..], t, 1);
      if version.value >= 5 {
        SectionStable(InPubrel, s[2..][1..], t);
      }
    }
  }

  lemma OptionalSectionStable(section: Section, s: Bytes, version: Byte, t: Bytes)
    requires OptionalSection(section, s, version).Ok?
    ensures OptionalSection(section, s + t, version) == OptionalSection(section, s, version)
  {
    hide ParseSection;
    if version >= 5 {
      SectionStable(section, s, t);
    }
  }

  lemma SubscribeVariableHeaderStable(p: Subscribe, s: Bytes, remaining: nat, version: Option<Byte>, t: Bytes)
    requires SubscribeVariableHeader(p, s, remaining, version).Ok?
    ensures SubscribeVariableHeader(p, s + t, remaining, version) == SubscribeVariableHeader(p, s, remaining, version)
  {
    hide OptionalSection;
    DropAppend(s, t, 2);
    OptionalSectionStable(InSubscribe, s[2..], version.value, t);
  }

  lemma UnsubscribeVariableHeaderStable(p: Unsubscribe, s: Bytes, remaining: nat, version: Option<Byte>, t: Bytes)
    requires UnsubscribeVariableHeader(p, s, remaining, version).Ok?
    ensures UnsubscribeVariableHeader(p, s + t, remaining, version)
              == UnsubscribeVariableHeader(p, s, remaining, version)
  {
    hide OptionalSection;
    DropAppend(s, t, 2);
    OptionalSectionStable(InUnsubscribe, s[2..], version.value, t);
  }

  lemma ConnectFieldsStable(c: Connect, s: Bytes, t: Bytes)
    requires ConnectFields(c, s).Ok?
    ensures ConnectFields(c, s + t) == ConnectFields(c, s)
  {
    hide ValidUtf8, Binary, QoSOf;
    BinaryStable(s, t);
    var n0 := Binary(s).used;
    DropAppend(s, t, n0);
    DropAppend(s, t, n0 + 1);
    DropAppend(s, t, n0 + 2);
  }

  lemma ConnectVariableHeaderStable(c: Connect, s: Bytes, t: Bytes)
    requires ConnectVariableHeader(c, s).Ok?
    ensures ConnectVariableHeader(c, s + t) == ConnectVariableHeader(c, s)
  {
    hide ConnectFields, ParseSection;
    ConnectFieldsStable(c, s, t);
    var fields := ConnectFields(c, s);
    DropAppend(s, t, fields.used);
    if fields.value.protocolVersion == 5 {
      SectionStable(InConnect, s[fields.used..], t);
    }
  }

  lemma DisconnectVariableHeaderStable(d: Disconnect, s: Bytes, remaining: nat, version: Option<Byte>, t: Bytes)
    requires DisconnectVariableHeader(d, s, remaining, version).Ok?
    ensures DisconnectVariableHeader(d, s + t, remaining, version) == DisconnectVariableHeader(d, s, remaining, version)
  {
    hide ParseSection, KnownDisconnectReason;
    if remaining != 0 {
      DropAppend(s, t, 1);
      if version.value >= 5 {
        SectionStable(InDisconnect, s[1..], t);
      }
    }
  }

  /** A variable header that decodes is not changed by bytes that arrive later. */
  lemma VariableHeaderStable(packet: ControlPacket, s: Bytes, remaining: nat, version: Option<Byte>, t: Bytes)
    requires VariableHeader(packet, s, remaining, version).Ok?
    ensures VariableHeader(packet, s + t, remaining, version) == VariableHeader(packet, s, remaining, version)
  {
    hide ConnectVariableHeader, PublishVariableHeader, SubscribeVariableHeader, UnsubscribeVariableHeader,
      DisconnectVariableHeader, PubrelVariableHeader;
    match packet
    case CONNECT(c) => ConnectVariableHeaderStable(c, s, t);
    case PUBLISH(p) => PublishVariableHeaderStable(p, s, remaining, version, t);
    case SUBSCRIBE(p) => SubscribeVariableHeaderStable(p, s, remaining, version, t);
    case UNSUBSCRIBE(p) => UnsubscribeVariableHeaderStable(p, s, remaining, version, t);
    case DISCONNECT(d) => DisconnectVariableHeaderStable(d, s, remaining, version, t);
    case PUBREL(a) => PubrelVariableHeaderStable(a, s, remaining, version, t);
    case _ =>
  }

  lemma SubscriptionStable(s: Bytes, t: Bytes)
    requires Subscription(s).Ok?
    ensures Subscription(s + t) == Subscription(s)
  {
    hide Utf8, QoSOf;
    Utf8Stable(s, t);
    DropAppend(s, t, Utf8(s).used);
  }

  lemma {:induction false} SubscriptionsStable(s: Bytes, left: nat, t: Bytes)
    requires Subscriptions(s, left).Ok?
    ensures Subscriptions(s + t, left) == Subscriptions(s, left)
    decreases |s|
  {
    hide Subscription;
    SubscriptionStable(s, t);
    var n := Subscription(s).used;
    if n < left {
      DropAppend(s, t, n);
      SubscriptionsStable(s[n..], left - n, t);
    }
  }

  lemma {:induction false} FiltersStable(s: Bytes, left: int, t: Bytes)
    requires Filters(s, left).Ok?
    ensures Filters(s + t, left) == Filters(s, left)
    decreases |s|
  {
    hide Utf8;
    if left > 0 {
      Utf8Stable(s, t);
      var n := Utf8(s).used;
      DropAppend(s, t, n);
      FiltersStable(s[n..], left - n, t);
    }
  }

  lemma WillPartStable(c: Connect, s: Bytes, t: Bytes)
    requires WillPart(c, s).Ok?
    ensures WillPart(c, s + t) == WillPart(c, s)
  {
    hide ParseSection, Utf8, Binary;
    if c.flags.will {
      SectionStable(InWill, s, t);
      var n := ParseSection(InWill, s).used;
      DropAppend(s, t, n);
      Utf8Stable(s[n..], t);
      var m := Utf8(s[n..]).used;
      DropAppend(s, t, n + m);
      BinaryStable(s[n + m..], t);
    }
  }

  lemma CredentialsPartStable(c: Connect, s: Bytes, t: Bytes)
    requires CredentialsPart(c, s).Ok?
    ensures CredentialsPart(c, s + t) == CredentialsPart(c, s)
  {
    hide Utf8, Binary;
    if c.flags.userName {
      Utf8Stable(s, t);
    }
    var n := UserNamePart(c, s).used;
    DropAppend(s, t, n);
    if c.flags.password {
      BinaryStable(s[n..], t);
    }
  }

  lemma ConnectPayloadStable(c: Connect, s: Bytes, t: Bytes)
    requires ConnectPayload(c, s).Ok?
    ensures ConnectPayload(c, s + t) == ConnectPayload(c, s)
  {
    hide Utf8, Binary, WillPart, CredentialsPart;
    Utf8Stable(s, t);
    var n0 := Utf8(s).used;
    DropAppend(s, t, n0);
    var c0 := c.(clientId := Utf8(s).value);
    WillPartStable(c0, s[n0..], t);
    var n1 := WillPart(c0, s[n0..]).used;
    DropAppend(s, t, n0 + n1);
    CredentialsPartStable(WillPart(c0, s[n0..]).value, s[n0 + n1..], t);
  }

  /** A payload that decodes is not changed by bytes that arrive later. */
  lemma PayloadStable(packet: ControlPacket, s: Bytes, t: Bytes)
    requires Payload(packet, s).Ok?
    ensures Payload(packet, s + t) == Payload(packet, s)
  {
    hide ConnectPayload, Subscriptions, Filters;
    match packet
    case CONNECT(c) => ConnectPayloadStable(c, s, t);
    case PUBLISH(p) => assert (s + t)[..p.payloadLength] == s[..p.payloadLength];
    case SUBSCRIBE(p) => SubscriptionsStable(s, p.payloadLength, t);
    case UNSUBSCRIBE(p) => FiltersStable(s, p.payloadLength, t);
    case _ =>
  }

  // ---------------------------------------------------------------- SUBSCRIBE and UNSUBSCRIBE, printed

  function HandlingBits(h: RetainHandling): (n: nat)
    ensures n <= 2
  {
    match h
    case ReceiveAll => 0
    case IgnoreRetainedInitial => 1
    case IgnoreRetainedAlways => 2
  }

  /** Section 3.8.3.1 of MQTT 5.0: QoS in bits 0-1, No Local, Retain As Published, Retain Handling in bits 4-5. */
  function PrintOption(o: SubscribeOption): Byte {
    QoSBits(o.qos) + 4 * Bit(o.noLocal) + 8 * Bit(o.retainAsPublished) + 16 * HandlingBits(o.retainHandling)
  }

  predicate WireString(b: Bytes) {
    |b| < 0x1_0000 && ValidUtf8(b)
  }

  /** The payload that section 3.8.3 of MQTT 5.0 prescribes. */
  function PrintSubscriptions(xs: seq<(Bytes, SubscribeOption)>): Bytes {
    if xs == [] then [] else Prefixed(xs[0].0) + [PrintOption(xs[0].1)] + PrintSubscriptions(xs[1..])
  }

  /** The payload that section 3.10.3 of MQTT 5.0 prescribes. */
  function PrintFilters(xs: seq<Bytes>): Bytes {
    if xs == [] then [] else Prefixed(xs[0]) + PrintFilters(xs[1..])
  }

  lemma OptionRoundTrip(o: SubscribeOption, t: Bytes)
    ensures OptionByte([PrintOption(o)] + t) == Ok(o, 1)
  {
    match o.retainHandling
    case ReceiveAll =>
    case IgnoreRetainedInitial =>
    case IgnoreRetainedAlways =>
  }

  lemma SubscriptionRoundTrip(x: (Bytes, SubscribeOption), t: Bytes)
    requires WireString(x.0)
    ensures Subscription(Prefixed(x.0) + [PrintOption(x.1)] + t) == Ok(x, 3 + |x.0|)
  {
    hide Utf8, OptionByte, PrintOption, ValidUtf8, Prefixed;
    var head, rest := Prefixed(x.0), [PrintOption(x.1)] + t;
    assert head + [PrintOption(x.1)] + t == head + rest;
    Utf8RoundTrip(x.0, rest);
    assert (head + rest)[|head|..] == rest;
    OptionRoundTrip(x.1, t);
  }

  /** Any nonempty list of filters and options is read back from its printed form. */
  lemma {:induction false} SubscriptionsRoundTrip(xs: seq<(Bytes, SubscribeOption)>, t: Bytes)
    requires xs != [] && forall x :: x in xs ==> WireString(x.0)
    ensures Subscriptions(PrintSubscriptions(xs) + t, |PrintSubscriptions(xs)|) == Ok(xs, |PrintSubscriptions(xs)|)
    decreases |xs|
  {
    hide Subscription, PrintOption, Prefixed, WireString;
    assert xs[0] in xs && xs == [xs[0]] + xs[1..];
    var head, rest := Prefixed(xs[0].0) + [PrintOption(xs[0].1)], PrintSubscriptions(xs[1..]);
    assert (head + rest) + t == head + (rest + t);
    SubscriptionRoundTrip(xs[0], rest + t);
    assert (head + (rest + t))[|head|..] == rest + t;
    if |xs| > 1 {
      assert rest == Prefixed(xs[1].0) + [PrintOption(xs[1].1)] + PrintSubscriptions(xs[1..][1..]);
      SubscriptionsRoundTrip(xs[1..], t);
    } else {
      assert xs == [xs[0]] && xs[1..] == [] && rest == [];
    }
  }

  /** Any list of filters is read back from its printed form. */
  lemma {:induction false} FiltersRoundTrip(xs: seq<Bytes>, t: Bytes)
    requires forall x :: x in xs ==> WireString(x)
    ensures Filters(PrintFilters(xs) + t, |PrintFilters(xs)|) == Ok(xs, |PrintFilters(xs)|)
    decreases |xs|
  {
    hide Utf8, Prefixed, ValidUtf8;
    if xs != [] {
      assert xs[0] in xs && xs == [xs[0]] + xs[1..];
      var head, rest := Prefixed(xs[0]), PrintFilters(xs[1..]);
      assert (head + rest) + t == head + (rest + t);
      Utf8RoundTrip(xs[0], rest + t);
      assert (head + (rest + t))[|head|..] == rest + t;
      FiltersRoundTrip(xs[1..], t);
    }
  }
}
