// What reaches the subscribers: who gets a message, what their connections' queues hold,
// and that every queued packet can be written and read back.
module BrokerDelivery {
  import Properties
  import PropertyPrinting
  import opened Wire
  import opened Packets
  import opened PacketDecoder
  import opened StreamDecoder
  import opened RoundTrip
  import opened WireFormat
  import opened TopicIndex
  import opened Retain
  import opened Sessions
  import opened BrokerSteps
  import opened BrokerRuns
  import opened BrokerTraces
  import opened History

  // ---------------------------------------------------------------- handlers and writers never fail

  /** No handler of a ready connection panics, and only a second CONNECT is refused. */
  lemma HandlersNeverPanic(r: Run, i: nat)
    requires IsRun(r) && i < |r.events| && r.events[i].Handles?
    ensures StepAt(r, i)
    ensures var e := r.events[i];
            var reply := Handled(r.states[i].broker, e.conn, e.packet, e.orders).1;
            reply != Panics && (!reply.Respond? <==> e.packet.CONNECT?)
  {
    assert StepAt(r, i);
    RunInv(r, i);
    var s, e := r.states[i], r.events[i];
    HandledKeeps(s.broker, e.conn, e.packet, e.orders);
    hide Handled, StagedOk, RetainedOk, TasksOk, QueuesOk, WritingOk, VersionsOk, ConnsOk, ReplyOk, Step;
  }

  lemma NoReasonProperties()
    ensures ReasonProperties(None) == Success([])
  {
  }

  lemma BodyLength(p: Publish)
    requires TypedPublish(p) && (p.qos != QoS0 ==> p.packetId.Some?)
    ensures PublishBody(p).Success?
    ensures |PublishBody(p).value| == 2 + |p.topic| + IdLength(p) + |PublishSection(p)|
  {
    hide PublishSection, PropertyPrinting.TypedFields, ValidUtf8;
  }

  // The one packet whose length may not fit: a message that got an identifier on its way.
  predicate FitsFrame(packet: ControlPacket) {
    packet.PUBLISH? ==> Fits(packet.publish)
  }

  /** Whatever the broker may send, the encoder can write; its length is honest exactly when it fits. */
  lemma OutgoingEncodes(packet: ControlPacket)
    requires Outgoing(packet)
    ensures TypedPacket(packet) && Encode(packet).Success?
    ensures Honest(Encode(packet).value) <==> FitsFrame(packet)
  {
    NoReasonProperties();
    OutgoingTyped(packet);
    if packet.PUBLISH? {
      BodyLength(packet.publish);
    }
    RemainingLengthHonesty(packet);
    hide Encode, Honest, TypedPublish, ReasonProperties, PublishBody;
  }

  lemma OutgoingTyped(packet: ControlPacket)
    requires Outgoing(packet)
    ensures TypedPacket(packet) && Encode(packet).Success? && LengthWillBeHonest(packet)
  {
    hide TypedPublish, ReasonProperties, PublishSection, EncodeVarInt;
    NoReasonProperties();
  }

  /**
   * No packet in any queue makes the writer task fail, and no queue overflows. The length
   * that is written is honest for every packet but a message that does not fit a frame.
   */
  lemma EveryQueuedPacketEncodes(r: Run, n: nat, conn: ConnId, packet: ControlPacket)
    requires IsRun(r) && n <= |r.events|
    requires conn in r.states[n].broker.queues && packet in r.states[n].broker.queues[conn].items
    ensures TypedPacket(packet) && Encode(packet).Success?
    ensures Honest(Encode(packet).value) <==> FitsFrame(packet)
    ensures |r.states[n].broker.queues[conn].items| <= 32
  {
    RunInv(r, n);
    assert QueueOk(r.states[n].broker.queues[conn]);
    OutgoingEncodes(packet);
    hide Inv, Outgoing, Encode, TypedPacket, Honest, FitsFrame;
  }

  // Whether a message leaves room for the identifier that a subscriber needs.
  predicate RoomForIdentifier(p: Publish, option: SubscribeOption) {
    p.qos != QoS0 || option.qos == QoS0 || 4 + |p.topic| + |p.payload| < VAR_INT_LIMIT
  }

  /**
   * Which those are: a message handed to a subscriber fits, and its length is honest,
   * unless the publisher used no packet identifier, the subscriber needs one, and there
   * is no room for it.
   */
  lemma DeliveredMessageHonestIff(task: Task, option: SubscribeOption, random: PacketId)
    requires TaskOk(task)
    ensures Outgoing(PUBLISH(Personal(task, option, random)))
    ensures var m := PUBLISH(Personal(task, option, random)); TypedPacket(m) && Encode(m).Success?
    ensures Fits(Personal(task, option, random)) <==> RoomForIdentifier(task.publish, option)
    ensures Honest(Encode(PUBLISH(Personal(task, option, random))).value) <==> RoomForIdentifier(task.publish, option)
  {
    PersonalSendable(task, option, random);
    OutgoingEncodes(PUBLISH(Personal(task, option, random)));
    hide Sendable, Encode, Honest;
  }

  /** The bytes that the writer makes of a reply. */
  ghost function OnTheWire(packets: seq<ControlPacket>): Bytes {
    if packets == [] then []
    else
      (if Outgoing(packets[0]) then
         OutgoingEncodes(packets[0]);
         Encode(packets[0]).value
       else [])
      + OnTheWire(packets[1..])
  }

  /**
   * What each packet is answered with, byte for byte: a QoS 1 PUBLISH with PUBACK, a QoS 2
   * one with PUBREC, PUBREC with PUBREL and PUBREL with PUBCOMP, each two bytes long and
   * with the packet identifier it answers; PINGREQ with PINGRESP; the rest with nothing.
   */
  function HandshakeBytes(packet: ControlPacket): Bytes {
    match packet
    case PUBLISH(p) =>
      if p.qos == QoS0 || p.packetId.None? then []
      else [if p.qos == QoS1 then 0x40 else 0x50, 2] + Two(p.packetId.value)
    case PUBREC(a) => [0x62, 2] + Two(a.packetId)
    case PUBREL(a) => [0x70, 2] + Two(a.packetId)
    case PINGREQ => [0xD0, 0]
    case _ => []
  }

  lemma OneOnTheWire(packet: ControlPacket)
    requires Outgoing(packet)
    ensures TypedPacket(packet) && Encode(packet).Success? && OnTheWire([packet]) == Encode(packet).value
  {
    OutgoingEncodes(packet);
    assert [packet][1..] == [];
    assert OnTheWire([]) == [];
    hide Outgoing, Encode;
    assert Encode(packet).value + [] == Encode(packet).value;
  }

  lemma AckOnTheWire(kind: AckKind, a: Ack)
    requires a.properties.None? && a.version == VERSION_3_1_1
    ensures OnTheWire([AckPacket(kind, a)]) == [AckFirst(kind), 2] + Two(a.packetId)
  {
    OneOnTheWire(AckPacket(kind, a));
    BigEndian(0, 0, 0, 0, a.packetId, []);
    hide OnTheWire, U16Bytes;
    assert EncodeVarInt(2) == [2];
    assert ([AckFirst(kind), 2] + Two(a.packetId)) + [] == [AckFirst(kind), 2] + Two(a.packetId);
    assert [AckFirst(kind)] + [2] + Two(a.packetId) == [AckFirst(kind), 2] + Two(a.packetId);
  }

  lemma NothingOnTheWire(packet: ControlPacket)
    requires packet == NOOPERATION
    ensures OnTheWire([packet]) == []
  {
    assert [packet][1..] == [];
  }

  lemma PublishAnswer(b: Broker, conn: ConnId, p: Publish)
    requires VersionsOk(b.versions) && Incoming(PUBLISH(p))
    ensures OnPublish(b, conn, p).1.Respond?
    ensures OnTheWire(OnPublish(b, conn, p).1.packets) == HandshakeBytes(PUBLISH(p))
  {
    VersionIsStamped(b, conn);
    hide OnTheWire, VersionOf, TypedPublish, Dispatched, Cleared, Sessions.Staged, VersionsOk, Two;
    match p.qos
    case QoS0 => NothingOnTheWire(NOOPERATION);
    case QoS1 => AckOnTheWire(Puback, Ack(p.packetId.value, None, None, VERSION_3_1_1));
    case QoS2 => AckOnTheWire(Pubrec, Ack(p.packetId.value, Some(0), None, VERSION_3_1_1));
  }

  /** Section 4.3 of MQTT 5.0, on the wire, at any step of any run. */
  lemma HandshakeOnTheWire(r: Run, i: nat)
    requires IsRun(r) && i < |r.events| && r.events[i].Handles?
    requires !r.events[i].packet.SUBSCRIBE? && !r.events[i].packet.CONNECT?
    ensures StepAt(r, i)
    ensures var e := r.events[i];
            var reply := Handled(r.states[i].broker, e.conn, e.packet, e.orders).1;
            reply.Respond? && OnTheWire(reply.packets) == HandshakeBytes(e.packet)
  {
    assert StepAt(r, i);
    RunInv(r, i);
    var e := r.events[i];
    AnswerOf(r.states[i].broker, e.conn, e.packet, e.orders);
    hide Handled, OnTheWire, HandshakeBytes, BrokerRuns.Step;
    hide StagedOk, RetainedOk, TasksOk, QueuesOk, WritingOk, ConnsOk;
  }

  /** The protocol names "MQTT", of versions 4 and 5, and "MQIsdp", of version 3. */
  predicate SpokenProtocol(c: Connect) {
    || (c.protocolName == [77, 81, 84, 84] && (c.protocolVersion == 4 || c.protocolVersion == 5))
    || (c.protocolName == [77, 81, 73, 115, 100, 112] && c.protocolVersion == 3)
  }

  /**
   * A CONNECT is accepted exactly if its protocol is one of those. It is answered with an
   * empty CONNACK of success, and routes its client identifier to the connection; any other
   * packet is rejected with code 130 and leaves no trace.
   */
  lemma ConnectAnswer(b: Broker, conn: ConnId, packet: ControlPacket)
    ensures var (next, reply) := OnConnect(b, conn, packet);
            if packet.CONNECT? && SpokenProtocol(packet.connect) then
              && reply.Respond? && OnTheWire(reply.packets) == [0x20, 2, 0, 0]
              && NameOf(next, conn) == packet.connect.clientId
              && Lookup(next.connOf, packet.connect.clientId) == Some(conn)
              && VersionOf(next, conn) == 4
            else next == b && reply == Rejected(130)
  {
    hide OnTheWire;
    if packet.CONNECT? && Served(packet.connect) {
      ConnackOnTheWire();
    }
  }

  lemma ConnackOnTheWire()
    ensures OnTheWire([CONNACK(Connack(false, 0, None, VERSION_3_1_1))]) == [0x20, 2, 0, 0]
  {
    OneOnTheWire(CONNACK(Connack(false, 0, None, VERSION_3_1_1)));
    assert EncodeVarInt(2) == [2];
    hide OnTheWire;
  }

  lemma AnswerOf(b: Broker, conn: ConnId, packet: ControlPacket, orders: seq<seq<Bytes>>)
    requires VersionsOk(b.versions) && Incoming(packet) && !packet.SUBSCRIBE? && !packet.CONNECT?
    ensures var reply := Handled(b, conn, packet, orders).1;
            reply.Respond? && OnTheWire(reply.packets) == HandshakeBytes(packet)
  {
    VersionIsStamped(b, conn);
    hide OnTheWire, VersionOf, OnPublish, VersionsOk, Two, TypedPublish;
    match packet
    case PUBLISH(p) => PublishAnswer(b, conn, p);
    case PUBREC(a) => AckOnTheWire(Pubrel, Ack(a.packetId, None, None, VERSION_3_1_1));
    case PUBREL(a) => AckOnTheWire(Pubcomp, Ack(a.packetId, Some(0), None, VERSION_3_1_1));
    case PINGREQ => PingrespOnTheWire();
    case _ => NothingOnTheWire(NOOPERATION);
  }

  lemma PingrespOnTheWire()
    ensures OnTheWire([PINGRESP]) == [0xD0, 0]
  {
    OneOnTheWire(PINGRESP);
    hide OnTheWire;
    assert [0xD0, 0x00] + PayloadChunk(PINGRESP) == [0xD0, 0x00];
  }

  /** Without a packet identifier, which the decoder never lets through, QoS 1 is refused and QoS 2 panics. */
  lemma MissingIdentifier(b: Broker, conn: ConnId, p: Publish)
    requires p.packetId.None?
    ensures p.qos == QoS1 ==> OnPublish(b, conn, p) == (b, Refuse(ProtocolViolation))
    ensures p.qos == QoS2 ==> OnPublish(b, conn, p) == (b, Panics)
  {
  }

  // ---------------------------------------------------------------- from publisher to subscriber

  lemma SendableIsWellFormed(m: Publish)
    requires Sendable(m) && Fits(m)
    ensures WellFormedPublish(m, VERSION_3_1_1)
  {
    hide TypedPublish;
    BodyLength(m);
  }

  lemma LongFrameIsRefused(first: Byte, n: nat, body: Bytes, w: Option<Byte>, t: Bytes)
    requires Blank(first).Success? && n >= VAR_INT_LIMIT
    ensures Frame(Framed(first, n, body) + t, w) == Err(InvalidRemainingLength)
  {
    hide VarInt, EncodeVarInt, Blank, VariableHeader, Payload;
    var s := Framed(first, n, body) + t;
    assert s[1..] == EncodeVarInt(n) + (body + t);
    VarIntRoundTrip(n, body + t);
  }

  lemma UnfitBody(m: Publish)
    requires Sendable(m) && !Fits(m)
    ensures TypedPublish(m) && PublishBody(m).Success? && |PublishBody(m).value| + m.payloadLength >= VAR_INT_LIMIT
  {
    hide TypedPublish, PublishBody;
    BodyLength(m);
  }

  /** A message that does not fit gets a length of four bytes that no decoder accepts. */
  lemma UnfitIsRefused(m: Publish, w: Option<Byte>, t: Bytes)
    requires Sendable(m) && !Fits(m)
    ensures TypedPublish(m) && Encode(PUBLISH(m)).Success?
    ensures Frame(Encode(PUBLISH(m)).value + t, w) == Err(InvalidRemainingLength)
  {
    hide TypedPublish, PublishBody, Blank, PublishFirst, Frame, EncodeHeader, Framed, Sendable, Fits, PayloadChunk;
    UnfitBody(m);
    FirstByteIsRead(m);
    EncodeIsFramed(m);
    hide Encode;
    var body := PublishBody(m).value;
    LongFrameIsRefused(PublishFirst(m), |body| + m.payloadLength, body, w, m.payload + t);
    PropertyPrinting.AppendAssociates(Framed(PublishFirst(m), |body| + m.payloadLength, body), m.payload, t);
  }

  lemma FirstByteIsRead(m: Publish)
    ensures Blank(PublishFirst(m)).Success?
  {
    PublishFirstRoundTrip(m);
    hide Blank, PublishFirst;
  }

  lemma EncodeIsFramed(m: Publish)
    requires TypedPublish(m) && PublishBody(m).Success?
    ensures Encode(PUBLISH(m)).Success?
    ensures var body := PublishBody(m).value;
            Encode(PUBLISH(m)).value == Framed(PublishFirst(m), |body| + m.payloadLength, body) + m.payload
  {
    hide TypedPublish, PublishBody, Framed;
  }

  lemma BelowFiveAlike(s: Bytes, w: Byte)
    requires w < 5 && FixedHeader(s).Ok? && FixedHeader(s).value.0.PUBLISH?
    ensures Frame(s, Some(w)) == Frame(s, Some(VERSION_3_1_1))
  {
    hide FixedHeader, Payload, PublishFields;
    var blank := FixedHeader(s);
    FieldsBelowFiveAlike(blank.value.0.publish, s[blank.used..], w);
  }

  lemma FieldsBelowFiveAlike(q: Publish, s: Bytes, w: Byte)
    requires w < 5
    ensures PublishFields(q, s, Some(w)) == PublishFields(q, s, Some(VERSION_3_1_1))
  {
    hide Utf8, PublishPacketId;
  }

  lemma SectionTakesRoom(q: Publish, s: Bytes)
    requires PublishFields(q, s, Some(4)).Ok? && PublishFields(q, s, Some(5)).Ok?
    ensures PublishFields(q, s, Some(4)).used < PublishFields(q, s, Some(5)).used
  {
    hide Utf8, PublishPacketId;
    var n := Utf8(s).used;
    var m := PublishPacketId(q, s[n..]).used;
    SectionNotEmpty(s[n + m..]);
    hide PublishPropertySection;
  }

  lemma SectionNotEmpty(s: Bytes)
    ensures PublishPropertySection(s, Some(4)) == Ok(None, 0)
    ensures PublishPropertySection(s, Some(5)).Ok? ==> PublishPropertySection(s, Some(5)).used >= 1
  {
    hide VarIntFrom, Properties.Loop;
  }

  lemma Version5ReadsLess(m: Publish, t: Bytes)
    requires WellFormedPublish(m, VERSION_3_1_1)
    ensures Encode(PUBLISH(m)).Success?
    ensures var r := Frame(Encode(PUBLISH(m)).value + t, Some(5));
            r.Ok? && r.value.PUBLISH? ==> |r.value.publish.payload| < |m.payload|
  {
    PublishRoundTrip(m, VERSION_3_1_1, t);
    var s := Encode(PUBLISH(m)).value + t;
    PublishFrameParts(s, VERSION_3_1_1, NormalPublish(m));
    if Frame(s, Some(5)).Ok? && Frame(s, Some(5)).value.PUBLISH? {
      PublishFrameParts(s, 5, Frame(s, Some(5)).value.publish);
      SectionTakesRoom(FixedHeader(s).value.0.publish, s[FixedHeader(s).used..]);
    }
    hide Frame, Encode, WellFormedPublish, PublishFields, FixedHeader;
  }

  // A decoder of version `w` finds a PUBLISH with this payload at the front of `s`.
  predicate PayloadRead(s: Bytes, w: Byte, payload: Bytes) {
    Frame(s, Some(w)).Ok? && Frame(s, Some(w)).value.PUBLISH? && Frame(s, Some(w)).value.publish.payload == payload
  }

  /**
   * The broker writes every message in the form of version 4, whatever version the
   * subscriber connected with. A decoder of version 5 takes the start of the payload for
   * properties; so the payload is read back by decoders below version 5, and by no other.
   */
  lemma PayloadReadIff(m: Publish, w: Byte, t: Bytes)
    requires WellFormedPublish(m, VERSION_3_1_1) && w <= 5
    ensures Encode(PUBLISH(m)).Success?
    ensures PayloadRead(Encode(PUBLISH(m)).value + t, w, m.payload) <==> w < 5
    ensures w < 5 ==>
              Frame(Encode(PUBLISH(m)).value + t, Some(w)) == Frame(Encode(PUBLISH(m)).value + t, Some(VERSION_3_1_1))
  {
    PublishRoundTrip(m, VERSION_3_1_1, t);
    Version5ReadsLess(m, t);
    NormalKeepsPayload(m);
    hide Frame, Encode, WellFormedPublish, NormalPublish, PayloadRead;
    PayloadReadAt(Encode(PUBLISH(m)).value + t, NormalPublish(m), w);
  }

  lemma NormalKeepsPayload(m: Publish)
    ensures NormalPublish(m).payload == m.payload
  {
  }

  lemma PayloadReadAt(s: Bytes, d: Publish, w: Byte)
    requires w <= 5 && Frame(s, Some(VERSION_3_1_1)).Ok? && Frame(s, Some(VERSION_3_1_1)).value == PUBLISH(d)
    requires var r := Frame(s, Some(5)); r.Ok? && r.value.PUBLISH? ==> |r.value.publish.payload| < |d.payload|
    ensures PayloadRead(s, w, d.payload) <==> w < 5
    ensures w < 5 ==> Frame(s, Some(w)) == Frame(s, Some(VERSION_3_1_1))
  {
    hide Frame;
    if w < 5 {
      ReadBelowFive(s, w, d);
    }
  }

  lemma ReadBelowFive(s: Bytes, w: Byte, d: Publish)
    requires w < 5 && Frame(s, Some(VERSION_3_1_1)).Ok? && Frame(s, Some(VERSION_3_1_1)).value == PUBLISH(d)
    ensures Frame(s, Some(w)) == Frame(s, Some(VERSION_3_1_1)) && PayloadRead(s, w, d.payload)
  {
    hide Frame, FixedHeader, PublishFields;
    PublishFrameParts(s, VERSION_3_1_1, d);
    BelowFiveAlike(s, w);
  }

  /** What a subscriber finds in a delivered message: everything of `p` but its properties, at its own QoS. */
  predicate SameMessage(d: Publish, p: Publish, option: SubscribeOption, random: PacketId) {
    && d.topic == p.topic && d.payload == p.payload && d.retain == p.retain && d.dup == p.dup
    && d.qos == option.qos && d.properties == None
    && d.packetId == if option.qos == QoS0 then None else if p.packetId.Some? then p.packetId else Some(random)
  }

  /**
   * End to end. A message that arrived in any frame, handed to a subscriber by the task
   * spawned for it and written out, is read back by the subscriber's decoder exactly when
   * that is below version 5 and there is room for the packet identifier the message may
   * need on its way; and then it is the same message, without its properties.
   */
  lemma MessageArrives(
      frame: Bytes, v: Byte, task: Task, option: SubscribeOption, random: PacketId, w: Byte, t: Bytes)
    requires v <= 5 && w <= 5 && Frame(frame, Some(v)).Ok? && Frame(frame, Some(v)).value.PUBLISH?
    requires Frame(frame, Some(v)).value.publish.payloadLength != 0
    requires task.publish == Frame(frame, Some(v)).value.publish.(version := VERSION_3_1_1) && TaskOk(task)
    ensures var m := PUBLISH(Personal(task, option, random)); TypedPacket(m) && Encode(m).Success?
    ensures var p := Frame(frame, Some(v)).value.publish;
            var b := Encode(PUBLISH(Personal(task, option, random))).value;
            && (PayloadRead(b + t, w, p.payload) <==>
                  w < 5 && RoomForIdentifier(p, option))
            && (PayloadRead(b + t, w, p.payload) ==>
                  && Frame(b + t, Some(w)).used == |b|
                  && SameMessage(Frame(b + t, Some(w)).value.publish, p, option, random))
  {
    var m := Personal(task, option, random);
    DeliveredMessageHonestIff(task, option, random);
    if Fits(m) {
      SendableIsWellFormed(m);
      PayloadReadIff(m, w, t);
      PublishRoundTrip(m, VERSION_3_1_1, t);
    } else {
      UnfitIsRefused(m, Some(w), t);
    }
    hide Frame, Encode, WellFormedPublish, Sendable;
  }

  /**
   * The message that does not arrive: the largest payload that a QoS 0 PUBLISH can carry
   * comes in one frame, is taken and delivered, and cannot be read by a subscriber at a
   * higher quality of service.
   */
  lemma LargestMessageIsCut(payload: Bytes, option: SubscribeOption, random: PacketId, w: Option<Byte>, t: Bytes)
    requires |payload| == VAR_INT_LIMIT - 3 && option.qos != QoS0
    ensures var p := Publish(false, QoS0, false, [], None, None, |payload|, payload, VERSION_3_1_1);
            var m := PUBLISH(Personal(Delivery(p), option, random));
            && TypedPacket(PUBLISH(p)) && Encode(PUBLISH(p)).Success?
            && Frame(Encode(PUBLISH(p)).value, Some(VERSION_3_1_1))
               == Ok(PUBLISH(p.(version := 0)), |Encode(PUBLISH(p)).value|)
            && Incoming(PUBLISH(p.(version := 0))) && TaskOk(Delivery(p))
            && Outgoing(m) && TypedPacket(m) && Encode(m).Success?
            && !Honest(Encode(m).value) && Frame(Encode(m).value + t, w) == Err(InvalidRemainingLength)
  {
    var p := Publish(false, QoS0, false, [], None, None, |payload|, payload, VERSION_3_1_1);
    SendableIsWellFormed(p);
    PublishRoundTrip(p, VERSION_3_1_1, []);
    assert Encode(PUBLISH(p)).value + [] == Encode(PUBLISH(p)).value;
    DeliveredMessageHonestIff(Delivery(p), option, random);
    UnfitIsRefused(Personal(Delivery(p), option, random), w, t);
    hide Frame, Encode, WellFormedPublish, Honest;
  }

  // Section 3.9.3 of MQTT 5.0.
  function GrantedCode(qos: QoS): Byte {
    match qos
    case QoS0 => 0x00
    case QoS1 => 0x01
    case QoS2 => 0x02
  }

  /**
   * What a SUBSCRIBE is answered with: a SUBACK granting each filter the quality of
   * service it asked for, if the client has an identifier, and then the retained messages
   * of exactly the topics that match a filter, each once, as they are stored.
   */
  lemma SubscribeReplays(r: Run, i: nat)
    requires IsRun(r) && i < |r.events| && r.events[i].Handles? && r.events[i].packet.SUBSCRIBE?
    ensures StepAt(r, i)
    ensures var e, b := r.events[i], r.states[i].broker;
            var sub := e.packet.subscribe;
            var reply := Handled(b, e.conn, e.packet, e.orders).1;
            var replay := Replayed(b.retained, FiltersOf(sub.filters), e.orders, []);
            && reply.Respond? && |reply.packets| == 1 + |replay|
            && (forall j :: 0 <= j < |replay| ==> reply.packets[1 + j] == PUBLISH(replay[j]))
            && DistinctTopics(replay)
            && (forall p :: p in replay
                  <==> p.topic in b.retained && b.retained[p.topic] == p && Wanted(FiltersOf(sub.filters), p))
            && reply.packets[0].SUBACK? && reply.packets[0].codes.packetId == sub.packetId
            && var codes := reply.packets[0].codes.reasons;
               if NameOf(b, e.conn) == [] then codes == []
               else && |codes| == |sub.filters|
                    && forall j :: 0 <= j < |codes| ==> codes[j] == GrantedCode(sub.filters[j].1.qos)
  {
    assert StepAt(r, i);
    RunInv(r, i);
    var e, b := r.events[i], r.states[i].broker;
    assert Filed(b.retained) by {
      hide Carried;
    }
    ReplayExact(b.retained, FiltersOf(e.packet.subscribe.filters), e.orders);
    hide Wanted, Replayed, RegisterAll, StageReplay, BrokerRuns.Step;
    hide RetainedOk, StagedOk, TasksOk, QueuesOk, WritingOk;
  }

  function GrantedCodes(filters: seq<(Bytes, SubscribeOption)>): (codes: Bytes)
    ensures |codes| == |filters|
  {
    seq(|filters|, j requires 0 <= j < |filters| => GrantedCode(filters[j].1.qos))
  }

  /** Section 3.9 of MQTT 5.0, byte for byte: the SUBACK, and behind it the replayed messages. */
  lemma SubscribeOnTheWire(r: Run, i: nat)
    requires IsRun(r) && i < |r.events| && r.events[i].Handles? && r.events[i].packet.SUBSCRIBE?
    ensures StepAt(r, i)
    ensures var e, b := r.events[i], r.states[i].broker;
            var sub := e.packet.subscribe;
            var codes := if NameOf(b, e.conn) == [] then [] else GrantedCodes(sub.filters);
            var replay := Replayed(b.retained, FiltersOf(sub.filters), e.orders, []);
            var reply := Handled(b, e.conn, e.packet, e.orders).1;
            && reply.Respond?
            && OnTheWire(reply.packets)
               == [0x90] + EncodeVarInt(2 + |codes|) + Two(sub.packetId) + codes + OnTheWire(AsPackets(replay))
  {
    assert StepAt(r, i);
    RunInv(r, i);
    var e, b := r.events[i], r.states[i].broker;
    SubscribeAnswer(b, e.conn, e.packet.subscribe, e.orders);
    hide OnTheWire, Replayed, OnSubscribe, BrokerRuns.Step, Two, EncodeVarInt, GrantedCodes;
    hide RetainedOk, StagedOk, TasksOk, QueuesOk, WritingOk;
  }

  lemma SubscribeAnswer(b: Broker, conn: ConnId, sub: Subscribe, orders: seq<seq<Bytes>>)
    requires |orders| == |sub.filters| && NameOf(b, conn) in b.versions && VersionsOk(b.versions)
    requires Incoming(SUBSCRIBE(sub))
    ensures var codes := if NameOf(b, conn) == [] then [] else GrantedCodes(sub.filters);
            var replay := Replayed(b.retained, FiltersOf(sub.filters), orders, []);
            var reply := OnSubscribe(b, conn, sub, orders).1;
            && reply.Respond?
            && OnTheWire(reply.packets)
               == [0x90] + EncodeVarInt(2 + |codes|) + Two(sub.packetId) + codes + OnTheWire(AsPackets(replay))
  {
    hide OnTheWire, Replayed, Two, EncodeVarInt, RegisterAll, StageReplay, FiltersOf;
    var codes := if NameOf(b, conn) == [] then [] else GrantedCodes(sub.filters);
    assert codes == if NameOf(b, conn) == [] then [] else Granted(sub.filters);
    var replay := Replayed(b.retained, FiltersOf(sub.filters), orders, []);
    SubackOnTheWire(Codes(sub.packetId, None, codes, VERSION_3_1_1), AsPackets(replay));
  }

  lemma SubackOnTheWire(c: Codes, rest: seq<ControlPacket>)
    requires Outgoing(SUBACK(c))
    ensures OnTheWire([SUBACK(c)] + rest)
         == [0x90] + EncodeVarInt(2 + |c.reasons|) + Two(c.packetId) + c.reasons + OnTheWire(rest)
  {
    assert ([SUBACK(c)] + rest)[1..] == rest;
    OutgoingEncodes(SUBACK(c));
    CodesBytes(c);
    hide Encode, EncodeVarInt, Two;
    assert Two(c.packetId) + [] + c.reasons == Two(c.packetId) + c.reasons;
    var length := EncodeVarInt(2 + |c.reasons|);
    assert [0x90] + length + (Two(c.packetId) + c.reasons) == [0x90] + length + Two(c.packetId) + c.reasons;
  }

  // ---------------------------------------------------------------- who gets it

  // The registrations that one SUBSCRIBE makes.
  function CallsOf(filters: seq<(Bytes, SubscribeOption)>, client: Bytes): seq<Call> {
    if filters == [] then []
    else CallsOf(filters[..|filters| - 1], client)
         + [Registered(filters[|filters| - 1].0, client, filters[|filters| - 1].1)]
  }

  ghost function SubscribeCalls(s: System, e: Event): seq<Call> {
    if e.Handles? && e.packet.SUBSCRIBE? && NameOf(s.broker, e.conn) != []
    then CallsOf(e.packet.subscribe.filters, NameOf(s.broker, e.conn)) else []
  }

  /** All subscriptions made in the first `n` steps, in order. */
  ghost function CallsBy(r: Run, n: nat): seq<Call>
    requires IsRun(r) && n <= |r.events|
  {
    if n == 0 then [] else CallsBy(r, n - 1) + SubscribeCalls(r.states[n - 1], r.events[n - 1])
  }

  lemma {:induction false} RegisterAllSnoc(
      index: Index, filters: seq<(Bytes, SubscribeOption)>, x: (Bytes, SubscribeOption), client: Bytes)
    ensures RegisterAll(index, filters + [x], client)
              == AfterRegister(RegisterAll(index, filters, client), x.0, client, x.1)
    decreases |filters|
  {
    hide AfterRegister;
    if filters == [] {
      assert [x][1..] == [];
    } else {
      assert (filters + [x])[1..] == filters[1..] + [x];
      RegisterAllSnoc(AfterRegister(index, filters[0].0, client, filters[0].1), filters[1..], x, client);
    }
  }

  lemma {:induction false} RegisterAllIsLog(calls: seq<Call>, filters: seq<(Bytes, SubscribeOption)>, client: Bytes)
    ensures RegisterAll(IndexAfter(calls), filters, client) == IndexAfter(calls + CallsOf(filters, client))
    decreases |filters|
  {
    hide AfterRegister;
    if filters == [] {
      assert calls + [] == calls;
    } else {
      var n := |filters| - 1;
      var x := filters[n];
      assert filters == filters[..n] + [x];
      RegisterAllSnoc(IndexAfter(calls), filters[..n], x, client);
      RegisterAllIsLog(calls, filters[..n], client);
      var before := calls + CallsOf(filters[..n], client);
      var call := Registered(x.0, client, x.1);
      assert calls + CallsOf(filters, client) == before + [call];
      IndexAfterTurn(before, call);
    }
  }

  lemma IndexAfterTurn(calls: seq<Call>, call: Call)
    ensures IndexAfter(calls + [call]) == AfterCall(IndexAfter(calls), call)
  {
    assert (calls + [call])[..|calls|] == calls;
  }

  lemma HandledIndex(b: Broker, conn: ConnId, packet: ControlPacket, orders: seq<seq<Bytes>>)
    requires packet.SUBSCRIBE? ==> |orders| == |packet.subscribe.filters|
    ensures Handled(b, conn, packet, orders).0.index
         == if packet.SUBSCRIBE? && NameOf(b, conn) != []
            then RegisterAll(b.index, packet.subscribe.filters, NameOf(b, conn)) else b.index
  {
    hide NameOf, RegisterAll, Replayed, StageReplay, OnPublish, OnPubrel, VersionOf;
    match packet
    case PUBLISH(p) => PublishIndex(b, conn, p);
    case PUBREL(a) => PubrelIndex(b, conn, a.packetId);
    case SUBSCRIBE(_) =>
    case _ =>
  }

  lemma DispatchedIndex(b: Broker, p: Publish)
    ensures Dispatched(b, p).index == b.index
  {
    if p.payloadLength == 0 {
    } else {
    }
  }

  lemma PublishIndex(b: Broker, conn: ConnId, p: Publish)
    ensures OnPublish(b, conn, p).0.index == b.index
  {
    DispatchedIndex(b, p.(version := VersionOf(b, conn)));
    hide VersionOf, Sessions.Staged, Dispatched;
    if p.qos != QoS2 || p.packetId.None? {
    } else if p.payloadLength == 0 {
    } else {
    }
  }

  lemma ReleasedIndex(b: Broker, p: Publish, id: PacketId)
    ensures Released(b, p, id).index == b.index
  {
    if p.payloadLength == 0 && p.retain {
    } else {
    }
  }

  lemma PubrelIndex(b: Broker, conn: ConnId, id: PacketId)
    ensures OnPubrel(b, conn, id).0.index == b.index
  {
    hide VersionOf, Released;
    if id in b.staged {
      ReleasedIndex(b, b.staged[id], id);
    } else {
    }
  }

  /** The subscription index is that of the log of all subscriptions made. */
  lemma {:induction false} IndexIsLog(r: Run, n: nat)
    requires IsRun(r) && n <= |r.events|
    ensures r.states[n].broker.index == IndexAfter(CallsBy(r, n))
    decreases n
  {
    hide Step, Legal, IndexAfter, Handled, RegisterAll, CallsOf, NameOf;
    if n == 0 {
      NoCalls();
    } else {
      IndexIsLog(r, n - 1);
      assert StepAt(r, n - 1);
      var s, e, calls := r.states[n - 1], r.events[n - 1], CallsBy(r, n - 1);
      StepIndex(s, e, calls);
    }
  }

  lemma NoCalls()
    ensures IndexAfter([]) == map[]
  {
  }

  lemma StepIndex(s: System, e: Event, calls: seq<Call>)
    requires Legal(s, e) && s.broker.index == IndexAfter(calls)
    ensures Step(s, e).broker.index == IndexAfter(calls + SubscribeCalls(s, e))
  {
    hide IndexAfter, RegisterAll, CallsOf, NameOf, EachEnumerates, Incoming;
    StepMessages(s, e);
    assert calls + [] == calls;
    match e
    case Handles(conn, packet, orders) =>
      HandledIndex(s.broker, conn, packet, orders);
      hide Handled, Step;
      if packet.SUBSCRIBE? {
        RegisterAllIsLog(calls, packet.subscribe.filters, NameOf(s.broker, conn));
      }
    case Runs(i, order, randoms) =>
      hide SendAll, Messages, Recipients, Kept;
    case _ =>
      hide Step;
  }

  /**
   * Delivery. When a task runs, its recipients are, as a multiset, the clients and options
   * of all subscriptions ever made whose filter matches the topic; and each connection's
   * queue gets the messages routed to it, in order, as far as it has room.
   */
  lemma RunDelivers(r: Run, i: nat, conn: ConnId)
    requires IsRun(r) && i < |r.events| && r.events[i].Runs?
    ensures StepAt(r, i)
    ensures var e, b, next := r.events[i], r.states[i].broker, r.states[i + 1].broker;
            var task, recipients := b.tasks[e.task], Recipients(b, e.task, e.order);
            && multiset(recipients) == multiset(Interested(Surviving(CallsBy(r, i)), task.publish.topic))
            && (conn in next.queues <==> conn in b.queues)
            && (conn in b.queues ==>
                  next.queues[conn]
                    == Offered(b.queues[conn], Share(b.connOf, Messages(task, recipients, e.randoms), conn)))
  {
    hide Messages, Offered, Share, SendAll, IndexAfter, Surviving, Enumerates;
    assert StepAt(r, i);
    var e, b := r.events[i], r.states[i].broker;
    IndexIsLog(r, i);
    SubscribersAreSurvivors(CallsBy(r, i), e.order, b.tasks[e.task].publish.topic);
    SendAllIsOffered(b.queues, b.connOf, Messages(b.tasks[e.task], Recipients(b, e.task, e.order), e.randoms), conn);
  }
}
