// Encoding and decoding put together: a stream of encoded packets decodes to the packets
// it was made from, and whatever decodes as a PUBLISH can be encoded again.
module RoundTrip {
  import opened Wire
  import opened Properties
  import opened PropertyPrinting
  import opened Packets
  import opened PacketDecoder
  import opened StreamDecoder

  /** A PUBLISH that protocol version `v` (3, 4 or 5) can carry. */
  ghost predicate WellFormedPublish(p: Publish, v: Byte) {
    && p.version == v <= 5
    && TypedPublish(p)
    && |p.topic| < 0x1_0000
    && (v == 5 && p.properties.Some? ==> FittingFields(InPublish, p.properties.value))
    && (p.qos != QoS0 ==> p.packetId.Some?)
    && p.payloadLength == |p.payload|
    && |PublishBody(p).value| + |p.payload| < VAR_INT_LIMIT
  }

  /** What the decoder makes of it: the version is not stored, absent and empty lists are one. */
  function NormalPublish(p: Publish): Publish {
    p.(properties := if p.version < 5 then None
                     else Some(if p.properties.Some? then Normal(p.properties.value) else map[]),
       packetId := if p.qos == QoS0 then None else p.packetId,
       version := 0)
  }

  // ---------------------------------------------------------------- PUBLISH, part by part

  lemma PublishFirstRoundTrip(p: Publish)
    ensures Blank(PublishFirst(p)) == Success(PUBLISH(DEFAULT_PUBLISH.(dup := p.dup, qos := p.qos, retain := p.retain)))
  {
    match p.qos
    case QoS0 =>
    case QoS1 =>
    case QoS2 =>
  }

  lemma PublishSectionRoundTrip(p: Publish, v: Byte, t: Bytes)
    requires WellFormedPublish(p, v)
    ensures PublishPropertySection(PublishSection(p) + t, Some(v))
         == Ok(NormalPublish(p).properties, |PublishSection(p)|)
  {
    hide ParseSection, PrintFields, EncodeVarInt, ValidUtf8, FittingFields, TypedFields, Printable, IsRuled;
    if v == 5 {
      var f := if p.properties.Some? then p.properties.value else map[];
      OrdersArePrintable();
      EmptyFits();
      if p.properties.Some? {
        SectionFits(p, v);
      }
      FittingIsRuled(f);
      PrintEmpty(InPublish, PUBLISH_ORDER);
      FieldsRoundTrip(InPublish, PUBLISH_ORDER, f, t);
      assert Normal(map[]) == map[];
    } else {
      assert [] + t == t;
    }
  }

  lemma EmptyFits()
    ensures FittingFields(InPublish, map[]) && TypedFields(InPublish, map[])
  {
  }

  lemma FittingIsRuled(f: Fields)
    requires FittingFields(InPublish, f)
    ensures forall id :: id in f ==> IsRuled(InPublish, id)
  {
    hide RuleOf, Fits;
  }

  lemma SectionFits(p: Publish, v: Byte)
    requires WellFormedPublish(p, v) && v == 5 && p.properties.Some?
    ensures |PublishProperties(p.properties.value)| < VAR_INT_LIMIT
  {
    hide PrintFields, EncodeVarInt, ValidUtf8, FittingFields, TypedFields;
  }

  lemma PublishFieldsRoundTrip(p: Publish, v: Byte, q: Publish, t: Bytes)
    requires WellFormedPublish(p, v)
    requires q == DEFAULT_PUBLISH.(dup := p.dup, qos := p.qos, retain := p.retain)
    ensures PublishBody(p).Success?
    ensures PublishFields(q, PublishBody(p).value + t, Some(v))
         == Ok(NormalPublish(p).(payloadLength := 0, payload := []), |PublishBody(p).value|)
  {
    hide Utf8, U16, Prefixed, U16Bytes, ValidUtf8, PublishSection, PublishPropertySection, FittingFields, TypedFields;
    var topic, section := Prefixed(p.topic), PublishSection(p);
    var id := if p.qos == QoS0 then [] else U16Bytes(p.packetId.value);
    var s := PublishBody(p).value + t;
    assert s == topic + (id + (section + t)) && |PublishBody(p).value| == |topic| + |id| + |section|;
    hide PublishBody;
    Utf8RoundTrip(p.topic, id + (section + t));
    assert s[|topic|..] == id + (section + t);
    if p.qos != QoS0 {
      U16RoundTrip(p.packetId.value, section + t);
    }
    assert s[|topic| + |id|..] == section + t;
    PublishSectionRoundTrip(p, v, t);
  }

  lemma FixedHeaderOf(first: Byte, packet: ControlPacket, n: nat, t: Bytes)
    requires Blank(first) == Success(packet) && n < VAR_INT_LIMIT
    ensures FixedHeader([first] + EncodeVarInt(n) + t) == Ok((packet, n), 1 + |EncodeVarInt(n)|)
  {
    hide Blank, VarInt, EncodeVarInt;
    var s := [first] + EncodeVarInt(n) + t;
    assert s[1..] == EncodeVarInt(n) + t;
    VarIntRoundTrip(n, t);
  }

  /** One encoded PUBLISH, whatever follows it, decodes to its normal form and ends where it ends. */
  lemma PublishRoundTrip(p: Publish, v: Byte, t: Bytes)
    requires WellFormedPublish(p, v)
    ensures Encode(PUBLISH(p)).Success?
    ensures var b := Encode(PUBLISH(p)).value;
            && Frame(b + t, Some(v)) == Ok(PUBLISH(NormalPublish(p)), |b|)
            && NeverStarved(b + t, Some(v))
  {
    hide PublishFields, PublishBody, FixedHeader, PublishFirst, EncodeVarInt, TypedPublish, FittingFields;
    PublishFirstRoundTrip(p);
    var blank := DEFAULT_PUBLISH.(dup := p.dup, qos := p.qos, retain := p.retain);
    PublishFieldsRoundTrip(p, v, blank, p.payload + t);
    var body := PublishBody(p).value;
    var n := |body| + |p.payload|;
    var head := [PublishFirst(p)] + EncodeVarInt(n);
    var s := Encode(PUBLISH(p)).value + t;
    assert s == head + (body + (p.payload + t));
    FixedHeaderOf(PublishFirst(p), PUBLISH(blank), n, body + (p.payload + t));
    assert s[|head|..] == body + (p.payload + t);
    assert s[|head| + |body|..] == p.payload + t;
    assert (p.payload + t)[..|p.payload|] == p.payload;
    BodyNotEmpty(p);
    if p.payload == [] {
      assert NormalPublish(p).(payload := []) == NormalPublish(p);
    }
  }

  lemma BodyNotEmpty(p: Publish)
    requires TypedPublish(p) && PublishBody(p).Success?
    ensures |PublishBody(p).value| >= 2
  {
    hide PublishSection, TypedPublish;
  }

  // ---------------------------------------------------------------- acknowledgements

  /** A PUBREL that protocol version `v` can carry and whose length is honest. */
  ghost predicate WellFormedPubrel(a: Ack, v: Byte) {
    && a.version == v
    && TypedReason(a.properties)
    && (v >= 5 && a.reason.None? ==> a.properties.None?)
    && (v >= 5 && a.reason.Some? ==>
          && (a.reason.value == 0x00 || a.reason.value == 0x92)
          && (a.properties.Some? ==> FittingFields(InPubrel, a.properties.value))
          && ReasonProperties(a.properties).Success?
          && |ReasonProperties(a.properties).value| < VAR_INT_LIMIT - 7)
  }

  function NormalPubrel(a: Ack): Ack {
    if a.version >= 5 && a.reason.Some? then
      var f := if a.properties.Some? then Normal(a.properties.value) else map[];
      Ack(a.packetId, a.reason, if f == map[] then None else Some(f), 0)
    else Ack(a.packetId, None, None, 0)
  }

  lemma ReasonSectionRoundTrip(properties: Option<Fields>, t: Bytes)
    requires TypedReason(properties) && ReasonProperties(properties).Success?
    requires properties.Some? ==> FittingFields(InPubrel, properties.value)
    requires |ReasonProperties(properties).value| < VAR_INT_LIMIT
    ensures var b := ReasonProperties(properties).value;
            var f := if properties.Some? then Normal(properties.value) else map[];
            ParseSection(InPubrel, EncodeVarInt(|b|) + b + t) == Ok(f, |EncodeVarInt(|b|)| + |b|)
  {
    hide ParseSection, PrintFields, EncodeVarInt, TypedFields, Printable, IsRuled, FittingFields;
    OrdersArePrintable();
    var f := if properties.Some? then properties.value else map[];
    PubrelFits(f);
    PrintEmpty(InPubrel, REASON_ORDER);
    FieldsRoundTrip(InPubrel, REASON_ORDER, f, t);
    assert Normal(map[]) == map[];
  }

  lemma PubrelFits(f: Fields)
    ensures FittingFields(InPubrel, map[])
    ensures FittingFields(InPubrel, f) ==> forall id :: id in f ==> IsRuled(InPubrel, id)
  {
    hide RuleOf, Fits;
  }

  lemma PubrelTailRoundTrip(b: Ack, reason: Byte, properties: Option<Fields>, v: Byte, t: Bytes)
    requires b.properties.None? && v >= 5 && (reason == 0x00 || reason == 0x92)
    requires TypedReason(properties) && ReasonProperties(properties).Success?
    requires properties.Some? ==> FittingFields(InPubrel, properties.value)
    requires |ReasonProperties(properties).value| < VAR_INT_LIMIT
    ensures var props := ReasonProperties(properties).value;
            var section := EncodeVarInt(|props|) + props;
            var f := if properties.Some? then Normal(properties.value) else map[];
            PubrelTail(b, [reason] + section + t, Some(v))
              == Ok(b.(reason := Some(reason), properties := if f == map[] then None else Some(f)), 1 + |section|)
  {
    hide ParseSection, EncodeVarInt, ReasonProperties, TypedFields, FittingFields, Normal;
    var props := ReasonProperties(properties).value;
    var section := EncodeVarInt(|props|) + props;
    assert ([reason] + section + t)[1..] == section + t;
    ReasonSectionRoundTrip(properties, t);
  }

  // A PUBREL frame from its identifier and what follows it, `tail`.
  lemma FrameOfPubrel(packetId: PacketId, tail: Bytes, v: Byte, t: Bytes, whole: Ack)
    requires packetId < 0x1_0000 && 2 + |tail| < VAR_INT_LIMIT
    requires var b := DEFAULT_ACK.(packetId := packetId);
             if tail == [] then whole == b else PubrelTail(b, tail + t, Some(v)) == Ok(whole, |tail|)
    ensures var n := 2 + |tail|;
            var b := [0x62] + EncodeVarInt(n) + (U16Bytes(packetId) + tail);
            Frame(b + t, Some(v)) == Ok(PUBREL(whole), |b|) && NeverStarved(b + t, Some(v))
  {
    hide FixedHeader, EncodeVarInt, U16, U16Bytes, PubrelTail;
    var id, n := U16Bytes(packetId), 2 + |tail|;
    var head := [0x62] + EncodeVarInt(n);
    var s := head + (id + tail) + t;
    assert s == head + (id + (tail + t));
    FixedHeaderOf(0x62, PUBREL(DEFAULT_ACK), n, id + (tail + t));
    assert s[|head|..] == id + (tail + t);
    U16RoundTrip(packetId, tail + t);
    assert (id + (tail + t))[2..] == tail + t;
  }

  lemma PubrelRoundTrip(a: Ack, v: Byte, t: Bytes)
    requires WellFormedPubrel(a, v)
    ensures Encode(PUBREL(a)).Success?
    ensures var b := Encode(PUBREL(a)).value;
            && Frame(b + t, Some(v)) == Ok(PUBREL(NormalPubrel(a)), |b|)
            && NeverStarved(b + t, Some(v))
  {
    hide Frame, NeverStarved, EncodeVarInt, U16Bytes, PubrelTail, ReasonProperties, TypedFields, FittingFields, Normal;
    var id := U16Bytes(a.packetId);
    if v >= 5 && a.reason.Some? {
      var props := ReasonProperties(a.properties).value;
      var section := EncodeVarInt(|props|) + props;
      var tail := [a.reason.value] + section;
      assert id + ([a.reason.value] + EncodeVarInt(|props|) + props) == id + tail;
      PubrelTailRoundTrip(DEFAULT_ACK.(packetId := a.packetId), a.reason.value, a.properties, v, t);
      FrameOfPubrel(a.packetId, tail, v, t, NormalPubrel(a));
      assert Encode(PUBREL(a)).value == [0x62] + EncodeVarInt(2 + |tail|) + (id + tail);
    } else {
      assert id + [] == id;
      FrameOfPubrel(a.packetId, [], v, t, NormalPubrel(a));
      assert Encode(PUBREL(a)).value == [0x62] + EncodeVarInt(2) + (id + []);
    }
  }

  /** PUBACK, PUBREC and PUBCOMP come back only when they are two bytes long. */
  lemma ShortAckRoundTrip(kind: AckKind, a: Ack, t: Bytes)
    requires kind != Pubrel && TypedReason(a.properties) && !AckCounts(kind, a)
    ensures var packet, normal := AckPacket(kind, a), AckPacket(kind, Ack(a.packetId, None, None, a.version));
            && TypedPacket(packet) && Encode(packet).Success?
            && var b := Encode(packet).value;
            && Frame(b + t, Some(a.version)) == Ok(normal, |b|)
            && NeverStarved(b + t, Some(a.version))
  {
    hide FixedHeader, EncodeVarInt, U16, U16Bytes, TypedFields;
    var id, first := U16Bytes(a.packetId), AckFirst(kind);
    var s := Encode(AckPacket(kind, a)).value + t;
    var head := [first] + EncodeVarInt(2);
    assert s == head + (id + t);
    FixedHeaderOf(first, AckPacket(kind, DEFAULT_ACK), 2, id + t);
    assert s[|head|..] == id + t;
    U16RoundTrip(a.packetId, t);
  }

  function AckPacket(kind: AckKind, a: Ack): ControlPacket {
    match kind
    case Puback => PUBACK(a)
    case Pubrec => PUBREC(a)
    case Pubrel => PUBREL(a)
    case Pubcomp => PUBCOMP(a)
  }

  // ---------------------------------------------------------------- streams

  /** A packet that the encoder writes and the decoder of protocol version `v` reads. */
  ghost predicate WellFormed(packet: ControlPacket, v: Byte) {
    match packet
    case PUBLISH(p) => WellFormedPublish(p, v)
    case PUBREL(a) => WellFormedPubrel(a, v)
    case PUBACK(a) => a.version == v && TypedReason(a.properties) && !AckCounts(Puback, a)
    case PUBREC(a) => a.version == v && TypedReason(a.properties) && !AckCounts(Pubrec, a)
    case PUBCOMP(a) => a.version == v && TypedReason(a.properties) && !AckCounts(Pubcomp, a)
    case _ => false
  }

  function NormalPacket(packet: ControlPacket): ControlPacket {
    match packet
    case PUBLISH(p) => PUBLISH(NormalPublish(p))
    case PUBREL(a) => PUBREL(NormalPubrel(a))
    case PUBACK(a) => PUBACK(Ack(a.packetId, None, None, a.version))
    case PUBREC(a) => PUBREC(Ack(a.packetId, None, None, a.version))
    case PUBCOMP(a) => PUBCOMP(Ack(a.packetId, None, None, a.version))
    case _ => packet
  }

  lemma PacketRoundTrip(packet: ControlPacket, v: Byte, t: Bytes)
    requires WellFormed(packet, v)
    ensures TypedPacket(packet) && Encode(packet).Success?
    ensures var b := Encode(packet).value;
            && Frame(b + t, Some(v)) == Ok(NormalPacket(packet), |b|)
            && NeverStarved(b + t, Some(v))
  {
    hide Frame, NeverStarved, Encode, NormalPublish, NormalPubrel;
    match packet
    case PUBLISH(p) => PublishRoundTrip(p, v, t);
    case PUBREL(a) => PubrelRoundTrip(a, v, t);
    case PUBACK(a) => ShortAckRoundTrip(Puback, a, t);
    case PUBREC(a) => ShortAckRoundTrip(Pubrec, a, t);
    case PUBCOMP(a) => ShortAckRoundTrip(Pubcomp, a, t);
    case _ =>
  }

  /** What the encoder makes of the packets, frame by frame. */
  ghost function Encodings(packets: seq<ControlPacket>, v: Byte): (frames: seq<Bytes>)
    requires forall p :: p in packets ==> WellFormed(p, v)
    ensures |frames| == |packets|
  {
    if packets == [] then []
    else
      assert packets[0] in packets;
      PacketRoundTrip(packets[0], v, []);
      [Encode(packets[0]).value] + Encodings(packets[1..], v)
  }

  function NormalPackets(packets: seq<ControlPacket>): seq<ControlPacket> {
    if packets == [] then [] else [NormalPacket(packets[0])] + NormalPackets(packets[1..])
  }

  /** Every encoding is one whole frame, and holds the packet in normal form. */
  lemma {:induction false} EncodingsAreFrames(packets: seq<ControlPacket>, v: Byte)
    requires forall p :: p in packets ==> WellFormed(p, v)
    ensures AllWhole(Encodings(packets, v), Some(v))
    ensures PacketsOf(Encodings(packets, v), Some(v)) == NormalPackets(packets)
    decreases |packets|
  {
    hide WellFormed, Frame, NeverStarved, Encode, NormalPacket;
    if packets != [] {
      assert packets[0] in packets;
      PacketRoundTrip(packets[0], v, []);
      var b := Encode(packets[0]).value;
      assert b + [] == b;
      EncodingsAreFrames(packets[1..], v);
      assert WholeFrame(b, Some(v));
      assert Encodings(packets, v)[1..] == Encodings(packets[1..], v);
    }
  }

  /**
   * Section 3.3 of MQTT 5.0, over a stream: whatever the chunks in which the bytes of any
   * list of well-formed packets arrive, what a run without errors has emitted, and then
   * what polling on emits, are exactly their normal forms, and the buffer ends empty.
   */
  lemma StreamRoundTrip(packets: seq<ControlPacket>, v: Byte, st: State, chunks: seq<Bytes>)
    requires forall p :: p in packets ==> WellFormed(p, v)
    requires Settled(st, Some(v), [])
    requires Flat(chunks) == Flat(Encodings(packets, v)) && Run(st, chunks).good
    ensures Run(st, chunks).packets <= NormalPackets(packets)
    ensures var rest := Drain(Run(st, chunks).state);
            && rest.good && rest.state.buf == [] && rest.state.phase == Done
            && Run(st, chunks).packets + rest.packets == NormalPackets(packets)
  {
    hide WellFormed, Run, Drain, AllWhole;
    EncodingsAreFrames(packets, v);
    assert [] + Flat(chunks) == Flat(chunks);
    WholeFramesInAnyChunks(Encodings(packets, v), st, [], chunks);
  }

  // ---------------------------------------------------------------- encoding again

  /** The parts of a frame that decoded as a PUBLISH. */
  lemma PublishFrameParts(s: Bytes, v: Byte, p: Publish)
    requires Frame(s, Some(v)).Ok? && Frame(s, Some(v)).value == PUBLISH(p)
    ensures var blank := FixedHeader(s);
            && blank.Ok? && blank.value.0.PUBLISH?
            && var fields := PublishFields(blank.value.0.publish, s[blank.used..], Some(v));
            && fields.Ok?
            && p == fields.value.(payloadLength := |p.payload|, payload := p.payload)
            && fields.used + |p.payload| == blank.value.1
            && Frame(s, Some(v)).used == blank.used + blank.value.1
            && fields.value.payload == []
  {
    hide PublishFields, ConnectVariableHeader, SubscribeVariableHeader, UnsubscribeVariableHeader,
      DisconnectVariableHeader, PubrelVariableHeader, ConnectPayload, Subscriptions, Filters, FixedHeader;
    var blank := FixedHeader(s);
    VariableHeaderKeepsType(blank.value.0, s[blank.used..], blank.value.1, Some(v));
    BlankIsDefault(s);
    FieldsKeepPayload(blank.value.0.publish, s[blank.used..], v);
  }

  lemma BlankIsDefault(s: Bytes)
    requires FixedHeader(s).Ok? && FixedHeader(s).value.0.PUBLISH?
    ensures var q := FixedHeader(s).value.0.publish;
            q == DEFAULT_PUBLISH.(dup := q.dup, qos := q.qos, retain := q.retain)
  {
    hide VarInt;
  }

  lemma FieldsKeepPayload(q: Publish, s: Bytes, v: Byte)
    requires PublishFields(q, s, Some(v)).Ok?
    ensures PublishFields(q, s, Some(v)).value.payload == q.payload
  {
    hide Utf8, PublishPropertySection;
  }

  lemma SectionParsedIsPrintable(s: Bytes, v: Byte, p: Publish)
    requires v <= 5 && ValidUtf8(p.topic) && p.version == v
    requires PublishPropertySection(s, Some(v)).Ok? && PublishPropertySection(s, Some(v)).value == p.properties
    ensures TypedPublish(p)
    ensures v == 5 ==> p.properties.Some? && FittingFields(InPublish, p.properties.value)
    ensures v == 5 ==> Normal(p.properties.value) == p.properties.value
    ensures |PublishSection(p)| <= PublishPropertySection(s, Some(v)).used
  {
    hide ParseSection, PrintFields, EncodeVarInt, ValidUtf8, FittingFields, TypedFields, Printable, Normal;
    OrdersArePrintable();
    if v == 5 {
      SectionRoom(InPublish, PUBLISH_ORDER, s);
    }
  }

  /** Fields that were read can be written again, in no more room, and read to the same. */
  lemma FieldsParsedAreWellFormed(q: Publish, s: Bytes, v: Byte, payload: Bytes) returns (p: Publish)
    requires v <= 5 && q == DEFAULT_PUBLISH.(dup := q.dup, qos := q.qos, retain := q.retain)
    requires PublishFields(q, s, Some(v)).Ok?
    requires PublishFields(q, s, Some(v)).used + |payload| < VAR_INT_LIMIT
    ensures p == PublishFields(q, s, Some(v)).value.(payloadLength := |payload|, payload := payload, version := v)
    ensures WellFormedPublish(p, v) && |PublishBody(p).value| <= PublishFields(q, s, Some(v)).used
    ensures NormalPublish(p) == p.(version := 0)
  {
    hide Utf8, PublishSection, PublishPropertySection, ValidUtf8, FittingFields, TypedPublish, Normal;
    var n := Utf8(s).used;
    var m := PublishPacketId(q, s[n..]).used;
    p := PublishFields(q, s, Some(v)).value.(payloadLength := |payload|, payload := payload, version := v);
    SectionParsedIsPrintable(s[n + m..], v, p);
    VersionSection(s[n + m..], v);
  }

  lemma VersionSection(s: Bytes, v: Byte)
    requires PublishPropertySection(s, Some(v)).Ok?
    ensures v < 5 ==> PublishPropertySection(s, Some(v)).value == None
  {
    hide ParseSection;
  }

  /**
   * Canonical form. Any bytes that decode as a PUBLISH at version 5 or below encode again:
   * the new frame is no longer than the one consumed, and decodes to the same packet.
   */
  lemma CanonicalReencoding(s: Bytes, v: Byte, t: Bytes)
    requires v <= 5 && Frame(s, Some(v)).Ok? && Frame(s, Some(v)).value.PUBLISH?
    ensures var p := Frame(s, Some(v)).value.publish;
            var q := p.(version := v);
            && WellFormedPublish(q, v)
            && Encode(PUBLISH(q)).Success?
            && var b := Encode(PUBLISH(q)).value;
            && |b| <= Frame(s, Some(v)).used
            && Frame(b + t, Some(v)) == Ok(PUBLISH(p), |b|)
  {
    hide Frame, PublishFields, WellFormedPublish, NormalPublish, EncodeVarInt, PublishBody, TypedPublish, VarInt;
    var p := Frame(s, Some(v)).value.publish;
    PublishFrameParts(s, v, p);
    BlankIsDefault(s);
    var blank := FixedHeader(s);
    VarIntShortest(s[1..]);
    var q := FieldsParsedAreWellFormed(blank.value.0.publish, s[blank.used..], v, p.payload);
    DefaultVersion(blank.value.0.publish, s[blank.used..], v);
    assert q == p.(version := v);
    PublishRoundTrip(q, v, t);
    FrameSize(q, v);
    ShorterLength(|PublishBody(q).value| + |p.payload|, blank.value.1);
  }

  lemma ShorterLength(n: nat, m: nat)
    requires n <= m
    ensures |EncodeVarInt(n)| <= |EncodeVarInt(m)|
  {
    EncodeVarIntMonotone(n, m, 4);
    EncodeVarIntIs(n);
    EncodeVarIntIs(m);
  }

  lemma EncodeVarIntIs(n: nat)
    ensures EncodeVarInt(n) == EncodeVarIntFrom(n, 4)
  {
    hide EncodeVarIntFrom;
  }

  lemma DefaultVersion(q: Publish, s: Bytes, v: Byte)
    requires PublishFields(q, s, Some(v)).Ok?
    ensures PublishFields(q, s, Some(v)).value.version == q.version
  {
    hide Utf8, PublishPropertySection;
  }

  lemma FrameSize(q: Publish, v: Byte)
    requires WellFormedPublish(q, v)
    ensures TypedPublish(q) && PublishBody(q).Success? && Encode(PUBLISH(q)).Success?
    ensures var n := |PublishBody(q).value| + |q.payload|;
            |Encode(PUBLISH(q)).value| == 1 + |EncodeVarInt(n)| + n
    ensures q.payloadLength == |q.payload|
  {
    hide PublishSection, EncodeVarInt, PublishFirst, FittingFields, TypedFields, ValidUtf8;
  }
}
