// What clients send and the source only decodes: CONNECT, SUBSCRIBE, UNSUBSCRIBE and
// DISCONNECT, printed as sections 3.1, 3.8, 3.10 and 3.14 of MQTT 5.0 prescribe, are
// decoded to what was printed.
module ClientFrames {
  import opened Wire
  import opened Properties
  import opened PropertyPrinting
  import opened Packets
  import opened PacketDecoder
  import opened StreamDecoder
  import opened RoundTrip

  function OrderOf(section: Section): seq<Byte> {
    match section
    case InPublish => PUBLISH_ORDER
    case InPubrel => REASON_ORDER
    case InSubscribe => [SUBSCRIPTION_IDENTIFIER, USER_PROPERTY]
    case InUnsubscribe => [USER_PROPERTY]
    case InConnect =>
      [SESSION_EXPIRY_INTERVAL, RECEIVE_MAXIMUM, MAXIMUM_PACKET_SIZE, TOPIC_ALIAS_MAXIMUM, REQUEST_RESPONSE_INFORMATION,
       REQUEST_PROBLEM_INFORMATION, USER_PROPERTY, AUTHENTICATION_METHOD, AUTHENTICATION_DATA]
    case InWill =>
      [WILL_DELAY_INTERVAL, PAYLOAD_FORMAT_INDICATOR, MESSAGE_EXPIRY_INTERVAL, CONTENT_TYPE, RESPONSE_TOPIC,
       CORRELATION_DATA, USER_PROPERTY]
    case InDisconnect => [SESSION_EXPIRY_INTERVAL, REASON_STRING, USER_PROPERTY, SERVER_REFERENCE]
  }

  ghost predicate CompleteOrder(section: Section, order: seq<Byte>) {
    Printable(section, order) && MethodFirst(order) && forall id: Byte :: IsRuled(section, id) ==> id in order
  }

  lemma ConnectOrder()
    ensures CompleteOrder(InConnect, OrderOf(InConnect))
  {
    assert OrderOf(InConnect)[..8][7] == AUTHENTICATION_METHOD;
  }

  lemma WillOrder()
    ensures CompleteOrder(InWill, OrderOf(InWill))
  {
  }

  lemma PublishOrder()
    ensures CompleteOrder(InPublish, OrderOf(InPublish))
  {
  }

  lemma OrderIsComplete(section: Section)
    ensures CompleteOrder(section, OrderOf(section))
  {
    match section
    case InPublish => PublishOrder();
    case InConnect => ConnectOrder();
    case InWill => WillOrder();
    case InPubrel =>
    case InSubscribe =>
    case InUnsubscribe =>
    case InDisconnect =>
  }

  function Printed(section: Section, f: Fields): Bytes
    requires TypedFields(section, f)
  {
    OrderIsComplete(section);
    PrintFields(section, OrderOf(section), f)
  }

  /** Properties that a section of the wire format can carry. */
  ghost predicate Carriable(section: Section, f: Fields) {
    && FittingFields(section, f)
    && TypedFields(section, f)
    && (section == InConnect && Get(f, AUTHENTICATION_DATA) != [] ==> Get(f, AUTHENTICATION_METHOD) != [])
    && |Printed(section, f)| < VAR_INT_LIMIT
  }

  function PrintSection(section: Section, f: Fields): Bytes
    requires TypedFields(section, f)
  {
    EncodeVarInt(|Printed(section, f)|) + Printed(section, f)
  }

  lemma NormalOfNothing()
    ensures Normal(map[]) == map[]
  {
  }

  lemma SectionRoundTrip(section: Section, f: Fields, t: Bytes)
    requires Carriable(section, f)
    ensures ParseSection(section, PrintSection(section, f) + t) == Ok(Normal(f), |PrintSection(section, f)|)
  {
    hide RuleOf, PrintFields, ParseSection, EncodeVarInt, Fits, Typed, Normal;
    OrderIsComplete(section);
    assert ReadableFields(section, OrderOf(section), f, map[]);
    FieldsRoundTrip(section, OrderOf(section), f, t);
  }

  // Below version 5 there is no property section.
  function VersionedSection(section: Section, f: Fields, v: Byte): Bytes
    requires TypedFields(section, f)
  {
    if v < 5 then [] else PrintSection(section, f)
  }

  ghost predicate VersionedCarriable(section: Section, f: Fields, v: Byte) {
    Carriable(section, f) && (v < 5 ==> f == map[])
  }

  lemma VersionedRoundTrip(section: Section, f: Fields, v: Byte, t: Bytes)
    requires VersionedCarriable(section, f, v)
    ensures OptionalSection(section, VersionedSection(section, f, v) + t, v)
         == Ok(Normal(f), |VersionedSection(section, f, v)|)
  {
    hide PrintSection, ParseSection, Carriable;
    if v < 5 {
      assert [] + t == t;
      NormalOfNothing();
    } else {
      SectionRoundTrip(section, f, t);
    }
  }

  // ---------------------------------------------------------------- SUBSCRIBE and UNSUBSCRIBE

  ghost predicate SubscribeOk(p: Subscribe, v: Byte) {
    && VersionedCarriable(InSubscribe, p.properties, v)
    && p.filters != [] && (forall x :: x in p.filters ==> WireString(x.0))
    && p.payloadLength == |PrintSubscriptions(p.filters)|
    && 2 + |VersionedSection(InSubscribe, p.properties, v)| + p.payloadLength < VAR_INT_LIMIT
  }

  function PrintSubscribe(p: Subscribe, v: Byte): Bytes
    requires TypedFields(InSubscribe, p.properties)
  {
    var body := U16Bytes(p.packetId) + VersionedSection(InSubscribe, p.properties, v) + PrintSubscriptions(p.filters);
    Framed(0x82, |body|, body)
  }

  lemma FirstBytes()
    ensures Blank(0x82) == Success(SUBSCRIBE(Subscribe(0, map[], [], 0)))
    ensures Blank(0xA2) == Success(UNSUBSCRIBE(Unsubscribe(0, map[], [], 0)))
    ensures Blank(0x10) == Success(CONNECT(DEFAULT_CONNECT))
    ensures Blank(0xE0) == Success(DISCONNECT(Disconnect(0, None)))
    ensures Blank(0x62) == Success(PUBREL(DEFAULT_ACK))
  {
  }

  lemma FramedHeader(first: Byte, packet: ControlPacket, body: Bytes)
    requires Blank(first) == Success(packet) && |body| < VAR_INT_LIMIT
    ensures var b := Framed(first, |body|, body);
            FixedHeader(b) == Ok((packet, |body|), |b| - |body|) && b[|b| - |body|..] == body
  {
    hide Blank, FixedHeader, EncodeVarInt;
    FixedHeaderOf(first, packet, |body|, body);
    assert ([first] + EncodeVarInt(|body|) + body)[1 + |EncodeVarInt(|body|)|..] == body;
  }

  /** A printed frame, put together from what its variable header and its payload decode to. */
  lemma FrameOfParts(first: Byte, blank: ControlPacket, front: Bytes, payload: Bytes, v: Option<Byte>,
                     middle: ControlPacket, whole: ControlPacket)
    requires Blank(first) == Success(blank) && payload != [] && |front + payload| < VAR_INT_LIMIT
    requires VariableHeader(blank, front + payload, |front + payload|, v) == Ok(middle, |front|)
    requires Payload(middle, payload) == Ok(whole, |payload|)
    ensures var b := Framed(first, |front + payload|, front + payload);
            WholeFrame(b, v) && Frame(b, v).value == whole
  {
    hide FixedHeader, VariableHeader, Payload, Blank, Framed;
    FramedHeader(first, blank, front + payload);
    var b := Framed(first, |front + payload|, front + payload);
    assert b[|b| - |payload|..] == payload;
  }

  lemma FrameOfHeaders(b: Bytes, v: Option<Byte>, packet: ControlPacket, n: nat, h: nat, whole: ControlPacket)
    requires FixedHeader(b) == Ok((packet, n), h) && h < |b|
    requires VariableHeader(packet, b[h..], n, v) == Ok(whole, n) && h + n == |b|
    ensures WholeFrame(b, v) && Frame(b, v).value == whole
  {
    hide FixedHeader, VariableHeader, Payload;
  }

  lemma PrintedSubscriptionsNotEmpty(xs: seq<(Bytes, SubscribeOption)>)
    requires xs != []
    ensures PrintSubscriptions(xs) != []
  {
  }

  lemma SubscribeHeader(p: Subscribe, v: Byte, payload: Bytes)
    requires VersionedCarriable(InSubscribe, p.properties, v)
    ensures var front := U16Bytes(p.packetId) + VersionedSection(InSubscribe, p.properties, v);
            VariableHeader(SUBSCRIBE(Subscribe(0, map[], [], 0)), front + payload, |front| + |payload|, Some(v))
              == Ok(SUBSCRIBE(Subscribe(p.packetId, Normal(p.properties), [], |payload|)), |front|)
  {
    hide U16, U16Bytes, OptionalSection, VersionedSection, FittingFields, TypedFields, Printed, Normal;
    var id, section := U16Bytes(p.packetId), VersionedSection(InSubscribe, p.properties, v);
    assert (id + section) + payload == id + (section + payload);
    U16RoundTrip(p.packetId, section + payload);
    assert (id + (section + payload))[2..] == section + payload;
    VersionedRoundTrip(InSubscribe, p.properties, v, payload);
  }

  lemma SubscribePayload(q: Subscribe, xs: seq<(Bytes, SubscribeOption)>)
    requires xs != [] && (forall x :: x in xs ==> WireString(x.0))
    requires q.filters == [] && q.payloadLength == |PrintSubscriptions(xs)|
    ensures PrintSubscriptions(xs) != []
    ensures Payload(SUBSCRIBE(q), PrintSubscriptions(xs)) == Ok(SUBSCRIBE(q.(filters := xs)), |PrintSubscriptions(xs)|)
  {
    PrintedSubscriptionsNotEmpty(xs);
    SubscriptionsRoundTrip(xs, []);
    hide Subscriptions, PrintSubscriptions, WireString;
    assert PrintSubscriptions(xs) + [] == PrintSubscriptions(xs);
    assert [] + xs == xs;
  }

  /** Section 3.8 of MQTT 5.0: a printed SUBSCRIBE is one whole frame and decodes to itself. */
  lemma SubscribeFrame(p: Subscribe, v: Byte)
    requires SubscribeOk(p, v)
    ensures var b := PrintSubscribe(p, v);
            && WholeFrame(b, Some(v))
            && Frame(b, Some(v)).value == SUBSCRIBE(p.(properties := Normal(p.properties)))
  {
    hide FixedHeader, VariableHeader, Payload, Framed, U16Bytes, VersionedSection, FittingFields, TypedFields, Printed,
      PrintSubscriptions, WireString, Blank, Frame, WholeFrame, Normal;
    var front := U16Bytes(p.packetId) + VersionedSection(InSubscribe, p.properties, v);
    var payload := PrintSubscriptions(p.filters);
    var blank := SUBSCRIBE(Subscribe(0, map[], [], 0));
    var q := Subscribe(p.packetId, Normal(p.properties), [], |payload|);
    FirstBytes();
    SubscribeHeader(p, v, payload);
    SubscribePayload(q, p.filters);
    FrameOfParts(0x82, blank, front, payload, Some(v), SUBSCRIBE(q), SUBSCRIBE(q.(filters := p.filters)));
  }

  ghost predicate UnsubscribeOk(p: Unsubscribe, v: Byte) {
    && VersionedCarriable(InUnsubscribe, p.properties, v)
    && p.filters != [] && (forall x :: x in p.filters ==> WireString(x))
    && p.payloadLength == |PrintFilters(p.filters)|
    && 2 + |VersionedSection(InUnsubscribe, p.properties, v)| + p.payloadLength < VAR_INT_LIMIT
  }

  function PrintUnsubscribe(p: Unsubscribe, v: Byte): Bytes
    requires TypedFields(InUnsubscribe, p.properties)
  {
    var body := U16Bytes(p.packetId) + VersionedSection(InUnsubscribe, p.properties, v) + PrintFilters(p.filters);
    Framed(0xA2, |body|, body)
  }

  lemma PrintedFiltersNotEmpty(xs: seq<Bytes>)
    requires xs != []
    ensures PrintFilters(xs) != []
  {
  }

  lemma UnsubscribeHeader(p: Unsubscribe, v: Byte, payload: Bytes)
    requires VersionedCarriable(InUnsubscribe, p.properties, v)
    ensures var front := U16Bytes(p.packetId) + VersionedSection(InUnsubscribe, p.properties, v);
            VariableHeader(UNSUBSCRIBE(Unsubscribe(0, map[], [], 0)), front + payload, |front| + |payload|, Some(v))
              == Ok(UNSUBSCRIBE(Unsubscribe(p.packetId, Normal(p.properties), [], |payload|)), |front|)
  {
    hide U16, U16Bytes, OptionalSection, VersionedSection, FittingFields, TypedFields, Printed, Normal;
    var id, section := U16Bytes(p.packetId), VersionedSection(InUnsubscribe, p.properties, v);
    assert (id + section) + payload == id + (section + payload);
    U16RoundTrip(p.packetId, section + payload);
    assert (id + (section + payload))[2..] == section + payload;
    VersionedRoundTrip(InUnsubscribe, p.properties, v, payload);
  }

  lemma UnsubscribePayload(q: Unsubscribe, xs: seq<Bytes>)
    requires xs != [] && (forall x :: x in xs ==> WireString(x))
    requires q.filters == [] && q.payloadLength == |PrintFilters(xs)|
    ensures PrintFilters(xs) != []
    ensures Payload(UNSUBSCRIBE(q), PrintFilters(xs)) == Ok(UNSUBSCRIBE(q.(filters := xs)), |PrintFilters(xs)|)
  {
    PrintedFiltersNotEmpty(xs);
    FiltersRoundTrip(xs, []);
    hide Filters, PrintFilters, WireString;
    assert PrintFilters(xs) + [] == PrintFilters(xs);
    assert [] + xs == xs;
  }

  /** Section 3.10 of MQTT 5.0: the same for UNSUBSCRIBE. */
  lemma UnsubscribeFrame(p: Unsubscribe, v: Byte)
    requires UnsubscribeOk(p, v)
    ensures var b := PrintUnsubscribe(p, v);
            && WholeFrame(b, Some(v))
            && Frame(b, Some(v)).value == UNSUBSCRIBE(p.(properties := Normal(p.properties)))
  {
    hide FixedHeader, VariableHeader, Payload, Framed, U16Bytes, VersionedSection, FittingFields, TypedFields, Printed,
      PrintFilters, WireString, Blank, Frame, WholeFrame, Normal;
    var front := U16Bytes(p.packetId) + VersionedSection(InUnsubscribe, p.properties, v);
    var payload := PrintFilters(p.filters);
    var blank := UNSUBSCRIBE(Unsubscribe(0, map[], [], 0));
    var q := Unsubscribe(p.packetId, Normal(p.properties), [], |payload|);
    FirstBytes();
    UnsubscribeHeader(p, v, payload);
    UnsubscribePayload(q, p.filters);
    FrameOfParts(0xA2, blank, front, payload, Some(v), UNSUBSCRIBE(q), UNSUBSCRIBE(q.(filters := p.filters)));
  }

  // ---------------------------------------------------------------- reasons with and without properties

  lemma FrameOfFailure(b: Bytes, v: Option<Byte>, packet: ControlPacket, n: nat, h: nat, e: MqttError)
    requires FixedHeader(b) == Ok((packet, n), h) && h <= |b|
    requires VariableHeader(packet, b[h..], n, v) == Err(e)
    ensures Frame(b, v) == Err(e)
  {
    hide FixedHeader, VariableHeader, Payload;
  }

  /** A body that its header reads whole, or that ends too early for it, makes a frame that does the same. */
  lemma FrameOfBody(first: Byte, packet: ControlPacket, body: Bytes, v: Byte, r: Parsed<ControlPacket>)
    requires Blank(first) == Success(packet) && 0 < |body| < VAR_INT_LIMIT
    requires VariableHeader(packet, body, |body|, Some(v)) == r && !r.Panic? && (r.Ok? ==> r.used == |body|)
    ensures var b := Framed(first, |body|, body);
            if r.Ok? then WholeFrame(b, Some(v)) && Frame(b, Some(v)).value == r.value
            else Frame(b, Some(v)) == Err(r.error)
  {
    hide VariableHeader, FixedHeader, Framed, Blank, Frame, WholeFrame;
    FramedHeader(first, packet, body);
    var b := Framed(first, |body|, body);
    if r.Ok? {
      FrameOfHeaders(b, Some(v), packet, |body|, |b| - |body|, r.value);
    } else {
      FrameOfFailure(b, Some(v), packet, |body|, |b| - |body|, r.error);
    }
  }

  ghost predicate OptionalOk(section: Section, f: Option<Fields>, v: Byte) {
    f.Some? ==> v >= 5 && Carriable(section, f.value) && 3 + |PrintSection(section, f.value)| < VAR_INT_LIMIT
  }

  function PrintOptionalSection(section: Section, f: Option<Fields>): Bytes
    requires f.Some? ==> TypedFields(section, f.value)
  {
    if f.None? then [] else PrintSection(section, f.value)
  }

  // Properties, or none below version 5, or nothing at all where version 5 reads a length.
  lemma ReadsOptionalSection(section: Section, f: Option<Fields>, v: Byte)
    requires OptionalOk(section, f, v)
    ensures var s := PrintOptionalSection(section, f);
            && (f.None? ==> s == [] && ParseSection(section, s) == Err(InsufficientBytes))
            && (f.Some? ==> v >= 5 && ParseSection(section, s) == Ok(Normal(f.value), |s|))
  {
    if f.Some? {
      hide ParseSection, PrintSection, Carriable, Normal;
      SectionRoundTrip(section, f.value, []);
      assert PrintSection(section, f.value) + [] == PrintSection(section, f.value);
    }
  }

  // ---------------------------------------------------------------- DISCONNECT

  /** The reasons of section 3.14.2.1 of MQTT 5.0. */
  predicate DisconnectReason(r: Byte) {
    || r == 0x00 || r == 0x04 || 0x80 <= r <= 0x83 || r == 0x87 || r == 0x89 || r == 0x8B
    || 0x8D <= r <= 0x90 || 0x93 <= r <= 0xA2
  }

  // What a whole body with this reason is read as, or refused with.
  function Reading(listed: bool, complete: bool, packet: ControlPacket, n: nat): Parsed<ControlPacket> {
    if !listed then Err(InvalidFormat) else if !complete then Err(InsufficientBytes) else Ok(packet, n)
  }

  /** A DISCONNECT that says why is read on exactly if its reason is one of those. */
  lemma DisconnectReasonIff(d: Disconnect, s: Bytes, remaining: nat, v: Byte)
    requires remaining > 0 && s != []
    ensures var r := DisconnectVariableHeader(d, s, remaining, Some(v));
            && (!DisconnectReason(s[0]) ==> r == Err(InvalidFormat))
            && (DisconnectReason(s[0]) && v < 5 ==> r == Ok(d.(reason := s[0]), 1))
            && (DisconnectReason(s[0]) && v >= 5 ==>
                  if ParseSection(InDisconnect, s[1..]).Ok? then r.Ok? && r.value.reason == s[0]
                  else r == ParseSection(InDisconnect, s[1..]).PropagateFailure())
  {
    hide ParseSection;
  }

  function DisconnectBody(d: Disconnect): (b: Bytes)
    requires d.properties.Some? ==> TypedFields(InDisconnect, d.properties.value)
    ensures |b| >= 1
  {
    [d.reason] + PrintOptionalSection(InDisconnect, d.properties)
  }

  function PrintDisconnect(d: Disconnect): Bytes
    requires d.properties.Some? ==> TypedFields(InDisconnect, d.properties.value)
  {
    Framed(0xE0, |DisconnectBody(d)|, DisconnectBody(d))
  }

  function NormalDisconnect(d: Disconnect): Disconnect {
    if d.properties.None? then d else d.(properties := Some(Normal(d.properties.value)))
  }

  lemma DisconnectHeader(d: Disconnect, v: Byte)
    requires OptionalOk(InDisconnect, d.properties, v)
    ensures var body := DisconnectBody(d);
            && |body| < VAR_INT_LIMIT
            && VariableHeader(DISCONNECT(Disconnect(0, None)), body, |body|, Some(v))
               == Reading(DisconnectReason(d.reason), d.properties.Some? || v < 5,
                          DISCONNECT(NormalDisconnect(d)), |body|)
  {
    hide ParseSection, PrintSection, FittingFields, TypedFields, Printed, DisconnectReason, Normal;
    ReadsOptionalSection(InDisconnect, d.properties, v);
    assert DisconnectBody(d)[1..] == PrintOptionalSection(InDisconnect, d.properties);
    DisconnectReasonIff(Disconnect(0, None), DisconnectBody(d), |DisconnectBody(d)|, v);
  }

  /**
   * Section 3.14 of MQTT 5.0: a DISCONNECT with a reason is one whole frame and decodes to
   * itself if it has properties, even none, or the version has not. A reason alone, which
   * section 3.14.2.2.1 allows, is refused at version 5, and one that is not listed always.
   */
  lemma DisconnectFrame(d: Disconnect, v: Byte)
    requires OptionalOk(InDisconnect, d.properties, v)
    ensures var b := PrintDisconnect(d);
            if !DisconnectReason(d.reason) then Frame(b, Some(v)) == Err(InvalidFormat)
            else if d.properties.None? && v >= 5 then Frame(b, Some(v)) == Err(InsufficientBytes)
            else WholeFrame(b, Some(v)) && Frame(b, Some(v)).value == DISCONNECT(NormalDisconnect(d))
  {
    hide VariableHeader, Framed, DisconnectBody, NormalDisconnect, Blank, Frame, WholeFrame;
    hide FittingFields, TypedFields, Printed, PrintSection, DisconnectReason;
    FirstBytes();
    DisconnectHeader(d, v);
    var body := DisconnectBody(d);
    FrameOfBody(0xE0, DISCONNECT(Disconnect(0, None)), body, v,
                Reading(DisconnectReason(d.reason), d.properties.Some? || v < 5,
                        DISCONNECT(NormalDisconnect(d)), |body|));
  }

  // ---------------------------------------------------------------- PUBREL

  ghost predicate PubrelOk(a: Ack, v: Byte) {
    && a.packetId < 0x1_0000 && a.version == 0
    && (a.properties.Some? ==> a.reason.Some?)
    && OptionalOk(InPubrel, a.properties, v)
  }

  function PubrelBody(a: Ack): (b: Bytes)
    requires a.properties.Some? ==> TypedFields(InPubrel, a.properties.value)
    ensures |b| >= 2
  {
    U16Bytes(a.packetId)
    + if a.reason.None? then [] else [a.reason.value] + PrintOptionalSection(InPubrel, a.properties)
  }

  function PrintPubrel(a: Ack): Bytes
    requires a.properties.Some? ==> TypedFields(InPubrel, a.properties.value)
  {
    Framed(0x62, |PubrelBody(a)|, PubrelBody(a))
  }

  // An empty list of properties is read as none.
  function PubrelAsRead(a: Ack): Ack {
    if a.properties.None? then a
    else if Normal(a.properties.value) == map[] then a.(properties := None)
    else a.(properties := Some(Normal(a.properties.value)))
  }

  // The two reasons of section 3.6.2.1.
  predicate PubrelListed(a: Ack) {
    a.reason.Some? ==> a.reason.value == 0x00 || a.reason.value == 0x92
  }

  predicate PubrelComplete(a: Ack, v: Byte) {
    a.reason.None? || a.properties.Some? || v < 5
  }

  lemma PubrelHeader(a: Ack, v: Byte)
    requires PubrelOk(a, v)
    ensures var body := PubrelBody(a);
            && |body| < VAR_INT_LIMIT
            && VariableHeader(PUBREL(DEFAULT_ACK), body, |body|, Some(v))
               == Reading(PubrelListed(a), PubrelComplete(a, v), PUBREL(PubrelAsRead(a)), |body|)
  {
    hide ParseSection, PrintSection, FittingFields, TypedFields, Printed, Normal, U16, U16Bytes;
    ReadsOptionalSection(InPubrel, a.properties, v);
    var id, body := U16Bytes(a.packetId), PubrelBody(a);
    if a.reason.None? {
      U16RoundTrip(a.packetId, []);
      assert id + [] == body;
    } else {
      var tail := [a.reason.value] + PrintOptionalSection(InPubrel, a.properties);
      U16RoundTrip(a.packetId, tail);
      assert body == id + tail;
      assert body[2..] == tail && tail[1..] == PrintOptionalSection(InPubrel, a.properties);
    }
  }

  /**
   * Section 3.6 of MQTT 5.0: the same for PUBREL, where a packet identifier alone is read
   * at every version, and a reason alone, which section 3.6.2.2.1 allows, not at version 5.
   */
  lemma PubrelFrame(a: Ack, v: Byte)
    requires PubrelOk(a, v)
    ensures var b := PrintPubrel(a);
            if !PubrelListed(a) then Frame(b, Some(v)) == Err(InvalidFormat)
            else if !PubrelComplete(a, v) then Frame(b, Some(v)) == Err(InsufficientBytes)
            else WholeFrame(b, Some(v)) && Frame(b, Some(v)).value == PUBREL(PubrelAsRead(a))
  {
    hide VariableHeader, Framed, PubrelBody, PubrelAsRead, Blank, Frame, WholeFrame, PubrelComplete;
    hide FittingFields, TypedFields, Printed, PrintSection;
    FirstBytes();
    PubrelHeader(a, v);
    FrameOfBody(0x62, PUBREL(DEFAULT_ACK), PubrelBody(a), v,
                Reading(PubrelListed(a), PubrelComplete(a, v), PUBREL(PubrelAsRead(a)), |PubrelBody(a)|));
  }

  // ---------------------------------------------------------------- CONNECT

  /** Section 3.1.2.3 of MQTT 5.0. */
  function PrintFlags(f: ConnectFlags): Byte {
    128 * Bit(f.userName) + 64 * Bit(f.password) + 32 * Bit(f.willRetain) + 8 * QoSBits(f.willQos) + 4 * Bit(f.will)
    + 2 * Bit(f.cleanStart)
  }

  ghost predicate WillOk(c: Connect) {
    if c.flags.will then
      && (if c.protocolVersion == 5 then Carriable(InWill, c.willProperties) else c.willProperties == map[])
      && c.willTopic.Some? && WireString(c.willTopic.value)
      && c.willPayload.Some? && |c.willPayload.value| < 0x1_0000
    else c.willProperties == map[] && c.willTopic.None? && c.willPayload.None?
  }

  predicate CredentialsOk(c: Connect) {
    && (c.flags.userName <==> c.userName.Some?)
    && (c.userName.Some? ==> WireString(c.userName.value))
    && (c.flags.password <==> c.password.Some?)
    && (c.password.Some? ==> |c.password.value| < 0x1_0000)
  }

  /** A CONNECT that its version can carry; it has properties, and its will has some, at version 5 only. */
  ghost predicate ConnectOk(c: Connect) {
    && WireString(c.protocolName) && c.keepAlive < 0x1_0000 && WireString(c.clientId)
    && (if c.protocolVersion == 5 then Carriable(InConnect, c.properties) else c.properties == map[])
    && WillOk(c) && CredentialsOk(c)
    && |PrintConnectHeader(c)| + |PrintConnectPayload(c)| < VAR_INT_LIMIT
  }

  ghost function PrintConnectHeader(c: Connect): Bytes {
    Prefixed(c.protocolName)
    + ([c.protocolVersion]
       + ([PrintFlags(c.flags)]
          + (U16Bytes(c.keepAlive) + if c.protocolVersion == 5 && TypedFields(InConnect, c.properties)
                                     then PrintSection(InConnect, c.properties) else [])))
  }

  ghost function PrintWill(c: Connect): Bytes {
    if c.flags.will && TypedFields(InWill, c.willProperties) && c.willTopic.Some? && c.willPayload.Some? then
      (if c.protocolVersion == 5 then PrintSection(InWill, c.willProperties) else [])
      + (Prefixed(c.willTopic.value) + Prefixed(c.willPayload.value))
    else []
  }

  function PrintOptional(b: Option<Bytes>): Bytes {
    if b.Some? then Prefixed(b.value) else []
  }

  ghost function PrintConnectPayload(c: Connect): Bytes {
    Prefixed(c.clientId) + (PrintWill(c) + (PrintOptional(c.userName) + PrintOptional(c.password)))
  }

  ghost function PrintConnect(c: Connect): Bytes {
    var body := PrintConnectHeader(c) + PrintConnectPayload(c);
    Framed(0x10, |body|, body)
  }

  function NormalConnect(c: Connect): Connect {
    c.(properties := Normal(c.properties), willProperties := Normal(c.willProperties))
  }

  lemma FlagBits(userName: nat, password: nat, retain: nat, qos: nat, will: nat, clean: nat)
    requires userName <= 1 && password <= 1 && retain <= 1 && qos <= 3 && will <= 1 && clean <= 1
    ensures var b := 128 * userName + 64 * password + 32 * retain + 8 * qos + 4 * will + 2 * clean;
            && b < 256 && b % 2 == 0 && b / 2 % 2 == clean && b / 4 % 2 == will && b / 8 % 4 == qos
            && b / 32 % 2 == retain
            && b / 64 % 2 == password && b / 128 % 2 == userName
  {
    var b := 128 * userName + 64 * password + 32 * retain + 8 * qos + 4 * will + 2 * clean;
    assert b / 128 == userName;
    assert b / 64 == 2 * userName + password;
    assert b / 32 == 4 * userName + 2 * password + retain;
    assert b / 8 == 16 * userName + 8 * password + 4 * retain + qos;
    assert b / 4 == 32 * userName + 16 * password + 8 * retain + 2 * qos + will;
    assert b / 2 == 64 * userName + 32 * password + 16 * retain + 4 * qos + 2 * will + clean;
  }

  lemma FlagsRoundTrip(f: ConnectFlags, t: Bytes)
    ensures Flags([PrintFlags(f)] + t) == Ok(f, 1)
  {
    FlagBits(Bit(f.userName), Bit(f.password), Bit(f.willRetain), QoSBits(f.willQos), Bit(f.will), Bit(f.cleanStart));
    assert ([PrintFlags(f)] + t)[0] == PrintFlags(f);
    hide PrintFlags;
    BitBack(f.userName);
    BitBack(f.password);
    BitBack(f.willRetain);
    BitBack(f.will);
    BitBack(f.cleanStart);
    QoSBack(f.willQos);
    hide Bit, QoSBits, QoSOf;
  }

  lemma BitBack(b: bool)
    ensures Bit(b) <= 1 && (Bit(b) == 1 <==> b)
  {
  }

  lemma QoSBack(qos: QoS)
    ensures QoSOf(QoSBits(qos)) == Some(qos)
  {
  }

  // What the header leaves for the payload to fill in.
  function HeaderOnly(c: Connect): Connect {
    DEFAULT_CONNECT.(protocolName := c.protocolName, protocolVersion := c.protocolVersion, flags := c.flags,
                     keepAlive := c.keepAlive, properties := Normal(c.properties))
  }

  lemma ConnectFieldsRoundTrip(c: Connect, t: Bytes)
    requires WireString(c.protocolName) && c.keepAlive < 0x1_0000
    ensures var b := Prefixed(c.protocolName) + [c.protocolVersion] + [PrintFlags(c.flags)] + U16Bytes(c.keepAlive);
            ConnectFields(DEFAULT_CONNECT, b + t) == Ok(HeaderOnly(c).(properties := map[]), |b|) && (b + t)[|b|..] == t
  {
    hide Utf8, Binary, Flags, PrintFlags, U16, U16Bytes, Prefixed, ValidUtf8, Normal;
    var name, version := Prefixed(c.protocolName), [c.protocolVersion];
    var flags, alive := [PrintFlags(c.flags)], U16Bytes(c.keepAlive);
    var s3 := alive + t;
    var s2 := flags + s3;
    var s1 := version + s2;
    var s := name + version + flags + alive + t;
    assert s == name + s1;
    ProtocolNameRoundTrip(c.protocolName, s1);
    assert s[|name|..] == s1 && s[|name| + 1..] == s2 && s[|name| + 1 + 1..] == s3;
    FlagsRoundTrip(c.flags, s3);
    U16RoundTrip(c.keepAlive, t);
  }

  lemma ConnectHeaderRoundTrip(c: Connect, t: Bytes)
    requires WireString(c.protocolName) && c.keepAlive < 0x1_0000
    requires if c.protocolVersion == 5 then Carriable(InConnect, c.properties) else c.properties == map[]
    ensures ConnectVariableHeader(DEFAULT_CONNECT, PrintConnectHeader(c) + t)
         == Ok(HeaderOnly(c), |PrintConnectHeader(c)|)
  {
    hide ConnectFields, PrintFlags, U16Bytes, Prefixed, ParseSection, PrintSection;
    hide FittingFields, TypedFields, Printed, ValidUtf8, Normal;
    var front := Prefixed(c.protocolName) + [c.protocolVersion] + [PrintFlags(c.flags)] + U16Bytes(c.keepAlive);
    var section := if c.protocolVersion == 5 then PrintSection(InConnect, c.properties) else [];
    assert PrintConnectHeader(c) + t == front + (section + t);
    ConnectFieldsRoundTrip(c, section + t);
    if c.protocolVersion == 5 {
      SectionRoundTrip(InConnect, c.properties, t);
    } else {
      NormalOfNothing();
    }
  }

  lemma ProtocolNameRoundTrip(name: Bytes, t: Bytes)
    requires WireString(name)
    ensures ProtocolName(Prefixed(name) + t) == Ok(name, |Prefixed(name)|)
  {
    hide Binary, ValidUtf8, Prefixed;
    BinaryRoundTrip(name, t);
  }

  lemma WillRoundTrip(d: Connect, c: Connect, t: Bytes)
    requires WillOk(c) && d.flags == c.flags && WillHasProperties(c)
    requires d.willProperties == map[] && d.willTopic.None? && d.willPayload.None?
    ensures WillPart(d, PrintWill(c) + t)
         == Ok(d.(willProperties := Normal(c.willProperties), willTopic := c.willTopic, willPayload := c.willPayload),
               |PrintWill(c)|)
  {
    hide Utf8, Binary, Prefixed, ParseSection, PrintSection, FittingFields, TypedFields, Printed, ValidUtf8, Normal;
    if c.flags.will {
      var section := PrintSection(InWill, c.willProperties);
      var topic, payload := Prefixed(c.willTopic.value), Prefixed(c.willPayload.value);
      var s := PrintWill(c) + t;
      assert s == section + (topic + (payload + t));
      SectionRoundTrip(InWill, c.willProperties, topic + (payload + t));
      assert s[|section|..] == topic + (payload + t) && s[|section| + |topic|..] == payload + t;
      Utf8RoundTrip(c.willTopic.value, payload + t);
      BinaryRoundTrip(c.willPayload.value, t);
    } else {
      NormalOfNothing();
    }
  }

  lemma CredentialsRoundTrip(d: Connect, c: Connect)
    requires CredentialsOk(c) && d.flags == c.flags && d.userName.None? && d.password.None?
    ensures var user, word := PrintOptional(c.userName), PrintOptional(c.password);
            CredentialsPart(d, user + word)
              == Ok(d.(userName := c.userName, password := c.password), |user| + |word|)
  {
    hide Utf8, Binary, Prefixed, ValidUtf8;
    var user, word := PrintOptional(c.userName), PrintOptional(c.password);
    assert (user + word)[|user|..] == word;
    if c.userName.Some? {
      Utf8RoundTrip(c.userName.value, word);
    }
    if c.password.Some? {
      assert word + [] == word;
      BinaryRoundTrip(c.password.value, []);
    }
  }

  lemma ConnectPayloadRoundTrip(d: Connect, c: Connect)
    requires WireString(c.clientId) && WillOk(c) && CredentialsOk(c) && d == HeaderOnly(c)
    requires WillHasProperties(c)
    ensures ConnectPayload(d, PrintConnectPayload(c)) == Ok(NormalConnect(c), |PrintConnectPayload(c)|)
  {
    hide Utf8, Prefixed, PrintWill, PrintOptional, WillPart, CredentialsPart;
    hide ValidUtf8, Carriable, CredentialsOk, WillOk, Normal;
    var id, will := Prefixed(c.clientId), PrintWill(c);
    var user, word := PrintOptional(c.userName), PrintOptional(c.password);
    var s := PrintConnectPayload(c);
    assert s == id + (will + (user + word));
    Utf8RoundTrip(c.clientId, will + (user + word));
    assert s[|id|..] == will + (user + word) && s[|id| + |will|..] == user + word;
    var d1 := d.(clientId := c.clientId);
    WillRoundTrip(d1, c, user + word);
    var d2 := d1.(willProperties := Normal(c.willProperties), willTopic := c.willTopic, willPayload := c.willPayload);
    CredentialsRoundTrip(d2, c);
  }

  lemma ConnectHeaderPart(c: Connect, v: Option<Byte>)
    requires ConnectOk(c)
    ensures var front, payload := PrintConnectHeader(c), PrintConnectPayload(c);
            && VariableHeader(CONNECT(DEFAULT_CONNECT), front + payload, |front + payload|, v)
               == Ok(CONNECT(HeaderOnly(c)), |front|)
            && payload != []
  {
    ConnectHeaderRoundTrip(c, PrintConnectPayload(c));
    ClientIdNotEmpty(c);
    hide ConnectVariableHeader, PrintConnectHeader, PrintConnectPayload, HeaderOnly, ConnectOk;
  }

  lemma ConnectPayloadPart(c: Connect)
    requires ConnectOk(c) && WillHasProperties(c)
    ensures Payload(CONNECT(HeaderOnly(c)), PrintConnectPayload(c))
         == Ok(CONNECT(NormalConnect(c)), |PrintConnectPayload(c)|)
  {
    ConnectPayloadRoundTrip(HeaderOnly(c), c);
    hide ConnectPayload, PrintConnectPayload, HeaderOnly, NormalConnect, ConnectOk;
  }

  lemma ClientIdNotEmpty(c: Connect)
    ensures PrintConnectPayload(c) != []
  {
    hide PrintWill, PrintOptional, U16Bytes;
  }

  // A will below version 5 has no properties, but the decoder reads some all the same.
  predicate WillHasProperties(c: Connect) {
    c.flags.will ==> c.protocolVersion == 5
  }

  ghost predicate DecodesToItself(c: Connect, v: Option<Byte>) {
    WholeFrame(PrintConnect(c), v) && Frame(PrintConnect(c), v).value == CONNECT(NormalConnect(c))
  }

  /**
   * Section 3.1 of MQTT 5.0, and of MQTT 3.1.1: a printed CONNECT is one whole frame and
   * decodes to itself, whatever version the decoder has been given before, exactly when
   * it has no will or is of version 5.
   */
  lemma ConnectFrame(c: Connect, v: Option<Byte>)
    requires ConnectOk(c)
    ensures DecodesToItself(c, v) <==> WillHasProperties(c)
  {
    hide DecodesToItself;
    if WillHasProperties(c) {
      ConnectFrameDecodes(c, v);
    } else {
      WillBelowFiveMisread(c, v);
    }
  }

  lemma ConnectFrameDecodes(c: Connect, v: Option<Byte>)
    requires ConnectOk(c) && WillHasProperties(c)
    ensures DecodesToItself(c, v)
  {
    ConnectFits(c);
    hide FixedHeader, VariableHeader, Payload, Framed, PrintConnectHeader, PrintConnectPayload, ConnectOk, Blank, Frame,
      WholeFrame, NormalConnect, HeaderOnly;
    FirstBytes();
    ConnectHeaderPart(c, v);
    ConnectPayloadPart(c);
    FrameOfParts(0x10, CONNECT(DEFAULT_CONNECT), PrintConnectHeader(c), PrintConnectPayload(c), v,
                 CONNECT(HeaderOnly(c)), CONNECT(NormalConnect(c)));
  }

  function OptionalLength(b: Option<Bytes>): nat {
    if b.Some? then 2 + |b.value| else 0
  }

  lemma WillPartUses(d: Connect, s: Bytes)
    requires WillPart(d, s).Ok? && d.flags.will
    ensures var r := WillPart(d, s);
            && r.value.willTopic.Some? && r.value.willPayload.Some? && r.value.flags == d.flags
            && r.value.clientId == d.clientId && r.value.userName == d.userName && r.value.password == d.password
            && r.used >= 5 + |r.value.willTopic.value| + |r.value.willPayload.value|
  {
    hide Utf8, Binary, ParseSection;
  }

  lemma CredentialsUse(d: Connect, s: Bytes)
    requires CredentialsPart(d, s).Ok? && d.userName.None? && d.password.None?
    ensures var r := CredentialsPart(d, s);
            && r.used == OptionalLength(r.value.userName) + OptionalLength(r.value.password)
            && r.value == d.(userName := r.value.userName, password := r.value.password)
  {
    hide Utf8, Binary;
  }

  /** What the decoder uses of a payload with a will: a byte of properties at the least, and all that it returns. */
  lemma PayloadWithWillUses(d: Connect, s: Bytes)
    requires ConnectPayload(d, s).Ok? && d.flags.will && d.userName.None? && d.password.None?
    ensures var r := ConnectPayload(d, s).value;
            && r.willTopic.Some? && r.willPayload.Some?
            && ConnectPayload(d, s).used
               >= 7 + |r.clientId| + |r.willTopic.value| + |r.willPayload.value| + OptionalLength(r.userName)
                  + OptionalLength(r.password)
  {
    hide Utf8, WillPart, CredentialsPart, OptionalLength;
    var n0 := Utf8(s).used;
    var d0 := d.(clientId := Utf8(s).value);
    WillPartUses(d0, s[n0..]);
    var d1, n1 := WillPart(d0, s[n0..]).value, WillPart(d0, s[n0..]).used;
    CredentialsUse(d1, s[n0 + n1..]);
  }

  lemma PrintedPayloadLength(c: Connect)
    requires ConnectOk(c) && !WillHasProperties(c)
    ensures c.willTopic.Some? && c.willPayload.Some?
    ensures |PrintConnectPayload(c)|
         == 6 + |c.clientId| + |c.willTopic.value| + |c.willPayload.value| + OptionalLength(c.userName)
            + OptionalLength(c.password)
  {
    hide U16Bytes, ValidUtf8, PrintConnectHeader, Carriable;
  }

  lemma PayloadMisread(c: Connect)
    requires ConnectOk(c) && !WillHasProperties(c)
    ensures var r := ConnectPayload(HeaderOnly(c), PrintConnectPayload(c));
            r.Ok? ==> r.value != NormalConnect(c)
  {
    PrintedPayloadLength(c);
    hide PrintConnectPayload, ConnectOk, ConnectPayload;
    if ConnectPayload(HeaderOnly(c), PrintConnectPayload(c)).Ok? {
      PayloadWithWillUses(HeaderOnly(c), PrintConnectPayload(c));
    }
  }

  /** A will below version 5 is never decoded to what was printed: there are not bytes enough. */
  lemma WillBelowFiveMisread(c: Connect, v: Option<Byte>)
    requires ConnectOk(c) && !WillHasProperties(c)
    ensures !DecodesToItself(c, v)
  {
    hide PrintConnect, PrintConnectPayload, ConnectOk, ConnectPayload, Frame, NeverStarved, NormalConnect, HeaderOnly;
    PayloadMisread(c);
    PrintedFrameDecodes(c, v);
  }

  lemma PrintedFrameDecodes(c: Connect, v: Option<Byte>)
    requires ConnectOk(c)
    ensures var payload := PrintConnectPayload(c);
            Frame(PrintConnect(c), v).Ok? ==>
              && ConnectPayload(HeaderOnly(c), payload).Ok?
              && Frame(PrintConnect(c), v).value == CONNECT(ConnectPayload(HeaderOnly(c), payload).value)
  {
    hide FixedHeader, VariableHeader, Framed, PrintConnectHeader, PrintConnectPayload, ConnectOk, Blank, ConnectPayload;
    hide Frame, HeaderOnly;
    var front, payload := PrintConnectHeader(c), PrintConnectPayload(c);
    ConnectFits(c);
    FirstBytes();
    ConnectHeaderPart(c, v);
    FramedHeader(0x10, CONNECT(DEFAULT_CONNECT), front + payload);
    EndOfEnd(PrintConnect(c), front, payload);
    FrameEndsWithPayload(c, PrintConnect(c), front, payload, v);
  }

  lemma EndOfEnd(b: Bytes, front: Bytes, payload: Bytes)
    requires |front + payload| <= |b| && b[|b| - |front + payload|..] == front + payload
    ensures b[|b| - |payload|..] == payload
  {
    assert b[|b| - |payload|..] == b[|b| - |front + payload|..][|front|..];
  }

  lemma FrameEndsWithPayload(c: Connect, b: Bytes, front: Bytes, payload: Bytes, v: Option<Byte>)
    requires |front + payload| <= |b| && payload != []
    requires FixedHeader(b) == Ok((CONNECT(DEFAULT_CONNECT), |front + payload|), |b| - |front + payload|)
    requires b[|b| - |front + payload|..] == front + payload && b[|b| - |payload|..] == payload
    requires VariableHeader(CONNECT(DEFAULT_CONNECT), front + payload, |front + payload|, v)
          == Ok(CONNECT(HeaderOnly(c)), |front|)
    ensures Frame(b, v).Ok? ==>
              && ConnectPayload(HeaderOnly(c), payload).Ok?
              && Frame(b, v).value == CONNECT(ConnectPayload(HeaderOnly(c), payload).value)
  {
    hide FixedHeader, VariableHeader, ConnectPayload, HeaderOnly;
  }

  lemma ConnectFits(c: Connect)
    requires ConnectOk(c)
    ensures |PrintConnectHeader(c) + PrintConnectPayload(c)| < VAR_INT_LIMIT
  {
    hide PrintConnectHeader, PrintConnectPayload, WillOk, CredentialsOk, Carriable, WireString;
  }
}
