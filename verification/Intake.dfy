// From the decoder to the broker: every packet that a connection serves is one that the
// broker's handlers can take.
module Intake {
  import PropertyPrinting
  import Sessions
  import opened Wire
  import opened Packets
  import opened PacketDecoder
  import opened StreamDecoder
  import opened RoundTrip
  import opened BrokerRuns
  import opened Connections

  // A PUBLISH whose identifiers and properties have been read, and no payload yet.
  ghost predicate FieldsRead(p: Publish) {
    TypedPublish(p) && (p.qos != QoS0 ==> p.packetId.Some?) && p.payload == [] && |p.topic| < 0x1_0000
  }

  // What is left of the Remaining Length is room enough for the payload.
  predicate RoomLeft(p: Publish) {
    2 + |p.topic| + IdLength(p) + p.payloadLength < VAR_INT_LIMIT
  }

  // A SUBSCRIBE before its payload is read.
  predicate NoFiltersYet(p: Subscribe) {
    p.filters == [] && 2 + p.payloadLength < VAR_INT_LIMIT
  }

  predicate BlankPublish(q: Publish) {
    q == DEFAULT_PUBLISH.(dup := q.dup, qos := q.qos, retain := q.retain)
  }

  // What a decoder holds between polls.
  ghost predicate DecoderOk(st: State) {
    match st.phase
    case Done => true
    case FixedHeaderDecoded => st.counter == 0 && st.remaining < VAR_INT_LIMIT && BlankPacket(st.packet)
    case VariableHeaderDecoded => BeforePayload(st.packet)
  }

  ghost predicate BeforePayload(packet: ControlPacket) {
    match packet
    case PUBLISH(p) => FieldsRead(p) && RoomLeft(p)
    case SUBSCRIBE(p) => NoFiltersYet(p)
    case _ => true
  }

  predicate BlankPacket(packet: ControlPacket) {
    match packet
    case PUBLISH(q) => BlankPublish(q)
    case SUBSCRIBE(q) => q.filters == []
    case _ => true
  }

  lemma FieldsAreRead(q: Publish, s: Bytes, v: Byte)
    requires v <= 5 && BlankPublish(q) && PublishFields(q, s, Some(v)).Ok?
    ensures FieldsRead(PublishFields(q, s, Some(v)).value)
  {
    hide Utf8, PublishSection, PublishPropertySection, ValidUtf8;
    hide PropertyPrinting.FittingFields, PropertyPrinting.TypedFields;
    var n := Utf8(s).used;
    var m := PublishPacketId(q, s[n..]).used;
    SectionParsedIsPrintable(s[n + m..], v, PublishFields(q, s, Some(v)).value.(version := v));
  }

  lemma LengthLeavesFields(p: Publish, n: nat)
    requires FieldsRead(p)
    ensures FieldsRead(p.(payloadLength := n))
  {
    hide ValidUtf8;
  }

  lemma PublishHeaderIsRead(q: Publish, s: Bytes, remaining: nat, v: Byte)
    requires v <= 5 && remaining < VAR_INT_LIMIT && BlankPublish(q)
    requires PublishVariableHeader(q, s, remaining, Some(v)).Ok?
    ensures var p := PublishVariableHeader(q, s, remaining, Some(v)).value; FieldsRead(p) && RoomLeft(p)
  {
    var fields := PublishFields(q, s, Some(v));
    FieldsAreRead(q, s, v);
    LengthLeavesFields(fields.value, remaining - fields.used);
    hide PublishFields, FieldsRead, BlankPublish;
  }

  /** A variable header that succeeds leaves a PUBLISH or SUBSCRIBE with the payload still to come. */
  lemma HeaderIsRead(packet: ControlPacket, s: Bytes, remaining: nat, v: Byte)
    requires v <= 5 && remaining < VAR_INT_LIMIT && BlankPacket(packet)
    requires VariableHeader(packet, s, remaining, Some(v)).Ok?
    ensures BeforePayload(VariableHeader(packet, s, remaining, Some(v)).value)
  {
    hide PublishVariableHeader, FieldsRead, RoomLeft, ConnectVariableHeader, UnsubscribeVariableHeader,
      DisconnectVariableHeader, PubrelVariableHeader, AckVariableHeader, BlankPublish, OptionalSection;
    if packet.PUBLISH? {
      PublishHeaderIsRead(packet.publish, s, remaining, v);
    }
  }

  lemma PayloadIncoming(p: Publish, payload: Bytes)
    requires FieldsRead(p) && RoomLeft(p) && |payload| == p.payloadLength
    ensures Incoming(PUBLISH(p.(payload := payload)))
  {
    hide ValidUtf8;
  }

  // A packet that needs no payload can be taken as it is.
  lemma ReadIncoming(packet: ControlPacket)
    requires BeforePayload(packet) && (packet.PUBLISH? ==> packet.publish.payloadLength == 0)
    ensures Incoming(packet)
  {
    hide FieldsRead;
    if packet.PUBLISH? {
      var p := packet.publish;
      PayloadIncoming(p, []);
      NothingReadYet(p);
    }
  }

  lemma NothingReadYet(p: Publish)
    requires FieldsRead(p)
    ensures p.(payload := []) == p
  {
  }

  lemma {:induction false} SubscriptionsTakeRoom(s: Bytes, left: nat)
    requires Subscriptions(s, left).Ok?
    ensures 3 * |Subscriptions(s, left).value| <= left
    decreases |s|
  {
    hide Subscription;
    var x := Subscription(s);
    if x.used < left {
      SubscriptionsTakeRoom(s[x.used..], left - x.used);
    }
  }

  lemma VariableHeaderPoll(st: State, v: Byte)
    requires st.phase == FixedHeaderDecoded && DecoderOk(st) && st.version == Some(v) && v <= 5
    ensures DecoderOk(PollVariableHeader(st).0)
    ensures PollVariableHeader(st).1.Ready? ==> Incoming(PollVariableHeader(st).1.packet)
  {
    var r := VariableHeader(st.packet, st.buf, st.remaining, st.version);
    if r.Ok? {
      HeaderIsRead(st.packet, st.buf, st.remaining, v);
      if r.used == st.remaining {
        VariableHeaderKeepsType(st.packet, st.buf, st.remaining, st.version);
        ReadIncoming(r.value);
      }
    }
    hide VariableHeader, BeforePayload, BlankPacket, Incoming;
  }

  lemma PayloadPoll(st: State)
    requires st.phase == VariableHeaderDecoded && DecoderOk(st)
    ensures DecoderOk(PollPayload(st).0)
    ensures PollPayload(st).1.Ready? ==> Incoming(PollPayload(st).1.packet)
  {
    hide FieldsRead, RoomLeft, ConnectPayload, Subscriptions, Filters, TypedPublish;
    if st.packet.PUBLISH? && |st.buf| >= st.packet.publish.payloadLength {
      PayloadIncoming(st.packet.publish, st.buf[..st.packet.publish.payloadLength]);
    } else if st.packet.SUBSCRIBE? && Subscriptions(st.buf, st.packet.subscribe.payloadLength).Ok? {
      SubscriptionsTakeRoom(st.buf, st.packet.subscribe.payloadLength);
    }
  }

  lemma FixedHeaderPoll(st: State)
    requires st.phase == Done
    ensures DecoderOk(PollFixedHeader(st).0)
  {
    if FixedHeader(st.buf).Ok? {
      VarIntShortest(st.buf[1..]);
      if FixedHeader(st.buf).value.0.PUBLISH? {
        BlankIsDefault(st.buf);
      }
    }
    hide VarInt, BlankPublish;
  }

  /** Every packet that a decoder emits can be taken by the broker. */
  lemma PollIncoming(st: State, v: Byte)
    requires DecoderOk(st) && st.version == Some(v) && v <= 5
    ensures Poll(st).1.Good() ==> DecoderOk(Poll(st).0)
    ensures Poll(st).1.Ready? ==> Incoming(Poll(st).1.packet)
  {
    hide PollFixedHeader, PollVariableHeader, PollPayload, DecoderOk, Incoming;
    match st.phase
    case Done => FixedHeaderPoll(st); NoPacketYet(st);
    case FixedHeaderDecoded => VariableHeaderPoll(st, v);
    case VariableHeaderDecoded => PayloadPoll(st);
  }

  lemma NoPacketYet(st: State)
    ensures !PollFixedHeader(st).1.Ready?
  {
    hide FixedHeader;
  }

  lemma ArrivalsKeepDecoder(st: State, bytes: Bytes)
    requires DecoderOk(st)
    ensures DecoderOk(Arrive(st, bytes))
  {
    hide BeforePayload, BlankPacket;
  }

  lemma ReadyIsDone(st: State)
    requires Poll(st).1.Ready?
    ensures Poll(st).0.phase == Done
  {
    hide FixedHeader, VariableHeader, Payload;
  }

  // What holds once a connection has read a CONNECT of version `v`.
  ghost predicate IntakeOk(c: Conn, v: Byte) {
    c.decoder.version == Some(v) && c.version == Some(v) && DecoderOk(c.decoder) && !c.stage.PreConnection?
  }

  lemma FirstPollIncoming(c: Conn, o: Outside, v: Byte)
    requires c.stage.PreConnection? && c.version == None
    requires PollConn(c, o).verdict == Waiting && PollConn(c, o).conn.version == Some(v)
    ensures IntakeOk(PollConn(c, o).conn, v)
    ensures PollConn(c, o).call.Some? && Incoming(PollConn(c, o).call.value.packet)
  {
    hide Poll;
    ReadyIsDone(Arrive(c.decoder, if o.read.Got? then o.read.bytes else []));
  }

  lemma PollConnVersion(c: Conn, o: Outside)
    requires PollConn(c, o).verdict == Waiting && !c.stage.PreConnection?
    ensures PollConn(c, o).conn.version == c.version
  {
    hide Poll, WriteAll, Sessions.TrySend;
  }

  lemma NextPollIncoming(c: Conn, o: Outside, v: Byte)
    requires IntakeOk(c, v) && v <= 5 && PollConn(c, o).verdict == Waiting
    ensures IntakeOk(PollConn(c, o).conn, v)
    ensures PollConn(c, o).call.Some? ==> Incoming(PollConn(c, o).call.value.packet)
  {
    hide PollConn, Poll, Chunk, DecoderOk, Incoming;
    PollServes(c, o);
    PollConnVersion(c, o);
    if Chunk(c, o) != [] {
      var st := Arrive(c.decoder, Chunk(c, o)[0]);
      ArrivalsKeepDecoder(c.decoder, Chunk(c, o)[0]);
      PollIncoming(st, v);
      PollKeepsVersion(st);
    }
  }

  /**
   * Over a whole run of a connection whose CONNECT has a version that the connect service
   * accepts, every packet that it calls a service with can be taken.
   */
  lemma {:induction false} ServedIsIncoming(r: ConnRun, n: nat, v: Byte)
    requires IsConnRun(r) && n <= |r.outsides| && r.states[n].version == Some(v) && v <= 5
    ensures IntakeOk(r.states[n], v)
    ensures forall call :: call in Calls(r, n) ==> Incoming(call.packet)
    decreases n
  {
    hide PollConn, IntakeOk, Incoming;
    if n > 0 {
      assert PollsAt(r, n - 1);
      var c, o := r.states[n - 1], r.outsides[n - 1];
      ConnectServiceFirst(r, n - 1);
      if c.stage.PreConnection? {
        FirstPollIncoming(c, o, v);
      } else {
        PollConnVersion(c, o);
        ServedIsIncoming(r, n - 1, v);
        NextPollIncoming(c, o, v);
      }
    }
  }
}
