// What the decoders refuse, and with which error or panic; and for the variable headers of
// CONNECT and PUBLISH, what they accept.
module Refusals {
  import opened Wire
  import opened Properties
  import PropertyPrinting
  import opened Packets
  import opened PacketDecoder
  import opened WireFormat
  import opened PayloadMeaning

  // ---------------------------------------------------------------- property values

  /** A flag other than 0 or 1 and a number that must not be 0 are `InvalidFormat`. */
  lemma ValueErrors(kind: Kind, s: Bytes)
    ensures kind == Flag ==>
              ParseValue(kind, s)
                == if s == [] then Panic else if s[0] <= 1 then Ok(Num(s[0]), 1) else Err(InvalidFormat)
    ensures kind == TwoBytesNonZero && |s| >= 2 && s[0] == s[1] == 0 ==> ParseValue(kind, s) == Err(InvalidFormat)
    ensures kind == FourBytesNonZero && |s| >= 4 && s[0] == s[1] == s[2] == s[3] == 0 ==>
              ParseValue(kind, s) == Err(InvalidFormat)
    ensures kind == VarNumber ==> (ParseValue(kind, s).Err? <==> VarInt(s).Err?) && !ParseValue(kind, s).Panic?
    ensures kind == Text ==> (ParseValue(kind, s).Err? <==> Utf8(s).Err?)
    ensures kind == Blob || kind == FourBytes ==> !ParseValue(kind, s).Err?
  {
    VarIntMeaning(s);
    hide VarInt, Utf8;
  }

  // ---------------------------------------------------------------- CONNECT

  /** Protocol name, version, flags and keep-alive, as section 3.1.2 of MQTT 5.0 prints them. */
  function ConnectFront(name: Bytes, v: Byte, flags: Byte, keepAlive: nat): Bytes
    requires |name| < 0x1_0000 && keepAlive < 0x1_0000
  {
    Two(|name|) + name + [v, flags] + Two(keepAlive)
  }

  // The reserved bit is 0, and the will's quality of service is not 3.
  predicate FlagsAccepted(flags: Byte) {
    flags % 2 == 0 && flags / 8 % 4 != 3
  }

  lemma TwoIsU16(s: Bytes)
    requires |s| >= 2
    ensures U16(s).Ok? && Two(U16(s).value) == s[..2]
  {
    assert s[..2] == [s[0], s[1]];
  }

  // The fields behind a name, read one after the other.
  lemma FieldsInTurn(c: Connect, s: Bytes, name: Bytes, n: nat, v: Byte, flags: Parsed<ConnectFlags>, alive: nat)
    requires n + 2 <= |s| && ProtocolName(s) == Ok(name, n) && U8(s[n..]) == Ok(v, 1)
    requires Flags(s[n + 1..]) == flags && (flags.Ok? ==> flags.used == 1)
    requires U16(s[n + 2..]) == Ok(alive, 2)
    ensures !flags.Ok? ==> ConnectFields(c, s) == flags.PropagateFailure()
    ensures flags.Ok? ==>
              var r := ConnectFields(c, s);
              && r.Ok? && r.used == n + 4 && r.value.protocolName == name && r.value.protocolVersion == v
              && r.value.flags == flags.value && r.value.keepAlive == alive
  {
    hide ProtocolName, U8, Flags, U16;
  }

  lemma NameIsRead(s: Bytes, name: Bytes)
    requires Binary(s) == Ok(name, 2 + |name|)
    ensures ProtocolName(s) == if ValidUtf8(name) then Ok(name, 2 + |name|) else Err(InvalidFormat)
    ensures !ValidUtf8(name) ==> forall c :: ConnectFields(c, s) == Err(InvalidFormat)
  {
    hide ValidUtf8, Binary, U8, Flags, U16;
  }

  lemma FrontIsRead(c: Connect, name: Bytes, v: Byte, flags: Byte, keepAlive: nat, t: Bytes)
    requires |name| < 0x1_0000 && keepAlive < 0x1_0000
    ensures var r := ConnectFields(c, ConnectFront(name, v, flags, keepAlive) + t);
            if !ValidUtf8(name) || !FlagsAccepted(flags) then r == Err(InvalidFormat)
            else
              && r.Ok? && r.used == 6 + |name|
              && r.value.protocolName == name && r.value.protocolVersion == v && r.value.keepAlive == keepAlive
              && r.value.flags == Flags([flags]).value
  {
    hide ValidUtf8, Binary, Flags, U16, ConnectFields, Two;
    var alive := Two(keepAlive);
    var s := ConnectFront(name, v, flags, keepAlive) + t;
    BigEndian(0, 0, 0, 0, |name|, []);
    BigEndian(0, 0, 0, 0, keepAlive, []);
    BinaryRoundTrip(name, [v, flags] + alive + t);
    assert s == Prefixed(name) + ([v, flags] + alive + t);
    var n := 2 + |name|;
    assert s[n] == v && s[n + 1] == flags;
    assert s[n + 2..] == alive + t;
    ConnectBits(flags, []);
    assert [flags] + [] == [flags];
    U16RoundTrip(keepAlive, t);
    NameIsRead(s, name);
    FlagsLocalTo(flags, alive + t);
    assert s[n + 1..] == [flags] + (alive + t);
    if ValidUtf8(name) {
      FieldsInTurn(c, s, name, n, v, Flags([flags]), keepAlive);
    }
  }

  lemma FlagsLocalTo(flags: Byte, t: Bytes)
    ensures Flags([flags] + t) == Flags([flags])
  {
    assert ([flags] + t)[0] == flags;
  }

  /** A CONNECT is read up to its properties exactly if it starts with such a front that is accepted. */
  lemma ConnectFieldsIff(c: Connect, s: Bytes)
    ensures ConnectFields(c, s).Ok?
       <==> exists name: Bytes, v: Byte, flags: Byte, keepAlive: nat ::
              && |name| < 0x1_0000 && keepAlive < 0x1_0000 && ValidUtf8(name) && FlagsAccepted(flags)
              && ConnectFront(name, v, flags, keepAlive) <= s
  {
    if ConnectFields(c, s).Ok? {
      var name := Binary(s).value;
      var n := 2 + |name|;
      var v, flags := s[n], s[n + 1];
      BinaryIsPrinted(s);
      TwoIsU16(s[n + 2..]);
      var keepAlive := U16(s[n + 2..]).value;
      assert s[n + 2..][..2] == s[n + 2..n + 4];
      assert ConnectFront(name, v, flags, keepAlive) == s[..n + 4];
    }
    hide ConnectFields, ConnectFront;
    if name: Bytes, v: Byte, flags: Byte, keepAlive: nat :|
      && |name| < 0x1_0000 && keepAlive < 0x1_0000 && ValidUtf8(name) && FlagsAccepted(flags)
      && ConnectFront(name, v, flags, keepAlive) <= s
    {
      var front := ConnectFront(name, v, flags, keepAlive);
      FrontIsRead(c, name, v, flags, keepAlive, s[|front|..]);
      assert front + s[|front|..] == s;
    }
  }

  lemma BinaryIsPrinted(s: Bytes)
    requires Binary(s).Ok?
    ensures s[..2 + |Binary(s).value|] == Two(|Binary(s).value|) + Binary(s).value
  {
    TwoIsU16(s);
    var b := Binary(s).value;
    assert s[..2 + |b|] == s[..2] + s[2..2 + |b|];
  }

  // ---------------------------------------------------------------- PUBLISH

  /** Topic and, above QoS 0, packet identifier, as section 3.3.2 prints them. */
  function PublishFront(topic: Bytes, id: Option<PacketId>): Bytes
    requires |topic| < 0x1_0000
  {
    Two(|topic|) + topic + if id.None? then [] else Two(id.value)
  }

  // The identifier is there exactly above QoS 0.
  predicate IdentifierFits(p: Publish, id: Option<PacketId>) {
    id.Some? <==> p.qos != QoS0
  }

  lemma PublishFrontIsRead(p: Publish, topic: Bytes, id: Option<PacketId>, v: Byte, t: Bytes)
    requires |topic| < 0x1_0000 && ValidUtf8(topic) && IdentifierFits(p, id)
    ensures var front := PublishFront(topic, id);
            var section := PublishPropertySection(t, Some(v));
            PublishFields(p, front + t, Some(v))
              == if section.Ok? then
                   Ok(p.(topic := topic, packetId := if id.Some? then id else p.packetId, properties := section.value),
                      |front| + section.used)
                 else section.PropagateFailure()
  {
    hide ValidUtf8, Utf8, U16, PublishPropertySection, Two;
    var rest := (if id.None? then [] else Two(id.value)) + t;
    var s := PublishFront(topic, id) + t;
    BigEndian(0, 0, 0, 0, |topic|, []);
    Utf8RoundTrip(topic, rest);
    assert s == Prefixed(topic) + rest;
    var n := 2 + |topic|;
    assert s[n..] == rest;
    if id.Some? {
      BigEndian(0, 0, 0, 0, id.value, []);
      U16RoundTrip(id.value, t);
      assert rest[2..] == t && s[n + 2..] == t;
    } else {
      assert rest == t;
    }
  }

  /** A PUBLISH is read up to its properties exactly if it starts with such a front. */
  lemma PublishFieldsIff(p: Publish, s: Bytes, v: Byte)
    ensures PublishFields(p, s, Some(v)).Ok?
       <==> exists topic: Bytes, id: Option<PacketId> ::
              && |topic| < 0x1_0000 && ValidUtf8(topic) && IdentifierFits(p, id) && PublishFront(topic, id) <= s
              && PublishPropertySection(s[|PublishFront(topic, id)|..], Some(v)).Ok?
  {
    if PublishFields(p, s, Some(v)).Ok? {
      var topic := Utf8(s).value;
      PublishStarts(p, s, v);
      var id := if p.qos == QoS0 then None else Some(U16(s[2 + |topic|..]).value);
      assert PublishFront(topic, id) <= s && IdentifierFits(p, id);
    }
    hide PublishFields, PublishFront, IdentifierFits, PublishPropertySection;
    if topic: Bytes, id: Option<PacketId> :|
      && |topic| < 0x1_0000 && ValidUtf8(topic) && IdentifierFits(p, id) && PublishFront(topic, id) <= s
      && PublishPropertySection(s[|PublishFront(topic, id)|..], Some(v)).Ok?
    {
      var front := PublishFront(topic, id);
      PublishFrontIsRead(p, topic, id, v, s[|front|..]);
      assert front + s[|front|..] == s;
    }
  }

  lemma PublishStarts(p: Publish, s: Bytes, v: Byte)
    requires PublishFields(p, s, Some(v)).Ok?
    ensures Utf8(s).Ok? && |Utf8(s).value| < 0x1_0000 && ValidUtf8(Utf8(s).value)
    ensures p.qos != QoS0 ==> U16(s[2 + |Utf8(s).value|..]).Ok?
    ensures var topic := Utf8(s).value;
            var id := if p.qos == QoS0 then None else Some(U16(s[2 + |topic|..]).value);
            && PublishFront(topic, id) <= s
            && PublishPropertySection(s[|PublishFront(topic, id)|..], Some(v)).Ok?
  {
    hide PublishPropertySection, ValidUtf8;
    StringIsPrinted(s);
    var topic := Utf8(s).value;
    var n := 2 + |topic|;
    BigEndian(0, 0, 0, 0, |topic|, []);
    assert s[..n] == Two(|topic|) + topic;
    if p.qos != QoS0 {
      TwoIsU16(s[n..]);
      assert s[..n + 2] == s[..n] + s[n..][..2];
      assert s[n..][2..] == s[n + 2..];
    } else {
      assert s[..n] == s[..n] + [];
    }
  }

  /** A missing identifier is an error if nothing of it is there, and a panic if one byte is. */
  lemma IdentifierErrors(p: Publish, s: Bytes)
    requires p.qos != QoS0
    ensures s == [] ==> PublishPacketId(p, s) == Err(InsufficientBytes)
    ensures |s| == 1 ==> PublishPacketId(p, s).Panic?
    ensures |s| >= 2 ==> PublishPacketId(p, s) == Ok(Some(256 * s[0] as int + s[1]), 2)
  {
  }

  // ---------------------------------------------------------------- lists that overrun

  /** Filters that do not end where the payload does: `Unexpected` in SUBSCRIBE, `InvalidFormat` in UNSUBSCRIBE. */
  lemma {:induction false} SubscriptionsOverrun(xs: seq<(Bytes, SubscribeOption)>, left: nat, t: Bytes)
    requires SubscriptionList(xs) && |PrintSubscriptions(xs[..|xs| - 1])| < left < |PrintSubscriptions(xs)|
    ensures Subscriptions(PrintSubscriptions(xs) + t, left) == Err(Unexpected)
    decreases |xs|
  {
    hide Subscription, PrintOption, Prefixed, WireString;
    var head, rest := Prefixed(xs[0].0) + [PrintOption(xs[0].1)], PrintSubscriptions(xs[1..]);
    assert xs[0] in xs;
    assert (head + rest) + t == head + (rest + t);
    SubscriptionRoundTrip(xs[0], rest + t);
    assert (head + (rest + t))[|head|..] == rest + t;
    if |xs| > 1 {
      assert xs[1..][..|xs| - 2] == xs[1..|xs| - 1];
      assert xs[..|xs| - 1][1..] == xs[1..|xs| - 1] && xs[..|xs| - 1][0] == xs[0];
      SubscriptionsOverrun(xs[1..], left - |head|, t);
    } else {
      assert rest == [];
    }
  }

  lemma {:induction false} FiltersOverrun(xs: seq<Bytes>, left: nat, t: Bytes)
    requires xs != [] && FilterList(xs) && |PrintFilters(xs[..|xs| - 1])| < left < |PrintFilters(xs)|
    ensures Filters(PrintFilters(xs) + t, left) == Err(InvalidFormat)
    decreases |xs|
  {
    hide Utf8, Prefixed, ValidUtf8;
    var head, rest := Prefixed(xs[0]), PrintFilters(xs[1..]);
    assert xs[0] in xs;
    assert (head + rest) + t == head + (rest + t);
    Utf8RoundTrip(xs[0], rest + t);
    assert (head + (rest + t))[|head|..] == rest + t;
    if |xs| > 1 {
      assert xs[1..][..|xs| - 2] == xs[1..|xs| - 1];
      assert xs[..|xs| - 1][1..] == xs[1..|xs| - 1] && xs[..|xs| - 1][0] == xs[0];
      FiltersOverrun(xs[1..], left - |head|, t);
    } else {
      assert rest == [];
    }
  }

  // ---------------------------------------------------------------- what is not implemented

  lemma NotImplementedPackets(packet: ControlPacket, s: Bytes, remaining: nat, version: Option<Byte>)
    requires TypedPacket(packet)
    ensures Encode(packet) == Failure(NotImplemented)
       <==> packet.CONNECT? || packet.SUBSCRIBE? || packet.UNSUBSCRIBE? || packet.PINGREQ? || packet.DISCONNECT?
            || packet.NOOPERATION? || packet.UNDEFINED?
    ensures packet.CONNACK? || packet.SUBACK? || packet.UNSUBACK? || packet.PINGRESP? || packet.NOOPERATION?
            || packet.UNDEFINED? ==>
              && VariableHeader(packet, s, remaining, version) == Err(NotImplemented)
              && Payload(packet, s) == Err(NotImplemented)
  {
    ReasonErrors(packet);
    hide TypedPublish, ReasonProperties, PublishSection, EncodeVarInt;
  }

  // The encoders have no other error than `InvalidFormat`.
  lemma ReasonErrors(packet: ControlPacket)
    requires TypedPacket(packet)
    ensures packet.PUBACK? || packet.PUBREC? || packet.PUBREL? || packet.PUBCOMP? ==>
              ReasonProperties(packet.ack.properties) != Failure(NotImplemented)
    ensures packet.SUBACK? || packet.UNSUBACK? ==> ReasonProperties(packet.codes.properties) != Failure(NotImplemented)
  {
    hide PropertyPrinting.TypedFields, PropertyPrinting.PrintFields;
  }

  // A string that two length bytes cannot count.
  predicate TooLong(v: Value) {
    match v
    case Num(_) => false
    case Str(b) => |b| >= 65536
    case Pair(k, w) => |k| >= 65536 || |w| >= 65536
  }

  /** The acknowledgements' properties cannot be encoded exactly if one of their strings is too long. */
  lemma ReasonFailsIff(f: Fields)
    requires TypedReason(Some(f))
    ensures ReasonProperties(Some(f)) == Failure(InvalidFormat)
       <==> exists id, v :: (id == 0x1F || id == 0x26) && id in f && v in f[id] && TooLong(v)
    ensures ReasonProperties(Some(f)) != Failure(InvalidFormat) ==> ReasonProperties(Some(f)).Success?
  {
    hide PropertyPrinting.TypedFields, PropertyPrinting.PrintFields;
    assert forall v :: Short(v) <==> !TooLong(v);
    hide Short, TooLong;
  }
}
