// The decoders of the source as they are written there: one buffer, a position that moves
// through it, and loops. Each is proved to agree with its function in PacketDecoder.
module PacketReader {
  import opened Wire
  import opened Properties
  import opened Packets
  import opened PacketDecoder

  method ReadPublishVariableHeader(p: Publish, buf: Bytes, remaining: nat, version: Option<Byte>)
    returns (r: Parsed<Publish>)
    ensures r == PublishVariableHeader(p, buf, remaining, version)
  {
    hide PublishFields;
    var fields := ReadPublishFields(p, buf, version);
    if !fields.Ok? {
      return fields;
    }
    if remaining < fields.used {
      return Panic;
    }
    return Ok(fields.value.(payloadLength := remaining - fields.used), fields.used);
  }

  method ReadPublishFields(p: Publish, buf: Bytes, version: Option<Byte>) returns (r: Parsed<Publish>)
    ensures r == PublishFields(p, buf, version)
  {
    hide Utf8, ParseSection, PublishPropertySection;
    var q := p;
    assert buf[0..] == buf;
    var topic := DecodeUtf8String(buf, 0);
    if !topic.Ok? {
      return topic.PropagateFailure();
    }
    var nextPos := topic.used;
    q := q.(topic := topic.value);
    if q.qos == QoS1 || q.qos == QoS2 {
      if |buf| < nextPos + 1 {
        return Err(InsufficientBytes);
      }
      if |buf| < nextPos + 2 {
        return Panic;
      }
      q := q.(packetId := Some(buf[nextPos] as int * 256 + buf[nextPos + 1]));
      nextPos := nextPos + 2;
    }
    var properties := ReadPublishProperties(buf, nextPos, version);
    if !properties.Ok? {
      return properties.PropagateFailure();
    }
    return Ok(q.(properties := properties.value), properties.used);
  }

  method ReadPublishProperties(buf: Bytes, startPos: nat, version: Option<Byte>) returns (r: Parsed<Option<Fields>>)
    requires startPos <= |buf|
    ensures r == PublishPropertySection(buf[startPos..], version).From(startPos)
  {
    hide ParseSection;
    if version.None? {
      return Panic;
    }
    if version.value < 5 {
      return Ok(None, startPos);
    }
    var properties := DecodeProperties(InPublish, buf, startPos);
    if !properties.Ok? {
      return properties.PropagateFailure();
    }
    return Ok(Some(properties.value), properties.used);
  }

  method ReadPubrelVariableHeader(a: Ack, buf: Bytes, remaining: nat, version: Option<Byte>)
    returns (r: Parsed<Ack>)
    ensures r == PubrelVariableHeader(a, buf, remaining, version)
  {
    hide ParseSection;
    if |buf| < 2 {
      return Panic;
    }
    var b := a.(packetId := buf[0] as int * 256 + buf[1]);
    if remaining == 2 {
      return Ok(b, 2);
    }
    if |buf| <= 2 || (buf[2] != 0x00 && buf[2] != 0x92) {
      return Err(InvalidFormat);
    }
    b := b.(reason := Some(buf[2]));
    if version.None? {
      return Panic;
    }
    if version.value < 5 {
      return Ok(b, 3);
    }
    assert buf[2..][1..] == buf[3..];
    var properties := DecodeProperties(InPubrel, buf, 3);
    if !properties.Ok? {
      return properties.PropagateFailure();
    }
    if properties.value != map[] {
      b := b.(properties := Some(properties.value));
    }
    return Ok(b, properties.used);
  }

  // The property section that follows the two bytes of a packet identifier.
  method ReadOptionalSection(section: Section, buf: Bytes, version: Byte) returns (r: Parsed<Fields>)
    requires 2 <= |buf|
    ensures r == OptionalSection(section, buf[2..], version).From(2)
  {
    hide ParseSection;
    if version < 5 {
      return Ok(map[], 2);
    }
    r := DecodeProperties(section, buf, 2);
  }

  method ReadSubscribeVariableHeader(p: Subscribe, buf: Bytes, remaining: nat, version: Option<Byte>)
    returns (r: Parsed<Subscribe>)
    ensures r == SubscribeVariableHeader(p, buf, remaining, version)
  {
    hide OptionalSection;
    if version.None? {
      return Err(Unexpected);
    }
    if |buf| < 2 {
      return Panic;
    }
    var q := p.(packetId := buf[0] as int * 256 + buf[1]);
    var properties := ReadOptionalSection(InSubscribe, buf, version.value);
    if !properties.Ok? {
      return properties.PropagateFailure();
    }
    q := q.(properties := properties.value);
    if remaining < properties.used {
      return Panic;
    }
    q := q.(payloadLength := remaining - properties.used);
    return Ok(q, properties.used);
  }

  method ReadUnsubscribeVariableHeader(p: Unsubscribe, buf: Bytes, remaining: nat, version: Option<Byte>)
    returns (r: Parsed<Unsubscribe>)
    ensures r == UnsubscribeVariableHeader(p, buf, remaining, version)
  {
    hide OptionalSection;
    if |buf| < 2 || version.None? {
      return Panic;
    }
    var q := p.(packetId := buf[0] as int * 256 + buf[1]);
    var properties := ReadOptionalSection(InUnsubscribe, buf, version.value);
    if !properties.Ok? {
      return properties.PropagateFailure();
    }
    q := q.(properties := properties.value);
    if remaining < properties.used {
      return Panic;
    }
    q := q.(payloadLength := remaining - properties.used);
    return Ok(q, properties.used);
  }

  method ReadConnectVariableHeader(c: Connect, buf: Bytes) returns (r: Parsed<Connect>)
    ensures r == ConnectVariableHeader(c, buf)
  {
    hide ProtocolName, Flags, ParseSection;
    var d := c;
    var name := ProtocolName(buf);
    if !name.Ok? {
      return name.PropagateFailure();
    }
    var nextPos := name.used;
    d := d.(protocolName := name.value);
    if nextPos >= |buf| {
      return Panic;
    }
    d := d.(protocolVersion := buf[nextPos]);
    nextPos := nextPos + 1;
    var flags := Flags(buf[nextPos..]);
    if !flags.Ok? {
      return flags.PropagateFailure();
    }
    d := d.(flags := flags.value);
    nextPos := nextPos + flags.used;
    if |buf| < nextPos + 2 {
      return Panic;
    }
    d := d.(keepAlive := buf[nextPos] as int * 256 + buf[nextPos + 1]);
    nextPos := nextPos + 2;
    if d.protocolVersion != 5 {
      return Ok(d, nextPos);
    }
    var properties := DecodeProperties(InConnect, buf, nextPos);
    if !properties.Ok? {
      return properties.PropagateFailure();
    }
    d := d.(properties := properties.value);
    return Ok(d, properties.used);
  }

  method ReadDisconnectVariableHeader(d: Disconnect, buf: Bytes, remaining: nat, version: Option<Byte>)
    returns (r: Parsed<Disconnect>)
    ensures r == DisconnectVariableHeader(d, buf, remaining, version)
  {
    hide ParseSection, KnownDisconnectReason;
    if remaining == 0 {
      return Ok(d.(reason := 0), 0);
    }
    if |buf| == 0 || !KnownDisconnectReason(buf[0]) {
      return Err(InvalidFormat);
    }
    if version.None? {
      return Panic;
    }
    if version.value < 5 {
      return Ok(d.(reason := buf[0]), 1);
    }
    var properties := DecodeProperties(InDisconnect, buf, 1);
    if !properties.Ok? {
      return properties.PropagateFailure();
    }
    return Ok(Disconnect(buf[0], Some(properties.value)), properties.used);
  }

  method ReadVariableHeader(packet: ControlPacket, buf: Bytes, remaining: nat, version: Option<Byte>)
    returns (r: Parsed<ControlPacket>)
    ensures r == VariableHeader(packet, buf, remaining, version)
  {
    hide ConnectVariableHeader, PublishVariableHeader, SubscribeVariableHeader, UnsubscribeVariableHeader,
      DisconnectVariableHeader, PubrelVariableHeader, AckVariableHeader;
    match packet {
      case CONNECT(c) =>
        var d := ReadConnectVariableHeader(c, buf);
        r := if d.Ok? then Ok(CONNECT(d.value), d.used) else d.PropagateFailure();
      case PUBLISH(p) =>
        var q := ReadPublishVariableHeader(p, buf, remaining, version);
        r := if q.Ok? then Ok(PUBLISH(q.value), q.used) else q.PropagateFailure();
      case SUBSCRIBE(p) =>
        var q := ReadSubscribeVariableHeader(p, buf, remaining, version);
        r := if q.Ok? then Ok(SUBSCRIBE(q.value), q.used) else q.PropagateFailure();
      case UNSUBSCRIBE(p) =>
        var q := ReadUnsubscribeVariableHeader(p, buf, remaining, version);
        r := if q.Ok? then Ok(UNSUBSCRIBE(q.value), q.used) else q.PropagateFailure();
      case PINGREQ => r := Ok(PINGREQ, 0);
      case DISCONNECT(d) =>
        var e := ReadDisconnectVariableHeader(d, buf, remaining, version);
        r := if e.Ok? then Ok(DISCONNECT(e.value), e.used) else e.PropagateFailure();
      case PUBREL(a) =>
        var b := ReadPubrelVariableHeader(a, buf, remaining, version);
        r := if b.Ok? then Ok(PUBREL(b.value), b.used) else b.PropagateFailure();
      case PUBACK(a) =>
        var b := AckVariableHeader(a, buf, version);
        r := if b.Ok? then Ok(PUBACK(b.value), b.used) else b.PropagateFailure();
      case PUBREC(a) =>
        var b := AckVariableHeader(a, buf, version);
        r := if b.Ok? then Ok(PUBREC(b.value), b.used) else b.PropagateFailure();
      case PUBCOMP(a) =>
        var b := AckVariableHeader(a, buf, version);
        r := if b.Ok? then Ok(PUBCOMP(b.value), b.used) else b.PropagateFailure();
      case _ => r := Err(NotImplemented);
    }
  }

  /** What the rest of a list parses to, behind the entries that are read already. */
  function Behind<T>(done: seq<T>, rest: Parsed<seq<T>>): Parsed<seq<T>> {
    if rest.Ok? then Ok(done + rest.value, rest.used) else rest
  }

  lemma BehindStep<T>(done: seq<T>, x: T, rest: Parsed<seq<T>>)
    ensures Behind(done, Behind([x], rest)) == Behind(done + [x], rest)
  {
    if rest.Ok? {
      assert done + ([x] + rest.value) == (done + [x]) + rest.value;
    }
  }

  lemma SubscriptionsTurn(s: Bytes, left: nat)
    ensures var x := Subscription(s);
            Subscriptions(s, left) ==
              if !x.Ok? then x.PropagateFailure()
              else if x.used == left then Ok([x.value], x.used)
              else if x.used > left then Err(Unexpected)
              else Behind([x.value], Subscriptions(s[x.used..], left - x.used).From(x.used))
  {
    hide Subscription;
  }

  method ReadSubscriptions(buf: Bytes, payloadLength: nat) returns (r: Parsed<seq<(Bytes, SubscribeOption)>>)
    ensures r == Subscriptions(buf, payloadLength)
  {
    hide Subscription, Subscriptions, Behind;
    var nextPos := 0;
    var topicFilters := [];
    assert buf[0..] == buf;
    BehindNothing(Subscriptions(buf, payloadLength));
    while true
      invariant nextPos <= |buf| && nextPos <= payloadLength
      invariant Subscriptions(buf, payloadLength)
             == Behind(topicFilters, Subscriptions(buf[nextPos..], payloadLength - nextPos).From(nextPos))
      decreases |buf| - nextPos
    {
      ghost var s, left, done, was := buf[nextPos..], payloadLength - nextPos, topicFilters, nextPos;
      SubscriptionsTurn(s, left);
      var x := ReadSubscription(buf, nextPos);
      if !x.Ok? {
        BehindFailure(done, Subscriptions(s, left).From(was));
        return x.PropagateFailure();
      }
      nextPos := x.used;
      topicFilters := topicFilters + [x.value];
      if payloadLength == nextPos {
        BehindOk(done, Subscriptions(s, left).From(was));
        return Ok(topicFilters, nextPos);
      } else if payloadLength < nextPos {
        BehindFailure(done, Subscriptions(s, left).From(was));
        return Err(Unexpected);
      }
      assert s[nextPos - was..] == buf[nextPos..];
      ghost var rest := Subscriptions(buf[nextPos..], payloadLength - nextPos);
      BehindFrom([x.value], rest, nextPos - was, was);
      BehindStep(done, x.value, rest.From(nextPos));
    }
  }

  lemma BehindNothing<T>(r: Parsed<seq<T>>)
    ensures Behind([], r.From(0)) == r
  {
    if r.Ok? {
      assert [] + r.value == r.value;
    }
  }

  lemma BehindFailure<T>(done: seq<T>, r: Parsed<seq<T>>)
    requires !r.Ok?
    ensures Behind(done, r) == r
  {
  }

  lemma BehindOk<T>(done: seq<T>, r: Parsed<seq<T>>)
    requires r.Ok?
    ensures Behind(done, r) == Ok(done + r.value, r.used)
  {
  }

  lemma BehindFrom<T>(done: seq<T>, r: Parsed<seq<T>>, n: nat, start: nat)
    ensures Behind(done, r.From(n)).From(start) == Behind(done, r.From(start + n))
  {
  }

  method ReadSubscription(buf: Bytes, startPos: nat) returns (r: Parsed<(Bytes, SubscribeOption)>)
    requires startPos <= |buf|
    ensures r == Subscription(buf[startPos..]).From(startPos)
  {
    hide Utf8, OptionByte;
    var filter := DecodeUtf8String(buf, startPos);
    if !filter.Ok? {
      return filter.PropagateFailure();
    }
    assert buf[startPos..][filter.used - startPos..] == buf[filter.used..];
    var option := OptionByte(buf[filter.used..]);
    if !option.Ok? {
      return option.PropagateFailure();
    }
    return Ok((filter.value, option.value), filter.used + option.used);
  }

  lemma FiltersTurn(s: Bytes, left: int)
    ensures Filters(s, 0) == Ok([], 0)
    ensures left < 0 ==> Filters(s, left) == Err(InvalidFormat)
    ensures left > 0 ==>
              var x := Utf8(s);
              Filters(s, left) ==
                if !x.Ok? then x.PropagateFailure()
                else Behind([x.value], Filters(s[x.used..], left - x.used).From(x.used))
  {
    hide Utf8;
  }

  method ReadFilters(buf: Bytes, payloadLength: nat) returns (r: Parsed<seq<Bytes>>)
    ensures r == Filters(buf, payloadLength)
  {
    hide Utf8, Filters, Behind;
    var nextPos := 0;
    var topicFilters: seq<Bytes> := [];
    assert buf[0..] == buf;
    BehindNothing(Filters(buf, payloadLength));
    while true
      invariant nextPos <= |buf|
      invariant Filters(buf, payloadLength)
             == Behind(topicFilters, Filters(buf[nextPos..], payloadLength - nextPos).From(nextPos))
      decreases |buf| - nextPos
    {
      ghost var s, left, done, was := buf[nextPos..], payloadLength - nextPos, topicFilters, nextPos;
      FiltersTurn(s, left);
      if nextPos == payloadLength {
        BehindOk(done, Filters(s, left).From(was));
        assert topicFilters + [] == topicFilters;
        return Ok(topicFilters, nextPos);
      } else if nextPos > payloadLength {
        BehindFailure(done, Filters(s, left).From(was));
        return Err(InvalidFormat);
      }
      var x := DecodeUtf8String(buf, nextPos);
      if !x.Ok? {
        BehindFailure(done, Filters(s, left).From(was));
        return x.PropagateFailure();
      }
      nextPos := x.used;
      topicFilters := topicFilters + [x.value];
      assert s[nextPos - was..] == buf[nextPos..];
      ghost var rest := Filters(buf[nextPos..], payloadLength - nextPos);
      BehindFrom([x.value], rest, nextPos - was, was);
      BehindStep(done, x.value, rest.From(nextPos));
    }
  }

  method ReadConnectPayload(c: Connect, buf: Bytes) returns (r: Parsed<Connect>)
    ensures r == ConnectPayload(c, buf)
  {
    hide Utf8, Binary, ParseSection, CredentialsPart;
    assert buf[0..] == buf;
    var id := DecodeUtf8String(buf, 0);
    if !id.Ok? {
      return id.PropagateFailure();
    }
    var d := c.(clientId := id.value);
    var nextPos := id.used;
    if d.flags.will {
      var will := ReadWill(d, buf, nextPos);
      if !will.Ok? {
        return will;
      }
      d, nextPos := will.value, will.used;
    }
    assert buf[id.used..][nextPos - id.used..] == buf[nextPos..];
    r := ReadCredentials(d, buf, nextPos);
  }

  method ReadCredentials(c: Connect, buf: Bytes, startPos: nat) returns (r: Parsed<Connect>)
    requires startPos <= |buf|
    ensures r == CredentialsPart(c, buf[startPos..]).From(startPos)
  {
    hide Utf8, Binary;
    var d, nextPos := c, startPos;
    if d.flags.userName {
      var name := DecodeUtf8String(buf, nextPos);
      if !name.Ok? {
        return name.PropagateFailure();
      }
      d, nextPos := d.(userName := Some(name.value)), name.used;
    }
    assert buf[startPos..][nextPos - startPos..] == buf[nextPos..];
    if d.flags.password {
      var word := Binary(buf[nextPos..]);
      if !word.Ok? {
        return word.PropagateFailure();
      }
      d, nextPos := d.(password := Some(word.value)), nextPos + word.used;
    }
    return Ok(d, nextPos);
  }

  method ReadWill(c: Connect, buf: Bytes, startPos: nat) returns (r: Parsed<Connect>)
    requires startPos <= |buf| && c.flags.will
    ensures r == WillPart(c, buf[startPos..]).From(startPos)
  {
    hide Utf8, Binary, ParseSection;
    var properties := DecodeProperties(InWill, buf, startPos);
    if !properties.Ok? {
      return properties.PropagateFailure();
    }
    assert buf[startPos..][properties.used - startPos..] == buf[properties.used..];
    var topic := DecodeUtf8String(buf, properties.used);
    if !topic.Ok? {
      return topic.PropagateFailure();
    }
    assert buf[startPos..][topic.used - startPos..] == buf[topic.used..];
    var payload := Binary(buf[topic.used..]);
    if !payload.Ok? {
      return payload.PropagateFailure();
    }
    var d := c.(willProperties := properties.value, willTopic := Some(topic.value), willPayload := Some(payload.value));
    return Ok(d, topic.used + payload.used);
  }

  /** The decoded packet, and the bytes that its payload did not use. */
  method ReadPayload(packet: ControlPacket, buf: Bytes) returns (r: Parsed<ControlPacket>, rest: Bytes)
    ensures r == Payload(packet, buf)
    ensures rest == if r.Ok? then buf[r.used..] else []
  {
    hide ConnectPayload, Subscriptions, Filters;
    match packet {
      case CONNECT(c) =>
        var d := ReadConnectPayload(c, buf);
        r := if d.Ok? then Ok(CONNECT(d.value), d.used) else d.PropagateFailure();
      case PUBLISH(p) =>
        if |buf| < p.payloadLength {
          r := Err(InsufficientBytes);
        } else {
          r := Ok(PUBLISH(p.(payload := buf[..p.payloadLength])), p.payloadLength);
        }
      case SUBSCRIBE(p) =>
        if p.payloadLength == 0 {
          r := Err(Unexpected);
        } else {
          var xs := ReadSubscriptions(buf, p.payloadLength);
          r := if xs.Ok? then Ok(SUBSCRIBE(p.(filters := p.filters + xs.value)), xs.used) else xs.PropagateFailure();
        }
      case UNSUBSCRIBE(p) =>
        var xs := ReadFilters(buf, p.payloadLength);
        r := if xs.Ok? then Ok(UNSUBSCRIBE(p.(filters := p.filters + xs.value)), xs.used) else xs.PropagateFailure();
      case PINGREQ => r := Ok(packet, 0);
      case PUBREL(_) => r := Ok(packet, 0);
      case DISCONNECT(_) => r := Ok(packet, 0);
      case PUBACK(_) => r := Ok(packet, 0);
      case PUBREC(_) => r := Ok(packet, 0);
      case PUBCOMP(_) => r := Ok(packet, 0);
      case _ => r := Err(NotImplemented);
    }
    rest := if r.Ok? then buf[r.used..] else [];
  }
}
