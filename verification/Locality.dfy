// What a decoder makes of bytes depends on those it uses alone: the converse of prefix
// stability. Whatever decodes from `s + t` without using a byte of `t` decodes from `s`.
module Locality {
  import opened Wire
  import opened Properties
  import opened Packets
  import opened PacketDecoder

  lemma {:induction false} VarIntFromLocal(s: Bytes, inc: nat, t: Bytes)
    requires inc < 4 && VarIntFrom(s + t, inc).Ok? && VarIntFrom(s + t, inc).used <= |s|
    ensures VarIntFrom(s, inc) == VarIntFrom(s + t, inc)
    decreases 4 - inc
  {
    if (s + t)[0] >= 128 {
      DropAppend(s, t, 1);
      VarIntFromLocal(s[1..], inc + 1, t);
    }
  }

  lemma VarIntLocal(s: Bytes, t: Bytes)
    requires VarInt(s + t).Ok? && VarInt(s + t).used <= |s|
    ensures VarInt(s) == VarInt(s + t)
  {
    VarIntFromLocal(s, 0, t);
  }

  lemma Utf8Local(s: Bytes, t: Bytes)
    requires Utf8(s + t).Ok? && Utf8(s + t).used <= |s|
    ensures Utf8(s) == Utf8(s + t)
  {
    assert (s + t)[2..Utf8(s + t).used] == s[2..Utf8(s + t).used];
  }

  lemma BinaryLocal(s: Bytes, t: Bytes)
    requires Binary(s + t).Ok? && Binary(s + t).used <= |s|
    ensures Binary(s) == Binary(s + t)
  {
    assert (s + t)[2..Binary(s + t).used] == s[2..Binary(s + t).used];
  }

  // ---------------------------------------------------------------- property sections

  lemma PairLocal(s: Bytes, t: Bytes)
    requires ParseValue(TextPair, s + t).Ok? && ParseValue(TextPair, s + t).used <= |s|
    ensures ParseValue(TextPair, s) == ParseValue(TextPair, s + t)
  {
    hide Utf8;
    Utf8Local(s, t);
    var n := Utf8(s).used;
    DropAppend(s, t, n);
    Utf8Local(s[n..], t);
  }

  lemma ParseValueLocal(kind: Kind, s: Bytes, t: Bytes)
    requires ParseValue(kind, s + t).Ok? && ParseValue(kind, s + t).used <= |s|
    ensures ParseValue(kind, s) == ParseValue(kind, s + t)
  {
    hide VarInt, Utf8, Binary;
    match kind
    case VarNumber => VarIntLocal(s, t);
    case Text => Utf8Local(s, t);
    case Blob => BinaryLocal(s, t);
    case TextPair => PairLocal(s, t); hide ParseValue;
    case _ =>
  }

  lemma StepLocal(section: Section, s: Bytes, acc: Fields, t: Bytes)
    requires Step(section, s + t, acc).Ok? && Step(section, s + t, acc).used <= |s|
    ensures Step(section, s, acc) == Step(section, s + t, acc)
  {
    hide ParseValue, RuleOf;
    DropAppend(s, t, 1);
    ParseValueLocal(RuleOf(section, s[0]).value.kind, s[1..], t);
  }

  lemma {:induction false} LoopLocal(section: Section, s: Bytes, left: int, acc: Fields, t: Bytes)
    requires Loop(section, s + t, left, acc).Ok? && Loop(section, s + t, left, acc).used <= |s|
    ensures Loop(section, s, left, acc) == Loop(section, s + t, left, acc)
    decreases |s|
  {
    hide Step;
    if left != 0 {
      var step := Step(section, s + t, acc);
      StepLocal(section, s, acc, t);
      DropAppend(s, t, step.used);
      LoopLocal(section, s[step.used..], left - step.used, step.value, t);
    }
  }

  lemma SectionLocal(section: Section, s: Bytes, t: Bytes)
    requires ParseSection(section, s + t).Ok? && ParseSection(section, s + t).used <= |s|
    ensures ParseSection(section, s) == ParseSection(section, s + t)
  {
    hide Loop, VarInt;
    VarIntLocal(s, t);
    var n := VarInt(s).used;
    DropAppend(s, t, n);
    LoopLocal(section, s[n..], VarInt(s).value, map[], t);
  }

  // ---------------------------------------------------------------- headers

  lemma FixedHeaderLocal(s: Bytes, t: Bytes)
    requires FixedHeader(s + t).Ok? && FixedHeader(s + t).used <= |s|
    ensures FixedHeader(s) == FixedHeader(s + t)
  {
    hide Blank, VarInt;
    DropAppend(s, t, 1);
    VarIntLocal(s[1..], t);
  }

  lemma PublishPropertySectionLocal(s: Bytes, version: Option<Byte>, t: Bytes)
    requires PublishPropertySection(s + t, version).Ok? && PublishPropertySection(s + t, version).used <= |s|
    ensures PublishPropertySection(s, version) == PublishPropertySection(s + t, version)
  {
    hide ParseSection;
    if version.value >= 5 {
      SectionLocal(InPublish, s, t);
    }
  }

  lemma PublishFieldsLocal(p: Publish, s: Bytes, version: Option<Byte>, t: Bytes)
    requires PublishFields(p, s + t, version).Ok? && PublishFields(p, s + t, version).used <= |s|
    ensures PublishFields(p, s, version) == PublishFields(p, s + t, version)
  {
    hide Utf8, PublishPropertySection;
    Utf8Local(s, t);
    var n := Utf8(s).used;
    DropAppend(s, t, n);
    var m := PublishPacketId(p, s[n..] + t).used;
    DropAppend(s, t, n + m);
    PublishPropertySectionLocal(s[n + m..], version, t);
  }

  lemma OptionalSectionLocal(section: Section, s: Bytes, version: Byte, t: Bytes)
    requires OptionalSection(section, s + t, version).Ok? && OptionalSection(section, s + t, version).used <= |s|
    ensures OptionalSection(section, s, version) == OptionalSection(section, s + t, version)
  {
    hide ParseSection;
    if version >= 5 {
      SectionLocal(section, s, t);
    }
  }

  lemma SubscribeVariableHeaderLocal(p: Subscribe, s: Bytes, remaining: nat, version: Option<Byte>, t: Bytes)
    requires var r := SubscribeVariableHeader(p, s + t, remaining, version); r.Ok? && r.used <= |s|
    ensures SubscribeVariableHeader(p, s, remaining, version) == SubscribeVariableHeader(p, s + t, remaining, version)
  {
    hide OptionalSection;
    DropAppend(s, t, 2);
    OptionalSectionLocal(InSubscribe, s[2..], version.value, t);
  }

  lemma UnsubscribeVariableHeaderLocal(p: Unsubscribe, s: Bytes, remaining: nat, version: Option<Byte>, t: Bytes)
    requires var r := UnsubscribeVariableHeader(p, s + t, remaining, version); r.Ok? && r.used <= |s|
    ensures UnsubscribeVariableHeader(p, s, remaining, version)
         == UnsubscribeVariableHeader(p, s + t, remaining, version)
  {
    hide OptionalSection;
    DropAppend(s, t, 2);
    OptionalSectionLocal(InUnsubscribe, s[2..], version.value, t);
  }

  lemma PubrelVariableHeaderLocal(a: Ack, s: Bytes, remaining: nat, version: Option<Byte>, t: Bytes)
    requires var r := PubrelVariableHeader(a, s + t, remaining, version); r.Ok? && r.used <= |s|
    ensures PubrelVariableHeader(a, s, remaining, version) == PubrelVariableHeader(a, s + t, remaining, version)
  {
    hide ParseSection;
    if remaining != 2 {
      DropAppend(s, t, 2);
      DropAppend(s[2..], t, 1);
      if version.value >= 5 {
        SectionLocal(InPubrel, s[2..][1..], t);
      }
    }
  }

  lemma FlagsLocal(s: Bytes, t: Bytes)
    requires s != []
    ensures Flags(s) == Flags(s + t)
    ensures Flags(s).Ok? ==> Flags(s).used == 1
  {
  }

  lemma ConnectFieldsLocal(c: Connect, s: Bytes, t: Bytes)
    requires ConnectFields(c, s + t).Ok? && ConnectFields(c, s + t).used <= |s|
    ensures ConnectFields(c, s) == ConnectFields(c, s + t)
  {
    hide ValidUtf8, Binary, Flags;
    BinaryLocal(s, t);
    var n0 := Binary(s).used;
    DropAppend(s, t, n0);
    DropAppend(s, t, n0 + 1);
    FlagsLocal(s[n0 + 1..], t);
    DropAppend(s, t, n0 + 2);
  }

  lemma ConnectVariableHeaderLocal(c: Connect, s: Bytes, t: Bytes)
    requires ConnectVariableHeader(c, s + t).Ok? && ConnectVariableHeader(c, s + t).used <= |s|
    ensures ConnectVariableHeader(c, s) == ConnectVariableHeader(c, s + t)
  {
    hide ConnectFields, ParseSection;
    ConnectFieldsLocal(c, s, t);
    var fields := ConnectFields(c, s);
    DropAppend(s, t, fields.used);
    if fields.value.protocolVersion == 5 {
      SectionLocal(InConnect, s[fields.used..], t);
    }
  }

  lemma DisconnectVariableHeaderLocal(d: Disconnect, s: Bytes, remaining: nat, version: Option<Byte>, t: Bytes)
    requires var r := DisconnectVariableHeader(d, s + t, remaining, version); r.Ok? && r.used <= |s|
    ensures DisconnectVariableHeader(d, s, remaining, version) == DisconnectVariableHeader(d, s + t, remaining, version)
  {
    hide ParseSection, KnownDisconnectReason;
    if remaining != 0 {
      DropAppend(s, t, 1);
      if version.value >= 5 {
        SectionLocal(InDisconnect, s[1..], t);
      }
    }
  }

  /** A variable header that was read without a byte of `t` is read without them there. */
  lemma VariableHeaderLocal(packet: ControlPacket, s: Bytes, remaining: nat, version: Option<Byte>, t: Bytes)
    requires var r := VariableHeader(packet, s + t, remaining, version); r.Ok? && r.used <= |s|
    ensures VariableHeader(packet, s, remaining, version) == VariableHeader(packet, s + t, remaining, version)
  {
    hide ConnectVariableHeader, PublishFields, SubscribeVariableHeader, UnsubscribeVariableHeader,
      DisconnectVariableHeader, PubrelVariableHeader;
    match packet
    case CONNECT(c) => ConnectVariableHeaderLocal(c, s, t);
    case PUBLISH(p) => PublishFieldsLocal(p, s, version, t);
    case SUBSCRIBE(p) => SubscribeVariableHeaderLocal(p, s, remaining, version, t);
    case UNSUBSCRIBE(p) => UnsubscribeVariableHeaderLocal(p, s, remaining, version, t);
    case DISCONNECT(d) => DisconnectVariableHeaderLocal(d, s, remaining, version, t);
    case PUBREL(a) => PubrelVariableHeaderLocal(a, s, remaining, version, t);
    case _ =>
  }

  // ---------------------------------------------------------------- payloads

  lemma SubscriptionLocal(s: Bytes, t: Bytes)
    requires Subscription(s + t).Ok? && Subscription(s + t).used <= |s|
    ensures Subscription(s) == Subscription(s + t)
  {
    hide Utf8, QoSOf;
    Utf8Local(s, t);
    DropAppend(s, t, Utf8(s).used);
  }

  lemma {:induction false} SubscriptionsLocal(s: Bytes, left: nat, t: Bytes)
    requires Subscriptions(s + t, left).Ok? && left <= |s|
    ensures Subscriptions(s, left) == Subscriptions(s + t, left)
    decreases |s|
  {
    hide Subscription;
    SubscriptionLocal(s, t);
    var n := Subscription(s).used;
    if n < left {
      DropAppend(s, t, n);
      SubscriptionsLocal(s[n..], left - n, t);
    }
  }

  lemma {:induction false} FiltersLocal(s: Bytes, left: int, t: Bytes)
    requires Filters(s + t, left).Ok? && left <= |s|
    ensures Filters(s, left) == Filters(s + t, left)
    decreases |s|
  {
    hide Utf8;
    if left > 0 {
      Utf8Local(s, t);
      var n := Utf8(s).used;
      DropAppend(s, t, n);
      FiltersLocal(s[n..], left - n, t);
    }
  }

  lemma WillPartLocal(c: Connect, s: Bytes, t: Bytes)
    requires WillPart(c, s + t).Ok? && WillPart(c, s + t).used <= |s|
    ensures WillPart(c, s) == WillPart(c, s + t)
  {
    hide ParseSection, Utf8, Binary;
    if c.flags.will {
      SectionLocal(InWill, s, t);
      var n := ParseSection(InWill, s).used;
      DropAppend(s, t, n);
      Utf8Local(s[n..], t);
      var m := Utf8(s[n..]).used;
      DropAppend(s, t, n + m);
      BinaryLocal(s[n + m..], t);
    }
  }

  lemma CredentialsPartLocal(c: Connect, s: Bytes, t: Bytes)
    requires CredentialsPart(c, s + t).Ok? && CredentialsPart(c, s + t).used <= |s|
    ensures CredentialsPart(c, s) == CredentialsPart(c, s + t)
  {
    hide Utf8, Binary;
    if c.flags.userName {
      Utf8Local(s, t);
    }
    var n := UserNamePart(c, s).used;
    DropAppend(s, t, n);
    if c.flags.password {
      BinaryLocal(s[n..], t);
    }
  }

  lemma ConnectPayloadLocal(c: Connect, s: Bytes, t: Bytes)
    requires ConnectPayload(c, s + t).Ok? && ConnectPayload(c, s + t).used <= |s|
    ensures ConnectPayload(c, s) == ConnectPayload(c, s + t)
  {
    hide Utf8, Binary, WillPart, CredentialsPart;
    Utf8Local(s, t);
    var n0 := Utf8(s).used;
    DropAppend(s, t, n0);
    var c0 := c.(clientId := Utf8(s).value);
    WillPartLocal(c0, s[n0..], t);
    var n1 := WillPart(c0, s[n0..]).used;
    DropAppend(s, t, n0 + n1);
    CredentialsPartLocal(WillPart(c0, s[n0..]).value, s[n0 + n1..], t);
  }

  /** The same for payloads. */
  lemma PayloadLocal(packet: ControlPacket, s: Bytes, t: Bytes)
    requires Payload(packet, s + t).Ok? && Payload(packet, s + t).used <= |s|
    ensures Payload(packet, s) == Payload(packet, s + t)
  {
    hide ConnectPayload, Subscriptions, Filters;
    match packet
    case CONNECT(c) => ConnectPayloadLocal(c, s, t);
    case PUBLISH(p) => assert (s + t)[..p.payloadLength] == s[..p.payloadLength];
    case SUBSCRIBE(p) => SubscriptionsLocal(s, p.payloadLength, t);
    case UNSUBSCRIBE(p) => FiltersLocal(s, p.payloadLength, t);
    case _ =>
  }
}
