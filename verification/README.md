# Aqua: an MQTT codec and broker, modelled and proved

Aqua is an MQTT server library with a wire codec (`mqtt_coder`), a connection state
machine, and an example broker. This project models the codec, the connection and the
broker as one system and proves what they keep: that streams decode to what was encoded,
however they arrive; that QoS 2 messages are delivered once per staging; that subscribers
get exactly what they subscribed to; and that no packet the broker queues makes its writer
fail. Where the code does not keep a promise, it says exactly when.

## How it is laid out

The codec, from bytes up:

- `Wire.dfy`: integers, strings, variable byte integers (section 1.5.5 of MQTT 5.0).
  `Unicode.dfy`: what valid UTF-8 is.
- `Properties.dfy`, `PropertyPrinting.dfy`, `PropertyWriters.dfy`: property sections (section
  2.2.2). The source has a property loop for each of seven sections; here one loop reads a table
  of rules.
- `Packets.dfy`: the packets, their encoders, and when Remaining Length is honest.
- `PacketDecoder.dfy`, `PacketReader.dfy`: the decoders, as functions on the bytes that are
  left, and as the position-keeping loops that agree with them.
- `WireFormat.dfy`: the format in bytes and bits. `PayloadMeaning.dfy`, `Refusals.dfy`: what is
  accepted, and what is refused and how.
- `StreamDecoder.dfy`: the decoder that spreads one packet over several polls. `Locality.dfy`
  and `Schedules.dfy`: which arrivals of bytes it survives.
- `RoundTrip.dfy`: encoding and decoding put together; `ClientFrames.dfy`: the packets that
  only clients send, printed as the standard prescribes, and decoded.

The broker:

- `Topics.dfy`, `TopicIndex.dfy`, `Retain.dfy`, `Sessions.dfy`: topic matching, the
  subscription index, the retain store, and the session manager with its bounded queues.
- `BrokerSteps.dfy`: what each handler and each spawned task does, as functions.
- `BrokerService.dfy`: the handlers as they run, over the three objects, proved equal to them.
- `BrokerRuns.dfy`, `BrokerTraces.dfy`: all interleavings, and the invariant along them.
- `History.dfy`: what one key of a map holds after a sequence of events. `QosTwo.dfy`,
  `RetainedRuns.dfy` and `RoutingRuns.dfy` apply it to the staging map, the retain store and
  the routing map; `ClearedTopics.dfy` says when a cleared topic can come back.
- `BrokerDelivery.dfy`: what reaches the subscribers; `ConnackOrder.dfy`: whether CONNACK is first.
- `Connections.dfy`, `Intake.dfy`: one connection from its first byte, and what it hands over.

Both together:

- `Server.dfy`: all connections with the broker, whose runs are runs of the broker;
  `EndToEnd.dfy`: from the bytes that a client sends to the steps of the broker.

## How the code is read

- Where Rust panics (an index or slice out of range, `unwrap` of `None`, `assert!`, a `usize`
  subtraction below zero) the model has an explicit outcome: `Panic`, `Crash` or `Panics`.
- A packet's normal form after decoding: the stored version is the default, an empty list of
  properties is an absent one, and from version 5 on a missing property section is an empty one.
- Each packet handler is one step, as is each run of a spawned task, in any interleaving. A
  connection handles one packet at a time and writes its reply before it reads again;
  `Connections.RepliesInOrder` and `Server.RunsOfTheBroker` are the proof of that.
- A map can be iterated in any order: an event carries the order, and theorems hold for all.
- Connection identifiers are fresh numbers, and packet identifiers that the broker draws are
  arbitrary numbers up to 1000.

## What turned out not to hold

Each of these has a lemma with the exact condition; where that alone does not show the
input, another lemma gives it.

- Remaining Length is wrong for CONNACK with 128 or more bytes of properties, and for PUBREL
  and PUBCOMP with properties but no reason (`Packets.RemainingLengthHonesty`).
- Five properties may be repeated against the standard, the last one counting, and a Topic
  Alias Maximum of 0 is refused (`Properties.RulesFollowStandard`).
- Reserved flags in the first byte are checked for three packet types only
  (`WireFormat.FirstByteTable`), and an UNSUBSCRIBE without filters is accepted
  (`PayloadMeaning.FiltersIff`).
- PUBACK, PUBREC and PUBCOMP longer than two bytes are not consumed to their end
  (`StreamDecoder.ExactFraming`).
- A complete frame can stay undecoded until more bytes come, as a two-byte DISCONNECT does
  (`StreamDecoder.FrameAloneIsEmittedIff`, `StreamDecoder.BareDisconnectWaits`).
- So the DISCONNECT of two bytes that ends a session never reaches its handler, and the client
  stays routed (`EndToEnd.ClosingDisconnectIsNotHandled`, `EndToEnd.ClosedClientStaysRouted`;
  exact in `StreamDecoder.AllEmittedIff`).
- A frame that arrives in pieces ends the connection if the decoder is polled while one of its
  parts is incomplete (`Schedules.CutFrameFails`; exact in `Schedules.FramesArriveIff`).
- A DISCONNECT or PUBREL with a reason and no property length is refused at version 5
  (`ClientFrames.DisconnectFrame`, `ClientFrames.PubrelFrame`).
- The order of CONNECT properties matters (`Properties.ConnectOrderMatters`; exact in
  `Properties.FoldMeaning`).
- A CONNECT below version 5 that has a will is misread (`ClientFrames.ConnectFrame`).
- CONNACK need not be the first packet in a client's queue (`ConnackOrder.DeliveryOvertakesConnack`;
  exact in `ConnackOrder.ConnackIsFirstIff`).
- A message that has no room for a packet identifier, for a subscriber that needs one, is sent
  with a length that every decoder refuses (`BrokerDelivery.LargestMessageIsCut`; exact in
  `BrokerDelivery.DeliveredMessageHonestIff`).
- Clients that share a packet identifier lose messages (`QosTwo.SharedIdentifierLosesMessage`),
  one publisher and one subscriber among them (`QosTwo.SubscriberCompletesPublishersNext`), and
  a replayed retained message can be delivered twice (`QosTwo.ReplayedMessageIsDeliveredAgain`).
  `QosTwo.FansOutIff` says exactly when a delivery is spawned; `QosTwo.ExactlyOnceDelivery`,
  when it is one.
- A cleared retained topic can come back (`ClearedTopics.ClearingCanBeOvertaken`; exact in
  `ClearedTopics.ClearedTopicReturnsIff`).
- After a takeover the old connection's DISCONNECT unroutes the new one
  (`RoutingRuns.OvertakenDisconnectUnroutes`; exact in `RoutingRuns.RoutingReachesLatest`).
- The handlers stamp version 4 on every message, so subscribers of version 5, and no others,
  cannot read the payload they are sent (`BrokerDelivery.PayloadReadIff`), and properties of a
  PUBLISH are decoded but never forwarded (`BrokerDelivery.MessageArrives`).

## Model

| member | source | states |
|---|---|---|
| Wire.VarIntRoundTrip | mqtt_coder/src/mqtt.rs:2246-2283 | Section 1.5.5 of MQTT 5.0, before any bytes: the encoding of n decodes to n and ends where it ends exactly when n < 2^28; for every larger n decoding fails with `InvalidRemainingLength`. |
| Wire.VarIntShortest | mqtt_coder/src/mqtt.rs:2246-2283 | Any bytes that decode as a variable byte integer carry a value below 2^28, and the encoder needs no more bytes for it than were used. |
| Wire.DecodeVariableLength | mqtt_coder/src/mqtt.rs:2246-2267 | The positional loop with its multiplier, started anywhere in a buffer, agrees with the recursive definition of the format on the bytes from there, error and panic cases included. |
| Wire.EncodeVariableBytes | mqtt_coder/src/mqtt.rs:2269-2283 | The encoding loop produces the recursively defined encoding, cut off after four bytes for every length. |
| Wire.DecodeUtf8String | mqtt_coder/src/mqtt.rs:2228-2242 | Reading a length-prefixed string at a position agrees with the parser on the rest of the buffer: invalid UTF-8 and missing bytes are the same errors, a position too far right the same panic. |
| Unicode.ValidIff | mqtt_coder/src/mqtt.rs:2228-2242 | Bytes are valid UTF-8 if and only if they are the encoding of some list of Unicode scalar values, one to four bytes each by range, surrogates excluded. |
| Unicode.TextIsUnique | mqtt_coder/src/mqtt.rs:2228-2242 | And of one list only. |
| Unicode.StringReadIff | mqtt_coder/src/mqtt.rs:2228-2242 | Section 1.5.4 of MQTT 5.0: a string is read if and only if its two length bytes and all it counts are there and are the encoding of some text; which of the two errors, and when a panic, is stated too. |
| WireFormat.BigEndian | mqtt_coder/src/mqtt.rs:2228-2235 | Sections 1.5.2 and 1.5.3: integers are read and written most significant byte first. |
| WireFormat.BinaryMeaning | mqtt_coder/src/mqtt.rs:2050-2067 | Section 1.5.6: binary data is what its length counts; bytes that are missing are a panic. |
| WireFormat.VarIntMeaning | mqtt_coder/src/mqtt.rs:2246-2267 | Section 1.5.5: the value of one to four bytes, digit by digit, and both errors. |
| Properties.RulesFollowStandard | mqtt_coder/src/mqtt.rs:1540-1566 | Section 2.2.2.2 of MQTT 5.0: the seven property loops accept exactly the identifiers allowed in their packet, with the type the standard gives each, and collect exactly those that may repeat; other repetitions are refused, but for five that overwrite. Zero is refused for four identifiers. |
| Properties.ValueRoundTrip | mqtt_coder/src/mqtt.rs:1652-1775 | Each of the eight kinds of property value, printed before any suffix, reads back to itself with the exact end. |
| Properties.ParsedValueFits | mqtt_coder/src/mqtt.rs:1652-1775 | Whatever was read as a property value is in the range its kind allows, and printing it takes no more bytes than were read. |
| Refusals.ValueErrors | mqtt_coder/src/mqtt.rs:1652-1775 | A flag other than 0 or 1, and a number that may not be 0, are `InvalidFormat`; which kinds can fail otherwise, and how. |
| Properties.DecodeItems | mqtt_coder/src/mqtt.rs:2436-2513 | The property loop, bounded by an end position that items may overrun, agrees with the recursive reading of the section, and stops. |
| Properties.DecodeProperties | mqtt_coder/src/mqtt.rs:2430-2514 | Property length and loop together agree with the parser of a property section. |
| Properties.SectionStable | mqtt_coder/src/mqtt.rs:2430-2514 | A property section that decodes does so in the same way whatever bytes follow. |
| Properties.LoopIsFold | mqtt_coder/src/mqtt.rs:2436-2513 | Section 2.2.2 of MQTT 5.0: the loop is reading the section into items as far as it can be read, and then folding them. A rejected item is `InvalidFormat`; otherwise the outcome is the fold, an overrun, or the error or panic of the item that could not be read, unless its identifier is one that the section refuses beforehand. |
| Properties.FoldMeaning | mqtt_coder/src/mqtt.rs:2436-2513 | An item list is accepted exactly when every identifier belongs to the section, none that may occur once is repeated, and authentication data does not come before its method; and each field then holds all values of its identifier in order, or the last one, as its rule says. |
| Properties.OrderIrrelevant | mqtt_coder/src/mqtt.rs:2436-2513 | Two item lists that have, for every identifier, the same values in the same order have the same outcome, accepted or not; in CONNECT, if they agree on whether authentication data comes after its method. |
| Properties.ConnectOrderMatters | mqtt_coder/src/mqtt.rs:2615-2710 | In CONNECT the order does matter: authentication data before its method is refused, the same two items the other way round are accepted. |
| PropertyWriters.PublishPiecePrinted | mqtt_coder/src/mqtt.rs:1583-1633 | Section 3.3.2.3 of MQTT 5.0: each of the eight fields that the encoder writes, with the identifier and format spelled out, is what the table of rules prescribes at that place. |
| PropertyWriters.WritePublishProperties | mqtt_coder/src/mqtt.rs:1583-1633 | Writing the fields that are present one after another gives the printed form of the whole section, the one that is proved to be read back. |
| PropertyWriters.ReasonBytesPrinted | mqtt_coder/src/mqtt.rs:1449-1473 | The same for the reason string and user properties of the acknowledgements. |
| PropertyPrinting.FieldsRoundTrip | mqtt_coder/src/mqtt.rs:1582-1634 | Printed properties, with their length in front and any bytes behind, decode to the same fields, empty lists becoming absent ones, and to the exact end. |
| PropertyPrinting.SectionRoom | mqtt_coder/src/mqtt.rs:2430-2514 | Properties that were read can be printed again, take no more bytes than they were read from, and print to something in range. |
| Packets.EncodePublishHeader | mqtt_coder/src/mqtt.rs:2532-2585 | The header is the first byte, the length of body and payload together, and the body; a missing packet identifier above QoS 0 is the panic of the `unwrap`. |
| Packets.EncodeAckHeader | mqtt_coder/src/mqtt.rs:890-930 | PUBACK, PUBREC, PUBREL and PUBCOMP headers by one method: which versions and fields make the long form, and the cases in which bytes are counted but not written. |
| Packets.EncodeCodesHeader | mqtt_coder/src/mqtt.rs:1406-1437 | SUBACK and UNSUBACK headers, with the reason codes counted in the length but sent as payload. |
| Packets.EncodeConnackHeader | mqtt_coder/src/mqtt.rs:381-439 | CONNACK header, whose length counts the property length as one byte whatever it is. |
| Packets.EncodeAll | mqtt_coder/src/encoder.rs:24-35 | Header, then payload chunk, are appended to the buffer; on an error nothing is. |
| Packets.AckHonest | mqtt_coder/src/mqtt.rs:890-930 | Section 2.1.4 of MQTT 5.0: an acknowledgement's length is honest exactly when it fits the field and, for PUBREL and PUBCOMP from version 5 on, there are no properties without a reason. |
| Packets.ConnackHonest | mqtt_coder/src/mqtt.rs:381-439 | CONNACK is honest exactly when the version is not 5, or there are no properties, or they take fewer than 128 bytes. |
| Packets.RemainingLengthHonesty | mqtt_coder/src/mqtt.rs:124-152 | All encoders together: a whole encoded frame has the length it declares if and only if a condition holds that can be checked on the packet beforehand. |
| WireFormat.CodesBytes | mqtt_coder/src/mqtt.rs:1406-1437 | Sections 3.9 and 3.11: the bytes of SUBACK and UNSUBACK, below version 5 and from 5 on, with the property section in place. |
| WireFormat.AckBytes | mqtt_coder/src/mqtt.rs:890-930 | Sections 3.4 to 3.7: the bytes of PUBACK, PUBREC, PUBREL and PUBCOMP, short and long, reason before property length before properties. |
| WireFormat.ConnackBytes | mqtt_coder/src/mqtt.rs:381-439 | Section 3.2: the bytes of a CONNACK for any session flag, reason and properties. |
| WireFormat.PublishBytes | mqtt_coder/src/mqtt.rs:2532-2585 | Section 3.3: the bytes of a PUBLISH, field after field. |
| PacketDecoder.VariableHeaderStable | mqtt_coder/src/mqtt.rs:87-123 | Prefix stability of all variable headers: success on b is the same success on b and anything after it. |
| PacketDecoder.PayloadStable | mqtt_coder/src/mqtt.rs:67-86 | Prefix stability of all payloads. |
| WireFormat.FirstByteTable | mqtt_coder/src/mqtt.rs:2943-3069 | Table 2-1: the first bytes that are accepted, all 256 of them, and the packet each starts. |
| WireFormat.PublishFlags | mqtt_coder/src/mqtt.rs:2943-3069 | Section 3.3.1: the bits of DUP, quality of service and RETAIN, read and written. |
| WireFormat.OptionBits | mqtt_coder/src/mqtt.rs:1202-1217 | Section 3.8.3.1: the bits of the subscription options, and the bytes that are refused. |
| WireFormat.ConnectBits | mqtt_coder/src/mqtt.rs:1861-1892 | Section 3.1.2.3: the bits of the connect flags, and the bytes that are refused. |
| WireFormat.PropertiesFromFive | mqtt_coder/src/mqtt.rs:2407-2519 | Property sections are read from version 5 on and at no version below. |
| WireFormat.ShortPublish | mqtt_coder/src/mqtt.rs:2407-2519 | A Remaining Length below what the PUBLISH header took is a panic, and never an error. |
| WireFormat.ShortSubscribe | mqtt_coder/src/mqtt.rs:2309-2361 | The same for SUBSCRIBE, which is `Unexpected` when the version is not known. |
| WireFormat.ShortUnsubscribe | mqtt_coder/src/mqtt.rs:472-513 | The same for UNSUBSCRIBE, where that is a panic too. |
| Refusals.IdentifierErrors | mqtt_coder/src/mqtt.rs:2415-2428 | A missing packet identifier is `InsufficientBytes`, half of one a panic. |
| PayloadMeaning.SubscriptionsIff | mqtt_coder/src/mqtt.rs:2363-2391 | Section 3.8.3: a SUBSCRIBE payload is accepted if and only if it is the printed form of some nonempty list of filters and options, and is then read as that list. |
| PayloadMeaning.FiltersIff | mqtt_coder/src/mqtt.rs:514-533 | Section 3.10.3: the same for UNSUBSCRIBE, the empty list included. |
| PayloadMeaning.PayloadIff | mqtt_coder/src/mqtt.rs:67-86 | Hence which whole payloads are accepted; a SUBSCRIBE without filters is `Unexpected`. |
| Refusals.ConnectFieldsIff | mqtt_coder/src/mqtt.rs:2595-2614 | Section 3.1.2: a CONNECT is read up to its properties if and only if it starts with a valid name, any version, accepted flags and a keep-alive, in this order. |
| Refusals.FrontIsRead | mqtt_coder/src/mqtt.rs:2595-2614 | What it is then read as; an invalid name or refused flags are `InvalidFormat`. |
| Refusals.PublishFieldsIff | mqtt_coder/src/mqtt.rs:2407-2430 | Section 3.3.2: a PUBLISH is read if and only if it starts with a valid topic, has an identifier exactly above QoS 0, and its properties are read. |
| Refusals.SubscriptionsOverrun | mqtt_coder/src/mqtt.rs:2380-2391 | Filters that do not end where the payload does are refused as `Unexpected`. |
| Refusals.FiltersOverrun | mqtt_coder/src/mqtt.rs:514-533 | And in UNSUBSCRIBE as `InvalidFormat`. |
| Refusals.ReasonFailsIff | mqtt_coder/src/mqtt.rs:1449-1473 | Reason string and user properties cannot be encoded if and only if one of their strings has 65536 bytes or more. |
| Refusals.NotImplementedPackets | mqtt_coder/src/mqtt.rs:67-153 | Which packets have no encoder, and which no decoder. |
| PacketReader.ReadPublishVariableHeader | mqtt_coder/src/mqtt.rs:2407-2519 | Positions, property loop and the subtraction that panics agree with the parser of the PUBLISH header. |
| PacketReader.ReadConnectVariableHeader | mqtt_coder/src/mqtt.rs:2595-2712 | The same for CONNECT: name, version byte, flags with the reserved bit, keep-alive, and properties at version 5. |
| PacketReader.ReadVariableHeader | mqtt_coder/src/mqtt.rs:87-123 | The dispatch on the packet type, with the two-byte acknowledgements in place. |
| PacketReader.ReadPayload | mqtt_coder/src/mqtt.rs:67-86 | The payload dispatch takes the whole buffer and gives back what it did not use; after an error nothing is left. |
| StreamDecoder.Decoder.PollDecode | mqtt_coder/src/decoder.rs:40-123 | One poll on the decoder's fields is one step of the three-phase machine: the same result, and the same buffer, phase, lengths and packet afterwards (the exception is under Left out). |
| StreamDecoder.PollProgress | mqtt_coder/src/decoder.rs:40-123 | Any other poll that does not fail makes the pair of buffer length and phase smaller. |
| StreamDecoder.PollsBounded | mqtt_coder/src/decoder.rs:40-123 | Draining a buffer of n bytes takes at most 3n+2 polls. |
| StreamDecoder.PollStable | mqtt_coder/src/decoder.rs:40-123 | A poll that acts and succeeds does the same, and leaves the rest behind, when more bytes are already there. |
| StreamDecoder.FailedPoll | mqtt_coder/src/decoder.rs:56-121 | A failing poll leaves the state as it was, but for a payload, whose bytes are gone. |
| StreamDecoder.RunAgreesWithDrain | mqtt_coder/src/decoder.rs:40-123 | Streaming agreement: after any schedule of arrivals in which no poll fails, and with any bytes still to come, polling on gives exactly what having all bytes from the start gives. |
| StreamDecoder.StreamingAgreement | mqtt_coder/src/decoder.rs:40-123 | Hence the packets emitted under any such schedule are a prefix of those that all the bytes give at once. |
| StreamDecoder.FrameStable | mqtt_coder/src/decoder.rs:40-123 | A whole frame decodes in the same way whatever bytes follow. |
| StreamDecoder.DrainFrame | mqtt_coder/src/decoder.rs:40-123 | Draining a buffer that starts with a frame emits its packet and goes on right behind it. |
| StreamDecoder.DrainFrames | mqtt_coder/src/decoder.rs:40-123 | Draining any concatenated frames emits their packets in order and leaves what follows, if anything does, or if the last frame is a CONNECT or declares its own nonzero length. |
| StreamDecoder.FramesInAnyChunks | mqtt_coder/src/decoder.rs:40-123 | Any frames, cut into chunks in any way: what a run without errors emitted, and then what polling on emits, are exactly the packets of the frames, less the last one's if that frame is starved, and the buffer ends empty. |
| StreamDecoder.AllEmittedIff | mqtt_coder/src/decoder.rs:42-56 | No packet is missing exactly if the last frame is a CONNECT or declares its own nonzero length. |
| StreamDecoder.FrameAloneIsEmittedIff | mqtt_coder/src/decoder.rs:42-56 | A frame that is all the decoder has is emitted if and only if it is a CONNECT, or declares a length above 0 and is exactly that long; so among frames of exact length only a DISCONNECT of length 0 waits for bytes it does not need. |
| StreamDecoder.BareDisconnectWaits | mqtt_coder/src/decoder.rs:42-56 | The two-byte DISCONNECT is such a frame at every version: alone in the buffer it is never emitted. |
| StreamDecoder.RunUntilPacket | mqtt_coder/src/decoder.rs:40-123 | However the bytes arrive, the first packet is the same and comes out at the same byte. |
| StreamDecoder.ExactFraming | mqtt_coder/src/decoder.rs:77-121 | PUBLISH, SUBSCRIBE and UNSUBSCRIBE frames use exactly fixed header plus Remaining Length; PUBACK, PUBREC and PUBCOMP do if and only if Remaining Length is 2; PUBREL and DISCONNECT if and only if it is that of the short form, or agrees with the length of their properties. |
| Locality.VariableHeaderLocal | mqtt_coder/src/mqtt.rs:87-123 | The converse of prefix stability: a variable header that decodes from s and t together without using t decodes from s alone. |
| Locality.PayloadLocal | mqtt_coder/src/mqtt.rs:67-86 | The same for payloads. |
| Schedules.PollSucceedsIff | mqtt_coder/src/decoder.rs:40-123 | A poll that acts succeeds if and only if, with any more bytes there, it would succeed and leave all of those. |
| Schedules.RunGoodIff | mqtt_coder/src/decoder.rs:40-123 | If the bytes decode when all are there, a schedule of their arrivals has no failing poll if and only if, after each arrival, the part that is due is there as a whole or not at all. |
| Schedules.FramesArriveIff | mqtt_coder/src/decoder.rs:40-123 | For any frames: a decoder gets through them, or as far as they have come, if and only if the sizes of the chunks keep step with the lengths of the fixed headers, variable headers and payloads. |
| Schedules.CutFrameFails | mqtt_coder/src/decoder.rs:60-100 | A frame cut inside its variable header, and polled before the rest comes, fails. |
| RoundTrip.PublishRoundTrip | mqtt_coder/src/mqtt.rs:2403-2589 | Section 3.3 of MQTT 5.0: any well-formed PUBLISH, at versions 3 to 5 and with all eight properties, encoded before any suffix, decodes to its normal form and to the exact end. |
| RoundTrip.PubrelRoundTrip | mqtt_coder/src/mqtt.rs:827-935 | The same for PUBREL with an honest length, in its short and its long form. |
| RoundTrip.PacketRoundTrip | mqtt_coder/src/mqtt.rs:66-153 | The five packets that have both an encoder and a decoder, together. |
| RoundTrip.EncodingsAreFrames | mqtt_coder/src/encoder.rs:24-35 | Each encoding of a well-formed packet is one whole frame that needs nothing behind it. |
| RoundTrip.StreamRoundTrip | mqtt_coder/src/decoder.rs:40-123 | The same bytes cut into chunks in any way: what a run without errors emitted, followed by what polling on emits, is exactly that list, and the buffer ends empty. |
| RoundTrip.CanonicalReencoding | mqtt_coder/src/mqtt.rs:2403-2589 | Any bytes that decode as a PUBLISH at version 5 or below, with whatever property order, repetitions and padded lengths, encode again, in no more bytes, to a frame that decodes to the same packet. |
| ClientFrames.SubscribeFrame | mqtt_coder/src/mqtt.rs:2308-2391 | Section 3.8 of MQTT 5.0: a SUBSCRIBE printed as prescribed, with its properties from version 5 on, is one whole frame and decodes to itself. |
| ClientFrames.UnsubscribeFrame | mqtt_coder/src/mqtt.rs:471-533 | Section 3.10: the same for UNSUBSCRIBE. |
| ClientFrames.DisconnectFrame | mqtt_coder/src/mqtt.rs:2845-2915 | Section 3.14: a DISCONNECT with a reason of section 3.14.2.1 decodes to itself, as one whole frame, if it carries a property length or the version is below 5, and is refused with `InsufficientBytes` otherwise; any other reason is refused with `InvalidFormat`. |
| ClientFrames.DisconnectReasonIff | mqtt_coder/src/mqtt.rs:1296-1338 | Whatever the body: a DISCONNECT is read beyond its reason if and only if that is one of the listed codes. |
| ClientFrames.PubrelFrame | mqtt_coder/src/mqtt.rs:827-880 | Section 3.6: a PUBREL decodes to itself if it has no reason, or one of the two listed and a property length or a version below 5, and is refused otherwise, with which error. |
| ClientFrames.ConnectFrame | mqtt_coder/src/mqtt.rs:2593-2829 | Section 3.1: a CONNECT printed as prescribed, properties, will and credentials included, is one whole frame and decodes to itself, whatever version the decoder had before, if and only if it has no will or is of version 5; below that the format has no will properties, but they are read. |
| Topics.SplitUnique | examples/broker.rs:486-487 | Splitting at the separators gives the one nonempty list of levels without separators that joins to the string. |
| Topics.IsMatch | examples/broker.rs:485-518 | The two-index loop decides exactly the relation of section 4.7 of MQTT 5.0: equal length and level by level, or a last `#` with a matching prefix before it. |
| Topics.SingleLevelMatches | examples/broker.rs:497-503 | Section 4.7.1.3: a filter without `#` matches exactly the topics got from it by putting any string without a separator for each level `+`. |
| Topics.MultiLevelMatches | examples/broker.rs:493-503 | Section 4.7.1.2: with `/#` behind it, exactly those topics and all that go on behind them with a separator. |
| Topics.MultiLevelMatchesSubtree | examples/broker.rs:493-496 | In particular, a literal filter followed by `/#` matches exactly the topic itself and the topics that continue it with a separator. |
| Topics.PlusIsOneLevel | src/aqua/connection/retain_store.rs:55-61 | So `f/+` matches exactly the topics one level below `f`. |
| Topics.HashMatchesAll | examples/broker.rs:493-496 | And `#` alone matches every topic. |
| Topics.LiteralMatchesItself | src/aqua/connection/retain_store.rs:43-76 | A filter without wildcard levels matches the identical topic and no other. |
| Topics.MisplacedWildcardMatchesNothing | src/aqua/connection/retain_store.rs:51-54 | A filter with `#` before its last level matches no topic. |
| TopicIndex.TopicManager.SubedId | examples/broker.rs:468-483 | Collects exactly the entries of the matching filters, list after list, in some order that visits each filter once. |
| TopicIndex.IndexHoldsSurvivors | examples/broker.rs:455-466 | After any sequence of calls, each filter's list is the flat log of surviving registrations restricted to the filter, in order. |
| TopicIndex.SubscribersAreSurvivors | examples/broker.rs:468-483 | Whatever the iteration order, the subscribers of a topic are, as a multiset, the clients and options of the surviving registrations whose filter matches it. |
| Retain.RetainStore.CheckRetain | src/aqua/connection/retain_store.rs:30-41 | Returns exactly the messages of the matching topics, in some order that visits each topic once. |
| Retain.ReplayExact | examples/broker.rs:92-109 | For any filters and any iteration orders, the replayed messages have pairwise distinct topics and are exactly the stored messages of the topics that match at least one filter. |
| Sessions.SessionManager.SendByClientId | src/aqua/connection/session_manager.rs:80-91 | Queues at the end if there is room and the writer runs; the result tells which it was, and an unknown connection counts as closed. |
| Sessions.SessionManager.SendByMqttId | src/aqua/connection/session_manager.rs:93-109 | Routes by client identifier; an unknown one is reported as sent and changes nothing. |
| Sessions.TrySendIff | src/aqua/connection/session_manager.rs:80-91 | A send fails as closed exactly when the writer is gone, and as full exactly when 32 packets wait; otherwise the packet is the last in the queue. |
| Sessions.SessionManager.UnregisterMqttId | src/aqua/connection/session_manager.rs:116-120 | The route is removed, and the entry of the connection it led to. |
| Sessions.RegisterKeepsRouting | src/aqua/connection/session_manager.rs:111-115 | Registering keeps the two routing maps inverse to each other if and only if the connection is not already reached under another identifier. |
| Sessions.UnregisterKeepsRouting | src/aqua/connection/session_manager.rs:116-120 | Unregistering always keeps them inverse. |
| Sessions.RoutingInjective | src/aqua/connection/session_manager.rs:111-120 | While they are, no connection is reached under two identifiers. |
| Sessions.SendAllIsOffered | src/aqua/connection/session_manager.rs:80-109 | After sending any list of messages, each connection's bounded queue has gained exactly the packets routed to it, in order, cut off where it became full. |
| BrokerService.Service.ConnectService | examples/broker.rs:379-435 | Accepts the three name and version pairs; then the name, both routes and version 4 are recorded, all at once, and CONNACK is the reply; otherwise nothing changes. |
| BrokerService.Service.HandleDisconnect | examples/broker.rs:48-63 | Takes the route of the connection's own client identifier away, unless that is empty. |
| BrokerService.Service.HandleSubscribe | examples/broker.rs:70-120 | Loops, staging, deduplication and the panicking `unwrap` together are one step of the broker, for some iteration order of the store per filter. |
| BrokerService.Service.HandlePublish | examples/broker.rs:121-261 | All branches of the PUBLISH handler, with its panic and its protocol error, are one step of the broker. |
| BrokerService.Service.HandlePubrel | examples/broker.rs:269-343 | Fetching, retaining, spawning and committing are one step of the broker. |
| BrokerService.Service.Handle | examples/broker.rs:47-373 | The dispatch over all packets is one step of the broker. |
| BrokerService.Service.Deliver | examples/broker.rs:206-233 | The delivery loop sends each subscriber its own version of the message; identifiers it draws are at most 1000. |
| BrokerService.Service.RunTask | examples/broker.rs:183-234 | A spawned task retains if asked to, finds the subscribers in some order of the index, and delivers. |
| BrokerRuns.HandledKeeps | examples/broker.rs:47-373 | Given any packet as the decoder hands it out, the handler keeps the invariant of what is staged, retained and pending, and replies without panic or error; only CONNECT is refused. |
| BrokerRuns.StepInv | examples/broker.rs:34-435 | The inductive invariant is kept by every step in any interleaving: staged entries are nonempty QoS 2 messages under their own identifier, retained ones nonempty, flagged and under their own topic, all of them small enough for a frame; queues bounded and encodable, routing inverse, versions known. |
| BrokerTraces.RunInv | examples/broker.rs:34-435 | Every state of every run satisfies the invariant. |
| BrokerTraces.PubrelSpawns | examples/broker.rs:284-296 | A staged message is never empty, so PUBREL never takes the branch that removes a retained message: releasing always spawns a delivery. |
| BrokerTraces.DeliveriesConserved | examples/broker.rs:183-234 | Conservation: in every run, the deliveries spawned are, as a multiset, those still pending and those run; none is lost and none runs twice. |
| QosTwo.StagedIsHeld | src/aqua/connection/session_manager.rs:50-70 | In every reachable state, what is staged under an identifier is what the events on that identifier put there last. |
| QosTwo.FanOutsAreTaken | examples/broker.rs:278-333 | In every run, the deliveries spawned under an identifier are, in order, what the releases of that identifier found staged. |
| QosTwo.FansOutIff | examples/broker.rs:278-333 | A step delivers p under k if and only if it is a PUBREL of k, some earlier step staged p under k, and no event touched k in between. |
| QosTwo.AtMostOncePerStaging | examples/broker.rs:269-343 | Section 4.3.3 of MQTT 5.0: between two deliveries under an identifier there is a staging of it, and the later delivery carries the message staged last. |
| QosTwo.NoMoreFanOutsThanStagings | examples/broker.rs:269-343 | In every run, deliveries under an identifier never outnumber its stagings. |
| QosTwo.ExactlyOnceDelivery | examples/broker.rs:147-173 | In any stretch of a run in which the only events on an identifier are stagings, at least one, and then releases, at least one, exactly one delivery is spawned, of the last staged message, and nothing stays staged. |
| QosTwo.SharedIdentifierLosesMessage | src/aqua/connection/session_manager.rs:50-55 | Why exclusive use is needed: two clients that publish and release under the same identifier, interleaved, get one delivery between them, and the first message is lost. |
| QosTwo.SubscriberCompletesPublishersNext | examples/broker.rs:360-367 | One publisher is enough: a QoS 2 subscriber is sent the publisher's identifier, and its PUBCOMP drops the message that the publisher has staged under it by then, so that the PUBREL for that spawns nothing. |
| QosTwo.ReplayedMessageIsDeliveredAgain | examples/broker.rs:103-106 | A retained QoS 2 message that was replayed to a subscriber is delivered to everyone once more by any PUBREL with its identifier. |
| RetainedRuns.RetainedIff | src/aqua/connection/retain_store.rs:22-29 | In every reachable state, a topic has message p retained if and only if some step stored p under it and none stored another or cleared it since. |
| RoutingRuns.RoutingReachesLatest | src/aqua/connection/session_manager.rs:111-120 | In every reachable state, an identifier leads to a connection if and only if that connection registered it last and no connection of that identifier disconnected since; the connection leads back, and no other identifier leads to it. |
| RoutingRuns.OvertakenDisconnectUnroutes | examples/broker.rs:48-63 | A connection whose identifier was taken over still removes the route of its successor when it disconnects. |
| ClearedTopics.StaysCleared | examples/broker.rs:148-153 | A topic with nothing retained and nothing on its way stays so, through every run, until a client publishes a new message to retain. |
| ClearedTopics.ClearedTopicReturnsIff | examples/broker.rs:176-195 | A cleared topic can get a message back without a new publish if and only if a delivery task or a staged message still carries one. |
| ClearedTopics.ClearingCanBeOvertaken | examples/broker.rs:182-195 | Publish, clear, and then the run of the first publish's task: the cleared message is retained. |
| BrokerDelivery.HandlersNeverPanic | examples/broker.rs:47-373 | At every step of every run, the handler of a ready connection neither panics nor refuses, except for a second CONNECT; the `unreachable!` and the `unwrap`s are never reached. |
| BrokerDelivery.MissingIdentifier | examples/broker.rs:121-261 | Without a packet identifier, which no decoded PUBLISH above QoS 0 is, QoS 1 is a protocol violation and QoS 2 a panic. |
| BrokerDelivery.EveryQueuedPacketEncodes | src/aqua/connection.rs:124-131 | In every reachable state, every packet in every queue can be encoded, so the writer task never ends on an encoding error or a missing packet identifier; the length written is honest if and only if the packet is not a message too long for a frame; no queue holds more than 32. |
| BrokerDelivery.DeliveredMessageHonestIff | examples/broker.rs:206-227 | A message handed to a subscriber is encoded with an honest length if and only if it came with a packet identifier, needs none, or leaves two bytes for one. |
| BrokerDelivery.LargestMessageIsCut | examples/broker.rs:220-226 | The input for which it is not: the largest payload of a QoS 0 PUBLISH comes in one frame, is accepted and delivered, and what a subscriber at QoS 1 or 2 is sent is refused by every decoder. |
| BrokerDelivery.HandshakeOnTheWire | examples/broker.rs:121-373 | Section 4.3 of MQTT 5.0, byte for byte: what each packet but SUBSCRIBE and CONNECT is answered with on the wire, with the identifier it answers. |
| BrokerDelivery.ConnectAnswer | examples/broker.rs:379-435 | A packet is accepted by the connect service if and only if it is a CONNECT named "MQTT" at version 4 or 5, or "MQIsdp" at version 3; it is answered with the four bytes of an empty successful CONNACK, and routes its client identifier to the connection. Any other is rejected and leaves no trace. |
| BrokerDelivery.MessageArrives | examples/broker.rs:206-227 | End to end: a PUBLISH decoded from any frame, handed to a subscriber by its task and encoded, has its payload read back if and only if the subscriber's decoder is below version 5 and there is room for the identifier it may need; it is then the same topic, payload and flags, at the subscriber's quality of service, with the right identifier and no properties. |
| BrokerDelivery.PayloadReadIff | examples/broker.rs:126-129 | Every message goes out in the form of version 4; of the versions up to 5, its payload is read back by decoders of all but version 5. |
| BrokerDelivery.SubscribeReplays | examples/broker.rs:70-120 | At every SUBSCRIBE of every run: a SUBACK for the request granting each filter what it asked for, or nothing to a client without an identifier, then exactly the matching retained messages, each topic once. |
| BrokerDelivery.SubscribeOnTheWire | examples/broker.rs:70-120 | Section 3.9, byte for byte, at every SUBSCRIBE of every run: the SUBACK with the identifier and a code 0, 1 or 2 per filter, and behind it the replayed messages. |
| BrokerDelivery.IndexIsLog | examples/broker.rs:77-85 | In every reachable state the index is that of the log of all subscriptions ever made; nothing is ever unregistered. |
| BrokerDelivery.RunDelivers | examples/broker.rs:198-233 | When a task runs, its recipients are exactly the matching subscriptions of the log, and every connection's queue gains the messages routed to it, in order, as far as it has room. |
| Connections.Connection.Read | src/aqua/connection.rs:323-360 | Reading adds what arrived, also when nothing did, and polls the decoder once; end of stream is an error. |
| Connections.Connection.Write | src/aqua/connection.rs:273-299 | The reply loop agrees with its recursive definition, early exits included. |
| Connections.Connection.PollOnce | src/aqua/connection.rs:170-307 | One poll on the connection's fields is one step of the six-stage machine; a poll that fails leaves the default stage behind. |
| Connections.ReadVerdict | src/aqua/connection.rs:176-200 | A read ends the connection as crashed exactly after a panic, and as broken after an error or a first packet that is no CONNECT. |
| Connections.WriteAllIsOffered | src/aqua/connection.rs:273-299 | A reply's packets up to a DISCONNECT, without NOOPERATION, are offered to the queue in order, be it open or closed; a full queue drops only the last ones, and the poll fails exactly when the queue is closed and something was for it. |
| Connections.ConnectServiceFirst | src/aqua/connection.rs:176-201 | In every run the connect service is called first, with a CONNECT, and never again; from then on decoder and connection have that packet's version, and the first stage never comes back. |
| Connections.RepliesInOrder | src/aqua/connection.rs:237-299 | In every run there is at most one call without its reply, and the replies given are, in order, those written and the one being written. |
| Connections.PollQueues | src/aqua/connection.rs:218-299 | Only writing touches the queue, and it offers exactly the reply in hand. |
| Connections.OwnIsFitted | src/aqua/connection.rs:218-299 | In every run, what the connection queued is, in request order, what of each reply fitted the queue at that moment: a prefix of its packets, all of them if there was room, none if the queue was closed. |
| Connections.OwnPacketsInOrder | src/aqua/connection.rs:218-299 | In particular, as long as no write finds the queue full or closed, what the connection queued is the concatenation of all replies in request order. |
| Connections.ConnackFirst | src/aqua/connection.rs:218-235 | The first reply that a connection writes is a CONNACK with reason 0, and until then it is in one of its first three stages. (What others put into its queue before is the subject of the next three rows.) |
| ConnackOrder.StepQueue | src/aqua/connection/session_manager.rs:80-109 | Whatever step the system takes, a queue gains at its end exactly what a task routes to it or its own connection answers, as far as there is room, and loses only what its writer takes, or all when that stops. |
| ConnackOrder.ConnackIsFirstIff | src/aqua/connection.rs:176-235 | Section 3.2 of MQTT 5.0, in every run: of all packets that an accepted client is ever queued, while its writer runs, CONNACK is the first if and only if no task routed it one between its connect call and the write of the CONNACK. |
| ConnackOrder.DeliveryOvertakesConnack | examples/broker.rs:411-427 | And such a task can run: whenever a client connects under an identifier that a pending task has among its recipients, a PUBLISH can be first in its queue, with the CONNACK still to be written. |
| Connections.ServedAreDecoded | src/aqua/connection.rs:237-255 | The packets served are those a decoder run emits for the bytes read, poll by poll. |
| Connections.ServesTheStream | src/aqua/connection.rs:237-272 | After CONNECT, a client that sends any frames, in any chunks, is served exactly their packets, in order, less the last one's if that frame is starved: what was served, and what the decoder still emits, is the list. |
| Connections.BeforeConnect | src/aqua/connection.rs:176-200 | Until a CONNECT is read, polls only gather bytes: no service is called and the decoder has emitted nothing. |
| Connections.ConnectIsFirst | src/aqua/connection.rs:176-201 | When the first stage ends, the only call made is the connect service with the CONNECT frame's packet, the decoder has that packet's version, and exactly the bytes behind the frame are left. |
| Connections.WholeSession | src/aqua/connection.rs:170-307 | From the first byte, in any chunks: a CONNECT frame and then any frames of the version it names lead to one connect call with that CONNECT, and to service calls with exactly the packets of the frames, in order, less the last one's if that frame is starved. |
| Connections.ClosingDisconnectIsNotServed | src/aqua/connection.rs:237-272 | So a session that ends with the two-byte DISCONNECT is served its frames and not the DISCONNECT. |
| Intake.PollIncoming | mqtt_coder/src/decoder.rs:77-121 | Every packet that a decoder emits can be taken by the handlers: a PUBLISH has a payload of its stored length, printable properties, a topic below 65536 bytes, an identifier above QoS 0, and fits a frame of version 4; a SUBSCRIBE has so few filters that its SUBACK fits one. |
| Intake.ServedIsIncoming | src/aqua/connection.rs:237-255 | Hence, in every run of a connection whose CONNECT has an accepted version, every packet given to a service is one that the handlers can take. |
| Server.EnqueueAll | src/aqua/connection.rs:273-299 | Writing a reply in one poll, with its early exits, is a sequence of single enqueueing steps of the broker, each legal. |
| Server.MoveMatches | src/aqua/connection.rs:170-307 | Whatever one poll of one connection does, and whatever a task or writer does, is a sequence of legal steps of the broker: the handler is called by a ready connection that has nothing left to write, with a packet it can take. |
| Server.RunsOfTheBroker | examples/broker.rs:34-435 | Every run of all connections with the broker, interleaved in any way, is a run of the broker with the same broker state; what holds of all broker runs holds of the server. |
| EndToEnd.ConnectionRun | src/aqua/connection.rs:170-307 | In every run of the server, each live connection has had a run of its own, has read exactly what it was sent, and has called services with exactly the packets that the broker has handled for it, and at most one more. |
| EndToEnd.FramesAreHandled | examples/broker.rs:34-435 | From bytes to broker steps, in every run of the server: for a connection that sent a CONNECT and any frames, the packets handled, the one in hand and those still to be decoded are exactly those of the frames, in order, less the last one's if that frame is starved. |
| EndToEnd.ConnectIsAnswered | examples/broker.rs:379-435 | In every run of the server: when the connect service answers a connection that has sent a CONNECT frame, the connection has the bytes 20 02 00 00 to write if the protocol is one of the three, and is gone, with the broker as before, if not. |
| EndToEnd.ClosingDisconnectIsNotHandled | examples/broker.rs:48-63 | So what the broker handles for a session that was closed with the two-byte DISCONNECT comes from the frames before it. |
| EndToEnd.ClosedClientStaysRouted | examples/broker.rs:48-63 | And its client identifier still leads to its connection, if no other connection uses it and it sent no DISCONNECT with a reason. |
| EndToEnd.EndIsSilent | src/aqua/connection.rs:323-360 | The end of the stream ends the connection without any step of the broker. |

## Left out

- StreamDecoder.Decoder.PollDecode: after an error inside a variable header the source keeps the fields it had already filled in; the model keeps the packet as it was. No run goes on after an error.
- Packets.EncodeConnackHeader: CONNACK properties are the bytes they were built to; several of their strings are written without a length, and no decoder for them exists.
- Packets.EncodePacketHeader: the encoders of CONNECT, SUBSCRIBE and UNSUBSCRIBE are `todo!()` in the source and never called; they count as not implemented.
- PacketReader.ReadUnsubscribeVariableHeader: the field for the protocol version, which the decoder never sets, is not modelled.
- StreamDecoder.ExactFraming: says nothing of CONNECT, whose decoder never looks at its length.
- Topics.IsMatch: topics that start with `$` are not treated specially, as in the source.
- BrokerService.Service.Deliver: the results of sending are only printed by the source, and are dropped here.
- Sessions.SessionManager.AddStagingPacket: the quality of service stored beside each staged message is always QoS 2 and never read.
- Sessions.SessionManager.UnregisterClientId: no code calls it, so runs have no step for it; queues stay after their connection ends.
- TopicIndex.TopicManager.Unregister: no handler calls it; UNSUBSCRIBE is answered with nothing and changes nothing.
- Encoder::poll_encode: unused by the server; it repeats the payload chunk without leaving its state.
- PINGREQ in the fixed header: the decoder does not dispatch it, although the broker has a handler.
- AUTH, keep-alive, session expiry and the delivery of wills: not implemented by the source.
- usize overflow in release builds, where a subtraction below zero wraps: it is a panic here, as in debug builds.
- TCP accept, reading from and writing to sockets, wakers, tasks and tracing: reads are arbitrary arrivals of bytes, and queues are bounded sequences from which packets are taken.
- The internals of concurrent maps and locks: plain maps; a handler is one atomic step, and so is a poll of a connection, in which the handler it waits for runs.
