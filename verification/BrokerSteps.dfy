// The broker as a transition system: what each packet handler, and each run of a spawned
// delivery task, does to the state all connections share.
module BrokerSteps {
  import opened Wire
  import opened Packets
  import opened TopicIndex
  import opened Retain
  import opened Sessions

  // A spawned delivery: of a QoS 0 or 1 publish, or of a staged one once it is released.
  datatype Task = Delivery(publish: Publish) | FanOut(publish: Publish, id: PacketId)

  datatype Broker = Broker(
    index: Index, retained: Retained, staged: map<PacketId, Publish>, queues: Queues,
    connOf: map<Bytes, ConnId>, idOf: map<ConnId, Bytes>, versions: map<Bytes, Byte>,
    names: map<ConnId, Bytes>, tasks: seq<Task>)

  const NEW_BROKER := Broker(map[], map[], map[], map[], map[], map[], map[], map[], [])

  datatype Reply = Respond(packets: seq<ControlPacket>) | Refuse(error: MqttError) | Rejected(reason: Byte) | Panics

  const VERSION_3_1_1: Byte := 4

  // The client identifier that the connect service stored for a connection, at first empty.
  function NameOf(b: Broker, conn: ConnId): Bytes {
    if conn in b.names then b.names[conn] else []
  }

  function VersionOf(b: Broker, conn: ConnId): Byte {
    if NameOf(b, conn) in b.versions then b.versions[NameOf(b, conn)] else VERSION_3_1_1
  }

  // ---------------------------------------------------------------- connecting

  // "MQTT" and "MQIsdp".
  const PROTOCOL_NAME: Bytes := [77, 81, 84, 84]
  const OLD_PROTOCOL_NAME: Bytes := [77, 81, 73, 115, 100, 112]

  const PROTOCOL_ERROR: Byte := 0x82

  predicate Served(c: Connect) {
    || (c.protocolName == PROTOCOL_NAME && (c.protocolVersion == 4 || c.protocolVersion == 5))
    || (c.protocolName == OLD_PROTOCOL_NAME && c.protocolVersion == 3)
  }

  /** Whatever version the client asked for, it is recorded as version 4. */
  function OnConnect(b: Broker, conn: ConnId, packet: ControlPacket): (Broker, Reply) {
    if packet.CONNECT? && Served(packet.connect) then
      var id := packet.connect.clientId;
      (b.(names := b.names[conn := id], connOf := b.connOf[id := conn], idOf := b.idOf[conn := id],
          versions := b.versions[id := VERSION_3_1_1]),
       Respond([CONNACK(Connack(false, 0, None, VERSION_3_1_1))]))
    else (b, Rejected(PROTOCOL_ERROR))
  }

  function OnDisconnect(b: Broker, conn: ConnId): (Broker, Reply) {
    var id := NameOf(b, conn);
    (if id == [] then b
     else b.(connOf := b.connOf - {id}, idOf := WithoutConnOf(b.connOf, b.idOf, id)),
     Respond([NOOPERATION]))
  }

  // ---------------------------------------------------------------- subscribing

  function RegisterAll(index: Index, filters: seq<(Bytes, SubscribeOption)>, client: Bytes): Index
    decreases |filters|
  {
    if filters == [] then index
    else RegisterAll(AfterRegister(index, filters[0].0, client, filters[0].1), filters[1..], client)
  }

  function Granted(filters: seq<(Bytes, SubscribeOption)>): (codes: Bytes)
    ensures |codes| == |filters|
  {
    seq(|filters|, i requires 0 <= i < |filters| => QoSBits(filters[i].1.qos))
  }

  function FiltersOf(filters: seq<(Bytes, SubscribeOption)>): (fs: seq<Bytes>)
    ensures |fs| == |filters|
  {
    seq(|filters|, i requires 0 <= i < |filters| => filters[i].0)
  }

  /** Replaying a QoS 2 message stages it under the identifier its publisher gave it. */
  function StageReplay(staged: map<PacketId, Publish>, ps: seq<Publish>): map<PacketId, Publish>
    decreases |ps|
  {
    if ps == [] then staged
    else StageReplay(if ps[0].qos == QoS2 then Sessions.Staged(staged, ps[0]) else staged, ps[1..])
  }

  lemma {:induction false} StageReplaySnoc(staged: map<PacketId, Publish>, ps: seq<Publish>, p: Publish)
    ensures StageReplay(staged, ps + [p])
         == if p.qos == QoS2 then Sessions.Staged(StageReplay(staged, ps), p) else StageReplay(staged, ps)
    decreases |ps|
  {
    if ps == [] {
      assert [p][1..] == [];
    } else {
      assert (ps + [p])[1..] == ps[1..] + [p];
      StageReplaySnoc(if ps[0].qos == QoS2 then Sessions.Staged(staged, ps[0]) else staged, ps[1..], p);
    }
  }

  function AsPackets(ps: seq<Publish>): (packets: seq<ControlPacket>)
    ensures |packets| == |ps|
  {
    seq(|ps|, i requires 0 <= i < |ps| => PUBLISH(ps[i]))
  }

  /** `orders` are the orders in which the retain store is iterated, one for each filter. */
  function OnSubscribe(b: Broker, conn: ConnId, s: Subscribe, orders: seq<seq<Bytes>>): (Broker, Reply)
    requires |orders| == |s.filters|
  {
    var id := NameOf(b, conn);
    var replay := Replayed(b.retained, FiltersOf(s.filters), orders, []);
    var codes := if id == [] then [] else Granted(s.filters);
    (b.(index := if id == [] then b.index else RegisterAll(b.index, s.filters, id),
        staged := StageReplay(b.staged, replay)),
     if id in b.versions then
       Respond([SUBACK(Codes(s.packetId, None, codes, b.versions[id]))] + AsPackets(replay))
     else Panics)
  }

  // ---------------------------------------------------------------- publishing

  function Cleared(retained: Retained, p: Publish): Retained {
    if p.retain then retained - {p.topic} else retained
  }

  /** A QoS 2 publish is staged; its subscribers get it when its identifier is released. */
  function OnPublish(b: Broker, conn: ConnId, publish: Publish): (Broker, Reply) {
    var version := VersionOf(b, conn);
    var p := publish.(version := version);
    match p.qos
    case QoS2 =>
      if p.packetId.None? then (b, Panics)
      else
        (if p.payloadLength == 0 then b.(retained := Cleared(b.retained, p))
         else b.(staged := Sessions.Staged(b.staged, p)),
         Respond([PUBREC(Ack(p.packetId.value, Some(0), None, version))]))
    case QoS1 =>
      if p.packetId.None? then (b, Refuse(ProtocolViolation))
      else (Dispatched(b, p), Respond([PUBACK(Ack(p.packetId.value, None, None, version))]))
    case QoS0 => (Dispatched(b, p), Respond([NOOPERATION]))
  }

  function Dispatched(b: Broker, p: Publish): Broker {
    if p.payloadLength == 0 then b.(retained := Cleared(b.retained, p)) else b.(tasks := b.tasks + [Delivery(p)])
  }

  function Kept(retained: Retained, p: Publish): Retained {
    if p.retain then retained[p.topic := p] else retained
  }

  function Released(b: Broker, p: Publish, id: PacketId): Broker {
    if p.payloadLength == 0 && p.retain then b.(retained := Cleared(b.retained, p))
    else b.(retained := Kept(b.retained, p), tasks := b.tasks + [FanOut(p, id)])
  }

  function OnPubrel(b: Broker, conn: ConnId, id: PacketId): (Broker, Reply) {
    var reply := Respond([PUBCOMP(Ack(id, Some(0), None, VersionOf(b, conn)))]);
    if id in b.staged then (Released(b, b.staged[id], id).(staged := b.staged - {id}), reply)
    else (b, reply)
  }

  function OnPubcomp(b: Broker, id: PacketId): (Broker, Reply) {
    (b.(staged := b.staged - {id}), Respond([NOOPERATION]))
  }

  // ---------------------------------------------------------------- the service

  function Handled(b: Broker, conn: ConnId, packet: ControlPacket, orders: seq<seq<Bytes>>): (Broker, Reply)
    requires packet.SUBSCRIBE? ==> |orders| == |packet.subscribe.filters|
  {
    match packet
    case DISCONNECT(_) => OnDisconnect(b, conn)
    case PINGREQ => (b, Respond([PINGRESP]))
    case SUBSCRIBE(s) => OnSubscribe(b, conn, s, orders)
    case PUBLISH(p) => OnPublish(b, conn, p)
    case CONNECT(_) => (b, Refuse(ProtocolViolation))
    case PUBREL(a) => OnPubrel(b, conn, a.packetId)
    case PUBREC(a) => (b, Respond([PUBREL(Ack(a.packetId, None, None, VersionOf(b, conn)))]))
    case PUBCOMP(a) => OnPubcomp(b, a.packetId)
    case _ => (b, Respond([NOOPERATION]))
  }

  // ---------------------------------------------------------------- delivery tasks

  /** The message as one subscriber gets it: at the quality of service it subscribed with. */
  function Personal(task: Task, option: SubscribeOption, random: PacketId): Publish {
    var id :=
      if option.qos == QoS0 then None
      else if task.FanOut? then Some(task.id)
      else if task.publish.packetId.Some? then task.publish.packetId
      else Some(random);
    task.publish.(qos := option.qos, packetId := id)
  }

  function Messages(task: Task, subscribers: seq<Subscriber>, randoms: seq<PacketId>): (ms: seq<Message>)
    requires |randoms| == |subscribers|
    ensures |ms| == |subscribers|
  {
    seq(|subscribers|, i requires 0 <= i < |subscribers| =>
      (subscribers[i].0, PUBLISH(Personal(task, subscribers[i].1, randoms[i]))))
  }

  function Recipients(b: Broker, i: nat, order: seq<Bytes>): seq<Subscriber>
    requires i < |b.tasks|
  {
    Subscribed(b.index, order, b.tasks[i].publish.topic)
  }

  /** The run of one pending task; identifiers it makes up for itself are given. */
  function Ran(b: Broker, i: nat, order: seq<Bytes>, randoms: seq<PacketId>): Broker
    requires i < |b.tasks| && |randoms| == |Recipients(b, i, order)|
  {
    var task := b.tasks[i];
    b.(retained := if task.Delivery? then Kept(b.retained, task.publish) else b.retained,
       queues := SendAll(b.queues, b.connOf, Messages(task, Recipients(b, i, order), randoms)),
       tasks := b.tasks[..i] + b.tasks[i + 1..])
  }
}
