// Whole runs of the broker: connections come and go, handlers and spawned tasks interleave
// in any order, queues fill and are written out. What every reachable state satisfies.
module BrokerRuns {
  import opened Wire
  import opened Packets
  import opened TopicIndex
  import opened Retain
  import opened Sessions
  import opened BrokerSteps

  // A connection's connect service is called once; it is ready when that succeeded, and
  // until it fails. `writing` is what is left of the reply it is putting in its queue.
  datatype System = System(
    broker: Broker, called: set<ConnId>, ready: set<ConnId>, writing: map<ConnId, seq<ControlPacket>>)

  const START := System(NEW_BROKER, {}, {}, map[])

  datatype Event =
    | Accepts(conn: ConnId)
    | Connects(conn: ConnId, packet: ControlPacket)
    | Handles(conn: ConnId, packet: ControlPacket, orders: seq<seq<Bytes>>)
    | Runs(task: nat, order: seq<Bytes>, randoms: seq<PacketId>)
    | Enqueues(conn: ConnId)
    | WriterTakes(conn: ConnId)
    | WriterStops(conn: ConnId)

  /** Whether the frame of version 4 that carries the message has a length that four bytes can say. */
  predicate Fits(p: Publish) {
    2 + |p.topic| + IdLength(p) + |p.payload| < VAR_INT_LIMIT
  }

  /** What the decoder guarantees of a packet it hands out. */
  ghost predicate Incoming(packet: ControlPacket) {
    match packet
    case PUBLISH(p) =>
      && TypedPublish(p)
      && p.payloadLength == |p.payload|
      && (p.qos != QoS0 ==> p.packetId.Some?)
      && |p.topic| < 0x1_0000 && Fits(p)
    case SUBSCRIBE(s) => 2 + |s.filters| < VAR_INT_LIMIT
    case _ => true
  }

  function Writing(s: System, conn: ConnId): seq<ControlPacket> {
    if conn in s.writing then s.writing[conn] else []
  }

  // Which steps can be taken, and with which choices of the iteration orders.
  ghost predicate Legal(s: System, e: Event) {
    match e
    case Accepts(conn) => conn !in s.broker.queues
    case Connects(conn, packet) => conn in s.broker.queues && conn !in s.called
    case Handles(conn, packet, orders) =>
      && conn in s.ready && Writing(s, conn) == [] && Incoming(packet)
      && (packet.SUBSCRIBE? ==> |orders| == |packet.subscribe.filters| && EachEnumerates(orders, s.broker.retained))
    case Runs(i, order, randoms) =>
      && i < |s.broker.tasks| && Enumerates(order, s.broker.index)
      && |randoms| == |Recipients(s.broker, i, order)|
    case Enqueues(conn) => conn in s.broker.queues && Writing(s, conn) != []
    case WriterTakes(conn) => conn in s.broker.queues && s.broker.queues[conn].items != []
    case WriterStops(conn) => conn in s.broker.queues
  }

  // A reply is put into the queue by later steps; a failure ends the connection.
  function Answered(s: System, conn: ConnId, reply: Reply): System {
    match reply
    case Respond(packets) => s.(writing := s.writing[conn := packets])
    case _ => s.(ready := s.ready - {conn})
  }

  /** The next packet of a reply goes into the connection's own queue. */
  function Enqueued(s: System, conn: ConnId): System
    requires conn in s.broker.queues && Writing(s, conn) != []
  {
    var packet := Writing(s, conn)[0];
    var rest := s.writing[conn := Writing(s, conn)[1..]];
    match packet
    case DISCONNECT(_) => s.(ready := s.ready - {conn}, writing := s.writing[conn := []])
    case NOOPERATION => s.(writing := rest)
    case _ =>
      var (queue, result) := TrySend(s.broker.queues[conn], packet);
      if result == Closed then s.(ready := s.ready - {conn}, writing := s.writing[conn := []])
      else s.(broker := s.broker.(queues := s.broker.queues[conn := queue]), writing := rest)
  }

  function Step(s: System, e: Event): System
    requires Legal(s, e)
  {
    var b := s.broker;
    match e
    case Accepts(conn) => s.(broker := b.(queues := b.queues[conn := Queue([], true)]))
    case Connects(conn, packet) =>
      var (next, reply) := OnConnect(b, conn, packet);
      Answered(s.(broker := next, called := s.called + {conn}, ready := s.ready + {conn}), conn, reply)
    case Handles(conn, packet, orders) =>
      var (next, reply) := Handled(b, conn, packet, orders);
      Answered(s.(broker := next), conn, reply)
    case Runs(i, order, randoms) => s.(broker := Ran(b, i, order, randoms))
    case Enqueues(conn) => Enqueued(s, conn)
    case WriterTakes(conn) =>
      var queue := b.queues[conn];
      s.(broker := b.(queues := b.queues[conn := queue.(items := queue.items[1..])]))
    case WriterStops(conn) => s.(broker := b.(queues := b.queues[conn := Queue([], false)]))
  }

  // ---------------------------------------------------------------- the invariant

  /**
   * A message the broker sends: nonempty, complete, stamped with version 4, and with at
   * most a packet identifier too much for a frame.
   */
  ghost predicate Sendable(p: Publish) {
    && TypedPublish(p)
    && 0 < p.payloadLength == |p.payload|
    && p.version == VERSION_3_1_1
    && (p.qos != QoS0 ==> p.packetId.Some?)
    && |p.topic| < 0x1_0000 && 2 + |p.topic| + |p.payload| < VAR_INT_LIMIT
  }

  /** A message the broker keeps: it came in one frame. */
  ghost predicate Carried(p: Publish) {
    Sendable(p) && Fits(p)
  }

  ghost predicate StagedOk(staged: map<PacketId, Publish>) {
    forall k :: k in staged ==> Carried(staged[k]) && staged[k].qos == QoS2 && staged[k].packetId == Some(k)
  }

  ghost predicate RetainedOk(retained: Retained) {
    forall t :: t in retained ==> Carried(retained[t]) && retained[t].topic == t && retained[t].retain
  }

  ghost predicate TaskOk(task: Task) {
    && Carried(task.publish)
    && match task
       case Delivery(p) => p.qos != QoS2
       case FanOut(p, id) => p.qos == QoS2 && p.packetId == Some(id)
  }

  ghost predicate TasksOk(tasks: seq<Task>) {
    forall task :: task in tasks ==> TaskOk(task)
  }

  ghost predicate Outgoing(packet: ControlPacket) {
    match packet
    case PUBLISH(p) => Sendable(p)
    case PUBACK(a) => a.properties.None? && a.version == VERSION_3_1_1
    case PUBREC(a) => a.properties.None? && a.version == VERSION_3_1_1
    case PUBREL(a) => a.properties.None? && a.version == VERSION_3_1_1
    case PUBCOMP(a) => a.properties.None? && a.version == VERSION_3_1_1
    case SUBACK(c) => c.properties.None? && c.version == VERSION_3_1_1 && 2 + |c.reasons| < VAR_INT_LIMIT
    case CONNACK(c) => c.properties.None? && c.version == VERSION_3_1_1
    case PINGRESP => true
    case _ => false
  }

  ghost predicate QueueOk(q: Queue) {
    |q.items| <= CHANNEL_CAPACITY && forall packet :: packet in q.items ==> Outgoing(packet)
  }

  ghost predicate QueuesOk(queues: Queues) {
    forall conn :: conn in queues ==> QueueOk(queues[conn])
  }

  ghost predicate ReplyOk(packets: seq<ControlPacket>) {
    forall packet :: packet in packets ==> Outgoing(packet) || packet == NOOPERATION
  }

  ghost predicate WritingOk(writing: map<ConnId, seq<ControlPacket>>) {
    forall conn :: conn in writing ==> ReplyOk(writing[conn])
  }

  ghost predicate VersionsOk(versions: map<Bytes, Byte>) {
    forall m :: m in versions ==> versions[m] == VERSION_3_1_1
  }

  ghost predicate ConnsOk(s: System) {
    && s.ready <= s.called <= s.broker.queues.Keys
    && s.broker.names.Keys <= s.called
    && s.broker.idOf.Keys <= s.called
    && (forall conn :: conn in s.ready ==> NameOf(s.broker, conn) in s.broker.versions)
    && RoutesBack(s.broker.connOf, s.broker.idOf)
  }

  ghost predicate Inv(s: System) {
    && StagedOk(s.broker.staged)
    && RetainedOk(s.broker.retained)
    && TasksOk(s.broker.tasks)
    && QueuesOk(s.broker.queues)
    && WritingOk(s.writing)
    && VersionsOk(s.broker.versions)
    && ConnsOk(s)
  }

  lemma StartInv()
    ensures Inv(START)
  {
  }

  // ---------------------------------------------------------------- kept by the handlers

  lemma VersionIsStamped(b: Broker, conn: ConnId)
    requires VersionsOk(b.versions)
    ensures VersionOf(b, conn) == VERSION_3_1_1
  {
  }

  // What the messages in the broker's keeping satisfy.
  ghost predicate KeepsOk(b: Broker) {
    StagedOk(b.staged) && RetainedOk(b.retained) && TasksOk(b.tasks)
  }

  lemma StampedCarried(p: Publish)
    requires Incoming(PUBLISH(p)) && p.payloadLength != 0
    ensures Carried(p.(version := VERSION_3_1_1))
  {
    hide ValidUtf8;
  }

  lemma ClearedKeeps(retained: Retained, p: Publish)
    requires RetainedOk(retained)
    ensures RetainedOk(Cleared(retained, p))
  {
    hide Carried;
  }

  lemma DispatchedKeeps(b: Broker, p: Publish)
    requires KeepsOk(b) && p.qos != QoS2 && (p.payloadLength != 0 ==> Carried(p))
    ensures KeepsOk(Dispatched(b, p))
  {
    hide Carried, Cleared, RetainedOk;
    if p.payloadLength == 0 {
      ClearedKeeps(b.retained, p);
    } else {
      assert forall task :: task in b.tasks + [Delivery(p)] ==> task in b.tasks || task == Delivery(p);
    }
  }

  lemma StagedKeeps(staged: map<PacketId, Publish>, p: Publish)
    requires StagedOk(staged) && Carried(p) && p.qos == QoS2
    ensures StagedOk(Sessions.Staged(staged, p))
  {
    hide TypedPublish;
  }

  lemma PublishKeeps(b: Broker, conn: ConnId, p: Publish)
    requires KeepsOk(b) && VersionsOk(b.versions) && Incoming(PUBLISH(p))
    ensures KeepsOk(OnPublish(b, conn, p).0)
    ensures OnPublish(b, conn, p).1.Respond? && ReplyOk(OnPublish(b, conn, p).1.packets)
  {
    hide Carried, TypedPublish, VersionOf, Cleared, Dispatched, Sessions.Staged;
    hide RetainedOk, TasksOk, VersionsOk, StagedOk;
    VersionIsStamped(b, conn);
    var stamped := p.(version := VERSION_3_1_1);
    if p.payloadLength != 0 {
      StampedCarried(p);
    }
    if p.qos != QoS2 {
      DispatchedKeeps(b, stamped);
    } else if p.payloadLength == 0 {
      ClearedKeeps(b.retained, stamped);
    } else {
      StagedKeeps(b.staged, stamped);
    }
  }

  lemma PubrelKeeps(b: Broker, conn: ConnId, id: PacketId)
    requires KeepsOk(b) && VersionsOk(b.versions)
    ensures KeepsOk(OnPubrel(b, conn, id).0)
    ensures OnPubrel(b, conn, id).1.Respond? && ReplyOk(OnPubrel(b, conn, id).1.packets)
  {
    hide TypedPublish, VersionOf;
    VersionIsStamped(b, conn);
  }

  lemma {:induction false} StageReplayOk(staged: map<PacketId, Publish>, ps: seq<Publish>)
    requires StagedOk(staged) && forall p :: p in ps ==> Carried(p)
    ensures StagedOk(StageReplay(staged, ps))
    decreases |ps|
  {
    hide TypedPublish;
    if ps != [] {
      assert ps[0] in ps;
      StageReplayOk(if ps[0].qos == QoS2 then Sessions.Staged(staged, ps[0]) else staged, ps[1..]);
    }
  }

  lemma ReplayCarried(retained: Retained, filters: seq<Bytes>, orders: seq<seq<Bytes>>)
    requires RetainedOk(retained) && |orders| == |filters| && EachEnumerates(orders, retained)
    ensures forall p :: p in Replayed(retained, filters, orders, []) ==> Carried(p) && Sendable(p)
  {
    hide Sendable, Fits, Replayed, Wanted;
    ReplayExact(retained, filters, orders);
  }

  lemma SubscribeKeeps(b: Broker, conn: ConnId, s: Subscribe, orders: seq<seq<Bytes>>)
    requires KeepsOk(b) && VersionsOk(b.versions) && NameOf(b, conn) in b.versions
    requires |orders| == |s.filters| && EachEnumerates(orders, b.retained) && Incoming(SUBSCRIBE(s))
    ensures KeepsOk(OnSubscribe(b, conn, s, orders).0)
    ensures OnSubscribe(b, conn, s, orders).1.Respond? && ReplyOk(OnSubscribe(b, conn, s, orders).1.packets)
  {
    hide Carried, Sendable, Replayed, RegisterAll, StageReplay, TaskOk;
    ReplayCarried(b.retained, FiltersOf(s.filters), orders);
    StageReplayOk(b.staged, Replayed(b.retained, FiltersOf(s.filters), orders, []));
  }

  ghost predicate SameConns(b: Broker, next: Broker) {
    && next.queues == b.queues && next.names == b.names && next.versions == b.versions
    && next.connOf == b.connOf && next.idOf == b.idOf
  }

  lemma SubscribeConns(b: Broker, conn: ConnId, s: Subscribe, orders: seq<seq<Bytes>>)
    requires |orders| == |s.filters|
    ensures SameConns(b, OnSubscribe(b, conn, s, orders).0)
  {
    hide Replayed, RegisterAll, StageReplay, Granted, AsPackets;
  }

  lemma DispatchedConns(b: Broker, p: Publish)
    ensures SameConns(b, Dispatched(b, p))
  {
    if p.payloadLength == 0 {
    } else {
    }
  }

  lemma ReleasedConns(b: Broker, p: Publish, id: PacketId)
    ensures SameConns(b, Released(b, p, id))
  {
    if p.payloadLength == 0 && p.retain {
    } else {
    }
  }

  lemma PublishConns(b: Broker, conn: ConnId, p: Publish)
    ensures SameConns(b, OnPublish(b, conn, p).0)
  {
    var stamped := p.(version := VersionOf(b, conn));
    DispatchedConns(b, stamped);
    hide Sessions.Staged, VersionOf, Cleared, Dispatched;
    if p.qos != QoS2 || p.packetId.None? {
    } else if p.payloadLength == 0 {
    } else {
    }
  }

  lemma PubrelConns(b: Broker, conn: ConnId, id: PacketId)
    ensures SameConns(b, OnPubrel(b, conn, id).0)
  {
    hide VersionOf, Released;
    if id in b.staged {
      ReleasedConns(b, b.staged[id], id);
    }
  }

  // A handler changes neither queues nor names, and only DISCONNECT takes a route away.
  lemma HandledConns(b: Broker, conn: ConnId, packet: ControlPacket, orders: seq<seq<Bytes>>)
    requires packet.SUBSCRIBE? ==> |orders| == |packet.subscribe.filters|
    ensures packet.DISCONNECT? || SameConns(b, Handled(b, conn, packet, orders).0)
  {
    hide SameConns, OnSubscribe, OnPublish, OnPubrel, VersionOf;
    match packet
    case SUBSCRIBE(s) => SubscribeConns(b, conn, s, orders);
    case PUBLISH(p) => PublishConns(b, conn, p);
    case PUBREL(a) => PubrelConns(b, conn, a.packetId);
    case PUBCOMP(a) => PubcompConns(b, a.packetId);
    case _ => SameConnsAsBefore(b);
  }

  lemma PubcompConns(b: Broker, id: PacketId)
    ensures SameConns(b, OnPubcomp(b, id).0)
  {
  }

  lemma SameConnsAsBefore(b: Broker)
    ensures SameConns(b, b)
  {
  }

  /** A handler of a ready connection never panics and refuses nothing but a second CONNECT. */
  lemma HandledKeeps(b: Broker, conn: ConnId, packet: ControlPacket, orders: seq<seq<Bytes>>)
    requires KeepsOk(b) && VersionsOk(b.versions) && NameOf(b, conn) in b.versions && Incoming(packet)
    requires packet.SUBSCRIBE? ==> |orders| == |packet.subscribe.filters| && EachEnumerates(orders, b.retained)
    ensures KeepsOk(Handled(b, conn, packet, orders).0)
    ensures var reply := Handled(b, conn, packet, orders).1;
            if packet.CONNECT? then reply == Refuse(ProtocolViolation) else reply.Respond? && ReplyOk(reply.packets)
  {
    hide OnSubscribe, OnPublish, OnPubrel, VersionOf, RetainedOk, TasksOk, VersionsOk;
    match packet
    case SUBSCRIBE(s) => SubscribeKeeps(b, conn, s, orders);
    case PUBLISH(p) => PublishKeeps(b, conn, p);
    case PUBREL(a) => PubrelKeeps(b, conn, a.packetId);
    case PUBREC(_) => VersionIsStamped(b, conn);
    case PUBCOMP(a) =>
      hide Carried;
    case _ =>
  }

  // ---------------------------------------------------------------- kept by the other steps

  lemma PersonalSendable(task: Task, option: SubscribeOption, random: PacketId)
    requires TaskOk(task)
    ensures Sendable(Personal(task, option, random))
  {
    hide ValidUtf8;
  }

  lemma MessagesOutgoing(task: Task, subscribers: seq<Subscriber>, randoms: seq<PacketId>)
    requires TaskOk(task) && |randoms| == |subscribers|
    ensures forall m :: m in Messages(task, subscribers, randoms) ==> Outgoing(m.1)
  {
    hide Sendable, TaskOk, Personal;
    forall i | 0 <= i < |subscribers| ensures Outgoing(Messages(task, subscribers, randoms)[i].1) {
      PersonalSendable(task, subscribers[i].1, randoms[i]);
    }
  }

  lemma TrySendOk(q: Queue, packet: ControlPacket)
    requires QueueOk(q) && Outgoing(packet)
    ensures QueueOk(TrySend(q, packet).0)
  {
    hide Outgoing;
  }

  lemma RoutedOk(queues: Queues, connOf: map<Bytes, ConnId>, mqttId: Bytes, packet: ControlPacket)
    requires QueuesOk(queues) && Outgoing(packet)
    ensures QueuesOk(Routed(queues, connOf, mqttId, packet))
    ensures Routed(queues, connOf, mqttId, packet).Keys == queues.Keys
  {
    hide Outgoing, QueueOk, TrySend;
    if mqttId in connOf && connOf[mqttId] in queues {
      TrySendOk(queues[connOf[mqttId]], packet);
    }
  }

  lemma {:induction false} SendAllOk(queues: Queues, connOf: map<Bytes, ConnId>, messages: seq<Message>)
    requires QueuesOk(queues) && forall m :: m in messages ==> Outgoing(m.1)
    ensures QueuesOk(SendAll(queues, connOf, messages))
    ensures SendAll(queues, connOf, messages).Keys == queues.Keys
    decreases |messages|
  {
    hide Outgoing, QueuesOk, Routed;
    if messages != [] {
      assert messages[0] in messages;
      RoutedOk(queues, connOf, messages[0].0, messages[0].1);
      SendAllOk(Routed(queues, connOf, messages[0].0, messages[0].1), connOf, messages[1..]);
    }
  }

  lemma RanKeeps(b: Broker, i: nat, order: seq<Bytes>, randoms: seq<PacketId>)
    requires i < |b.tasks| && |randoms| == |Recipients(b, i, order)|
    requires KeepsOk(b) && QueuesOk(b.queues)
    ensures KeepsOk(Ran(b, i, order, randoms)) && QueuesOk(Ran(b, i, order, randoms).queues)
    ensures Ran(b, i, order, randoms).queues.Keys == b.queues.Keys
  {
    var task := b.tasks[i];
    assert task in b.tasks && TaskOk(task);
    MessagesOutgoing(task, Recipients(b, i, order), randoms);
    SendAllOk(b.queues, b.connOf, Messages(task, Recipients(b, i, order), randoms));
    hide Carried, StagedOk, QueuesOk, SendAll, Messages, Recipients, Outgoing;
  }

  lemma HandlesInv(s: System, e: Event)
    requires Inv(s) && e.Handles? && Legal(s, e)
    ensures Inv(Step(s, e))
  {
    var b := s.broker;
    var (next, reply) := Handled(b, e.conn, e.packet, e.orders);
    HandledKeeps(b, e.conn, e.packet, e.orders);
    HandledConns(b, e.conn, e.packet, e.orders);
    hide StagedOk, RetainedOk, TasksOk, QueuesOk, VersionsOk, ReplyOk, Incoming, EachEnumerates;
    if e.packet.DISCONNECT? {
      DisconnectConns(b, e.conn);
    }
    hide Handled, RoutesBack;
    HandlesConns(s, next, e.conn, reply);
  }

  lemma DisconnectConns(b: Broker, conn: ConnId)
    requires RoutesBack(b.connOf, b.idOf)
    ensures var next := OnDisconnect(b, conn).0;
            && next.queues == b.queues && next.names == b.names && next.versions == b.versions
            && next.idOf.Keys <= b.idOf.Keys && RoutesBack(next.connOf, next.idOf)
  {
    UnregisterKeepsRouting(b.connOf, b.idOf, NameOf(b, conn));
    hide RoutesBack, NameOf;
  }

  lemma HandlesConns(s: System, next: Broker, conn: ConnId, reply: Reply)
    requires ConnsOk(s) && conn in s.ready && WritingOk(s.writing) && (reply.Respond? ==> ReplyOk(reply.packets))
    requires next.queues == s.broker.queues && next.names == s.broker.names && next.versions == s.broker.versions
    requires next.idOf.Keys <= s.broker.idOf.Keys && RoutesBack(next.connOf, next.idOf)
    ensures var t := Answered(s.(broker := next), conn, reply);
            t.broker == next && ConnsOk(t) && WritingOk(t.writing)
  {
    hide RoutesBack, ReplyOk;
  }

  lemma ConnectsInv(s: System, e: Event)
    requires Inv(s) && e.Connects? && Legal(s, e)
    ensures Inv(Step(s, e))
  {
    hide StagedOk, RetainedOk, TasksOk, QueuesOk, Served, Outgoing, ReplyOk;
    var b := s.broker;
    if e.packet.CONNECT? && Served(e.packet.connect) {
      var id := e.packet.connect.clientId;
      RegisterKeepsRouting(b.connOf, b.idOf, id, e.conn);
      ConnackOk();
      hide RoutesBack;
    }
  }

  lemma ConnackOk()
    ensures ReplyOk([CONNACK(Connack(false, 0, None, VERSION_3_1_1))])
  {
  }

  lemma WritingRest(s: System, conn: ConnId)
    requires WritingOk(s.writing) && Writing(s, conn) != []
    ensures ReplyOk(Writing(s, conn)) && (Outgoing(Writing(s, conn)[0]) || Writing(s, conn)[0] == NOOPERATION)
    ensures WritingOk(s.writing[conn := Writing(s, conn)[1..]]) && WritingOk(s.writing[conn := []])
  {
    hide Outgoing;
  }

  lemma EnqueuedConns(s: System, conn: ConnId)
    requires ConnsOk(s) && conn in s.broker.queues && Writing(s, conn) != []
    ensures ConnsOk(Enqueued(s, conn))
  {
    hide TrySend, RoutesBack;
  }

  lemma EnqueuedQueues(s: System, conn: ConnId)
    requires QueuesOk(s.broker.queues) && conn in s.broker.queues && Writing(s, conn) != []
    requires Outgoing(Writing(s, conn)[0]) || Writing(s, conn)[0] == NOOPERATION
    requires WritingOk(s.writing[conn := Writing(s, conn)[1..]]) && WritingOk(s.writing[conn := []])
    ensures QueuesOk(Enqueued(s, conn).broker.queues) && WritingOk(Enqueued(s, conn).writing)
  {
    var packet := Writing(s, conn)[0];
    if packet != NOOPERATION {
      TrySendOk(s.broker.queues[conn], packet);
    }
    hide TrySend, QueueOk, WritingOk, Outgoing, Writing;
  }

  // Of the broker, writing a reply changes a queue at most.
  lemma EnqueuedKeeps(s: System, conn: ConnId)
    requires conn in s.broker.queues && Writing(s, conn) != []
    ensures Enqueued(s, conn).broker == s.broker.(queues := Enqueued(s, conn).broker.queues)
    ensures Enqueued(s, conn).broker.queues.Keys == s.broker.queues.Keys
  {
    hide TrySend, Writing;
    var packet := Writing(s, conn)[0];
    if packet.DISCONNECT? {
    } else if packet == NOOPERATION {
    } else if TrySend(s.broker.queues[conn], packet).1 == Closed {
    } else {
    }
  }

  lemma EnqueuesInv(s: System, e: Event)
    requires Inv(s) && e.Enqueues? && Legal(s, e)
    ensures Inv(Step(s, e))
  {
    WritingRest(s, e.conn);
    EnqueuedQueues(s, e.conn);
    EnqueuedConns(s, e.conn);
    EnqueuedKeeps(s, e.conn);
    hide StagedOk, RetainedOk, TasksOk, VersionsOk, QueuesOk, ConnsOk, WritingOk, Outgoing, ReplyOk, Writing, Enqueued;
  }

  lemma OthersInv(s: System, e: Event)
    requires Inv(s) && Legal(s, e) && (e.Accepts? || e.WriterTakes? || e.WriterStops?)
    ensures Inv(Step(s, e))
  {
    hide StagedOk, RetainedOk, TasksOk, VersionsOk, Outgoing, RoutesBack, WritingOk;
  }

  lemma RunsInv(s: System, e: Event)
    requires Inv(s) && e.Runs? && Legal(s, e)
    ensures Inv(Step(s, e))
  {
    RanKeeps(s.broker, e.task, e.order, e.randoms);
    hide StagedOk, RetainedOk, TasksOk, QueuesOk, VersionsOk, RoutesBack, WritingOk, SendAll, Recipients, Messages;
  }

  /** The invariant is kept by every step. */
  lemma StepInv(s: System, e: Event)
    requires Inv(s) && Legal(s, e)
    ensures Inv(Step(s, e))
  {
    hide Inv, Step, Legal;
    match e
    case Handles(_, _, _) => HandlesInv(s, e);
    case Connects(_, _) => ConnectsInv(s, e);
    case Enqueues(_) => EnqueuesInv(s, e);
    case Runs(_, _, _) => RunsInv(s, e);
    case _ => OthersInv(s, e);
  }
}
