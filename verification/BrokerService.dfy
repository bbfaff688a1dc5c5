// The packet handlers as they run: over the topic manager, the retain store and the session
// manager, updating them in place. Each is proved equal to its step.
module BrokerService {
  import opened Wire
  import opened Packets
  import opened TopicIndex
  import opened Retain
  import opened Sessions
  import opened BrokerSteps

  class Service {
    const topicMgr: TopicManager
    const retainStore: RetainStore
    const sessionManager: SessionManager
    var names: map<ConnId, Bytes>
    var tasks: seq<Task>

    ghost function Abstract(): Broker
      reads this, topicMgr, retainStore, sessionManager
    {
      Broker(topicMgr.topicMap, retainStore.kvs, sessionManager.qosTmp, sessionManager.byClientId,
             sessionManager.byMqttId, sessionManager.byClientMqtt, sessionManager.mqttVersion, names, tasks)
    }

    constructor ()
      ensures Abstract() == NEW_BROKER
      ensures fresh(topicMgr) && fresh(retainStore) && fresh(sessionManager)
    {
      topicMgr := new TopicManager();
      retainStore := new RetainStore();
      sessionManager := new SessionManager();
      names, tasks := map[], [];
    }

    method MqttId(conn: ConnId) returns (id: Bytes)
      ensures id == NameOf(Abstract(), conn)
    {
      if conn in names {
        return names[conn];
      } else {
        return [];
      }
    }

    method Version(conn: ConnId) returns (version: Byte)
      ensures version == VersionOf(Abstract(), conn)
    {
      var id := MqttId(conn);
      var stored := sessionManager.GetProtocolVersion(id);
      return if stored.Some? then stored.value else VERSION_3_1_1;
    }

    /** The connect service, called once for each connection. */
    method ConnectService(conn: ConnId, packet: ControlPacket) returns (reply: Reply)
      modifies this`names, sessionManager
      ensures (Abstract(), reply) == OnConnect(old(Abstract()), conn, packet)
    {
      if !packet.CONNECT? || !Served(packet.connect) {
        return Rejected(PROTOCOL_ERROR);
      }
      var id := packet.connect.clientId;
      names := names[conn := id];
      sessionManager.RegisterMqttId(id, conn);
      sessionManager.SetProtocolVersion(id, VERSION_3_1_1);
      return Respond([CONNACK(Connack(false, 0, None, VERSION_3_1_1))]);
    }

    method HandleDisconnect(conn: ConnId) returns (reply: Reply)
      modifies sessionManager
      ensures (Abstract(), reply) == OnDisconnect(old(Abstract()), conn)
    {
      var id := MqttId(conn);
      if id != [] {
        sessionManager.UnregisterMqttId(id);
      }
      return Respond([NOOPERATION]);
    }

    // ---------------------------------------------------------------- SUBSCRIBE

    method RegisterFilters(id: Bytes, filters: seq<(Bytes, SubscribeOption)>) returns (codes: Bytes)
      modifies topicMgr
      ensures topicMgr.topicMap == RegisterAll(old(topicMgr.topicMap), filters, id)
      ensures codes == Granted(filters)
    {
      codes := [];
      for i := 0 to |filters|
        invariant RegisterAll(old(topicMgr.topicMap), filters, id)
               == RegisterAll(topicMgr.topicMap, filters[i..], id)
        invariant codes == Granted(filters)[..i]
      {
        hide AfterRegister;
        assert filters[i..][1..] == filters[i + 1..];
        topicMgr.Register(filters[i].0, id, filters[i].1);
        codes := codes + [QoSBits(filters[i].1.qos)];
      }
      assert filters[|filters|..] == [];
    }

    // Adds the messages whose topics were not sent yet, and stages those of QoS 2.
    method CollectRetained(publishes: seq<Publish>, collected: seq<Publish>, ghost staged: map<PacketId, Publish>)
      returns (out: seq<Publish>)
      requires sessionManager.qosTmp == StageReplay(staged, collected)
      modifies sessionManager`qosTmp
      ensures out == Deduplicated(collected, publishes)
      ensures sessionManager.qosTmp == StageReplay(staged, out)
    {
      out := collected;
      var forDedupTopic := TopicsOf(collected);
      for i := 0 to |publishes|
        invariant Deduplicated(collected, publishes) == Deduplicated(out, publishes[i..])
        invariant forDedupTopic == TopicsOf(out)
        invariant sessionManager.qosTmp == StageReplay(staged, out)
      {
        hide StageReplay;
        assert publishes[i..][1..] == publishes[i + 1..];
        var p := publishes[i];
        if p.topic !in forDedupTopic {
          StageReplaySnoc(staged, out, p);
          forDedupTopic := forDedupTopic + [p.topic];
          if p.qos == QoS2 {
            sessionManager.AddStagingPacket(p);
          }
          out := out + [p];
        }
      }
    }

    method HandleSubscribe(conn: ConnId, s: Subscribe) returns (reply: Reply, ghost orders: seq<seq<Bytes>>)
      modifies topicMgr, sessionManager`qosTmp
      ensures |orders| == |s.filters| && EachEnumerates(orders, retainStore.kvs)
      ensures (Abstract(), reply) == OnSubscribe(old(Abstract()), conn, s, orders)
    {
      hide RegisterAll, Replayed, StageReplay, Deduplicated, Matching, Enumerates;
      var successCodes := [];
      var id := MqttId(conn);
      if id != [] {
        successCodes := RegisterFilters(id, s.filters);
      }
      var protocolVersion := sessionManager.GetProtocolVersion(id);
      var retainPubpackets := [];
      orders := [];
      ghost var index, staged := topicMgr.topicMap, sessionManager.qosTmp;
      ghost var fs := FiltersOf(s.filters);
      ReplayedNothing(retainStore.kvs, staged);
      for i := 0 to |s.filters|
        invariant topicMgr.topicMap == index
        invariant |orders| == i && EachEnumerates(orders, retainStore.kvs)
        invariant retainPubpackets == Replayed(retainStore.kvs, fs[..i], orders, [])
        invariant sessionManager.qosTmp == StageReplay(staged, retainPubpackets)
      {
        var publishes, order := retainStore.CheckRetain(s.filters[i].0);
        ReplayedSnoc(retainStore.kvs, fs[..i], orders, [], fs[i], order);
        assert fs[..i + 1] == fs[..i] + [fs[i]];
        orders := orders + [order];
        retainPubpackets := CollectRetained(publishes, retainPubpackets, staged);
      }
      assert fs[..|s.filters|] == fs;
      if protocolVersion.None? {
        reply := Panics;
      } else {
        var respackets := [SUBACK(Codes(s.packetId, None, successCodes, protocolVersion.value))];
        respackets := respackets + AsPackets(retainPubpackets);
        reply := Respond(respackets);
      }
    }

    // ---------------------------------------------------------------- PUBLISH and the QoS 2 handshake

    method HandlePublish(conn: ConnId, publish: Publish) returns (reply: Reply)
      modifies this`tasks, retainStore, sessionManager`qosTmp
      ensures (Abstract(), reply) == OnPublish(old(Abstract()), conn, publish)
    {
      var version := Version(conn);
      var pubpacket := publish.(version := version);
      var qos := pubpacket.qos;
      if qos == QoS2 && pubpacket.packetId.None? {
        return Panics;
      }
      if pubpacket.packetId.None? && (qos == QoS1 || qos == QoS2) {
        return Refuse(ProtocolViolation);
      }
      if qos == QoS2 {
        if pubpacket.payloadLength == 0 {
          if pubpacket.retain {
            retainStore.RemoveRetain(pubpacket.topic);
          }
        } else {
          sessionManager.AddStagingPacket(pubpacket);
        }
        return Respond([PUBREC(Ack(pubpacket.packetId.value, Some(0), None, version))]);
      }
      if pubpacket.payloadLength == 0 {
        if pubpacket.retain {
          retainStore.RemoveRetain(pubpacket.topic);
        }
      } else {
        tasks := tasks + [Delivery(pubpacket)];
      }
      if qos == QoS0 {
        return Respond([NOOPERATION]);
      } else {
        return Respond([PUBACK(Ack(pubpacket.packetId.value, None, None, version))]);
      }
    }

    method HandlePubrel(conn: ConnId, id: PacketId) returns (reply: Reply)
      modifies this`tasks, retainStore, sessionManager`qosTmp
      ensures (Abstract(), reply) == OnPubrel(old(Abstract()), conn, id)
    {
      var version := Version(conn);
      var fetched := sessionManager.FetchPacket(id);
      if fetched.Success? {
        var deliveryPublish := fetched.value;
        if deliveryPublish.payloadLength == 0 && deliveryPublish.retain {
          retainStore.RemoveRetain(deliveryPublish.topic);
        } else {
          if deliveryPublish.retain {
            retainStore.UpdateRetain(deliveryPublish.topic, deliveryPublish);
          }
          tasks := tasks + [FanOut(deliveryPublish, id)];
        }
        var _ := sessionManager.CommitPacket(id);
      }
      return Respond([PUBCOMP(Ack(id, Some(0), None, version))]);
    }

    method HandlePubcomp(id: PacketId) returns (reply: Reply)
      modifies sessionManager`qosTmp
      ensures (Abstract(), reply) == OnPubcomp(old(Abstract()), id)
    {
      var _ := sessionManager.CommitPacket(id);
      return Respond([NOOPERATION]);
    }

    /** The service: one packet of a connection, handled to its reply. */
    method Handle(conn: ConnId, packet: ControlPacket) returns (reply: Reply, ghost orders: seq<seq<Bytes>>)
      modifies this`tasks, topicMgr, retainStore, sessionManager
      ensures packet.SUBSCRIBE? ==> |orders| == |packet.subscribe.filters|
      ensures packet.SUBSCRIBE? ==> EachEnumerates(orders, old(retainStore.kvs))
      ensures (Abstract(), reply) == Handled(old(Abstract()), conn, packet, orders)
    {
      hide OnSubscribe, OnPublish, OnPubrel, OnPubcomp, OnDisconnect, EachEnumerates;
      orders := [];
      match packet {
        case DISCONNECT(_) => reply := HandleDisconnect(conn);
        case PINGREQ => reply := Respond([PINGRESP]);
        case SUBSCRIBE(s) => reply, orders := HandleSubscribe(conn, s);
        case PUBLISH(p) => reply := HandlePublish(conn, p);
        case CONNECT(_) => reply := Refuse(ProtocolViolation);
        case PUBREL(a) => reply := HandlePubrel(conn, a.packetId);
        case PUBREC(a) =>
          var version := Version(conn);
          reply := Respond([PUBREL(Ack(a.packetId, None, None, version))]);
        case PUBCOMP(a) => reply := HandlePubcomp(a.packetId);
        case _ => reply := Respond([NOOPERATION]);
      }
    }

    // ---------------------------------------------------------------- spawned deliveries

    method Deliver(task: Task, subscribers: seq<Subscriber>) returns (ghost randoms: seq<PacketId>)
      modifies sessionManager`byClientId
      ensures |randoms| == |subscribers| && forall n :: n in randoms ==> n <= 1000
      ensures sessionManager.byClientId
           == SendAll(old(sessionManager.byClientId), sessionManager.byMqttId, Messages(task, subscribers, randoms))
    {
      randoms := [];
      for i := 0 to |subscribers|
        invariant |randoms| == i && forall n :: n in randoms ==> n <= 1000
        invariant sessionManager.byClientId
               == SendAll(old(sessionManager.byClientId), sessionManager.byMqttId,
                          Messages(task, subscribers[..i], randoms))
      {
        hide SendAll, Routed;
        var (subId, option) := subscribers[i];
        var deliveryMsg := task.publish.(qos := option.qos);
        ghost var random: PacketId := 0;
        if option.qos == QoS0 {
          deliveryMsg := deliveryMsg.(packetId := None);
        } else if task.FanOut? {
          deliveryMsg := deliveryMsg.(packetId := Some(task.id));
        } else if task.publish.packetId.None? {
          var n: PacketId :| n <= 1000;
          random := n;
          deliveryMsg := deliveryMsg.(packetId := Some(n));
        }
        MessagesSnoc(task, subscribers[..i], randoms, subscribers[i], random);
        assert subscribers[..i + 1] == subscribers[..i] + [subscribers[i]];
        SendAllSnoc(old(sessionManager.byClientId), sessionManager.byMqttId, Messages(task, subscribers[..i], randoms),
                    subId, PUBLISH(deliveryMsg));
        randoms := randoms + [random];
        var _ := sessionManager.SendByMqttId(subId, PUBLISH(deliveryMsg));
      }
      assert subscribers[..|subscribers|] == subscribers;
    }

    /** Runs the pending task at `i`. */
    method RunTask(i: nat) returns (ghost order: seq<Bytes>, ghost randoms: seq<PacketId>)
      requires i < |tasks|
      modifies this`tasks, retainStore, sessionManager`byClientId
      ensures Enumerates(order, topicMgr.topicMap)
      ensures |randoms| == |Recipients(old(Abstract()), i, order)|
      ensures Abstract() == Ran(old(Abstract()), i, order, randoms)
    {
      hide SendAll, Messages, Subscribed, Enumerates;
      var task := tasks[i];
      tasks := tasks[..i] + tasks[i + 1..];
      if task.Delivery? && task.publish.retain {
        retainStore.UpdateRetain(task.publish.topic, task.publish);
      }
      var subedClients;
      subedClients, order := topicMgr.SubedId(task.publish.topic);
      randoms := Deliver(task, subedClients);
    }
  }

  // ---------------------------------------------------------------- loops, one turn at a time

  lemma ReplayedNothing(kvs: Retained, staged: map<PacketId, Publish>)
    ensures Replayed(kvs, [], [], []) == []
    ensures StageReplay(staged, []) == staged
  {
  }

  lemma {:induction false} ReplayedSnoc(
      kvs: Retained, filters: seq<Bytes>, orders: seq<seq<Bytes>>, done: seq<Publish>, filter: Bytes, order: seq<Bytes>)
    requires |orders| == |filters|
    ensures Replayed(kvs, filters + [filter], orders + [order], done)
         == Deduplicated(Replayed(kvs, filters, orders, done), Matching(kvs, order, filter))
    decreases |filters|
  {
    hide Matching, Deduplicated;
    if filters == [] {
      assert [filter][1..] == [] && [order][1..] == [];
    } else {
      assert (filters + [filter])[1..] == filters[1..] + [filter];
      assert (orders + [order])[1..] == orders[1..] + [order];
      var first := Deduplicated(done, Matching(kvs, orders[0], filters[0]));
      ReplayedSnoc(kvs, filters[1..], orders[1..], first, filter, order);
    }
  }

  lemma MessagesSnoc(
      task: Task, subscribers: seq<Subscriber>, randoms: seq<PacketId>, subscriber: Subscriber, random: PacketId)
    requires |randoms| == |subscribers|
    ensures Messages(task, subscribers + [subscriber], randoms + [random])
         == Messages(task, subscribers, randoms) + [(subscriber.0, PUBLISH(Personal(task, subscriber.1, random)))]
  {
    hide Personal;
  }

  lemma {:induction false} SendAllSnoc(
      queues: Queues, connOf: map<Bytes, ConnId>, messages: seq<Message>, mqttId: Bytes, packet: ControlPacket)
    ensures SendAll(queues, connOf, messages + [(mqttId, packet)])
         == Routed(SendAll(queues, connOf, messages), connOf, mqttId, packet)
    decreases |messages|
  {
    hide Routed;
    if messages == [] {
      assert [(mqttId, packet)][1..] == [];
    } else {
      assert (messages + [(mqttId, packet)])[1..] == messages[1..] + [(mqttId, packet)];
      SendAllSnoc(Routed(queues, connOf, messages[0].0, messages[0].1), connOf, messages[1..], mqttId, packet);
    }
  }
}
