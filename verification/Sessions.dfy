// The session manager: messages staged for QoS 2, the outbound queue of each connection,
// and the maps between connections and MQTT client identifiers.
module Sessions {
  import opened Wire
  import opened Packets

  // A connection's generated identifier.
  type ConnId = nat

  const CHANNEL_CAPACITY := 32

  // A bounded channel: what the writer has not taken yet, and whether the writer still runs.
  datatype Queue = Queue(items: seq<ControlPacket>, open: bool)

  datatype SendResult = Sent | Full | Closed

  type Queues = map<ConnId, Queue>

  function TrySend(q: Queue, packet: ControlPacket): (r: (Queue, SendResult))
    ensures |q.items| <= CHANNEL_CAPACITY ==> |r.0.items| <= CHANNEL_CAPACITY
  {
    if !q.open then (q, Closed)
    else if |q.items| >= CHANNEL_CAPACITY then (q, Full)
    else (q.(items := q.items + [packet]), Sent)
  }

  /** What a send does, and reports: the channel holds 32, and is closed once the writer is gone. */
  lemma TrySendIff(q: Queue, packet: ControlPacket)
    ensures var (next, result) := TrySend(q, packet);
            && (result == Closed <==> !q.open) && (result == Full <==> q.open && |q.items| >= 32)
            && next.open == q.open
            && next.items == if q.open && |q.items| < 32 then q.items + [packet] else q.items
  {
  }

  function SentTo(queues: Queues, conn: ConnId, packet: ControlPacket): Queues {
    if conn in queues then queues[conn := TrySend(queues[conn], packet).0] else queues
  }

  /** Sending to an identifier that no connection is registered for changes nothing. */
  function Routed(queues: Queues, connOf: map<Bytes, ConnId>, mqttId: Bytes, packet: ControlPacket): Queues {
    if mqttId in connOf then SentTo(queues, connOf[mqttId], packet) else queues
  }

  /** Only a publish with a packet identifier can be staged. */
  function Staged(staged: map<PacketId, Publish>, p: Publish): map<PacketId, Publish> {
    if p.packetId.Some? then staged[p.packetId.value := p] else staged
  }

  class SessionManager {
    var byClientId: Queues
    var byMqttId: map<Bytes, ConnId>
    var byClientMqtt: map<ConnId, Bytes>
    var qosTmp: map<PacketId, Publish>
    var mqttVersion: map<Bytes, Byte>

    constructor ()
      ensures byClientId == map[] && byMqttId == map[] && byClientMqtt == map[]
      ensures qosTmp == map[] && mqttVersion == map[]
    {
      byClientId, byMqttId, byClientMqtt, qosTmp, mqttVersion := map[], map[], map[], map[], map[];
    }

    method AddStagingPacket(pkt: Publish)
      modifies this`qosTmp
      ensures qosTmp == Staged(old(qosTmp), pkt)
    {
      if pkt.packetId.Some? {
        qosTmp := qosTmp[pkt.packetId.value := pkt];
      }
    }

    method FetchPacket(pid: PacketId) returns (r: Outcome<Publish>)
      ensures r == if pid in qosTmp then Success(qosTmp[pid]) else Failure(Unexpected)
    {
      if pid in qosTmp {
        return Success(qosTmp[pid]);
      } else {
        return Failure(Unexpected);
      }
    }

    method CommitPacket(pid: PacketId) returns (r: Outcome<()>)
      modifies this`qosTmp
      ensures qosTmp == old(qosTmp) - {pid}
      ensures r == if pid in old(qosTmp) then Success(()) else Failure(Unexpected)
    {
      if pid in qosTmp {
        qosTmp := qosTmp - {pid};
        return Success(());
      }
      return Failure(Unexpected);
    }

    method RegisterClientId(clientId: ConnId)
      modifies this`byClientId
      ensures byClientId == old(byClientId)[clientId := Queue([], true)]
    {
      byClientId := byClientId[clientId := Queue([], true)];
    }

    method UnregisterClientId(clientId: ConnId)
      modifies this`byClientId
      ensures byClientId == old(byClientId) - {clientId}
    {
      byClientId := byClientId - {clientId};
    }

    method SendByClientId(clientId: ConnId, pkt: ControlPacket) returns (r: SendResult)
      modifies this`byClientId
      ensures byClientId == SentTo(old(byClientId), clientId, pkt)
      ensures r == if clientId in old(byClientId) then TrySend(old(byClientId)[clientId], pkt).1 else Closed
    {
      if clientId in byClientId {
        var (queue, result) := TrySend(byClientId[clientId], pkt);
        byClientId := byClientId[clientId := queue];
        return result;
      } else {
        return Closed;
      }
    }

    method SendByMqttId(mqttId: Bytes, pkt: ControlPacket) returns (r: SendResult)
      modifies this`byClientId
      ensures byClientId == Routed(old(byClientId), byMqttId, mqttId, pkt)
      ensures r == if mqttId !in byMqttId then Sent
                   else if byMqttId[mqttId] !in old(byClientId) then Closed
                   else TrySend(old(byClientId)[byMqttId[mqttId]], pkt).1
    {
      if mqttId in byMqttId {
        r := SendByClientId(byMqttId[mqttId], pkt);
      } else {
        r := Sent;
      }
    }

    method RegisterMqttId(mqttId: Bytes, clientId: ConnId)
      modifies this`byMqttId, this`byClientMqtt
      ensures byMqttId == old(byMqttId)[mqttId := clientId]
      ensures byClientMqtt == old(byClientMqtt)[clientId := mqttId]
    {
      byMqttId := byMqttId[mqttId := clientId];
      byClientMqtt := byClientMqtt[clientId := mqttId];
    }

    method UnregisterMqttId(mqttId: Bytes)
      modifies this`byMqttId, this`byClientMqtt
      ensures byMqttId == old(byMqttId) - {mqttId}
      ensures byClientMqtt == WithoutConnOf(old(byMqttId), old(byClientMqtt), mqttId)
    {
      if mqttId in byMqttId {
        var clientId := byMqttId[mqttId];
        byMqttId := byMqttId - {mqttId};
        byClientMqtt := byClientMqtt - {clientId};
      }
    }

    method GetProtocolVersion(mqttId: Bytes) returns (r: Option<Byte>)
      ensures r == if mqttId in mqttVersion then Some(mqttVersion[mqttId]) else None
    {
      if mqttId in mqttVersion {
        return Some(mqttVersion[mqttId]);
      } else {
        return None;
      }
    }

    method SetProtocolVersion(mqttId: Bytes, version: Byte)
      modifies this`mqttVersion
      ensures mqttVersion == old(mqttVersion)[mqttId := version]
    {
      mqttVersion := mqttVersion[mqttId := version];
    }
  }

  function WithoutConnOf(connOf: map<Bytes, ConnId>, idOf: map<ConnId, Bytes>, mqttId: Bytes): map<ConnId, Bytes> {
    if mqttId in connOf then idOf - {connOf[mqttId]} else idOf
  }

  // ---------------------------------------------------------------- routing

  /** Each identifier that maps to a connection is mapped back by that connection. */
  ghost predicate RoutesBack(connOf: map<Bytes, ConnId>, idOf: map<ConnId, Bytes>) {
    forall m :: m in connOf ==> connOf[m] in idOf && idOf[connOf[m]] == m
  }

  /** Hence no connection is reached under two identifiers. */
  lemma RoutingInjective(connOf: map<Bytes, ConnId>, idOf: map<ConnId, Bytes>, m: Bytes, n: Bytes)
    requires RoutesBack(connOf, idOf) && m in connOf && n in connOf && connOf[m] == connOf[n]
    ensures m == n
  {
    assert idOf[connOf[m]] == m && idOf[connOf[n]] == n;
  }

  /** Registering keeps this exactly when the connection is not reached under another identifier. */
  lemma RegisterKeepsRouting(connOf: map<Bytes, ConnId>, idOf: map<ConnId, Bytes>, m: Bytes, conn: ConnId)
    requires RoutesBack(connOf, idOf)
    ensures RoutesBack(connOf[m := conn], idOf[conn := m])
        <==> forall n :: n in connOf && connOf[n] == conn ==> n == m
  {
    if RoutesBack(connOf[m := conn], idOf[conn := m]) {
      forall n | n in connOf && connOf[n] == conn ensures n == m {
        assert n in connOf[m := conn];
      }
    }
  }

  /** Unregistering always keeps it, and takes the reached connection's own entry away too. */
  lemma UnregisterKeepsRouting(connOf: map<Bytes, ConnId>, idOf: map<ConnId, Bytes>, m: Bytes)
    requires RoutesBack(connOf, idOf)
    ensures RoutesBack(connOf - {m}, WithoutConnOf(connOf, idOf, m))
    ensures m in connOf ==> connOf[m] !in WithoutConnOf(connOf, idOf, m)
  {
    forall n | n in connOf && n != m && m in connOf ensures connOf[n] != connOf[m] {
      if connOf[n] == connOf[m] {
        RoutingInjective(connOf, idOf, m, n);
      }
    }
  }

  // ---------------------------------------------------------------- sending many

  type Message = (Bytes, ControlPacket)

  /** Sends each message to its client, first to last. */
  function SendAll(queues: Queues, connOf: map<Bytes, ConnId>, messages: seq<Message>): Queues
    decreases |messages|
  {
    if messages == [] then queues
    else SendAll(Routed(queues, connOf, messages[0].0, messages[0].1), connOf, messages[1..])
  }

  /** The packets of the messages that are routed to one connection. */
  function Share(connOf: map<Bytes, ConnId>, messages: seq<Message>, conn: ConnId): seq<ControlPacket> {
    if messages == [] then []
    else
      (if messages[0].0 in connOf && connOf[messages[0].0] == conn then [messages[0].1] else [])
      + Share(connOf, messages[1..], conn)
  }

  // The packets that a queue still takes: as many of the first ones as it has room for.
  function Fitting(q: Queue, packets: seq<ControlPacket>): seq<ControlPacket> {
    var room := CHANNEL_CAPACITY - |q.items|;
    if !q.open || room <= 0 then [] else packets[..if |packets| <= room then |packets| else room]
  }

  // A full queue keeps what it has, and so loses the last packets offered, never earlier ones.
  function Offered(q: Queue, packets: seq<ControlPacket>): (r: Queue)
    ensures q.items <= r.items
  {
    q.(items := q.items + Fitting(q, packets))
  }

  lemma OfferOne(q: Queue, packet: ControlPacket, rest: seq<ControlPacket>)
    ensures Offered(TrySend(q, packet).0, rest) == Offered(q, [packet] + rest)
  {
    var room := CHANNEL_CAPACITY - |q.items|;
    if q.open && room > 0 {
      var n := if |rest| <= room - 1 then |rest| else room - 1;
      assert ([packet] + rest)[..n + 1] == [packet] + rest[..n];
      assert (q.items + [packet]) + rest[..n] == q.items + ([packet] + rest[..n]);
      if room == 1 {
        assert rest[..n] == [];
      }
    }
  }

  /**
   * Delivery over bounded queues: each connection's queue gets the packets routed to it, in
   * order, as far as it has room, and no other queue or packet is affected.
   */
  lemma {:induction false} SendAllIsOffered(
      queues: Queues, connOf: map<Bytes, ConnId>, messages: seq<Message>, conn: ConnId)
    ensures conn in SendAll(queues, connOf, messages) <==> conn in queues
    ensures conn in queues ==>
              SendAll(queues, connOf, messages)[conn] == Offered(queues[conn], Share(connOf, messages, conn))
    decreases |messages|
  {
    hide TrySend, Offered;
    if messages == [] {
      OfferNothing(queues, conn);
    } else {
      var (mqttId, packet) := messages[0];
      SendAllIsOffered(Routed(queues, connOf, mqttId, packet), connOf, messages[1..], conn);
      var rest := Share(connOf, messages[1..], conn);
      if mqttId in connOf && connOf[mqttId] == conn {
        if conn in queues {
          OfferOne(queues[conn], packet, rest);
        }
      } else {
        assert [] + rest == rest;
      }
    }
  }

  lemma OfferNothing(queues: Queues, conn: ConnId)
    ensures conn in queues ==> Offered(queues[conn], []) == queues[conn]
  {
    if conn in queues {
      assert queues[conn].items + [] == queues[conn].items;
    }
  }
}
