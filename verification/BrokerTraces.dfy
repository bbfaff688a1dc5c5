// Runs of the broker from the start: the invariant along them, and what becomes of every
// delivery that a step spawns.
module BrokerTraces {
  import opened Wire
  import opened Packets
  import opened Retain
  import opened Sessions
  import opened BrokerSteps
  import opened BrokerRuns

  // The states a run goes through, from the start, and the events between them.
  datatype Run = Run(states: seq<System>, events: seq<Event>)

  ghost predicate StepAt(r: Run, i: nat)
    requires i < |r.events| && |r.states| == |r.events| + 1
  {
    Legal(r.states[i], r.events[i]) && r.states[i + 1] == Step(r.states[i], r.events[i])
  }

  ghost predicate IsRun(r: Run) {
    && |r.states| == |r.events| + 1
    && r.states[0] == START
    && forall i :: 0 <= i < |r.events| ==> StepAt(r, i)
  }

  /** Every state of every run satisfies the invariant. */
  lemma {:induction false} RunInv(r: Run, n: nat)
    requires IsRun(r) && n <= |r.events|
    ensures Inv(r.states[n])
    decreases n
  {
    hide Inv, Step, Legal;
    if n == 0 {
      StartInv();
    } else {
      RunInv(r, n - 1);
      assert StepAt(r, n - 1);
      StepInv(r.states[n - 1], r.events[n - 1]);
    }
  }

  // What handlers and tasks leave alone: the messages kept, the index and the tasks.
  ghost predicate SameMessages(b: Broker, next: Broker) {
    next.index == b.index && next.retained == b.retained && next.staged == b.staged && next.tasks == b.tasks
  }

  lemma AnsweredBroker(s: System, conn: ConnId, reply: Reply)
    ensures Answered(s, conn, reply).broker == s.broker
  {
  }

  lemma ConnectMessages(b: Broker, conn: ConnId, packet: ControlPacket)
    ensures SameMessages(b, OnConnect(b, conn, packet).0)
  {
    hide Served;
    if packet.CONNECT? && Served(packet.connect) {
    } else {
    }
  }

  /** Handlers and tasks apart, no step touches what is kept. */
  lemma StepMessages(s: System, e: Event)
    requires Legal(s, e)
    ensures match e
            case Handles(conn, packet, orders) => Step(s, e).broker == Handled(s.broker, conn, packet, orders).0
            case Runs(i, order, randoms) => Step(s, e).broker == Ran(s.broker, i, order, randoms)
            case _ => SameMessages(s.broker, Step(s, e).broker)
  {
    match e
    case Handles(conn, packet, orders) =>
      var (next, reply) := Handled(s.broker, conn, packet, orders);
      AnsweredBroker(s.(broker := next), conn, reply);
      hide Answered, Handled;
    case Connects(conn, packet) =>
      ConnectMessages(s.broker, conn, packet);
      var (next, reply) := OnConnect(s.broker, conn, packet);
      AnsweredBroker(s.(broker := next, called := s.called + {conn}, ready := s.ready + {conn}), conn, reply);
      hide Answered, OnConnect;
    case Enqueues(conn) => EnqueuedKeeps(s, conn); hide Enqueued;
    case Runs(_, _, _) => hide Ran;
    case _ =>
  }

  // ---------------------------------------------------------------- spawned deliveries

  /** The deliveries that a step spawns. */
  ghost function Spawned(s: System, e: Event): seq<Task>
    requires Legal(s, e)
  {
    if !e.Handles? then []
    else
      match e.packet
      case PUBLISH(p) =>
        if p.qos != QoS2 && p.payloadLength != 0 then [Delivery(p.(version := VersionOf(s.broker, e.conn)))] else []
      case PUBREL(a) => if a.packetId in s.broker.staged then [FanOut(s.broker.staged[a.packetId], a.packetId)] else []
      case _ => []
  }

  lemma DispatchedTasks(b: Broker, p: Publish)
    ensures Dispatched(b, p).tasks == b.tasks + if p.payloadLength != 0 then [Delivery(p)] else []
  {
    if p.payloadLength == 0 {
    } else {
    }
  }

  lemma PublishSpawns(b: Broker, conn: ConnId, p: Publish)
    requires Incoming(PUBLISH(p))
    ensures OnPublish(b, conn, p).0.tasks
         == b.tasks
            + if p.qos != QoS2 && p.payloadLength != 0 then [Delivery(p.(version := VersionOf(b, conn)))] else []
  {
    DispatchedTasks(b, p.(version := VersionOf(b, conn)));
    hide VersionOf, Cleared, TypedPublish, Sessions.Staged, Dispatched;
    if p.qos != QoS2 {
    } else if p.payloadLength == 0 {
    } else {
    }
  }

  /** A staged message is never empty, so releasing it always spawns its delivery. */
  lemma PubrelSpawns(b: Broker, conn: ConnId, id: PacketId)
    requires StagedOk(b.staged)
    ensures OnPubrel(b, conn, id).0.tasks == b.tasks + if id in b.staged then [FanOut(b.staged[id], id)] else []
    ensures OnPubrel(b, conn, id).0.retained == if id in b.staged then Kept(b.retained, b.staged[id]) else b.retained
  {
    hide VersionOf, TypedPublish;
    if id in b.staged {
    } else {
    }
  }

  lemma HandlesSpawn(s: System, e: Event)
    requires Inv(s) && Legal(s, e) && e.Handles?
    ensures Handled(s.broker, e.conn, e.packet, e.orders).0.tasks == s.broker.tasks + Spawned(s, e)
  {
    hide VersionOf, OnPublish, OnPubrel, OnDisconnect, OnSubscribe, StagedOk, RetainedOk, TasksOk, QueuesOk, ConnsOk,
      VersionsOk, WritingOk, EachEnumerates;
    match e.packet
    case PUBLISH(p) => PublishSpawns(s.broker, e.conn, p);
    case PUBREL(a) => PubrelSpawns(s.broker, e.conn, a.packetId);
    case SUBSCRIBE(sub) => SubscribeTasks(s.broker, e.conn, sub, e.orders);
    case DISCONNECT(_) => DisconnectTasks(s.broker, e.conn);
    case _ =>
  }

  lemma SubscribeTasks(b: Broker, conn: ConnId, s: Subscribe, orders: seq<seq<Bytes>>)
    requires |orders| == |s.filters|
    ensures OnSubscribe(b, conn, s, orders).0.tasks == b.tasks
    ensures OnSubscribe(b, conn, s, orders).0.retained == b.retained
  {
    hide Replayed, RegisterAll, StageReplay, Granted, AsPackets;
  }

  lemma DisconnectTasks(b: Broker, conn: ConnId)
    ensures OnDisconnect(b, conn).0.tasks == b.tasks && OnDisconnect(b, conn).0.retained == b.retained
  {
    if NameOf(b, conn) == [] {
    } else {
    }
  }

  // The task that a step runs.
  ghost function Running(s: System, e: Event): seq<Task>
    requires Legal(s, e)
  {
    if e.Runs? then [s.broker.tasks[e.task]] else []
  }

  /** A step adds the tasks it spawns and takes away the one it runs. */
  lemma StepTasks(s: System, e: Event)
    requires Inv(s) && Legal(s, e)
    ensures multiset(Step(s, e).broker.tasks) + multiset(Running(s, e))
              == multiset(s.broker.tasks) + multiset(Spawned(s, e))
  {
    StepMessages(s, e);
    if e.Handles? {
      HandlesSpawn(s, e);
    } else if e.Runs? {
      var tasks, i := s.broker.tasks, e.task;
      TakeOut(tasks, i);
      RanTasks(s.broker, i, e.order, e.randoms);
    }
    hide Step, Inv, Handled, Ran;
  }

  lemma TakeOut<T>(xs: seq<T>, i: nat)
    requires i < |xs|
    ensures multiset(xs[..i] + xs[i + 1..]) + multiset([xs[i]]) == multiset(xs)
  {
    assert xs == xs[..i] + [xs[i]] + xs[i + 1..];
  }

  lemma RanTasks(b: Broker, i: nat, order: seq<Bytes>, randoms: seq<PacketId>)
    requires i < |b.tasks| && |randoms| == |Recipients(b, i, order)|
    ensures Ran(b, i, order, randoms).tasks == b.tasks[..i] + b.tasks[i + 1..]
    ensures Ran(b, i, order, randoms).retained
         == if b.tasks[i].Delivery? then Kept(b.retained, b.tasks[i].publish) else b.retained
  {
    hide SendAll, Messages, Recipients, Kept;
  }

  ghost function SpawnedBy(r: Run, n: nat): seq<Task>
    requires IsRun(r) && n <= |r.events|
  {
    if n == 0 then [] else
      assert StepAt(r, n - 1);
      SpawnedBy(r, n - 1) + Spawned(r.states[n - 1], r.events[n - 1])
  }

  ghost function RanBy(r: Run, n: nat): seq<Task>
    requires IsRun(r) && n <= |r.events|
  {
    if n == 0 then [] else
      assert StepAt(r, n - 1);
      RanBy(r, n - 1) + Running(r.states[n - 1], r.events[n - 1])
  }

  lemma Exchange<T>(
      before: multiset<T>, after: multiset<T>, out: multiset<T>, put: multiset<T>, outs: multiset<T>, puts: multiset<T>)
    requires after + out == before + put && before + outs == puts
    ensures after + (outs + out) == puts + put
  {
    forall x ensures (after + (outs + out))[x] == (puts + put)[x] {
      assert (after + out)[x] == (before + put)[x] && (before + outs)[x] == puts[x];
    }
  }

  /** Conservation: every delivery ever spawned is still pending, or has run once. */
  lemma {:induction false} DeliveriesConserved(r: Run, n: nat)
    requires IsRun(r) && n <= |r.events|
    ensures multiset(r.states[n].broker.tasks) + multiset(RanBy(r, n)) == multiset(SpawnedBy(r, n))
    decreases n
  {
    hide Step, Legal, Spawned, Running, Inv;
    if n > 0 {
      assert StepAt(r, n - 1);
      var s, e := r.states[n - 1], r.events[n - 1];
      DeliveriesConserved(r, n - 1);
      RunInv(r, n - 1);
      StepTasks(s, e);
      assert multiset(RanBy(r, n)) == multiset(RanBy(r, n - 1)) + multiset(Running(s, e));
      assert multiset(SpawnedBy(r, n)) == multiset(SpawnedBy(r, n - 1)) + multiset(Spawned(s, e));
      Exchange(multiset(s.broker.tasks), multiset(r.states[n].broker.tasks), multiset(Running(s, e)),
               multiset(Spawned(s, e)), multiset(RanBy(r, n - 1)), multiset(SpawnedBy(r, n - 1)));
    } else {
      assert r.states[0].broker.tasks == [];
    }
  }
}
