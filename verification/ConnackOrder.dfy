// Whether a client hears CONNACK first. The connect service routes the client before its
// CONNACK is in the queue, so a delivery that runs in between is queued ahead of it.
module ConnackOrder {
  import opened Wire
  import opened Packets
  import opened Sessions
  import opened BrokerSteps
  import opened BrokerRuns
  import opened BrokerTraces

  /** What the run of a task routes to a connection. */
  ghost function Delivered(s: System, e: Event, conn: ConnId): seq<ControlPacket>
    requires Legal(s, e)
  {
    match e
    case Runs(i, order, randoms) =>
      Share(s.broker.connOf, Messages(s.broker.tasks[i], Recipients(s.broker, i, order), randoms), conn)
    case _ => []
  }

  // What a connection itself puts into its queue.
  ghost function Answering(s: System, e: Event, conn: ConnId): seq<ControlPacket>
    requires Legal(s, e)
  {
    if e == Enqueues(conn) && !Writing(s, conn)[0].DISCONNECT? && Writing(s, conn)[0] != NOOPERATION
    then [Writing(s, conn)[0]] else []
  }

  /** The packets that a step adds to a connection's queue. */
  ghost function Added(s: System, e: Event, conn: ConnId): seq<ControlPacket>
    requires Legal(s, e)
  {
    if conn !in s.broker.queues then []
    else Fitting(s.broker.queues[conn], Delivered(s, e, conn) + Answering(s, e, conn))
  }

  lemma TrySendIsOffered(q: Queue, packet: ControlPacket)
    ensures TrySend(q, packet).0 == Offered(q, [packet])
  {
    var room := CHANNEL_CAPACITY - |q.items|;
    if q.open && room > 0 {
      assert [packet][..1] == [packet];
    } else {
      assert q.items + [] == q.items;
    }
  }

  lemma NothingFits(q: Queue)
    ensures Offered(q, []) == q
  {
    assert q.items + [] == q.items;
  }

  lemma EnqueuedQueue(s: System, conn: ConnId, other: ConnId)
    requires conn in s.broker.queues && Writing(s, conn) != [] && other in s.broker.queues
    ensures other in Enqueued(s, conn).broker.queues
    ensures var packet := Writing(s, conn)[0];
            Enqueued(s, conn).broker.queues[other]
              == if conn != other || packet.DISCONNECT? || packet == NOOPERATION then s.broker.queues[other]
                 else Offered(s.broker.queues[other], [packet])
  {
    var packet := Writing(s, conn)[0];
    TrySendIsOffered(s.broker.queues[conn], packet);
    hide Writing, Offered;
    if packet.DISCONNECT? {
    } else if packet == NOOPERATION {
    } else if TrySend(s.broker.queues[conn], packet).1 == Closed {
    } else {
    }
  }

  /** That is all that ever happens to a queue, but for the writer taking from its front, or stopping. */
  lemma StepQueue(s: System, e: Event, conn: ConnId)
    requires Legal(s, e) && conn in s.broker.queues
    ensures conn in Step(s, e).broker.queues
    ensures var q := s.broker.queues[conn];
            Step(s, e).broker.queues[conn]
              == match e
                 case WriterTakes(c) => if c == conn then q.(items := q.items[1..]) else q
                 case WriterStops(c) => if c == conn then Queue([], false) else q
                 case _ => q.(items := q.items + Added(s, e, conn))
  {
    var q := s.broker.queues[conn];
    NothingFits(q);
    match e
    case Handles(_, _, _) =>
      HandlesQueues(s, e);
      hide Step, Offered, Fitting;
    case Connects(c, packet) =>
      ConnectQueues(s, e);
      hide Step, Offered, Fitting;
    case Enqueues(c) =>
      EnqueuedQueue(s, c, conn);
      hide Enqueued, Writing, Fitting;
    case Runs(i, order, randoms) =>
      RunsQueue(s, e, conn);
    case _ =>
      hide Fitting;
  }

  lemma RunsQueue(s: System, e: Event, conn: ConnId)
    requires e.Runs? && Legal(s, e) && conn in s.broker.queues
    ensures conn in Step(s, e).broker.queues
    ensures Step(s, e).broker.queues[conn].open == s.broker.queues[conn].open
    ensures Step(s, e).broker.queues[conn].items == s.broker.queues[conn].items + Added(s, e, conn)
  {
    var messages := Messages(s.broker.tasks[e.task], Recipients(s.broker, e.task, e.order), e.randoms);
    SendAllIsOffered(s.broker.queues, s.broker.connOf, messages, conn);
    assert Delivered(s, e, conn) + [] == Delivered(s, e, conn);
    hide SendAll, Share, Fitting, Messages, Recipients;
  }

  lemma ConnectQueues(s: System, e: Event)
    requires e.Connects? && Legal(s, e)
    ensures Step(s, e).broker.queues == s.broker.queues
  {
    hide Served;
    if e.packet.CONNECT? && Served(e.packet.connect) {
    } else {
    }
  }

  lemma HandlesQueues(s: System, e: Event)
    requires e.Handles? && Legal(s, e)
    ensures Step(s, e).broker.queues == s.broker.queues
  {
    var (next, reply) := Handled(s.broker, e.conn, e.packet, e.orders);
    HandledQueues(s.broker, e.conn, e.packet, e.orders);
    AnsweredBroker(s.(broker := next), e.conn, reply);
    hide Answered, Handled;
  }

  lemma HandledQueues(b: Broker, conn: ConnId, packet: ControlPacket, orders: seq<seq<Bytes>>)
    requires packet.SUBSCRIBE? ==> |orders| == |packet.subscribe.filters|
    ensures Handled(b, conn, packet, orders).0.queues == b.queues
  {
    HandledConns(b, conn, packet, orders);
    if packet.DISCONNECT? {
      if NameOf(b, conn) == [] {
      } else {
      }
    }
    hide Handled;
  }

  // ---------------------------------------------------------------- whole runs

  /** All that was ever put into a connection's queue in the first `n` steps. */
  ghost function Queued(r: Run, conn: ConnId, n: nat): seq<ControlPacket>
    requires IsRun(r) && n <= |r.events|
  {
    if n == 0 then [] else
      assert StepAt(r, n - 1);
      Queued(r, conn, n - 1) + Added(r.states[n - 1], r.events[n - 1], conn)
  }

  ghost predicate DeliversAt(r: Run, j: nat, conn: ConnId)
    requires IsRun(r) && j < |r.events|
  {
    assert StepAt(r, j);
    Delivered(r.states[j], r.events[j], conn) != []
  }

  // Only called connections have replies to write.
  ghost predicate WritersCalled(s: System) {
    forall conn :: Writing(s, conn) != [] ==> conn in s.called
  }

  lemma StepWriters(s: System, e: Event)
    requires Inv(s) && WritersCalled(s) && Legal(s, e)
    ensures WritersCalled(Step(s, e)) && s.called <= Step(s, e).called
  {
    hide StagedOk, RetainedOk, TasksOk, QueuesOk, VersionsOk, WritingOk, RoutesBack, Handled, OnConnect, Ran, TrySend;
  }

  // A queue is never longer than what was put into it.
  lemma {:induction false} RunFacts(r: Run, conn: ConnId, n: nat)
    requires IsRun(r) && n <= |r.events|
    ensures WritersCalled(r.states[n])
    ensures conn in r.states[n].broker.queues ==> |r.states[n].broker.queues[conn].items| <= |Queued(r, conn, n)|
    ensures conn !in r.states[n].broker.queues ==> Queued(r, conn, n) == []
    decreases n
  {
    hide Inv, Legal, Step, Added, WritersCalled;
    if n == 0 {
      assert WritersCalled(START) by {
        StartWriters();
      }
    } else {
      RunFacts(r, conn, n - 1);
      assert StepAt(r, n - 1);
      RunInv(r, n - 1);
      StepWriters(r.states[n - 1], r.events[n - 1]);
      QueueBound(r.states[n - 1], r.events[n - 1], conn, |Queued(r, conn, n - 1)|);
    }
  }

  lemma StartWriters()
    ensures WritersCalled(START)
  {
  }

  lemma QueueBound(s: System, e: Event, conn: ConnId, bound: nat)
    requires Legal(s, e)
    requires conn in s.broker.queues ==> |s.broker.queues[conn].items| <= bound
    ensures var next := Step(s, e).broker.queues;
            && (conn in next ==> |next[conn].items| <= bound + |Added(s, e, conn)|)
            && (conn !in next ==> conn !in s.broker.queues && Added(s, e, conn) == [])
            && (conn in s.broker.queues && next[conn].open ==> s.broker.queues[conn].open)
  {
    if conn in s.broker.queues {
      StepQueue(s, e, conn);
      hide Step, Added;
    } else {
      NewQueue(s, e, conn);
      hide Step;
    }
  }

  lemma NewQueue(s: System, e: Event, conn: ConnId)
    requires Legal(s, e) && conn !in s.broker.queues
    ensures conn in Step(s, e).broker.queues ==> Step(s, e).broker.queues[conn] == Queue([], true)
  {
    match e
    case Handles(_, _, _) =>
      HandlesQueues(s, e);
      hide Step, Legal;
    case Connects(_, _) =>
      ConnectQueues(s, e);
      hide Step, Legal;
    case Runs(_, _, _) =>
      RunsKeys(s, e, conn);
      hide Step, Legal;
    case Enqueues(_) =>
      EnqueuesKeys(s, e);
      hide Step, Legal;
    case Accepts(_) =>
      AcceptsQueues(s, e);
      hide Step, Legal;
    case _ =>
      WriterKeys(s, e);
      hide Step, Legal;
  }

  lemma AcceptsQueues(s: System, e: Event)
    requires e.Accepts? && Legal(s, e)
    ensures Step(s, e).broker.queues == s.broker.queues[e.conn := Queue([], true)]
  {
  }

  lemma WriterKeys(s: System, e: Event)
    requires e.WriterTakes? || e.WriterStops?
    requires Legal(s, e)
    ensures Step(s, e).broker.queues.Keys == s.broker.queues.Keys
  {
    hide Enqueued, Writing, Answered, OnConnect, Handled, Ran;
  }

  lemma EnqueuesKeys(s: System, e: Event)
    requires e.Enqueues? && Legal(s, e)
    ensures Step(s, e).broker.queues.Keys == s.broker.queues.Keys
  {
    EnqueuedKeeps(s, e.conn);
    hide Enqueued, Writing;
  }

  lemma RunsKeys(s: System, e: Event, conn: ConnId)
    requires e.Runs? && Legal(s, e) && conn !in s.broker.queues
    ensures conn !in Step(s, e).broker.queues
  {
    var messages := Messages(s.broker.tasks[e.task], Recipients(s.broker, e.task, e.order), e.randoms);
    SendAllIsOffered(s.broker.queues, s.broker.connOf, messages, conn);
    hide SendAll, Messages, Recipients, Share, Offered;
  }

  // Nothing is routed to a connection, or answered by it, before its connect service is called.
  lemma UncalledQuiet(s: System, e: Event, conn: ConnId)
    requires Inv(s) && WritersCalled(s) && Legal(s, e) && conn !in s.called
    ensures Added(s, e, conn) == []
  {
    if e.Runs? {
      var messages := Messages(s.broker.tasks[e.task], Recipients(s.broker, e.task, e.order), e.randoms);
      UnroutedShare(s.broker.connOf, messages, conn);
    }
    hide StagedOk, RetainedOk, TasksOk, QueuesOk, VersionsOk, WritingOk, Messages, Recipients, Share;
  }

  lemma {:induction false} UnroutedShare(connOf: map<Bytes, ConnId>, messages: seq<Message>, conn: ConnId)
    requires forall m :: m in connOf ==> connOf[m] != conn
    ensures Share(connOf, messages, conn) == []
    decreases |messages|
  {
    if messages != [] {
      UnroutedShare(connOf, messages[1..], conn);
    }
  }

  lemma {:induction false} UncalledRun(r: Run, conn: ConnId, n: nat)
    requires IsRun(r) && n <= |r.events| && conn !in r.states[n].called
    ensures Queued(r, conn, n) == []
    decreases n
  {
    hide Inv, Legal, Step, Added, WritersCalled;
    if n > 0 {
      assert StepAt(r, n - 1);
      RunInv(r, n - 1);
      RunFacts(r, conn, n - 1);
      StepWriters(r.states[n - 1], r.events[n - 1]);
      UncalledRun(r, conn, n - 1);
      UncalledQuiet(r.states[n - 1], r.events[n - 1], conn);
    }
  }

  const CONNACK_PACKET := CONNACK(Connack(false, 0, None, VERSION_3_1_1))

  // The connect service has accepted the client, and its CONNACK is not in the queue yet.
  ghost predicate AboutToAnswer(s: System, conn: ConnId) {
    Writing(s, conn) == [CONNACK_PACKET] && conn in s.called && conn in s.broker.queues
  }

  lemma AcceptedIsAboutToAnswer(s: System, e: Event)
    requires Legal(s, e) && e.Connects? && e.packet.CONNECT? && Served(e.packet.connect)
    ensures AboutToAnswer(Step(s, e), e.conn) && Added(s, e, e.conn) == []
  {
    ConnectQueues(s, e);
    hide Served;
  }

  lemma StillAboutToAnswer(s: System, e: Event, conn: ConnId)
    requires Legal(s, e) && AboutToAnswer(s, conn) && e != Enqueues(conn)
    ensures AboutToAnswer(Step(s, e), conn)
    ensures Answering(s, e, conn) == []
  {
    StepQueue(s, e, conn);
    WritingKept(s, e, conn);
    hide Added;
  }

  lemma WritingKept(s: System, e: Event, conn: ConnId)
    requires Legal(s, e) && Writing(s, conn) != [] && conn in s.called && e != Enqueues(conn)
    ensures Writing(Step(s, e), conn) == Writing(s, conn) && conn in Step(s, e).called
  {
    hide Handled, OnConnect, Ran, TrySend;
  }

  lemma {:induction false} SharePublishes(connOf: map<Bytes, ConnId>, messages: seq<Message>, conn: ConnId)
    requires forall m :: m in messages ==> m.1.PUBLISH?
    ensures forall packet :: packet in Share(connOf, messages, conn) ==> packet.PUBLISH?
    decreases |messages|
  {
    if messages != [] {
      assert messages[0] in messages;
      SharePublishes(connOf, messages[1..], conn);
    }
  }

  lemma DeliveredArePublishes(s: System, e: Event, conn: ConnId)
    requires Legal(s, e)
    ensures forall packet :: packet in Delivered(s, e, conn) ==> packet.PUBLISH?
  {
    if e.Runs? {
      var messages := Messages(s.broker.tasks[e.task], Recipients(s.broker, e.task, e.order), e.randoms);
      forall m | m in messages ensures m.1.PUBLISH? {
        hide Personal, Recipients;
      }
      SharePublishes(s.broker.connOf, messages, conn);
    }
    hide Share, Messages, Recipients;
  }

  // Into an empty open queue, the first of the packets offered goes in.
  lemma FirstFits(q: Queue, packets: seq<ControlPacket>)
    requires q.open && q.items == []
    ensures Fitting(q, packets) == [] <==> packets == []
    ensures packets != [] ==> Fitting(q, packets)[0] == packets[0]
  {
  }

  // No delivery was routed to the connection strictly between the steps.
  ghost predicate QuietUntil(r: Run, a: nat, j: nat, conn: ConnId)
    requires IsRun(r) && j <= |r.events|
  {
    forall i :: a < i < j ==> !DeliversAt(r, i, conn)
  }

  lemma {:induction false} Window(r: Run, a: nat, j: nat, conn: ConnId)
    requires IsRun(r) && a < j <= |r.events|
    requires r.events[a].Connects? && r.events[a].conn == conn
    requires r.events[a].packet.CONNECT? && Served(r.events[a].packet.connect)
    requires forall i :: a < i < j ==> r.events[i] != Enqueues(conn)
    ensures AboutToAnswer(r.states[j], conn)
    ensures r.states[j].broker.queues[conn].open ==>
              && (Queued(r, conn, j) == [] <==> QuietUntil(r, a, j, conn))
              && (Queued(r, conn, j) != [] ==> Queued(r, conn, j)[0].PUBLISH?)
    decreases j
  {
    hide Inv, Legal, Step, Added, WritersCalled, AboutToAnswer, Served, Delivered, Answering, Fitting;
    var i := j - 1;
    assert StepAt(r, i);
    var s, e := r.states[i], r.events[i];
    if i == a {
      AcceptedIsAboutToAnswer(s, e);
      NotCalledYet(s, e);
      UncalledRun(r, conn, a);
    } else {
      Window(r, a, i, conn);
      StillAboutToAnswer(s, e, conn);
      RunFacts(r, conn, i);
      AnswererHasQueue(s, conn);
      AnswererHasQueue(r.states[j], conn);
      QueueBound(s, e, conn, |Queued(r, conn, i)|);
      AddedThen(s, e, conn);
      QuietTurn(r, a, i, conn);
    }
  }

  lemma AnswererHasQueue(s: System, conn: ConnId)
    requires AboutToAnswer(s, conn)
    ensures conn in s.broker.queues
  {
  }

  lemma NotCalledYet(s: System, e: Event)
    requires Legal(s, e) && e.Connects?
    ensures e.conn !in s.called
  {
  }

  lemma AddedThen(s: System, e: Event, conn: ConnId)
    requires Legal(s, e) && conn in s.broker.queues && Answering(s, e, conn) == []
    ensures s.broker.queues[conn].open && s.broker.queues[conn].items == [] ==>
              && (Added(s, e, conn) == [] <==> Delivered(s, e, conn) == [])
              && (Added(s, e, conn) != [] ==> Added(s, e, conn)[0].PUBLISH?)
  {
    hide Answering, Fitting, Delivered, Legal;
    DeliveredArePublishes(s, e, conn);
    assert Delivered(s, e, conn) + [] == Delivered(s, e, conn);
    if s.broker.queues[conn].open && s.broker.queues[conn].items == [] {
      FirstFits(s.broker.queues[conn], Delivered(s, e, conn));
    }
  }

  lemma QuietTurn(r: Run, a: nat, i: nat, conn: ConnId)
    requires IsRun(r) && a < i < |r.events|
    ensures QuietUntil(r, a, i + 1, conn) <==> QuietUntil(r, a, i, conn) && !DeliversAt(r, i, conn)
  {
    hide DeliversAt;
  }

  /**
   * Section 3.2 of MQTT 5.0 wants CONNACK to be the first packet a client is sent. It is
   * the first in the client's queue if and only if no delivery to the client ran between
   * its CONNECT and the step that queues the CONNACK.
   */
  lemma ConnackIsFirstIff(r: Run, a: nat, b: nat, conn: ConnId)
    requires IsRun(r) && a < b < |r.events|
    requires r.events[a].Connects? && r.events[a].conn == conn
    requires r.events[a].packet.CONNECT? && Served(r.events[a].packet.connect)
    requires r.events[b] == Enqueues(conn) && forall i :: a < i < b ==> r.events[i] != Enqueues(conn)
    requires conn in r.states[b].broker.queues && r.states[b].broker.queues[conn].open
    ensures (Queued(r, conn, b + 1) != [] && Queued(r, conn, b + 1)[0] == CONNACK_PACKET) <==> QuietUntil(r, a, b, conn)
  {
    hide Inv, Legal, Step, Added, WritersCalled, AboutToAnswer, Served, QuietUntil;
    assert StepAt(r, b);
    Window(r, a, b, conn);
    RunFacts(r, conn, b);
    ConnackAdded(r.states[b], conn);
  }

  lemma ConnackAdded(s: System, conn: ConnId)
    requires AboutToAnswer(s, conn) && Legal(s, Enqueues(conn)) && s.broker.queues[conn].open
    ensures s.broker.queues[conn].items == [] ==> Added(s, Enqueues(conn), conn) == [CONNACK_PACKET]
  {
    assert [] + [CONNACK_PACKET] == [CONNACK_PACKET];
    if s.broker.queues[conn].items == [] {
      FirstFits(s.broker.queues[conn], [CONNACK_PACKET]);
    }
  }

  lemma {:induction false} ShareHasAddressed(connOf: map<Bytes, ConnId>, messages: seq<Message>, k: nat)
    requires k < |messages| && messages[k].0 in connOf
    ensures Share(connOf, messages, connOf[messages[k].0]) != []
    decreases |messages|
  {
    if k > 0 {
      ShareHasAddressed(connOf, messages[1..], k - 1);
    }
  }

  // A client that connects again gets the deliveries its earlier subscriptions ask for at once.
  lemma SubscriberIsDelivered(s: System, e: Event, m: Bytes, option: SubscribeOption)
    requires Legal(s, e) && e.Runs? && m in s.broker.connOf
    requires (m, option) in Recipients(s.broker, e.task, e.order)
    ensures Delivered(s, e, s.broker.connOf[m]) != []
  {
    var recipients := Recipients(s.broker, e.task, e.order);
    var messages := Messages(s.broker.tasks[e.task], recipients, e.randoms);
    var k :| 0 <= k < |recipients| && recipients[k] == (m, option);
    assert messages[k].0 == m by {
      hide Personal, Recipients, Share;
    }
    ShareHasAddressed(s.broker.connOf, messages, k);
    hide Messages, Recipients, Share;
  }

  lemma AcceptedIsRouted(s: System, conn: ConnId, hello: Connect)
    requires Legal(s, Connects(conn, CONNECT(hello))) && Served(hello)
    ensures var b := Step(s, Connects(conn, CONNECT(hello))).broker;
            && hello.clientId in b.connOf && b.connOf[hello.clientId] == conn
            && b.tasks == s.broker.tasks && b.index == s.broker.index
  {
    hide Served;
  }

  /**
   * And such a delivery can run: whenever a client connects under an identifier that a
   * pending task has among its recipients, the task's run puts a PUBLISH first in the
   * client's queue, and the CONNACK comes behind it.
   */
  lemma DeliveryOvertakesConnack(s: System, conn: ConnId, hello: Connect, run: Event, option: SubscribeOption)
    requires Legal(s, Connects(conn, CONNECT(hello))) && Served(hello)
    requires s.broker.queues[conn] == Queue([], true)
    requires run.Runs? && Legal(s, run)
    requires (hello.clientId, option) in Recipients(s.broker, run.task, run.order)
    ensures var s1 := Step(s, Connects(conn, CONNECT(hello)));
            && Legal(s1, run)
            && var s2 := Step(s1, run);
               && Legal(s2, Enqueues(conn))
               && conn in s2.broker.queues && s2.broker.queues[conn].items != []
               && s2.broker.queues[conn].items[0].PUBLISH?
               && Writing(s2, conn) == [CONNACK_PACKET]
  {
    hide Served, Step, Recipients, Added, Answering, Delivered, Writing, Fitting;
    var first := Connects(conn, CONNECT(hello));
    var s1 := Step(s, first);
    AcceptedIsRouted(s, conn, hello);
    AcceptedIsAboutToAnswer(s, first);
    SameRecipients(s.broker, s1.broker, run);
    SubscriberIsDelivered(s1, run, hello.clientId, option);
    StepQueue(s, first, conn);
    StillAboutToAnswer(s1, run, conn);
    AddedThen(s1, run, conn);
    StepQueue(s1, run, conn);
  }

  lemma SameRecipients(b: Broker, c: Broker, run: Event)
    requires run.Runs? && run.task < |b.tasks| && b.tasks == c.tasks && b.index == c.index
    ensures Recipients(b, run.task, run.order) == Recipients(c, run.task, run.order)
  {
  }
}
