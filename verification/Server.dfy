// The server as it runs: connections that are polled, each over its own decoder, sharing
// one broker, one queue each, and the tasks that the broker spawns. Every run of it is a
// run of the broker, and what each connection reads is what the broker handles.
module Server {
  import opened Wire
  import opened Packets
  import opened StreamDecoder
  import opened TopicIndex
  import opened Retain
  import opened Sessions
  import opened BrokerSteps
  import opened BrokerRuns
  import opened BrokerTraces
  import opened Connections
  import opened Intake
  import ConnackOrder

  // The live connections, the packet that each last called a service with, and the broker.
  datatype Server = Server(conns: map<ConnId, Conn>, pending: map<ConnId, ControlPacket>, broker: Broker)

  const NEW_SERVER := Server(map[], map[], NEW_BROKER)

  // A poll of a connection says what its socket has, and whether the service it waits for
  // answers; a handler then runs as one step, with orders to iterate the retain store in.
  datatype Move =
    | Accept(conn: ConnId)
    | PollOf(conn: ConnId, read: ReadResult, answers: bool, orders: seq<seq<Bytes>>)
    | RunTask(task: nat, order: seq<Bytes>, randoms: seq<PacketId>)
    | Take(conn: ConnId)
    | StopWriter(conn: ConnId)

  function CalledWith(sv: Server, conn: ConnId): ControlPacket {
    if conn in sv.pending then sv.pending[conn] else UNDEFINED
  }

  function QueueOf(b: Broker, conn: ConnId): Queue {
    if conn in b.queues then b.queues[conn] else Queue([], false)
  }

  function ConnackAnswer(reply: Reply): Answer<Connack> {
    match reply
    case Respond(packets) =>
      if |packets| == 1 && packets[0].CONNACK? then Answer.Answered(packets[0].connack) else Refused
    case _ => Refused
  }

  function ServiceAnswer(reply: Reply): Answer<seq<ControlPacket>> {
    match reply
    case Respond(packets) => Answer.Answered(packets)
    case _ => Refused
  }

  ghost predicate Possible(sv: Server, move: Move) {
    match move
    case Accept(conn) => conn !in sv.broker.queues
    case PollOf(conn, read, answers, orders) =>
      && conn in sv.conns
      && (CalledWith(sv, conn).SUBSCRIBE? ==>
            && |orders| == |CalledWith(sv, conn).subscribe.filters|
            && EachEnumerates(orders, sv.broker.retained))
    case RunTask(i, order, randoms) =>
      && i < |sv.broker.tasks| && Enumerates(order, sv.broker.index)
      && |randoms| == |Recipients(sv.broker, i, order)|
    case Take(conn) => conn in sv.broker.queues && sv.broker.queues[conn].items != []
    case StopWriter(conn) => conn in sv.broker.queues
  }

  /** What a poll asks of the broker, and what it is told. */
  function Asked(sv: Server, move: Move): (Broker, Outside)
    requires move.PollOf? && move.conn in sv.conns
    requires CalledWith(sv, move.conn).SUBSCRIBE? ==> |move.orders| == |CalledWith(sv, move.conn).subscribe.filters|
  {
    var c, b, packet := sv.conns[move.conn], sv.broker, CalledWith(sv, move.conn);
    if move.answers && c.stage.ProcessingConnect? then
      var (next, reply) := OnConnect(b, move.conn, packet);
      (next, Outside(move.read, ConnackAnswer(reply), NotYet, QueueOf(next, move.conn)))
    else if move.answers && c.stage.ProcessingService? then
      var (next, reply) := Handled(b, move.conn, packet, move.orders);
      (next, Outside(move.read, NotYet, ServiceAnswer(reply), QueueOf(next, move.conn)))
    else (b, Outside(move.read, NotYet, NotYet, QueueOf(b, move.conn)))
  }

  function WithQueue(b: Broker, conn: ConnId, queue: Queue): Broker {
    b.(queues := b.queues[conn := queue])
  }

  // A connection that does not wait any longer is gone.
  function AfterPoll(sv: Server, conn: ConnId, b: Broker, p: Connections.Polled): Server {
    Server(if p.verdict == Waiting then sv.conns[conn := p.conn] else sv.conns - {conn},
           if p.call.Some? then sv.pending[conn := p.call.value.packet] else sv.pending,
           WithQueue(b, conn, p.queue))
  }

  ghost function Next(sv: Server, move: Move): Server
    requires Possible(sv, move)
  {
    var b := sv.broker;
    match move
    case Accept(conn) =>
      sv.(conns := sv.conns[conn := NEW_CONN], broker := WithQueue(b, conn, Queue([], true)))
    case PollOf(conn, _, _, _) =>
      var (next, o) := Asked(sv, move);
      AfterPoll(sv, conn, next, PollConn(sv.conns[conn], o))
    case RunTask(i, order, randoms) => sv.(broker := Ran(b, i, order, randoms))
    case Take(conn) =>
      sv.(broker := WithQueue(b, conn, b.queues[conn].(items := b.queues[conn].items[1..])))
    case StopWriter(conn) => sv.(broker := WithQueue(b, conn, Queue([], false)))
  }

  datatype ServerRun = ServerRun(states: seq<Server>, moves: seq<Move>)

  ghost predicate MoveAt(r: ServerRun, i: nat)
    requires i < |r.moves| && |r.states| == |r.moves| + 1
  {
    Possible(r.states[i], r.moves[i]) && r.states[i + 1] == Next(r.states[i], r.moves[i])
  }

  ghost predicate IsServerRun(r: ServerRun) {
    && |r.states| == |r.moves| + 1
    && r.states[0] == NEW_SERVER
    && forall i :: 0 <= i < |r.moves| ==> MoveAt(r, i)
  }

  // ---------------------------------------------------------------- broker events

  // How many packets of a reply are looked at before it is written, or given up.
  function Tries(queue: Queue, packets: seq<ControlPacket>): nat
    decreases |packets|
  {
    if packets == [] then 0
    else
      match packets[0]
      case DISCONNECT(_) => 1
      case NOOPERATION => 1 + Tries(queue, packets[1..])
      case packet =>
        var (next, result) := TrySend(queue, packet);
        if result == Closed then 1 else 1 + Tries(next, packets[1..])
  }

  function Times(e: Event, n: nat): seq<Event> {
    if n == 0 then [] else [e] + Times(e, n - 1)
  }

  /** The steps of the broker that a move of the server takes. */
  ghost function Events(sv: Server, move: Move): seq<Event>
    requires Possible(sv, move)
  {
    match move
    case Accept(conn) => [Accepts(conn)]
    case PollOf(conn, _, answers, orders) =>
      (match sv.conns[conn].stage
       case ProcessingConnect => if answers then [Connects(conn, CalledWith(sv, conn))] else []
       case ProcessingService => if answers then [Handles(conn, CalledWith(sv, conn), orders)] else []
       case ResponseConnect(connack) => Times(Enqueues(conn), Tries(QueueOf(sv.broker, conn), [ToConnack(connack)]))
       case WritingPacket(packets) => Times(Enqueues(conn), Tries(QueueOf(sv.broker, conn), packets))
       case _ => [])
    case RunTask(i, order, randoms) => [Runs(i, order, randoms)]
    case Take(conn) => [WriterTakes(conn)]
    case StopWriter(conn) => [WriterStops(conn)]
  }

  ghost predicate AllLegal(s: System, es: seq<Event>)
    decreases |es|
  {
    es == [] || (Legal(s, es[0]) && AllLegal(Step(s, es[0]), es[1..]))
  }

  ghost function After(s: System, es: seq<Event>): System
    requires AllLegal(s, es)
    decreases |es|
  {
    if es == [] then s else After(Step(s, es[0]), es[1..])
  }

  // ---------------------------------------------------------------- what ties the two together

  // The packets of a reply in hand that are still to be queued.
  function InHand(c: Conn): seq<ControlPacket> {
    match c.stage
    case ResponseConnect(connack) => [ToConnack(connack)]
    case WritingPacket(packets) => packets
    case _ => []
  }

  predicate BeforeService(c: Conn) {
    c.stage.PreConnection? || c.stage.ProcessingConnect?
  }

  /** What the decoder guarantees along a connection, and of the packet it waits for an answer to. */
  ghost predicate ConnOk(c: Conn, packet: ControlPacket) {
    if c.stage.PreConnection? then c.version == None && c.decoder.version == None
    else
      && c.version.Some? && IntakeOk(c, c.version.value)
      && (c.stage.ProcessingConnect? ==> packet.CONNECT? && packet.connect.protocolVersion == c.version.value)
      && (!c.stage.ProcessingConnect? ==> c.version.value <= 5)
      && (c.stage.ProcessingService? ==> Incoming(packet))
  }

  /** A live connection and the broker's view of it. */
  ghost predicate Tied(sv: Server, s: System, conn: ConnId)
    requires conn in sv.conns
  {
    var c := sv.conns[conn];
    && conn in s.broker.queues
    && ConnOk(c, CalledWith(sv, conn))
    && (if BeforeService(c) then conn !in s.called else conn in s.ready)
    && Writing(s, conn) == InHand(c)
  }

  ghost predicate Matches(sv: Server, s: System) {
    && sv.broker == s.broker
    && s.called <= s.broker.queues.Keys && s.writing.Keys <= s.broker.queues.Keys
    && forall conn :: conn in sv.conns ==> Tied(sv, s, conn)
  }

  lemma StartsMatch()
    ensures Matches(NEW_SERVER, START)
  {
  }

  // ---------------------------------------------------------------- one connection's polls

  // Before CONNECT, the version is not known; with the CONNECT, it is the packet's.
  lemma FirstPollOk(c: Conn, o: Outside, packet: ControlPacket)
    requires ConnOk(c, packet) && c.stage.PreConnection? && PollConn(c, o).verdict == Waiting
    ensures var p := PollConn(c, o);
            && (p.conn.stage.PreConnection? || p.conn.stage.ProcessingConnect?)
            && ConnOk(p.conn, if p.call.Some? then p.call.value.packet else packet)
  {
    PollFirstDecodes(c, o);
    PollKeepsVersion(Arrive(c.decoder, BytesRead(o)));
    FirstPollStage(c, o);
    if !PollConn(c, o).conn.stage.PreConnection? {
      FirstPollIncoming(c, o, PollConn(c, o).conn.version.value);
    } else {
      hide Poll, IntakeOk;
    }
    hide PollConn, Poll, DecoderOk, Incoming;
  }

  lemma FirstPollStage(c: Conn, o: Outside)
    requires c.stage.PreConnection? && PollConn(c, o).verdict == Waiting
    ensures var p := PollConn(c, o);
            && (p.conn.stage.PreConnection? ==> p.conn.version == c.version)
            && (p.conn.stage.PreConnection? || p.conn.stage.ProcessingConnect?)
  {
    hide Poll;
  }

  // Where a poll that waits can lead, and that it calls a service only to process its answer.
  lemma PollStages(c: Conn, o: Outside)
    requires !c.stage.PreConnection? && PollConn(c, o).verdict == Waiting
    ensures var p := PollConn(c, o);
            && (p.call.Some? <==> c.stage.ReadingPacket? && p.conn.stage.ProcessingService?)
            && (p.conn.stage.ProcessingConnect? ==> c.stage.ProcessingConnect?)
            && (p.conn.stage.ProcessingService? ==> c.stage.ProcessingService? || p.call.Some?)
  {
    hide Poll, WriteAll, TrySend;
  }

  lemma PollKeepsOk(c: Conn, o: Outside, packet: ControlPacket)
    requires ConnOk(c, packet) && PollConn(c, o).verdict == Waiting
    requires c.stage.ProcessingConnect? && o.connect.Answered? ==> c.version.value <= 5
    ensures ConnOk(PollConn(c, o).conn, if PollConn(c, o).call.Some? then PollConn(c, o).call.value.packet else packet)
  {
    hide PollConn, Poll, DecoderOk, Incoming;
    if c.stage.PreConnection? {
      FirstPollOk(c, o, packet);
    } else if c.stage.ProcessingConnect? {
      ConnectPoll(c, o);
    } else {
      PollStages(c, o);
      PollConnVersion(c, o);
      NextPollIncoming(c, o, c.version.value);
    }
  }

  lemma ConnectPoll(c: Conn, o: Outside)
    requires c.stage.ProcessingConnect? && PollConn(c, o).verdict == Waiting
    ensures var p := PollConn(c, o);
            && p.call.None? && p.conn.decoder == c.decoder && p.conn.version == c.version
            && (if o.connect.Answered? then p.conn.stage == ResponseConnect(o.connect.value) else p.conn == c)
  {
  }

  // ---------------------------------------------------------------- writing a reply

  // Two states of the broker that differ, for connections, in one of them only.
  ghost predicate Apart(s: System, t: System, conn: ConnId) {
    && (forall other :: other in s.broker.queues ==> other in t.broker.queues)
    && forall other :: other != conn ==>
         && Writing(t, other) == Writing(s, other)
         && (other in t.called <==> other in s.called) && (other in t.ready <==> other in s.ready)
  }

  ghost predicate Wrote(s: System, t: System, conn: ConnId, packets: seq<ControlPacket>) {
    var (queue, verdict) := WriteAll(QueueOf(s.broker, conn), packets);
    && t.broker == WithQueue(s.broker, conn, queue)
    && t.called == s.called && t.writing.Keys <= s.writing.Keys + {conn}
    && Apart(s, t, conn)
    && (verdict == Waiting ==> Writing(t, conn) == [] && (conn in t.ready <==> conn in s.ready))
  }

  lemma WithItsQueue(b: Broker, conn: ConnId)
    requires conn in b.queues
    ensures WithQueue(b, conn, QueueOf(b, conn)) == b
  {
    assert b.queues[conn := b.queues[conn]] == b.queues;
  }

  // One step of it.
  lemma EnqueueOne(s: System, conn: ConnId)
    requires conn in s.broker.queues && Writing(s, conn) != []
    ensures Legal(s, Enqueues(conn))
    ensures var t := Step(s, Enqueues(conn));
            var packet, rest := Writing(s, conn)[0], Writing(s, conn)[1..];
            var (queue, result) := TrySend(QueueOf(s.broker, conn), packet);
            var ends := packet.DISCONNECT? || (packet != NOOPERATION && result == Closed);
            && t.called == s.called && t.writing.Keys <= s.writing.Keys + {conn} && Apart(s, t, conn)
            && (ends || packet == NOOPERATION ==> t.broker == s.broker)
            && (!ends && packet != NOOPERATION ==> t.broker == WithQueue(s.broker, conn, queue))
            && (!ends ==> Writing(t, conn) == rest && (conn in t.ready <==> conn in s.ready))
  {
    hide TrySend;
  }

  lemma WriteTurn(queue: Queue, packets: seq<ControlPacket>)
    requires packets != []
    ensures var packet, rest := packets[0], packets[1..];
            var (next, result) := TrySend(queue, packet);
            if packet.DISCONNECT? then WriteAll(queue, packets) == (queue, Finished) && Tries(queue, packets) == 1
            else if packet == NOOPERATION then
              && WriteAll(queue, packets) == WriteAll(queue, rest) && Tries(queue, packets) == 1 + Tries(queue, rest)
            else if result == Closed then
              && WriteAll(queue, packets) == (queue, Broken) && Tries(queue, packets) == 1
            else
              && WriteAll(queue, packets) == WriteAll(next, rest) && Tries(queue, packets) == 1 + Tries(next, rest)
  {
    hide TrySend;
  }

  lemma OneEvent(s: System, e: Event)
    requires Legal(s, e)
    ensures AllLegal(s, [e]) && After(s, [e]) == Step(s, e)
  {
    hide Legal, Step;
    assert [e][1..] == [];
  }

  lemma MoreEvents(s: System, e: Event, es: seq<Event>)
    requires Legal(s, e) && AllLegal(Step(s, e), es)
    ensures AllLegal(s, [e] + es) && After(s, [e] + es) == After(Step(s, e), es)
  {
    hide Legal, Step;
    assert ([e] + es)[1..] == es;
  }

  lemma NoEvents(s: System)
    ensures AllLegal(s, []) && After(s, []) == s
  {
  }

  lemma TimesTurn(e: Event, n: nat)
    ensures Times(e, 0) == [] && Times(e, 1) == [e] && Times(e, 1 + n) == [e] + Times(e, n)
  {
    assert Times(e, 1) == [e] + Times(e, 0);
  }

  lemma WroteMore(s: System, t: System, u: System, conn: ConnId, packets: seq<ControlPacket>)
    requires conn in s.broker.queues && packets != [] && Apart(s, t, conn) && t.called == s.called
    requires t.writing.Keys <= s.writing.Keys + {conn} && (conn in t.ready <==> conn in s.ready)
    requires exists queue :: t.broker == WithQueue(s.broker, conn, queue)
    requires WriteAll(QueueOf(s.broker, conn), packets) == WriteAll(QueueOf(t.broker, conn), packets[1..])
    requires Wrote(t, u, conn, packets[1..])
    ensures Wrote(s, u, conn, packets)
  {
    hide WriteAll;
    var queue := WriteAll(QueueOf(s.broker, conn), packets).0;
    assert WithQueue(t.broker, conn, queue) == WithQueue(s.broker, conn, queue);
  }

  /** Writing a reply in one poll is enqueueing its packets step by step. */
  lemma {:induction false} EnqueueAll(s: System, conn: ConnId, packets: seq<ControlPacket>)
    requires conn in s.broker.queues && Writing(s, conn) == packets
    ensures var es := Times(Enqueues(conn), Tries(QueueOf(s.broker, conn), packets));
            AllLegal(s, es) && Wrote(s, After(s, es), conn, packets)
    decreases |packets|
  {
    hide Legal, Step, WriteAll, Tries, TrySend, Writing, Times, AllLegal, After;
    var queue, e := QueueOf(s.broker, conn), Enqueues(conn);
    if packets == [] {
      WriteNothing(queue);
      TimesTurn(e, 0);
      NoEvents(s);
      WithItsQueue(s.broker, conn);
    } else {
      EnqueueOne(s, conn);
      WriteTurn(queue, packets);
      var t := Step(s, e);
      WithItsQueue(s.broker, conn);
      var (next, result) := TrySend(queue, packets[0]);
      if packets[0].DISCONNECT? || (packets[0] != NOOPERATION && result == Closed) {
        TimesTurn(e, 0);
        OneEvent(s, e);
      } else {
        var rest := Tries(QueueOf(t.broker, conn), packets[1..]);
        EnqueueAll(t, conn, packets[1..]);
        TimesTurn(e, rest);
        MoreEvents(s, e, Times(e, rest));
        assert exists queue' :: t.broker == WithQueue(s.broker, conn, queue') by {
          assert t.broker == WithQueue(s.broker, conn, if packets[0] == NOOPERATION then queue else next);
        }
        WroteMore(s, t, After(t, Times(e, rest)), conn, packets);
      }
    }
  }

  lemma WriteNothing(queue: Queue)
    ensures WriteAll(queue, []) == (queue, Waiting) && Tries(queue, []) == 0
  {
  }

  // ---------------------------------------------------------------- one move

  // What a move of one connection has to leave behind.
  ghost predicate Leaves(next: Server, s: System, t: System, conn: ConnId) {
    && next.broker == t.broker && Apart(s, t, conn)
    && t.called <= t.broker.queues.Keys && t.writing.Keys <= t.broker.queues.Keys
    && (conn in next.conns ==> Tied(next, t, conn))
  }

  lemma OthersStayTied(sv: Server, s: System, next: Server, t: System, conn: ConnId)
    requires Matches(sv, s) && Leaves(next, s, t, conn)
    requires forall other :: other in next.conns && other != conn ==>
               && other in sv.conns && next.conns[other] == sv.conns[other]
               && CalledWith(next, other) == CalledWith(sv, other)
    ensures Matches(next, t)
  {
    hide ConnOk, Writing, InHand, CalledWith;
    forall other | other in next.conns && other != conn ensures Tied(next, t, other) {
      assert Tied(sv, s, other);
    }
  }

  // A poll that neither gets an answer nor writes does not touch the queue.
  lemma QuietPoll(c: Conn, o: Outside)
    requires InHand(c) == [] && !c.stage.WritingPacket? && !o.connect.Answered? && !o.service.Answered?
    ensures var p := PollConn(c, o);
            && p.queue == o.queue
            && (p.verdict == Waiting ==> InHand(p.conn) == [] && (BeforeService(p.conn) <==> BeforeService(c)))
  {
    hide Poll;
  }

  // A poll that gets an answer waits with the reply in hand, and one that is refused ends.
  lemma AnsweredPoll(c: Conn, o: Outside)
    requires c.stage.ProcessingConnect? ==> !o.connect.NotYet?
    requires c.stage.ProcessingService? ==> !o.service.NotYet?
    requires c.stage.ProcessingConnect? || c.stage.ProcessingService?
    ensures var p := PollConn(c, o);
            && p.queue == o.queue && p.call.None?
            && (c.stage.ProcessingConnect? ==>
                  if o.connect.Refused? then p.verdict != Waiting
                  else p.verdict == Waiting && p.conn == c.(stage := ResponseConnect(o.connect.value)))
            && (c.stage.ProcessingService? ==>
                  if o.service.Refused? then p.verdict != Waiting
                  else p.verdict == Waiting && p.conn == c.(stage := WritingPacket(o.service.value)))
  {
  }

  // A poll that writes goes back to reading, if it does not end.
  lemma WritingPoll(c: Conn, o: Outside)
    requires c.stage.ResponseConnect? || c.stage.WritingPacket?
    ensures var p := PollConn(c, o);
            && p.call.None? && p.queue == WriteAll(o.queue, InHand(c)).0
            && (p.verdict == Waiting <==> WriteAll(o.queue, InHand(c)).1 == Waiting)
            && (p.verdict == Waiting ==> p.conn == c.(stage := ReadingPacket))
  {
    hide TrySend;
    if c.stage.ResponseConnect? {
      var packet := ToConnack(c.stage.connack);
      assert [packet][1..] == [];
      assert WriteAll(TrySend(o.queue, packet).0, []) == (TrySend(o.queue, packet).0, Waiting);
      ClosedKeeps(o.queue, packet);
    } else {
      hide WriteAll;
    }
  }

  lemma ClosedKeeps(queue: Queue, packet: ControlPacket)
    ensures TrySend(queue, packet).1 == Closed ==> TrySend(queue, packet).0 == queue
  {
  }

  // The packet that a connection waits to have answered, after a poll.
  function Waits(p: Connections.Polled, packet: ControlPacket): ControlPacket {
    if p.call.Some? then p.call.value.packet else packet
  }

  lemma PollMatches(sv: Server, s: System, conn: ConnId, b: Broker, p: Connections.Polled, t: System)
    requires Matches(sv, s) && conn in sv.conns && Apart(s, t, conn)
    requires t.broker == WithQueue(b, conn, p.queue)
    requires t.called <= t.broker.queues.Keys && t.writing.Keys <= t.broker.queues.Keys
    requires p.verdict == Waiting ==>
               && ConnOk(p.conn, Waits(p, CalledWith(sv, conn)))
               && (if BeforeService(p.conn) then conn !in t.called else conn in t.ready)
               && Writing(t, conn) == InHand(p.conn)
    ensures Matches(AfterPoll(sv, conn, b, p), t)
  {
    var next := AfterPoll(sv, conn, b, p);
    hide ConnOk, Writing, InHand, Matches, BeforeService;
    assert conn in next.conns ==> CalledWith(next, conn) == Waits(p, CalledWith(sv, conn));
    OthersStayTied(sv, s, next, t, conn);
  }

  lemma ApartFromItself(s: System, conn: ConnId)
    ensures Apart(s, s, conn)
  {
  }

  predicate Quiet(c: Conn, answers: bool) {
    c.stage.PreConnection? || c.stage.ReadingPacket? || (!answers && Processing(c))
  }

  lemma AskedQuietly(sv: Server, move: Move)
    requires Possible(sv, move) && move.PollOf?
    requires !move.answers || !Processing(sv.conns[move.conn])
    ensures Asked(sv, move)
         == (sv.broker, Outside(move.read, NotYet, NotYet, QueueOf(sv.broker, move.conn)))
  {
  }

  lemma QuietMove(sv: Server, s: System, move: Move)
    requires Matches(sv, s) && Possible(sv, move) && move.PollOf? && Quiet(sv.conns[move.conn], move.answers)
    ensures Events(sv, move) == [] && Matches(Next(sv, move), s)
  {
    var conn := move.conn;
    var c := sv.conns[conn];
    AskedQuietly(sv, move);
    var (b, o) := Asked(sv, move);
    assert Tied(sv, s, conn);
    QuietPoll(c, o);
    var p := PollConn(c, o);
    if p.verdict == Waiting {
      PollKeepsOk(c, o, CalledWith(sv, conn));
    }
    hide PollConn, ConnOk, Asked;
    WithItsQueue(b, conn);
    ApartFromItself(s, conn);
    PollMatches(sv, s, conn, b, p, s);
  }

  lemma WriteEvents(sv: Server, move: Move)
    requires Possible(sv, move) && move.PollOf?
    requires sv.conns[move.conn].stage.ResponseConnect? || sv.conns[move.conn].stage.WritingPacket?
    ensures Events(sv, move)
         == Times(Enqueues(move.conn), Tries(QueueOf(sv.broker, move.conn), InHand(sv.conns[move.conn])))
  {
    hide Times, Tries;
  }

  lemma WroteMatches(sv: Server, s: System, conn: ConnId, o: Outside, t: System)
    requires Matches(sv, s) && conn in sv.conns && o.queue == QueueOf(sv.broker, conn)
    requires sv.conns[conn].stage.ResponseConnect? || sv.conns[conn].stage.WritingPacket?
    requires Wrote(s, t, conn, InHand(sv.conns[conn]))
    ensures Matches(AfterPoll(sv, conn, sv.broker, PollConn(sv.conns[conn], o)), t)
  {
    var c := sv.conns[conn];
    assert Tied(sv, s, conn);
    WritingPoll(c, o);
    var p := PollConn(c, o);
    if p.verdict == Waiting {
      PollKeepsOk(c, o, CalledWith(sv, conn));
    }
    hide PollConn, ConnOk, WriteAll, AfterPoll;
    PollMatches(sv, s, conn, sv.broker, p, t);
  }

  lemma WriteMove(sv: Server, s: System, move: Move)
    requires Matches(sv, s) && Possible(sv, move) && move.PollOf?
    requires sv.conns[move.conn].stage.ResponseConnect? || sv.conns[move.conn].stage.WritingPacket?
    ensures AllLegal(s, Events(sv, move)) && Matches(Next(sv, move), After(s, Events(sv, move)))
  {
    var conn := move.conn;
    AskedQuietly(sv, move);
    WriteEvents(sv, move);
    assert Tied(sv, s, conn);
    EnqueueAll(s, conn, InHand(sv.conns[conn]));
    hide PollConn, ConnOk, Asked, WriteAll, Times, Tries, AllLegal, After, Events, AfterPoll, Wrote;
    WroteMatches(sv, s, conn, Asked(sv, move).1, After(s, Events(sv, move)));
  }

  // A step in which a service answers the connection's call, and what the poll makes of it.
  ghost predicate Replied(s: System, t: System, conn: ConnId, reply: Reply) {
    && t.broker.queues == s.broker.queues && Apart(s, t, conn)
    && t.called <= s.called + {conn} && t.writing.Keys <= s.writing.Keys + {conn}
    && (reply.Respond? ==> conn in t.ready && Writing(t, conn) == reply.packets)
  }

  lemma ConnectStep(s: System, conn: ConnId, packet: ControlPacket)
    requires Legal(s, Connects(conn, packet))
    ensures Step(s, Connects(conn, packet)).broker == OnConnect(s.broker, conn, packet).0
    ensures Replied(s, Step(s, Connects(conn, packet)), conn, OnConnect(s.broker, conn, packet).1)
  {
    ConnackOrder.ConnectQueues(s, Connects(conn, packet));
    hide OnConnect;
  }

  lemma AnsweredReplies(s: System, next: Broker, conn: ConnId, reply: Reply)
    requires next.queues == s.broker.queues && conn in s.ready
    ensures Replied(s, BrokerRuns.Answered(s.(broker := next), conn, reply), conn, reply)
    ensures BrokerRuns.Answered(s.(broker := next), conn, reply).broker == next
  {
    if reply.Respond? {
    } else {
    }
  }

  lemma HandleStep(s: System, conn: ConnId, packet: ControlPacket, orders: seq<seq<Bytes>>)
    requires Legal(s, Handles(conn, packet, orders))
    ensures Step(s, Handles(conn, packet, orders)).broker == Handled(s.broker, conn, packet, orders).0
    ensures Replied(s, Step(s, Handles(conn, packet, orders)), conn, Handled(s.broker, conn, packet, orders).1)
  {
    ConnackOrder.HandledQueues(s.broker, conn, packet, orders);
    var (next, reply) := Handled(s.broker, conn, packet, orders);
    AnsweredReplies(s, next, conn, reply);
    hide Handled, BrokerRuns.Answered, Replied;
  }

  lemma ConnectReplies(b: Broker, conn: ConnId, packet: ControlPacket)
    ensures var reply := OnConnect(b, conn, packet).1;
            if packet.CONNECT? && Served(packet.connect) then
              && packet.connect.protocolVersion <= 5 && ConnackAnswer(reply).Answered?
              && reply == Respond([ToConnack(ConnackAnswer(reply).value)])
            else ConnackAnswer(reply).Refused?
  {
  }

  lemma AskedConnect(sv: Server, move: Move)
    requires Possible(sv, move) && move.PollOf? && move.answers && sv.conns[move.conn].stage.ProcessingConnect?
    ensures var (next, reply) := OnConnect(sv.broker, move.conn, CalledWith(sv, move.conn));
            Asked(sv, move) == (next, Outside(move.read, ConnackAnswer(reply), NotYet, QueueOf(next, move.conn)))
  {
    hide OnConnect;
  }

  lemma AskedHandler(sv: Server, move: Move)
    requires Possible(sv, move) && move.PollOf? && move.answers && sv.conns[move.conn].stage.ProcessingService?
    ensures var (next, reply) := Handled(sv.broker, move.conn, CalledWith(sv, move.conn), move.orders);
            Asked(sv, move) == (next, Outside(move.read, NotYet, ServiceAnswer(reply), QueueOf(next, move.conn)))
  {
    hide Handled;
  }

  lemma RepliedMatches(sv: Server, s: System, conn: ConnId, o: Outside, t: System, reply: Reply)
    requires Matches(sv, s) && conn in sv.conns && Processing(sv.conns[conn])
    requires Replied(s, t, conn, reply) && o.queue == QueueOf(t.broker, conn)
    requires sv.conns[conn].stage.ProcessingConnect? ==>
               && !o.connect.NotYet?
               && (o.connect.Answered? ==>
                     reply == Respond([ToConnack(o.connect.value)]) && sv.conns[conn].version.value <= 5)
    requires sv.conns[conn].stage.ProcessingService? ==> o.service == ServiceAnswer(reply)
    ensures Matches(AfterPoll(sv, conn, t.broker, PollConn(sv.conns[conn], o)), t)
  {
    var c := sv.conns[conn];
    assert Tied(sv, s, conn);
    AnsweredPoll(c, o);
    var p := PollConn(c, o);
    if p.verdict == Waiting {
      PollKeepsOk(c, o, CalledWith(sv, conn));
    }
    hide PollConn, ConnOk, AfterPoll, WithQueue, QueueOf, Matches;
    WithItsQueue(t.broker, conn);
    PollMatches(sv, s, conn, t.broker, p, t);
  }

  lemma ConnectMove(sv: Server, s: System, move: Move)
    requires Matches(sv, s) && Possible(sv, move) && move.PollOf?
    requires move.answers && sv.conns[move.conn].stage.ProcessingConnect?
    ensures AllLegal(s, Events(sv, move)) && Matches(Next(sv, move), After(s, Events(sv, move)))
  {
    var conn, packet := move.conn, CalledWith(sv, move.conn);
    AskedConnect(sv, move);
    assert Tied(sv, s, conn);
    var e := Connects(conn, packet);
    assert Legal(s, e) && Events(sv, move) == [e];
    ConnectReplies(s.broker, conn, packet);
    ConnectStep(s, conn, packet);
    OneEvent(s, e);
    hide PollConn, Asked, OnConnect, Step, Legal, ConnackAnswer, Events, AfterPoll, Replied;
    RepliedMatches(sv, s, conn, Asked(sv, move).1, Step(s, e), OnConnect(s.broker, conn, packet).1);
  }

  lemma HandleMove(sv: Server, s: System, move: Move)
    requires Matches(sv, s) && Possible(sv, move) && move.PollOf?
    requires move.answers && sv.conns[move.conn].stage.ProcessingService?
    ensures AllLegal(s, Events(sv, move)) && Matches(Next(sv, move), After(s, Events(sv, move)))
  {
    var conn, packet := move.conn, CalledWith(sv, move.conn);
    AskedHandler(sv, move);
    assert Tied(sv, s, conn);
    var e := Handles(conn, packet, move.orders);
    assert Legal(s, e) && Events(sv, move) == [e];
    HandleStep(s, conn, packet, move.orders);
    OneEvent(s, e);
    hide PollConn, Asked, Handled, Step, Legal, Events, AfterPoll, Replied;
    RepliedMatches(sv, s, conn, Asked(sv, move).1, Step(s, e), Handled(s.broker, conn, packet, move.orders).1);
  }

  // A step of the broker that only changes what every connection's view leaves out.
  lemma BrokerMove(sv: Server, s: System, b: Broker)
    requires Matches(sv, s) && b.queues.Keys == sv.broker.queues.Keys
    ensures Matches(sv.(broker := b), s.(broker := b))
  {
    hide ConnOk;
    var next, t := sv.(broker := b), s.(broker := b);
    forall conn | conn in next.conns ensures Tied(next, t, conn) {
      assert Tied(sv, s, conn);
    }
  }

  lemma AcceptMove(sv: Server, s: System, conn: ConnId)
    requires Matches(sv, s) && conn !in s.broker.queues
    ensures var b := WithQueue(sv.broker, conn, Queue([], true));
            Matches(sv.(conns := sv.conns[conn := NEW_CONN], broker := b), s.(broker := b))
  {
    hide ConnOk;
    var b := WithQueue(sv.broker, conn, Queue([], true));
    var next, t := sv.(conns := sv.conns[conn := NEW_CONN], broker := b), s.(broker := b);
    NewConnOk(CalledWith(next, conn));
    forall other | other in next.conns ensures Tied(next, t, other) {
      if other != conn {
        assert Tied(sv, s, other);
      }
    }
  }

  lemma NewConnOk(packet: ControlPacket)
    ensures ConnOk(NEW_CONN, packet)
  {
  }

  lemma RanKeys(b: Broker, i: nat, order: seq<Bytes>, randoms: seq<PacketId>)
    requires i < |b.tasks| && |randoms| == |Recipients(b, i, order)|
    ensures Ran(b, i, order, randoms).queues.Keys == b.queues.Keys
  {
    hide SendAll, Messages, Recipients, Offered, Share;
    forall conn ensures conn in Ran(b, i, order, randoms).queues <==> conn in b.queues {
      SendAllIsOffered(b.queues, b.connOf, Messages(b.tasks[i], Recipients(b, i, order), randoms), conn);
    }
  }

  // The moves in which no connection is polled are steps of the broker as they are.
  lemma OtherMove(sv: Server, s: System, move: Move)
    requires Matches(sv, s) && Possible(sv, move) && !move.PollOf?
    ensures AllLegal(s, Events(sv, move)) && Matches(Next(sv, move), After(s, Events(sv, move)))
  {
    var e := Events(sv, move)[0];
    assert Events(sv, move) == [e] && Legal(s, e);
    OneEvent(s, e);
    hide Tied, Recipients, AllLegal, After, Ran;
    match move
    case Accept(conn) => AcceptMove(sv, s, conn); hide Matches;
    case RunTask(i, order, randoms) =>
      RanKeys(s.broker, i, order, randoms);
      BrokerMove(sv, s, Ran(s.broker, i, order, randoms));
      hide Matches;
    case Take(conn) =>
      var queue := s.broker.queues[conn];
      BrokerMove(sv, s, WithQueue(s.broker, conn, queue.(items := queue.items[1..])));
      hide Matches;
    case StopWriter(conn) =>
      BrokerMove(sv, s, WithQueue(s.broker, conn, Queue([], false)));
      hide Matches;
  }

  /** Every move of the server is a sequence of steps of the broker, each of them legal. */
  lemma MoveMatches(sv: Server, s: System, move: Move)
    requires Matches(sv, s) && Possible(sv, move)
    ensures AllLegal(s, Events(sv, move)) && Matches(Next(sv, move), After(s, Events(sv, move)))
  {
    hide Matches, Next, AllLegal, After;
    if !move.PollOf? {
      OtherMove(sv, s, move);
    } else {
      match sv.conns[move.conn].stage
      case ResponseConnect(_) => WriteMove(sv, s, move);
      case WritingPacket(_) => WriteMove(sv, s, move);
      case ProcessingConnect =>
        if move.answers { ConnectMove(sv, s, move); } else { QuietMove(sv, s, move); NoEvents(s); }
      case ProcessingService =>
        if move.answers { HandleMove(sv, s, move); } else { QuietMove(sv, s, move); NoEvents(s); }
      case _ => QuietMove(sv, s, move); NoEvents(s);
    }
  }

  // ---------------------------------------------------------------- whole runs

  /** The steps of the broker that the first `n` moves take. */
  ghost function EventsOf(r: ServerRun, n: nat): seq<Event>
    requires IsServerRun(r) && n <= |r.moves|
  {
    if n == 0 then []
    else
      assert MoveAt(r, n - 1);
      EventsOf(r, n - 1) + Events(r.states[n - 1], r.moves[n - 1])
  }

  function LastOf(b: Run): System
    requires b.states != []
  {
    b.states[|b.states| - 1]
  }

  lemma {:induction false} ExtendRun(b: Run, es: seq<Event>) returns (longer: Run)
    requires IsRun(b) && AllLegal(LastOf(b), es)
    ensures IsRun(longer) && longer.events == b.events + es && LastOf(longer) == After(LastOf(b), es)
    decreases |es|
  {
    hide Legal, Step;
    if es == [] {
      longer := b;
      assert b.events + [] == b.events;
    } else {
      var next := Run(b.states + [Step(LastOf(b), es[0])], b.events + [es[0]]);
      forall i | 0 <= i < |next.events| ensures StepAt(next, i) {
        assert i < |b.events| ==> StepAt(b, i);
      }
      longer := ExtendRun(next, es[1..]);
      assert [es[0]] + es[1..] == es;
      assert (b.events + [es[0]]) + es[1..] == b.events + ([es[0]] + es[1..]);
    }
  }

  /**
   * Every run of the server is a run of the broker: the steps its moves take are legal one
   * after the other, and lead to the same broker. So whatever holds of all runs of the
   * broker holds of the server.
   */
  lemma {:induction false} RunsOfTheBroker(r: ServerRun, n: nat) returns (b: Run)
    requires IsServerRun(r) && n <= |r.moves|
    ensures IsRun(b) && b.events == EventsOf(r, n)
    ensures LastOf(b).broker == r.states[n].broker && Matches(r.states[n], LastOf(b))
    decreases n
  {
    hide Matches, Next, Possible, Events, AllLegal, After, Legal, Step;
    if n == 0 {
      b := Run([START], []);
      StartsMatch();
    } else {
      var before := RunsOfTheBroker(r, n - 1);
      assert MoveAt(r, n - 1);
      MoveMatches(r.states[n - 1], LastOf(before), r.moves[n - 1]);
      b := ExtendRun(before, Events(r.states[n - 1], r.moves[n - 1]));
    }
    MatchesBroker(r.states[n], LastOf(b));
  }

  lemma MatchesBroker(sv: Server, s: System)
    requires Matches(sv, s)
    ensures sv.broker == s.broker
    ensures forall conn :: conn in sv.conns ==> conn in sv.broker.queues
  {
    hide ConnOk;
    forall conn | conn in sv.conns ensures conn in sv.broker.queues {
      assert Tied(sv, s, conn);
    }
  }
}
