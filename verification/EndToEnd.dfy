// From the bytes a client sends to the steps of the broker: what the broker handles for a
// connection, in any run of the server, is what the connection's frames say.
module EndToEnd {
  import opened Wire
  import opened Packets
  import opened StreamDecoder
  import opened Sessions
  import opened BrokerSteps
  import opened BrokerRuns
  import opened BrokerTraces
  import opened Connections
  import opened Server
  import opened RoutingRuns
  import History
  import opened BrokerDelivery
  import ConnackOrder

  /** The packets that the broker handled for a connection, CONNECT included. */
  function HandledFor(es: seq<Event>, conn: ConnId): seq<ControlPacket> {
    if es == [] then []
    else
      (match es[0]
       case Connects(c, packet) => if c == conn then [packet] else []
       case Handles(c, packet, _) => if c == conn then [packet] else []
       case _ => [])
      + HandledFor(es[1..], conn)
  }

  lemma {:induction false} TakenAppend(es: seq<Event>, fs: seq<Event>, conn: ConnId)
    ensures HandledFor(es + fs, conn) == HandledFor(es, conn) + HandledFor(fs, conn)
    decreases |es|
  {
    if es == [] {
      assert es + fs == fs;
    } else {
      assert (es + fs)[1..] == es[1..] + fs;
      TakenAppend(es[1..], fs, conn);
    }
  }

  lemma {:induction false} NoneTaken(e: Event, n: nat, conn: ConnId)
    requires e.Enqueues?
    ensures HandledFor(Times(e, n), conn) == []
    decreases n
  {
    if n > 0 {
      NoneTaken(e, n - 1, conn);
      assert Times(e, n)[1..] == Times(e, n - 1);
    }
  }

  predicate Answers(sv: Server, move: Move, conn: ConnId) {
    move.PollOf? && move.conn == conn && conn in sv.conns && move.answers && Processing(sv.conns[conn])
  }

  // A connection's packet is handled when the service it called answers.
  lemma MoveTakes(sv: Server, move: Move, conn: ConnId)
    requires Possible(sv, move)
    ensures HandledFor(Events(sv, move), conn) == if Answers(sv, move, conn) then [CalledWith(sv, conn)] else []
  {
    hide Times, Tries;
    if move.PollOf? {
      var c := sv.conns[move.conn];
      var queue := QueueOf(sv.broker, move.conn);
      if c.stage.ResponseConnect? || c.stage.WritingPacket? {
        NoneTaken(Enqueues(move.conn), Tries(queue, InHand(c)), conn);
      }
    }
  }

  // ---------------------------------------------------------------- what a connection reads

  // The bytes that a poll in this stage reads.
  function BytesOf(c: Conn, read: ReadResult): Bytes {
    if (c.stage.PreConnection? || c.stage.ReadingPacket?) && read.Got? then read.bytes else []
  }

  function SentIn(sv: Server, move: Move, conn: ConnId): Bytes {
    if move.PollOf? && move.conn == conn && conn in sv.conns then BytesOf(sv.conns[conn], move.read) else []
  }

  /** What a connection read in the first `n` moves. */
  ghost function Sent(r: ServerRun, n: nat, conn: ConnId): Bytes
    requires IsServerRun(r) && n <= |r.moves|
  {
    if n == 0 then [] else Sent(r, n - 1, conn) + SentIn(r.states[n - 1], r.moves[n - 1], conn)
  }

  ghost function AllRead(r: ConnRun, n: nat): Bytes
    requires IsConnRun(r) && n <= |r.outsides|
  {
    if n == 0 then [] else AllRead(r, n - 1) + BytesOf(r.states[n - 1], r.outsides[n - 1].read)
  }

  lemma NextKeepsQueues(sv: Server, move: Move, conn: ConnId)
    requires Possible(sv, move) && conn in sv.broker.queues
    ensures conn in Next(sv, move).broker.queues
  {
    match move
    case PollOf(c, _, _, orders) =>
      AskedKeepsQueues(sv, move);
      hide PollConn, Asked;
    case RunTask(i, order, randoms) =>
      RanKeys(sv.broker, i, order, randoms);
      hide Ran;
    case _ =>
  }

  lemma AskedKeepsQueues(sv: Server, move: Move)
    requires Possible(sv, move) && move.PollOf?
    ensures Asked(sv, move).0.queues == sv.broker.queues
    ensures Asked(sv, move).1.read == move.read
  {
    var b, conn, packet := sv.broker, move.conn, CalledWith(sv, move.conn);
    ConnackOrder.HandledQueues(b, conn, packet, move.orders);
    ConnectKeepsQueues(b, conn, packet);
    hide OnConnect, Handled, CalledWith;
  }

  lemma ConnectKeepsQueues(b: Broker, conn: ConnId, packet: ControlPacket)
    ensures OnConnect(b, conn, packet).0.queues == b.queues
  {
    hide Served;
  }

  // A connection that was never accepted has sent nothing, and nothing was handled for it.
  lemma {:induction false} NeverAccepted(r: ServerRun, n: nat, conn: ConnId)
    requires IsServerRun(r) && n <= |r.moves| && conn !in r.states[n].broker.queues
    ensures Sent(r, n, conn) == [] && HandledFor(EventsOf(r, n), conn) == []
    decreases n
  {
    hide Possible, Next, Events, Matches, HandledFor;
    if n == 0 {
      NothingTaken(conn);
    } else {
      var sv, move := r.states[n - 1], r.moves[n - 1];
      assert MoveAt(r, n - 1);
      if conn in sv.broker.queues {
        NextKeepsQueues(sv, move, conn);
      }
      NeverAccepted(r, n - 1, conn);
      var b := RunsOfTheBroker(r, n - 1);
      MatchesBroker(sv, LastOf(b));
      MoveTakes(sv, move, conn);
      TakenAppend(EventsOf(r, n - 1), Events(sv, move), conn);
    }
  }

  lemma NothingTaken(conn: ConnId)
    ensures HandledFor([], conn) == []
  {
  }

  // ---------------------------------------------------------------- one connection of a server run

  function Snoc(r: ConnRun, o: Outside): ConnRun
    requires r.states != []
  {
    ConnRun(r.states + [PollConn(r.states[|r.states| - 1], o).conn], r.outsides + [o])
  }

  lemma SnocIsRun(r: ConnRun, o: Outside)
    requires IsConnRun(r) && PollConn(r.states[|r.outsides|], o).verdict == Waiting
    ensures IsConnRun(Snoc(r, o))
  {
    hide PollConn;
    var s := Snoc(r, o);
    forall i | 0 <= i < |s.outsides| ensures PollsAt(s, i) {
      assert i < |r.outsides| ==> PollsAt(r, i);
    }
  }

  lemma {:induction false} SnocKeeps(r: ConnRun, o: Outside, n: nat)
    requires IsConnRun(r) && IsConnRun(Snoc(r, o)) && n <= |r.outsides|
    ensures AllRead(Snoc(r, o), n) == AllRead(r, n)
    ensures ServedPackets(Snoc(r, o), 0, n) == ServedPackets(r, 0, n)
    decreases n
  {
    hide PollConn;
    if n > 0 {
      SnocKeeps(r, o, n - 1);
    }
  }

  // The call that a connection has not had answered.
  function Open(sv: Server, conn: ConnId): seq<ControlPacket>
    requires conn in sv.conns
  {
    if Processing(sv.conns[conn]) then [CalledWith(sv, conn)] else []
  }

  // A poll opens a call, or leaves the open one until it is answered.
  lemma PollOpens(c: Conn, o: Outside)
    requires PollConn(c, o).verdict == Waiting
    ensures var p := PollConn(c, o);
            && (p.call.Some? ==> !Processing(c) && Processing(p.conn))
            && (p.call.None? ==> (Processing(p.conn) <==> Processing(c) && ReplyOf(c, o) == []))
  {
    hide Poll, WriteAll, TrySend;
  }

  lemma AskedAnswers(sv: Server, move: Move, conn: ConnId)
    requires Possible(sv, move) && move.PollOf? && move.conn == conn
    requires PollConn(sv.conns[conn], Asked(sv, move).1).verdict == Waiting
    ensures Processing(sv.conns[conn]) ==>
              (ReplyOf(sv.conns[conn], Asked(sv, move).1) == [] <==> !Answers(sv, move, conn))
  {
    hide Poll, WriteAll, OnConnect, Handled;
  }

  /** One poll of a connection, as the connection has it and as the server has it. */
  lemma PollAccounts(sv: Server, move: Move, conn: ConnId)
    requires Possible(sv, move) && move.PollOf? && move.conn == conn && conn in Next(sv, move).conns
    ensures var p := PollConn(sv.conns[conn], Asked(sv, move).1);
            && p.verdict == Waiting && Next(sv, move).conns[conn] == p.conn
            && Open(sv, conn) + (if p.call.Some? then [p.call.value.packet] else [])
               == HandledFor(Events(sv, move), conn) + Open(Next(sv, move), conn)
  {
    var o := Asked(sv, move).1;
    var p := PollConn(sv.conns[conn], o);
    MoveTakes(sv, move, conn);
    if p.verdict == Waiting {
      PollOpens(sv.conns[conn], o);
      AskedAnswers(sv, move, conn);
    }
    hide PollConn, Asked, Events, HandledFor, Possible, Processing;
  }

  lemma PollReads(sv: Server, move: Move, conn: ConnId)
    requires Possible(sv, move) && move.PollOf? && move.conn == conn
    ensures SentIn(sv, move, conn) == BytesOf(sv.conns[conn], Asked(sv, move).1.read)
  {
    AskedKeepsQueues(sv, move);
    hide Asked;
  }

  lemma NextOfOthers(sv: Server, move: Move, conn: ConnId)
    requires Possible(sv, move) && conn in Next(sv, move).conns
    requires (move.Accept? || move.PollOf?) ==> move.conn != conn
    ensures conn in sv.conns && Next(sv, move).conns[conn] == sv.conns[conn]
    ensures CalledWith(Next(sv, move), conn) == CalledWith(sv, conn)
  {
    hide PollConn, Asked, Ran, WithQueue, Recipients;
    match move
    case PollOf(c, _, _, _) =>
      var (next, o) := Asked(sv, move);
      PolledOthers(sv, c, next, PollConn(sv.conns[c], o), conn);
      hide AfterPoll;
    case _ =>
  }

  lemma PolledOthers(sv: Server, c: ConnId, b: Broker, p: Connections.Polled, conn: ConnId)
    requires c != conn && c in sv.conns
    ensures var next := AfterPoll(sv, c, b, p);
            && (conn in next.conns <==> conn in sv.conns) && CalledWith(next, conn) == CalledWith(sv, conn)
            && (conn in next.conns ==> next.conns[conn] == sv.conns[conn])
  {
    hide WithQueue;
  }

  // Any other move leaves the connection, and its open call, as they are.
  lemma MoveOfOthers(sv: Server, move: Move, conn: ConnId)
    requires Possible(sv, move) && conn in Next(sv, move).conns
    requires (move.Accept? || move.PollOf?) ==> move.conn != conn
    ensures conn in sv.conns && Next(sv, move).conns[conn] == sv.conns[conn]
    ensures Open(Next(sv, move), conn) == Open(sv, conn)
    ensures HandledFor(Events(sv, move), conn) == [] && SentIn(sv, move, conn) == []
  {
    MoveTakes(sv, move, conn);
    NextOfOthers(sv, move, conn);
    hide Next, HandledFor, Events, Processing, CalledWith;
  }

  lemma NewlyAccepted(sv: Server, move: Move)
    requires Possible(sv, move) && move.Accept?
    ensures var next := Next(sv, move);
            && next.conns[move.conn] == NEW_CONN && Open(next, move.conn) == []
            && HandledFor(Events(sv, move), move.conn) == [] && SentIn(sv, move, move.conn) == []
  {
  }

  // A connection's own run, and what the server has done for it by then.
  ghost predicate RunOf(cr: ConnRun, sv: Server, conn: ConnId, sent: Bytes, taken: seq<ControlPacket>) {
    && IsConnRun(cr) && conn in sv.conns
    && cr.states[|cr.outsides|] == sv.conns[conn]
    && AllRead(cr, |cr.outsides|) == sent
    && ServedPackets(cr, 0, |cr.outsides|) == taken + Open(sv, conn)
  }

  lemma SnocRunOf(cr: ConnRun, o: Outside, sv: Server, next: Server, conn: ConnId, sent: Bytes,
                  taken: seq<ControlPacket>, more: Bytes, answered: seq<ControlPacket>)
    requires RunOf(cr, sv, conn, sent, taken) && conn in next.conns
    requires var p := PollConn(sv.conns[conn], o);
             && p.verdict == Waiting && next.conns[conn] == p.conn
             && Open(sv, conn) + (if p.call.Some? then [p.call.value.packet] else []) == answered + Open(next, conn)
    requires more == BytesOf(sv.conns[conn], o.read)
    ensures RunOf(Snoc(cr, o), next, conn, sent + more, taken + answered)
  {
    hide PollConn, Open, BytesOf;
    var n := |cr.outsides|;
    SnocIsRun(cr, o);
    SnocKeeps(cr, o, n);
    var s, p := Snoc(cr, o), PollConn(sv.conns[conn], o);
    assert s.states[n] == cr.states[n] && s.outsides[n] == o;
    var call := if p.call.Some? then [p.call.value.packet] else [];
    assert (taken + Open(sv, conn)) + call == taken + (Open(sv, conn) + call);
    assert taken + (answered + Open(next, conn)) == (taken + answered) + Open(next, conn);
  }

  lemma PollGoesOn(cr: ConnRun, sv: Server, move: Move, conn: ConnId, sent: Bytes, taken: seq<ControlPacket>)
    requires Possible(sv, move) && move.PollOf? && move.conn == conn && conn in Next(sv, move).conns
    requires RunOf(cr, sv, conn, sent, taken)
    ensures cr.states != []
    ensures RunOf(Snoc(cr, Asked(sv, move).1), Next(sv, move), conn, sent + SentIn(sv, move, conn),
                  taken + HandledFor(Events(sv, move), conn))
  {
    PollAccounts(sv, move, conn);
    PollReads(sv, move, conn);
    hide PollConn, Asked, Next, Events, HandledFor, SentIn, Open, BytesOf;
    SnocRunOf(cr, Asked(sv, move).1, sv, Next(sv, move), conn, sent, taken, SentIn(sv, move, conn),
              HandledFor(Events(sv, move), conn));
  }

  lemma FirstRun(sv: Server, conn: ConnId)
    requires conn in sv.conns && sv.conns[conn] == NEW_CONN && Open(sv, conn) == []
    ensures RunOf(ConnRun([NEW_CONN], []), sv, conn, [], [])
  {
  }

  lemma SameRun(cr: ConnRun, sv: Server, next: Server, conn: ConnId, sent: Bytes, taken: seq<ControlPacket>)
    requires RunOf(cr, sv, conn, sent, taken) && conn in next.conns
    requires next.conns[conn] == sv.conns[conn] && Open(next, conn) == Open(sv, conn)
    ensures RunOf(cr, next, conn, sent + [], taken + [])
  {
    assert sent + [] == sent && taken + [] == taken;
  }

  /**
   * Every live connection of a server run has had a run of its own: it read what it was
   * sent, and it called services with the packets that the broker has handled for it, and
   * at most one more.
   */
  lemma {:induction false} ConnectionRun(r: ServerRun, n: nat, conn: ConnId) returns (cr: ConnRun)
    requires IsServerRun(r) && n <= |r.moves| && conn in r.states[n].conns
    ensures RunOf(cr, r.states[n], conn, Sent(r, n, conn), HandledFor(EventsOf(r, n), conn))
    decreases n
  {
    hide Possible, Next, Events, HandledFor, RunOf, SentIn, Open, Asked;
    var sv, move := r.states[n - 1], r.moves[n - 1];
    assert MoveAt(r, n - 1);
    TakenAppend(EventsOf(r, n - 1), Events(sv, move), conn);
    if move.Accept? && move.conn == conn {
      AcceptedIsNew(sv, move);
      NeverAccepted(r, n - 1, conn);
      NewlyAccepted(sv, move);
      cr := ConnRun([NEW_CONN], []);
      FirstRun(r.states[n], conn);
    } else if move.PollOf? && move.conn == conn {
      PolledIsLive(sv, move);
      var before := ConnectionRun(r, n - 1, conn);
      PollGoesOn(before, sv, move, conn, Sent(r, n - 1, conn), HandledFor(EventsOf(r, n - 1), conn));
      cr := Snoc(before, Asked(sv, move).1);
    } else {
      MoveOfOthers(sv, move, conn);
      cr := ConnectionRun(r, n - 1, conn);
      SameRun(cr, sv, r.states[n], conn, Sent(r, n - 1, conn), HandledFor(EventsOf(r, n - 1), conn));
    }
  }

  lemma AcceptedIsNew(sv: Server, move: Move)
    requires Possible(sv, move) && move.Accept?
    ensures move.conn !in sv.broker.queues
  {
  }

  lemma PolledIsLive(sv: Server, move: Move)
    requires Possible(sv, move) && move.PollOf?
    ensures move.conn in sv.conns
    ensures CalledWith(sv, move.conn).SUBSCRIBE? ==>
              |move.orders| == |CalledWith(sv, move.conn).subscribe.filters|
  {
  }

  // ---------------------------------------------------------------- frames in, steps out

  lemma LaterIsServed(c: Conn, o: Outside)
    requires PollConn(c, o).verdict == Waiting && !c.stage.PreConnection?
    ensures !PollConn(c, o).conn.stage.PreConnection?
  {
    hide Poll, WriteAll, TrySend;
  }

  // The poll that reads the CONNECT.
  lemma {:induction false} FindConnect(r: ConnRun, n: nat) returns (a: nat)
    requires IsConnRun(r) && n <= |r.outsides| && !r.states[n].stage.PreConnection?
    ensures a < n && r.states[a].stage.PreConnection? && !r.states[a + 1].stage.PreConnection?
    decreases n
  {
    hide PollConn;
    if r.states[n - 1].stage.PreConnection? {
      a := n - 1;
    } else {
      a := FindConnect(r, n - 1);
    }
  }

  lemma {:induction false} ReadBeforeConnect(r: ConnRun, n: nat)
    requires IsConnRun(r) && n <= |r.outsides| && (n > 0 ==> r.states[n - 1].stage.PreConnection?)
    ensures AllRead(r, n) == Flat(FirstChunks(r, n))
    decreases n
  {
    hide PollConn;
    if n > 0 {
      assert PollsAt(r, n - 1);
      if n > 1 {
        assert PollsAt(r, n - 2);
        if !r.states[n - 2].stage.PreConnection? {
          LaterIsServed(r.states[n - 2], r.outsides[n - 2]);
        }
      }
      ReadBeforeConnect(r, n - 1);
      FlatSnoc(FirstChunks(r, n - 1), BytesRead(r.outsides[n - 1]));
    }
  }

  lemma FlatChunk(chunks: seq<Bytes>, c: Conn, o: Outside)
    requires !c.stage.PreConnection?
    ensures Flat(chunks + Chunk(c, o)) == Flat(chunks) + BytesOf(c, o.read)
  {
    if c.stage.ReadingPacket? {
      FlatSnoc(chunks, Chunk(c, o)[0]);
      assert Chunk(c, o) == [Chunk(c, o)[0]];
    } else {
      assert chunks + [] == chunks && Flat(chunks) + [] == Flat(chunks);
    }
  }

  lemma {:induction false} ReadAfterConnect(r: ConnRun, a: nat, n: nat)
    requires IsConnRun(r) && a <= n <= |r.outsides| && !r.states[a].stage.PreConnection?
    ensures !r.states[n].stage.PreConnection?
    ensures AllRead(r, n) == AllRead(r, a) + Flat(Chunks(r, a, n))
    decreases n
  {
    hide PollConn, Chunk, BytesOf, Flat;
    if n > a {
      ReadAfterConnect(r, a, n - 1);
      assert PollsAt(r, n - 1);
      var c, o := r.states[n - 1], r.outsides[n - 1];
      LaterIsServed(c, o);
      FlatChunk(Chunks(r, a, n - 1), c, o);
      assert (AllRead(r, a) + Flat(Chunks(r, a, n - 1))) + BytesOf(c, o.read)
          == AllRead(r, a) + (Flat(Chunks(r, a, n - 1)) + BytesOf(c, o.read));
    } else {
      FlatOfNone();
      assert AllRead(r, a) + [] == AllRead(r, a);
    }
  }

  lemma FlatOfNone()
    ensures Flat([]) == []
  {
  }

  lemma {:induction false} ServedInTwo(r: ConnRun, a: nat, n: nat)
    requires IsConnRun(r) && a <= n <= |r.outsides|
    ensures ServedPackets(r, 0, n) == ServedPackets(r, 0, a) + ServedPackets(r, a, n)
    decreases n
  {
    hide PollConn;
    if n > a {
      ServedInTwo(r, a, n - 1);
      var call := PollConn(r.states[n - 1], r.outsides[n - 1]).call;
      var last := if call.Some? then [call.value.packet] else [];
      assert (ServedPackets(r, 0, a) + ServedPackets(r, a, n - 1)) + last
          == ServedPackets(r, 0, a) + (ServedPackets(r, a, n - 1) + last);
    } else {
      assert ServedPackets(r, 0, a) + [] == ServedPackets(r, 0, a);
    }
  }

  lemma {:induction false} CallsAreServed(r: ConnRun, n: nat)
    requires IsConnRun(r) && n <= |r.outsides|
    ensures |ServedPackets(r, 0, n)| == |Calls(r, n)|
    ensures forall i :: 0 <= i < |Calls(r, n)| ==> ServedPackets(r, 0, n)[i] == Calls(r, n)[i].packet
    decreases n
  {
    hide PollConn;
    if n > 0 {
      CallsAreServed(r, n - 1);
    }
  }

  /** The same as `WholeSession`, over all that a connection read, and all it called services with. */
  lemma SessionOfRun(r: ConnRun, n: nat, hello: Bytes, frames: seq<Bytes>)
    requires IsConnRun(r) && n <= |r.outsides| && !r.states[n].stage.PreConnection?
    requires ExactFrame(hello, None) && Frame(hello, None).value.CONNECT?
    requires AllExact(frames, Some(Frame(hello, None).value.connect.protocolVersion))
    requires AllRead(r, n) == hello + Flat(frames)
    ensures ServedPackets(r, 0, n) + Drain(r.states[n].decoder).packets
         == [Frame(hello, None).value] + Expected(frames, Some(Frame(hello, None).value.connect.protocolVersion))
  {
    hide PollConn, Drain, Expected, Frame, AllRead, ServedPackets, Calls, AllExact, PollsAt, Flat;
    var packet, still := Frame(hello, None).value, Drain(r.states[n].decoder).packets;
    hide *;
    var a := SessionFromConnect(r, n, hello, frames);
    ServedInTwo(r, a + 1, n);
    OneCall(r, a + 1, packet);
    Regroup(ServedPackets(r, 0, n), [packet], ServedPackets(r, a + 1, n), still);
  }

  lemma SessionFromConnect(r: ConnRun, n: nat, hello: Bytes, frames: seq<Bytes>) returns (a: nat)
    requires IsConnRun(r) && n <= |r.outsides| && !r.states[n].stage.PreConnection?
    requires ExactFrame(hello, None) && Frame(hello, None).value.CONNECT?
    requires AllExact(frames, Some(Frame(hello, None).value.connect.protocolVersion))
    requires AllRead(r, n) == hello + Flat(frames)
    ensures a < n && Calls(r, a + 1) == [ConnectCall(Frame(hello, None).value)]
    ensures ServedPackets(r, a + 1, n) + Drain(r.states[n].decoder).packets
         == Expected(frames, Some(Frame(hello, None).value.connect.protocolVersion))
  {
    hide PollConn, Drain, ExactFrame, Expected, Frame, AllRead, FirstChunks, Chunks, ServedPackets, Calls, AllExact;
    a := FindConnect(r, n);
    ReadBeforeConnect(r, a + 1);
    ReadAfterConnect(r, a + 1, n);
    WholeSession(r, a, n, hello, frames);
  }

  lemma Regroup<T>(all: seq<T>, a: seq<T>, b: seq<T>, c: seq<T>)
    requires all == a + b
    ensures all + c == a + (b + c)
  {
  }

  lemma OneCall(r: ConnRun, n: nat, packet: ControlPacket)
    requires IsConnRun(r) && n <= |r.outsides| && Calls(r, n) == [ConnectCall(packet)]
    ensures ServedPackets(r, 0, n) == [packet]
  {
    hide PollConn, Calls, ServedPackets;
    CallsAreServed(r, n);
  }

  // While the connect service has not answered, the CONNECT is all that a connection has called it with.
  lemma ConnectInHand(r: ServerRun, n: nat, conn: ConnId, hello: Bytes, rest: Bytes)
    requires IsServerRun(r) && n <= |r.moves| && conn in r.states[n].conns
    requires r.states[n].conns[conn].stage.ProcessingConnect?
    requires ExactFrame(hello, None) && Frame(hello, None).value.CONNECT?
    requires Sent(r, n, conn) == hello + rest
    ensures CalledWith(r.states[n], conn) == Frame(hello, None).value
  {
    hide PollConn, Frame, AllRead, FirstChunks, Chunks, ServedPackets, Calls, HandledFor, Sent, EventsOf, Flat, PollsAt;
    hide MoveAt, IsServerRun;
    var packet := Frame(hello, None).value;
    var cr := ConnectionRun(r, n, conn);
    var k := |cr.outsides|;
    var a := FindConnect(cr, k);
    ReadBeforeConnect(cr, a + 1);
    ReadAfterConnect(cr, a + 1, k);
    ConnectIsFirst(cr, a, hello, rest, Flat(Chunks(cr, a + 1, k)));
    OneCall(cr, a + 1, packet);
    ServedInTwo(cr, a + 1, k);
    OnlyCall(cr, k);
    assert ServedPackets(cr, 0, k)[0] == packet;
  }

  lemma OnlyCall(r: ConnRun, n: nat)
    requires IsConnRun(r) && n <= |r.outsides| && r.states[n].stage.ProcessingConnect?
    ensures |ServedPackets(r, 0, n)| == 1
  {
    ConnectServiceFirst(r, n);
    CallsAreServed(r, n);
    hide PollConn, Calls, ServedPackets;
  }

  /**
   * What a CONNECT comes to, in every run of the server. When the connect service answers a
   * connection that has sent a CONNECT frame of a protocol that is spoken, the connection
   * goes on with a CONNACK of these four bytes to write; after any other it is gone, and
   * the broker is as before.
   */
  lemma ConnectIsAnswered(r: ServerRun, n: nat, conn: ConnId, hello: Bytes, rest: Bytes)
    requires IsServerRun(r) && n < |r.moves| && conn in r.states[n].conns
    requires r.states[n].conns[conn].stage.ProcessingConnect?
    requires r.moves[n].PollOf? && r.moves[n].conn == conn && r.moves[n].answers
    requires ExactFrame(hello, None) && Frame(hello, None).value.CONNECT?
    requires Sent(r, n, conn) == hello + rest
    ensures if SpokenProtocol(Frame(hello, None).value.connect) then
              && conn in r.states[n + 1].conns && r.states[n + 1].conns[conn].stage.ResponseConnect?
              && OnTheWire(InHand(r.states[n + 1].conns[conn])) == [0x20, 2, 0, 0]
            else conn !in r.states[n + 1].conns && r.states[n + 1].broker == r.states[n].broker
  {
    var sv, move, packet := r.states[n], r.moves[n], Frame(hello, None).value;
    assert MoveAt(r, n);
    ConnectInHand(r, n, conn, hello, rest);
    var b := RunsOfTheBroker(r, n);
    MatchesBroker(sv, LastOf(b));
    hide Frame, ExactFrame, Sent, EventsOf, Matches;
    AnswerToConnect(sv, move, packet);
  }

  lemma AnswerToConnect(sv: Server, move: Move, packet: ControlPacket)
    requires Possible(sv, move) && move.PollOf? && move.answers && sv.conns[move.conn].stage.ProcessingConnect?
    requires CalledWith(sv, move.conn) == packet && packet.CONNECT? && move.conn in sv.broker.queues
    ensures var next := Next(sv, move);
            if SpokenProtocol(packet.connect) then
              && move.conn in next.conns && next.conns[move.conn].stage.ResponseConnect?
              && OnTheWire(InHand(next.conns[move.conn])) == [0x20, 2, 0, 0]
            else move.conn !in next.conns && next.broker == sv.broker
  {
    var conn := move.conn;
    AskedConnect(sv, move);
    ConnectReplies(sv.broker, conn, packet);
    ConnectAnswer(sv.broker, conn, packet);
    AnsweredPoll(sv.conns[conn], Asked(sv, move).1);
    WithItsQueue(sv.broker, conn);
    hide OnConnect, Asked, PollConn, OnTheWire, SpokenProtocol, Served, ConnackAnswer, WithQueue, QueueOf;
  }

  /**
   * Frames in, steps out. In every run of the server, whatever the other connections do and
   * however the bytes are cut: for a connection that has sent a CONNECT and then any
   * frames, the broker has handled exactly their packets, in order, but for the one in
   * hand and those still to be decoded; and it never handles a last one that is starved.
   */
  lemma FramesAreHandled(r: ServerRun, n: nat, conn: ConnId, hello: Bytes, frames: seq<Bytes>)
    requires IsServerRun(r) && n <= |r.moves| && conn in r.states[n].conns
    requires !r.states[n].conns[conn].stage.PreConnection?
    requires ExactFrame(hello, None) && Frame(hello, None).value.CONNECT?
    requires AllExact(frames, Some(Frame(hello, None).value.connect.protocolVersion))
    requires Sent(r, n, conn) == hello + Flat(frames)
    ensures HandledFor(EventsOf(r, n), conn) + Open(r.states[n], conn) + Drain(r.states[n].conns[conn].decoder).packets
         == [Frame(hello, None).value] + Expected(frames, Some(Frame(hello, None).value.connect.protocolVersion))
  {
    hide Drain, ExactFrame, Expected, Frame, AllExact, HandledFor, Sent, EventsOf, Open, ServedPackets, AllRead;
    var cr := ConnectionRun(r, n, conn);
    SessionOfRun(cr, |cr.outsides|, hello, frames);
  }

  /**
   * So the bare DISCONNECT that ends a session is handled by nobody: as long as the
   * connection lives, what the broker handles for it comes from the frames before.
   */
  lemma ClosingDisconnectIsNotHandled(r: ServerRun, n: nat, conn: ConnId, hello: Bytes, frames: seq<Bytes>)
    requires IsServerRun(r) && n <= |r.moves| && conn in r.states[n].conns
    requires !r.states[n].conns[conn].stage.PreConnection?
    requires ExactFrame(hello, None) && Frame(hello, None).value.CONNECT?
    requires AllExact(frames, Some(Frame(hello, None).value.connect.protocolVersion))
    requires Sent(r, n, conn) == hello + (Flat(frames) + BARE_DISCONNECT)
    ensures HandledFor(EventsOf(r, n), conn)
         <= [Frame(hello, None).value] + PacketsOf(frames, Some(Frame(hello, None).value.connect.protocolVersion))
  {
    var v := Some(Frame(hello, None).value.connect.protocolVersion);
    hide Drain, ExactFrame, Frame, HandledFor, Sent, EventsOf, Open, PacketsOf, FedToItsEnd;
    BareDisconnectWaits(v);
    FlatSnoc(frames, BARE_DISCONNECT);
    var all := frames + [BARE_DISCONNECT];
    assert all[..|frames|] == frames && all[|frames|] == BARE_DISCONNECT;
    FramesAreHandled(r, n, conn, hello, all);
  }

  // ---------------------------------------------------------------- and the route stays

  predicate Registers(e: Event, m: Bytes) {
    e.Connects? && e.packet.CONNECT? && Served(e.packet.connect) && e.packet.connect.clientId == m
  }

  /** No other connection uses the client identifier. */
  ghost predicate OnlyUser(es: seq<Event>, m: Bytes, conn: ConnId) {
    forall i :: 0 <= i < |es| && Registers(es[i], m) ==> es[i].conn == conn
  }

  // Names are given by an accepted CONNECT alone.
  lemma NamesKept(s: System, e: Event)
    requires Legal(s, e) && !e.Connects?
    ensures Step(s, e).broker.names == s.broker.names
  {
    match e
    case Handles(c, packet, orders) =>
      HandledNames(s.broker, c, packet, orders);
      hide Handled;
    case Enqueues(c) =>
      EnqueuedKeeps(s, c);
      hide Enqueued;
    case Runs(_, _, _) =>
      hide SendAll, Messages, Recipients;
    case _ =>
  }

  lemma HandledNames(b: Broker, conn: ConnId, packet: ControlPacket, orders: seq<seq<Bytes>>)
    requires packet.SUBSCRIBE? ==> |orders| == |packet.subscribe.filters|
    ensures Handled(b, conn, packet, orders).0.names == b.names
  {
    HandledConns(b, conn, packet, orders);
    if packet.DISCONNECT? {
      hide NameOf, WithoutConnOf;
    } else {
      hide Handled;
    }
  }

  lemma StepNames(s: System, e: Event, m: Bytes, conn: ConnId)
    requires Legal(s, e) && m != [] && (Registers(e, m) ==> e.conn == conn)
    requires forall c :: NameOf(s.broker, c) == m ==> c == conn
    ensures forall c :: NameOf(Step(s, e).broker, c) == m ==> c == conn
  {
    if e.Connects? {
      ConnectNames(s, e);
    } else {
      NamesKept(s, e);
    }
    hide Step, Served, Legal;
    forall c | NameOf(Step(s, e).broker, c) == m ensures c == conn {
      if !(Registers(e, m) && c == e.conn) {
        assert NameOf(s.broker, c) == m;
      }
    }
  }

  lemma ConnectNames(s: System, e: Event)
    requires Legal(s, e) && e.Connects?
    ensures Step(s, e).broker.names
         == if e.packet.CONNECT? && Served(e.packet.connect) then s.broker.names[e.conn := e.packet.connect.clientId]
            else s.broker.names
  {
    hide Served;
  }

  // A route to the only user of an identifier goes away with a DISCONNECT that it sends, and only then.
  lemma {:induction false} RouteStays(b: Run, m: Bytes, conn: ConnId, n: nat)
    requires IsRun(b) && n <= |b.events| && OnlyUser(b.events[..n], m, conn)
    requires forall i :: 0 <= i < n && b.events[i].Handles? && b.events[i].conn == conn ==>
               !b.events[i].packet.DISCONNECT?
    ensures m != [] ==> forall c :: NameOf(b.states[n].broker, c) == m ==> c == conn
    ensures (exists i :: 0 <= i < n && Registers(b.events[i], m)) ==>
              History.Lookup(b.states[n].broker.connOf, m) == Some(conn)
    decreases n
  {
    hide Legal, Step, Registers;
    if n > 0 {
      var s, e := b.states[n - 1], b.events[n - 1];
      assert b.events[..n][..n - 1] == b.events[..n - 1] && b.events[..n][n - 1] == e;
      RouteStays(b, m, conn, n - 1);
      assert StepAt(b, n - 1);
      StepRoutes(s, e, m);
      if m != [] {
        StepNames(s, e, m, conn);
      }
      MarkOfUser(s, e, m, conn);
    }
  }

  lemma MarkOfUser(s: System, e: Event, m: Bytes, conn: ConnId)
    requires Legal(s, e) && (Registers(e, m) ==> e.conn == conn)
    requires m != [] ==> forall c :: NameOf(s.broker, c) == m ==> c == conn
    requires e.Handles? && e.conn == conn ==> !e.packet.DISCONNECT?
    ensures RouteMark(s, e, m) == if Registers(e, m) then History.Put(conn) else History.Quiet
  {
  }

  // The first packet that the broker handles for a connection is the one that it connects with.
  lemma {:induction false} FirstTakenConnects(b: Run, conn: ConnId, n: nat)
    requires IsRun(b) && n <= |b.events|
    ensures conn in b.states[n].called <==> HandledFor(b.events[..n], conn) != []
    ensures HandledFor(b.events[..n], conn) != [] ==>
              exists i :: 0 <= i < n && b.events[i] == Connects(conn, HandledFor(b.events[..n], conn)[0])
    decreases n
  {
    hide Legal, Step, Inv;
    if n == 0 {
      assert b.events[..0] == [];
    } else {
      var s, e := b.states[n - 1], b.events[n - 1];
      assert b.events[..n] == b.events[..n - 1] + [e];
      TakenAppend(b.events[..n - 1], [e], conn);
      FirstTakenConnects(b, conn, n - 1);
      assert StepAt(b, n - 1);
      RunInv(b, n - 1);
      StepCalls(s, e, conn);
      TakenOne(e, conn);
      if conn !in s.called && conn in b.states[n].called {
        assert b.events[n - 1] == Connects(conn, HandledFor(b.events[..n], conn)[0]);
      }
    }
  }

  lemma TakenOne(e: Event, conn: ConnId)
    ensures HandledFor([e], conn) == if (e.Connects? || e.Handles?) && e.conn == conn then [e.packet] else []
  {
    assert [e][1..] == [];
  }

  lemma StepCalls(s: System, e: Event, conn: ConnId)
    requires Inv(s) && Legal(s, e)
    ensures Step(s, e).called == s.called + if e.Connects? then {e.conn} else {}
    ensures e.Handles? ==> e.conn in s.called
    ensures e.Connects? ==> e.conn !in s.called
  {
    hide StagedOk, RetainedOk, TasksOk, QueuesOk, VersionsOk, WritingOk, RoutesBack, Handled, OnConnect, Ran, TrySend;
  }

  lemma TakenIsThere(es: seq<Event>, i: nat, conn: ConnId)
    requires i < |es| && es[i].Handles? && es[i].conn == conn
    ensures es[i].packet in HandledFor(es, conn)
  {
    if i > 0 {
      assert es[1..][i - 1] == es[i];
      TakenIsThere(es[1..], i - 1, conn);
    }
  }

  lemma RoutedToUser(b: Run, conn: ConnId, packet: ControlPacket, m: Bytes)
    requires IsRun(b) && conn in LastOf(b).called && OnlyUser(b.events, m, conn)
    requires Registers(Connects(conn, packet), m)
    requires HandledFor(b.events, conn) != [] ==> HandledFor(b.events, conn)[0] == packet
    requires forall p :: p in HandledFor(b.events, conn) ==> !p.DISCONNECT?
    ensures History.Lookup(LastOf(b).broker.connOf, m) == Some(conn)
  {
    hide HandledFor, Registers;
    var k := |b.events|;
    assert b.events[..k] == b.events;
    FirstTakenConnects(b, conn, k);
    forall i | 0 <= i < k && b.events[i].Handles? && b.events[i].conn == conn ensures !b.events[i].packet.DISCONNECT? {
      TakenIsThere(b.events, i, conn);
    }
    RouteStays(b, m, conn, k);
  }

  /**
   * A client that closes its session properly stays routed. After its frames, none of them
   * a DISCONNECT with a reason, and the bare DISCONNECT, its identifier still leads to its
   * connection, if no other connection uses it.
   */
  lemma ClosedClientStaysRouted(r: ServerRun, n: nat, conn: ConnId, hello: Bytes, frames: seq<Bytes>)
    requires IsServerRun(r) && n <= |r.moves| && conn in r.states[n].conns
    requires !BeforeService(r.states[n].conns[conn])
    requires ExactFrame(hello, None) && Frame(hello, None).value.CONNECT? && Served(Frame(hello, None).value.connect)
    requires AllExact(frames, Some(Frame(hello, None).value.connect.protocolVersion))
    requires forall p :: p in PacketsOf(frames, Some(Frame(hello, None).value.connect.protocolVersion)) ==>
               !p.DISCONNECT?
    requires Sent(r, n, conn) == hello + (Flat(frames) + BARE_DISCONNECT)
    requires OnlyUser(EventsOf(r, n), Frame(hello, None).value.connect.clientId, conn)
    ensures History.Lookup(r.states[n].broker.connOf, Frame(hello, None).value.connect.clientId) == Some(conn)
  {
    var packet := Frame(hello, None).value;
    hide Frame, ExactFrame, AllExact, PacketsOf, HandledFor, Sent, EventsOf, Served, OnlyUser;
    ClosingDisconnectIsNotHandled(r, n, conn, hello, frames);
    var b := RunsOfTheBroker(r, n);
    LiveIsCalled(r.states[n], LastOf(b), conn);
    RunInv(b, |b.events|);
    RoutedToUser(b, conn, packet, packet.connect.clientId);
  }

  /** The end of the stream, too, ends the connection without a step of the broker. */
  lemma EndIsSilent(r: ServerRun, n: nat)
    requires IsServerRun(r) && n < |r.moves| && r.moves[n].PollOf? && r.moves[n].read == Got([])
    requires r.moves[n].conn in r.states[n].conns && r.states[n].conns[r.moves[n].conn].stage.ReadingPacket?
    ensures EventsOf(r, n + 1) == EventsOf(r, n)
    ensures r.moves[n].conn !in r.states[n + 1].conns && r.states[n + 1].broker == r.states[n].broker
  {
    var sv, move := r.states[n], r.moves[n];
    assert MoveAt(r, n);
    EndOfRead(sv, move);
    var b := RunsOfTheBroker(r, n);
    QuietMove(sv, LastOf(b), move);
    MatchesBroker(Next(sv, move), LastOf(b));
    hide Matches, Next, Events;
    assert EventsOf(r, n) + [] == EventsOf(r, n);
  }

  lemma EndOfRead(sv: Server, move: Move)
    requires Possible(sv, move) && move.PollOf? && move.read == Got([])
    requires sv.conns[move.conn].stage.ReadingPacket?
    ensures move.conn !in Next(sv, move).conns
  {
    hide WithQueue;
  }

  lemma LiveIsCalled(sv: Server, s: System, conn: ConnId)
    requires Matches(sv, s) && conn in sv.conns && !BeforeService(sv.conns[conn])
    ensures conn in s.ready
  {
    assert Tied(sv, s, conn);
  }
}
