// One connection as a state machine: read CONNECT, let the connect service answer, then
// read, serve and answer one packet after the other.
module Connections {
  import opened Wire
  import opened Packets
  import opened StreamDecoder
  import opened Sessions

  datatype Stage =
    | PreConnection
    | ProcessingConnect
    | ResponseConnect(connack: Connack)
    | ReadingPacket
    | ProcessingService
    | WritingPacket(packets: seq<ControlPacket>)

  datatype Conn = Conn(stage: Stage, decoder: State, version: Option<Byte>)

  const NEW_CONN := Conn(PreConnection, State(Done, UNDEFINED, None, 0, 0, []), None)

  // What the outside answers when it is asked: the socket, the two services' futures, and
  // the queue that the connection shares with the tasks that deliver to it.
  datatype ReadResult = NothingNew | Got(bytes: Bytes) | ReadFailed

  datatype Answer<T> = NotYet | Answered(value: T) | Refused

  datatype Outside = Outside(
    read: ReadResult, connect: Answer<Connack>, service: Answer<seq<ControlPacket>>, queue: Queue)

  datatype Verdict = Waiting | Finished | Broken | Crashed

  // The service calls a poll makes: none, or one.
  datatype Call = ConnectCall(packet: ControlPacket) | ServiceCall(packet: ControlPacket)

  datatype Polled = Polled(conn: Conn, verdict: Verdict, call: Option<Call>, queue: Queue)

  // Every poll takes the stage out and leaves the default; only a poll that waits puts one back.
  function Lost(c: Conn): Conn {
    c.(stage := PreConnection)
  }

  /** Reads what is there, also when nothing new is, and polls the decoder once. */
  function ReadPacket(c: Conn, read: ReadResult): (Conn, PollResult) {
    if read.ReadFailed? || (read.Got? && read.bytes == []) then (c, Failed(Unexpected))
    else
      var (next, r) := Poll(Arrive(c.decoder, if read.Got? then read.bytes else []));
      (c.(decoder := next), r)
  }

  function Stop(c: Conn, r: PollResult, queue: Queue): Polled {
    Polled(Lost(c), if r.Panicked? then Crashed else Broken, None, queue)
  }

  function PollFirst(c: Conn, o: Outside): Polled {
    var (next, r) := ReadPacket(c, o.read);
    if r.Pending? then Polled(next, Waiting, None, o.queue)
    else if r.Ready? && r.packet.CONNECT? then
      var version := Some(r.packet.connect.protocolVersion);
      var conn := Conn(ProcessingConnect, next.decoder.(version := version), version);
      Polled(conn, Waiting, Some(ConnectCall(r.packet)), o.queue)
    else Stop(next, r, o.queue)
  }

  function PollReading(c: Conn, o: Outside): Polled {
    var (next, r) := ReadPacket(c, o.read);
    if r.Pending? then Polled(next, Waiting, None, o.queue)
    else if r.Ready? then Polled(next.(stage := ProcessingService), Waiting, Some(ServiceCall(r.packet)), o.queue)
    else Stop(next, r, o.queue)
  }

  /** Puts a reply's packets into the queue, up to a DISCONNECT; a full queue drops them. */
  function WriteAll(queue: Queue, packets: seq<ControlPacket>): (Queue, Verdict)
    decreases |packets|
  {
    if packets == [] then (queue, Waiting)
    else
      match packets[0]
      case DISCONNECT(_) => (queue, Finished)
      case NOOPERATION => WriteAll(queue, packets[1..])
      case packet =>
        var (next, result) := TrySend(queue, packet);
        if result == Closed then (queue, Broken) else WriteAll(next, packets[1..])
  }

  function ToConnack(c: Connack): ControlPacket {
    CONNACK(c.(reason := 0))
  }

  function PollConn(c: Conn, o: Outside): Polled {
    match c.stage
    case PreConnection => PollFirst(c, o)
    case ProcessingConnect =>
      (match o.connect
       case NotYet => Polled(c, Waiting, None, o.queue)
       case Answered(connack) => Polled(c.(stage := ResponseConnect(connack)), Waiting, None, o.queue)
       case Refused => Polled(Lost(c), Broken, None, o.queue))
    case ResponseConnect(connack) =>
      var (queue, result) := TrySend(o.queue, ToConnack(connack));
      if result == Closed then Polled(Lost(c), Broken, None, queue)
      else Polled(c.(stage := ReadingPacket), Waiting, None, queue)
    case ReadingPacket => PollReading(c, o)
    case ProcessingService =>
      (match o.service
       case NotYet => Polled(c, Waiting, None, o.queue)
       case Answered(packets) => Polled(c.(stage := WritingPacket(packets)), Waiting, None, o.queue)
       case Refused => Polled(Lost(c), Broken, None, o.queue))
    case WritingPacket(packets) =>
      var (queue, verdict) := WriteAll(o.queue, packets);
      if verdict == Waiting then Polled(c.(stage := ReadingPacket), Waiting, None, queue)
      else Polled(Lost(c), verdict, None, queue)
  }

  // ---------------------------------------------------------------- the connection object

  class Connection {
    var stage: Stage
    const decoder: Decoder
    var protocolVersion: Option<Byte>
    var queue: Queue

    ghost function Abstract(): Conn
      reads this, decoder
    {
      Conn(stage, decoder.Abstract(), protocolVersion)
    }

    constructor ()
      ensures Abstract() == NEW_CONN && queue == Queue([], true) && fresh(decoder)
    {
      stage, protocolVersion, queue := PreConnection, None, Queue([], true);
      decoder := new Decoder();
    }

    method Read(read: ReadResult) returns (r: PollResult)
      modifies decoder
      ensures (Abstract(), r) == ReadPacket(old(Abstract()), read)
    {
      hide Poll;
      if read.ReadFailed? || (read.Got? && read.bytes == []) {
        return Failed(Unexpected);
      }
      var bytes := if read.Got? then read.bytes else [];
      decoder.Append(bytes);
      r := decoder.PollDecode();
    }

    method Write(packets: seq<ControlPacket>) returns (verdict: Verdict)
      modifies this`queue
      ensures (queue, verdict) == WriteAll(old(queue), packets)
    {
      for i := 0 to |packets|
        invariant WriteAll(old(queue), packets) == WriteAll(queue, packets[i..])
      {
        assert packets[i..][1..] == packets[i + 1..];
        match packets[i] {
          case DISCONNECT(_) => return Finished;
          case NOOPERATION =>
          case packet =>
            var (next, result) := TrySend(queue, packet);
            if result == Closed {
              return Broken;
            }
            queue := next;
        }
      }
      return Waiting;
    }

    /** One poll; the outside answers what it is asked. */
    method PollOnce(read: ReadResult, connect: Answer<Connack>, service: Answer<seq<ControlPacket>>)
      returns (verdict: Verdict, call: Option<Call>)
      modifies this, decoder
      ensures Polled(Abstract(), verdict, call, queue)
           == PollConn(old(Abstract()), Outside(read, connect, service, old(queue)))
    {
      hide ReadPacket, WriteAll, TrySend;
      var taken := stage;
      stage := PreConnection;
      call := None;
      match taken {
        case PreConnection =>
          var r := Read(read);
          if r.Pending? {
            stage := PreConnection;
            return Waiting, None;
          } else if r.Ready? && r.packet.CONNECT? {
            protocolVersion := Some(r.packet.connect.protocolVersion);
            decoder.SetProtocolVersion(protocolVersion);
            call := Some(ConnectCall(r.packet));
            stage := ProcessingConnect;
          } else {
            return if r.Panicked? then Crashed else Broken, None;
          }
        case ProcessingConnect =>
          match connect {
            case NotYet => stage := ProcessingConnect;
            case Answered(connack) => stage := ResponseConnect(connack);
            case Refused => return Broken, None;
          }
        case ResponseConnect(connack) =>
          var (next, result) := TrySend(queue, ToConnack(connack));
          queue := next;
          if result == Closed {
            return Broken, None;
          }
          stage := ReadingPacket;
        case ReadingPacket =>
          ReadKeepsStage(Abstract(), taken, read);
          var r := Read(read);
          if r.Pending? {
            stage := ReadingPacket;
            return Waiting, None;
          } else if r.Ready? {
            call := Some(ServiceCall(r.packet));
            stage := ProcessingService;
          } else {
            return if r.Panicked? then Crashed else Broken, None;
          }
        case ProcessingService =>
          match service {
            case NotYet => stage := ProcessingService;
            case Answered(packets) => stage := WritingPacket(packets);
            case Refused => return Broken, None;
          }
        case WritingPacket(packets) =>
          verdict := Write(packets);
          if verdict != Waiting {
            return verdict, None;
          }
          stage := ReadingPacket;
      }
      verdict := Waiting;
    }
  }

  lemma ReadKeepsStage(c: Conn, stage: Stage, read: ReadResult)
    ensures ReadPacket(c.(stage := stage), read)
         == (ReadPacket(c, read).0.(stage := stage), ReadPacket(c, read).1)
  {
    hide Poll;
  }

  // A read ends the connection as crashed exactly after a panic, and as broken after an error
  // or a first packet that is no CONNECT.
  lemma ReadVerdict(c: Conn, o: Outside)
    requires c.stage.PreConnection? || c.stage.ReadingPacket?
    ensures var r, verdict := ReadPacket(c, o.read).1, PollConn(c, o).verdict;
            && (verdict == Crashed <==> r.Panicked?)
            && (verdict == Broken <==> r.Failed? || (c.stage.PreConnection? && r.Ready? && !r.packet.CONNECT?))
            && (verdict == Waiting <==> r.Pending? || (r.Ready? && (c.stage.PreConnection? ==> r.packet.CONNECT?)))
  {
    hide Poll;
  }

  // ---------------------------------------------------------------- what is queued

  /** The packets of a reply that are for the queue: those before a DISCONNECT, without NOOPERATION. */
  function ForQueue(packets: seq<ControlPacket>): seq<ControlPacket> {
    if packets == [] || packets[0].DISCONNECT? then []
    else (if packets[0] == NOOPERATION then [] else [packets[0]]) + ForQueue(packets[1..])
  }

  predicate EndsIt(packets: seq<ControlPacket>) {
    exists i :: 0 <= i < |packets| && packets[i].DISCONNECT?
  }

  /** A reply is queued in order; what a full queue drops is its last packets, never earlier ones. */
  lemma {:induction false} WriteAllIsOffered(queue: Queue, packets: seq<ControlPacket>)
    ensures WriteAll(queue, packets)
         == (Offered(queue, ForQueue(packets)),
             if !queue.open && ForQueue(packets) != [] then Broken else if EndsIt(packets) then Finished else Waiting)
    decreases |packets|
  {
    hide TrySend, Offered;
    if packets == [] {
      OfferNothing(map[0 := queue], 0);
    } else {
      EndsItHead(packets);
      match packets[0]
      case DISCONNECT(_) =>
        OfferNothing(map[0 := queue], 0);
      case NOOPERATION =>
        assert [] + ForQueue(packets[1..]) == ForQueue(packets[1..]);
        WriteAllIsOffered(queue, packets[1..]);
      case packet =>
        TrySendOpen(queue, packet, ForQueue(packets[1..]));
        if queue.open {
          OfferOne(queue, packet, ForQueue(packets[1..]));
          WriteAllIsOffered(TrySend(queue, packet).0, packets[1..]);
        }
    }
  }

  lemma TrySendOpen(queue: Queue, packet: ControlPacket, rest: seq<ControlPacket>)
    ensures queue.open ==> TrySend(queue, packet).0.open && TrySend(queue, packet).1 != Closed
    ensures !queue.open ==> TrySend(queue, packet).1 == Closed && Offered(queue, [packet] + rest) == queue
  {
  }

  lemma EndsItHead(packets: seq<ControlPacket>)
    requires packets != []
    ensures EndsIt(packets) <==> packets[0].DISCONNECT? || EndsIt(packets[1..])
  {
    if i :| 0 <= i < |packets[1..]| && packets[1..][i].DISCONNECT? {
      assert packets[i + 1].DISCONNECT?;
    }
    if i :| 0 < i < |packets| && packets[i].DISCONNECT? {
      assert packets[1..][i - 1].DISCONNECT?;
    }
  }

  // ---------------------------------------------------------------- whole runs

  // A connection's polls: all of them wait, up to the last state.
  datatype ConnRun = ConnRun(states: seq<Conn>, outsides: seq<Outside>)

  ghost predicate PollsAt(r: ConnRun, i: nat)
    requires i < |r.outsides| && |r.states| == |r.outsides| + 1
  {
    var polled := PollConn(r.states[i], r.outsides[i]);
    polled.verdict == Waiting && polled.conn == r.states[i + 1]
  }

  ghost predicate IsConnRun(r: ConnRun) {
    && |r.states| == |r.outsides| + 1
    && r.states[0] == NEW_CONN
    && forall i :: 0 <= i < |r.outsides| ==> PollsAt(r, i)
  }

  /** The service calls of the first `n` polls. */
  ghost function Calls(r: ConnRun, n: nat): seq<Call>
    requires IsConnRun(r) && n <= |r.outsides|
  {
    if n == 0 then []
    else
      var call := PollConn(r.states[n - 1], r.outsides[n - 1]).call;
      Calls(r, n - 1) + if call.Some? then [call.value] else []
  }

  // The reply that an answered call leaves to be queued.
  function ReplyOf(c: Conn, o: Outside): seq<seq<ControlPacket>> {
    if c.stage.ProcessingConnect? && o.connect.Answered? then [[ToConnack(o.connect.value)]]
    else if c.stage.ProcessingService? && o.service.Answered? then [o.service.value]
    else []
  }

  /** The replies that the services gave in the first `n` polls. */
  ghost function Replies(r: ConnRun, n: nat): seq<seq<ControlPacket>>
    requires IsConnRun(r) && n <= |r.outsides|
  {
    if n == 0 then [] else Replies(r, n - 1) + ReplyOf(r.states[n - 1], r.outsides[n - 1])
  }

  // The reply that a poll in this stage writes.
  function Unwritten(c: Conn): seq<seq<ControlPacket>> {
    match c.stage
    case ResponseConnect(connack) => [[ToConnack(connack)]]
    case WritingPacket(packets) => [packets]
    case _ => []
  }

  /** The replies that were written to the queue in the first `n` polls. */
  ghost function Written(r: ConnRun, n: nat): seq<seq<ControlPacket>>
    requires IsConnRun(r) && n <= |r.outsides|
  {
    if n == 0 then [] else Written(r, n - 1) + Unwritten(r.states[n - 1])
  }

  predicate Processing(c: Conn) {
    c.stage.ProcessingConnect? || c.stage.ProcessingService?
  }

  predicate AllServices(calls: seq<Call>) {
    forall i :: 0 <= i < |calls| ==> calls[i].ServiceCall?
  }

  predicate ConnectFirst(calls: seq<Call>) {
    calls == [] || (calls[0].ConnectCall? && calls[0].packet.CONNECT? && AllServices(calls[1..]))
  }

  // What holds after every poll that waits.
  ghost predicate ConnInv(c: Conn, calls: seq<Call>) {
    && ConnectFirst(calls)
    && (c.stage.PreConnection? <==> calls == [])
    && c.decoder.version == c.version
    && (c.version.Some? <==> calls != [])
    && (calls != [] ==> c.version == Some(calls[0].packet.connect.protocolVersion))
    && (c.stage.ProcessingConnect? || c.stage.ResponseConnect? ==> |calls| == 1)
  }

  lemma ConnectFirstSnoc(calls: seq<Call>, call: Call)
    requires ConnectFirst(calls)
    requires if calls == [] then call.ConnectCall? && call.packet.CONNECT? else call.ServiceCall?
    ensures ConnectFirst(calls + [call])
  {
    if calls != [] {
      assert (calls + [call])[1..] == calls[1..] + [call];
    }
  }

  lemma PollKeepsInv(c: Conn, o: Outside, calls: seq<Call>)
    requires ConnInv(c, calls) && PollConn(c, o).verdict == Waiting
    ensures var p := PollConn(c, o);
            ConnInv(p.conn, calls + if p.call.Some? then [p.call.value] else [])
  {
    hide Poll, WriteAll, TrySend;
    if c.stage.PreConnection? || c.stage.ReadingPacket? {
      PollKeepsVersion(Arrive(c.decoder, if o.read.Got? then o.read.bytes else []));
    }
    var p := PollConn(c, o);
    assert calls + [] == calls;
    if p.call.Some? {
      ConnectFirstSnoc(calls, p.call.value);
    }
    hide ConnectFirst;
  }

  /**
   * The connect service is called first, with a CONNECT, and never again; from then on
   * the decoder has the protocol version of that CONNECT, and the connection never
   * falls back to the stage before it.
   */
  lemma {:induction false} ConnectServiceFirst(r: ConnRun, n: nat)
    requires IsConnRun(r) && n <= |r.outsides|
    ensures ConnInv(r.states[n], Calls(r, n))
    decreases n
  {
    hide PollConn, ConnInv;
    if n == 0 {
      NoCallsYet();
    } else {
      ConnectServiceFirst(r, n - 1);
      assert PollsAt(r, n - 1);
      PollKeepsInv(r.states[n - 1], r.outsides[n - 1], Calls(r, n - 1));
    }
  }

  lemma NoCallsYet()
    ensures ConnInv(NEW_CONN, [])
  {
  }

  function Count(b: bool): nat {
    if b then 1 else 0
  }

  lemma PollAnswers(c: Conn, o: Outside)
    requires PollConn(c, o).verdict == Waiting
    ensures var p := PollConn(c, o);
            && Count(Processing(c)) + Count(p.call.Some?) == |ReplyOf(c, o)| + Count(Processing(p.conn))
            && Unwritten(c) + ReplyOf(c, o) == Unwritten(c) + Unwritten(p.conn)
            && (Unwritten(p.conn) == [] || Unwritten(c) == [])
  {
    hide Poll, WriteAll, TrySend;
  }

  /**
   * One packet at a time: there is never more than one call without its reply, and the
   * replies are written in the order they were given, each once, before the next packet
   * is read.
   */
  lemma {:induction false} RepliesInOrder(r: ConnRun, n: nat)
    requires IsConnRun(r) && n <= |r.outsides|
    ensures |Calls(r, n)| == |Replies(r, n)| + Count(Processing(r.states[n]))
    ensures Replies(r, n) == Written(r, n) + Unwritten(r.states[n])
    decreases n
  {
    hide PollConn, Processing, ReplyOf, Unwritten;
    if n == 0 {
      NothingUnwritten();
    } else {
      RepliesInOrder(r, n - 1);
      assert PollsAt(r, n - 1);
      var c, o, next := r.states[n - 1], r.outsides[n - 1], r.states[n];
      PollAnswers(c, o);
      assert (Written(r, n - 1) + Unwritten(c)) + ReplyOf(c, o) == Written(r, n - 1) + (Unwritten(c) + ReplyOf(c, o));
      assert (Written(r, n - 1) + Unwritten(c)) + Unwritten(next)
          == Written(r, n - 1) + (Unwritten(c) + Unwritten(next));
    }
  }

  lemma NothingUnwritten()
    ensures Unwritten(NEW_CONN) == [] && !Processing(NEW_CONN)
  {
  }

  /** Writing a reply queues its packets in order as far as there is room; no other poll touches the queue. */
  lemma PollQueues(c: Conn, o: Outside)
    requires PollConn(c, o).verdict == Waiting
    ensures PollConn(c, o).queue
         == if Unwritten(c) == [] then o.queue else Offered(o.queue, ForQueue(Unwritten(c)[0]))
  {
    hide Poll, TrySend, WriteAll;
    match c.stage
    case ResponseConnect(connack) =>
      hide Offered;
      ConnackIsOffered(o.queue, ToConnack(connack));
    case WritingPacket(packets) =>
      WriteAllIsOffered(o.queue, packets);
      hide ForQueue;
    case _ =>
  }

  lemma ConnackIsOffered(queue: Queue, packet: ControlPacket)
    requires packet.CONNACK?
    ensures ForQueue([packet]) == [packet]
    ensures TrySend(queue, packet).0 == Offered(queue, [packet])
  {
    assert [packet][1..] == [];
    assert ForQueue([]) == [];
    OfferOne(queue, packet, []);
    assert [packet] + [] == [packet];
    OfferNothing(map[0 := TrySend(queue, packet).0], 0);
  }

  /** What the connection itself put into its queue in the first `n` polls. */
  ghost function Own(r: ConnRun, n: nat): seq<ControlPacket>
    requires IsConnRun(r) && n <= |r.outsides|
  {
    if n == 0 then []
    else
      var before, after := r.outsides[n - 1].queue.items, PollConn(r.states[n - 1], r.outsides[n - 1]).queue.items;
      Own(r, n - 1) + if |before| <= |after| then after[|before|..] else []
  }

  /** Of each reply written in the first `n` polls, the packets that fitted, in order. */
  ghost function Fitted(r: ConnRun, n: nat): seq<ControlPacket>
    requires IsConnRun(r) && n <= |r.outsides|
  {
    if n == 0 then []
    else
      var c, o := r.states[n - 1], r.outsides[n - 1];
      Fitted(r, n - 1) + if Unwritten(c) == [] then [] else Fitting(o.queue, ForQueue(Unwritten(c)[0]))
  }

  lemma PollAdds(c: Conn, o: Outside)
    requires PollConn(c, o).verdict == Waiting
    ensures PollConn(c, o).queue.items
         == o.queue.items + if Unwritten(c) == [] then [] else Fitting(o.queue, ForQueue(Unwritten(c)[0]))
  {
    PollQueues(c, o);
    hide PollConn, ForQueue, Unwritten, Fitting;
    assert o.queue.items + [] == o.queue.items;
  }

  /**
   * What the connection puts into its queue, over any run: the packets of its replies, in
   * the order of the requests, less the last ones of a reply where the queue was full or
   * closed.
   */
  lemma {:induction false} OwnIsFitted(r: ConnRun, n: nat)
    requires IsConnRun(r) && n <= |r.outsides|
    ensures Own(r, n) == Fitted(r, n)
    decreases n
  {
    hide PollConn, Unwritten, ForQueue, Fitting;
    if n > 0 {
      OwnIsFitted(r, n - 1);
      assert PollsAt(r, n - 1);
      PollAdds(r.states[n - 1], r.outsides[n - 1]);
    }
  }

  function AllForQueue(replies: seq<seq<ControlPacket>>): seq<ControlPacket> {
    if replies == [] then []
    else AllForQueue(replies[..|replies| - 1]) + ForQueue(replies[|replies| - 1])
  }

  // The queue has room for the reply that the poll writes, if it writes one.
  predicate HasRoom(c: Conn, o: Outside) {
    Unwritten(c) != [] ==> o.queue.open && |o.queue.items| + |ForQueue(Unwritten(c)[0])| <= CHANNEL_CAPACITY
  }

  lemma AllForQueueSnoc(replies: seq<seq<ControlPacket>>, more: seq<seq<ControlPacket>>)
    requires |more| <= 1
    ensures AllForQueue(replies + more) == AllForQueue(replies) + if more == [] then [] else ForQueue(more[0])
  {
    if more == [] {
      assert replies + more == replies;
    } else {
      assert (replies + more)[..|replies|] == replies;
    }
  }

  lemma RoomFitsAll(queue: Queue, packets: seq<ControlPacket>)
    requires queue.open && |queue.items| + |packets| <= CHANNEL_CAPACITY
    ensures Fitting(queue, packets) == packets
  {
    assert packets[..|packets|] == packets;
  }

  lemma UnwrittenAtMostOne(c: Conn)
    ensures |Unwritten(c)| <= 1
  {
  }

  lemma {:induction false} RoomForAll(r: ConnRun, n: nat)
    requires IsConnRun(r) && n <= |r.outsides|
    requires forall i :: 0 <= i < n ==> HasRoom(r.states[i], r.outsides[i])
    ensures Fitted(r, n) == AllForQueue(Written(r, n))
    decreases n
  {
    hide PollConn, Unwritten, ForQueue, AllForQueue, Fitting;
    if n == 0 {
      NoRepliesNoPackets();
    } else {
      RoomForAll(r, n - 1);
      var c, o := r.states[n - 1], r.outsides[n - 1];
      assert HasRoom(c, o);
      UnwrittenAtMostOne(c);
      AllForQueueSnoc(Written(r, n - 1), Unwritten(c));
      if Unwritten(c) != [] {
        RoomFitsAll(o.queue, ForQueue(Unwritten(c)[0]));
      }
    }
  }

  lemma NoRepliesNoPackets()
    ensures AllForQueue([]) == []
  {
  }

  /** In particular, as long as no write finds the queue full, every reply is queued whole. */
  lemma OwnPacketsInOrder(r: ConnRun, n: nat)
    requires IsConnRun(r) && n <= |r.outsides|
    requires forall i :: 0 <= i < n ==> HasRoom(r.states[i], r.outsides[i])
    ensures Own(r, n) == AllForQueue(Written(r, n))
  {
    hide HasRoom, Own, Fitted, Written, AllForQueue;
    OwnIsFitted(r, n);
    RoomForAll(r, n);
  }

  predicate Early(c: Conn) {
    c.stage.PreConnection? || c.stage.ProcessingConnect? || c.stage.ResponseConnect?
  }

  lemma EarlyPolls(c: Conn, o: Outside)
    requires PollConn(c, o).verdict == Waiting
    ensures Early(PollConn(c, o).conn) <==> Early(c) && Unwritten(c) == []
    ensures Early(c) && Unwritten(c) != [] ==>
              |Unwritten(c)[0]| == 1 && Unwritten(c)[0][0].CONNACK? && Unwritten(c)[0][0].connack.reason == 0
  {
    hide Poll, WriteAll, TrySend;
  }

  /** The first reply that is written is the CONNACK, of success whatever the service answered. */
  lemma {:induction false} ConnackFirst(r: ConnRun, n: nat)
    requires IsConnRun(r) && n <= |r.outsides|
    ensures Early(r.states[n]) <==> Written(r, n) == []
    ensures Written(r, n) != [] ==>
              |Written(r, n)[0]| == 1 && Written(r, n)[0][0].CONNACK? && Written(r, n)[0][0].connack.reason == 0
    decreases n
  {
    hide PollConn, Unwritten, Early;
    if n == 0 {
      assert Early(NEW_CONN) by {
        NewIsEarly();
      }
    } else {
      ConnackFirst(r, n - 1);
      assert PollsAt(r, n - 1);
      EarlyPolls(r.states[n - 1], r.outsides[n - 1]);
    }
  }

  lemma NewIsEarly()
    ensures Early(NEW_CONN)
  {
  }

  // ---------------------------------------------------------------- what is served

  // The bytes that a poll reads, if it reads.
  function Chunk(c: Conn, o: Outside): seq<Bytes> {
    if c.stage.ReadingPacket? then [if o.read.Got? then o.read.bytes else []] else []
  }

  /** What was read from poll `a` to poll `n`. */
  ghost function Chunks(r: ConnRun, a: nat, n: nat): seq<Bytes>
    requires IsConnRun(r) && a <= n <= |r.outsides|
  {
    if a == n then [] else Chunks(r, a, n - 1) + Chunk(r.states[n - 1], r.outsides[n - 1])
  }

  /** The packets that the services were called with from poll `a` to poll `n`. */
  ghost function ServedPackets(r: ConnRun, a: nat, n: nat): seq<ControlPacket>
    requires IsConnRun(r) && a <= n <= |r.outsides|
  {
    if a == n then []
    else
      var call := PollConn(r.states[n - 1], r.outsides[n - 1]).call;
      ServedPackets(r, a, n - 1) + if call.Some? then [call.value.packet] else []
  }

  lemma PollServes(c: Conn, o: Outside)
    requires PollConn(c, o).verdict == Waiting && !c.stage.PreConnection?
    ensures var p := PollConn(c, o);
            && !p.conn.stage.PreConnection?
            && if Chunk(c, o) == [] then p.conn.decoder == c.decoder && p.call.None?
               else
                 var (next, result) := Poll(Arrive(c.decoder, Chunk(c, o)[0]));
                 && |Chunk(c, o)| == 1 && p.conn.decoder == next && result.Good()
                 && Emitted(result) == if p.call.Some? then [p.call.value.packet] else []
  {
    hide Poll, WriteAll, TrySend;
  }

  /** The packets served are those the decoder emits for the bytes read, poll by poll. */
  lemma {:induction false} ServedAreDecoded(r: ConnRun, a: nat, n: nat)
    requires IsConnRun(r) && a <= n <= |r.outsides| && !r.states[a].stage.PreConnection?
    ensures !r.states[n].stage.PreConnection?
    ensures Run(r.states[a].decoder, Chunks(r, a, n)) == Trace(ServedPackets(r, a, n), r.states[n].decoder, true)
    decreases n
  {
    hide PollConn, Poll, Chunk, Run, Emitted;
    if a == n {
      RunNothing(r.states[a].decoder);
    } else {
      ServedAreDecoded(r, a, n - 1);
      assert PollsAt(r, n - 1);
      var c, o := r.states[n - 1], r.outsides[n - 1];
      PollServes(c, o);
      if Chunk(c, o) == [] {
        assert Chunks(r, a, n) == Chunks(r, a, n - 1);
        assert ServedPackets(r, a, n) == ServedPackets(r, a, n - 1);
      } else {
        RunSnoc(r.states[a].decoder, Chunks(r, a, n - 1), Chunk(c, o)[0]);
        assert Chunk(c, o) == [Chunk(c, o)[0]];
      }
    }
  }

  lemma RunNothing(st: State)
    ensures Run(st, []) == Trace([], st, true)
  {
  }

  /**
   * A client that sends any frames, in any chunks, is served exactly their packets, in
   * order, less the last one's if that is starved: as long as the connection runs, what has
   * been served, and what the decoder still emits from the bytes it has, make up the list.
   */
  lemma ServesTheStream(r: ConnRun, a: nat, n: nat, frames: seq<Bytes>, before: Bytes)
    requires IsConnRun(r) && a <= n <= |r.outsides| && !r.states[a].stage.PreConnection?
    requires var st := r.states[a].decoder; AllExact(frames, st.version) && Settled(st, st.version, before)
    requires before + Flat(Chunks(r, a, n)) == Flat(frames)
    ensures ServedPackets(r, a, n) + Drain(r.states[n].decoder).packets
         == Expected(frames, r.states[a].decoder.version)
  {
    hide Run, PollConn, Drain, AllExact, Expected, Settled;
    ServedAreDecoded(r, a, n);
    FramesInAnyChunks(frames, r.states[a].decoder, before, Chunks(r, a, n));
  }

  // ---------------------------------------------------------------- from the first byte

  function BytesRead(o: Outside): Bytes {
    if o.read.Got? then o.read.bytes else []
  }

  /** What the first `n` polls read, when they all come before CONNECT. */
  ghost function FirstChunks(r: ConnRun, n: nat): seq<Bytes>
    requires IsConnRun(r) && n <= |r.outsides|
  {
    if n == 0 then [] else FirstChunks(r, n - 1) + [BytesRead(r.outsides[n - 1])]
  }

  lemma PollFirstDecodes(c: Conn, o: Outside)
    requires c.stage.PreConnection? && PollConn(c, o).verdict == Waiting
    ensures var p := PollConn(c, o);
            var (next, result) := Poll(Arrive(c.decoder, BytesRead(o)));
            if p.conn.stage.PreConnection? then
              result == Pending && p.conn.decoder == next && p.call.None?
            else
              && result.Ready? && result.packet.CONNECT? && p.call == Some(ConnectCall(result.packet))
              && p.conn.version == Some(result.packet.connect.protocolVersion)
              && p.conn.decoder == next.(version := p.conn.version)
  {
    hide Poll;
  }

  lemma {:induction false} BeforeConnect(r: ConnRun, n: nat)
    requires IsConnRun(r) && n <= |r.outsides| && r.states[n].stage.PreConnection?
    ensures Run(NEW_CONN.decoder, FirstChunks(r, n)) == Trace([], r.states[n].decoder, true)
    ensures Calls(r, n) == []
    decreases n
  {
    hide PollConn, Poll, Run, Emitted;
    if n == 0 {
      RunNothing(NEW_CONN.decoder);
    } else {
      assert PollsAt(r, n - 1);
      var c, o := r.states[n - 1], r.outsides[n - 1];
      if !c.stage.PreConnection? {
        PollServes(c, o);
      }
      BeforeConnect(r, n - 1);
      PollFirstDecodes(c, o);
      RunSnoc(NEW_CONN.decoder, FirstChunks(r, n - 1), BytesRead(o));
      PendingEmitsNothing();
    }
  }

  lemma PendingEmitsNothing()
    ensures Emitted(Pending) == []
  {
  }

  lemma ConnectIsFirst(r: ConnRun, a: nat, hello: Bytes, rest: Bytes, later: Bytes)
    requires IsConnRun(r) && a < |r.outsides|
    requires r.states[a].stage.PreConnection? && !r.states[a + 1].stage.PreConnection?
    requires ExactFrame(hello, None) && Frame(hello, None).value.CONNECT?
    requires Flat(FirstChunks(r, a + 1)) + later == hello + rest
    ensures var connect := Frame(hello, None).value;
            var v := Some(connect.connect.protocolVersion);
            && Calls(r, a + 1) == [ConnectCall(connect)]
            && Settled(r.states[a + 1].decoder, v, r.states[a + 1].decoder.buf)
            && r.states[a + 1].decoder.buf + later == rest
  {
    hide PollConn, Poll, Run, Emitted, Frame, NeverStarved, UntilPacket;
    var st, chunks := NEW_CONN.decoder, FirstChunks(r, a + 1);
    var c, o := r.states[a], r.outsides[a];
    assert PollsAt(r, a);
    BeforeConnect(r, a);
    PollFirstDecodes(c, o);
    RunSnoc(st, FirstChunks(r, a), BytesRead(o));
    var (next, result) := Poll(Arrive(c.decoder, BytesRead(o)));
    ReadyEmits(result);
    assert chunks[..|chunks| - 1] == FirstChunks(r, a);
    RunUntilPacket(st, chunks, later);
    ConnectIsFed(hello, None);
    NeverStarvedBefore(hello, None, rest);
    var full := Arrive(st, Flat(chunks) + later);
    assert full.buf == hello + rest;
    var after := FrameUntilPacket(full);
    assert (hello + rest)[|hello|..] == rest;
    assert Arrive(next, later) == after;
  }

  lemma ReadyEmits(result: PollResult)
    requires result.Ready?
    ensures Emitted(result) == [result.packet]
  {
  }

  /**
   * From the first byte. A client that sends a CONNECT frame and then any frames of the
   * version it names, in any chunks, has the connect service called with that CONNECT and
   * the service with exactly the packets of its frames, in order, as far as they have been
   * decoded; all of them but the last if that is starved.
   */
  lemma WholeSession(r: ConnRun, a: nat, n: nat, hello: Bytes, frames: seq<Bytes>)
    requires IsConnRun(r) && a < n <= |r.outsides|
    requires r.states[a].stage.PreConnection? && !r.states[a + 1].stage.PreConnection?
    requires ExactFrame(hello, None) && Frame(hello, None).value.CONNECT?
    requires AllExact(frames, Some(Frame(hello, None).value.connect.protocolVersion))
    requires Flat(FirstChunks(r, a + 1)) + Flat(Chunks(r, a + 1, n)) == hello + Flat(frames)
    ensures Calls(r, a + 1) == [ConnectCall(Frame(hello, None).value)]
    ensures ServedPackets(r, a + 1, n) + Drain(r.states[n].decoder).packets
         == Expected(frames, Some(Frame(hello, None).value.connect.protocolVersion))
  {
    hide PollConn, Drain, AllExact, ExactFrame, Expected, Frame;
    ConnectIsFirst(r, a, hello, Flat(frames), Flat(Chunks(r, a + 1, n)));
    ServesTheStream(r, a + 1, n, frames, r.states[a + 1].decoder.buf);
  }

  /**
   * A session that is closed as clients do it. The two-byte DISCONNECT that ends it is not
   * served: the service is called for the frames before it, and for nothing else.
   */
  lemma ClosingDisconnectIsNotServed(r: ConnRun, a: nat, n: nat, hello: Bytes, frames: seq<Bytes>)
    requires IsConnRun(r) && a < n <= |r.outsides|
    requires r.states[a].stage.PreConnection? && !r.states[a + 1].stage.PreConnection?
    requires ExactFrame(hello, None) && Frame(hello, None).value.CONNECT?
    requires AllExact(frames, Some(Frame(hello, None).value.connect.protocolVersion))
    requires Flat(FirstChunks(r, a + 1)) + Flat(Chunks(r, a + 1, n)) == hello + (Flat(frames) + BARE_DISCONNECT)
    ensures ServedPackets(r, a + 1, n) + Drain(r.states[n].decoder).packets
         == PacketsOf(frames, Some(Frame(hello, None).value.connect.protocolVersion))
  {
    var v := Some(Frame(hello, None).value.connect.protocolVersion);
    hide PollConn, Drain, ExactFrame, Frame, PacketsOf;
    BareDisconnectWaits(v);
    FlatSnoc(frames, BARE_DISCONNECT);
    var all := frames + [BARE_DISCONNECT];
    assert AllExact(all, v);
    assert all[..|frames|] == frames && all[|frames|] == BARE_DISCONNECT;
    WholeSession(r, a, n, hello, all);
  }
}
