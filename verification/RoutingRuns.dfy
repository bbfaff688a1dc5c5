// Routing by client identifier over whole runs, through takeovers and disconnects.
module RoutingRuns {
  import opened Wire
  import opened Packets
  import opened Retain
  import opened Sessions
  import opened BrokerSteps
  import opened BrokerRuns
  import opened History
  import opened BrokerTraces

  /**
   * The events that touch client identifier `m`: an accepted CONNECT routes it to its
   * connection, taking it over from any other; a DISCONNECT of any connection that
   * connected under it, even one that lost it, takes the route away.
   */
  ghost function RouteMark(s: System, e: Event, m: Bytes): Mark<ConnId>
    requires Legal(s, e)
  {
    match e
    case Connects(conn, packet) =>
      if packet.CONNECT? && Served(packet.connect) && packet.connect.clientId == m then Put(conn) else Quiet
    case Handles(conn, packet, orders) =>
      if packet.DISCONNECT? && NameOf(s.broker, conn) == m && m != [] then Drop else Quiet
    case _ => Quiet
  }

  lemma HandledRoutes(b: Broker, conn: ConnId, packet: ControlPacket, orders: seq<seq<Bytes>>)
    requires packet.SUBSCRIBE? ==> |orders| == |packet.subscribe.filters|
    ensures Handled(b, conn, packet, orders).0.connOf
         == if packet.DISCONNECT? && NameOf(b, conn) != [] then b.connOf - {NameOf(b, conn)} else b.connOf
  {
    HandledConns(b, conn, packet, orders);
    if packet.DISCONNECT? {
      hide NameOf, WithoutConnOf;
      if NameOf(b, conn) == [] {
      } else {
      }
    } else {
      hide Handled;
    }
  }

  lemma StepRoutes(s: System, e: Event, m: Bytes)
    requires Legal(s, e)
    ensures Lookup(Step(s, e).broker.connOf, m) == Marked(Lookup(s.broker.connOf, m), RouteMark(s, e, m))
  {
    match e
    case Handles(conn, packet, orders) =>
      StepMessages(s, e);
      HandledRoutes(s.broker, conn, packet, orders);
      hide Handled, Step, Incoming, EachEnumerates, NameOf;
    case Connects(conn, packet) => ConnectRoutes(s, e, m);
    case Enqueues(conn) =>
      EnqueuedKeeps(s, conn);
      hide Enqueued;
    case Runs(_, _, _) =>
      hide SendAll, Messages, Recipients;
    case _ =>
  }

  lemma ConnectRoutes(s: System, e: Event, m: Bytes)
    requires Legal(s, e) && e.Connects?
    ensures Lookup(Step(s, e).broker.connOf, m) == Marked(Lookup(s.broker.connOf, m), RouteMark(s, e, m))
  {
    hide Served;
    if e.packet.CONNECT? && Served(e.packet.connect) {
    } else {
    }
  }

  ghost function RouteMarks(r: Run, m: Bytes): (marks: seq<Mark<ConnId>>)
    requires IsRun(r)
    ensures |marks| == |r.events|
  {
    seq(|r.events|, i requires 0 <= i < |r.events| => assert StepAt(r, i); RouteMark(r.states[i], r.events[i], m))
  }

  lemma {:induction false} RouteIsHeld(r: Run, m: Bytes, n: nat)
    requires IsRun(r) && n <= |r.events|
    ensures Lookup(r.states[n].broker.connOf, m) == Held(RouteMarks(r, m)[..n])
    decreases n
  {
    hide Step, Legal, RouteMark, Held;
    var marks := RouteMarks(r, m);
    if n == 0 {
      HeldNothing<ConnId>();
    } else {
      RouteIsHeld(r, m, n - 1);
      assert StepAt(r, n - 1);
      StepRoutes(r.states[n - 1], r.events[n - 1], m);
      assert marks[..n] == marks[..n - 1] + [marks[n - 1]];
      HeldTurn(marks[..n - 1], marks[n - 1]);
    }
  }

  /**
   * Routing always reaches the connection that registered last under the identifier, as
   * long as no connection of that identifier disconnected since; and no connection is
   * reached under two identifiers.
   */
  lemma RoutingReachesLatest(r: Run, m: Bytes, n: nat, conn: ConnId)
    requires IsRun(r) && n <= |r.events|
    ensures Lookup(r.states[n].broker.connOf, m) == Some(conn)
        <==> exists i: nat :: StillThere(RouteMarks(r, m), i, n) && RouteMarks(r, m)[i].value == conn
    ensures Lookup(r.states[n].broker.connOf, m) == Some(conn) ==>
              && Lookup(r.states[n].broker.idOf, conn) == Some(m)
              && forall l :: Lookup(r.states[n].broker.connOf, l) == Some(conn) ==> l == m
  {
    hide Legal, RouteMark, Held, Step;
    var marks := RouteMarks(r, m);
    RouteIsHeld(r, m, n);
    HeldAtIff(marks, n, conn);
    RunInv(r, n);
    hide StagedOk, RetainedOk, TasksOk, QueuesOk, WritingOk, VersionsOk;
  }

  /**
   * A connection that lost its identifier to a newer one still takes the route away when
   * it disconnects, so the newer connection is no longer reached.
   */
  lemma OvertakenDisconnectUnroutes(b: Broker, older: ConnId, newer: ConnId, hello: Connect, again: Connect)
    requires older != newer && Served(hello) && Served(again) && hello.clientId == again.clientId != []
    ensures var b1 := OnConnect(b, older, CONNECT(hello)).0;
            var b2 := OnConnect(b1, newer, CONNECT(again)).0;
            var b3 := OnDisconnect(b2, older).0;
            && Lookup(b2.connOf, hello.clientId) == Some(newer)
            && Lookup(b3.connOf, hello.clientId) == None
  {
    hide Served;
    var b1 := OnConnect(b, older, CONNECT(hello)).0;
    var b2 := OnConnect(b1, newer, CONNECT(again)).0;
    assert NameOf(b2, older) == hello.clientId;
  }
}
