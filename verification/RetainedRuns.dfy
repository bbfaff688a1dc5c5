// Retained messages over whole runs.
module RetainedRuns {
  import opened Wire
  import opened Packets
  import opened Retain
  import opened Sessions
  import opened BrokerSteps
  import opened BrokerRuns
  import opened History
  import opened BrokerTraces

  /**
   * The events that touch topic `t` in the retain store: releasing a staged message that
   * is to be retained, or running its delivery, stores it; an empty retained PUBLISH
   * clears the topic.
   */
  ghost function RetainMark(s: System, e: Event, t: Bytes): Mark<Publish>
    requires Legal(s, e)
  {
    match e
    case Handles(conn, packet, orders) =>
      (match packet
       case PUBLISH(p) => if p.retain && p.topic == t && p.payloadLength == 0 then Drop else Quiet
       case PUBREL(a) =>
         if a.packetId in s.broker.staged then KeptMark(s.broker.staged[a.packetId], t) else Quiet
       case _ => Quiet)
    case Runs(i, order, randoms) =>
      if s.broker.tasks[i].Delivery? then KeptMark(s.broker.tasks[i].publish, t) else Quiet
    case _ => Quiet
  }

  function KeptMark(p: Publish, t: Bytes): Mark<Publish> {
    if p.retain && p.topic == t then Put(p) else Quiet
  }

  lemma KeptIsMarked(retained: Retained, p: Publish, t: Bytes)
    ensures Lookup(Kept(retained, p), t) == Marked(Lookup(retained, t), KeptMark(p, t))
  {
  }

  lemma DispatchedRetains(b: Broker, p: Publish)
    ensures Dispatched(b, p).retained == if p.payloadLength == 0 then Cleared(b.retained, p) else b.retained
  {
    if p.payloadLength == 0 {
    } else {
    }
  }

  lemma PublishRetains(b: Broker, conn: ConnId, p: Publish, t: Bytes)
    requires Incoming(PUBLISH(p))
    ensures Lookup(OnPublish(b, conn, p).0.retained, t)
         == Marked(Lookup(b.retained, t), if p.retain && p.topic == t && p.payloadLength == 0 then Drop else Quiet)
  {
    DispatchedRetains(b, p.(version := VersionOf(b, conn)));
    hide VersionOf, TypedPublish, Sessions.Staged, Dispatched;
    if p.qos != QoS2 {
    } else if p.payloadLength == 0 {
    } else {
    }
  }

  lemma StepRetains(s: System, e: Event, t: Bytes)
    requires Inv(s) && Legal(s, e)
    ensures Lookup(Step(s, e).broker.retained, t) == Marked(Lookup(s.broker.retained, t), RetainMark(s, e, t))
  {
    StepMessages(s, e);
    match e
    case Handles(conn, packet, orders) => HandledRetains(s, e, t);
    case Runs(i, order, randoms) =>
      RanTasks(s.broker, i, order, randoms);
      KeptIsMarked(s.broker.retained, s.broker.tasks[i].publish, t);
      hide Ran, Kept, KeptMark, Inv, Step;
    case _ => hide Inv, Step;
  }

  lemma HandledRetains(s: System, e: Event, t: Bytes)
    requires Inv(s) && Legal(s, e) && e.Handles?
    ensures Lookup(Handled(s.broker, e.conn, e.packet, e.orders).0.retained, t)
         == Marked(Lookup(s.broker.retained, t), RetainMark(s, e, t))
  {
    hide OnPublish, OnPubrel, OnSubscribe, OnDisconnect, VersionOf, Kept, KeptMark, StagedOk, RetainedOk, TasksOk,
      QueuesOk, ConnsOk, VersionsOk, WritingOk, EachEnumerates;
    match e.packet
    case PUBLISH(p) => PublishRetains(s.broker, e.conn, p, t);
    case PUBREL(a) =>
      PubrelSpawns(s.broker, e.conn, a.packetId);
      if a.packetId in s.broker.staged {
        KeptIsMarked(s.broker.retained, s.broker.staged[a.packetId], t);
      }
    case SUBSCRIBE(sub) => SubscribeTasks(s.broker, e.conn, sub, e.orders);
    case DISCONNECT(_) => DisconnectTasks(s.broker, e.conn);
    case _ =>
  }

  ghost function RetainMarks(r: Run, t: Bytes): (marks: seq<Mark<Publish>>)
    requires IsRun(r)
    ensures |marks| == |r.events|
  {
    seq(|r.events|, i requires 0 <= i < |r.events| => assert StepAt(r, i); RetainMark(r.states[i], r.events[i], t))
  }

  lemma {:induction false} RetainedIsHeld(r: Run, t: Bytes, n: nat)
    requires IsRun(r) && n <= |r.events|
    ensures Lookup(r.states[n].broker.retained, t) == Held(RetainMarks(r, t)[..n])
    decreases n
  {
    hide Step, Legal, RetainMark, Held, Inv;
    var marks := RetainMarks(r, t);
    if n == 0 {
      HeldNothing<Publish>();
    } else {
      RetainedIsHeld(r, t, n - 1);
      assert StepAt(r, n - 1);
      RunInv(r, n - 1);
      StepRetains(r.states[n - 1], r.events[n - 1], t);
      assert marks[..n] == marks[..n - 1] + [marks[n - 1]];
      HeldTurn(marks[..n - 1], marks[n - 1]);
    }
  }

  /**
   * A topic's retained message is exactly the one stored last, if nothing stored another
   * or cleared the topic since.
   */
  lemma RetainedIff(r: Run, t: Bytes, n: nat, p: Publish)
    requires IsRun(r) && n <= |r.events|
    ensures Lookup(r.states[n].broker.retained, t) == Some(p)
        <==> exists i: nat :: StillThere(RetainMarks(r, t), i, n) && RetainMarks(r, t)[i].value == p
  {
    hide Legal, RetainMark, Held, Step;
    RetainedIsHeld(r, t, n);
    HeldAtIff(RetainMarks(r, t), n, p);
  }
}
