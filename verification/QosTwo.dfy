// The QoS 2 handshake (section 4.3.3 of MQTT 5.0) over whole runs: each packet identifier
// holds the message staged last, and delivers it when it is released.
module QosTwo {
  import opened Wire
  import opened Packets
  import opened Retain
  import opened Sessions
  import opened BrokerSteps
  import opened BrokerRuns
  import opened History
  import opened BrokerTraces

  // The last of the replayed messages that is staged under `k`, if there is one.
  function ReplayMark(ps: seq<Publish>, k: PacketId): Mark<Publish> {
    if ps == [] then Quiet
    else
      var p := ps[|ps| - 1];
      if p.qos == QoS2 && p.packetId == Some(k) then Put(p) else ReplayMark(ps[..|ps| - 1], k)
  }

  /**
   * The events that touch packet identifier `k`: a nonempty QoS 2 PUBLISH with it, and the
   * replay of a retained one, stage a message; PUBREL takes it; PUBCOMP drops it.
   */
  ghost function StagingMark(s: System, e: Event, k: PacketId): Mark<Publish>
    requires Legal(s, e)
  {
    if !e.Handles? then Quiet
    else
      match e.packet
      case PUBLISH(p) =>
        if p.qos == QoS2 && p.packetId == Some(k) && p.payloadLength != 0
        then Put(p.(version := VersionOf(s.broker, e.conn))) else Quiet
      case SUBSCRIBE(sub) => ReplayMark(Replayed(s.broker.retained, FiltersOf(sub.filters), e.orders, []), k)
      case PUBREL(a) => if a.packetId == k then Take else Quiet
      case PUBCOMP(a) => if a.packetId == k then Drop else Quiet
      case _ => Quiet
  }

  lemma {:induction false} StageReplayMark(staged: map<PacketId, Publish>, ps: seq<Publish>, k: PacketId)
    ensures Lookup(StageReplay(staged, ps), k) == Marked(Lookup(staged, k), ReplayMark(ps, k))
    decreases |ps|
  {
    if ps == [] {
    } else {
      var n := |ps| - 1;
      assert ps == ps[..n] + [ps[n]];
      StageReplaySnoc(staged, ps[..n], ps[n]);
      StageReplayMark(staged, ps[..n], k);
      hide StageReplay;
    }
  }

  lemma HandledStages(s: System, e: Event, k: PacketId)
    requires e.Handles? && Legal(s, e)
    ensures Lookup(Handled(s.broker, e.conn, e.packet, e.orders).0.staged, k)
         == Marked(Lookup(s.broker.staged, k), StagingMark(s, e, k))
  {
    hide Replayed, VersionOf, RegisterAll, Incoming, EachEnumerates;
    match e.packet
    case SUBSCRIBE(sub) =>
      StageReplayMark(s.broker.staged, Replayed(s.broker.retained, FiltersOf(sub.filters), e.orders, []), k);
    case PUBLISH(p) => PublishStages(s.broker, e.conn, p, k);
    case PUBREL(a) => PubrelStages(s.broker, e.conn, a.packetId, k);
    case _ =>
  }

  lemma DispatchedStages(b: Broker, p: Publish)
    ensures Dispatched(b, p).staged == b.staged
  {
    if p.payloadLength == 0 {
    } else {
    }
  }

  lemma PublishStages(b: Broker, conn: ConnId, p: Publish, k: PacketId)
    ensures Lookup(OnPublish(b, conn, p).0.staged, k)
         == Marked(Lookup(b.staged, k),
                   if p.qos == QoS2 && p.packetId == Some(k) && p.payloadLength != 0
                   then Put(p.(version := VersionOf(b, conn))) else Quiet)
  {
    var stamped := p.(version := VersionOf(b, conn));
    DispatchedStages(b, stamped);
    hide VersionOf, Cleared, Dispatched;
  }

  lemma PubrelStages(b: Broker, conn: ConnId, id: PacketId, k: PacketId)
    ensures Lookup(OnPubrel(b, conn, id).0.staged, k) == Marked(Lookup(b.staged, k), if id == k then Take else Quiet)
  {
    hide VersionOf, Released;
  }

  lemma StepStages(s: System, e: Event, k: PacketId)
    requires Legal(s, e)
    ensures Lookup(Step(s, e).broker.staged, k) == Marked(Lookup(s.broker.staged, k), StagingMark(s, e, k))
  {
    StepMessages(s, e);
    if e.Handles? {
      HandledStages(s, e, k);
    }
    hide Step, Legal, Handled;
  }

  ghost function StagingMarks(r: Run, k: PacketId): (marks: seq<Mark<Publish>>)
    requires IsRun(r)
    ensures |marks| == |r.events|
  {
    seq(|r.events|, i requires 0 <= i < |r.events| => assert StepAt(r, i); StagingMark(r.states[i], r.events[i], k))
  }

  /** After any number of steps, what is staged under `k` is what the events put there. */
  lemma {:induction false} StagedIsHeld(r: Run, k: PacketId, n: nat)
    requires IsRun(r) && n <= |r.events|
    ensures Lookup(r.states[n].broker.staged, k) == Held(StagingMarks(r, k)[..n])
    decreases n
  {
    hide Step, Legal, StagingMark, Held;
    var marks := StagingMarks(r, k);
    if n == 0 {
      HeldNothing<Publish>();
    } else {
      StagedIsHeld(r, k, n - 1);
      assert StepAt(r, n - 1);
      StepStages(r.states[n - 1], r.events[n - 1], k);
      assert marks[..n] == marks[..n - 1] + [marks[n - 1]];
      HeldTurn(marks[..n - 1], marks[n - 1]);
    }
  }

  // ---------------------------------------------------------------- the QoS 2 handshake

  /** The messages that the deliveries spawned on the release of `k` carry. */
  function FanOutsOf(tasks: seq<Task>, k: PacketId): seq<Publish> {
    if tasks == [] then []
    else
      var last := tasks[|tasks| - 1];
      FanOutsOf(tasks[..|tasks| - 1], k) + if last.FanOut? && last.id == k then [last.publish] else []
  }

  lemma FanOutsOfOne(tasks: seq<Task>, task: Task, k: PacketId)
    ensures FanOutsOf(tasks + [task], k)
              == FanOutsOf(tasks, k) + if task.FanOut? && task.id == k then [task.publish] else []
  {
    assert (tasks + [task])[..|tasks|] == tasks;
  }

  lemma SpawnedFanOuts(tasks: seq<Task>, s: System, e: Event, k: PacketId)
    requires Legal(s, e)
    ensures FanOutsOf(tasks + Spawned(s, e), k) == FanOutsOf(tasks, k)
            + if StagingMark(s, e, k).Take? && k in s.broker.staged then [s.broker.staged[k]] else []
  {
    hide Incoming, EachEnumerates, Replayed, FanOutsOf;
    if Spawned(s, e) == [] {
      assert tasks + [] == tasks;
      if e.Handles? && e.packet.SUBSCRIBE? {
        ReplayMarkPuts(Replayed(s.broker.retained, FiltersOf(e.packet.subscribe.filters), e.orders, []), k);
      }
    } else {
      FanOutsOfOne(tasks, Spawned(s, e)[0], k);
    }
  }

  lemma {:induction false} ReplayMarkPuts(ps: seq<Publish>, k: PacketId)
    ensures ReplayMark(ps, k).Quiet? || ReplayMark(ps, k).Put?
    decreases |ps|
  {
    if ps != [] {
      ReplayMarkPuts(ps[..|ps| - 1], k);
    }
  }

  /** The releases of `k` that spawn a delivery are those that find a message staged. */
  lemma {:induction false} FanOutsAreTaken(r: Run, k: PacketId, n: nat)
    requires IsRun(r) && n <= |r.events|
    ensures FanOutsOf(SpawnedBy(r, n), k) == Taken(StagingMarks(r, k)[..n])
    decreases n
  {
    hide Step, Legal, StagingMark, Held, Taken, FanOutsOf, Spawned;
    var marks := StagingMarks(r, k);
    if n == 0 {
      HeldNothing<Publish>();
      NoFanOuts(k);
    } else {
      FanOutsAreTaken(r, k, n - 1);
      StagedIsHeld(r, k, n - 1);
      assert StepAt(r, n - 1);
      SpawnedFanOuts(SpawnedBy(r, n - 1), r.states[n - 1], r.events[n - 1], k);
      assert marks[..n] == marks[..n - 1] + [marks[n - 1]];
      HeldTurn(marks[..n - 1], marks[n - 1]);
    }
  }

  lemma NoFanOuts(k: PacketId)
    ensures FanOutsOf([], k) == []
  {
  }

  ghost predicate FansOut(r: Run, j: nat, k: PacketId, p: Publish)
    requires IsRun(r) && j < |r.events|
  {
    assert StepAt(r, j);
    Spawned(r.states[j], r.events[j]) == [FanOut(p, k)]
  }

  lemma FansOutMeans(s: System, e: Event, k: PacketId, p: Publish)
    requires Legal(s, e)
    ensures Spawned(s, e) == [FanOut(p, k)] <==> StagingMark(s, e, k).Take? && Lookup(s.broker.staged, k) == Some(p)
  {
    hide Incoming, EachEnumerates, Replayed;
    if e.Handles? && e.packet.SUBSCRIBE? {
      ReplayMarkPuts(Replayed(s.broker.retained, FiltersOf(e.packet.subscribe.filters), e.orders, []), k);
    }
  }

  /**
   * A step delivers `p` under `k` exactly when it releases `k`, `p` is what was staged
   * under `k` last, and nothing touched `k` since.
   */
  lemma FansOutIff(r: Run, j: nat, k: PacketId, p: Publish)
    requires IsRun(r) && j < |r.events|
    ensures FansOut(r, j, k, p)
        <==> && StagingMarks(r, k)[j].Take?
             && exists i: nat :: StillThere(StagingMarks(r, k), i, j) && StagingMarks(r, k)[i].value == p
  {
    hide Legal, Spawned, StagingMark, Held, Step;
    var marks := StagingMarks(r, k);
    assert StepAt(r, j);
    FansOutMeans(r.states[j], r.events[j], k, p);
    StagedIsHeld(r, k, j);
    HeldAtIff(marks, j, p);
  }

  /**
   * Section 4.3.3 of MQTT 5.0, at most once: between two deliveries under `k` there is a
   * staging of `k`, and the later delivery carries the message staged last.
   */
  lemma AtMostOncePerStaging(r: Run, i: nat, j: nat, k: PacketId, p: Publish, q: Publish) returns (m: nat)
    requires IsRun(r) && i < j < |r.events|
    requires FansOut(r, i, k, p) && FansOut(r, j, k, q)
    ensures i < m < j && StagingMarks(r, k)[m] == Put(q) && QuietBetween(StagingMarks(r, k), m, j)
  {
    hide Legal, StagingMark, Step, FansOut, Held;
    var marks := StagingMarks(r, k);
    FansOutIff(r, i, k, p);
    FansOutIff(r, j, k, q);
    HeldAtIff(marks, j, q);
    m := BetweenTakes(marks, i, j);
  }

  /** Deliveries under `k` never outnumber its stagings. */
  lemma NoMoreFanOutsThanStagings(r: Run, k: PacketId, n: nat)
    requires IsRun(r) && n <= |r.events|
    ensures |FanOutsOf(SpawnedBy(r, n), k)| + (if k in r.states[n].broker.staged then 1 else 0)
         <= Puts(StagingMarks(r, k)[..n])
  {
    hide Legal, StagingMark, Step, FanOutsOf, SpawnedBy, Held, Taken, Puts;
    FanOutsAreTaken(r, k, n);
    StagedIsHeld(r, k, n);
    NoMoreTakenThanPut(StagingMarks(r, k)[..n]);
  }

  /**
   * Exactly once: if from `a` to `b` the only events on `k` stage messages, at least one,
   * and from `b` to `c` the only ones release it, at least once, then over all those
   * steps one delivery is spawned under `k`, of the message staged last.
   */
  lemma ExactlyOnceDelivery(r: Run, k: PacketId, a: nat, b: nat, c: nat)
    requires IsRun(r) && a <= b <= c <= |r.events|
    requires OnlyPuts(StagingMarks(r, k)[a..b]) && OnlyTakes(StagingMarks(r, k)[b..c])
    ensures var last := Held(StagingMarks(r, k)[a..b]);
            && last.Some?
            && FanOutsOf(SpawnedBy(r, c), k) == FanOutsOf(SpawnedBy(r, a), k) + [last.value]
            && k !in r.states[c].broker.staged
  {
    hide Legal, StagingMark, Step, FanOutsOf, SpawnedBy, Held, Taken, OnlyPuts, OnlyTakes;
    var marks := StagingMarks(r, k);
    FanOutsAreTaken(r, k, a);
    FanOutsAreTaken(r, k, c);
    StagedIsHeld(r, k, c);
    ExactlyOnce(marks[..a], marks[a..b], marks[b..c]);
    assert marks[..c] == marks[..a] + marks[a..b] + marks[b..c];
  }

  /**
   * Identifiers are shared by all clients, so one client's message is lost when another
   * publishes under the same identifier before the first is released.
   */
  lemma SharedIdentifierLosesMessage(b: Broker, first: ConnId, second: ConnId, p: Publish, q: Publish, k: PacketId)
    requires p.qos == q.qos == QoS2 && p.packetId == q.packetId == Some(k)
    requires p.payloadLength != 0 && q.payloadLength != 0
    ensures var b1 := OnPublish(b, first, p).0;
            var b2 := OnPublish(b1, second, q).0;
            var b3 := OnPubrel(b2, first, k).0;
            var b4 := OnPubrel(b3, second, k).0;
            b4.tasks == b.tasks + [FanOut(q.(version := VersionOf(b, second)), k)]
  {
    hide Kept, Cleared;
    var b1 := OnPublish(b, first, p).0;
    var b2 := OnPublish(b1, second, q).0;
    assert b1.tasks == b.tasks && b2.tasks == b.tasks;
    assert k in b2.staged && b2.staged[k] == q.(version := VersionOf(b, second));
    var b3 := OnPubrel(b2, first, k).0;
    assert k !in b3.staged;
  }

  /**
   * One publisher is enough. A QoS 2 subscriber is handed the publisher's own identifier,
   * and its PUBCOMP for that delivery drops whatever is staged under it by then: the
   * publisher's next message, which its PUBREL then no longer finds.
   */
  lemma SubscriberCompletesPublishersNext(
      b: Broker, publisher: ConnId, p: Publish, option: SubscribeOption, random: PacketId, next: Publish, k: PacketId)
    requires option.qos == QoS2
    requires next.qos == QoS2 && next.packetId == Some(k) && next.payloadLength != 0
    ensures Personal(FanOut(p, k), option, random).qos == QoS2
    ensures Personal(FanOut(p, k), option, random).packetId == Some(k)
    ensures var b1 := OnPublish(b, publisher, next).0;
            var b2 := OnPubcomp(b1, k).0;
            && k in b1.staged
            && OnPubrel(b2, publisher, k).0.tasks == b.tasks
  {
    var b1 := OnPublish(b, publisher, next).0;
    assert b1.tasks == b.tasks;
    hide Released, VersionOf, OnPublish;
  }

  /**
   * Replaying a retained QoS 2 message to a new subscriber stages it again, so a PUBREL
   * with its identifier, from any client, delivers it to all subscribers once more.
   */
  lemma ReplayedMessageIsDeliveredAgain(
      b: Broker, subscriber: ConnId, other: ConnId, sub: Subscribe, orders: seq<seq<Bytes>>, k: PacketId, p: Publish)
    requires |orders| == |sub.filters|
    requires ReplayMark(Replayed(b.retained, FiltersOf(sub.filters), orders, []), k) == Put(p) && p.payloadLength != 0
    ensures var b1 := OnSubscribe(b, subscriber, sub, orders).0;
            OnPubrel(b1, other, k).0.tasks == b.tasks + [FanOut(p, k)]
  {
    var replay := Replayed(b.retained, FiltersOf(sub.filters), orders, []);
    StageReplayMark(b.staged, replay, k);
    SubscribeTasks(b, subscriber, sub, orders);
    hide Replayed, ReplayMark, RegisterAll, StageReplay, Kept, Cleared, VersionOf;
  }
}
