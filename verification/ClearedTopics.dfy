// Clearing a retained topic. An empty retained PUBLISH clears the topic at once, but a
// message that was published earlier may be stored later: by a task that has not run yet,
// or on the release of a staged message.
module ClearedTopics {
  import opened Wire
  import opened Packets
  import opened TopicIndex
  import opened Retain
  import opened Sessions
  import opened BrokerSteps
  import opened BrokerRuns
  import opened BrokerTraces
  import opened QosTwo
  import opened RetainedRuns
  import opened History

  predicate Keeps(p: Publish, t: Bytes) {
    p.retain && p.topic == t
  }

  /** Some message that is to be retained under `t` has not been stored yet. */
  ghost predicate OnItsWay(b: Broker, t: Bytes) {
    || (exists i :: 0 <= i < |b.tasks| && b.tasks[i].Delivery? && Keeps(b.tasks[i].publish, t))
    || (exists k :: k in b.staged && Keeps(b.staged[k], t))
  }

  /** A client publishes a new message to be retained under `t`. */
  predicate Renews(e: Event, t: Bytes) {
    e.Handles? && e.packet.PUBLISH? && Keeps(e.packet.publish, t) && e.packet.publish.payloadLength != 0
  }

  lemma StoredWasOnItsWay(s: System, e: Event, t: Bytes)
    requires Inv(s) && Legal(s, e) && t !in s.broker.retained
    ensures t in Step(s, e).broker.retained ==> OnItsWay(s.broker, t)
  {
    StepRetains(s, e, t);
    hide Inv, Step, Incoming, EachEnumerates, Enumerates;
  }

  lemma {:induction false} ReplayMarkFrom(ps: seq<Publish>, k: PacketId)
    ensures ReplayMark(ps, k).Put? ==> ReplayMark(ps, k).value in ps
    decreases |ps|
  {
    if ps != [] {
      ReplayMarkFrom(ps[..|ps| - 1], k);
    }
  }

  lemma StagedComesFrom(s: System, e: Event, t: Bytes, k: PacketId)
    requires RetainedOk(s.broker.retained) && Legal(s, e) && t !in s.broker.retained && !Renews(e, t)
    requires StagingMark(s, e, k).Put?
    ensures !Keeps(StagingMark(s, e, k).value, t)
  {
    hide Carried, Incoming, Replayed;
    match e.packet
    case SUBSCRIBE(sub) =>
      var replay := Replayed(s.broker.retained, FiltersOf(sub.filters), e.orders, []);
      ReplayExact(s.broker.retained, FiltersOf(sub.filters), e.orders);
      ReplayMarkFrom(replay, k);
    case _ =>
  }

  lemma NothingNewStaged(s: System, e: Event, t: Bytes, k: PacketId)
    requires Inv(s) && Legal(s, e) && t !in s.broker.retained && !Renews(e, t) && !OnItsWay(s.broker, t)
    ensures k in Step(s, e).broker.staged ==> !Keeps(Step(s, e).broker.staged[k], t)
  {
    StepStages(s, e, k);
    if StagingMark(s, e, k).Put? {
      StagedComesFrom(s, e, t, k);
    }
    hide StagingMark, Inv, Legal, Step, Renews;
  }

  lemma NothingNewSpawned(s: System, e: Event, t: Bytes, task: Task)
    requires Legal(s, e) && !Renews(e, t) && task in Spawned(s, e)
    ensures task.Delivery? ==> !Keeps(task.publish, t)
  {
    hide Legal, VersionOf;
  }

  lemma NothingNewOnItsWay(s: System, e: Event, t: Bytes)
    requires Inv(s) && Legal(s, e) && t !in s.broker.retained && !Renews(e, t) && !OnItsWay(s.broker, t)
    ensures !OnItsWay(Step(s, e).broker, t)
  {
    var next := Step(s, e).broker;
    StepTasks(s, e);
    forall k | k in next.staged ensures !Keeps(next.staged[k], t) {
      NothingNewStaged(s, e, t, k);
    }
    forall i | 0 <= i < |next.tasks| && next.tasks[i].Delivery? ensures !Keeps(next.tasks[i].publish, t) {
      TaskWasPendingOrSpawned(s.broker.tasks, next.tasks, Running(s, e), Spawned(s, e), i);
      if next.tasks[i] in s.broker.tasks {
        var j :| 0 <= j < |s.broker.tasks| && s.broker.tasks[j] == next.tasks[i];
      } else {
        NothingNewSpawned(s, e, t, next.tasks[i]);
      }
    }
    hide Inv, Legal, Step, Spawned, Running, Keeps, Renews;
  }

  lemma TaskWasPendingOrSpawned(before: seq<Task>, after: seq<Task>, ran: seq<Task>, spawned: seq<Task>, i: nat)
    requires multiset(after) + multiset(ran) == multiset(before) + multiset(spawned) && i < |after|
    ensures after[i] in before || after[i] in spawned
  {
    var task := after[i];
    assert (multiset(after) + multiset(ran))[task] >= multiset(after)[task] > 0;
    assert (multiset(before) + multiset(spawned))[task] == multiset(before)[task] + multiset(spawned)[task];
  }

  /**
   * A topic that has no retained message and none on its way has none later either, until
   * a client publishes a new one.
   */
  lemma {:induction false} StaysCleared(r: Run, a: nat, n: nat, t: Bytes)
    requires IsRun(r) && a <= n <= |r.events|
    requires t !in r.states[a].broker.retained && !OnItsWay(r.states[a].broker, t)
    requires forall i :: a <= i < n ==> !Renews(r.events[i], t)
    ensures t !in r.states[n].broker.retained && !OnItsWay(r.states[n].broker, t)
    decreases n
  {
    hide Inv, Step, Legal, OnItsWay, Renews;
    if a < n {
      StaysCleared(r, a, n - 1, t);
      assert StepAt(r, n - 1);
      RunInv(r, n - 1);
      StoredWasOnItsWay(r.states[n - 1], r.events[n - 1], t);
      NothingNewOnItsWay(r.states[n - 1], r.events[n - 1], t);
    }
  }

  lemma {:induction false} Enumerable(keys: set<Bytes>) returns (order: seq<Bytes>)
    ensures forall i, j :: 0 <= i < j < |order| ==> order[i] != order[j]
    ensures forall k :: k in order <==> k in keys
  {
    if keys == {} {
      order := [];
    } else {
      var k :| k in keys;
      var rest := Enumerable(keys - {k});
      order := rest + [k];
    }
  }

  lemma ComesBack(s: System, t: Bytes, conn: ConnId) returns (e: Event)
    requires Inv(s) && OnItsWay(s.broker, t) && conn in s.ready && Writing(s, conn) == []
    ensures Legal(s, e) && !Renews(e, t) && t in Step(s, e).broker.retained
  {
    var b := s.broker;
    if i :| 0 <= i < |b.tasks| && b.tasks[i].Delivery? && Keeps(b.tasks[i].publish, t) {
      var order := Enumerable(b.index.Keys);
      var randoms := seq(|Recipients(b, i, order)|, _ => 0);
      e := Runs(i, order, randoms);
    } else {
      var k :| k in b.staged && Keeps(b.staged[k], t);
      e := Handles(conn, PUBREL(Ack(k, None, None, 0)), []);
    }
    StepRetains(s, e, t);
    hide Inv, Step;
  }

  /**
   * A cleared topic can get a retained message again without a new publish exactly when
   * one is on its way.
   */
  lemma ClearedTopicReturnsIff(s: System, t: Bytes, conn: ConnId)
    requires Inv(s) && t !in s.broker.retained && conn in s.ready && Writing(s, conn) == []
    ensures (exists e :: Legal(s, e) && !Renews(e, t) && t in Step(s, e).broker.retained) <==> OnItsWay(s.broker, t)
  {
    if e :| Legal(s, e) && !Renews(e, t) && t in Step(s, e).broker.retained {
      StoredWasOnItsWay(s, e, t);
    }
    if OnItsWay(s.broker, t) {
      var e := ComesBack(s, t, conn);
    }
    hide Inv, Step, Legal, OnItsWay, Renews;
  }

  /**
   * So clearing can be overtaken: a retained publish, an empty one that clears its topic,
   * and then the run of the first one's task leave the first message retained.
   */
  lemma ClearingCanBeOvertaken(
      b: Broker, first: ConnId, second: ConnId, p: Publish, clear: Publish, order: seq<Bytes>, randoms: seq<PacketId>)
    requires p.qos == clear.qos == QoS0 && Keeps(p, clear.topic) && p.payloadLength != 0
    requires clear.retain && clear.payloadLength == 0
    requires var b2 := OnPublish(OnPublish(b, first, p).0, second, clear).0;
             |b.tasks| < |b2.tasks| && |randoms| == |Recipients(b2, |b.tasks|, order)|
    ensures var b2 := OnPublish(OnPublish(b, first, p).0, second, clear).0;
            && clear.topic !in b2.retained
            && Lookup(Ran(b2, |b.tasks|, order, randoms).retained, clear.topic)
               == Some(p.(version := VersionOf(b, first)))
  {
    hide VersionOf, SendAll, Messages, Recipients;
    var b1 := OnPublish(b, first, p).0;
    assert b1.tasks == b.tasks + [Delivery(p.(version := VersionOf(b, first)))];
    var b2 := OnPublish(b1, second, clear).0;
    assert b2.tasks == b1.tasks;
  }
}
