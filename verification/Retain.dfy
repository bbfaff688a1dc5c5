// The retain store: the last retained message of each topic.
module Retain {
  import opened Wire
  import opened Packets
  import opened Topics
  import opened TopicIndex

  type Retained = map<Bytes, Publish>

  /** The stored messages whose topic matches, in the order the map is iterated. */
  function Matching(kvs: Retained, order: seq<Bytes>, filter: Bytes): seq<Publish> {
    if order == [] then []
    else
      (if order[0] in kvs && TopicMatches(filter, order[0]) then [kvs[order[0]]] else [])
      + Matching(kvs, order[1..], filter)
  }

  class RetainStore {
    var kvs: Retained

    constructor ()
      ensures kvs == map[]
    {
      kvs := map[];
    }

    method UpdateRetain(topic: Bytes, pkt: Publish)
      modifies this
      ensures kvs == old(kvs)[topic := pkt]
    {
      kvs := kvs[topic := pkt];
    }

    method RemoveRetain(topic: Bytes)
      modifies this
      ensures kvs == old(kvs) - {topic}
    {
      kvs := kvs - {topic};
    }

    method CheckRetain(topicFilter: Bytes) returns (ret: seq<Publish>, ghost order: seq<Bytes>)
      ensures Enumerates(order, kvs)
      ensures ret == Matching(kvs, order, topicFilter)
      ensures forall p :: p in ret <==> exists t :: t in kvs && TopicMatches(topicFilter, t) && kvs[t] == p
    {
      hide TopicMatches;
      ret, order := [], [];
      var remaining := kvs.Keys;
      while remaining != {}
        invariant remaining <= kvs.Keys
        invariant forall k :: k in order <==> k in kvs.Keys - remaining
        invariant forall i, j :: 0 <= i < j < |order| ==> order[i] != order[j]
        invariant ret == Matching(kvs, order, topicFilter)
        decreases remaining
      {
        var topic :| topic in remaining;
        MatchingSnoc(kvs, order, topic, topicFilter);
        var matches := IsMatch(topicFilter, topic);
        if matches {
          ret := ret + [kvs[topic]];
        }
        assert topic !in order;
        order := order + [topic];
        remaining := remaining - {topic};
      }
      forall p ensures p in ret <==> exists t :: t in kvs && TopicMatches(topicFilter, t) && kvs[t] == p {
        MatchingMembers(kvs, order, topicFilter, p);
      }
    }
  }

  lemma {:induction false} MatchingSnoc(kvs: Retained, order: seq<Bytes>, topic: Bytes, filter: Bytes)
    ensures Matching(kvs, order + [topic], filter)
         == Matching(kvs, order, filter) + if topic in kvs && TopicMatches(filter, topic) then [kvs[topic]] else []
    decreases |order|
  {
    hide TopicMatches;
    if order == [] {
      assert [topic][1..] == [];
    } else {
      assert (order + [topic])[1..] == order[1..] + [topic];
      MatchingSnoc(kvs, order[1..], topic, filter);
    }
  }

  lemma {:induction false} MatchingMembers(kvs: Retained, order: seq<Bytes>, filter: Bytes, p: Publish)
    ensures p in Matching(kvs, order, filter)
        <==> exists t :: t in order && t in kvs && TopicMatches(filter, t) && kvs[t] == p
    decreases |order|
  {
    hide TopicMatches;
    if order != [] {
      MatchingMembers(kvs, order[1..], filter, p);
      var here := if order[0] in kvs && TopicMatches(filter, order[0]) then [kvs[order[0]]] else [];
      assert p in Matching(kvs, order, filter) <==> p in here || p in Matching(kvs, order[1..], filter);
    }
  }

  // ---------------------------------------------------------------- replay on subscription

  // Each stored message is filed under its own topic.
  ghost predicate Filed(kvs: Retained) {
    forall t :: t in kvs ==> kvs[t].topic == t
  }

  function TopicsOf(ps: seq<Publish>): (ts: seq<Bytes>)
    ensures |ts| == |ps|
    ensures forall i :: 0 <= i < |ps| ==> ts[i] == ps[i].topic
  {
    seq(|ps|, i requires 0 <= i < |ps| => ps[i].topic)
  }

  /** `done`, then the messages of `ps` whose topics have not been sent yet. */
  function Deduplicated(done: seq<Publish>, ps: seq<Publish>): seq<Publish>
    decreases |ps|
  {
    if ps == [] then done
    else Deduplicated(if ps[0].topic in TopicsOf(done) then done else done + [ps[0]], ps[1..])
  }

  /** What a SUBSCRIBE replays: filter by filter, each topic once. */
  function Replayed(kvs: Retained, filters: seq<Bytes>, orders: seq<seq<Bytes>>, done: seq<Publish>): seq<Publish>
    requires |orders| == |filters|
    decreases |filters|
  {
    if filters == [] then done
    else Replayed(kvs, filters[1..], orders[1..], Deduplicated(done, Matching(kvs, orders[0], filters[0])))
  }

  ghost predicate DistinctTopics(ps: seq<Publish>) {
    forall i, j :: 0 <= i < j < |ps| ==> ps[i].topic != ps[j].topic
  }

  lemma TopicsOfHas(ps: seq<Publish>, t: Bytes)
    ensures t in TopicsOf(ps) <==> exists p :: p in ps && p.topic == t
  {
    if t in TopicsOf(ps) {
      var i :| 0 <= i < |ps| && TopicsOf(ps)[i] == t;
      assert ps[i] in ps;
    }
    if p :| p in ps && p.topic == t {
      var i :| 0 <= i < |ps| && ps[i] == p;
      assert TopicsOf(ps)[i] == t;
    }
  }

  // Every message is the one stored for its topic.
  ghost predicate FromStore(kvs: Retained, ps: seq<Publish>) {
    forall p :: p in ps ==> p.topic in kvs && kvs[p.topic] == p
  }

  lemma {:induction false} DeduplicatedMembers(kvs: Retained, done: seq<Publish>, ps: seq<Publish>)
    requires FromStore(kvs, done) && FromStore(kvs, ps) && DistinctTopics(done)
    ensures FromStore(kvs, Deduplicated(done, ps)) && DistinctTopics(Deduplicated(done, ps))
    ensures forall p :: p in Deduplicated(done, ps) <==> p in done || p in ps
    decreases |ps|
  {
    if ps != [] {
      var p := ps[0];
      TopicsOfHas(done, p.topic);
      var next := if p.topic in TopicsOf(done) then done else done + [p];
      assert p in ps && forall x :: x in ps[1..] ==> x in ps;
      assert forall x :: x in ps <==> x == p || x in ps[1..];
      assert forall x :: x in next <==> x in done || x == p;
      DeduplicatedMembers(kvs, next, ps[1..]);
    }
  }

  // Some filter matches the message's topic.
  ghost predicate Wanted(filters: seq<Bytes>, p: Publish) {
    exists i :: 0 <= i < |filters| && TopicMatches(filters[i], p.topic)
  }

  ghost predicate EachEnumerates(orders: seq<seq<Bytes>>, kvs: Retained) {
    forall i :: 0 <= i < |orders| ==> Enumerates(orders[i], kvs)
  }

  lemma MatchingFromStore(kvs: Retained, order: seq<Bytes>, filter: Bytes)
    requires Filed(kvs) && Enumerates(order, kvs)
    ensures FromStore(kvs, Matching(kvs, order, filter))
    ensures forall p :: p in Matching(kvs, order, filter)
              <==> p.topic in kvs && kvs[p.topic] == p && TopicMatches(filter, p.topic)
  {
    hide TopicMatches, Matching;
    forall p ensures p in Matching(kvs, order, filter)
              <==> p.topic in kvs && kvs[p.topic] == p && TopicMatches(filter, p.topic)
    {
      MatchingMembers(kvs, order, filter, p);
    }
  }

  lemma {:induction false} ReplayedMembers(
      kvs: Retained, filters: seq<Bytes>, orders: seq<seq<Bytes>>, done: seq<Publish>)
    requires |orders| == |filters| && Filed(kvs) && EachEnumerates(orders, kvs)
    requires FromStore(kvs, done) && DistinctTopics(done)
    ensures FromStore(kvs, Replayed(kvs, filters, orders, done))
    ensures DistinctTopics(Replayed(kvs, filters, orders, done))
    ensures forall p :: p in Replayed(kvs, filters, orders, done)
              <==> p in done || (p.topic in kvs && kvs[p.topic] == p && Wanted(filters, p))
    decreases |filters|
  {
    hide TopicMatches, Matching, Deduplicated, DistinctTopics, Enumerates;
    if filters != [] {
      var ps := Matching(kvs, orders[0], filters[0]);
      MatchingFromStore(kvs, orders[0], filters[0]);
      DeduplicatedMembers(kvs, done, ps);
      ReplayedMembers(kvs, filters[1..], orders[1..], Deduplicated(done, ps));
      forall p ensures Wanted(filters, p) <==> TopicMatches(filters[0], p.topic) || Wanted(filters[1..], p) {
        WantedHead(filters, p);
      }
    }
  }

  lemma WantedHead(filters: seq<Bytes>, p: Publish)
    requires filters != []
    ensures Wanted(filters, p) <==> TopicMatches(filters[0], p.topic) || Wanted(filters[1..], p)
  {
    hide TopicMatches;
    if i :| 0 <= i < |filters| && TopicMatches(filters[i], p.topic) && i > 0 {
      assert TopicMatches(filters[1..][i - 1], p.topic);
    }
    if i :| 0 <= i < |filters[1..]| && TopicMatches(filters[1..][i], p.topic) {
      assert TopicMatches(filters[i + 1], p.topic);
    }
  }

  /**
   * Whatever the filters and the order the map is iterated in for each of them, the
   * replayed messages have pairwise distinct topics, and are exactly the stored messages
   * of the topics that match at least one filter.
   */
  lemma ReplayExact(kvs: Retained, filters: seq<Bytes>, orders: seq<seq<Bytes>>)
    requires |orders| == |filters| && Filed(kvs) && EachEnumerates(orders, kvs)
    ensures var replay := Replayed(kvs, filters, orders, []);
            && DistinctTopics(replay)
            && (forall p :: p in replay ==> p.topic in kvs && kvs[p.topic] == p && Wanted(filters, p))
            && (forall t :: t in kvs && Wanted(filters, kvs[t]) ==> kvs[t] in replay)
  {
    hide Wanted, Replayed;
    ReplayedMembers(kvs, filters, orders, []);
  }
}
