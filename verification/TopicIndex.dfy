// The subscription index: from topic filters to the clients that registered them.
module TopicIndex {
  import opened Wire
  import opened Packets
  import opened Topics

  type Subscriber = (Bytes, SubscribeOption)

  type Index = map<Bytes, seq<Subscriber>>

  function Entries(index: Index, filter: Bytes): seq<Subscriber> {
    if filter in index then index[filter] else []
  }

  function AfterRegister(index: Index, filter: Bytes, client: Bytes, option: SubscribeOption): Index {
    index[filter := Entries(index, filter) + [(client, option)]]
  }

  function Without(xs: seq<Subscriber>, client: Bytes): seq<Subscriber> {
    if xs == [] then []
    else (if xs[0].0 != client then [xs[0]] else []) + Without(xs[1..], client)
  }

  function AfterUnregister(index: Index, filter: Bytes, client: Bytes): Index {
    if filter in index then index[filter := Without(index[filter], client)] else index
  }

  // An order in which a map's keys can be iterated.
  ghost predicate Enumerates<K(!new), V>(order: seq<K>, m: map<K, V>) {
    && (forall i, j :: 0 <= i < j < |order| ==> order[i] != order[j])
    && (forall k :: k in order <==> k in m)
  }

  /** The subscribers of every filter that matches, filter by filter in the given order. */
  function Subscribed(index: Index, order: seq<Bytes>, topic: Bytes): seq<Subscriber> {
    if order == [] then []
    else
      (if TopicMatches(order[0], topic) then Entries(index, order[0]) else [])
      + Subscribed(index, order[1..], topic)
  }

  // ---------------------------------------------------------------- the object

  class TopicManager {
    var topicMap: Index

    constructor ()
      ensures topicMap == map[]
    {
      topicMap := map[];
    }

    method Register(topicFilter: Bytes, clientId: Bytes, option: SubscribeOption)
      modifies this
      ensures topicMap == AfterRegister(old(topicMap), topicFilter, clientId, option)
    {
      if topicFilter !in topicMap {
        topicMap := topicMap[topicFilter := []];
      }
      topicMap := topicMap[topicFilter := topicMap[topicFilter] + [(clientId, option)]];
    }

    method Unregister(topicFilter: Bytes, clientId: Bytes)
      modifies this
      ensures topicMap == AfterUnregister(old(topicMap), topicFilter, clientId)
    {
      if topicFilter in topicMap {
        hide Without;
        var kept := [];
        var v := topicMap[topicFilter];
        assert v[0..] == v;
        for i := 0 to |v|
          invariant topicMap == old(topicMap)
          invariant Without(v, clientId) == kept + Without(v[i..], clientId)
        {
          WithoutTurn(v, i, clientId);
          if v[i].0 != clientId {
            kept := kept + [v[i]];
          }
        }
        WithoutNothing(v, clientId);
        assert kept + [] == kept;
        topicMap := topicMap[topicFilter := kept];
      }
    }

    /** Collects the subscribers in whatever order the map is iterated. */
    method SubedId(topic: Bytes) returns (ret: seq<Subscriber>, ghost order: seq<Bytes>)
      ensures Enumerates(order, topicMap)
      ensures ret == Subscribed(topicMap, order, topic)
      ensures forall x :: x in ret <==> exists f :: f in topicMap && TopicMatches(f, topic) && x in topicMap[f]
    {
      hide TopicMatches;
      ret, order := [], [];
      var remaining := topicMap.Keys;
      while remaining != {}
        invariant remaining <= topicMap.Keys
        invariant forall k :: k in order <==> k in topicMap.Keys - remaining
        invariant forall i, j :: 0 <= i < j < |order| ==> order[i] != order[j]
        invariant ret == Subscribed(topicMap, order, topic)
        decreases remaining
      {
        var topicFilter :| topicFilter in remaining;
        SubscribedSnoc(topicMap, order, topicFilter, topic);
        var matches := IsMatch(topicFilter, topic);
        if matches {
          ret := ret + topicMap[topicFilter];
        }
        assert topicFilter !in order;
        order := order + [topicFilter];
        remaining := remaining - {topicFilter};
      }
      SubscribedMembers(topicMap, order, topic);
    }
  }

  lemma WithoutTurn(xs: seq<Subscriber>, i: nat, client: Bytes)
    requires i < |xs|
    ensures Without(xs[i..], client) == (if xs[i].0 != client then [xs[i]] else []) + Without(xs[i + 1..], client)
  {
    assert xs[i..][1..] == xs[i + 1..];
  }

  lemma WithoutNothing(xs: seq<Subscriber>, client: Bytes)
    ensures Without(xs[|xs|..], client) == []
  {
  }

  lemma {:induction false} SubscribedMembers(index: Index, order: seq<Bytes>, topic: Bytes)
    ensures forall x :: x in Subscribed(index, order, topic)
              <==> exists f :: f in order && f in index && TopicMatches(f, topic) && x in index[f]
    decreases |order|
  {
    hide TopicMatches;
    if order != [] {
      SubscribedMembers(index, order[1..], topic);
      var here := if TopicMatches(order[0], topic) then Entries(index, order[0]) else [];
      assert Subscribed(index, order, topic) == here + Subscribed(index, order[1..], topic);
      assert forall f :: f in order <==> f == order[0] || f in order[1..];
    }
  }

  lemma {:induction false} SubscribedSnoc(index: Index, order: seq<Bytes>, filter: Bytes, topic: Bytes)
    ensures Subscribed(index, order + [filter], topic)
         == Subscribed(index, order, topic) + if TopicMatches(filter, topic) then Entries(index, filter) else []
    decreases |order|
  {
    hide TopicMatches;
    var last := if TopicMatches(filter, topic) then Entries(index, filter) else [];
    if order == [] {
      assert [filter][1..] == [];
    } else {
      assert (order + [filter])[1..] == order[1..] + [filter];
      SubscribedSnoc(index, order[1..], filter, topic);
    }
  }

  // ---------------------------------------------------------------- refinement of a flat log

  datatype Call = Registered(filter: Bytes, client: Bytes, option: SubscribeOption)
                | Unregistered(filter: Bytes, client: Bytes)

  function AfterCall(index: Index, call: Call): Index {
    match call
    case Registered(filter, client, option) => AfterRegister(index, filter, client, option)
    case Unregistered(filter, client) => AfterUnregister(index, filter, client)
  }

  /** The index after a sequence of calls. */
  function IndexAfter(calls: seq<Call>): Index {
    if calls == [] then map[] else AfterCall(IndexAfter(calls[..|calls| - 1]), calls[|calls| - 1])
  }

  datatype Registration = Registration(filter: Bytes, client: Bytes, option: SubscribeOption)

  /** The registrations that no later call has taken back, oldest first. */
  function Surviving(calls: seq<Call>): seq<Registration> {
    if calls == [] then []
    else
      var before := Surviving(calls[..|calls| - 1]);
      match calls[|calls| - 1]
      case Registered(filter, client, option) => before + [Registration(filter, client, option)]
      case Unregistered(filter, client) => Drop(before, filter, client)
  }

  function Drop(rs: seq<Registration>, filter: Bytes, client: Bytes): seq<Registration> {
    if rs == [] then []
    else (if rs[0].filter == filter && rs[0].client == client then [] else [rs[0]]) + Drop(rs[1..], filter, client)
  }

  function Of(rs: seq<Registration>, filter: Bytes): seq<Subscriber> {
    if rs == [] then []
    else (if rs[0].filter == filter then [(rs[0].client, rs[0].option)] else []) + Of(rs[1..], filter)
  }

  /** The clients and options of the registrations whose filter matches the topic. */
  function Interested(rs: seq<Registration>, topic: Bytes): seq<Subscriber> {
    if rs == [] then []
    else
      (if TopicMatches(rs[0].filter, topic) then [(rs[0].client, rs[0].option)] else []) + Interested(rs[1..], topic)
  }

  lemma OfCons(r: Registration, rest: seq<Registration>, filter: Bytes)
    ensures Of([r] + rest, filter) == (if r.filter == filter then [(r.client, r.option)] else []) + Of(rest, filter)
  {
    assert ([r] + rest)[1..] == rest;
  }

  lemma {:induction false} OfSnoc(rs: seq<Registration>, r: Registration, filter: Bytes)
    ensures Of(rs + [r], filter) == Of(rs, filter) + if r.filter == filter then [(r.client, r.option)] else []
    decreases |rs|
  {
    var last := if r.filter == filter then [(r.client, r.option)] else [];
    if rs == [] {
      assert rs + [r] == [r] + [] && Of(rs, filter) == [];
      OfCons(r, [], filter);
    } else {
      var x, rest := rs[0], rs[1..];
      OfSnoc(rest, r, filter);
      OfCons(x, rest, filter);
      OfCons(x, rest + [r], filter);
      assert rs == [x] + rest && rs + [r] == [x] + (rest + [r]);
      hide Of;
      var first := if x.filter == filter then [(x.client, x.option)] else [];
      assert first + (Of(rest, filter) + last) == (first + Of(rest, filter)) + last;
    }
  }

  lemma {:induction false} OfDrop(rs: seq<Registration>, filter: Bytes, client: Bytes, g: Bytes)
    ensures Of(Drop(rs, filter, client), g) == if g == filter then Without(Of(rs, g), client) else Of(rs, g)
    decreases |rs|
  {
    if rs != [] {
      var r, rest := rs[0], Drop(rs[1..], filter, client);
      OfDrop(rs[1..], filter, client, g);
      var x := (r.client, r.option);
      if r.filter == filter && r.client == client {
        assert [] + rest == rest;
      } else {
        assert ([r] + rest)[1..] == rest;
      }
      if r.filter == g {
        assert ([x] + Of(rs[1..], g))[1..] == Of(rs[1..], g);
      } else {
        assert [] + Of(rs[1..], g) == Of(rs[1..], g);
      }
    }
  }

  /** Each filter's entry holds its surviving registrations, in the order they were made. */
  lemma {:induction false} IndexHoldsSurvivors(calls: seq<Call>, filter: Bytes)
    ensures Entries(IndexAfter(calls), filter) == Of(Surviving(calls), filter)
    ensures Of(Surviving(calls), filter) != [] ==> filter in IndexAfter(calls)
    decreases |calls|
  {
    if calls != [] {
      var before := calls[..|calls| - 1];
      IndexHoldsSurvivors(before, filter);
      match calls[|calls| - 1]
      case Registered(f, client, option) => OfSnoc(Surviving(before), Registration(f, client, option), filter);
      case Unregistered(f, client) => OfDrop(Surviving(before), f, client, filter);
    }
  }

  /** All filters of `order` together, each with its share of the registrations. */
  function Shares(rs: seq<Registration>, order: seq<Bytes>, topic: Bytes): multiset<Subscriber> {
    if order == [] then multiset{}
    else
      (if TopicMatches(order[0], topic) then multiset(Of(rs, order[0])) else multiset{})
      + Shares(rs, order[1..], topic)
  }

  lemma {:induction false} SharesOfOne(rs: seq<Registration>, r: Registration, order: seq<Bytes>, topic: Bytes)
    requires forall i, j :: 0 <= i < j < |order| ==> order[i] != order[j]
    ensures Shares([r] + rs, order, topic) == Shares(rs, order, topic)
            + if r.filter in order && TopicMatches(r.filter, topic) then multiset{(r.client, r.option)} else multiset{}
    decreases |order|
  {
    hide TopicMatches, Of;
    if order != [] {
      SharesOfOne(rs, r, order[1..], topic);
      OfOne(rs, r, order[0]);
      if r.filter == order[0] {
        assert r.filter !in order[1..];
      }
    }
  }

  lemma OfOne(rs: seq<Registration>, r: Registration, filter: Bytes)
    ensures multiset(Of([r] + rs, filter))
         == multiset(Of(rs, filter)) + if r.filter == filter then multiset{(r.client, r.option)} else multiset{}
  {
    assert ([r] + rs)[1..] == rs;
    assert [] + Of(rs, filter) == Of(rs, filter);
  }

  lemma {:induction false} SharesAreInterested(rs: seq<Registration>, order: seq<Bytes>, topic: Bytes)
    requires forall i, j :: 0 <= i < j < |order| ==> order[i] != order[j]
    requires forall i :: 0 <= i < |rs| ==> rs[i].filter in order
    ensures Shares(rs, order, topic) == multiset(Interested(rs, topic))
    decreases |rs|
  {
    hide TopicMatches, Shares;
    if rs == [] {
      SharesOfNone(order, topic);
    } else {
      assert rs == [rs[0]] + rs[1..];
      SharesOfOne(rs[1..], rs[0], order, topic);
      SharesAreInterested(rs[1..], order, topic);
    }
  }

  lemma {:induction false} SharesOfNone(order: seq<Bytes>, topic: Bytes)
    ensures Shares([], order, topic) == multiset{}
    decreases |order|
  {
    hide TopicMatches;
    if order != [] {
      SharesOfNone(order[1..], topic);
    }
  }

  lemma {:induction false} SubscribedIsShares(index: Index, rs: seq<Registration>, order: seq<Bytes>, topic: Bytes)
    requires forall filter :: Entries(index, filter) == Of(rs, filter)
    ensures multiset(Subscribed(index, order, topic)) == Shares(rs, order, topic)
    decreases |order|
  {
    hide TopicMatches, Entries, Of;
    if order != [] {
      SubscribedIsShares(index, rs, order[1..], topic);
    }
  }

  lemma {:induction false} OfFindsIt(rs: seq<Registration>, i: nat)
    requires i < |rs|
    ensures Of(rs, rs[i].filter) != []
    decreases |rs|
  {
    if i > 0 {
      OfFindsIt(rs[1..], i - 1);
    }
  }

  /**
   * The index refines a flat log. After any calls, and in whatever order its map is
   * iterated, the subscribers found for a topic are, as a multiset, the clients and
   * options of the surviving registrations whose filter matches.
   */
  lemma SubscribersAreSurvivors(calls: seq<Call>, order: seq<Bytes>, topic: Bytes)
    requires Enumerates(order, IndexAfter(calls))
    ensures multiset(Subscribed(IndexAfter(calls), order, topic)) == multiset(Interested(Surviving(calls), topic))
  {
    hide TopicMatches, Surviving, IndexAfter, Of;
    var index, rs := IndexAfter(calls), Surviving(calls);
    forall filter ensures Entries(index, filter) == Of(rs, filter) {
      IndexHoldsSurvivors(calls, filter);
    }
    forall i | 0 <= i < |rs| ensures rs[i].filter in order {
      OfFindsIt(rs, i);
      IndexHoldsSurvivors(calls, rs[i].filter);
    }
    SubscribedIsShares(index, rs, order, topic);
    SharesAreInterested(rs, order, topic);
  }
}
