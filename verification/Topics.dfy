// Topic names, topic filters and when they match (section 4.7 of MQTT 5.0).
//
// The subscription index and the retain store each have their own copy of the matcher;
// the two texts are the same, and are modelled once. Topics that start with `$` get no
// special treatment in either.
module Topics {
  import opened Wire

  const SLASH: Byte := 47
  const MULTI_LEVEL: Bytes := [35]   // #
  const SINGLE_LEVEL: Bytes := [43]  // +

  /** `split('/')`: at least one level, and one more per separator. */
  function Split(s: Bytes): (levels: seq<Bytes>)
    ensures |levels| >= 1
  {
    if s == [] then [[]]
    else
      var rest := Split(s[1..]);
      if s[0] == SLASH then [[]] + rest else [[s[0]] + rest[0]] + rest[1..]
  }

  function Join(levels: seq<Bytes>): Bytes
    requires |levels| >= 1
  {
    if |levels| == 1 then levels[0] else levels[0] + [47] + Join(levels[1..])
  }

  predicate Plain(level: Bytes) {
    47 !in level
  }

  lemma JoinCons(level: Bytes, rest: seq<Bytes>)
    ensures Join([level] + rest) == if rest == [] then level else level + [SLASH] + Join(rest)
  {
    assert ([level] + rest)[1..] == rest;
  }

  lemma JoinExtendFirst(b: Byte, first: Bytes, rest: seq<Bytes>)
    ensures Join([[b] + first] + rest) == [b] + Join([first] + rest)
  {
    JoinCons([b] + first, rest);
    JoinCons(first, rest);
    hide Join;
    if rest != [] {
      var below := Join(rest);
      assert ([b] + first) + [SLASH] + below == [b] + (first + [SLASH] + below);
    }
  }

  /** Joining undoes splitting, so splitting is injective. */
  lemma {:induction false} JoinSplit(s: Bytes)
    ensures Join(Split(s)) == s
  {
    if s != [] {
      JoinSplit(s[1..]);
      var rest := Split(s[1..]);
      if s[0] == SLASH {
        assert ([[]] + rest)[1..] == rest;
        assert [] + [SLASH] + Join(rest) == s;
      } else {
        JoinExtendFirst(s[0], rest[0], rest[1..]);
        assert [rest[0]] + rest[1..] == rest;
      }
    }
  }

  lemma {:induction false} SplitPlain(s: Bytes)
    requires Plain(s)
    ensures Split(s) == [s]
  {
    if s != [] {
      SplitPlain(s[1..]);
      assert [s[0]] + s[1..] == s;
    }
  }

  /** Splitting goes separator by separator. */
  lemma {:induction false} SplitAppend(a: Bytes, b: Bytes)
    ensures Split(a + [SLASH] + b) == Split(a) + Split(b)
  {
    hide Split;
    if a == [] {
      SplitTurn(SLASH, b);
      assert a + [SLASH] + b == [SLASH] + b;
      SplitOfNothing();
    } else {
      var c, rest := a[0], a[1..];
      SplitAppend(rest, b);
      SplitTurn(c, rest);
      SplitTurn(c, rest + [SLASH] + b);
      assert a == [c] + rest && a + [SLASH] + b == [c] + (rest + [SLASH] + b);
      PrependAppend(c, Split(rest), Split(b));
    }
  }

  // What a byte in front of a topic does to its levels.
  function Prepend(c: Byte, levels: seq<Bytes>): seq<Bytes>
    requires |levels| >= 1
  {
    if c == SLASH then [[]] + levels else [[c] + levels[0]] + levels[1..]
  }

  lemma SplitTurn(c: Byte, s: Bytes)
    ensures Split([c] + s) == Prepend(c, Split(s))
  {
    assert ([c] + s)[1..] == s;
  }

  lemma SplitOfNothing()
    ensures Split([]) == [[]]
  {
  }

  lemma PrependAppend(c: Byte, levels: seq<Bytes>, more: seq<Bytes>)
    requires |levels| >= 1
    ensures Prepend(c, levels + more) == Prepend(c, levels) + more
  {
    assert (levels + more)[1..] == levels[1..] + more;
  }

  lemma {:induction false} LevelsArePlain(s: Bytes)
    ensures forall level :: level in Split(s) ==> Plain(level)
  {
    if s != [] {
      LevelsArePlain(s[1..]);
      var rest := Split(s[1..]);
      assert rest[0] in rest && forall level :: level in rest[1..] ==> level in rest;
    }
  }

  /** Splitting undoes joining. */
  lemma {:induction false} SplitJoin(levels: seq<Bytes>)
    requires |levels| >= 1 && forall level :: level in levels ==> Plain(level)
    ensures Split(Join(levels)) == levels
    decreases |levels|
  {
    assert levels[0] in levels;
    SplitPlain(levels[0]);
    if |levels| > 1 {
      SplitJoin(levels[1..]);
      SplitAppend(levels[0], Join(levels[1..]));
      assert levels == [levels[0]] + levels[1..];
    } else {
      assert levels == [levels[0]];
    }
  }

  /** `split('/')` gives the one nonempty list of levels without separators that joins to the string. */
  lemma SplitUnique(s: Bytes, levels: seq<Bytes>)
    ensures levels == Split(s)
        <==> |levels| >= 1 && (forall level :: level in levels ==> Plain(level)) && Join(levels) == s
  {
    hide Split, Join, Plain;
    JoinSplit(s);
    LevelsArePlain(s);
    if |levels| >= 1 && (forall level :: level in levels ==> Plain(level)) && Join(levels) == s {
      SplitJoin(levels);
    }
  }

  // ---------------------------------------------------------------- matching

  predicate LevelMatches(filter: Bytes, level: Bytes) {
    filter == SINGLE_LEVEL || filter == level
  }

  // The first `n` levels of the filter are no `#` and match those of the topic.
  predicate MatchesUpTo(filter: seq<Bytes>, topic: seq<Bytes>, n: nat)
    requires n <= |filter|
  {
    n <= |topic| && forall i :: 0 <= i < n ==> filter[i] != MULTI_LEVEL && LevelMatches(filter[i], topic[i])
  }

  /**
   * Section 4.7.1 of MQTT 5.0. Either there is no `#` and the levels match one by one, or
   * the only `#` is the last level and those before it match the topic's first levels.
   */
  predicate LevelsMatch(filter: seq<Bytes>, topic: seq<Bytes>)
    requires |filter| >= 1
  {
    || (|filter| == |topic| && MatchesUpTo(filter, topic, |filter|))
    || (filter[|filter| - 1] == MULTI_LEVEL && MatchesUpTo(filter, topic, |filter| - 1))
  }

  predicate TopicMatches(filter: Bytes, topic: Bytes) {
    LevelsMatch(Split(filter), Split(topic))
  }

  /** The two-index loop of the source decides exactly that relation. */
  method IsMatch(topicFilter: Bytes, topic: Bytes) returns (matches: bool)
    ensures matches == TopicMatches(topicFilter, topic)
  {
    var filterSegment, topicSegment := Split(topicFilter), Split(topic);
    hide Split;
    var filterIndex, topicIndex := 0, 0;
    while filterIndex < |filterSegment|
      invariant topicIndex == filterIndex <= |filterSegment|
      invariant MatchesUpTo(filterSegment, topicSegment, filterIndex)
    {
      var filter := filterSegment[filterIndex];
      if filter == MULTI_LEVEL {
        return filterIndex == |filterSegment| - 1;
      } else if filter == SINGLE_LEVEL {
        if topicIndex >= |topicSegment| {
          return false;
        }
        filterIndex, topicIndex := filterIndex + 1, topicIndex + 1;
      } else if topicIndex < |topicSegment| && filter == topicSegment[topicIndex] {
        filterIndex, topicIndex := filterIndex + 1, topicIndex + 1;
      } else {
        return false;
      }
    }
    return topicIndex == |topicSegment|;
  }

  // No level of the filter is a wildcard.
  predicate Literal(filter: Bytes) {
    forall level :: level in Split(filter) ==> level != [35] && level != [43]
  }

  /** A `#` before the last level makes a filter match nothing at all. */
  lemma MisplacedWildcardMatchesNothing(filter: Bytes, topic: Bytes, i: nat)
    requires i < |Split(filter)| - 1 && Split(filter)[i] == [35]
    ensures !TopicMatches(filter, topic)
  {
    hide Split;
  }

  lemma SplitInjective(a: Bytes, b: Bytes)
    requires Split(a) == Split(b)
    ensures a == b
  {
    JoinSplit(a);
    JoinSplit(b);
  }

  /** Without wildcards a filter matches the identical topic only. */
  lemma LiteralMatchesItself(filter: Bytes, topic: Bytes)
    requires Literal(filter)
    ensures TopicMatches(filter, topic) <==> filter == topic
  {
    hide Split;
    var f, t := Split(filter), Split(topic);
    assert forall i :: 0 <= i < |f| ==> f[i] in f;
    if TopicMatches(filter, topic) {
      assert f == t;
      SplitInjective(filter, topic);
    }
  }

  lemma {:induction false} JoinAppend(a: seq<Bytes>, b: seq<Bytes>)
    requires |a| >= 1 && |b| >= 1
    ensures Join(a + b) == Join(a) + [SLASH] + Join(b)
    decreases |a|
  {
    assert (a + b)[0] == a[0] && (a + b)[1..] == a[1..] + b;
    if |a| > 1 {
      JoinAppend(a[1..], b);
      assert a[0] + [SLASH] + (Join(a[1..]) + [SLASH] + Join(b)) == (a[0] + [SLASH] + Join(a[1..])) + [SLASH] + Join(b);
    } else {
      assert a[1..] + b == b;
    }
  }

  lemma PrefixOfLevels(filter: Bytes, topic: Bytes)
    ensures Split(filter) <= Split(topic) <==> topic == filter || filter + [SLASH] <= topic
  {
    var f, t := Split(filter), Split(topic);
    if f <= t {
      JoinSplit(filter);
      JoinSplit(topic);
      if |f| == |t| {
        assert f == t;
      } else {
        assert t == f + t[|f|..];
        JoinAppend(f, t[|f|..]);
      }
    }
    if filter + [SLASH] <= topic {
      var rest := topic[|filter| + 1..];
      assert topic == filter + [SLASH] + rest;
      SplitAppend(filter, rest);
    }
  }

  // ---------------------------------------------------------------- what the wildcards mean

  /** The levels got from a filter's by putting any string without a separator for each `+`. */
  predicate Fills(filter: seq<Bytes>, levels: seq<Bytes>) {
    && |levels| == |filter|
    && forall i :: 0 <= i < |levels| ==> 47 !in levels[i] && (filter[i] != [43] ==> levels[i] == filter[i])
  }

  predicate PlainLevels(levels: seq<Bytes>) {
    |levels| >= 1 && forall level :: level in levels ==> 47 !in level
  }

  lemma FillsArePlain(filter: seq<Bytes>, levels: seq<Bytes>)
    requires |filter| >= 1 && Fills(filter, levels)
    ensures PlainLevels(levels) && Split(Join(levels)) == levels
  {
    hide Split, Join;
    forall level | level in levels ensures Plain(level) {
      var i :| 0 <= i < |levels| && levels[i] == level;
    }
    SplitJoin(levels);
  }

  // The first levels of a topic fill those of a filter exactly when they match them.
  lemma MatchesUpToIff(filter: seq<Bytes>, topic: seq<Bytes>, n: nat)
    requires n <= |filter| && [35] !in filter[..n] && PlainLevels(topic)
    ensures MatchesUpTo(filter, topic, n) <==> n <= |topic| && Fills(filter[..n], topic[..n])
  {
    assert forall i :: 0 <= i < n ==> filter[..n][i] == filter[i] && filter[i] in filter[..n];
    assert n <= |topic| ==> forall i :: 0 <= i < n ==> topic[..n][i] == topic[i] && topic[i] in topic;
    hide PlainLevels;
    assert n <= |topic| ==> forall i :: 0 <= i < n ==> 47 !in topic[i] by {
      assert forall level :: level in topic ==> 47 !in level by {
        LevelsOf(topic);
      }
    }
  }

  lemma LevelsOf(levels: seq<Bytes>)
    requires PlainLevels(levels)
    ensures forall level :: level in levels ==> 47 !in level
  {
  }

  lemma TopicLevels(topic: Bytes)
    ensures PlainLevels(Split(topic)) && Join(Split(topic)) == topic
  {
    hide Split;
    LevelsArePlain(topic);
    JoinSplit(topic);
  }

  /** Without a `#`, a filter matches the topics that it becomes when each `+` is replaced, and no others. */
  lemma SingleLevelMatches(filter: seq<Bytes>, topic: Bytes)
    requires PlainLevels(filter) && [35] !in filter
    ensures TopicMatches(Join(filter), topic) <==> exists levels :: Fills(filter, levels) && Join(levels) == topic
  {
    hide Split, Join;
    SplitJoin(filter);
    TopicLevels(topic);
    var t := Split(topic);
    assert filter[..|filter|] == filter;
    MatchesUpToIff(filter, t, |filter|);
    assert |t| == |filter| ==> t[..|filter|] == t;
    assert filter[|filter| - 1] in filter;
    if levels :| Fills(filter, levels) && Join(levels) == topic {
      FillsArePlain(filter, levels);
      assert t == levels;
    }
    hide Fills, MatchesUpTo;
  }

  // A topic that is a string, or goes on behind it with a separator.
  predicate Under(prefix: Bytes, topic: Bytes) {
    topic == prefix || prefix + [47] <= topic
  }

  /** With `/#` behind it, a filter matches those topics and all that go on behind a separator. */
  lemma MultiLevelMatches(filter: seq<Bytes>, topic: Bytes)
    requires PlainLevels(filter) && [35] !in filter
    ensures TopicMatches(Join(filter) + [47, 35], topic)
       <==> exists levels :: Fills(filter, levels) && |levels| >= 1 && Under(Join(levels), topic)
  {
    var n, t := |filter|, Split(topic);
    FirstLevelsFill(filter, topic);
    hide Split, Join, Fills, Under, TopicMatches;
    if TopicMatches(Join(filter) + [47, 35], topic) {
      FirstLevels(topic, n);
    }
    if levels :| Fills(filter, levels) && |levels| >= 1 && Under(Join(levels), topic) {
      FilledIsPrefix(filter, levels, topic);
    }
  }

  lemma FirstLevelsFill(filter: seq<Bytes>, topic: Bytes)
    requires PlainLevels(filter) && [35] !in filter
    ensures TopicMatches(Join(filter) + [47, 35], topic)
       <==> |filter| <= |Split(topic)| && Fills(filter, Split(topic)[..|filter|])
  {
    hide Split, Join, Fills, MatchesUpTo, LevelsMatch;
    HashLevels(filter);
    TopicLevels(topic);
    HashIsBehind(filter, Split(topic));
  }

  lemma FilledIsPrefix(filter: seq<Bytes>, levels: seq<Bytes>, topic: Bytes)
    requires |filter| >= 1 && Fills(filter, levels) && Under(Join(levels), topic)
    ensures |filter| <= |Split(topic)| && Split(topic)[..|filter|] == levels
  {
    FillsArePlain(filter, levels);
    PrefixOfLevels(Join(levels), topic);
    hide Split, Join;
  }

  // Without a wildcard, the levels that fill a filter are its own.
  lemma LiteralFills(filter: Bytes, levels: seq<Bytes>)
    requires Literal(filter)
    ensures [35] !in Split(filter)
    ensures Fills(Split(filter), levels) <==> levels == Split(filter)
  {
    LevelsArePlain(filter);
    hide Split;
    var f := Split(filter);
    forall i | 0 <= i < |f| ensures f[i] != [43] && Plain(f[i]) {
      assert f[i] in f;
    }
  }

  /** `filter/#` matches the topic `filter` itself and everything below it, and nothing else. */
  lemma MultiLevelMatchesSubtree(filter: Bytes, topic: Bytes)
    requires Literal(filter)
    ensures TopicMatches(filter + [47, 35], topic) <==> topic == filter || filter + [47] <= topic
  {
    hide Split, Join, Fills, TopicMatches;
    var f, t := Split(filter), Split(topic);
    TopicLevels(filter);
    LiteralFills(filter, f);
    FirstLevelsFill(f, topic);
    if |f| <= |t| {
      LiteralFills(filter, t[..|f|]);
    }
    PrefixOfLevels(filter, topic);
  }

  lemma HashLevels(filter: seq<Bytes>)
    requires PlainLevels(filter)
    ensures Split(Join(filter) + [47, 35]) == filter + [[35]]
  {
    hide Split, Join;
    SplitJoin(filter);
    SplitPlain([35]);
    SplitAppend(Join(filter), [35]);
    assert Join(filter) + [47, 35] == Join(filter) + [SLASH] + [35];
  }

  lemma HashIsBehind(filter: seq<Bytes>, t: seq<Bytes>)
    requires PlainLevels(t) && [35] !in filter
    ensures LevelsMatch(filter + [[35]], t) <==> |filter| <= |t| && Fills(filter, t[..|filter|])
  {
    hide Fills, MatchesUpTo, LevelsMatch, PlainLevels;
    var all := filter + [[35]];
    assert all[..|filter|] == filter;
    MatchesUpToIff(all, t, |filter|);
    NotWithHash(all, t);
  }

  lemma NotWithHash(all: seq<Bytes>, t: seq<Bytes>)
    requires |all| >= 1 && all[|all| - 1] == [35]
    ensures LevelsMatch(all, t) <==> MatchesUpTo(all, t, |all| - 1)
  {
  }

  // A topic is its first levels, or goes on behind them with a separator.
  lemma FirstLevels(topic: Bytes, n: nat)
    requires 1 <= n <= |Split(topic)|
    ensures Under(Join(Split(topic)[..n]), topic)
  {
    var t := Split(topic);
    JoinSplit(topic);
    hide Split, Join;
    if n < |t| {
      assert t == t[..n] + t[n..];
      JoinAppend(t[..n], t[n..]);
    } else {
      assert t[..n] == t;
    }
  }

  /** `#` alone matches every topic. */
  lemma HashMatchesAll(topic: Bytes)
    ensures TopicMatches([35], topic)
  {
    SplitPlain([35]);
    hide Split;
  }

  /** So `f/+`, for `f` without wildcards, matches just the topics one level below `f`. */
  lemma PlusIsOneLevel(filter: Bytes, topic: Bytes)
    requires Literal(filter)
    ensures TopicMatches(filter + [47, 43], topic)
       <==> exists x :: topic == filter + [47] + x && 47 !in x
  {
    hide Split, Join;
    TopicLevels(filter);
    var f := Split(filter);
    var all := f + [[43]];
    LevelsOf(f);
    JoinAppend(f, [[43]]);
    OneLevel([43]);
    assert filter + [47, 43] == filter + [47] + [43];
    SingleLevelMatches(all, topic);
    if levels :| Fills(all, levels) && Join(levels) == topic {
      var x := levels[|f|];
      assert forall i :: 0 <= i < |f| ==> all[i] == f[i] && f[i] in f;
      assert levels[..|f|] == f && levels == f + [x];
      JoinAppend(f, [x]);
      OneLevel(x);
    }
    if x :| topic == filter + [47] + x && 47 !in x {
      JoinAppend(f, [x]);
      OneLevel(x);
      assert Fills(all, f + [x]);
    }
  }

  lemma OneLevel(x: Bytes)
    ensures Join([x]) == x
  {
  }
}
