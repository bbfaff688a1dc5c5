// Which SUBSCRIBE and UNSUBSCRIBE payloads are accepted: exactly the printed lists, and each
// is read as the list that it prints.
module PayloadMeaning {
  import opened Wire
  import opened Packets
  import opened PacketDecoder

  lemma StringIsPrinted(s: Bytes)
    requires Utf8(s).Ok?
    ensures WireString(Utf8(s).value) && s[..Utf8(s).used] == Prefixed(Utf8(s).value)
  {
    var b := Utf8(s).value;
    assert U16Bytes(|b|) == s[..2];
    assert s[..2 + |b|] == s[..2] + s[2..2 + |b|];
  }

  lemma OptionIsPrinted(s: Bytes)
    requires OptionByte(s).Ok?
    ensures s[0] == PrintOption(OptionByte(s).value)
  {
    var b := s[0] as int;
    assert b == b % 4 + 4 * (b / 4 % 2) + 8 * (b / 8 % 2) + 16 * (b / 16);
  }

  lemma SubscriptionIsPrinted(s: Bytes)
    requires Subscription(s).Ok?
    ensures var (x, n) := (Subscription(s).value, Subscription(s).used);
            WireString(x.0) && s[..n] == Prefixed(x.0) + [PrintOption(x.1)]
  {
    hide Utf8, OptionByte, Prefixed, PrintOption, WireString;
    StringIsPrinted(s);
    var n := Utf8(s).used;
    OptionIsPrinted(s[n..]);
    assert s[..n + 1] == s[..n] + [s[n]];
  }

  ghost predicate SubscriptionList(xs: seq<(Bytes, SubscribeOption)>) {
    xs != [] && forall x :: x in xs ==> WireString(x.0)
  }

  lemma OnePrinted(x: (Bytes, SubscribeOption))
    ensures PrintSubscriptions([x]) == Prefixed(x.0) + [PrintOption(x.1)]
  {
    var xs := [x];
    assert xs[1..] == [];
    assert Prefixed(x.0) + [PrintOption(x.1)] + [] == Prefixed(x.0) + [PrintOption(x.1)];
  }

  ghost predicate FilterList(xs: seq<Bytes>) {
    forall x :: x in xs ==> WireString(x)
  }

  ghost predicate PrintsSubscriptions(b: Bytes) {
    exists xs :: SubscriptionList(xs) && PrintSubscriptions(xs) == b
  }

  ghost predicate PrintsFilters(b: Bytes) {
    exists xs :: FilterList(xs) && PrintFilters(xs) == b
  }

  lemma {:induction false} SubscriptionsArePrinted(s: Bytes, left: nat)
    requires Subscriptions(s, left).Ok?
    ensures SubscriptionList(Subscriptions(s, left).value)
    ensures PrintSubscriptions(Subscriptions(s, left).value) == s[..left]
    decreases |s|
  {
    hide Subscription, WireString, Prefixed, PrintOption;
    var x, n := Subscription(s).value, Subscription(s).used;
    SubscriptionIsPrinted(s);
    if n < left {
      SubscriptionsArePrinted(s[n..], left - n);
      var xs := Subscriptions(s[n..], left - n).value;
      assert ([x] + xs)[1..] == xs;
      assert s[..left] == s[..n] + s[n..][..left - n];
    } else {
      OnePrinted(x);
    }
  }

  /** Section 3.8.3 of MQTT 5.0: a SUBSCRIBE payload is at least one filter with its options. */
  lemma SubscriptionsIff(s: Bytes, left: nat)
    ensures Subscriptions(s, left).Ok? <==> left <= |s| && PrintsSubscriptions(s[..left])
    ensures forall xs :: SubscriptionList(xs) && left <= |s| && PrintSubscriptions(xs) == s[..left] ==>
              Subscriptions(s, left) == Ok(xs, left)
  {
    hide Subscriptions, PrintSubscriptions, WireString;
    if Subscriptions(s, left).Ok? {
      SubscriptionsArePrinted(s, left);
    }
    forall xs | SubscriptionList(xs) && left <= |s| && PrintSubscriptions(xs) == s[..left]
      ensures Subscriptions(s, left) == Ok(xs, left)
    {
      SubscriptionsRoundTrip(xs, s[left..]);
      assert s[..left] + s[left..] == s;
    }
  }

  lemma {:induction false} FiltersArePrinted(s: Bytes, left: int)
    requires Filters(s, left).Ok?
    ensures FilterList(Filters(s, left).value) && PrintFilters(Filters(s, left).value) == s[..left]
    decreases |s|
  {
    hide Utf8, WireString, Prefixed, PrintFilters;
    if left > 0 {
      var x, n := Utf8(s).value, Utf8(s).used;
      StringIsPrinted(s);
      FiltersArePrinted(s[n..], left - n);
      var xs := Filters(s[n..], left - n).value;
      PrintFiltersCons(x, xs);
      assert s[..left] == s[..n] + s[n..][..left - n];
    } else {
      PrintFiltersCons([], []);
    }
  }

  lemma PrintFiltersCons(x: Bytes, xs: seq<Bytes>)
    ensures PrintFilters([]) == [] && PrintFilters([x] + xs) == Prefixed(x) + PrintFilters(xs)
  {
    assert ([x] + xs)[1..] == xs;
  }

  /** Section 3.10.3: an UNSUBSCRIBE payload is a list of filters, here also an empty one. */
  lemma FiltersIff(s: Bytes, left: nat)
    ensures Filters(s, left).Ok? <==> left <= |s| && PrintsFilters(s[..left])
    ensures forall xs :: FilterList(xs) && left <= |s| && PrintFilters(xs) == s[..left] ==>
              Filters(s, left) == Ok(xs, left)
  {
    hide Filters, PrintFilters, WireString;
    if Filters(s, left).Ok? {
      FiltersArePrinted(s, left);
    }
    forall xs | FilterList(xs) && left <= |s| && PrintFilters(xs) == s[..left]
      ensures Filters(s, left) == Ok(xs, left)
    {
      FiltersRoundTrip(xs, s[left..]);
      assert s[..left] + s[left..] == s;
    }
  }

  /** What follows from it for whole payloads: a SUBSCRIBE without a filter is refused. */
  lemma PayloadIff(packet: ControlPacket, s: Bytes)
    ensures packet.SUBSCRIBE? ==>
              var left := packet.subscribe.payloadLength;
              && (left == 0 ==> Payload(packet, s) == Err(Unexpected))
              && (left > 0 ==> (Payload(packet, s).Ok? <==> left <= |s| && PrintsSubscriptions(s[..left])))
    ensures packet.UNSUBSCRIBE? ==>
              var left := packet.unsubscribe.payloadLength;
              (Payload(packet, s).Ok? <==> left <= |s| && PrintsFilters(s[..left]))
    ensures packet.PUBLISH? ==>
              var left := packet.publish.payloadLength;
              Payload(packet, s)
                == if left <= |s| then Ok(PUBLISH(packet.publish.(payload := s[..left])), left)
                   else Err(InsufficientBytes)
    ensures packet.PUBACK? || packet.PUBREC? || packet.PUBREL? || packet.PUBCOMP? ==>
              Payload(packet, s) == Ok(packet, 0)
    ensures packet.PINGREQ? || packet.DISCONNECT? ==> Payload(packet, s) == Ok(packet, 0)
  {
    hide Subscriptions, Filters, SubscriptionList, FilterList, PrintSubscriptions, PrintFilters;
    if packet.SUBSCRIBE? {
      SubscriptionsIff(s, packet.subscribe.payloadLength);
    } else if packet.UNSUBSCRIBE? {
      FiltersIff(s, packet.unsubscribe.payloadLength);
    }
  }
}
