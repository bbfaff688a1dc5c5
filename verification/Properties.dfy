// The property sections of MQTT 5.0 (section 2.2.2).
//
// The source repeats one loop seven times, once per packet: read an identifier, check
// whether it may repeat, read its value, advance, and stop when the position reaches the
// end that the section's length promised. Here the loop is written once and the seven
// `match` statements are the rows of `RuleOf`. The loop is bounded by the section's
// length only, so it may run past that end; it then fails.
module Properties {
  import opened Wire

  const PAYLOAD_FORMAT_INDICATOR: Byte := 0x01
  const MESSAGE_EXPIRY_INTERVAL: Byte := 0x02
  const CONTENT_TYPE: Byte := 0x03
  const RESPONSE_TOPIC: Byte := 0x08
  const CORRELATION_DATA: Byte := 0x09
  const SUBSCRIPTION_IDENTIFIER: Byte := 0x0B
  const SESSION_EXPIRY_INTERVAL: Byte := 0x11
  const AUTHENTICATION_METHOD: Byte := 0x15
  const AUTHENTICATION_DATA: Byte := 0x16
  const REQUEST_PROBLEM_INFORMATION: Byte := 0x17
  const WILL_DELAY_INTERVAL: Byte := 0x18
  const REQUEST_RESPONSE_INFORMATION: Byte := 0x19
  const SERVER_REFERENCE: Byte := 0x1C
  const REASON_STRING: Byte := 0x1F
  const RECEIVE_MAXIMUM: Byte := 0x21
  const TOPIC_ALIAS_MAXIMUM: Byte := 0x22
  const TOPIC_ALIAS: Byte := 0x23
  const USER_PROPERTY: Byte := 0x26
  const MAXIMUM_PACKET_SIZE: Byte := 0x27

  datatype Section = InPublish | InPubrel | InSubscribe | InUnsubscribe | InConnect | InWill | InDisconnect

  datatype Kind = Flag | TwoBytesNonZero | FourBytes | FourBytesNonZero | VarNumber | Text | Blob | TextPair

  // Once: a second occurrence is an error. LastWins: it overwrites. Many: it is appended.
  datatype Repeat = Once | LastWins | Many

  datatype Rule = Rule(kind: Kind, repeat: Repeat)

  datatype Value = Num(n: nat) | Str(b: Bytes) | Pair(key: Bytes, value: Bytes)

  // One property struct: an absent key is a field that is None, a present one holds the
  // field's value, or all values of a Vec field in order.
  type Fields = map<Byte, seq<Value>>

  function RuleOf(section: Section, id: Byte): Option<Rule> {
    match section
    case InPublish =>
      if id == PAYLOAD_FORMAT_INDICATOR then Some(Rule(Flag, LastWins))
      else if id == MESSAGE_EXPIRY_INTERVAL then Some(Rule(FourBytes, LastWins))
      else if id == TOPIC_ALIAS then Some(Rule(TwoBytesNonZero, Once))
      else if id == RESPONSE_TOPIC then Some(Rule(Text, Once))
      else if id == CORRELATION_DATA then Some(Rule(Blob, Once))
      else if id == USER_PROPERTY then Some(Rule(TextPair, Many))
      else if id == SUBSCRIPTION_IDENTIFIER then Some(Rule(VarNumber, Many))
      else if id == CONTENT_TYPE then Some(Rule(Text, Once))
      else None
    case InPubrel =>
      if id == USER_PROPERTY then Some(Rule(TextPair, Many))
      else if id == REASON_STRING then Some(Rule(Text, LastWins))
      else None
    case InSubscribe =>
      if id == USER_PROPERTY then Some(Rule(TextPair, Many))
      else if id == SUBSCRIPTION_IDENTIFIER then Some(Rule(VarNumber, LastWins))
      else None
    case InUnsubscribe =>
      if id == USER_PROPERTY then Some(Rule(TextPair, Many)) else None
    case InConnect =>
      if id == SESSION_EXPIRY_INTERVAL then Some(Rule(FourBytes, Once))
      else if id == RECEIVE_MAXIMUM then Some(Rule(TwoBytesNonZero, Once))
      else if id == MAXIMUM_PACKET_SIZE then Some(Rule(FourBytesNonZero, Once))
      else if id == TOPIC_ALIAS_MAXIMUM then Some(Rule(TwoBytesNonZero, Once))
      else if id == REQUEST_RESPONSE_INFORMATION then Some(Rule(Flag, Once))
      else if id == REQUEST_PROBLEM_INFORMATION then Some(Rule(Flag, Once))
      else if id == USER_PROPERTY then Some(Rule(TextPair, Many))
      else if id == AUTHENTICATION_METHOD then Some(Rule(Text, Once))
      else if id == AUTHENTICATION_DATA then Some(Rule(Blob, Once))
      else None
    case InWill =>
      if id == WILL_DELAY_INTERVAL then Some(Rule(FourBytes, Once))
      else if id == PAYLOAD_FORMAT_INDICATOR then Some(Rule(Flag, Once))
      else if id == MESSAGE_EXPIRY_INTERVAL then Some(Rule(FourBytes, Once))
      else if id == CONTENT_TYPE then Some(Rule(Text, Once))
      else if id == RESPONSE_TOPIC then Some(Rule(Text, Once))
      else if id == CORRELATION_DATA then Some(Rule(Blob, Once))
      else if id == USER_PROPERTY then Some(Rule(TextPair, Many))
      else None
    case InDisconnect =>
      if id == SESSION_EXPIRY_INTERVAL then Some(Rule(FourBytes, Once))
      else if id == USER_PROPERTY then Some(Rule(TextPair, Many))
      else if id == REASON_STRING then Some(Rule(Text, Once))
      else if id == SERVER_REFERENCE then Some(Rule(Text, LastWins))
      else None
  }

  // ---------------------------------------------------------------- the standard's own table

  datatype DataType =
    | OneByte
    | TwoByteInteger
    | FourByteInteger
    | VariableByteInteger
    | Utf8String
    | BinaryData
    | StringPair

  function TypeOf(kind: Kind): DataType {
    match kind
    case Flag => OneByte
    case TwoBytesNonZero => TwoByteInteger
    case FourBytes => FourByteInteger
    case FourBytesNonZero => FourByteInteger
    case VarNumber => VariableByteInteger
    case Text => Utf8String
    case Blob => BinaryData
    case TextPair => StringPair
  }

  /** Section 2.2.2.2 of MQTT 5.0: an identifier has one type, in whatever packet it occurs. */
  function StandardType(id: Byte): DataType {
    if id in {0x02, 0x11, 0x18, 0x27} then FourByteInteger
    else if id in {0x13, 0x21, 0x22, 0x23} then TwoByteInteger
    else if id == 0x0B then VariableByteInteger
    else if id in {0x09, 0x16} then BinaryData
    else if id == 0x26 then StringPair
    else if id in {0x03, 0x08, 0x12, 0x15, 0x1A, 0x1C, 0x1F} then Utf8String
    else OneByte
  }

  /** The packets that the same section allows each identifier in. */
  predicate Allowed(section: Section, id: Byte) {
    match section
    case InPublish => id in {0x01, 0x02, 0x03, 0x08, 0x09, 0x0B, 0x23, 0x26}
    case InPubrel => id in {0x1F, 0x26}
    case InSubscribe => id in {0x0B, 0x26}
    case InUnsubscribe => id == 0x26
    case InConnect => id in {0x11, 0x15, 0x16, 0x17, 0x19, 0x21, 0x22, 0x26, 0x27}
    case InWill => id in {0x01, 0x02, 0x03, 0x08, 0x09, 0x18, 0x26}
    case InDisconnect => id in {0x11, 0x1C, 0x1F, 0x26}
  }

  // Where a repeated property, an error by the standard, is accepted and overwrites.
  predicate Lenient(section: Section, id: Byte) {
    || (section == InPublish && (id == 0x01 || id == 0x02))
    || (section == InPubrel && id == 0x1F)
    || (section == InSubscribe && id == 0x0B)
    || (section == InDisconnect && id == 0x1C)
  }

  /**
   * The loops accept exactly the identifiers that the standard allows in their packet, each
   * with the standard's type, and collect exactly those that it allows to repeat. Any other
   * repetition is refused, but for the five exceptions named above.
   */
  lemma RulesFollowStandard(section: Section, id: Byte)
    ensures RuleOf(section, id).Some? <==> Allowed(section, id)
    ensures RuleOf(section, id).Some? ==>
              var rule := RuleOf(section, id).value;
              && TypeOf(rule.kind) == StandardType(id)
              && (rule.kind == TwoBytesNonZero || rule.kind == FourBytesNonZero <==> id in {0x21, 0x22, 0x23, 0x27})
              && (rule.repeat == Many <==> id == 0x26 || (section == InPublish && id == 0x0B))
              && (rule.repeat == LastWins <==> Lenient(section, id))
  {
    match section
    case InPublish =>
    case InPubrel =>
    case InSubscribe =>
    case InUnsubscribe =>
    case InConnect =>
    case InWill =>
    case InDisconnect =>
  }

  // ---------------------------------------------------------------- one value

  function ParseValue(kind: Kind, s: Bytes): (r: Parsed<Value>)
    ensures r.Ok? ==> 1 <= r.used <= |s|
  {
    match kind
    case Flag =>
      var (b, n) :- U8(s);
      if b <= 1 then Ok(Num(b), n) else Err(InvalidFormat)
    case TwoBytesNonZero =>
      var (v, n) :- U16(s);
      if v == 0 then Err(InvalidFormat) else Ok(Num(v), n)
    case FourBytes =>
      var (v, n) :- U32(s);
      Ok(Num(v), n)
    case FourBytesNonZero =>
      var (v, n) :- U32(s);
      if v == 0 then Err(InvalidFormat) else Ok(Num(v), n)
    case VarNumber =>
      var (v, n) :- VarInt(s);
      Ok(Num(v), n)
    case Text =>
      var (v, n) :- Utf8(s);
      Ok(Str(v), n)
    case Blob =>
      var (v, n) :- Binary(s);
      Ok(Str(v), n)
    case TextPair =>
      var (k, n) :- Utf8(s);
      var (v, m) :- Utf8(s[n..]);
      Ok(Pair(k, v), n + m)
  }

  /** What the Rust type of a field guarantees about its value. */
  predicate Typed(kind: Kind, v: Value) {
    match kind
    case Flag => v.Num? && v.n <= 1
    case TwoBytesNonZero => v.Num? && v.n < 0x1_0000
    case FourBytes => v.Num? && v.n < 0x1_0000_0000
    case FourBytesNonZero => v.Num? && v.n < 0x1_0000_0000
    case VarNumber => v.Num?
    case Text => v.Str? && ValidUtf8(v.b)
    case Blob => v.Str?
    case TextPair => v.Pair? && ValidUtf8(v.key) && ValidUtf8(v.value)
  }

  /** A value that fits its wire format. */
  predicate Fits(kind: Kind, v: Value) {
    && Typed(kind, v)
    && match kind
       case TwoBytesNonZero => v.n != 0
       case FourBytesNonZero => v.n != 0
       case VarNumber => v.n < VAR_INT_LIMIT
       case Text => |v.b| < 0x1_0000
       case Blob => |v.b| < 0x1_0000
       case TextPair => |v.key| < 0x1_0000 && |v.value| < 0x1_0000
       case _ => true
  }

  function PrintValue(kind: Kind, v: Value): (b: Bytes)
    requires Typed(kind, v)
    ensures |b| >= 1
  {
    match kind
    case Flag => [v.n]
    case TwoBytesNonZero => U16Bytes(v.n)
    case FourBytes => U32Bytes(v.n)
    case FourBytesNonZero => U32Bytes(v.n)
    case VarNumber => EncodeVarInt(v.n)
    case Text => Prefixed(v.b)
    case Blob => Prefixed(v.b)
    case TextPair => Prefixed(v.key) + Prefixed(v.value)
  }

  lemma ParseValueStable(kind: Kind, s: Bytes, t: Bytes)
    requires ParseValue(kind, s).Ok?
    ensures ParseValue(kind, s + t) == ParseValue(kind, s)
  {
    match kind
    case VarNumber => VarIntStable(s, t);
    case Text => Utf8Stable(s, t);
    case Blob => BinaryStable(s, t);
    case TextPair =>
      Utf8Stable(s, t);
      DropAppend(s, t, Utf8(s).used);
      Utf8Stable(s[Utf8(s).used..], t);
    case _ =>
  }

  lemma PairRoundTrip(k: Bytes, v: Bytes, t: Bytes)
    requires Fits(TextPair, Pair(k, v))
    ensures var b := PrintValue(TextPair, Pair(k, v));
            ParseValue(TextPair, b + t) == Ok(Pair(k, v), |b|)
  {
    hide Utf8, ValidUtf8, Prefixed;
    var first, rest := Prefixed(k), Prefixed(v) + t;
    assert first + Prefixed(v) + t == first + rest;
    Utf8RoundTrip(k, rest);
    Utf8RoundTrip(v, t);
    assert (first + rest)[|first|..] == rest;
  }

  /** A value that fits is read back whole, whatever follows it. */
  lemma ValueRoundTrip(kind: Kind, v: Value, t: Bytes)
    requires Fits(kind, v)
    ensures ParseValue(kind, PrintValue(kind, v) + t) == Ok(v, |PrintValue(kind, v)|)
  {
    hide ValidUtf8, VarInt, Utf8, Binary, U16, U32, EncodeVarInt, Prefixed, U16Bytes, U32Bytes;
    match kind
    case Flag =>
    case TwoBytesNonZero => U16RoundTrip(v.n, t);
    case FourBytes => U32RoundTrip(v.n, t);
    case FourBytesNonZero => U32RoundTrip(v.n, t);
    case VarNumber => VarIntRoundTrip(v.n, t);
    case Text => Utf8RoundTrip(v.b, t);
    case Blob => BinaryRoundTrip(v.b, t);
    case TextPair => PairRoundTrip(v.key, v.value, t);
  }

  /** A value that was read fits, and printing it takes no more room than it had. */
  lemma ParsedValueFits(kind: Kind, s: Bytes)
    requires ParseValue(kind, s).Ok?
    ensures Fits(kind, ParseValue(kind, s).value)
    ensures |PrintValue(kind, ParseValue(kind, s).value)| <= ParseValue(kind, s).used
  {
    if kind == VarNumber {
      VarIntShortest(s);
    }
  }

  // ---------------------------------------------------------------- the loop

  function Put(acc: Fields, id: Byte, v: Value, repeat: Repeat): Fields {
    acc[id := if repeat == Many && id in acc then acc[id] + [v] else [v]]
  }

  // Authentication data without a method before it is refused (CONNECT only).
  predicate AuthOrderBroken(section: Section, acc: Fields) {
    section == InConnect && AUTHENTICATION_DATA in acc && AUTHENTICATION_METHOD !in acc
  }

  /** One turn of the loop: the item at the head of `s` is added to `acc`. */
  function Step(section: Section, s: Bytes, acc: Fields): (r: Parsed<Fields>)
    ensures r.Ok? ==> 2 <= r.used <= |s|
  {
    if |s| == 0 then Panic
    else
      match RuleOf(section, s[0])
      case None => Err(InvalidFormat)
      case Some(rule) =>
        if rule.repeat == Once && s[0] in acc then Err(InvalidFormat)
        else
          var (v, n) :- ParseValue(rule.kind, s[1..]);
          var acc' := Put(acc, s[0], v, rule.repeat);
          if AuthOrderBroken(section, acc') then Err(InvalidFormat) else Ok(acc', n + 1)
  }

  function Loop(section: Section, s: Bytes, left: int, acc: Fields): (r: Parsed<Fields>)
    ensures r.Ok? ==> r.used == left <= |s|
    decreases |s|
  {
    if left == 0 then Ok(acc, 0)
    else if left < 0 then Err(InvalidFormat)
    else
      var step := Step(section, s, acc);
      if step.Ok? then Loop(section, s[step.used..], left - step.used, step.value).From(step.used) else step
  }

  /** A whole section: its length, then its items. */
  function ParseSection(section: Section, s: Bytes): (r: Parsed<Fields>)
    ensures r.Ok? ==> 1 <= r.used <= |s|
  {
    var (length, n) :- VarInt(s);
    var (f, m) :- Loop(section, s[n..], length, map[]);
    Ok(f, n + m)
  }

  lemma StepStable(section: Section, s: Bytes, acc: Fields, t: Bytes)
    requires Step(section, s, acc).Ok?
    ensures Step(section, s + t, acc) == Step(section, s, acc)
  {
    DropAppend(s, t, 1);
    ParseValueStable(RuleOf(section, s[0]).value.kind, s[1..], t);
  }

  lemma {:induction false} LoopStable(section: Section, s: Bytes, left: int, acc: Fields, t: Bytes)
    requires Loop(section, s, left, acc).Ok?
    ensures Loop(section, s + t, left, acc) == Loop(section, s, left, acc)
    decreases |s|
  {
    hide Step;
    if left != 0 {
      var step := Step(section, s, acc);
      StepStable(section, s, acc, t);
      DropAppend(s, t, step.used);
      LoopStable(section, s[step.used..], left - step.used, step.value, t);
    }
  }

  lemma SectionStable(section: Section, s: Bytes, t: Bytes)
    requires ParseSection(section, s).Ok?
    ensures ParseSection(section, s + t) == ParseSection(section, s)
  {
    VarIntStable(s, t);
    var n := VarInt(s).used;
    DropAppend(s, t, n);
    LoopStable(section, s[n..], VarInt(s).value, map[], t);
  }

  /** One turn of the source's loop, over absolute positions. */
  method DecodeProperty(section: Section, buf: Bytes, nextPos: nat, fields: Fields) returns (r: Parsed<Fields>)
    requires nextPos <= |buf|
    ensures r == Step(section, buf[nextPos..], fields).From(nextPos)
  {
    hide RuleOf, ParseValue;
    if nextPos >= |buf| {
      return Panic;
    }
    var id := buf[nextPos];
    assert buf[nextPos..][1..] == buf[nextPos + 1..];
    var rule := RuleOf(section, id);
    if rule.None? {
      return Err(InvalidFormat);
    }
    if rule.value.repeat == Once && id in fields {
      return Err(InvalidFormat);
    }
    var item := ParseValue(rule.value.kind, buf[nextPos + 1..]);
    if !item.Ok? {
      return item.PropagateFailure();
    }
    var fields' := Put(fields, id, item.value, rule.value.repeat);
    if AuthOrderBroken(section, fields') {
      return Err(InvalidFormat);
    }
    return Ok(fields', nextPos + 1 + item.used);
  }

  lemma LoopTurn(section: Section, s: Bytes, left: int, acc: Fields)
    ensures left == 0 ==> Loop(section, s, left, acc) == Ok(acc, 0)
    ensures left < 0 ==> Loop(section, s, left, acc) == Err(InvalidFormat)
    ensures left > 0 ==>
              var step := Step(section, s, acc);
              Loop(section, s, left, acc) ==
                if step.Ok? then Loop(section, s[step.used..], left - step.used, step.value).From(step.used) else step
  {
    hide Step;
  }

  /** The source's loop, over absolute positions. */
  method DecodeItems(section: Section, buf: Bytes, startPos: nat, endPos: nat) returns (r: Parsed<Fields>)
    requires startPos <= |buf|
    ensures r == Loop(section, buf[startPos..], endPos - startPos, map[]).From(startPos)
  {
    hide Step, Loop;
    var nextPos := startPos;
    var fields: Fields := map[];
    while nextPos != endPos
      invariant startPos <= nextPos <= |buf|
      invariant Loop(section, buf[startPos..], endPos - startPos, map[]).From(startPos)
             == Loop(section, buf[nextPos..], endPos - nextPos, fields).From(nextPos)
      decreases |buf| - nextPos
    {
      LoopTurn(section, buf[nextPos..], endPos - nextPos, fields);
      if nextPos > endPos {
        return Err(InvalidFormat);
      }
      var step := DecodeProperty(section, buf, nextPos, fields);
      if !step.Ok? {
        return step;
      }
      assert buf[nextPos..][step.used - nextPos..] == buf[step.used..];
      fields, nextPos := step.value, step.used;
    }
    LoopTurn(section, buf[nextPos..], 0, fields);
    return Ok(fields, nextPos);
  }

  method DecodeProperties(section: Section, buf: Bytes, startPos: nat) returns (r: Parsed<Fields>)
    requires startPos <= |buf|
    ensures r == ParseSection(section, buf[startPos..]).From(startPos)
  {
    hide Loop, VarInt;
    var length := DecodeVariableLength(buf, startPos);
    if !length.Ok? {
      return length.PropagateFailure();
    }
    assert buf[startPos..][length.used - startPos..] == buf[length.used..];
    r := DecodeItems(section, buf, length.used, length.used + length.value);
  }

  // ---------------------------------------------------------------- meaning of a section

  datatype Item = Item(id: Byte, value: Value)

  function ParseItem(section: Section, s: Bytes): (r: Parsed<Item>)
    ensures r.Ok? ==> 2 <= r.used <= |s|
  {
    if |s| == 0 then Panic
    else
      match RuleOf(section, s[0])
      case None => Err(InvalidFormat)
      case Some(rule) =>
        var (v, n) :- ParseValue(rule.kind, s[1..]);
        Ok(Item(s[0], v), n + 1)
  }

  // How reading the items of a section ends: at its end, beyond it, or at an item that
  // cannot be read, of which the identifier is known if there is a byte for it.
  datatype End = Complete | Overrun | Unreadable(id: Option<Byte>, cause: Parsed<Item>)

  /** The items up to the first that cannot be read. */
  function Scan(section: Section, s: Bytes, left: int): (r: (seq<Item>, End))
    ensures r.1.Unreadable? ==> !r.1.cause.Ok?
    decreases |s|
  {
    if left == 0 then ([], Complete)
    else if left < 0 then ([], Overrun)
    else
      var x := ParseItem(section, s);
      if x.Ok? then
        var (xs, end) := Scan(section, s[x.used..], left - x.used);
        ([x.value] + xs, end)
      else ([], Unreadable(if s == [] then None else Some(s[0]), x))
  }

  function Apply(section: Section, acc: Fields, x: Item): Option<Fields> {
    match RuleOf(section, x.id)
    case None => None
    case Some(rule) =>
      if rule.repeat == Once && x.id in acc then None
      else
        var acc' := Put(acc, x.id, x.value, rule.repeat);
        if AuthOrderBroken(section, acc') then None else Some(acc')
  }

  function Fold(section: Section, acc: Fields, xs: seq<Item>): Option<Fields>
    decreases |xs|
  {
    if xs == [] then Some(acc)
    else
      match Apply(section, acc, xs[0])
      case None => None
      case Some(acc') => Fold(section, acc', xs[1..])
  }

  // A property that may occur once and was seen is refused before its value is read.
  predicate RefusedUnread(section: Section, f: Fields, id: Option<Byte>) {
    id.Some? && id.value in f && RuleOf(section, id.value).Some? && RuleOf(section, id.value).value.repeat == Once
  }

  /** The items are folded; only if none of them is rejected does it matter how reading ended. */
  function Judged(section: Section, acc: Fields, items: seq<Item>, end: End, left: int): Parsed<Fields>
    requires left >= 0 || end.Overrun?
    requires end.Unreadable? ==> !end.cause.Ok?
  {
    match Fold(section, acc, items)
    case None => Err(InvalidFormat)
    case Some(f) =>
      match end
      case Complete => Ok(f, left)
      case Overrun => Err(InvalidFormat)
      case Unreadable(id, cause) =>
        if RefusedUnread(section, f, id) then Err(InvalidFormat) else cause.PropagateFailure()
  }

  lemma StepIsApply(section: Section, s: Bytes, acc: Fields)
    ensures var x := ParseItem(section, s);
            Step(section, s, acc)
              == if x.Ok? then
                   match Apply(section, acc, x.value)
                   case None => Err(InvalidFormat)
                   case Some(f) => Ok(f, x.used)
                 else if RefusedUnread(section, acc, if s == [] then None else Some(s[0])) then Err(InvalidFormat)
                 else x.PropagateFailure()
  {
    hide ParseValue, AuthOrderBroken;
    if s != [] && RuleOf(section, s[0]).Some? {
      hide RuleOf;
      if ParseItem(section, s).Ok? {
      } else {
      }
    }
  }

  lemma ScanTurn(section: Section, s: Bytes, left: int)
    requires left > 0
    ensures var x := ParseItem(section, s);
            x.Ok? ==> var (xs, end) := Scan(section, s[x.used..], left - x.used);
                      Scan(section, s, left) == ([x.value] + xs, end)
    ensures !ParseItem(section, s).Ok? ==>
              Scan(section, s, left) == ([], Unreadable(if s == [] then None else Some(s[0]), ParseItem(section, s)))
  {
    hide ParseItem;
  }

  /**
   * The loop, all of it: its fields, or its error or panic, are those of the fold of the
   * items that can be read, and then of what ended the reading.
   */
  lemma {:induction false} LoopIsFold(section: Section, s: Bytes, left: int, acc: Fields)
    ensures var (items, end) := Scan(section, s, left);
            && (left >= 0 || end.Overrun?)
            && Loop(section, s, left, acc) == Judged(section, acc, items, end, left)
    decreases |s|
  {
    hide Step, ParseItem, Apply, Loop, RefusedUnread, Scan;
    LoopTurn(section, s, left, acc);
    if left > 0 {
      var x := ParseItem(section, s);
      StepIsApply(section, s, acc);
      ScanTurn(section, s, left);
      if x.Ok? {
        var (xs, end) := Scan(section, s[x.used..], left - x.used);
        assert ([x.value] + xs)[1..] == xs;
        var acc' := Apply(section, acc, x.value);
        if acc'.Some? {
          LoopIsFold(section, s[x.used..], left - x.used, acc'.value);
        } else {
        }
      }
    } else {
      ScanEnds(section, s, left);
    }
  }

  lemma ScanEnds(section: Section, s: Bytes, left: int)
    requires left <= 0
    ensures Scan(section, s, left) == ([], if left == 0 then Complete else Overrun)
  {
  }

  function Vals(xs: seq<Item>, id: Byte): seq<Value> {
    if xs == [] then []
    else (if xs[0].id == id then [xs[0].value] else []) + Vals(xs[1..], id)
  }

  // What is left of the values of one identifier, given its rule and what was there before.
  function Kept(repeat: Repeat, before: seq<Value>, vs: seq<Value>): seq<Value> {
    if vs == [] then before
    else if repeat == Many then before + vs
    else [vs[|vs| - 1]]
  }

  function Get(acc: Fields, id: Byte): seq<Value> {
    if id in acc then acc[id] else []
  }

  ghost predicate Ruled(section: Section, xs: seq<Item>) {
    forall i :: 0 <= i < |xs| ==> RuleOf(section, xs[i].id).Some?
  }

  // No identifier that may occur once occurs twice, counting what `acc` holds already.
  ghost predicate OnceHeld(section: Section, acc: Fields, xs: seq<Item>) {
    forall id: Byte :: RuleOf(section, id).Some? && RuleOf(section, id).value.repeat == Once
      ==> |Vals(xs, id)| <= if id in acc then 0 else 1
  }

  // CONNECT: the authentication method comes before the authentication data.
  predicate AuthOrdered(section: Section, acc: Fields, xs: seq<Item>)
    decreases |xs|
  {
    if xs == [] then true
    else
      var acc' := acc[xs[0].id := []];
      !AuthOrderBroken(section, acc') && AuthOrdered(section, acc', xs[1..])
  }

  lemma {:induction false} AuthOrderedKeys(section: Section, acc: Fields, acc': Fields, xs: seq<Item>)
    requires acc.Keys == acc'.Keys
    ensures AuthOrdered(section, acc, xs) == AuthOrdered(section, acc', xs)
    decreases |xs|
  {
    if xs != [] {
      AuthOrderedKeys(section, acc[xs[0].id := []], acc'[xs[0].id := []], xs[1..]);
    }
  }

  ghost predicate Accepted(section: Section, acc: Fields, xs: seq<Item>) {
    Ruled(section, xs) && OnceHeld(section, acc, xs) && AuthOrdered(section, acc, xs)
  }

  // A value that is added to `acc` takes one occurrence away from those still allowed.
  lemma OnceHeldHead(section: Section, acc: Fields, xs: seq<Item>, acc': Fields)
    requires xs != [] && RuleOf(section, xs[0].id).Some? && acc'.Keys == acc.Keys + {xs[0].id}
    ensures OnceHeld(section, acc, xs) <==>
            && !(RuleOf(section, xs[0].id).value.repeat == Once && xs[0].id in acc)
            && OnceHeld(section, acc', xs[1..])
  {
    hide RuleOf;
    forall id: Byte
      ensures |Vals(xs, id)| == |Vals(xs[1..], id)| + if xs[0].id == id then 1 else 0
    {
    }
  }

  lemma AcceptedHead(section: Section, acc: Fields, xs: seq<Item>)
    requires xs != []
    ensures var r := Apply(section, acc, xs[0]);
            Accepted(section, acc, xs) <==> r.Some? && Accepted(section, r.value, xs[1..])
  {
    hide RuleOf, Ruled, OnceHeld;
    var x, rest := xs[0], xs[1..];
    RuledHead(section, xs);
    if RuleOf(section, x.id).Some? {
      var acc' := Put(acc, x.id, x.value, RuleOf(section, x.id).value.repeat);
      OnceHeldHead(section, acc, xs, acc');
      AuthOrderedHead(section, acc, xs, acc');
    }
    hide Put, AuthOrdered, AuthOrderBroken;
  }

  lemma RuledHead(section: Section, xs: seq<Item>)
    requires xs != []
    ensures Ruled(section, xs) <==> RuleOf(section, xs[0].id).Some? && Ruled(section, xs[1..])
  {
    hide RuleOf;
    assert forall i :: 0 < i < |xs| ==> xs[i] == xs[1..][i - 1];
  }

  lemma AuthOrderedHead(section: Section, acc: Fields, xs: seq<Item>, acc': Fields)
    requires xs != [] && acc'.Keys == acc.Keys + {xs[0].id}
    ensures AuthOrdered(section, acc, xs) <==> !AuthOrderBroken(section, acc') && AuthOrdered(section, acc', xs[1..])
  {
    AuthOrderedKeys(section, acc[xs[0].id := []], acc', xs[1..]);
  }

  // Field `id` of `f` is what the rule keeps of the values in `xs`, after those in `acc`.
  ghost predicate FieldIs(section: Section, acc: Fields, xs: seq<Item>, id: Byte, f: Fields) {
    && (id in f <==> id in acc || Vals(xs, id) != [])
    && (RuleOf(section, id).Some? ==>
          Get(f, id) == Kept(RuleOf(section, id).value.repeat, Get(acc, id), Vals(xs, id)))
  }

  lemma KeptCons(repeat: Repeat, before: seq<Value>, v: Value, rest: seq<Value>)
    ensures Kept(repeat, if repeat == Many then before + [v] else [v], rest) == Kept(repeat, before, [v] + rest)
  {
    assert (before + [v]) + rest == before + ([v] + rest);
  }

  lemma FieldIsHead(section: Section, acc: Fields, xs: seq<Item>, id: Byte, f: Fields)
    requires xs != [] && Apply(section, acc, xs[0]).Some?
    requires FieldIs(section, Apply(section, acc, xs[0]).value, xs[1..], id, f)
    ensures FieldIs(section, acc, xs, id, f)
  {
    hide RuleOf, Kept;
    var x := xs[0];
    var acc' := Apply(section, acc, x).value;
    if x.id == id {
      assert [] + [x.value] == [x.value];
      KeptCons(RuleOf(section, id).value.repeat, Get(acc, id), x.value, Vals(xs[1..], id));
    } else {
      assert Vals(xs, id) == Vals(xs[1..], id);
    }
  }

  /**
   * Section 2.2.2 of MQTT 5.0: what a list of items means. It is accepted exactly when
   * every identifier is known, none that may occur once repeats, and (CONNECT) the
   * authentication data has its method before it; then each field holds what its rule
   * keeps of its own values, in order, and nothing of any other identifier's.
   */
  lemma {:induction false} FoldMeaning(section: Section, acc: Fields, xs: seq<Item>)
    ensures Fold(section, acc, xs).Some? <==> Accepted(section, acc, xs)
    ensures Fold(section, acc, xs).Some? ==>
              forall id: Byte :: FieldIs(section, acc, xs, id, Fold(section, acc, xs).value)
    decreases |xs|
  {
    hide RuleOf, Apply, Accepted, FieldIs;
    if xs == [] {
      FoldMeaningNil(section, acc);
    } else {
      AcceptedHead(section, acc, xs);
      var r := Apply(section, acc, xs[0]);
      if r.Some? {
        FoldMeaning(section, r.value, xs[1..]);
        if Fold(section, acc, xs).Some? {
          var f := Fold(section, acc, xs).value;
          forall id: Byte ensures FieldIs(section, acc, xs, id, f) {
            FieldIsHead(section, acc, xs, id, f);
          }
        }
      }
    }
  }

  lemma FoldMeaningNil(section: Section, acc: Fields)
    ensures Accepted(section, acc, [])
    ensures forall id: Byte :: FieldIs(section, acc, [], id, acc)
  {
    hide RuleOf;
  }

  lemma {:induction false} ValsHasId(xs: seq<Item>, i: nat)
    requires i < |xs|
    ensures Vals(xs, xs[i].id) != []
  {
    if i > 0 {
      ValsHasId(xs[1..], i - 1);
    }
  }

  lemma {:induction false} ValsFindsItem(xs: seq<Item>, id: Byte) returns (i: nat)
    requires Vals(xs, id) != []
    ensures i < |xs| && xs[i].id == id
  {
    if xs[0].id == id {
      i := 0;
    } else {
      var j := ValsFindsItem(xs[1..], id);
      i := j + 1;
    }
  }

  lemma RuledSame(section: Section, xs: seq<Item>, ys: seq<Item>)
    requires forall id: Byte :: Vals(xs, id) == Vals(ys, id)
    requires Ruled(section, xs)
    ensures Ruled(section, ys)
  {
    hide RuleOf;
    forall i | 0 <= i < |ys| ensures RuleOf(section, ys[i].id).Some? {
      ValsHasId(ys, i);
      var j := ValsFindsItem(xs, ys[i].id);
    }
  }

  lemma {:induction false} AuthAlwaysOrdered(section: Section, acc: Fields, xs: seq<Item>)
    requires section != InConnect
    ensures AuthOrdered(section, acc, xs)
    decreases |xs|
  {
    if xs != [] {
      AuthAlwaysOrdered(section, acc[xs[0].id := []], xs[1..]);
    }
  }

  /**
   * Any reordering that keeps the order of the items of each identifier, so in particular
   * any number of swaps of neighbours with different identifiers, leaves the outcome
   * unchanged; in CONNECT, if both orders or neither put authentication data behind its method.
   */
  lemma OrderIrrelevant(section: Section, xs: seq<Item>, ys: seq<Item>)
    requires section != InConnect || AuthOrdered(section, map[], xs) == AuthOrdered(section, map[], ys)
    requires forall id: Byte :: Vals(xs, id) == Vals(ys, id)
    ensures Fold(section, map[], xs) == Fold(section, map[], ys)
  {
    hide RuleOf;
    FoldMeaning(section, map[], xs);
    FoldMeaning(section, map[], ys);
    if Ruled(section, xs) {
      RuledSame(section, xs, ys);
    }
    if Ruled(section, ys) {
      RuledSame(section, ys, xs);
    }
    if section != InConnect {
      AuthAlwaysOrdered(section, map[], xs);
      AuthAlwaysOrdered(section, map[], ys);
    }
    if Fold(section, map[], xs).Some? {
      var f, g := Fold(section, map[], xs).value, Fold(section, map[], ys).value;
      forall id: Byte ensures (id in f <==> id in g) && (id in f ==> f[id] == g[id]) {
        assert FieldIs(section, map[], xs, id, f) && FieldIs(section, map[], ys, id, g);
        if Vals(xs, id) != [] {
          var i := ValsFindsItem(xs, id);
        }
      }
      assert f == g;
    }
  }

  lemma {:induction false} ValsSwap(a: seq<Item>, x: Item, y: Item, b: seq<Item>, id: Byte)
    requires x.id != y.id
    ensures Vals(a + [x, y] + b, id) == Vals(a + [y, x] + b, id)
    decreases |a|
  {
    if a == [] {
      assert (([] + [x, y]) + b)[1..] == [y] + b && ([y] + b)[1..] == b;
      assert (([] + [y, x]) + b)[1..] == [x] + b && ([x] + b)[1..] == b;
    } else {
      assert (a + [x, y] + b)[1..] == a[1..] + [x, y] + b;
      assert (a + [y, x] + b)[1..] == a[1..] + [y, x] + b;
      ValsSwap(a[1..], x, y, b, id);
    }
  }

  /** CONNECT is the exception: the same two items are accepted one way round and refused the other. */
  lemma ConnectOrderMatters(name: Bytes, data: Bytes)
    ensures var m := Item(0x15, Str(name));
            var d := Item(0x16, Str(data));
            && Fold(InConnect, map[], [m, d]).Some?
            && Fold(InConnect, map[], [d, m]).None?
  {
    var m := Item(AUTHENTICATION_METHOD, Str(name));
    var d := Item(AUTHENTICATION_DATA, Str(data));
    assert [m, d][1..] == [d] && [d, m][1..] == [m];
    var acc := Put(map[], m.id, m.value, Once);
    assert Apply(InConnect, map[], m) == Some(acc);
    assert Apply(InConnect, acc, d).Some?;
    assert Fold(InConnect, acc, [d]).Some? by {
      assert [d][1..] == [];
    }
    assert Fold(InConnect, map[], [m, d]) == Fold(InConnect, acc, [d]) by {
      assert [m, d][0] == m;
    }
  }
}
