// The streaming decoder: one packet is decoded over several polls, in three phases, from
// one buffer to which bytes are appended between polls.
module StreamDecoder {
  import opened Wire
  import opened Packets
  import opened PacketDecoder
  import opened PacketReader

  datatype Phase = Done | FixedHeaderDecoded | VariableHeaderDecoded

  datatype State = State(
    phase: Phase, packet: ControlPacket, version: Option<Byte>, remaining: nat, counter: nat, buf: Bytes)

  datatype PollResult = Pending | Ready(packet: ControlPacket) | Failed(error: MqttError) | Panicked {
    predicate Good() {
      Pending? || Ready?
    }
  }

  function Broken<T>(r: Parsed<T>): PollResult
    requires !r.Ok?
  {
    if r.Panic? then Panicked else Failed(r.error)
  }

  function PollFixedHeader(st: State): (State, PollResult) {
    var r := FixedHeader(st.buf);
    if r.Ok? then
      (State(FixedHeaderDecoded, r.value.0, st.version, r.value.1, 0, st.buf[r.used..]), Pending)
    else (st, Broken(r))
  }

  function PollVariableHeader(st: State): (State, PollResult) {
    var r := VariableHeader(st.packet, st.buf, st.remaining, st.version);
    if r.Ok? then
      var next := st.(buf := st.buf[r.used..], counter := st.counter + r.used);
      if next.counter == st.remaining then (next.(phase := Done, packet := UNDEFINED), Ready(r.value))
      else (next.(phase := VariableHeaderDecoded, packet := r.value), Pending)
    else (st, Broken(r))
  }

  function PollPayload(st: State): (State, PollResult) {
    var r := Payload(st.packet, st.buf);
    if r.Ok? then (st.(phase := Done, packet := UNDEFINED, buf := st.buf[r.used..]), Ready(r.value))
    else (st.(buf := []), Broken(r))
  }

  // Polls that wait for bytes and change nothing. An empty buffer is one of them in every
  // phase, even when the packet in hand needs no more bytes.
  predicate Idle(st: State) {
    st.buf == [] || (st.phase == Done && |st.buf| < 2)
  }

  function Poll(st: State): (State, PollResult) {
    if Idle(st) then (st, Pending)
    else
      match st.phase
      case Done => PollFixedHeader(st)
      case FixedHeaderDecoded => PollVariableHeader(st)
      case VariableHeaderDecoded => PollPayload(st)
  }

  function Arrive(st: State, bytes: Bytes): State {
    st.(buf := st.buf + bytes)
  }

  // ---------------------------------------------------------------- the decoder object

  class Decoder {
    var state: Phase
    var tmpPacket: ControlPacket
    var protocolVersion: Option<Byte>
    var remainingLength: nat
    var remainLengthCounter: nat
    var buf: Bytes

    function Abstract(): State
      reads this
    {
      State(state, tmpPacket, protocolVersion, remainingLength, remainLengthCounter, buf)
    }

    constructor ()
      ensures Abstract() == State(Done, UNDEFINED, None, 0, 0, [])
    {
      state := Done;
      tmpPacket := UNDEFINED;
      protocolVersion := None;
      remainingLength := 0;
      remainLengthCounter := 0;
      buf := [];
    }

    method SetProtocolVersion(version: Option<Byte>)
      modifies this`protocolVersion
      ensures Abstract() == old(Abstract()).(version := version)
    {
      protocolVersion := version;
    }

    method Append(bytes: Bytes)
      modifies this`buf
      ensures Abstract() == Arrive(old(Abstract()), bytes)
    {
      buf := buf + bytes;
    }

    method PollDecode() returns (r: PollResult)
      modifies this
      ensures (Abstract(), r) == Poll(old(Abstract()))
    {
      hide FixedHeader, VariableHeader, Payload;
      if buf == [] {
        return Pending;
      }
      match state {
        case Done =>
          if |buf| < 2 {
            return Pending;
          }
          var header := FixedHeader(buf);
          if !header.Ok? {
            return Broken(header);
          }
          tmpPacket, remainingLength := header.value.0, header.value.1;
          buf := buf[header.used..];
          state := FixedHeaderDecoded;
          remainLengthCounter := 0;
          return Pending;
        case FixedHeaderDecoded =>
          var header := ReadVariableHeader(tmpPacket, buf, remainingLength, protocolVersion);
          if !header.Ok? {
            return Broken(header);
          }
          buf := buf[header.used..];
          remainLengthCounter := remainLengthCounter + header.used;
          tmpPacket := header.value;
          if remainLengthCounter == remainingLength {
            state := Done;
            tmpPacket := UNDEFINED;
            return Ready(header.value);
          }
          state := VariableHeaderDecoded;
          return Pending;
        case VariableHeaderDecoded =>
          var taken := buf;
          buf := [];
          var packet, rest := ReadPayload(tmpPacket, taken);
          if !packet.Ok? {
            return Broken(packet);
          }
          state := Done;
          buf := rest;
          tmpPacket := UNDEFINED;
          return Ready(packet.value);
      }
    }
  }

  // ---------------------------------------------------------------- progress

  function Rank(phase: Phase): nat {
    match phase
    case Done => 0
    case VariableHeaderDecoded => 1
    case FixedHeaderDecoded => 2
  }

  /** A poll that neither waits nor fails uses up bytes, or moves on to a later phase. */
  lemma PollProgress(st: State)
    requires !Idle(st) && Poll(st).1.Good()
    ensures var next := Poll(st).0;
            |next.buf| < |st.buf| || (|next.buf| == |st.buf| && Rank(next.phase) < Rank(st.phase))
    ensures 3 * |Poll(st).0.buf| + Rank(Poll(st).0.phase) < 3 * |st.buf| + Rank(st.phase)
  {
    hide FixedHeader, VariableHeader, Payload;
  }

  lemma TwoBytesAreEnoughToAct(st: State)
    ensures |st.buf| >= 2 ==> !Idle(st)
    ensures Idle(st) <==> Poll(st) == (st, Pending)
  {
    hide FixedHeader, VariableHeader, Payload;
  }

  /** What a failing poll leaves behind: the state as it was, but no bytes after a payload. */
  lemma FailedPoll(st: State)
    requires !Poll(st).1.Good()
    ensures Poll(st).0 == if st.phase == VariableHeaderDecoded then st.(buf := []) else st
  {
    hide FixedHeader, VariableHeader, Payload;
  }

  lemma PollKeepsVersion(st: State)
    ensures Poll(st).0.version == st.version
  {
    hide FixedHeader, VariableHeader, Payload;
  }

  // ---------------------------------------------------------------- runs

  datatype Trace = Trace(packets: seq<ControlPacket>, state: State, good: bool)

  function Emit(r: PollResult, rest: Trace): Trace {
    if r.Ready? then rest.(packets := [r.packet] + rest.packets) else rest
  }

  function Emitted(r: PollResult): seq<ControlPacket> {
    if r.Ready? then [r.packet] else []
  }

  /** One poll after each arrival of bytes, until one fails. */
  function Run(st: State, chunks: seq<Bytes>): Trace
    decreases |chunks|
  {
    if chunks == [] then Trace([], st, true)
    else
      var (next, r) := Poll(Arrive(st, chunks[0]));
      if r.Good() then Emit(r, Run(next, chunks[1..])) else Trace([], next, false)
  }

  /** Polls until the decoder waits for bytes or fails. */
  function Drain(st: State): Trace
    decreases |st.buf|, Rank(st.phase)
  {
    if Idle(st) then Trace([], st, true)
    else
      var (next, r) := Poll(st);
      if r.Good() then
        PollProgress(st);
        Emit(r, Drain(next))
      else Trace([], next, false)
  }

  /** How many polls draining takes. */
  function Polls(st: State): nat
    decreases |st.buf|, Rank(st.phase)
  {
    if Idle(st) then 0
    else if Poll(st).1.Good() then
      PollProgress(st);
      1 + Polls(Poll(st).0)
    else 1
  }

  lemma {:induction false} PollsBounded(st: State)
    ensures Polls(st) <= 3 * |st.buf| + Rank(st.phase)
    decreases |st.buf|, Rank(st.phase)
  {
    hide Poll;
    if !Idle(st) && Poll(st).1.Good() {
      PollProgress(st);
      PollsBounded(Poll(st).0);
    }
  }

  function Flat(chunks: seq<Bytes>): Bytes {
    if chunks == [] then [] else chunks[0] + Flat(chunks[1..])
  }

  // ---------------------------------------------------------------- streaming agreement

  /** A poll that acts and succeeds does the same when more bytes are there already. */
  lemma PollStable(st: State, t: Bytes)
    requires !Idle(st) && Poll(st).1.Good()
    ensures !Idle(Arrive(st, t))
    ensures Poll(Arrive(st, t)) == (Arrive(Poll(st).0, t), Poll(st).1)
  {
    hide FixedHeader, VariableHeader, Payload;
    match st.phase {
      case Done =>
        FixedHeaderStable(st.buf, t);
        DropAppend(st.buf, t, FixedHeader(st.buf).used);
      case FixedHeaderDecoded =>
        VariableHeaderStable(st.packet, st.buf, st.remaining, st.version, t);
        DropAppend(st.buf, t, VariableHeader(st.packet, st.buf, st.remaining, st.version).used);
      case VariableHeaderDecoded =>
        PayloadStable(st.packet, st.buf, t);
        DropAppend(st.buf, t, Payload(st.packet, st.buf).used);
    }
  }

  function Before(packets: seq<ControlPacket>, rest: Trace): Trace {
    rest.(packets := packets + rest.packets)
  }

  lemma EmitBefore(r: PollResult, packets: seq<ControlPacket>, rest: Trace)
    ensures Emit(r, Before(packets, rest)) == Before(Emit(r, Trace(packets, rest.state, rest.good)).packets, rest)
  {
    if r.Ready? {
      assert [r.packet] + (packets + rest.packets) == ([r.packet] + packets) + rest.packets;
    }
  }

  /**
   * Streaming agreement. Whatever the schedule of arrivals, if no poll fails then having
   * all the bytes from the start emits what the schedule emitted, and then what is left
   * to emit from the state the schedule ended in.
   */
  lemma {:induction false} RunAgreesWithDrain(st: State, chunks: seq<Bytes>, t: Bytes)
    requires Run(st, chunks).good
    ensures Drain(Arrive(st, Flat(chunks) + t))
         == Before(Run(st, chunks).packets, Drain(Arrive(Run(st, chunks).state, t)))
    decreases |chunks|
  {
    hide Idle, Poll;
    if chunks == [] {
      assert [] + t == t;
      assert Before([], Drain(Arrive(st, t))) == Drain(Arrive(st, t)) by {
        assert [] + Drain(Arrive(st, t)).packets == Drain(Arrive(st, t)).packets;
      }
    } else {
      var all := Flat(chunks[1..]) + t;
      var a := Arrive(st, chunks[0]);
      assert st.buf + (Flat(chunks) + t) == a.buf + all;
      var (next, r) := Poll(a);
      RunAgreesWithDrain(next, chunks[1..], t);
      if Idle(a) {
        TwoBytesAreEnoughToAct(a);
      } else {
        PollStable(a, all);
        EmitBefore(r, Run(next, chunks[1..]).packets, Drain(Arrive(Run(next, chunks[1..]).state, t)));
      }
    }
  }

  /** A run goes on from the state it ended in. */
  lemma {:induction false} RunSnoc(st: State, chunks: seq<Bytes>, bytes: Bytes)
    requires Run(st, chunks).good && Poll(Arrive(Run(st, chunks).state, bytes)).1.Good()
    ensures var (next, r) := Poll(Arrive(Run(st, chunks).state, bytes));
            Run(st, chunks + [bytes]) == Trace(Run(st, chunks).packets + Emitted(r), next, true)
    decreases |chunks|
  {
    hide Poll;
    if chunks == [] {
      assert [bytes][1..] == [];
    } else {
      assert (chunks + [bytes])[1..] == chunks[1..] + [bytes];
      var (first, r) := Poll(Arrive(st, chunks[0]));
      RunSnoc(first, chunks[1..], bytes);
    }
  }

  /** The packets emitted under any schedule are a prefix of those all the bytes give at once. */
  lemma StreamingAgreement(st: State, chunks: seq<Bytes>)
    requires Run(st, chunks).good
    ensures Run(st, chunks).packets <= Drain(Arrive(st, Flat(chunks))).packets
  {
    hide Run, Drain;
    RunAgreesWithDrain(st, chunks, []);
    assert Flat(chunks) + [] == Flat(chunks);
  }

  // ---------------------------------------------------------------- frames

  /** One frame decoded from the front of `s`, phase after phase. */
  function Frame(s: Bytes, version: Option<Byte>): (r: Parsed<ControlPacket>)
    ensures r.Ok? ==> r.used <= |s|
  {
    var (blank, n) :- FixedHeader(s);
    var (packet, m) :- VariableHeader(blank.0, s[n..], blank.1, version);
    if m == blank.1 then Ok(packet, n + m)
    else
      var (whole, k) :- Payload(packet, s[n + m..]);
      Ok(whole, n + m + k)
  }

  lemma FrameStable(s: Bytes, version: Option<Byte>, t: Bytes)
    requires Frame(s, version).Ok?
    ensures Frame(s + t, version) == Frame(s, version)
  {
    hide FixedHeader, VariableHeader, Payload;
    FixedHeaderStable(s, t);
    var n := FixedHeader(s).used;
    var blank := FixedHeader(s).value;
    DropAppend(s, t, n);
    VariableHeaderStable(blank.0, s[n..], blank.1, version, t);
    var header := VariableHeader(blank.0, s[n..], blank.1, version);
    if header.used != blank.1 {
      DropAppend(s, t, n + header.used);
      PayloadStable(header.value, s[n + header.used..], t);
    }
  }

  // No phase of the frame at the front of `s` starts with an empty buffer.
  predicate NeverStarved(s: Bytes, version: Option<Byte>)
    requires Frame(s, version).Ok?
  {
    var blank := FixedHeader(s);
    var header := VariableHeader(blank.value.0, s[blank.used..], blank.value.1, version);
    blank.used < |s| && (header.used != blank.value.1 ==> blank.used + header.used < |s|)
  }

  ghost predicate Settled(st: State, version: Option<Byte>, buf: Bytes) {
    st.phase == Done && st.packet == UNDEFINED && st.version == version && st.buf == buf
  }

  lemma DrainStep(st: State)
    requires !Idle(st) && Poll(st).1.Good()
    ensures Drain(st) == Emit(Poll(st).1, Drain(Poll(st).0))
  {
    hide Poll, Emit;
  }

  lemma PollsOfHeaders(st: State)
    requires st.phase == Done && Frame(st.buf, st.version).Ok? && NeverStarved(st.buf, st.version)
    ensures var s, v := st.buf, st.version;
            var blank := FixedHeader(s);
            var header := VariableHeader(blank.value.0, s[blank.used..], blank.value.1, v);
            var (st1, r1) := Poll(st);
            var (st2, r2) := Poll(st1);
            && !Idle(st) && r1 == Pending && !Idle(st1)
            && st1.phase == FixedHeaderDecoded && st1.buf == s[blank.used..]
            && st2.version == v && st2.buf == s[blank.used + header.used..]
            && if header.used == blank.value.1 then
                 r2 == Ready(header.value) && st2.phase == Done && st2.packet == UNDEFINED
               else
                 r2 == Pending && !Idle(st2) && st2.phase == VariableHeaderDecoded && st2.packet == header.value
  {
    hide FixedHeader, VariableHeader, Payload;
    var s := st.buf;
    var n := FixedHeader(s).used;
    var header := VariableHeader(FixedHeader(s).value.0, s[n..], FixedHeader(s).value.1, st.version);
    assert s[n..][header.used..] == s[n + header.used..];
  }

  lemma PollsOfFrame(st: State)
    requires st.phase == Done && Frame(st.buf, st.version).Ok? && NeverStarved(st.buf, st.version)
    ensures var frame := Frame(st.buf, st.version);
            var (st1, r1) := Poll(st);
            var (st2, r2) := Poll(st1);
            && !Idle(st) && r1 == Pending && !Idle(st1)
            && if r2.Ready? then
                 r2 == Ready(frame.value) && Settled(st2, st.version, st.buf[frame.used..])
               else
                 var (st3, r3) := Poll(st2);
                 && r2 == Pending && !Idle(st2)
                 && r3 == Ready(frame.value) && Settled(st3, st.version, st.buf[frame.used..])
  {
    hide FixedHeader, VariableHeader, Payload, PollFixedHeader, PollVariableHeader, NeverStarved, Idle;
    PollsOfHeaders(st);
    var s := st.buf;
    var n := FixedHeader(s).used;
    var header := VariableHeader(FixedHeader(s).value.0, s[n..], FixedHeader(s).value.1, st.version);
    if header.used != FixedHeader(s).value.1 {
      var whole := Payload(header.value, s[n + header.used..]);
      assert s[n + header.used..][whole.used..] == s[n + header.used + whole.used..];
    }
  }

  /** Draining a buffer that starts with a frame emits its packet and goes on behind it. */
  lemma DrainFrame(st: State) returns (next: State)
    requires st.phase == Done && Frame(st.buf, st.version).Ok? && NeverStarved(st.buf, st.version)
    ensures Settled(next, st.version, st.buf[Frame(st.buf, st.version).used..])
    ensures Drain(st) == Before([Frame(st.buf, st.version).value], Drain(next))
  {
    hide FixedHeader, VariableHeader, Payload, Poll, Drain, Idle, Frame, Settled, NeverStarved;
    PollsOfFrame(st);
    var st1 := Poll(st).0;
    var st2 := Poll(st1).0;
    DrainStep(st);
    DrainStep(st1);
    if Poll(st1).1.Ready? {
      next := st2;
    } else {
      DrainStep(st2);
      next := Poll(st2).0;
    }
  }

  /** Polls until a packet is emitted, or the decoder waits or fails. */
  function UntilPacket(st: State): (State, Option<ControlPacket>)
    decreases |st.buf|, Rank(st.phase)
  {
    if Idle(st) then (st, None)
    else
      var (next, r) := Poll(st);
      match r
      case Ready(packet) => (next, Some(packet))
      case Pending =>
        PollProgress(st);
        UntilPacket(next)
      case _ => (next, None)
  }

  lemma UntilPacketTurn(st: State)
    requires !Idle(st)
    ensures Poll(st).1.Ready? ==> UntilPacket(st) == (Poll(st).0, Some(Poll(st).1.packet))
    ensures Poll(st).1.Pending? ==> UntilPacket(st) == UntilPacket(Poll(st).0)
  {
    hide Poll;
    if Poll(st).1.Pending? {
      PollProgress(st);
    }
  }

  /** The first packet comes out at the same byte, however the bytes arrive. */
  lemma {:induction false} RunUntilPacket(st: State, chunks: seq<Bytes>, t: Bytes)
    requires chunks != [] && Run(st, chunks).good && Run(st, chunks).packets != []
    requires Run(st, chunks[..|chunks| - 1]).packets == []
    ensures |Run(st, chunks).packets| == 1
    ensures UntilPacket(Arrive(st, Flat(chunks) + t))
         == (Arrive(Run(st, chunks).state, t), Some(Run(st, chunks).packets[0]))
    decreases |chunks|
  {
    hide Idle, Poll, UntilPacket;
    var a := Arrive(st, chunks[0]);
    var (next, r) := Poll(a);
    var all := Flat(chunks[1..]) + t;
    assert st.buf + (Flat(chunks) + t) == a.buf + all;
    assert Arrive(a, all) == Arrive(st, Flat(chunks) + t);
    if Idle(a) {
      TwoBytesAreEnoughToAct(a);
    } else {
      PollStable(a, all);
      UntilPacketTurn(Arrive(a, all));
    }
    if |chunks| == 1 {
      assert chunks[1..] == [] && [] + t == t;
      RunOfNone(next);
    } else {
      var before := chunks[..|chunks| - 1];
      assert before[1..] == chunks[1..][..|chunks[1..]| - 1];
      RunUntilPacket(next, chunks[1..], t);
    }
  }

  lemma RunOfNone(st: State)
    ensures Run(st, []) == Trace([], st, true) && Flat([]) == []
  {
  }

  /** Before a buffer that starts with a frame, the first packet is that frame's. */
  lemma FrameUntilPacket(st: State) returns (next: State)
    requires st.phase == Done && Frame(st.buf, st.version).Ok? && NeverStarved(st.buf, st.version)
    ensures Settled(next, st.version, st.buf[Frame(st.buf, st.version).used..])
    ensures UntilPacket(st) == (next, Some(Frame(st.buf, st.version).value))
  {
    hide FixedHeader, VariableHeader, Payload, Poll, UntilPacket, Idle, Frame, Settled, NeverStarved;
    PollsOfFrame(st);
    var st1 := Poll(st).0;
    var st2 := Poll(st1).0;
    UntilPacketTurn(st);
    UntilPacketTurn(st1);
    if Poll(st1).1.Ready? {
      next := st2;
    } else {
      UntilPacketTurn(st2);
      next := Poll(st2).0;
    }
  }

  /** Bytes that are one frame, no more and no less. */
  predicate ExactFrame(b: Bytes, version: Option<Byte>) {
    Frame(b, version).Ok? && Frame(b, version).used == |b|
  }

  // A frame that needs no bytes behind it to be read.
  ghost predicate WholeFrame(b: Bytes, version: Option<Byte>) {
    ExactFrame(b, version) && NeverStarved(b, version)
  }

  /** The declared Remaining Length of the frame at the front of `s`, and where its body starts. */
  function DeclaredLength(s: Bytes): nat
    requires FixedHeader(s).Ok?
  {
    FixedHeader(s).value.1
  }

  lemma VariableHeaderKeepsType(packet: ControlPacket, s: Bytes, remaining: nat, version: Option<Byte>)
    requires VariableHeader(packet, s, remaining, version).Ok?
    ensures var r := VariableHeader(packet, s, remaining, version);
            match packet
            case PUBLISH(_) => r.value.PUBLISH? && 2 <= r.used == remaining - r.value.publish.payloadLength
            case SUBSCRIBE(_) => r.value.SUBSCRIBE? && 2 <= r.used == remaining - r.value.subscribe.payloadLength
            case UNSUBSCRIBE(_) => r.value.UNSUBSCRIBE? && 2 <= r.used == remaining - r.value.unsubscribe.payloadLength
            case PUBACK(_) => r.value.PUBACK? && r.used == 2
            case PUBREC(_) => r.value.PUBREC? && r.used == 2
            case PUBCOMP(_) => r.value.PUBCOMP? && r.used == 2
            case PUBREL(_) => r.value.PUBREL? && 2 <= r.used && (remaining == 2 ==> r.used == 2)
            case CONNECT(_) => r.value.CONNECT? && 2 <= r.used
            case DISCONNECT(_) => r.value.DISCONNECT? && (r.used == 0 <==> remaining == 0)
            case PINGREQ => r.value.PINGREQ?
            case _ => false
  {
    hide PublishVariableHeader, SubscribeVariableHeader, UnsubscribeVariableHeader, ConnectVariableHeader,
      DisconnectVariableHeader;
  }

  lemma PayloadUses(packet: ControlPacket, s: Bytes)
    requires Payload(packet, s).Ok?
    ensures match packet
            case PUBLISH(p) => Payload(packet, s).used == p.payloadLength
            case SUBSCRIBE(p) => Payload(packet, s).used == p.payloadLength
            case UNSUBSCRIBE(p) => Payload(packet, s).used == p.payloadLength
            case CONNECT(_) => 2 <= Payload(packet, s).used
            case _ => Payload(packet, s).used == 0
  {
    hide Subscriptions, Filters, WillPart, CredentialsPart, Utf8;
  }

  /**
   * What the fixed header and the number of bytes say: the frame is as long as it declares,
   * and declares something. CONNECT, whose decoder ignores the length, needs neither.
   */
  predicate FedToItsEnd(b: Bytes) {
    && FixedHeader(b).Ok?
    && (|| FixedHeader(b).value.0.CONNECT?
        || (|b| == FixedHeader(b).used + DeclaredLength(b) && DeclaredLength(b) != 0))
  }

  lemma NeverStarvedIff(b: Bytes, version: Option<Byte>)
    requires Frame(b, version).Ok? && Frame(b, version).used == |b|
    ensures NeverStarved(b, version) <==> FedToItsEnd(b)
    ensures |b| == FixedHeader(b).used + DeclaredLength(b) && !FedToItsEnd(b) ==> DeclaredLength(b) == 0
    ensures |b| == FixedHeader(b).used + DeclaredLength(b) && DeclaredLength(b) == 0 ==>
              Frame(b, version).value.DISCONNECT?
  {
    hide FixedHeader, VariableHeader, Payload;
    NoPingreq(b);
    var n, blank := FixedHeader(b).used, FixedHeader(b).value;
    var header := VariableHeader(blank.0, b[n..], blank.1, version);
    VariableHeaderKeepsType(blank.0, b[n..], blank.1, version);
    if header.used != blank.1 {
      PayloadUses(header.value, b[n + header.used..]);
      PayloadKeepsType(header.value, b[n + header.used..]);
    }
  }

  lemma NoPingreq(s: Bytes)
    ensures FixedHeader(s).Ok? ==> !FixedHeader(s).value.0.PINGREQ?
  {
    hide VarInt;
  }

  lemma PayloadKeepsType(packet: ControlPacket, s: Bytes)
    requires Payload(packet, s).Ok?
    ensures packet.DISCONNECT? <==> Payload(packet, s).value.DISCONNECT?
    ensures packet.CONNECT? <==> Payload(packet, s).value.CONNECT?
  {
    hide Subscriptions, Filters, ConnectPayload, PublishPayload;
  }

  /**
   * A whole frame that is all there is gets decoded exactly when it is as long as it
   * declares and declares something, or is a CONNECT. Otherwise the decoder waits for bytes
   * that it does not need: behind an acknowledgement or DISCONNECT cut short, and behind
   * every DISCONNECT of length 0.
   */
  lemma FrameAloneIsEmittedIff(st: State)
    requires st.phase == Done && Frame(st.buf, st.version).Ok? && Frame(st.buf, st.version).used == |st.buf|
    ensures Drain(st).packets == if FedToItsEnd(st.buf) then [Frame(st.buf, st.version).value] else []
    ensures Drain(st).good && Drain(st).state.buf == []
    ensures |st.buf| == FixedHeader(st.buf).used + DeclaredLength(st.buf) && Drain(st).packets == [] ==>
              DeclaredLength(st.buf) == 0 && Frame(st.buf, st.version).value.DISCONNECT?
  {
    hide Frame, Drain, NeverStarved, FedToItsEnd;
    NeverStarvedIff(st.buf, st.version);
    if NeverStarved(st.buf, st.version) {
      var next := DrainFrame(st);
      assert st.buf[|st.buf|..] == [];
      DrainIdle(next);
      assert [Frame(st.buf, st.version).value] + [] == [Frame(st.buf, st.version).value];
    } else {
      StarvedFrameWaits(st);
    }
  }

  lemma DrainIdle(st: State)
    requires Idle(st)
    ensures Drain(st) == Trace([], st, true)
  {
  }

  lemma StarvedFrameWaits(st: State)
    requires st.phase == Done && Frame(st.buf, st.version).Ok? && Frame(st.buf, st.version).used == |st.buf|
    requires !NeverStarved(st.buf, st.version)
    ensures Drain(st).packets == [] && Drain(st).good && Drain(st).state.buf == []
  {
    hide FixedHeader, VariableHeader, Payload, Drain;
    var n := FixedHeader(st.buf).used;
    var st1 := Poll(st).0;
    DrainStep(st);
    if n == |st.buf| {
      DrainIdle(st1);
    } else {
      var header := VariableHeader(FixedHeader(st.buf).value.0, st.buf[n..], FixedHeader(st.buf).value.1, st.version);
      assert st.buf[n..][header.used..] == st.buf[n + header.used..];
      DrainStep(st1);
      DrainIdle(Poll(st1).0);
    }
  }

  const BARE_DISCONNECT: Bytes := [0xE0, 0x00]

  /** The DISCONNECT of two bytes, legal at every version, is such a frame. */
  lemma BareDisconnectWaits(version: Option<Byte>)
    ensures ExactFrame(BARE_DISCONNECT, version)
    ensures Frame(BARE_DISCONNECT, version).value == DISCONNECT(Disconnect(0, None))
    ensures !FedToItsEnd(BARE_DISCONNECT)
    ensures Drain(State(Done, UNDEFINED, version, 0, 0, BARE_DISCONNECT)).packets == []
  {
    var b := BARE_DISCONNECT;
    assert b[1..] == [0x00];
    assert FixedHeader(b).Ok? && FixedHeader(b).used == 2 && DeclaredLength(b) == 0;
    FrameAloneIsEmittedIff(State(Done, UNDEFINED, version, 0, 0, b));
  }

  lemma ConnectIsFed(b: Bytes, version: Option<Byte>)
    requires Frame(b, version).Ok? && Frame(b, version).value.CONNECT?
    ensures FedToItsEnd(b)
  {
    hide FixedHeader, VariableHeader, Payload;
    var n, blank := FixedHeader(b).used, FixedHeader(b).value;
    var header := VariableHeader(blank.0, b[n..], blank.1, version);
    VariableHeaderKeepsType(blank.0, b[n..], blank.1, version);
    if header.used != blank.1 {
      PayloadKeepsType(header.value, b[n + header.used..]);
    }
  }

  ghost predicate AllExact(frames: seq<Bytes>, version: Option<Byte>) {
    forall b :: b in frames ==> ExactFrame(b, version)
  }

  ghost function PacketsOf(frames: seq<Bytes>, version: Option<Byte>): (packets: seq<ControlPacket>)
    requires AllExact(frames, version)
    ensures |packets| == |frames|
  {
    if frames == [] then []
    else
      assert frames[0] in frames;
      [Frame(frames[0], version).value] + PacketsOf(frames[1..], version)
  }

  // Only the last frame can wait for bytes behind it.
  predicate EndsFed(frames: seq<Bytes>) {
    frames == [] || FedToItsEnd(frames[|frames| - 1])
  }

  /** The packets that the frames give when nothing follows: all, or all but the last. */
  ghost function Expected(frames: seq<Bytes>, version: Option<Byte>): seq<ControlPacket>
    requires AllExact(frames, version)
  {
    PacketsOf(if EndsFed(frames) then frames else frames[..|frames| - 1], version)
  }

  lemma AllEmittedIff(frames: seq<Bytes>, version: Option<Byte>)
    requires AllExact(frames, version)
    ensures Expected(frames, version) == PacketsOf(frames, version) <==> EndsFed(frames)
  {
    hide EndsFed, ExactFrame, PacketsOf;
    if !EndsFed(frames) {
      assert frames != [] by {
        NoneIsFed();
      }
      assert |PacketsOf(frames[..|frames| - 1], version)| == |frames| - 1;
    }
  }

  lemma NoneIsFed()
    ensures EndsFed([])
  {
  }

  lemma {:induction false} FlatSnoc(chunks: seq<Bytes>, b: Bytes)
    ensures Flat(chunks + [b]) == Flat(chunks) + b
    decreases |chunks|
  {
    if chunks == [] {
      assert [b][1..] == [] && b + [] == b && [] + b == b;
    } else {
      assert (chunks + [b])[1..] == chunks[1..] + [b];
      FlatSnoc(chunks[1..], b);
      assert chunks[0] + (Flat(chunks[1..]) + b) == (chunks[0] + Flat(chunks[1..])) + b;
    }
  }

  lemma FramesAreNotEmpty(b: Bytes, version: Option<Byte>)
    requires ExactFrame(b, version)
    ensures |b| >= 2
  {
    hide FixedHeader, VariableHeader, Payload;
  }

  // No frame is starved that has anything behind it.
  lemma NeverStarvedBefore(b: Bytes, version: Option<Byte>, t: Bytes)
    requires ExactFrame(b, version) && (t != [] || FedToItsEnd(b))
    ensures Frame(b + t, version) == Frame(b, version) && NeverStarved(b + t, version)
  {
    if t == [] {
      NeverStarvedIff(b, version);
      assert b + t == b;
    } else {
      hide FixedHeader, VariableHeader, Payload;
      FrameStable(b, version, t);
      FixedHeaderStable(b, t);
      var n, blank := FixedHeader(b).used, FixedHeader(b).value;
      DropAppend(b, t, n);
      VariableHeaderStable(blank.0, b[n..], blank.1, version, t);
    }
  }

  /** Draining concatenated frames emits their packets, in order, and goes on behind them. */
  lemma {:induction false} DrainFrames(frames: seq<Bytes>, st: State, t: Bytes) returns (end: State)
    requires AllExact(frames, st.version) && Settled(st, st.version, Flat(frames) + t)
    requires t != [] || EndsFed(frames)
    ensures Settled(end, st.version, t)
    ensures Drain(st) == Before(PacketsOf(frames, st.version), Drain(end))
    decreases |frames|
  {
    hide Frame, NeverStarved, Drain, FedToItsEnd;
    if frames == [] {
      assert [] + t == t;
      assert [] + Drain(st).packets == Drain(st).packets;
      end := st;
    } else {
      var b, others := frames[0], frames[1..];
      var rest := Flat(others);
      assert b in frames && ExactFrame(b, st.version);
      assert (b + rest) + t == b + (rest + t);
      if others != [] {
        assert others[0] in frames && EndsFed(others) == EndsFed(frames);
        FramesAreNotEmpty(others[0], st.version);
      }
      NeverStarvedBefore(b, st.version, rest + t);
      var next := DrainFrame(st);
      assert (b + (rest + t))[|b|..] == rest + t;
      assert AllExact(others, st.version);
      end := DrainFrames(others, next, t);
      var first := [Frame(b, st.version).value];
      assert first + (PacketsOf(others, st.version) + Drain(end).packets)
          == (first + PacketsOf(others, st.version)) + Drain(end).packets;
    }
  }

  /** When nothing follows the frames, draining emits what is expected and uses all the bytes. */
  lemma DrainsToExpected(frames: seq<Bytes>, st: State)
    requires AllExact(frames, st.version) && Settled(st, st.version, Flat(frames))
    ensures Drain(st).good && Drain(st).packets == Expected(frames, st.version) && Drain(st).state.buf == []
    ensures EndsFed(frames) ==> Drain(st).state.phase == Done
  {
    hide Drain, EndsFed, Frame, FedToItsEnd, PacketsOf;
    assert Flat(frames) + [] == Flat(frames);
    if EndsFed(frames) {
      var end := DrainFrames(frames, st, []);
      DrainIdle(end);
      assert Expected(frames, st.version) + [] == Expected(frames, st.version);
    } else {
      NoneIsFed();
      var before, last := frames[..|frames| - 1], frames[|frames| - 1];
      assert frames == before + [last];
      FlatSnoc(before, last);
      assert last in frames && ExactFrame(last, st.version);
      FramesAreNotEmpty(last, st.version);
      var end := DrainFrames(before, st, last);
      LastIsNotFed(frames);
      FrameAloneIsEmittedIff(end);
      assert Expected(frames, st.version) + [] == Expected(frames, st.version);
    }
  }

  lemma LastIsNotFed(frames: seq<Bytes>)
    requires !EndsFed(frames)
    ensures frames != [] && !FedToItsEnd(frames[|frames| - 1])
  {
  }

  /**
   * Any list of frames, cut into chunks in any way: what a run without errors has emitted,
   * and then what polling on emits, are exactly the packets of the frames, less the last
   * one's if it is starved, and the buffer ends empty.
   */
  lemma FramesInAnyChunks(frames: seq<Bytes>, st: State, before: Bytes, chunks: seq<Bytes>)
    requires AllExact(frames, st.version) && Settled(st, st.version, before)
    requires before + Flat(chunks) == Flat(frames) && Run(st, chunks).good
    ensures var rest := Drain(Run(st, chunks).state);
            && rest.good && rest.state.buf == [] && (EndsFed(frames) ==> rest.state.phase == Done)
            && Run(st, chunks).packets + rest.packets == Expected(frames, st.version)
  {
    hide Run, Drain, AllExact, EndsFed, Expected;
    assert Flat(chunks) + [] == Flat(chunks);
    DrainsToExpected(frames, Arrive(st, Flat(chunks)));
    RunAgreesWithDrain(st, chunks, []);
    assert Run(st, chunks).state.buf + [] == Run(st, chunks).state.buf;
  }

  ghost predicate AllWhole(frames: seq<Bytes>, version: Option<Byte>) {
    forall b :: b in frames ==> WholeFrame(b, version)
  }

  lemma WholeFramesEndFed(frames: seq<Bytes>, version: Option<Byte>)
    requires AllWhole(frames, version)
    ensures AllExact(frames, version) && EndsFed(frames)
  {
    hide Frame, NeverStarved, FedToItsEnd;
    forall b | b in frames ensures ExactFrame(b, version) && FedToItsEnd(b) {
      assert WholeFrame(b, version);
      NeverStarvedIff(b, version);
    }
  }

  /** In particular, when no frame needs bytes behind it, the packets are those of all the frames. */
  lemma WholeFramesInAnyChunks(frames: seq<Bytes>, st: State, before: Bytes, chunks: seq<Bytes>)
    requires AllWhole(frames, st.version) && Settled(st, st.version, before)
    requires before + Flat(chunks) == Flat(frames) && Run(st, chunks).good
    ensures AllExact(frames, st.version)
    ensures var rest := Drain(Run(st, chunks).state);
            && rest.good && rest.state.buf == [] && rest.state.phase == Done
            && Run(st, chunks).packets + rest.packets == PacketsOf(frames, st.version)
  {
    hide Run, Drain, AllWhole, EndsFed;
    WholeFramesEndFed(frames, st.version);
    FramesInAnyChunks(frames, st, before, chunks);
  }

  // The length of a property section from its own length field; none below version 5.
  function SectionLength(s: Bytes, pos: nat, version: Option<Byte>): nat {
    if version.None? || version.value < 5 || pos > |s| || !VarInt(s[pos..]).Ok? then 0
    else VarInt(s[pos..]).used + VarInt(s[pos..]).value
  }

  lemma PubrelUses(a: Ack, s: Bytes, remaining: nat, version: Option<Byte>)
    requires PubrelVariableHeader(a, s, remaining, version).Ok?
    ensures PubrelVariableHeader(a, s, remaining, version).used
         == if remaining == 2 then 2 else 3 + SectionLength(s, 3, version)
  {
    hide U16, VarInt;
    if remaining != 2 {
      assert s[2..][1..] == s[3..];
    }
  }

  lemma DisconnectUses(d: Disconnect, s: Bytes, remaining: nat, version: Option<Byte>)
    requires DisconnectVariableHeader(d, s, remaining, version).Ok?
    ensures DisconnectVariableHeader(d, s, remaining, version).used
         == if remaining == 0 then 0 else 1 + SectionLength(s, 1, version)
  {
    hide VarInt, KnownDisconnectReason;
  }

  /**
   * Exact framing. PUBLISH, SUBSCRIBE and UNSUBSCRIBE use exactly the bytes their length
   * declares. PUBACK, PUBREC and PUBCOMP do exactly when it declares two; PUBREL and
   * DISCONNECT when it is their shortest one, or agrees with the length of the properties.
   */
  lemma ExactFraming(s: Bytes, version: Option<Byte>)
    requires Frame(s, version).Ok?
    ensures var exact := Frame(s, version).used == FixedHeader(s).used + DeclaredLength(s);
            var body := s[FixedHeader(s).used..];
            match Frame(s, version).value
            case PUBLISH(_) => exact
            case SUBSCRIBE(_) => exact
            case UNSUBSCRIBE(_) => exact
            case PUBACK(_) => exact <==> DeclaredLength(s) == 2
            case PUBREC(_) => exact <==> DeclaredLength(s) == 2
            case PUBCOMP(_) => exact <==> DeclaredLength(s) == 2
            case PUBREL(_) =>
              exact <==> DeclaredLength(s) == 2 || DeclaredLength(s) == 3 + SectionLength(body, 3, version)
            case DISCONNECT(_) =>
              exact <==> DeclaredLength(s) == 0 || DeclaredLength(s) == 1 + SectionLength(body, 1, version)
            case _ => true
  {
    hide FixedHeader, ConnectPayload, Subscriptions, Filters, SectionLength;
    hide PublishVariableHeader, SubscribeVariableHeader, UnsubscribeVariableHeader, ConnectVariableHeader;
    hide DisconnectVariableHeader, PubrelVariableHeader, AckVariableHeader;
    var blank := FixedHeader(s);
    var body := s[blank.used..];
    VariableHeaderKeepsType(blank.value.0, body, blank.value.1, version);
    match blank.value.0
    case PUBREL(a) => PubrelUses(a, body, blank.value.1, version);
    case DISCONNECT(d) => DisconnectUses(d, body, blank.value.1, version);
    case _ =>
  }
}
