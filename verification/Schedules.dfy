// Which arrivals of bytes the decoder survives. It decodes a part of a frame as soon as
// any of the part is there, so a poll that comes while one is incomplete ends the stream.
module Schedules {
  import opened Wire
  import opened PacketDecoder
  import opened StreamDecoder
  import opened Locality

  /** Of a poll that acts: with less of the bytes, it succeeds exactly if it uses no others. */
  lemma PollSucceedsIff(st: State, t: Bytes)
    requires !Idle(st)
    ensures !Idle(Arrive(st, t))
    ensures var (next, r) := Poll(Arrive(st, t)); Poll(st).1.Good() <==> r.Good() && |t| <= |next.buf|
  {
    hide FixedHeader, VariableHeader, Payload;
    if Poll(st).1.Good() {
      PollStable(st, t);
    }
    if Poll(Arrive(st, t)).1.Good() && |t| <= |Poll(Arrive(st, t)).0.buf| {
      match st.phase
      case Done => FixedHeaderLocal(st.buf, t);
      case FixedHeaderDecoded => VariableHeaderLocal(st.packet, st.buf, st.remaining, st.version, t);
      case VariableHeaderDecoded => PayloadLocal(st.packet, st.buf, t);
    }
  }

  // ---------------------------------------------------------------- keeping step

  // What one poll takes from the buffer. A fixed header is not begun with less than two bytes.
  datatype Part = Part(length: nat, opens: bool)

  /**
   * Arrivals of these sizes keep step with the parts: after each of them, the part that is
   * due is complete, or nothing of it is there. Only lengths matter.
   */
  predicate KeepsStep(have: nat, parts: seq<Part>, sizes: seq<nat>)
    decreases |sizes|
  {
    sizes == [] ||
    var now := have + sizes[0];
    if now == 0 || parts == [] || (parts[0].opens && now < 2) then KeepsStep(now, parts, sizes[1..])
    else parts[0].length <= now && KeepsStep(now - parts[0].length, parts[1..], sizes[1..])
  }

  function Sizes(chunks: seq<Bytes>): seq<nat> {
    if chunks == [] then [] else [|chunks[0]|] + Sizes(chunks[1..])
  }

  lemma StepTurn(have: nat, parts: seq<Part>, chunks: seq<Bytes>)
    requires chunks != []
    ensures var now := have + |chunks[0]|;
            KeepsStep(have, parts, Sizes(chunks)) <==>
              if now == 0 || parts == [] || (parts[0].opens && now < 2) then KeepsStep(now, parts, Sizes(chunks[1..]))
              else parts[0].length <= now && KeepsStep(now - parts[0].length, parts[1..], Sizes(chunks[1..]))
  {
    assert Sizes(chunks)[1..] == Sizes(chunks[1..]);
  }

  /** The parts that draining takes. */
  function Cuts(st: State): seq<Part>
    decreases |st.buf|, Rank(st.phase)
  {
    if Idle(st) || !Poll(st).1.Good() then []
    else
      PollProgress(st);
      [Part(|st.buf| - |Poll(st).0.buf|, st.phase == Done)] + Cuts(Poll(st).0)
  }

  lemma CutsTurn(st: State)
    requires !Idle(st) && Poll(st).1.Good()
    ensures |Poll(st).0.buf| <= |st.buf|
    ensures Cuts(st) == [Part(|st.buf| - |Poll(st).0.buf|, st.phase == Done)] + Cuts(Poll(st).0)
  {
    hide Poll, Idle;
    PollProgress(st);
  }

  lemma DrainTurn(st: State)
    requires !Idle(st) && Drain(st).good
    ensures Poll(st).1.Good() && Drain(Poll(st).0).good
  {
    hide Poll;
  }

  lemma WaitsTurn(a: State, all: Bytes)
    requires Idle(a)
    ensures var parts := Cuts(Arrive(a, all));
            |a.buf| == 0 || parts == [] || (parts[0].opens && |a.buf| < 2)
  {
    hide Poll;
  }

  /**
   * When the bytes decode at all, a schedule of their arrivals does without a failure
   * exactly if it keeps step with the parts. Bytes still to come make no difference.
   */
  lemma {:induction false} RunGoodIff(st: State, chunks: seq<Bytes>, t: Bytes)
    requires Drain(Arrive(st, Flat(chunks) + t)).good
    ensures Run(st, chunks).good <==> KeepsStep(|st.buf|, Cuts(Arrive(st, Flat(chunks) + t)), Sizes(chunks))
    decreases |chunks|
  {
    hide Poll, Idle, Drain, Cuts, KeepsStep, Sizes;
    if chunks == [] {
      NoChunks(|st.buf|, Cuts(Arrive(st, Flat(chunks) + t)));
    } else {
      var all := Flat(chunks[1..]) + t;
      var a := Arrive(st, chunks[0]);
      var whole := Arrive(a, all);
      assert st.buf + (Flat(chunks) + t) == a.buf + all;
      StepTurn(|st.buf|, Cuts(whole), chunks);
      if Idle(a) {
        TwoBytesAreEnoughToAct(a);
        WaitsTurn(a, all);
        RunGoodIff(a, chunks[1..], t);
      } else {
        PollSucceedsIff(a, all);
        DrainTurn(whole);
        CutsTurn(whole);
        ActsHere(a, all);
        if Poll(a).1.Good() {
          PollStable(a, all);
          RunGoodIff(Poll(a).0, chunks[1..], t);
        }
      }
    }
  }

  lemma NoChunks(have: nat, parts: seq<Part>)
    ensures KeepsStep(have, parts, Sizes([]))
  {
  }

  lemma ActsHere(a: State, all: Bytes)
    requires !Idle(a)
    ensures |a.buf| != 0 && !(a.phase == Done && |a.buf| < 2)
  {
  }

  // ---------------------------------------------------------------- the parts of frames

  /** Fixed header, variable header and, unless that is the whole of the length, payload. */
  function FrameParts(s: Bytes, version: Option<Byte>): (parts: seq<Part>)
    requires Frame(s, version).Ok?
    ensures |parts| >= 2
  {
    var blank := FixedHeader(s);
    var header := VariableHeader(blank.value.0, s[blank.used..], blank.value.1, version);
    [Part(blank.used, true), Part(header.used, false)]
    + if header.used == blank.value.1 then []
      else [Part(Frame(s, version).used - blank.used - header.used, false)]
  }

  lemma FramePartsStable(s: Bytes, version: Option<Byte>, t: Bytes)
    requires Frame(s, version).Ok?
    ensures Frame(s + t, version) == Frame(s, version)
    ensures FrameParts(s + t, version) == FrameParts(s, version)
  {
    hide FixedHeader, VariableHeader, Payload;
    FrameStable(s, version, t);
    FixedHeaderStable(s, t);
    var n, blank := FixedHeader(s).used, FixedHeader(s).value;
    DropAppend(s, t, n);
    VariableHeaderStable(blank.0, s[n..], blank.1, version, t);
  }

  lemma CutsOfFrame(st: State) returns (next: State)
    requires st.phase == Done && Frame(st.buf, st.version).Ok? && NeverStarved(st.buf, st.version)
    ensures Settled(next, st.version, st.buf[Frame(st.buf, st.version).used..])
    ensures Cuts(st) == FrameParts(st.buf, st.version) + Cuts(next)
    ensures Drain(st).good == Drain(next).good
  {
    hide FixedHeader, VariableHeader, Payload, Poll, Cuts, Drain, Idle, NeverStarved;
    PollsOfHeaders(st);
    PollsOfFrame(st);
    var st1 := Poll(st).0;
    var st2 := Poll(st1).0;
    CutsTurn(st);
    CutsTurn(st1);
    DrainStep(st);
    DrainStep(st1);
    if Poll(st1).1.Ready? {
      next := st2;
    } else {
      CutsTurn(st2);
      DrainStep(st2);
      next := Poll(st2).0;
    }
    var parts := FrameParts(st.buf, st.version);
    assert Cuts(st) == [parts[0]] + Cuts(st1);
    assert Cuts(st1) == [parts[1]] + Cuts(st2);
    assert Cuts(st2) == parts[2..] + Cuts(next) by {
      assert [] + Cuts(next) == Cuts(next);
    }
    assert parts == [parts[0]] + ([parts[1]] + parts[2..]);
    assert parts + Cuts(next) == [parts[0]] + ([parts[1]] + (parts[2..] + Cuts(next)));
  }

  ghost function PartsOf(frames: seq<Bytes>, version: Option<Byte>): seq<Part>
    requires AllExact(frames, version)
  {
    if frames == [] then []
    else
      assert frames[0] in frames;
      FrameParts(frames[0], version) + PartsOf(frames[1..], version)
  }

  // With one byte of a next frame behind them, no frame waits for more.
  lemma {:induction false} CutsOfFrames(frames: seq<Bytes>, st: State, x: Byte)
    requires AllExact(frames, st.version) && Settled(st, st.version, Flat(frames) + [x])
    ensures Cuts(st) == PartsOf(frames, st.version) && Drain(st).good
    decreases |frames|
  {
    hide Frame, NeverStarved, Drain, Cuts, FrameParts, FedToItsEnd;
    if frames == [] {
      assert [] + [x] == [x];
      WaitsForMore(st);
    } else {
      var b, rest := frames[0], Flat(frames[1..]) + [x];
      assert b in frames && ExactFrame(b, st.version);
      assert st.buf == b + rest;
      NeverStarvedBefore(b, st.version, rest);
      FramePartsStable(b, st.version, rest);
      var next := CutsOfFrame(st);
      assert (b + rest)[|b|..] == rest;
      assert AllExact(frames[1..], st.version);
      CutsOfFrames(frames[1..], next, x);
    }
  }

  lemma WaitsForMore(st: State)
    requires st.phase == Done && |st.buf| == 1
    ensures Cuts(st) == [] && Drain(st).good
  {
  }

  /**
   * Any frames, sent in any chunks: the decoder gets through them, or as far as they have
   * come, exactly if the sizes of the chunks keep step with the parts of the frames.
   */
  lemma FramesArriveIff(frames: seq<Bytes>, st: State, before: Bytes, chunks: seq<Bytes>, later: Bytes)
    requires AllExact(frames, st.version) && Settled(st, st.version, before)
    requires before + (Flat(chunks) + later) == Flat(frames)
    ensures Run(st, chunks).good <==> KeepsStep(|before|, PartsOf(frames, st.version), Sizes(chunks))
  {
    hide Run, Drain, Cuts, KeepsStep, AllExact, PartsOf;
    var x: Byte := 0;
    assert before + (Flat(chunks) + (later + [x])) == Flat(frames) + [x];
    CutsOfFrames(frames, Arrive(st, Flat(chunks) + (later + [x])), x);
    RunGoodIff(st, chunks, later + [x]);
  }

  /** So a frame that is cut inside its variable header, and polled before the rest comes, is lost. */
  lemma CutFrameFails(b: Bytes, st: State, k: nat)
    requires ExactFrame(b, st.version) && Settled(st, st.version, [])
    requires 0 < k < FrameParts(b, st.version)[1].length
    ensures FixedHeader(b).used + k <= |b|
    ensures !Run(st, [b[..FixedHeader(b).used + k], []]).good
  {
    hide Run, KeepsStep, Settled, FixedHeader, FrameParts, Frame, Flat, Sizes, PartsOf;
    CutInside(b, st.version, k);
    var n := FixedHeader(b).used;
    var first, later := b[..n + k], b[n + k..];
    OneAndNone(first);
    OneFrame(b, st.version);
    assert [] + (first + later) == b;
    FramesArriveIff([b], st, [], [first, []], later);
    FallsOut(FrameParts(b, st.version), n, k);
  }

  lemma OneAndNone(first: Bytes)
    ensures Flat([first, []]) == first && Sizes([first, []]) == [|first|, 0]
  {
    var chunks: seq<Bytes> := [first, []];
    assert chunks[1..] == [[]] && chunks[1..][1..] == [];
    assert Flat([]) == [] && Sizes([]) == [];
    assert Flat(chunks[1..]) == [] && Sizes(chunks[1..]) == [0];
    assert first + [] == first;
  }

  lemma OneFrame(b: Bytes, version: Option<Byte>)
    requires ExactFrame(b, version)
    ensures AllExact([b], version) && Flat([b]) == b && PartsOf([b], version) == FrameParts(b, version)
  {
    hide Frame, FrameParts;
    assert [b][1..] == [];
    assert b + [] == b && FrameParts(b, version) + [] == FrameParts(b, version);
  }

  lemma FallsOut(parts: seq<Part>, n: nat, k: nat)
    requires |parts| >= 2 && parts[0] == Part(n, true) && n >= 2 && !parts[1].opens && 0 < k < parts[1].length
    ensures !KeepsStep(0, parts, [n + k, 0])
  {
    assert [n + k, 0][1..] == [0];
    assert !KeepsStep(k, parts[1..], [0]);
  }

  lemma CutInside(b: Bytes, version: Option<Byte>, k: nat)
    requires ExactFrame(b, version) && k < FrameParts(b, version)[1].length
    ensures FixedHeader(b).Ok? && 2 <= FixedHeader(b).used && FixedHeader(b).used + k <= |b|
    ensures FrameParts(b, version)[0] == Part(FixedHeader(b).used, true) && !FrameParts(b, version)[1].opens
  {
    hide FixedHeader, VariableHeader, Payload;
  }
}
