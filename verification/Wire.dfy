// The scalar layer of the codec: what one field looks like on the wire.
//
// A parser is a function from the bytes that are left to a value and the number of bytes
// it used. The source works with absolute positions in one buffer instead; every method
// below does that and is proved to agree with the parser applied at its start position.
// A Rust panic (index or slice out of range, `unwrap` of None, `usize` underflow) is the
// explicit outcome `Panic`.
module Wire {

  datatype Option<+T> = None | Some(value: T)

  datatype MqttError =
    | InsufficientBytes
    | InvalidFormat
    | NotImplemented
    | Unexpected
    | InvalidRemainingLength
    | ProtocolViolation

  type Byte = b: int | 0 <= b < 256
  type Bytes = seq<Byte>

  datatype Parsed<+T> = Ok(value: T, used: nat) | Err(error: MqttError) | Panic {
    predicate IsFailure() {
      !Ok?
    }

    function PropagateFailure<U>(): Parsed<U>
      requires IsFailure()
    {
      if Panic? then Panic else Err(error)
    }

    function Extract(): (T, nat)
      requires Ok?
    {
      (value, used)
    }

    /** The same result seen from a buffer in which `start` bytes come first. */
    function From(start: nat): Parsed<T> {
      if Ok? then Ok(value, start + used) else this
    }
  }

  // The largest value a variable byte integer carries, plus one.
  const VAR_INT_LIMIT := 0x1000_0000

  lemma DropAppend<T>(s: seq<T>, t: seq<T>, n: nat)
    requires n <= |s|
    ensures (s + t)[n..] == s[n..] + t
  {
  }

  // ---------------------------------------------------------------- fixed-width fields

  function U8(s: Bytes): (r: Parsed<Byte>)
    ensures r.Ok? ==> r.used <= |s|
  {
    if |s| < 1 then Panic else Ok(s[0], 1)
  }

  function U16(s: Bytes): (r: Parsed<nat>)
    ensures r.Ok? ==> r.used == 2 <= |s| && r.value < 0x1_0000
  {
    if |s| < 2 then Panic else Ok(s[0] as int * 256 + s[1], 2)
  }

  function U32(s: Bytes): (r: Parsed<nat>)
    ensures r.Ok? ==> r.used == 4 <= |s| && r.value < 0x1_0000_0000
  {
    if |s| < 4 then Panic else Ok(s[0] as int * 0x100_0000 + s[1] as int * 0x1_0000 + s[2] as int * 0x100 + s[3], 4)
  }

  // `put_u16(n as u16)`: the cast drops the high bits.
  function U16Bytes(n: nat): (b: Bytes)
    ensures |b| == 2
  {
    [n % 0x1_0000 / 0x100, n % 0x100]
  }

  function U32Bytes(n: nat): (b: Bytes)
    requires n < 0x1_0000_0000
    ensures |b| == 4
  {
    [n / 0x100_0000, n / 0x1_0000 % 0x100, n / 0x100 % 0x100, n % 0x100]
  }

  lemma U16RoundTrip(n: nat, t: Bytes)
    requires n < 0x1_0000
    ensures U16(U16Bytes(n) + t) == Ok(n, 2)
  {
    var s := U16Bytes(n) + t;
    assert s[0] == n / 0x100 && s[1] == n % 0x100;
  }

  lemma U32RoundTrip(n: nat, t: Bytes)
    requires n < 0x1_0000_0000
    ensures U32(U32Bytes(n) + t) == Ok(n, 4)
  {
    var s := U32Bytes(n) + t;
    assert s[0] == n / 0x100_0000 && s[1] == n / 0x1_0000 % 0x100;
    assert s[2] == n / 0x100 % 0x100 && s[3] == n % 0x100;
    assert n / 0x1_0000 == (n / 0x100_0000) * 0x100 + n / 0x1_0000 % 0x100;
    assert n / 0x100 == (n / 0x1_0000) * 0x100 + n / 0x100 % 0x100;
  }

  // ---------------------------------------------------------------- strings and binary data

  predicate Continuation(b: Byte) {
    0x80 <= b <= 0xBF
  }

  /** The length of the well-formed UTF-8 sequence that starts `b`, or 0 if there is none. */
  function Utf8Head(b: Bytes): (n: nat)
    ensures n <= |b|
  {
    if |b| >= 1 && b[0] < 0x80 then 1
    else if |b| >= 2 && 0xC2 <= b[0] <= 0xDF && Continuation(b[1]) then 2
    else if |b| >= 3 && 0xE0 <= b[0] <= 0xEF && Continuation(b[1]) && Continuation(b[2])
            && (b[0] == 0xE0 ==> b[1] >= 0xA0) && (b[0] == 0xED ==> b[1] <= 0x9F) then 3
    else if |b| >= 4 && 0xF0 <= b[0] <= 0xF4 && Continuation(b[1]) && Continuation(b[2]) && Continuation(b[3])
            && (b[0] == 0xF0 ==> b[1] >= 0x90) && (b[0] == 0xF4 ==> b[1] <= 0x8F) then 4
    else 0
  }

  predicate ValidUtf8(b: Bytes)
    decreases |b|
  {
    b == [] || (Utf8Head(b) > 0 && ValidUtf8(b[Utf8Head(b)..]))
  }

  function Utf8(s: Bytes): (r: Parsed<Bytes>)
    ensures r.Ok? ==> r.used <= |s| && r.used == 2 + |r.value| && |r.value| < 0x1_0000 && ValidUtf8(r.value)
  {
    var (length, n) :- U16(s);
    if 2 + length > |s| then Err(InsufficientBytes)
    else if !ValidUtf8(s[2..2 + length]) then Err(InvalidFormat)
    else Ok(s[2..2 + length], 2 + length)
  }

  // Correlation data, authentication data, will payload and password: slicing panics when
  // the bytes are missing.
  function Binary(s: Bytes): (r: Parsed<Bytes>)
    ensures r.Ok? ==> r.used <= |s| && r.used == 2 + |r.value| && |r.value| < 0x1_0000
  {
    var (length, n) :- U16(s);
    if 2 + length > |s| then Panic else Ok(s[2..2 + length], 2 + length)
  }

  function Prefixed(b: Bytes): (r: Bytes)
    ensures |r| == 2 + |b|
  {
    U16Bytes(|b|) + b
  }

  lemma BinaryRoundTrip(b: Bytes, t: Bytes)
    requires |b| < 0x1_0000
    ensures Binary(Prefixed(b) + t) == Ok(b, 2 + |b|)
  {
    U16RoundTrip(|b|, b + t);
    assert Prefixed(b) + t == U16Bytes(|b|) + (b + t);
    assert (Prefixed(b) + t)[2..2 + |b|] == b;
  }

  // Where both succeed, a string is binary data that happens to be UTF-8.
  lemma Utf8IsBinary(s: Bytes)
    requires Binary(s).Ok? && ValidUtf8(Binary(s).value)
    ensures Utf8(s) == Binary(s)
  {
  }

  lemma Utf8RoundTrip(b: Bytes, t: Bytes)
    requires |b| < 0x1_0000 && ValidUtf8(b)
    ensures Utf8(Prefixed(b) + t) == Ok(b, 2 + |b|)
  {
    BinaryRoundTrip(b, t);
    Utf8IsBinary(Prefixed(b) + t);
  }

  lemma Utf8Stable(s: Bytes, t: Bytes)
    requires Utf8(s).Ok?
    ensures Utf8(s + t) == Utf8(s)
  {
    assert (s + t)[2..Utf8(s).used] == s[2..Utf8(s).used];
  }

  lemma BinaryStable(s: Bytes, t: Bytes)
    requires Binary(s).Ok?
    ensures Binary(s + t) == Binary(s)
  {
    assert (s + t)[2..Binary(s).used] == s[2..Binary(s).used];
  }

  method DecodeUtf8String(buf: Bytes, startPos: nat) returns (r: Parsed<Bytes>)
    requires startPos <= |buf|
    ensures r == Utf8(buf[startPos..]).From(startPos)
  {
    if |buf| < startPos + 2 {
      return Panic;
    }
    var length := buf[startPos] as int * 256 + buf[startPos + 1];
    if startPos + 2 + length > |buf| {
      return Err(InsufficientBytes);
    }
    var str := buf[startPos + 2..startPos + 2 + length];
    assert str == buf[startPos..][2..2 + length];
    if !ValidUtf8(str) {
      return Err(InvalidFormat);
    }
    return Ok(str, startPos + 2 + length);
  }

  // ---------------------------------------------------------------- variable byte integers

  /** Decodes base-128 digits, least significant first, when `inc` of at most four are done. */
  function VarIntFrom(s: Bytes, inc: nat): (r: Parsed<nat>)
    requires inc < 4
    ensures r.Ok? ==> 1 <= r.used <= |s| && r.used <= 4 - inc
    decreases 4 - inc
  {
    if |s| == 0 then Err(InsufficientBytes)
    else if s[0] < 128 then Ok(s[0], 1)
    else if inc == 3 then Err(InvalidRemainingLength)
    else
      var (high, n) :- VarIntFrom(s[1..], inc + 1);
      Ok(s[0] % 128 + 128 * high, n + 1)
  }

  function VarInt(s: Bytes): (r: Parsed<nat>)
    ensures r.Ok? ==> 1 <= r.used <= |s| && r.used <= 4
  {
    VarIntFrom(s, 0)
  }

  function EncodeVarIntFrom(n: nat, digits: nat): (b: Bytes)
    ensures |b| <= digits
    decreases digits
  {
    if digits == 0 then []
    else if n < 128 then [n]
    else [n % 128 + 128] + EncodeVarIntFrom(n / 128, digits - 1)
  }

  // `encode_variable_bytes` never writes more than four digits.
  function EncodeVarInt(n: nat): (b: Bytes)
    ensures 1 <= |b| <= 4
  {
    EncodeVarIntFrom(n, 4)
  }

  function Pow128(k: nat): (p: nat)
    ensures p > 0
  {
    if k == 0 then 1 else 128 * Pow128(k - 1)
  }

  lemma BelowProduct(n: nat, p: nat)
    ensures n / 128 < p <==> n < 128 * p
  {
  }

  lemma {:induction false} VarIntFromRoundTrip(n: nat, inc: nat, t: Bytes)
    requires inc < 4
    ensures var b := EncodeVarIntFrom(n, 4 - inc);
            VarIntFrom(b + t, inc) == if n < Pow128(4 - inc) then Ok(n, |b|) else Err(InvalidRemainingLength)
    decreases 4 - inc
  {
    PowTurn(3 - inc);
    hide Pow128;
    if n >= 128 {
      var b := EncodeVarIntFrom(n / 128, 3 - inc);
      assert (([n % 128 + 128] + b) + t)[1..] == b + t;
      BelowProduct(n, Pow128(3 - inc));
      if inc < 3 {
        VarIntFromRoundTrip(n / 128, inc + 1, t);
      }
    }
  }

  lemma PowTurn(k: nat)
    ensures Pow128(k + 1) == 128 * Pow128(k) && 128 <= Pow128(k + 1)
    ensures k == 0 ==> Pow128(k) == 1
  {
  }

  /** Section 1.5.5 of MQTT 5.0: decoding inverts encoding exactly below 2^28. */
  lemma VarIntRoundTrip(n: nat, t: Bytes)
    ensures VarInt(EncodeVarInt(n) + t)
         == if n < VAR_INT_LIMIT then Ok(n, |EncodeVarInt(n)|) else Err(InvalidRemainingLength)
  {
    VarIntFromRoundTrip(n, 0, t);
    assert Pow128(4) == VAR_INT_LIMIT by {
      assert Pow128(1) == 128 && Pow128(2) == 0x4000 && Pow128(3) == 0x20_0000;
    }
  }

  lemma {:induction false} VarIntFromShortest(s: Bytes, inc: nat)
    requires inc < 4 && VarIntFrom(s, inc).Ok?
    ensures VarIntFrom(s, inc).value < Pow128(4 - inc)
    ensures |EncodeVarIntFrom(VarIntFrom(s, inc).value, 4 - inc)| <= VarIntFrom(s, inc).used
    decreases 4 - inc
  {
    if s[0] >= 128 {
      VarIntFromShortest(s[1..], inc + 1);
      var n := VarIntFrom(s, inc).value;
      assert n / 128 == VarIntFrom(s[1..], inc + 1).value;
    }
  }

  /** Section 1.5.5 of MQTT 5.0: no byte string decoding to `n` is shorter than its encoding. */
  lemma VarIntShortest(s: Bytes)
    requires VarInt(s).Ok?
    ensures VarInt(s).value < VAR_INT_LIMIT
    ensures |EncodeVarInt(VarInt(s).value)| <= VarInt(s).used
  {
    VarIntFromShortest(s, 0);
    assert Pow128(4) == VAR_INT_LIMIT by {
      assert Pow128(1) == 128 && Pow128(2) == 0x4000 && Pow128(3) == 0x20_0000;
    }
  }

  lemma {:induction false} EncodeVarIntMonotone(m: nat, n: nat, digits: nat)
    requires m <= n
    ensures |EncodeVarIntFrom(m, digits)| <= |EncodeVarIntFrom(n, digits)|
    decreases digits
  {
    if digits > 0 && m >= 128 {
      EncodeVarIntMonotone(m / 128, n / 128, digits - 1);
    }
  }

  lemma {:induction false} VarIntFromStable(s: Bytes, inc: nat, t: Bytes)
    requires inc < 4 && VarIntFrom(s, inc).Ok?
    ensures VarIntFrom(s + t, inc) == VarIntFrom(s, inc)
    decreases 4 - inc
  {
    if s[0] >= 128 {
      DropAppend(s, t, 1);
      VarIntFromStable(s[1..], inc + 1, t);
    }
  }

  lemma VarIntStable(s: Bytes, t: Bytes)
    requires VarInt(s).Ok?
    ensures VarInt(s + t) == VarInt(s)
  {
    VarIntFromStable(s, 0, t);
  }

  /** What is still to come, seen from the loop that has gathered `low` from `inc` digits. */
  function Resumed(low: nat, inc: nat, rest: Parsed<nat>): Parsed<nat> {
    if rest.Ok? then Ok(low + Pow128(inc) * rest.value, inc + rest.used) else rest
  }

  lemma Distribute(w: nat, digit: nat, high: nat)
    ensures w * (digit + 128 * high) == w * digit + (128 * w) * high
  {
  }

  /** One turn of the loop, at the byte that `s` starts with. */
  lemma VarIntTurn(s: Bytes, low: nat, inc: nat)
    requires inc < 4
    ensures var r := Resumed(low, inc, VarIntFrom(s, inc));
            && (|s| == 0 ==> r == Err(InsufficientBytes))
            && (|s| > 0 && s[0] < 128 ==> r == Ok(low + Pow128(inc) * (s[0] % 128), inc + 1))
            && (|s| > 0 && s[0] >= 128 && inc == 3 ==> r == Err(InvalidRemainingLength))
            && (|s| > 0 && s[0] >= 128 && inc < 3 ==>
                  r == Resumed(low + Pow128(inc) * (s[0] % 128), inc + 1, VarIntFrom(s[1..], inc + 1)))
  {
    if |s| > 0 && s[0] >= 128 && inc < 3 {
      var rest := VarIntFrom(s[1..], inc + 1);
      if rest.Ok? {
        Distribute(Pow128(inc), s[0] % 128, rest.value);
      }
    }
  }

  // The digit shifted by 7 * inc bits.
  function Shifted(digit: nat, inc: nat): nat {
    Pow128(inc) * digit
  }

  /** The same turn, at a position of the buffer that the loop started in. */
  lemma VarIntTurnAt(buf: Bytes, startPos: nat, pos: nat, low: nat, inc: nat)
    requires startPos <= pos <= |buf| && inc < 4
    requires VarInt(buf[startPos..]) == Resumed(low, inc, VarIntFrom(buf[pos..], inc)) && inc == pos - startPos
    ensures |buf| <= pos ==> VarInt(buf[startPos..]).From(startPos) == Err(InsufficientBytes)
    ensures pos < |buf| && buf[pos] < 128 ==>
              VarInt(buf[startPos..]).From(startPos) == Ok(low + Shifted(buf[pos] % 128, inc), pos + 1)
    ensures pos < |buf| && buf[pos] >= 128 && inc == 3 ==>
              VarInt(buf[startPos..]).From(startPos) == Err(InvalidRemainingLength)
    ensures pos < |buf| && buf[pos] >= 128 && inc < 3 ==>
              VarInt(buf[startPos..])
                == Resumed(low + Shifted(buf[pos] % 128, inc), inc + 1, VarIntFrom(buf[pos + 1..], inc + 1))
  {
    hide VarInt, VarIntFrom, Resumed, Pow128;
    VarIntTurn(buf[pos..], low, inc);
    if pos < |buf| {
      assert buf[pos..][1..] == buf[pos + 1..];
    }
  }

  method DecodeVariableLength(buf: Bytes, startPos: nat) returns (r: Parsed<nat>)
    requires startPos <= |buf|
    ensures r == VarInt(buf[startPos..]).From(startPos)
  {
    var remainingLength: nat, inc: nat := 0, 0;
    assert VarInt(buf[startPos..]) == Resumed(0, 0, VarIntFrom(buf[startPos..], 0));
    hide VarInt, VarIntFrom, Resumed, Shifted;
    for pos := startPos to startPos + 4
      invariant inc == pos - startPos <= 3
      invariant pos <= |buf|
      invariant VarInt(buf[startPos..]) == Resumed(remainingLength, inc, VarIntFrom(buf[pos..], inc))
    {
      VarIntTurnAt(buf, startPos, pos, remainingLength, inc);
      if |buf| <= pos {
        return Err(InsufficientBytes);
      }
      remainingLength := remainingLength + Shifted(buf[pos] % 128, inc);
      if buf[pos] < 128 {
        return Ok(remainingLength, pos + 1);
      }
      inc := inc + 1;
      if inc >= 4 {
        return Err(InvalidRemainingLength);
      }
    }
    assert false;
  }

  lemma EncodeTurn(bytes: Bytes, n: nat, digits: nat)
    ensures bytes + EncodeVarIntFrom(n, digits + 1)
         == if n < 128 then bytes + [n % 128] else (bytes + [n % 128 + 128]) + EncodeVarIntFrom(n / 128, digits)
    ensures EncodeVarIntFrom(n, 0) == []
  {
    hide EncodeVarIntFrom;
    EncodeDigit(n, digits);
    if n >= 128 {
      assert bytes + ([n % 128 + 128] + EncodeVarIntFrom(n / 128, digits))
          == (bytes + [n % 128 + 128]) + EncodeVarIntFrom(n / 128, digits);
    }
  }

  lemma EncodeDigit(n: nat, digits: nat)
    ensures EncodeVarIntFrom(n, 0) == []
    ensures EncodeVarIntFrom(n, digits + 1)
         == if n < 128 then [n] else [n % 128 + 128] + EncodeVarIntFrom(n / 128, digits)
  {
  }

  method EncodeVariableBytes(length: nat) returns (bytes: Bytes)
    ensures bytes == EncodeVarInt(length)
  {
    bytes := [];
    EncodeTurn([], length, 3);
    assert [] + EncodeVarInt(length) == EncodeVarInt(length);
    hide EncodeVarIntFrom;
    var rest := length;
    for i := 0 to 4
      invariant EncodeVarInt(length) == bytes + EncodeVarIntFrom(rest, 4 - i)
    {
      EncodeTurn(bytes, rest, 3 - i);
      var digit := rest % 128;
      rest := rest / 128;
      if rest > 0 {
        digit := digit + 128;
      }
      bytes := bytes + [digit];
      if rest == 0 {
        return;
      }
    }
  }
}
