// What valid UTF-8 is, from the other side: the standard's encoder of Unicode scalar values
// (section 3.9 of the Unicode Standard), and the proof that the strings the decoder accepts
// are exactly those it writes.
module Unicode {
  import opened Wire

  // Any code point but a surrogate.
  predicate Scalar(c: nat) {
    c <= 0xD7FF || 0xE000 <= c <= 0x10FFFF
  }

  /** One to four bytes, by range; the lead byte says how many, the others carry six bits each. */
  function EncodeScalar(c: nat): (b: Bytes)
    requires Scalar(c)
    ensures 1 <= |b| <= 4
  {
    if c <= 0x7F then [c]
    else if c <= 0x7FF then [0xC0 + c / 64, 0x80 + c % 64]
    else if c <= 0xFFFF then [0xE0 + c / 4096, 0x80 + c / 64 % 64, 0x80 + c % 64]
    else [0xF0 + c / 262144, 0x80 + c / 4096 % 64, 0x80 + c / 64 % 64, 0x80 + c % 64]
  }

  predicate Scalars(cs: seq<nat>) {
    forall i :: 0 <= i < |cs| ==> Scalar(cs[i])
  }

  function EncodeText(cs: seq<nat>): Bytes
    requires Scalars(cs)
  {
    if cs == [] then [] else EncodeScalar(cs[0]) + EncodeText(cs[1..])
  }

  // The scalar value of a sequence of two, three or four bytes.
  function TwoBytes(x: int, y: int): int {
    (x - 0xC0) * 64 + (y - 0x80)
  }

  function ThreeBytes(x: int, y: int, z: int): int {
    (x - 0xE0) * 4096 + (y - 0x80) * 64 + (z - 0x80)
  }

  function FourBytes(w: int, x: int, y: int, z: int): int {
    (w - 0xF0) * 262144 + (x - 0x80) * 4096 + (y - 0x80) * 64 + (z - 0x80)
  }

  function DecodeHead(b: Bytes): int
    requires Utf8Head(b) > 0
  {
    match Utf8Head(b)
    case 1 => b[0]
    case 2 => TwoBytes(b[0], b[1])
    case 3 => ThreeBytes(b[0], b[1], b[2])
    case _ => FourBytes(b[0], b[1], b[2], b[3])
  }

  lemma HeadIsEncoded(b: Bytes)
    requires Utf8Head(b) > 0
    ensures DecodeHead(b) >= 0 && Scalar(DecodeHead(b)) && EncodeScalar(DecodeHead(b)) == b[..Utf8Head(b)]
  {
    hide EncodeScalar, TwoBytes, ThreeBytes, FourBytes;
    match Utf8Head(b)
    case 1 => OneIsEncoded(b[0]); assert b[..1] == [b[0]];
    case 2 => TwoAreEncoded(b[0], b[1]); assert b[..2] == [b[0], b[1]];
    case 3 => ThreeAreEncoded(b[0], b[1], b[2]); assert b[..3] == [b[0], b[1], b[2]];
    case _ => FourAreEncoded(b[0], b[1], b[2], b[3]); assert b[..4] == [b[0], b[1], b[2], b[3]];
  }

  lemma OneIsEncoded(x: Byte)
    requires x < 0x80
    ensures Scalar(x) && EncodeScalar(x) == [x]
  {
  }

  lemma TwoAreEncoded(x: Byte, y: Byte)
    requires 0xC2 <= x <= 0xDF && Continuation(y)
    ensures var c := TwoBytes(x, y); c >= 0 && Scalar(c) && EncodeScalar(c) == [x, y]
  {
    var c := TwoBytes(x, y);
    assert c / 64 == x - 0xC0 && c % 64 == y - 0x80;
  }

  lemma ThreeAreEncoded(x: Byte, y: Byte, z: Byte)
    requires 0xE0 <= x <= 0xEF && Continuation(y) && Continuation(z)
    requires (x == 0xE0 ==> y >= 0xA0) && (x == 0xED ==> y <= 0x9F)
    ensures var c := ThreeBytes(x, y, z); c >= 0 && Scalar(c) && EncodeScalar(c) == [x, y, z]
  {
    var c := ThreeBytes(x, y, z);
    assert c / 64 == (x - 0xE0) as int * 64 + (y - 0x80) && c % 64 == z - 0x80;
    assert c / 4096 == x - 0xE0;
  }

  lemma FourAreEncoded(w: Byte, x: Byte, y: Byte, z: Byte)
    requires 0xF0 <= w <= 0xF4 && Continuation(x) && Continuation(y) && Continuation(z)
    requires (w == 0xF0 ==> x >= 0x90) && (w == 0xF4 ==> x <= 0x8F)
    ensures var c := FourBytes(w, x, y, z); c >= 0 && Scalar(c) && EncodeScalar(c) == [w, x, y, z]
  {
    SixBits((w - 0xF0) as int * 4096 + (x - 0x80) as int * 64 + (y - 0x80), z - 0x80);
    SixBits((w - 0xF0) as int * 64 + (x - 0x80), y - 0x80);
    SixBits(w - 0xF0, x - 0x80);
    var c := FourBytes(w, x, y, z);
    assert c / 4096 == c / 64 / 64 && c / 262144 == c / 64 / 64 / 64;
  }

  lemma SixBits(high: int, low: int)
    requires 0 <= low < 64
    ensures (high * 64 + low) / 64 == high && (high * 64 + low) % 64 == low
  {
  }

  lemma EncodedIsHead(c: nat, t: Bytes)
    requires Scalar(c)
    ensures var b := EncodeScalar(c);
            Utf8Head(b + t) == |b| && DecodeHead(b + t) == c && (b + t)[|b|..] == t
  {
    assert c / 64 == c / 4096 * 64 + c / 64 % 64;
    assert c / 4096 == c / 262144 * 64 + c / 4096 % 64;
    var b := EncodeScalar(c);
    assert forall i :: 0 <= i < |b| ==> (b + t)[i] == b[i];
  }

  lemma {:induction false} ValidIsEncoded(b: Bytes) returns (cs: seq<nat>)
    requires ValidUtf8(b)
    ensures Scalars(cs) && EncodeText(cs) == b
    decreases |b|
  {
    hide Utf8Head, Scalar, EncodeScalar, DecodeHead;
    if b == [] {
      cs := [];
    } else {
      var n := Utf8Head(b);
      HeadIsEncoded(b);
      var rest := ValidIsEncoded(b[n..]);
      cs := [DecodeHead(b)] + rest;
      assert cs[1..] == rest && b == b[..n] + b[n..];
    }
  }

  lemma {:induction false} EncodedIsValid(cs: seq<nat>)
    requires Scalars(cs)
    ensures ValidUtf8(EncodeText(cs))
    decreases |cs|
  {
    hide Utf8Head, Scalar, EncodeScalar, DecodeHead;
    if cs != [] {
      EncodedIsHead(cs[0], EncodeText(cs[1..]));
      EncodedIsValid(cs[1..]);
    }
  }

  /** Valid UTF-8 is the encoding of some text. */
  lemma ValidIff(b: Bytes)
    ensures ValidUtf8(b) <==> exists cs :: Scalars(cs) && EncodeText(cs) == b
  {
    hide ValidUtf8, EncodeText, Scalars;
    if ValidUtf8(b) {
      var cs := ValidIsEncoded(b);
    }
    if cs :| Scalars(cs) && EncodeText(cs) == b {
      EncodedIsValid(cs);
    }
  }

  /** And of one text only. */
  lemma {:induction false} TextIsUnique(cs: seq<nat>, ds: seq<nat>)
    requires Scalars(cs) && Scalars(ds) && EncodeText(cs) == EncodeText(ds)
    ensures cs == ds
    decreases |cs|
  {
    hide Utf8Head, Scalar, EncodeScalar, DecodeHead;
    if cs != [] && ds != [] {
      EncodedIsHead(cs[0], EncodeText(cs[1..]));
      EncodedIsHead(ds[0], EncodeText(ds[1..]));
      TextIsUnique(cs[1..], ds[1..]);
      assert cs == [cs[0]] + cs[1..] && ds == [ds[0]] + ds[1..];
    }
  }

  function StringEnd(s: Bytes): nat
    requires |s| >= 2
  {
    2 + s[0] as int * 256 + s[1]
  }

  /**
   * Section 1.5.4 of MQTT 5.0: a string is read exactly when its length, most significant
   * byte first, is there in full, and the bytes are the encoding of some text.
   */
  lemma StringReadIff(s: Bytes)
    ensures Utf8(s).Ok?
       <==> |s| >= 2 && StringEnd(s) <= |s| && exists cs :: Scalars(cs) && EncodeText(cs) == s[2..StringEnd(s)]
    ensures Utf8(s).Ok? ==> Utf8(s).value == s[2..StringEnd(s)] && Utf8(s).used == StringEnd(s)
    ensures Utf8(s).Panic? <==> |s| < 2
    ensures Utf8(s) == Err(InsufficientBytes) <==> |s| >= 2 && |s| < StringEnd(s)
    ensures Utf8(s).Err? ==> Utf8(s).error == InsufficientBytes || Utf8(s).error == InvalidFormat
  {
    hide ValidUtf8, EncodeText, Scalars;
    if |s| >= 2 && StringEnd(s) <= |s| {
      ValidIff(s[2..StringEnd(s)]);
    }
  }
}
