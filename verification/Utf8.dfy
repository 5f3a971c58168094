/** UTF-8 as defined in section 3 of RFC 3629, with both round trips. */
module Utf8 {
  import opened Sorted
  import opened FrameIndex

  /** Bytes are integers below 256. */
  predicate IsBytes(b: Text) {
    forall i :: 0 <= i < |b| ==> 0 <= b[i] < 256
  }

  /** The code points UTF-8 can carry: no surrogates, nothing beyond the last plane. */
  predicate Scalar(c: int) {
    0 <= c <= 0x10FFFF && !(0xD800 <= c <= 0xDFFF)
  }

  predicate Encodable(t: Text) {
    forall i :: 0 <= i < |t| ==> Scalar(t[i])
  }

  function EncodeScalar(c: int): (b: Text)
    requires Scalar(c)
    ensures 1 <= |b| <= 4 && IsBytes(b)
  {
    if c < 0x80 then [c]
    else if c < 0x800 then [0xC0 + c / 64, 0x80 + c % 64]
    else if c < 0x10000 then [0xE0 + c / 4096, 0x80 + c / 64 % 64, 0x80 + c % 64]
    else [0xF0 + c / 262144, 0x80 + c / 4096 % 64, 0x80 + c / 64 % 64, 0x80 + c % 64]
  }

  function Encode(t: Text): (b: Text)
    requires Encodable(t)
    ensures IsBytes(b)
  {
    if t == [] then [] else EncodeScalar(t[0]) + Encode(t[1..])
  }

  predicate Tail(b: int) { 0x80 <= b <= 0xBF }

  /** The second byte after a given first byte of a three- or four-byte form. */
  predicate Second(first: int, b: int) {
    && Tail(b)
    && (first == 0xE0 ==> b >= 0xA0)
    && (first == 0xED ==> b <= 0x9F)
    && (first == 0xF0 ==> b >= 0x90)
    && (first == 0xF4 ==> b <= 0x8F)
  }

  datatype Read = Read(scalar: int, length: nat)

  /** The first well-formed character of a byte string. */
  function DecodeOne(b: Text): (r: Option<Read>)
    ensures r.Some? ==> 1 <= r.value.length <= |b|
  {
    if b == [] then None
    else if 0 <= b[0] < 0x80 then Some(Read(b[0], 1))
    else if 0xC2 <= b[0] <= 0xDF then
      if |b| >= 2 && Tail(b[1]) then Some(Read((b[0] - 0xC0) * 64 + (b[1] - 0x80), 2)) else None
    else if 0xE0 <= b[0] <= 0xEF then
      if |b| >= 3 && Second(b[0], b[1]) && Tail(b[2])
      then Some(Read((b[0] - 0xE0) * 4096 + (b[1] - 0x80) * 64 + (b[2] - 0x80), 3)) else None
    else if 0xF0 <= b[0] <= 0xF4 then
      if |b| >= 4 && Second(b[0], b[1]) && Tail(b[2]) && Tail(b[3])
      then Some(Read((b[0] - 0xF0) * 262144 + (b[1] - 0x80) * 4096 + (b[2] - 0x80) * 64 + (b[3] - 0x80), 4)) else None
    else None
  }

  function Decode(b: Text): (t: Option<Text>)
    decreases |b|
  {
    if b == [] then Some([])
    else
      match DecodeOne(b)
      case None => None
      case Some(r) =>
        match Decode(b[r.length..])
        case None => None
        case Some(rest) => Some([r.scalar] + rest)
  }

  // ---- one character ---------------------------------------------------------------------

  lemma {:induction false} SixBits(q: int, r: int)
    requires 0 <= r < 64
    ensures (q * 64 + r) / 64 == q && (q * 64 + r) % 64 == r
  {
  }

  /** The six-bit digits of a number, and back. */
  lemma {:induction false} Split3(x: int, y: int, z: int)
    requires 0 <= y < 64 && 0 <= z < 64
    ensures var c := x * 4096 + y * 64 + z;
            c / 4096 == x && c / 64 % 64 == y && c % 64 == z
  {
    var c := x * 4096 + y * 64 + z;
    assert c == (x * 64 + y) * 64 + z;
    SixBits(x * 64 + y, z);
    SixBits(x, y);
  }

  lemma {:induction false} Split4(w: int, x: int, y: int, z: int)
    requires 0 <= x < 64 && 0 <= y < 64 && 0 <= z < 64
    ensures var c := w * 262144 + x * 4096 + y * 64 + z;
            c / 262144 == w && c / 4096 % 64 == x && c / 64 % 64 == y && c % 64 == z
  {
    Split3(w * 64 + x, y, z);
    SixBits(w, x);
  }

  lemma {:induction false} Join3(c: int)
    requires 0 <= c
    ensures c == c / 4096 * 4096 + c / 64 % 64 * 64 + c % 64
  {
    assert c / 4096 == c / 64 / 64;
  }

  lemma {:induction false} Join4(c: int)
    requires 0 <= c
    ensures c == c / 262144 * 262144 + c / 4096 % 64 * 4096 + c / 64 % 64 * 64 + c % 64
  {
    Join3(c);
    assert c / 262144 == c / 4096 / 64;
  }

  lemma {:induction false} DecodeEncodedScalar(c: int, rest: Text)
    requires Scalar(c)
    ensures DecodeOne(EncodeScalar(c) + rest) == Some(Read(c, |EncodeScalar(c)|))
  {
    var b := EncodeScalar(c) + rest;
    if c < 0x80 {
      assert b[0] == c;
    } else if c < 0x800 {
      assert b[0] == 0xC0 + c / 64 && b[1] == 0x80 + c % 64;
    } else if c < 0x10000 {
      assert b[0] == 0xE0 + c / 4096 && b[1] == 0x80 + c / 64 % 64 && b[2] == 0x80 + c % 64;
      Join3(c);
      ThreeByteForm(c);
    } else {
      assert b[0] == 0xF0 + c / 262144 && b[1] == 0x80 + c / 4096 % 64 && b[2] == 0x80 + c / 64 % 64
             && b[3] == 0x80 + c % 64;
      Join4(c);
      FourByteForm(c);
    }
  }

  lemma {:induction false} ThreeByteForm(c: int)
    requires Scalar(c) && 0x800 <= c < 0x10000
    ensures 0xE0 <= 0xE0 + c / 4096 <= 0xEF && Second(0xE0 + c / 4096, 0x80 + c / 64 % 64) && Tail(0x80 + c % 64)
  {
    Join3(c);
  }

  lemma {:induction false} FourByteForm(c: int)
    requires Scalar(c) && 0x10000 <= c
    ensures 0xF0 <= 0xF0 + c / 262144 <= 0xF4 && Second(0xF0 + c / 262144, 0x80 + c / 4096 % 64)
    ensures Tail(0x80 + c / 64 % 64) && Tail(0x80 + c % 64)
  {
    Join4(c);
  }

  lemma {:induction false} EncodeDecodedScalar(b: Text)
    requires DecodeOne(b).Some?
    ensures Scalar(DecodeOne(b).value.scalar)
    ensures EncodeScalar(DecodeOne(b).value.scalar) == b[..DecodeOne(b).value.length]
  {
    if b[0] < 0x80 {
      assert b[..1] == [b[0]];
    } else if b[0] <= 0xDF {
      TwoBytes(b[0], b[1]);
      assert b[..2] == [b[0], b[1]];
    } else if b[0] <= 0xEF {
      ThreeBytes(b[0], b[1], b[2]);
      assert b[..3] == [b[0], b[1], b[2]];
    } else {
      FourBytes(b[0], b[1], b[2], b[3]);
      assert b[..4] == [b[0], b[1], b[2], b[3]];
    }
  }

  lemma {:induction false} TwoBytes(p: int, q: int)
    requires 0xC2 <= p <= 0xDF && Tail(q)
    ensures var c := (p - 0xC0) * 64 + (q - 0x80);
            Scalar(c) && EncodeScalar(c) == [p, q]
  {
    SixBits(p - 0xC0, q - 0x80);
  }

  lemma {:induction false} ThreeBytes(p: int, q: int, r: int)
    requires 0xE0 <= p <= 0xEF && Second(p, q) && Tail(r)
    ensures var c := (p - 0xE0) * 4096 + (q - 0x80) * 64 + (r - 0x80);
            Scalar(c) && EncodeScalar(c) == [p, q, r]
  {
    Split3(p - 0xE0, q - 0x80, r - 0x80);
  }

  lemma {:induction false} FourBytes(p: int, q: int, r: int, s: int)
    requires 0xF0 <= p <= 0xF4 && Second(p, q) && Tail(r) && Tail(s)
    ensures var c := (p - 0xF0) * 262144 + (q - 0x80) * 4096 + (r - 0x80) * 64 + (s - 0x80);
            Scalar(c) && EncodeScalar(c) == [p, q, r, s]
  {
    Split4(p - 0xF0, q - 0x80, r - 0x80, s - 0x80);
  }

  // ---- whole texts -----------------------------------------------------------------------

  /** Whatever is encoded decodes to itself. */
  lemma {:induction false} DecodeEncoded(t: Text)
    requires Encodable(t)
    ensures Decode(Encode(t)) == Some(t)
  {
    if t != [] {
      var first, rest := EncodeScalar(t[0]), Encode(t[1..]);
      DecodeEncodedScalar(t[0], rest);
      DecodeEncoded(t[1..]);
      Behind(first, rest);
      Cons(t);
    }
  }

  lemma {:induction false} Behind<T>(a: seq<T>, b: seq<T>)
    ensures (a + b)[|a|..] == b
  {
  }

  lemma {:induction false} Cons<T>(a: seq<T>)
    requires a != []
    ensures a == [a[0]] + a[1..]
  {
  }

  lemma {:induction false} ConsEncode(c: int, t: Text)
    requires Scalar(c) && Encodable(t)
    ensures Encodable([c] + t) && Encode([c] + t) == EncodeScalar(c) + Encode(t)
  {
    assert ([c] + t)[1..] == t;
  }

  lemma {:induction false} DecodeStep(b: Text) returns (c: int, n: nat, rest: Text)
    requires b != [] && Decode(b).Some?
    ensures 1 <= n <= |b| && Scalar(c) && EncodeScalar(c) == b[..n]
    ensures Decode(b[n..]) == Some(rest) && Decode(b) == Some([c] + rest)
  {
    EncodeDecodedScalar(b);
    c, n := DecodeOne(b).value.scalar, DecodeOne(b).value.length;
    rest := Decode(b[n..]).value;
  }

  /** Whatever decodes is the encoding of what it decodes to. */
  lemma {:induction false} EncodeDecoded(b: Text)
    requires Decode(b).Some?
    ensures Encodable(Decode(b).value) && Encode(Decode(b).value) == b
    decreases |b|
  {
    if b != [] {
      var c, n, rest := DecodeStep(b);
      EncodeDecoded(b[n..]);
      ConsEncode(c, rest);
      assert b == b[..n] + b[n..];
    }
  }

  /** ASCII text is its own encoding. */
  lemma {:induction false} AsciiIsItself(t: Text)
    requires forall i :: 0 <= i < |t| ==> 0 <= t[i] < 0x80
    ensures Encodable(t) && Encode(t) == t
  {
    if t != [] {
      AsciiIsItself(t[1..]);
      assert t == [t[0]] + t[1..];
    }
  }
}
