/** Byte strings, as Go strings are, and the UTF-8 encoding of section 3 of RFC 3629. */
module ByteText {
  lemma Associate<T>(a: seq<T>, b: seq<T>, c: seq<T>)
    ensures (a + b) + c == a + (b + c)
  {
  }

  newtype byte = x: int | 0 <= x < 256
  type bytes = seq<byte>

  /** The bytes WriteRune appends for one Unicode scalar value. */
  function EncodeChar(c: char): (b: bytes)
    ensures 1 <= |b| <= 4
  {
    var n := c as int;
    if n < 0x80 then [n as byte]
    else if n < 0x800 then [(0xC0 + n / 64) as byte, (0x80 + n % 64) as byte]
    else if n < 0x10000 then
      [(0xE0 + n / 4096) as byte, (0x80 + n / 64 % 64) as byte, (0x80 + n % 64) as byte]
    else
      [(0xF0 + n / 262144) as byte, (0x80 + n / 4096 % 64) as byte,
       (0x80 + n / 64 % 64) as byte, (0x80 + n % 64) as byte]
  }

  predicate IsContinuation(b: byte) {
    0x80 <= b < 0xC0
  }

  /** How many bytes an encoding starting with this byte has; 0 when none starts with it. */
  function LeadLength(b: byte): (k: nat)
    ensures k <= 4
  {
    if b < 0x80 then 1
    else if 0xC2 <= b < 0xE0 then 2
    else if 0xE0 <= b < 0xF0 then 3
    else if 0xF0 <= b < 0xF5 then 4
    else 0
  }

  /** Bytes 1 to k - 1 are continuation bytes. */
  predicate Continues(b: bytes, k: nat)
    requires k <= |b| && k <= 4
  {
    (k < 2 || IsContinuation(b[1])) && (k < 3 || IsContinuation(b[2])) && (k < 4 || IsContinuation(b[3]))
  }

  lemma EncodingShape(c: char)
    ensures var e := EncodeChar(c); |e| == LeadLength(e[0]) && Continues(e, |e|)
  {
  }

  function Utf8(s: string): (b: bytes) {
    if s == [] then [] else EncodeChar(s[0]) + Utf8(s[1..])
  }

  /** The number the bits of a k-byte encoding spell. */
  function Payload(b: bytes, k: nat): int
    requires 1 <= k <= |b|
  {
    if k == 1 then b[0] as int
    else if k == 2 then (b[0] as int - 0xC0) * 64 + (b[1] as int - 0x80)
    else if k == 3 then (b[0] as int - 0xE0) * 4096 + (b[1] as int - 0x80) * 64 + (b[2] as int - 0x80)
    else if k == 4 then
      (b[0] as int - 0xF0) * 262144 + (b[1] as int - 0x80) * 4096 + (b[2] as int - 0x80) * 64 + (b[3] as int - 0x80)
    else 0
  }

  datatype Decoded = Decoded(c: char, size: nat) | Malformed

  /** Decodes the first scalar value, refusing what the table in section 4 of RFC 3629 refuses. */
  function DecodeFirst(b: bytes): (r: Decoded)
    ensures r.Decoded? ==> 1 <= r.size <= |b|
  {
    if b == [] then Malformed
    else if b[0] < 0x80 then Decoded(b[0] as int as char, 1)
    else
      var k := LeadLength(b[0]);
      if k == 0 || |b| < k || !Continues(b, k) then Malformed
      else
        var n := Payload(b, k);
        if (k == 3 && (n < 0x800 || 0xD800 <= n < 0xE000)) || (k == 4 && (n < 0x10000 || n > 0x10FFFF)) then Malformed
        else Decoded(n as char, k)
  }

  lemma Quotient(n: nat, q: nat, r: nat)
    ensures n == q * 64 + r && r < 64 ==> n / 64 == q && n % 64 == r
    ensures n == q * 4096 + r && r < 4096 ==> n / 4096 == q
    ensures n == q * 262144 + r && r < 262144 ==> n / 262144 == q
  {
  }

  /** The base-64 digits an encoding carries. */
  lemma Digits(n: nat, x: nat, y: nat, z: nat, w: nat)
    requires n == x * 262144 + y * 4096 + z * 64 + w && y < 64 && z < 64 && w < 64
    ensures n % 64 == w && n / 64 == x * 4096 + y * 64 + z
    ensures n / 64 % 64 == z && n / 4096 == x * 64 + y
    ensures n / 4096 % 64 == y && n / 262144 == x
  {
    Quotient(n, x * 4096 + y * 64 + z, w);
    Quotient(n / 64, x * 64 + y, z);
    Quotient(n, x * 64 + y, z * 64 + w);
    Quotient(n / 4096, x, y);
    Quotient(n, x, y * 4096 + z * 64 + w);
  }

  lemma PayloadOfEncoding(c: char)
    ensures Payload(EncodeChar(c), |EncodeChar(c)|) == c as int
  {
    var n := c as int;
    if n >= 0x800 { Quotient(n / 64, n / 4096, n / 64 % 64); }
    if n >= 0x10000 { Quotient(n / 4096, n / 262144, n / 4096 % 64); }
  }

  lemma DecodeEncoded(c: char, rest: bytes)
    ensures DecodeFirst(EncodeChar(c) + rest) == Decoded(c, |EncodeChar(c)|)
  {
    var e := EncodeChar(c);
    var b := e + rest;
    assert forall i | 0 <= i < |e| :: b[i] == e[i];
    EncodingShape(c);
    PayloadOfEncoding(c);
    assert Payload(b, |e|) == Payload(e, |e|);
  }

  /** Decoding never accepts a second spelling of a scalar value. */
  lemma EncodeDecoded(b: bytes)
    requires DecodeFirst(b).Decoded?
    ensures b[..DecodeFirst(b).size] == EncodeChar(DecodeFirst(b).c)
  {
    var n, k := DecodeFirst(b).c as int, DecodeFirst(b).size;
    if k == 2 {
      Digits(n, 0, 0, b[0] as int - 0xC0, b[1] as int - 0x80);
    } else if k == 3 {
      Digits(n, 0, b[0] as int - 0xE0, b[1] as int - 0x80, b[2] as int - 0x80);
    } else if k == 4 {
      Digits(n, b[0] as int - 0xF0, b[1] as int - 0x80, b[2] as int - 0x80, b[3] as int - 0x80);
    }
  }

  datatype Option<+T> = None | Some(value: T)

  function DecodeUtf8(b: bytes): (r: Option<string>) {
    if b == [] then Some("")
    else
      match DecodeFirst(b)
      case Malformed => None
      case Decoded(c, k) =>
        match DecodeUtf8(b[k..])
        case None => None
        case Some(s) => Some([c] + s)
  }

  lemma {:induction false} DecodeUtf8Encoded(s: string)
    ensures DecodeUtf8(Utf8(s)) == Some(s)
  {
    if s != [] {
      DecodeEncoded(s[0], Utf8(s[1..]));
      DecodeUtf8Encoded(s[1..]);
      assert Utf8(s)[|EncodeChar(s[0])|..] == Utf8(s[1..]);
      assert s == [s[0]] + s[1..];
    }
  }

  lemma Utf8Cons(c: char, s: string)
    ensures Utf8([c] + s) == EncodeChar(c) + Utf8(s)
  {
    assert ([c] + s)[1..] == s;
  }

  lemma DecodeStep(b: bytes) returns (c: char, k: nat)
    requires b != [] && DecodeUtf8(b).Some?
    ensures 1 <= k <= |b| && b[..k] == EncodeChar(c) && DecodeUtf8(b[k..]).Some?
    ensures DecodeUtf8(b).value == [c] + DecodeUtf8(b[k..]).value
  {
    EncodeDecoded(b);
    c, k := DecodeFirst(b).c, DecodeFirst(b).size;
  }

  lemma {:induction false} Utf8Decoded(b: bytes)
    requires DecodeUtf8(b).Some?
    ensures Utf8(DecodeUtf8(b).value) == b
  {
    if b != [] {
      var c, k := DecodeStep(b);
      Utf8Decoded(b[k..]);
      Utf8Cons(c, DecodeUtf8(b[k..]).value);
      assert b == b[..k] + b[k..];
    }
  }

  lemma {:induction false} Utf8Append(s: string, t: string)
    ensures Utf8(s + t) == Utf8(s) + Utf8(t)
  {
    if s == [] {
      assert s + t == t;
    } else {
      assert (s + t)[0] == s[0] && (s + t)[1..] == s[1..] + t;
      Utf8Append(s[1..], t);
    }
  }

  /** Distinct texts have distinct encodings. */
  lemma Utf8Injective(s: string, t: string)
    requires Utf8(s) == Utf8(t)
    ensures s == t
  {
    DecodeUtf8Encoded(s);
    DecodeUtf8Encoded(t);
  }
}
