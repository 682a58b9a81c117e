/** Base 64 encoding with the standard alphabet and `=` padding, as defined
    in section 4 of RFC 4648; this is the encoding `base64::encode` applies
    to the credential string. */
module Base64 {
  import opened Wrappers
  import opened Utf8

  /** A 6-bit group value. */
  type Sextet = x: int | 0 <= x < 64

  /** The character that stands for a 6-bit value (Table 1 of RFC 4648):
      0..25 are A..Z, 26..51 are a..z, 52..61 are 0..9, 62 is '+', 63 is '/'. */
  function SextetChar(i: Sextet): (c: char)
    ensures c != '='
  {
    if i < 26 then ('A' as int + i) as char
    else if i < 52 then ('a' as int + (i - 26)) as char
    else if i < 62 then ('0' as int + (i - 52)) as char
    else if i == 62 then '+'
    else '/'
  }

  /** The 6-bit value a character of the alphabet stands for, `None` for any
      other character (padding included). */
  function SextetOf(c: char): (r: Option<Sextet>)
  {
    if 'A' <= c <= 'Z' then Some(c as int - 'A' as int)
    else if 'a' <= c <= 'z' then Some(c as int - 'a' as int + 26)
    else if '0' <= c <= '9' then Some(c as int - '0' as int + 52)
    else if c == '+' then Some(62)
    else if c == '/' then Some(63)
    else None
  }

  /** The characters of the encoding alphabet. */
  predicate InAlphabet(c: char) {
    SextetOf(c).Some?
  }

  lemma SextetCharOf(i: Sextet)
    ensures SextetOf(SextetChar(i)) == Some(i)
  {
  }

  /** Characters of an encoded string: alphabet characters or padding. */
  predicate IsEncodedChar(c: char) {
    InAlphabet(c) || c == '='
  }

  /** The four characters that encode the octets `a b c`. */
  function Quantum(a: Byte, b: Byte, c: Byte): (q: string)
    ensures |q| == 4 && forall i :: 0 <= i < 4 ==> InAlphabet(q[i])
  {
    SextetCharOf(a / 4);
    SextetCharOf((a % 4) * 16 + b / 16);
    SextetCharOf((b % 16) * 4 + c / 64);
    SextetCharOf(c % 64);
    [SextetChar(a / 4), SextetChar((a % 4) * 16 + b / 16), SextetChar((b % 16) * 4 + c / 64), SextetChar(c % 64)]
  }

  /** Encodes octets; every group of three octets becomes four characters
      and a final group of one or two octets is padded with `=`. */
  function Encode(b: seq<Byte>): (r: string)
    ensures |r| == 4 * ((|b| + 2) / 3)
    ensures forall i :: 0 <= i < |r| ==> IsEncodedChar(r[i])
    decreases |b|
  {
    if |b| == 0 then []
    else if |b| == 1 then Quantum(b[0], 0, 0)[..2] + "=="
    else if |b| == 2 then Quantum(b[0], b[1], 0)[..3] + "="
    else Quantum(b[0], b[1], b[2]) + Encode(b[3..])
  }

  /** The three octets a quantum of sextets `i0 i1 i2 i3` stands for. */
  function FirstOctet(i0: Sextet, i1: Sextet): Byte { i0 as int * 4 + i1 as int / 16 }
  function SecondOctet(i1: Sextet, i2: Sextet): Byte { (i1 as int % 16) * 16 + i2 as int / 4 }
  function ThirdOctet(i2: Sextet, i3: Sextet): Byte { (i2 as int % 4) * 64 + i3 as int }

  /** Decodes one four-character quantum that has no padding into three octets. */
  function DecodeFull(q: string): (r: Option<seq<Byte>>)
    requires |q| == 4
    ensures r.Some? ==> |r.value| == 3
  {
    match (SextetOf(q[0]), SextetOf(q[1]), SextetOf(q[2]), SextetOf(q[3]))
    case (Some(i0), Some(i1), Some(i2), Some(i3)) =>
      Some([FirstOctet(i0, i1), SecondOctet(i1, i2), ThirdOctet(i2, i3)])
    case _ => None
  }

  /** Decodes the last quantum, which may end in one or two `=`. */
  function DecodeFinal(q: string): (r: Option<seq<Byte>>)
    requires |q| == 4
    ensures r.Some? ==> 1 <= |r.value| <= 3
  {
    if q[2] == '=' && q[3] == '=' then
      match (SextetOf(q[0]), SextetOf(q[1]))
      case (Some(i0), Some(i1)) => Some([FirstOctet(i0, i1)])
      case _ => None
    else if q[3] == '=' then
      match (SextetOf(q[0]), SextetOf(q[1]), SextetOf(q[2]))
      case (Some(i0), Some(i1), Some(i2)) => Some([FirstOctet(i0, i1), SecondOctet(i1, i2)])
      case _ => None
    else
      DecodeFull(q)
  }

  /** Decodes a padded encoding; `None` when the length is not a multiple of
      four or a character is out of place. */
  function Decode(s: string): (r: Option<seq<Byte>>)
    decreases |s|
  {
    if |s| == 0 then Some([])
    else if |s| < 4 then None
    else if |s| == 4 then DecodeFinal(s)
    else match (DecodeFull(s[..4]), Decode(s[4..]))
      case (Some(q), Some(rest)) => Some(q + rest)
      case _ => None
  }

  /** The arithmetic of one quantum: the four sextets cut from three octets
      put the octets back together. */
  lemma QuantumArithmetic(a: Byte, b: Byte, c: Byte)
    ensures a / 4 * 4 + ((a % 4) * 16 + b / 16) / 16 == a
    ensures (((a % 4) * 16 + b / 16) % 16) * 16 + ((b % 16) * 4 + c / 64) / 4 == b
    ensures (((b % 16) * 4 + c / 64) % 4) * 64 + c % 64 == c
  {
    var a1, a2 := a / 4, a % 4;
    var b1, b2 := b / 16, b % 16;
    var c1, c2 := c / 64, c % 64;
    assert a == a1 * 4 + a2 && b == b1 * 16 + b2 && c == c1 * 64 + c2;
    assert (a2 * 16 + b1) / 16 == a2 && (a2 * 16 + b1) % 16 == b1;
    assert (b2 * 4 + c1) / 4 == b2 && (b2 * 4 + c1) % 4 == c1;
  }

  lemma QuantumDecodes(a: Byte, b: Byte, c: Byte)
    ensures DecodeFull(Quantum(a, b, c)) == Some([a, b, c])
  {
    QuantumArithmetic(a, b, c);
    SextetCharOf(a / 4);
    SextetCharOf((a % 4) * 16 + b / 16);
    SextetCharOf((b % 16) * 4 + c / 64);
    SextetCharOf(c % 64);
  }

  lemma OneOctetDecodes(a: Byte)
    ensures DecodeFinal(Quantum(a, 0, 0)[..2] + "==") == Some([a])
  {
    QuantumArithmetic(a, 0, 0);
    SextetCharOf(a / 4);
    SextetCharOf((a % 4) * 16);
  }

  lemma TwoOctetsDecode(a: Byte, b: Byte)
    ensures DecodeFinal(Quantum(a, b, 0)[..3] + "=") == Some([a, b])
  {
    QuantumArithmetic(a, b, 0);
    SextetCharOf(a / 4);
    SextetCharOf((a % 4) * 16 + b / 16);
    SextetCharOf((b % 16) * 4);
  }

  /** Decoding inverts encoding (section 4 of RFC 4648). */
  lemma {:induction false} DecodeEncode(b: seq<Byte>)
    ensures Decode(Encode(b)) == Some(b)
    decreases |b|
  {
    if |b| == 1 {
      OneOctetDecodes(b[0]);
      assert [b[0]] == b;
    } else if |b| == 2 {
      TwoOctetsDecode(b[0], b[1]);
      assert [b[0], b[1]] == b;
    } else if |b| >= 3 {
      var q, rest := Quantum(b[0], b[1], b[2]), Encode(b[3..]);
      QuantumDecodes(b[0], b[1], b[2]);
      assert b == [b[0], b[1], b[2]] + b[3..];
      if |b| == 3 {
        assert b[3..] == [] && Encode(b) == q;
        assert q[3] != '=' && DecodeFinal(q) == DecodeFull(q);
        assert Decode(Encode(b)) == DecodeFinal(q);
        assert [b[0], b[1], b[2]] == b;
      } else {
        DecodeEncode(b[3..]);
        assert (q + rest)[..4] == q && (q + rest)[4..] == rest;
      }
    }
  }

  /** Hence the encoding is injective. */
  lemma EncodeInjective(b: seq<Byte>, c: seq<Byte>)
    requires Encode(b) == Encode(c)
    ensures b == c
  {
    DecodeEncode(b);
    DecodeEncode(c);
  }
}
