/** Buffer.from(text).toString("base64"), which builds the Basic credential: the
    UTF-8 encoding of the text (RFC 3629), then base64 with the alphabet and padding
    of section 4 of RFC 4648. The decoders exist to state the round trips: the
    credential the server receives decodes back to the text that was encoded. */
module Base64 {
  import opened Seqs

  type byte = x: int | 0 <= x < 256
  type sextet = x: int | 0 <= x < 64

  // ---------------------------------------------------------------------------
  // UTF-8
  // ---------------------------------------------------------------------------

  /** A continuation byte 10xxxxxx carrying six bits. */
  function Cont(bits: int): byte
  {
    0x80 + bits % 64
  }

  /** The UTF-8 bytes of one Unicode scalar value. */
  function Utf8Char(c: char): (r: seq<byte>)
    ensures 1 <= |r| <= 4
    ensures c as int < 0x80 ==> r == [c as int]
  {
    var n := c as int;
    if n < 0x80 then [n]
    else if n < 0x800 then [0xC0 + n / 64, Cont(n)]
    else if n < 0x1_0000 then [0xE0 + n / 4096, Cont(n / 64), Cont(n)]
    else [0xF0 + n / 262144, Cont(n / 4096), Cont(n / 64), Cont(n)]
  }

  function Utf8(s: string): seq<byte>
  {
    if s == [] then [] else Utf8Char(s[0]) + Utf8(s[1..])
  }

  /** ASCII text is its own UTF-8 encoding. */
  lemma {:induction false} Utf8Ascii(s: string)
    requires forall i :: 0 <= i < |s| ==> s[i] as int < 0x80
    ensures |Utf8(s)| == |s|
    ensures forall i :: 0 <= i < |s| ==> Utf8(s)[i] == s[i] as int
  {
    if s != [] {
      Utf8Ascii(s[1..]);
      assert Utf8(s) == [s[0] as int] + Utf8(s[1..]);
    }
  }

  lemma Utf8Append(a: string, b: string)
    ensures Utf8(a + b) == Utf8(a) + Utf8(b)
  {
    if a != [] {
      assert (a + b)[1..] == a[1..] + b;
      Utf8Append(a[1..], b);
    } else {
      assert a + b == b;
    }
  }

  predicate IsScalar(n: int)
  {
    0 <= n < 0xD800 || 0xE000 <= n < 0x11_0000
  }

  /** The bits of a continuation byte, or None for a byte that is not one. */
  function ContBits(b: byte): Option<sextet>
  {
    if 0x80 <= b < 0xC0 then Some(b - 0x80) else None
  }

  /** Decodes the first character of a UTF-8 byte sequence; returns it with the
      number of bytes it took. */
  function DecodeFirst(b: seq<byte>): Option<(char, nat)>
    requires b != []
  {
    var lead := b[0];
    var n: Option<int> :=
      if lead < 0x80 then Some(lead)
      else if 0xC0 <= lead < 0xE0 && |b| >= 2 && ContBits(b[1]).Some? then
        Some((lead - 0xC0) * 64 + ContBits(b[1]).value)
      else if 0xE0 <= lead < 0xF0 && |b| >= 3 && ContBits(b[1]).Some? && ContBits(b[2]).Some? then
        Some((lead - 0xE0) * 4096 + ContBits(b[1]).value * 64 + ContBits(b[2]).value)
      else if 0xF0 <= lead < 0xF8 && |b| >= 4 && ContBits(b[1]).Some? && ContBits(b[2]).Some? && ContBits(b[3]).Some? then
        Some((lead - 0xF0) * 262144 + ContBits(b[1]).value * 4096 + ContBits(b[2]).value * 64 + ContBits(b[3]).value)
      else None;
    var len: nat := if lead < 0x80 then 1 else if lead < 0xE0 then 2 else if lead < 0xF0 then 3 else 4;
    if n.Some? && IsScalar(n.value) then Some((n.value as char, len)) else None
  }

  function Utf8Decode(b: seq<byte>): Option<string>
    decreases |b|
  {
    if b == [] then Some([])
    else match DecodeFirst(b)
      case None => None
      case Some((c, len)) =>
        if len > |b| then None
        else match Utf8Decode(b[len..])
          case None => None
          case Some(rest) => Some([c] + rest)
  }

  /** Splitting off six bits: n is its quotient by 64 followed by its low six bits. */
  lemma SplitSix(n: nat)
    ensures n == (n / 64) * 64 + n % 64 && Cont(n) == 0x80 + n % 64
  {
  }

  lemma DecodeTwo(c: char, rest: seq<byte>)
    requires 0x80 <= c as int < 0x800
    ensures DecodeFirst(Utf8Char(c) + rest) == Some((c, 2))
  {
    var n := c as int;
    var b := Utf8Char(c) + rest;
    SplitSix(n);
    assert b[0] == 0xC0 + n / 64 && 0xC0 <= b[0] < 0xE0;
    assert b[1] == Cont(n) && ContBits(b[1]) == Some(n % 64);
    assert (b[0] - 0xC0) * 64 + n % 64 == n;
  }

  lemma DecodeThree(c: char, rest: seq<byte>)
    requires 0x800 <= c as int < 0x1_0000
    ensures DecodeFirst(Utf8Char(c) + rest) == Some((c, 3))
  {
    var n := c as int;
    var q := n / 64;
    var b := Utf8Char(c) + rest;
    SplitSix(n);
    SplitSix(q);
    assert q / 64 == n / 4096;
    assert b[0] == 0xE0 + q / 64 && 0xE0 <= b[0] < 0xF0;
    assert b[1] == Cont(q) && ContBits(b[1]) == Some(q % 64);
    assert b[2] == Cont(n) && ContBits(b[2]) == Some(n % 64);
    assert (b[0] - 0xE0) * 4096 + (q % 64) * 64 + n % 64 == n;
  }

  lemma DecodeFour(c: char, rest: seq<byte>)
    requires 0x1_0000 <= c as int
    ensures DecodeFirst(Utf8Char(c) + rest) == Some((c, 4))
  {
    var n := c as int;
    var q := n / 64;
    var p := q / 64;
    var b := Utf8Char(c) + rest;
    SplitSix(n);
    SplitSix(q);
    SplitSix(p);
    assert q / 64 == n / 4096 && p / 64 == n / 262144;
    assert b[0] == 0xF0 + p / 64 && 0xF0 <= b[0] < 0xF8;
    assert b[1] == Cont(p) && ContBits(b[1]) == Some(p % 64);
    assert b[2] == Cont(q) && ContBits(b[2]) == Some(q % 64);
    assert b[3] == Cont(n) && ContBits(b[3]) == Some(n % 64);
    assert (b[0] - 0xF0) * 262144 + (p % 64) * 4096 + (q % 64) * 64 + n % 64 == n;
  }

  /** Decoding the bytes of one character, followed by anything, yields that
      character and consumes exactly its bytes. */
  lemma DecodeFirstChar(c: char, rest: seq<byte>)
    ensures DecodeFirst(Utf8Char(c) + rest) == Some((c, |Utf8Char(c)|))
  {
    var n := c as int;
    if n < 0x80 {
    } else if n < 0x800 {
      DecodeTwo(c, rest);
    } else if n < 0x1_0000 {
      DecodeThree(c, rest);
    } else {
      DecodeFour(c, rest);
    }
  }

  /** UTF-8 decoding undoes the encoding. */
  lemma {:induction false} Utf8RoundTrip(s: string)
    ensures Utf8Decode(Utf8(s)) == Some(s)
  {
    if s != [] {
      var head := Utf8Char(s[0]);
      DecodeFirstChar(s[0], Utf8(s[1..]));
      Utf8RoundTrip(s[1..]);
      assert (head + Utf8(s[1..]))[|head|..] == Utf8(s[1..]);
      assert [s[0]] + s[1..] == s;
    }
  }

  // ---------------------------------------------------------------------------
  // Base64, section 4 of RFC 4648
  // ---------------------------------------------------------------------------

  const Pad := '='

  /** Table 1 of RFC 4648: A-Z, a-z, 0-9, '+', '/'. */
  function EncodeSextet(x: sextet): char
  {
    if x < 26 then ('A' as int + x) as char
    else if x < 52 then ('a' as int + (x - 26)) as char
    else if x < 62 then ('0' as int + (x - 52)) as char
    else if x == 62 then '+'
    else '/'
  }

  function DecodeSextet(c: char): Option<sextet>
  {
    if 'A' <= c <= 'Z' then Some(c as int - 'A' as int)
    else if 'a' <= c <= 'z' then Some(c as int - 'a' as int + 26)
    else if '0' <= c <= '9' then Some(c as int - '0' as int + 52)
    else if c == '+' then Some(62)
    else if c == '/' then Some(63)
    else None
  }

  lemma SextetRoundTrip(x: sextet)
    ensures DecodeSextet(EncodeSextet(x)) == Some(x)
    ensures EncodeSextet(x) != Pad
  {
  }

  /** Three bytes as four sextets, most significant bits first. */
  function Split3(b0: byte, b1: byte, b2: byte): (r: (sextet, sextet, sextet, sextet))
  {
    (b0 / 4, (b0 % 4) * 16 + b1 / 16, (b1 % 16) * 4 + b2 / 64, b2 % 64)
  }

  /** Four sextets as three bytes. */
  function Join4(c0: sextet, c1: sextet, c2: sextet, c3: sextet): (byte, byte, byte)
  {
    (c0 * 4 + c1 / 16, (c1 % 16) * 16 + c2 / 4, (c2 % 4) * 64 + c3)
  }

  lemma SplitJoin(b0: byte, b1: byte, b2: byte)
    ensures var (c0, c1, c2, c3) := Split3(b0, b1, b2); Join4(c0, c1, c2, c3) == (b0, b1, b2)
  {
    var (c0, c1, c2, c3) := Split3(b0, b1, b2);
    assert c1 / 16 == b0 % 4 && c1 % 16 == b1 / 16;
    assert c2 / 4 == b1 % 16 && c2 % 4 == b2 / 64;
  }

  function Quad(b0: byte, b1: byte, b2: byte): (r: string)
    ensures |r| == 4
  {
    var (c0, c1, c2, c3) := Split3(b0, b1, b2);
    [EncodeSextet(c0), EncodeSextet(c1), EncodeSextet(c2), EncodeSextet(c3)]
  }

  /** Buffer.toString("base64"): groups of three bytes become four characters; a final
      group of two or one byte is padded with zero bits and then with '='. */
  function Encode(b: seq<byte>): (r: string)
    ensures |r| == (|b| + 2) / 3 * 4
    decreases |b|
  {
    if |b| >= 3 then Quad(b[0], b[1], b[2]) + Encode(b[3..])
    else if |b| == 2 then Quad(b[0], b[1], 0)[..3] + [Pad]
    else if |b| == 1 then Quad(b[0], 0, 0)[..2] + [Pad, Pad]
    else []
  }

  /** The bytes of one four-character group, with its padding. */
  function DecodeQuad(q: string): Option<seq<byte>>
    requires |q| == 4
  {
    var d0, d1 := DecodeSextet(q[0]), DecodeSextet(q[1]);
    var d2, d3 := DecodeSextet(q[2]), DecodeSextet(q[3]);
    if d0.None? || d1.None? then None
    else if q[2] == Pad && q[3] == Pad then
      var (x, _, _) := Join4(d0.value, d1.value, 0, 0); Some([x])
    else if d2.None? then None
    else if q[3] == Pad then
      var (x, y, _) := Join4(d0.value, d1.value, d2.value, 0); Some([x, y])
    else if d3.None? then None
    else
      var (x, y, z) := Join4(d0.value, d1.value, d2.value, d3.value); Some([x, y, z])
  }

  function Decode(s: string): Option<seq<byte>>
    decreases |s|
  {
    if s == [] then Some([])
    else if |s| < 4 then None
    else match DecodeQuad(s[..4])
      case None => None
      case Some(head) =>
        if |head| < 3 && |s| > 4 then None
        else match Decode(s[4..])
          case None => None
          case Some(tail) => Some(head + tail)
  }

  lemma QuadDecodes(b0: byte, b1: byte, b2: byte)
    ensures DecodeQuad(Quad(b0, b1, b2)) == Some([b0, b1, b2])
    ensures DecodeQuad(Quad(b0, b1, 0)[..3] + [Pad]) == Some([b0, b1])
    ensures DecodeQuad(Quad(b0, 0, 0)[..2] + [Pad, Pad]) == Some([b0])
  {
    var (c0, c1, c2, c3) := Split3(b0, b1, b2);
    SextetRoundTrip(c0); SextetRoundTrip(c1); SextetRoundTrip(c2); SextetRoundTrip(c3);
    SplitJoin(b0, b1, b2);
    var (e0, e1, e2, e3) := Split3(b0, b1, 0);
    SextetRoundTrip(e0); SextetRoundTrip(e1); SextetRoundTrip(e2);
    SplitJoin(b0, b1, 0);
    var (f0, f1, f2, f3) := Split3(b0, 0, 0);
    SextetRoundTrip(f0); SextetRoundTrip(f1);
    SplitJoin(b0, 0, 0);
  }

  /** A single group decodes as that group. */
  lemma DecodeLastQuad(s: string)
    requires |s| == 4 && DecodeQuad(s).Some?
    ensures Decode(s) == DecodeQuad(s)
  {
    assert s[..4] == s && s[4..] == [];
    assert DecodeQuad(s).value + [] == DecodeQuad(s).value;
  }

  /** A full group followed by an encoding that decodes. */
  lemma RoundTripGroup(b0: byte, b1: byte, b2: byte, rest: seq<byte>)
    requires Decode(Encode(rest)) == Some(rest)
    ensures Decode(Encode([b0, b1, b2] + rest)) == Some([b0, b1, b2] + rest)
  {
    var b := [b0, b1, b2] + rest;
    assert b[0] == b0 && b[1] == b1 && b[2] == b2 && b[3..] == rest;
    var q, t := Quad(b0, b1, b2), Encode(rest);
    var s := q + t;
    assert Encode(b) == s;
    assert s[..4] == q;
    assert s[4..] == t;
    QuadDecodes(b0, b1, b2);
  }

  /** Base64 decoding undoes the encoding. */
  lemma {:induction false} RoundTrip(b: seq<byte>)
    ensures Decode(Encode(b)) == Some(b)
    decreases |b|
  {
    if |b| >= 3 {
      assert [b[0], b[1], b[2]] + b[3..] == b;
      RoundTrip(b[3..]);
      RoundTripGroup(b[0], b[1], b[2], b[3..]);
    } else if |b| == 2 {
      QuadDecodes(b[0], b[1], 0);
      DecodeLastQuad(Encode(b));
      assert [b[0], b[1]] == b;
    } else if |b| == 1 {
      QuadDecodes(b[0], 0, 0);
      DecodeLastQuad(Encode(b));
      assert [b[0]] == b;
    }
  }

  /** The whole of Buffer.from(text).toString("base64") decodes back to the text. */
  lemma TextRoundTrip(text: string)
    ensures Decode(Encode(Utf8(text))).Some?
    ensures Utf8Decode(Decode(Encode(Utf8(text))).value) == Some(text)
  {
    RoundTrip(Utf8(text));
    Utf8RoundTrip(text);
  }
}
