/**
 * `Buffer.from(text).toString('base64')`: the text is encoded as UTF-8 and the
 * bytes are written in the base 64 alphabet of section 4 of RFC 4648, with "="
 * padding. A decoder is given only to state that the encoding loses nothing.
 */
module Base64 {
  import opened Wrappers

  newtype byte = x: int | 0 <= x < 256

  /** UTF-8 encoding of one Unicode scalar value. */
  function Utf8Char(c: char): (b: seq<byte>)
    ensures 1 <= |b| <= 4
  {
    var cp := c as int;
    if cp < 0x80 then [cp as byte]
    else if cp < 0x800 then [(0xC0 + cp / 64) as byte, (0x80 + cp % 64) as byte]
    else if cp < 0x1_0000 then [(0xE0 + cp / 4096) as byte, (0x80 + (cp / 64) % 64) as byte, (0x80 + cp % 64) as byte]
    else [(0xF0 + cp / 262144) as byte, (0x80 + (cp / 4096) % 64) as byte,
          (0x80 + (cp / 64) % 64) as byte, (0x80 + cp % 64) as byte]
  }

  /** Every character takes one to four bytes. */
  function Utf8(s: string): (b: seq<byte>)
    ensures |s| <= |b| <= 4 * |s|
  {
    if s == [] then [] else Utf8Char(s[0]) + Utf8(s[1..])
  }

  /** Text of plain ASCII characters is its own UTF-8 encoding, one byte per character. */
  lemma {:induction false} Utf8OfAscii(s: string)
    requires forall i :: 0 <= i < |s| ==> s[i] as int < 0x80
    ensures |Utf8(s)| == |s|
    ensures forall i :: 0 <= i < |s| ==> Utf8(s)[i] as int == s[i] as int
  {
    if s != [] {
      Utf8OfAscii(s[1..]);
    }
  }

  /**
   * The base 64 alphabet: "A".."Z" are 0..25, "a".."z" 26..51, "0".."9"
   * 52..61, "+" is 62 and "/" is 63.
   */
  function Sextet(i: int): (c: char)
    requires 0 <= i < 64
    ensures IndexOf(c) == i
  {
    if i < 26 then ('A' as int + i) as char
    else if i < 52 then ('a' as int + i - 26) as char
    else if i < 62 then ('0' as int + i - 52) as char
    else if i == 62 then '+'
    else '/'
  }

  /** The position of `c` in the alphabet, 64 when it does not occur. */
  function IndexOf(c: char): (i: nat)
    ensures i <= 64
  {
    if 'A' <= c <= 'Z' then c as int - 'A' as int
    else if 'a' <= c <= 'z' then c as int - 'a' as int + 26
    else if '0' <= c <= '9' then c as int - '0' as int + 52
    else if c == '+' then 62
    else if c == '/' then 63
    else 64
  }

  predicate InAlphabet(c: char) {
    IndexOf(c) < 64
  }

  lemma DivMod16(q: int, r: int)
    requires 0 <= r < 16
    ensures (q * 16 + r) / 16 == q && (q * 16 + r) % 16 == r
  {
  }

  lemma DivMod4(q: int, r: int)
    requires 0 <= r < 4
    ensures (q * 4 + r) / 4 == q && (q * 4 + r) % 4 == r
  {
  }

  /** The four sextets of three bytes determine the bytes. */
  lemma SextetsDetermineBytes(a: int, b: int, c: int)
    requires 0 <= a < 256 && 0 <= b < 256 && 0 <= c < 256
    ensures var w, x, y, z := a / 4, (a % 4) * 16 + b / 16, (b % 16) * 4 + c / 64, c % 64;
      && 0 <= w < 64 && 0 <= x < 64 && 0 <= y < 64 && 0 <= z < 64
      && w * 4 + x / 16 == a && (x % 16) * 16 + y / 4 == b && (y % 4) * 64 + z == c
      && (b == 0 ==> x % 16 == 0) && (c == 0 ==> y % 4 == 0)
  {
    DivMod16(a % 4, b / 16);
    DivMod4(b % 16, c / 64);
  }

  /** Three bytes, or the one or two left at the end padded with "=". */
  function EncodeGroup(g: seq<byte>): (s: string)
    requires 1 <= |g| <= 3
    ensures |s| == 4
  {
    var a := g[0] as int;
    var b := if |g| > 1 then g[1] as int else 0;
    var c := if |g| > 2 then g[2] as int else 0;
    [Sextet(a / 4), Sextet((a % 4) * 16 + b / 16)]
      + (if |g| > 1 then [Sextet((b % 16) * 4 + c / 64)] else "=")
      + (if |g| > 2 then [Sextet(c % 64)] else "=")
  }

  function Encode(data: seq<byte>): (s: string)
    ensures |s| == 4 * ((|data| + 2) / 3)
    decreases |data|
  {
    if data == [] then ""
    else if |data| <= 3 then EncodeGroup(data)
    else
      var rest := Encode(data[3..]);
      assert (|data| + 2) / 3 == (|data| - 3 + 2) / 3 + 1;
      EncodeGroup(data[..3]) + rest
  }

  /** Four characters back to the one, two or three bytes they stand for. */
  function DecodeGroup(s: string): Option<seq<byte>>
    requires |s| == 4
  {
    var w, x, y, z := IndexOf(s[0]), IndexOf(s[1]), IndexOf(s[2]), IndexOf(s[3]);
    if w == 64 || x == 64 then None
    else if s[2] == '=' && s[3] == '=' then
      if x % 16 == 0 then Some([(w * 4 + x / 16) as byte]) else None
    else if y == 64 then None
    else if s[3] == '=' then
      if y % 4 == 0 then Some([(w * 4 + x / 16) as byte, ((x % 16) * 16 + y / 4) as byte]) else None
    else if z == 64 then None
    else Some([(w * 4 + x / 16) as byte, ((x % 16) * 16 + y / 4) as byte, ((y % 4) * 64 + z) as byte])
  }

  function Decode(s: string): Option<seq<byte>>
    decreases |s|
  {
    if s == [] then Some([])
    else if |s| < 4 then None
    else
      match DecodeGroup(s[..4])
      case None => None
      case Some(g) =>
        if |s| > 4 && |g| < 3 then None
        else
          match Decode(s[4..])
          case None => None
          case Some(rest) => Some(g + rest)
  }

  lemma DecodeEncodeGroup(g: seq<byte>)
    requires 1 <= |g| <= 3
    ensures DecodeGroup(EncodeGroup(g)) == Some(g)
  {
    if |g| == 1 {
      DecodeEncodeOne(g[0] as int);
      assert g == [g[0]];
    } else if |g| == 2 {
      DecodeEncodeTwo(g[0] as int, g[1] as int);
      assert g == [g[0], g[1]];
    } else {
      DecodeEncodeThree(g[0] as int, g[1] as int, g[2] as int);
      assert g == [g[0], g[1], g[2]];
    }
  }

  lemma DecodeEncodeOne(a: int)
    requires 0 <= a < 256
    ensures DecodeGroup(EncodeGroup([a as byte])) == Some([a as byte])
  {
    SextetsDetermineBytes(a, 0, 0);
    var w, x := a / 4, (a % 4) * 16;
    var s := EncodeGroup([a as byte]);
    assert s == [Sextet(w), Sextet(x), '=', '='];
    assert IndexOf(s[0]) == w && IndexOf(s[1]) == x;
  }

  /** What four characters of the alphabet, or three and "=", decode to. */
  lemma DecodeSextets(w: int, x: int, y: int, z: int, a: byte, b: byte, c: byte)
    requires 0 <= w < 64 && 0 <= x < 64 && 0 <= y < 64 && 0 <= z < 64
    requires w * 4 + x / 16 == a as int && (x % 16) * 16 + y / 4 == b as int && (y % 4) * 64 + z == c as int
    ensures y % 4 == 0 ==> DecodeGroup([Sextet(w), Sextet(x), Sextet(y), '=']) == Some([a, b])
    ensures DecodeGroup([Sextet(w), Sextet(x), Sextet(y), Sextet(z)]) == Some([a, b, c])
  {
    assert Sextet(y) != '=' && Sextet(z) != '=' by {
      assert IndexOf('=') == 64;
    }
  }

  /** The characters of a full group and of a two-byte group. */
  lemma EncodeGroupSextets(a: int, b: int, c: int)
    requires 0 <= a < 256 && 0 <= b < 256 && 0 <= c < 256
    ensures EncodeGroup([a as byte, b as byte, c as byte])
         == [Sextet(a / 4), Sextet((a % 4) * 16 + b / 16), Sextet((b % 16) * 4 + c / 64), Sextet(c % 64)]
    ensures EncodeGroup([a as byte, b as byte]) == [Sextet(a / 4), Sextet((a % 4) * 16 + b / 16), Sextet((b % 16) * 4), '=']
  {
  }

  lemma DecodeEncodeTwo(a: int, b: int)
    requires 0 <= a < 256 && 0 <= b < 256
    ensures DecodeGroup(EncodeGroup([a as byte, b as byte])) == Some([a as byte, b as byte])
  {
    EncodeGroupSextets(a, b, 0);
    SextetsDetermineBytes(a, b, 0);
    DecodeSextets(a / 4, (a % 4) * 16 + b / 16, (b % 16) * 4, 0, a as byte, b as byte, 0);
  }

  lemma DecodeEncodeThree(a: int, b: int, c: int)
    requires 0 <= a < 256 && 0 <= b < 256 && 0 <= c < 256
    ensures DecodeGroup(EncodeGroup([a as byte, b as byte, c as byte])) == Some([a as byte, b as byte, c as byte])
  {
    EncodeGroupSextets(a, b, c);
    SextetsDetermineBytes(a, b, c);
    DecodeSextets(a / 4, (a % 4) * 16 + b / 16, (b % 16) * 4 + c / 64, c % 64, a as byte, b as byte, c as byte);
  }

  /** Decoding an encoding gives the bytes back: the encoding is injective. */
  lemma {:induction false} DecodeEncode(data: seq<byte>)
    ensures Decode(Encode(data)) == Some(data)
    decreases |data|
  {
    if data == [] {
    } else if |data| <= 3 {
      DecodeEncodeGroup(data);
      var s := Encode(data);
      assert s == EncodeGroup(data);
      assert s[..4] == s;
      assert data + [] == data;
    } else {
      var s := Encode(data);
      DecodeEncodeGroup(data[..3]);
      DecodeEncode(data[3..]);
      assert s[..4] == EncodeGroup(data[..3]);
      assert s[4..] == Encode(data[3..]);
      assert data[..3] + data[3..] == data;
    }
  }

  /** The characters of an encoding are alphabet letters, with "=" only as padding. */
  lemma {:induction false} EncodeAlphabet(data: seq<byte>)
    ensures var s := Encode(data);
      forall i :: 0 <= i < |s| ==> InAlphabet(s[i]) || (s[i] == '=' && i >= |s| - 2)
    decreases |data|
  {
    if |data| > 3 {
      EncodeAlphabet(data[3..]);
      var s := Encode(data);
      assert s == EncodeGroup(data[..3]) + Encode(data[3..]);
    }
  }

  /** The test vectors of section 10 of RFC 4648 for "f", "fo" and "foo". */
  lemma EncodeTestVectors()
    ensures Encode([102]) == "Zg=="
    ensures Encode([102, 111]) == "Zm8="
    ensures Encode([102, 111, 111]) == "Zm9v"
  {
    assert Encode([102]) == EncodeGroup([102]) == [Sextet(25), Sextet(32), '=', '='];
    assert Encode([102, 111]) == EncodeGroup([102, 111]) == [Sextet(25), Sextet(38), Sextet(60), '='];
    assert Encode([102, 111, 111]) == EncodeGroup([102, 111, 111]) == [Sextet(25), Sextet(38), Sextet(61), Sextet(47)];
  }

  /** The credentials "u" and "p" are sent as "dTpw". */
  lemma EncodeCredentialsExample()
    ensures Encode(Utf8("u:p")) == "dTpw"
  {
    assert Utf8("u:p") == [117, 58, 112];
  }
}
