/** Base64 as Go's encoding/base64 reads and writes it (RFC 4648 sections 4 and 5): two
    alphabets, padded or not, line breaks skipped, unused trailing bits not checked. */
module Base64 {
  import opened Maybes

  type byte = x: int | 0 <= x < 256
  type sextet = x: int | 0 <= x < 64

  datatype Encoding = Encoding(url: bool, padded: bool)

  const Pad: byte := 61

  // ----- the alphabets -----

  function Char(url: bool, d: sextet): (c: byte)
    ensures c != Pad && c != 10 && c != 13 && c != 34 && c != 92
  {
    if d < 26 then 65 + d
    else if d < 52 then 71 + d
    else if d < 62 then d - 4
    else if d == 62 then (if url then 45 else 43)
    else if url then 95 else 47
  }

  /** The value of a character, or -1 outside the alphabet. */
  function Digit(url: bool, c: byte): (d: int)
    ensures -1 <= d < 64
    ensures d >= 0 ==> Char(url, d) == c
    ensures d == -1 ==> forall x: sextet :: Char(url, x) != c
  {
    if 65 <= c <= 90 then c - 65
    else if 97 <= c <= 122 then c - 71
    else if 48 <= c <= 57 then c + 4
    else if c == (if url then 45 else 43) then 62
    else if c == (if url then 95 else 47) then 63
    else -1
  }

  lemma DigitOfChar(url: bool, d: sextet)
    ensures Digit(url, Char(url, d)) == d
  {
  }

  const Upper := "ABCDEFGHIJKLMNOPQRSTUVWXYZ"
  const Lower := "abcdefghijklmnopqrstuvwxyz"
  const Decimal := "0123456789"

  /** Table 1 in section 4 and table 2 in section 5 of RFC 4648. */
  function Table(url: bool): (t: string)
    ensures |t| == 64
  {
    Upper + Lower + Decimal + if url then "-_" else "+/"
  }

  lemma UpperAt(d: nat)
    requires d < 26
    ensures Upper[d] as int == 65 + d
  {
    assert Upper[0] == 'A' && Upper[1] == 'B' && Upper[2] == 'C' && Upper[3] == 'D' && Upper[4] == 'E';
    assert Upper[5] == 'F' && Upper[6] == 'G' && Upper[7] == 'H' && Upper[8] == 'I' && Upper[9] == 'J';
    assert Upper[10] == 'K' && Upper[11] == 'L' && Upper[12] == 'M' && Upper[13] == 'N' && Upper[14] == 'O';
    assert Upper[15] == 'P' && Upper[16] == 'Q' && Upper[17] == 'R' && Upper[18] == 'S' && Upper[19] == 'T';
    assert Upper[20] == 'U' && Upper[21] == 'V' && Upper[22] == 'W' && Upper[23] == 'X' && Upper[24] == 'Y';
    assert Upper[25] == 'Z';
  }

  lemma LowerAt(d: nat)
    requires d < 26
    ensures Lower[d] as int == 97 + d
  {
    assert Lower[0] == 'a' && Lower[1] == 'b' && Lower[2] == 'c' && Lower[3] == 'd' && Lower[4] == 'e';
    assert Lower[5] == 'f' && Lower[6] == 'g' && Lower[7] == 'h' && Lower[8] == 'i' && Lower[9] == 'j';
    assert Lower[10] == 'k' && Lower[11] == 'l' && Lower[12] == 'm' && Lower[13] == 'n' && Lower[14] == 'o';
    assert Lower[15] == 'p' && Lower[16] == 'q' && Lower[17] == 'r' && Lower[18] == 's' && Lower[19] == 't';
    assert Lower[20] == 'u' && Lower[21] == 'v' && Lower[22] == 'w' && Lower[23] == 'x' && Lower[24] == 'y';
    assert Lower[25] == 'z';
  }

  lemma DecimalAt(d: nat)
    requires d < 10
    ensures Decimal[d] as int == 48 + d
  {
    assert Decimal[0] == '0' && Decimal[1] == '1' && Decimal[2] == '2' && Decimal[3] == '3';
    assert Decimal[4] == '4' && Decimal[5] == '5' && Decimal[6] == '6' && Decimal[7] == '7';
    assert Decimal[8] == '8' && Decimal[9] == '9';
  }

  /** The alphabets are those of the tables, digit by digit. */
  lemma CharIsTabulated(url: bool, d: sextet)
    ensures Char(url, d) == Table(url)[d] as int
  {
    if d < 26 {
      UpperAt(d);
    } else if d < 52 {
      LowerAt(d - 26);
    } else if d < 62 {
      DecimalAt(d - 52);
    }
  }

  lemma DigitIsTabulated(url: bool, c: byte, d: sextet)
    ensures Digit(url, c) == d <==> c == Table(url)[d] as int
  {
    CharIsTabulated(url, d);
    DigitOfChar(url, d);
  }

  /** Where both alphabets know a character they agree on it. */
  lemma AlphabetsAgree(c: byte)
    requires Digit(true, c) >= 0 && Digit(false, c) >= 0
    ensures Digit(true, c) == Digit(false, c)
  {
  }

  predicate AllDigits(url: bool, s: seq<byte>) { forall i :: 0 <= i < |s| ==> Digit(url, s[i]) >= 0 }

  function Values(url: bool, s: seq<byte>): (r: seq<sextet>)
    requires AllDigits(url, s)
    ensures |r| == |s| && forall i :: 0 <= i < |s| ==> r[i] == Digit(url, s[i])
  {
    seq(|s|, i requires 0 <= i < |s| => Digit(url, s[i]))
  }

  function Chars(url: bool, d: seq<sextet>): (r: seq<byte>)
    ensures |r| == |d| && forall i :: 0 <= i < |d| ==> r[i] == Char(url, d[i])
  {
    seq(|d|, i requires 0 <= i < |d| => Char(url, d[i]))
  }

  lemma ValuesOfChars(url: bool, d: seq<sextet>)
    ensures AllDigits(url, Chars(url, d)) && Values(url, Chars(url, d)) == d
  {
    forall i | 0 <= i < |d| ensures Digit(url, Chars(url, d)[i]) == d[i] { DigitOfChar(url, d[i]); }
  }

  // ----- three bytes are four sextets -----

  function Pack(b: seq<byte>): (r: seq<sextet>)
    ensures |r| == |b| / 3 * 4 + Tail(|b|) && |r| % 4 == Tail(|b|)
  {
    if |b| == 0 then []
    else if |b| == 1 then [b[0] / 4, b[0] % 4 * 16]
    else if |b| == 2 then [b[0] / 4, b[0] % 4 * 16 + b[1] / 16, b[1] % 16 * 4]
    else [b[0] / 4, b[0] % 4 * 16 + b[1] / 16, b[1] % 16 * 4 + b[2] / 64, b[2] % 64] + Pack(b[3..])
  }

  /** How many sextets the last, incomplete group of n bytes takes. */
  function Tail(n: nat): nat { if n % 3 == 0 then 0 else n % 3 + 1 }

  function Byte0(a: sextet, b: sextet): byte { a as int * 4 + b as int / 16 }
  function Byte1(b: sextet, c: sextet): byte { b as int % 16 * 16 + c as int / 4 }
  function Byte2(c: sextet, d: sextet): byte { c as int % 4 * 64 + d as int }

  function Unpack(d: seq<sextet>): (r: seq<byte>)
    requires |d| % 4 != 1
    ensures |r| == |d| / 4 * 3 + (if |d| % 4 == 0 then 0 else |d| % 4 - 1)
  {
    if |d| == 0 then []
    else if |d| == 2 then [Byte0(d[0], d[1])]
    else if |d| == 3 then [Byte0(d[0], d[1]), Byte1(d[1], d[2])]
    else [Byte0(d[0], d[1]), Byte1(d[1], d[2]), Byte2(d[2], d[3])] + Unpack(d[4..])
  }

  lemma Group(a: byte, b: byte, c: byte)
    ensures Byte0(a / 4, a % 4 * 16 + b / 16) == a
    ensures Byte1(a % 4 * 16 + b / 16, b % 16 * 4 + c / 64) == b
    ensures Byte2(b % 16 * 4 + c / 64, c % 64) == c
  {
  }

  lemma GroupOfTwo(a: byte, b: byte)
    ensures Unpack([a / 4, a % 4 * 16 + b / 16, b % 16 * 4]) == [a, b]
  {
    Group(a, b, 0);
  }

  lemma GroupOfOne(a: byte)
    ensures Unpack([a / 4, a % 4 * 16]) == [a]
  {
    Group(a, 0, 0);
  }

  lemma PackShort(b: seq<byte>)
    requires |b| < 3
    ensures Unpack(Pack(b)) == b
  {
    if |b| == 2 {
      GroupOfTwo(b[0], b[1]);
    } else if |b| == 1 {
      GroupOfOne(b[0]);
    }
  }

  lemma {:induction false} UnpackPack(b: seq<byte>)
    ensures Unpack(Pack(b)) == b
  {
    if |b| >= 3 {
      UnpackPack(b[3..]);
      Group(b[0], b[1], b[2]);
      assert Pack(b)[4..] == Pack(b[3..]);
      assert b == [b[0], b[1], b[2]] + b[3..];
    } else {
      PackShort(b);
    }
  }

  // ----- bit order: the same number, read in base 256 and in base 64 -----

  /** Reading s on from v, most significant byte first. */
  function ReadBytes(v: nat, s: seq<byte>): nat
    decreases |s|
  {
    if s == [] then v else ReadBytes(v * 256 + s[0], s[1..])
  }

  /** Reading s on from v, most significant sextet first. */
  function ReadSextets(v: nat, s: seq<sextet>): nat
    decreases |s|
  {
    if s == [] then v else ReadSextets(v * 64 + s[0], s[1..])
  }

  /** v followed by three bytes, or by four sextets. */
  function ThenBytes(v: nat, x: nat, y: nat, z: nat): nat { v * 16777216 + x * 65536 + y * 256 + z }
  function ThenSextets(v: nat, x: nat, y: nat, z: nat, w: nat): nat
  {
    v * 16777216 + x * 262144 + y * 4096 + z * 64 + w
  }

  /** How much the unused low bits of n sextets weigh. */
  function Unused(n: nat): nat { if n % 4 == 2 then 16 else if n % 4 == 3 then 4 else 1 }

  lemma {:induction false} ReadOneMore(v: nat, s: seq<byte>, x: byte)
    ensures ReadBytes(v, s + [x]) == ReadBytes(v, s) * 256 + x
    decreases |s|
  {
    if s == [] {
      assert s + [x] == [x] && [x][1..] == [];
    } else {
      assert (s + [x])[1..] == s[1..] + [x];
      ReadOneMore(v * 256 + s[0], s[1..], x);
    }
  }

  lemma ReadThree(v: nat, x: byte, y: byte, z: byte, rest: seq<byte>)
    ensures ReadBytes(v, [x, y, z] + rest) == ReadBytes(ThenBytes(v, x, y, z), rest)
  {
    var s := [x, y, z] + rest;
    assert s[1..][1..][1..] == rest;
    assert ReadBytes(v, s) == ReadBytes(v * 256 + x, s[1..]);
    assert ReadBytes(v * 256 + x, s[1..]) == ReadBytes((v * 256 + x) * 256 + y, s[1..][1..]);
  }

  lemma ReadFour(v: nat, x: sextet, y: sextet, z: sextet, w: sextet, rest: seq<sextet>)
    ensures ReadSextets(v, [x, y, z, w] + rest) == ReadSextets(ThenSextets(v, x, y, z, w), rest)
  {
    var s := [x, y, z, w] + rest;
    assert s[1..][1..][1..][1..] == rest;
    assert ReadSextets(v, s) == ReadSextets(v * 64 + x, s[1..]);
    assert ReadSextets(v * 64 + x, s[1..]) == ReadSextets((v * 64 + x) * 64 + y, s[1..][1..]);
    assert ReadSextets((v * 64 + x) * 64 + y, s[1..][1..])
        == ReadSextets(((v * 64 + x) * 64 + y) * 64 + z, s[1..][1..][1..]);
  }

  lemma ReadShort(v: nat, x: byte, y: byte, a: sextet, b: sextet, c: sextet)
    ensures ReadBytes(v, [x]) == v * 256 + x && ReadBytes(v, [x, y]) == v * 65536 + x * 256 + y
    ensures ReadSextets(v, [a, b]) == v * 4096 + a * 64 + b
    ensures ReadSextets(v, [a, b, c]) == v * 262144 + a * 4096 + b * 64 + c
  {
    ShortBytes(v, x, y);
    ShortSextets(v, a, b, c);
  }

  lemma ShortBytes(v: nat, x: byte, y: byte)
    ensures ReadBytes(v, [x]) == v * 256 + x && ReadBytes(v, [x, y]) == v * 65536 + x * 256 + y
  {
    assert [x][1..] == [] && [y][1..] == [] && [x, y][1..] == [y];
    assert ReadBytes(v * 256 + x, [y]) == ReadBytes((v * 256 + x) * 256 + y, []);
  }

  lemma ShortSextets(v: nat, a: sextet, b: sextet, c: sextet)
    ensures ReadSextets(v, [a, b]) == v * 4096 + a * 64 + b
    ensures ReadSextets(v, [a, b, c]) == v * 262144 + a * 4096 + b * 64 + c
  {
    assert [a, b][1..] == [b] && [a, b, c][1..] == [b, c] && [b, c][1..] == [c] && [b][1..] == [] && [c][1..] == [];
    assert ReadSextets(v * 64 + a, [b]) == ReadSextets((v * 64 + a) * 64 + b, []);
    assert ReadSextets(v * 64 + a, [b, c]) == ReadSextets((v * 64 + a) * 64 + b, [c]);
    assert ReadSextets((v * 64 + a) * 64 + b, [c]) == ReadSextets(((v * 64 + a) * 64 + b) * 64 + c, []);
  }

  lemma TwoMore(v: nat, a: sextet, b: sextet)
    ensures v * 256 + Byte0(a, b) == (v * 4096 + a * 64 + b) / 16
  {
  }

  lemma ThreeMore(v: nat, a: sextet, b: sextet, c: sextet)
    ensures v * 65536 + Byte0(a, b) * 256 + Byte1(b, c) == (v * 262144 + a * 4096 + b * 64 + c) / 4
  {
  }

  lemma FourMore(v: nat, a: sextet, b: sextet, c: sextet, d: sextet)
    ensures ThenBytes(v, Byte0(a, b), Byte1(b, c), Byte2(c, d)) == ThenSextets(v, a, b, c, d)
  {
  }

  lemma SextetsFirst(v: nat, d: seq<sextet>)
    requires |d| >= 4
    ensures ReadSextets(v, d) == ReadSextets(ThenSextets(v, d[0], d[1], d[2], d[3]), d[4..])
  {
    assert d == [d[0], d[1], d[2], d[3]] + d[4..];
    ReadFour(v, d[0], d[1], d[2], d[3], d[4..]);
  }

  lemma UnpackHead(d: seq<sextet>)
    requires |d| >= 4 && |d| % 4 != 1
    ensures Unpack(d) == [Byte0(d[0], d[1]), Byte1(d[1], d[2]), Byte2(d[2], d[3])] + Unpack(d[4..])
  {
  }

  lemma UnpackFirst(v: nat, d: seq<sextet>, rest: seq<byte>)
    requires |d| >= 4
    ensures ReadBytes(v, [Byte0(d[0], d[1]), Byte1(d[1], d[2]), Byte2(d[2], d[3])] + rest)
            == ReadBytes(ThenSextets(v, d[0], d[1], d[2], d[3]), rest)
  {
    ReadThree(v, Byte0(d[0], d[1]), Byte1(d[1], d[2]), Byte2(d[2], d[3]), rest);
    FourMore(v, d[0], d[1], d[2], d[3]);
  }

  lemma UnpackLast(v: nat, d: seq<sextet>)
    requires |d| == 2 || |d| == 3
    ensures ReadBytes(v, Unpack(d)) == ReadSextets(v, d) / Unused(|d|)
  {
    if |d| == 2 {
      assert d == [d[0], d[1]];
      ReadShort(v, Byte0(d[0], d[1]), 0, d[0], d[1], 0);
      TwoMore(v, d[0], d[1]);
    } else {
      assert d == [d[0], d[1], d[2]];
      ReadShort(v, Byte0(d[0], d[1]), Byte1(d[1], d[2]), d[0], d[1], d[2]);
      ThreeMore(v, d[0], d[1], d[2]);
    }
  }

  /** The bytes are the number the sextets are, without the unused low bits. */
  lemma {:induction false} UnpackKeepsTheNumber(v: nat, d: seq<sextet>)
    requires |d| % 4 != 1
    ensures ReadBytes(v, Unpack(d)) == ReadSextets(v, d) / Unused(|d|)
    decreases |d|
  {
    if |d| >= 4 {
      SextetsFirst(v, d);
      UnpackHead(d);
      UnpackFirst(v, d, Unpack(d[4..]));
      UnpackKeepsTheNumber(ThenSextets(v, d[0], d[1], d[2], d[3]), d[4..]);
    } else if d != [] {
      UnpackLast(v, d);
    }
  }

  lemma SameGroup(v: nat, x: byte, y: byte, z: byte)
    ensures ThenSextets(v, x / 4, x % 4 * 16 + y / 16, y % 16 * 4 + z / 64, z % 64) == ThenBytes(v, x, y, z)
  {
  }

  lemma BytesFirst(v: nat, b: seq<byte>)
    requires |b| >= 3
    ensures ReadBytes(v, b) == ReadBytes(ThenBytes(v, b[0], b[1], b[2]), b[3..])
  {
    assert b == [b[0], b[1], b[2]] + b[3..];
    ReadThree(v, b[0], b[1], b[2], b[3..]);
  }

  lemma PackFirst(v: nat, b: seq<byte>, rest: seq<sextet>)
    requires |b| >= 3 && Pack(b) == [b[0] / 4, b[0] % 4 * 16 + b[1] / 16, b[1] % 16 * 4 + b[2] / 64, b[2] % 64] + rest
    ensures ReadSextets(v, Pack(b)) == ReadSextets(ThenBytes(v, b[0], b[1], b[2]), rest)
  {
    ReadFour(v, b[0] / 4, b[0] % 4 * 16 + b[1] / 16, b[1] % 16 * 4 + b[2] / 64, b[2] % 64, rest);
    SameGroup(v, b[0], b[1], b[2]);
  }

  lemma PackOne(v: nat, x: byte)
    ensures ReadSextets(v, [x / 4, x % 4 * 16]) == ReadBytes(v, [x]) * 16
  {
    ReadShort(v, x, 0, x / 4, x % 4 * 16, 0);
  }

  lemma PackTwo(v: nat, x: byte, y: byte)
    ensures ReadSextets(v, [x / 4, x % 4 * 16 + y / 16, y % 16 * 4]) == ReadBytes(v, [x, y]) * 4
  {
    ReadShort(v, x, y, x / 4, x % 4 * 16 + y / 16, y % 16 * 4);
  }

  lemma PackLast(v: nat, b: seq<byte>)
    requires |b| == 1 || |b| == 2
    ensures ReadSextets(v, Pack(b)) == ReadBytes(v, b) * Unused(|Pack(b)|)
  {
    if |b| == 1 {
      assert b == [b[0]];
      PackOne(v, b[0]);
    } else {
      assert b == [b[0], b[1]];
      PackTwo(v, b[0], b[1]);
    }
  }

  /** The sextets are the number the bytes are, with the unused low bits zero. */
  lemma {:induction false} PackKeepsTheNumber(v: nat, b: seq<byte>)
    ensures ReadSextets(v, Pack(b)) == ReadBytes(v, b) * Unused(|Pack(b)|)
    decreases |b|
  {
    if |b| >= 3 {
      BytesFirst(v, b);
      PackFirst(v, b, Pack(b[3..]));
      PackKeepsTheNumber(ThenBytes(v, b[0], b[1], b[2]), b[3..]);
    } else if b != [] {
      PackLast(v, b);
    }
  }

  // ----- encoding and decoding -----

  function Padding(n: nat): seq<byte>
  {
    if n % 3 == 1 then [Pad, Pad] else if n % 3 == 2 then [Pad] else []
  }

  function Encode(e: Encoding, b: seq<byte>): seq<byte>
  {
    Chars(e.url, Pack(b)) + (if e.padded then Padding(|b|) else [])
  }

  /** The decoder skips line breaks wherever they stand. */
  function Unbroken(s: seq<byte>): (r: seq<byte>)
    ensures |r| <= |s|
    ensures forall i :: 0 <= i < |r| ==> r[i] != 10 && r[i] != 13 && r[i] in s
  {
    if s == [] then []
    else if s[0] == 10 || s[0] == 13 then Unbroken(s[1..])
    else [s[0]] + Unbroken(s[1..])
  }

  lemma {:induction false} UnbrokenIsIdentity(s: seq<byte>)
    requires forall i :: 0 <= i < |s| ==> s[i] != 10 && s[i] != 13
    ensures Unbroken(s) == s
  {
    if s != [] { UnbrokenIsIdentity(s[1..]); }
  }

  /** The digits of a text: what is left once its padding is taken off. */
  function Body(padded: bool, t: seq<byte>): seq<byte>
  {
    if !padded then t
    else if |t| >= 2 && t[|t| - 1] == Pad && t[|t| - 2] == Pad then t[..|t| - 2]
    else if |t| >= 1 && t[|t| - 1] == Pad then t[..|t| - 1]
    else t
  }

  predicate WellFormed(e: Encoding, t: seq<byte>)
  {
    && (if e.padded then |t| % 4 == 0 else |t| % 4 != 1)
    && AllDigits(e.url, Body(e.padded, t))
  }

  lemma BodyLength(e: Encoding, t: seq<byte>)
    requires WellFormed(e, t)
    ensures |Body(e.padded, t)| % 4 != 1
  {
  }

  function Decode(e: Encoding, text: seq<byte>): (r: Maybe<seq<byte>>)
    ensures r.Some? ==> |r.value| <= |text| * 3 / 4
  {
    var t := Unbroken(text);
    if !WellFormed(e, t) then None
    else
      BodyLength(e, t);
      Some(Unpack(Values(e.url, Body(e.padded, t))))
  }

  lemma BodyOfPadded(c: seq<byte>, pad: seq<byte>)
    requires |c| > 0 ==> c[|c| - 1] != Pad
    requires pad == [] || ((pad == [Pad] || pad == [Pad, Pad]) && |c| > 0)
    ensures Body(true, c + pad) == c
  {
    var t := c + pad;
    assert t[..|c|] == c;
  }

  lemma PaddedLength(n: nat, k: nat)
    requires k % 4 == Tail(n)
    ensures (k + |Padding(n)|) % 4 == 0
    ensures Padding(n) == [] || ((Padding(n) == [Pad] || Padding(n) == [Pad, Pad]) && k > 0)
  {
  }

  lemma BodyOfEncoded(e: Encoding, b: seq<byte>)
    ensures Body(e.padded, Encode(e, b)) == Chars(e.url, Pack(b))
    ensures e.padded ==> |Encode(e, b)| % 4 == 0
  {
    var c := Chars(e.url, Pack(b));
    if e.padded {
      PaddedLength(|b|, |c|);
      BodyOfPadded(c, Padding(|b|));
      assert Encode(e, b) == c + Padding(|b|);
    } else {
      assert Encode(e, b) == c;
    }
  }

  /** Every encoding of every byte string decodes to it, with line breaks anywhere. */
  lemma DecodeOfEncoded(e: Encoding, b: seq<byte>, text: seq<byte>)
    requires Unbroken(text) == Encode(e, b)
    ensures Decode(e, text) == Some(b)
  {
    BodyOfEncoded(e, b);
    ValuesOfChars(e.url, Pack(b));
    UnpackPack(b);
  }

  /** What a decoder accepts it reads as one number: each character stands for its place in the
      table, the first is the most significant, and the low bits that fill no byte are dropped. */
  lemma DecodedIsTheNumber(e: Encoding, text: seq<byte>)
    requires Decode(e, text).Some?
    ensures var r, t := Decode(e, text).value, Body(e.padded, Unbroken(text));
            && AllDigits(e.url, t) && |r| == |t| * 3 / 4
            && ReadBytes(0, r) == ReadSextets(0, Values(e.url, t)) / Unused(|t|)
            && forall i :: 0 <= i < |t| ==> t[i] == Table(e.url)[Values(e.url, t)[i]] as int
  {
    var t := Body(e.padded, Unbroken(text));
    BodyLength(e, Unbroken(text));
    UnpackKeepsTheNumber(0, Values(e.url, t));
    forall i | 0 <= i < |t| ensures t[i] == Table(e.url)[Values(e.url, t)[i]] as int {
      DigitIsTabulated(e.url, t[i], Values(e.url, t)[i]);
    }
  }

  /** What an encoder writes is that number, the unused low bits zero, then the padding. */
  lemma EncodedIsTheNumber(e: Encoding, b: seq<byte>)
    ensures var t := Body(e.padded, Encode(e, b));
            && AllDigits(e.url, t) && |t| == (|b| * 4 + 2) / 3
            && ReadSextets(0, Values(e.url, t)) == ReadBytes(0, b) * Unused(|t|)
            && Encode(e, b) == t + (if e.padded then Padding(|b|) else [])
  {
    BodyOfEncoded(e, b);
    ValuesOfChars(e.url, Pack(b));
    PackKeepsTheNumber(0, b);
  }

  lemma EncodedIsUnbroken(e: Encoding, b: seq<byte>)
    ensures Unbroken(Encode(e, b)) == Encode(e, b)
  {
    UnbrokenIsIdentity(Encode(e, b));
  }

  lemma EncodeInjective(e: Encoding, a: seq<byte>, b: seq<byte>)
    requires Encode(e, a) == Encode(e, b)
    ensures a == b
  {
    EncodedIsUnbroken(e, a);
    DecodeOfEncoded(e, a, Encode(e, a));
    DecodeOfEncoded(e, b, Encode(e, a));
  }

  /** Any two of the four decoders that accept a text read the same bytes from it. */
  lemma DecodersAgree(e1: Encoding, e2: Encoding, text: seq<byte>)
    requires Decode(e1, text).Some? && Decode(e2, text).Some?
    ensures Decode(e1, text) == Decode(e2, text)
  {
    var t := Unbroken(text);
    BodiesAgree(e1, e2, t);
    var b := Body(e1.padded, t);
    forall i | 0 <= i < |b| ensures Digit(e1.url, b[i]) == Digit(e2.url, b[i]) {
      if e1.url != e2.url { AlphabetsAgree(b[i]); }
    }
    assert Values(e1.url, b) == Values(e2.url, b);
  }

  lemma BodiesAgree(e1: Encoding, e2: Encoding, t: seq<byte>)
    requires WellFormed(e1, t) && WellFormed(e2, t)
    ensures Body(e1.padded, t) == Body(e2.padded, t)
  {
    if e1.padded != e2.padded && |t| > 0 {
      var e := if e1.padded then e2 else e1;
      assert Body(e.padded, t) == t && Digit(e.url, t[|t| - 1]) >= 0;
      assert Digit(e.url, Pad) == -1;
    }
  }
}
