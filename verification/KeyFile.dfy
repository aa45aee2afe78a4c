/** Symmetric key files: 32 raw bytes, or hex or base64 text with white space around it.
    The three readings compete; at most one of them can accept a file. */
module KeyFile {
  import opened Base64
  import opened Maybes
  import opened Sequences

  const KeyLength := 32

  // ----- white space in UTF-8 -----

  /** One white-space character (unicode.IsSpace) as its UTF-8 bytes. */
  predicate IsSpaceRune(r: seq<byte>)
  {
    || (|r| == 1 && (9 <= r[0] <= 13 || r[0] == 32))
    || (|r| == 2 && r[0] == 0xC2 && (r[1] == 0x85 || r[1] == 0xA0))
    || (|r| == 3 && r[0] == 0xE1 && r[1] == 0x9A && r[2] == 0x80)
    || (|r| == 3 && r[0] == 0xE2 && r[1] == 0x80
        && (0x80 <= r[2] <= 0x8A || r[2] == 0xA8 || r[2] == 0xA9 || r[2] == 0xAF))
    || (|r| == 3 && r[0] == 0xE2 && r[1] == 0x81 && r[2] == 0x9F)
    || (|r| == 3 && r[0] == 0xE3 && r[1] == 0x80 && r[2] == 0x80)
  }

  /** The length of the white-space character s starts with, 0 if it does not. */
  function LeadingSpace(s: seq<byte>): (n: nat)
    ensures n <= |s|
  {
    if |s| >= 1 && IsSpaceRune(s[..1]) then 1
    else if |s| >= 2 && IsSpaceRune(s[..2]) then 2
    else if |s| >= 3 && IsSpaceRune(s[..3]) then 3
    else 0
  }

  function TrailingSpace(s: seq<byte>): (n: nat)
    ensures n <= |s|
  {
    if |s| >= 1 && IsSpaceRune(s[|s| - 1..]) then 1
    else if |s| >= 2 && IsSpaceRune(s[|s| - 2..]) then 2
    else if |s| >= 3 && IsSpaceRune(s[|s| - 3..]) then 3
    else 0
  }

  function TrimLeft(s: seq<byte>): (r: seq<byte>)
    ensures |r| <= |s|
    decreases |s|
  {
    if LeadingSpace(s) == 0 then s else TrimLeft(s[LeadingSpace(s)..])
  }

  function TrimRight(s: seq<byte>): (r: seq<byte>)
    ensures |r| <= |s|
    decreases |s|
  {
    if TrailingSpace(s) == 0 then s else TrimRight(s[..|s| - TrailingSpace(s)])
  }

  /** strings.TrimSpace on the file's bytes. */
  function TrimSpace(s: seq<byte>): (r: seq<byte>)
    ensures |r| <= |s|
  {
    TrimRight(TrimLeft(s))
  }

  type Blank = b: seq<seq<byte>> | forall i :: 0 <= i < |b| ==> IsSpaceRune(b[i]) witness []

  function Flat(b: seq<seq<byte>>): seq<byte>
  {
    if b == [] then [] else Flat(b[..|b| - 1]) + b[|b| - 1]
  }

  /** Text that does not itself begin or end with white space. */
  predicate Visible(t: seq<byte>) { t != [] && 32 < t[0] < 127 && 32 < t[|t| - 1] < 127 }

  lemma SpaceAtTheEnd(s: seq<byte>, r: seq<byte>)
    requires IsSpaceRune(r)
    ensures TrailingSpace(s + r) == |r|
  {
    var all := s + r;
    assert all[|all| - |r|..] == r;
    assert all[|all| - 1..] == [r[|r| - 1]];
    if |r| == 3 { assert all[|all| - 2..] == [r[1], r[2]]; }
  }

  lemma SpaceAtTheFront(r: seq<byte>, s: seq<byte>)
    requires IsSpaceRune(r)
    ensures LeadingSpace(r + s) == |r|
  {
    var all := r + s;
    assert all[..|r|] == r;
    assert all[..1] == [r[0]];
    if |r| == 3 { assert all[..2] == [r[0], r[1]]; }
  }

  lemma VisibleEnds(t: seq<byte>)
    ensures t != [] && 32 < t[0] < 127 ==> LeadingSpace(t) == 0
    ensures t != [] && 32 < t[|t| - 1] < 127 ==> TrailingSpace(t) == 0
  {
    if t != [] {
      assert t[..1][0] == t[0] && t[|t| - 1..][0] == t[|t| - 1];
      if |t| >= 2 { assert t[..2][0] == t[0] && t[|t| - 2..][1] == t[|t| - 1]; }
      if |t| >= 3 { assert t[..3][0] == t[0] && t[|t| - 3..][2] == t[|t| - 1]; }
    }
  }

  lemma {:induction false} TrimRightBlank(t: seq<byte>, b: Blank)
    requires Visible(t)
    ensures TrimRight(t + Flat(b)) == t
    decreases |b|
  {
    var s := t + Flat(b);
    if b == [] {
      assert s == t;
      VisibleEnds(t);
    } else {
      var r, init := b[|b| - 1], b[..|b| - 1];
      assert s == (t + Flat(init)) + r;
      SpaceAtTheEnd(t + Flat(init), r);
      assert s[..|s| - |r|] == t + Flat(init);
      TrimRightBlank(t, init);
    }
  }

  lemma {:induction false} FlatFront(b: seq<seq<byte>>)
    requires b != []
    ensures Flat(b) == b[0] + Flat(b[1..])
  {
    if |b| == 1 {
      assert b[..0] == [] && b[1..] == [];
    } else {
      var n := |b| - 1;
      var mid := b[1..][..n - 1];
      FlatFront(b[..n]);
      assert b[..n][1..] == mid;
      assert Flat(b[1..]) == Flat(mid) + b[n];
      assert b[0] + (Flat(mid) + b[n]) == b[0] + Flat(mid) + b[n];
    }
  }

  lemma {:induction false} TrimLeftBlank(b: Blank, t: seq<byte>)
    requires t != [] && 32 < t[0] < 127
    ensures TrimLeft(Flat(b) + t) == t
    decreases |b|
  {
    var s := Flat(b) + t;
    if b == [] {
      assert s == t;
      VisibleEnds(t);
    } else {
      var r, rest := b[0], b[1..];
      FlatFront(b);
      assert s == r + (Flat(rest) + t);
      SpaceAtTheFront(r, Flat(rest) + t);
      assert s[|r|..] == Flat(rest) + t;
      TrimLeftBlank(rest, t);
    }
  }

  lemma TrimTwice(s: seq<byte>, u: seq<byte>, t: seq<byte>)
    requires TrimLeft(s) == u && TrimRight(u) == t
    ensures TrimSpace(s) == t
  {
  }

  lemma TrimSpaceBlank(before: Blank, t: seq<byte>, after: Blank)
    requires Visible(t)
    ensures TrimSpace(Flat(before) + t + Flat(after)) == t
  {
    var u := t + Flat(after);
    Associative(Flat(before), t, Flat(after));
    TrimLeftBlank(before, u);
    TrimRightBlank(t, after);
    TrimTwice(Flat(before) + u, u, t);
  }

  // ----- hex -----

  function HexValue(c: byte): (v: int)
    ensures -1 <= v < 16
  {
    if 48 <= c <= 57 then c - 48
    else if 97 <= c <= 102 then c - 87
    else if 65 <= c <= 70 then c - 55
    else -1
  }

  const HexLower := "0123456789abcdef"
  const HexUpper := "0123456789ABCDEF"

  /** The sixteen digits, in either case. */
  lemma HexIsTabulated(c: byte, v: nat)
    requires v < 16
    ensures HexValue(c) == v <==> c == HexLower[v] as int || c == HexUpper[v] as int
  {
    assert HexLower[0] == '0' && HexLower[1] == '1' && HexLower[2] == '2' && HexLower[3] == '3';
    assert HexLower[4] == '4' && HexLower[5] == '5' && HexLower[6] == '6' && HexLower[7] == '7';
    assert HexLower[8] == '8' && HexLower[9] == '9' && HexLower[10] == 'a' && HexLower[11] == 'b';
    assert HexLower[12] == 'c' && HexLower[13] == 'd' && HexLower[14] == 'e' && HexLower[15] == 'f';
    assert HexUpper[0] == '0' && HexUpper[1] == '1' && HexUpper[2] == '2' && HexUpper[3] == '3';
    assert HexUpper[4] == '4' && HexUpper[5] == '5' && HexUpper[6] == '6' && HexUpper[7] == '7';
    assert HexUpper[8] == '8' && HexUpper[9] == '9' && HexUpper[10] == 'A' && HexUpper[11] == 'B';
    assert HexUpper[12] == 'C' && HexUpper[13] == 'D' && HexUpper[14] == 'E' && HexUpper[15] == 'F';
  }

  predicate IsHex(t: seq<byte>) { |t| % 2 == 0 && forall i :: 0 <= i < |t| ==> HexValue(t[i]) >= 0 }

  function HexDecode(t: seq<byte>): (r: seq<byte>)
    requires IsHex(t)
    ensures |r| == |t| / 2
  {
    seq(|t| / 2, i requires 0 <= i < |t| / 2 => HexValue(t[2 * i]) * 16 + HexValue(t[2 * i + 1]))
  }

  /** t spells key in hex, in any mixture of upper and lower case. */
  predicate SpellsHex(t: seq<byte>, key: seq<byte>)
  {
    && |t| == 2 * |key|
    && forall i :: 0 <= i < |key| ==> HexValue(t[2 * i]) == key[i] / 16 && HexValue(t[2 * i + 1]) == key[i] % 16
  }

  lemma HexDecodesWhatItSpells(t: seq<byte>, key: seq<byte>)
    ensures SpellsHex(t, key) <==> IsHex(t) && HexDecode(t) == key
  {
    if SpellsHex(t, key) {
      forall i | 0 <= i < |t| ensures HexValue(t[i]) >= 0 {
        assert i == 2 * (i / 2) || i == 2 * (i / 2) + 1;
        assert HexValue(t[2 * (i / 2)]) == key[i / 2] / 16;
      }
      assert HexDecode(t) == key;
    }
  }

  // ----- the three readings -----

  /** A byte that is neither printable ASCII nor text white space. */
  predicate NonText(c: byte) { (c < 0x20 || c > 0x7e) && c != 9 && c != 10 && c != 13 }

  method HasNonPrintable(b: seq<byte>) returns (found: bool)
    ensures found <==> exists i :: 0 <= i < |b| && NonText(b[i])
  {
    for i := 0 to |b|
      invariant forall j :: 0 <= j < i ==> !NonText(b[j])
    {
      if (b[i] < 0x20 || b[i] > 0x7e) && b[i] != 9 && b[i] != 10 && b[i] != 13 { return true; }
    }
    return false;
  }

  predicate RawReading(raw: seq<byte>)
  {
    |raw| == KeyLength && exists i :: 0 <= i < |raw| && NonText(raw[i])
  }

  predicate HexReading(raw: seq<byte>) { |TrimSpace(raw)| == 2 * KeyLength && IsHex(TrimSpace(raw)) }

  predicate Base64Reading(e: Encoding, raw: seq<byte>)
  {
    Decode(e, TrimSpace(raw)).Some? && |Decode(e, TrimSpace(raw)).value| == KeyLength
  }

  const Std := Encoding(false, true)
  const RawStd := Encoding(false, false)
  const Url := Encoding(true, true)
  const RawUrl := Encoding(true, false)

  const Trials := [Std, RawStd, Url, RawUrl]

  lemma EveryEncodingIsTried(e: Encoding)
    ensures e in Trials
  {
    assert e == Std || e == RawStd || e == Url || e == RawUrl;
    assert Trials[0] == Std && Trials[1] == RawStd && Trials[2] == Url && Trials[3] == RawUrl;
  }

  /** The base64 decoders in trial order. */
  function FirstBase64(order: seq<Encoding>, raw: seq<byte>): (r: Maybe<seq<byte>>)
    ensures r.Some? ==> |r.value| == KeyLength
  {
    if order == [] then None
    else if Base64Reading(order[0], raw) then Decode(order[0], TrimSpace(raw))
    else FirstBase64(order[1..], raw)
  }

  function DecodeSymmetricKey(raw: seq<byte>): (r: Maybe<seq<byte>>)
    ensures r.Some? ==> |r.value| == KeyLength
  {
    if RawReading(raw) then Some(raw)
    else if HexReading(raw) then Some(HexDecode(TrimSpace(raw)))
    else FirstBase64(Trials, raw)
  }

  // ----- at most one reading accepts -----

  lemma RawExcludesText(raw: seq<byte>, e: Encoding)
    requires |raw| == KeyLength
    ensures !HexReading(raw) && !Base64Reading(e, raw)
  {
  }

  lemma HexExcludesBase64(raw: seq<byte>, e: Encoding)
    requires HexReading(raw)
    ensures !Base64Reading(e, raw)
  {
    var t := TrimSpace(raw);
    UnbrokenIsIdentity(t);
    assert HexValue(t[|t| - 1]) >= 0;
    if Decode(e, t).Some? { assert |Body(e.padded, t)| == 64; }
  }

  lemma {:induction false} TrialOrder(order: seq<Encoding>, raw: seq<byte>, e: Encoding)
    requires e in order && Base64Reading(e, raw)
    ensures FirstBase64(order, raw) == Decode(e, TrimSpace(raw))
  {
    if Base64Reading(order[0], raw) {
      DecodersAgree(order[0], e, TrimSpace(raw));
    } else {
      TrialOrder(order[1..], raw, e);
    }
  }

  /** The readings exclude each other, and whichever base64 decoder accepts gives the
      result, so neither the order of the readings nor of the decoders matters. */
  lemma ReadingsAreExclusive(raw: seq<byte>, e: Encoding, order: seq<Encoding>)
    requires forall x: Encoding :: x in order
    ensures !(RawReading(raw) && HexReading(raw))
    ensures !(RawReading(raw) && Base64Reading(e, raw))
    ensures !(HexReading(raw) && Base64Reading(e, raw))
    ensures Base64Reading(e, raw) ==> DecodeSymmetricKey(raw) == Decode(e, TrimSpace(raw))
                                      && FirstBase64(order, raw) == DecodeSymmetricKey(raw)
  {
    if |raw| == KeyLength { RawExcludesText(raw, e); }
    if HexReading(raw) { HexExcludesBase64(raw, e); }
    if Base64Reading(e, raw) {
      TrialOrder(order, raw, e);
      EveryEncodingIsTried(e);
      TrialOrder(Trials, raw, e);
    }
  }

  // ----- every form of a key is read back -----

  /** t is a text form of key: hex in any case, or one of the four base64 forms, possibly
      broken into lines. */
  ghost predicate TextFormOf(t: seq<byte>, key: seq<byte>)
  {
    Visible(t) && (SpellsHex(t, key) || exists e :: Unbroken(t) == Encode(e, key))
  }

  /** Whatever white space surrounds it, every text form of a key is read as that key. */
  lemma TextFormIsRead(key: seq<byte>, t: seq<byte>, before: Blank, after: Blank)
    requires |key| == KeyLength && TextFormOf(t, key)
    ensures DecodeSymmetricKey(Flat(before) + t + Flat(after)) == Some(key)
  {
    var raw := Flat(before) + t + Flat(after);
    TrimSpaceBlank(before, t, after);
    if SpellsHex(t, key) {
      HexDecodesWhatItSpells(t, key);
    } else {
      var e :| Unbroken(t) == Encode(e, key);
      DecodeOfEncoded(e, key, t);
      forall x: Encoding ensures x in Trials { EveryEncodingIsTried(x); }
      ReadingsAreExclusive(raw, e, Trials);
    }
  }

  lemma {:induction false} NoBase64Reading(order: seq<Encoding>, raw: seq<byte>)
    requires forall e :: !Base64Reading(e, raw)
    ensures FirstBase64(order, raw) == None
  {
    if order != [] { NoBase64Reading(order[1..], raw); }
  }

  /** A 32-byte file is read as it stands, unless it is all text; then it is refused, since
      no text that short spells 32 bytes. */
  lemma ThirtyTwoByteFile(raw: seq<byte>)
    requires |raw| == KeyLength
    ensures DecodeSymmetricKey(raw) == if exists i :: 0 <= i < |raw| && NonText(raw[i]) then Some(raw) else None
  {
    forall e { RawExcludesText(raw, e); }
    NoBase64Reading(Trials, raw);
    RawExcludesText(raw, Std);
  }
}
