/** Signing keys: the canonical JSON an RFC 7638 thumbprint hashes, and loading a keyset
    without duplicate identifiers or duplicate keys. */
module Thumbprint {
  import opened Base64
  import opened Maybes

  /** A P-256 key by its uncompressed point (section 2.3.3 of SEC 1), an RSA key by its
      public exponent and modulus. */
  datatype PublicKey = EC(point: seq<byte>) | RSA(e: int, n: nat)

  predicate IsP256Point(point: seq<byte>) { |point| == 65 && point[0] == 4 }

  /** The keys thumbprint accepts. */
  predicate Supported(k: PublicKey) { k.EC? ==> IsP256Point(k.point) }

  const RawUrl := Encoding(true, false)

  function Ascii(s: string): (r: seq<byte>)
    ensures |r| == |s| && forall i :: 0 <= i < |s| ==> r[i] == s[i] as int % 256
  {
    seq(|s|, i requires 0 <= i < |s| => s[i] as int % 256)
  }

  // ----- minimal big-endian integers -----

  function BigEndian(n: nat): seq<byte> { if n == 0 then [] else BigEndian(n / 256) + [n % 256] }

  lemma {:induction false} BigEndianRoundTrip(n: nat)
    ensures ReadBytes(0, BigEndian(n)) == n
    ensures BigEndian(n) != [] ==> BigEndian(n)[0] != 0
  {
    if n != 0 {
      BigEndianRoundTrip(n / 256);
      ReadOneMore(0, BigEndian(n / 256), n % 256);
    }
  }

  function Abs(x: int): nat { if x < 0 then -x else x }

  // ----- the canonical form -----

  function B64(b: seq<byte>): seq<byte> { Encode(RawUrl, b) }

  function X(point: seq<byte>): seq<byte> requires |point| == 65 { point[1..33] }
  function Y(point: seq<byte>): seq<byte> requires |point| == 65 { point[33..] }

  const EcOpen := Ascii("{\"crv\":\"P-256\",\"kty\":\"EC\",\"x\":\"")
  const EcMiddle := Ascii("\",\"y\":\"")
  const RsaOpen := Ascii("{\"e\":\"")
  const RsaMiddle := Ascii("\",\"kty\":\"RSA\",\"n\":\"")
  const Close := Ascii("\"}")

  function Canonical(k: PublicKey): seq<byte>
    requires Supported(k)
  {
    match k
    case EC(p) => EcOpen + (B64(X(p)) + (EcMiddle + (B64(Y(p)) + Close)))
    case RSA(e, n) => RsaOpen + (B64(BigEndian(Abs(e))) + (RsaMiddle + (B64(BigEndian(n)) + Close)))
  }

  /** Base64url holds no quotation mark. */
  lemma B64HasNoQuote(b: seq<byte>)
    ensures 34 !in B64(b)
  {
    assert B64(b) == Chars(true, Pack(b)) + [];
  }

  /** A quoted value ends at its first quotation mark. */
  lemma QuoteSplit(a: seq<byte>, r: seq<byte>, b: seq<byte>, s: seq<byte>)
    requires 34 !in a && 34 !in b && r != [] && s != [] && r[0] == 34 && s[0] == 34
    requires a + r == b + s
    ensures a == b && r == s
  {
    assert (a + r)[|a|] == 34 && (b + s)[|b|] == 34;
    assert forall i :: 0 <= i < |a| ==> (a + r)[i] == a[i];
    assert forall i :: 0 <= i < |b| ==> (b + s)[i] == b[i];
    assert a == (a + r)[..|a|] && b == (b + s)[..|b|];
    assert r == (a + r)[|a|..] && s == (b + s)[|b|..];
  }

  lemma TwoQuotedValues(open: seq<byte>, a: seq<byte>, middle: seq<byte>, b: seq<byte>, a': seq<byte>, b': seq<byte>)
    requires middle != [] && middle[0] == 34
    requires open + (B64(a) + (middle + (B64(b) + Close))) == open + (B64(a') + (middle + (B64(b') + Close)))
    ensures a == a' && b == b'
  {
    var left, right := B64(a) + (middle + (B64(b) + Close)), B64(a') + (middle + (B64(b') + Close));
    assert left == (open + left)[|open|..] && right == (open + right)[|open|..];
    B64HasNoQuote(a);
    B64HasNoQuote(a');
    B64HasNoQuote(b);
    B64HasNoQuote(b');
    QuoteSplit(B64(a), middle + (B64(b) + Close), B64(a'), middle + (B64(b') + Close));
    assert (middle + (B64(b) + Close))[|middle|..] == B64(b) + Close;
    assert (middle + (B64(b') + Close))[|middle|..] == B64(b') + Close;
    QuoteSplit(B64(b), Close, B64(b'), Close);
    EncodeInjective(RawUrl, a, a');
    EncodeInjective(RawUrl, b, b');
  }

  /** One key: the same point, or the same modulus and exponent up to sign. Exponents of
      real keys are positive. */
  predicate SameKey(k: PublicKey, l: PublicKey)
  {
    k == l || (k.RSA? && l.RSA? && Abs(k.e) == Abs(l.e) && k.n == l.n)
  }

  lemma TypesDiffer(p: seq<byte>, e: int, n: nat)
    requires IsP256Point(p)
    ensures Canonical(EC(p)) != Canonical(RSA(e, n))
  {
    var ec, rsa := Canonical(EC(p)), Canonical(RSA(e, n));
    assert EcOpen[2] == 99 && RsaOpen[2] == 101;
    assert ec[..|EcOpen|] == EcOpen && rsa[..|RsaOpen|] == RsaOpen;
  }

  lemma PointsDiffer(p: seq<byte>, q: seq<byte>)
    requires IsP256Point(p) && IsP256Point(q) && Canonical(EC(p)) == Canonical(EC(q))
    ensures p == q
  {
    TwoQuotedValues(EcOpen, X(p), EcMiddle, Y(p), X(q), Y(q));
    assert p == [4] + X(p) + Y(p) && q == [4] + X(q) + Y(q);
  }

  lemma NumbersDiffer(e: int, n: nat, e': int, n': nat)
    requires Canonical(RSA(e, n)) == Canonical(RSA(e', n'))
    ensures Abs(e) == Abs(e') && n == n'
  {
    TwoQuotedValues(RsaOpen, BigEndian(Abs(e)), RsaMiddle, BigEndian(n), BigEndian(Abs(e')), BigEndian(n'));
    BigEndianRoundTrip(Abs(e));
    BigEndianRoundTrip(Abs(e'));
    BigEndianRoundTrip(n);
    BigEndianRoundTrip(n');
  }

  /** The canonical form tells any two keys apart, within and across the two types. */
  lemma CanonicalInjective(k: PublicKey, l: PublicKey)
    requires Supported(k) && Supported(l)
    ensures Canonical(k) == Canonical(l) <==> SameKey(k, l)
  {
    if Canonical(k) == Canonical(l) { CanonicalTells(k, l); }
  }

  lemma CanonicalTells(k: PublicKey, l: PublicKey)
    requires Supported(k) && Supported(l) && Canonical(k) == Canonical(l)
    ensures SameKey(k, l)
  {
    match (k, l)
    case (EC(p), EC(q)) => PointsDiffer(p, q);
    case (EC(p), RSA(e, n)) => TypesDiffer(p, e, n);
    case (RSA(e, n), EC(p)) => TypesDiffer(p, e, n);
    case (RSA(e, n), RSA(e', n')) => NumbersDiffer(e, n, e', n');
  }

  // ----- the canonical form, read as JSON -----

  const Quote: byte := 34
  const Backslash: byte := 92
  const Colon: byte := 58
  const Comma: byte := 44
  const Brace: byte := 123
  const EndBrace: byte := 125

  datatype Member = Member(name: seq<byte>, value: seq<byte>)

  datatype Taken<T> = Nothing | Taken(item: T, rest: seq<byte>)

  /** How far s goes without a quotation mark. */
  function Unquoted(s: seq<byte>): (n: nat)
    ensures n <= |s|
  {
    if s == [] || s[0] == Quote then 0 else 1 + Unquoted(s[1..])
  }

  /** A string without escapes. */
  function ReadString(t: seq<byte>): Taken<seq<byte>>
  {
    if t == [] || t[0] != Quote then Nothing
    else
      var n := Unquoted(t[1..]);
      if n == |t| - 1 || Backslash in t[1..][..n] then Nothing else Taken(t[1..][..n], t[1..][n + 1..])
  }

  function ReadMember(t: seq<byte>): (r: Taken<Member>)
    ensures r.Taken? ==> |r.rest| < |t|
  {
    var name := ReadString(t);
    if name.Nothing? || name.rest == [] || name.rest[0] != Colon then Nothing
    else
      var value := ReadString(name.rest[1..]);
      if value.Nothing? then Nothing else Taken(Member(name.item, value.item), value.rest)
  }

  /** Members up to the closing brace, with which the text ends. */
  function ReadMembers(t: seq<byte>): Maybe<seq<Member>>
    decreases |t|
  {
    var m := ReadMember(t);
    if m.Nothing? then None
    else if m.rest == [EndBrace] then Some([m.item])
    else if m.rest == [] || m.rest[0] != Comma then None
    else
      var more := ReadMembers(m.rest[1..]);
      if more.None? then None else Some([m.item] + more.value)
  }

  /** A flat JSON object of strings without white space. */
  function ReadObject(t: seq<byte>): Maybe<seq<Member>>
  {
    if t == [] || t[0] != Brace then None else ReadMembers(t[1..])
  }

  predicate Clean(s: seq<byte>) { Quote !in s && Backslash !in s }

  function Quoted(s: seq<byte>): seq<byte> { [Quote] + (s + [Quote]) }

  function MemberText(m: Member): seq<byte> { Quoted(m.name) + ([Colon] + Quoted(m.value)) }

  function MembersText(ms: seq<Member>): seq<byte>
    requires ms != []
  {
    MemberText(ms[0]) + if |ms| == 1 then [EndBrace] else [Comma] + MembersText(ms[1..])
  }

  lemma {:induction false} UnquotedStops(s: seq<byte>, rest: seq<byte>)
    requires Quote !in s
    ensures Unquoted(s + ([Quote] + rest)) == |s|
  {
    var t := s + ([Quote] + rest);
    if s == [] {
      assert t[0] == Quote;
    } else {
      assert t[0] == s[0] && t[1..] == s[1..] + ([Quote] + rest);
      UnquotedStops(s[1..], rest);
    }
  }

  lemma StringIsRead(s: seq<byte>, rest: seq<byte>)
    requires Clean(s)
    ensures ReadString(Quoted(s) + rest) == Taken(s, rest)
  {
    var t := Quoted(s) + rest;
    assert t[1..] == s + ([Quote] + rest);
    UnquotedStops(s, rest);
    assert t[1..][..|s|] == s && t[1..][|s| + 1..] == rest;
  }

  lemma MemberIsRead(m: Member, rest: seq<byte>)
    requires Clean(m.name) && Clean(m.value)
    ensures ReadMember(MemberText(m) + rest) == Taken(m, rest)
  {
    var after := [Colon] + (Quoted(m.value) + rest);
    assert MemberText(m) + rest == Quoted(m.name) + after;
    StringIsRead(m.name, after);
    assert after[1..] == Quoted(m.value) + rest;
    StringIsRead(m.value, rest);
  }

  lemma LastMemberRead(t: seq<byte>, m: Member)
    requires ReadMember(t) == Taken(m, [EndBrace])
    ensures ReadMembers(t) == Some([m])
  {
  }

  lemma OneMoreRead(t: seq<byte>, m: Member, rest: seq<byte>, ms: seq<Member>)
    requires ReadMember(t) == Taken(m, [Comma] + rest) && ReadMembers(rest) == Some(ms)
    ensures ReadMembers(t) == Some([m] + ms)
  {
    assert ([Comma] + rest)[0] == Comma && ([Comma] + rest)[1..] == rest;
  }

  lemma LastIsRead(m: Member)
    requires Clean(m.name) && Clean(m.value)
    ensures ReadMembers(MemberText(m) + [EndBrace]) == Some([m])
  {
    MemberIsRead(m, [EndBrace]);
    LastMemberRead(MemberText(m) + [EndBrace], m);
  }

  lemma MoreIsRead(m: Member, rest: seq<byte>, ms: seq<Member>)
    requires Clean(m.name) && Clean(m.value) && ReadMembers(rest) == Some(ms)
    ensures ReadMembers(MemberText(m) + ([Comma] + rest)) == Some([m] + ms)
  {
    MemberIsRead(m, [Comma] + rest);
    OneMoreRead(MemberText(m) + ([Comma] + rest), m, rest, ms);
  }

  lemma FirstMemberText(ms: seq<Member>)
    requires |ms| > 1
    ensures MembersText(ms) == MemberText(ms[0]) + ([Comma] + MembersText(ms[1..])) && ms == [ms[0]] + ms[1..]
  {
  }

  lemma OnlyMemberText(ms: seq<Member>)
    requires |ms| == 1
    ensures MembersText(ms) == MemberText(ms[0]) + [EndBrace] && ms == [ms[0]]
  {
  }

  predicate AllClean(ms: seq<Member>)
  {
    forall i :: 0 <= i < |ms| ==> Clean(ms[i].name) && Clean(ms[i].value)
  }

  /** What is written is what is read. */
  lemma {:induction false} MembersAreRead(ms: seq<Member>)
    requires ms != [] && AllClean(ms)
    ensures ReadMembers(MembersText(ms)) == Some(ms)
  {
    if |ms| == 1 {
      OnlyMemberText(ms);
      LastIsRead(ms[0]);
    } else {
      FirstMemberText(ms);
      MembersAreRead(ms[1..]);
      MoreIsRead(ms[0], MembersText(ms[1..]), ms[1..]);
    }
  }

  // The members as bytes.

  const CrvName := Ascii("crv")
  const KtyName := Ascii("kty")
  const XName := Ascii("x")
  const YName := Ascii("y")
  const EName := Ascii("e")
  const NName := Ascii("n")

  function EcMembers(point: seq<byte>): seq<Member>
    requires |point| == 65
  {
    [Member(CrvName, Ascii("P-256")), Member(KtyName, Ascii("EC")),
     Member(XName, B64(X(point))), Member(YName, B64(Y(point)))]
  }

  function RsaMembers(e: int, n: nat): seq<Member>
  {
    [Member(EName, B64(BigEndian(Abs(e)))), Member(KtyName, Ascii("RSA")), Member(NName, B64(BigEndian(n)))]
  }

  lemma AsciiConcat(s: string, t: string)
    ensures Ascii(s + t) == Ascii(s) + Ascii(t)
  {
  }

  lemma CrvText()
    ensures Ascii("{\"crv\":\"P-256\",") == [Brace] + (MemberText(Member(CrvName, Ascii("P-256"))) + [Comma])
  {
  }

  lemma KtyText()
    ensures Ascii("\"kty\":\"EC\",\"x\":\"") ==
            MemberText(Member(KtyName, Ascii("EC"))) + ([Comma] + (Quoted(XName) + [Colon, Quote]))
  {
  }

  lemma EcOpenText()
    ensures EcOpen == [Brace] + (MemberText(Member(CrvName, Ascii("P-256"))) + ([Comma] +
                      (MemberText(Member(KtyName, Ascii("EC"))) + ([Comma] + (Quoted(XName) + [Colon, Quote])))))
  {
    CrvText();
    KtyText();
    assert "{\"crv\":\"P-256\",\"kty\":\"EC\",\"x\":\"" == "{\"crv\":\"P-256\"," + "\"kty\":\"EC\",\"x\":\"";
    AsciiConcat("{\"crv\":\"P-256\",", "\"kty\":\"EC\",\"x\":\"");
    Regroup([Brace], MemberText(Member(CrvName, Ascii("P-256"))), [Comma],
            MemberText(Member(KtyName, Ascii("EC"))) + ([Comma] + (Quoted(XName) + [Colon, Quote])));
  }

  lemma Regroup(a: seq<byte>, b: seq<byte>, c: seq<byte>, d: seq<byte>)
    ensures a + (b + c) + d == a + (b + (c + d))
  {
  }

  lemma EcMiddleText()
    ensures EcMiddle == [Quote] + ([Comma] + (Quoted(YName) + [Colon, Quote]))
  {
  }

  lemma RsaOpenText()
    ensures RsaOpen == [Brace] + (Quoted(EName) + [Colon, Quote])
  {
  }

  lemma RsaMiddleText()
    ensures RsaMiddle == [Quote] + ([Comma] + (MemberText(Member(KtyName, Ascii("RSA"))) + ([Comma] +
                         (Quoted(NName) + [Colon, Quote]))))
  {
  }

  /** An opened value, its end and what follows are a member and what follows. */
  lemma ClosedMember(name: seq<byte>, value: seq<byte>, rest: seq<byte>)
    ensures Quoted(name) + [Colon, Quote] + (value + ([Quote] + rest)) == MemberText(Member(name, value)) + rest
  {
  }

  lemma AsciiIsClean()
    ensures Clean(CrvName) && Clean(KtyName) && Clean(XName) && Clean(YName) && Clean(EName) && Clean(NName)
    ensures Clean(Ascii("P-256")) && Clean(Ascii("EC")) && Clean(Ascii("RSA"))
  {
  }

  lemma B64IsClean(b: seq<byte>)
    ensures Clean(B64(b))
  {
    assert B64(b) == Chars(true, Pack(b)) + [];
  }

  /** The tail of the EC form, from the name x on. */
  lemma EcTail(a: seq<byte>, b: seq<byte>)
    ensures Quoted(XName) + [Colon, Quote] + (a + (EcMiddle + (b + Close)))
            == MemberText(Member(XName, a)) + ([Comma] + (MemberText(Member(YName, b)) + [EndBrace]))
  {
    var last := b + ([Quote] + [EndBrace]);
    assert Close == [Quote] + [EndBrace];
    EcMiddleText();
    var open := Quoted(YName) + [Colon, Quote];
    Regroup([Quote], [Comma], open, last);
    assert EcMiddle + last == [Quote] + ([Comma] + (open + last));
    ClosedMember(YName, b, [EndBrace]);
    ClosedMember(XName, a, [Comma] + (open + last));
  }

  lemma RsaTail(b: seq<byte>)
    ensures RsaMiddle + (b + Close)
            == [Quote] + ([Comma] + (MemberText(Member(KtyName, Ascii("RSA"))) + ([Comma] +
               (MemberText(Member(NName, b)) + [EndBrace]))))
  {
    var last, kty := b + ([Quote] + [EndBrace]), MemberText(Member(KtyName, Ascii("RSA")));
    var open := Quoted(NName) + [Colon, Quote];
    assert Close == [Quote] + [EndBrace];
    RsaMiddleText();
    ClosedMember(NName, b, [EndBrace]);
    FiveParts([Quote], [Comma], kty, open, last);
  }

  lemma FiveParts(q: seq<byte>, c: seq<byte>, k: seq<byte>, o: seq<byte>, l: seq<byte>)
    ensures q + (c + (k + (c + o))) + l == q + (c + (k + (c + (o + l))))
  {
  }

  lemma TwoText(a: Member, b: Member)
    ensures MembersText([a, b]) == MemberText(a) + ([Comma] + (MemberText(b) + [EndBrace]))
  {
    assert [a, b][1..] == [b];
    OnlyMemberText([b]);
  }

  lemma ThreeText(a: Member, b: Member, c: Member)
    ensures MembersText([a, b, c]) ==
            MemberText(a) + ([Comma] + (MemberText(b) + ([Comma] + (MemberText(c) + [EndBrace]))))
  {
    assert [a, b, c][1..] == [b, c];
    FirstMemberText([a, b, c]);
    TwoText(b, c);
  }

  lemma FourText(a: Member, b: Member, c: Member, d: Member)
    ensures MembersText([a, b, c, d]) ==
            MemberText(a) + ([Comma] + (MemberText(b) + ([Comma] + (MemberText(c) + ([Comma] +
            (MemberText(d) + [EndBrace]))))))
  {
    assert [a, b, c, d][1..] == [b, c, d];
    FirstMemberText([a, b, c, d]);
    ThreeText(b, c, d);
  }

  lemma EcIsRead(point: seq<byte>)
    requires IsP256Point(point)
    ensures ReadObject(Canonical(EC(point))) == Some(EcMembers(point))
  {
    AsciiIsClean();
    B64IsClean(X(point));
    B64IsClean(Y(point));
    var ms := EcMembers(point);
    EcText(point);
    FourText(ms[0], ms[1], ms[2], ms[3]);
    MembersAreRead(ms);
    Opened(MembersText(ms));
  }

  lemma Opened(t: seq<byte>)
    ensures ReadObject([Brace] + t) == ReadMembers(t)
  {
    assert ([Brace] + t)[1..] == t;
  }

  lemma EcText(point: seq<byte>)
    requires IsP256Point(point)
    ensures var crv, kty := MemberText(Member(CrvName, Ascii("P-256"))), MemberText(Member(KtyName, Ascii("EC")));
            var x, y := MemberText(Member(XName, B64(X(point)))), MemberText(Member(YName, B64(Y(point))));
            Canonical(EC(point)) ==
            [Brace] + (crv + ([Comma] + (kty + ([Comma] + (x + ([Comma] + (y + [EndBrace])))))))
  {
    var a, b := B64(X(point)), B64(Y(point));
    EcOpenText();
    EcTail(a, b);
    SixParts([Brace], MemberText(Member(CrvName, Ascii("P-256"))), [Comma], MemberText(Member(KtyName, Ascii("EC"))),
             Quoted(XName) + [Colon, Quote], a + (EcMiddle + (b + Close)));
  }

  lemma SixParts(o: seq<byte>, m: seq<byte>, c: seq<byte>, k: seq<byte>, q: seq<byte>, l: seq<byte>)
    ensures o + (m + (c + (k + (c + q)))) + l == o + (m + (c + (k + (c + (q + l)))))
  {
  }

  lemma RsaIsRead(e: int, n: nat)
    ensures ReadObject(Canonical(RSA(e, n))) == Some(RsaMembers(e, n))
  {
    AsciiIsClean();
    B64IsClean(BigEndian(Abs(e)));
    B64IsClean(BigEndian(n));
    var ms := RsaMembers(e, n);
    RsaText(e, n);
    ThreeText(ms[0], ms[1], ms[2]);
    MembersAreRead(ms);
    Opened(MembersText(ms));
  }

  lemma RsaText(e: int, n: nat)
    ensures var a, b := B64(BigEndian(Abs(e))), B64(BigEndian(n));
            Canonical(RSA(e, n)) ==
            [Brace] + (MemberText(Member(EName, a)) + ([Comma] + (MemberText(Member(KtyName, Ascii("RSA"))) + ([Comma] +
            (MemberText(Member(NName, b)) + [EndBrace])))))
  {
    var a, b := B64(BigEndian(Abs(e))), B64(BigEndian(n));
    RsaOpenText();
    RsaTail(b);
    var rest := [Comma] + (MemberText(Member(KtyName, Ascii("RSA"))) + ([Comma] +
                (MemberText(Member(NName, b)) + [EndBrace])));
    ClosedMember(EName, a, rest);
    ThreeParts([Brace], Quoted(EName) + [Colon, Quote], a + ([Quote] + rest));
  }

  lemma ThreeParts(a: seq<byte>, b: seq<byte>, c: seq<byte>)
    ensures a + b + c == a + (b + c)
  {
  }

  /** a comes before b, byte by byte. */
  predicate Before(a: seq<byte>, b: seq<byte>)
  {
    b != [] && (a == [] || a[0] < b[0] || (a[0] == b[0] && Before(a[1..], b[1..])))
  }

  predicate InOrder(ms: seq<Member>) { forall i :: 0 <= i < |ms| - 1 ==> Before(ms[i].name, ms[i + 1].name) }

  /** The text that is hashed is the JSON object of section 3 of RFC 7638: the required members
      and no other, in lexicographic order, with the coordinates, or the exponent and the modulus
      without leading zeros, in base64url. */
  lemma CanonicalIsTheRequiredMembers(k: PublicKey)
    requires Supported(k)
    ensures k.EC? ==>
              && ReadObject(Canonical(k)) == Some(EcMembers(k.point)) && InOrder(EcMembers(k.point))
              && Decode(RawUrl, EcMembers(k.point)[2].value) == Some(k.point[1..33])
              && Decode(RawUrl, EcMembers(k.point)[3].value) == Some(k.point[33..])
    ensures k.RSA? ==>
              && ReadObject(Canonical(k)) == Some(RsaMembers(k.e, k.n)) && InOrder(RsaMembers(k.e, k.n))
              && DecodesTo(RsaMembers(k.e, k.n)[0].value, Abs(k.e))
              && DecodesTo(RsaMembers(k.e, k.n)[2].value, k.n)
  {
    match k {
      case EC(point) =>
        EcIsRead(point);
        EcNamesInOrder(point);
        DecodesBack(X(point));
        DecodesBack(Y(point));
      case RSA(e, n) =>
        RsaIsRead(e, n);
        RsaNamesInOrder(e, n);
        NumberDecodes(Abs(e));
        NumberDecodes(n);
    }
  }

  /** value is the shortest big-endian form of n, in base64url. */
  predicate DecodesTo(value: seq<byte>, n: nat)
  {
    var b := Decode(RawUrl, value);
    b.Some? && ReadBytes(0, b.value) == n && (b.value == [] || b.value[0] != 0)
  }

  lemma DecodesBack(b: seq<byte>)
    ensures Decode(RawUrl, B64(b)) == Some(b)
  {
    EncodedIsUnbroken(RawUrl, b);
    DecodeOfEncoded(RawUrl, b, B64(b));
  }

  lemma NumberDecodes(n: nat)
    ensures DecodesTo(B64(BigEndian(n)), n)
  {
    DecodesBack(BigEndian(n));
    BigEndianRoundTrip(n);
  }

  lemma EcNamesInOrder(point: seq<byte>)
    requires |point| == 65
    ensures InOrder(EcMembers(point))
  {
    assert CrvName[0] == 99 && KtyName[0] == 107 && XName[0] == 120 && YName[0] == 121;
  }

  lemma RsaNamesInOrder(e: int, n: nat)
    ensures InOrder(RsaMembers(e, n))
  {
    assert EName[0] == 101 && KtyName[0] == 107 && NName[0] == 110;
  }

  // ----- loading a keyset -----

  /** A key file as parsed: unreadable, or a public key with the JWK kid it carried. */
  datatype KeyFile = Unreadable | Parsed(jwkKid: seq<byte>, key: PublicKey)

  datatype SigningKey = SigningKey(kid: seq<byte>, key: PublicKey)

  function Thumb(sha: seq<byte> -> seq<byte>, k: PublicKey): Maybe<seq<byte>>
  {
    if Supported(k) then Some(B64(sha(Canonical(k)))) else None
  }

  function LoadSigningKey(sha: seq<byte> -> seq<byte>, f: KeyFile): (r: Maybe<SigningKey>)
    ensures r.Some? ==> f.Parsed? && r.value.key == f.key
  {
    if f.Unreadable? || !Supported(f.key) then None
    else Some(SigningKey(if f.jwkKid != [] then f.jwkKid else B64(sha(Canonical(f.key))), f.key))
  }

  /** A loaded key goes by the identifier its file carries, else by its thumbprint: the
      base64url form of the hash of its canonical text. */
  lemma AssignedKid(sha: seq<byte> -> seq<byte>, f: KeyFile)
    requires LoadSigningKey(sha, f).Some?
    ensures var kid := LoadSigningKey(sha, f).value.kid;
            if f.jwkKid != [] then kid == f.jwkKid else Decode(RawUrl, kid) == Some(sha(Canonical(f.key)))
  {
    DecodesBack(sha(Canonical(f.key)));
  }

  ghost predicate Injective(sha: seq<byte> -> seq<byte>) { forall a, b :: sha(a) == sha(b) ==> a == b }

  lemma ThumbInjective(sha: seq<byte> -> seq<byte>, k: PublicKey, l: PublicKey)
    requires Injective(sha) && Supported(k) && Supported(l)
    ensures Thumb(sha, k) == Thumb(sha, l) <==> SameKey(k, l)
  {
    CanonicalInjective(k, l);
    if Thumb(sha, k) == Thumb(sha, l) { EncodeInjective(RawUrl, sha(Canonical(k)), sha(Canonical(l))); }
  }

  /** The two files carry one identifier, or keys with one thumbprint. */
  predicate Clash(load: KeyFile -> Maybe<SigningKey>, thumb: SigningKey -> Maybe<seq<byte>>, f: KeyFile, g: KeyFile)
  {
    var k, l := load(f), load(g);
    k.Some? && l.Some? && (k.value.kid == l.value.kid || thumb(k.value) == thumb(l.value))
  }

  ghost predicate Acceptable(load: KeyFile -> Maybe<SigningKey>, thumb: SigningKey -> Maybe<seq<byte>>,
                             files: seq<KeyFile>)
  {
    && (forall i :: 0 <= i < |files| ==> load(files[i]).Some?)
    && (forall i, j :: 0 <= i < j < |files| ==> !Clash(load, thumb, files[i], files[j]))
  }

  /** keys are those of the files, in order. */
  predicate Loaded(load: KeyFile -> Maybe<SigningKey>, files: seq<KeyFile>, keys: seq<SigningKey>)
  {
    |keys| == |files| && forall i :: 0 <= i < |files| ==> Some(keys[i]) == load(files[i])
  }

  function Loader(sha: seq<byte> -> seq<byte>): KeyFile -> Maybe<SigningKey> { f => LoadSigningKey(sha, f) }

  function Printer(sha: seq<byte> -> seq<byte>): SigningKey -> Maybe<seq<byte>> { (k: SigningKey) => Thumb(sha, k.key) }

  /** Keeps the order of the files, and refuses a repeated identifier or a repeated key. */
  method LoadKeyset(sha: seq<byte> -> seq<byte>, files: seq<KeyFile>) returns (r: Maybe<seq<SigningKey>>)
    ensures r.Some? <==> files != [] && Acceptable(Loader(sha), Printer(sha), files)
    ensures r.Some? ==> Loaded(Loader(sha), files, r.value)
  {
    r := CollectKeys(Loader(sha), Printer(sha), files);
  }

  method CollectKeys(load: KeyFile -> Maybe<SigningKey>, thumb: SigningKey -> Maybe<seq<byte>>, files: seq<KeyFile>)
    returns (r: Maybe<seq<SigningKey>>)
    ensures r.Some? <==> files != [] && Acceptable(load, thumb, files)
    ensures r.Some? ==> Loaded(load, files, r.value)
  {
    if files == [] { return None; }
    var keys: seq<SigningKey> := [];
    var seen: map<seq<byte>, nat>, seenKey: map<Maybe<seq<byte>>, nat> := map[], map[];
    for n := 0 to |files|
      invariant Acceptable(load, thumb, files[..n]) && Loaded(load, files[..n], keys)
      invariant seen.Keys == Kids(keys) && seenKey.Keys == Thumbs(thumb, keys)
    {
      var k := load(files[n]);
      if k.None? { return None; }
      SeenMeansClash(load, thumb, files, n, keys, k.value);
      if k.value.kid in seen { return None; }
      if thumb(k.value) in seenKey { return None; }
      KeysSnoc(thumb, keys, k.value);
      assert files[..n + 1] == files[..n] + [files[n]];
      seen, seenKey, keys := seen[k.value.kid := n], seenKey[thumb(k.value) := n], keys + [k.value];
    }
    assert files[..|files|] == files;
    return Some(keys);
  }

  function Kids(keys: seq<SigningKey>): set<seq<byte>> { set k | k in keys :: k.kid }

  function Thumbs(thumb: SigningKey -> Maybe<seq<byte>>, keys: seq<SigningKey>): set<Maybe<seq<byte>>>
  {
    set k | k in keys :: thumb(k)
  }

  lemma KeysSnoc(thumb: SigningKey -> Maybe<seq<byte>>, keys: seq<SigningKey>, k: SigningKey)
    ensures Kids(keys + [k]) == Kids(keys) + {k.kid}
    ensures Thumbs(thumb, keys + [k]) == Thumbs(thumb, keys) + {thumb(k)}
  {
    assert forall x :: x in keys + [k] <==> x in keys || x == k;
    forall x | x in Kids(keys) + {k.kid} ensures x in Kids(keys + [k]) {
      var w := if x == k.kid then k else var y :| y in keys && y.kid == x; y;
      assert w in keys + [k];
    }
    forall x | x in Thumbs(thumb, keys) + {thumb(k)} ensures x in Thumbs(thumb, keys + [k]) {
      var w := if x == thumb(k) then k else var y :| y in keys && thumb(y) == x; y;
      assert w in keys + [k];
    }
  }

  /** The maps refuse file n exactly when it clashes with an earlier file. */
  lemma SeenMeansClash(load: KeyFile -> Maybe<SigningKey>, thumb: SigningKey -> Maybe<seq<byte>>,
                       files: seq<KeyFile>, n: nat, keys: seq<SigningKey>, k: SigningKey)
    requires n < |files| && Some(k) == load(files[n]) && Loaded(load, files[..n], keys)
    ensures k.kid in Kids(keys) || thumb(k) in Thumbs(thumb, keys) <==>
            exists i :: 0 <= i < n && Clash(load, thumb, files[i], files[n])
  {
    assert forall i :: 0 <= i < n ==> files[..n][i] == files[i];
    if k.kid in Kids(keys) || thumb(k) in Thumbs(thumb, keys) {
      var y :| y in keys && (y.kid == k.kid || thumb(y) == thumb(k));
      var i :| 0 <= i < n && keys[i] == y;
      assert Clash(load, thumb, files[i], files[n]);
    }
    if i :| 0 <= i < n && Clash(load, thumb, files[i], files[n]) {
      assert keys[i] in keys;
    }
  }

  /** With a collision-free hash an accepted keyset has pairwise distinct identifiers and
      pairwise distinct keys, and only a real repeat is refused. */
  lemma KeysetIsDistinct(sha: seq<byte> -> seq<byte>, files: seq<KeyFile>)
    requires Injective(sha)
    ensures Acceptable(Loader(sha), Printer(sha), files) <==>
            && (forall i :: 0 <= i < |files| ==> LoadSigningKey(sha, files[i]).Some?)
            && (forall i, j :: 0 <= i < j < |files| ==> Different(sha, files[i], files[j]))
  {
    assert forall i :: 0 <= i < |files| ==> Loader(sha)(files[i]) == LoadSigningKey(sha, files[i]);
    forall i, j | 0 <= i < j < |files| && LoadSigningKey(sha, files[i]).Some? && LoadSigningKey(sha, files[j]).Some?
      ensures Clash(Loader(sha), Printer(sha), files[i], files[j]) <==> !Different(sha, files[i], files[j])
    {
      ThumbInjective(sha, files[i].key, files[j].key);
    }
  }

  predicate Different(sha: seq<byte> -> seq<byte>, f: KeyFile, g: KeyFile)
  {
    var k, l := LoadSigningKey(sha, f), LoadSigningKey(sha, g);
    k.Some? && l.Some? && k.value.kid != l.value.kid && !SameKey(k.value.key, l.value.key)
  }
}
