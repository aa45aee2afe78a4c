/** Endpoint URLs, computed twice: the path the router mounts, and the absolute URL that is
    advertised and that client assertions are addressed to. */
module Endpoints {
  import opened Sequences

  // ----- reading a URL -----

  /** Everything after the first "://". */
  function AfterScheme(u: string): string
  {
    if u == "" then ""
    else if u[0] == ':' then (if |u| >= 3 then u[3..] else "")
    else AfterScheme(u[1..])
  }

  function FromFirstSlash(s: string): string
  {
    if s == "" || s[0] == '/' then s else FromFirstSlash(s[1..])
  }

  /** The path of an absolute URL as it is spelled. */
  function RawPath(u: string): string { FromFirstSlash(AfterScheme(u)) }

  predicate IsHexDigit(c: char) { '0' <= c <= '9' || 'a' <= c <= 'f' || 'A' <= c <= 'F' }

  function HexValue(c: char): nat
    requires IsHexDigit(c)
  {
    if '0' <= c <= '9' then c as int - 48 else if 'a' <= c <= 'f' then c as int - 87 else c as int - 55
  }

  predicate EscapeAt(s: string) { |s| >= 3 && s[0] == '%' && IsHexDigit(s[1]) && IsHexDigit(s[2]) }

  /** Every percent sign starts a two-digit escape; url.Parse refuses anything else. */
  predicate WellEscaped(s: string)
  {
    s == "" || (if s[0] == '%' then EscapeAt(s) && WellEscaped(s[3..]) else WellEscaped(s[1..]))
  }

  /** The decoded path, u.Path. */
  function Unescape(s: string): (r: string)
    requires WellEscaped(s)
    ensures |r| <= |s|
  {
    if s == "" then ""
    else if s[0] == '%' then [(HexValue(s[1]) * 16 + HexValue(s[2])) as char] + Unescape(s[3..])
    else [s[0]] + Unescape(s[1..])
  }

  lemma {:induction false} UnescapeShortens(s: string)
    requires WellEscaped(s)
    ensures Unescape(s) == s <==> '%' !in s
    ensures '%' in s ==> |Unescape(s)| < |s|
  {
    if s != "" {
      if s[0] == '%' {
        assert '%' in s;
      } else {
        UnescapeShortens(s[1..]);
        assert s == [s[0]] + s[1..];
      }
    }
  }

  /** The first character a non-empty escaped text stands for. */
  function Decoded(s: string): string
    requires s != "" && WellEscaped(s)
  {
    if s[0] == '%' then [(HexValue(s[1]) * 16 + HexValue(s[2])) as char] else [s[0]]
  }

  lemma UnescapeStep(s: string)
    requires s != "" && WellEscaped(s)
    ensures var w := if s[0] == '%' then 3 else 1;
            w <= |s| && WellEscaped(s[w..]) && Unescape(s) == Decoded(s) + Unescape(s[w..])
  {
  }

  lemma FirstPart(a: string, b: string, w: nat)
    requires a != "" && WellEscaped(a) && w == (if a[0] == '%' then 3 else 1) && WellEscaped(a[w..] + b)
    ensures (a + b)[w..] == a[w..] + b && WellEscaped(a + b) && Decoded(a + b) == Decoded(a)
  {
    assert (a + b)[0] == a[0];
    assert (a + b)[w..] == a[w..] + b;
  }

  lemma {:induction false} UnescapeThenPlain(a: string, b: string)
    requires WellEscaped(a) && '%' !in b
    ensures WellEscaped(a + b) && Unescape(a + b) == Unescape(a) + b
  {
    if a == "" {
      assert a + b == b;
      PlainIsWellEscaped(b);
      UnescapeShortens(b);
    } else {
      var w := if a[0] == '%' then 3 else 1;
      UnescapeThenPlain(a[w..], b);
      UnescapeStep(a);
      FirstPart(a, b, w);
      UnescapeStep(a + b);
      Associative(Decoded(a), Unescape(a[w..]), b);
    }
  }

  lemma {:induction false} PlainIsWellEscaped(b: string)
    requires '%' !in b
    ensures WellEscaped(b)
  {
    if b != "" { PlainIsWellEscaped(b[1..]); }
  }

  const HexLower := "0123456789abcdef"
  const HexUpper := "0123456789ABCDEF"

  predicate IsDigitFor(c: char, v: int) { 0 <= v < 16 && (c == HexLower[v] || c == HexUpper[v]) }

  lemma HexIsTabulated(c: char, v: int)
    ensures IsDigitFor(c, v) <==> IsHexDigit(c) && HexValue(c) == v
  {
    assert HexLower[0] == '0' && HexLower[1] == '1' && HexLower[2] == '2' && HexLower[3] == '3';
    assert HexLower[4] == '4' && HexLower[5] == '5' && HexLower[6] == '6' && HexLower[7] == '7';
    assert HexLower[8] == '8' && HexLower[9] == '9' && HexLower[10] == 'a' && HexLower[11] == 'b';
    assert HexLower[12] == 'c' && HexLower[13] == 'd' && HexLower[14] == 'e' && HexLower[15] == 'f';
    assert HexUpper[0] == '0' && HexUpper[1] == '1' && HexUpper[2] == '2' && HexUpper[3] == '3';
    assert HexUpper[4] == '4' && HexUpper[5] == '5' && HexUpper[6] == '6' && HexUpper[7] == '7';
    assert HexUpper[8] == '8' && HexUpper[9] == '9' && HexUpper[10] == 'A' && HexUpper[11] == 'B';
    assert HexUpper[12] == 'C' && HexUpper[13] == 'D' && HexUpper[14] == 'E' && HexUpper[15] == 'F';
  }

  /** e spells s: every character as itself, or as a percent sign and its two hexadecimal digits. */
  predicate Spells(e: string, s: string)
  {
    if e == "" || s == "" then e == s
    else if e[0] != '%' then e[0] == s[0] && Spells(e[1..], s[1..])
    else
      && |e| >= 3 && IsDigitFor(e[1], s[0] as int / 16) && IsDigitFor(e[2], s[0] as int % 16)
      && Spells(e[3..], s[1..])
  }

  function EscapedChar(e: string): char
    requires EscapeAt(e)
  {
    (HexValue(e[1]) * 16 + HexValue(e[2])) as char
  }

  lemma SpelledFirst(e: string, s: string)
    requires EscapeAt(e) && s != ""
    ensures IsDigitFor(e[1], s[0] as int / 16) && IsDigitFor(e[2], s[0] as int % 16) <==> EscapedChar(e) == s[0]
  {
    HexIsTabulated(e[1], s[0] as int / 16);
    HexIsTabulated(e[2], s[0] as int % 16);
  }

  /** A text decodes to exactly what it spells, and one that spells nothing is refused. */
  lemma {:induction false} DecodedIsSpelled(e: string, s: string)
    ensures Spells(e, s) <==> WellEscaped(e) && Unescape(e) == s
  {
    if e != "" && s != "" {
      if e[0] != '%' {
        DecodedIsSpelled(e[1..], s[1..]);
        assert s == [s[0]] + s[1..];
      } else if |e| >= 3 {
        DecodedIsSpelled(e[3..], s[1..]);
        HexIsTabulated(e[1], s[0] as int / 16);
        HexIsTabulated(e[2], s[0] as int % 16);
        if EscapeAt(e) { SpelledFirst(e, s); }
        assert s == [s[0]] + s[1..];
      }
    }
  }

  // ----- a canonical issuer -----

  datatype Issuer = Issuer(scheme: string, authority: string, path: string) {
    function Text(): string { scheme + "://" + authority + path }
  }

  /** What WithIssuer's check leaves: a scheme, a non-empty authority, and a path that is
      empty or starts with a slash and does not end in one. */
  predicate CanonicalIssuer(i: Issuer)
  {
    && i.scheme != "" && ':' !in i.scheme
    && i.authority != "" && '/' !in i.authority
    && (i.path == "" || (i.path[0] == '/' && i.path[|i.path| - 1] != '/'))
    && WellEscaped(i.path)
  }

  /** A configured route path: absolute, no percent sign, no trailing slash but the root's. */
  predicate RoutePath(p: string)
  {
    && p != "" && p[0] == '/' && '%' !in p
    && (p == "/" || p[|p| - 1] != '/')
  }

  lemma {:induction false} AfterSchemeOf(scheme: string, rest: string)
    requires ':' !in scheme
    ensures AfterScheme(scheme + "://" + rest) == rest
  {
    var u := scheme + "://" + rest;
    if scheme == "" {
      assert u[3..] == rest;
    } else {
      assert u[1..] == scheme[1..] + "://" + rest;
      AfterSchemeOf(scheme[1..], rest);
    }
  }

  lemma {:induction false} FromFirstSlashOf(authority: string, rest: string)
    requires '/' !in authority && (rest == "" || rest[0] == '/')
    ensures FromFirstSlash(authority + rest) == rest
  {
    if authority == "" {
      assert authority + rest == rest;
    } else {
      assert (authority + rest)[1..] == authority[1..] + rest;
      FromFirstSlashOf(authority[1..], rest);
    }
  }

  lemma RawPathOf(i: Issuer, more: string)
    requires CanonicalIssuer(i) && (more == "" || more[0] == '/')
    ensures RawPath(i.Text() + more) == i.path + more
  {
    assert i.Text() + more == i.scheme + "://" + (i.authority + (i.path + more));
    AfterSchemeOf(i.scheme, i.authority + (i.path + more));
    FromFirstSlashOf(i.authority, i.path + more);
  }

  // ----- the mounted path -----

  function IssuerPath(i: Issuer): string
    requires CanonicalIssuer(i)
  {
    Unescape(i.path)
  }

  function JoinPath(base: string, endpoint: string): string
  {
    if endpoint == "" then base
    else if base == "" || base == "/" then endpoint
    else if endpoint == "/" then base
    else base + endpoint
  }

  function RoutingMountPrefix(i: Issuer, mountPrefix: string): string
    requires CanonicalIssuer(i)
  {
    var base := IssuerPath(i);
    if base == "" then mountPrefix else if mountPrefix == "/" then base else base + mountPrefix
  }

  function ProtocolEndpointPath(i: Issuer, mountPrefix: string, endpoint: string): string
    requires CanonicalIssuer(i)
  {
    JoinPath(RoutingMountPrefix(i, mountPrefix), endpoint)
  }

  // ----- the advertised URL -----

  function TrimSlashes(s: string): string
  {
    if s != "" && s[|s| - 1] == '/' then TrimSlashes(s[..|s| - 1]) else s
  }

  function AbsoluteURL(issuer: string, mountPrefix: string, endpoint: string): string
  {
    TrimSlashes(issuer)
    + (if mountPrefix == "/" then "" else TrimSlashes(mountPrefix))
    + (if endpoint != "" && endpoint[0] != '/' then "/" + endpoint else endpoint)
  }

  method AbsoluteEndpointURL(issuer: string, mountPrefix: string, endpoint: string) returns (u: string)
    ensures u == AbsoluteURL(issuer, mountPrefix, endpoint)
  {
    var iss, prefix, ep := issuer, mountPrefix, endpoint;
    while |iss| > 0 && iss[|iss| - 1] == '/'
      invariant TrimSlashes(iss) == TrimSlashes(issuer)
    {
      iss := iss[..|iss| - 1];
    }
    if prefix == "/" { prefix := ""; }
    ghost var start := prefix;
    while |prefix| > 0 && prefix[|prefix| - 1] == '/'
      invariant TrimSlashes(prefix) == TrimSlashes(start)
    {
      prefix := prefix[..|prefix| - 1];
    }
    if |ep| > 0 && ep[0] != '/' { ep := "/" + ep; }
    u := iss + prefix + ep;
  }

  /** t is s without the slashes at its end. */
  predicate TrimsTo(s: string, t: string)
  {
    && t <= s && (t == "" || t[|t| - 1] != '/')
    && forall k :: |t| <= k < |s| ==> s[k] == '/'
  }

  lemma {:induction false} TrimsSlashes(s: string)
    ensures TrimsTo(s, TrimSlashes(s))
  {
    if s != "" && s[|s| - 1] == '/' { TrimsSlashes(s[..|s| - 1]); }
  }

  /** Whatever it is given, the URL is issuer and prefix without the slashes at their ends, then the
      endpoint, with a slash put before it if it has none. */
  lemma AbsoluteURLParts(issuer: string, mountPrefix: string, endpoint: string)
    returns (a: string, b: string, e: string)
    ensures TrimsTo(issuer, a) && TrimsTo(mountPrefix, b) && AbsoluteURL(issuer, mountPrefix, endpoint) == a + b + e
    ensures e == endpoint || e == "/" + endpoint
    ensures if endpoint == "" then e == "" else e[0] == '/' && (e == endpoint <==> endpoint[0] == '/')
  {
    TrimsSlashes(issuer);
    TrimsSlashes(mountPrefix);
    a, b := TrimSlashes(issuer), TrimSlashes(mountPrefix);
    e := if endpoint != "" && endpoint[0] != '/' then "/" + endpoint else endpoint;
  }

  /** How much of s strings.TrimRight keeps when it cuts trailing slashes. */
  function Kept(s: string): (n: nat)
    ensures n <= |s|
  {
    if s == "" then 0 else if s[|s| - 1] == '/' then Kept(s[..|s| - 1]) else |s|
  }

  /** The discovery document's own join: an absent endpoint is left out. */
  function Join(issuer: string, mountPrefix: string, endpoint: string): string
  {
    if endpoint == "" then ""
    else
      var prefix := if mountPrefix == "/" then "" else mountPrefix[..Kept(mountPrefix)];
      issuer[..Kept(issuer)] + prefix + (if endpoint[0] == '/' then endpoint else "/" + endpoint)
  }

  lemma {:induction false} KeptIsTrimmed(s: string)
    ensures s[..Kept(s)] == TrimSlashes(s)
  {
    if s != "" && s[|s| - 1] == '/' {
      KeptIsTrimmed(s[..|s| - 1]);
      assert s[..Kept(s)] == s[..|s| - 1][..Kept(s)];
    }
  }

  /** The audience a verifier expects is the URL the discovery document shows exactly for the
      endpoints that exist, or where issuer and prefix are nothing but slashes. */
  lemma AudienceIsAdvertised(issuer: string, mountPrefix: string, endpoint: string)
    ensures AbsoluteURL(issuer, mountPrefix, endpoint) == Join(issuer, mountPrefix, endpoint) <==>
            endpoint != "" || (TrimSlashes(issuer) == "" && TrimSlashes(mountPrefix) == "")
  {
    KeptIsTrimmed(issuer);
    KeptIsTrimmed(mountPrefix);
  }

  /** On validated configuration the URL is plain concatenation. */
  lemma AbsoluteURLOfValid(i: Issuer, mountPrefix: string, endpoint: string)
    requires CanonicalIssuer(i) && RoutePath(mountPrefix) && RoutePath(endpoint)
    ensures AbsoluteURL(i.Text(), mountPrefix, endpoint)
            == i.Text() + Tail(mountPrefix, endpoint)
  {
    assert i.Text()[|i.Text()| - 1] ==
           (if i.path == "" then i.authority[|i.authority| - 1] else i.path[|i.path| - 1]);
    assert i.path == "" ==> i.authority[|i.authority| - 1] in i.authority;
    assert TrimSlashes(i.Text()) == i.Text();
    assert mountPrefix != "/" ==> TrimSlashes(mountPrefix) == mountPrefix;
  }

  function Tail(mountPrefix: string, endpoint: string): string
  {
    (if mountPrefix == "/" then "" else mountPrefix) + endpoint
  }

  lemma IssuerPathForm(i: Issuer)
    requires CanonicalIssuer(i)
    ensures IssuerPath(i) == "" || |IssuerPath(i)| >= 2
    ensures i.path == "" ==> IssuerPath(i) == ""
  {
    if i.path != "" {
      UnescapeStep(i.path);
      assert i.path[1..] != "";
      UnescapeStep(i.path[1..]);
    }
  }

  lemma MountedPath(i: Issuer, mountPrefix: string, endpoint: string)
    requires CanonicalIssuer(i) && RoutePath(mountPrefix) && RoutePath(endpoint) && endpoint != "/"
    ensures ProtocolEndpointPath(i, mountPrefix, endpoint) == IssuerPath(i) + Tail(mountPrefix, endpoint)
  {
    IssuerPathForm(i);
    Joined(IssuerPath(i), mountPrefix, endpoint);
  }

  lemma Joined(base: string, mountPrefix: string, endpoint: string)
    requires (base == "" || |base| >= 2) && mountPrefix != "" && endpoint != "" && endpoint != "/"
    ensures var prefix := if base == "" then mountPrefix else if mountPrefix == "/" then base else base + mountPrefix;
            JoinPath(prefix, endpoint) == base + Tail(mountPrefix, endpoint)
  {
    Associative(base, mountPrefix, endpoint);
    assert base == "" ==> base + Tail(mountPrefix, endpoint) == Tail(mountPrefix, endpoint);
  }

  /** The advertised URL's path, once percent-decoded, is the path the router mounts, whatever
      the issuer; the two are spelled alike exactly when the issuer has no percent-encoding. */
  lemma AdvertisedIsMounted(i: Issuer, mountPrefix: string, endpoint: string)
    requires CanonicalIssuer(i) && RoutePath(mountPrefix) && RoutePath(endpoint) && endpoint != "/"
    ensures var raw := RawPath(AbsoluteURL(i.Text(), mountPrefix, endpoint));
            var mounted := ProtocolEndpointPath(i, mountPrefix, endpoint);
            && WellEscaped(raw) && Unescape(raw) == mounted
            && (raw == mounted <==> '%' !in i.path)
  {
    var tail := Tail(mountPrefix, endpoint);
    AbsoluteURLOfValid(i, mountPrefix, endpoint);
    RawPathOf(i, tail);
    MountedPath(i, mountPrefix, endpoint);
    UnescapeThenPlain(i.path, tail);
    UnescapeShortens(i.path);
    assert |i.path + tail| == |IssuerPath(i) + tail| ==> |i.path| == |IssuerPath(i)|;
  }

  /** An issuer ending in "/%41" is advertised with that spelling and mounted as "/A". */
  lemma EscapedIssuerDiffers(scheme: string, authority: string, mountPrefix: string, endpoint: string)
    requires RoutePath(mountPrefix) && RoutePath(endpoint) && endpoint != "/"
    requires scheme != "" && ':' !in scheme && authority != "" && '/' !in authority
    ensures var i := Issuer(scheme, authority, "/%41");
            && CanonicalIssuer(i) && IssuerPath(i) == "/A"
            && RawPath(AbsoluteURL(i.Text(), mountPrefix, endpoint)) != ProtocolEndpointPath(i, mountPrefix, endpoint)
  {
    var i := Issuer(scheme, authority, "/%41");
    EscapedPath();
    AdvertisedIsMounted(i, mountPrefix, endpoint);
  }

  lemma EscapedPath()
    ensures WellEscaped("/%41") && Unescape("/%41") == "/A" && '%' in "/%41"
  {
    assert "/%41"[1..] == "%41" && "%41"[3..] == "";
    assert WellEscaped("") && WellEscaped("%41");
    assert Unescape("%41") == "A" + Unescape("");
    assert "/%41"[1] == '%';
  }

  /** The advertised URL determines the endpoint, and is never the issuer itself. */
  lemma AbsoluteURLInjective(i: Issuer, mountPrefix: string, e1: string, e2: string)
    requires CanonicalIssuer(i) && RoutePath(mountPrefix) && RoutePath(e1) && RoutePath(e2)
    ensures AbsoluteURL(i.Text(), mountPrefix, e1) == AbsoluteURL(i.Text(), mountPrefix, e2) <==> e1 == e2
    ensures AbsoluteURL(i.Text(), mountPrefix, e1) != i.Text()
  {
    AbsoluteURLOfValid(i, mountPrefix, e1);
    AbsoluteURLOfValid(i, mountPrefix, e2);
    var front := i.Text() + (if mountPrefix == "/" then "" else mountPrefix);
    assert AbsoluteURL(i.Text(), mountPrefix, e1) == front + e1;
    assert AbsoluteURL(i.Text(), mountPrefix, e2) == front + e2;
    assert e1 == (front + e1)[|front|..] && e2 == (front + e2)[|front|..];
  }

  // ----- client assertions -----

  /** The six endpoints that authenticate clients. */
  datatype Site = Token | PAR | Introspect | Revoke | Device | Backchannel

  /** The "aud" of an assertion: one string, or an array. */
  datatype Audience = One(value: string) | Many(values: seq<string>)

  datatype Verifier = Verifier(audience: string, aux: seq<string>, single: bool)

  datatype Deployment = Deployment(
    issuer: Issuer, mountPrefix: string, token: string, par: string, backchannel: string, issuerOnly: bool)

  predicate Valid(d: Deployment)
  {
    && CanonicalIssuer(d.issuer) && RoutePath(d.mountPrefix)
    && RoutePath(d.token) && RoutePath(d.par) && RoutePath(d.backchannel)
    && d.token != d.par && d.par != d.backchannel && d.token != d.backchannel
  }

  function Url(d: Deployment, endpoint: string): string { AbsoluteURL(d.issuer.Text(), d.mountPrefix, endpoint) }

  /** buildAssertionVerifier: an issuer-audience profile overwrites what it was given. */
  function BuildVerifier(d: Deployment, audience: string, aux: seq<string>): Verifier
  {
    if d.issuerOnly then Verifier(d.issuer.Text(), [], true) else Verifier(audience, aux, false)
  }

  function VerifierAt(d: Deployment, s: Site): Verifier
  {
    var iss, token := d.issuer.Text(), Url(d, d.token);
    match s
    case PAR => BuildVerifier(d, Url(d, d.par), [iss, token])
    case Backchannel => BuildVerifier(d, Url(d, d.backchannel), [iss, token])
    case _ => BuildVerifier(d, token, [iss])
  }

  function AcceptedAudiences(v: Verifier, isString: bool): seq<string>
  {
    if v.single then (if isString then [v.audience] else []) else [v.audience] + v.aux
  }

  predicate Accepts(v: Verifier, aud: Audience)
  {
    match aud
    case One(a) => a in AcceptedAudiences(v, true)
    case Many(as_) => exists i :: 0 <= i < |as_| && as_[i] in AcceptedAudiences(v, false)
  }

  /** Where a URL counts as the endpoint's own audience: the issuer and the token URL at all
      six, the PAR and CIBA URLs only there. */
  predicate Addressed(d: Deployment, s: Site, a: string)
  {
    || a == d.issuer.Text() || a == Url(d, d.token)
    || (s == PAR && a == Url(d, d.par)) || (s == Backchannel && a == Url(d, d.backchannel))
  }

  /** An assertion works where one of its audiences is addressed, whether it is a string or an
      array of any length; under an issuer-audience profile only the issuer as a plain string
      works, and no array does. */
  lemma WhereAnAssertionWorks(d: Deployment, s: Site, aud: Audience)
    ensures d.issuerOnly ==> (Accepts(VerifierAt(d, s), aud) <==> aud == One(d.issuer.Text()))
    ensures !d.issuerOnly && aud.One? ==> (Accepts(VerifierAt(d, s), aud) <==> Addressed(d, s, aud.value))
    ensures !d.issuerOnly && aud.Many? ==>
              (Accepts(VerifierAt(d, s), aud) <==>
               exists i :: 0 <= i < |aud.values| && Addressed(d, s, aud.values[i]))
  {
    var v := VerifierAt(d, s);
    forall a ensures !d.issuerOnly ==> (a in AcceptedAudiences(v, aud.One?) <==> Addressed(d, s, a)) {}
  }

  /** The PAR URL, as an audience, works at PAR and nowhere else; so does the CIBA URL. */
  lemma OwnUrlWorksOnlyThere(d: Deployment, s: Site)
    requires Valid(d) && !d.issuerOnly
    ensures Accepts(VerifierAt(d, s), One(Url(d, d.par))) <==> s == PAR
    ensures Accepts(VerifierAt(d, s), One(Url(d, d.backchannel))) <==> s == Backchannel
  {
    AbsoluteURLInjective(d.issuer, d.mountPrefix, d.token, d.par);
    AbsoluteURLInjective(d.issuer, d.mountPrefix, d.par, d.backchannel);
    AbsoluteURLInjective(d.issuer, d.mountPrefix, d.token, d.backchannel);
    AbsoluteURLInjective(d.issuer, d.mountPrefix, d.backchannel, d.token);
    WhereAnAssertionWorks(d, s, One(Url(d, d.par)));
    WhereAnAssertionWorks(d, s, One(Url(d, d.backchannel)));
  }
}
