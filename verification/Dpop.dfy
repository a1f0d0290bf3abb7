/**
 * DPoP proofs (RFC 9449, section 4.2): the canonical target URI, the claims object and the compact
 * serialisation of RFC 7515, section 7.1, with a reader that recovers everything a proof was made from.
 */
module Dpop {
  import opened Prelude
  import Base64Url
  import Json
  import Text
  import Utf8

  // ---------- The target URI ----------

  /** The parts java.net.URI reports; the scheme is http or https. */
  datatype Uri = Uri(secure: bool, host: Option<string>, port: Option<nat>, rawPath: string)

  function Bracketed(host: string): string {
    if !Text.Lacks(host, ':') && host[0] != '[' then "[" + host + "]" else host
  }

  function PortSuffix(u: Uri): string {
    if u.port.None? || u.port.value == DefaultPort(u.secure) then "" else ":" + Text.Decimal(u.port.value)
  }

  function DefaultPort(secure: bool): nat {
    if secure then 443 else 80
  }

  function EffectivePort(u: Uri): nat {
    if u.port.None? then DefaultPort(u.secure) else u.port.value
  }

  function EffectivePath(u: Uri): string {
    if u.rawPath == "" then "/" else u.rawPath
  }

  function SchemePrefix(secure: bool): string {
    if secure then "https://" else "http://"
  }

  /** Section 4.2 of RFC 9449: the target without query and fragment, in one spelling. */
  function CanonicalHtu(u: Uri): Option<string> {
    if u.host.None? then None
    else Some(SchemePrefix(u.secure) + (Bracketed(Text.Lower(u.host.value)) + PortSuffix(u) + EffectivePath(u)))
  }

  /** A host is a name or IPv4 address, or an IPv6 address in brackets; none contains a slash. */
  predicate IsHost(host: string) {
    && host != "" && Text.Lacks(host, '/')
    && (|| (Text.Lacks(host, ':') && host[0] != '[')
        || (|host| >= 2 && host[0] == '[' && host[|host| - 1] == ']'
            && forall i :: 0 <= i < |host| - 1 ==> host[i] != ']'))
  }

  /** What java.net.URI guarantees of an absolute hierarchical URI with a server-based authority. */
  predicate IsServerUri(u: Uri) {
    && u.host.Some? && IsHost(u.host.value)
    && (u.rawPath == "" || u.rawPath[0] == '/')
  }

  lemma LowerHost(host: string)
    requires IsHost(host)
    ensures IsHost(Text.Lower(host)) && Bracketed(Text.Lower(host)) == Text.Lower(host)
  {
    var lower := Text.Lower(host);
    assert lower[0] == Text.LowerChar(host[0]) && lower[|host| - 1] == Text.LowerChar(host[|host| - 1]);
  }

  /** The first slash ends the authority. */
  lemma AuthorityEnds(a: string, p: string, b: string, q: string)
    requires a + p == b + q && Text.Lacks(a, '/') && Text.Lacks(b, '/')
    requires p != "" && q != "" && p[0] == '/' && q[0] == '/'
    ensures a == b && p == q
  {
    Text.AtConcat(a, p, |a|);
    Text.AtConcat(b, q, |a|);
    Text.AtConcat(a, p, |b|);
    Text.AtConcat(b, q, |b|);
    assert |a| == |b|;
    assert (a + p)[..|a|] == a && (b + q)[..|b|] == b && (a + p)[|a|..] == p && (b + q)[|b|..] == q;
  }

  predicate IsPortSuffix(s: string) {
    s == "" || s[0] == ':'
  }

  lemma HostNoLonger(a: string, p: string, b: string, q: string)
    requires a + p == b + q && IsHost(a) && IsHost(b) && IsPortSuffix(p) && IsPortSuffix(q)
    ensures |a| >= |b|
  {
    Text.AtConcat(a, p, |a|);
    Text.AtConcat(b, q, |a|);
    Text.AtConcat(a, p, 0);
    Text.AtConcat(b, q, 0);
    Text.AtConcat(a, p, |a| - 1);
    Text.AtConcat(b, q, |a| - 1);
    assert Text.At(b, |a| - 1) == Text.At(a, |a| - 1) || |a| >= |b|;
  }

  /** The host ends where the port begins. */
  lemma HostEnds(a: string, p: string, b: string, q: string)
    requires a + p == b + q && IsHost(a) && IsHost(b) && IsPortSuffix(p) && IsPortSuffix(q)
    ensures a == b && p == q
  {
    HostNoLonger(a, p, b, q);
    HostNoLonger(b, q, a, p);
    assert (a + p)[..|a|] == a && (b + q)[..|b|] == b && (a + p)[|a|..] == p && (b + q)[|b|..] == q;
  }

  lemma PortIdentifies(u: Uri, v: Uri)
    requires u.secure == v.secure && PortSuffix(u) == PortSuffix(v)
    ensures EffectivePort(u) == EffectivePort(v)
  {
    if PortSuffix(u) != "" {
      assert PortSuffix(u)[1..] == Text.Decimal(u.port.value) && PortSuffix(v)[1..] == Text.Decimal(v.port.value);
      Text.DecimalInverse(u.port.value);
      Text.DecimalInverse(v.port.value);
    }
  }

  lemma SchemeIdentifies(u: bool, a: string, v: bool, b: string)
    requires SchemePrefix(u) + a == SchemePrefix(v) + b
    ensures u == v && a == b
  {
    var s, t := SchemePrefix(u) + a, SchemePrefix(v) + b;
    assert s[4] == SchemePrefix(u)[4] && t[4] == SchemePrefix(v)[4];
    assert s[|SchemePrefix(u)|..] == a && t[|SchemePrefix(v)|..] == b;
  }

  lemma SuffixLacksSlash(u: Uri)
    ensures Text.Lacks(PortSuffix(u), '/') && IsPortSuffix(PortSuffix(u))
  {
    if PortSuffix(u) != "" {
      forall i | 0 <= i < |PortSuffix(u)| ensures PortSuffix(u)[i] != '/' {
        if i > 0 {
          assert Text.IsDigit(Text.Decimal(u.port.value)[i - 1]);
        }
      }
    }
  }

  /** Two targets share their htu exactly when they are the same resource: one canonical spelling each. */
  lemma HtuIdentifies(u: Uri, v: Uri)
    requires IsServerUri(u) && IsServerUri(v)
    ensures CanonicalHtu(u) == CanonicalHtu(v) <==>
      (&& u.secure == v.secure && Text.Lower(u.host.value) == Text.Lower(v.host.value)
       && EffectivePort(u) == EffectivePort(v) && EffectivePath(u) == EffectivePath(v))
  {
    var a, b := Text.Lower(u.host.value), Text.Lower(v.host.value);
    LowerHost(u.host.value);
    LowerHost(v.host.value);
    if CanonicalHtu(u) == CanonicalHtu(v) {
      SchemeIdentifies(u.secure, a + PortSuffix(u) + EffectivePath(u), v.secure, b + PortSuffix(v) + EffectivePath(v));
      SuffixLacksSlash(u);
      SuffixLacksSlash(v);
      AuthorityEnds(a + PortSuffix(u), EffectivePath(u), b + PortSuffix(v), EffectivePath(v));
      HostEnds(a, PortSuffix(u), b, PortSuffix(v));
      PortIdentifies(u, v);
    }
  }

  // ---------- What a verifier reads in it ----------

  /** The text in front of the first occurrence of a character. */
  function UpTo(s: string, stop: char): (r: string)
    ensures |r| <= |s| && r == s[..|r|] && Text.Lacks(r, stop) && (|r| < |s| ==> s[|r|] == stop)
  {
    if s == "" || s[0] == stop then "" else [s[0]] + UpTo(s[1..], stop)
  }

  datatype Address = Address(secure: bool, host: string, port: nat, path: string)

  /** The host of an authority without user information: a bracketed address, or all up to a colon. */
  function ReadHost(authority: string): (host: string)
    ensures |host| <= |authority| && host == authority[..|host|]
  {
    if authority != "" && authority[0] == '[' then
      var inner := UpTo(authority, ']');
      if |inner| < |authority| then authority[..|inner| + 1] else authority
    else UpTo(authority, ':')
  }

  function ReadPort(suffix: string, byDefault: nat): Option<nat> {
    if suffix == "" then Some(byDefault)
    else if suffix[0] == ':' && forall i :: 1 <= i < |suffix| ==> Text.IsDigit(suffix[i])
    then Some(Text.DecimalValue(suffix[1..])) else None
  }

  function ReadAddress(secure: bool, byDefault: nat, rest: string): Option<Address> {
    var authority := UpTo(rest, '/');
    var host := ReadHost(authority);
    var port := ReadPort(authority[|host|..], byDefault);
    if port.None? then None else Some(Address(secure, host, port.value, rest[|authority|..]))
  }

  /** Scheme, authority and path of a URI without user information, query and fragment. */
  function ReadHtu(text: string): Option<Address> {
    if Text.StartsWith(text, "https://") then ReadAddress(true, 443, text[8..])
    else if Text.StartsWith(text, "http://") then ReadAddress(false, 80, text[7..])
    else None
  }

  /** The resource a request is for. */
  function AddressOf(u: Uri): Address
    requires u.host.Some?
  {
    Address(u.secure, Text.Lower(u.host.value),
            if u.port.Some? then u.port.value else if u.secure then 443 else 80,
            if u.rawPath == "" then "/" else u.rawPath)
  }

  lemma {:induction false} UpToAll(a: string, stop: char, rest: string)
    requires Text.Lacks(a, stop) && (rest == "" || rest[0] == stop)
    ensures UpTo(a + rest, stop) == a
  {
    if a == "" {
      assert a + rest == rest;
    } else {
      assert (a + rest)[1..] == a[1..] + rest;
      UpToAll(a[1..], stop, rest);
      assert [a[0]] + a[1..] == a;
    }
  }

  lemma HostReads(host: string, suffix: string)
    requires IsHost(host) && IsPortSuffix(suffix)
    ensures ReadHost(host + suffix) == host && (host + suffix)[|host|..] == suffix
  {
    var authority := host + suffix;
    assert authority[0] == host[0];
    if host[0] == '[' {
      var inner := host[..|host| - 1];
      assert authority == inner + ("]" + suffix);
      UpToAll(inner, ']', "]" + suffix);
      assert authority[..|inner| + 1] == host;
    } else {
      UpToAll(host, ':', suffix);
    }
  }

  lemma PortReads(u: Uri)
    ensures ReadPort(PortSuffix(u), if u.secure then 443 else 80)
         == Some(if u.port.Some? then u.port.value else if u.secure then 443 else 80)
  {
    if PortSuffix(u) != "" {
      assert PortSuffix(u)[1..] == Text.Decimal(u.port.value);
      Text.DecimalInverse(u.port.value);
      forall i | 1 <= i < |PortSuffix(u)| ensures Text.IsDigit(PortSuffix(u)[i]) {
        assert PortSuffix(u)[i] == Text.Decimal(u.port.value)[i - 1];
      }
    }
  }

  lemma AddressReads(u: Uri)
    requires IsServerUri(u)
    ensures ReadAddress(u.secure, if u.secure then 443 else 80,
                        Bracketed(Text.Lower(u.host.value)) + PortSuffix(u) + EffectivePath(u)) == Some(AddressOf(u))
  {
    var host, path := Text.Lower(u.host.value), EffectivePath(u);
    LowerHost(u.host.value);
    SuffixLacksSlash(u);
    var authority := host + PortSuffix(u);
    UpToAll(authority, '/', path);
    HostReads(host, PortSuffix(u));
    PortReads(u);
    hide ReadHost, ReadPort, PortSuffix;
    assert (authority + path)[|authority|..] == path;
  }

  lemma SchemeReads(secure: bool, rest: string)
    ensures ReadHtu(SchemePrefix(secure) + rest) == ReadAddress(secure, if secure then 443 else 80, rest)
  {
    hide ReadAddress;
    var text := SchemePrefix(secure) + rest;
    if secure {
      assert text[..8] == "https://" && text[8..] == rest;
    } else {
      assert text[4] == ':' && text[..7] == "http://" && text[7..] == rest;
      assert |text| >= 8 ==> text[..8][4] == ':';
    }
  }

  /** The canonical spelling: the lower-cased host, a port only if it is not the scheme's own, and the path. */
  lemma HtuSpelling(u: Uri)
    requires IsServerUri(u)
    ensures CanonicalHtu(u) == Some(
              (if u.secure then "https://" else "http://") + (Text.Lower(u.host.value)
              + (if u.port.None? || u.port.value == (if u.secure then 443 else 80) then ""
                 else ":" + Text.Decimal(u.port.value))
              + (if u.rawPath == "" then "/" else u.rawPath)))
  {
    hide Text.Lower, IsHost, Text.Decimal;
    LowerHost(u.host.value);
  }

  /** A reader finds exactly the resource in it. */
  lemma HtuReads(u: Uri)
    requires IsServerUri(u)
    ensures CanonicalHtu(u).Some? && ReadHtu(CanonicalHtu(u).value) == Some(AddressOf(u))
  {
    hide ReadHtu, ReadAddress, IsHost, AddressOf, SchemePrefix, PortSuffix, EffectivePath, Bracketed;
    AddressReads(u);
    SchemeReads(u.secure, Bracketed(Text.Lower(u.host.value)) + PortSuffix(u) + EffectivePath(u));
  }

  // ---------- The proof ----------

  datatype Request = Request(htm: string, uri: Uri, accessToken: Option<string>, nonce: Option<string>)

  /** What the factory is given: the public coordinates, the clock, a fresh id, SHA-256 and the signer. */
  datatype Factory = Factory(
    x: string,
    y: string,
    now: int,
    jti: string,
    sha256: seq<byte> -> seq<byte>,
    sign: seq<byte> -> seq<byte>
  )

  /** Java's US-ASCII encoder: a character outside the range becomes a question mark. */
  function UsAscii(s: string): (b: seq<byte>)
    ensures |b| == |s|
  {
    if s == [] then []
    else
      var code := s[0] as int;
      [if code < 0x80 then code else 0x3f] + UsAscii(s[1..])
  }

  function Jwk(f: Factory): seq<Json.Member> {
    [Json.Member("kty", Json.Text("EC")), Json.Member("crv", Json.Text("P-256")),
     Json.Member("x", Json.Text(f.x)), Json.Member("y", Json.Text(f.y))]
  }

  function HeaderOf(typ: string, alg: string, key: Json.Value): seq<Json.Member> {
    [Json.Member("typ", Json.Text(typ)), Json.Member("alg", Json.Text(alg)), Json.Member("jwk", key)]
  }

  function Header(f: Factory): seq<Json.Member> {
    HeaderOf("dpop+jwt", "ES256", Json.Object(Jwk(f)))
  }

  function Ath(f: Factory, token: string): string {
    Base64Url.Encode(f.sha256(UsAscii(token)))
  }

  function BaseClaims(f: Factory, htm: string, htu: string): seq<Json.Member> {
    [Json.Member("htm", Json.Text(htm)), Json.Member("htu", Json.Text(htu)),
     Json.Member("iat", Json.Number(f.now)), Json.Member("jti", Json.Text(f.jti))]
  }

  /** The claims of section 4.2, ath and nonce only when the request carries them. */
  function Claims(f: Factory, request: Request): seq<Json.Member>
    requires CanonicalHtu(request.uri).Some?
  {
    BaseClaims(f, request.htm, CanonicalHtu(request.uri).value)
    + (if request.accessToken.Some? then [Json.Member("ath", Json.Text(Ath(f, request.accessToken.value)))] else [])
    + (if request.nonce.Some? then [Json.Member("nonce", Json.Text(request.nonce.value))] else [])
  }

  datatype Parts = Parts(header: seq<Json.Member>, claims: seq<Json.Member>, signingInput: string, signature: seq<byte>)

  function ReadSegment(s: string): Option<seq<Json.Member>> {
    var bytes := Base64Url.Decode(s);
    if bytes.None? then None
    else
      var text := Utf8.Decode(bytes.value);
      if text.None? then None else Json.ReadObject(text.value)
  }

  /** A verifier's view: exactly three segments, two JSON objects and the signature bytes. */
  function ReadProof(text: string): Option<Parts> {
    var pieces := Text.Split(text, '.');
    if |pieces| != 3 then None
    else
      var header, claims, signature := ReadSegment(pieces[0]), ReadSegment(pieces[1]), Base64Url.Decode(pieces[2]);
      if header.None? || claims.None? || signature.None? then None
      else Some(Parts(header.value, claims.value, pieces[0] + "." + pieces[1], signature.value))
  }

  /** The public key, by name. */
  predicate ShowsKey(header: seq<Json.Member>, f: Factory) {
    && Json.GetText(header, "typ") == Some("dpop+jwt") && Json.GetText(header, "alg") == Some("ES256")
    && var jwk := Json.GetObject(header, "jwk");
       && jwk.Some? && |jwk.value| == 4
       && Json.GetText(jwk.value, "kty") == Some("EC") && Json.GetText(jwk.value, "crv") == Some("P-256")
       && Json.GetText(jwk.value, "x") == Some(f.x) && Json.GetText(jwk.value, "y") == Some(f.y)
  }

  /** The claims, by name: what the request is for, when and under which id, and what it is bound to. */
  predicate ClaimsRequest(claims: seq<Json.Member>, f: Factory, request: Request) {
    && Json.GetText(claims, "htm") == Some(request.htm)
    && Json.GetText(claims, "htu").Some?
    && (IsServerUri(request.uri) ==> ReadHtu(Json.GetText(claims, "htu").value) == Some(AddressOf(request.uri)))
    && Json.GetNumber(claims, "iat") == Some(f.now) && Json.GetText(claims, "jti") == Some(f.jti)
    && Json.Lookup(claims, "ath") ==
       (if request.accessToken.Some?
        then Some(Json.Text(Base64Url.Encode(f.sha256(UsAscii(request.accessToken.value))))) else None)
    && Json.Lookup(claims, "nonce") == (if request.nonce.Some? then Some(Json.Text(request.nonce.value)) else None)
  }

  lemma HeaderShowsKey(f: Factory)
    ensures ShowsKey(Header(f), f)
  {
    hide Json.Lookup;
    var header, jwk := Header(f), Jwk(f);
    Json.LookupAt(header, 0);
    Json.LookupAt(header, 1);
    Json.LookupAt(header, 2);
    Json.LookupAt(jwk, 0);
    Json.LookupAt(jwk, 1);
    Json.LookupAt(jwk, 2);
    Json.LookupAt(jwk, 3);
  }

  lemma ClaimsSayRequest(f: Factory, request: Request)
    requires CanonicalHtu(request.uri).Some?
    ensures ClaimsRequest(Claims(f, request), f, request)
  {
    hide Json.Lookup, CanonicalHtu, ReadHtu, AddressOf, IsServerUri, UsAscii, Base64Url.Encode;
    var claims := Claims(f, request);
    Json.LookupAt(claims, 0);
    Json.LookupAt(claims, 1);
    Json.LookupAt(claims, 2);
    Json.LookupAt(claims, 3);
    OptionalClaims(f, request);
    if IsServerUri(request.uri) {
      HtuReads(request.uri);
    }
  }

  lemma OptionalClaims(f: Factory, request: Request)
    requires CanonicalHtu(request.uri).Some?
    ensures Json.Lookup(Claims(f, request), "ath") ==
            if request.accessToken.Some? then Some(Json.Text(Ath(f, request.accessToken.value))) else None
    ensures Json.Lookup(Claims(f, request), "nonce") ==
            if request.nonce.Some? then Some(Json.Text(request.nonce.value)) else None
  {
    hide Json.Lookup, CanonicalHtu, Ath;
    var claims := Claims(f, request);
    if request.accessToken.Some? {
      Json.LookupAt(claims, 4);
    } else {
      Json.LookupAbsent(claims, "ath");
    }
    if request.nonce.Some? {
      Json.LookupAt(claims, |claims| - 1);
    } else {
      Json.LookupAbsent(claims, "nonce");
    }
  }

  function Segment(members: seq<Json.Member>): string {
    Base64Url.Encode(Utf8.Encode(Json.Print(Json.Object(members))))
  }

  lemma SegmentReads(members: seq<Json.Member>)
    ensures ReadSegment(Segment(members)) == Some(members)
  {
    Base64Url.DecodeEncode(Utf8.Encode(Json.Print(Json.Object(members))));
    Utf8.DecodeEncode(Json.Print(Json.Object(members)));
    Json.ReadObjectInverse(members);
  }

  lemma EncodedLacksDot(b: seq<byte>)
    ensures Text.Lacks(Base64Url.Encode(b), '.')
  {
    forall i | 0 <= i < |Base64Url.Encode(b)| ensures Base64Url.Encode(b)[i] != '.' {
      assert Base64Url.IndexOf(Base64Url.Encode(b)[i]) >= 0;
    }
  }

  /** A compact serialisation reads back as what it was assembled from. */
  lemma ProofReads(header: seq<Json.Member>, claims: seq<Json.Member>, signature: seq<byte>)
    ensures var input := Segment(header) + "." + Segment(claims);
      ReadProof(input + "." + Base64Url.Encode(signature)) == Some(Parts(header, claims, input, signature))
  {
    hide Base64Url.Encode, Base64Url.Decode, Json.Print, ReadSegment;
    var h, c, s := Segment(header), Segment(claims), Base64Url.Encode(signature);
    SegmentReads(header);
    SegmentReads(claims);
    Base64Url.DecodeEncode(signature);
    EncodedLacksDot(Utf8.Encode(Json.Print(Json.Object(header))));
    EncodedLacksDot(Utf8.Encode(Json.Print(Json.Object(claims))));
    EncodedLacksDot(signature);
    assert h + "." + c + "." + s == h + ['.'] + (c + ['.'] + s);
    Text.SplitFirst(h, '.', c + ['.'] + s);
    Text.SplitFirst(c, '.', s);
    Text.SplitOnly(s, '.');
    assert Text.Split(h + "." + c + "." + s, '.') == [h, c, s];
  }

  // ---------- Assembling the text ----------

  /** A constant name, which needs no escaping, in front of a printed value. */
  method WriteMember(name: string, printed: string, ghost value: Json.Value) returns (r: string)
    requires Json.IsPlain(name) && printed == Json.Print(value)
    ensures r == Json.PrintMember(Json.Member(name, value))
  {
    Json.PlainString(name);
    r := "\"" + name + "\":" + printed;
    assert r == "\"" + name + "\"" + ":" + printed;
  }

  method WriteText(name: string, text: string) returns (r: string)
    requires Json.IsPlain(name)
    ensures r == Json.PrintMember(Json.Member(name, Json.Text(text)))
  {
    var printed := Json.WriteJsonString(text);
    r := WriteMember(name, printed, Json.Text(text));
  }

  predicate Printed(texts: seq<string>, members: seq<Json.Member>) {
    |texts| == |members| && forall i :: 0 <= i < |texts| ==> texts[i] == Json.PrintMember(members[i])
  }

  /** Joining printed claims with commas prints the members of an object. */
  lemma {:induction false} JoinMembers(texts: seq<string>, members: seq<Json.Member>)
    requires Printed(texts, members) && texts != []
    ensures Text.Join(texts, ',') == Json.PrintMembers(members)
  {
    if |texts| > 1 {
      JoinMembers(texts[1..], members[1..]);
    }
  }

  /** joinToString between braces prints the whole object. */
  method WriteObject(texts: seq<string>, ghost members: seq<Json.Member>) returns (r: string)
    requires Printed(texts, members) && texts != []
    ensures r == Json.Print(Json.Object(members))
  {
    r := "{" + Text.Join(texts, ',') + "}";
    JoinMembers(texts, members);
  }

  /** The key of the header, with constant members around the two coordinates. */
  method WriteJwk(f: Factory) returns (r: string)
    ensures r == Json.Print(Json.Object(Jwk(f)))
  {
    var kty := WriteText("kty", "EC");
    var crv := WriteText("crv", "P-256");
    var x := WriteText("x", f.x);
    var y := WriteText("y", f.y);
    r := WriteObject([kty, crv, x, y], Jwk(f));
  }

  /** The three header members around a printed key. */
  method WriteHeaderMembers(typ: string, alg: string, key: string, ghost value: Json.Value)
    returns (texts: seq<string>)
    requires key == Json.Print(value)
    ensures Printed(texts, HeaderOf(typ, alg, value)) && texts != []
  {
    var first := WriteText("typ", typ);
    var second := WriteText("alg", alg);
    var third := WriteMember("jwk", key, value);
    texts := [first, second, third];
  }

  method WriteHeader(f: Factory) returns (r: string)
    ensures r == Json.Print(Json.Object(Header(f)))
  {
    var key := WriteJwk(f);
    var texts := WriteHeaderMembers("dpop+jwt", "ES256", key, Json.Object(Jwk(f)));
    r := WriteObject(texts, Header(f));
  }

  /** The four claims of every proof. */
  method WriteClaims(f: Factory, htm: string, htu: string) returns (texts: seq<string>)
    ensures Printed(texts, BaseClaims(f, htm, htu)) && texts != []
  {
    hide Json.PrintMember;
    var first := WriteText("htm", htm);
    var second := WriteText("htu", htu);
    var third := WriteMember("iat", Json.PrintNumber(f.now), Json.Number(f.now));
    var fourth := WriteText("jti", f.jti);
    texts := [first, second, third, fourth];
  }

  method WritePayload(f: Factory, request: Request, htu: string) returns (r: string)
    requires CanonicalHtu(request.uri) == Some(htu)
    ensures r == Json.Print(Json.Object(Claims(f, request)))
  {
    hide Json.PrintMember, Json.Print, CanonicalHtu, BaseClaims;
    var claims := WriteClaims(f, request.htm, htu);
    if request.accessToken.Some? {
      var ath := Base64Url.EncodeBytes(f.sha256(UsAscii(request.accessToken.value)));
      var fifth := WriteText("ath", ath);
      claims := claims + [fifth];
    }
    if request.nonce.Some? {
      var sixth := WriteText("nonce", request.nonce.value);
      claims := claims + [sixth];
    }
    r := WriteObject(claims, Claims(f, request));
  }

  /**
   * A proof exists exactly when the target has a host and the signer returns 64 bytes. A verifier reads back
   * the public key, what the request is for, and the signature of the first two segments.
   */
  method Create(f: Factory, request: Request) returns (r: Result<string>)
    ensures r.Ok? ==>
      var proof := ReadProof(r.value);
      && proof.Some? && ShowsKey(proof.value.header, f) && ClaimsRequest(proof.value.claims, f, request)
      && |proof.value.signature| == 64 && proof.value.signature == f.sign(UsAscii(proof.value.signingInput))
    ensures r.Ok? ==> request.uri.host.Some?
    ensures r.Ok? ==>
      var input := Segment(Header(f)) + "." + Segment(Claims(f, request));
      && |f.sign(UsAscii(input))| == 64
      && ReadProof(r.value) == Some(Parts(Header(f), Claims(f, request), input, f.sign(UsAscii(input))))
    ensures r.Rejected? ==>
      || request.uri.host.None?
      || |f.sign(UsAscii(Segment(Header(f)) + "." + Segment(Claims(f, request))))| != 64
  {
    var header := WriteHeader(f);
    var htu := CanonicalHtu(request.uri);
    if htu.None? {
      return Rejected;
    }
    var payload := WritePayload(f, request, htu.value);
    var encodedHeader := Base64Url.EncodeBytes(Utf8.Encode(header));
    var encodedPayload := Base64Url.EncodeBytes(Utf8.Encode(payload));
    var signingInput := encodedHeader + "." + encodedPayload;
    var signature := f.sign(UsAscii(signingInput));
    if |signature| != 64 {
      return Rejected;
    }
    ProofReads(Header(f), Claims(f, request), signature);
    HeaderShowsKey(f);
    ClaimsSayRequest(f, request);
    var encodedSignature := Base64Url.EncodeBytes(signature);
    r := Ok(signingInput + "." + encodedSignature);
  }
}
