/** The storage namespace and the coordination key that the Android client derives from its configuration. */
module SessionNamespaces {
  import opened Prelude
  import opened SessionModel
  import opened SessionSafety
  import opened SessionTheorems
  import Dpop
  import Text

  /** A configuration, its base URL in the normal form of HttpUrl: lower-case host, explicit port. */
  datatype Configuration = Configuration(
    secure: bool, host: string, port: nat, path: string,
    applicationId: string, environment: string, identityProvider: string, platform: string)

  const APPLICATION_ID_LENGTH := 30

  /** What the constructors demand that keeps the parts apart: identifiers without slashes, one of fixed length. */
  predicate Valid(c: Configuration) {
    && Text.Lacks(c.host, '/') && c.path != "" && c.path[0] == '/'
    && |c.applicationId| == APPLICATION_ID_LENGTH && Text.Lacks(c.environment, '/')
    && Text.Lacks(c.identityProvider, '/') && Text.Lacks(c.platform, '/')
  }

  /** Host and port as the namespace spells them, an IPv6 address without brackets. */
  function Authority(c: Configuration): string {
    c.host + [':'] + Text.Decimal(c.port)
  }

  /** The base URL as the namespace spells it. */
  function Base(c: Configuration): string {
    Dpop.SchemePrefix(c.secure) + (Authority(c) + c.path)
  }

  /** The text whose digest is the namespace. */
  function NamespaceText(c: Configuration): string {
    Base(c) + c.applicationId + ['/'] + c.environment + ['/'] + c.identityProvider + ['/'] + c.platform
  }

  function Origin(c: Configuration): string {
    Dpop.SchemePrefix(c.secure) + (if Text.Lacks(c.host, ':') then c.host else "[" + c.host + "]")
    + [':'] + Text.Decimal(c.port) + c.path
  }

  function CoordinationOf(c: Configuration, key: Key): CoordinationKey {
    CoordinationKey(Origin(c), c.applicationId, c.environment, c.identityProvider, c.platform, key)
  }

  // ---------- The namespace identifies the configuration ----------

  lemma LastNoLonger(a: string, x: string, b: string, y: string, sep: char)
    requires a + [sep] + x == b + [sep] + y && Text.Lacks(x, sep)
    ensures |x| <= |y|
  {
    Text.AtConcat(a + [sep], x, |b|);
    Text.AtConcat(b + [sep], y, |b|);
    Text.AtConcat(b, [sep], |b|);
  }

  /** Two texts agree up to and after the last separator. */
  lemma LastPiece(a: string, x: string, b: string, y: string, sep: char)
    requires a + [sep] + x == b + [sep] + y && Text.Lacks(x, sep) && Text.Lacks(y, sep)
    ensures a == b && x == y
  {
    LastNoLonger(a, x, b, y, sep);
    LastNoLonger(b, y, a, x, sep);
    assert (a + [sep] + x)[..|a|] == a && (b + [sep] + y)[..|b|] == b;
    assert (a + [sep] + x)[|a| + 1..] == x && (b + [sep] + y)[|b| + 1..] == y;
  }

  lemma LastOfLength(a: string, x: string, b: string, y: string)
    requires a + x == b + y && |x| == |y|
    ensures a == b && x == y
  {
    assert (a + x)[..|a|] == a && (b + y)[..|b|] == b && (a + x)[|a|..] == x && (b + y)[|b|..] == y;
  }

  lemma AuthorityLacksSlash(c: Configuration)
    requires Valid(c)
    ensures Text.Lacks(Authority(c), '/') && Text.Lacks(Text.Decimal(c.port), ':')
  {
    forall i | 0 <= i < |Text.Decimal(c.port)| ensures Text.Decimal(c.port)[i] !in {'/', ':'} {
      assert Text.IsDigit(Text.Decimal(c.port)[i]);
    }
  }

  lemma BaseIdentifies(c: Configuration, d: Configuration)
    requires Valid(c) && Valid(d) && Base(c) == Base(d)
    ensures c.secure == d.secure && c.host == d.host && c.port == d.port && c.path == d.path
  {
    Dpop.SchemeIdentifies(c.secure, Authority(c) + c.path, d.secure, Authority(d) + d.path);
    AuthorityLacksSlash(c);
    AuthorityLacksSlash(d);
    Dpop.AuthorityEnds(Authority(c), c.path, Authority(d), d.path);
    LastPiece(c.host, Text.Decimal(c.port), d.host, Text.Decimal(d.port), ':');
    Text.DecimalInverse(c.port);
    Text.DecimalInverse(d.port);
  }

  /** Different configurations never digest the same text, although no separator follows the path. */
  lemma NamespaceIdentifies(c: Configuration, d: Configuration)
    requires Valid(c) && Valid(d)
    ensures NamespaceText(c) == NamespaceText(d) <==> c == d
  {
    if NamespaceText(c) == NamespaceText(d) {
      hide Base;
      var c1, d1 := Base(c) + c.applicationId, Base(d) + d.applicationId;
      var c2, d2 := c1 + ['/'] + c.environment, d1 + ['/'] + d.environment;
      LastPiece(c2 + ['/'] + c.identityProvider, c.platform, d2 + ['/'] + d.identityProvider, d.platform, '/');
      LastPiece(c2, c.identityProvider, d2, d.identityProvider, '/');
      LastPiece(c1, c.environment, d1, d.environment, '/');
      LastOfLength(Base(c), c.applicationId, Base(d), d.applicationId);
      BaseIdentifies(c, d);
    }
  }

  // ---------- Clients wired by it ----------

  /** Different namespaces are different stores, as far as the digest keeps them apart. */
  ghost predicate Separates(store: string -> StoreId) {
    forall a: string, b: string :: store(a) == store(b) ==> a == b
  }

  /** Each root client has the store and the coordination key that its configuration gives it. */
  predicate WiredBy(w: Wiring, configurations: seq<Configuration>, store: string -> StoreId) {
    && |configurations| == |w.roots|
    && forall c :: 0 <= c < |w.roots| ==>
         && Valid(configurations[c]) && w.roots[c].store == store(NamespaceText(configurations[c]))
         && w.roots[c].coordination == CoordinationOf(configurations[c], KeyOf(w.roots[c]))
  }

  /** The client's own wiring meets the condition under which no superseded refresh token is ever presented. */
  lemma NamespacesNeverReplay(
      w: Wiring, configurations: seq<Configuration>, store: string -> StoreId, t: seq<State>)
    requires Separates(store) && WiredBy(w, configurations, store)
    ensures OneSessionPerStore(w) && (Run(w, t) ==> NeverReplays(t))
  {
    hide NamespaceText, Origin, Run, NeverReplays;
    forall a, b | 0 <= a < |w.roots| && 0 <= b < |w.roots| && HomeOf(w.roots[a]) == HomeOf(w.roots[b])
      ensures w.roots[a].coordination == w.roots[b].coordination
    {
      NamespaceIdentifies(configurations[a], configurations[b]);
    }
    if Run(w, t) {
      NoReplay(w, t);
    }
  }
}
