/**
 * Component sessions, from provisioning through any number of refreshes, starting from already parsed
 * responses. Times are epoch seconds.
 */
module ComponentChain {
  import opened Prelude
  import Text

  // ---------- Records ----------

  datatype Trust = Trust(
    provider: string,
    level: string,
    source: string,
    parentComponentId: string,
    parentProvider: Option<string>,
    delegationId: string,
    verifiedAt: int,
    expiresAt: int
  )

  datatype Component = Component(
    id: string,
    definitionId: string,
    kind: string,
    platform: string,
    isRoot: bool,
    active: bool,
    jkt: string,
    features: set<string>
  )

  datatype Installation = Installation(id: string, platform: string, jkt: string, active: bool)

  datatype Family = Family(id: string, active: bool)

  datatype Snapshot = Snapshot(
    accessToken: string,
    refreshToken: string,
    accessExpiresAt: int,
    refreshExpiresAt: int,
    installation: Installation,
    family: Family,
    component: Component,
    trust: Trust
  )

  datatype Provisioning = Provisioning(
    componentId: string,
    familyId: string,
    definitionId: string,
    jkt: string,
    trustSource: string,
    trustExpiresAt: int,
    features: set<string>,
    grantExpiresAt: int
  )

  /** The provisioning document, field by field. */
  datatype ProvisioningReply = ProvisioningReply(
    componentId: string,
    familyId: string,
    trustSource: string,
    trustExpiresAt: int,
    grantExpiresAt: int,
    features: set<string>,
    refreshGrant: string
  )

  datatype InitialReply = InitialReply(access: string, refresh: string, expiresIn: int, refreshExpiresAt: int)

  datatype RefreshReply = RefreshReply(
    access: string,
    tokenType: string,
    refresh: string,
    expiresIn: int,
    refreshExpiresIn: int,
    installation: Installation,
    family: Family,
    component: Component,
    trust: Trust
  )

  datatype Expectation = Expectation(
    familyId: string,
    componentId: string,
    definitionId: string,
    platform: string,
    jkt: string,
    features: set<string>,
    trustSource: string,
    trustExpiresAt: int,
    installationId: Option<string>,
    kind: Option<string>,
    stableTrust: Option<Trust>
  )

  // ---------- Parsing ----------

  predicate IsSecret(s: string, low: nat, high: nat) {
    low <= |s| <= high
  }

  /** The white space that is not a control character. */
  predicate IsSpace(c: char) {
    || c as int in {0x20, 0xa0, 0x1680, 0x2028, 0x2029, 0x202f, 0x205f, 0x3000}
    || 0x2000 <= c as int <= 0x200a
  }

  /** No control characters, and nothing to trim at the ends. */
  predicate IsPlainSecret(s: string) {
    && (forall i :: 0 <= i < |s| ==> !Text.IsControl(s[i]))
    && (s != "" ==> !IsSpace(s[0]) && !IsSpace(s[|s| - 1]))
  }

  function ParseProvisioning(reply: ProvisioningReply, definitionId: string, jkt: string, requested: set<string>, now: int)
    : Option<Provisioning>
  {
    if reply.trustSource !in {"delegated_from_attested_root", "delegated_identity_only"} then None
    else if reply.grantExpiresAt != reply.trustExpiresAt || reply.grantExpiresAt <= now then None
    else if reply.features == {} || !(reply.features <= requested) then None
    else if !IsSecret(reply.refreshGrant, 32, 2_048) || !IsPlainSecret(reply.refreshGrant) then None
    else Some(Provisioning(reply.componentId, reply.familyId, definitionId, jkt, reply.trustSource,
                           reply.trustExpiresAt, reply.features, reply.grantExpiresAt))
  }

  /** The expiry of the first refresh token, if the initial credentials are acceptable. */
  function ParseInitial(reply: InitialReply, now: int): Option<int> {
    if IsSecret(reply.access, 64, 16_384) && IsSecret(reply.refresh, 32, 2_048) && 60 <= reply.expiresIn <= 3_600
       && reply.refreshExpiresAt > now + reply.expiresIn
    then Some(reply.refreshExpiresAt) else None
  }

  /** What the constructors of the parsed records demand. */
  predicate RecordsOk(s: Snapshot) {
    && s.accessExpiresAt > 0 && s.refreshExpiresAt > s.accessExpiresAt
    && s.installation.active && s.installation.platform == s.component.platform && s.installation.jkt == s.component.jkt
    && s.family.active && s.component.active && !s.component.isRoot
    && s.component.features != {} && s.trust.expiresAt > s.trust.verifiedAt
  }

  function SnapshotOf(reply: RefreshReply, now: int): Snapshot {
    Snapshot(reply.access, reply.refresh, now + reply.expiresIn, now + reply.refreshExpiresIn,
             reply.installation, reply.family, reply.component, reply.trust)
  }

  function ParseRefreshed(reply: RefreshReply, e: Expectation, now: int, maximumSkew: int): Option<Snapshot> {
    var c, i, t := reply.component, reply.installation, reply.trust;
    if !IsSecret(reply.access, 64, 16_384) || reply.tokenType != "DPoP" || !IsSecret(reply.refresh, 32, 2_048) then None
    else if !(60 <= reply.expiresIn <= 3_600) || !(300 <= reply.refreshExpiresIn <= 31_536_000) then None
    else if reply.family.id != e.familyId || !reply.family.active then None
    else if c.id != e.componentId || c.definitionId != e.definitionId || c.platform != e.platform || c.jkt != e.jkt
            || c.features != e.features || (e.kind.Some? && c.kind != e.kind.value) || c.isRoot then None
    else if (e.installationId.Some? && i.id != e.installationId.value) || i.jkt != e.jkt || i.platform != c.platform
            || !i.active then None
    else if t.source != e.trustSource || (e.stableTrust.Some? && t != e.stableTrust.value) then None
    else if t.verifiedAt > now + maximumSkew then None
    else if t.expiresAt < now + reply.refreshExpiresIn || t.expiresAt != e.trustExpiresAt then None
    else if !RecordsOk(SnapshotOf(reply, now)) then None
    else Some(SnapshotOf(reply, now))
  }

  function FirstExpectation(p: Provisioning, platform: string, signerIdentity: string): Expectation {
    Expectation(p.familyId, p.componentId, p.definitionId, platform, signerIdentity, p.features, p.trustSource,
                p.trustExpiresAt, None, None, None)
  }

  function NextExpectation(s: Snapshot, signerIdentity: string): Expectation {
    Expectation(s.family.id, s.component.id, s.component.definitionId, s.component.platform, signerIdentity,
                s.component.features, s.trust.source, s.trust.expiresAt,
                Some(s.installation.id), Some(s.component.kind), Some(s.trust))
  }

  // ---------- Chains ----------

  /** A refresh of a session that a reply at some time can bring about. */
  ghost predicate Succeeds(s: Snapshot, t: Snapshot, signerIdentity: string, maximumSkew: int) {
    exists reply, now :: ParseRefreshed(reply, NextExpectation(s, signerIdentity), now, maximumSkew) == Some(t)
  }

  ghost predicate Chain(p: Provisioning, chain: seq<Snapshot>, platform: string, signerIdentity: string, maximumSkew: int) {
    && |chain| > 0
    && (exists reply, now ::
          ParseRefreshed(reply, FirstExpectation(p, platform, signerIdentity), now, maximumSkew) == Some(chain[0]))
    && forall i :: 0 < i < |chain| ==> Succeeds(chain[i - 1], chain[i], signerIdentity, maximumSkew)
  }

  /** The session is the one the reply grants: its own tokens, with lifetimes from the time of the reply. */
  predicate GrantedBy(s: Snapshot, reply: RefreshReply, now: int) {
    && s.accessToken == reply.access && s.refreshToken == reply.refresh
    && s.accessExpiresAt == now + reply.expiresIn && s.refreshExpiresAt == now + reply.refreshExpiresIn
    && s.installation == reply.installation && s.family == reply.family && s.component == reply.component
    && s.trust == reply.trust
  }

  /** What is demanded of a reply to the refresh of a component. */
  predicate Acceptable(reply: RefreshReply, e: Expectation, now: int, maximumSkew: int) {
    && 64 <= |reply.access| <= 16_384 && 32 <= |reply.refresh| <= 2_048 && reply.tokenType == "DPoP"
    && 60 <= reply.expiresIn <= 3_600 && 300 <= reply.refreshExpiresIn <= 31_536_000
    && reply.family == Family(e.familyId, true)
    && reply.component.id == e.componentId && reply.component.definitionId == e.definitionId
    && reply.component.platform == e.platform == reply.installation.platform
    && reply.component.jkt == e.jkt == reply.installation.jkt
    && reply.component.features == e.features != {} && !reply.component.isRoot && reply.component.active
    && reply.installation.active
    && e.kind in {None, Some(reply.component.kind)} && e.installationId in {None, Some(reply.installation.id)}
    && reply.trust.source == e.trustSource && e.stableTrust in {None, Some(reply.trust)}
    && reply.trust.verifiedAt <= now + maximumSkew && reply.trust.verifiedAt < reply.trust.expiresAt
    && now + reply.refreshExpiresIn <= reply.trust.expiresAt == e.trustExpiresAt
    && 0 < now + reply.expiresIn < now + reply.refreshExpiresIn
  }

  /** What is demanded of a provisioning document for a component that asked for certain features. */
  predicate AcceptableProvisioning(reply: ProvisioningReply, requested: set<string>, now: int) {
    && reply.trustSource in {"delegated_from_attested_root", "delegated_identity_only"}
    && now < reply.grantExpiresAt == reply.trustExpiresAt
    && {} < reply.features <= requested
    && 32 <= |reply.refreshGrant| <= 2_048 && IsPlainSecret(reply.refreshGrant)
  }

  /** What is demanded of the first credentials, which the delegated trust must outlive. */
  predicate AcceptableInitial(reply: InitialReply, trustExpiresAt: int, now: int) {
    && 64 <= |reply.access| <= 16_384 && 32 <= |reply.refresh| <= 2_048 && 60 <= reply.expiresIn <= 3_600
    && now + reply.expiresIn < reply.refreshExpiresAt <= trustExpiresAt
  }

  lemma ProvisioningIff(reply: ProvisioningReply, definitionId: string, jkt: string, requested: set<string>, now: int)
    ensures var p := ParseProvisioning(reply, definitionId, jkt, requested, now);
      p.Some? <==> AcceptableProvisioning(reply, requested, now)
  {
  }

  lemma InitialIff(reply: InitialReply, trustExpiresAt: int, now: int)
    ensures var first := ParseInitial(reply, now);
      first.Some? && first.value <= trustExpiresAt <==> AcceptableInitial(reply, trustExpiresAt, now)
  {
  }

  lemma AcceptedIff(reply: RefreshReply, e: Expectation, now: int, maximumSkew: int)
    ensures ParseRefreshed(reply, e, now, maximumSkew).Some? <==> Acceptable(reply, e, now, maximumSkew)
  {
  }

  /** The session is still the one that was provisioned, within its lifetime. */
  predicate AsProvisioned(p: Provisioning, s: Snapshot, platform: string, signerIdentity: string) {
    && s.family.id == p.familyId && s.component.id == p.componentId && s.component.definitionId == p.definitionId
    && s.component.platform == platform && s.installation.platform == platform
    && s.component.jkt == signerIdentity && s.installation.jkt == signerIdentity
    && s.component.features == p.features && s.trust.source == p.trustSource && s.trust.expiresAt == p.trustExpiresAt
    && 0 < s.accessExpiresAt < s.refreshExpiresAt <= p.trustExpiresAt
    && s.family.active && s.component.active && s.installation.active && !s.component.isRoot
  }

  /** What later sessions repeat of the first one. */
  predicate SameBinding(s: Snapshot, t: Snapshot) {
    t.trust == s.trust && t.installation == s.installation && t.component == s.component && t.family == s.family
  }

  lemma FirstAsProvisioned(
      p: Provisioning, reply: RefreshReply, now: int, platform: string, signerIdentity: string, maximumSkew: int)
    ensures var s := ParseRefreshed(reply, FirstExpectation(p, platform, signerIdentity), now, maximumSkew);
      s.Some? ==> AsProvisioned(p, s.value, platform, signerIdentity)
  {
  }

  lemma NextAsProvisioned(
      p: Provisioning, s: Snapshot, t: Snapshot, platform: string, signerIdentity: string, maximumSkew: int)
    requires AsProvisioned(p, s, platform, signerIdentity) && Succeeds(s, t, signerIdentity, maximumSkew)
    ensures AsProvisioned(p, t, platform, signerIdentity) && SameBinding(s, t)
  {
  }

  /**
   * Along every chain of refreshes the family, component, definition, key, features and trust stay as
   * provisioned, and access expires before refresh, refresh no later than the provisioned trust.
   */
  lemma {:induction false} ChainAsProvisioned(
      p: Provisioning, chain: seq<Snapshot>, platform: string, signerIdentity: string, maximumSkew: int, k: nat)
    requires Chain(p, chain, platform, signerIdentity, maximumSkew) && k < |chain|
    ensures AsProvisioned(p, chain[k], platform, signerIdentity) && SameBinding(chain[0], chain[k])
  {
    hide Succeeds, AsProvisioned;
    if k == 0 {
      var reply, now :|
        ParseRefreshed(reply, FirstExpectation(p, platform, signerIdentity), now, maximumSkew) == Some(chain[0]);
      FirstAsProvisioned(p, reply, now, platform, signerIdentity, maximumSkew);
    } else {
      ChainAsProvisioned(p, chain, platform, signerIdentity, maximumSkew, k - 1);
      NextAsProvisioned(p, chain[k - 1], chain[k], platform, signerIdentity, maximumSkew);
    }
  }

  /** Every feature of every session in a chain was requested when the component was provisioned. */
  lemma FeaturesWereRequested(reply: ProvisioningReply, definitionId: string, jkt: string, requested: set<string>, now: int,
                              chain: seq<Snapshot>, platform: string, signerIdentity: string, maximumSkew: int, k: nat)
    requires var p := ParseProvisioning(reply, definitionId, jkt, requested, now);
      p.Some? && Chain(p.value, chain, platform, signerIdentity, maximumSkew) && k < |chain|
    ensures AcceptableProvisioning(reply, requested, now)
    ensures {} < chain[k].component.features <= requested
    ensures chain[k].refreshExpiresAt <= reply.grantExpiresAt
    ensures chain[k].component.id == reply.componentId && chain[k].family.id == reply.familyId
    ensures chain[k].component.definitionId == definitionId && chain[k].trust.source == reply.trustSource
    ensures ParseProvisioning(reply, definitionId, jkt, requested, now).value.jkt == jkt
    ensures chain[k].trust.expiresAt == reply.trustExpiresAt
  {
    ProvisioningIff(reply, definitionId, jkt, requested, now);
    var p := ParseProvisioning(reply, definitionId, jkt, requested, now).value;
    ChainAsProvisioned(p, chain, platform, signerIdentity, maximumSkew, k);
  }

  // ---------- The coordinator ----------

  datatype Problem = Terminal | EndsSession | Other

  datatype Reply = Granted(reply: RefreshReply) | Refused(problem: Problem)

  /** Whether the signer's key is still its own at each of the checks of an operation. */
  datatype KeyChecks = KeyChecks(atLoad: bool, atRequest: bool, beforeSave: bool, afterSave: bool, atEnd: bool)

  /** The clock readings of a provisioning: at its start and for each of the two answers. */
  datatype Clock = Clock(atStart: int, atInitial: int, atSession: int)

  /**
   * What a coordinator does with its stored session; `reply` is only asked for when a refresh is due, and is
   * parsed at a later reading of the clock.
   */
  datatype Plan =
    | Lost | Absent | Keep | TooLate | Replaced | Renew(next: Snapshot) | Unreadable | Stop(problem: Problem)

  function PlanFor(stored: Option<Snapshot>, signerIdentity: string, refreshLeeway: int, maximumSkew: int,
                   forceRefresh: bool, now: int, later: int, reply: Reply, checks: KeyChecks): Plan {
    if !checks.atLoad then Lost
    else if stored.None? || stored.value.component.jkt != signerIdentity then Absent
    else if !forceRefresh && stored.value.accessExpiresAt - refreshLeeway > now then Keep
    else if stored.value.refreshExpiresAt - refreshLeeway <= now then TooLate
    else if !checks.atRequest then Replaced
    else if reply.Refused? then Stop(reply.problem)
    else
      var next := ParseRefreshed(reply.reply, NextExpectation(stored.value, signerIdentity), later, maximumSkew);
      if next.None? then Unreadable
      else if !checks.beforeSave || !checks.afterSave then Replaced
      else Renew(next.value)
  }

  /** At every check around a provisioning the key was still the signer's own. */
  predicate KeyKept(checks: KeyChecks) {
    checks.atRequest && checks.beforeSave && checks.afterSave
  }

  /** The coordinator of one component; its store and the reset of its key fail only if they are faulty. */
  class ComponentSessionCoordinator {
    const definitionId: string
    const platform: string
    const signerIdentity: string
    const refreshLeeway: int
    const maximumSkew: int
    const faulty: bool
    var store: Option<Snapshot>
    var localRetirementComplete: bool
    ghost var origin: Option<Provisioning>

    /** What is stored descends from the provisioning that the ghost field remembers. */
    ghost predicate Valid()
      reads this
    {
      store.Some? ==>
        origin.Some? && AsProvisioned(origin.value, store.value, platform, store.value.component.jkt)
    }

    constructor (definitionId: string, platform: string, signerIdentity: string, refreshLeeway: int, maximumSkew: int,
                 faulty: bool, stored: Option<Snapshot>, ghost origin: Option<Provisioning>)
      requires stored.Some? ==>
        origin.Some? && AsProvisioned(origin.value, stored.value, platform, stored.value.component.jkt)
      ensures Valid() && store == stored && !localRetirementComplete && this.origin == origin && this.faulty == faulty
    {
      this.definitionId, this.platform, this.signerIdentity := definitionId, platform, signerIdentity;
      this.refreshLeeway, this.maximumSkew, this.faulty := refreshLeeway, maximumSkew, faulty;
      store, localRetirementComplete := stored, false;
      this.origin := origin;
    }

    /** Whether an I/O step works. */
    method Works() returns (yes: bool)
      ensures !yes ==> faulty
    {
      yes := *;
      yes := yes || !faulty;
    }

    function Plan(forceRefresh: bool, now: int, later: int, reply: Reply, checks: KeyChecks): Plan
      reads this
    {
      PlanFor(store, signerIdentity, refreshLeeway, maximumSkew, forceRefresh, now, later, reply, checks)
    }

    /** A signer whose key is gone destroys the state, and the operation stops. */
    method EnsureSignerCurrent(current: bool) returns (destroyed: bool)
      requires Valid()
      modifies this`store
      ensures Valid()
      ensures if current then !destroyed && store == old(store) else if destroyed then store.None? else faulty
      ensures store == old(store) || store.None?
    {
      destroyed := false;
      if !current {
        destroyed := Works();
        if destroyed {
          store := None;
        }
      }
    }

    /** The stored session; one of another key is destroyed instead. */
    method LoadCurrent(current: bool) returns (r: Option<Snapshot>)
      requires Valid()
      modifies this`store
      ensures Valid() && (store == old(store) || store.None?)
      ensures r.Some? ==> current && r == store && r == old(store) && r.value.component.jkt == signerIdentity
      ensures r.None? && !faulty ==>
        store.None? && (!current || old(store).None? || old(store).value.component.jkt != signerIdentity)
    {
      var _ := EnsureSignerCurrent(current);
      if !current || store.None? {
        return None;
      }
      var readable := Works();
      if !readable {
        return None;
      }
      if store.value.component.jkt != signerIdentity {
        var destroyed := Works();
        if destroyed {
          store := None;
        }
        return None;
      }
      return store;
    }

    /** Destroys the state, then the key; only then is the retirement complete. */
    method RetireLocal() returns (ok: bool)
      requires Valid()
      modifies this`store, this`localRetirementComplete
      ensures Valid() && (store == old(store) || store.None?)
      ensures if ok then localRetirementComplete && store.None? else faulty
      ensures old(localRetirementComplete) ==> localRetirementComplete
    {
      ok := Works();
      if ok {
        store := None;
      }
      var reset := Works();
      if reset {
        localRetirementComplete := true;
      } else {
        ok := false;
      }
    }

    /** Exchanges a fresh grant for a session and stores it. */
    method Provision(p: Provisioning, initial: InitialReply, refreshed: RefreshReply, clock: Clock, checks: KeyChecks)
      returns (ok: bool)
      requires Valid() && p.definitionId == definitionId
      modifies this`store, this`origin
      ensures Valid()
      ensures
        var acceptable :=
          && clock.atStart < p.grantExpiresAt && AcceptableInitial(initial, p.trustExpiresAt, clock.atInitial)
          && Acceptable(refreshed, FirstExpectation(p, platform, signerIdentity), clock.atSession, maximumSkew);
        && (ok ==> acceptable && KeyKept(checks) && origin == Some(p) && store.Some?)
        && (ok ==> GrantedBy(store.value, refreshed, clock.atSession))
        && (!ok && acceptable && KeyKept(checks) ==> faulty)
        && (!ok && acceptable && !KeyKept(checks) && !faulty ==> store.None?)
        && (!acceptable && checks.atRequest ==> store == old(store) && origin == old(origin))
    {
      InitialIff(initial, p.trustExpiresAt, clock.atInitial);
      AcceptedIff(refreshed, FirstExpectation(p, platform, signerIdentity), clock.atSession, maximumSkew);
      if p.grantExpiresAt <= clock.atStart {
        return false;
      }
      if !checks.atRequest {
        var _ := EnsureSignerCurrent(false);
        return false;
      }
      var first := ParseInitial(initial, clock.atInitial);
      if first.None? || first.value > p.trustExpiresAt {
        return false;
      }
      var expectation := FirstExpectation(p, platform, signerIdentity);
      var snapshot := ParseRefreshed(refreshed, expectation, clock.atSession, maximumSkew);
      if snapshot.None? {
        return false;
      }
      if !checks.beforeSave {
        var _ := EnsureSignerCurrent(false);
        return false;
      }
      FirstAsProvisioned(p, refreshed, clock.atSession, platform, signerIdentity, maximumSkew);
      var saved := Works();
      var applied: bool := *;
      if saved || applied {
        origin, store := Some(p), snapshot;
      }
      if !saved {
        return false;
      }
      var _ := EnsureSignerCurrent(checks.afterSave);
      ok := checks.afterSave;
    }

    /** A key that turns out to be replaced while a session is renewed retires the component. */
    method Replace() returns (ok: bool)
      requires Valid()
      modifies this`store, this`localRetirementComplete
      ensures Valid() && (store == old(store) || store.None?)
      ensures if ok then localRetirementComplete && store.None? else faulty
      ensures old(localRetirementComplete) ==> localRetirementComplete
    {
      ok := EnsureSignerCurrent(false);
      if ok {
        ok := RetireLocal();
      }
    }

    /**
     * The stored session while its access token is fresh, else a refreshed one that repeats its binding.
     * A refusal clears the session or retires the component where the problem says so; so does a key that
     * is found replaced during the refresh, but not one that was gone before.
     */
    method CurrentSession(forceRefresh: bool, now: int, later: int, reply: Reply, checks: KeyChecks)
      returns (r: Option<Snapshot>)
      requires Valid()
      modifies this`store, this`localRetirementComplete
      ensures Valid()
      ensures old(localRetirementComplete) ==> r.None? && store == old(store)
      ensures r.Some? ==> old(store).Some? && store == r && SameBinding(old(store).value, r.value)
      ensures r.Some? ==>
        var plan := old(Plan(forceRefresh, now, later, reply, checks));
        if plan.Keep? then r == old(store)
        else
          && plan == Renew(r.value) && reply.Granted? && GrantedBy(r.value, reply.reply, later)
          && Acceptable(reply.reply, NextExpectation(old(store).value, signerIdentity), later, maximumSkew)
      ensures r.None? && !faulty && !old(localRetirementComplete) ==>
        match old(Plan(forceRefresh, now, later, reply, checks))
        case Lost => store.None? && !localRetirementComplete
        case Absent => store.None? && !localRetirementComplete
        case TooLate => store == old(store) && !localRetirementComplete
        case Unreadable =>
          && store == old(store) && !localRetirementComplete
          && !Acceptable(reply.reply, NextExpectation(store.value, signerIdentity), later, maximumSkew)
        case Replaced => store.None? && localRetirementComplete
        case Stop(problem) =>
          && localRetirementComplete == problem.Terminal?
          && store == if problem.Other? then old(store) else None
        case _ => false
    {
      if localRetirementComplete {
        return None;
      }
      var loaded := LoadCurrent(checks.atLoad);
      if loaded.None? {
        return None;
      }
      var state := loaded.value;
      if !forceRefresh && state.accessExpiresAt - refreshLeeway > now {
        return Some(state);
      }
      if state.refreshExpiresAt - refreshLeeway <= now {
        return None;
      }
      if !checks.atRequest {
        var _ := Replace();
        return None;
      }
      match reply
      case Granted(granted) =>
        AcceptedIff(granted, NextExpectation(state, signerIdentity), later, maximumSkew);
        r := Renewed(state, granted, later, checks);
      case Refused(problem) =>
        Refuse(problem);
        return None;
    }

    /** The rest of a refresh once the reply is there: to parse it and to save it under a current key. */
    method Renewed(state: Snapshot, granted: RefreshReply, now: int, checks: KeyChecks) returns (r: Option<Snapshot>)
      requires Valid() && store == Some(state) && state.component.jkt == signerIdentity
      modifies this`store, this`localRetirementComplete
      ensures Valid()
      ensures var next := ParseRefreshed(granted, NextExpectation(state, signerIdentity), now, maximumSkew);
        if next.None? then r.None? && store == old(store) && localRetirementComplete == old(localRetirementComplete)
        else if checks.beforeSave && checks.afterSave then
          if r.Some? then r == next && store == next && SameBinding(state, r.value) else faulty
        else r.None? && (faulty || (store.None? && localRetirementComplete))
    {
      var next := ParseRefreshed(granted, NextExpectation(state, signerIdentity), now, maximumSkew);
      if next.None? {
        return None;
      }
      assert Succeeds(state, next.value, signerIdentity, maximumSkew);
      NextAsProvisioned(origin.value, state, next.value, platform, signerIdentity, maximumSkew);
      if !checks.beforeSave {
        var _ := Replace();
        return None;
      }
      var saved := Works();
      var applied: bool := *;
      if saved || applied {
        store := next;
      }
      if !saved {
        return None;
      }
      if !checks.afterSave {
        var _ := Replace();
        return None;
      }
      return next;
    }

    /** A terminal problem retires the component, the end of the session clears it, and others change nothing. */
    method Refuse(problem: Problem)
      requires Valid()
      modifies this`store, this`localRetirementComplete
      ensures Valid()
      ensures !faulty ==> localRetirementComplete == (problem.Terminal? || old(localRetirementComplete))
      ensures !faulty ==> store == if problem.Other? then old(store) else None
    {
      if problem.Terminal? {
        var _ := RetireLocal();
      } else if problem.EndsSession? {
        var cleared := Works();
        if cleared {
          store := None;
        }
      }
    }

    /** Headers exactly for a granted feature of the current session, when nothing fails. */
    method Authorize(feature: string, destinationAllowed: bool, now: int, later: int, reply: Reply, checks: KeyChecks)
      returns (token: Option<string>)
      requires Valid()
      modifies this`store, this`localRetirementComplete
      ensures Valid()
      ensures token.Some? ==>
        && destinationAllowed && !old(localRetirementComplete) && store.Some? && store.value.accessToken == token.value
        && origin.Some? && feature in origin.value.features && checks.atEnd
        && store.value.refreshExpiresAt <= origin.value.trustExpiresAt
      ensures token.Some? ==>
        var plan := old(Plan(false, now, later, reply, checks));
        && (plan.Keep? || (plan.Renew? && reply.Granted?))
        && token == Some(if plan.Keep? then old(store).value.accessToken else reply.reply.access)
        && now + refreshLeeway <
           (if plan.Keep? then old(store).value.accessExpiresAt else old(store).value.refreshExpiresAt)
      ensures token.None? && !faulty && destinationAllowed && checks.atEnd && !old(localRetirementComplete) ==>
        var plan := old(Plan(false, now, later, reply, checks));
        (plan.Keep? || plan.Renew?) ==> feature !in old(store).value.component.features
    {
      if !destinationAllowed {
        return None;
      }
      var state := CurrentSession(false, now, later, reply, checks);
      if state.None? || feature !in state.value.component.features {
        return None;
      }
      if !checks.atEnd {
        var _ := EnsureSignerCurrent(false);
        return None;
      }
      return Some(state.value.accessToken);
    }

    /** Clears exactly the generation that the caller names by its access token. */
    method ClearSessionIfCurrent(accessToken: string, keyCurrent: bool) returns (ok: bool)
      requires Valid()
      modifies this`store
      ensures Valid() && (store == old(store) || store.None?)
      ensures ok ==> keyCurrent && old(store).Some?
      ensures ok ==> store == if old(store).value.accessToken == accessToken then None else old(store)
      ensures !ok && !faulty ==> !keyCurrent || old(store).None? || old(store).value.component.jkt != signerIdentity
    {
      var current := LoadCurrent(keyCurrent);
      ok := current.Some?;
      if ok && current.value.accessToken == accessToken {
        ok := Works();
        if ok {
          store := None;
        }
      }
    }
  }
}
