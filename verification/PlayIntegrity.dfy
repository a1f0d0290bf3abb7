/**
 * The Play Integrity provider: bounded retries with capped doubling of the delay, and renewal of a shared
 * provider that any number of concurrent requests may find invalid. Regions under the warm-up mutex are
 * functions on the shared state; between them other requests may run any number of regions of their own.
 */
module PlayIntegrity {
  import opened Prelude

  // ---------- The shared state ----------

  /** `log` lists the generation at each invalidation, over all requests. */
  datatype Shared = Shared(prepared: bool, generation: nat, log: seq<nat>)

  /** How an invalid provider is resolved; the last two end the request, by a failure or before any effect. */
  datatype Resolution =
    | Stale(generation: nat) | Renewed(generation: nat) | Exhausted(generation: nat) | Unprepared | Cancelled

  /** Whether the calls that a resolution makes return: the invalidation, and the preparation. */
  datatype Calls = Calls(invalidates: bool, prepares: bool)

  const START := Shared(false, 0, [])

  function Prepare(sh: Shared): Shared {
    sh.(prepared := true, generation := sh.generation + 1)
  }

  /** prepareLocked: nothing to do, a new generation, or a failure that leaves the provider unprepared. */
  function WarmUp(sh: Shared, works: bool): Shared {
    if !sh.prepared && works then Prepare(sh) else sh
  }

  function Invalidate(sh: Shared): Shared {
    sh.(prepared := false, log := sh.log + [sh.generation])
  }

  /** resolveInvalidProvider; a cancelled invalidation has not reached the provider. */
  function Resolve(sh: Shared, observed: nat, allowRenewal: bool, calls: Calls): (Shared, Resolution) {
    if !sh.prepared then
      if calls.prepares then (Prepare(sh), Stale(sh.generation + 1)) else (sh, Unprepared)
    else if sh.generation != observed then (sh, Stale(sh.generation))
    else if !allowRenewal then (sh, Exhausted(sh.generation))
    else if !calls.invalidates then (sh, Cancelled)
    else if calls.prepares then (Prepare(Invalidate(sh)), Renewed(sh.generation + 1))
    else (Invalidate(sh), Unprepared)
  }

  /** One region under the mutex, by any request, whatever it has observed. */
  ghost predicate Region(sh: Shared, sh': Shared) {
    || (exists works :: sh' == WarmUp(sh, works))
    || (exists observed, allowRenewal, calls :: sh' == Resolve(sh, observed, allowRenewal, calls).0)
  }

  ghost predicate Regions(run: seq<Shared>) {
    |run| > 0 && forall i :: 0 < i < |run| ==> Region(run[i - 1], run[i])
  }

  ghost predicate Reaches(sh: Shared, sh': Shared) {
    exists run :: Regions(run) && run[0] == sh && run[|run| - 1] == sh'
  }

  // ---------- Every generation is invalidated at most once ----------

  predicate NoRepeats(log: seq<nat>) {
    forall i, j :: 0 <= i < j < |log| ==> log[i] != log[j]
  }

  /** Generations in the log have passed, and a prepared generation is not in it. */
  predicate Inv(sh: Shared) {
    && NoRepeats(sh.log)
    && (forall i :: 0 <= i < |sh.log| ==> sh.log[i] <= sh.generation)
    && (sh.prepared ==> forall i :: 0 <= i < |sh.log| ==> sh.log[i] < sh.generation)
  }

  lemma RegionKeepsInv(sh: Shared, sh': Shared)
    requires Inv(sh) && Region(sh, sh')
    ensures Inv(sh') && sh.generation <= sh'.generation && sh.log <= sh'.log
  {
  }

  lemma {:induction false} RunKeepsInv(run: seq<Shared>, k: nat)
    requires Regions(run) && Inv(run[0]) && k < |run|
    ensures Inv(run[k]) && run[0].generation <= run[k].generation && run[0].log <= run[k].log
  {
    hide Region, Inv;
    if k > 0 {
      RunKeepsInv(run, k - 1);
      RegionKeepsInv(run[k - 1], run[k]);
    }
  }

  /** Over all requests, interleaved in any way, no provider generation is invalidated twice. */
  lemma InvalidatedAtMostOnce(run: seq<Shared>, k: nat)
    requires Regions(run) && run[0] == START && k < |run|
    ensures NoRepeats(run[k].log) && forall i :: 0 <= i < |run[k].log| ==> 1 <= run[k].log[i] <= run[k].generation
  {
    RunKeepsInv(run, k);
    LogPositive(run, k);
  }

  lemma {:induction false} LogPositive(run: seq<Shared>, k: nat)
    requires Regions(run) && run[0] == START && k < |run|
    ensures forall i :: 0 <= i < |run[k].log| ==> 1 <= run[k].log[i]
    ensures run[k].prepared ==> run[k].generation >= 1
  {
    if k > 0 {
      LogPositive(run, k - 1);
      assert Region(run[k - 1], run[k]);
    }
  }

  /** Generations only grow, whatever other requests do. */
  lemma ReachesGrows(sh: Shared, sh': Shared)
    requires Inv(sh) && Reaches(sh, sh')
    ensures sh.generation <= sh'.generation
  {
    var run :| Regions(run) && run[0] == sh && run[|run| - 1] == sh';
    RunKeepsInv(run, |run| - 1);
  }

  lemma ReachesItself(sh: Shared)
    ensures Reaches(sh, sh)
  {
    var run := [sh];
    assert Regions(run) && run[0] == sh && run[|run| - 1] == sh;
  }

  lemma ReachesFurther(a: Shared, b: Shared, c: Shared)
    requires Reaches(a, b) && Reaches(b, c)
    ensures Reaches(a, c)
  {
    hide Region;
    var first :| Regions(first) && first[0] == a && first[|first| - 1] == b;
    var second :| Regions(second) && second[0] == b && second[|second| - 1] == c;
    var run := first + second[1..];
    forall i | 0 < i < |run| ensures Region(run[i - 1], run[i]) {
      if i < |first| {
        assert run[i - 1] == first[i - 1] && run[i] == first[i];
      } else {
        assert run[i] == second[i - |first| + 1];
        assert run[i - 1] == second[i - |first|];
      }
    }
    assert Regions(run) && run[0] == a && run[|run| - 1] == c;
  }

  lemma ReachesByRegion(sh: Shared, sh': Shared)
    requires Region(sh, sh')
    ensures Reaches(sh, sh')
  {
    hide Region;
    var run := [sh, sh'];
    assert Regions(run) && run[0] == sh && run[|run| - 1] == sh';
  }

  // ---------- Retries ----------

  datatype Policy = Policy(maximumAttempts: nat, initialDelayMillis: nat, maximumDelayMillis: nat)

  predicate PolicyOk(policy: Policy) {
    && 1 <= policy.maximumAttempts <= 5
    && 50 <= policy.initialDelayMillis <= 5_000
    && policy.initialDelayMillis <= policy.maximumDelayMillis <= 10_000
  }

  function Doubled(base: nat, k: nat): nat {
    if k == 0 then base else 2 * Doubled(base, k - 1)
  }

  /** The delay before the k-th retry: doubled each time, up to the maximum. */
  function Delay(policy: Policy, k: nat): nat {
    var delay := Doubled(policy.initialDelayMillis, k);
    if delay < policy.maximumDelayMillis then delay else policy.maximumDelayMillis
  }

  /** How one gateway call ends. */
  datatype Outcome = Token(token: string) | ProviderInvalid | Transient | Failure

  /** How an action with retries ends: with a value, with the invalid-provider code, or for good. */
  datatype Attempt = Done(token: string) | InvalidProvider | Thrown

  /** The capped delay after another doubling, as the loop updates it. */
  lemma DelayDoubles(policy: Policy, k: nat)
    requires PolicyOk(policy)
    ensures var next := Delay(policy, k) * 2;
      Delay(policy, k + 1) == if next < policy.maximumDelayMillis then next else policy.maximumDelayMillis
  {
  }

  /** How an action ends whose last gateway call had the given outcome. */
  function Verdict(last: Outcome, propagateInvalidProvider: bool): Attempt {
    if last.Token? then Done(last.token)
    else if last.ProviderInvalid? && propagateInvalidProvider then InvalidProvider
    else Thrown
  }

  // ---------- Rounds of a request ----------

  /** One resolution of a request: the state it found and left, the generation it was for, and its answer. */
  datatype Round = Round(before: Shared, observed: nat, allowed: bool, resolution: Resolution, after: Shared)

  /** The answer reports a newer generation, or is about the observed one. */
  predicate RoundOk(r: Round) {
    match r.resolution
    case Stale(g) => g > r.observed && r.after.prepared && r.after.generation == g && r.after.log == r.before.log
    case Renewed(g) =>
      && r.allowed && g == r.observed + 1 && r.before.prepared && r.before.generation == r.observed
      && r.after == Shared(true, g, r.before.log + [r.observed])
    case Exhausted(g) => !r.allowed && g == r.observed && r.before.prepared && r.after == r.before
    case Unprepared => !r.after.prepared
    case Cancelled => r.after == r.before
  }

  /** Each round is for the generation that the round before it reported, the first for the given one. */
  predicate Follows(rounds: seq<Round>, first: nat) {
    && (rounds != [] ==> rounds[0].observed == first)
    && (forall k :: 0 <= k < |rounds| - 1 ==>
          && (rounds[k].resolution.Stale? || rounds[k].resolution.Renewed?)
          && rounds[k + 1].observed == rounds[k].resolution.generation)
    && (forall k :: 0 <= k < |rounds| ==> RoundOk(rounds[k]))
    && (forall k :: 0 <= k < |rounds| ==>
          (rounds[k].allowed <==> forall j :: 0 <= j < k ==> !rounds[j].resolution.Renewed?))
  }

  /** The generations a request is about strictly increase, so no stale answer is reported twice. */
  lemma {:induction false} ObservedIncreases(rounds: seq<Round>, first: nat, j: nat, k: nat)
    requires Follows(rounds, first) && j < k < |rounds|
    ensures rounds[j].observed < rounds[k].observed
  {
    assert RoundOk(rounds[k - 1]);
    if j < k - 1 {
      ObservedIncreases(rounds, first, j, k - 1);
    }
  }

  /** Unless another region intervenes, an answer that a newer generation is there is not given twice in a row. */
  predicate NeverStaleTwice(rounds: seq<Round>) {
    forall k :: 0 <= k < |rounds| - 1 && rounds[k].resolution.Stale? && rounds[k + 1].before == rounds[k].after ==>
      !rounds[k + 1].resolution.Stale?
  }

  predicate NoneRenewed(rounds: seq<Round>) {
    forall j :: 0 <= j < |rounds| ==> !rounds[j].resolution.Renewed?
  }

  lemma NoRounds(first: nat)
    ensures Follows([], first) && NeverStaleTwice([]) && NoneRenewed([])
  {
  }

  lemma RoundAdded(rounds: seq<Round>, first: nat, r: Round)
    requires Follows(rounds, first) && NeverStaleTwice(rounds) && RoundOk(r)
    requires r.resolution.Stale? ==> !r.before.prepared || r.before.generation != r.observed
    requires if rounds == [] then r.observed == first else
               var last := rounds[|rounds| - 1].resolution;
               (last.Stale? || last.Renewed?) && r.observed == last.generation
    requires r.allowed <==> NoneRenewed(rounds)
    ensures Follows(rounds + [r], first) && NeverStaleTwice(rounds + [r])
    ensures NoneRenewed(rounds + [r]) <==> NoneRenewed(rounds) && !r.resolution.Renewed?
  {
    var longer, n := rounds + [r], |rounds|;
    assert rounds != [] ==> RoundOk(rounds[n - 1]);
    hide RoundOk;
    forall k | 0 <= k < n ensures longer[k] == rounds[k] {
    }
    assert longer[n] == r;
  }

  class Provider {
    const policy: Policy
    var prepared: bool
    var providerGeneration: nat
    ghost var log: seq<nat>

    ghost function Abs(): Shared
      reads this
    {
      Shared(prepared, providerGeneration, log)
    }

    ghost predicate Valid()
      reads this
    {
      PolicyOk(policy) && Inv(Abs())
    }

    constructor (policy: Policy)
      requires PolicyOk(policy)
      ensures this.policy == policy && Abs() == START && Valid()
    {
      this.policy := policy;
      prepared, providerGeneration, log := false, 0, [];
    }

    /** A call to the gateway; the answer is up to the environment. */
    method Call() returns (outcome: Outcome)
    {
      outcome := *;
    }

    /** Retries transient failures, with the delays it slept in between; `answers` are the outcomes so far. */
    method RunWithRetry(propagateInvalidProvider: bool)
      returns (r: Attempt, answers: seq<Outcome>, delays: seq<nat>)
      requires PolicyOk(policy)
      ensures 1 <= |answers| <= policy.maximumAttempts && |delays| == |answers| - 1
      ensures forall k :: 0 <= k < |delays| ==> answers[k].Transient? && delays[k] == Delay(policy, k)
      ensures answers[|answers| - 1].Transient? ==> |answers| == policy.maximumAttempts
      ensures r == Verdict(answers[|answers| - 1], propagateInvalidProvider)
    {
      answers, delays := [], [];
      var delayMillis := policy.initialDelayMillis;
      while |answers| < policy.maximumAttempts
        invariant |delays| == |answers| < policy.maximumAttempts
        invariant delayMillis == Delay(policy, |answers|)
        invariant forall k :: 0 <= k < |delays| ==> answers[k].Transient? && delays[k] == Delay(policy, k)
      {
        var outcome := Call();
        answers := answers + [outcome];
        if outcome.Token? {
          return Done(outcome.token), answers, delays;
        }
        if propagateInvalidProvider && outcome.ProviderInvalid? {
          return InvalidProvider, answers, delays;
        }
        if !outcome.Transient? || |answers| >= policy.maximumAttempts {
          return Thrown, answers, delays;
        }
        delays := delays + [delayMillis];
        DelayDoubles(policy, |answers| - 1);
        delayMillis := delayMillis * 2;
        if delayMillis > policy.maximumDelayMillis {
          delayMillis := policy.maximumDelayMillis;
        }
      }
    }

    /** Prepares a provider unless there is one; the caller holds the mutex. */
    method PrepareLocked() returns (works: bool)
      requires Valid()
      modifies this
      ensures Valid() && Abs() == WarmUp(old(Abs()), works)
      ensures old(prepared) ==> works
    {
      if prepared {
        return true;
      }
      var r, _, _ := RunWithRetry(false);
      works := r.Done?;
      if works {
        prepared := true;
        providerGeneration := providerGeneration + 1;
      }
    }

    /** Drops the provider, unless the request is cancelled while it waits to do so. */
    method Invalidate() returns (done: bool)
      modifies this`log
      ensures log == if done then old(log) + [providerGeneration] else old(log)
    {
      done := *;
      if done {
        log := log + [providerGeneration];
      }
    }

    /**
     * Decides, under the mutex, what an invalid provider means for a request that observed a generation: a
     * provider that is gone is prepared, a newer one is reported, a second renewal is refused, and otherwise
     * exactly the observed generation is invalidated and replaced.
     */
    method ResolveInvalidProvider(observedGeneration: nat, allowRenewal: bool)
      returns (resolution: Resolution, ghost calls: Calls)
      requires Valid()
      modifies this
      ensures Valid() && (Abs(), resolution) == Resolve(old(Abs()), observedGeneration, allowRenewal, calls)
      ensures !old(prepared) && !prepared ==> Abs() == old(Abs()) && resolution == Unprepared
      ensures !old(prepared) && prepared ==>
        Abs() == Shared(true, old(providerGeneration) + 1, old(log)) && resolution == Stale(providerGeneration)
      ensures old(prepared) && old(providerGeneration) != observedGeneration ==>
        Abs() == old(Abs()) && resolution == Stale(providerGeneration)
      ensures old(prepared) && old(providerGeneration) == observedGeneration && !allowRenewal ==>
        Abs() == old(Abs()) && resolution == Exhausted(providerGeneration)
      ensures old(prepared) && old(providerGeneration) == observedGeneration && allowRenewal ==>
        match resolution
        case Renewed(g) =>
          && g == observedGeneration + 1
          && Abs() == Shared(true, observedGeneration + 1, old(log) + [observedGeneration])
        case Unprepared => Abs() == Shared(false, observedGeneration, old(log) + [observedGeneration])
        case Cancelled => Abs() == old(Abs())
        case _ => false
    {
      ghost var before := Abs();
      calls := Calls(true, true);
      if !prepared {
        var ok := PrepareLocked();
        calls := Calls(true, ok);
        return if ok then Stale(providerGeneration) else Unprepared, calls;
      }
      if providerGeneration != observedGeneration {
        return Stale(providerGeneration), calls;
      }
      if !allowRenewal {
        return Exhausted(providerGeneration), calls;
      }
      var done := Invalidate();
      if !done {
        return Cancelled, Calls(false, true);
      }
      RegionKeepsInv(before, Resolve(before, observedGeneration, true, Calls(true, false)).0);
      prepared := false;
      var ok := PrepareLocked();
      calls := Calls(true, ok);
      return if ok then Renewed(providerGeneration) else Unprepared, calls;
    }

    /** The same, with a record of the round. */
    method ResolveRound(observedGeneration: nat, allowRenewal: bool) returns (resolution: Resolution, ghost round: Round)
      requires Valid() && observedGeneration <= providerGeneration
      modifies this
      ensures Valid() && Reaches(old(Abs()), Abs()) && providerGeneration >= old(providerGeneration)
      ensures round == Round(old(Abs()), observedGeneration, allowRenewal, resolution, Abs()) && RoundOk(round)
      ensures resolution.Stale? ==> !round.before.prepared || round.before.generation != observedGeneration
      ensures resolution.Stale? || resolution.Renewed? ==> resolution.generation == providerGeneration
      ensures |old(log)| <= |log| <= |old(log)| + (if allowRenewal then 1 else 0)
      ensures resolution.Renewed? ==> allowRenewal && |log| == |old(log)| + 1
      ensures resolution.Stale? ==> |log| == |old(log)|
    {
      ghost var here := Abs();
      ghost var calls;
      resolution, calls := ResolveInvalidProvider(observedGeneration, allowRenewal);
      round := Round(here, observedGeneration, allowRenewal, resolution, Abs());
      assert Abs() == Resolve(here, observedGeneration, allowRenewal, calls).0;
      ReachesByRegion(here, Abs());
    }

    /** What other requests do while this one is suspended outside the mutex: any number of regions. */
    method Interfere()
      requires Valid()
      modifies this
      ensures Valid() && Reaches(old(Abs()), Abs())
    {
      ghost var before := Abs();
      ReachesItself(before);
      var regions: int := *;
      while regions > 0
        invariant Valid() && Reaches(before, Abs())
      {
        ghost var here := Abs();
        var warmUp: bool, observed: nat, allowRenewal: bool := *, *, *;
        if warmUp {
          var works := PrepareLocked();
          assert Abs() == WarmUp(here, works);
        } else {
          var _, calls := ResolveInvalidProvider(observed, allowRenewal);
          assert Abs() == Resolve(here, observed, allowRenewal, calls).0;
        }
        ReachesByRegion(here, Abs());
        ReachesFurther(before, here, Abs());
        regions := regions - 1;
      }
    }

    /**
     * Requests a token. However other requests interleave, it ends after at most m(m + 2) calls to the
     * gateway's request and at most one invalidation of its own. It fails only after an answer that is not
     * a token, and gives an invalid provider up only when the renewal was spent, a preparation failed, it was
     * cancelled, or more than m stale observations were resolved.
     */
    method RequestToken()
      returns (r: Option<string>, answers: seq<Outcome>, ghost rounds: seq<Round>, ghost invalidations: nat)
      requires Valid()
      modifies this
      ensures Valid() && Reaches(old(Abs()), Abs())
      ensures 1 <= |answers| <= policy.maximumAttempts * (policy.maximumAttempts + 2)
      ensures invalidations <= 1 && |rounds| <= policy.maximumAttempts + 2
      ensures Follows(rounds, old(providerGeneration))
      ensures NeverStaleTwice(rounds)
      ensures var last := answers[|answers| - 1];
        && r == (if last.Token? then Some(last.token) else None)
        && (last.Transient? ==> |answers| >= policy.maximumAttempts)
        && (last.ProviderInvalid? ==>
              && rounds != []
              && var final := rounds[|rounds| - 1].resolution;
                 || final.Unprepared? || final.Cancelled? || final.Exhausted?
                 || (final.Stale? && |rounds| > policy.maximumAttempts))
    {
      hide Reaches, Follows, NeverStaleTwice, NoneRenewed, RoundOk, Inv, Delay;
      ghost var start := Abs();
      ReachesItself(start);
      NoRounds(start.generation);
      r, answers, rounds, invalidations := None, [], [], 0;
      var observedGeneration := providerGeneration;
      var providerRenewalAvailable, staleRetriesRemaining := true, policy.maximumAttempts;
      while true
        invariant Valid() && Reaches(start, Abs())
        invariant 0 <= staleRetriesRemaining <= policy.maximumAttempts
        invariant |rounds| + staleRetriesRemaining + (if providerRenewalAvailable then 1 else 0)
               == policy.maximumAttempts + 1
        invariant |answers| <= policy.maximumAttempts * |rounds|
        invariant invalidations == if providerRenewalAvailable then 0 else 1
        invariant r == None
        invariant Follows(rounds, start.generation) && observedGeneration <= providerGeneration
        invariant rounds == [] ==> observedGeneration == start.generation
        invariant rounds != [] ==>
          var last := rounds[|rounds| - 1].resolution;
          (last.Stale? || last.Renewed?) && observedGeneration == last.generation
        invariant providerRenewalAvailable <==> NoneRenewed(rounds)
        invariant NeverStaleTwice(rounds)
        decreases staleRetriesRemaining + if providerRenewalAvailable then 1 else 0
      {
        var attempt, more, _ := RunWithRetry(true);
        RoundBound(policy.maximumAttempts, |rounds|, |answers|, |more|);
        answers := answers + more;
        ghost var before := Abs();
        Interfere();
        ReachesGrows(before, Abs());
        ReachesFurther(start, before, Abs());
        if attempt.Done? {
          r := Some(attempt.token);
          return;
        }
        if attempt.Thrown? {
          return;
        }
        ghost var here := Abs();
        var resolution;
        ghost var round;
        resolution, round := ResolveRound(observedGeneration, providerRenewalAvailable);
        ReachesFurther(start, here, Abs());
        invalidations := invalidations + |Abs().log| - |here.log|;
        RoundAdded(rounds, start.generation, round);
        rounds := rounds + [round];
        if resolution.Unprepared? || resolution.Cancelled? || resolution.Exhausted? {
          return;
        }
        if resolution.Stale? {
          if staleRetriesRemaining == 0 {
            return;
          }
          staleRetriesRemaining := staleRetriesRemaining - 1;
        } else {
          providerRenewalAvailable := false;
        }
        observedGeneration := resolution.generation;
      }
    }
  }

  /** One more round of at most m calls, out of at most m + 2. */
  lemma RoundBound(m: nat, rounds: nat, requests: nat, attempts: nat)
    requires attempts <= m && requests <= m * rounds && rounds <= m + 1
    ensures requests + attempts <= m * (rounds + 1) <= m * (m + 2)
  {
    assert m * (rounds + 1) == m * rounds + m;
    assert m * (m + 2) == m * (rounds + 1) + m * (m + 1 - rounds);
    assert m * (m + 1 - rounds) >= 0;
  }
}
