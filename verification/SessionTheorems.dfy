/** Whole-run theorems about the session protocol. */
module SessionTheorems {
  import opened Prelude
  import opened SessionModel
  import opened SessionSafety

  /** All invariants; the last two hold under the wiring conditions they name. */
  ghost predicate Invariant(w: Wiring, s: State) {
    && Exclusive(w, s) && RetireInv(w, s) && HomeInv(w, s) && TargetInv(w, s)
    && (OneSessionPerStore(w) ==> OrderInv(w, s))
    && (UnboundStoresOwned(w) ==> ClearInv(w, s))
  }

  lemma {:induction false} RunInvariant(w: Wiring, t: seq<State>, i: nat)
    requires Run(w, t) && i < |t|
    ensures Invariant(w, t[i])
  {
    if i > 0 {
      RunInvariant(w, t, i - 1);
      assert Next(w, t[i - 1], t[i]);
      var a :| Apply(w, t[i - 1], a) == Some(t[i]);
      ExclusiveNext(w, t[i - 1], a);
      RetireNext(w, t[i - 1], a);
      HomeNext(w, t[i - 1], a);
      TargetNext(w, t[i - 1], a);
      if OneSessionPerStore(w) {
        OrderNext(w, t[i - 1], a);
      }
      if UnboundStoresOwned(w) {
        ClearNext(w, t[i - 1], a);
      }
    }
  }

  lemma NobodyAtFirst(w: Wiring, t: seq<State>)
    requires Run(w, t)
    ensures t[0].procs == []
  {
  }

  /** What never goes back: retirement, recorded clears, and the identity of every process. */
  predicate Grows(s: State, s': State) {
    && s.shared.retired <= s'.shared.retired
    && s.shared.cleared <= s'.shared.cleared
    && |s.procs| <= |s'.procs|
    && forall p :: 0 <= p < |s.procs| ==> s'.procs[p].root == s.procs[p].root && s'.procs[p].stale == s.procs[p].stale
  }

  predicate KeepsStale(proc: Proc, step: Step) {
    step.Step? ==> step.next.root == proc.root && step.next.stale == proc.stale
  }

  lemma MoveKeepsStale(w: Wiring, s: State, p: nat, ch: Choice)
    requires p < |s.procs| && s.procs[p].root < |w.roots|
    ensures KeepsStale(s.procs[p], Move(w, s, p, ch))
  {
    var proc := s.procs[p];
    if proc.pc.Clearing? {
      assert KeepsStale(proc, MoveClearing(w, s.shared, proc, ch));
    } else if IsTask(proc.pc) {
      assert KeepsStale(proc, MoveTask(w, s.shared, proc, ch));
    } else if NonCancellable(proc.pc) {
      assert KeepsStale(proc, MoveCleanup(w, s.shared, proc, ch));
    } else if IsComponent(proc.pc) {
      assert KeepsStale(proc, MoveComponent(w, s.shared, proc, ch));
    } else {
      assert KeepsStale(proc, MoveCaller(w, s, proc, ch));
    }
  }

  lemma NextGrows(w: Wiring, s: State, s': State)
    requires Next(w, s, s')
    ensures Grows(s, s')
  {
    var a :| Apply(w, s, a) == Some(s');
    if a.Advance? {
      MoveEffect(w, s, a.p, a.choice);
      MoveKeepsStale(w, s, a.p, a.choice);
    }
  }

  lemma GrowsFurther(s: State, s': State, s'': State)
    requires Grows(s, s') && Grows(s', s'')
    ensures Grows(s, s'')
  {
    forall p | 0 <= p < |s.procs|
      ensures s''.procs[p].root == s.procs[p].root && s''.procs[p].stale == s.procs[p].stale
    {
      assert s'.procs[p].root == s.procs[p].root;
      assert s''.procs[p].root == s'.procs[p].root;
    }
  }

  lemma GrowsItself(s: State)
    ensures Grows(s, s)
  {
  }

  lemma StepGrows(w: Wiring, t: seq<State>, j: nat)
    requires Run(w, t) && 0 < j < |t|
    ensures Grows(t[j - 1], t[j])
  {
    hide Grows, Initial;
    assert Next(w, t[j - 1], t[j]);
    NextGrows(w, t[j - 1], t[j]);
  }

  lemma {:induction false} RunGrows(w: Wiring, t: seq<State>, i: nat, j: nat)
    requires Run(w, t) && i <= j < |t|
    ensures Grows(t[i], t[j])
    decreases j
  {
    hide Grows, Run;
    if i < j {
      StepGrows(w, t, j);
      RunGrows(w, t, i, j - 1);
      GrowsFurther(t[i], t[j - 1], t[j]);
    } else {
      GrowsItself(t[i]);
    }
  }

  predicate BoundTo(s: State, store: StoreId, key: Key) {
    store in s.shared.stores && s.shared.stores[store].jkt == key
  }

  /** The program points of a cleanup after its clear of the store has succeeded. */
  predicate HasCleared(pc: Pc) {
    pc == WantReset(true) || pc == Resetting(true) || (pc.Finish? && pc.cleared)
  }

  /**
   * Once the cleanup of one coordinator has cleared its store, that store never again holds a snapshot
   * bound to the retired key, whatever any coordinator does afterwards.
   */
  lemma ClearedForGood(w: Wiring, t: seq<State>, i: nat, j: nat, p: nat)
    requires Run(w, t) && i <= j < |t| && p < |t[i].procs|
    requires t[i].procs[p].root < |w.roots| && HasCleared(t[i].procs[p].pc)
    ensures var root := w.roots[t[i].procs[p].root]; !BoundTo(t[j], root.store, KeyOf(root))
  {
    RunInvariant(w, t, i);
    RunInvariant(w, t, j);
    RunGrows(w, t, i, j);
    var root := w.roots[t[i].procs[p].root];
    assert RetireLocal(w, t[i].shared, t[i].procs[p]);
    assert (root.store, KeyOf(root)) in t[j].shared.cleared;
  }

  /** A coordinator marks its cleanup complete only when its store is cleared for good and its key was reset. */
  lemma CompleteCleanup(w: Wiring, t: seq<State>, i: nat, j: nat, c: nat)
    requires Run(w, t) && i <= j < |t| && c in t[i].shared.cleaned
    ensures c < |w.roots|
    ensures var root := w.roots[c]; !BoundTo(t[j], root.store, KeyOf(root)) && KeyOf(root) in t[j].shared.retired
    ensures w.roots[c].resettable ==> t[i].shared.resets[KeyOf(w.roots[c])] == 1
  {
    RunInvariant(w, t, i);
    RunInvariant(w, t, j);
    RunGrows(w, t, i, j);
    var root := w.roots[c];
    assert (root.store, KeyOf(root)) in t[j].shared.cleared;
  }

  /** Over all coordinators of a key, at most one coordinated reset succeeds. */
  lemma ResetAtMostOnce(w: Wiring, t: seq<State>, i: nat, key: Key)
    requires Run(w, t) && i < |t|
    ensures t[i].shared.resets[key] <= 1
  {
    RunInvariant(w, t, i);
  }

  /** An operation that begins after the retirement of its key never obtains authorization headers. */
  lemma NoHeadersOnceRetired(w: Wiring, t: seq<State>, i: nat, j: nat, p: nat)
    requires Run(w, t) && i < j < |t|
    requires p == |t[i].procs| < |t[i + 1].procs|
    requires t[i + 1].procs[p].root < |w.roots| && KeyOf(w.roots[t[i + 1].procs[p].root]) in t[i].shared.retired
    ensures p < |t[j].procs| && !t[j].procs[p].pc.Authorized?
  {
    RunInvariant(w, t, i);
    RunInvariant(w, t, j);
    RunGrows(w, t, i + 1, j);
    assert Next(w, t[i], t[i + 1]);
    var a :| Apply(w, t[i], a) == Some(t[i + 1]);
    BeginsStale(w, t[i], a, p);
    assert RetireLocal(w, t[j].shared, t[j].procs[p]);
  }

  lemma BeginsStale(w: Wiring, s: State, a: Action, p: nat)
    requires Exclusive(w, s) && RetireInv(w, s) && Apply(w, s, a).Some?
    requires p == |s.procs| < |Apply(w, s, a).value.procs|
    requires var proc := Apply(w, s, a).value.procs[p];
             proc.root < |w.roots| && KeyOf(w.roots[proc.root]) in s.shared.retired
    ensures Apply(w, s, a).value.procs[p].stale
  {
    if a.Advance? {
      MoveLocks(w, s, a.p, a.choice);
      SpawnsOnlyActive(w, s, a.p, a.choice);
    }
  }

  predicate SpawnActive(w: Wiring, sh: Shared, proc: Proc, step: Step)
    requires proc.root < |w.roots|
  {
    step.Step? && step.spawn.Some? ==> KeyOf(w.roots[proc.root]) !in sh.retired
  }

  lemma CallerSpawns(w: Wiring, s: State, proc: Proc, ch: Choice)
    requires proc.root < |w.roots|
    ensures SpawnActive(w, s.shared, proc, MoveCaller(w, s, proc, ch))
  {
  }

  lemma SpawnsOnlyActive(w: Wiring, s: State, p: nat, ch: Choice)
    requires p < |s.procs| && s.procs[p].root < |w.roots|
    ensures SpawnActive(w, s.shared, s.procs[p], Move(w, s, p, ch))
  {
    hide MoveTask, MoveCaller;
    var proc := s.procs[p];
    TaskSpawnsNothing(w, s.shared, proc, ch);
    CallerSpawns(w, s, proc, ch);
  }

  // ---------- Refreshes ----------

  /** A refresh under this coordination key is with the gateway, for a root or for a component. */
  predicate Refreshing(w: Wiring, proc: Proc, key: CoordinationKey) {
    || (proc.pc.TaskRefreshing? && proc.root < |w.roots| && w.roots[proc.root].coordination == key)
    || (proc.pc.ComponentRefreshing? && proc.pc.component < |w.components| &&
        w.components[proc.pc.component].coordination == key)
  }

  /** Over all clients, at most one refresh per coordination key is in flight. */
  lemma OneRefreshInFlight(w: Wiring, t: seq<State>, i: nat, p: nat, q: nat, key: CoordinationKey)
    requires Run(w, t) && i < |t| && p < |t[i].procs| && q < |t[i].procs|
    requires Refreshing(w, t[i].procs[p], key) && Refreshing(w, t[i].procs[q], key)
    ensures p == q
  {
    assert Exclusive(w, t[i]) by {
      RunInvariant(w, t, i);
    }
    RefreshHoldsSession(w, t[i].procs[p], key);
    RefreshHoldsSession(w, t[i].procs[q], key);
    OneHolder(w, t[i], p, q, SessionLock(key));
  }

  lemma RefreshHoldsSession(w: Wiring, proc: Proc, key: CoordinationKey)
    requires proc.root < |w.roots| && Refreshing(w, proc, key)
    ensures SessionLock(key) in Held(w, proc)
  {
  }

  /** Step `i` of the run hands a stored refresh token to the gateway. */
  predicate Presents(t: seq<State>, i: nat, p: nat, generation: nat) {
    && i + 1 < |t| && p < |t[i].procs| && p < |t[i + 1].procs|
    && !t[i].procs[p].pc.TaskRefreshing?
    && t[i + 1].procs[p].pc.TaskRefreshing? && t[i + 1].procs[p].pc.current.generation == generation
  }

  /** No step of the run presents a refresh token whose successor had been saved. */
  ghost predicate NeverReplays(t: seq<State>) {
    forall i: nat, p: nat, g: nat :: Presents(t, i, p, g) ==> g !in t[i].shared.superseded
  }

  lemma NoReplayAt(w: Wiring, t: seq<State>, i: nat, p: nat, g: nat)
    requires OneSessionPerStore(w) && Run(w, t) && Presents(t, i, p, g)
    ensures g !in t[i].shared.superseded
  {
    assert Next(w, t[i], t[i + 1]);
    hide Next, Apply, Run, OneSessionPerStore;
    NextSupersedes(w, t[i], t[i + 1]);
    RunInvariant(w, t, i + 1);
    RefreshIsNewest(w, t[i + 1], p);
  }

  /** What a refresh presents is newer than everything superseded at its store and key. */
  lemma RefreshIsNewest(w: Wiring, s: State, p: nat)
    requires HomeInv(w, s) && OrderInv(w, s) && p < |s.procs| && s.procs[p].pc.TaskRefreshing?
    ensures s.procs[p].pc.current.generation !in s.shared.superseded
  {
    assert HomeLocal(w, s.shared, s.procs[p]) && OrderLocal(w, s.shared, s.procs[p]);
  }

  lemma NextSupersedes(w: Wiring, s: State, s': State)
    requires Next(w, s, s')
    ensures s.shared.superseded <= s'.shared.superseded
  {
    var a :| Apply(w, s, a) == Some(s');
    if a.Advance? {
      MoveEffect(w, s, a.p, a.choice);
    }
  }

  lemma NoReplay(w: Wiring, t: seq<State>)
    requires OneSessionPerStore(w) && Run(w, t)
    ensures NeverReplays(t)
  {
    forall i: nat, p: nat, g: nat | Presents(t, i, p, g) ensures g !in t[i].shared.superseded {
      NoReplayAt(w, t, i, p, g);
    }
  }

  // ---------- Conditional clears ----------

  predicate Touches(pc: Pc) {
    pc.Clearing? || pc.TaskLoading?
  }

  /** A load leaves its store alone; a conditional clear may empty it of exactly a snapshot its target names. */
  predicate ClearsExactly(w: Wiring, s: State, p: nat, s': State) {
    p < |s.procs| && s.procs[p].root < |w.roots| && Touches(s.procs[p].pc) ==>
      var store, pc := w.roots[s.procs[p].root].store, s.procs[p].pc;
      || s'.shared.stores == s.shared.stores
      || (&& pc.Clearing? && store in s.shared.stores && Matches(s.shared.stores[store], pc.target)
          && s'.shared.stores == s.shared.stores - {store})
  }

  /** Step `i` of the run is the given region of process `p`. */
  predicate StepsAt(w: Wiring, t: seq<State>, i: nat, p: nat, ch: Choice) {
    i + 1 < |t| && RootsInRange(w, t[i]) && Apply(w, t[i], Advance(p, ch)) == Some(t[i + 1])
  }

  ghost predicate ClearsOnlyTargets(w: Wiring, t: seq<State>) {
    forall i: nat, p: nat, ch: Choice :: StepsAt(w, t, i, p, ch) ==> ClearsExactly(w, t[i], p, t[i + 1])
  }

  /** No store that a client uses can be wiped by a throwing keystore or cipher call. */
  predicate NoFragileStores(w: Wiring) {
    forall c | 0 <= c < |w.roots| :: w.roots[c].store !in w.bound || w.roots[c].store !in w.fragile
  }

  lemma ClearsTheirTarget(w: Wiring, t: seq<State>)
    requires UnboundStoresOwned(w) && NoFragileStores(w) && Run(w, t)
    ensures ClearsOnlyTargets(w, t)
  {
    forall i: nat, p: nat, ch: Choice | StepsAt(w, t, i, p, ch) ensures ClearsExactly(w, t[i], p, t[i + 1]) {
      assert TargetInv(w, t[i]) && ClearInv(w, t[i]) by {
        RunInvariant(w, t, i);
      }
      MoveEffect(w, t[i], p, ch);
      assert TargetLocal(w, t[i].procs[p]) && ClearLocal(w, t[i].shared, t[i].procs[p]);
    }
  }

  /** The step is a throwing call while a load or clear reads a snapshot that it does not name. */
  predicate Spoils(w: Wiring, s: State, p: nat, ch: Choice)
    requires p < |s.procs| && s.procs[p].root < |w.roots|
  {
    var store, pc := w.roots[s.procs[p].root].store, s.procs[p].pc;
    && ch.CipherFault? && store in s.shared.stores
    && (pc.Clearing? ==> !Matches(s.shared.stores[store], pc.target))
  }

  /** In a bound store a load or clear is exact in every run but for throwing keystore and cipher calls. */
  lemma BoundClearsAreExact(w: Wiring, t: seq<State>, i: nat, p: nat, ch: Choice)
    requires Run(w, t) && StepsAt(w, t, i, p, ch)
    requires p < |t[i].procs| && w.roots[t[i].procs[p].root].store in w.bound && Touches(t[i].procs[p].pc)
    ensures ClearsExactly(w, t[i], p, t[i + 1]) <==> !Spoils(w, t[i], p, ch)
  {
    assert TargetLocal(w, t[i].procs[p]) by {
      RunInvariant(w, t, i);
    }
    hide RecordClear, After, Flagged, Run, NonCancellable;
  }
}
