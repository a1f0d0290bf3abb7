/** Invariants of the session protocol and the whole-run safety theorems that follow from them. */
module SessionSafety {
  import opened Prelude
  import opened SessionModel

  // ---------- Mutual exclusion ----------

  predicate Exclusive(w: Wiring, s: State) {
    && RootsInRange(w, s)
    && forall p, q :: 0 <= p < q < |s.procs| ==> Held(w, s.procs[p]) !! Held(w, s.procs[q])
  }

  /** A region ends holding nothing but what it held or took, and a task it starts holds nothing. */
  predicate LocksGrow(w: Wiring, proc: Proc, step: Step)
    requires proc.root < |w.roots|
  {
    step.Step? ==>
      && step.next.root == proc.root
      && Held(w, step.next) <= Held(w, proc) + (if step.acquire.Some? then {step.acquire.value} else {})
      && (step.spawn.Some? ==> step.spawn.value.root == proc.root && Held(w, step.spawn.value) == {})
  }

  lemma ClearingLocks(w: Wiring, sh: Shared, proc: Proc, ch: Choice)
    requires proc.root < |w.roots| && proc.pc.Clearing?
    ensures LocksGrow(w, proc, MoveClearing(w, sh, proc, ch))
  {
  }

  lemma TaskLocks(w: Wiring, sh: Shared, proc: Proc, ch: Choice)
    requires proc.root < |w.roots|
    ensures LocksGrow(w, proc, MoveTask(w, sh, proc, ch))
  {
    hide Flagged, HomeOf, EmptyStore, Wipeable;
  }

  lemma CleanupLocks(w: Wiring, sh: Shared, proc: Proc, ch: Choice)
    requires proc.root < |w.roots|
    ensures LocksGrow(w, proc, MoveCleanup(w, sh, proc, ch))
  {
  }

  lemma CallerLocks(w: Wiring, s: State, proc: Proc, ch: Choice)
    requires proc.root < |w.roots|
    ensures LocksGrow(w, proc, MoveCaller(w, s, proc, ch))
  {
    hide Flagged;
  }

  lemma ComponentLocks(w: Wiring, sh: Shared, proc: Proc, ch: Choice)
    requires proc.root < |w.roots|
    ensures LocksGrow(w, proc, MoveComponent(w, sh, proc, ch))
  {
  }

  lemma MoveLocks(w: Wiring, s: State, p: nat, ch: Choice)
    requires p < |s.procs| && s.procs[p].root < |w.roots|
    ensures LocksGrow(w, s.procs[p], Move(w, s, p, ch))
  {
    var proc := s.procs[p];
    if proc.pc.Clearing? {
      ClearingLocks(w, s.shared, proc, ch);
    } else if IsTask(proc.pc) {
      TaskLocks(w, s.shared, proc, ch);
    } else if NonCancellable(proc.pc) {
      CleanupLocks(w, s.shared, proc, ch);
    } else if IsComponent(proc.pc) {
      ComponentLocks(w, s.shared, proc, ch);
    } else {
      CallerLocks(w, s, proc, ch);
    }
  }

  lemma ExclusiveNext(w: Wiring, s: State, a: Action)
    requires Exclusive(w, s) && Apply(w, s, a).Some?
    ensures Exclusive(w, Apply(w, s, a).value)
  {
    var s' := Apply(w, s, a).value;
    match a
    case Begin(proc) =>
      assert Held(w, proc) == {};
    case Advance(p, ch) =>
      MoveLocks(w, s, p, ch);
      var step := Move(w, s, p, ch);
      forall q | 0 <= q < |s.procs| && q != p
        ensures Held(w, s'.procs[q]) !! Held(w, s'.procs[p])
      {
        assert s'.procs[q] == s.procs[q] && s'.procs[p] == step.next;
        assert Held(w, s.procs[q]) !! Held(w, s.procs[p]);
      }
      forall i, j | 0 <= i < j < |s'.procs| ensures Held(w, s'.procs[i]) !! Held(w, s'.procs[j]) {
        if j < |s.procs| && i != p && j != p {
          assert s'.procs[i] == s.procs[i] && s'.procs[j] == s.procs[j];
        }
      }
  }

  /** A lock has at most one holder. */
  lemma OneHolder(w: Wiring, s: State, p: nat, q: nat, lock: Lock)
    requires Exclusive(w, s) && p < |s.procs| && q < |s.procs|
    requires lock in Held(w, s.procs[p]) && lock in Held(w, s.procs[q])
    ensures p == q
  {
  }

  // ---------- What one region changes in the shared state ----------

  /** The grant lands in the coordinator's own store, and its predecessor counts as superseded. */
  predicate Saves(w: Wiring, sh: Shared, proc: Proc, sh': Shared)
    requires proc.root < |w.roots|
  {
    && proc.pc.TaskSaving?
    && sh'.stores == sh.stores[w.roots[proc.root].store := proc.pc.grant]
    && sh'.superseded == sh.superseded + (if proc.pc.prior.Some? then {proc.pc.prior.value} else {})
  }

  /** A clear that holds the identity lock, or a load that wipes, empties the coordinator's own store. */
  predicate Empties(w: Wiring, sh: Shared, proc: Proc, sh': Shared)
    requires proc.root < |w.roots|
  {
    var store := w.roots[proc.root].store;
    && ((proc.pc.Clearing? && !proc.pc.stage.Wanting?) || proc.pc.TaskLoading?)
    && (proc.pc.Clearing? && proc.pc.stage.Holding? ==>
          && store in w.bound && store in sh.stores
          && (Matches(sh.stores[store], proc.pc.target) || Wipeable(w, sh, store)))
    && (proc.pc.TaskLoading? ==> Wipeable(w, sh, store))
    && sh'.stores == sh.stores - {store}
    && sh'.superseded == sh.superseded
  }

  predicate Effect(w: Wiring, sh: Shared, proc: Proc, sh': Shared)
    requires proc.root < |w.roots|
  {
    var key := KeyOf(w.roots[proc.root]);
    && sh.retired <= sh'.retired
    && sh.revoked <= sh'.revoked
    && (|| (sh'.keyReset == sh.keyReset && sh'.resets == sh.resets)
        || (proc.pc.Resetting? && sh'.keyReset == sh.keyReset + {key} && sh'.resets == sh.resets + multiset{key}))
    && (|| sh'.cleaned <= sh.cleaned
        || (proc.pc == Finish(true, true) && sh'.cleaned == sh.cleaned + {proc.root}))
    && (|| sh'.cleared == sh.cleared
        || (proc.pc.Clearing? && !proc.pc.stage.Wanting? && proc.pc.purpose.Cleanup? &&
            sh'.cleared == sh.cleared + {(w.roots[proc.root].store, key)}))
    && (|| (sh'.stores == sh.stores && sh'.superseded == sh.superseded)
        || Saves(w, sh, proc, sh')
        || Empties(w, sh, proc, sh'))
    && (|| sh'.issued == sh.issued
        || sh'.issued == sh.issued + [HomeOf(w.roots[proc.root])])
  }

  predicate StepEffect(w: Wiring, sh: Shared, proc: Proc, step: Step)
    requires proc.root < |w.roots|
  {
    step.Step? ==> Effect(w, sh, proc, step.shared)
  }

  lemma ClearingEffect(w: Wiring, sh: Shared, proc: Proc, ch: Choice)
    requires proc.root < |w.roots| && proc.pc.Clearing?
    ensures StepEffect(w, sh, proc, MoveClearing(w, sh, proc, ch))
  {
  }

  lemma TaskEffect(w: Wiring, sh: Shared, proc: Proc, ch: Choice)
    requires proc.root < |w.roots|
    ensures StepEffect(w, sh, proc, MoveTask(w, sh, proc, ch))
  {
  }

  lemma CleanupEffect(w: Wiring, sh: Shared, proc: Proc, ch: Choice)
    requires proc.root < |w.roots|
    ensures StepEffect(w, sh, proc, MoveCleanup(w, sh, proc, ch))
  {
  }

  lemma MoveEffect(w: Wiring, s: State, p: nat, ch: Choice)
    requires p < |s.procs| && s.procs[p].root < |w.roots|
    ensures StepEffect(w, s.shared, s.procs[p], Move(w, s, p, ch))
  {
    var proc := s.procs[p];
    if proc.pc.Clearing? {
      ClearingEffect(w, s.shared, proc, ch);
    } else if IsTask(proc.pc) {
      TaskEffect(w, s.shared, proc, ch);
    } else if NonCancellable(proc.pc) {
      CleanupEffect(w, s.shared, proc, ch);
    }
  }

  // ---------- Retirement ----------

  /** What a process may rely on about retirement, clearing and key reset at its program point. */
  ghost predicate RetireLocal(w: Wiring, sh: Shared, proc: Proc) {
    && proc.root < |w.roots|
    && var root := w.roots[proc.root]; var key := KeyOf(root); var pc := proc.pc;
    && (NonCancellable(pc) && !pc.MarkRetired? ==> key in sh.retired)
    && (pc.Clearing? && pc.purpose.Cleanup? ==> pc.target == Target(key, None))
    && ((pc == WantReset(true) || pc == Resetting(true) || (pc.Finish? && pc.cleared)) ==> (root.store, key) in sh.cleared)
    && (pc.Finish? && pc.reset && root.resettable ==> key in sh.keyReset)
    && (pc.Resetting? ==> key !in sh.keyReset)
    && (pc.TaskSaving? ==> pc.grant.jkt == key && forall st: StoreId :: (st, key) !in sh.cleared)
    && (pc.TaskPersist? ==> pc.grant.jkt == key)
    && (proc.stale ==> key in sh.retired && !Serving(pc))
  }

  /** The points a caller reaches only after it saw its key active. */
  predicate Serving(pc: Pc) {
    pc.Join? || pc.Await? || pc.Recheck? || pc.Prove? || pc.Confirm? || pc.Exchange? || pc.Authorized?
  }

  ghost predicate RetireShared(w: Wiring, sh: Shared) {
    && (forall st: StoreId, k: Key :: (st, k) in sh.cleared ==>
          k in sh.retired && (st in sh.stores ==> sh.stores[st].jkt != k))
    && (forall c <- sh.cleaned :: c < |w.roots| &&
          (w.roots[c].store, KeyOf(w.roots[c])) in sh.cleared &&
          (w.roots[c].resettable ==> KeyOf(w.roots[c]) in sh.keyReset))
    && (forall k: Key :: sh.resets[k] == if k in sh.keyReset then 1 else 0)
  }

  ghost predicate RetireInv(w: Wiring, s: State) {
    && RetireShared(w, s.shared)
    && forall p :: 0 <= p < |s.procs| ==> RetireLocal(w, s.shared, s.procs[p])
  }

  lemma EmptyRetire(w: Wiring, sh: Shared, store: StoreId)
    requires RetireShared(w, sh)
    ensures RetireShared(w, EmptyStore(sh, store))
  {
  }

  /** A cleanup that leaves its store without its key may record the clear. */
  lemma RecordRetire(w: Wiring, sh: Shared, root: nat, purpose: Purpose)
    requires root < |w.roots| && RetireShared(w, sh)
    requires purpose.Cleanup? ==> KeyOf(w.roots[root]) in sh.retired
    requires purpose.Cleanup? && w.roots[root].store in sh.stores ==>
               sh.stores[w.roots[root].store].jkt != KeyOf(w.roots[root])
    ensures RetireShared(w, RecordClear(w, sh, root, purpose))
  {
  }

  lemma ClearingRetireShared(w: Wiring, s: State, proc: Proc, ch: Choice)
    requires proc.pc.Clearing? && RetireShared(w, s.shared) && RetireLocal(w, s.shared, proc)
    ensures var step := MoveClearing(w, s.shared, proc, ch);
            step.Step? ==> RetireShared(w, step.shared)
  {
    var sh, store := s.shared, w.roots[proc.root].store;
    var emptied := EmptyStore(sh, store);
    EmptyRetire(w, sh, store);
    RecordRetire(w, emptied, proc.root, proc.pc.purpose);
    if !(store in sh.stores && Matches(sh.stores[store], proc.pc.target)) {
      RecordRetire(w, sh, proc.root, proc.pc.purpose);
    }
    var recorded, both := RecordClear(w, sh, proc.root, proc.pc.purpose), RecordClear(w, emptied, proc.root, proc.pc.purpose);
    var step := MoveClearing(w, sh, proc, ch);
    assert step.Step? ==> step.shared == sh || step.shared == emptied || step.shared == both || step.shared == recorded;
  }

  lemma ClearingRetireLocal(w: Wiring, s: State, proc: Proc, ch: Choice)
    requires proc.pc.Clearing? && RetireLocal(w, s.shared, proc)
    ensures var step := MoveClearing(w, s.shared, proc, ch);
            step.Step? ==> RetireLocal(w, step.shared, step.next) && step.spawn.None?
  {
    hide Matches, Wipeable;
  }

  /** Saving a grant of an active key leaves what was cleared clear. */
  lemma SaveRetire(w: Wiring, sh: Shared, store: StoreId, grant: Snapshot, superseded: set<nat>)
    requires RetireShared(w, sh) && forall st: StoreId :: (st, grant.jkt) !in sh.cleared
    ensures RetireShared(w, sh.(stores := sh.stores[store := grant], superseded := superseded))
  {
  }

  lemma IssueRetire(w: Wiring, sh: Shared, issued: seq<Home>)
    requires RetireShared(w, sh)
    ensures RetireShared(w, sh.(issued := issued))
  {
  }

  lemma TaskRetireShared(w: Wiring, s: State, proc: Proc, ch: Choice)
    requires RetireShared(w, s.shared) && RetireLocal(w, s.shared, proc)
    ensures var step := MoveTask(w, s.shared, proc, ch);
            step.Step? ==> RetireShared(w, step.shared) && step.spawn.None?
  {
    hide RetireShared;
    var sh, step := s.shared, MoveTask(w, s.shared, proc, ch);
    if step.Step? {
      if proc.pc.TaskSaving? {
        SaveRetire(w, sh, w.roots[proc.root].store, proc.pc.grant, step.shared.superseded);
      } else if proc.pc.TaskLoading? {
        EmptyRetire(w, sh, w.roots[proc.root].store);
      } else {
        IssueRetire(w, sh, step.shared.issued);
      }
    }
  }

  lemma TaskRetireLocal(w: Wiring, s: State, proc: Proc, ch: Choice)
    requires RetireShared(w, s.shared) && RetireLocal(w, s.shared, proc)
    ensures var step := MoveTask(w, s.shared, proc, ch);
            step.Step? ==> RetireLocal(w, step.shared, step.next)
  {
    hide HomeOf;
  }

  lemma CleanupRetireShared(w: Wiring, s: State, proc: Proc, ch: Choice)
    requires RetireShared(w, s.shared) && RetireLocal(w, s.shared, proc)
    ensures var step := MoveCleanup(w, s.shared, proc, ch);
            step.Step? ==> RetireShared(w, step.shared) && step.spawn.None?
  {
    hide Flagged, HomeOf;
  }

  lemma CleanupRetireLocal(w: Wiring, s: State, proc: Proc, ch: Choice)
    requires RetireLocal(w, s.shared, proc)
    ensures var step := MoveCleanup(w, s.shared, proc, ch);
            step.Step? ==> RetireLocal(w, step.shared, step.next)
  {
    hide Flagged, HomeOf;
  }

  lemma InFlightRetire(w: Wiring, sh: Shared, inFlight: map<nat, nat>)
    requires RetireShared(w, sh)
    ensures RetireShared(w, sh.(inFlight := inFlight))
  {
  }

  lemma CallerShares(w: Wiring, s: State, proc: Proc, ch: Choice)
    requires proc.root < |w.roots|
    ensures var step := MoveCaller(w, s, proc, ch);
            step.Step? ==> step.shared == s.shared.(inFlight := step.shared.inFlight)
  {
    hide Flagged;
  }

  lemma CallerRetire(w: Wiring, s: State, proc: Proc, ch: Choice)
    requires RetireShared(w, s.shared) && RetireLocal(w, s.shared, proc)
    ensures var step := MoveCaller(w, s, proc, ch);
            step.Step? ==>
              && RetireShared(w, step.shared) && RetireLocal(w, step.shared, step.next)
              && (step.spawn.Some? ==> RetireLocal(w, step.shared, step.spawn.value))
  {
    hide RetireShared;
    var step := MoveCaller(w, s, proc, ch);
    CallerShares(w, s, proc, ch);
    if step.Step? {
      InFlightRetire(w, s.shared, step.shared.inFlight);
    }
  }

  /** Aborted and component regions leave the shared state alone and reach nothing that relies on it. */
  lemma AsideRetire(w: Wiring, s: State, p: nat, ch: Choice)
    requires p < |s.procs| && RetireShared(w, s.shared) && RetireLocal(w, s.shared, s.procs[p])
    requires ch.Abort? || Finished(s.procs[p].pc) || IsComponent(s.procs[p].pc)
    ensures var step := Move(w, s, p, ch);
            step.Step? ==> step.shared == s.shared && RetireLocal(w, step.shared, step.next) && step.spawn.None?
  {
    hide MoveTask, MoveCleanup, MoveCaller, MoveClearing;
  }

  /** Other processes keep what they rely on, because the locks they hold keep their state still. */
  lemma RetireStable(w: Wiring, sh: Shared, sh': Shared, mover: Proc, other: Proc)
    requires mover.root < |w.roots| && other.root < |w.roots|
    requires Held(w, mover) !! Held(w, other)
    requires Effect(w, sh, mover, sh') && RetireLocal(w, sh, mover)
    requires RetireLocal(w, sh, other)
    ensures RetireLocal(w, sh', other)
  {
  }

  lemma MoveRetire(w: Wiring, s: State, p: nat, ch: Choice)
    requires p < |s.procs| && RetireShared(w, s.shared) && RetireLocal(w, s.shared, s.procs[p])
    ensures var step := Move(w, s, p, ch);
            step.Step? ==>
              && RetireShared(w, step.shared) && RetireLocal(w, step.shared, step.next)
              && (step.spawn.Some? ==> RetireLocal(w, step.shared, step.spawn.value))
  {
    hide MoveTask, MoveCleanup, MoveCaller, MoveClearing, MoveComponent, RetireShared;
    var proc := s.procs[p];
    if ch.Abort? || Finished(proc.pc) || IsComponent(proc.pc) {
      AsideRetire(w, s, p, ch);
    } else if proc.pc.Clearing? {
      ClearingRetireShared(w, s, proc, ch);
      ClearingRetireLocal(w, s, proc, ch);
    } else if IsTask(proc.pc) {
      TaskRetireShared(w, s, proc, ch);
      TaskRetireLocal(w, s, proc, ch);
    } else if NonCancellable(proc.pc) {
      CleanupRetireShared(w, s, proc, ch);
      CleanupRetireLocal(w, s, proc, ch);
    } else {
      CallerRetire(w, s, proc, ch);
    }
  }

  lemma RetireNext(w: Wiring, s: State, a: Action)
    requires Exclusive(w, s) && RetireInv(w, s) && Apply(w, s, a).Some?
    ensures RetireInv(w, Apply(w, s, a).value)
  {
    if a.Advance? {
      var s' := Apply(w, s, a).value;
      MoveRetire(w, s, a.p, a.choice);
      MoveEffect(w, s, a.p, a.choice);
      forall q | 0 <= q < |s.procs| && q != a.p ensures RetireLocal(w, s'.shared, s'.procs[q]) {
        assert Held(w, s.procs[q]) !! Held(w, s.procs[a.p]);
        RetireStable(w, s.shared, s'.shared, s.procs[a.p], s.procs[q]);
      }
    }
  }

  // ---------- Lineage of generations ----------

  /** A snapshot was granted to the given home. */
  predicate From(sh: Shared, home: Home, snapshot: Snapshot) {
    snapshot.jkt == home.key && snapshot.generation < |sh.issued| && sh.issued[snapshot.generation] == home
  }

  /** The snapshot a task loaded and may still hand to the gateway. */
  function Loaded(pc: Pc): Option<Snapshot> {
    match pc
    case TaskDeciding(_, stored) => stored
    case TaskRefreshing(current) => Some(current)
    case _ => None
  }

  /** The grant a task is about to save, with its predecessor. */
  function Pending(pc: Pc): Option<(Snapshot, Option<nat>)> {
    match pc
    case TaskPersist(grant, prior) => Some((grant, prior))
    case TaskSaving(grant, prior) => Some((grant, prior))
    case _ => None
  }

  predicate HomeLocal(w: Wiring, sh: Shared, proc: Proc) {
    && proc.root < |w.roots|
    && var home := HomeOf(w.roots[proc.root]);
    && (Loaded(proc.pc).Some? ==> From(sh, home, Loaded(proc.pc).value))
    && (Pending(proc.pc).Some? ==>
          var (grant, prior) := Pending(proc.pc).value;
          From(sh, home, grant) &&
          (prior.Some? ==> prior.value < grant.generation && sh.issued[prior.value] == home))
  }

  predicate HomeShared(sh: Shared) {
    && (forall st <- sh.stores :: From(sh, Home(st, sh.stores[st].jkt), sh.stores[st]))
    && (forall x <- sh.superseded :: x < |sh.issued|)
  }

  predicate HomeInv(w: Wiring, s: State) {
    && HomeShared(s.shared)
    && forall p :: 0 <= p < |s.procs| ==> HomeLocal(w, s.shared, s.procs[p])
  }

  lemma HomeStable(w: Wiring, sh: Shared, mover: Proc, sh': Shared, other: Proc)
    requires mover.root < |w.roots| && Effect(w, sh, mover, sh')
    requires HomeLocal(w, sh, other)
    ensures HomeLocal(w, sh', other)
  {
  }

  lemma HomeSharedNext(w: Wiring, sh: Shared, mover: Proc, sh': Shared)
    requires HomeShared(sh) && HomeLocal(w, sh, mover) && Effect(w, sh, mover, sh')
    ensures HomeShared(sh')
  {
  }

  lemma TaskHome(w: Wiring, sh: Shared, proc: Proc, ch: Choice)
    requires HomeShared(sh) && HomeLocal(w, sh, proc)
    ensures var step := MoveTask(w, sh, proc, ch);
            step.Step? ==> HomeLocal(w, step.shared, step.next)
  {
  }

  lemma MoveHome(w: Wiring, s: State, p: nat, ch: Choice)
    requires p < |s.procs| && HomeShared(s.shared) && HomeLocal(w, s.shared, s.procs[p])
    ensures var step := Move(w, s, p, ch);
            step.Step? ==>
              && HomeLocal(w, step.shared, step.next)
              && (step.spawn.Some? ==> HomeLocal(w, step.shared, step.spawn.value))
  {
    hide MoveTask, MoveCleanup, MoveCaller, MoveClearing, MoveComponent, HomeShared;
    var proc := s.procs[p];
    MoveLocks(w, s, p, ch);
    if proc.pc.Clearing? || !IsTask(proc.pc) {
      MoveIdle(w, s, p, ch);
    } else if !ch.Abort? && !Finished(proc.pc) {
      TaskHome(w, s.shared, proc, ch);
      TaskSpawnsNothing(w, s.shared, proc, ch);
    }
  }

  lemma HomeNext(w: Wiring, s: State, a: Action)
    requires RootsInRange(w, s) && HomeInv(w, s) && Apply(w, s, a).Some?
    ensures HomeInv(w, Apply(w, s, a).value)
  {
    if a.Advance? {
      var s' := Apply(w, s, a).value;
      MoveHome(w, s, a.p, a.choice);
      MoveEffect(w, s, a.p, a.choice);
      HomeSharedNext(w, s.shared, s.procs[a.p], s'.shared);
      forall q | 0 <= q < |s.procs| && q != a.p ensures HomeLocal(w, s'.shared, s'.procs[q]) {
        HomeStable(w, s.shared, s.procs[a.p], s'.shared, s.procs[q]);
      }
    }
  }

  // ---------- Order of generations ----------

  /** Clients that share a store and a key also share the lock that serialises their refreshes. */
  predicate OneSessionPerStore(w: Wiring) {
    forall a, b | 0 <= a < |w.roots| && 0 <= b < |w.roots| ::
      HomeOf(w.roots[a]) == HomeOf(w.roots[b]) ==> w.roots[a].coordination == w.roots[b].coordination
  }

  /** Every superseded generation of this home is older than `generation`. */
  predicate Newer(sh: Shared, home: Home, generation: nat) {
    forall x <- sh.superseded :: x < |sh.issued| && sh.issued[x] == home ==> x < generation
  }

  predicate OrderLocal(w: Wiring, sh: Shared, proc: Proc) {
    && proc.root < |w.roots|
    && var home := HomeOf(w.roots[proc.root]);
    && (Loaded(proc.pc).Some? ==> Newer(sh, home, Loaded(proc.pc).value.generation))
    && (Pending(proc.pc).Some? ==> Newer(sh, home, Pending(proc.pc).value.0.generation))
  }

  predicate OrderShared(sh: Shared) {
    forall st <- sh.stores :: Newer(sh, Home(st, sh.stores[st].jkt), sh.stores[st].generation)
  }

  predicate OrderInv(w: Wiring, s: State) {
    && OrderShared(s.shared)
    && forall p :: 0 <= p < |s.procs| ==> OrderLocal(w, s.shared, s.procs[p])
  }

  lemma OrderSharedNext(w: Wiring, sh: Shared, mover: Proc, sh': Shared)
    requires HomeShared(sh) && HomeLocal(w, sh, mover) && Effect(w, sh, mover, sh')
    requires OrderShared(sh) && OrderLocal(w, sh, mover)
    ensures OrderShared(sh')
  {
  }

  /** A generation that is granted now is newer than every superseded one. */
  lemma FreshIsNewer(sh: Shared, home: Home)
    requires HomeShared(sh)
    ensures Newer(sh.(issued := sh.issued + [home]), home, |sh.issued|)
  {
  }

  lemma TaskOrder(w: Wiring, sh: Shared, proc: Proc, ch: Choice)
    requires HomeShared(sh) && OrderShared(sh) && OrderLocal(w, sh, proc)
    ensures var step := MoveTask(w, sh, proc, ch);
            step.Step? ==> OrderLocal(w, step.shared, step.next)
  {
    hide Flagged, Wipeable, HomeShared;
    var home := HomeOf(w.roots[proc.root]);
    FreshIsNewer(sh, home);
    var step := MoveTask(w, sh, proc, ch);
    if step.Step? {
      if proc.pc.TaskRefreshing? || proc.pc.TaskEstablishing? {
        assert step.shared == sh || step.shared == sh.(issued := sh.issued + [home]);
      } else if proc.pc.TaskSaving? {
        assert Loaded(step.next.pc).None? && Pending(step.next.pc).None?;
      } else if ch.CipherFault? {
        assert !Carries(step.next);
      } else {
        assert step.shared == sh;
      }
    }
  }

  /** Only the regions of a task carry a generation on. */
  predicate Carries(proc: Proc) {
    Loaded(proc.pc).Some? || Pending(proc.pc).Some?
  }

  predicate StepIdle(step: Step) {
    step.Step? ==> !Carries(step.next) && (step.spawn.Some? ==> !Carries(step.spawn.value))
  }

  lemma MoveIdle(w: Wiring, s: State, p: nat, ch: Choice)
    requires p < |s.procs| && s.procs[p].root < |w.roots|
    requires s.procs[p].pc.Clearing? || !IsTask(s.procs[p].pc)
    ensures StepIdle(Move(w, s, p, ch))
  {
    hide EmptyStore, RecordClear, Matches, Flagged, Wipeable;
    var proc := s.procs[p];
    if proc.pc.Clearing? {
      assert StepIdle(MoveClearing(w, s.shared, proc, ch));
    } else if NonCancellable(proc.pc) {
      assert StepIdle(MoveCleanup(w, s.shared, proc, ch));
    } else if IsComponent(proc.pc) {
      assert StepIdle(MoveComponent(w, s.shared, proc, ch));
    } else {
      assert StepIdle(MoveCaller(w, s, proc, ch));
    }
  }

  lemma MoveOrder(w: Wiring, s: State, p: nat, ch: Choice)
    requires p < |s.procs| && HomeShared(s.shared) && OrderShared(s.shared) && OrderLocal(w, s.shared, s.procs[p])
    ensures var step := Move(w, s, p, ch);
            step.Step? ==>
              && OrderLocal(w, step.shared, step.next)
              && (step.spawn.Some? ==> OrderLocal(w, step.shared, step.spawn.value))
  {
    var proc := s.procs[p];
    MoveLocks(w, s, p, ch);
    if proc.pc.Clearing? || !IsTask(proc.pc) {
      MoveIdle(w, s, p, ch);
    } else if !ch.Abort? && !Finished(proc.pc) {
      TaskOrder(w, s.shared, proc, ch);
      assert Move(w, s, p, ch) == MoveTask(w, s.shared, proc, ch);
      TaskSpawnsNothing(w, s.shared, proc, ch);
    }
  }

  lemma TaskSpawnsNothing(w: Wiring, sh: Shared, proc: Proc, ch: Choice)
    requires proc.root < |w.roots|
    ensures var step := MoveTask(w, sh, proc, ch); step.Step? ==> step.spawn.None?
  {
  }

  /** A task that still relies on a generation holds the lock under which its successor could be saved. */
  lemma OrderStable(w: Wiring, sh: Shared, mover: Proc, sh': Shared, other: Proc)
    requires OneSessionPerStore(w)
    requires HomeLocal(w, sh, mover) && HomeLocal(w, sh, other)
    requires Held(w, mover) !! Held(w, other)
    requires Effect(w, sh, mover, sh') && HomeShared(sh)
    requires OrderLocal(w, sh, other)
    ensures OrderLocal(w, sh', other)
  {
    var lock := SessionLock(w.roots[other.root].coordination);
    assert Loaded(other.pc).Some? || Pending(other.pc).Some? ==> lock in Held(w, other);
    assert lock !in Held(w, mover) || lock !in Held(w, other);
  }

  lemma OrderNext(w: Wiring, s: State, a: Action)
    requires OneSessionPerStore(w)
    requires Exclusive(w, s) && HomeInv(w, s) && OrderInv(w, s) && Apply(w, s, a).Some?
    ensures OrderInv(w, Apply(w, s, a).value)
  {
    if a.Advance? {
      var s', proc := Apply(w, s, a).value, s.procs[a.p];
      MoveEffect(w, s, a.p, a.choice);
      OrderSharedNext(w, s.shared, proc, s'.shared);
      MoveOrder(w, s, a.p, a.choice);
      forall q | 0 <= q < |s.procs| && q != a.p ensures OrderLocal(w, s'.shared, s'.procs[q]) {
        assert Held(w, proc) !! Held(w, s.procs[q]);
        OrderStable(w, s.shared, proc, s'.shared, s.procs[q]);
      }
    }
  }

  // ---------- Conditional clears ----------

  /** A store that cannot compare and clear in one critical section belongs to clients of one key. */
  predicate UnboundStoresOwned(w: Wiring) {
    forall a, b | 0 <= a < |w.roots| && 0 <= b < |w.roots| ::
      w.roots[a].store == w.roots[b].store && w.roots[a].store !in w.bound ==>
        KeyOf(w.roots[a]) == KeyOf(w.roots[b])
  }

  /** Between its load and its save a task has seen its store free of foreign snapshots. */
  predicate PastLoad(pc: Pc) {
    || pc.TaskDeciding? || pc.TaskRefreshing? || pc.TaskEstablishing? || pc.TaskPersist? || pc.TaskSaving?
    || (pc.Clearing? && pc.purpose.Replace?)
  }

  /** Facts about the target of a clear that need no assumption about the wiring. */
  predicate TargetLocal(w: Wiring, proc: Proc) {
    && proc.root < |w.roots|
    && (proc.pc.Clearing? ==>
          && (proc.pc.purpose.Foreign? ==>
                proc.pc.target.key != KeyOf(w.roots[proc.root]) && proc.pc.target.generation.None?)
          && (!proc.pc.purpose.Foreign? ==> proc.pc.target.key == KeyOf(w.roots[proc.root]))
          && (proc.pc.stage.Committing? ==> w.roots[proc.root].store !in w.bound))
  }

  predicate ClearLocal(w: Wiring, sh: Shared, proc: Proc) {
    && proc.root < |w.roots|
    && var store, key := w.roots[proc.root].store, KeyOf(w.roots[proc.root]);
    && (store !in w.bound ==>
          && (PastLoad(proc.pc) && store in sh.stores ==> sh.stores[store].jkt == key)
          && (proc.pc.Clearing? && proc.pc.purpose.Foreign? && store in sh.stores ==>
                sh.stores[store].jkt in {key, proc.pc.target.key})
          && (proc.pc.Clearing? && proc.pc.stage.Committing? ==>
                store in sh.stores && Matches(sh.stores[store], proc.pc.target)))
  }

  predicate TargetInv(w: Wiring, s: State) {
    forall p :: 0 <= p < |s.procs| ==> TargetLocal(w, s.procs[p])
  }

  predicate ClearInv(w: Wiring, s: State) {
    forall p :: 0 <= p < |s.procs| ==> ClearLocal(w, s.shared, s.procs[p])
  }

  predicate StepTarget(w: Wiring, step: Step) {
    step.Step? ==> TargetLocal(w, step.next) && (step.spawn.Some? ==> TargetLocal(w, step.spawn.value))
  }

  lemma TaskTarget(w: Wiring, sh: Shared, proc: Proc, ch: Choice)
    requires TargetLocal(w, proc)
    ensures StepTarget(w, MoveTask(w, sh, proc, ch))
  {
    hide Flagged;
  }

  lemma CallerTarget(w: Wiring, s: State, proc: Proc, ch: Choice)
    requires TargetLocal(w, proc)
    ensures StepTarget(w, MoveCaller(w, s, proc, ch))
  {
    hide Flagged;
  }

  lemma MoveTarget(w: Wiring, s: State, p: nat, ch: Choice)
    requires p < |s.procs| && TargetLocal(w, s.procs[p])
    ensures StepTarget(w, Move(w, s, p, ch))
  {
    hide MoveTask, MoveCaller, EmptyStore, RecordClear, Matches, Flagged;
    TaskTarget(w, s.shared, s.procs[p], ch);
    CallerTarget(w, s, s.procs[p], ch);
  }

  predicate StepClear(w: Wiring, step: Step) {
    step.Step? ==>
      ClearLocal(w, step.shared, step.next) && (step.spawn.Some? ==> ClearLocal(w, step.shared, step.spawn.value))
  }

  /** Outside a task and a clear in progress, the next point relies on nothing in the store. */
  predicate Detached(proc: Proc) {
    !PastLoad(proc.pc) && (proc.pc.Clearing? ==> proc.pc.stage.Wanting? && !proc.pc.purpose.Foreign?)
  }

  predicate StepDetached(step: Step) {
    step.Step? ==> Detached(step.next) && (step.spawn.Some? ==> Detached(step.spawn.value))
  }

  lemma CallerDetached(w: Wiring, s: State, proc: Proc, ch: Choice)
    requires proc.root < |w.roots|
    ensures StepDetached(MoveCaller(w, s, proc, ch))
  {
    hide Flagged;
  }

  lemma MoveDetached(w: Wiring, s: State, p: nat, ch: Choice)
    requires p < |s.procs| && s.procs[p].root < |w.roots| && !IsTask(s.procs[p].pc) && !s.procs[p].pc.Clearing?
    ensures StepDetached(Move(w, s, p, ch))
  {
    hide Flagged, MoveCaller, MoveTask, MoveClearing;
    var proc := s.procs[p];
    if NonCancellable(proc.pc) {
      assert StepDetached(MoveCleanup(w, s.shared, proc, ch));
    } else if IsComponent(proc.pc) {
      assert StepDetached(MoveComponent(w, s.shared, proc, ch));
    } else {
      CallerDetached(w, s, proc, ch);
    }
  }

  lemma ClearingClear(w: Wiring, sh: Shared, proc: Proc, ch: Choice)
    requires proc.pc.Clearing? && TargetLocal(w, proc) && ClearLocal(w, sh, proc)
    ensures StepClear(w, MoveClearing(w, sh, proc, ch))
  {
  }

  lemma TaskClear(w: Wiring, sh: Shared, proc: Proc, ch: Choice)
    requires ClearLocal(w, sh, proc)
    ensures StepClear(w, MoveTask(w, sh, proc, ch))
  {
  }

  lemma MoveClear(w: Wiring, s: State, p: nat, ch: Choice)
    requires p < |s.procs| && TargetLocal(w, s.procs[p]) && ClearLocal(w, s.shared, s.procs[p])
    ensures StepClear(w, Move(w, s, p, ch))
  {
    var proc := s.procs[p];
    if proc.pc.Clearing? {
      ClearingClear(w, s.shared, proc, ch);
    } else if IsTask(proc.pc) {
      TaskClear(w, s.shared, proc, ch);
    } else {
      MoveDetached(w, s, p, ch);
      MoveLocks(w, s, p, ch);
    }
  }

  lemma ClearStable(w: Wiring, sh: Shared, mover: Proc, sh': Shared, other: Proc)
    requires UnboundStoresOwned(w)
    requires TargetLocal(w, mover) && TargetLocal(w, other)
    requires Held(w, mover) !! Held(w, other)
    requires HomeLocal(w, sh, mover) && Effect(w, sh, mover, sh')
    requires ClearLocal(w, sh, mover) && ClearLocal(w, sh, other)
    ensures ClearLocal(w, sh', other)
  {
  }

  lemma TargetNext(w: Wiring, s: State, a: Action)
    requires RootsInRange(w, s) && TargetInv(w, s) && Apply(w, s, a).Some?
    ensures TargetInv(w, Apply(w, s, a).value)
  {
    if a.Advance? {
      MoveTarget(w, s, a.p, a.choice);
    }
  }

  lemma ClearNext(w: Wiring, s: State, a: Action)
    requires UnboundStoresOwned(w)
    requires Exclusive(w, s) && HomeInv(w, s) && TargetInv(w, s) && ClearInv(w, s) && Apply(w, s, a).Some?
    ensures ClearInv(w, Apply(w, s, a).value)
  {
    if a.Advance? {
      var s', proc := Apply(w, s, a).value, s.procs[a.p];
      MoveEffect(w, s, a.p, a.choice);
      MoveClear(w, s, a.p, a.choice);
      forall q | 0 <= q < |s.procs| && q != a.p ensures ClearLocal(w, s'.shared, s'.procs[q]) {
        assert Held(w, proc) !! Held(w, s.procs[q]);
        ClearStable(w, s.shared, proc, s'.shared, s.procs[q]);
      }
    }
  }
}
