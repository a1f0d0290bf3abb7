/**
 * The locks below the session protocol: the mutex of a storage namespace and that of a keystore alias. A
 * region takes one at a time, for one call, while it may hold any of the protocol's own locks; so they come
 * last in the lock order, and freedom from deadlock carries over.
 */
module SessionLeaves {
  import opened Prelude
  import opened SessionModel
  import opened SessionSafety
  import opened SessionProgress

  datatype Leaf = NamespaceLock(store: StoreId) | AliasLock(alias: nat)

  /** Under which alias a key lives, and in which namespace a component keeps its session. */
  datatype Places = Places(alias: Key -> nat, namespace: nat -> StoreId)

  /** The leaf locks that the calls of a region take, one after the other. */
  function Uses(w: Wiring, places: Places, proc: Proc): set<Leaf>
    requires proc.root < |w.roots|
  {
    var store := NamespaceLock(w.roots[proc.root].store);
    var signer := AliasLock(places.alias(KeyOf(w.roots[proc.root])));
    match proc.pc
    case Enter(_) => if proc.outer.Some? then ComponentUses(w, places, proc.outer.value) else {}
    case TaskLoading(_) => {store, signer}
    case TaskRefreshing(_) => {signer}
    case TaskEstablishing => {signer}
    case TaskSaving(_, _) => {store, signer}
    case TaskSaved(_) => {signer}
    case Clearing(stage, _, _) => if stage.Wanting? then {} else {store}
    case Recheck(_, _) => {signer}
    case Prove(_, _, _) => {signer}
    case Confirm(_, _, _) => {signer}
    case Resetting(_) => {signer}
    case ComponentWorking(i) => ComponentUses(w, places, i)
    case ComponentRefreshing(i) => ComponentUses(w, places, i)
    case _ => {}
  }

  function ComponentUses(w: Wiring, places: Places, i: nat): set<Leaf> {
    if i < |w.components|
    then {NamespaceLock(places.namespace(i)), AliasLock(places.alias(w.components[i].coordination.signerIdentity))}
    else {}
  }

  /** The protocol with the holder of each leaf lock. */
  datatype Layered = Layered(state: State, leaves: map<Leaf, nat>)

  datatype Call = Acquire(p: nat, leaf: Leaf) | Release(leaf: Leaf) | Perform(action: Action)

  predicate HoldsLeaf(l: Layered, p: nat) {
    exists leaf <- l.leaves :: l.leaves[leaf] == p
  }

  /** The leaf locks that other processes hold. */
  function Others(leaves: map<Leaf, nat>, p: nat): map<Leaf, nat> {
    map leaf | leaf in leaves && leaves[leaf] != p :: leaves[leaf]
  }

  /**
   * A process acquires a leaf lock for a call of its region, holding no other, or releases it again; a region
   * that uses leaf locks takes effect under one of them and then holds none. Cancellation needs no lock.
   */
  function ApplyLayered(w: Wiring, places: Places, l: Layered, c: Call): Option<Layered>
    requires RootsInRange(w, l.state)
  {
    match c
    case Acquire(p, leaf) =>
      if p < |l.state.procs| && leaf in Uses(w, places, l.state.procs[p]) && leaf !in l.leaves && !HoldsLeaf(l, p)
      then Some(l.(leaves := l.leaves[leaf := p])) else None
    case Release(leaf) => if leaf in l.leaves then Some(l.(leaves := l.leaves - {leaf})) else None
    case Perform(action) =>
      var next := Apply(w, l.state, action);
      if next.None? then None
      else if action.Begin? then Some(Layered(next.value, l.leaves))
      else if Uses(w, places, l.state.procs[action.p]) == {} || HoldsLeaf(l, action.p) || action.choice.Abort?
      then Some(Layered(next.value, Others(l.leaves, action.p))) else None
  }

  ghost predicate NextLayered(w: Wiring, places: Places, l: Layered, l': Layered) {
    RootsInRange(w, l.state) && exists c :: ApplyLayered(w, places, l, c) == Some(l')
  }

  ghost predicate RunLayered(w: Wiring, places: Places, t: seq<Layered>) {
    && |t| > 0 && Initial(t[0].state) && t[0].leaves == map[]
    && forall i :: 0 <= i < |t| - 1 ==> NextLayered(w, places, t[i], t[i + 1])
  }

  // ---------- What every step keeps ----------

  /** A leaf lock is held by a process whose region uses it. */
  predicate LeafInv(w: Wiring, places: Places, l: Layered)
    requires RootsInRange(w, l.state)
  {
    forall leaf <- l.leaves ::
      l.leaves[leaf] < |l.state.procs| && leaf in Uses(w, places, l.state.procs[l.leaves[leaf]])
  }

  predicate LayeredInv(w: Wiring, places: Places, l: Layered) {
    Exclusive(w, l.state) && LinkInv(w, l.state) && LeafInv(w, places, l)
  }

  lemma LayeredNext(w: Wiring, places: Places, l: Layered, c: Call)
    requires LayeredInv(w, places, l) && ApplyLayered(w, places, l, c).Some?
    ensures LayeredInv(w, places, ApplyLayered(w, places, l, c).value)
  {
    assert RootsInRange(w, l.state);
    if c.Perform? {
      hide LinkInv, Uses, Move, Held;
      ExclusiveNext(w, l.state, c.action);
      LinkNext(w, l.state, c.action);
      LeavesNext(w, places, l, c.action);
    } else {
      hide Exclusive, LinkInv, Uses;
    }
  }

  /** Only the process that moves changes its region, and it gives up its leaf lock. */
  lemma LeavesNext(w: Wiring, places: Places, l: Layered, a: Action)
    requires RootsInRange(w, l.state) && LeafInv(w, places, l) && ApplyLayered(w, places, l, Perform(a)).Some?
    requires RootsInRange(w, ApplyLayered(w, places, l, Perform(a)).value.state)
    ensures LeafInv(w, places, ApplyLayered(w, places, l, Perform(a)).value)
  {
    hide Uses, Move;
  }

  lemma {:induction false} RunLayeredInv(w: Wiring, places: Places, t: seq<Layered>, i: nat)
    requires RunLayered(w, places, t) && i < |t|
    ensures LayeredInv(w, places, t[i])
  {
    hide ApplyLayered;
    if i > 0 {
      RunLayeredInv(w, places, t, i - 1);
      assert NextLayered(w, places, t[i - 1], t[i]);
      var c :| ApplyLayered(w, places, t[i - 1], c) == Some(t[i]);
      LayeredNext(w, places, t[i - 1], c);
    }
  }

  // ---------- Progress ----------

  ghost predicate CanCall(w: Wiring, places: Places, l: Layered)
    requires RootsInRange(w, l.state)
  {
    exists c: Call ::
      && !c.Release? && (c.Perform? ==> c.action.Advance? && !c.action.choice.Abort?)
      && ApplyLayered(w, places, l, c).Some?
  }

  /** A region that uses leaf locks neither queues for a lock of the protocol nor awaits a task. */
  lemma UsersAreFree(w: Wiring, places: Places, proc: Proc)
    requires proc.root < |w.roots| && Uses(w, places, proc) != {}
    ensures !Finished(proc.pc) && !Waits(proc.pc) && Wanted(w, proc).None?
  {
  }

  lemma PerformGoesOn(w: Wiring, places: Places, l: Layered, p: nat)
    requires RootsInRange(w, l.state) && p < |l.state.procs| && CanStep(w, l.state, p)
    requires Uses(w, places, l.state.procs[p]) == {} || HoldsLeaf(l, p)
    ensures CanCall(w, places, l)
  {
    hide Uses, HoldsLeaf, Move;
    var ch: Choice :| !ch.Abort? && Apply(w, l.state, Advance(p, ch)).Some?;
    assert ApplyLayered(w, places, l, Perform(Advance(p, ch))).Some?;
  }

  /** A process that the protocol lets go on gets its leaf lock, or the holder of that lock goes on. */
  lemma LeafGoesOn(w: Wiring, places: Places, l: Layered, q: nat)
    requires LayeredInv(w, places, l) && q < |l.state.procs| && CanStep(w, l.state, q)
    ensures CanCall(w, places, l)
  {
    assert RootsInRange(w, l.state);
    hide CanStep, Exclusive, RootsInRange, Uses;
    if Uses(w, places, l.state.procs[q]) == {} || HoldsLeaf(l, q) {
      PerformGoesOn(w, places, l, q);
    } else {
      var leaf :| leaf in Uses(w, places, l.state.procs[q]);
      if leaf in l.leaves {
        var h := l.leaves[leaf];
        UsersAreFree(w, places, l.state.procs[h]);
        assert Linked(w, l.state, l.state.procs[h]);
        GoesOn(w, l.state, h);
        assert HoldsLeaf(l, h);
        PerformGoesOn(w, places, l, h);
      } else {
        assert ApplyLayered(w, places, l, Acquire(q, leaf)).Some?;
      }
    }
  }

  /**
   * With the namespace and alias locks as the last two ranks below an order of the coordination keys, some
   * process can always take a lock or go on, as long as any is unfinished.
   */
  lemma NoDeadlockWithLeaves(
      w: Wiring, places: Places, rank: CoordinationKey -> nat, limit: nat, t: seq<Layered>, i: nat, p: nat)
    requires LockOrder(w, rank, limit) && RunLayered(w, places, t) && i < |t|
    requires p < |t[i].state.procs| && !Finished(t[i].state.procs[p].pc)
    ensures RootsInRange(w, t[i].state) && CanCall(w, places, t[i])
  {
    hide RunLayered, CanCall, CanStep, LinkInv, LeafInv;
    RunLayeredInv(w, places, t, i);
    var c := SomeoneSteps(w, rank, limit, t[i].state, p);
    LeafGoesOn(w, places, t[i], c[|c| - 1]);
  }
}
